/** What the walked list says of the tree: each element's inherited facts against their meaning over its ancestors,
    and each recorded node in its place. */
module LayoutTree {
  import opened LayoutWalk
  import opened Wrappers

  // --- A node by its path ---

  function Above(path: seq<nat>): seq<nat>
    requires path != []
  {
    path[..|path| - 1]
  }

  function At(root: Node, path: seq<nat>): Node
    decreases |path|
  {
    if path == [] then root
    else
      var n := At(root, Above(path));
      if path[|path| - 1] < |n.children| then n.children[path[|path| - 1]] else n
  }

  /** The path leads through visuals to a node of the tree. */
  predicate OnTree(root: Node, path: seq<nat>)
    decreases |path|
  {
    path == []
    || (&& OnTree(root, Above(path)) && At(root, Above(path)).isVisual
        && path[|path| - 1] < |At(root, Above(path)).children|)
  }

  lemma Down(root: Node, path: seq<nat>, k: nat)
    ensures Above(path + [k]) == path
    ensures OnTree(root, path + [k]) <==>
            OnTree(root, path) && At(root, path).isVisual && k < |At(root, path).children|
    ensures OnTree(root, path + [k]) ==> At(root, path + [k]) == At(root, path).children[k]
  {
    assert Above(path + [k]) == path;
  }

  // --- What is inherited, said over the ancestors ---

  /** Every strict ancestor is shown. */
  predicate ShownAbove(root: Node, path: seq<nat>) {
    forall k :: 0 <= k < |path| ==> At(root, path[..k]).shows
  }

  /** Some strict ancestor is a control. */
  predicate InsideAControl(root: Node, path: seq<nat>) {
    exists k :: 0 <= k < |path| && At(root, path[..k]).isControl
  }

  /** The axes of the nearest viewer strictly above; none scrolls where there is no viewer. */
  function AxesAt(root: Node, path: seq<nat>): (bool, bool)
    decreases |path|
  {
    if path == [] then (false, false)
    else
      var n := At(root, Above(path));
      if n.kind.Viewer? then (n.kind.across, n.kind.down) else AxesAt(root, Above(path))
  }

  function ClipAt(root: Node, path: seq<nat>): Option<Rect> {
    var n := At(root, path);
    var (a, d) := AxesAt(root, path);
    var (across, down) := Axes(n, a, d);
    OwnClip(n, across, down)
  }

  predicate InClip(clip: Option<Rect>, x: real, y: real) { clip.None? || Holds(clip.value, x, y) }

  /** Outside an edge of an axis; one that scrolls has its edges past any window. */
  predicate Past(p: real, from: real, to: real, scrolls: bool) {
    if scrolls then p < -UNBOUNDED || UNBOUNDED < p else p < from || to < p
  }

  /** The node cuts off the point of what is below it: a recorded one that clips, outside its bounds; a presenter whose
      nearest viewer does not scroll both ways, past its bounds in each axis not scrolled; a viewer and any other
      node, nowhere. */
  predicate CutsOff(root: Node, path: seq<nat>, x: real, y: real) {
    var n := At(root, path);
    && n.bounds.Some? && n.bounds.value.Rect?
    && var r := n.bounds.value;
    match n.kind
    case Plain => n.clips && (Past(x, r.left, r.right, false) || Past(y, r.top, r.bottom, false))
    case Presenter =>
      var (across, down) := AxesAt(root, path);
      !(across && down) && (Past(x, r.left, r.right, across) || Past(y, r.top, r.bottom, down))
    case Viewer(_, _) => false
  }

  /** The region a node cuts its content to is what it does not cut off. */
  lemma OwnClipCuts(root: Node, path: seq<nat>, x: real, y: real)
    ensures InClip(ClipAt(root, path), x, y) <==> !CutsOff(root, path, x, y)
  {
    hide At;
  }

  /** The point is cut off by no strict ancestor. */
  predicate Uncut(root: Node, path: seq<nat>, x: real, y: real) {
    forall k :: 0 <= k < |path| ==> !CutsOff(root, path[..k], x, y)
  }

  ghost predicate ClipMeans(root: Node, path: seq<nat>, clip: Option<Rect>) {
    && (clip.Some? ==> Proper(clip.value))
    && forall x, y :: InClip(clip, x, y) <==> Uncut(root, path, x, y)
  }

  ghost predicate Inherits(root: Node, i: Inherited) {
    && OnTree(root, i.path)
    && i.visible == ShownAbove(root, i.path)
    && (i.across, i.down) == AxesAt(root, i.path)
    && i.inside == InsideAControl(root, i.path)
    && ClipMeans(root, i.path, i.clip)
  }

  /** An element of the list is a recorded node of the tree, with all that is inherited as it is meant. */
  ghost predicate Faithful(root: Node, e: LaidOut) {
    && OnTree(root, e.path) && At(root, e.path).bounds == Some(e.bounds)
    && e.visible == (ShownAbove(root, e.path) && At(root, e.path).shows)
    && (e.across, e.down) == AxesAt(root, e.path)
    && e.ownControl == (At(root, e.path).isControl && !InsideAControl(root, e.path))
    && ClipMeans(root, e.path, e.clip)
  }

  ghost predicate AllSized(root: Node) { forall path :: OnTree(root, path) ==> Sized(At(root, path)) }

  /** Within the reach of any window, a viewport cuts in each axis it does not scroll, at its presenter's edges,
      and in no other. */
  lemma AViewportCutsWhatItDoesNotScroll(presenter: Rect, across: bool, down: bool, x: real, y: real)
    requires presenter.Rect? && -UNBOUNDED <= x <= UNBOUNDED && -UNBOUNDED <= y <= UNBOUNDED
    ensures Holds(Viewport(presenter, across, down), x, y) <==>
            (across || presenter.left <= x <= presenter.right) && (down || presenter.top <= y <= presenter.bottom)
  {
  }

  lemma UncutBelow(root: Node, path: seq<nat>, k: nat, x: real, y: real)
    ensures Uncut(root, path + [k], x, y) <==> Uncut(root, path, x, y) && !CutsOff(root, path, x, y)
  {
    hide CutsOff;
    assert forall j :: 0 <= j < |path| ==> (path + [k])[..j] == path[..j];
    assert (path + [k])[..|path|] == path;
  }

  lemma ShownBelow(root: Node, path: seq<nat>, k: nat)
    ensures ShownAbove(root, path + [k]) <==> ShownAbove(root, path) && At(root, path).shows
    ensures InsideAControl(root, path + [k]) <==> InsideAControl(root, path) || At(root, path).isControl
  {
    assert forall j :: 0 <= j < |path| ==> (path + [k])[..j] == path[..j];
    assert (path + [k])[..|path|] == path;
    if InsideAControl(root, path) {
      var j :| 0 <= j < |path| && At(root, path[..j]).isControl;
      assert At(root, (path + [k])[..j]).isControl;
    }
    if At(root, path).isControl {
      assert At(root, (path + [k])[..|path|]).isControl;
    }
  }

  lemma ClipBelow(root: Node, n: Node, i: Inherited, index: int, k: nat)
    requires Inherits(root, i) && n == At(root, i.path) && AllSized(root)
    ensures ClipMeans(root, i.path + [k], HandDown(n, i, index).clip)
  {
    hide Uncut, Proper, CutsOff;
    var clip := HandDown(n, i, index).clip;
    var own := ClipAt(root, i.path);
    OwnClipIsProper(root, i.path);
    forall x, y ensures InClip(clip, x, y) <==> Uncut(root, i.path + [k], x, y) {
      UncutBelow(root, i.path, k, x, y);
      OwnClipCuts(root, i.path, x, y);
      if own.Some? && i.clip.Some? {
        IntersectHolds(i.clip.value, own.value, x, y);
      }
    }
    if own.Some? && i.clip.Some? {
      IntersectHolds(i.clip.value, own.value, 0.0, 0.0);
    }
  }

  lemma OwnClipIsProper(root: Node, path: seq<nat>)
    requires OnTree(root, path) && AllSized(root)
    ensures ClipAt(root, path).Some? ==> Proper(ClipAt(root, path).value)
  {
    assert Sized(At(root, path));
  }

  lemma InheritsBelow(root: Node, n: Node, i: Inherited, index: int, k: nat)
    requires Inherits(root, i) && n == At(root, i.path) && AllSized(root) && n.isVisual && k < |n.children|
    ensures Inherits(root, ChildOf(HandDown(n, i, index), k)) && At(root, i.path + [k]) == n.children[k]
    ensures ChildOf(HandDown(n, i, index), k).path == i.path + [k]
  {
    hide ClipMeans;
    Down(root, i.path, k);
    ShownBelow(root, i.path, k);
    ClipBelow(root, n, i, index, k);
  }

  ghost predicate AllFaithful(root: Node, found: seq<LaidOut>) {
    forall j :: 0 <= j < |found| ==> Faithful(root, found[j])
  }

  lemma {:induction false} ListedIsFaithful(root: Node, n: Node, i: Inherited, at: nat)
    requires Inherits(root, i) && n == At(root, i.path) && AllSized(root)
    ensures AllFaithful(root, Listed(n, i, at))
    decreases n, 1
  {
    hide ListedFrom, ClipMeans, AllSized, HandDown, At;
    if n.isVisual {
      ListedFromIsFaithful(root, n, 0, i, if n.bounds.Some? then at else -1, at + if n.bounds.Some? then 1 else 0);
    }
  }

  lemma {:induction false} ListedFromIsFaithful(root: Node, n: Node, k: nat, i: Inherited, index: int, at: nat)
    requires Inherits(root, i) && n == At(root, i.path) && AllSized(root) && n.isVisual && k <= |n.children|
    ensures AllFaithful(root, ListedFrom(n, k, HandDown(n, i, index), at))
    decreases n, 0, |n.children| - k
  {
    hide Listed, ClipMeans, AllSized, HandDown, At, Inherits, Faithful;
    if k < |n.children| {
      var below := HandDown(n, i, index);
      InheritsBelow(root, n, i, index, k);
      ListedIsFaithful(root, n.children[k], ChildOf(below, k), at);
      ListedFromIsFaithful(root, n, k + 1, i, index, at + |Listed(n.children[k], ChildOf(below, k), at)|);
    }
  }

  /** Every element of the walk is a recorded node of the tree: visible iff it and every ancestor shows, scrolling
      where its nearest viewer scrolls, a control of its own iff no ancestor is one, and clipped to exactly what
      no strict ancestor cuts off. */
  lemma WalkIsFaithful(root: Node)
    requires AllSized(root)
    ensures AllFaithful(root, Listed(root, TOP, 0))
  {
    ListedIsFaithful(root, root, TOP, 0);
  }
}
