/** The walk over a laid-out visual tree (gui/ChronoMock.App.Tests/LayoutProbe.cs, LaidOutElement.cs): an explicit
    stack that carries what is inherited on the way down, and the list it builds. */
module LayoutWalk {
  import opened Wrappers

  /** A region as WPF has it: closed, by its edges, or the empty one. */
  datatype Rect = Empty | Rect(left: real, top: real, right: real, bottom: real)

  predicate Proper(r: Rect) { r.Rect? ==> r.left <= r.right && r.top <= r.bottom }

  function Max(a: real, b: real): real { if a < b then b else a }

  function Min(a: real, b: real): real { if a < b then a else b }

  /** `Rect.Intersect`: two that only touch share an edge, two apart share nothing. */
  function Intersect(a: Rect, b: Rect): Rect {
    if a.Empty? || b.Empty? || b.left > a.right || b.right < a.left || b.top > a.bottom || b.bottom < a.top then Empty
    else Rect(Max(a.left, b.left), Max(a.top, b.top), Min(a.right, b.right), Min(a.bottom, b.bottom))
  }

  predicate Holds(r: Rect, x: real, y: real) { r.Rect? && r.left <= x <= r.right && r.top <= y <= r.bottom }

  lemma IntersectHolds(a: Rect, b: Rect, x: real, y: real)
    requires Proper(a) && Proper(b)
    ensures Holds(Intersect(a, b), x, y) <==> Holds(a, x, y) && Holds(b, x, y)
    ensures Proper(Intersect(a, b))
  {
  }

  /** What the walk asks of a node's type: a scroll viewer with the axes it scrolls, its presenter, or neither. */
  datatype Kind = Viewer(across: bool, down: bool) | Presenter | Plain

  /** One node of the visual tree. `bounds` are its own in the root's coordinates: none for what is no framework
      element, and for one not connected to the root. Only a visual has children to walk. */
  datatype Node = Node(
    kind: Kind,
    bounds: Option<Rect>,
    shows: bool,
    clips: bool,
    isControl: bool,
    isVisual: bool,
    children: seq<Node>)

  predicate Sized(n: Node) { n.bounds.Some? ==> n.bounds.value.Rect? && Proper(n.bounds.value) }

  /** What a node inherits from those above it; `path` is the way to it from the root, by child positions. */
  datatype Inherited = Inherited(
    path: seq<nat>,
    across: bool,
    down: bool,
    clip: Option<Rect>,
    visible: bool,
    parent: int,
    inside: bool)

  const TOP := Inherited([], false, false, None, true, -1, false)

  /** One element of the list. */
  datatype LaidOut = LaidOut(
    path: seq<nat>,
    bounds: Rect,
    visible: bool,
    across: bool,
    down: bool,
    clip: Option<Rect>,
    ownControl: bool,
    parent: int)

  const UNBOUNDED := 1000000.0

  /** A viewport as a clip: its own edges in each axis that does not scroll, none in each that does. */
  function Viewport(presenter: Rect, across: bool, down: bool): Rect
    requires presenter.Rect?
  {
    Rect(if across then -UNBOUNDED else presenter.left,
         if down then -UNBOUNDED else presenter.top,
         if across then UNBOUNDED else presenter.right,
         if down then UNBOUNDED else presenter.bottom)
  }

  function Narrowed(clip: Option<Rect>, cut: Rect): Option<Rect> {
    Some(if clip.Some? then Intersect(clip.value, cut) else cut)
  }

  /** The axes content below the node scrolls in: the nearest viewer's. */
  function Axes(n: Node, across: bool, down: bool): (bool, bool) {
    if n.kind.Viewer? then (n.kind.across, n.kind.down) else (across, down)
  }

  /** The region the node itself cuts its content to, if it cuts. */
  function OwnClip(n: Node, across: bool, down: bool): Option<Rect> {
    if n.bounds.None? || n.bounds.value.Empty? then None
    else if n.clips && n.kind.Plain? then n.bounds
    else if n.kind.Presenter? && !(across && down) then Some(Viewport(n.bounds.value, across, down))
    else None
  }

  /** What a node hands down to its children. */
  function HandDown(n: Node, i: Inherited, index: int): Inherited {
    var (across, down) := Axes(n, i.across, i.down);
    var own := OwnClip(n, across, down);
    Inherited(i.path, across, down, if own.Some? then Narrowed(i.clip, own.value) else i.clip,
              i.visible && n.shows, index, i.inside || n.isControl)
  }

  function Describe(n: Node, i: Inherited): LaidOut
    requires n.bounds.Some?
  {
    LaidOut(i.path, n.bounds.value, i.visible && n.shows, i.across, i.down, i.clip, n.isControl && !i.inside, i.parent)
  }

  function ChildOf(i: Inherited, k: nat): Inherited { i.(path := i.path + [k]) }

  /** The recursive walk: the node if it has bounds, then its children in visual order. `at` is where in the list
      it begins. */
  function Listed(n: Node, i: Inherited, at: nat): seq<LaidOut>
    decreases n, 1
  {
    var own := if n.bounds.Some? then [Describe(n, i)] else [];
    own + (if n.isVisual then
             ListedFrom(n, 0, HandDown(n, i, if n.bounds.Some? then at else -1), at + |own|)
           else [])
  }

  function ListedFrom(n: Node, k: nat, below: Inherited, at: nat): seq<LaidOut>
    requires k <= |n.children|
    decreases n, 0, |n.children| - k
  {
    if k == |n.children| then []
    else
      var first := Listed(n.children[k], ChildOf(below, k), at);
      first + ListedFrom(n, k + 1, below, at + |first|)
  }

  // --- The loop ---

  datatype Step = Step(node: Node, inherited: Inherited)

  function NodesIn(n: Node): nat
    decreases n, 1
  {
    1 + NodesFrom(n, 0)
  }

  function NodesFrom(n: Node, k: nat): nat
    requires k <= |n.children|
    decreases n, 0, |n.children| - k
  {
    if k == |n.children| then 0 else NodesIn(n.children[k]) + NodesFrom(n, k + 1)
  }

  /** The stack, top first: what it still comes to, and how many nodes are under it. */
  function Rest(pending: seq<Step>, at: nat): seq<LaidOut>
    decreases |pending|
  {
    if pending == [] then []
    else
      var first := Listed(pending[0].node, pending[0].inherited, at);
      first + Rest(pending[1..], at + |first|)
  }

  function Under(pending: seq<Step>): nat
    decreases |pending|
  {
    if pending == [] then 0 else NodesIn(pending[0].node) + Under(pending[1..])
  }

  /** The node's children from the k-th on, as the steps they are walked by. */
  function ChildSteps(n: Node, k: nat, below: Inherited): seq<Step>
    requires k <= |n.children|
    decreases |n.children| - k
  {
    if k == |n.children| then [] else [Step(n.children[k], ChildOf(below, k))] + ChildSteps(n, k + 1, below)
  }

  lemma {:induction false} RestOfChildren(n: Node, k: nat, below: Inherited, pending: seq<Step>, at: nat)
    requires k <= |n.children|
    ensures Rest(ChildSteps(n, k, below) + pending, at)
         == ListedFrom(n, k, below, at) + Rest(pending, at + |ListedFrom(n, k, below, at)|)
    ensures Under(ChildSteps(n, k, below) + pending) == NodesFrom(n, k) + Under(pending)
    decreases |n.children| - k
  {
    hide Listed, NodesIn;
    if k == |n.children| {
      assert ChildSteps(n, k, below) + pending == pending;
    } else {
      var first := Listed(n.children[k], ChildOf(below, k), at);
      RestOfChildren(n, k + 1, below, pending, at + |first|);
      assert (ChildSteps(n, k, below) + pending)[1..] == ChildSteps(n, k + 1, below) + pending;
      assert (ChildSteps(n, k, below) + pending)[0] == Step(n.children[k], ChildOf(below, k));
    }
  }

  /** `PushChildren`: the last child first, so that the first is on top. */
  method PushChildren(pending: seq<Step>, n: Node, below: Inherited) returns (pushed: seq<Step>)
    ensures pushed == ChildSteps(n, 0, below) + pending
  {
    pushed := pending;
    var k := |n.children|;
    while k > 0
      invariant 0 <= k <= |n.children|
      invariant pushed == ChildSteps(n, k, below) + pending
    {
      k := k - 1;
      pushed := [Step(n.children[k], ChildOf(below, k))] + pushed;
    }
  }

  /** What one turn of the loop leaves on the stack. */
  function Replaced(step: Step, index: int, rest: seq<Step>): seq<Step> {
    if step.node.isVisual then ChildSteps(step.node, 0, HandDown(step.node, step.inherited, index)) + rest else rest
  }

  lemma TopFirst(step: Step, rest: seq<Step>, at: nat)
    ensures var first := Listed(step.node, step.inherited, at);
      Rest([step] + rest, at) == first + Rest(rest, at + |first|)
    ensures Under([step] + rest) == NodesIn(step.node) + Under(rest)
  {
    hide Listed, NodesIn;
    assert ([step] + rest)[1..] == rest;
  }

  lemma OneTurn(step: Step, rest: seq<Step>, at: nat)
    ensures var own := if step.node.bounds.Some? then [Describe(step.node, step.inherited)] else [];
      var index := if step.node.bounds.Some? then at else -1;
      && Rest([step] + rest, at) == own + Rest(Replaced(step, index, rest), at + |own|)
      && Under(Replaced(step, index, rest)) < Under([step] + rest)
  {
    hide ListedFrom, HandDown, Describe, NodesFrom, Rest, Under, ChildSteps;
    var own := if step.node.bounds.Some? then [Describe(step.node, step.inherited)] else [];
    var index := if step.node.bounds.Some? then at else -1;
    TopFirst(step, rest, at);
    if step.node.isVisual {
      RestOfChildren(step.node, 0, HandDown(step.node, step.inherited, index), rest, at + |own|);
    }
  }

  /** The walk as the code runs it, with a stack of its own. */
  method Walk(root: Node) returns (found: seq<LaidOut>)
    ensures found == Listed(root, TOP, 0)
  {
    hide Listed, HandDown, Describe, ChildSteps, Rest, Under;
    found := [];
    var pending := [Step(root, TOP)];
    AtFirst(root);
    while pending != []
      invariant found + Rest(pending, |found|) == Listed(root, TOP, 0)
      decreases Under(pending)
    {
      var step := pending[0];
      OneTurn(step, pending[1..], |found|);
      assert pending == [step] + pending[1..];
      pending := pending[1..];
      var index := -1;
      if step.node.bounds.Some? {
        index := |found|;
        found := found + [Describe(step.node, step.inherited)];
      }
      if step.node.isVisual {
        pending := PushChildren(pending, step.node, HandDown(step.node, step.inherited, index));
      }
    }
    AtLast(|found|);
  }

  lemma AtFirst(root: Node)
    ensures Rest([Step(root, TOP)], 0) == Listed(root, TOP, 0)
  {
    TopFirst(Step(root, TOP), [], 0);
    assert [Step(root, TOP)] == [Step(root, TOP)] + [];
  }

  lemma AtLast(at: nat)
    ensures Rest([], at) == []
  {
  }
}
