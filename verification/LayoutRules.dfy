/** The rules read off the walked list (gui/ChronoMock.App.Tests/LayoutRules.cs), and what it means that they
    report nothing. */
module LayoutRules {
  import LayoutPlaces
  import opened LayoutTree
  import opened LayoutWalk
  import opened Wrappers

  /** Half a pixel. */
  const TOLERANCE := 0.5

  /** `IsEmpty`: too small to be seen. */
  predicate Thin(r: Rect) { r.Empty? || r.right - r.left <= TOLERANCE || r.bottom - r.top <= TOLERANCE }

  predicate Overlaps(a: Rect, b: Rect) { !Thin(Intersect(a, b)) }

  /** `Contains`: inside, to within the tolerance. */
  predicate Contains(outer: Rect, inner: Rect)
    requires outer.Rect? && inner.Rect?
  {
    && inner.left >= outer.left - TOLERANCE && inner.top >= outer.top - TOLERANCE
    && inner.right <= outer.right + TOLERANCE && inner.bottom <= outer.bottom + TOLERANCE
  }

  predicate Drawn(e: LaidOut) { e.visible && !Thin(e.bounds) }

  /** `PastAHardClip`, for one element: nothing of it is inside its clip. */
  predicate ClippedAway(e: LaidOut) { Drawn(e) && e.clip.Some? && !Overlaps(e.clip.value, e.bounds) }

  /** `PartlyPastAHardClip`, for one element: a control of its own that its clip cuts. */
  predicate Cut(e: LaidOut)
    requires e.bounds.Rect?
  {
    Drawn(e) && e.ownControl && e.clip.Some? && Overlaps(e.clip.value, e.bounds) && !Contains(e.clip.value, e.bounds)
  }

  /** `ReachesPastUnscrolled`: past an edge in an axis that does not scroll. */
  predicate ReachesPast(outer: Rect, e: LaidOut)
    requires outer.Rect? && e.bounds.Rect?
  {
    || (!e.across && (e.bounds.left < outer.left - TOLERANCE || e.bounds.right > outer.right + TOLERANCE))
    || (!e.down && (e.bounds.top < outer.top - TOLERANCE || e.bounds.bottom > outer.bottom + TOLERANCE))
  }

  /** Two boxes have room in common: two points of both, more than half a pixel apart in both axes. */
  ghost predicate Share(a: Rect, b: Rect) { exists x, y, p, q :: Room(a, b, x, y, p, q) }

  predicate Room(a: Rect, b: Rect, x: real, y: real, p: real, q: real) {
    Holds(a, x, y) && Holds(b, x, y) && Holds(a, p, q) && Holds(b, p, q) && p - x > 0.5 && q - y > 0.5
  }

  lemma OverlapsIff(a: Rect, b: Rect)
    ensures Overlaps(a, b) <==> Share(a, b)
  {
    var both := Intersect(a, b);
    if Overlaps(a, b) {
      IntersectHolds(a, b, both.left, both.top);
      IntersectHolds(a, b, both.right, both.bottom);
      assert Room(a, b, both.left, both.top, both.right, both.bottom);
    }
    if x, y, p, q :| Room(a, b, x, y, p, q) {
      IntersectHolds(a, b, x, y);
      IntersectHolds(a, b, p, q);
    }
  }

  lemma ThinIff(r: Rect)
    ensures Thin(r) <==> !Share(r, r)
  {
    if !Thin(r) {
      assert Room(r, r, r.left, r.top, r.right, r.bottom);
    }
  }

  /** Half a pixel from the box in each axis, or in it. */
  predicate Near(r: Rect, x: real, y: real) {
    r.Rect? && r.left - 0.5 <= x <= r.right + 0.5 && r.top - 0.5 <= y <= r.bottom + 0.5
  }

  lemma ContainsIff(outer: Rect, inner: Rect)
    requires outer.Rect? && inner.Rect? && Proper(inner)
    ensures Contains(outer, inner) <==> forall x, y :: Holds(inner, x, y) ==> Near(outer, x, y)
  {
    assert Holds(inner, inner.left, inner.top) && Holds(inner, inner.right, inner.bottom);
  }

  /** What the two clip rules report: of what is shown and has room, what shares no room with its clip; and of controls
      of their own, those that share some with it and have a point further from it than half a pixel. */
  lemma TheClipRulesReportIff(e: LaidOut)
    requires e.bounds.Rect? && Proper(e.bounds)
    ensures ClippedAway(e) <==>
            e.visible && Share(e.bounds, e.bounds) && e.clip.Some? && !Share(e.clip.value, e.bounds)
    ensures Cut(e) <==>
            && e.visible && Share(e.bounds, e.bounds) && e.ownControl && e.clip.Some?
            && Share(e.clip.value, e.bounds)
            && exists x, y :: Holds(e.bounds, x, y) && !Near(e.clip.value, x, y)
  {
    hide Share, Near;
    ThinIff(e.bounds);
    if e.clip.Some? {
      OverlapsIff(e.clip.value, e.bounds);
      if e.clip.value.Rect? {
        ContainsIff(e.clip.value, e.bounds);
      }
    }
  }

  predicate Whole(found: seq<LaidOut>) {
    forall i :: 0 <= i < |found| ==> found[i].bounds.Rect? && -1 <= found[i].parent < i
  }

  predicate Spills(found: seq<LaidOut>, i: nat)
    requires Whole(found) && i < |found|
  {
    && Drawn(found[i]) && found[i].parent >= 0 && Drawn(found[found[i].parent])
    && ReachesPast(found[found[i].parent].bounds, found[i])
  }

  /** More than half a pixel past an edge of the box, in an axis that does not scroll. */
  predicate SticksOut(outer: Rect, e: LaidOut, x: real, y: real)
    requires outer.Rect?
  {
    || (!e.across && (x < outer.left - 0.5 || outer.right + 0.5 < x))
    || (!e.down && (y < outer.top - 0.5 || outer.bottom + 0.5 < y))
  }

  /** An element reaches past a box exactly if some point of it sticks out: an axis that scrolls is excused. */
  lemma ReachesPastIff(outer: Rect, e: LaidOut)
    requires outer.Rect? && e.bounds.Rect? && Proper(e.bounds)
    ensures ReachesPast(outer, e) <==> exists x, y :: Holds(e.bounds, x, y) && SticksOut(outer, e, x, y)
  {
    var b := e.bounds;
    assert Holds(b, b.left, b.top) && Holds(b, b.right, b.bottom);
    if ReachesPast(outer, e) {
      assert SticksOut(outer, e, b.left, b.top) || SticksOut(outer, e, b.right, b.bottom);
    }
  }

  /** What spills: of what is shown and has room, in a parent that is and has, what sticks out of it. */
  lemma SpillsIff(found: seq<LaidOut>, i: nat)
    requires Whole(found) && i < |found| && Proper(found[i].bounds)
    ensures var e := found[i];
      Spills(found, i) <==>
        && e.visible && Share(e.bounds, e.bounds) && e.parent >= 0
        && found[e.parent].visible && Share(found[e.parent].bounds, found[e.parent].bounds)
        && exists x, y :: Holds(e.bounds, x, y) && SticksOut(found[e.parent].bounds, e, x, y)
  {
    hide Share, ReachesPast, Thin;
    ThinIff(found[i].bounds);
    if found[i].parent >= 0 {
      ThinIff(found[found[i].parent].bounds);
      ReachesPastIff(found[found[i].parent].bounds, found[i]);
    }
    hide SticksOut, Holds;
  }

  /** `SpillsOutOfItsParent`: every element that spills, in the order of the list. */
  method SpillsOutOfItsParent(found: seq<LaidOut>) returns (complaints: seq<nat>)
    requires Whole(found)
    ensures forall i: int :: i in complaints <==> 0 <= i < |found| && Spills(found, i)
    ensures forall a, b :: 0 <= a < b < |complaints| ==> complaints[a] < complaints[b]
  {
    complaints := [];
    var i := 0;
    while i < |found|
      invariant 0 <= i <= |found|
      invariant forall j: int :: j in complaints <==> 0 <= j < i && Spills(found, j)
      invariant forall a, b :: 0 <= a < b < |complaints| ==> complaints[a] < complaints[b]
    {
      var child := found[i];
      if Drawn(child) && child.parent >= 0 && Drawn(found[child.parent]) {
        if ReachesPast(found[child.parent].bounds, child) {
          assert forall a :: 0 <= a < |complaints| ==> complaints[a] in complaints;
          complaints := complaints + [i];
        }
      }
      i := i + 1;
    }
  }

  lemma WalkIsWhole(root: Node)
    requires AllSized(root)
    ensures Whole(Listed(root, TOP, 0))
  {
    WalkIsFaithful(root);
    forall i | 0 <= i < |Listed(root, TOP, 0)|
      ensures Listed(root, TOP, 0)[i].bounds.Rect? && -1 <= Listed(root, TOP, 0)[i].parent < i
    {
      hide Listed;
      assert Faithful(root, Listed(root, TOP, 0)[i]);
      assert Sized(At(root, Listed(root, TOP, 0)[i].path));
      LayoutPlaces.ParentsAreNamed(root, i);
    }
  }

  // --- What an empty report means ---

  /** `k` steps up from an element, each of them drawn and none in a scroller of the axis. */
  predicate Chain(found: seq<LaidOut>, i: nat, k: nat, across: bool)
    requires Whole(found) && i < |found|
    decreases k
  {
    && Drawn(found[i])
    && (k > 0 ==>
          && found[i].parent >= 0 && !(if across then found[i].across else found[i].down)
          && Chain(found, found[i].parent, k - 1, across))
  }

  function Up(found: seq<LaidOut>, i: nat, k: nat): (a: nat)
    requires Whole(found) && i < |found|
    ensures a < |found|
    decreases k
  {
    if k == 0 || found[i].parent < 0 then i else Up(found, found[i].parent, k - 1)
  }

  predicate Within(outer: Rect, inner: Rect, slack: real, across: bool)
    requires outer.Rect? && inner.Rect?
  {
    if across then inner.left >= outer.left - slack && inner.right <= outer.right + slack
    else inner.top >= outer.top - slack && inner.bottom <= outer.bottom + slack
  }

  /** Where nothing spills, an element reaches past one `k` levels above it by `k` tolerances at most. */
  lemma {:induction false} SlackAddsUp(found: seq<LaidOut>, i: nat, k: nat, across: bool)
    requires Whole(found) && i < |found| && Chain(found, i, k, across)
    requires forall j :: 0 <= j < |found| ==> !Spills(found, j)
    ensures Within(found[Up(found, i, k)].bounds, found[i].bounds, k as real * TOLERANCE, across)
    decreases k
  {
    if k > 0 {
      SlackAddsUp(found, found[i].parent, k - 1, across);
      assert !Spills(found, i);
      assert Drawn(found[found[i].parent]);
      assert Within(found[found[i].parent].bounds, found[i].bounds, TOLERANCE, across);
    }
  }

  predicate NothingSpills(found: seq<LaidOut>) {
    Whole(found) ==> forall i :: 0 <= i < |found| ==> !Spills(found, i)
  }

  function Axis(axes: (bool, bool), across: bool): bool { if across then axes.0 else axes.1 }

  /** From `k` levels above the path down to it: nodes recorded and not too thin to be seen, and below the topmost
      none in a scroller of the axis. */
  predicate Firm(root: Node, path: seq<nat>, k: nat, across: bool)
    requires k <= |path|
  {
    && (forall m :: |path| - k <= m < |path| ==>
          At(root, path[..m]).bounds.Some? && !Thin(At(root, path[..m]).bounds.value))
    && (forall m :: |path| - k < m <= |path| ==> !Axis(AxesAt(root, path[..m]), across))
  }

  lemma FirmAbove(root: Node, path: seq<nat>, k: nat, across: bool)
    requires 0 < k <= |path| && Firm(root, path, k, across)
    ensures Firm(root, Above(path), k - 1, across)
    ensures At(root, Above(path)).bounds.Some? && !Thin(At(root, Above(path)).bounds.value)
    ensures !Axis(AxesAt(root, path), across)
  {
    hide At, AxesAt, Axis, Thin;
    var up := Above(path);
    assert forall m :: 0 <= m <= |up| ==> up[..m] == path[..m];
    assert path[..|path|] == path && path[..|path| - 1] == up;
  }

  /** In a walked list the parents lead to the ancestors, one level each. */
  lemma {:induction false} ChainOfAncestors(root: Node, found: seq<LaidOut>, j: nat, k: nat, across: bool)
    requires AllSized(root) && found == Listed(root, TOP, 0) && Whole(found) && j < |found| && Drawn(found[j])
    requires k <= |found[j].path| && Firm(root, found[j].path, k, across)
    ensures Chain(found, j, k, across)
    ensures found[Up(found, j, k)].path == found[j].path[..|found[j].path| - k]
    decreases k
  {
    hide Listed, At, AllSized, Firm, AxesAt, Thin, ClipMeans;
    var path := found[j].path;
    if k == 0 {
      assert path[..|path|] == path;
    } else {
      WalkIsFaithful(root);
      LayoutPlaces.ParentsAreNamed(root, j);
      FirmAbove(root, path, k, across);
      var parent := found[found[j].parent];
      assert Faithful(root, found[j]) && Faithful(root, parent) && parent.path == Above(path);
      assert parent.visible by {
        assert forall m :: 0 <= m < |Above(path)| ==> Above(path)[..m] == path[..m];
        assert path[..|path| - 1] == Above(path);
      }
      ChainOfAncestors(root, found, found[j].parent, k - 1, across);
      assert Above(path)[..|path| - k] == path[..|path| - k];
    }
  }

  /** Where the rule reports nothing, what is drawn reaches past its ancestor `k` levels up by `k` half pixels at
      most, in every axis that does not scroll in between. */
  lemma NothingReachesFar(root: Node, j: nat, k: nat, across: bool)
    requires AllSized(root) && j < |Listed(root, TOP, 0)| && NothingSpills(Listed(root, TOP, 0))
    requires var e := Listed(root, TOP, 0)[j]; Drawn(e) && k <= |e.path| && Firm(root, e.path, k, across)
    ensures var e := Listed(root, TOP, 0)[j];
      var ancestor := At(root, e.path[..|e.path| - k]);
      && e.bounds.Rect? && ancestor.bounds.Some? && ancestor.bounds.value.Rect?
      && var (outer, slack) := (ancestor.bounds.value, k as real * 0.5);
      if across then outer.left - slack <= e.bounds.left && e.bounds.right <= outer.right + slack
      else outer.top - slack <= e.bounds.top && e.bounds.bottom <= outer.bottom + slack
  {
    hide Listed, At, AllSized, Firm;
    var found := Listed(root, TOP, 0);
    WalkIsWhole(root);
    WalkIsFaithful(root);
    ChainOfAncestors(root, found, j, k, across);
    SlackAddsUp(found, j, k, across);
    assert Faithful(root, found[Up(found, j, k)]);
  }

  /** Inside its own clip, to within the tolerance, means inside that of every ancestor that clips. */
  lemma AClipIsInsideEachOfItsParts(root: Node, e: LaidOut, k: nat)
    requires Faithful(root, e) && k < |e.path| && ClipAt(root, e.path[..k]).Some?
    requires ClipAt(root, e.path[..k]).value.Rect?
    ensures e.clip.Some?
    ensures e.clip.value.Rect? ==>
      var c, own := e.clip.value, ClipAt(root, e.path[..k]).value;
      own.left <= c.left && own.top <= c.top && c.right <= own.right && c.bottom <= own.bottom
  {
    hide CutsOff, At;
    var (own, above) := (ClipAt(root, e.path[..k]).value, e.path[..k]);
    OwnClipCuts(root, above, own.right + 1.0, own.top);
    assert !Uncut(root, e.path, own.right + 1.0, own.top);
    assert !InClip(e.clip, own.right + 1.0, own.top);
    if e.clip.value.Rect? {
      var c := e.clip.value;
      assert InClip(e.clip, c.left, c.top) && InClip(e.clip, c.right, c.bottom);
      assert Uncut(root, e.path, c.left, c.top) && Uncut(root, e.path, c.right, c.bottom);
      OwnClipCuts(root, above, c.left, c.top);
      OwnClipCuts(root, above, c.right, c.bottom);
    }
  }

  /** Within half a pixel in each axis of a point the node does not cut off. */
  ghost predicate NearUncut(root: Node, path: seq<nat>, x: real, y: real) {
    exists p, q :: x - TOLERANCE <= p <= x + TOLERANCE && y - TOLERANCE <= q <= y + TOLERANCE
                   && !CutsOff(root, path, p, q)
  }

  /** A control of its own that neither clip rule reports lies inside every ancestor that cuts, to within half a pixel:
      in both axes of one that clips, and in each axis a viewport does not scroll. */
  lemma AnUnreportedControlIsWhole(root: Node, j: nat, k: nat, x: real, y: real)
    requires AllSized(root) && j < |Listed(root, TOP, 0)|
    requires var e := Listed(root, TOP, 0)[j];
      e.visible && e.ownControl && e.bounds.Rect? && !Thin(e.bounds) && !ClippedAway(e) && !Cut(e)
      && k < |e.path| && Holds(e.bounds, x, y)
    ensures NearUncut(root, Listed(root, TOP, 0)[j].path[..k], x, y)
  {
    var e := Listed(root, TOP, 0)[j];
    var above := e.path[..k];
    WalkIsFaithful(root);
    assert Faithful(root, e);
    hide Listed, At, CutsOff, Faithful, AllSized;
    if ClipAt(root, above).Some? {
      InsideItsClip(root, e, k);
      var own := ClipAt(root, above).value;
      var (p, q) := (Max(own.left, Min(x, own.right)), Max(own.top, Min(y, own.bottom)));
      OwnClipCuts(root, above, p, q);
    } else {
      OwnClipCuts(root, above, x, y);
    }
  }

  lemma InsideItsClip(root: Node, e: LaidOut, k: nat)
    requires AllSized(root) && Faithful(root, e) && e.bounds.Rect? && k < |e.path| && ClipAt(root, e.path[..k]).Some?
    requires Drawn(e) && e.ownControl && !ClippedAway(e) && !Cut(e)
    ensures var own := ClipAt(root, e.path[..k]).value;
      own.Rect? && Proper(own) && Contains(own, e.bounds)
  {
    LayoutPlaces.OnTreePrefix(root, e.path, k);
    OwnClipIsProper(root, e.path[..k]);
    hide At, CutsOff;
    AClipIsInsideEachOfItsParts(root, e, k);
  }
}
