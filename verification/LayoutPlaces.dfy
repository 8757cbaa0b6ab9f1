/** Where each recorded node stands in the walked list: all of them, in visual order, each subtree in one block,
    each with the index of its parent - and what `Within` reads off that (ParameterRowLayoutTests.cs). */
module LayoutPlaces {
  import opened LayoutTree
  import opened LayoutWalk
  import opened Wrappers

  /** The list has the first before the second: it is above it, or to its left. */
  ghost predicate Before(p: seq<nat>, q: seq<nat>) { p < q || exists d :: LeftOf(p, q, d) }

  predicate LeftOf(p: seq<nat>, q: seq<nat>, d: nat) { d < |p| && d < |q| && p[..d] == q[..d] && p[d] < q[d] }

  ghost predicate InOrder(found: seq<LaidOut>) {
    forall i, j :: 0 <= i < j < |found| ==> Before(found[i].path, found[j].path)
  }

  predicate AllBelow(found: seq<LaidOut>, path: seq<nat>) { forall j :: 0 <= j < |found| ==> path <= found[j].path }

  predicate AllPast(found: seq<LaidOut>, path: seq<nat>, k: nat) {
    forall j :: 0 <= j < |found| ==> path < found[j].path && found[j].path[|path|] >= k
  }

  lemma {:induction false} ListedInOrder(n: Node, i: Inherited, at: nat)
    ensures InOrder(Listed(n, i, at)) && AllBelow(Listed(n, i, at), i.path)
    decreases n, 1
  {
    hide ListedFrom;
    if n.isVisual {
      ListedFromInOrder(n, 0, HandDown(n, i, if n.bounds.Some? then at else -1), at + if n.bounds.Some? then 1 else 0);
    }
  }

  lemma {:induction false} ListedFromInOrder(n: Node, k: nat, below: Inherited, at: nat)
    requires k <= |n.children|
    ensures InOrder(ListedFrom(n, k, below, at)) && AllPast(ListedFrom(n, k, below, at), below.path, k)
    decreases n, 0, |n.children| - k
  {
    hide Listed, Before;
    if k < |n.children| {
      var first := Listed(n.children[k], ChildOf(below, k), at);
      var rest := ListedFrom(n, k + 1, below, at + |first|);
      ListedInOrder(n.children[k], ChildOf(below, k), at);
      ListedFromInOrder(n, k + 1, below, at + |first|);
      forall a, b | 0 <= a < |first| && 0 <= b < |rest| ensures Before(first[a].path, rest[b].path) {
        ChildrenInOrder(below.path, k, first[a].path, rest[b].path);
      }
    }
  }

  lemma ChildrenInOrder(path: seq<nat>, k: nat, p: seq<nat>, q: seq<nat>)
    requires path + [k] <= p && path < q && q[|path|] > k
    ensures Before(p, q)
  {
    assert p[..|path|] == (path + [k])[..|path|] == path && p[|path|] == (path + [k])[|path|] == k;
    assert LeftOf(p, q, |path|);
  }

  /** In a list in order, what lies between a path and one below it is below it too. */
  lemma Between(p: seq<nat>, q: seq<nat>, r: seq<nat>)
    requires Before(p, q) && Before(q, r) && p <= r
    ensures p < q
  {
  }

  lemma NotBeforeBelow(p: seq<nat>, q: seq<nat>)
    requires p <= q
    ensures !Before(q, p)
  {
  }

  /** Each subtree is one block: it begins at its own root, and nothing else comes between. */
  lemma SubtreesAreBlocks(root: Node, a: nat, m: nat, b: nat)
    requires var found := Listed(root, TOP, 0);
      a < |found| && b < |found| && m < |found| && found[a].path <= found[b].path
    ensures a <= b
    ensures a <= m <= b ==> Listed(root, TOP, 0)[a].path <= Listed(root, TOP, 0)[m].path
  {
    var found := Listed(root, TOP, 0);
    ListedInOrder(root, TOP, 0);
    if b < a {
      NotBeforeBelow(found[a].path, found[b].path);
    }
    if a < m < b {
      Between(found[a].path, found[m].path, found[b].path);
    }
  }

  // --- All of them ---

  lemma {:induction false} OnTreePrefix(root: Node, path: seq<nat>, j: nat)
    requires OnTree(root, path) && j <= |path|
    ensures OnTree(root, path[..j])
    decreases |path|
  {
    if j == |path| {
      assert path[..j] == path;
    } else {
      OnTreePrefix(root, Above(path), j);
      assert Above(path)[..j] == path[..j];
    }
  }

  lemma {:induction false} ChildIsListed(n: Node, m: nat, k: nat, below: Inherited, at: nat) returns (skip: nat, from: nat)
    requires m <= k < |n.children|
    ensures var child := Listed(n.children[k], ChildOf(below, k), from);
      skip + |child| <= |ListedFrom(n, m, below, at)|
      && ListedFrom(n, m, below, at)[skip..skip + |child|] == child
    decreases k - m
  {
    hide Listed;
    if m == k {
      skip, from := 0, at;
    } else {
      var first := Listed(n.children[m], ChildOf(below, m), at);
      skip, from := ChildIsListed(n, m + 1, k, below, at + |first|);
      skip := skip + |first|;
    }
  }

  lemma InBlock<T>(list: seq<T>, skip: nat, block: seq<T>, j: nat)
    requires skip + |block| <= |list| && list[skip..skip + |block|] == block && j < |block|
    ensures list[skip + j] == block[j]
  {
    assert list[skip..skip + |block|][j] == list[skip + j];
  }

  lemma ListedAfterOwn(n: Node, i: Inherited, at: nat)
    requires n.isVisual
    ensures var own := if n.bounds.Some? then 1 else 0;
      var rest := ListedFrom(n, 0, HandDown(n, i, if n.bounds.Some? then at else -1), at + own);
      |Listed(n, i, at)| == own + |rest| && Listed(n, i, at)[own..own + |rest|] == rest
  {
    hide ListedFrom, HandDown, Describe;
  }

  lemma FirstStep(root: Node, n: Node, i: Inherited, index: int, path: seq<nat>)
    requires n == At(root, i.path) && OnTree(root, path) && i.path < path
    ensures var k := path[|i.path|];
      && n.isVisual && k < |n.children|
      && ChildOf(HandDown(n, i, index), k).path == i.path + [k] <= path
      && At(root, i.path + [k]) == n.children[k]
  {
    var k := path[|i.path|];
    OnTreePrefix(root, path, |i.path| + 1);
    assert path[..|i.path| + 1] == i.path + [k];
    Down(root, i.path, k);
  }

  lemma {:induction false} EachIsListed(root: Node, n: Node, i: Inherited, at: nat, path: seq<nat>) returns (j: nat)
    requires n == At(root, i.path) && OnTree(root, path) && i.path <= path && At(root, path).bounds.Some?
    ensures j < |Listed(n, i, at)| && Listed(n, i, at)[j].path == path
    decreases |path| - |i.path|
  {
    hide ListedFrom, OnTree, At, HandDown;
    if path == i.path {
      j := 0;
    } else {
      hide Listed;
      var k := path[|i.path|];
      var index := if n.bounds.Some? then at else -1;
      var own := if n.bounds.Some? then 1 else 0;
      var below := HandDown(n, i, index);
      FirstStep(root, n, i, index, path);
      var skip, from := ChildIsListed(n, 0, k, below, at + own);
      j := EachIsListed(root, n.children[k], ChildOf(below, k), from, path);
      InBlock(ListedFrom(n, 0, below, at + own), skip, Listed(n.children[k], ChildOf(below, k), from), j);
      ListedAfterOwn(n, i, at);
      InBlock(Listed(n, i, at), own, ListedFrom(n, 0, below, at + own), skip + j);
      j := own + (skip + j);
    }
  }

  /** The walk lists each recorded node of the tree exactly once. */
  lemma WalkListsEachOnce(root: Node, path: seq<nat>)
    requires OnTree(root, path) && At(root, path).bounds.Some?
    ensures var found := Listed(root, TOP, 0);
      exists j :: 0 <= j < |found| && found[j].path == path
        && forall m :: 0 <= m < |found| && found[m].path == path ==> m == j
  {
    var found := Listed(root, TOP, 0);
    var j := EachIsListed(root, root, TOP, 0, path);
    ListedInOrder(root, TOP, 0);
    NotBeforeBelow(path, path);
    assert forall m :: 0 <= m < |found| && found[m].path == path ==> m == j;
  }

  // --- Parents ---

  /** The index names the record of the node above, or, where that one is not recorded, nothing. `at` is where
      this part of the list begins. */
  predicate Placed(root: Node, list: seq<LaidOut>, at: nat, j: nat)
    requires j < |list| && list[j].path != []
  {
    var e := list[j];
    if At(root, Above(e.path)).bounds.None? then e.parent == -1
    else at <= e.parent < at + j && list[e.parent - at].path == Above(e.path)
  }

  /** In a node's own list: itself as it was told, everything below it by the list. */
  predicate PlacedUnder(root: Node, list: seq<LaidOut>, at: nat, i: Inherited) {
    forall j :: 0 <= j < |list| ==>
      i.path <= list[j].path
      && (if list[j].path == i.path then list[j].parent == i.parent else Placed(root, list, at, j))
  }

  /** In the list of a node's children: each of them as it was told, everything further down by the list. */
  predicate PlacedAmong(root: Node, list: seq<LaidOut>, at: nat, below: Inherited) {
    forall j :: 0 <= j < |list| ==>
      below.path < list[j].path
      && (if Above(list[j].path) == below.path then list[j].parent == below.parent else Placed(root, list, at, j))
  }

  lemma PlacedInFront(root: Node, front: seq<LaidOut>, back: seq<LaidOut>, at: nat, j: nat)
    requires j < |front| && front[j].path != [] && Placed(root, front, at, j)
    ensures Placed(root, front + back, at, j)
  {
    hide At;
  }

  lemma PlacedBehind(root: Node, front: seq<LaidOut>, back: seq<LaidOut>, at: nat, j: nat)
    requires j < |back| && back[j].path != [] && Placed(root, back, at + |front|, j)
    ensures Placed(root, front + back, at, |front| + j)
  {
    hide At;
  }

  lemma {:induction false} ListedPlaced(root: Node, n: Node, i: Inherited, at: nat)
    requires OnTree(root, i.path) && n == At(root, i.path)
    ensures PlacedUnder(root, Listed(n, i, at), at, i)
    decreases n, 1
  {
    hide ListedFrom, OnTree, At;
    if n.isVisual {
      var below := HandDown(n, i, if n.bounds.Some? then at else -1);
      var rest := ListedFrom(n, 0, below, at + if n.bounds.Some? then 1 else 0);
      ListedFromPlaced(root, n, 0, below, at + if n.bounds.Some? then 1 else 0);
      OwnThenRest(root, n, i, at, rest, below);
    }
  }

  lemma OwnChild(
      root: Node, n: Node, i: Inherited, at: nat, own: seq<LaidOut>, rest: seq<LaidOut>, j: nat, below: Inherited)
    requires n == At(root, i.path) && below == HandDown(n, i, if n.bounds.Some? then at else -1)
    requires own == (if n.bounds.Some? then [Describe(n, i)] else [])
    requires |own| <= j < |own + rest| && (own + rest)[j].parent == below.parent
    requires (own + rest)[j].path != [] && Above((own + rest)[j].path) == i.path
    ensures Placed(root, own + rest, at, j)
  {
    hide At;
  }

  lemma OwnThenRest(root: Node, n: Node, i: Inherited, at: nat, rest: seq<LaidOut>, below: Inherited)
    requires n == At(root, i.path) && below == HandDown(n, i, if n.bounds.Some? then at else -1)
    requires PlacedAmong(root, rest, at + if n.bounds.Some? then 1 else 0, below)
    ensures PlacedUnder(root, (if n.bounds.Some? then [Describe(n, i)] else []) + rest, at, i)
  {
    hide At;
    var own := if n.bounds.Some? then [Describe(n, i)] else [];
    var list := own + rest;
    forall j | 0 <= j < |list|
      ensures i.path <= list[j].path
              && (if list[j].path == i.path then list[j].parent == i.parent else Placed(root, list, at, j))
    {
      if j >= |own| {
        assert list[j] == rest[j - |own|];
        hide Placed;
        if Above(list[j].path) == i.path {
          OwnChild(root, n, i, at, own, rest, j, below);
        } else {
          PlacedBehind(root, own, rest, at, j - |own|);
        }
      }
    }
  }

  lemma {:induction false} ListedFromPlaced(root: Node, n: Node, k: nat, below: Inherited, at: nat)
    requires OnTree(root, below.path) && n == At(root, below.path) && k <= |n.children| && n.isVisual
    ensures PlacedAmong(root, ListedFrom(n, k, below, at), at, below)
    decreases n, 0, |n.children| - k
  {
    hide Listed, OnTree, At;
    if k < |n.children| {
      var first := Listed(n.children[k], ChildOf(below, k), at);
      Down(root, below.path, k);
      ListedPlaced(root, n.children[k], ChildOf(below, k), at);
      ListedFromPlaced(root, n, k + 1, below, at + |first|);
      FirstThenRest(root, below, k, at, first, ListedFrom(n, k + 1, below, at + |first|));
    }
  }

  lemma FirstThenRest(root: Node, below: Inherited, k: nat, at: nat, first: seq<LaidOut>, rest: seq<LaidOut>)
    requires PlacedUnder(root, first, at, ChildOf(below, k)) && PlacedAmong(root, rest, at + |first|, below)
    ensures PlacedAmong(root, first + rest, at, below)
  {
    hide At;
    var list := first + rest;
    forall j | 0 <= j < |list|
      ensures below.path < list[j].path
      ensures if Above(list[j].path) == below.path then list[j].parent == below.parent else Placed(root, list, at, j)
    {
      if j < |first| {
        hide Placed;
        var path := first[j].path;
        assert below.path + [k] <= path;
        if path == below.path + [k] {
          assert Above(path) == below.path;
        } else {
          assert |Above(path)| > |below.path|;
          PlacedInFront(root, first, rest, at, j);
        }
      } else {
        hide Placed;
        assert list[j] == rest[j - |first|];
        if Above(list[j].path) != below.path {
          PlacedBehind(root, first, rest, at, j - |first|);
        }
      }
    }
  }

  /** Every parent index is -1 or strictly smaller and names the visual parent; it is -1 exactly for the root and
      for a child of a node that is not recorded. */
  predicate ParentIs(root: Node, found: seq<LaidOut>, j: nat)
    requires j < |found|
  {
    var e := found[j];
    && -1 <= e.parent < j
    && (e.parent == -1 <==> e.path == [] || At(root, Above(e.path)).bounds.None?)
    && (e.parent >= 0 ==> e.path != [] && found[e.parent].path == Above(e.path))
  }

  lemma ParentsAreNamed(root: Node, j: nat)
    requires j < |Listed(root, TOP, 0)|
    ensures ParentIs(root, Listed(root, TOP, 0), j)
  {
    hide Listed, At;
    RootIsOnTree(root);
    ListedPlaced(root, root, TOP, 0);
    assert Listed(root, TOP, 0)[j].path != [] ==> Placed(root, Listed(root, TOP, 0), 0, j);
  }

  lemma RootIsOnTree(root: Node)
    ensures OnTree(root, []) && At(root, []) == root
  {
  }

  // --- Within ---

  /** Every node from the one at the first path down to the one above the second is recorded. */
  predicate RecordedBetween(root: Node, p: seq<nat>, q: seq<nat>) {
    forall k :: |p| <= k < |q| ==> At(root, q[..k]).bounds.Some?
  }

  /** `Within`, as the code runs it: up the parent indices until the ancestor, or until they end. It decides the
      strict-ancestor relation wherever nothing between the two is left unrecorded. */
  method Within(root: Node, found: seq<LaidOut>, index: nat, ancestor: nat) returns (within: bool)
    requires found == Listed(root, TOP, 0) && index < |found| && ancestor < |found|
    ensures within <==> found[ancestor].path < found[index].path
                        && RecordedBetween(root, found[ancestor].path, found[index].path)
  {
    hide Listed, At;
    ghost var goal := found[ancestor].path;
    ParentsAreNamed(root, index);
    ghost var child := index;
    var at := found[index].parent;
    while at >= 0
      invariant 0 <= child < |found| && at == found[child].parent && ParentIs(root, found, child)
      invariant goal < found[child].path && RecordedBetween(root, goal, found[child].path)
                <==> goal < found[index].path && RecordedBetween(root, goal, found[index].path)
      decreases at
    {
      OneUp(root, found, child, goal);
      if at == ancestor {
        return true;
      }
      OnlyOnce(root, at, ancestor);
      child := at;
      ParentsAreNamed(root, child);
      at := found[at].parent;
    }
    EndOfTheWay(root, found, child, goal);
    return false;
  }

  lemma OneUp(root: Node, found: seq<LaidOut>, child: nat, goal: seq<nat>)
    requires child < |found| && ParentIs(root, found, child) && found[child].parent >= 0
    ensures var path := found[child].path;
      && path != []
      && (goal < path && RecordedBetween(root, goal, path) <==>
            goal == Above(path) || (goal < Above(path) && RecordedBetween(root, goal, Above(path))))
  {
    hide At;
    var path := found[child].path;
    assert forall k :: 0 <= k <= |path| - 1 ==> Above(path)[..k] == path[..k];
    assert path[..|path| - 1] == Above(path);
  }

  lemma EndOfTheWay(root: Node, found: seq<LaidOut>, child: nat, goal: seq<nat>)
    requires child < |found| && ParentIs(root, found, child) && found[child].parent == -1
    ensures !(goal < found[child].path && RecordedBetween(root, goal, found[child].path))
  {
    hide At;
    var path := found[child].path;
    if path != [] && goal < path {
      assert path[..|path| - 1] == Above(path);
    }
  }

  lemma OnlyOnce(root: Node, a: nat, b: nat)
    requires a < |Listed(root, TOP, 0)| && b < |Listed(root, TOP, 0)|
    ensures a != b ==> Listed(root, TOP, 0)[a].path != Listed(root, TOP, 0)[b].path
  {
    ListedInOrder(root, TOP, 0);
    NotBeforeBelow(Listed(root, TOP, 0)[a].path, Listed(root, TOP, 0)[a].path);
  }
}
