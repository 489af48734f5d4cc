/** The layout applied to an evolution tree: every reachable forest is a list of finite trees,
    so nodes of the same depth never overlap on screen. */
module ForestLayout {
  import opened Options
  import opened Layout
  import opened Tree

  function ChildLists(t: Forest): map<NodeId, seq<NodeId>> {
    map id | id in t.nodes :: t.nodes[id].children
  }

  /** All of `ids` are nodes of depth `d`, each listed once. */
  ghost predicate Siblings(t: Forest, ids: seq<NodeId>, d: nat) {
    && NoDuplicates(ids)
    && forall id :: id in ids ==> id in t.nodes && t.nodes[id].depth == d
  }

  /** All of `ids` were added after the first `lo` nodes. */
  ghost predicate BornAfter(t: Forest, ids: seq<NodeId>, lo: nat) {
    forall id :: id in ids ==> id in t.order && lo <= Birth(t.order, id)
  }

  lemma ChildrenAreSiblings(t: Forest, id: NodeId)
    requires IsForest(t) && id in t.nodes
    ensures Siblings(t, t.nodes[id].children, t.nodes[id].depth + 1)
    ensures BornAfter(t, t.nodes[id].children, Birth(t.order, id) + 1)
  {
    assert ChildrenOf(t, id);
    forall c | c in t.nodes[id].children
      ensures c in t.nodes && t.nodes[c].depth == t.nodes[id].depth + 1
      ensures c in t.order && Birth(t.order, id) < Birth(t.order, c)
    {
      assert ParentAgrees(t, c, id);
      var i, j :| 0 <= i < j < |t.order| && t.order[i] == id && t.order[j] == c;
    }
  }

  /** The trees below the nodes `ids`. */
  ghost function Unfold(t: Forest, ids: seq<NodeId>, d: nat, lo: nat): Trees
    requires IsForest(t) && Siblings(t, ids, d) && BornAfter(t, ids, lo) && lo <= |t.order|
    decreases |t.order| - lo, |ids|
  {
    if ids == [] then Nil
    else
      ChildrenAreSiblings(t, ids[0]);
      Cons(ids[0], Unfold(t, t.nodes[ids[0]].children, d + 1, Birth(t.order, ids[0]) + 1), Unfold(t, ids[1..], d, lo))
  }

  /** The node at depth `d` on the path from `x` to its root. */
  function Above(t: Forest, x: NodeId, d: nat): (a: NodeId)
    requires IsForest(t) && x in t.nodes && d <= t.nodes[x].depth
    ensures a in t.nodes && t.nodes[a].depth == d
    decreases t.nodes[x].depth
  {
    if t.nodes[x].depth == d then x
    else
      assert ParentAgrees(t, x, t.nodes[x].parent.value);
      Above(t, t.nodes[x].parent.value, d)
  }

  lemma {:induction false} AboveUp(t: Forest, x: NodeId, d: nat)
    requires IsForest(t) && x in t.nodes && d + 1 <= t.nodes[x].depth
    ensures t.nodes[Above(t, x, d + 1)].parent == Some(Above(t, x, d))
    decreases t.nodes[x].depth
  {
    assert ParentAgrees(t, x, t.nodes[x].parent.value);
    if t.nodes[x].depth > d + 1 {
      AboveUp(t, t.nodes[x].parent.value, d);
    }
  }

  /** `x` lies in the subtree of one of `ids`. */
  ghost predicate Reached(t: Forest, ids: seq<NodeId>, d: nat, x: NodeId)
    requires IsForest(t)
  {
    x in t.nodes && d <= t.nodes[x].depth && Above(t, x, d) in ids
  }

  /** The subtree of `id` is `id` itself and what its children reach. */
  lemma ReachedStep(t: Forest, id: NodeId, d: nat, x: NodeId)
    requires IsForest(t) && id in t.nodes && t.nodes[id].depth == d
    ensures Reached(t, [id], d, x) <==> x == id || Reached(t, t.nodes[id].children, d + 1, x)
    ensures Reached(t, t.nodes[id].children, d + 1, x) ==> x != id
  {
    if x in t.nodes && d + 1 <= t.nodes[x].depth {
      AboveUp(t, x, d);
      var a := Above(t, x, d + 1);
      assert ParentAgrees(t, a, t.nodes[a].parent.value);
      assert ChildrenOf(t, id);
    }
  }

  lemma UnfoldParts(t: Forest, ids: seq<NodeId>, d: nat, lo: nat)
    requires IsForest(t) && Siblings(t, ids, d) && BornAfter(t, ids, lo) && lo <= |t.order| && ids != []
    ensures Siblings(t, t.nodes[ids[0]].children, d + 1)
    ensures BornAfter(t, t.nodes[ids[0]].children, Birth(t.order, ids[0]) + 1)
    ensures Siblings(t, ids[1..], d) && BornAfter(t, ids[1..], lo) && ids[0] !in ids[1..]
    ensures Unfold(t, ids, d, lo)
            == Cons(ids[0], Unfold(t, t.nodes[ids[0]].children, d + 1, Birth(t.order, ids[0]) + 1),
                                          Unfold(t, ids[1..], d, lo))
  {
    ChildrenAreSiblings(t, ids[0]);
  }

  lemma UnfoldMembers(t: Forest, ids: seq<NodeId>, d: nat, lo: nat, x: NodeId)
    requires IsForest(t) && Siblings(t, ids, d) && BornAfter(t, ids, lo) && lo <= |t.order| && ids != []
    ensures Siblings(t, t.nodes[ids[0]].children, d + 1)
    ensures BornAfter(t, t.nodes[ids[0]].children, Birth(t.order, ids[0]) + 1)
    ensures Siblings(t, ids[1..], d) && BornAfter(t, ids[1..], lo)
    ensures x in Ids(Unfold(t, ids, d, lo)) <==>
            || x == ids[0]
            || x in Ids(Unfold(t, t.nodes[ids[0]].children, d + 1, Birth(t.order, ids[0]) + 1))
            || x in Ids(Unfold(t, ids[1..], d, lo))
  {
    UnfoldParts(t, ids, d, lo);
  }

  lemma ReachedSplits(t: Forest, ids: seq<NodeId>, d: nat, x: NodeId)
    requires IsForest(t) && Siblings(t, ids, d) && ids != []
    ensures Reached(t, ids, d, x) <==>
            x == ids[0] || Reached(t, t.nodes[ids[0]].children, d + 1, x) || Reached(t, ids[1..], d, x)
    ensures Reached(t, t.nodes[ids[0]].children, d + 1, x) ==> x != ids[0] && !Reached(t, ids[1..], d, x)
    ensures Reached(t, ids[1..], d, x) ==> x != ids[0]
  {
    ReachedStep(t, ids[0], d, x);
    assert Reached(t, ids, d, x) <==> Reached(t, [ids[0]], d, x) || Reached(t, ids[1..], d, x);
    assert Reached(t, [ids[0]], d, x) ==> !Reached(t, ids[1..], d, x);
  }

  /** Following the child lists from `ids` gives the unfolded trees. */
  lemma {:induction false} UnfoldFollows(t: Forest, ids: seq<NodeId>, d: nat, lo: nat)
    requires IsForest(t) && Siblings(t, ids, d) && BornAfter(t, ids, lo) && lo <= |t.order|
    ensures Unfolds(ChildLists(t), ids, Unfold(t, ids, d, lo))
    decreases |t.order| - lo, |ids|
  {
    if ids != [] {
      UnfoldParts(t, ids, d, lo);
      UnfoldFollows(t, t.nodes[ids[0]].children, d + 1, Birth(t.order, ids[0]) + 1);
      UnfoldFollows(t, ids[1..], d, lo);
    }
  }

  /** The unfolded trees hold exactly the nodes reached. */
  lemma {:induction false} UnfoldIds(t: Forest, ids: seq<NodeId>, d: nat, lo: nat, x: NodeId)
    requires IsForest(t) && Siblings(t, ids, d) && BornAfter(t, ids, lo) && lo <= |t.order|
    ensures x in Ids(Unfold(t, ids, d, lo)) <==> Reached(t, ids, d, x)
    decreases |t.order| - lo, |ids|
  {
    if ids != [] {
      UnfoldMembers(t, ids, d, lo, x);
      UnfoldIds(t, t.nodes[ids[0]].children, d + 1, Birth(t.order, ids[0]) + 1, x);
      UnfoldIds(t, ids[1..], d, lo, x);
      ReachedSplits(t, ids, d, x);
    }
  }

  /** The subtrees of siblings share no node. */
  lemma {:induction false} UnfoldDistinct(t: Forest, ids: seq<NodeId>, d: nat, lo: nat)
    requires IsForest(t) && Siblings(t, ids, d) && BornAfter(t, ids, lo) && lo <= |t.order|
    ensures Distinct(Unfold(t, ids, d, lo))
    decreases |t.order| - lo, |ids|
  {
    if ids != [] {
      UnfoldParts(t, ids, d, lo);
      UnfoldDistinct(t, t.nodes[ids[0]].children, d + 1, Birth(t.order, ids[0]) + 1);
      UnfoldDistinct(t, ids[1..], d, lo);
      var kids := Unfold(t, t.nodes[ids[0]].children, d + 1, Birth(t.order, ids[0]) + 1);
      var rest := Unfold(t, ids[1..], d, lo);
      forall x
        ensures x in Ids(kids) ==> x != ids[0] && x !in Ids(rest)
        ensures x in Ids(rest) ==> x != ids[0]
      {
        UnfoldApart(t, ids, d, lo, x);
      }
    }
  }

  lemma UnfoldApart(t: Forest, ids: seq<NodeId>, d: nat, lo: nat, x: NodeId)
    requires IsForest(t) && Siblings(t, ids, d) && BornAfter(t, ids, lo) && lo <= |t.order| && ids != []
    requires Siblings(t, t.nodes[ids[0]].children, d + 1)
    requires BornAfter(t, t.nodes[ids[0]].children, Birth(t.order, ids[0]) + 1)
    requires Siblings(t, ids[1..], d) && BornAfter(t, ids[1..], lo)
    ensures x in Ids(Unfold(t, t.nodes[ids[0]].children, d + 1, Birth(t.order, ids[0]) + 1)) ==>
            x != ids[0] && x !in Ids(Unfold(t, ids[1..], d, lo))
    ensures x in Ids(Unfold(t, ids[1..], d, lo)) ==> x != ids[0]
  {
    UnfoldIds(t, t.nodes[ids[0]].children, d + 1, Birth(t.order, ids[0]) + 1, x);
    UnfoldIds(t, ids[1..], d, lo, x);
    ReachedSplits(t, ids, d, x);
  }

  /** Depth on screen is the depth recorded in the node. */
  lemma {:induction false} UnfoldDepth(t: Forest, ids: seq<NodeId>, d: nat, lo: nat, x: NodeId)
    requires IsForest(t) && Siblings(t, ids, d) && BornAfter(t, ids, lo) && lo <= |t.order|
    requires x in Ids(Unfold(t, ids, d, lo))
    ensures x in t.nodes && t.nodes[x].depth == d + DepthIn(Unfold(t, ids, d, lo), x)
    decreases |t.order| - lo, |ids|
  {
    var born := Birth(t.order, ids[0]) + 1;
    ChildrenAreSiblings(t, ids[0]);
    if x == ids[0] {
    } else if x in Ids(Unfold(t, t.nodes[ids[0]].children, d + 1, born)) {
      UnfoldDepth(t, t.nodes[ids[0]].children, d + 1, born, x);
    } else {
      UnfoldDepth(t, ids[1..], d, lo, x);
    }
  }

  lemma RootsAreSiblings(t: Forest)
    requires IsForest(t)
    ensures Siblings(t, t.roots, 0) && BornAfter(t, t.roots, 0)
  {
  }

  /** The picture of an evolution tree. */
  ghost function Picture(t: Forest): Positions
    requires IsForest(t)
  {
    RootsAreSiblings(t);
    Placement(Unfold(t, t.roots, 0, 0), 0.0, LINEAGE_GAP)
  }

  /** Every node gets a position, and no two nodes of one depth are closer than a leaf gap. */
  lemma NoOverlap(t: Forest, x: NodeId, y: NodeId)
    requires IsForest(t) && x in t.nodes && y in t.nodes
    ensures x in Picture(t) && y in Picture(t)
    ensures x != y && t.nodes[x].depth == t.nodes[y].depth ==> Apart(Picture(t)[x], Picture(t)[y], LEAF_GAP)
  {
    RootsAreSiblings(t);
    var ts := Unfold(t, t.roots, 0, 0);
    UnfoldDistinct(t, t.roots, 0, 0);
    UnfoldIds(t, t.roots, 0, 0, x);
    UnfoldIds(t, t.roots, 0, 0, y);
    RootAbove(t, x);
    RootAbove(t, y);
    LayoutIds(ts, 0.0, LINEAGE_GAP);
    UnfoldDepth(t, t.roots, 0, 0, x);
    UnfoldDepth(t, t.roots, 0, 0, y);
    if x != y && t.nodes[x].depth == t.nodes[y].depth {
      SameDepthApart(ts, 0.0, LINEAGE_GAP, x, y);
    }
  }

  lemma RootAbove(t: Forest, x: NodeId)
    requires IsForest(t) && x in t.nodes
    ensures Above(t, x, 0) in t.roots
  {
    var a := Above(t, x, 0);
    assert t.nodes[a].parent.Some? ==> ParentAgrees(t, a, t.nodes[a].parent.value);
  }

  /** Drawing a forest computes its picture. */
  method Draw(t: Forest) returns (positions: Positions)
    requires IsForest(t)
    ensures positions == Picture(t)
  {
    RootsAreSiblings(t);
    UnfoldFollows(t, t.roots, 0, 0);
    positions := ComputePositions(ChildLists(t), t.roots, Unfold(t, t.roots, 0, 0));
  }
}
