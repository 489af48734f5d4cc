/** The picture of a forest, described without walking it: leaves stand on consecutive slots, every
    other node over the middle of its children. The description leaves no choice. */
module Centring {
  import opened Options
  import opened Layout
  import opened ForestLayout
  import opened Tree

  // ---- inner nodes ---------------------------------------------------------------------------------

  function SumAt(p: Positions, ids: seq<NodeId>): real
    requires forall id :: id in ids ==> id in p
  {
    if ids == [] then 0.0 else p[ids[0]] + SumAt(p, ids[1..])
  }

  /** The node stands over the average of its children. */
  ghost predicate Centred(p: Positions, id: NodeId, children: seq<NodeId>) {
    && id in p && (forall c :: c in children ==> c in p)
    && p[id] * |children| as real == SumAt(p, children)
  }

  lemma {:induction false} SumAgrees(p: Positions, q: Positions, ids: seq<NodeId>)
    requires forall id :: id in ids ==> id in p && id in q && p[id] == q[id]
    ensures SumAt(p, ids) == SumAt(q, ids)
  {
    if ids != [] {
      SumAgrees(p, q, ids[1..]);
    }
  }

  lemma {:induction false} UnfoldedIn(children: map<NodeId, seq<NodeId>>, ids: seq<NodeId>, ts: Trees)
    requires Unfolds(children, ids, ts)
    ensures forall id :: id in ids ==> id in Ids(ts)
  {
    if ts.Cons? {
      UnfoldedIn(children, ids[1..], ts.rest);
      assert ids == [ids[0]] + ids[1..];
    }
  }

  /** Nodes of the later trees, and nodes below the first root, keep their positions. */
  lemma PartsAgree(ts: Trees, c: real, gap: real)
    requires Distinct(ts) && ts.Cons?
    ensures var p := Placement(ts, c, gap);
            && (var q := Placement(ts.rest, c + TreeWidth(ts.kids) + gap, gap);
                forall x :: x in Ids(ts.rest) ==> x in p && x in q && p[x] == q[x])
            && (var q := Placement(ts.kids, c, 0.0);
                forall x :: x in Ids(ts.kids) ==> x in p && x in q && p[x] == q[x])
            && ts.id in p && p[ts.id] == RootX(ts.kids, c)
  {
    forall x | x in Ids(ts)
      ensures x in Placement(ts, c, gap)
      ensures x in Ids(ts.rest) ==>
                && x in Placement(ts.rest, c + TreeWidth(ts.kids) + gap, gap)
                && Placement(ts, c, gap)[x] == Placement(ts.rest, c + TreeWidth(ts.kids) + gap, gap)[x]
      ensures x in Ids(ts.kids) ==>
                x in Placement(ts.kids, c, 0.0) && Placement(ts, c, gap)[x] == Placement(ts.kids, c, 0.0)[x]
    {
      LayoutSplits(ts, c, gap, x);
    }
    LayoutSplits(ts, c, gap, ts.id);
  }

  /** What the walk averages are the positions of the children. */
  ghost predicate HeadsFit(ids: seq<NodeId>, ts: Trees, c: real, gap: real) {
    && |Heads(ts, c, gap)| == |ids| && (forall id :: id in ids ==> id in Placement(ts, c, gap))
    && SumAt(Placement(ts, c, gap), ids) == Sum(Heads(ts, c, gap))
  }

  lemma {:induction false} HeadsSum(children: map<NodeId, seq<NodeId>>, ids: seq<NodeId>, ts: Trees, c: real, gap: real)
    requires Unfolds(children, ids, ts) && Distinct(ts)
    ensures HeadsFit(ids, ts, c, gap)
    decreases ts
  {
    if ts.Cons? {
      HeadsSum(children, ids[1..], ts.rest, c + TreeWidth(ts.kids) + gap, gap);
      HeadsFitStep(children, ids, ts, c, gap, c + TreeWidth(ts.kids) + gap);
    }
  }

  lemma HeadsFitStep(children: map<NodeId, seq<NodeId>>, ids: seq<NodeId>, ts: Trees, c: real, gap: real, d: real)
    requires Unfolds(children, ids, ts) && Distinct(ts) && ts.Cons? && d == c + TreeWidth(ts.kids) + gap
    requires HeadsFit(ids[1..], ts.rest, d, gap)
    ensures HeadsFit(ids, ts, c, gap)
  {
    AllPlaced(children, ids, ts, c, gap);
    FirstAndOthers(children, ids, ts, c, gap);
    SumHead(RootX(ts.kids, c), Heads(ts.rest, d, gap));
  }

  lemma AllPlaced(children: map<NodeId, seq<NodeId>>, ids: seq<NodeId>, ts: Trees, c: real, gap: real)
    requires Unfolds(children, ids, ts)
    ensures forall id :: id in ids ==> id in Placement(ts, c, gap)
  {
    LayoutIds(ts, c, gap);
    UnfoldedIn(children, ids, ts);
  }

  lemma FirstAndOthers(children: map<NodeId, seq<NodeId>>, ids: seq<NodeId>, ts: Trees, c: real, gap: real)
    requires Unfolds(children, ids, ts) && Distinct(ts) && ts.Cons?
    requires forall id :: id in ids ==> id in Placement(ts, c, gap)
    requires var q := Placement(ts.rest, c + TreeWidth(ts.kids) + gap, gap); forall id :: id in ids[1..] ==> id in q
    ensures SumAt(Placement(ts, c, gap), ids)
         == RootX(ts.kids, c) + SumAt(Placement(ts.rest, c + TreeWidth(ts.kids) + gap, gap), ids[1..])
  {
    UnfoldedIn(children, ids[1..], ts.rest);
    PartsAgree(ts, c, gap);
    SumAgrees(Placement(ts, c, gap), Placement(ts.rest, c + TreeWidth(ts.kids) + gap, gap), ids[1..]);
  }

  lemma SumHead(x: real, xs: seq<real>)
    ensures Sum([x] + xs) == x + Sum(xs)
  {
    assert ([x] + xs)[1..] == xs;
  }

  lemma Quotient(a: real, n: real)
    requires n > 0.0
    ensures a / n * n == a
  {
  }

  lemma RootCentred(children: map<NodeId, seq<NodeId>>, ids: seq<NodeId>, ts: Trees, c: real, gap: real)
    requires Unfolds(children, ids, ts) && Distinct(ts) && ts.Cons? && children[ts.id] != []
    ensures Centred(Placement(ts, c, gap), ts.id, children[ts.id])
  {
    var below := children[ts.id];
    HeadsSum(children, below, ts.kids, c, 0.0);
    UnfoldedIn(children, below, ts.kids);
    PartsAgree(ts, c, gap);
    SumAgrees(Placement(ts, c, gap), Placement(ts.kids, c, 0.0), below);
    Quotient(Sum(Heads(ts.kids, c, 0.0)), |below| as real);
  }

  lemma CentredAgrees(p: Positions, q: Positions, id: NodeId, below: seq<NodeId>)
    requires Centred(q, id, below) && id in p && p[id] == q[id]
    requires forall x :: x in below ==> x in p && p[x] == q[x]
    ensures Centred(p, id, below)
  {
    SumAgrees(p, q, below);
  }

  /** The trees hold the children of their nodes. */
  lemma {:induction false} ChildrenInside(children: map<NodeId, seq<NodeId>>, ids: seq<NodeId>, ts: Trees, x: NodeId)
    requires Unfolds(children, ids, ts) && x in Ids(ts)
    ensures x in children && forall y :: y in children[x] ==> y in Ids(ts)
    decreases ts
  {
    if x == ts.id {
      UnfoldedIn(children, children[x], ts.kids);
    } else if x in Ids(ts.kids) {
      ChildrenInside(children, children[ts.id], ts.kids, x);
    } else {
      ChildrenInside(children, ids[1..], ts.rest, x);
    }
  }

  lemma {:induction false} InnerCentred(children: map<NodeId, seq<NodeId>>, ids: seq<NodeId>, ts: Trees, c: real,
                                        gap: real, x: NodeId)
    requires Unfolds(children, ids, ts) && Distinct(ts) && x in Ids(ts) && x in children && children[x] != []
    ensures Centred(Placement(ts, c, gap), x, children[x])
    decreases ts
  {
    var p, d := Placement(ts, c, gap), c + TreeWidth(ts.kids) + gap;
    PartsAgree(ts, c, gap);
    if x == ts.id {
      RootCentred(children, ids, ts, c, gap);
    } else if x in Ids(ts.kids) {
      InnerCentred(children, children[ts.id], ts.kids, c, 0.0, x);
      ChildrenInside(children, children[ts.id], ts.kids, x);
      CentredAgrees(p, Placement(ts.kids, c, 0.0), x, children[x]);
    } else {
      InnerCentred(children, ids[1..], ts.rest, d, gap, x);
      ChildrenInside(children, ids[1..], ts.rest, x);
      CentredAgrees(p, Placement(ts.rest, d, gap), x, children[x]);
    }
  }

  /** In the picture of any forest every node with children stands over their average. */
  lemma ParentsCentred(t: Forest, x: NodeId)
    requires IsForest(t) && x in t.nodes && t.nodes[x].children != []
    ensures Centred(Picture(t), x, t.nodes[x].children)
  {
    var ts := Drawn(t, x);
    InnerCentred(ChildLists(t), t.roots, ts, 0.0, LINEAGE_GAP, x);
  }

  /** The trees of the picture. */
  ghost function TreesOf(t: Forest): Trees
    requires IsForest(t)
  {
    RootsAreSiblings(t);
    Unfold(t, t.roots, 0, 0)
  }

  lemma Drawn(t: Forest, x: NodeId) returns (ts: Trees)
    requires IsForest(t) && x in t.nodes
    ensures ts == TreesOf(t) && Picture(t) == Placement(ts, 0.0, LINEAGE_GAP)
    ensures Unfolds(ChildLists(t), t.roots, ts) && Distinct(ts) && x in Ids(ts)
  {
    RootsAreSiblings(t);
    ts := Unfold(t, t.roots, 0, 0);
    UnfoldFollows(t, t.roots, 0, 0);
    UnfoldDistinct(t, t.roots, 0, 0);
    UnfoldIds(t, t.roots, 0, 0, x);
    RootAbove(t, x);
  }

  // ---- leaves --------------------------------------------------------------------------------------

  function FirstLeaves(ts: Trees): nat
    requires ts.Cons?
  {
    if ts.kids.Nil? then 1 else |LeafList(ts.kids)|
  }

  /** How many whole trees stand left of the `k`-th leaf. */
  function TreesBefore(ts: Trees, k: nat): nat
    requires k < |LeafList(ts)|
  {
    if k < FirstLeaves(ts) then 0 else 1 + TreesBefore(ts.rest, k - FirstLeaves(ts))
  }

  /** The gaps left by `trees` trees. */
  function Gaps(gap: real, trees: nat): real {
    if trees == 0 then 0.0 else gap + Gaps(gap, trees - 1)
  }

  lemma {:induction false} GapsSum(gap: real, trees: nat)
    ensures Gaps(gap, trees) == gap * trees as real
  {
    if trees > 0 {
      GapsSum(gap, trees - 1);
      OneMore((trees - 1) as real, gap);
    }
  }

  function Slot(c: real, k: nat, gap: real, trees: nat): real {
    c + k as real + Gaps(gap, trees)
  }

  ghost predicate LeafAt(ts: Trees, c: real, gap: real, k: nat, x: real)
    requires k < |LeafList(ts)|
  {
    LeafList(ts)[k] in Placement(ts, c, gap) && Placement(ts, c, gap)[LeafList(ts)[k]] == x
  }

  /** The `k`-th leaf from the left stands on slot `k`, moved by the gaps of the trees before it. */
  lemma {:induction false} LeafSlot(ts: Trees, c: real, gap: real, k: nat)
    requires Distinct(ts) && k < |LeafList(ts)|
    ensures LeafAt(ts, c, gap, k, Slot(c, k, gap, TreesBefore(ts, k)))
    decreases ts
  {
    LeavesSplit(ts);
    var n := FirstLeaves(ts);
    if k < n {
      FirstTreeLeaf(ts, c, gap, k);
    } else {
      LeafSlot(ts.rest, c + n as real + gap, gap, k - n);
      LaterSlot(ts, c, gap, k, k - n, c + n as real + gap);
    }
  }

  lemma LaterSlot(ts: Trees, c: real, gap: real, k: nat, j: nat, d: real)
    requires Distinct(ts) && ts.Cons? && k < |LeafList(ts)| && k == FirstLeaves(ts) + j && j < |LeafList(ts.rest)|
    requires d == c + FirstLeaves(ts) as real + gap
    requires LeafAt(ts.rest, d, gap, j, Slot(d, j, gap, TreesBefore(ts.rest, j)))
    ensures LeafAt(ts, c, gap, k, Slot(c, k, gap, TreesBefore(ts, k)))
  {
    LaterLeaf(ts, c, gap, k, j, d, Slot(d, j, gap, TreesBefore(ts.rest, j)));
    assert TreesBefore(ts, k) == 1 + TreesBefore(ts.rest, j);
  }

  lemma LeavesSplit(ts: Trees)
    ensures LeafList(ts) != [] ==> ts.Cons? && Distinct(ts) ==> Distinct(ts.rest)
    ensures ts.Cons? ==> |LeafList(ts)| == FirstLeaves(ts) + |LeafList(ts.rest)|
  {
  }

  lemma FirstTreeLeaf(ts: Trees, c: real, gap: real, k: nat)
    requires Distinct(ts) && ts.Cons? && k < FirstLeaves(ts)
    ensures k < |LeafList(ts)| && LeafAt(ts, c, gap, k, c + k as real)
  {
    if ts.kids.Nil? {
      LayoutSplits(ts, c, gap, ts.id);
    } else {
      LeafListWithin(ts.kids, k);
      LeavesConsecutive(ts.kids, c, k);
      LayoutSplits(ts, c, gap, LeafList(ts.kids)[k]);
    }
  }

  lemma LaterLeaf(ts: Trees, c: real, gap: real, k: nat, j: nat, d: real, x: real)
    requires Distinct(ts) && ts.Cons? && j < |LeafList(ts.rest)| && k == FirstLeaves(ts) + j
    requires d == c + FirstLeaves(ts) as real + gap && LeafAt(ts.rest, d, gap, j, x)
    ensures k < |LeafList(ts)| && LeafAt(ts, c, gap, k, x)
  {
    LeavesShift(ts, k, j);
    LeafListWithin(ts.rest, j);
    FirstWidth(ts);
    RestAt(ts, c, gap, d, LeafList(ts.rest)[j]);
  }

  lemma LeavesShift(ts: Trees, k: nat, j: nat)
    requires ts.Cons? && j < |LeafList(ts.rest)| && k == FirstLeaves(ts) + j
    ensures k < |LeafList(ts)| && LeafList(ts)[k] == LeafList(ts.rest)[j]
  {
  }

  lemma FirstWidth(ts: Trees)
    requires ts.Cons?
    ensures TreeWidth(ts.kids) == FirstLeaves(ts) as real
  {
    WidthIsLeaves(ts.kids);
  }

  lemma RestAt(ts: Trees, c: real, gap: real, d: real, x: NodeId)
    requires Distinct(ts) && ts.Cons? && x in Ids(ts.rest) && d == c + TreeWidth(ts.kids) + gap
    ensures x in Placement(ts, c, gap) && x in Placement(ts.rest, d, gap)
    ensures Placement(ts, c, gap)[x] == Placement(ts.rest, d, gap)[x]
  {
    LayoutSplits(ts, c, gap, x);
  }

  /** The childless nodes are listed. */
  lemma {:induction false} LeafListed(children: map<NodeId, seq<NodeId>>, ids: seq<NodeId>, ts: Trees, x: NodeId)
    requires Unfolds(children, ids, ts) && x in Ids(ts) && x in children && children[x] == [] && Distinct(ts)
    ensures x in LeafList(ts)
    decreases ts
  {
    if x == ts.id {
    } else if x in Ids(ts.kids) {
      LeafListed(children, children[ts.id], ts.kids, x);
    } else {
      LeafListed(children, ids[1..], ts.rest, x);
    }
  }

  /** The leaves of the forest from left to right. */
  ghost function LeavesOf(t: Forest): seq<NodeId>
    requires IsForest(t)
  {
    LeafList(TreesOf(t))
  }

  /** Where the `k`-th leaf belongs: one slot per leaf, half a slot more per lineage before it. */
  ghost predicate OnItsSlot(t: Forest, p: Positions, k: nat)
    requires IsForest(t) && k < |LeavesOf(t)|
  {
    && LeavesOf(t)[k] in p
    && p[LeavesOf(t)[k]] == k as real + 0.5 * TreesBefore(TreesOf(t), k) as real
  }

  /** Leaves on their slots, all other nodes over the average of their children. */
  ghost predicate Tidy(t: Forest, p: Positions)
    requires IsForest(t)
  {
    && (forall k :: 0 <= k < |LeavesOf(t)| ==> OnItsSlot(t, p, k))
    && (forall x :: x in t.nodes && t.nodes[x].children != [] ==> Centred(p, x, t.nodes[x].children))
  }

  lemma PictureIsTidy(t: Forest)
    requires IsForest(t)
    ensures Tidy(t, Picture(t))
  {
    forall k | 0 <= k < |LeavesOf(t)|
      ensures OnItsSlot(t, Picture(t), k)
    {
      RootsAreSiblings(t);
      UnfoldDistinct(t, t.roots, 0, 0);
      LeafSlot(TreesOf(t), 0.0, LINEAGE_GAP, k);
      GapsSum(0.5, TreesBefore(TreesOf(t), k));
    }
    forall x | x in t.nodes && t.nodes[x].children != []
      ensures Centred(Picture(t), x, t.nodes[x].children)
    {
      ParentsCentred(t, x);
    }
  }

  lemma LeafPlaced(t: Forest, p: Positions, q: Positions, x: NodeId)
    requires IsForest(t) && Tidy(t, p) && Tidy(t, q) && x in t.nodes && t.nodes[x].children == []
    ensures x in p && x in q && p[x] == q[x]
  {
    var ts := Drawn(t, x);
    LeafListed(ChildLists(t), t.roots, ts, x);
    var k :| 0 <= k < |LeavesOf(t)| && LeavesOf(t)[k] == x;
    assert OnItsSlot(t, p, k) && OnItsSlot(t, q, k);
  }

  /** Two tidy drawings agree: a child is added after its parent, so follow the order backwards. */
  lemma {:induction false} TidyAgree(t: Forest, p: Positions, q: Positions, x: NodeId)
    requires IsForest(t) && Tidy(t, p) && Tidy(t, q) && x in t.nodes
    ensures x in p && x in q && p[x] == q[x]
    decreases |t.order| - Birth(t.order, x)
  {
    var below := t.nodes[x].children;
    if below == [] {
      LeafPlaced(t, p, q, x);
    } else {
      ChildrenAreSiblings(t, x);
      forall c | c in below
        ensures c in p && c in q && p[c] == q[c]
      {
        TidyAgree(t, p, q, c);
      }
      CentredAlike(p, q, x, below);
    }
  }

  lemma CentredAlike(p: Positions, q: Positions, x: NodeId, below: seq<NodeId>)
    requires Centred(p, x, below) && Centred(q, x, below) && below != []
    requires forall c :: c in below ==> p[c] == q[c]
    ensures p[x] == q[x]
  {
    SumAgrees(p, q, below);
    var sum := SumAt(p, below);
    assert p[x] * |below| as real == sum && q[x] * |below| as real == sum;
    SameFactor(p[x], q[x], |below| as real, sum);
  }

  lemma SameFactor(a: real, b: real, n: real, product: real)
    requires n > 0.0 && a * n == product && b * n == product
    ensures a == b
  {
    assert (a - b) * n == 0.0;
  }

  /** The picture is the only tidy drawing of the forest. */
  lemma PictureIsTheTidyDrawing(t: Forest, p: Positions)
    requires IsForest(t) && p.Keys == t.nodes.Keys
    ensures Tidy(t, p) <==> p == Picture(t)
  {
    PictureIsTidy(t);
    PictureKeys(t);
    if Tidy(t, p) {
      forall x | x in t.nodes
        ensures p[x] == Picture(t)[x]
      {
        TidyAgree(t, p, Picture(t), x);
      }
    }
  }

  lemma PictureKeys(t: Forest)
    requires IsForest(t)
    ensures Picture(t).Keys == t.nodes.Keys
  {
    RootsAreSiblings(t);
    LayoutIds(TreesOf(t), 0.0, LINEAGE_GAP);
    forall x
      ensures x in Picture(t) <==> x in t.nodes
    {
      UnfoldIds(t, t.roots, 0, 0, x);
      if x in t.nodes {
        RootAbove(t, x);
      }
    }
  }
}
