/** The tree layout of visualize_evolution_tree.py: leaves take consecutive slots, an inner node
    sits at the average of its children, lineages are set apart by an extra gap. */
module Layout {
  import opened Tree

  const LEAF_GAP: real := 1.0
  const LINEAGE_GAP: real := 0.5

  /** A list of trees: the first one has root `id` over the trees `kids`, the others are `rest`. */
  datatype Trees = Nil | Cons(id: NodeId, kids: Trees, rest: Trees)

  type Positions = map<NodeId, real>

  /** Read downwards from the nodes `ids`, the child lists form the trees `ts`. */
  ghost predicate Unfolds(children: map<NodeId, seq<NodeId>>, ids: seq<NodeId>, ts: Trees)
    decreases ts
  {
    match ts
    case Nil => ids == []
    case Cons(id, kids, rest) =>
      && ids != [] && ids[0] == id && id in children
      && Unfolds(children, children[id], kids)
      && Unfolds(children, ids[1..], rest)
  }

  function Size(ts: Trees): nat {
    match ts
    case Nil => 0
    case Cons(_, kids, rest) => 1 + Size(kids) + Size(rest)
  }

  function Ids(ts: Trees): set<NodeId> {
    match ts
    case Nil => {}
    case Cons(id, kids, rest) => {id} + Ids(kids) + Ids(rest)
  }

  /** No identifier occurs twice. */
  ghost predicate Distinct(ts: Trees) {
    match ts
    case Nil => true
    case Cons(id, kids, rest) =>
      && Distinct(kids) && Distinct(rest)
      && id !in Ids(kids) && id !in Ids(rest) && Ids(kids) !! Ids(rest)
  }

  // ---- what the walk computes --------------------------------------------------------------

  function Sum(xs: seq<real>): real {
    if xs == [] then 0.0 else xs[0] + Sum(xs[1..])
  }

  /** How far the leaf counter moves while `ts` is walked, `gap` being added after each tree. */
  function Width(ts: Trees, gap: real): real
    decreases ts, 0
  {
    match ts
    case Nil => 0.0
    case Cons(_, kids, rest) => TreeWidth(kids) + gap + Width(rest, gap)
  }

  function TreeWidth(kids: Trees): real
    decreases kids, 1
  {
    if kids.Nil? then LEAF_GAP else Width(kids, 0.0)
  }

  /** The positions of the roots of `ts` when the walk starts at counter `c`. */
  function Heads(ts: Trees, c: real, gap: real): (xs: seq<real>)
    ensures xs == [] <==> ts.Nil?
    decreases ts, 0
  {
    match ts
    case Nil => []
    case Cons(_, kids, rest) => [RootX(kids, c)] + Heads(rest, c + TreeWidth(kids) + gap, gap)
  }

  /** A node over `kids`: the next free slot, or the average of the children. */
  function RootX(kids: Trees, c: real): real
    decreases kids, 1
  {
    if kids.Nil? then c else Sum(Heads(kids, c, 0.0)) / |Heads(kids, c, 0.0)| as real
  }

  /** All positions, in the order in which the walk writes them. */
  function Placement(ts: Trees, c: real, gap: real): Positions
    decreases ts, 0
  {
    match ts
    case Nil => map[]
    case Cons(id, kids, rest) => TreePlacement(id, kids, c) + Placement(rest, c + TreeWidth(kids) + gap, gap)
  }

  function TreePlacement(id: NodeId, kids: Trees, c: real): Positions
    decreases kids, 1
  {
    Placement(kids, c, 0.0)[id := RootX(kids, c)]
  }

  class Walker {
    const children: map<NodeId, seq<NodeId>>
    var positions: Positions
    var leafCounter: real

    constructor (children: map<NodeId, seq<NodeId>>)
      ensures this.children == children && positions == map[] && leafCounter == 0.0
    {
      this.children, positions, leafCounter := children, map[], 0.0;
    }

    /** `kids` are the trees below `nid`. */
    method Walk(nid: NodeId, ghost kids: Trees) returns (x: real)
      requires nid in children && Unfolds(children, children[nid], kids)
      modifies this
      ensures x == RootX(kids, old(leafCounter)) && leafCounter == old(leafCounter) + TreeWidth(kids)
      ensures positions == old(positions) + TreePlacement(nid, kids, old(leafCounter))
      decreases Size(kids), 1
    {
      var ids := children[nid];
      if ids == [] {
        x := leafCounter;
        leafCounter := leafCounter + LEAF_GAP;
        positions := positions[nid := x];
        MergeUpdate(old(positions), map[], nid, x);
        return;
      }
      var cxs := WalkChildren(ids, kids);
      x := Sum(cxs) / |cxs| as real;
      positions := positions[nid := x];
      MergeUpdate(old(positions), Placement(kids, old(leafCounter), 0.0), nid, x);
    }

    /** The comprehension `[walk(c) for c in children]`. */
    method WalkChildren(ids: seq<NodeId>, ghost ts: Trees) returns (xs: seq<real>)
      requires Unfolds(children, ids, ts)
      modifies this
      ensures xs == Heads(ts, old(leafCounter), 0.0) && leafCounter == old(leafCounter) + Width(ts, 0.0)
      ensures positions == old(positions) + Placement(ts, old(leafCounter), 0.0)
      decreases Size(ts), 0
    {
      xs := [];
      ghost var left := ts;
      for i := 0 to |ids|
        invariant Unfolds(children, ids[i..], left) && Size(left) <= Size(ts)
        invariant xs + Heads(left, leafCounter, 0.0) == Heads(ts, old(leafCounter), 0.0)
        invariant leafCounter + Width(left, 0.0) == old(leafCounter) + Width(ts, 0.0)
        invariant positions + Placement(left, leafCounter, 0.0) == old(positions) + Placement(ts, old(leafCounter), 0.0)
      {
        ghost var before, c := positions, leafCounter;
        assert ids[i..][1..] == ids[i + 1..];
        var x := Walk(ids[i], left.kids);
        HeadsStep(xs, left, c, 0.0, x, leafCounter);
        xs := xs + [x];
        LayoutStep(before, left, c, 0.0, positions, leafCounter);
        left := left.rest;
      }
    }
  }

  lemma PlacementParts(ts: Trees, c: real, gap: real)
    requires ts.Cons?
    ensures Placement(ts, c, gap)
         == TreePlacement(ts.id, ts.kids, c) + Placement(ts.rest, c + TreeWidth(ts.kids) + gap, gap)
  {
  }

  lemma MergeAssociates(a: Positions, b: Positions, c: Positions)
    ensures (a + b) + c == a + (b + c)
  {
  }

  lemma MergeUpdate(a: Positions, b: Positions, id: NodeId, x: real)
    ensures (a + b)[id := x] == a + b[id := x]
    ensures b == map[] ==> a + b == a
  {
  }

  lemma HeadsStep(xs: seq<real>, ts: Trees, c: real, gap: real, x: real, d: real)
    requires ts.Cons? && x == RootX(ts.kids, c) && d == c + TreeWidth(ts.kids) + gap
    ensures (xs + [x]) + Heads(ts.rest, d, gap) == xs + Heads(ts, c, gap)
    ensures d + Width(ts.rest, gap) == c + Width(ts, gap)
    ensures Size(ts.rest) < Size(ts) && Size(ts.kids) < Size(ts)
  {
  }

  lemma LayoutStep(before: Positions, ts: Trees, c: real, gap: real, after: Positions, d: real)
    requires ts.Cons? && after == before + TreePlacement(ts.id, ts.kids, c) && d == c + TreeWidth(ts.kids) + gap
    ensures after + Placement(ts.rest, d, gap) == before + Placement(ts, c, gap)
  {
    PlacementParts(ts, c, gap);
    MergeAssociates(before, TreePlacement(ts.id, ts.kids, c), Placement(ts.rest, d, gap));
  }

  /** `ts` witnesses that the child lists below the roots are finite trees: the recursion of
      the walk would not end otherwise. */
  method ComputePositions(children: map<NodeId, seq<NodeId>>, roots: seq<NodeId>, ghost ts: Trees)
    returns (positions: Positions)
    requires Unfolds(children, roots, ts)
    ensures positions == Placement(ts, 0.0, LINEAGE_GAP)
  {
    var w := new Walker(children);
    ghost var left := ts;
    for i := 0 to |roots|
      invariant w.children == children && fresh(w) && Unfolds(children, roots[i..], left)
      invariant w.positions + Placement(left, w.leafCounter, LINEAGE_GAP) == Placement(ts, 0.0, LINEAGE_GAP)
    {
      ghost var before, c := w.positions, w.leafCounter;
      assert roots[i..][1..] == roots[i + 1..];
      var x := w.Walk(roots[i], left.kids);
      w.leafCounter := w.leafCounter + LINEAGE_GAP;
      LayoutStep(before, left, c, LINEAGE_GAP, w.positions, w.leafCounter);
      left := left.rest;
    }
    positions := w.positions;
  }

  // ---- every node lies within the slots of its own leaves --------------------------------------

  lemma {:induction false} LayoutIds(ts: Trees, c: real, gap: real)
    ensures Placement(ts, c, gap).Keys == Ids(ts)
  {
    if ts.Cons? {
      LayoutIds(ts.kids, c, 0.0);
      LayoutIds(ts.rest, c + TreeWidth(ts.kids) + gap, gap);
    }
  }

  lemma {:induction false} WidthPositive(ts: Trees, gap: real)
    requires gap >= 0.0
    ensures Width(ts, gap) >= 0.0 && (ts.Cons? ==> Width(ts, gap) >= TreeWidth(ts.kids) + gap)
    ensures ts.Cons? ==> TreeWidth(ts.kids) >= LEAF_GAP
  {
    if ts.Cons? {
      WidthPositive(ts.kids, 0.0);
      WidthPositive(ts.rest, gap);
    }
  }

  lemma {:induction false} SumBetween(xs: seq<real>, lo: real, hi: real)
    requires forall i :: 0 <= i < |xs| ==> lo <= xs[i] <= hi
    ensures |xs| as real * lo <= Sum(xs) <= |xs| as real * hi
    decreases |xs|
  {
    if xs != [] {
      SumBetween(xs[1..], lo, hi);
      OneMore(|xs[1..]| as real, lo);
      OneMore(|xs[1..]| as real, hi);
    }
  }

  lemma OneMore(k: real, c: real)
    ensures (k + 1.0) * c == k * c + c
  {
  }

  lemma AverageBetween(xs: seq<real>, lo: real, hi: real)
    requires xs != [] && forall i :: 0 <= i < |xs| ==> lo <= xs[i] <= hi
    ensures lo <= Sum(xs) / |xs| as real <= hi
  {
    SumBetween(xs, lo, hi);
    QuotientBetween(Sum(xs), |xs| as real, lo, hi);
  }

  lemma QuotientBetween(s: real, n: real, lo: real, hi: real)
    requires n > 0.0 && n * lo <= s <= n * hi
    ensures lo <= s / n <= hi
  {
    var q := s / n;
    assert n * q == s;
    assert n * (q - lo) >= 0.0 && n * (hi - q) >= 0.0;
  }

  ghost predicate AllWithin(xs: seq<real>, lo: real, hi: real) {
    forall i :: 0 <= i < |xs| ==> lo <= xs[i] <= hi
  }

  lemma WithinMore(x: real, xs: seq<real>, c: real, d: real, hi: real)
    requires AllWithin(xs, d, hi) && c <= d && c <= x <= hi
    ensures AllWithin([x] + xs, c, hi)
  {
  }

  /** The roots of `ts` lie within the interval the counter runs through. */
  lemma {:induction false} HeadsWithin(ts: Trees, c: real, gap: real, hi: real)
    requires gap >= 0.0 && c + Width(ts, gap) - LEAF_GAP - gap <= hi
    ensures AllWithin(Heads(ts, c, gap), c, hi)
    decreases ts, 0
  {
    if ts.Cons? {
      var d := c + TreeWidth(ts.kids) + gap;
      RootWithin(ts.kids, c);
      WidthPositive(ts, gap);
      if ts.rest.Cons? {
        WidthPositive(ts.rest, gap);
        HeadsWithin(ts.rest, d, gap, hi);
      }
      WithinMore(RootX(ts.kids, c), Heads(ts.rest, d, gap), c, d, hi);
    }
  }

  lemma {:induction false} RootWithin(kids: Trees, c: real)
    ensures c <= RootX(kids, c) <= c + TreeWidth(kids) - LEAF_GAP
    decreases kids, 1
  {
    if kids.Cons? {
      HeadsWithin(kids, c, 0.0, c + TreeWidth(kids) - LEAF_GAP);
      AverageBetween(Heads(kids, c, 0.0), c, c + TreeWidth(kids) - LEAF_GAP);
    }
  }

  /** Every node lies between the first and the last leaf slot of the trees it belongs to. */
  lemma {:induction false} Inside(ts: Trees, c: real, gap: real, p: Positions, x: NodeId)
    requires gap >= 0.0 && p == Placement(ts, c, gap) && x in Ids(ts)
    ensures x in p && c <= p[x] <= c + Width(ts, gap) - LEAF_GAP - gap
    decreases ts
  {
    var d := c + TreeWidth(ts.kids) + gap;
    LayoutIds(ts.rest, d, gap);
    LayoutIds(ts.kids, c, 0.0);
    WidthPositive(ts, gap);
    WidthPositive(ts.rest, gap);
    if x in Ids(ts.rest) {
      Inside(ts.rest, d, gap, Placement(ts.rest, d, gap), x);
    } else if x == ts.id {
      RootWithin(ts.kids, c);
    } else {
      Inside(ts.kids, c, 0.0, Placement(ts.kids, c, 0.0), x);
    }
  }

  /** The leaves of the trees from left to right. */
  function LeafList(ts: Trees): seq<NodeId> {
    if ts.Nil? then []
    else (if ts.kids.Nil? then [ts.id] else LeafList(ts.kids)) + LeafList(ts.rest)
  }

  lemma {:induction false} LeafListWithin(ts: Trees, k: nat)
    requires k < |LeafList(ts)|
    ensures LeafList(ts)[k] in Ids(ts)
  {
    var n := if ts.kids.Nil? then 1 else |LeafList(ts.kids)|;
    if k >= n {
      LeafListWithin(ts.rest, k - n);
    } else if ts.kids.Cons? {
      LeafListWithin(ts.kids, k);
    }
  }

  lemma {:induction false} WidthIsLeaves(ts: Trees)
    ensures Width(ts, 0.0) == |LeafList(ts)| as real
  {
    if ts.Cons? {
      WidthIsLeaves(ts.kids);
      WidthIsLeaves(ts.rest);
    }
  }

  /** The leaves of one lineage fill consecutive slots, from left to right. */
  lemma {:induction false} LeavesConsecutive(ts: Trees, c: real, k: nat)
    requires Distinct(ts) && k < |LeafList(ts)|
    ensures LeafList(ts)[k] in Placement(ts, c, 0.0) && Placement(ts, c, 0.0)[LeafList(ts)[k]] == c + k as real
    decreases ts
  {
    LeafListWithin(ts, k);
    LayoutSplits(ts, c, 0.0, LeafList(ts)[k]);
    var n := if ts.kids.Nil? then 1 else |LeafList(ts.kids)|;
    WidthIsLeaves(ts.kids);
    if k >= n {
      LeafListWithin(ts.rest, k - n);
      LeavesConsecutive(ts.rest, c + TreeWidth(ts.kids) + 0.0, k - n);
    } else if ts.kids.Cons? {
      LeafListWithin(ts.kids, k);
      LeavesConsecutive(ts.kids, c, k);
    }
  }

  // ---- separation ------------------------------------------------------------------------------

  ghost predicate Apart(x: real, y: real, gap: real) {
    x + gap <= y || y + gap <= x
  }

  /** The nodes strictly below `x`. */
  function Below(ts: Trees, x: NodeId): set<NodeId> {
    if ts.Nil? then {}
    else if x == ts.id then Ids(ts.kids)
    else if x in Ids(ts.kids) then Below(ts.kids, x)
    else Below(ts.rest, x)
  }

  ghost predicate Unrelated(ts: Trees, x: NodeId, y: NodeId) {
    x != y && y !in Below(ts, x) && x !in Below(ts, y)
  }

  lemma MergedAt(kids: Positions, id: NodeId, r: real, rest: Positions, x: NodeId)
    ensures x in kids[id := r] + rest <==> x in kids || x == id || x in rest
    ensures x in rest ==> (kids[id := r] + rest)[x] == rest[x]
    ensures x !in rest && x == id ==> (kids[id := r] + rest)[x] == r
    ensures x !in rest && x != id && x in kids ==> (kids[id := r] + rest)[x] == kids[x]
  {
  }

  /** How the positions of a list of trees split between its first tree and the others. */
  lemma LayoutSplits(ts: Trees, c: real, gap: real, x: NodeId)
    requires Distinct(ts) && x in Ids(ts)
    ensures x in Placement(ts, c, gap)
    ensures x in Ids(ts.rest) ==>
              && x in Placement(ts.rest, c + TreeWidth(ts.kids) + gap, gap)
              && Placement(ts, c, gap)[x] == Placement(ts.rest, c + TreeWidth(ts.kids) + gap, gap)[x]
    ensures x in Ids(ts.kids) ==>
              && x in Placement(ts.kids, c, 0.0)
              && Placement(ts, c, gap)[x] == Placement(ts.kids, c, 0.0)[x]
    ensures x == ts.id ==> Placement(ts, c, gap)[x] == RootX(ts.kids, c)
  {
    var d := c + TreeWidth(ts.kids) + gap;
    LayoutIds(ts.kids, c, 0.0);
    LayoutIds(ts.rest, d, gap);
    PlacementParts(ts, c, gap);
    MergedAt(Placement(ts.kids, c, 0.0), ts.id, RootX(ts.kids, c), Placement(ts.rest, d, gap), x);
  }

  predicate InFirst(ts: Trees, x: NodeId) {
    ts.Cons? && (x == ts.id || x in Ids(ts.kids))
  }

  lemma FirstInside(ts: Trees, c: real, gap: real, x: NodeId)
    requires Distinct(ts) && gap >= 0.0 && InFirst(ts, x)
    ensures x in Placement(ts, c, gap) && c <= Placement(ts, c, gap)[x] <= c + TreeWidth(ts.kids) - LEAF_GAP
  {
    LayoutSplits(ts, c, gap, x);
    if x == ts.id {
      RootWithin(ts.kids, c);
    } else {
      Inside(ts.kids, c, 0.0, Placement(ts.kids, c, 0.0), x);
    }
  }

  /** A node of the first tree is a full leaf gap, and the extra gap, left of the other trees. */
  lemma FirstLeftOfRest(ts: Trees, c: real, gap: real, x: NodeId, y: NodeId)
    requires Distinct(ts) && gap >= 0.0 && InFirst(ts, x) && y in Ids(ts.rest)
    ensures x in Placement(ts, c, gap) && y in Placement(ts, c, gap)
    ensures Placement(ts, c, gap)[x] + LEAF_GAP + gap <= Placement(ts, c, gap)[y]
  {
    var d := c + TreeWidth(ts.kids) + gap;
    FirstInside(ts, c, gap, x);
    LayoutSplits(ts, c, gap, y);
    Inside(ts.rest, d, gap, Placement(ts.rest, d, gap), y);
  }

  /** Nodes of which neither is above the other are at least one leaf gap apart. */
  lemma {:induction false} UnrelatedApart(ts: Trees, c: real, gap: real, x: NodeId, y: NodeId)
    requires Distinct(ts) && gap >= 0.0 && x in Ids(ts) && y in Ids(ts) && Unrelated(ts, x, y)
    ensures x in Placement(ts, c, gap) && y in Placement(ts, c, gap)
    ensures Apart(Placement(ts, c, gap)[x], Placement(ts, c, gap)[y], LEAF_GAP)
    decreases ts
  {
    LayoutSplits(ts, c, gap, x);
    LayoutSplits(ts, c, gap, y);
    if x in Ids(ts.rest) && y in Ids(ts.rest) {
      UnrelatedApart(ts.rest, c + TreeWidth(ts.kids) + gap, gap, x, y);
    } else if y in Ids(ts.rest) {
      FirstLeftOfRest(ts, c, gap, x, y);
    } else if x in Ids(ts.rest) {
      FirstLeftOfRest(ts, c, gap, y, x);
    } else {
      UnrelatedApart(ts.kids, c, 0.0, x, y);
    }
  }

  /** The depth of `x` below the roots of `ts`. */
  function DepthIn(ts: Trees, x: NodeId): nat {
    if ts.Nil? || x == ts.id then 0
    else if x in Ids(ts.kids) then 1 + DepthIn(ts.kids, x)
    else DepthIn(ts.rest, x)
  }

  lemma {:induction false} BelowIsDeeper(ts: Trees, x: NodeId, y: NodeId)
    requires Distinct(ts) && y in Below(ts, x)
    ensures y in Ids(ts) && DepthIn(ts, y) > DepthIn(ts, x)
  {
    if x != ts.id {
      BelowIsDeeper(if x in Ids(ts.kids) then ts.kids else ts.rest, x, y);
    }
  }

  /** Two nodes at the same depth never overlap. */
  lemma SameDepthApart(ts: Trees, c: real, gap: real, x: NodeId, y: NodeId)
    requires Distinct(ts) && gap >= 0.0 && x in Ids(ts) && y in Ids(ts)
    requires x != y && DepthIn(ts, x) == DepthIn(ts, y)
    ensures x in Placement(ts, c, gap) && y in Placement(ts, c, gap)
    ensures Apart(Placement(ts, c, gap)[x], Placement(ts, c, gap)[y], LEAF_GAP)
  {
    if y in Below(ts, x) { BelowIsDeeper(ts, x, y); }
    if x in Below(ts, y) { BelowIsDeeper(ts, y, x); }
    UnrelatedApart(ts, c, gap, x, y);
  }

  /** The root above `x`. */
  function Lineage(ts: Trees, x: NodeId): NodeId
    requires x in Ids(ts)
  {
    if InFirst(ts, x) then ts.id else Lineage(ts.rest, x)
  }

  /** Nodes of different lineages are set apart by the extra gap as well. */
  lemma {:induction false} LineagesApart(ts: Trees, c: real, gap: real, x: NodeId, y: NodeId)
    requires Distinct(ts) && gap >= 0.0 && x in Ids(ts) && y in Ids(ts) && Lineage(ts, x) != Lineage(ts, y)
    ensures x in Placement(ts, c, gap) && y in Placement(ts, c, gap)
    ensures Apart(Placement(ts, c, gap)[x], Placement(ts, c, gap)[y], LEAF_GAP + gap)
  {
    LayoutSplits(ts, c, gap, x);
    LayoutSplits(ts, c, gap, y);
    if InFirst(ts, x) {
      FirstLeftOfRest(ts, c, gap, x, y);
    } else if InFirst(ts, y) {
      FirstLeftOfRest(ts, c, gap, y, x);
    } else {
      LineagesApart(ts.rest, c + TreeWidth(ts.kids) + gap, gap, x, y);
    }
  }
}
