/** What every run of the evolution loop keeps. */
module EvolutionInvariants {
  import opened Options
  import opened Scoring
  import opened Tree
  import opened Branches
  import opened Frontier
  import opened Evolution

  // ---- how the tree grows ------------------------------------------------------------------

  /** Nodes are never removed, and all their fields but the child list stay as they are. */
  ghost predicate Grown(t: Forest, u: Forest) {
    forall id :: id in t.nodes ==> id in u.nodes && SameNode(t.nodes[id], u.nodes[id])
  }

  ghost predicate SameNode(m: TreeNode, n: TreeNode) {
    m.(children := []) == n.(children := [])
  }

  lemma AddedGrows(t: Forest, id: NodeId, d: Draft)
    requires ParentKnown(t, d) && id !in t.nodes && Listed(t)
    ensures Grown(t, Added(t, id, d))
  {
    AddedNodes(t, id, d);
  }

  /** The n-th node is named `uuid(n)`. */
  ghost predicate NamedInOrder(uuid: nat -> NodeId, t: Forest) {
    forall i :: 0 <= i < |t.order| ==> t.order[i] == uuid(i)
  }

  lemma NextNameFresh(uuid: nat -> NodeId, t: Forest)
    requires Unique(uuid) && Listed(t) && NamedInOrder(uuid, t)
    ensures uuid(|t.order|) !in t.nodes
  {
    forall i | 0 <= i < |t.order|
      ensures t.order[i] != uuid(|t.order|)
    {
      assert t.order[i] == uuid(i);
    }
  }

  // ---- per-tree facts --------------------------------------------------------------------------

  ghost predicate RoundsIncrease(t: Forest, r: nat) {
    forall id :: id in t.nodes ==> RoundOk(t, t.nodes[id], r)
  }

  ghost predicate RoundOk(t: Forest, n: TreeNode, r: nat) {
    n.round <= r && (n.parent.Some? ==> n.parent.value in t.nodes && t.nodes[n.parent.value].round < n.round)
  }

  ghost predicate SeedsInherited(t: Forest) {
    forall id :: id in t.nodes ==> SeedOk(t, t.nodes[id])
  }

  ghost predicate SeedOk(t: Forest, n: TreeNode) {
    n.seed != "" && (n.parent.Some? ==> n.parent.value in t.nodes && t.nodes[n.parent.value].seed == n.seed)
  }

  ghost predicate NoPivotMutate(t: Forest) {
    forall id :: id in t.nodes ==> t.nodes[id].strategy != "pivot-mutate"
  }

  ghost predicate TreeOk(uuid: nat -> NodeId, t: Forest, r: nat) {
    && IsForest(t) && NamedInOrder(uuid, t) && BestIsRight(t)
    && RoundsIncrease(t, r) && SeedsInherited(t) && NoPivotMutate(t)
  }

  /** A draft that keeps the tree facts: its parent is older and of the same seed. */
  ghost predicate DraftOk(t: Forest, d: Draft, r: nat) {
    && d.seed != "" && d.round <= r && d.strategy != "pivot-mutate"
    && (d.parent.Some? ==>
          d.parent.value in t.nodes && t.nodes[d.parent.value].round < d.round && t.nodes[d.parent.value].seed
              == d.seed)
  }

  lemma AddedTreeOk(uuid: nat -> NodeId, t: Forest, d: Draft, r: nat)
    requires Unique(uuid) && TreeOk(uuid, t, r) && DraftOk(t, d, r)
    ensures uuid(|t.order|) !in t.nodes
    ensures TreeOk(uuid, Added(t, uuid(|t.order|), d), r)
  {
    var id := uuid(|t.order|);
    NextNameFresh(uuid, t);
    AddedIsForest(t, id, d);
    AddedBestIsRight(t, id, d);
    AddedNodeFacts(t, id, d, r);
  }

  lemma AddedNodeFacts(t: Forest, id: NodeId, d: Draft, r: nat)
    requires Listed(t) && id !in t.nodes && DraftOk(t, d, r)
    requires RoundsIncrease(t, r) && SeedsInherited(t) && NoPivotMutate(t)
    ensures var u := Added(t, id, d); RoundsIncrease(u, r) && SeedsInherited(u) && NoPivotMutate(u)
  {
    var u := Added(t, id, d);
    AddedNodes(t, id, d);
    forall n | n in u.nodes
      ensures RoundOk(u, u.nodes[n], r) && SeedOk(u, u.nodes[n]) && u.nodes[n].strategy != "pivot-mutate"
    {
      if n != id {
        assert RoundOk(t, t.nodes[n], r) && SeedOk(t, t.nodes[n]);
      }
    }
  }

  // ---- per-branch facts ---------------------------------------------------------------------------

  /** A live branch sits on an existing node of its own seed, and its pivots lie in the past. */
  ghost predicate BranchOk(t: Forest, b: Branch, r: nat) {
    && b.head in t.nodes && t.nodes[b.head].seed == b.seed
    && forall i :: 0 <= i < |b.pivots| ==> b.pivots[i] <= r
  }

  ghost predicate BranchesOk(t: Forest, bs: seq<Branch>, r: nat) {
    forall b :: b in bs ==> BranchOk(t, b, r)
  }

  lemma BranchesGrow(t: Forest, u: Forest, bs: seq<Branch>, r: nat, r': nat)
    requires BranchesOk(t, bs, r) && Grown(t, u) && r <= r'
    ensures BranchesOk(u, bs, r')
  {
    forall b | b in bs
      ensures BranchOk(u, b, r')
    {
      assert BranchOk(t, b, r) && SameNode(t.nodes[b.head], u.nodes[b.head]);
    }
  }

  /** Identifiers are distinct and below the counter. */
  ghost predicate IdsOk(bs: seq<Branch>, idx: nat) {
    DistinctIds(bs) && NamedBelow(bs, idx)
  }

  // ---- the best-score register ------------------------------------------------------------------------

  /** `best_score` and best_policy.c are those of the best node. */
  ghost predicate RegisterOk(s: Run) {
    match s.tree.best
    case None => s.bestScore.None? && s.bestPolicy.None?
    case Some(b) =>
      && b in s.tree.nodes
      && s.bestScore == Some(s.tree.nodes[b].score) && s.bestPolicy == Some(s.tree.nodes[b].code)
  }

  /** The best node is the same as before, or one with a strictly better score. */
  ghost predicate BestRises(t: Forest, u: Forest) {
    || u.best == t.best
    || (u.best.Some? && u.best.value in u.nodes
        && (t.best.None? || (t.best.value in t.nodes && u.nodes[u.best.value].score > t.nodes[t.best.value].score)))
  }

  lemma AddedBestRises(t: Forest, id: NodeId, d: Draft)
    requires ParentKnown(t, d) && id !in t.nodes && IsForest(t)
    ensures BestRises(t, Added(t, id, d))
  {
    AddedNodes(t, id, d);
  }

  lemma BestRisesTransitive(t: Forest, u: Forest, v: Forest)
    requires BestRises(t, u) && BestRises(u, v) && Grown(t, u) && Grown(u, v) && IsForest(t) && IsForest(u)
    ensures BestRises(t, v) && Grown(t, v)
  {
    forall id | id in t.nodes
      ensures id in v.nodes && SameNode(t.nodes[id], v.nodes[id])
    {
      assert SameNode(t.nodes[id], u.nodes[id]) && SameNode(u.nodes[id], v.nodes[id]);
    }
    if t.best.Some? && u.best == t.best {
      assert SameNode(t.nodes[t.best.value], u.nodes[t.best.value]);
    }
  }

  /** After the snapshot the register is right again, and the best score has not dropped. */
  lemma SnapshotRestoresRegister(s: Run, s': Run)
    requires RegisterOk(s) && IsForest(s.tree) && IsForest(s'.tree)
    requires Grown(s.tree, s'.tree) && BestRises(s.tree, s'.tree)
    requires s'.bestScore == s.bestScore && s'.bestPolicy == s.bestPolicy
    ensures Snapshot(s').Some?
    ensures var u := Snapshot(s').value;
            && u == s'.(bestScore := u.bestScore, bestPolicy := u.bestPolicy)
            && RegisterOk(u)
            && (s.bestScore.Some? ==> u.bestScore.Some? && u.bestScore.value >= s.bestScore.value)
  {
    if s.tree.best.Some? {
      assert SameNode(s.tree.nodes[s.tree.best.value], s'.tree.nodes[s.tree.best.value]);
    }
  }

  // ---- one stitched result ----------------------------------------------------------------------------

  /** A result that some live branch of the round's start may have produced. */
  ghost predicate ResultOk(t: Forest, bs: seq<Branch>, r: StepResult) {
    && r.strategy != "pivot-mutate"
    && exists b :: b in bs && b.id == r.branchId && b.head == r.parent && b.seed == r.seed && b.head in t.nodes
  }

  lemma {:induction false} ResultsOk(t: Forest, bs: seq<Branch>, m: nat, round: nat, arrivals: seq<Arrival>)
    requires round == m + 1 && BranchesOk(t, bs, m)
    ensures forall r :: r in Results(t, bs, round, arrivals) ==> ResultOk(t, bs, r)
    ensures |Results(t, bs, round, arrivals)| <= |arrivals|
    decreases |arrivals|
  {
    if arrivals != [] {
      ResultsOk(t, bs, m, round, arrivals[..|arrivals| - 1]);
      var a := arrivals[|arrivals| - 1];
      if a.index < |bs| {
        var b := bs[a.index];
        assert BranchOk(t, b, m);
        assert StepBranch(t, b, round, a.outcome).Some? ==> ResultOk(t, bs, StepBranch(t, b, round, a.outcome).value);
      }
    }
  }

  ghost predicate HeadSet(bs: seq<Branch>, id: string, head: NodeId, cs: seq<Branch>) {
    && |cs| == |bs|
    && forall i :: 0 <= i < |bs| ==> cs[i] == if bs[i].id == id then bs[i].(head := head) else bs[i]
  }

  lemma {:induction false} SetHeadMeaning(bs: seq<Branch>, id: string, head: NodeId)
    requires DistinctIds(bs)
    ensures HeadSet(bs, id, head, SetHead(bs, id, head))
    decreases |bs|
  {
    if bs != [] && bs[0].id != id {
      SetHeadMeaning(bs[1..], id, head);
      PrependUntouched(bs[0], bs[1..], id, head, SetHead(bs[1..], id, head));
      assert [bs[0]] + bs[1..] == bs;
    }
  }

  lemma PrependUntouched(b: Branch, bs: seq<Branch>, id: string, head: NodeId, cs: seq<Branch>)
    requires b.id != id && HeadSet(bs, id, head, cs)
    ensures HeadSet([b] + bs, id, head, [b] + cs)
  {
  }

  /** Two branch lists that agree on everything but the heads. */
  ghost predicate SameButHeads(bs: seq<Branch>, cs: seq<Branch>) {
    |bs| == |cs| && forall i :: 0 <= i < |bs| ==> cs[i] == bs[i].(head := cs[i].head)
  }

  /** What a partly stitched round keeps relative to the start `s` of the round. */
  ghost predicate StitchInvariant(uuid: nat -> NodeId, s: Run, u: Run, round: nat, n: nat) {
    && TreeOk(uuid, u.tree, round) && Grown(s.tree, u.tree) && BestRises(s.tree, u.tree)
    && SameButHeads(s.branches, u.branches) && BranchesOk(u.tree, u.branches, round)
    && u.nextIdx == s.nextIdx && u.bestScore == s.bestScore && u.bestPolicy == s.bestPolicy
    && |u.tree.order| == |s.tree.order| + n
  }

  /** The state between rounds: `r` rounds are done. */
  ghost predicate RunOk(uuid: nat -> NodeId, s: Run, r: nat) {
    && TreeOk(uuid, s.tree, r) && BranchesOk(s.tree, s.branches, r)
    && IdsOk(s.branches, s.nextIdx) && RegisterOk(s)
  }

  lemma StitchKeeps(cfg: Config, uuid: nat -> NodeId, frozen: Norm, m: nat, round: nat, s: Run, u: Run, n: nat,
                    r: StepResult)
    requires Unique(uuid) && round == m + 1 && RunOk(uuid, s, m) && StitchInvariant(uuid, s, u, round, n)
    requires ResultOk(s.tree, s.branches, r)
    ensures Stitch(cfg, uuid, frozen, round, u, r).Some?
    ensures StitchInvariant(uuid, s, Stitch(cfg, uuid, frozen, round, u, r).value, round, n + 1)
  {
    var d, id := ResultDraft(cfg, frozen, round, r), uuid(|u.tree.order|);
    var b :| b in s.branches && b.id == r.branchId && b.head == r.parent && b.seed == r.seed && b.head in s.tree.nodes;
    assert BranchOk(s.tree, b, m) && RoundOk(s.tree, s.tree.nodes[b.head], m) && SeedOk(s.tree, s.tree.nodes[b.head]);
    assert SameNode(s.tree.nodes[b.head], u.tree.nodes[b.head]);
    assert DraftOk(u.tree, d, round);
    AddedTreeOk(uuid, u.tree, d, round);
    var v := Added(u.tree, id, d);
    AddedGrows(u.tree, id, d);
    AddedBestRises(u.tree, id, d);
    BestRisesTransitive(s.tree, u.tree, v);
    StitchedBranches(s, u.branches, u.tree, v, id, d, round, b);
  }

  lemma StitchedBranches(s: Run, bs: seq<Branch>, t: Forest, v: Forest, id: NodeId, d: Draft, round: nat, b: Branch)
    requires DistinctIds(s.branches) && SameButHeads(s.branches, bs) && BranchesOk(t, bs, round) && Grown(t, v)
    requires b in s.branches && id in v.nodes && v.nodes[id].seed == b.seed
    ensures SameButHeads(s.branches, SetHead(bs, b.id, id)) && BranchesOk(v, SetHead(bs, b.id, id), round)
  {
    SetHeadMeaning(bs, b.id, id);
    BranchesGrow(t, v, bs, round, round);
    var cs := SetHead(bs, b.id, id);
    forall i | 0 <= i < |cs|
      ensures BranchOk(v, cs[i], round)
    {
      assert BranchOk(v, bs[i], round);
      if bs[i].id == b.id {
        DistinctUnique(s.branches, s.branches[i], b);
      }
    }
  }

  lemma {:induction false} StitchAllKeeps(cfg: Config, uuid: nat -> NodeId, frozen: Norm, m: nat, round: nat, s: Run,
                                          rs: seq<StepResult>)
    requires Unique(uuid) && round == m + 1 && RunOk(uuid, s, m)
    requires forall r :: r in rs ==> ResultOk(s.tree, s.branches, r)
    ensures StitchAll(cfg, uuid, frozen, round, s, rs).Some?
    ensures StitchInvariant(uuid, s, StitchAll(cfg, uuid, frozen, round, s, rs).value, round, |rs|)
    decreases |rs|
  {
    if rs == [] {
      TreeOkLater(uuid, s.tree, m, round);
      BranchesGrow(s.tree, s.tree, s.branches, m, round);
    } else {
      var init := rs[..|rs| - 1];
      StitchAllKeeps(cfg, uuid, frozen, m, round, s, init);
      StitchKeeps(cfg, uuid, frozen, m, round, s, StitchAll(cfg, uuid, frozen, round, s, init).value, |init|,
          rs[|rs| - 1]);
    }
  }

  lemma TreeOkLater(uuid: nat -> NodeId, t: Forest, r: nat, r': nat)
    requires TreeOk(uuid, t, r) && r <= r'
    ensures TreeOk(uuid, t, r')
  {
    forall id | id in t.nodes
      ensures RoundOk(t, t.nodes[id], r')
    {
      assert RoundOk(t, t.nodes[id], r);
    }
  }

  // ---- a whole round ---------------------------------------------------------------------------------------

  /** Each position completes at most once. */
  ghost predicate DistinctArrivals(a: seq<Arrival>, n: nat) {
    && (forall i :: 0 <= i < |a| ==> a[i].index < n)
    && (forall i, j :: 0 <= i < j < |a| ==> a[i].index != a[j].index)
  }

  lemma {:induction false} ArrivalsDistinct(schedule: seq<Arrival>, n: nat)
    ensures DistinctArrivals(Arrivals(schedule, n), n)
    decreases |schedule|
  {
    if schedule != [] {
      ArrivalsDistinct(schedule[..|schedule| - 1], n);
      AppendArrival(Arrivals(schedule[..|schedule| - 1], n), schedule[|schedule| - 1], n);
    }
  }

  lemma AppendArrival(init: seq<Arrival>, a: Arrival, n: nat)
    requires DistinctArrivals(init, n)
    ensures a.index < n && (forall b :: b in init ==> b.index != a.index) ==> DistinctArrivals(init + [a], n)
  {
    assert forall i :: 0 <= i < |init| ==> init[i] in init;
  }

  function Indices(a: seq<Arrival>): (r: seq<int>)
    ensures |r| == |a| && forall i :: 0 <= i < |a| ==> r[i] == a[i].index
  {
    seq(|a|, i requires 0 <= i < |a| => a[i].index as int)
  }

  function UpTo(n: nat): (r: seq<int>)
    ensures |r| == n && forall i :: 0 <= i < n ==> r[i] == i
  {
    seq(n, i => i)
  }

  lemma ArrivalsFew(schedule: seq<Arrival>, n: nat)
    ensures |Arrivals(schedule, n)| <= n
  {
    ArrivalsDistinct(schedule, n);
    var a := Arrivals(schedule, n);
    forall i | 0 <= i < |a|
      ensures Indices(a)[i] in UpTo(n)
    {
      assert UpTo(n)[a[i].index] == a[i].index;
    }
    InjectionBound(Indices(a), UpTo(n));
  }

  /** What one parallel round does to the run. */
  ghost predicate RoundEffect(s: Run, u: Run) {
    && Grown(s.tree, u.tree) && SameButHeads(s.branches, u.branches) && u.nextIdx == s.nextIdx
    && |s.tree.order| <= |u.tree.order| <= |s.tree.order| + |s.branches|
    && (s.bestScore.Some? ==> u.bestScore.Some? && u.bestScore.value >= s.bestScore.value)
  }

  /** A round never raises while branches are alive, and keeps the run's invariant. */
  lemma ParallelRoundKeeps(cfg: Config, uuid: nat -> NodeId, s: Run, m: nat, round: nat, schedule: seq<Arrival>)
    requires Unique(uuid) && round == m + 1 && RunOk(uuid, s, m)
    ensures ParallelRound(cfg, uuid, s, round, schedule).Some? <==> s.branches != []
    ensures s.branches != [] ==>
              var u := ParallelRound(cfg, uuid, s, round, schedule).value; RunOk(uuid, u, round) && RoundEffect(s, u)
  {
    if s.branches != [] {
      var arrivals := Arrivals(schedule, |s.branches|);
      var rs := Results(s.tree, s.branches, round, arrivals);
      ArrivalsFew(schedule, |s.branches|);
      ResultsOk(s.tree, s.branches, m, round, arrivals);
      StitchAllKeeps(cfg, uuid, s.norm, m, round, s, rs);
      var s' := StitchAll(cfg, uuid, s.norm, round, s, rs).value;
      SnapshotRestoresRegister(s, s');
      IdsKept(s.branches, s'.branches, s.nextIdx);
    }
  }

  lemma IdsKept(bs: seq<Branch>, cs: seq<Branch>, idx: nat)
    requires IdsOk(bs, idx) && SameButHeads(bs, cs)
    ensures IdsOk(cs, idx)
  {
    forall c | c in cs
      ensures NameBelow(c.id, idx)
    {
      var i :| 0 <= i < |cs| && cs[i] == c;
      assert bs[i] in bs && bs[i].id == c.id;
    }
  }

  // ---- the checkpoint ------------------------------------------------------------------------------------------

  lemma {:induction false} MaxNumberMeaning(bs: seq<Branch>, default: int)
    ensures AnyNumber(bs) ==> MaxNumber(bs, default) >= 0
    ensures !AnyNumber(bs) ==> MaxNumber(bs, default) == default
    ensures forall b :: b in bs && BranchNumber(b.id).Some? ==> BranchNumber(b.id).value <= MaxNumber(bs, default)
    decreases |bs|
  {
    if bs != [] {
      var rest, last := bs[..|bs| - 1], bs[|bs| - 1];
      MaxNumberMeaning(rest, default);
      assert forall b :: b in bs <==> b in rest || b == last;
    }
  }

  lemma CounterCovers(t: Forest, kept: seq<Branch>, spawned: seq<Branch>, round: nat, idx: nat, next: nat)
    requires NamedBelow(kept, idx) && FreshSpawns(t, spawned, round, idx, |spawned|)
    requires next == NextIdx(kept + spawned, idx)
    ensures NamedBelow(kept + spawned, next)
    ensures forall b :: b in spawned ==> NameBetween(b.id, idx, next)
  {
    forall b | b in spawned
      ensures NameBetween(b.id, idx, next)
    {
      SpawnedBelow(t, kept, spawned, round, idx, b, next);
    }
    forall b | b in kept
      ensures NameBelow(b.id, next)
    {
      NameBelowLater(b.id, idx, next);
    }
    assert forall b :: b in spawned ==> NameBelow(b.id, next);
  }

  ghost predicate NameBetween(id: string, lo: nat, hi: nat) {
    exists n: nat :: lo <= n < hi && id == BranchName(n)
  }

  lemma NameBelowLater(id: string, idx: nat, next: nat)
    requires NameBelow(id, idx) && idx <= next
    ensures NameBelow(id, next)
  {
    var n: nat :| n < idx && id == BranchName(n);
    assert n < next && id == BranchName(n);
  }

  lemma SpawnedBelow(t: Forest, kept: seq<Branch>, spawned: seq<Branch>, round: nat, idx: nat, b: Branch, next: nat)
    requires FreshSpawns(t, spawned, round, idx, |spawned|) && b in spawned && next == NextIdx(kept + spawned, idx)
    ensures NameBetween(b.id, idx, next)
  {
    var i :| 0 <= i < |spawned| && spawned[i] == b;
    var n: nat := idx + i;
    assert FreshSpawn(t, spawned[i], round, n);
    BranchNumberOfName(n);
    MaxNumberAtLeast(kept + spawned, idx - 1, b, n);
    assert idx <= n < next && b.id == BranchName(n);
  }

  lemma MaxNumberAtLeast(bs: seq<Branch>, default: int, b: Branch, n: nat)
    requires b in bs && BranchNumber(b.id) == Some(n)
    ensures n <= MaxNumber(bs, default)
  {
    MaxNumberMeaning(bs, default);
  }

  lemma KeptNamedBelow(bs: seq<Branch>, kept: seq<Branch>, idx: nat)
    requires NamedBelow(bs, idx) && forall r :: r in kept ==> HasId(bs, r.id)
    ensures NamedBelow(kept, idx)
  {
    forall r | r in kept
      ensures NameBelow(r.id, idx)
    {
      var b :| b in bs && b.id == r.id;
    }
  }

  lemma KeptBranchesOk(t: Forest, bs: seq<Branch>, ds: seq<Decision>, round: nat, kept: seq<Branch>)
    requires BranchesOk(t, bs, round) && SeedsInherited(t) && Listed(t) && Partitions(t, bs, ds, round, kept)
    ensures BranchesOk(t, kept, round)
  {
    forall r | r in kept
      ensures BranchOk(t, r, round)
    {
      assert Descends(t, bs, ds, round, |ds|, r);
      var b :| b in bs && Fate(t, ds, round, |ds|, b) == Some(r);
      assert BranchOk(t, b, round);
      if r != b {
        assert r.head in t.nodes;
        assert SeedOk(t, t.nodes[r.head]);
      }
    }
  }

  /** What a checkpoint, with its possible reseed, does to the run. `kept` are the survivors
      and `fresh` the branches that were not alive before. */
  ghost predicate ReviewEffect(cfg: Config, s: Run, u: Run, kept: seq<Branch>, fresh_: seq<Branch>) {
    && u.branches == kept + fresh_
    && (forall b :: b in kept ==> HasId(s.branches, b.id))
    && (forall b :: b in fresh_ ==> NameBetween(b.id, s.nextIdx, u.nextIdx))
    && s.nextIdx <= u.nextIdx
    && |u.branches| <= |s.branches| + cfg.maxSpawn
    && u == s.(branches := u.branches, nextIdx := u.nextIdx)
  }

  lemma ReviewShape(cfg: Config, s: Run, round: nat, reply: Reply) returns (bs: seq<Branch>)
    requires Review(cfg, s, round, reply).Some?
    ensures Checkpoint(s.tree, s.branches, round, cfg.maxSpawn, s.nextIdx, reply) == Some(bs)
    ensures bs != [] ==> Review(cfg, s, round, reply) == Some(s.(branches := bs, nextIdx := NextIdx(bs, s.nextIdx)))
    ensures bs == [] ==>
              && s.tree.best.Some? && s.tree.best.value in s.tree.nodes
              && var next := NextIdx([], s.nextIdx);
                 Review(cfg, s, round, reply)
                 == Some(s.(branches := [MakeBranch(next, s.tree.nodes[s.tree.best.value], "(reseeded)")],
                     nextIdx := next + 1))
  {
    bs := Checkpoint(s.tree, s.branches, round, cfg.maxSpawn, s.nextIdx, reply).value;
  }

  /** The checkpoint keeps the run's invariant, whatever the reply. */
  lemma ReviewKeeps(cfg: Config, uuid: nat -> NodeId, s: Run, round: nat, reply: Reply, u: Run)
    returns (kept: seq<Branch>, fresh_: seq<Branch>)
    requires RunOk(uuid, s, round) && s.branches != []
    requires Review(cfg, s, round, reply) == Some(u)
    ensures RunOk(uuid, u, round) && u.branches != [] && ReviewEffect(cfg, s, u, kept, fresh_)
  {
    HeadsKnown(s.tree, s.branches, round);
    var bs := ReviewShape(cfg, s, round, reply);
    kept, fresh_ := CheckpointMeaning(s.tree, s.branches, round, cfg.maxSpawn, s.nextIdx, reply);
    SurvivorsOk(cfg, s, round, reply, kept);
    if bs != [] {
      CheckpointKeeps(cfg, uuid, s, round, u, kept, fresh_);
    } else {
      ReseedKeeps(cfg, uuid, s, round, u);
      kept, fresh_ := [], u.branches;
    }
  }

  lemma CheckpointKeeps(cfg: Config, uuid: nat -> NodeId, s: Run, round: nat, u: Run,
                        kept: seq<Branch>, spawned: seq<Branch>)
    requires RunOk(uuid, s, round)
    requires u == s.(branches := kept + spawned, nextIdx := NextIdx(kept + spawned, s.nextIdx))
    requires BranchesOk(s.tree, kept, round) && NamedBelow(kept, s.nextIdx)
    requires forall b :: b in kept ==> HasId(s.branches, b.id)
    requires |kept| <= |s.branches| && FreshSpawns(s.tree, spawned, round, s.nextIdx, cfg.maxSpawn)
    requires DistinctIds(kept + spawned)
    ensures RunOk(uuid, u, round) && ReviewEffect(cfg, s, u, kept, spawned)
  {
    assert FreshSpawns(s.tree, spawned, round, s.nextIdx, |spawned|);
    CounterCovers(s.tree, kept, spawned, round, s.nextIdx, u.nextIdx);
    SpawnedBranchesOk(s.tree, spawned, round, s.nextIdx);
  }

  lemma ReseedKeeps(cfg: Config, uuid: nat -> NodeId, s: Run, round: nat, u: Run)
    requires RunOk(uuid, s, round) && s.branches != [] && s.tree.best.Some?
    requires var next := NextIdx([], s.nextIdx);
             u == s.(branches := [MakeBranch(next, s.tree.nodes[s.tree.best.value], "(reseeded)")], nextIdx := next + 1)
    ensures RunOk(uuid, u, round) && ReviewEffect(cfg, s, u, [], u.branches)
  {
    var best, nb := s.tree.nodes[s.tree.best.value], u.branches[0];
    assert SeedOk(s.tree, best) && best.id == s.tree.best.value;
    assert BranchOk(s.tree, nb, round);
    assert nb.id == BranchName(u.nextIdx - 1);
    assert u.branches == [] + [nb];
  }

  lemma HeadsKnown(t: Forest, bs: seq<Branch>, round: nat)
    requires BranchesOk(t, bs, round)
    ensures forall b :: b in bs ==> b.head in t.nodes
  {
    forall b | b in bs
      ensures b.head in t.nodes
    {
      assert BranchOk(t, b, round);
    }
  }

  lemma SpawnedBranchesOk(t: Forest, spawned: seq<Branch>, round: nat, idx: nat)
    requires SeedsInherited(t) && FreshSpawns(t, spawned, round, idx, |spawned|)
    ensures BranchesOk(t, spawned, round)
  {
    forall i | 0 <= i < |spawned|
      ensures BranchOk(t, spawned[i], round)
    {
      assert FreshSpawn(t, spawned[i], round, idx + i);
      assert SeedOk(t, t.nodes[spawned[i].head]);
    }
  }

  lemma SurvivorsOk(cfg: Config, s: Run, round: nat, reply: Reply, kept: seq<Branch>)
    requires IsForest(s.tree) && SeedsInherited(s.tree)
    requires BranchesOk(s.tree, s.branches, round) && NamedBelow(s.branches, s.nextIdx)
    requires if s.branches == [] || PlanOf(reply, cfg.maxSpawn).Unchanged? then kept == s.branches
             else && PlanOf(reply, cfg.maxSpawn).Plan?
                  && Partitions(s.tree, s.branches, PlanOf(reply, cfg.maxSpawn).decisions, round, kept)
    ensures BranchesOk(s.tree, kept, round) && NamedBelow(kept, s.nextIdx)
    ensures forall b :: b in kept ==> HasId(s.branches, b.id)
  {
    if s.branches != [] && PlanOf(reply, cfg.maxSpawn).Plan? {
      KeptBranchesOk(s.tree, s.branches, PlanOf(reply, cfg.maxSpawn).decisions, round, kept);
      KeptWereAlive(s.tree, s.branches, PlanOf(reply, cfg.maxSpawn).decisions, round, kept);
      KeptNamedBelow(s.branches, kept, s.nextIdx);
    }
  }

  lemma KeptWereAlive(t: Forest, bs: seq<Branch>, ds: seq<Decision>, round: nat, kept: seq<Branch>)
    requires Partitions(t, bs, ds, round, kept)
    ensures forall r :: r in kept ==> HasId(bs, r.id)
  {
    forall r | r in kept
      ensures HasId(bs, r.id)
    {
      assert Descends(t, bs, ds, round, |ds|, r);
      var b :| b in bs && Fate(t, ds, round, |ds|, b) == Some(r);
      assert b.id == r.id;
    }
  }
}
