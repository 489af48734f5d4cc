/** The outcome of a parallel round does not depend on the order in which its threads finish. */
module RoundOrder {
  import opened Options
  import opened Permutations
  import opened Scoring
  import opened ScoringLaws
  import opened Tree
  import opened Branches
  import opened Evolution
  import opened EvolutionInvariants

  // ---- the results themselves --------------------------------------------------------------

  function ResultOf(t: Forest, bs: seq<Branch>, round: nat, a: Arrival): seq<StepResult> {
    if a.index >= |bs| then []
    else match StepBranch(t, bs[a.index], round, a.outcome)
      case None => []
      case Some(r) => [r]
  }

  function ResultLists(t: Forest, bs: seq<Branch>, round: nat, arrivals: seq<Arrival>): seq<seq<StepResult>> {
    Map(a => ResultOf(t, bs, round, a), arrivals)
  }

  lemma {:induction false} FlattenAppend<E>(ess: seq<seq<E>>, es: seq<E>)
    ensures Flatten(ess + [es]) == Flatten(ess) + es
    decreases |ess|
  {
    if ess == [] {
      assert Flatten([es]) == es + Flatten([]);
    } else {
      assert (ess + [es])[1..] == ess[1..] + [es];
      FlattenAppend(ess[1..], es);
    }
  }

  lemma {:induction false} ResultsFlatten(t: Forest, bs: seq<Branch>, round: nat, arrivals: seq<Arrival>)
    ensures Results(t, bs, round, arrivals) == Flatten(ResultLists(t, bs, round, arrivals))
    decreases |arrivals|
  {
    if arrivals != [] {
      var init, a := arrivals[..|arrivals| - 1], arrivals[|arrivals| - 1];
      ResultsFlatten(t, bs, round, init);
      FlattenAppend(ResultLists(t, bs, round, init), ResultOf(t, bs, round, a));
    }
  }

  /** The results of a round are the same collection in every completion order. */
  lemma ResultsPermutation(t: Forest, bs: seq<Branch>, round: nat, xs: seq<Arrival>, ys: seq<Arrival>)
    requires multiset(xs) == multiset(ys)
    ensures multiset(Results(t, bs, round, xs)) == multiset(Results(t, bs, round, ys))
  {
    ResultsFlatten(t, bs, round, xs);
    ResultsFlatten(t, bs, round, ys);
    MapPermutation(a => ResultOf(t, bs, round, a), xs, ys);
    FlattenPermutation(ResultLists(t, bs, round, xs), ResultLists(t, bs, round, ys));
  }

  /** No two results belong to the same branch. */
  ghost predicate OnePerBranch(rs: seq<StepResult>) {
    forall i, j :: 0 <= i < j < |rs| ==> rs[i].branchId != rs[j].branchId
  }

  ghost predicate Originates(bs: seq<Branch>, arrivals: seq<Arrival>, r: StepResult) {
    exists k :: 0 <= k < |arrivals| && arrivals[k].index < |bs| && r.branchId == bs[arrivals[k].index].id
  }

  lemma OriginatesLater(bs: seq<Branch>, init: seq<Arrival>, a: Arrival, r: StepResult)
    requires Originates(bs, init, r)
    ensures Originates(bs, init + [a], r)
  {
    var k :| 0 <= k < |init| && init[k].index < |bs| && r.branchId == bs[init[k].index].id;
    assert (init + [a])[k] == init[k];
  }

  lemma OriginDiffers(bs: seq<Branch>, init: seq<Arrival>, a: Arrival, r: StepResult)
    requires DistinctIds(bs) && DistinctArrivals(init + [a], |bs|) && Originates(bs, init, r)
    ensures r.branchId != bs[(init + [a])[|init|].index].id
  {
    var all := init + [a];
    var k :| 0 <= k < |init| && init[k].index < |bs| && r.branchId == bs[init[k].index].id;
    assert all[k] == init[k] && all[|init|] == a;
  }

  lemma {:induction false} ResultsOnePerBranch(t: Forest, bs: seq<Branch>, round: nat, arrivals: seq<Arrival>)
    requires DistinctIds(bs) && DistinctArrivals(arrivals, |bs|)
    ensures OnePerBranch(Results(t, bs, round, arrivals))
    ensures forall i :: 0 <= i < |Results(t, bs, round, arrivals)| ==>
            Originates(bs, arrivals, Results(t, bs, round, arrivals)[i])
    decreases |arrivals|
  {
    if arrivals != [] {
      var init, a := arrivals[..|arrivals| - 1], arrivals[|arrivals| - 1];
      ResultsOnePerBranch(t, bs, round, init);
      assert arrivals == init + [a];
      var rs := Results(t, bs, round, init);
      forall i | 0 <= i < |rs|
        ensures rs[i].branchId != bs[a.index].id && Originates(bs, arrivals, rs[i])
      {
        OriginDiffers(bs, init, a, rs[i]);
        OriginatesLater(bs, init, a, rs[i]);
      }
      assert arrivals[|init|] == a;
    }
  }

  // ---- what a stitched round holds, without mentioning the order ------------------------------

  /** `id` is the node a result became. */
  ghost predicate NodeFor(cfg: Config, frozen: Norm, round: nat, t0: Forest, t: Forest, r: StepResult, id: NodeId) {
    && id in t.nodes && id !in t0.nodes && r.parent in t0.nodes
    && t.nodes[id] == NewNode(t0, id, ResultDraft(cfg, frozen, round, r))
  }

  ghost predicate HasNode(cfg: Config, frozen: Norm, round: nat, t0: Forest, t: Forest, r: StepResult) {
    exists id :: NodeFor(cfg, frozen, round, t0, t, r, id)
  }

  ghost predicate HasResult(cfg: Config, frozen: Norm, round: nat, t0: Forest, t: Forest, rs: seq<StepResult>,
                            id: NodeId) {
    exists r :: r in rs && NodeFor(cfg, frozen, round, t0, t, r, id)
  }

  /** The new nodes are those of the results. */
  ghost predicate NodesAreResults(cfg: Config, frozen: Norm, round: nat, t0: Forest, t: Forest, rs: seq<StepResult>) {
    && (forall r :: r in rs ==> HasNode(cfg, frozen, round, t0, t, r))
    && (forall id :: id in t.nodes && id !in t0.nodes ==> HasResult(cfg, frozen, round, t0, t, rs, id))
  }

  /** A branch with a result has moved to that result's node; the others have not moved. */
  ghost predicate HeadFollows(cfg: Config, frozen: Norm, round: nat, t0: Forest, t: Forest, b0: Branch, b: Branch,
                              rs: seq<StepResult>) {
    && (forall r :: r in rs && r.branchId == b0.id ==> NodeFor(cfg, frozen, round, t0, t, r, b.head))
    && (b == b0 || exists r :: r in rs && r.branchId == b0.id)
  }

  ghost predicate HeadsFollow(cfg: Config, frozen: Norm, round: nat, t0: Forest, t: Forest,
                              bs0: seq<Branch>, bs: seq<Branch>, rs: seq<StepResult>) {
    |bs| == |bs0| && forall i :: 0 <= i < |bs0| ==> HeadFollows(cfg, frozen, round, t0, t, bs0[i], bs[i], rs)
  }

  function RawOf(cfg: Config, r: StepResult): seq<(string, real)> {
    if cfg.updateDuringEvolution && r.details.ok then ExtractRawValues(r.details.probes) else []
  }

  function RawLists(cfg: Config, rs: seq<StepResult>): seq<seq<(string, real)>> {
    Map(r => RawOf(cfg, r), rs)
  }

  /** Stitching one more result keeps the nodes already placed: their parents are old nodes. */
  lemma NodeForKept(cfg: Config, frozen: Norm, round: nat, t0: Forest, t: Forest, d: Draft, id: NodeId,
                    r: StepResult, n: NodeId)
    requires Listed(t) && id !in t.nodes && d.parent.Some? && d.parent.value in t0.nodes && ParentKnown(t, d)
    requires NodeFor(cfg, frozen, round, t0, t, r, n)
    ensures NodeFor(cfg, frozen, round, t0, Added(t, id, d), r, n)
  {
    AddedNodes(t, id, d);
  }

  lemma NodeForNew(cfg: Config, frozen: Norm, round: nat, t0: Forest, t: Forest, id: NodeId, r: StepResult, d: Draft)
    requires Listed(t) && id !in t.nodes && Grown(t0, t) && r.parent in t0.nodes
    requires d == ResultDraft(cfg, frozen, round, r) && ParentKnown(t, d)
    ensures NodeFor(cfg, frozen, round, t0, Added(t, id, d), r, id)
  {
    AddedNodes(t, id, d);
    assert SameNode(t0.nodes[r.parent], t.nodes[r.parent]);
  }

  lemma NodesAreResultsStep(cfg: Config, frozen: Norm, round: nat, t0: Forest, t: Forest, id: NodeId, d: Draft,
                            rs: seq<StepResult>, r: StepResult)
    requires NodesAreResults(cfg, frozen, round, t0, t, rs)
    requires Listed(t) && id !in t.nodes && Grown(t0, t) && r.parent in t0.nodes
    requires d == ResultDraft(cfg, frozen, round, r) && ParentKnown(t, d)
    ensures NodesAreResults(cfg, frozen, round, t0, Added(t, id, d), rs + [r])
  {
    var u := Added(t, id, d);
    NodeForNew(cfg, frozen, round, t0, t, id, r, d);
    forall q | q in rs + [r]
      ensures HasNode(cfg, frozen, round, t0, u, q)
    {
      if q in rs {
        assert HasNode(cfg, frozen, round, t0, t, q);
        var n :| NodeFor(cfg, frozen, round, t0, t, q, n);
        NodeForKept(cfg, frozen, round, t0, t, d, id, q, n);
      }
    }
    forall n | n in u.nodes && n !in t0.nodes
      ensures HasResult(cfg, frozen, round, t0, u, rs + [r], n)
    {
      NodeHasResult(cfg, frozen, round, t0, t, id, d, rs, r, n);
    }
  }

  lemma NodeHasResult(cfg: Config, frozen: Norm, round: nat, t0: Forest, t: Forest, id: NodeId, d: Draft,
                      rs: seq<StepResult>, r: StepResult, n: NodeId)
    requires NodesAreResults(cfg, frozen, round, t0, t, rs)
    requires Listed(t) && id !in t.nodes && r.parent in t0.nodes
    requires d == ResultDraft(cfg, frozen, round, r) && ParentKnown(t, d)
    requires NodeFor(cfg, frozen, round, t0, Added(t, id, d), r, id)
    requires n in Added(t, id, d).nodes && n !in t0.nodes
    ensures HasResult(cfg, frozen, round, t0, Added(t, id, d), rs + [r], n)
  {
    assert r in rs + [r];
    if n != id {
      AddedNodes(t, id, d);
      assert HasResult(cfg, frozen, round, t0, t, rs, n);
      var q :| q in rs && NodeFor(cfg, frozen, round, t0, t, q, n);
      NodeForKept(cfg, frozen, round, t0, t, d, id, q, n);
      assert q in rs + [r];
    }
  }

  lemma HeadFollowsStep(cfg: Config, frozen: Norm, round: nat, t0: Forest, t: Forest, id: NodeId, d: Draft,
                        b0: Branch, b: Branch, rs: seq<StepResult>, r: StepResult)
    requires HeadFollows(cfg, frozen, round, t0, t, b0, b, rs) && OnePerBranch(rs + [r]) && b.id == b0.id
    requires Listed(t) && id !in t.nodes && Grown(t0, t) && r.parent in t0.nodes
    requires d == ResultDraft(cfg, frozen, round, r) && ParentKnown(t, d)
    ensures HeadFollows(cfg, frozen, round, t0, Added(t, id, d), b0, if b.id
            == r.branchId then b.(head := id) else b, rs + [r])
  {
    var u := Added(t, id, d);
    NodeForNew(cfg, frozen, round, t0, t, id, r, d);
    assert r in rs + [r];
    if b0.id == r.branchId {
      forall q | q in rs + [r] && q.branchId == b0.id
        ensures q == r
      {
        OnlyResult(rs, r, q);
      }
    } else {
      forall q | q in rs + [r] && q.branchId == b0.id
        ensures NodeFor(cfg, frozen, round, t0, u, q, b.head)
      {
        NodeForKept(cfg, frozen, round, t0, t, d, id, q, b.head);
      }
      if b != b0 {
        var q :| q in rs && q.branchId == b0.id;
        assert q in rs + [r];
      }
    }
  }

  lemma OnlyResult(rs: seq<StepResult>, r: StepResult, q: StepResult)
    requires OnePerBranch(rs + [r]) && q in rs + [r] && q.branchId == r.branchId
    ensures q == r
  {
    var all := rs + [r];
    var k :| 0 <= k < |all| && all[k] == q;
    assert all[|rs|] == r;
  }

  lemma HeadsFollowStep(cfg: Config, frozen: Norm, round: nat, t0: Forest, t: Forest, id: NodeId, d: Draft,
                        bs0: seq<Branch>, bs: seq<Branch>, rs: seq<StepResult>, r: StepResult)
    requires HeadsFollow(cfg, frozen, round, t0, t, bs0, bs, rs) && OnePerBranch(rs + [r])
    requires DistinctIds(bs0) && SameButHeads(bs0, bs)
    requires Listed(t) && id !in t.nodes && Grown(t0, t) && r.parent in t0.nodes
    requires d == ResultDraft(cfg, frozen, round, r) && ParentKnown(t, d)
    ensures HeadsFollow(cfg, frozen, round, t0, Added(t, id, d), bs0, SetHead(bs, r.branchId, id), rs + [r])
  {
    SetHeadMeaning(bs, r.branchId, id);
    forall i | 0 <= i < |bs0|
      ensures HeadFollows(cfg, frozen, round, t0, Added(t, id, d), bs0[i], SetHead(bs, r.branchId, id)[i], rs + [r])
    {
      HeadFollowsStep(cfg, frozen, round, t0, t, id, d, bs0[i], bs[i], rs, r);
    }
  }

  /** The statistics after absorbing the raw values of all results. */
  ghost function Absorbed(cfg: Config, norm: Norm, rs: seq<StepResult>): Norm {
    norm.(probes := Fold(ObserveAll, norm.probes, RawLists(cfg, rs)))
  }

  lemma AbsorbedStep(cfg: Config, norm: Norm, rs: seq<StepResult>, r: StepResult)
    ensures UpdatedNorm(cfg, Absorbed(cfg, norm, rs), r.details) == Absorbed(cfg, norm, rs + [r])
  {
    var raw := RawOf(cfg, r);
    MapAppend((q: StepResult) => RawOf(cfg, q), rs, r);
    assert RawLists(cfg, rs + [r]) == RawLists(cfg, rs) + [raw];
    FoldConcat(ObserveAll, norm.probes, RawLists(cfg, rs), [raw]);
    var p := Absorbed(cfg, norm, rs).probes;
    assert [raw][1..] == [];
    assert Fold(ObserveAll, p, [raw]) == Fold(ObserveAll, ObserveAll(p, raw), []) == ObserveAll(p, raw);
  }

  ghost predicate RoundMeaning(cfg: Config, round: nat, s: Run, u: Run, rs: seq<StepResult>) {
    && NodesAreResults(cfg, s.norm, round, s.tree, u.tree, rs)
    && HeadsFollow(cfg, s.norm, round, s.tree, u.tree, s.branches, u.branches, rs)
    && u.norm == Absorbed(cfg, s.norm, rs)
  }

  lemma StitchMeaning(cfg: Config, uuid: nat -> NodeId, m: nat, round: nat, s: Run, v: Run, u: Run,
                      init: seq<StepResult>, n: nat, r: StepResult)
    requires Unique(uuid) && RunOk(uuid, s, m) && StitchInvariant(uuid, s, v, round, n)
    requires RoundMeaning(cfg, round, s, v, init) && OnePerBranch(init + [r])
    requires ResultOk(s.tree, s.branches, r) && Stitch(cfg, uuid, s.norm, round, v, r) == Some(u)
    ensures RoundMeaning(cfg, round, s, u, init + [r])
  {
    var id, d := uuid(|v.tree.order|), ResultDraft(cfg, s.norm, round, r);
    NextNameFresh(uuid, v.tree);
    NodesAreResultsStep(cfg, s.norm, round, s.tree, v.tree, id, d, init, r);
    HeadsFollowStep(cfg, s.norm, round, s.tree, v.tree, id, d, s.branches, v.branches, init, r);
    AbsorbedStep(cfg, s.norm, init, r);
  }

  lemma StitchLast(cfg: Config, uuid: nat -> NodeId, frozen: Norm, round: nat, s: Run, init: seq<StepResult>,
                   r: StepResult,
                   rs: seq<StepResult>, u: Run)
    returns (v: Run)
    requires rs == init + [r] && StitchAll(cfg, uuid, frozen, round, s, rs) == Some(u)
    ensures StitchAll(cfg, uuid, frozen, round, s, init) == Some(v)
    ensures Stitch(cfg, uuid, frozen, round, v, r) == Some(u)
  {
    assert rs[..|rs| - 1] == init;
    v := StitchAll(cfg, uuid, frozen, round, s, init).value;
  }

  ghost predicate AllResultsOk(t: Forest, bs: seq<Branch>, rs: seq<StepResult>) {
    forall r :: r in rs ==> ResultOk(t, bs, r)
  }

  lemma SplitResultsOk(t: Forest, bs: seq<Branch>, init: seq<StepResult>, r: StepResult)
    requires AllResultsOk(t, bs, init + [r])
    ensures AllResultsOk(t, bs, init) && ResultOk(t, bs, r)
  {
    assert r in init + [r];
    assert forall q :: q in init ==> q in init + [r];
  }

  lemma SplitOnePerBranch(init: seq<StepResult>, r: StepResult)
    requires OnePerBranch(init + [r])
    ensures OnePerBranch(init)
  {
    var all := init + [r];
    assert forall i :: 0 <= i < |init| ==> all[i] == init[i];
  }

  lemma StitchedKeeps(cfg: Config, uuid: nat -> NodeId, m: nat, round: nat, s: Run, rs: seq<StepResult>, n: nat, u: Run)
    requires Unique(uuid) && round == m + 1 && RunOk(uuid, s, m) && n == |rs|
    requires AllResultsOk(s.tree, s.branches, rs)
    requires StitchAll(cfg, uuid, s.norm, round, s, rs) == Some(u)
    ensures StitchInvariant(uuid, s, u, round, n)
  {
    StitchAllKeeps(cfg, uuid, s.norm, m, round, s, rs);
  }

  lemma NothingStitched(cfg: Config, round: nat, s: Run)
    ensures RoundMeaning(cfg, round, s, s, [])
  {
    assert RawLists(cfg, []) == [];
  }

  lemma {:induction false} StitchAllMeaning(cfg: Config, uuid: nat -> NodeId, m: nat, round: nat, s: Run,
                                            rs: seq<StepResult>, u: Run)
    requires Unique(uuid) && round == m + 1 && RunOk(uuid, s, m) && OnePerBranch(rs)
    requires AllResultsOk(s.tree, s.branches, rs)
    requires StitchAll(cfg, uuid, s.norm, round, s, rs) == Some(u)
    ensures RoundMeaning(cfg, round, s, u, rs)
    decreases |rs|
  {
    if rs == [] {
      NothingStitched(cfg, round, s);
    } else {
      var init, r, v := Unstitch(cfg, uuid, s.norm, round, s, rs, u);
      StitchAllMeaning(cfg, uuid, m, round, s, init, v);
      StitchStep(cfg, uuid, m, round, s, v, u, init, r, rs);
    }
  }

  /** The last result of a stitched round, and the state before it. */
  lemma Unstitch(cfg: Config, uuid: nat -> NodeId, frozen: Norm, round: nat, s: Run, rs: seq<StepResult>, u: Run)
    returns (init: seq<StepResult>, r: StepResult, v: Run)
    requires rs != [] && OnePerBranch(rs) && AllResultsOk(s.tree, s.branches, rs)
    requires StitchAll(cfg, uuid, frozen, round, s, rs) == Some(u)
    ensures rs == init + [r] && |init| < |rs| && OnePerBranch(init)
    ensures AllResultsOk(s.tree, s.branches, init) && ResultOk(s.tree, s.branches, r)
    ensures StitchAll(cfg, uuid, frozen, round, s, init) == Some(v)
    ensures Stitch(cfg, uuid, frozen, round, v, r) == Some(u)
  {
    init, r := rs[..|rs| - 1], rs[|rs| - 1];
    assert rs == init + [r];
    SplitOnePerBranch(init, r);
    SplitResultsOk(s.tree, s.branches, init, r);
    v := StitchLast(cfg, uuid, frozen, round, s, init, r, rs, u);
  }

  lemma StitchStep(cfg: Config, uuid: nat -> NodeId, m: nat, round: nat, s: Run, v: Run, u: Run,
                   init: seq<StepResult>, r: StepResult, rs: seq<StepResult>)
    requires Unique(uuid) && round == m + 1 && RunOk(uuid, s, m) && rs == init + [r] && OnePerBranch(rs)
    requires AllResultsOk(s.tree, s.branches, init) && ResultOk(s.tree, s.branches, r)
    requires StitchAll(cfg, uuid, s.norm, round, s, init) == Some(v) && RoundMeaning(cfg, round, s, v, init)
    requires Stitch(cfg, uuid, s.norm, round, v, r) == Some(u)
    ensures RoundMeaning(cfg, round, s, u, rs)
  {
    var n := |init|;
    StitchedKeeps(cfg, uuid, m, round, s, init, n, v);
    StitchMeaning(cfg, uuid, m, round, s, v, u, init, n, r);
  }

  // ---- comparing two orders --------------------------------------------------------------------

  /** Equal outcomes up to the renaming of freshly drawn identifiers. */
  ghost predicate SameOutcome(s: Run, u: Run, v: Run) {
    && |u.branches| == |v.branches| == |s.branches|
    && (forall i :: 0 <= i < |s.branches| ==> SameMove(s, u, v, i))
    && u.norm == v.norm
    && u.bestScore == v.bestScore
    && |u.tree.order| == |v.tree.order|
  }

  /** Branch `i` made the same move in both runs: either it stayed where it was, or it sits on
      two nodes that differ in nothing but their identifiers. */
  ghost predicate SameMove(s: Run, u: Run, v: Run, i: nat)
    requires i < |s.branches| == |u.branches| == |v.branches|
  {
    || (u.branches[i] == v.branches[i] == s.branches[i])
    || (&& u.branches[i].head in u.tree.nodes && v.branches[i].head in v.tree.nodes
        && u.branches[i].head !in s.tree.nodes && v.branches[i].head !in s.tree.nodes
        && u.branches[i].(head := "") == v.branches[i].(head := "")
        && SameUpToId(u.tree.nodes[u.branches[i].head], v.tree.nodes[v.branches[i].head]))
  }

  /** The same node up to its identifier. */
  ghost predicate SameUpToId(m: TreeNode, n: TreeNode) {
    m.(id := "") == n.(id := "")
  }

  lemma SameMoves(cfg: Config, round: nat, s: Run, u: Run, v: Run, xs: seq<StepResult>, ys: seq<StepResult>, i: nat)
    requires multiset(xs) == multiset(ys) && i < |s.branches|
    requires SameButHeads(s.branches, u.branches) && SameButHeads(s.branches, v.branches)
    requires HeadFollows(cfg, s.norm, round, s.tree, u.tree, s.branches[i], u.branches[i], xs)
    requires HeadFollows(cfg, s.norm, round, s.tree, v.tree, s.branches[i], v.branches[i], ys)
    ensures SameMove(s, u, v, i)
  {
    if r :| r in xs && r.branchId == s.branches[i].id {
      SameElement(xs, ys, r);
      assert NodeFor(cfg, s.norm, round, s.tree, u.tree, r, u.branches[i].head);
      assert NodeFor(cfg, s.norm, round, s.tree, v.tree, r, v.branches[i].head);
    } else if q :| q in ys && q.branchId == s.branches[i].id {
      SameElement(ys, xs, q);
      assert false;
    }
  }

  lemma SameElement<E>(xs: seq<E>, ys: seq<E>, e: E)
    requires multiset(xs) == multiset(ys) && e in xs
    ensures e in ys
  {
    assert e in multiset(ys);
  }

  /** The best score after one order is not above the best score after the other. */
  lemma BestNotAbove(cfg: Config, frozen: Norm, round: nat, t0: Forest, t: Forest, t': Forest, xs: seq<StepResult>,
                     ys: seq<StepResult>)
    requires multiset(xs) == multiset(ys)
    requires Grown(t0, t) && Grown(t0, t') && BestIsRight(t) && BestIsRight(t')
    requires NodesAreResults(cfg, frozen, round, t0, t, xs) && NodesAreResults(cfg, frozen, round, t0, t', ys)
    ensures t.best.Some? ==> t'.best.Some? && t.nodes[t.best.value].score <= t'.nodes[t'.best.value].score
  {
    if t.best.Some? {
      var n := Counterpart(cfg, frozen, round, t0, t, t', xs, ys, t.best.value);
      assert Eligible(t'.nodes[n]);
      assert Beats(t', t'.best.value, n);
    }
  }

  /** Every node of one outcome has a twin in the other. */
  lemma Counterpart(cfg: Config, frozen: Norm, round: nat, t0: Forest, t: Forest, t': Forest,
                    xs: seq<StepResult>, ys: seq<StepResult>, b: NodeId) returns (n: NodeId)
    requires multiset(xs) == multiset(ys)
    requires Grown(t0, t) && Grown(t0, t') && b in t.nodes
    requires NodesAreResults(cfg, frozen, round, t0, t, xs) && NodesAreResults(cfg, frozen, round, t0, t', ys)
    ensures n in t'.nodes && t'.nodes[n].score == t.nodes[b].score
    ensures Eligible(t'.nodes[n]) == Eligible(t.nodes[b])
  {
    if b in t0.nodes {
      assert SameNode(t0.nodes[b], t.nodes[b]) && SameNode(t0.nodes[b], t'.nodes[b]);
      n := b;
    } else {
      assert HasResult(cfg, frozen, round, t0, t, xs, b);
      var r :| r in xs && NodeFor(cfg, frozen, round, t0, t, r, b);
      SameElement(xs, ys, r);
      assert HasNode(cfg, frozen, round, t0, t', r);
      n :| NodeFor(cfg, frozen, round, t0, t', r, n);
    }
  }

  lemma SameStatistics(cfg: Config, norm: Norm, xs: seq<StepResult>, ys: seq<StepResult>)
    requires multiset(xs) == multiset(ys)
    ensures Absorbed(cfg, norm, xs) == Absorbed(cfg, norm, ys)
  {
    MapPermutation((r: StepResult) => RawOf(cfg, r), xs, ys);
    StatisticsOrderFree(norm.probes, RawLists(cfg, xs), RawLists(cfg, ys));
  }

  /** Everything a round produces, in terms of the collection of its results. */
  ghost predicate RoundFacts(cfg: Config, round: nat, s: Run, u: Run, rs: seq<StepResult>) {
    && RoundMeaning(cfg, round, s, u, rs)
    && Grown(s.tree, u.tree) && BestIsRight(u.tree) && RegisterOk(u) && SameButHeads(s.branches, u.branches)
    && |u.tree.order| == |s.tree.order| + |rs|
  }

  lemma RoundResult(cfg: Config, uuid: nat -> NodeId, s: Run, m: nat, round: nat, schedule: seq<Arrival>, u: Run)
    returns (rs: seq<StepResult>)
    requires Unique(uuid) && round == m + 1 && RunOk(uuid, s, m)
    requires ParallelRound(cfg, uuid, s, round, schedule) == Some(u)
    ensures rs == Results(s.tree, s.branches, round, Arrivals(schedule, |s.branches|))
    ensures RoundFacts(cfg, round, s, u, rs)
  {
    var arrivals := Arrivals(schedule, |s.branches|);
    rs := Results(s.tree, s.branches, round, arrivals);
    ParallelRoundKeeps(cfg, uuid, s, m, round, schedule);
    ArrivalsDistinct(schedule, |s.branches|);
    ResultsOk(s.tree, s.branches, m, round, arrivals);
    ResultsOnePerBranch(s.tree, s.branches, round, arrivals);
    StitchAllKeeps(cfg, uuid, s.norm, m, round, s, rs);
    var v := StitchAll(cfg, uuid, s.norm, round, s, rs).value;
    assert AllResultsOk(s.tree, s.branches, rs);
    StitchAllMeaning(cfg, uuid, m, round, s, rs, v);
    SnapshotRestoresRegister(s, v);
  }

  lemma AllSameMoves(cfg: Config, round: nat, s: Run, u: Run, v: Run, rx: seq<StepResult>, ry: seq<StepResult>)
    requires RoundFacts(cfg, round, s, u, rx) && RoundFacts(cfg, round, s, v, ry) && multiset(rx) == multiset(ry)
    ensures |u.branches| == |v.branches| == |s.branches|
    ensures forall i :: 0 <= i < |s.branches| ==> SameMove(s, u, v, i)
  {
    forall i | 0 <= i < |s.branches|
      ensures SameMove(s, u, v, i)
    {
      SameMoves(cfg, round, s, u, v, rx, ry, i);
    }
  }

  lemma BestScoreNotAbove(cfg: Config, round: nat, s: Run, u: Run, v: Run, rx: seq<StepResult>, ry: seq<StepResult>)
    requires RoundFacts(cfg, round, s, u, rx) && RoundFacts(cfg, round, s, v, ry) && multiset(rx) == multiset(ry)
    ensures u.bestScore.Some? ==> v.bestScore.Some? && u.bestScore.value <= v.bestScore.value
  {
    BestNotAbove(cfg, s.norm, round, s.tree, u.tree, v.tree, rx, ry);
  }

  lemma SameBestScore(cfg: Config, round: nat, s: Run, u: Run, v: Run, rx: seq<StepResult>, ry: seq<StepResult>)
    requires RoundFacts(cfg, round, s, u, rx) && RoundFacts(cfg, round, s, v, ry) && multiset(rx) == multiset(ry)
    ensures u.bestScore == v.bestScore
  {
    BestScoreNotAbove(cfg, round, s, u, v, rx, ry);
    BestScoreNotAbove(cfg, round, s, v, u, ry, rx);
  }

  lemma SameFacts(cfg: Config, round: nat, s: Run, u: Run, v: Run, rx: seq<StepResult>, ry: seq<StepResult>)
    requires RoundFacts(cfg, round, s, u, rx) && RoundFacts(cfg, round, s, v, ry) && multiset(rx) == multiset(ry)
    ensures SameOutcome(s, u, v)
  {
    SameLength(rx, ry);
    SameStatistics(cfg, s.norm, rx, ry);
    SameBestScore(cfg, round, s, u, v, rx, ry);
    AllSameMoves(cfg, round, s, u, v, rx, ry);
  }

  /** For any two completion orders of the same steps, and whatever identifiers are drawn, every
      branch ends on the same node up to its identifier (so with the same score, code, error and
      parent), the best score is the same, and so are the running statistics. */
  lemma RoundOrderFree(cfg: Config, uuid: nat -> NodeId, uuid': nat -> NodeId, s: Run, m: nat, round: nat,
                       xs: seq<Arrival>, ys: seq<Arrival>, u: Run, v: Run)
    requires Unique(uuid) && Unique(uuid') && round == m + 1 && RunOk(uuid, s, m) && RunOk(uuid', s, m)
    requires multiset(Arrivals(xs, |s.branches|)) == multiset(Arrivals(ys, |s.branches|))
    requires ParallelRound(cfg, uuid, s, round, xs) == Some(u) && ParallelRound(cfg, uuid', s, round, ys) == Some(v)
    ensures SameOutcome(s, u, v)
  {
    var rx := RoundResult(cfg, uuid, s, m, round, xs, u);
    var ry := RoundResult(cfg, uuid', s, m, round, ys, v);
    ResultsPermutation(s.tree, s.branches, round, Arrivals(xs, |s.branches|), Arrivals(ys, |s.branches|));
    SameFacts(cfg, round, s, u, v, rx, ry);
  }

  lemma SameLength<E>(xs: seq<E>, ys: seq<E>)
    requires multiset(xs) == multiset(ys)
    ensures |xs| == |ys|
  {
    assert |multiset(xs)| == |xs| && |multiset(ys)| == |ys|;
  }
}
