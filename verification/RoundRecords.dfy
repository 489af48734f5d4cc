/** What a round writes into the tree, in terms of the outcomes its threads deliver, and which rounds of a
    run apply the reply. */
module RoundRecords {
  import opened JsonValues
  import opened Options
  import opened Permutations
  import opened Scoring
  import opened ScoringExact
  import opened ScoringLaws
  import opened Tree
  import opened Branches
  import opened Frontier
  import opened FrontierEntries
  import opened Evolution
  import opened EvolutionInvariants
  import opened EvolutionTheorems
  import opened RoundOrder

  // ---- which arrivals count --------------------------------------------------------------------------

  /** The entry is the first of its branch, and the branch exists. */
  ghost predicate Effective(schedule: seq<Arrival>, k: nat, n: nat) {
    && k < |schedule| && schedule[k].index < n
    && forall j :: 0 <= j < k ==> schedule[j].index != schedule[k].index
  }

  /** No thread of the branch at this position finishes. */
  ghost predicate Idle(schedule: seq<Arrival>, i: nat) {
    forall a :: a in schedule ==> a.index != i
  }

  lemma {:induction false} EffectiveArrives(schedule: seq<Arrival>, n: nat, k: nat)
    requires Effective(schedule, k, n)
    ensures schedule[k] in Arrivals(schedule, n)
    decreases |schedule|
  {
    var init := schedule[..|schedule| - 1];
    if k < |init| {
      EffectiveArrives(init, n, k);
    } else {
      ArrivalsScheduled(init, n);
    }
  }

  lemma {:induction false} ArrivalsScheduled(schedule: seq<Arrival>, n: nat)
    ensures forall a :: a in Arrivals(schedule, n) ==> a.index < n && a in schedule
    decreases |schedule|
  {
    if schedule != [] {
      ArrivalsScheduled(schedule[..|schedule| - 1], n);
    }
  }

  lemma {:induction false} ResultOfArrival(t: Forest, bs: seq<Branch>, round: nat, arrivals: seq<Arrival>, a: Arrival)
    requires a in arrivals && a.index < |bs| && StepBranch(t, bs[a.index], round, a.outcome).Some?
    ensures StepBranch(t, bs[a.index], round, a.outcome).value in Results(t, bs, round, arrivals)
    decreases |arrivals|
  {
    if a != arrivals[|arrivals| - 1] {
      ResultOfArrival(t, bs, round, arrivals[..|arrivals| - 1], a);
    }
  }

  lemma {:induction false} AllHaveResults(t: Forest, bs: seq<Branch>, round: nat, arrivals: seq<Arrival>)
    requires forall b :: b in bs ==> b.head in t.nodes
    requires forall a :: a in arrivals ==> a.index < |bs|
    ensures |Results(t, bs, round, arrivals)| == |arrivals|
    decreases |arrivals|
  {
    if arrivals != [] {
      AllHaveResults(t, bs, round, arrivals[..|arrivals| - 1]);
    }
  }

  // ---- what a step records -----------------------------------------------------------------------------

  /** The node of a finished step. The code is the mutated one if there is any, else the parent's. Without a
      binary the error is the compiler's message; with one, the details are the worker's and the error is its
      message unless the evaluation succeeded. Only a success is scored, by the frozen statistics. */
  ghost predicate Records(cfg: Config, frozen: Norm, parent: TreeNode, b: Branch, round: nat, o: Outcome,
                          n: TreeNode) {
    && n.parent == Some(b.head) && n.depth == parent.depth + 1 && n.round == round && n.seed == b.seed
    && n.children == [] && n.description == o.description
    && n.strategy == (if parent.depth == 0 then "seed-mutate" else "mutate")
    && (if o.code.Some? && o.code.value != "" then n.code == o.code.value else n.code == parent.code)
    && (match o.compileError
        case None =>
          && n.details == Details(o.ok, o.probes)
          && (if o.ok then n.error == "" && n.score == ScoreOf(cfg.num, frozen, o.probes, cfg.weights).score
              else n.error == o.error && n.score == 0.0)
        case Some(message) =>
          && n.details == Details(false, []) && n.score == 0.0
          && n.error == if message != "" then message else "compile failed")
  }

  lemma StepRecords(cfg: Config, frozen: Norm, t: Forest, u: Forest, b: Branch, m: nat, round: nat, o: Outcome,
                    r: StepResult, id: NodeId)
    requires round == m + 1 && BranchOk(t, b, m) && StepBranch(t, b, round, o) == Some(r)
    requires NodeFor(cfg, frozen, round, t, u, r, id)
    ensures Records(cfg, frozen, t.nodes[b.head], b, round, o, u.nodes[id])
  {
  }

  /** The branch has moved to a new node that records the outcome; nothing else about it has changed. */
  ghost predicate MovedBy(cfg: Config, round: nat, s: Run, u: Run, i: nat, o: Outcome)
    requires i < |s.branches| == |u.branches|
  {
    var b, c := s.branches[i], u.branches[i];
    && c == b.(head := c.head) && c.head in u.tree.nodes && c.head !in s.tree.nodes && b.head in s.tree.nodes
    && Records(cfg, s.norm, s.tree.nodes[b.head], b, round, o, u.tree.nodes[c.head])
  }

  /** The positions whose thread finishes. */
  ghost function Finished(schedule: seq<Arrival>, n: nat): set<nat> {
    set i: nat | i < n && !Idle(schedule, i)
  }

  /** A branch moves exactly when its thread finishes, to a node that records its first outcome. */
  ghost predicate MovesRecorded(cfg: Config, round: nat, s: Run, u: Run, schedule: seq<Arrival>) {
    && |u.branches| == |s.branches|
    && (forall k: nat :: Effective(schedule, k, |s.branches|) ==>
          MovedBy(cfg, round, s, u, schedule[k].index, schedule[k].outcome))
    && (forall i :: 0 <= i < |s.branches| && Idle(schedule, i) ==> u.branches[i] == s.branches[i])
  }

  /** The round's effect on branches and tree: every new node is the head of a moved branch, and there are as
      many as threads that finished. */
  ghost predicate RoundRecorded(cfg: Config, round: nat, s: Run, u: Run, schedule: seq<Arrival>) {
    && MovesRecorded(cfg, round, s, u, schedule) && Grown(s.tree, u.tree) && u.nextIdx == s.nextIdx
    && NewNodesHaveHeads(s, u) && |u.tree.order| == |s.tree.order| + |Finished(schedule, |s.branches|)|
  }

  ghost predicate HasHead(u: Run, id: NodeId) {
    exists b :: b in u.branches && b.head == id
  }

  ghost predicate NewNodesHaveHeads(s: Run, u: Run) {
    forall id :: id in u.tree.nodes && id !in s.tree.nodes ==> HasHead(u, id)
  }

  lemma EffectiveMoves(cfg: Config, s: Run, m: nat, round: nat, schedule: seq<Arrival>, u: Run, rs: seq<StepResult>,
                       k: nat)
    requires round == m + 1 && BranchesOk(s.tree, s.branches, m) && Effective(schedule, k, |s.branches|)
    requires rs == Results(s.tree, s.branches, round, Arrivals(schedule, |s.branches|))
    requires SameButHeads(s.branches, u.branches)
    requires HeadsFollow(cfg, s.norm, round, s.tree, u.tree, s.branches, u.branches, rs)
    ensures MovedBy(cfg, round, s, u, schedule[k].index, schedule[k].outcome)
  {
    var i, o := schedule[k].index, schedule[k].outcome;
    var b := s.branches[i];
    EffectiveArrives(schedule, |s.branches|, k);
    assert BranchOk(s.tree, b, m);
    ResultOfArrival(s.tree, s.branches, round, Arrivals(schedule, |s.branches|), schedule[k]);
    var r := StepBranch(s.tree, b, round, o).value;
    assert HeadFollows(cfg, s.norm, round, s.tree, u.tree, b, u.branches[i], rs);
    StepRecords(cfg, s.norm, s.tree, u.tree, b, m, round, o, r, u.branches[i].head);
  }

  lemma IdleStays(cfg: Config, s: Run, round: nat, schedule: seq<Arrival>, u: Run, rs: seq<StepResult>, i: nat)
    requires DistinctIds(s.branches) && i < |s.branches| && Idle(schedule, i)
    requires rs == Results(s.tree, s.branches, round, Arrivals(schedule, |s.branches|))
    requires HeadsFollow(cfg, s.norm, round, s.tree, u.tree, s.branches, u.branches, rs)
    ensures u.branches[i] == s.branches[i]
  {
    NoResult(s, round, schedule, rs, i);
    assert HeadFollows(cfg, s.norm, round, s.tree, u.tree, s.branches[i], u.branches[i], rs);
  }

  lemma NoResult(s: Run, round: nat, schedule: seq<Arrival>, rs: seq<StepResult>, i: nat)
    requires DistinctIds(s.branches) && i < |s.branches| && Idle(schedule, i)
    requires rs == Results(s.tree, s.branches, round, Arrivals(schedule, |s.branches|))
    ensures forall r :: r in rs ==> r.branchId != s.branches[i].id
  {
    var arrivals := Arrivals(schedule, |s.branches|);
    ArrivalsDistinct(schedule, |s.branches|);
    ArrivalsScheduled(schedule, |s.branches|);
    ResultsOnePerBranch(s.tree, s.branches, round, arrivals);
    forall k | 0 <= k < |rs|
      ensures rs[k].branchId != s.branches[i].id
    {
      assert Originates(s.branches, arrivals, rs[k]);
      var j :| 0 <= j < |arrivals| && arrivals[j].index < |s.branches|
               && rs[k].branchId == s.branches[arrivals[j].index].id;
      assert arrivals[j] in schedule;
    }
  }

  /** A result takes the branch off an old node, so no new node loses its branch. */
  lemma StitchKeepsHeads(cfg: Config, uuid: nat -> NodeId, m: nat, round: nat, s: Run, v: Run, u: Run,
                         init: seq<StepResult>, r: StepResult)
    requires RunOk(uuid, s, m) && NewNodesHaveHeads(s, v) && SameButHeads(s.branches, v.branches)
    requires HeadsFollow(cfg, s.norm, round, s.tree, v.tree, s.branches, v.branches, init) && OnePerBranch(init + [r])
    requires ResultOk(s.tree, s.branches, r) && Stitch(cfg, uuid, s.norm, round, v, r) == Some(u)
    ensures NewNodesHaveHeads(s, u)
  {
    SetHeadMeaning(v.branches, r.branchId, uuid(|v.tree.order|));
    forall id | id in u.tree.nodes && id !in s.tree.nodes
      ensures HasHead(u, id)
    {
      if id in v.tree.nodes && id != uuid(|v.tree.order|) {
        HeadSurvives(cfg, m, round, s, v, u, init, r, uuid(|v.tree.order|), id);
      } else {
        NewHead(s, v, u, r, uuid(|v.tree.order|));
      }
    }
  }

  lemma NewHead(s: Run, v: Run, u: Run, r: StepResult, id: NodeId)
    requires ResultOk(s.tree, s.branches, r) && SameButHeads(s.branches, v.branches)
    requires HeadSet(v.branches, r.branchId, id, u.branches)
    ensures HasHead(u, id)
  {
    var b :| b in s.branches && b.id == r.branchId;
    var i :| 0 <= i < |s.branches| && s.branches[i] == b;
    assert u.branches[i] in u.branches && u.branches[i].head == id;
  }

  lemma HeadSurvives(cfg: Config, m: nat, round: nat, s: Run, v: Run, u: Run, init: seq<StepResult>, r: StepResult,
                     new_: NodeId, id: NodeId)
    requires BranchesOk(s.tree, s.branches, m) && SameButHeads(s.branches, v.branches)
    requires HeadsFollow(cfg, s.norm, round, s.tree, v.tree, s.branches, v.branches, init) && OnePerBranch(init + [r])
    requires HeadSet(v.branches, r.branchId, new_, u.branches)
    requires id !in s.tree.nodes && HasHead(v, id)
    ensures HasHead(u, id)
  {
    var b :| b in v.branches && b.head == id;
    var i :| 0 <= i < |v.branches| && v.branches[i] == b;
    assert HeadFollows(cfg, s.norm, round, s.tree, v.tree, s.branches[i], b, init);
    assert BranchOk(s.tree, s.branches[i], m);
    var q :| q in init && q.branchId == s.branches[i].id;
    EarlierResult(init, r, q);
    assert u.branches[i] == b && u.branches[i] in u.branches;
  }

  lemma EarlierResult(init: seq<StepResult>, r: StepResult, q: StepResult)
    requires OnePerBranch(init + [r]) && q in init
    ensures q.branchId != r.branchId
  {
    var all := init + [r];
    var k :| 0 <= k < |init| && init[k] == q;
    assert all[k] == q && all[|init|] == r;
  }

  lemma {:induction false} StitchAllKeepsHeads(cfg: Config, uuid: nat -> NodeId, m: nat, round: nat, s: Run,
                                               rs: seq<StepResult>, u: Run)
    requires Unique(uuid) && round == m + 1 && RunOk(uuid, s, m) && OnePerBranch(rs)
    requires AllResultsOk(s.tree, s.branches, rs)
    requires StitchAll(cfg, uuid, s.norm, round, s, rs) == Some(u)
    ensures NewNodesHaveHeads(s, u)
    decreases |rs|
  {
    if rs != [] {
      var init, r, v := Unstitch(cfg, uuid, s.norm, round, s, rs, u);
      StitchAllKeepsHeads(cfg, uuid, m, round, s, init, v);
      StitchAllMeaning(cfg, uuid, m, round, s, init, v);
      StitchedKeeps(cfg, uuid, m, round, s, init, |init|, v);
      StitchKeepsHeads(cfg, uuid, m, round, s, v, u, init, r);
    }
  }

  // ---- how many nodes ----------------------------------------------------------------------------------

  lemma FinishedArrive(schedule: seq<Arrival>, n: nat)
    ensures forall i :: i in Finished(schedule, n) <==> exists a :: a in Arrivals(schedule, n) && a.index == i
  {
    ArrivalsScheduled(schedule, n);
    forall i: nat | i < n && !Idle(schedule, i)
      ensures exists a :: a in Arrivals(schedule, n) && a.index == i
    {
      var k := FirstOf(schedule, i);
      EffectiveArrives(schedule, n, k);
    }
  }

  lemma {:induction false} FirstOf(schedule: seq<Arrival>, i: nat) returns (k: nat)
    requires !Idle(schedule, i)
    ensures k < |schedule| && schedule[k].index == i && forall j :: 0 <= j < k ==> schedule[j].index != i
    decreases |schedule|
  {
    var init := schedule[..|schedule| - 1];
    if Idle(init, i) {
      k := |init|;
      assert forall j :: 0 <= j < k ==> schedule[j] == init[j] && init[j] in init;
      assert schedule == init + [schedule[k]];
    } else {
      k := FirstOf(init, i);
    }
  }

  function IndexSet(arrivals: seq<Arrival>): set<nat> {
    set a | a in arrivals :: a.index
  }

  lemma {:induction false} DistinctCount(arrivals: seq<Arrival>, n: nat)
    requires DistinctArrivals(arrivals, n)
    ensures |IndexSet(arrivals)| == |arrivals|
    decreases |arrivals|
  {
    if arrivals != [] {
      var init, a := arrivals[..|arrivals| - 1], arrivals[|arrivals| - 1];
      DistinctCount(init, n);
      assert a.index !in IndexSet(init);
      assert IndexSet(arrivals) == IndexSet(init) + {a.index};
    }
  }

  lemma CountFinished(schedule: seq<Arrival>, n: nat)
    ensures |Arrivals(schedule, n)| == |Finished(schedule, n)|
  {
    ArrivalsDistinct(schedule, n);
    DistinctCount(Arrivals(schedule, n), n);
    FinishedArrive(schedule, n);
    assert IndexSet(Arrivals(schedule, n)) == Finished(schedule, n);
  }

  // ---- the round ---------------------------------------------------------------------------------------

  /** Every round of a run records the outcomes of the threads that finished, and nothing else. */
  lemma RoundRecordsOutcomes(cfg: Config, uuid: nat -> NodeId, s: Run, m: nat, round: nat, schedule: seq<Arrival>,
                             u: Run)
    requires Unique(uuid) && round == m + 1 && RunOk(uuid, s, m)
    requires ParallelRound(cfg, uuid, s, round, schedule) == Some(u)
    ensures RoundRecorded(cfg, round, s, u, schedule)
  {
    var rs := RoundResult(cfg, uuid, s, m, round, schedule, u);
    ParallelRoundKeeps(cfg, uuid, s, m, round, schedule);
    RoundNodes(cfg, uuid, s, m, round, schedule, u, rs);
    RoundMoves(cfg, s, m, round, schedule, u, rs);
  }

  lemma RoundMoves(cfg: Config, s: Run, m: nat, round: nat, schedule: seq<Arrival>, u: Run, rs: seq<StepResult>)
    requires round == m + 1 && BranchesOk(s.tree, s.branches, m) && DistinctIds(s.branches)
    requires rs == Results(s.tree, s.branches, round, Arrivals(schedule, |s.branches|))
    requires SameButHeads(s.branches, u.branches)
    requires HeadsFollow(cfg, s.norm, round, s.tree, u.tree, s.branches, u.branches, rs)
    ensures MovesRecorded(cfg, round, s, u, schedule)
  {
    forall k: nat | Effective(schedule, k, |s.branches|)
      ensures MovedBy(cfg, round, s, u, schedule[k].index, schedule[k].outcome)
    {
      EffectiveMoves(cfg, s, m, round, schedule, u, rs, k);
    }
    forall i | 0 <= i < |s.branches| && Idle(schedule, i)
      ensures u.branches[i] == s.branches[i]
    {
      IdleStays(cfg, s, round, schedule, u, rs, i);
    }
  }

  lemma RoundNodes(cfg: Config, uuid: nat -> NodeId, s: Run, m: nat, round: nat, schedule: seq<Arrival>, u: Run,
                   rs: seq<StepResult>)
    requires Unique(uuid) && round == m + 1 && RunOk(uuid, s, m)
    requires ParallelRound(cfg, uuid, s, round, schedule) == Some(u)
    requires rs == Results(s.tree, s.branches, round, Arrivals(schedule, |s.branches|))
    ensures NewNodesHaveHeads(s, u) && |rs| == |Finished(schedule, |s.branches|)|
  {
    var arrivals := Arrivals(schedule, |s.branches|);
    ArrivalsDistinct(schedule, |s.branches|);
    ResultsOk(s.tree, s.branches, m, round, arrivals);
    ResultsOnePerBranch(s.tree, s.branches, round, arrivals);
    var v := StitchAll(cfg, uuid, s.norm, round, s, rs).value;
    StitchAllKeepsHeads(cfg, uuid, m, round, s, rs, v);
    HeadsKnown(s.tree, s.branches, m);
    AllHaveResults(s.tree, s.branches, round, arrivals);
    CountFinished(schedule, |s.branches|);
  }

  // ---- the statistics ------------------------------------------------------------------------------------

  /** What an outcome gives to the running statistics: when configured, the values of all probes of a successful
      evaluation but the record ones. */
  function RawOfOutcome(cfg: Config, o: Outcome): seq<(string, real)> {
    if cfg.updateDuringEvolution && o.compileError.None? && o.ok
    then Map((p: (string, Entry)) => (p.0, p.1.Value()), NotRecorded(o.probes)) else []
  }

  function RawOfArrivals(cfg: Config, arrivals: seq<Arrival>): seq<(string, real)> {
    if arrivals == [] then []
    else RawOfArrivals(cfg, arrivals[..|arrivals| - 1]) + RawOfOutcome(cfg, arrivals[|arrivals| - 1].outcome)
  }

  lemma RawOfResult(cfg: Config, t: Forest, b: Branch, round: nat, o: Outcome)
    requires b.head in t.nodes
    ensures RawOf(cfg, StepBranch(t, b, round, o).value) == RawOfOutcome(cfg, o)
  {
    RawValuesExactly(o.probes);
  }

  lemma {:induction false} RawOfResults(cfg: Config, t: Forest, bs: seq<Branch>, round: nat, arrivals: seq<Arrival>)
    requires forall b :: b in bs ==> b.head in t.nodes
    requires forall a :: a in arrivals ==> a.index < |bs|
    ensures Flatten(RawLists(cfg, Results(t, bs, round, arrivals))) == RawOfArrivals(cfg, arrivals)
    decreases |arrivals|
  {
    if arrivals == [] {
      assert RawLists(cfg, []) == [];
    } else {
      var init, a := arrivals[..|arrivals| - 1], arrivals[|arrivals| - 1];
      var rs, r := Results(t, bs, round, init), StepBranch(t, bs[a.index], round, a.outcome).value;
      RawOfResults(cfg, t, bs, round, init);
      RawOfResult(cfg, t, bs[a.index], round, a.outcome);
      MapAppend((q: StepResult) => RawOf(cfg, q), rs, r);
      FlattenAppend(RawLists(cfg, rs), RawOf(cfg, r));
    }
  }

  /** Every arrival is the first of its branch in the schedule, and every such first one arrives. */
  lemma ArrivalsExactly(schedule: seq<Arrival>, n: nat, a: Arrival)
    ensures a in Arrivals(schedule, n) <==> exists k: nat :: Effective(schedule, k, n) && schedule[k] == a
  {
    if a in Arrivals(schedule, n) {
      ArrivalsScheduled(schedule, n);
      ArrivalsDistinct(schedule, n);
      var k := FirstOf(schedule, a.index);
      EffectiveArrives(schedule, n, k);
      SameIndex(Arrivals(schedule, n), n, a, schedule[k]);
    }
    if k: nat :| Effective(schedule, k, n) && schedule[k] == a {
      EffectiveArrives(schedule, n, k);
    }
  }

  lemma SameIndex(arrivals: seq<Arrival>, n: nat, a: Arrival, b: Arrival)
    requires DistinctArrivals(arrivals, n) && a in arrivals && b in arrivals && a.index == b.index
    ensures a == b
  {
  }

  /** After a round the statistics of each probe are those of its history with the values appended that the
      finished threads' outcomes give for it. */
  lemma RoundStatistics(cfg: Config, uuid: nat -> NodeId, s: Run, m: nat, round: nat, schedule: seq<Arrival>, u: Run,
                        history: map<string, seq<real>>, name: string)
    requires Unique(uuid) && round == m + 1 && RunOk(uuid, s, m)
    requires ParallelRound(cfg, uuid, s, round, schedule) == Some(u)
    requires s.norm == StateOf(history, s.norm.squash, s.norm.minN)
    ensures u.norm == s.norm.(probes := u.norm.probes)
    ensures AbsorbedInto(history, RawOfArrivals(cfg, Arrivals(schedule, |s.branches|)), name, u.norm.probes)
  {
    var arrivals := Arrivals(schedule, |s.branches|);
    var rs := RoundResult(cfg, uuid, s, m, round, schedule, u);
    HeadsKnown(s.tree, s.branches, m);
    ArrivalsScheduled(schedule, |s.branches|);
    RawOfResults(cfg, s.tree, s.branches, round, arrivals);
    FoldBatches(s.norm.probes, RawLists(cfg, rs));
    BatchAbsorbed(history, RawOfArrivals(cfg, arrivals), name);
    assert s.norm.probes == StateOf(history, "", 0).probes;
  }
}
