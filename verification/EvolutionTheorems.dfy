/** Theorems about whole runs of the evolution loop. */
module EvolutionTheorems {
  import opened Division
  import opened Options
  import opened Scoring
  import opened Tree
  import opened Branches
  import opened Frontier
  import opened FrontierStops
  import opened Evolution
  import opened EvolutionInvariants

  // ---- the start ----------------------------------------------------------------------------

  ghost predicate SeedsPlaced(uuid: nat -> NodeId, t: Forest, bs: seq<Branch>, k: nat) {
    && TreeOk(uuid, t, 0) && BranchesOk(t, bs, 0) && t.best.None?
    && |t.order| == k && |bs| == k && forall i :: 0 <= i < k ==> bs[i].id == BranchName(i)
  }

  lemma SeedStep(uuid: nat -> NodeId, t: Forest, bs: seq<Branch>, k: nat, a: Assignment, u: Forest, cs: seq<Branch>)
    requires Unique(uuid) && SeedsPlaced(uuid, t, bs, k) && a.seed != ""
    requires var d, id := RootDraft(a), uuid(k);
             u == Added(t, id, d) && cs == bs + [MakeBranch(k, NewNode(t, id, d), a.hint)]
    ensures SeedsPlaced(uuid, u, cs, k + 1)
  {
    var d, id := RootDraft(a), uuid(k);
    AddedTreeOk(uuid, t, d, 0);
    AddedGrows(t, id, d);
    AddedNodes(t, id, d);
    BranchesGrow(t, u, bs, 0, 0);
    RootBranchOk(t, id, d, k, a.hint);
  }

  lemma RootBranchOk(t: Forest, id: NodeId, d: Draft, k: nat, hint: string)
    requires d.parent.None? && d.seed != ""
    ensures BranchOk(Added(t, id, d), MakeBranch(k, NewNode(t, id, d), hint), 0)
  {
  }

  lemma {:induction false} SeededOk(uuid: nat -> NodeId, assignments: seq<Assignment>, k: nat)
    requires Unique(uuid) && k <= |assignments|
    requires forall i :: 0 <= i < |assignments| ==> assignments[i].seed != ""
    ensures SeedsPlaced(uuid, Seeded(uuid, assignments, k).0, Seeded(uuid, assignments, k).1, k)
    decreases k
  {
    if k > 0 {
      SeededOk(uuid, assignments, k - 1);
      var (t, bs) := Seeded(uuid, assignments, k - 1);
      var (u, cs) := Seeded(uuid, assignments, k);
      SeedStep(uuid, t, bs, k - 1, assignments[k - 1], u, cs);
    } else {
      EmptyIsForest();
    }
  }

  lemma NumberedIdsOk(bs: seq<Branch>)
    requires forall i :: 0 <= i < |bs| ==> bs[i].id == BranchName(i)
    ensures IdsOk(bs, |bs|)
  {
    forall i, j | 0 <= i < j < |bs|
      ensures bs[i].id != bs[j].id
    {
      BranchNamesDiffer(i, j);
    }
  }

  /** A planner result of the configured size, naming non-empty seeds. */
  ghost predicate GoodStart(cfg: Config, assignments: seq<Assignment>) {
    && |assignments| == cfg.numBranches
    && forall i :: 0 <= i < |assignments| ==> assignments[i].seed != ""
  }

  lemma StartOk(cfg: Config, uuid: nat -> NodeId, assignments: seq<Assignment>, norm: Norm)
    requires Unique(uuid) && GoodStart(cfg, assignments)
    ensures var s := Start(cfg, uuid, assignments, norm);
            RunOk(uuid, s, 0) && |s.branches| == |s.tree.order| == cfg.numBranches
  {
    SeededOk(uuid, assignments, |assignments|);
    NumberedIdsOk(Start(cfg, uuid, assignments, norm).branches);
  }

  // ---- every round -----------------------------------------------------------------------------

  /** How many branches round `r + 1` may start with. */
  function BranchBound(cfg: Config, r: nat): nat
    requires cfg.interval > 0
  {
    cfg.numBranches + cfg.maxSpawn * (r / cfg.interval)
  }

  /** How many nodes the tree may hold after `r` rounds. */
  function NodeBound(cfg: Config, r: nat): nat
    requires cfg.interval > 0
  {
    if r == 0 then cfg.numBranches else NodeBound(cfg, r - 1) + BranchBound(cfg, r - 1)
  }

  lemma BoundStep(cfg: Config, m: nat, r: nat)
    requires cfg.interval > 0 && r == m + 1
    ensures BranchBound(cfg, r) == BranchBound(cfg, m) + if r % cfg.interval == 0 then cfg.maxSpawn else 0
    ensures NodeBound(cfg, r) == NodeBound(cfg, m) + BranchBound(cfg, m)
  {
    var q := m / cfg.interval;
    NextQuotient(m, cfg.interval);
    assert cfg.maxSpawn * (q + 1) == cfg.maxSpawn * q + cfg.maxSpawn;
  }

  /** Everything a run keeps, with its budgets. */
  ghost predicate RunWithin(cfg: Config, uuid: nat -> NodeId, s: Run, r: nat) {
    && RunOk(uuid, s, r)
    && (cfg.numBranches > 0 ==> s.branches != [])
    && (cfg.interval > 0 ==> |s.branches| <= BranchBound(cfg, r) && |s.tree.order| <= NodeBound(cfg, r))
  }

  lemma RoundStepKeeps(cfg: Config, uuid: nat -> NodeId, s: Run, m: nat, round: nat, script: RoundScript, u: Run)
    requires Unique(uuid) && round == m + 1 && RunWithin(cfg, uuid, s, m)
    requires RoundStep(cfg, uuid, s, round, script) == Some(u)
    ensures RunWithin(cfg, uuid, u, round)
  {
    ParallelRoundKeeps(cfg, uuid, s, m, round, script.schedule);
    var v := ParallelRound(cfg, uuid, s, round, script.schedule).value;
    BoundStep(cfg, m, round);
    if round % cfg.interval == 0 && round < cfg.rounds {
      var kept, fresh_ := ReviewKeeps(cfg, uuid, v, round, script.reply, u);
    }
  }

  ghost predicate StepTo(w: World, s: Run, n: nat, u: Run) {
    0 < n <= |w.scripts| && RoundStep(w.cfg, w.uuid, s, n, w.scripts[n - 1]) == Some(u)
  }

  ghost predicate StateAt(w: World, states: seq<Run>, n: nat)
    requires n < |states|
  {
    if n == 0 then states[0] == Start(w.cfg, w.uuid, w.assignments, w.norm) else StepTo(w, states[n - 1], n, states[n])
  }

  /** `states[i]` is the state after `i` rounds of a fresh run. */
  ghost predicate IsRun(w: World, states: seq<Run>) {
    && Unique(w.uuid) && GoodStart(w.cfg, w.assignments) && states != []
    && forall n: nat {:trigger StateAt(w, states, n)} :: n < |states| ==> StateAt(w, states, n)
  }

  /** Every completed run has its sequence of states. */
  lemma {:induction false} RunOfEvolve(w: World, k: nat, u: Run) returns (states: seq<Run>)
    requires Unique(w.uuid) && GoodStart(w.cfg, w.assignments) && k <= |w.scripts|
    requires Evolve(w, k) == Some(u)
    ensures IsRun(w, states) && |states| == k + 1 && states[k] == u
    decreases k
  {
    if k == 0 {
      states := [u];
      assert StateAt(w, states, 0);
    } else {
      var j := k - 1;
      var s := EvolveStep(w, j, k, u);
      var init := RunOfEvolve(w, j, s);
      states := ExtendRun(w, init, j, k, u);
    }
  }

  lemma EvolveStep(w: World, j: nat, k: nat, u: Run) returns (s: Run)
    requires k == j + 1 && k <= |w.scripts| && Evolve(w, k) == Some(u)
    ensures Evolve(w, j) == Some(s) && StepTo(w, s, k, u)
  {
    s := Evolve(w, j).value;
  }

  lemma ExtendRun(w: World, init: seq<Run>, j: nat, k: nat, u: Run) returns (states: seq<Run>)
    requires IsRun(w, init) && |init| == k == j + 1 && StepTo(w, init[j], k, u)
    ensures IsRun(w, states) && |states| == k + 1 && states[k] == u
  {
    states := init + [u];
    forall n: nat | n < |states|
      ensures StateAt(w, states, n)
    {
      if n < |init| {
        StateKept(w, init, u, n);
      } else {
        StateAdded(w, init, j, n, u);
      }
    }
  }

  lemma StateAdded(w: World, init: seq<Run>, j: nat, k: nat, u: Run)
    requires |init| == k == j + 1 && StepTo(w, init[j], k, u)
    ensures StateAt(w, init + [u], k)
  {
    StateReached(w, init + [u], k, init[j], u);
  }

  lemma StateReached(w: World, states: seq<Run>, k: nat, s: Run, u: Run)
    requires 0 < k < |states| && states[k - 1] == s && states[k] == u && StepTo(w, s, k, u)
    ensures StateAt(w, states, k)
  {
  }

  lemma StateKept(w: World, init: seq<Run>, u: Run, n: nat)
    requires IsRun(w, init) && n < |init|
    ensures StateAt(w, init + [u], n)
  {
    assert StateAt(w, init, n);
  }

  lemma RunStep(w: World, states: seq<Run>, j: nat, k: nat)
    requires IsRun(w, states) && k == j + 1 < |states| && RunWithin(w.cfg, w.uuid, states[j], j)
    ensures RunWithin(w.cfg, w.uuid, states[k], k) && Progressed(states[j], states[k])
    ensures FreshIds(states[j], states[k])
  {
    StepOfRun(w, states, j, k);
    OneStep(w, states[j], j, k, states[k]);
  }

  lemma StepOfRun(w: World, states: seq<Run>, j: nat, k: nat)
    requires IsRun(w, states) && k == j + 1 < |states|
    ensures Unique(w.uuid) && StepTo(w, states[j], k, states[k])
  {
    assert StateAt(w, states, k);
  }

  lemma RunStart(w: World, states: seq<Run>)
    requires IsRun(w, states)
    ensures RunWithin(w.cfg, w.uuid, states[0], 0)
  {
    assert StateAt(w, states, 0);
    StartOk(w.cfg, w.uuid, w.assignments, w.norm);
  }

  lemma OneStep(w: World, s: Run, m: nat, n: nat, u: Run)
    requires Unique(w.uuid) && n == m + 1 && StepTo(w, s, n, u) && RunWithin(w.cfg, w.uuid, s, m)
    ensures RunWithin(w.cfg, w.uuid, u, n) && Progressed(s, u) && FreshIds(s, u)
  {
    RoundStepKeeps(w.cfg, w.uuid, s, m, n, w.scripts[n - 1], u);
    RoundProgress(w.cfg, w.uuid, s, m, n, w.scripts[n - 1], u);
    NewIdsAreFresh(w.cfg, w.uuid, s, m, n, w.scripts[n - 1], u);
  }

  /** Every reachable state of a fresh run: a forest whose best node is right, branches with
      distinct identifiers on existing nodes of their own seed, a best-score register that
      agrees with the best node, and the branch and node budgets. */
  lemma {:induction false} RunInvariant(w: World, states: seq<Run>, k: nat)
    requires IsRun(w, states) && k < |states|
    ensures RunWithin(w.cfg, w.uuid, states[k], k)
    decreases k
  {
    if k == 0 {
      RunStart(w, states);
    } else {
      var j := k - 1;
      RunInvariant(w, states, j);
      RunStep(w, states, j, k);
    }
  }

  // ---- consequences along root paths -------------------------------------------------------------

  /** Rounds strictly increase along every root path, so a node is never deeper than its round. */
  lemma {:induction false} DepthBelowRound(t: Forest, r: nat, id: NodeId)
    requires IsForest(t) && RoundsIncrease(t, r) && id in t.nodes
    ensures t.nodes[id].depth <= t.nodes[id].round <= r
    decreases t.nodes[id].depth
  {
    var n := t.nodes[id];
    assert RoundOk(t, n, r);
    if n.parent.Some? {
      assert ParentAgrees(t, id, n.parent.value);
      DepthBelowRound(t, r, n.parent.value);
    }
  }

  /** Every node carries the seed of the root it grew from. */
  lemma {:induction false} SeedOfRoot(t: Forest, id: NodeId)
    requires IsForest(t) && SeedsInherited(t) && id in t.nodes
    ensures var path := Ancestors(t, id); path != [] && path[|path| - 1].seed == t.nodes[id].seed
    decreases t.nodes[id].depth
  {
    var n := t.nodes[id];
    assert SeedOk(t, n);
    if n.parent.Some? {
      assert ParentAgrees(t, id, n.parent.value);
      SeedOfRoot(t, n.parent.value);
    }
  }

  /** No node of a fresh run is ever labelled "pivot-mutate": a pivot records the checkpoint's
      own round, and the branch steps again only in a later one. */
  lemma PivotMutateNeverAssigned(w: World, states: seq<Run>, k: nat, id: NodeId)
    requires IsRun(w, states) && k < |states| && id in states[k].tree.nodes
    ensures states[k].tree.nodes[id].strategy != "pivot-mutate"
  {
    RunInvariant(w, states, k);
  }

  // ---- when the program stops ---------------------------------------------------------------------

  /** A checkpoint stops the program exactly when the reply has a shape that raises, or kills every branch
      while no error-free node has been evaluated yet. (A round before its checkpoint never
      stops the program while a branch is alive: see ParallelRoundKeeps.) */
  lemma ReviewStopsExactlyWhen(cfg: Config, uuid: nat -> NodeId, s: Run, round: nat, reply: Reply)
    requires RunOk(uuid, s, round) && s.branches != []
    ensures Review(cfg, s, round, reply).None? <==>
              || Raises(s.branches, reply, cfg.maxSpawn)
              || (&& Checkpoint(s.tree, s.branches, round, cfg.maxSpawn, s.nextIdx, reply) == Some([])
                  && forall id :: id in s.tree.nodes ==> !Eligible(s.tree.nodes[id]))
  {
    CheckpointRaises(s.tree, s.branches, round, cfg.maxSpawn, s.nextIdx, reply);
    NoBestMeansNoneEligible(s.tree);
  }

  lemma NoBestMeansNoneEligible(t: Forest)
    requires BestIsRight(t)
    ensures t.best.None? <==> forall id :: id in t.nodes ==> !Eligible(t.nodes[id])
  {
  }

  // ---- monotonicity over the run ---------------------------------------------------------------------

  /** Nodes are only added, the counter only grows, and the best score never drops. */
  ghost predicate Progressed(s: Run, u: Run) {
    && s.tree.nodes.Keys <= u.tree.nodes.Keys && s.nextIdx <= u.nextIdx
    && (s.bestScore.Some? ==> u.bestScore.Some? && u.bestScore.value >= s.bestScore.value)
  }

  lemma RoundProgress(cfg: Config, uuid: nat -> NodeId, s: Run, m: nat, round: nat, script: RoundScript, u: Run)
    requires Unique(uuid) && round == m + 1 && RunOk(uuid, s, m)
    requires RoundStep(cfg, uuid, s, round, script) == Some(u)
    ensures Progressed(s, u)
  {
    ParallelRoundKeeps(cfg, uuid, s, m, round, script.schedule);
    var v := ParallelRound(cfg, uuid, s, round, script.schedule).value;
    if round % cfg.interval == 0 && round < cfg.rounds {
      var kept, fresh_ := ReviewKeeps(cfg, uuid, v, round, script.reply, u);
    }
  }

  /** A branch alive after a round was alive before it, or carries an identifier that no
      branch has carried so far. */
  ghost predicate NameFrom(id: string, lo: nat) {
    exists n: nat :: n >= lo && id == BranchName(n)
  }

  ghost predicate FreshIds(s: Run, u: Run) {
    forall b :: b in u.branches ==> HasId(s.branches, b.id) || NameFrom(b.id, s.nextIdx)
  }

  lemma NewIdsAreFresh(cfg: Config, uuid: nat -> NodeId, s: Run, m: nat, round: nat, script: RoundScript, u: Run)
    requires Unique(uuid) && round == m + 1 && RunOk(uuid, s, m)
    requires RoundStep(cfg, uuid, s, round, script) == Some(u)
    ensures FreshIds(s, u)
  {
    ParallelRoundKeeps(cfg, uuid, s, m, round, script.schedule);
    var v := ParallelRound(cfg, uuid, s, round, script.schedule).value;
    if round % cfg.interval == 0 && round < cfg.rounds {
      var kept, fresh_ := ReviewKeeps(cfg, uuid, v, round, script.reply, u);
      ReviewIdsFresh(cfg, s, v, u, kept, fresh_);
    } else {
      KeptIdsFresh(s, u);
    }
  }

  lemma KeptIdsFresh(s: Run, u: Run)
    requires SameButHeads(s.branches, u.branches)
    ensures FreshIds(s, u)
  {
    forall b | b in u.branches
      ensures HasId(s.branches, b.id)
    {
      assert HasId(u.branches, b.id);
      SameIds(s.branches, u.branches, b.id);
    }
  }

  lemma ReviewIdsFresh(cfg: Config, s: Run, v: Run, u: Run, kept: seq<Branch>, fresh_: seq<Branch>)
    requires SameButHeads(s.branches, v.branches) && v.nextIdx == s.nextIdx && ReviewEffect(cfg, v, u, kept, fresh_)
    ensures FreshIds(s, u)
  {
    forall b | b in u.branches
      ensures HasId(s.branches, b.id) || NameFrom(b.id, s.nextIdx)
    {
      SameIds(s.branches, v.branches, b.id);
      if b !in kept {
        assert b in fresh_;
      }
    }
  }

  lemma SameIds(bs: seq<Branch>, cs: seq<Branch>, id: string)
    requires SameButHeads(bs, cs)
    ensures HasId(bs, id) <==> HasId(cs, id)
  {
    if HasId(cs, id) {
      var c :| c in cs && c.id == id;
      var i :| 0 <= i < |cs| && cs[i] == c;
      assert bs[i] in bs && bs[i].id == id;
    }
    if HasId(bs, id) {
      var b :| b in bs && b.id == id;
      var i :| 0 <= i < |bs| && bs[i] == b;
      assert cs[i] in cs && cs[i].id == id;
    }
  }

  /** A branch the reply kills is gone right after the checkpoint. */
  lemma KilledIsGone(cfg: Config, uuid: nat -> NodeId, s: Run, round: nat, reply: Reply, b: Branch, u: Run)
    requires RunOk(uuid, s, round) && PlanOf(reply, cfg.maxSpawn).Plan? && b in s.branches
    requires Fate(s.tree, PlanOf(reply, cfg.maxSpawn).decisions, round, |PlanOf(reply, cfg.maxSpawn).decisions|,
            b).None?
    requires Review(cfg, s, round, reply) == Some(u)
    ensures !HasId(u.branches, b.id)
  {
    HeadsKnown(s.tree, s.branches, round);
    var bs := ReviewShape(cfg, s, round, reply);
    var kept, spawned := CheckpointMeaning(s.tree, s.branches, round, cfg.maxSpawn, s.nextIdx, reply);
    KilledFromAll(s, round, PlanOf(reply, cfg.maxSpawn).decisions, kept, spawned, b);
  }

  /** Neither the survivors, nor the spawned branches, nor a reseeded one carry the identifier. */
  lemma KilledFromAll(s: Run, round: nat, ds: seq<Decision>, kept: seq<Branch>, spawned: seq<Branch>, b: Branch)
    requires DistinctIds(s.branches) && Partitions(s.tree, s.branches, ds, round, kept)
    requires FreshSpawns(s.tree, spawned, round, s.nextIdx, |spawned|)
    requires b in s.branches && NameBelow(b.id, s.nextIdx) && Fate(s.tree, ds, round, |ds|, b).None?
    ensures !HasId(kept + spawned, b.id) && b.id != BranchName(NextIdx([], s.nextIdx))
  {
    var n: nat :| n < s.nextIdx && b.id == BranchName(n);
    BranchNamesDiffer(n, NextIdx([], s.nextIdx));
    KilledFromKept(s, round, ds, kept, b);
    KilledFromSpawned(s.tree, spawned, round, s.nextIdx, n, b);
  }

  lemma KilledFromKept(s: Run, round: nat, ds: seq<Decision>, kept: seq<Branch>, b: Branch)
    requires DistinctIds(s.branches) && Partitions(s.tree, s.branches, ds, round, kept)
    requires b in s.branches && Fate(s.tree, ds, round, |ds|, b).None?
    ensures !HasId(kept, b.id)
  {
    forall c | c in kept
      ensures c.id != b.id
    {
      SurvivorIsNotKilled(s, round, ds, kept, b, c);
    }
  }

  lemma KilledFromSpawned(t: Forest, spawned: seq<Branch>, round: nat, idx: nat, n: nat, b: Branch)
    requires FreshSpawns(t, spawned, round, idx, |spawned|) && n < idx && b.id == BranchName(n)
    ensures !HasId(spawned, b.id)
  {
    forall c | c in spawned
      ensures c.id != b.id
    {
      var i :| 0 <= i < |spawned| && spawned[i] == c;
      assert FreshSpawn(t, spawned[i], round, idx + i);
      BranchNamesDiffer(n, idx + i);
    }
  }

  lemma SurvivorIsNotKilled(s: Run, round: nat, ds: seq<Decision>, kept: seq<Branch>, b: Branch, c: Branch)
    requires DistinctIds(s.branches) && Partitions(s.tree, s.branches, ds, round, kept)
    requires b in s.branches && Fate(s.tree, ds, round, |ds|, b).None? && c in kept
    ensures c.id != b.id
  {
    assert Descends(s.tree, s.branches, ds, round, |ds|, c);
    var a :| a in s.branches && Fate(s.tree, ds, round, |ds|, a) == Some(c);
    if a.id == b.id {
      DistinctUnique(s.branches, a, b);
    }
  }

  /** Over a whole run the best score never decreases and no node is ever lost. */
  lemma {:induction false} BestScoreNeverDrops(w: World, states: seq<Run>, i: nat, k: nat)
    requires IsRun(w, states) && i <= k < |states|
    ensures Progressed(states[i], states[k])
    decreases k
  {
    if i < k {
      var j := k - 1;
      BestScoreNeverDrops(w, states, i, j);
      RunInvariant(w, states, j);
      RunStep(w, states, j, k);
    }
  }

  /** An identifier that was once alive and then dead never comes back. */
  lemma {:induction false} DeadStaysDead(w: World, states: seq<Run>, i: nat, j: nat, k: nat, id: string)
    requires IsRun(w, states) && i <= j <= k < |states|
    requires HasId(states[i].branches, id) && !HasId(states[j].branches, id)
    ensures !HasId(states[k].branches, id)
    decreases k
  {
    if j < k {
      var m := k - 1;
      DeadStaysDead(w, states, i, j, m, id);
      RunInvariant(w, states, m);
      RunStep(w, states, m, k);
      OldIdBelowCounter(w, states, i, m, id);
      StillDead(states[m], states[k], id);
    }
  }

  lemma OldIdBelowCounter(w: World, states: seq<Run>, i: nat, k: nat, id: string)
    requires IsRun(w, states) && i <= k < |states| && HasId(states[i].branches, id)
    ensures NameBelow(id, states[k].nextIdx)
  {
    RunInvariant(w, states, i);
    BestScoreNeverDrops(w, states, i, k);
    var b :| b in states[i].branches && b.id == id;
    var n: nat :| n < states[i].nextIdx && b.id == BranchName(n);
    assert n < states[k].nextIdx;
  }

  lemma StillDead(s: Run, u: Run, id: string)
    requires FreshIds(s, u) && !HasId(s.branches, id) && NameBelow(id, s.nextIdx)
    ensures !HasId(u.branches, id)
  {
    var m: nat :| m < s.nextIdx && id == BranchName(m);
    forall b | b in u.branches
      ensures b.id != id
    {
      if !HasId(s.branches, b.id) {
        var n: nat :| n >= s.nextIdx && b.id == BranchName(n);
        BranchNamesDiffer(m, n);
      }
    }
  }

  // ---- what counts as error-free -------------------------------------------------------------------

  /** A step's node may become best exactly when its binary was built and the evaluation either
      succeeded or failed without a message: the tree looks at the message, not at the outcome. */
  lemma EligibleExactlyWhen(cfg: Config, frozen: Norm, t: Forest, b: Branch, round: nat, o: Outcome, id: NodeId)
    requires b.head in t.nodes
    ensures var r := StepBranch(t, b, round, o).value;
            Eligible(NewNode(t, id, ResultDraft(cfg, frozen, round, r))) <==>
                o.compileError.None? && (o.ok || o.error == "")
  {
  }

  /** A failed evaluation says why. The repository's own evaluator does: it sets `ok` exactly when
      there is no message. */
  ghost predicate Explains(o: Outcome) {
    o.compileError.None? && !o.ok ==> o.error != ""
  }

  ghost predicate AllExplain(schedule: seq<Arrival>) {
    forall a :: a in schedule ==> Explains(a.outcome)
  }

  /** Every node that may become best comes from a successful evaluation. */
  ghost predicate EligibleSucceeded(t: Forest) {
    forall id :: id in t.nodes && Eligible(t.nodes[id]) ==> t.nodes[id].details.ok
  }

  lemma {:induction false} ArrivalsExplain(schedule: seq<Arrival>, n: nat)
    requires AllExplain(schedule)
    ensures AllExplain(Arrivals(schedule, n))
    decreases |schedule|
  {
    if schedule != [] {
      ArrivalsExplain(schedule[..|schedule| - 1], n);
      assert schedule[|schedule| - 1] in schedule;
    }
  }

  lemma {:induction false} ResultsExplain(t: Forest, bs: seq<Branch>, round: nat, arrivals: seq<Arrival>)
    requires AllExplain(arrivals)
    ensures forall r :: r in Results(t, bs, round, arrivals) ==> r.error == "" ==> r.details.ok
    decreases |arrivals|
  {
    if arrivals != [] {
      var a := arrivals[|arrivals| - 1];
      ResultsExplain(t, bs, round, arrivals[..|arrivals| - 1]);
      assert a in arrivals;
    }
  }

  lemma AddedSucceeded(t: Forest, id: NodeId, d: Draft)
    requires ParentKnown(t, d) && EligibleSucceeded(t) && (d.error == "" ==> d.parent.Some? ==> d.details.ok)
    ensures EligibleSucceeded(Added(t, id, d))
  {
  }

  lemma {:induction false} StitchAllSucceeded(cfg: Config, uuid: nat -> NodeId, frozen: Norm, round: nat, s: Run,
                                              rs: seq<StepResult>, u: Run)
    requires EligibleSucceeded(s.tree) && StitchAll(cfg, uuid, frozen, round, s, rs) == Some(u)
    requires forall r :: r in rs ==> r.error == "" ==> r.details.ok
    ensures EligibleSucceeded(u.tree)
    decreases |rs|
  {
    if rs != [] {
      var init, r := rs[..|rs| - 1], rs[|rs| - 1];
      var v := StitchAll(cfg, uuid, frozen, round, s, init).value;
      StitchAllSucceeded(cfg, uuid, frozen, round, s, init, v);
      assert r in rs && Stitch(cfg, uuid, frozen, round, v, r) == Some(u);
      AddedSucceeded(v.tree, uuid(|v.tree.order|), ResultDraft(cfg, frozen, round, r));
    }
  }

  lemma RoundSucceeded(cfg: Config, uuid: nat -> NodeId, s: Run, round: nat, script: RoundScript, u: Run)
    requires EligibleSucceeded(s.tree) && AllExplain(script.schedule)
    requires RoundStep(cfg, uuid, s, round, script) == Some(u)
    ensures EligibleSucceeded(u.tree)
  {
    var arrivals := Arrivals(script.schedule, |s.branches|);
    var rs := Results(s.tree, s.branches, round, arrivals);
    ArrivalsExplain(script.schedule, |s.branches|);
    ResultsExplain(s.tree, s.branches, round, arrivals);
    var v := StitchAll(cfg, uuid, s.norm, round, s, rs).value;
    StitchAllSucceeded(cfg, uuid, s.norm, round, s, rs, v);
    RoundTree(cfg, uuid, s, round, script, u);
  }

  /** After the results are stitched, a round leaves the tree alone. */
  lemma RoundTree(cfg: Config, uuid: nat -> NodeId, s: Run, round: nat, script: RoundScript, u: Run)
    requires RoundStep(cfg, uuid, s, round, script) == Some(u)
    ensures var rs := Results(s.tree, s.branches, round, Arrivals(script.schedule, |s.branches|));
            && StitchAll(cfg, uuid, s.norm, round, s, rs).Some?
            && u.tree == StitchAll(cfg, uuid, s.norm, round, s, rs).value.tree
  {
  }

  lemma {:induction false} SeededSucceeded(uuid: nat -> NodeId, assignments: seq<Assignment>, k: nat)
    requires k <= |assignments|
    ensures EligibleSucceeded(Seeded(uuid, assignments, k).0)
  {
    if k > 0 {
      SeededSucceeded(uuid, assignments, k - 1);
      var t := Seeded(uuid, assignments, k - 1).0;
      AddedSucceeded(t, uuid(|t.order|), RootDraft(assignments[k - 1]));
    }
  }

  /** If every failed evaluation of the run carries a message, the best node of every reachable state
      comes from a successful one. */
  lemma {:induction false} BestNodeSucceeded(w: World, states: seq<Run>, k: nat)
    requires IsRun(w, states) && k < |states| && forall i :: 0 <= i < |w.scripts| ==> AllExplain(w.scripts[i].schedule)
    ensures EligibleSucceeded(states[k].tree)
    ensures states[k].tree.best.Some? ==>
              && states[k].tree.best.value in states[k].tree.nodes
              && states[k].tree.nodes[states[k].tree.best.value].details.ok
    decreases k
  {
    RunInvariant(w, states, k);
    if k == 0 {
      assert StateAt(w, states, 0);
      SeededSucceeded(w.uuid, w.assignments, |w.assignments|);
    } else {
      var j := k - 1;
      BestNodeSucceeded(w, states, j);
      StepOfRun(w, states, j, k);
      RoundSucceeded(w.cfg, w.uuid, states[j], k, w.scripts[k - 1], states[k]);
    }
  }

  /** So a failed evaluation with an empty message can be the best node, although the code's own
      comment says failed runs cannot: it scores 0 and beats every negative score. */
  lemma FailedRunCanBeBest(cfg: Config, uuid: nat -> NodeId, norm: Norm)
    requires Unique(uuid)
    ensures var a := Assignment("fifo", "code", "", "");
            var s := Start(cfg.(numBranches := 1), uuid, [a], norm);
            var o := Outcome(None, "", None, false, "", []);
            var u := StitchAll(cfg, uuid, norm, 1, s, Results(s.tree, s.branches, 1, [Arrival(0, o)]));
            && u.Some? && u.value.tree.best == Some(uuid(1))
            && !u.value.tree.nodes[uuid(1)].details.ok && u.value.tree.nodes[uuid(1)].score == 0.0
  {
    var a := Assignment("fifo", "code", "", "");
    var s := Start(cfg.(numBranches := 1), uuid, [a], norm);
    var o := Outcome(None, "", None, false, "", []);
    var arrivals := [Arrival(0, o)];
    assert Seeded(uuid, [a], 0) == (EMPTY_FOREST, []);
    assert s.tree == Added(EMPTY_FOREST, uuid(0), RootDraft(a));
    var r := StepBranch(s.tree, s.branches[0], 1, o).value;
    assert arrivals[..0] == [];
    var rs := Results(s.tree, s.branches, 1, arrivals);
    assert Arrivals(arrivals, 1) == arrivals;
    assert Results(s.tree, s.branches, 1, []) == [];
    assert rs == [] + [r];
    assert rs[..0] == [];
    assert StitchAll(cfg, uuid, norm, 1, s, rs) == Stitch(cfg, uuid, norm, 1, s, r);
  }
}
