/** A whole run, round by round: what it starts from, what each round records, and which rounds apply the
    reply. */
module RunRounds {
  import opened Options
  import opened JsonValues
  import opened Scoring
  import opened Tree
  import opened Branches
  import opened Frontier
  import opened FrontierEntries
  import opened Evolution
  import opened EvolutionInvariants
  import opened EvolutionTheorems
  import opened RoundRecords

  // ---- the start ---------------------------------------------------------------------------------------

  /** Root and branch of one assignment. */
  ghost predicate SeedPlanted(t: Forest, a: Assignment, i: nat, b: Branch) {
    && b.id == "b" + Decimal(i) && b.seed == a.seed && b.hint == Text(a.hint) && b.pivots == []
    && b.head in t.nodes
    && var n := t.nodes[b.head];
       && n.parent.None? && n.depth == 0 && n.round == 0 && n.children == []
       && n.code == a.code && n.seed == a.seed && n.score == 0.0 && n.error == "" && n.details == Details(false, [])
       && n.strategy == "seed" && n.description == "seed=" + a.seed + "; " + a.rationale
  }

  ghost predicate SeedsPlanted(t: Forest, bs: seq<Branch>, assignments: seq<Assignment>, k: nat)
    requires k <= |assignments|
  {
    && |bs| == |t.order| == k
    && forall i :: 0 <= i < k ==> SeedPlanted(t, assignments[i], i, bs[i]) && t.order[i] == bs[i].head
  }

  lemma PlantedStays(t: Forest, id: NodeId, d: Draft, a: Assignment, i: nat, b: Branch)
    requires Listed(t) && id !in t.nodes && d.parent.None? && SeedPlanted(t, a, i, b)
    ensures SeedPlanted(Added(t, id, d), a, i, b)
  {
    AddedNodes(t, id, d);
  }

  lemma PlantedNow(t: Forest, id: NodeId, a: Assignment, i: nat)
    requires Listed(t) && id !in t.nodes && a.seed != ""
    ensures SeedPlanted(Added(t, id, RootDraft(a)), a, i, MakeBranch(i, NewNode(t, id, RootDraft(a)), a.hint))
  {
    AddedNodes(t, id, RootDraft(a));
  }

  lemma {:induction false} SeededPlants(uuid: nat -> NodeId, assignments: seq<Assignment>, k: nat)
    requires Unique(uuid) && k <= |assignments|
    requires forall i :: 0 <= i < |assignments| ==> assignments[i].seed != ""
    ensures SeedsPlanted(Seeded(uuid, assignments, k).0, Seeded(uuid, assignments, k).1, assignments, k)
    decreases k
  {
    if k > 0 {
      var j := k - 1;
      SeededPlants(uuid, assignments, j);
      var t, bs := SeededBefore(uuid, assignments, j, k);
      PlantStep(t, bs, assignments, j, k, uuid(|t.order|));
    }
  }

  /** The state before the last assignment, and the step that follows. */
  lemma SeededBefore(uuid: nat -> NodeId, assignments: seq<Assignment>, j: nat, k: nat)
    returns (t: Forest, bs: seq<Branch>)
    requires Unique(uuid) && k == j + 1 <= |assignments|
    requires forall i :: 0 <= i < |assignments| ==> assignments[i].seed != ""
    ensures Seeded(uuid, assignments, j) == (t, bs) && Listed(t) && uuid(|t.order|) !in t.nodes
    ensures var id, d := uuid(|t.order|), RootDraft(assignments[j]);
            Seeded(uuid, assignments, k)
            == (Added(t, id, d), bs + [MakeBranch(j, NewNode(t, id, d), assignments[j].hint)])
  {
    t, bs := Seeded(uuid, assignments, j).0, Seeded(uuid, assignments, j).1;
    SeededFresh(uuid, assignments, j, t);
  }

  lemma SeededFresh(uuid: nat -> NodeId, assignments: seq<Assignment>, j: nat, t: Forest)
    requires Unique(uuid) && j <= |assignments| && t == Seeded(uuid, assignments, j).0
    requires forall i :: 0 <= i < |assignments| ==> assignments[i].seed != ""
    ensures Listed(t) && uuid(|t.order|) !in t.nodes
  {
    SeededOk(uuid, assignments, j);
    NextNameFresh(uuid, t);
  }

  lemma PlantStep(t: Forest, bs: seq<Branch>, assignments: seq<Assignment>, j: nat, k: nat, id: NodeId)
    requires k == j + 1 <= |assignments| && SeedsPlanted(t, bs, assignments, j) && assignments[j].seed != ""
    requires Listed(t) && id !in t.nodes
    ensures var d := RootDraft(assignments[j]);
            SeedsPlanted(Added(t, id, d), bs + [MakeBranch(j, NewNode(t, id, d), assignments[j].hint)], assignments, k)
  {
    var d := RootDraft(assignments[j]);
    PlantedNow(t, id, assignments[j], j);
    forall i | 0 <= i < j
      ensures SeedPlanted(Added(t, id, d), assignments[i], i, bs[i])
    {
      PlantedStays(t, id, d, assignments[i], i, bs[i]);
    }
  }

  /** A fresh run starts with one root and one branch per assignment, nothing evaluated. */
  lemma StartOfRun(w: World, states: seq<Run>)
    requires IsRun(w, states)
    ensures SeedsPlanted(states[0].tree, states[0].branches, w.assignments, |w.assignments|)
    ensures states[0].nextIdx == |w.assignments| && states[0].norm == w.norm
    ensures states[0].tree.best.None? && states[0].bestScore.None? && states[0].bestPolicy.None?
  {
    assert StateAt(w, states, 0);
    SeededPlants(w.uuid, w.assignments, |w.assignments|);
    SeededOk(w.uuid, w.assignments, |w.assignments|);
  }

  // ---- the counter ---------------------------------------------------------------------------------------

  ghost predicate NumbersAtMost(bs: seq<Branch>, top: int) {
    forall b :: b in bs && BranchNumber(b.id).Some? ==> BranchNumber(b.id).value <= top
  }

  lemma {:induction false} MaxNumberAtMost(bs: seq<Branch>, default: int, top: int)
    requires NumbersAtMost(bs, top) && default <= top
    ensures MaxNumber(bs, default) <= top
    decreases |bs|
  {
    if bs != [] {
      MaxNumberAtMost(bs[..|bs| - 1], default, top);
    }
  }

  /** The spawned branches carry the numbers from `idx` on. */
  ghost predicate NumberedFrom(bs: seq<Branch>, idx: nat) {
    forall i :: 0 <= i < |bs| ==> bs[i].id == BranchName(idx + i)
  }

  lemma OldNumber(bs: seq<Branch>, idx: nat, b: Branch)
    requires NamedBelow(bs, idx) && b in bs
    ensures BranchNumber(b.id).Some? && BranchNumber(b.id).value < idx
  {
    assert NameBelow(b.id, idx);
    var n: nat :| n < idx && b.id == BranchName(n);
    BranchNumberOfName(n);
  }

  lemma NewNumber(spawned: seq<Branch>, idx: nat, b: Branch)
    requires NumberedFrom(spawned, idx) && b in spawned
    ensures BranchNumber(b.id).Some? && idx <= BranchNumber(b.id).value < idx + |spawned|
  {
    var i :| 0 <= i < |spawned| && spawned[i] == b;
    BranchNumberOfName(idx + i);
  }

  /** After a checkpoint the counter has moved by exactly the number of branches spawned. */
  lemma CounterExact(kept: seq<Branch>, spawned: seq<Branch>, idx: nat)
    requires NamedBelow(kept, idx) && NumberedFrom(spawned, idx)
    ensures NextIdx(kept + spawned, idx) == idx + |spawned|
  {
    NumbersBounded(kept, spawned, idx, kept + spawned);
    if spawned != [] {
      LastNumber(kept, spawned, idx, kept + spawned);
    }
    CounterFrom(kept + spawned, idx, |spawned|);
  }

  lemma CounterFrom(all: seq<Branch>, idx: nat, n: nat)
    requires NumbersAtMost(all, idx + n - 1)
    requires n > 0 ==> exists b :: b in all && BranchNumber(b.id) == Some(idx + n - 1)
    ensures NextIdx(all, idx) == idx + n
  {
    MaxNumberAtMost(all, idx - 1, idx + n - 1);
    if n > 0 {
      var b :| b in all && BranchNumber(b.id) == Some(idx + n - 1);
      MaxNumberAtLeast(all, idx - 1, b, idx + n - 1);
    }
  }

  lemma LastNumber(kept: seq<Branch>, spawned: seq<Branch>, idx: nat, all: seq<Branch>)
    requires NumberedFrom(spawned, idx) && spawned != [] && all == kept + spawned
    ensures exists b :: b in all && BranchNumber(b.id) == Some(idx + |spawned| - 1)
  {
    var b := spawned[|spawned| - 1];
    BranchNumberOfName(idx + |spawned| - 1);
    assert b in all && BranchNumber(b.id) == Some(idx + |spawned| - 1);
  }

  lemma NumbersBounded(kept: seq<Branch>, spawned: seq<Branch>, idx: nat, all: seq<Branch>)
    requires NamedBelow(kept, idx) && NumberedFrom(spawned, idx) && all == kept + spawned
    ensures NumbersAtMost(all, idx + |spawned| - 1)
  {
    forall b | b in all
      ensures BranchNumber(b.id).Some? && BranchNumber(b.id).value <= idx + |spawned| - 1
    {
      if b in kept {
        OldNumber(kept, idx, b);
      } else {
        NewNumber(spawned, idx, b);
      }
    }
  }

  // ---- applying the reply --------------------------------------------------------------------------------

  /** The branch a run goes on with when all others were killed. */
  ghost predicate Reseeded(v: Run, b: Branch) {
    && v.tree.best.Some? && v.tree.best.value in v.tree.nodes
    && b.id == "b" + Decimal(v.nextIdx) && b.head == v.tree.best.value
    && b.seed == v.tree.nodes[b.head].seed && b.hint == Text("(reseeded)") && b.pivots == []
  }

  /** The run goes on with the survivors and the spawned branches, or with one branch on the best node when
      there are none; the counter moves by the number of branches added. */
  ghost predicate Continued(v: Run, kept: seq<Branch>, spawned: seq<Branch>, u: Run) {
    && u == v.(branches := u.branches, nextIdx := u.nextIdx)
    && if kept + spawned != [] then u.branches == kept + spawned && u.nextIdx == v.nextIdx + |spawned|
       else |u.branches| == 1 && Reseeded(v, u.branches[0]) && u.nextIdx == v.nextIdx + 1
  }

  ghost predicate ReplyApplied(cfg: Config, v: Run, round: nat, reply: Reply, u: Run) {
    exists kept, spawned :: Applied(v.tree, v.branches, round, cfg.maxSpawn, v.nextIdx, reply, kept, spawned)
                            && Continued(v, kept, spawned, u)
  }

  lemma SpawnsNumbered(t: Forest, branches: seq<Branch>, round: nat, maxSpawn: nat, idx: nat, reply: Reply,
                       kept: seq<Branch>, spawned: seq<Branch>)
    requires Applied(t, branches, round, maxSpawn, idx, reply, kept, spawned) && NamedBelow(branches, idx)
    ensures NumberedFrom(spawned, idx) && NamedBelow(kept, idx)
  {
    if Decides(reply) {
      forall i | 0 <= i < |spawned|
        ensures spawned[i].id == BranchName(idx + i)
      {
        assert SpawnedFor(t, UsableOf(t, SpawnEntries(reply, maxSpawn))[i], idx + i, round, spawned[i]);
      }
      KeptNamedBelow(branches, kept, idx);
    }
  }

  lemma ReviewApplies(cfg: Config, uuid: nat -> NodeId, v: Run, round: nat, reply: Reply, u: Run)
    requires RunOk(uuid, v, round) && v.branches != [] && Review(cfg, v, round, reply) == Some(u)
    ensures ReplyApplied(cfg, v, round, reply, u)
  {
    var bs := ReviewShape(cfg, v, round, reply);
    var kept, spawned := CheckpointByEntries(v.tree, v.branches, round, cfg.maxSpawn, v.nextIdx, reply);
    SpawnsNumbered(v.tree, v.branches, round, cfg.maxSpawn, v.nextIdx, reply, kept, spawned);
    CounterExact(kept, spawned, v.nextIdx);
    if bs == [] {
      ReseedsBest(uuid, v, round, u);
    }
    assert Continued(v, kept, spawned, u);
  }

  lemma ReseedsBest(uuid: nat -> NodeId, v: Run, round: nat, u: Run)
    requires RunOk(uuid, v, round) && v.tree.best.Some? && NextIdx([], v.nextIdx) == v.nextIdx
    requires v.tree.best.value in v.tree.nodes
    requires u == v.(branches := [MakeBranch(v.nextIdx, v.tree.nodes[v.tree.best.value], "(reseeded)")],
                     nextIdx := v.nextIdx + 1)
    ensures |u.branches| == 1 && Reseeded(v, u.branches[0]) && u.nextIdx == v.nextIdx + 1
  {
    var best := v.tree.nodes[v.tree.best.value];
    assert SeedOk(v.tree, best) && best.id == v.tree.best.value;
  }

  /** Round `k` of a run, from the state before it to the state after it: first the outcomes of its threads are
      recorded, giving `v`; then, exactly when the interval divides `k` and it is not the last configured
      round, the reply is applied. */
  lemma RoundOfRun(w: World, states: seq<Run>, j: nat, k: nat) returns (v: Run)
    requires IsRun(w, states) && k == j + 1 < |states|
    ensures k <= |w.scripts| && w.cfg.interval > 0 && states[j].branches != []
    ensures RoundRecorded(w.cfg, k, states[j], v, w.scripts[k - 1].schedule)
    ensures if k % w.cfg.interval == 0 && k < w.cfg.rounds
            then ReplyApplied(w.cfg, v, k, w.scripts[k - 1].reply, states[k]) else states[k] == v
  {
    RunInvariant(w, states, j);
    StepOfRun(w, states, j, k);
    v := RoundParts(w.cfg, w.uuid, states[j], k, w.scripts[k - 1], states[k]);
    ParallelRoundKeeps(w.cfg, w.uuid, states[j], j, k, w.scripts[k - 1].schedule);
    RoundRecordsOutcomes(w.cfg, w.uuid, states[j], j, k, w.scripts[k - 1].schedule, v);
    if k % w.cfg.interval == 0 && k < w.cfg.rounds {
      ReviewApplies(w.cfg, w.uuid, v, k, w.scripts[k - 1].reply, states[k]);
    }
  }

  lemma RoundParts(cfg: Config, uuid: nat -> NodeId, s: Run, round: nat, script: RoundScript, u: Run)
    returns (v: Run)
    requires RoundStep(cfg, uuid, s, round, script) == Some(u)
    ensures ParallelRound(cfg, uuid, s, round, script.schedule) == Some(v) && cfg.interval > 0
    ensures round % cfg.interval == 0 && round < cfg.rounds && v.branches != [] ==>
              Review(cfg, v, round, script.reply) == Some(u)
    ensures !(round % cfg.interval == 0 && round < cfg.rounds && v.branches != []) ==> u == v
  {
    v := ParallelRound(cfg, uuid, s, round, script.schedule).value;
  }
}
