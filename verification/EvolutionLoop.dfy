/** The `evolve` loop itself: objects updated in place, proved to compute the machine of
    module Evolution. */
module EvolutionLoop {
  import opened Options
  import opened Scoring
  import opened Tree
  import opened Branches
  import opened Frontier
  import opened Evolution
  import opened EvolutionInvariants

  class EvolutionRun {
    const tree: EvolutionTree
    const normState: NormalizationState
    var branches: seq<LiveBranch>
    var nextBranchIdx: nat
    var bestScore: Option<real>
    var bestPolicy: Option<string>

    ghost predicate Valid(uuid: nat -> NodeId)
      reads this, tree, normState
    {
      normState.Valid() && Named(uuid, tree.View()) && DistinctObjects(branches)
    }

    /** The objects the run owns. */
    ghost function Repr(): set<object>
      reads this, normState
    {
      {this, tree, normState} + normState.probes.Values + set b | b in branches
    }

    function View(): Run
      reads this, tree, normState, normState.probes.Values, branches
    {
      Run(tree.View(), Views(branches), nextBranchIdx, bestScore, bestPolicy, normState.View())
    }

    /** Seed the roots of a fresh run, one branch per assignment. */
    constructor (cfg: Config, uuid: nat -> NodeId, assignments: seq<Assignment>, norm: Norm)
      requires Unique(uuid)
      ensures Valid(uuid) && View() == Start(cfg, uuid, assignments, norm)
      ensures fresh(tree) && fresh(normState) && fresh(normState.probes.Values) && FreshObjects(branches)
    {
      var t := new EvolutionTree();
      var bs := ChooseBranches(t, uuid, assignments);
      var n := NormalizationState.FromDict(norm);
      tree, normState, branches, nextBranchIdx := t, n, bs, cfg.numBranches;
      bestScore, bestPolicy := None, None;
    }

    static method ChooseBranches(t: EvolutionTree, uuid: nat -> NodeId, assignments: seq<Assignment>)
      returns (bs: seq<LiveBranch>)
      requires Unique(uuid) && t.View() == EMPTY_FOREST
      modifies t
      ensures Planted(uuid, assignments, |assignments|, t.View(), Views(bs))
      ensures DistinctObjects(bs) && FreshObjects(bs)
    {
      bs := [];
      NothingPlanted(uuid, assignments, t.View(), Views(bs));
      for i := 0 to |assignments|
        invariant Planted(uuid, assignments, i, t.View(), Views(bs))
        invariant DistinctObjects(bs) && FreshObjects(bs)
      {
        var b := PlantNext(t, uuid, assignments, i, bs);
        bs := bs + [b];
      }
    }

    /** The body of the loop, up to the append. */
    static method PlantNext(t: EvolutionTree, uuid: nat -> NodeId, assignments: seq<Assignment>, i: nat,
                            bs: seq<LiveBranch>)
      returns (b: LiveBranch)
      requires Unique(uuid) && i < |assignments| && Planted(uuid, assignments, i, t.View(), Views(bs))
      modifies t
      ensures fresh(b) && Planted(uuid, assignments, i + 1, t.View(), Views(bs + [b]))
    {
      ghost var before, roots := t.View(), Views(bs);
      b := PlantRoot(t, uuid, i, assignments[i]);
      assert Views(bs) == roots;
      ViewsAppend(bs, b);
      SeededNext(uuid, assignments, i, before, roots, t.View(), Views(bs + [b]));
    }

    static method PlantRoot(t: EvolutionTree, uuid: nat -> NodeId, idx: nat, a: Assignment) returns (b: LiveBranch)
      requires Unique(uuid) && Named(uuid, t.View())
      modifies t
      ensures fresh(b) && b.View()
              == MakeBranch(idx, NewNode(old(t.View()), uuid(|old(t.order)|), RootDraft(a)), a.hint)
      ensures t.View() == Added(old(t.View()), uuid(|old(t.order)|), RootDraft(a)) && Named(uuid, t.View())
    {
      NamedFresh(uuid, t.View());
      NamedStep(uuid, t.View(), RootDraft(a));
      var root := t.AddNode(uuid(|t.order|), RootDraft(a));
      b := new LiveBranch(idx, root.value, a.hint);
    }

    /** Move the first branch with this identifier to its new node. */
    method MoveHead(id: string, head: NodeId)
      requires DistinctObjects(branches)
      modifies branches
      ensures Views(branches) == SetHead(old(Views(branches)), id, head)
    {
      var i := 0;
      ghost var bs := Views(branches);
      while i < |branches| && branches[i].id != id
        invariant i <= |branches| && Views(branches) == bs
        invariant SetHead(bs, id, head) == bs[..i] + SetHead(bs[i..], id, head)
      {
        SetHeadSkips(bs, i, id, head);
        i := i + 1;
      }
      if i < |branches| {
        SetHeadHits(bs, i, id, head);
        branches[i].head := head;
        assert Views(branches) == bs[i := bs[i].(head := head)];
      }
    }

    /** The score of one result under the frozen statistics. */
    method ScoreResult(cfg: Config, scoring: NormalizationState, details: Details) returns (score: real)
      requires scoring.Valid()
      ensures score == NormalizedScore(cfg, scoring.View(), details)
    {
      score := 0.0;
      if details.ok {
        var scored := scoring.Score(cfg.num, details.probes, cfg.weights);
        score := scored.score;
      }
    }

    /** Absorb the raw values of a successful result, when the run is configured to. */
    method AbsorbResult(cfg: Config, details: Details)
      requires normState.Valid()
      modifies normState, normState.probes.Values
      ensures normState.Valid() && normState.View() == UpdatedNorm(cfg, old(normState.View()), details)
      ensures fresh(normState.probes.Values - old(normState.probes.Values))
    {
      if cfg.updateDuringEvolution && details.ok {
        normState.Update(ExtractRawValues(details.probes));
      }
    }

    /** Add a result's node and move its branch there; false when the parent does not exist. */
    method PlaceResult(uuid: nat -> NodeId, d: Draft, branchId: string) returns (ok: bool)
      requires Unique(uuid) && Named(uuid, tree.View()) && DistinctObjects(branches)
      modifies branches, tree
      ensures ok <==> ParentKnown(old(tree.View()), d)
      ensures ok ==> && tree.View() == Added(old(tree.View()), uuid(|old(tree.order)|), d)
                     && Named(uuid, tree.View())
                     && Views(branches) == SetHead(old(Views(branches)), branchId, uuid(|old(tree.order)|))
    {
      var id := uuid(|tree.order|);
      NamedFresh(uuid, tree.View());
      if ParentKnown(tree.View(), d) {
        NamedStep(uuid, tree.View(), d);
      }
      var node := tree.AddNode(id, d);
      if node.None? {
        return false;
      }
      MoveHead(branchId, id);
      ok := true;
    }

    /** Stitch one result into the run; false when its parent does not exist. */
    method StitchResult(cfg: Config, uuid: nat -> NodeId, scoring: NormalizationState, round: nat, r: StepResult)
      returns (ok: bool)
      requires Unique(uuid) && Valid(uuid) && scoring.Valid()
      requires scoring != normState && scoring.probes.Values !! normState.probes.Values
      modifies branches, tree, normState, normState.probes.Values
      ensures ok <==> Stitch(cfg, uuid, old(scoring.View()), round, old(View()), r).Some?
      ensures ok ==> Valid(uuid) && Stitch(cfg, uuid, old(scoring.View()), round, old(View()), r) == Some(View())
      ensures scoring.Valid() && scoring.View() == old(scoring.View()) && scoring.probes == old(scoring.probes)
      ensures fresh(normState.probes.Values - old(normState.probes.Values))
    {
      var score := ScoreResult(cfg, scoring, r.details);
      var d := Draft(Some(r.parent), r.code, score, r.details, r.error, r.strategy, r.description, r.seed, round);
      StitchParts(cfg, uuid, scoring.View(), round, View(), r, d);
      ok := RecordResult(cfg, uuid, d, r.branchId);
    }

    /** Absorb the raw values of a scored result and place it in the tree. */
    method RecordResult(cfg: Config, uuid: nat -> NodeId, d: Draft, branchId: string) returns (ok: bool)
      requires Unique(uuid) && Valid(uuid)
      modifies branches, tree, normState, normState.probes.Values
      ensures ok <==> ParentKnown(old(tree.View()), d)
      ensures ok ==> Valid(uuid) && View() == Recorded(cfg, uuid, old(View()), d, branchId)
      ensures fresh(normState.probes.Values - old(normState.probes.Values))
    {
      ghost var s := View();
      AbsorbResult(cfg, d.details);
      ghost var norm := normState.View();
      assert Views(branches) == s.branches;
      ok := PlaceResult(uuid, d, branchId);
      assert normState.View() == norm;
    }

    /** Write the best policy out whenever the best node's score rises; false on a dangling
        best pointer. */
    method SnapshotBest() returns (ok: bool)
      modifies this`bestScore, this`bestPolicy
      ensures ok <==> Snapshot(old(View())).Some?
      ensures ok ==> Snapshot(old(View())) == Some(View())
    {
      if tree.bestNodeId.None? {
        return true;
      }
      if tree.bestNodeId.value !in tree.nodes {
        return false;
      }
      var best := tree.nodes[tree.bestNodeId.value];
      if bestScore.None? || best.score > bestScore.value {
        bestScore, bestPolicy := Some(best.score), Some(best.code);
      }
      ok := true;
    }

    /** The results of the branch steps, in completion order. */
    method RunSteps(round: nat, arrivals: seq<Arrival>) returns (results: seq<StepResult>)
      ensures results == Results(tree.View(), Views(branches), round, arrivals)
    {
      results := [];
      for i := 0 to |arrivals|
        invariant results == Results(tree.View(), Views(branches), round, arrivals[..i])
      {
        assert arrivals[..i + 1][..i] == arrivals[..i];
        var a := arrivals[i];
        if a.index < |branches| {
          var r := StepBranch(tree.View(), branches[a.index].View(), round, a.outcome);
          if r.Some? {
            results := results + [r.value];
          }
        }
      }
      assert arrivals[..|arrivals|] == arrivals;
    }

    /** Stitch all results, scoring every one of them with the same frozen statistics. */
    method StitchResults(cfg: Config, uuid: nat -> NodeId, scoring: NormalizationState, round: nat,
                         results: seq<StepResult>)
      returns (ok: bool)
      requires Unique(uuid) && Valid(uuid) && scoring.Valid()
      requires scoring != normState && scoring.probes.Values !! normState.probes.Values
      modifies branches, tree, normState, normState.probes.Values
      ensures ok <==> StitchAll(cfg, uuid, old(scoring.View()), round, old(View()), results).Some?
      ensures ok ==>
                && Valid(uuid)
                && StitchAll(cfg, uuid, old(scoring.View()), round, old(View()), results) == Some(View())
      ensures fresh(normState.probes.Values - old(normState.probes.Values))
    {
      ghost var frozen, s := scoring.View(), View();
      for k := 0 to |results|
        invariant Valid(uuid) && scoring.Valid() && scoring.View() == frozen && scoring.probes == old(scoring.probes)
        invariant scoring.probes.Values !! normState.probes.Values
        invariant fresh(normState.probes.Values - old(normState.probes.Values))
        invariant StitchAll(cfg, uuid, frozen, round, s, results[..k]) == Some(View())
      {
        StitchNext(cfg, uuid, frozen, round, s, results, k, k + 1, View());
        ok := StitchResult(cfg, uuid, scoring, round, results[k]);
        if !ok {
          StitchRaised(cfg, uuid, frozen, round, s, results, k + 1);
          return;
        }
      }
      assert results[..|results|] == results;
      ok := true;
    }

    method StitchFrozen(cfg: Config, uuid: nat -> NodeId, round: nat, results: seq<StepResult>) returns (ok: bool)
      requires Unique(uuid) && Valid(uuid)
      modifies branches, tree, normState, normState.probes.Values
      ensures ok <==> StitchAll(cfg, uuid, old(normState.View()), round, old(View()), results).Some?
      ensures ok ==>
                && Valid(uuid)
                && StitchAll(cfg, uuid, old(normState.View()), round, old(View()), results) == Some(View())
      ensures fresh(normState.probes.Values - old(normState.probes.Values))
    {
      var scoring := NormalizationState.FromDict(normState.View());
      ok := StitchResults(cfg, uuid, scoring, round, results);
    }

    /** One round up to its snapshot. Scores come from a copy of the statistics taken before
        the first result is absorbed. */
    method Round(cfg: Config, uuid: nat -> NodeId, round: nat, schedule: seq<Arrival>) returns (ok: bool)
      requires Unique(uuid) && Valid(uuid)
      modifies this, tree, normState, normState.probes.Values, branches
      ensures ParallelRound(cfg, uuid, old(View()), round, schedule) == if ok then Some(View()) else None
      ensures ok ==> Valid(uuid)
      ensures fresh(normState.probes.Values - old(normState.probes.Values)) && branches == old(branches)
    {
      if branches == [] {
        return false;
      }
      ghost var s := View();
      var results := RunSteps(round, Arrivals(schedule, |branches|));
      RoundParts(cfg, uuid, s, round, schedule, results);
      ok := StitchFrozen(cfg, uuid, round, results);
      if ok {
        ok := SnapshotBest();
      }
    }

    /** The checkpoint, the counter and the reseed; false when the program stops. */
    method ReviewBranches(cfg: Config, round: nat, reply: Reply) returns (ok: bool)
      requires DistinctObjects(branches)
      modifies this`branches, this`nextBranchIdx, branches
      ensures Review(cfg, old(View()), round, reply) == if ok then Some(View()) else None
      ensures ok ==> DistinctObjects(branches)
      ensures NoForeign(old(branches), branches)
    {
      ghost var s := View();
      var bs := Consult(cfg, round, reply);
      if bs.None? {
        return false;
      }
      ok := Settle(s, bs.value);
    }

    /** Ask for decisions and carry them out on the branch objects. */
    method Consult(cfg: Config, round: nat, reply: Reply) returns (bs: Option<seq<LiveBranch>>)
      requires DistinctObjects(branches)
      modifies branches
      ensures Review(cfg, old(View()), round, reply) == if bs.None? then None else Settled(old(View()), Views(bs.value))
      ensures bs.Some? ==> DistinctObjects(bs.value) && NoForeign(branches, bs.value)
    {
      ghost var s := View();
      bs := RunFrontierCheckpoint(tree, branches, round, cfg.maxSpawn, nextBranchIdx, reply);
      ReviewParts(cfg, s, round, reply, if bs.None? then None else Some(Views(bs.value)));
    }

    /** Take over the branches a checkpoint left, advance the counter, reseed if none is left. */
    method Settle(ghost s: Run, bs: seq<LiveBranch>) returns (ok: bool)
      requires View() == s.(branches := Views(branches)) && DistinctObjects(bs)
      modifies this`branches, this`nextBranchIdx
      ensures Settled(s, Views(bs)) == if ok then Some(View()) else None
      ensures ok ==> DistinctObjects(branches)
      ensures branches == old(branches) || branches == bs || FreshObjects(branches)
    {
      var maxB := MaxNumber(Views(bs), nextBranchIdx - 1);
      var next: nat := if maxB + 1 > nextBranchIdx then maxB + 1 else nextBranchIdx;
      if bs == [] {
        if tree.bestNodeId.None? || tree.bestNodeId.value !in tree.nodes {
          return false;
        }
        Reseed(next, tree.nodes[tree.bestNodeId.value]);
      } else {
        branches := bs;
        nextBranchIdx := next;
      }
      ok := true;
    }

    /** One new branch on the best node. */
    method Reseed(next: nat, best: TreeNode)
      modifies this`branches, this`nextBranchIdx
      ensures Views(branches) == [MakeBranch(next, best, "(reseeded)")] && nextBranchIdx == next + 1
      ensures DistinctObjects(branches) && FreshObjects(branches)
    {
      var b := new LiveBranch(next, best, "(reseeded)");
      branches := [b];
      nextBranchIdx := next + 1;
    }

    /** Take the run from its state after `k` rounds to the one after `n == k + 1` rounds. */
    method Advance(w: World, k: nat, n: nat) returns (ok: bool)
      requires Unique(w.uuid) && Valid(w.uuid) && n == k + 1 <= |w.scripts| && Evolve(w, k) == Some(View())
      modifies Repr()
      ensures Evolve(w, n) == if ok then Some(View()) else None
      ensures ok ==> Valid(w.uuid)
      ensures fresh(Repr() - old(Repr()))
    {
      EvolveNext(w, k, n, View());
      ok := RoundWithCheckpoint(w.cfg, w.uuid, n, w.scripts[k]);
    }

    /** The loop over the scripted rounds; false when the program stops early. */
    method AdvanceAll(w: World) returns (ok: bool)
      requires Unique(w.uuid) && Valid(w.uuid) && View() == Start(w.cfg, w.uuid, w.assignments, w.norm)
      modifies Repr()
      ensures Evolve(w, |w.scripts|) == if ok then Some(View()) else None
    {
      var k := 0;
      while k < |w.scripts|
        invariant k <= |w.scripts| && Valid(w.uuid) && fresh(Repr() - old(Repr()))
        invariant Evolve(w, k) == Some(View())
      {
        var n := k + 1;
        ok := Advance(w, k, n);
        if !ok {
          EvolveStopped(w, n, |w.scripts|);
          return;
        }
        k := n;
      }
      ok := true;
    }

    /** One whole round with its checkpoint. */
    method RoundWithCheckpoint(cfg: Config, uuid: nat -> NodeId, round: nat, script: RoundScript) returns (ok: bool)
      requires Unique(uuid) && Valid(uuid)
      modifies Repr()
      ensures RoundStep(cfg, uuid, old(View()), round, script) == if ok then Some(View()) else None
      ensures ok ==> Valid(uuid)
      ensures fresh(Repr() - old(Repr()))
    {
      ghost var s := View();
      StepParts(cfg, uuid, s, round, script);
      ok := Round(cfg, uuid, round, script.schedule);
      if !ok {
        return;
      }
      if cfg.interval == 0 {
        return false;
      }
      if round % cfg.interval == 0 && round < cfg.rounds && branches != [] {
        ok := ReviewBranches(cfg, round, script.reply);
      }
    }
  }

  /** The whole program on the scripted rounds; None when it stops early. */
  method RunEvolve(w: World) returns (run: Option<EvolutionRun>)
    requires Unique(w.uuid)
    ensures run.Some? <==> Evolve(w, |w.scripts|).Some?
    ensures run.Some? ==> Evolve(w, |w.scripts|) == Some(run.value.View())
  {
    var r := new EvolutionRun(w.cfg, w.uuid, w.assignments, w.norm);
    var ok := r.AdvanceAll(w);
    run := if ok then Some(r) else None;
  }

  twostate predicate FreshObjects(new bs: seq<LiveBranch>) {
    forall i :: 0 <= i < |bs| ==> fresh(bs[i])
  }

  /** Every branch object was there before or is new. */
  twostate predicate NoForeign(before: seq<LiveBranch>, new after: seq<LiveBranch>) {
    forall i :: 0 <= i < |after| ==> after[i] in before || fresh(after[i])
  }

  // ---- proof helpers ------------------------------------------------------------------------

  ghost predicate Named(uuid: nat -> NodeId, t: Forest) {
    Listed(t) && NamedInOrder(uuid, t)
  }

  ghost function Recorded(cfg: Config, uuid: nat -> NodeId, s: Run, d: Draft, branchId: string): Run
    requires ParentKnown(s.tree, d)
  {
    var id := uuid(|s.tree.order|);
    s.(tree := Added(s.tree, id, d), branches := SetHead(s.branches, branchId, id), norm := UpdatedNorm(cfg,
        s.norm, d.details))
  }

  /** The state of the seeding loop after `k` assignments. */
  ghost predicate Planted(uuid: nat -> NodeId, assignments: seq<Assignment>, k: nat, t: Forest, bs: seq<Branch>)
    requires k <= |assignments|
  {
    Seeded(uuid, assignments, k) == (t, bs) && Named(uuid, t)
  }

  lemma NothingPlanted(uuid: nat -> NodeId, assignments: seq<Assignment>, t: Forest, bs: seq<Branch>)
    requires t == EMPTY_FOREST && bs == []
    ensures Planted(uuid, assignments, 0, t, bs)
  {
  }

  lemma SeededNext(uuid: nat -> NodeId, assignments: seq<Assignment>, k: nat, t: Forest, bs: seq<Branch>,
                   u: Forest, cs: seq<Branch>)
    requires k < |assignments| && Seeded(uuid, assignments, k) == (t, bs)
    requires var id, d := uuid(|t.order|), RootDraft(assignments[k]);
             u == Added(t, id, d) && cs == bs + [MakeBranch(k, NewNode(t, id, d), assignments[k].hint)]
    ensures Seeded(uuid, assignments, k + 1) == (u, cs)
  {
  }

  lemma SetHeadSkips(bs: seq<Branch>, i: nat, id: string, head: NodeId)
    requires i < |bs| && bs[i].id != id
    ensures bs[..i] + SetHead(bs[i..], id, head) == bs[..i + 1] + SetHead(bs[i + 1..], id, head)
  {
    assert bs[i..][1..] == bs[i + 1..];
    assert bs[..i + 1] == bs[..i] + [bs[i]];
  }

  lemma SetHeadHits(bs: seq<Branch>, i: nat, id: string, head: NodeId)
    requires i < |bs| && bs[i].id == id
    ensures bs[..i] + SetHead(bs[i..], id, head) == bs[i := bs[i].(head := head)]
  {
    assert bs[i..][1..] == bs[i + 1..];
  }

  lemma NamedFresh(uuid: nat -> NodeId, t: Forest)
    requires Unique(uuid) && Named(uuid, t)
    ensures uuid(|t.order|) !in t.nodes
  {
    NextNameFresh(uuid, t);
  }

  lemma NamedStep(uuid: nat -> NodeId, t: Forest, d: Draft)
    requires Unique(uuid) && Named(uuid, t) && ParentKnown(t, d)
    ensures Named(uuid, Added(t, uuid(|t.order|), d))
  {
    NextNameFresh(uuid, t);
    AddedListed(t, uuid(|t.order|), d);
  }

  lemma StitchParts(cfg: Config, uuid: nat -> NodeId, frozen: Norm, round: nat, s: Run, r: StepResult, d: Draft)
    requires d == ResultDraft(cfg, frozen, round, r)
    ensures Stitch(cfg, uuid, frozen, round, s, r)
         == if ParentKnown(s.tree, d) then Some(Recorded(cfg, uuid, s, d, r.branchId)) else None
  {
  }

  lemma StitchNext(cfg: Config, uuid: nat -> NodeId, frozen: Norm, round: nat, s: Run, rs: seq<StepResult>, j: nat,
                   k: nat, u: Run)
    requires k == j + 1 <= |rs| && StitchAll(cfg, uuid, frozen, round, s, rs[..j]) == Some(u)
    ensures StitchAll(cfg, uuid, frozen, round, s, rs[..k]) == Stitch(cfg, uuid, frozen, round, u, rs[j])
  {
    assert rs[..k][..j] == rs[..j];
  }

  lemma StitchStopped(cfg: Config, uuid: nat -> NodeId, frozen: Norm, round: nat, s: Run, rs: seq<StepResult>,
                      j: nat, k: nat)
    requires k == j + 1 <= |rs| && StitchAll(cfg, uuid, frozen, round, s, rs[..j]).None?
    ensures StitchAll(cfg, uuid, frozen, round, s, rs[..k]).None?
  {
    assert rs[..k][..j] == rs[..j];
  }

  lemma {:induction false} StitchRaised(cfg: Config, uuid: nat -> NodeId, frozen: Norm, round: nat, s: Run,
                                        rs: seq<StepResult>, k: nat)
    requires k <= |rs| && StitchAll(cfg, uuid, frozen, round, s, rs[..k]).None?
    ensures StitchAll(cfg, uuid, frozen, round, s, rs).None?
    decreases |rs| - k
  {
    if k == |rs| {
      assert rs[..k] == rs;
    } else {
      var n := k + 1;
      StitchStopped(cfg, uuid, frozen, round, s, rs, k, n);
      StitchRaised(cfg, uuid, frozen, round, s, rs, n);
    }
  }

  lemma RoundParts(cfg: Config, uuid: nat -> NodeId, s: Run, round: nat, schedule: seq<Arrival>, rs: seq<StepResult>)
    requires s.branches != [] && rs == Results(s.tree, s.branches, round, Arrivals(schedule, |s.branches|))
    ensures StitchAll(cfg, uuid, s.norm, round, s, rs).None? ==> ParallelRound(cfg, uuid, s, round, schedule).None?
    ensures StitchAll(cfg, uuid, s.norm, round, s, rs).Some? ==>
              ParallelRound(cfg, uuid, s, round, schedule) == Snapshot(StitchAll(cfg, uuid, s.norm, round, s, rs).value)
  {
  }

  lemma StepParts(cfg: Config, uuid: nat -> NodeId, s: Run, round: nat, script: RoundScript)
    ensures ParallelRound(cfg, uuid, s, round, script.schedule).None? ==> RoundStep(cfg, uuid, s, round, script).None?
    ensures ParallelRound(cfg, uuid, s, round, script.schedule).Some? ==>
              var u := ParallelRound(cfg, uuid, s, round, script.schedule).value;
              RoundStep(cfg, uuid, s, round, script)
              == if cfg.interval == 0 then None
                 else if round % cfg.interval == 0 && round < cfg.rounds && u.branches != []
                 then Review(cfg, u, round, script.reply) else Some(u)
  {
  }

  lemma ReviewParts(cfg: Config, s: Run, round: nat, reply: Reply, bs: Option<seq<Branch>>)
    requires Checkpoint(s.tree, s.branches, round, cfg.maxSpawn, s.nextIdx, reply) == bs
    ensures Review(cfg, s, round, reply) == if bs.None? then None else Settled(s, bs.value)
  {
  }

  lemma EvolveUnfolds(w: World, k: nat)
    requires 0 < k <= |w.scripts|
    ensures Evolve(w, k) == AfterRound(w, k)
  {
  }

  lemma AfterRoundUnfolds(w: World, j: nat, k: nat)
    requires k == j + 1 <= |w.scripts|
    ensures AfterRound(w, k) == if Evolve(w, j).None? then None
                                else RoundStep(w.cfg, w.uuid, Evolve(w, j).value, k, w.scripts[j])
  {
  }

  lemma EvolveNext(w: World, j: nat, k: nat, u: Run)
    requires k == j + 1 <= |w.scripts| && Evolve(w, j) == Some(u)
    ensures Evolve(w, k) == RoundStep(w.cfg, w.uuid, u, k, w.scripts[j])
  {
    EvolveUnfolds(w, k);
    AfterRoundUnfolds(w, j, k);
  }

  lemma EvolveNone(w: World, j: nat, k: nat)
    requires k == j + 1 <= |w.scripts| && Evolve(w, j).None?
    ensures Evolve(w, k).None?
  {
    EvolveUnfolds(w, k);
    AfterRoundUnfolds(w, j, k);
  }

  lemma {:induction false} EvolveStopped(w: World, k: nat, n: nat)
    requires k <= n <= |w.scripts| && Evolve(w, k).None?
    ensures Evolve(w, n).None?
    decreases n - k
  {
    if k < n {
      var m := k + 1;
      EvolveNone(w, k, m);
      EvolveStopped(w, m, n);
    }
  }
}
