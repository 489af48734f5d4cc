/** The `evolve` loop of loop.py as a deterministic machine over everything the outside world
    decides: model replies, compiler and worker outcomes, and the order in which threads finish.
    A step is None where the program stops with an exception. */
module Evolution {
  import opened Options
  import opened Scoring
  import opened Tree
  import opened Branches
  import opened Frontier

  datatype Config = Config(numBranches: nat, interval: nat, maxSpawn: nat, rounds: nat,
                           weights: map<string, real>, updateDuringEvolution: bool, num: Numerics)

  /** A planner assignment, with the code of its seed already looked up. */
  datatype Assignment = Assignment(seed: string, code: string, rationale: string, hint: string)

  /** What the mutator, the compiler and the worker did for one branch. `compileError` is None
      when a binary was produced; `code` is None when the reply holds no code block. */
  datatype Outcome = Outcome(code: Option<string>, description: string, compileError: Option<string>,
                             ok: bool, error: string, probes: Probes)

  /** The finished step of the branch at position `index`. */
  datatype Arrival = Arrival(index: nat, outcome: Outcome)

  datatype RoundScript = RoundScript(schedule: seq<Arrival>, reply: Reply)

  datatype StepResult = StepResult(branchId: string, parent: NodeId, code: string, error: string,
                                   details: Details, description: string, seed: string, strategy: string)

  /** The loop's variables. `bestScore` is None for minus infinity; `bestPolicy` is the content
      of best_policy.c, None before it is first written. */
  datatype Run = Run(tree: Forest, branches: seq<Branch>, nextIdx: nat,
                     bestScore: Option<real>, bestPolicy: Option<string>, norm: Norm)

  // ---- seeding -----------------------------------------------------------------------------

  function RootDraft(a: Assignment): Draft {
    Draft(None, a.code, 0.0, Details(false, []), "", "seed", "seed=" + a.seed + "; " + a.rationale, a.seed, 0)
  }

  /** The tree and the branches after the first `k` assignments. The n-th node of a run is
      named `uuid(n)`. */
  function Seeded(uuid: nat -> NodeId, assignments: seq<Assignment>, k: nat): (Forest, seq<Branch>)
    requires k <= |assignments|
  {
    if k == 0 then (EMPTY_FOREST, [])
    else
      var (t, bs) := Seeded(uuid, assignments, k - 1);
      var id, d := uuid(|t.order|), RootDraft(assignments[k - 1]);
      (Added(t, id, d), bs + [MakeBranch(k - 1, NewNode(t, id, d), assignments[k - 1].hint)])
  }

  function Start(cfg: Config, uuid: nat -> NodeId, assignments: seq<Assignment>, norm: Norm): Run {
    var (t, bs) := Seeded(uuid, assignments, |assignments|);
    Run(t, bs, cfg.numBranches, None, None, norm)
  }

  // ---- one branch step ---------------------------------------------------------------------

  function Strategy(b: Branch, parent: TreeNode, round: nat): string {
    if b.pivots != [] && b.pivots[|b.pivots| - 1] == round then "pivot-mutate"
    else if parent.depth == 0 then "seed-mutate"
    else "mutate"
  }

  /** `step_branch`; None when the head is missing from the tree. */
  function StepBranch(t: Forest, b: Branch, round: nat, o: Outcome): Option<StepResult> {
    if b.head !in t.nodes then None
    else
      var parent := t.nodes[b.head];
      var code := if o.code.Some? && o.code.value != "" then o.code.value else parent.code;
      var strategy := Strategy(b, parent, round);
      if o.compileError.Some? then
        var err := OrElse(o.compileError.value, "compile failed");
        Some(StepResult(b.id, b.head, code, err, Details(false, []), o.description, b.seed, strategy))
      else
        Some(StepResult(b.id, b.head, code, if o.ok then "" else o.error, Details(o.ok, o.probes),
                        o.description, b.seed, strategy))
  }

  // ---- the parallel round --------------------------------------------------------------------

  /** Any schedule read as thread completions: positions out of range and repetitions drop out. */
  function Arrivals(schedule: seq<Arrival>, n: nat): seq<Arrival> {
    if schedule == [] then []
    else
      var init := Arrivals(schedule[..|schedule| - 1], n);
      var a := schedule[|schedule| - 1];
      if a.index < n && (forall b :: b in init ==> b.index != a.index) then init + [a] else init
  }

  /** The results in completion order; a step that raised leaves none. */
  function Results(t: Forest, branches: seq<Branch>, round: nat, arrivals: seq<Arrival>): seq<StepResult> {
    if arrivals == [] then []
    else
      var init := Results(t, branches, round, arrivals[..|arrivals| - 1]);
      var a := arrivals[|arrivals| - 1];
      if a.index >= |branches| then init
      else match StepBranch(t, branches[a.index], round, a.outcome)
        case None => init
        case Some(r) => init + [r]
  }

  /** The score that replaces the raw one: zero unless the evaluation succeeded. */
  function NormalizedScore(cfg: Config, frozen: Norm, details: Details): real {
    if details.ok then ScoreOf(cfg.num, frozen, details.probes, cfg.weights).score else 0.0
  }

  function SetHead(branches: seq<Branch>, id: string, head: NodeId): (r: seq<Branch>)
    ensures |r| == |branches|
  {
    if branches == [] then []
    else if branches[0].id == id then [branches[0].(head := head)] + branches[1..]
    else [branches[0]] + SetHead(branches[1..], id, head)
  }

  function UpdatedNorm(cfg: Config, norm: Norm, details: Details): Norm {
    if cfg.updateDuringEvolution && details.ok
    then norm.(probes := ObserveAll(norm.probes, ExtractRawValues(details.probes)))
    else norm
  }

  function ResultDraft(cfg: Config, frozen: Norm, round: nat, r: StepResult): Draft {
    Draft(Some(r.parent), r.code, NormalizedScore(cfg, frozen, r.details), r.details, r.error, r.strategy,
          r.description, r.seed, round)
  }

  /** Stitch one result into the run. */
  function Stitch(cfg: Config, uuid: nat -> NodeId, frozen: Norm, round: nat, s: Run, r: StepResult): Option<Run> {
    var d := ResultDraft(cfg, frozen, round, r);
    var id := uuid(|s.tree.order|);
    if !ParentKnown(s.tree, d) then None
    else Some(s.(tree := Added(s.tree, id, d), branches := SetHead(s.branches, r.branchId, id),
                 norm := UpdatedNorm(cfg, s.norm, r.details)))
  }

  function StitchAll(cfg: Config, uuid: nat -> NodeId, frozen: Norm, round: nat, s: Run,
                     rs: seq<StepResult>): Option<Run> {
    if rs == [] then Some(s)
    else
      var s' :- StitchAll(cfg, uuid, frozen, round, s, rs[..|rs| - 1]);
      Stitch(cfg, uuid, frozen, round, s', rs[|rs| - 1])
  }

  /** The best-policy snapshot at the end of a round. */
  function Snapshot(s: Run): Option<Run> {
    if s.tree.best.None? then Some(s)
    else if s.tree.best.value !in s.tree.nodes then None
    else
      var best := s.tree.nodes[s.tree.best.value];
      if s.bestScore.None? || best.score > s.bestScore.value
      then Some(s.(bestScore := Some(best.score), bestPolicy := Some(best.code)))
      else Some(s)
  }

  /** A round up to its snapshot. The scores come from the statistics at the start of the round. */
  function ParallelRound(cfg: Config, uuid: nat -> NodeId, s: Run, round: nat, schedule: seq<Arrival>): Option<Run> {
    if s.branches == [] then None
    else
      var rs := Results(s.tree, s.branches, round, Arrivals(schedule, |s.branches|));
      var s' :- StitchAll(cfg, uuid, s.norm, round, s, rs);
      Snapshot(s')
  }

  // ---- the checkpoint --------------------------------------------------------------------------

  /** The largest branch number read back from the identifiers, or `default`. */
  function MaxNumber(branches: seq<Branch>, default: int): int {
    if branches == [] then default
    else
      var rest := branches[..|branches| - 1];
      match BranchNumber(branches[|branches| - 1].id)
      case None => MaxNumber(rest, default)
      case Some(n) =>
        if AnyNumber(rest) then
          var m := MaxNumber(rest, default);
          if m > n then m else n
        else n
  }

  predicate AnyNumber(branches: seq<Branch>) {
    exists b :: b in branches && BranchNumber(b.id).Some?
  }

  /** The next counter value the loop computes after a checkpoint. */
  function NextIdx(bs: seq<Branch>, idx: nat): nat {
    var maxB := MaxNumber(bs, idx - 1);
    if maxB + 1 > idx then maxB + 1 else idx
  }

  /** The counter update and, if every branch was killed, the reseed. */
  function Settled(s: Run, bs: seq<Branch>): Option<Run> {
    var next := NextIdx(bs, s.nextIdx);
    if bs != [] then Some(s.(branches := bs, nextIdx := next))
    else if s.tree.best.None? || s.tree.best.value !in s.tree.nodes then None
    else Some(s.(branches := [MakeBranch(next, s.tree.nodes[s.tree.best.value], "(reseeded)")], nextIdx := next + 1))
  }

  function Review(cfg: Config, s: Run, round: nat, reply: Reply): Option<Run> {
    var bs :- Checkpoint(s.tree, s.branches, round, cfg.maxSpawn, s.nextIdx, reply);
    Settled(s, bs)
  }

  function RoundStep(cfg: Config, uuid: nat -> NodeId, s: Run, round: nat, script: RoundScript): Option<Run> {
    var s' :- ParallelRound(cfg, uuid, s, round, script.schedule);
    if cfg.interval == 0 then None
    else if round % cfg.interval == 0 && round < cfg.rounds && s'.branches != []
    then Review(cfg, s', round, script.reply)
    else Some(s')
  }

  /** One world: the configuration, the planner's result, the statistics at the start, the
      identifiers uuid4 will draw, and all outside decisions, round by round. */
  datatype World = World(cfg: Config, uuid: nat -> NodeId, assignments: seq<Assignment>, norm: Norm,
                         scripts: seq<RoundScript>)

  /** The run after its first `k` rounds. */
  function Evolve(w: World, k: nat): Option<Run>
    requires k <= |w.scripts|
    decreases k, 0
  {
    if k == 0 then Some(Start(w.cfg, w.uuid, w.assignments, w.norm)) else AfterRound(w, k)
  }

  /** The k-th round, run from the state before it. */
  function AfterRound(w: World, k: nat): Option<Run>
    requires 0 < k <= |w.scripts|
    decreases k - 1, 1
  {
    match Evolve(w, k - 1)
    case None => None
    case Some(s) => RoundStep(w.cfg, w.uuid, s, k, w.scripts[k - 1])
  }

  /** Identifiers drawn from uuid4 do not repeat. */
  ghost predicate Unique(uuid: nat -> NodeId) {
    forall m, n :: m != n ==> uuid(m) != uuid(n)
  }
}
