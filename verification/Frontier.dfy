/** The frontier checkpoint of frontier.py: an untrusted reply reshapes the branch set. */
module Frontier {
  import opened JsonValues
  import opened Options
  import opened Tree
  import opened Branches

  // ---- the reply ------------------------------------------------------------------------

  /** `NoReply`: the call failed, or no JSON was found in the text. */
  datatype Reply = NoReply | Parsed(value: Value)

  /** A requested node: none, a name that may or may not exist, or a truthy value that cannot be
      looked up. */
  datatype Target = NoTarget | Target(id: NodeId) | Unhashable

  /** One entry of `decisions` as the loop reads it. `BadDecision`: reading it raises. `Stray`: its
      identifier is no text, so it names no branch. */
  datatype Decision = BadDecision | Stray | Decision(branchId: string, action: string, target: Target, reason: Value)

  datatype Spawn = BadSpawn | Spawn(target: Target, reason: Value)

  /** What a reply asks for: nothing, something that raises at once, or decisions and spawns. */
  datatype Plan = Unchanged | Refused | Plan(decisions: seq<Decision>, spawns: seq<Spawn>)

  /** `(v.get("reason") or "")[:500]`, None when it cannot be sliced. */
  function ReasonOf(v: Value): Option<Value>
    requires v.Dict?
  {
    var reason := Get(v, "reason", Null);
    if !Truthy(reason) then Some(Text(""))
    else if Sliceable(reason) then Some(Slice(reason, 500))
    else None
  }

  function TargetOf(v: Value): Target
    requires v.Dict?
  {
    var target := Get(v, "target_node_id", Null);
    if !Truthy(target) then NoTarget
    else if !Hashable(target) then Unhashable
    else if target.Text? then Target(target.s)
    else NoTarget
  }

  function DecisionOf(v: Value): Decision {
    if !v.Dict? then BadDecision
    else
      var id, action, reason := Get(v, "branch_id", Text("")), Get(v, "action", Text("continue")), ReasonOf(v);
      if reason.None? || !Hashable(id) then BadDecision
      else if !id.Text? then Stray
      else Decision(id.s, if action.Text? then action.s else "", TargetOf(v), reason.value)
  }

  function SpawnOf(v: Value): Spawn {
    if !v.Dict? || ReasonOf(v).None? || TargetOf(v).Unhashable? then BadSpawn
    else Spawn(TargetOf(v), ReasonOf(v).value)
  }

  function Decisions(vs: seq<Value>): (ds: seq<Decision>)
    ensures |ds| == |vs| && forall i :: 0 <= i < |vs| ==> ds[i] == DecisionOf(vs[i])
  {
    seq(|vs|, i requires 0 <= i < |vs| => DecisionOf(vs[i]))
  }

  function Spawns(vs: seq<Value>): (ss: seq<Spawn>)
    ensures |ss| == |vs| && forall i :: 0 <= i < |vs| ==> ss[i] == SpawnOf(vs[i])
  {
    seq(|vs|, i requires 0 <= i < |vs| => SpawnOf(vs[i]))
  }

  function PlanOf(reply: Reply, maxSpawn: nat): (plan: Plan)
    ensures plan.Plan? ==> |plan.spawns| <= maxSpawn
  {
    if reply.NoReply? || !Truthy(reply.value) then Unchanged
    else if !reply.value.Dict? then Refused
    else
      var ds, ss := Get(reply.value, "decisions", Null), Get(reply.value, "spawns", List([]));
      if !ds.List? then Unchanged
      else if !Sliceable(ss) then Refused
      else Plan(Decisions(ds.items), Spawns(Elements(Slice(ss, maxSpawn))))
  }

  /** A target the checkpoint follows: a name present in the tree. */
  predicate KnownTarget(t: Forest, target: Target) {
    target.Target? && target.id in t.nodes
  }

  // ---- the decision loop, as values --------------------------------------------------------

  /** `{b.branch_id: b for b in branches}` in insertion order. */
  function ById(branches: seq<Branch>): seq<Branch> {
    if branches == [] then []
    else
      var b := branches[|branches| - 1];
      var init := ById(branches[..|branches| - 1]);
      if HasId(init, b.id) then seq(|init|, i requires 0 <= i < |init| => if init[i].id == b.id then b else init[i])
      else init + [b]
  }

  function Find(dict: seq<Branch>, id: string): (b: Branch)
    requires HasId(dict, id)
    ensures b in dict && b.id == id
  {
    if dict[|dict| - 1].id == id then dict[|dict| - 1]
    else
      assert forall c :: c in dict && c.id == id ==> c in dict[..|dict| - 1];
      Find(dict[..|dict| - 1], id)
  }

  /** What a decision other than "kill" does to its branch. */
  function Kept(t: Forest, b: Branch, d: Decision, round: nat): Branch
    requires d.Decision?
  {
    if d.action == "pivot" && KnownTarget(t, d.target)
    then Pivoted(b, t.nodes[d.target.id], d.reason, round)
    else b
  }

  datatype Progress = Progress(kept: seq<Branch>, seen: set<string>)

  /** The state of the decision loop after the first `k` decisions; None once one raised. */
  function Decide(t: Forest, dict: seq<Branch>, ds: seq<Decision>, round: nat, k: nat): Option<Progress>
    requires k <= |ds|
  {
    if k == 0 then Some(Progress([], {}))
    else
      var p := Decide(t, dict, ds, round, k - 1);
      var d := ds[k - 1];
      if p.None? || d.BadDecision? then None
      else if d.Stray? || !HasId(dict, d.branchId) || d.branchId in p.value.seen then p
      else if d.action == "pivot" && d.target.Unhashable? then None
      else
        var seen := p.value.seen + {d.branchId};
        if d.action == "kill" then Some(Progress(p.value.kept, seen))
        else Some(Progress(p.value.kept + [Kept(t, Find(dict, d.branchId), d, round)], seen))
  }

  /** The branches the reply does not mention, in order. */
  function Omitted(dict: seq<Branch>, seen: set<string>, k: nat): seq<Branch>
    requires k <= |dict|
  {
    if k == 0 then []
    else Omitted(dict, seen, k - 1) + if dict[k - 1].id in seen then [] else [dict[k - 1]]
  }

  /** The branches spawned by the first `k` requests; None once one raised. */
  function Spawned(t: Forest, ss: seq<Spawn>, round: nat, idx: nat, k: nat): Option<seq<Branch>>
    requires k <= |ss|
  {
    if k == 0 then Some([])
    else
      var bs := Spawned(t, ss, round, idx, k - 1);
      var s := ss[k - 1];
      if bs.None? || s.BadSpawn? then None
      else if !KnownTarget(t, s.target) then bs
      else Some(bs.value + [SpawnBranch(idx + |bs.value|, t.nodes[s.target.id], s.reason, round)])
  }

  /** Decisions and spawns carried out; None when one of them raises. */
  function CarriedOut(t: Forest, branches: seq<Branch>, ds: seq<Decision>, ss: seq<Spawn>, round: nat, idx: nat):
      Option<seq<Branch>> {
    var dict := ById(branches);
    var p := Decide(t, dict, ds, round, |ds|);
    if p.None? then None
    else
      var spawned := Spawned(t, ss, round, idx, |ss|);
      if spawned.None? then None
      else Some(p.value.kept + Omitted(dict, p.value.seen, |dict|) + spawned.value)
  }

  /** The whole checkpoint; None when the reply makes it raise. */
  function Checkpoint(t: Forest, branches: seq<Branch>, round: nat, maxSpawn: nat, idx: nat,
                      reply: Reply): Option<seq<Branch>> {
    var plan := PlanOf(reply, maxSpawn);
    if branches == [] || plan.Unchanged? then Some(branches)
    else if plan.Refused? then None
    else CarriedOut(t, branches, plan.decisions, plan.spawns, round, idx)
  }

  /** `{b.branch_id: b for b in branches}`: a later branch takes an earlier one's place. */
  method BuildById(branches: seq<LiveBranch>) returns (byId: seq<LiveBranch>)
    ensures Views(byId) == ById(Views(branches)) && DistinctIds(Views(byId))
    ensures forall i :: 0 <= i < |byId| ==> byId[i] in branches
  {
    byId := [];
    for k := 0 to |branches|
      invariant Views(byId) == ById(Views(branches)[..k]) && DistinctIds(Views(byId))
      invariant forall i :: 0 <= i < |byId| ==> byId[i] in branches
    {
      var i := IndexOfId(byId, branches[k].id);
      ByIdStep(Views(branches), k, Views(byId), i);
      if i < |byId| {
        ViewsUpdate(byId, i, branches[k]);
        byId := byId[i := branches[k]];
      } else {
        ViewsAppend(byId, branches[k]);
        byId := byId + [branches[k]];
      }
    }
    assert Views(branches)[..|branches|] == Views(branches);
  }

  method IndexOfId(byId: seq<LiveBranch>, id: string) returns (i: nat)
    ensures i <= |byId| && (i < |byId| ==> byId[i].id == id)
    ensures forall j :: 0 <= j < i ==> byId[j].id != id
  {
    i := 0;
    while i < |byId| && byId[i].id != id
      invariant i <= |byId| && forall j :: 0 <= j < i ==> byId[j].id != id
    {
      i := i + 1;
    }
  }

  /** The loop over `decisions`, pivoting branch objects in place; None when an entry raises. */
  method ApplyDecisions(tree: EvolutionTree, byId: seq<LiveBranch>, decisions: seq<Value>, round: nat)
    returns (r: Option<(seq<LiveBranch>, set<string>)>)
    requires DistinctIds(Views(byId))
    modifies byId
    ensures r.None? <==> Decide(tree.View(), old(Views(byId)), Decisions(decisions), round, |decisions|).None?
    ensures r.Some? ==>
              Deciding(tree.View(), old(Views(byId)), byId, Decisions(decisions), round,
                       |decisions|, r.value.0, r.value.1)
  {
    ghost var t, dict, ds := tree.View(), Views(byId), Decisions(decisions);
    r := Some(([], {}));
    NothingDecided(t, byId, ds, round);
    var k := 0;
    while k < |decisions| && r.Some?
      invariant k <= |decisions| && tree.View() == t
      invariant DecidedSoFar(t, dict, byId, ds, round, k, r)
    {
      var d := DecisionOf(decisions[k]);
      assert d == ds[k];
      r := ApplyNext(tree, byId, dict, ds, round, k, d, r.value.0, r.value.1);
      k := k + 1;
    }
    if r.None? {
      DecideRaised(t, dict, ds, round, k, |ds|);
    }
  }

  /** What `k` decisions have led to: an exception, or the loop's state. */
  ghost predicate DecidedSoFar(t: Forest, dict: seq<Branch>, byId: seq<LiveBranch>, ds: seq<Decision>, round: nat,
                               k: nat, r: Option<(seq<LiveBranch>, set<string>)>)
    requires k <= |ds|
    reads if r.Some? then r.value.0 else [], byId
  {
    if r.None? then Decide(t, dict, ds, round, k).None?
    else Deciding(t, dict, byId, ds, round, k, r.value.0, r.value.1)
  }

  /** The loop's state after `k` decisions: the kept objects come from the dictionary, and all
      objects not yet named still have their first value. */
  ghost predicate Deciding(t: Forest, dict: seq<Branch>, byId: seq<LiveBranch>, ds: seq<Decision>, round: nat, k: nat,
                           kept: seq<LiveBranch>, seen: set<string>)
    requires k <= |ds|
    reads kept, byId
  {
    && DistinctIds(dict) && |byId| == |dict|
    && Decide(t, dict, ds, round, k) == Some(Progress(Views(kept), seen))
    && (forall i :: 0 <= i < |kept| ==> kept[i] in byId && kept[i].id in seen)
    && (forall i :: 0 <= i < |byId| ==> byId[i].id == dict[i].id && (byId[i].id !in seen ==> byId[i].View() == dict[i]))
  }

  lemma NothingDecided(t: Forest, byId: seq<LiveBranch>, ds: seq<Decision>, round: nat)
    requires DistinctIds(Views(byId))
    ensures Deciding(t, Views(byId), byId, ds, round, 0, [], {})
  {
    assert Views([]) == [];
  }

  /** The body of the loop; None when the decision raises. */
  method ApplyNext(tree: EvolutionTree, byId: seq<LiveBranch>, ghost dict: seq<Branch>, ghost ds: seq<Decision>,
                   round: nat,
                   ghost k: nat, d: Decision, newBranches: seq<LiveBranch>, seen: set<string>)
    returns (r: Option<(seq<LiveBranch>, set<string>)>)
    requires k < |ds| && d == ds[k]
    requires Deciding(tree.View(), dict, byId, ds, round, k, newBranches, seen)
    modifies byId
    ensures r.None? <==> Decide(tree.View(), dict, ds, round, k + 1).None?
    ensures r.Some? ==> Deciding(tree.View(), dict, byId, ds, round, k + 1, r.value.0, r.value.1)
  {
    if d.BadDecision? {
      return None;
    }
    if d.Stray? {
      return Some((newBranches, seen));
    }
    var i := IndexOfId(byId, d.branchId);
    DecideStep(tree.View(), dict, ds, round, k, Progress(Views(newBranches), seen), i);
    if i == |byId| || d.branchId in seen {
      return Some((newBranches, seen));
    }
    var named := seen + {d.branchId};
    if d.action == "kill" {
      return Some((newBranches, named));
    }
    if d.action == "pivot" && d.target.Unhashable? {
      return None;
    }
    var b := byId[i];
    forall j | 0 <= j < |byId| && j != i
      ensures byId[j] != b
    {
      assert dict[j].id != dict[i].id;
    }
    ghost var views := Views(newBranches);
    ApplyDecision(tree, b, d, round);
    assert Views(newBranches) == views;
    ViewsAppend(newBranches, b);
    r := Some((newBranches + [b], named));
  }

  /** A decision other than "kill" on its branch object. */
  method ApplyDecision(tree: EvolutionTree, b: LiveBranch, d: Decision, round: nat)
    requires d.Decision?
    modifies b
    ensures b.View() == Kept(tree.View(), old(b.View()), d, round)
  {
    if d.action == "pivot" {
      if d.target.Target? && d.target.id in tree.nodes {
        b.ResetForPivot(tree.nodes[d.target.id], d.reason, round);
      }
    }
  }

  lemma DecideStep(t: Forest, dict: seq<Branch>, ds: seq<Decision>, round: nat, k: nat, p: Progress, i: nat)
    requires k < |ds| && ds[k].Decision? && DistinctIds(dict) && Decide(t, dict, ds, round, k) == Some(p)
    requires i <= |dict| && (i < |dict| ==> dict[i].id == ds[k].branchId)
    requires forall j :: 0 <= j < i ==> dict[j].id != ds[k].branchId
    ensures Decide(t, dict, ds, round, k + 1)
         == if i == |dict| || ds[k].branchId in p.seen then Some(p)
            else if ds[k].action == "kill" then Some(Progress(p.kept, p.seen + {ds[k].branchId}))
            else if ds[k].action == "pivot" && ds[k].target.Unhashable? then None
            else Some(Progress(p.kept + [Kept(t, dict[i], ds[k], round)], p.seen + {ds[k].branchId}))
  {
    AbsentId(dict, ds[k].branchId, i);
    if i < |dict| {
      FoundAt(dict, i, ds[k].branchId);
    }
  }

  /** Branches the reply omits continue by default. */
  method AppendOmitted(byId: seq<LiveBranch>, kept: seq<LiveBranch>, seen: set<string>)
    returns (newBranches: seq<LiveBranch>)
    ensures Views(newBranches) == Views(kept) + Omitted(Views(byId), seen, |byId|)
    ensures forall i :: 0 <= i < |newBranches| ==> newBranches[i] in kept || newBranches[i] in byId
  {
    newBranches := kept;
    for k := 0 to |byId|
      invariant Views(newBranches) == Views(kept) + Omitted(Views(byId), seen, k)
      invariant forall i :: 0 <= i < |newBranches| ==> newBranches[i] in kept || newBranches[i] in byId
    {
      if byId[k].id !in seen {
        ViewsAppend(newBranches, byId[k]);
        newBranches := newBranches + [byId[k]];
      }
    }
  }

  /** The loop over `spawns`; None when an entry raises. */
  method ApplySpawns(tree: EvolutionTree, spawns: seq<Value>, round: nat, nextBranchIdx: nat)
    returns (r: Option<seq<LiveBranch>>)
    ensures r.None? <==> Spawned(tree.View(), Spawns(spawns), round, nextBranchIdx, |spawns|).None?
    ensures r.Some? ==> Spawned(tree.View(), Spawns(spawns), round, nextBranchIdx, |spawns|) == Some(Views(r.value))
    ensures r.Some? ==> DistinctObjects(r.value) && forall i :: 0 <= i < |r.value| ==> fresh(r.value[i])
  {
    var spawned: seq<LiveBranch> := [];
    var idx := nextBranchIdx;
    for k := 0 to |spawns|
      invariant Spawned(tree.View(), Spawns(spawns), round, nextBranchIdx, k) == Some(Views(spawned))
      invariant idx == nextBranchIdx + |spawned|
      invariant DistinctObjects(spawned) && forall i :: 0 <= i < |spawned| ==> fresh(spawned[i])
    {
      var s := SpawnOf(spawns[k]);
      if s.BadSpawn? {
        SpawnRaised(tree.View(), Spawns(spawns), round, nextBranchIdx, k + 1, |spawns|);
        return None;
      }
      if !s.target.Target? || s.target.id !in tree.nodes {
        continue;
      }
      var b := new LiveBranch.Spawn(idx, tree.nodes[s.target.id], s.reason, round);
      ViewsAppend(spawned, b);
      spawned := spawned + [b];
      idx := idx + 1;
    }
    r := Some(spawned);
  }

  method RunFrontierCheckpoint(tree: EvolutionTree, branches: seq<LiveBranch>, round: nat, maxSpawn: nat,
                               nextBranchIdx: nat, reply: Reply)
    returns (r: Option<seq<LiveBranch>>)
    requires DistinctObjects(branches)
    modifies branches
    ensures Checkpoint(tree.View(), old(Views(branches)), round, maxSpawn, nextBranchIdx, reply)
         == if r.None? then None else Some(Views(r.value))
    ensures r.Some? ==> DistinctObjects(r.value)
    ensures r.Some? ==> forall i :: 0 <= i < |r.value| ==> r.value[i] in branches || fresh(r.value[i])
  {
    if branches == [] || reply.NoReply? || !Truthy(reply.value) {
      return Some(branches);
    }
    var parsed := reply.value;
    if !parsed.Dict? {
      return None;
    }
    var decisions := Get(parsed, "decisions", Null);
    if !decisions.List? {
      return Some(branches);
    }
    var spawns := Get(parsed, "spawns", List([]));
    if !Sliceable(spawns) {
      return None;
    }
    r := CarryOut(tree, branches, decisions.items, Elements(Slice(spawns, maxSpawn)), round, nextBranchIdx);
  }

  method CarryOut(tree: EvolutionTree, branches: seq<LiveBranch>, decisions: seq<Value>, spawns: seq<Value>, round: nat,
                  nextBranchIdx: nat)
    returns (r: Option<seq<LiveBranch>>)
    requires DistinctObjects(branches)
    modifies branches
    ensures CarriedOut(tree.View(), old(Views(branches)), Decisions(decisions), Spawns(spawns), round, nextBranchIdx)
         == if r.None? then None else Some(Views(r.value))
    ensures r.Some? ==> DistinctObjects(r.value)
    ensures r.Some? ==> forall i :: 0 <= i < |r.value| ==> r.value[i] in branches || fresh(r.value[i])
  {
    var byId := BuildById(branches);
    var newBranches := ApplyReply(tree, byId, decisions, round);
    if newBranches.None? {
      return None;
    }
    var spawned := ApplySpawns(tree, spawns, round, nextBranchIdx);
    if spawned.None? {
      return None;
    }
    ViewsConcat(newBranches.value, spawned.value);
    r := Some(newBranches.value + spawned.value);
  }

  /** The decisions and the omitted branches together. */
  method ApplyReply(tree: EvolutionTree, byId: seq<LiveBranch>, decisions: seq<Value>, round: nat)
    returns (r: Option<seq<LiveBranch>>)
    requires DistinctIds(Views(byId))
    modifies byId
    ensures r.None? <==> Decide(tree.View(), old(Views(byId)), Decisions(decisions), round, |decisions|).None?
    ensures r.Some? ==> var p := Decide(tree.View(), old(Views(byId)), Decisions(decisions), round, |decisions|).value;
                        Views(r.value) == p.kept + Omitted(old(Views(byId)), p.seen, |byId|)
    ensures r.Some? ==> DistinctObjects(r.value) && forall i :: 0 <= i < |r.value| ==> r.value[i] in byId
  {
    ghost var dict := Views(byId);
    var decided := ApplyDecisions(tree, byId, decisions, round);
    if decided.None? {
      return None;
    }
    var (kept, seen) := decided.value;
    var newBranches := AppendOmitted(byId, kept, seen);
    OmittedSame(dict, Views(byId), seen, |byId|);
    SurvivorsDistinct(tree.View(), dict, Decisions(decisions), round, Progress(Views(kept), seen));
    ObjectsOfIds(newBranches);
    r := Some(newBranches);
  }

  lemma SurvivorsDistinct(t: Forest, dict: seq<Branch>, ds: seq<Decision>, round: nat, p: Progress)
    requires DistinctIds(dict) && Decide(t, dict, ds, round, |ds|) == Some(p)
    ensures DistinctIds(p.kept + Omitted(dict, p.seen, |dict|))
  {
    DecideMeaning(t, dict, ds, round, |ds|);
    OmittedMeaning(dict, p, |dict|);
  }

  /** One assignment to the dictionary. */
  lemma ByIdStep(branches: seq<Branch>, k: nat, dict: seq<Branch>, i: nat)
    requires k < |branches| && dict == ById(branches[..k]) && DistinctIds(dict)
    requires i <= |dict| && (i < |dict| ==> dict[i].id == branches[k].id)
    requires forall j :: 0 <= j < i ==> dict[j].id != branches[k].id
    ensures ById(branches[..k + 1]) == if i < |dict| then dict[i := branches[k]] else dict + [branches[k]]
    ensures DistinctIds(ById(branches[..k + 1]))
  {
    var init := branches[..k + 1];
    assert init[..|init| - 1] == branches[..k];
    AbsentId(dict, branches[k].id, i);
  }

  lemma AbsentId(dict: seq<Branch>, id: string, i: nat)
    requires i <= |dict| && (i < |dict| ==> dict[i].id == id) && forall j :: 0 <= j < i ==> dict[j].id != id
    ensures HasId(dict, id) <==> i < |dict|
  {
    assert i < |dict| ==> dict[i] in dict;
  }

  lemma ViewsAppend(bs: seq<LiveBranch>, b: LiveBranch)
    ensures Views(bs + [b]) == Views(bs) + [b.View()]
  {
  }

  lemma ViewsUpdate(bs: seq<LiveBranch>, i: nat, b: LiveBranch)
    requires i < |bs|
    ensures Views(bs[i := b]) == Views(bs)[i := b.View()]
  {
  }

  lemma ViewsConcat(bs: seq<LiveBranch>, cs: seq<LiveBranch>)
    ensures Views(bs + cs) == Views(bs) + Views(cs)
  {
  }

  lemma ObjectsOfIds(bs: seq<LiveBranch>)
    requires DistinctIds(Views(bs))
    ensures DistinctObjects(bs)
  {
    forall i, j | 0 <= i < j < |bs|
      ensures bs[i] != bs[j]
    {
      assert Views(bs)[i].id != Views(bs)[j].id;
    }
  }

  lemma {:induction false} OmittedSame(dict: seq<Branch>, dict': seq<Branch>, seen: set<string>, k: nat)
    requires k <= |dict| == |dict'| && forall i :: 0 <= i < |dict| ==> dict'[i].id == dict[i].id
    requires forall i :: 0 <= i < |dict| && dict[i].id !in seen ==> dict'[i] == dict[i]
    ensures Omitted(dict, seen, k) == Omitted(dict', seen, k)
  {
    if k > 0 {
      OmittedSame(dict, dict', seen, k - 1);
    }
  }

  lemma FoundAt(dict: seq<Branch>, i: nat, id: string)
    requires DistinctIds(dict) && i < |dict| && dict[i].id == id
    ensures HasId(dict, id) && Find(dict, id) == dict[i]
  {
    assert dict[i] in dict;
    FindDistinct(dict, dict[i]);
  }

  lemma {:induction false} DecideRaised(t: Forest, dict: seq<Branch>, ds: seq<Decision>, round: nat, k: nat, n: nat)
    requires k <= n <= |ds| && Decide(t, dict, ds, round, k).None?
    ensures Decide(t, dict, ds, round, n).None?
    decreases n
  {
    if k < n {
      DecideRaised(t, dict, ds, round, k, n - 1);
    }
  }

  lemma {:induction false} SpawnRaised(t: Forest, ss: seq<Spawn>, round: nat, idx: nat, k: nat, n: nat)
    requires k <= n <= |ss| && Spawned(t, ss, round, idx, k).None?
    ensures Spawned(t, ss, round, idx, n).None?
    decreases n
  {
    if k < n {
      SpawnRaised(t, ss, round, idx, k, n - 1);
    }
  }

  // ---- what the checkpoint means -------------------------------------------------------------

  /** The first of the first `k` decisions that names the branch. */
  ghost function FirstDecision(ds: seq<Decision>, id: string, k: nat): Option<Decision>
    requires k <= |ds|
  {
    if k == 0 then None
    else
      var earlier := FirstDecision(ds, id, k - 1);
      if earlier.Some? then earlier
      else if ds[k - 1].Decision? && ds[k - 1].branchId == id then Some(ds[k - 1])
      else None
  }

  /** What the reply means for one branch: None when it is killed. */
  ghost function Fate(t: Forest, ds: seq<Decision>, round: nat, k: nat, b: Branch): Option<Branch>
    requires k <= |ds|
  {
    match FirstDecision(ds, b.id, k)
    case None => Some(b)
    case Some(d) => if !d.Decision? || d.action == "kill" then None else Some(Kept(t, b, d, round))
  }

  lemma {:induction false} ByIdDistinct(branches: seq<Branch>)
    requires DistinctIds(branches)
    ensures ById(branches) == branches
    decreases |branches|
  {
    if branches != [] {
      var init, b := branches[..|branches| - 1], branches[|branches| - 1];
      ByIdDistinct(init);
      LastIsNew(branches);
      assert init + [b] == branches;
    }
  }

  lemma LastIsNew(branches: seq<Branch>)
    requires DistinctIds(branches) && branches != []
    ensures !HasId(branches[..|branches| - 1], branches[|branches| - 1].id)
  {
  }

  lemma FindDistinct(dict: seq<Branch>, b: Branch)
    requires DistinctIds(dict) && b in dict
    ensures HasId(dict, b.id) && Find(dict, b.id) == b
  {
    DistinctUnique(dict, b, Find(dict, b.id));
  }

  /** The decision loop after `k` decisions: it has seen exactly the branches named so far,
      and kept each of them at most once, in the form its first decision asks for. */
  ghost predicate DecideInvariant(t: Forest, dict: seq<Branch>, ds: seq<Decision>, round: nat, k: nat, p: Progress)
    requires k <= |ds|
  {
    && DistinctIds(p.kept)
    && (forall r :: r in p.kept ==> r.id in p.seen)
    && (forall x :: x in p.seen <==> HasId(dict, x) && FirstDecision(ds, x, k).Some?)
    && (forall b :: b in dict && b.id in p.seen && Fate(t, ds, round, k, b).Some? ==>
        Fate(t, ds, round, k, b).value in p.kept)
    && (forall r :: r in p.kept ==> Descends(t, dict, ds, round, k, r))
  }

  /** `r` is what the reply makes of some branch of `dict`. */
  ghost predicate Descends(t: Forest, dict: seq<Branch>, ds: seq<Decision>, round: nat, k: nat, r: Branch)
    requires k <= |ds|
  {
    exists b :: b in dict && Fate(t, ds, round, k, b) == Some(r)
  }

  lemma {:induction false} DecideMeaning(t: Forest, dict: seq<Branch>, ds: seq<Decision>, round: nat, k: nat)
    requires DistinctIds(dict) && k <= |ds| && Decide(t, dict, ds, round, k).Some?
    ensures DecideInvariant(t, dict, ds, round, k, Decide(t, dict, ds, round, k).value)
    decreases k
  {
    if k > 0 {
      DecideMeaning(t, dict, ds, round, k - 1);
      var p, d := Decide(t, dict, ds, round, k - 1).value, ds[k - 1];
      if d.Stray? || !HasId(dict, d.branchId) || d.branchId in p.seen {
        SkippedDecision(t, dict, ds, round, k, p);
      } else {
        HandledDecision(t, dict, ds, round, k, p);
      }
    }
  }

  /** A decision does not change the fate of a branch it does not name first. */
  lemma FateUnchanged(t: Forest, ds: seq<Decision>, round: nat, k: nat, b: Branch)
    requires 0 < k <= |ds|
    requires ds[k - 1].Decision? ==> ds[k - 1].branchId != b.id || FirstDecision(ds, b.id, k - 1).Some?
    ensures Fate(t, ds, round, k, b) == Fate(t, ds, round, k - 1, b)
  {
  }

  lemma SkippedDecision(t: Forest, dict: seq<Branch>, ds: seq<Decision>, round: nat, k: nat, p: Progress)
    requires 0 < k <= |ds| && DecideInvariant(t, dict, ds, round, k - 1, p)
    requires ds[k - 1].Decision? ==> !HasId(dict, ds[k - 1].branchId) || ds[k - 1].branchId in p.seen
    ensures DecideInvariant(t, dict, ds, round, k, p)
  {
    forall b | b in dict
      ensures Fate(t, ds, round, k, b) == Fate(t, ds, round, k - 1, b)
    {
      FateUnchanged(t, ds, round, k, b);
    }
    forall r | r in p.kept
      ensures Descends(t, dict, ds, round, k, r)
    {
      var b :| b in dict && Fate(t, ds, round, k - 1, b) == Some(r);
      assert Fate(t, ds, round, k, b) == Some(r);
    }
  }

  /** The loop state after acting on a decision that names a new branch. */
  ghost function Handle(t: Forest, dict: seq<Branch>, d: Decision, round: nat, p: Progress): Progress
    requires d.Decision? && HasId(dict, d.branchId)
  {
    Progress(if d.action == "kill" then p.kept else p.kept + [Kept(t, Find(dict, d.branchId), d, round)],
             p.seen + {d.branchId})
  }

  lemma HandledDecision(t: Forest, dict: seq<Branch>, ds: seq<Decision>, round: nat, k: nat, p: Progress)
    requires DistinctIds(dict) && 0 < k <= |ds| && ds[k - 1].Decision?
    requires DecideInvariant(t, dict, ds, round, k - 1, p)
    requires HasId(dict, ds[k - 1].branchId) && ds[k - 1].branchId !in p.seen
    ensures DecideInvariant(t, dict, ds, round, k, Handle(t, dict, ds[k - 1], round, p))
  {
    HandledSeen(t, dict, ds, round, k, p);
    HandledFates(t, dict, ds, round, k, p);
    HandledDescends(t, dict, ds, round, k, p);
  }

  lemma HandledSeen(t: Forest, dict: seq<Branch>, ds: seq<Decision>, round: nat, k: nat, p: Progress)
    requires DistinctIds(dict) && 0 < k <= |ds| && ds[k - 1].Decision?
    requires DecideInvariant(t, dict, ds, round, k - 1, p)
    requires HasId(dict, ds[k - 1].branchId) && ds[k - 1].branchId !in p.seen
    ensures var q := Handle(t, dict, ds[k - 1], round, p);
            && DistinctIds(q.kept)
            && (forall r :: r in q.kept ==> r.id in q.seen)
            && (forall x :: x in q.seen <==> HasId(dict, x) && FirstDecision(ds, x, k).Some?)
  {
    var d := ds[k - 1];
    if d.action != "kill" {
      AppendDistinct(p.kept, Kept(t, Find(dict, d.branchId), d, round));
    }
  }

  lemma HandledDescends(t: Forest, dict: seq<Branch>, ds: seq<Decision>, round: nat, k: nat, p: Progress)
    requires DistinctIds(dict) && 0 < k <= |ds| && ds[k - 1].Decision?
    requires DecideInvariant(t, dict, ds, round, k - 1, p)
    requires HasId(dict, ds[k - 1].branchId) && ds[k - 1].branchId !in p.seen
    ensures forall r :: r in Handle(t, dict, ds[k - 1], round, p).kept ==> Descends(t, dict, ds, round, k, r)
  {
    var d := ds[k - 1];
    forall r | r in p.kept
      ensures Descends(t, dict, ds, round, k, r)
    {
      assert Descends(t, dict, ds, round, k - 1, r) && r.id in p.seen;
      StillDescends(t, dict, ds, round, k, r, p.seen);
    }
    if d.action != "kill" {
      NowDescends(t, dict, ds, round, k);
    }
  }

  lemma StillDescends(t: Forest, dict: seq<Branch>, ds: seq<Decision>, round: nat, k: nat, r: Branch, seen: set<string>)
    requires 0 < k <= |ds| && ds[k - 1].Decision? && ds[k - 1].branchId !in seen && r.id in seen
    requires Descends(t, dict, ds, round, k - 1, r)
    ensures Descends(t, dict, ds, round, k, r)
  {
    var b :| b in dict && Fate(t, ds, round, k - 1, b) == Some(r);
    assert b.id == r.id;
    FateUnchanged(t, ds, round, k, b);
  }

  lemma NowDescends(t: Forest, dict: seq<Branch>, ds: seq<Decision>, round: nat, k: nat)
    requires 0 < k <= |ds| && ds[k - 1].Decision? && ds[k - 1].action != "kill"
    requires HasId(dict, ds[k - 1].branchId) && FirstDecision(ds, ds[k - 1].branchId, k - 1).None?
    ensures Descends(t, dict, ds, round, k, Kept(t, Find(dict, ds[k - 1].branchId), ds[k - 1], round))
  {
    var b := Find(dict, ds[k - 1].branchId);
    assert Fate(t, ds, round, k, b) == Some(Kept(t, b, ds[k - 1], round));
  }

  lemma HandledFates(t: Forest, dict: seq<Branch>, ds: seq<Decision>, round: nat, k: nat, p: Progress)
    requires DistinctIds(dict) && 0 < k <= |ds| && ds[k - 1].Decision?
    requires DecideInvariant(t, dict, ds, round, k - 1, p)
    requires HasId(dict, ds[k - 1].branchId) && ds[k - 1].branchId !in p.seen
    ensures var q := Handle(t, dict, ds[k - 1], round, p);
            forall b :: b in dict && b.id in q.seen && Fate(t, ds, round, k, b).Some? ==>
                Fate(t, ds, round, k, b).value in q.kept
  {
    var d := ds[k - 1];
    var q := Handle(t, dict, d, round, p);
    forall b | b in dict && b.id in q.seen && Fate(t, ds, round, k, b).Some?
      ensures Fate(t, ds, round, k, b).value in q.kept
    {
      if b.id == d.branchId {
        FindDistinct(dict, b);
        assert FirstDecision(ds, b.id, k - 1).None?;
      } else {
        FateUnchanged(t, ds, round, k, b);
      }
    }
  }

  /** The reply's effect on the existing branches. */
  ghost predicate Partitions(t: Forest, branches: seq<Branch>, ds: seq<Decision>, round: nat, kept: seq<Branch>) {
    && DistinctIds(kept)
    && (forall b :: b in branches && Fate(t, ds, round, |ds|, b).Some? ==> Fate(t, ds, round, |ds|, b).value in kept)
    && (forall r :: r in kept ==> Descends(t, branches, ds, round, |ds|, r))
  }

  /** `kept` holds what was kept before and the omitted ones of the first `k` branches, each once. */
  ghost predicate WithOmitted(dict: seq<Branch>, p: Progress, k: nat, kept: seq<Branch>)
    requires k <= |dict|
  {
    && DistinctIds(kept)
    && (forall b :: b in dict[..k] && b.id !in p.seen ==> b in kept)
    && (forall r :: r in kept ==> r in p.kept || (r in dict[..k] && r.id !in p.seen))
  }

  lemma {:induction false} OmittedMeaning(dict: seq<Branch>, p: Progress, k: nat)
    requires DistinctIds(dict) && k <= |dict| && DistinctIds(p.kept) && forall r :: r in p.kept ==> r.id in p.seen
    ensures WithOmitted(dict, p, k, p.kept + Omitted(dict, p.seen, k))
    decreases k
  {
    if k == 0 {
      assert p.kept + [] == p.kept;
    } else {
      OmittedMeaning(dict, p, k - 1);
      var kept := p.kept + Omitted(dict, p.seen, k - 1);
      var b := dict[k - 1];
      if b.id !in p.seen {
        OneMoreOmitted(dict, p, k - 1, b, kept);
        assert kept + [b] == p.kept + Omitted(dict, p.seen, k);
      } else {
        assert dict[..k] == dict[..k - 1] + [b];
        assert p.kept + Omitted(dict, p.seen, k) == kept;
      }
    }
  }

  lemma OneMoreOmitted(dict: seq<Branch>, p: Progress, j: nat, b: Branch, kept: seq<Branch>)
    requires DistinctIds(dict) && j < |dict| && dict[j] == b && b.id !in p.seen
    requires WithOmitted(dict, p, j, kept) && forall r :: r in p.kept ==> r.id in p.seen
    ensures WithOmitted(dict, p, j + 1, kept + [b])
  {
    forall r | r in kept
      ensures r.id != b.id
    {
      if r !in p.kept {
        var i :| 0 <= i < j && dict[i] == r;
      }
    }
    AppendDistinct(kept, b);
    assert dict[..j + 1] == dict[..j] + [b];
  }

  /** For any reply, each branch is either killed, or kept exactly once: in the form its first
      decision asks for when it has one, unchanged when the reply omits it. */
  lemma DecisionsPartition(t: Forest, branches: seq<Branch>, ds: seq<Decision>, round: nat)
    requires DistinctIds(branches) && Decide(t, branches, ds, round, |ds|).Some?
    ensures var p := Decide(t, branches, ds, round, |ds|).value;
            Partitions(t, branches, ds, round, p.kept + Omitted(branches, p.seen, |branches|))
  {
    DecideMeaning(t, branches, ds, round, |ds|);
    var p := Decide(t, branches, ds, round, |ds|).value;
    OmittedMeaning(branches, p, |branches|);
    assert branches[..|branches|] == branches;
    PartitionFrom(t, branches, ds, round, p, p.kept + Omitted(branches, p.seen, |branches|));
  }

  lemma PartitionFrom(t: Forest, branches: seq<Branch>, ds: seq<Decision>, round: nat, p: Progress, kept: seq<Branch>)
    requires DecideInvariant(t, branches, ds, round, |ds|, p) && DistinctIds(kept) && p.kept <= kept
    requires forall b :: b in branches && b.id !in p.seen ==> b in kept
    requires forall r :: r in kept ==> r in p.kept || (r in branches && r.id !in p.seen)
    ensures Partitions(t, branches, ds, round, kept)
  {
    forall b | b in branches && b.id !in p.seen
      ensures Fate(t, ds, round, |ds|, b) == Some(b)
    {
      assert HasId(branches, b.id);
    }
    forall r | r in kept
      ensures Descends(t, branches, ds, round, |ds|, r)
    {
      if r !in p.kept {
        assert Fate(t, ds, round, |ds|, r) == Some(r);
      }
    }
  }

  /** At most `maxSpawn` branches with consecutive fresh identifiers, each on an existing node. */
  ghost predicate FreshSpawns(t: Forest, bs: seq<Branch>, round: nat, idx: nat, maxSpawn: nat) {
    && |bs| <= maxSpawn
    && forall i :: 0 <= i < |bs| ==> FreshSpawn(t, bs[i], round, idx + i)
  }

  ghost predicate FreshSpawn(t: Forest, b: Branch, round: nat, n: nat) {
    && b.id == BranchName(n) && b.pivots == [round]
    && b.head in t.nodes && b.seed == OrElse(t.nodes[b.head].seed, "spawn")
  }

  /** Spawning hands out consecutive fresh indices, one per usable request, and at most as many
      as there are requests; every new head is the requested node. */
  lemma {:induction false} SpawnedMeaning(t: Forest, ss: seq<Spawn>, round: nat, idx: nat, k: nat)
    requires k <= |ss| && Spawned(t, ss, round, idx, k).Some? && Listed(t)
    ensures FreshSpawns(t, Spawned(t, ss, round, idx, k).value, round, idx, k)
    decreases k
  {
    if k > 0 {
      SpawnedMeaning(t, ss, round, idx, k - 1);
    }
  }

  /** All identifiers were handed out below `idx`. */
  ghost predicate NamedBelow(bs: seq<Branch>, idx: nat) {
    forall b :: b in bs ==> NameBelow(b.id, idx)
  }

  ghost predicate NameBelow(id: string, idx: nat) {
    exists n: nat :: n < idx && id == BranchName(n)
  }

  /** The result of a checkpoint: the reply partitions the old branches, at most `maxSpawn`
      branches with fresh identifiers are appended, no two live branches share an identifier,
      and every head is a node of the tree. */
  lemma CheckpointMeaning(t: Forest, branches: seq<Branch>, round: nat, maxSpawn: nat, idx: nat, reply: Reply)
    returns (kept: seq<Branch>, spawned: seq<Branch>)
    requires Listed(t) && DistinctIds(branches) && NamedBelow(branches, idx)
    requires forall b :: b in branches ==> b.head in t.nodes
    requires Checkpoint(t, branches, round, maxSpawn, idx, reply).Some?
    ensures Checkpoint(t, branches, round, maxSpawn, idx, reply) == Some(kept + spawned)
    ensures if branches == [] || PlanOf(reply, maxSpawn).Unchanged? then kept == branches && spawned == []
            else && PlanOf(reply, maxSpawn).Plan?
                 && Partitions(t, branches, PlanOf(reply, maxSpawn).decisions, round, kept)
    ensures |kept| <= |branches| && FreshSpawns(t, spawned, round, idx, maxSpawn)
    ensures DistinctIds(kept + spawned)
    ensures forall b :: b in kept + spawned ==> b.head in t.nodes
  {
    if branches == [] || PlanOf(reply, maxSpawn).Unchanged? {
      kept, spawned := branches, [];
      assert kept + spawned == branches;
    } else {
      kept, spawned := ReplyMeaning(t, branches, round, maxSpawn, idx, reply);
      KeptFew(t, branches, PlanOf(reply, maxSpawn).decisions, round, kept);
      KeptHeads(t, branches, PlanOf(reply, maxSpawn).decisions, round, kept);
      KeptNamed(t, branches, PlanOf(reply, maxSpawn).decisions, round, kept, idx);
      FreshIdsDistinct(t, kept, spawned, round, idx, maxSpawn);
      SpawnedHeads(t, spawned, round, idx, maxSpawn);
    }
  }

  lemma ReplyMeaning(t: Forest, branches: seq<Branch>, round: nat, maxSpawn: nat, idx: nat, reply: Reply)
    returns (kept: seq<Branch>, spawned: seq<Branch>)
    requires Listed(t) && DistinctIds(branches) && branches != [] && !PlanOf(reply, maxSpawn).Unchanged?
    requires Checkpoint(t, branches, round, maxSpawn, idx, reply).Some?
    ensures Checkpoint(t, branches, round, maxSpawn, idx, reply) == Some(kept + spawned)
    ensures PlanOf(reply, maxSpawn).Plan? && Partitions(t, branches, PlanOf(reply, maxSpawn).decisions, round, kept)
    ensures FreshSpawns(t, spawned, round, idx, maxSpawn)
  {
    var p, bs := CheckpointParts(t, branches, round, maxSpawn, idx, reply);
    kept, spawned := p.kept + Omitted(branches, p.seen, |branches|), bs;
    DecisionsPartition(t, branches, PlanOf(reply, maxSpawn).decisions, round);
    var ss := PlanOf(reply, maxSpawn).spawns;
    SpawnedMeaning(t, ss, round, idx, |ss|);
  }

  lemma CheckpointParts(t: Forest, branches: seq<Branch>, round: nat, maxSpawn: nat, idx: nat, reply: Reply)
    returns (p: Progress, spawned: seq<Branch>)
    requires DistinctIds(branches) && branches != [] && !PlanOf(reply, maxSpawn).Unchanged?
    requires Checkpoint(t, branches, round, maxSpawn, idx, reply).Some?
    ensures PlanOf(reply, maxSpawn).Plan? && Decide(t, branches, PlanOf(reply, maxSpawn).decisions, round,
            |PlanOf(reply, maxSpawn).decisions|) == Some(p)
    ensures var ss := PlanOf(reply, maxSpawn).spawns; Spawned(t, ss, round, idx, |ss|) == Some(spawned)
    ensures Checkpoint(t, branches, round, maxSpawn, idx, reply)
         == Some(p.kept + Omitted(branches, p.seen, |branches|) + spawned)
  {
    ByIdDistinct(branches);
    p := Decide(t, branches, PlanOf(reply, maxSpawn).decisions, round, |PlanOf(reply, maxSpawn).decisions|).value;
    var ss := PlanOf(reply, maxSpawn).spawns;
    spawned := Spawned(t, ss, round, idx, |ss|).value;
  }

  lemma SpawnedHeads(t: Forest, spawned: seq<Branch>, round: nat, idx: nat, maxSpawn: nat)
    requires FreshSpawns(t, spawned, round, idx, maxSpawn)
    ensures forall b :: b in spawned ==> b.head in t.nodes
  {
    forall b | b in spawned
      ensures b.head in t.nodes
    {
      var i :| 0 <= i < |spawned| && spawned[i] == b;
      assert FreshSpawn(t, spawned[i], round, idx + i);
    }
  }

  lemma KeptHeads(t: Forest, branches: seq<Branch>, ds: seq<Decision>, round: nat, kept: seq<Branch>)
    requires Listed(t) && Partitions(t, branches, ds, round, kept)
    requires forall b :: b in branches ==> b.head in t.nodes
    ensures forall r :: r in kept ==> r.head in t.nodes
  {
  }

  lemma KeptFew(t: Forest, branches: seq<Branch>, ds: seq<Decision>, round: nat, kept: seq<Branch>)
    requires Partitions(t, branches, ds, round, kept)
    ensures |kept| <= |branches|
  {
    var old_ := seq(|branches|, i requires 0 <= i < |branches| => branches[i].id);
    var new_ := seq(|kept|, i requires 0 <= i < |kept| => kept[i].id);
    forall i | 0 <= i < |new_|
      ensures new_[i] in old_
    {
      assert Descends(t, branches, ds, round, |ds|, kept[i]);
      var b :| b in branches && Fate(t, ds, round, |ds|, b) == Some(kept[i]);
      var j :| 0 <= j < |branches| && branches[j] == b;
      assert old_[j] == new_[i];
    }
    InjectionBound(new_, old_);
  }

  /** A duplicate-free list drawn from another list is not longer. */
  lemma {:induction false} InjectionBound<T>(xs: seq<T>, ys: seq<T>)
    requires NoDuplicates(xs) && forall x :: x in xs ==> x in ys
    ensures |xs| <= |ys|
    decreases |ys|
  {
    if xs != [] {
      var x := xs[|xs| - 1];
      assert x in ys;
      var k :| 0 <= k < |ys| && ys[k] == x;
      var rest := ys[..k] + ys[k + 1..];
      forall z | z in xs[..|xs| - 1]
        ensures z in rest
      {
        var i :| 0 <= i < |xs| - 1 && xs[i] == z;
        assert z != x && z in xs && z in ys;
        var j :| 0 <= j < |ys| && ys[j] == z;
        assert if j < k then rest[j] == z else rest[j - 1] == z;
      }
      InjectionBound(xs[..|xs| - 1], rest);
    }
  }

  /** Killing and pivoting leave identifiers alone. */
  lemma KeptNamed(t: Forest, branches: seq<Branch>, ds: seq<Decision>, round: nat, kept: seq<Branch>, idx: nat)
    requires NamedBelow(branches, idx) && Partitions(t, branches, ds, round, kept)
    ensures NamedBelow(kept, idx)
  {
    forall r | r in kept
      ensures NameBelow(r.id, idx)
    {
      assert Descends(t, branches, ds, round, |ds|, r);
      var b :| b in branches && Fate(t, ds, round, |ds|, b) == Some(r);
      assert b.id == r.id;
    }
  }

  lemma FreshApart(t: Forest, r: Branch, b: Branch, round: nat, idx: nat, n: nat)
    requires NameBelow(r.id, idx) && FreshSpawn(t, b, round, n) && idx <= n
    ensures r.id != b.id
  {
    var m: nat :| m < idx && r.id == BranchName(m);
    BranchNamesDiffer(m, n);
  }

  lemma FreshIdsDistinct(t: Forest, kept: seq<Branch>, spawned: seq<Branch>, round: nat, idx: nat, maxSpawn: nat)
    requires DistinctIds(kept) && NamedBelow(kept, idx) && FreshSpawns(t, spawned, round, idx, maxSpawn)
    ensures DistinctIds(kept + spawned)
  {
    forall i, j | 0 <= i < j < |spawned|
      ensures spawned[i].id != spawned[j].id
    {
      assert FreshSpawn(t, spawned[i], round, idx + i) && FreshSpawn(t, spawned[j], round, idx + j);
      BranchNamesDiffer(idx + i, idx + j);
    }
    forall i, j | 0 <= i < |kept| && 0 <= j < |spawned|
      ensures kept[i].id != spawned[j].id
    {
      assert FreshSpawn(t, spawned[j], round, idx + j);
      FreshApart(t, kept[i], spawned[j], round, idx, idx + j);
    }
  }
}
