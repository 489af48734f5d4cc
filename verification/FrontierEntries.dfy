/** What a checkpoint does, entry by entry of the JSON reply. */
module FrontierEntries {
  import opened JsonValues
  import opened Options
  import opened Selections
  import opened Tree
  import opened Branches
  import opened Frontier
  import opened FrontierStops

  // ---- what an entry says ----------------------------------------------------------------------------

  /** The entry asks for a node of the tree. */
  predicate Usable(t: Forest, v: Value) {
    && v.Dict? && "target_node_id" in v.entries && v.entries["target_node_id"].Text?
    && v.entries["target_node_id"].s != "" && v.entries["target_node_id"].s in t.nodes
  }

  function Asked(t: Forest, v: Value): NodeId
    requires Usable(t, v)
  {
    v.entries["target_node_id"].s
  }

  /** The start of the entry's reason; empty when there is none. */
  function HintOf(v: Value): Value
    requires v.Dict?
  {
    if "reason" !in v.entries then Text("")
    else
      match v.entries["reason"]
      case Text(s) => Text(Take(s, 500))
      case List(items) => if items == [] then Text("") else List(Take(items, 500))
      case _ => Text("")
  }

  predicate Acts(v: Value, action: string) {
    v.Dict? && "action" in v.entries && v.entries["action"] == Text(action)
  }

  predicate Pivots(t: Forest, v: Value) {
    Acts(v, "pivot") && Usable(t, v)
  }

  // ---- spawns ----------------------------------------------------------------------------------------

  /** The branch the entry asks for, with number `n`: on its target, of the target's seed, hinted by its
      reason, marked as pivoted in this round. */
  ghost predicate SpawnedFor(t: Forest, v: Value, n: nat, round: nat, b: Branch) {
    && Usable(t, v)
    && b.id == "b" + Decimal(n) && b.head == Asked(t, v)
    && b.seed == (if t.nodes[b.head].seed == "" then "spawn" else t.nodes[b.head].seed)
    && b.hint == HintOf(v) && b.pivots == [round]
  }

  function UsableOf(t: Forest, vs: seq<Value>): seq<Value> {
    Filter((v: Value) => Usable(t, v), vs)
  }

  /** One branch per usable entry, in order, numbered from `idx` on. */
  ghost predicate OnePerUsable(t: Forest, vs: seq<Value>, round: nat, idx: nat, bs: seq<Branch>) {
    && |bs| == |UsableOf(t, vs)|
    && forall i :: 0 <= i < |bs| ==> SpawnedFor(t, UsableOf(t, vs)[i], idx + i, round, bs[i])
  }

  lemma SpawnReads(t: Forest, v: Value, n: nat, round: nat)
    requires Listed(t) && !SpawnOf(v).BadSpawn?
    ensures KnownTarget(t, SpawnOf(v).target) <==> Usable(t, v)
    ensures Usable(t, v) ==>
              SpawnedFor(t, v, n, round, SpawnBranch(n, t.nodes[SpawnOf(v).target.id], SpawnOf(v).reason, round))
  {
  }

  lemma UsableStep(t: Forest, vs: seq<Value>, v: Value, round: nat, idx: nat, bs: seq<Branch>, b: Branch)
    requires OnePerUsable(t, vs, round, idx, bs) && SpawnedFor(t, v, idx + |bs|, round, b)
    ensures OnePerUsable(t, vs + [v], round, idx, bs + [b])
  {
    FilterAppend((w: Value) => Usable(t, w), vs, v);
  }

  lemma UnusableStep(t: Forest, vs: seq<Value>, v: Value, round: nat, idx: nat, bs: seq<Branch>)
    requires OnePerUsable(t, vs, round, idx, bs) && !Usable(t, v)
    ensures OnePerUsable(t, vs + [v], round, idx, bs)
  {
    FilterAppend((w: Value) => Usable(t, w), vs, v);
  }

  /** The spawn loop hands out one branch per usable entry, and nothing else. */
  lemma {:induction false} SpawnsByEntry(t: Forest, vs: seq<Value>, round: nat, idx: nat, k: nat)
    requires Listed(t) && k <= |vs| && Spawned(t, Spawns(vs), round, idx, k).Some?
    ensures OnePerUsable(t, vs[..k], round, idx, Spawned(t, Spawns(vs), round, idx, k).value)
    decreases k
  {
    if k == 0 {
      assert UsableOf(t, vs[..0]) == [];
    } else {
      SpawnsByEntry(t, vs, round, idx, k - 1);
      SpawnStep(t, vs, round, idx, k - 1, k, Spawned(t, Spawns(vs), round, idx, k - 1).value,
                Spawned(t, Spawns(vs), round, idx, k).value);
    }
  }

  lemma SpawnStep(t: Forest, vs: seq<Value>, round: nat, idx: nat, j: nat, k: nat, bs: seq<Branch>, cs: seq<Branch>)
    requires Listed(t) && k == j + 1 <= |vs| && OnePerUsable(t, vs[..j], round, idx, bs)
    requires Spawned(t, Spawns(vs), round, idx, j) == Some(bs) && Spawned(t, Spawns(vs), round, idx, k) == Some(cs)
    ensures OnePerUsable(t, vs[..k], round, idx, cs)
  {
    var v, s := vs[j], SpawnOf(vs[j]);
    assert vs[..k] == vs[..j] + [v];
    SpawnedNext(t, Spawns(vs), round, idx, j, k, bs);
    SpawnReads(t, v, idx + |bs|, round);
    if Usable(t, v) {
      UsableStep(t, vs[..j], v, round, idx, bs, SpawnBranch(idx + |bs|, t.nodes[s.target.id], s.reason, round));
    } else {
      UnusableStep(t, vs[..j], v, round, idx, bs);
    }
  }

  lemma SpawnedNext(t: Forest, ss: seq<Spawn>, round: nat, idx: nat, j: nat, k: nat, bs: seq<Branch>)
    requires k == j + 1 <= |ss| && Spawned(t, ss, round, idx, j) == Some(bs)
    ensures Spawned(t, ss, round, idx, k)
         == if ss[j].BadSpawn? then None
            else if !KnownTarget(t, ss[j].target) then Some(bs)
            else Some(bs + [SpawnBranch(idx + |bs|, t.nodes[ss[j].target.id], ss[j].reason, round)])
  {
  }

  // ---- decisions ---------------------------------------------------------------------------------------

  /** The `k`-th entry is the first that names the branch. */
  ghost predicate FirstFor(vs: seq<Value>, k: nat, id: string)
    requires k < |vs|
  {
    Names(vs[k], id) && forall j :: 0 <= j < k ==> !Names(vs[j], id)
  }

  ghost predicate Unnamed(vs: seq<Value>, id: string) {
    forall j :: 0 <= j < |vs| ==> !Names(vs[j], id)
  }

  /** What an entry that does not kill makes of a branch: a pivot to a node of the tree moves it there, with
      the node's seed if it has one, the reason as hint and the round added to its pivots; anything else
      leaves it alone. */
  ghost predicate MadeOf(t: Forest, b: Branch, v: Value, round: nat, r: Branch) {
    if Pivots(t, v) then
      && r.id == b.id && r.head == Asked(t, v)
      && r.seed == (if t.nodes[r.head].seed == "" then b.seed else t.nodes[r.head].seed)
      && r.hint == HintOf(v) && r.pivots == b.pivots + [round]
    else r == b
  }

  lemma DecisionReads(t: Forest, b: Branch, v: Value, round: nat)
    requires Listed(t) && DecisionOf(v).Decision?
    ensures DecisionOf(v).action == "kill" <==> Acts(v, "kill")
    ensures MadeOf(t, b, v, round, Kept(t, b, DecisionOf(v), round))
  {
  }

  lemma {:induction false} FirstEntry(vs: seq<Value>, id: string, n: nat, k: nat)
    requires k < n <= |vs| && FirstFor(vs, k, id) && forall j :: 0 <= j < n ==> !UnreadableDecision(vs[j])
    ensures FirstDecision(Decisions(vs), id, n) == Some(DecisionOf(vs[k])) && DecisionOf(vs[k]).Decision?
    decreases n
  {
    UnreadableIsBad(vs[k]);
    if n == k + 1 {
      FirstByName(vs, id, k);
    } else {
      FirstEntry(vs, id, n - 1, k);
    }
  }

  /** The fate of a branch, read off the entries. */
  ghost predicate FateRead(t: Forest, vs: seq<Value>, round: nat, b: Branch, fate: Option<Branch>) {
    && (Unnamed(vs, b.id) ==> fate == Some(b))
    && (forall k :: 0 <= k < |vs| && FirstFor(vs, k, b.id) ==>
          if Acts(vs[k], "kill") then fate.None? else fate.Some? && MadeOf(t, b, vs[k], round, fate.value))
  }

  lemma FateByEntry(t: Forest, vs: seq<Value>, round: nat, b: Branch)
    requires Listed(t) && forall j :: 0 <= j < |vs| ==> !UnreadableDecision(vs[j])
    ensures FateRead(t, vs, round, b, Fate(t, Decisions(vs), round, |vs|, b))
  {
    FirstByName(vs, b.id, |vs|);
    forall k | 0 <= k < |vs| && FirstFor(vs, k, b.id)
      ensures var fate := Fate(t, Decisions(vs), round, |vs|, b);
              if Acts(vs[k], "kill") then fate.None? else fate.Some? && MadeOf(t, b, vs[k], round, fate.value)
    {
      FirstEntry(vs, b.id, |vs|, k);
      DecisionReads(t, b, vs[k], round);
    }
  }

  /** What the decisions make of the branches: an unnamed branch stays, the first entry that names a branch
      kills it or gives its new value, and nobody else is kept. */
  ghost predicate Obeyed(t: Forest, branches: seq<Branch>, vs: seq<Value>, round: nat, kept: seq<Branch>) {
    && DistinctIds(kept) && (forall r :: r in kept ==> HasId(branches, r.id))
    && forall b :: b in branches ==> ObeyedFor(t, vs, round, kept, b)
  }

  ghost predicate ObeyedFor(t: Forest, vs: seq<Value>, round: nat, kept: seq<Branch>, b: Branch) {
    && (Unnamed(vs, b.id) ==> b in kept)
    && (forall k :: 0 <= k < |vs| && FirstFor(vs, k, b.id) ==>
          if Acts(vs[k], "kill") then !HasId(kept, b.id)
          else exists r :: r in kept && MadeOf(t, b, vs[k], round, r))
  }

  lemma ObeyedByPartition(t: Forest, branches: seq<Branch>, vs: seq<Value>, round: nat, kept: seq<Branch>)
    requires Listed(t) && DistinctIds(branches) && forall j :: 0 <= j < |vs| ==> !UnreadableDecision(vs[j])
    requires Partitions(t, branches, Decisions(vs), round, kept)
    ensures Obeyed(t, branches, vs, round, kept)
  {
    forall b | b in branches
      ensures ObeyedFor(t, vs, round, kept, b)
    {
      BranchObeyed(t, branches, vs, round, kept, b);
    }
    forall r | r in kept
      ensures HasId(branches, r.id)
    {
      assert Descends(t, branches, Decisions(vs), round, |vs|, r);
      var b :| b in branches && Fate(t, Decisions(vs), round, |vs|, b) == Some(r);
      assert b.id == r.id;
    }
  }

  lemma BranchObeyed(t: Forest, branches: seq<Branch>, vs: seq<Value>, round: nat, kept: seq<Branch>, b: Branch)
    requires Listed(t) && DistinctIds(branches) && forall j :: 0 <= j < |vs| ==> !UnreadableDecision(vs[j])
    requires Partitions(t, branches, Decisions(vs), round, kept) && b in branches
    ensures ObeyedFor(t, vs, round, kept, b)
  {
    FateByEntry(t, vs, round, b);
    if Fate(t, Decisions(vs), round, |vs|, b).None? {
      KilledIsAbsent(t, branches, Decisions(vs), round, kept, b);
    }
  }

  lemma KilledIsAbsent(t: Forest, branches: seq<Branch>, ds: seq<Decision>, round: nat, kept: seq<Branch>, b: Branch)
    requires DistinctIds(branches) && Partitions(t, branches, ds, round, kept) && b in branches
    requires Fate(t, ds, round, |ds|, b).None?
    ensures !HasId(kept, b.id)
  {
    forall r | r in kept
      ensures r.id != b.id
    {
      assert Descends(t, branches, ds, round, |ds|, r);
      var a :| a in branches && Fate(t, ds, round, |ds|, a) == Some(r);
      if a.id == b.id {
        DistinctUnique(branches, a, b);
      }
    }
  }

  // ---- the order of the survivors ------------------------------------------------------------------------

  /** The entry is the first on a live branch, and does not kill it. */
  ghost predicate Continues(branches: seq<Branch>, vs: seq<Value>, k: nat) {
    k < |vs| && !Acts(vs[k], "kill") && exists id :: HasId(branches, id) && FirstFor(vs, k, id)
  }

  ghost function ContinuedBy(branches: seq<Branch>, vs: seq<Value>, n: nat): seq<nat> {
    Filter((k: nat) => Continues(branches, vs, k), UpTo(n))
  }

  ghost function UnnamedOf(branches: seq<Branch>, vs: seq<Value>): seq<Branch> {
    Filter((b: Branch) => Unnamed(vs, b.id), branches)
  }

  /** `decided[i]` is what the i-th continuing entry makes of the branch it names. */
  ghost predicate InEntryOrder(t: Forest, branches: seq<Branch>, vs: seq<Value>, round: nat, n: nat,
                               decided: seq<Branch>)
    requires n <= |vs|
  {
    var ks := ContinuedBy(branches, vs, n);
    |decided| == |ks| && forall i :: 0 <= i < |ks| ==> MadeBy(t, branches, vs, round, ks[i], decided[i])
  }

  ghost predicate MadeBy(t: Forest, branches: seq<Branch>, vs: seq<Value>, round: nat, k: nat, r: Branch) {
    k < |vs| && exists b :: b in branches && Names(vs[k], b.id) && MadeOf(t, b, vs[k], round, r)
  }

  lemma EntryOrderStep(t: Forest, branches: seq<Branch>, vs: seq<Value>, round: nat, k: nat, n: nat,
                       decided: seq<Branch>, r: Branch)
    requires n == k + 1 <= |vs| && InEntryOrder(t, branches, vs, round, k, decided)
    ensures !Continues(branches, vs, k) ==> InEntryOrder(t, branches, vs, round, n, decided)
    ensures Continues(branches, vs, k) && MadeBy(t, branches, vs, round, k, r) ==>
              InEntryOrder(t, branches, vs, round, n, decided + [r])
  {
    UpToNext(k);
    FilterAppend((i: nat) => Continues(branches, vs, i), UpTo(k), k);
  }

  lemma {:induction false} DecidedInOrder(t: Forest, branches: seq<Branch>, vs: seq<Value>, round: nat, n: nat)
    requires Listed(t) && DistinctIds(branches) && n <= |vs|
    requires forall j :: 0 <= j < |vs| ==> !UnreadableDecision(vs[j])
    requires Decide(t, branches, Decisions(vs), round, n).Some?
    ensures InEntryOrder(t, branches, vs, round, n, Decide(t, branches, Decisions(vs), round, n).value.kept)
    decreases n
  {
    if n == 0 {
      assert ContinuedBy(branches, vs, 0) == [];
    } else {
      var k := n - 1;
      var p := Decide(t, branches, Decisions(vs), round, k).value;
      DecidedInOrder(t, branches, vs, round, k);
      var r := NextDecided(t, branches, vs, round, k, n, p);
      EntryOrderStep(t, branches, vs, round, k, n, p.kept, r);
    }
  }

  lemma NextDecided(t: Forest, branches: seq<Branch>, vs: seq<Value>, round: nat, k: nat, n: nat, p: Progress)
    returns (r: Branch)
    requires Listed(t) && DistinctIds(branches) && n == k + 1 <= |vs|
    requires forall j :: 0 <= j < |vs| ==> !UnreadableDecision(vs[j])
    requires Decide(t, branches, Decisions(vs), round, k) == Some(p)
    requires Decide(t, branches, Decisions(vs), round, n).Some?
    ensures Decide(t, branches, Decisions(vs), round, n).value.kept
         == if Continues(branches, vs, k) then p.kept + [r] else p.kept
    ensures Continues(branches, vs, k) ==> MadeBy(t, branches, vs, round, k, r)
  {
    var d := DecisionOf(vs[k]);
    assert Decisions(vs)[k] == d;
    DecideMeaning(t, branches, Decisions(vs), round, k);
    UnreadableIsBad(vs[k]);
    r := Branch("", "", "", Null, []);
    if d.Decision? {
      FirstByName(vs, d.branchId, k);
      assert FirstFor(vs, k, d.branchId) <==> FirstDecision(Decisions(vs), d.branchId, k).None?;
      if HasId(branches, d.branchId) && d.branchId !in p.seen {
        var b := Find(branches, d.branchId);
        r := Kept(t, b, d, round);
        DecisionReads(t, b, vs[k], round);
      }
    }
  }

  lemma {:induction false} OmittedAreUnnamed(dict: seq<Branch>, vs: seq<Value>, seen: set<string>, k: nat)
    requires k <= |dict| && forall b :: b in dict ==> (b.id in seen <==> !Unnamed(vs, b.id))
    ensures Omitted(dict, seen, k) == UnnamedOf(dict[..k], vs)
    decreases k
  {
    if k > 0 {
      OmittedAreUnnamed(dict, vs, seen, k - 1);
      assert dict[..k] == dict[..k - 1] + [dict[k - 1]];
      FilterAppend((b: Branch) => Unnamed(vs, b.id), dict[..k - 1], dict[k - 1]);
    }
  }

  lemma SeenAreNamed(t: Forest, branches: seq<Branch>, vs: seq<Value>, round: nat, p: Progress)
    requires DistinctIds(branches) && forall j :: 0 <= j < |vs| ==> !UnreadableDecision(vs[j])
    requires Decide(t, branches, Decisions(vs), round, |vs|) == Some(p)
    ensures forall b :: b in branches ==> (b.id in p.seen <==> !Unnamed(vs, b.id))
  {
    DecideMeaning(t, branches, Decisions(vs), round, |vs|);
    forall b | b in branches
      ensures b.id in p.seen <==> !Unnamed(vs, b.id)
    {
      FirstByName(vs, b.id, |vs|);
    }
  }

  // ---- the checkpoint --------------------------------------------------------------------------------------

  /** The reply is an object with a list of decisions. */
  predicate Decides(reply: Reply) {
    reply.Parsed? && reply.value.Dict? && "decisions" in reply.value.entries
    && reply.value.entries["decisions"].List?
  }

  function DecisionEntries(reply: Reply): seq<Value>
    requires Decides(reply)
  {
    reply.value.entries["decisions"].items
  }

  /** The spawns considered: the first `maxSpawn` of them. */
  function SpawnEntries(reply: Reply, maxSpawn: nat): seq<Value>
    requires Decides(reply)
  {
    var v := Get(reply.value, "spawns", List([]));
    if Sliceable(v) then Take(Elements(v), maxSpawn) else []
  }

  /** The survivors and the spawned branches are those the entries ask for: first what the deciding entries
      make of their branches, in the order of the entries, then the unnamed branches, then the spawns. */
  ghost predicate Applied(t: Forest, branches: seq<Branch>, round: nat, maxSpawn: nat, idx: nat, reply: Reply,
                          kept: seq<Branch>, spawned: seq<Branch>) {
    if !Decides(reply) then kept == branches && spawned == []
    else
      var vs := DecisionEntries(reply);
      && Obeyed(t, branches, vs, round, kept)
      && (exists decided :: kept == decided + UnnamedOf(branches, vs)
                            && InEntryOrder(t, branches, vs, round, |vs|, decided))
      && OnePerUsable(t, SpawnEntries(reply, maxSpawn), round, idx, spawned)
  }

  lemma PlanReads(reply: Reply, maxSpawn: nat)
    ensures PlanOf(reply, maxSpawn).Plan? ==>
              && Decides(reply) && PlanOf(reply, maxSpawn).decisions == Decisions(DecisionEntries(reply))
              && PlanOf(reply, maxSpawn).spawns == Spawns(SpawnEntries(reply, maxSpawn))
    ensures PlanOf(reply, maxSpawn).Unchanged? ==> !Decides(reply)
  {
    if Decides(reply) {
      var v := Get(reply.value, "spawns", List([]));
      if Sliceable(v) {
        SlicedElements(v, maxSpawn);
      }
    }
  }

  /** Whatever the reply, a checkpoint that does not raise returns what the entries ask for. */
  lemma CheckpointByEntries(t: Forest, branches: seq<Branch>, round: nat, maxSpawn: nat, idx: nat, reply: Reply)
    returns (kept: seq<Branch>, spawned: seq<Branch>)
    requires Listed(t) && DistinctIds(branches) && branches != []
    requires Checkpoint(t, branches, round, maxSpawn, idx, reply).Some?
    ensures Checkpoint(t, branches, round, maxSpawn, idx, reply) == Some(kept + spawned)
    ensures Applied(t, branches, round, maxSpawn, idx, reply, kept, spawned)
  {
    PlanReads(reply, maxSpawn);
    if PlanOf(reply, maxSpawn).Unchanged? {
      kept, spawned := branches, [];
      assert kept + spawned == branches;
    } else {
      var vs, ss := DecisionEntries(reply), SpawnEntries(reply, maxSpawn);
      var p;
      p, spawned := CheckpointParts(t, branches, round, maxSpawn, idx, reply);
      kept := p.kept + Omitted(branches, p.seen, |branches|);
      DecisionsApplied(t, branches, vs, round, p);
      SpawnsByEntry(t, ss, round, idx, |ss|);
      assert ss[..|ss|] == ss;
    }
  }

  lemma DecisionsApplied(t: Forest, branches: seq<Branch>, vs: seq<Value>, round: nat, p: Progress)
    requires Listed(t) && DistinctIds(branches) && Decide(t, branches, Decisions(vs), round, |vs|) == Some(p)
    ensures var kept := p.kept + Omitted(branches, p.seen, |branches|);
            Obeyed(t, branches, vs, round, kept) && kept == p.kept + UnnamedOf(branches, vs)
    ensures InEntryOrder(t, branches, vs, round, |vs|, p.kept)
  {
    DecideRaises(t, branches, vs, round, |vs|);
    DecisionsPartition(t, branches, Decisions(vs), round);
    ObeyedByPartition(t, branches, vs, round, p.kept + Omitted(branches, p.seen, |branches|));
    DecidedInOrder(t, branches, vs, round, |vs|);
    SeenAreNamed(t, branches, vs, round, p);
    OmittedAreUnnamed(branches, vs, p.seen, |branches|);
    assert branches[..|branches|] == branches;
  }
}
