/** Which replies make the frontier checkpoint raise, in terms of the JSON they hold. */
module FrontierStops {
  import opened JsonValues
  import opened Options
  import opened Tree
  import opened Branches
  import opened Frontier

  // ---- the shapes ----------------------------------------------------------------------------------

  /** The reason is neither empty nor something that can be sliced. */
  predicate BadReason(v: Value)
    requires v.Dict?
  {
    Truthy(Get(v, "reason", Null)) && !Sliceable(Get(v, "reason", Null))
  }

  /** The target is a non-empty list or object, which cannot be looked up. */
  predicate BadTarget(v: Value)
    requires v.Dict?
  {
    Truthy(Get(v, "target_node_id", Null)) && !Hashable(Get(v, "target_node_id", Null))
  }

  /** The loop cannot read the entry: it is no object, its reason cannot be sliced, or its branch
      identifier is a list or an object. */
  predicate UnreadableDecision(v: Value) {
    !v.Dict? || BadReason(v) || !Hashable(Get(v, "branch_id", Text("")))
  }

  predicate UnreadableSpawn(v: Value) {
    !v.Dict? || BadReason(v) || BadTarget(v)
  }

  /** The entry names the branch. */
  predicate Names(v: Value, id: string) {
    v.Dict? && Get(v, "branch_id", Text("")) == Text(id)
  }

  /** The `k`-th entry is the first on a live branch, and pivots it to a target that cannot be
      looked up. */
  ghost predicate Misdirects(branches: seq<Branch>, vs: seq<Value>, k: nat)
    requires k < |vs|
  {
    && vs[k].Dict? && Get(vs[k], "action", Text("continue")) == Text("pivot") && BadTarget(vs[k])
    && exists id :: Names(vs[k], id) && HasId(branches, id) && forall j :: 0 <= j < k ==> !Names(vs[j], id)
  }

  ghost predicate DecisionsRaise(branches: seq<Branch>, vs: seq<Value>) {
    exists k :: 0 <= k < |vs| && (UnreadableDecision(vs[k]) || Misdirects(branches, vs, k))
  }

  ghost predicate SpawnsRaise(v: Value, maxSpawn: nat) {
    || !Sliceable(v)
    || exists k :: 0 <= k < |Elements(v)| && k < maxSpawn && UnreadableSpawn(Elements(v)[k])
  }

  /** The reply is JSON that is not empty, and it is no object; or it holds a list of decisions, and
      one of them or one of the spawns considered raises. */
  ghost predicate Raises(branches: seq<Branch>, reply: Reply, maxSpawn: nat) {
    && reply.Parsed? && Truthy(reply.value)
    && (reply.value.Dict? ==>
          && Get(reply.value, "decisions", Null).List?
          && (|| DecisionsRaise(branches, Get(reply.value, "decisions", Null).items)
              || SpawnsRaise(Get(reply.value, "spawns", List([])), maxSpawn)))
  }

  // ---- the decision loop -----------------------------------------------------------------------------

  lemma UnreadableIsBad(v: Value)
    ensures DecisionOf(v).BadDecision? <==> UnreadableDecision(v)
    ensures SpawnOf(v).BadSpawn? <==> UnreadableSpawn(v)
    ensures forall id :: (DecisionOf(v).Decision? && DecisionOf(v).branchId == id) <==>
            Names(v, id) && !UnreadableDecision(v)
  {
  }

  /** One of the first `n` entries raises. */
  ghost predicate RaisedBy(branches: seq<Branch>, vs: seq<Value>, n: nat)
    requires n <= |vs|
  {
    exists k :: 0 <= k < n && (UnreadableDecision(vs[k]) || Misdirects(branches, vs, k))
  }

  lemma {:induction false} FirstByName(vs: seq<Value>, id: string, n: nat)
    requires n <= |vs| && forall k :: 0 <= k < n ==> !UnreadableDecision(vs[k])
    ensures FirstDecision(Decisions(vs), id, n).None? <==> forall j :: 0 <= j < n ==> !Names(vs[j], id)
  {
    if n > 0 {
      FirstByName(vs, id, n - 1);
      UnreadableIsBad(vs[n - 1]);
    }
  }

  lemma RaisedByNext(branches: seq<Branch>, vs: seq<Value>, k: nat, n: nat)
    requires n == k + 1 <= |vs|
    ensures RaisedBy(branches, vs, n) <==>
            RaisedBy(branches, vs, k) || UnreadableDecision(vs[k]) || Misdirects(branches, vs, k)
  {
  }

  /** Whether the next entry raises, once the earlier ones have been read. */
  lemma NextRaises(t: Forest, branches: seq<Branch>, vs: seq<Value>, round: nat, k: nat, p: Progress)
    requires DistinctIds(branches) && k < |vs| && !UnreadableDecision(vs[k])
    requires forall j :: 0 <= j < k ==> !UnreadableDecision(vs[j])
    requires Decide(t, branches, Decisions(vs), round, k) == Some(p)
    ensures var d := DecisionOf(vs[k]);
            Misdirects(branches, vs, k) <==>
            && d.Decision? && HasId(branches, d.branchId) && d.branchId !in p.seen
            && d.action == "pivot" && d.target.Unhashable?
  {
    var d := DecisionOf(vs[k]);
    DecideMeaning(t, branches, Decisions(vs), round, k);
    UnreadableIsBad(vs[k]);
    if d.Decision? {
      FirstByName(vs, d.branchId, k);
    }
  }

  lemma {:induction false} DecideRaises(t: Forest, branches: seq<Branch>, vs: seq<Value>, round: nat, n: nat)
    requires DistinctIds(branches) && n <= |vs|
    ensures Decide(t, branches, Decisions(vs), round, n).None? <==> RaisedBy(branches, vs, n)
    decreases n
  {
    if n > 0 {
      var k := n - 1;
      DecideRaises(t, branches, vs, round, k);
      RaisedByNext(branches, vs, k, n);
      UnreadableIsBad(vs[k]);
      if !RaisedBy(branches, vs, k) && !UnreadableDecision(vs[k]) {
        NextRaises(t, branches, vs, round, k, Decide(t, branches, Decisions(vs), round, k).value);
      }
    }
  }

  lemma {:induction false} SpawnRaises(t: Forest, vs: seq<Value>, round: nat, idx: nat, n: nat)
    requires n <= |vs|
    ensures Spawned(t, Spawns(vs), round, idx, n).None? <==> exists k :: 0 <= k < n && UnreadableSpawn(vs[k])
    decreases n
  {
    if n > 0 {
      SpawnRaises(t, vs, round, idx, n - 1);
      UnreadableIsBad(vs[n - 1]);
    }
  }

  /** Slicing and then looping visits the first elements. */
  lemma SlicedElements(v: Value, n: nat)
    requires Sliceable(v)
    ensures Elements(Slice(v, n)) == Take(Elements(v), n)
  {
  }

  // ---- the checkpoint ------------------------------------------------------------------------------------

  /** The dictionary names the same branches, each once. */
  lemma {:induction false} ByIdNames(branches: seq<Branch>)
    ensures DistinctIds(ById(branches)) && forall id :: HasId(ById(branches), id) <==> HasId(branches, id)
    decreases |branches|
  {
    if branches != [] {
      var init, b := branches[..|branches| - 1], branches[|branches| - 1];
      ByIdNames(init);
      assert init + [b] == branches;
      HasIdAppend(init, b);
      if HasId(ById(init), b.id) {
        Replaced(ById(init), b);
      } else {
        AppendDistinct(ById(init), b);
        HasIdAppend(ById(init), b);
      }
    }
  }

  lemma HasIdAppend(bs: seq<Branch>, b: Branch)
    ensures forall id :: HasId(bs + [b], id) <==> HasId(bs, id) || id == b.id
  {
    assert forall c :: c in bs + [b] <==> c in bs || c == b;
  }

  lemma Replaced(dict: seq<Branch>, b: Branch)
    requires DistinctIds(dict) && HasId(dict, b.id)
    ensures var r := seq(|dict|, i requires 0 <= i < |dict| => if dict[i].id == b.id then b else dict[i]);
            DistinctIds(r) && forall id :: HasId(r, id) <==> HasId(dict, id)
  {
    var r := seq(|dict|, i requires 0 <= i < |dict| => if dict[i].id == b.id then b else dict[i]);
    assert forall i :: 0 <= i < |dict| ==> r[i].id == dict[i].id;
    forall id
      ensures HasId(r, id) <==> HasId(dict, id)
    {
      if HasId(dict, id) {
        var i :| 0 <= i < |dict| && dict[i].id == id;
        assert r[i] in r;
      }
      if HasId(r, id) {
        var i :| 0 <= i < |r| && r[i].id == id;
        assert dict[i] in dict;
      }
    }
  }

  lemma SameMisdirections(dict: seq<Branch>, branches: seq<Branch>, vs: seq<Value>)
    requires forall id :: HasId(dict, id) <==> HasId(branches, id)
    ensures RaisedBy(dict, vs, |vs|) <==> DecisionsRaise(branches, vs)
  {
    assert forall k :: 0 <= k < |vs| ==> (Misdirects(dict, vs, k) <==> Misdirects(branches, vs, k));
  }

  lemma PlanRaises(t: Forest, branches: seq<Branch>, round: nat, maxSpawn: nat, idx: nat, reply: Reply,
                   vs: seq<Value>, spawns: Value)
    requires branches != [] && PlanOf(reply, maxSpawn).Plan?
    requires vs == Get(reply.value, "decisions", Null).items && spawns == Get(reply.value, "spawns", List([]))
    ensures Checkpoint(t, branches, round, maxSpawn, idx, reply).None? <==>
            DecisionsRaise(branches, vs) || SpawnsRaise(spawns, maxSpawn)
  {
    var dict, ss := ById(branches), Elements(Slice(spawns, maxSpawn));
    ByIdNames(branches);
    DecideRaises(t, dict, vs, round, |vs|);
    SameMisdirections(dict, branches, vs);
    SpawnRaises(t, ss, round, idx, |ss|);
    SlicedElements(spawns, maxSpawn);
    SpawnsCut(spawns, maxSpawn);
  }

  /** The checkpoint raises if and only if the reply has one of these shapes. Everything else leaves
      the branches alone or is carried out. */
  lemma CheckpointRaises(t: Forest, branches: seq<Branch>, round: nat, maxSpawn: nat, idx: nat, reply: Reply)
    requires branches != []
    ensures Checkpoint(t, branches, round, maxSpawn, idx, reply).None? <==> Raises(branches, reply, maxSpawn)
  {
    if PlanOf(reply, maxSpawn).Plan? {
      PlanRaises(t, branches, round, maxSpawn, idx, reply,
                 Get(reply.value, "decisions", Null).items, Get(reply.value, "spawns", List([])));
    } else {
      NoPlan(reply, maxSpawn, branches);
    }
  }

  lemma NoPlan(reply: Reply, maxSpawn: nat, branches: seq<Branch>)
    requires !PlanOf(reply, maxSpawn).Plan?
    ensures PlanOf(reply, maxSpawn).Refused? <==> Raises(branches, reply, maxSpawn)
  {
  }

  lemma SpawnsCut(v: Value, maxSpawn: nat)
    requires Sliceable(v)
    ensures SpawnsRaise(v, maxSpawn) <==>
            exists k :: 0 <= k < |Take(Elements(v), maxSpawn)| && UnreadableSpawn(Take(Elements(v), maxSpawn)[k])
  {
    var all, cut := Elements(v), Take(Elements(v), maxSpawn);
    assert forall k :: 0 <= k < |cut| ==> cut[k] == all[k];
  }

  /** A reply that is an array, however well its entries are formed, raises; an empty one does not. */
  lemma ArrayReply(branches: seq<Branch>, items: seq<Value>, maxSpawn: nat)
    ensures Raises(branches, Parsed(List(items)), maxSpawn) <==> items != []
  {
  }
}
