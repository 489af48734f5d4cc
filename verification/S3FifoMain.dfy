/** What an eviction from the main list of S3-FIFO nominates, in closed form. */
module S3FifoMain {
  import opened FolioLists
  import opened Options
  import opened Selections
  import opened S3Fifo
  import opened S3FifoLaws

  // ---- one pass ------------------------------------------------------------------------------------

  /** The pass may judge the folio: its page is clean and on an LRU list, and it has metadata. */
  predicate Judged(pages: Pages, meta: MetaMap, f: Folio) {
    && pages(f).uptodate && pages(f).lru && !pages(f).dirty && !pages(f).writeback
    && f in meta
  }

  /** The folios of `list` that are judged and were used at most `bound` times, or all the others. */
  function UsedAtMost(pages: Pages, meta: MetaMap, bound: int, list: seq<Folio>, wanted: bool): seq<Folio> {
    Filter(f => (Judged(pages, meta, f) && meta[f].freq <= bound) == wanted, list)
  }

  /** Every judged folio of `seen` is one step colder; nothing else has changed. */
  ghost predicate Lowered(pages: Pages, meta: MetaMap, seen: seq<Folio>, m: MetaMap) {
    && m.Keys == meta.Keys
    && forall f :: f in meta ==>
         m[f] == if f in seen && Judged(pages, meta, f) then meta[f].(freq := meta[f].freq - 1) else meta[f]
  }

  ghost predicate Once(list: seq<Folio>) {
    forall i, j :: 0 <= i < j < |list| ==> list[i] != list[j]
  }

  lemma UsedStep(pages: Pages, meta: MetaMap, bound: int, f: Folio, list: seq<Folio>, wanted: bool)
    ensures UsedAtMost(pages, meta, bound, [f] + list, wanted)
         == (if (Judged(pages, meta, f) && meta[f].freq <= bound) == wanted then [f] else [])
            + UsedAtMost(pages, meta, bound, list, wanted)
  {
    FilterPrepend(g => (Judged(pages, meta, g) && meta[g].freq <= bound) == wanted, f, list);
  }

  /** Frequencies that are lower by `d` meet bounds that are lower by `d`. */
  lemma UsedShifted(pages: Pages, meta: MetaMap, m: MetaMap, bound: int, d: int, list: seq<Folio>, wanted: bool)
    requires m.Keys == meta.Keys
    requires forall f :: f in list && Judged(pages, meta, f) ==> m[f].freq == meta[f].freq - d
    ensures UsedAtMost(pages, m, bound - d, list, wanted) == UsedAtMost(pages, meta, bound, list, wanted)
  {
    FilterAgree(f => (Judged(pages, m, f) && m[f].freq <= bound - d) == wanted,
                f => (Judged(pages, meta, f) && meta[f].freq <= bound) == wanted, list);
  }

  /** The pass saw the nodes `seen`, in list order: it nominates exactly the judged ones used at most
      `id` times before the pass, and makes every judged one a step colder. */
  ghost predicate PassSorts(id: nat, pages: Pages, meta: MetaMap, list: seq<Folio>, seen: seq<Folio>, r: Scan) {
    && list == seen + r.left
    && r.out == UsedAtMost(pages, meta, id, seen, true) && r.kept == UsedAtMost(pages, meta, id, seen, false)
    && Lowered(pages, meta, seen, r.meta)
  }

  lemma {:induction false} MainScanMeaning(id: nat, pages: Pages, meta: MetaMap, list: seq<Folio>, room: nat,
                                           budget: nat)
    returns (seen: seq<Folio>)
    requires Once(list)
    ensures var r := Scanned(EvictMainIterFn(id), pages, meta, list, room, budget);
            && PassSorts(id, pages, meta, list, seen, r) && |r.out| <= room && |seen| <= budget
            && (r.left == [] || |r.out| == room || |seen| == budget)
    decreases |list|
  {
    if list == [] || room == 0 || budget == 0 {
      seen := [];
    } else {
      var f, tail := list[0], list[1..];
      var (evict, m) := Call(EvictMainIterFn(id), pages, meta, f);
      var less := if evict then room - 1 else room;
      var rest := MainScanMeaning(id, pages, m, tail, less, budget - 1);
      assert list == [f] + tail;
      PassStep(id, pages, meta, f, tail, rest, Scanned(EvictMainIterFn(id), pages, m, tail, less, budget - 1));
      seen := [f] + rest;
    }
  }

  lemma PassStep(id: nat, pages: Pages, meta: MetaMap, f: Folio, tail: seq<Folio>, rest: seq<Folio>, r: Scan)
    requires Once([f] + tail)
    requires PassSorts(id, pages, Call(EvictMainIterFn(id), pages, meta, f).1, tail, rest, r)
    ensures PassSorts(id, pages, meta, [f] + tail, [f] + rest,
                      if Call(EvictMainIterFn(id), pages, meta, f).0 then r.(out := [f] + r.out)
                      else r.(kept := [f] + r.kept))
  {
    NotAgain(f, tail, rest, r.left);
    CallLowers(id, pages, meta, f);
    LoweredMore(id, pages, meta, f, rest, r.meta);
    SortedMore(id, pages, meta, f, rest, true);
    SortedMore(id, pages, meta, f, rest, false);
    assert [f] + tail == ([f] + rest) + r.left;
  }

  lemma NotAgain(f: Folio, tail: seq<Folio>, rest: seq<Folio>, left: seq<Folio>)
    requires Once([f] + tail) && tail == rest + left
    ensures f !in rest
  {
    var list := [f] + tail;
    forall i | 0 <= i < |rest|
      ensures rest[i] != f
    {
      assert list[i + 1] == rest[i] && list[0] == f;
    }
  }

  lemma CallLowers(id: nat, pages: Pages, meta: MetaMap, f: Folio)
    ensures var (evict, m) := Call(EvictMainIterFn(id), pages, meta, f);
            && (evict <==> Judged(pages, meta, f) && meta[f].freq <= id)
            && m == if Judged(pages, meta, f) then meta[f := meta[f].(freq := meta[f].freq - 1)] else meta
  {
  }

  lemma LoweredMore(id: nat, pages: Pages, meta: MetaMap, f: Folio, rest: seq<Folio>, last: MetaMap)
    requires f !in rest && Lowered(pages, Call(EvictMainIterFn(id), pages, meta, f).1, rest, last)
    ensures Lowered(pages, meta, [f] + rest, last)
  {
    CallLowers(id, pages, meta, f);
    assert forall g :: g in [f] + rest <==> g == f || g in rest;
  }

  lemma SortedMore(id: nat, pages: Pages, meta: MetaMap, f: Folio, rest: seq<Folio>, wanted: bool)
    requires f !in rest
    ensures UsedAtMost(pages, meta, id, [f] + rest, wanted)
         == (if Call(EvictMainIterFn(id), pages, meta, f).0 == wanted then [f] else [])
            + UsedAtMost(pages, Call(EvictMainIterFn(id), pages, meta, f).1, id, rest, wanted)
  {
    CallLowers(id, pages, meta, f);
    UsedStep(pages, meta, id, f, rest, wanted);
    UsedShifted(pages, meta, Call(EvictMainIterFn(id), pages, meta, f).1, id, 0, rest, wanted);
  }

  // ---- the four passes -----------------------------------------------------------------------------

  function Take(xs: seq<Folio>, n: nat): seq<Folio> {
    if n < |xs| then xs[..n] else xs
  }

  /** What the passes from the `id`-th on look for: pass `id` sees frequencies lowered `id` times, so it
      takes the folios first used at most `2 * id` times. */
  function Wanted(pages: Pages, s: State, id: nat): seq<Folio>
    requires id <= 4
    decreases 4 - id
  {
    if id == 4 then [] else UsedAtMost(pages, s.meta, 2 * id, s.main, true) + Wanted(pages, s, id + 1)
  }

  /** `u` is `s` after `id` unfilled passes over the main list. */
  ghost predicate Passed(pages: Pages, s: State, u: State, id: nat) {
    && u.main == s.main && u.meta.Keys == s.meta.Keys
    && forall f :: f in s.main && Judged(pages, s.meta, f) ==> u.meta[f].freq == s.meta[f].freq - id
  }

  /** One pass either fills the request with the first folios it looks for, or nominates all of them
      and leaves the list as it was. */
  ghost predicate PassTakes(pages: Pages, s: State, id: nat, room: nat, v: State, out: seq<Folio>) {
    var all := UsedAtMost(pages, s.meta, 2 * id, s.main, true);
    out == Take(all, room) && (|out| < room ==> out == all && Passed(pages, s, v, id + 1))
  }

  lemma OnePass(s: State, u: State, pages: Pages, id: nat, room: nat)
    requires Once(s.main) && Passed(pages, s, u, id)
    ensures PassTakes(pages, s, id, room, MainPass(u, pages, id, room, None).0, MainPass(u, pages, id, room, None).1)
  {
    var r := Scanned(EvictMainIterFn(id), pages, u.meta, u.main, room, |u.main|);
    var seen := MainScanMeaning(id, pages, u.meta, u.main, room, |u.main|);
    PassOut(s, u, pages, id, seen, r);
    if |r.out| < room {
      AllSeen(u, pages, id, room, seen, r);
      PassedMore(s, u, pages, id, r.meta, MainPass(u, pages, id, room, None).0);
    }
  }

  /** In terms of the first frequencies, the pass nominated the start of what it looks for. */
  lemma PassOut(s: State, u: State, pages: Pages, id: nat, seen: seq<Folio>, r: Scan)
    requires Passed(pages, s, u, id) && PassSorts(id, pages, u.meta, u.main, seen, r)
    ensures r.out == Take(UsedAtMost(pages, s.meta, 2 * id, s.main, true), |r.out|)
    ensures r.left == [] ==> r.out == UsedAtMost(pages, s.meta, 2 * id, s.main, true)
  {
    UsedShifted(pages, s.meta, u.meta, 2 * id, id, seen, true);
    UsedParts(pages, s.meta, 2 * id, seen, r.left);
  }

  lemma AllSeen(u: State, pages: Pages, id: nat, room: nat, seen: seq<Folio>, r: Scan)
    requires r == Scanned(EvictMainIterFn(id), pages, u.meta, u.main, room, |u.main|)
    requires u.main == seen + r.left && (r.left == [] || |seen| == |u.main|)
    ensures r.left == [] && seen == u.main
    ensures MainPass(u, pages, id, room, None).0 == u.(meta := r.meta)
  {
    assert r.left == [];
    assert u.main[..|u.main|] == u.main;
  }

  lemma PassedMore(s: State, u: State, pages: Pages, id: nat, m: MetaMap, v: State)
    requires Passed(pages, s, u, id) && Lowered(pages, u.meta, u.main, m) && v == u.(meta := m)
    ensures Passed(pages, s, v, id + 1)
  {
  }

  lemma UsedParts(pages: Pages, meta: MetaMap, bound: int, xs: seq<Folio>, ys: seq<Folio>)
    ensures UsedAtMost(pages, meta, bound, xs + ys, true)
         == UsedAtMost(pages, meta, bound, xs, true) + UsedAtMost(pages, meta, bound, ys, true)
  {
    FilterConcat(f => (Judged(pages, meta, f) && meta[f].freq <= bound) == true, xs, ys);
  }

  lemma TakeMore(out: seq<Folio>, xs: seq<Folio>, ys: seq<Folio>, n: nat)
    requires |out| <= n
    ensures |xs| < n - |out| ==> out + Take(xs + ys, n - |out|) == (out + xs) + Take(ys, n - |out + xs|)
    ensures |xs| >= n - |out| ==> Take(xs + ys, n - |out|) == Take(xs, n - |out|)
  {
  }

  /** From pass `id` on, the passes add the first missing folios of what they look for. */
  ghost predicate PassesAdd(s: State, u: State, pages: Pages, request: nat, limits: nat -> Option<nat>, id: nat,
                            out: seq<Folio>)
    requires id < 4 && |out| <= request
  {
    MainPasses(u, pages, request, limits, id, out).1 == out + Take(Wanted(pages, s, id), request - |out|)
  }

  lemma {:induction false} PassesNominate(s: State, u: State, pages: Pages, request: nat, limits: nat -> Option<nat>,
                                          id: nat, out: seq<Folio>)
    requires Once(s.main) && Passed(pages, s, u, id) && id < 4 && |out| <= request
    requires id > 0 ==> |out| < request
    requires forall i :: 0 <= i < 4 ==> limits(i).None?
    ensures PassesAdd(s, u, pages, request, limits, id, out)
    decreases 4 - id
  {
    var (v, more) := MainPass(u, pages, id, request - |out|, None);
    OnePass(s, u, pages, id, request - |out|);
    if |out + more| < request && id < 3 {
      PassesNominate(s, v, pages, request, limits, id + 1, out + more);
    }
    OnePassAdds(s, u, pages, request, limits, id, out, v, more);
  }

  lemma OnePassAdds(s: State, u: State, pages: Pages, request: nat, limits: nat -> Option<nat>, id: nat,
                    out: seq<Folio>, v: State, more: seq<Folio>)
    requires id < 4 && |out| <= request && (id > 0 ==> |out| < request) && limits(id).None?
    requires (v, more) == MainPass(u, pages, id, request - |out|, None)
    requires PassTakes(pages, s, id, request - |out|, v, more)
    requires |out + more| < request && id < 3 ==> PassesAdd(s, v, pages, request, limits, id + 1, out + more)
    ensures PassesAdd(s, u, pages, request, limits, id, out)
  {
    PassesStep(u, pages, request, limits, id, out);
    WantedStep(pages, s, id, request, out, v, more);
  }

  lemma WantedStep(pages: Pages, s: State, id: nat, request: nat, out: seq<Folio>, v: State, more: seq<Folio>)
    requires id < 4 && |out| <= request && PassTakes(pages, s, id, request - |out|, v, more)
    ensures |out + more| <= request
    ensures out + Take(Wanted(pages, s, id), request - |out|)
         == if |out + more| < request && id < 3
            then (out + more) + Take(Wanted(pages, s, id + 1), request - |out + more|) else out + more
  {
    TakeMore(out, UsedAtMost(pages, s.meta, 2 * id, s.main, true), Wanted(pages, s, id + 1), request);
  }

  /** An eviction from the main list, no scan failing, nominates the first `request` of: the judged
      folios never used, in list order; then those used at most twice; then those used at most four
      times; then those used at most six times. A folio may be nominated by several passes. */
  lemma MainEvictionNominates(s: State, pages: Pages, request: nat, limits: nat -> Option<nat>)
    requires OneNodeEach(s) && forall i :: 0 <= i < 4 ==> limits(i).None?
    ensures MainPasses(s, pages, request, limits, 0, []).1
         == Take(UsedAtMost(pages, s.meta, 0, s.main, true) + (UsedAtMost(pages, s.meta, 2, s.main, true)
                 + (UsedAtMost(pages, s.meta, 4, s.main, true) + UsedAtMost(pages, s.meta, 6, s.main, true))), request)
  {
    AllPasses(s, pages, request, limits);
    WantedFrom(pages, s, 0, 1);
    WantedFrom(pages, s, 1, 2);
    WantedFrom(pages, s, 2, 3);
  }

  lemma WantedFrom(pages: Pages, s: State, id: nat, next: nat)
    requires next == id + 1 < 4
    ensures Wanted(pages, s, id) == UsedAtMost(pages, s.meta, 2 * id, s.main, true)
         + if next < 3 then Wanted(pages, s, next) else UsedAtMost(pages, s.meta, 6, s.main, true)
  {
    assert Wanted(pages, s, 3) == UsedAtMost(pages, s.meta, 6, s.main, true) + Wanted(pages, s, 4);
  }

  lemma AllPasses(s: State, pages: Pages, request: nat, limits: nat -> Option<nat>)
    requires OneNodeEach(s) && forall i :: 0 <= i < 4 ==> limits(i).None?
    ensures MainPasses(s, pages, request, limits, 0, []).1 == Take(Wanted(pages, s, 0), request)
  {
    OneNodeOnce(s);
    NotYetPassed(pages, s);
    PassesNominate(s, s, pages, request, limits, 0, []);
    NothingBefore(Take(Wanted(pages, s, 0), request));
  }

  lemma NotYetPassed(pages: Pages, s: State)
    ensures Passed(pages, s, s, 0)
  {
  }

  lemma NothingBefore(xs: seq<Folio>)
    ensures [] + xs == xs
  {
  }

  lemma OneNodeOnce(s: State)
    requires OneNodeEach(s)
    ensures Once(s.main)
  {
    forall i, j | 0 <= i < j < |s.main|
      ensures s.main[i] != s.main[j]
    {
      assert s.main == s.main[..i] + [s.main[i]] + s.main[i + 1..j] + [s.main[j]] + s.main[j + 1..];
      assert Nodes(s)[s.main[i]] <= 1;
    }
  }

  /** Colder folios go first: when a folio used more than `2 * id` times is nominated, so is every judged
      folio of the list used at most `2 * id` times. */
  lemma ColderGoFirst(s: State, pages: Pages, request: nat, limits: nat -> Option<nat>, id: nat, f: Folio, g: Folio)
    requires OneNodeEach(s) && forall i :: 0 <= i < 4 ==> limits(i).None?
    requires f in MainPasses(s, pages, request, limits, 0, []).1
    requires id < 3 && f in s.meta && s.meta[f].freq > 2 * id
    requires g in s.main && Judged(pages, s.meta, g) && s.meta[g].freq <= 2 * id
    ensures g in MainPasses(s, pages, request, limits, 0, []).1
  {
    AllPasses(s, pages, request, limits);
    ColdPrefix(s, pages, request, id, 0, f, g);
  }

  lemma {:induction false} ColdPrefix(s: State, pages: Pages, n: nat, id: nat, from: nat, f: Folio, g: Folio)
    requires from <= id < 4 && f in Take(Wanted(pages, s, from), n) && f in s.meta && s.meta[f].freq > 2 * id
    requires g in s.main && Judged(pages, s.meta, g) && s.meta[g].freq <= 2 * id
    ensures g in Take(Wanted(pages, s, from), n)
    decreases id - from
  {
    var all, rest := UsedAtMost(pages, s.meta, 2 * from, s.main, true), Wanted(pages, s, from + 1);
    UsedExactly(pages, s.meta, 2 * from, s.main, f);
    UsedExactly(pages, s.meta, 2 * from, s.main, g);
    BeyondFirst(all, rest, n, f);
    if from < id {
      ColdPrefix(s, pages, n - |all|, id, from + 1, f, g);
    }
    FirstOrLater(all, rest, n, g);
  }

  lemma BeyondFirst(xs: seq<Folio>, ys: seq<Folio>, n: nat, f: Folio)
    requires f in Take(xs + ys, n) && f !in xs
    ensures n > |xs| && f in Take(ys, n - |xs|)
  {
    var all := Take(xs + ys, n);
    var k :| 0 <= k < |all| && all[k] == f;
    assert (xs + ys)[k] == f;
    assert k >= |xs|;
    assert Take(ys, n - |xs|)[k - |xs|] == f;
  }

  lemma FirstOrLater(xs: seq<Folio>, ys: seq<Folio>, n: nat, g: Folio)
    requires n > |xs| && (g in xs || g in Take(ys, n - |xs|))
    ensures g in Take(xs + ys, n)
  {
    assert Take(xs + ys, n) == xs + Take(ys, n - |xs|);
  }

  lemma UsedExactly(pages: Pages, meta: MetaMap, bound: int, list: seq<Folio>, f: Folio)
    ensures f in UsedAtMost(pages, meta, bound, list, true) <==>
              f in list && Judged(pages, meta, f) && meta[f].freq <= bound
  {
    FilterMembers(g => (Judged(pages, meta, g) && meta[g].freq <= bound) == true, list);
  }
}
