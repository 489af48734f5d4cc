/** What every run of the S3-FIFO policy keeps: the exact drift of its two counters, the
    frequency bound with its consequence for the main-list passes, and conservation of nodes. */
module S3FifoLaws {
  import opened FolioLists
  import opened Options
  import opened S3Fifo

  /** Everything that can happen to the policy. `GhostDropped`: the LRU hash discards an entry by
      itself. `NodeDropped`: the kernel unlinks the node of a folio it has removed. */
  datatype Event =
    | FolioAdded(f: Folio, key: GhostKey, relevant: bool, refused: bool, noRoom: bool)
    | FolioAccessed(f: Folio, relevant: bool)
    | FolioEvicted(f: Folio, key: GhostKey)
    | EvictFolios(pages: Pages, request: nat, limits: nat -> Option<nat>, reported: nat)
    | GhostDropped(key: GhostKey)
    | NodeDropped(f: Folio)

  function Step(cacheSize: nat, s: State, e: Event): State {
    match e
    case FolioAdded(f, key, relevant, refused, noRoom) => Added(s, f, key, relevant, refused, noRoom)
    case FolioAccessed(f, relevant) => Accessed(s, f, relevant)
    case FolioEvicted(f, key) => Evicted(s, f, key)
    case EvictFolios(pages, request, limits, reported) => Evict(cacheSize, s, pages, request, limits, reported).0
    case GhostDropped(key) => s.(ghosts := s.ghosts - {key})
    case NodeDropped(f) => s.(small := Without(s.small, f), main := Without(s.main, f))
  }

  function After(cacheSize: nat, es: seq<Event>): State {
    if es == [] then INIT else Step(cacheSize, After(cacheSize, es[..|es| - 1]), es[|es| - 1])
  }

  lemma AfterLast(cacheSize: nat, es: seq<Event>, e: Event)
    ensures After(cacheSize, es + [e]) == Step(cacheSize, After(cacheSize, es), e)
  {
    assert (es + [e])[..|es|] == es;
  }

  // ---- what a scan does to the metadata ---------------------------------------------------------

  function InMain(meta: MetaMap): set<Folio> {
    set f | f in meta && meta[f].inMain
  }

  /** Same entries, no frequency raised, no folio taken out of main. */
  ghost predicate Aged(meta: MetaMap, m: MetaMap) {
    && m.Keys == meta.Keys
    && forall f :: f in meta ==> m[f].freq <= meta[f].freq && (meta[f].inMain ==> m[f].inMain)
  }

  /** Main-list callbacks leave the flags alone, the small-list callback the frequencies. */
  ghost predicate Untouched(cb: Callback, meta: MetaMap, m: MetaMap) {
    m.Keys == meta.Keys && forall f :: f in meta ==>
      if cb.EvictSmallCb? then m[f].freq == meta[f].freq else m[f].inMain == meta[f].inMain
  }

  lemma {:induction false} ScanAges(cb: Callback, pages: Pages, meta: MetaMap, list: seq<Folio>, room: nat, budget: nat)
    ensures var r := Scanned(cb, pages, meta, list, room, budget); Aged(meta, r.meta) && Untouched(cb, meta, r.meta)
    decreases |list|
  {
    if list != [] && room != 0 && budget != 0 {
      var (evict, m) := Call(cb, pages, meta, list[0]);
      ScanAges(cb, pages, m, list[1..], if evict then room - 1 else room, budget - 1);
    }
  }

  /** A scan neither loses nor invents nodes. */
  lemma {:induction false} ScanConserves(cb: Callback, pages: Pages, meta: MetaMap, list: seq<Folio>, room: nat,
                                         budget: nat)
    ensures Conserved(list, Scanned(cb, pages, meta, list, room, budget))
    decreases |list|
  {
    if list != [] && room != 0 && budget != 0 {
      var (evict, m) := Call(cb, pages, meta, list[0]);
      var less := if evict then room - 1 else room;
      ScanConserves(cb, pages, m, list[1..], less, budget - 1);
      assert list == [list[0]] + list[1..];
      ConserveStep(list[0], list[1..], Scanned(cb, pages, m, list[1..], less, budget - 1));
    }
  }

  ghost predicate Conserved(list: seq<Folio>, r: Scan) {
    multiset(r.kept) + multiset(r.out) + multiset(r.left) == multiset(list)
  }

  lemma ConserveStep(f: Folio, tail: seq<Folio>, r: Scan)
    requires Conserved(tail, r)
    ensures Conserved([f] + tail, r.(kept := [f] + r.kept)) && Conserved([f] + tail, r.(out := [f] + r.out))
  {
  }

  lemma {:induction false} PassesKeep(s: State, pages: Pages, request: nat, limits: nat -> Option<nat>, id: nat,
                                      out: seq<Folio>)
    requires |out| <= request && id <= 4
    ensures var s' := MainPasses(s, pages, request, limits, id, out).0;
            && Aged(s.meta, s'.meta) && InMain(s'.meta) == InMain(s.meta)
            && s'.smallSize == s.smallSize && s'.mainSize == s.mainSize
            && s'.small == s.small && s'.ghosts == s.ghosts && multiset(s'.main) == multiset(s.main)
    decreases 4 - id
  {
    if id < 4 && (id > 0 ==> |out| < request) {
      PassesStep(s, pages, request, limits, id, out);
      PassKeeps(s, pages, id, request - |out|, limits(id));
      var (s', more) := MainPass(s, pages, id, request - |out|, limits(id));
      if !(limits(id).Some? || |out + more| >= request || id == 3) {
        PassesKeep(s', pages, request, limits, id + 1, out + more);
      }
    }
  }

  lemma PassKeeps(s: State, pages: Pages, id: nat, room: nat, limit: Option<nat>)
    ensures var s' := MainPass(s, pages, id, room, limit).0;
            && Aged(s.meta, s'.meta) && InMain(s'.meta) == InMain(s.meta)
            && s'.smallSize == s.smallSize && s'.mainSize == s.mainSize
            && s'.small == s.small && s'.ghosts == s.ghosts && multiset(s'.main) == multiset(s.main)
  {
    var cb, budget := EvictMainIterFn(id), Budget(limit, s.main);
    var r := Scanned(cb, pages, s.meta, s.main, room, budget);
    ScanAges(cb, pages, s.meta, s.main, room, budget);
    ScanFits(cb, pages, s.meta, s.main, room, budget);
    var k := |s.main| - |r.left|;
    assert s.main == s.main[..k] + s.main[k..];
  }

  // ---- every node in at most one place -----------------------------------------------------------

  function Nodes(s: State): multiset<Folio> {
    multiset(s.small) + multiset(s.main)
  }

  ghost predicate OneNodeEach(s: State) {
    forall f :: Nodes(s)[f] <= 1
  }

  ghost predicate Capped(meta: MetaMap) {
    forall f :: f in meta ==> meta[f].freq <= 3
  }

  /** Eviction only moves nodes. */
  lemma EvictConserves(cacheSize: nat, s: State, pages: Pages, request: nat, limits: nat -> Option<nat>,
                       reported: nat)
    ensures Nodes(Evict(cacheSize, s, pages, request, limits, reported).0) == Nodes(s)
  {
    if ChoosesSmall(cacheSize, s) {
      var budget := Budget(limits(0), s.small);
      ScanConserves(EvictSmallCb, pages, s.meta, s.small, request, budget);
    } else {
      PassesKeep(s, pages, request, limits, 0, []);
    }
  }

  lemma StepKeepsNodes(cacheSize: nat, s: State, e: Event)
    requires OneNodeEach(s)
    ensures OneNodeEach(Step(cacheSize, s, e))
  {
    match e {
      case EvictFolios(pages, request, limits, reported) =>
        EvictConserves(cacheSize, s, pages, request, limits, reported);
      case NodeDropped(f) =>
        DroppedNode(s, f);
      case FolioAdded(f, key, relevant, refused, noRoom) =>
        if relevant && !AddFails(s, f, refused, noRoom) {
          AddedNode(s, f, key, refused, noRoom);
        } else {
          assert Nodes(Step(cacheSize, s, e)) == Nodes(s);
        }
      case _ =>
        assert Nodes(Step(cacheSize, s, e)) == Nodes(s);
    }
  }

  lemma StepKeepsCap(cacheSize: nat, s: State, e: Event)
    requires Capped(s.meta)
    ensures Capped(Step(cacheSize, s, e).meta)
  {
    if e.EvictFolios? {
      EvictAges(cacheSize, s, e.pages, e.request, e.limits, e.reported);
    }
  }

  lemma DroppedNode(s: State, f: Folio)
    requires OneNodeEach(s)
    ensures OneNodeEach(s.(small := Without(s.small, f), main := Without(s.main, f)))
  {
    var u := s.(small := Without(s.small, f), main := Without(s.main, f));
    WithoutRemoves(s.small, f);
    WithoutRemoves(s.main, f);
    forall g
      ensures Nodes(u)[g] <= 1
    {
      assert Nodes(s)[g] <= 1;
    }
  }

  lemma AddedNode(s: State, f: Folio, key: GhostKey, refused: bool, noRoom: bool)
    requires OneNodeEach(s) && !AddFails(s, f, refused, noRoom)
    ensures OneNodeEach(Added(s, f, key, true, refused, noRoom))
  {
    var u := Added(s, f, key, true, refused, noRoom);
    assert Nodes(u) == Nodes(s) + multiset{f};
    forall g
      ensures Nodes(u)[g] <= 1
    {
      assert Nodes(s)[g] <= 1;
      assert g == f ==> g !in multiset(s.small) && g !in multiset(s.main);
    }
  }

  lemma EvictAges(cacheSize: nat, s: State, pages: Pages, request: nat, limits: nat -> Option<nat>,
                  reported: nat)
    ensures Aged(s.meta, Evict(cacheSize, s, pages, request, limits, reported).0.meta)
  {
    if ChoosesSmall(cacheSize, s) {
      ScanAges(EvictSmallCb, pages, s.meta, s.small, request, Budget(limits(0), s.small));
    } else {
      PassesKeep(s, pages, request, limits, 0, []);
    }
  }

  /** In every reachable state a folio has at most one node, and no frequency exceeds 3. */
  lemma {:induction false} ReachableStates(cacheSize: nat, es: seq<Event>)
    ensures OneNodeEach(After(cacheSize, es)) && Capped(After(cacheSize, es).meta)
    decreases |es|
  {
    if es != [] {
      ReachableStates(cacheSize, es[..|es| - 1]);
      StepKeepsNodes(cacheSize, After(cacheSize, es[..|es| - 1]), es[|es| - 1]);
      StepKeepsCap(cacheSize, After(cacheSize, es[..|es| - 1]), es[|es| - 1]);
    }
  }

  // ---- which folios the passes nominate ---------------------------------------------------------------

  /** The small-list callback nominates exactly these. */
  predicate Victim(pages: Pages, meta: MetaMap, f: Folio) {
    && pages(f).uptodate && pages(f).lru && !pages(f).dirty && !pages(f).writeback
    && f in meta && meta[f].freq <= 1
  }

  function Victims(pages: Pages, meta: MetaMap, list: seq<Folio>, wanted: bool): seq<Folio> {
    if list == [] then []
    else (if Victim(pages, meta, list[0]) == wanted then [list[0]] else []) + Victims(pages, meta, list[1..], wanted)
  }

  lemma {:induction false} VictimsSame(pages: Pages, meta: MetaMap, m: MetaMap, list: seq<Folio>, wanted: bool)
    requires m.Keys == meta.Keys && forall f :: f in meta ==> m[f].freq == meta[f].freq
    ensures Victims(pages, meta, list, wanted) == Victims(pages, m, list, wanted)
  {
    if list != [] {
      VictimsSame(pages, meta, m, list[1..], wanted);
    }
  }

  lemma VictimsStep(pages: Pages, meta: MetaMap, f: Folio, list: seq<Folio>, wanted: bool)
    ensures Victims(pages, meta, [f] + list, wanted)
         == (if Victim(pages, meta, f) == wanted then [f] else []) + Victims(pages, meta, list, wanted)
  {
    assert ([f] + list)[1..] == list;
  }

  /** The scan saw the first nodes `seen` and sorted them into victims and others. */
  ghost predicate Sorted(pages: Pages, meta: MetaMap, list: seq<Folio>, seen: seq<Folio>, r: Scan) {
    && list == seen + r.left
    && r.out == Victims(pages, meta, seen, true) && r.kept == Victims(pages, meta, seen, false)
  }

  lemma SortedStep(pages: Pages, meta: MetaMap, list: seq<Folio>, room: nat, budget: nat, seen: seq<Folio>)
    requires list != [] && room != 0 && budget != 0
    requires var (evict, m) := Call(EvictSmallCb, pages, meta, list[0]);
             Sorted(pages, meta, list[1..], seen, Scanned(EvictSmallCb, pages, m, list[1..],
                 if evict then room - 1 else room, budget - 1))
    ensures Sorted(pages, meta, list, [list[0]] + seen, Scanned(EvictSmallCb, pages, meta, list, room, budget))
  {
    VictimsStep(pages, meta, list[0], seen, true);
    VictimsStep(pages, meta, list[0], seen, false);
    assert list == [list[0]] + list[1..];
  }

  /** evict_small visits a prefix of its list, nominates exactly the eligible folios of the prefix
      used at most once, in list order, moves all others to main in list order, and stops early
      only when the request is filled. */
  lemma {:induction false} SmallScanMeaning(pages: Pages, meta: MetaMap, list: seq<Folio>, room: nat, budget: nat)
    returns (seen: seq<Folio>)
    requires budget >= |list|
    ensures var r := Scanned(EvictSmallCb, pages, meta, list, room, budget);
            Sorted(pages, meta, list, seen, r) && |r.out| <= room && (r.left == [] || |r.out| == room)
    decreases |list|
  {
    if list == [] || room == 0 {
      seen := [];
    } else {
      var (evict, m) := Call(EvictSmallCb, pages, meta, list[0]);
      var rest := SmallScanMeaning(pages, m, list[1..], if evict then room - 1 else room, budget - 1);
      VictimsSame(pages, meta, m, rest, true);
      VictimsSame(pages, meta, m, rest, false);
      SortedStep(pages, meta, list, room, budget, rest);
      seen := [list[0]] + rest;
    }
  }

  /** A main-list pass lowers the frequency of every eligible folio it visits, and nominates it
      if that frequency was at most the number of the pass. */
  lemma {:induction false} PassMeaning(id: nat, pages: Pages, meta: MetaMap, list: seq<Folio>, room: nat,
                                       budget: nat, k: nat)
    requires var r := Scanned(EvictMainIterFn(id), pages, meta, list, room, budget);
             k + |r.left| < |list| && Eligible(pages, meta, list[k])
    ensures var r := Scanned(EvictMainIterFn(id), pages, meta, list, room, budget);
            && list[k] in r.meta && r.meta[list[k]].freq < meta[list[k]].freq
            && (meta[list[k]].freq <= id ==> list[k] in r.out)
    decreases |list|
  {
    var cb := EvictMainIterFn(id);
    var (evict, m) := Call(cb, pages, meta, list[0]);
    var less := if evict then room - 1 else room;
    ScanAges(cb, pages, m, list[1..], less, budget - 1);
    if k > 0 {
      PassMeaning(id, pages, m, list[1..], less, budget - 1, k - 1);
    }
  }

  lemma {:induction false} UnfilledVisitsAll(cb: Callback, pages: Pages, meta: MetaMap, list: seq<Folio>, room: nat,
                                             budget: nat)
    requires budget >= |list| && |Scanned(cb, pages, meta, list, room, budget).out| < room
    ensures Scanned(cb, pages, meta, list, room, budget).left == []
    decreases |list|
  {
    if list != [] {
      var (evict, m) := Call(cb, pages, meta, list[0]);
      UnfilledVisitsAll(cb, pages, m, list[1..], if evict then room - 1 else room, budget - 1);
    }
  }

  /** After an unfilled pass every eligible folio of the list is one step colder. */
  ghost predicate Cooled(pages: Pages, s: State, u: State, n: int) {
    && u.meta.Keys == s.meta.Keys && multiset(u.main) == multiset(s.main)
    && forall f :: f in s.main && Eligible(pages, s.meta, f) ==> u.meta[f].freq <= s.meta[f].freq - n
  }

  lemma UnfilledPassCools(s: State, pages: Pages, id: nat, room: nat)
    requires |MainPass(s, pages, id, room, None).1| < room
    ensures Cooled(pages, s, MainPass(s, pages, id, room, None).0, 1)
  {
    var cb := EvictMainIterFn(id);
    var r := Scanned(cb, pages, s.meta, s.main, room, |s.main|);
    PassKeeps(s, pages, id, room, None);
    UnfilledVisitsAll(cb, pages, s.meta, s.main, room, |s.main|);
    forall f | f in s.main && Eligible(pages, s.meta, f)
      ensures f in r.meta && r.meta[f].freq <= s.meta[f].freq - 1
    {
      var k :| 0 <= k < |s.main| && s.main[k] == f;
      PassMeaning(id, pages, s.meta, s.main, room, |s.main|, k);
    }
  }

  lemma CooledTwice(pages: Pages, s: State, u: State, v: State)
    requires Cooled(pages, s, u, 1) && Cooled(pages, u, v, 1)
    ensures Cooled(pages, s, v, 2)
  {
    forall f | f in s.main && Eligible(pages, s.meta, f)
      ensures v.meta[f].freq <= s.meta[f].freq - 2
    {
      assert f in multiset(u.main);
      assert f in u.main && Eligible(pages, u.meta, f);
    }
  }

  /** The first two passes over the main list of `s` leave the request unfilled. */
  ghost predicate TwoPasses(s: State, pages: Pages, request: nat, s1: State, o1: seq<Folio>, s2: State,
                            o2: seq<Folio>) {
    && |o1| + |o2| < request
    && MainPass(s, pages, 0, request, None) == (s1, o1)
    && MainPass(s1, pages, 1, request - |o1|, None) == (s2, o2)
  }

  lemma TwoPassesCool(s: State, pages: Pages, request: nat, s1: State, o1: seq<Folio>, s2: State, o2: seq<Folio>)
    requires TwoPasses(s, pages, request, s1, o1, s2, o2)
    ensures Cooled(pages, s, s2, 2)
  {
    UnfilledPassCools(s, pages, 0, request);
    UnfilledPassCools(s1, pages, 1, request - |o1|);
    CooledTwice(pages, s, s1, s2);
  }

  /** With the page flags fixed during the call, the third pass nominates every eligible folio it
      visits: no frequency exceeds 3, and it runs only after two passes over the whole list. */
  lemma ThirdPassNominatesAll(s: State, pages: Pages, request: nat, s1: State, o1: seq<Folio>, s2: State,
                              o2: seq<Folio>,
                              room: nat, k: nat)
    requires Capped(s.meta) && TwoPasses(s, pages, request, s1, o1, s2, o2)
    requires var r := Scanned(EvictMainIterFn(2), pages, s2.meta, s2.main, room, |s2.main|);
             k + |r.left| < |s2.main| && Eligible(pages, s.meta, s2.main[k])
    ensures s2.main[k] in MainPass(s2, pages, 2, room, None).1
  {
    TwoPassesCool(s, pages, request, s1, o1, s2, o2);
    assert s2.main[k] in multiset(s2.main) && s2.main[k] in multiset(s.main);
    PassMeaning(2, pages, s2.meta, s2.main, room, |s2.main|, k);
  }

  lemma {:induction false} SetWithin(xs: set<Folio>, ys: seq<Folio>)
    requires forall x :: x in xs ==> x in ys
    ensures |xs| <= |ys|
    decreases |ys|
  {
    if ys == [] {
      assert xs == {};
    } else {
      SetWithin(xs - {ys[0]}, ys[1..]);
      assert xs <= (xs - {ys[0]}) + {ys[0]};
    }
  }

  function EligibleIn(pages: Pages, s: State): set<Folio> {
    set f | f in s.main && Eligible(pages, s.meta, f)
  }

  lemma UnfilledThirdPass(s: State, pages: Pages, request: nat, s1: State, o1: seq<Folio>, s2: State, o2: seq<Folio>,
                          room: nat, f: Folio)
    requires Capped(s.meta) && TwoPasses(s, pages, request, s1, o1, s2, o2)
    requires |MainPass(s2, pages, 2, room, None).1| < room && f in EligibleIn(pages, s)
    ensures f in MainPass(s2, pages, 2, room, None).1
  {
    TwoPassesCool(s, pages, request, s1, o1, s2, o2);
    UnfilledVisitsAll(EvictMainIterFn(2), pages, s2.meta, s2.main, room, |s2.main|);
    assert f in multiset(s.main) && f in multiset(s2.main);
    var k :| 0 <= k < |s2.main| && s2.main[k] == f;
    ThirdPassNominatesAll(s, pages, request, s1, o1, s2, o2, room, k);
  }

  /** The fourth pass starts only if fewer folios of the main list are eligible than requested,
      and then the third pass has nominated all of them. */
  lemma FourthPassIsRare(s: State, pages: Pages, request: nat, s1: State, o1: seq<Folio>, s2: State, o2: seq<Folio>,
                         room: nat, o3: seq<Folio>)
    requires Capped(s.meta) && TwoPasses(s, pages, request, s1, o1, s2, o2)
    requires room == request - |o1 + o2| && MainPass(s2, pages, 2, room, None).1 == o3 && |o3| < room
    ensures |EligibleIn(pages, s)| < request
    ensures forall f :: f in EligibleIn(pages, s) ==> f in o3
  {
    forall f | f in EligibleIn(pages, s)
      ensures f in o3
    {
      UnfilledThirdPass(s, pages, request, s1, o1, s2, o2, room, f);
    }
    SetWithin(EligibleIn(pages, s), o3);
  }

  ghost predicate Exhausts(pages: Pages, s: State, request: nat, out: seq<Folio>) {
    |out| <= request && (|out| < request ==> forall f :: f in EligibleIn(pages, s) ==> f in out)
  }

  lemma LastTwoPasses(s: State, pages: Pages, request: nat, limits: nat -> Option<nat>,
                      s1: State, o1: seq<Folio>, s2: State, o2: seq<Folio>)
    requires Capped(s.meta) && TwoPasses(s, pages, request, s1, o1, s2, o2) && limits(2).None?
    ensures Exhausts(pages, s, request, MainPasses(s2, pages, request, limits, 2, o1 + o2).1)
  {
    var room := request - |o1 + o2|;
    PassesStep(s2, pages, request, limits, 2, o1 + o2);
    var (s3, o3) := MainPass(s2, pages, 2, room, None);
    if |o1 + o2 + o3| < request {
      FourthPassIsRare(s, pages, request, s1, o1, s2, o2, room, o3);
      PassesBounded(s3, pages, request, limits, 3, o1 + o2 + o3);
    }
  }

  lemma SecondPass(s: State, pages: Pages, request: nat, limits: nat -> Option<nat>, s1: State, o1: seq<Folio>)
    requires Capped(s.meta) && limits(1).None? && limits(2).None?
    requires MainPass(s, pages, 0, request, None) == (s1, o1) && |o1| < request
    ensures Exhausts(pages, s, request, MainPasses(s1, pages, request, limits, 1, o1).1)
  {
    PassesStep(s1, pages, request, limits, 1, o1);
    var (s2, o2) := MainPass(s1, pages, 1, request - |o1|, None);
    if |o1 + o2| < request {
      LastTwoPasses(s, pages, request, limits, s1, o1, s2, o2);
    }
  }

  /** An eviction from the main list never nominates more than requested, and nominates less only
      when it has nominated every eligible folio of the list. */
  lemma MainEvictionExhausts(s: State, pages: Pages, request: nat, limits: nat -> Option<nat>)
    requires Capped(s.meta) && limits(0).None? && limits(1).None? && limits(2).None?
    ensures Exhausts(pages, s, request, MainPasses(s, pages, request, limits, 0, []).1)
  {
    PassesStep(s, pages, request, limits, 0, []);
    var (s1, o1) := MainPass(s, pages, 0, request, None);
    assert [] + o1 == o1;
    if |o1| < request {
      SecondPass(s, pages, request, limits, s1, o1);
    }
  }

  lemma {:induction false} PassesBounded(s: State, pages: Pages, request: nat, limits: nat -> Option<nat>, id: nat,
                                         out: seq<Folio>)
    requires |out| <= request && id <= 4
    ensures var all := MainPasses(s, pages, request, limits, id, out).1;
            |all| <= request && forall f :: f in out ==> f in all
    decreases 4 - id
  {
    if id < 4 && (id > 0 ==> |out| < request) {
      PassesStep(s, pages, request, limits, id, out);
      var (s', more) := MainPass(s, pages, id, request - |out|, limits(id));
      if !(limits(id).Some? || |out + more| >= request || id == 3) {
        PassesBounded(s', pages, request, limits, id + 1, out + more);
      }
    }
  }

  // ---- where folios go ----------------------------------------------------------------------------------

  /** evict_small as a whole: a prefix `seen` of the small list is taken off; its victims are
      nominated and return to the tail, all others move to the tail of main. */
  lemma SmallEvictionMoves(s: State, pages: Pages, request: nat, reported: nat)
    returns (seen: seq<Folio>, rest: seq<Folio>)
    ensures var (u, out) := EvictSmall(s, pages, request, None, reported);
            && s.small == seen + rest && out == Victims(pages, s.meta, seen, true)
            && u.small == rest + out && u.main == s.main + Victims(pages, s.meta, seen, false)
            && |out| <= request && (rest == [] || |out| == request)
  {
    seen := SmallScanMeaning(pages, s.meta, s.small, request, |s.small|);
    rest := Scanned(EvictSmallCb, pages, s.meta, s.small, request, |s.small|).left;
  }

  /** A main-list pass rotates the list: the visited prefix goes to the tail in order. */
  lemma PassRotates(s: State, pages: Pages, id: nat, room: nat, limit: Option<nat>)
    returns (seen: seq<Folio>, rest: seq<Folio>)
    ensures var (u, out) := MainPass(s, pages, id, room, limit);
            && s.main == seen + rest && u.main == rest + seen && u.small == s.small
            && |out| <= room && (limit.None? ==> rest == [] || |out| == room)
  {
    var cb, budget := EvictMainIterFn(id), Budget(limit, s.main);
    var r := Scanned(cb, pages, s.meta, s.main, room, budget);
    ScanFits(cb, pages, s.meta, s.main, room, budget);
    var k := |s.main| - |r.left|;
    seen, rest := s.main[..k], r.left;
    assert s.main == s.main[..k] + s.main[k..];
    if limit.None? && |r.out| < room {
      UnfilledVisitsAll(cb, pages, s.meta, s.main, room, budget);
    }
  }

  /** The last thing that happened to this key is an eviction: no watched folio with it was added
      since, and the map has not dropped it. */
  predicate Remembered(es: seq<Event>, key: GhostKey) {
    if es == [] then false
    else
      match es[|es| - 1]
      case FolioEvicted(_, k) => k == key || Remembered(es[..|es| - 1], key)
      case FolioAdded(_, k, relevant, _, _) => !(k == key && relevant) && Remembered(es[..|es| - 1], key)
      case GhostDropped(k) => k != key && Remembered(es[..|es| - 1], key)
      case _ => Remembered(es[..|es| - 1], key)
  }

  lemma EvictKeepsGhosts(cacheSize: nat, s: State, pages: Pages, request: nat, limits: nat -> Option<nat>,
                         reported: nat)
    ensures Evict(cacheSize, s, pages, request, limits, reported).0.ghosts == s.ghosts
  {
    if !ChoosesSmall(cacheSize, s) {
      PassesKeep(s, pages, request, limits, 0, []);
    }
  }

  /** The ghost map holds exactly the remembered keys. */
  lemma {:induction false} GhostsAreRemembered(cacheSize: nat, es: seq<Event>, key: GhostKey)
    ensures key in After(cacheSize, es).ghosts <==> Remembered(es, key)
    decreases |es|
  {
    if es != [] {
      var init, e := es[..|es| - 1], es[|es| - 1];
      GhostsAreRemembered(cacheSize, init, key);
      if e.EvictFolios? {
        EvictKeepsGhosts(cacheSize, After(cacheSize, init), e.pages, e.request, e.limits, e.reported);
      }
    }
  }

  /** A folio is admitted to the tail of main if its key is remembered, else to the tail of small,
      cold in either case. */
  lemma Admission(cacheSize: nat, es: seq<Event>, f: Folio, key: GhostKey)
    requires !AddFails(After(cacheSize, es), f, false, false)
    ensures var s, u := After(cacheSize, es), After(cacheSize, es + [FolioAdded(f, key, true, false, false)]);
            && u.meta == s.meta[f := Meta(0, Remembered(es, key))]
            && u.main == s.main + (if Remembered(es, key) then [f] else [])
            && u.small == s.small + (if Remembered(es, key) then [] else [f])
            && key !in u.ghosts
  {
    GhostsAreRemembered(cacheSize, es, key);
    AfterLast(cacheSize, es, FolioAdded(f, key, true, false, false));
  }

  // ---- metadata and frequencies over a run ----------------------------------------------------------------

  /** The folio was added, with its metadata, after its last eviction. */
  predicate Cached(cacheSize: nat, es: seq<Event>, f: Folio) {
    if es == [] then false
    else
      var init := es[..|es| - 1];
      match es[|es| - 1]
      case FolioAdded(g, _, relevant, refused, noRoom) =>
        || (g == f && relevant && !AddFails(After(cacheSize, init), f, refused, noRoom))
        || Cached(cacheSize, init, f)
      case FolioEvicted(g, _) => g != f && Cached(cacheSize, init, f)
      case _ => Cached(cacheSize, init, f)
  }

  /** The metadata map holds exactly the cached folios. */
  lemma {:induction false} MetadataOfCached(cacheSize: nat, es: seq<Event>, f: Folio)
    ensures f in After(cacheSize, es).meta <==> Cached(cacheSize, es, f)
    decreases |es|
  {
    if es != [] {
      var init, e := es[..|es| - 1], es[|es| - 1];
      MetadataOfCached(cacheSize, init, f);
      if e.EvictFolios? {
        EvictAges(cacheSize, After(cacheSize, init), e.pages, e.request, e.limits, e.reported);
      }
    }
  }

  /** How often `f` was accessed in a watched file. */
  function Accesses(es: seq<Event>, f: Folio): nat {
    if es == [] then 0
    else Accesses(es[..|es| - 1], f) + if es[|es| - 1] == FolioAccessed(f, true) then 1 else 0
  }

  /** The event neither adds nor evicts `f`, nor scans the main list. */
  ghost predicate Spares(cacheSize: nat, s: State, e: Event, f: Folio) {
    && (e.FolioAdded? ==> e.f != f || !e.relevant)
    && (e.FolioEvicted? ==> e.f != f)
    && (e.EvictFolios? ==> ChoosesSmall(cacheSize, s))
  }

  ghost predicate SparedSince(cacheSize: nat, before: seq<Event>, es: seq<Event>, f: Folio) {
    forall k :: 0 <= k < |es| ==> Spares(cacheSize, After(cacheSize, before + es[..k]), es[k], f)
  }

  /** The frequency counts the accesses and stops at 3: it does so over any stretch of a run in which
      the folio is neither added nor evicted and the main list is not scanned. */
  ghost predicate FrequencyIs(s: State, u: State, f: Folio, accesses: nat)
    requires f in s.meta
  {
    f in u.meta && u.meta[f].freq == if s.meta[f].freq + accesses > 3 then 3 else s.meta[f].freq + accesses
  }

  lemma {:induction false} FrequencyCounts(cacheSize: nat, before: seq<Event>, es: seq<Event>, f: Folio)
    requires f in After(cacheSize, before).meta && SparedSince(cacheSize, before, es, f)
    ensures FrequencyIs(After(cacheSize, before), After(cacheSize, before + es), f, Accesses(es, f))
    decreases |es|
  {
    if es == [] {
      ReachableStates(cacheSize, before);
      assert before + es == before;
    } else {
      var init, e := es[..|es| - 1], es[|es| - 1];
      assert es == init + [e];
      SparedInit(cacheSize, before, init, e, es, f);
      FrequencyCounts(cacheSize, before, init, f);
      FrequencyStep(cacheSize, before, init, e, f, After(cacheSize, before));
    }
  }

  lemma FrequencyStep(cacheSize: nat, before: seq<Event>, init: seq<Event>, e: Event, f: Folio, s: State)
    requires f in s.meta && FrequencyIs(s, After(cacheSize, before + init), f, Accesses(init, f))
    requires Spares(cacheSize, After(cacheSize, before + init), e, f)
    ensures FrequencyIs(s, After(cacheSize, before + (init + [e])), f, Accesses(init + [e], f))
  {
    AfterLast(cacheSize, before + init, e);
    assert before + (init + [e]) == (before + init) + [e];
    assert (init + [e])[..|init|] == init;
    SparedFrequency(cacheSize, After(cacheSize, before + init), e, f);
  }

  lemma SparedInit(cacheSize: nat, before: seq<Event>, init: seq<Event>, e: Event, es: seq<Event>, f: Folio)
    requires SparedSince(cacheSize, before, es, f) && es == init + [e]
    ensures SparedSince(cacheSize, before, init, f) && Spares(cacheSize, After(cacheSize, before + init), e, f)
  {
    assert es[..|init|] == init && es[|init|] == e;
    forall k | 0 <= k < |init|
      ensures Spares(cacheSize, After(cacheSize, before + init[..k]), init[k], f)
    {
      assert init[..k] == es[..k] && init[k] == es[k];
    }
  }

  lemma SparedFrequency(cacheSize: nat, s: State, e: Event, f: Folio)
    requires f in s.meta && Spares(cacheSize, s, e, f)
    ensures var u := Step(cacheSize, s, e);
            && f in u.meta
            && u.meta[f].freq == if e != FolioAccessed(f, true) then s.meta[f].freq
                                 else if s.meta[f].freq + 1 > 3 then 3 else s.meta[f].freq + 1
  {
    if e.EvictFolios? {
      ScanAges(EvictSmallCb, e.pages, s.meta, s.small, e.request, Budget(e.limits(0), s.small));
    }
  }

  // ---- which list is scanned ------------------------------------------------------------------------------

  /** The main list is scanned exactly when the small counter is not negative and below a fifteenth of
      the cache, and the main counter is more than twice the small one. */
  lemma MainIsScanned(cacheSize: nat, s: State, pages: Pages, request: nat, limits: nat -> Option<nat>,
                      reported: nat)
    requires cacheSize < TWO_TO_THE_64 && -0x8000_0000_0000_0000 <= s.smallSize < 0x8000_0000_0000_0000
    ensures Evict(cacheSize, s, pages, request, limits, reported)
         == if 0 <= s.smallSize && 15 * (s.smallSize + 1) <= cacheSize && 2 * s.smallSize < s.mainSize
            then MainPasses(s, pages, request, limits, 0, [])
            else EvictSmall(s, pages, request, limits(0), reported)
  {
    var q, r := cacheSize / 15, cacheSize % 15;
    assert cacheSize == 15 * q + r;
  }
}
