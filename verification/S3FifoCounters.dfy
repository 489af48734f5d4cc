/** How far the two counters of the S3-FIFO policy drift from what they are meant to count: exact
    ledgers on every run, and exactly when the counters are right. */
module S3FifoCounters {
  import opened FolioLists
  import opened Options
  import opened S3Fifo
  import opened S3FifoLaws

  // ---- sums over runs ----------------------------------------------------------------------------

  /** What `w` charges for the events of a run, each in the state it meets. */
  ghost function Total(cacheSize: nat, es: seq<Event>, w: (State, Event) -> int): int {
    if es == [] then 0
    else Total(cacheSize, es[..|es| - 1], w) + w(After(cacheSize, es[..|es| - 1]), es[|es| - 1])
  }

  /** Every event of the run satisfies `p` in the state it meets. */
  ghost predicate Always(cacheSize: nat, es: seq<Event>, p: (State, Event) -> bool) {
    forall k :: 0 <= k < |es| ==> p(After(cacheSize, es[..k]), es[k])
  }

  lemma AlwaysStep(cacheSize: nat, es: seq<Event>, init: seq<Event>, p: (State, Event) -> bool)
    requires es != [] && init == es[..|es| - 1]
    ensures Always(cacheSize, es, p) <==> Always(cacheSize, init, p) && p(After(cacheSize, init), es[|es| - 1])
  {
    var n := |es| - 1;
    forall k | 0 <= k < n
      ensures p(After(cacheSize, es[..k]), es[k]) <==> p(After(cacheSize, init[..k]), init[k])
    {
      assert init[..k] == es[..k];
    }
    assert es[..n] == init;
    assert Always(cacheSize, es, p) ==> p(After(cacheSize, es[..n]), es[n]);
    assert Always(cacheSize, es, p) ==> forall k :: 0 <= k < n ==> p(After(cacheSize, es[..k]), es[k]);
  }

  ghost predicate Charges(w: (State, Event) -> int, p: (State, Event) -> bool) {
    forall s, e :: w(s, e) >= 0 && (w(s, e) == 0 <==> p(s, e))
  }

  /** A charge that is never negative adds up to zero only if every event is free of charge. */
  lemma {:induction false} TotalZero(cacheSize: nat, es: seq<Event>, w: (State, Event) -> int, p: (State,
                                     Event) -> bool)
    requires Charges(w, p)
    ensures Total(cacheSize, es, w) >= 0 && (Total(cacheSize, es, w) == 0 <==> Always(cacheSize, es, p))
    decreases |es|
  {
    if es != [] {
      var init := es[..|es| - 1];
      TotalZero(cacheSize, init, w, p);
      AlwaysStep(cacheSize, es, init, p);
      assert w(After(cacheSize, init), es[|es| - 1]) >= 0;
    }
  }

  // ---- both counters together --------------------------------------------------------------------

  /** What an event adds to the counters beyond the metadata: a failed add, an add over existing
      metadata, or the amount a clamp makes up. The count the scan reports cancels otherwise. */
  function Slip(cacheSize: nat, s: State, e: Event): int {
    match e
    case FolioAdded(f, _, relevant, refused, noRoom) =>
      if relevant && (AddFails(s, f, refused, noRoom) || f in s.meta) then 1 else 0
    case EvictFolios(_, _, limits, reported) =>
      if ChoosesSmall(cacheSize, s) && limits(0).None?
      then (if s.smallSize < 0 then reported - s.smallSize else 0) + (if s.mainSize < 0 then -s.mainSize else 0)
      else 0
    case _ => 0
  }

  ghost function Slips(cacheSize: nat, es: seq<Event>): int {
    Total(cacheSize, es, (s, e) => Slip(cacheSize, s, e))
  }

  lemma EvictSlip(cacheSize: nat, s: State, pages: Pages, request: nat, limits: nat -> Option<nat>,
                  reported: nat)
    ensures var u := Evict(cacheSize, s, pages, request, limits, reported).0;
            && |u.meta| == |s.meta|
            && u.smallSize + u.mainSize
                == s.smallSize + s.mainSize + Slip(cacheSize, s, EvictFolios(pages, request, limits, reported))
  {
    if ChoosesSmall(cacheSize, s) {
      ScanAges(EvictSmallCb, pages, s.meta, s.small, request, Budget(limits(0), s.small));
      SameKeys(s.meta, Evict(cacheSize, s, pages, request, limits, reported).0.meta);
    } else {
      PassesKeep(s, pages, request, limits, 0, []);
      SameKeys(s.meta, Evict(cacheSize, s, pages, request, limits, reported).0.meta);
    }
  }

  lemma SameKeys(a: MetaMap, b: MetaMap)
    requires a.Keys == b.Keys
    ensures |a| == |b|
  {
    assert |a| == |a.Keys| && |b| == |b.Keys|;
  }

  ghost predicate Slipped(s: State, u: State, slip: int) {
    u.smallSize + u.mainSize - |u.meta| == s.smallSize + s.mainSize - |s.meta| + slip
  }

  lemma AddedSlip(s: State, f: Folio, key: GhostKey, refused: bool, noRoom: bool)
    ensures Slipped(s, Added(s, f, key, true, refused, noRoom), if AddFails(s, f, refused, noRoom)
            || f in s.meta then 1 else 0)
  {
    EntryWritten(s.meta, f, Meta(0, key in s.ghosts));
  }

  lemma EvictedSlip(s: State, f: Folio, key: GhostKey)
    ensures Slipped(s, Evicted(s, f, key), 0)
  {
    EntryRemoved(s.meta, f);
  }

  lemma AccessedSlip(s: State, f: Folio, relevant: bool)
    ensures Slipped(s, Accessed(s, f, relevant), 0)
  {
    SameKeys(s.meta, Accessed(s, f, relevant).meta);
  }

  /** One event moves the sum of the counters exactly with the number of entries, plus its slip. */
  lemma StepSlip(cacheSize: nat, s: State, e: Event)
    ensures Slipped(s, Step(cacheSize, s, e), Slip(cacheSize, s, e))
  {
    match e {
      case FolioAdded(f, key, relevant, refused, noRoom) => AddedSlip(s, f, key, refused, noRoom);
      case FolioAccessed(f, relevant) => AccessedSlip(s, f, relevant);
      case FolioEvicted(f, key) => EvictedSlip(s, f, key);
      case EvictFolios(pages, request, limits, reported) => EvictSlip(cacheSize, s, pages, request, limits, reported);
      case _ =>
    }
  }

  lemma EntryWritten(meta: MetaMap, f: Folio, m: Meta)
    ensures |meta[f := m]| == |meta| + if f in meta then 0 else 1
  {
    assert meta[f := m].Keys == meta.Keys + {f};
    if f in meta {
      SameKeys(meta, meta[f := m]);
    }
  }

  lemma EntryRemoved(meta: MetaMap, f: Folio)
    ensures |meta - {f}| == |meta| - if f in meta then 1 else 0
  {
    assert (meta - {f}).Keys == meta.Keys - {f};
  }

  /** In every run, whatever counts the scans report, the counters exceed the number of metadata
      entries by exactly the slips. */
  lemma {:induction false} CounterLedger(cacheSize: nat, es: seq<Event>)
    ensures var s := After(cacheSize, es); s.smallSize + s.mainSize == |s.meta| + Slips(cacheSize, es)
    decreases |es|
  {
    if es != [] {
      CounterLedger(cacheSize, es[..|es| - 1]);
      StepSlip(cacheSize, After(cacheSize, es[..|es| - 1]), es[|es| - 1]);
    }
  }

  /** No add fails, no folio that still has metadata is added again, no clamp fires. */
  ghost predicate Orderly(cacheSize: nat, s: State, e: Event) {
    match e
    case FolioAdded(f, _, relevant, refused, noRoom) =>
      relevant ==> !AddFails(s, f, refused, noRoom) && f !in s.meta
    case EvictFolios(_, _, limits, _) =>
      ChoosesSmall(cacheSize, s) && limits(0).None? ==> s.smallSize >= 0 && s.mainSize >= 0
    case _ => true
  }

  ghost predicate OrderlyRun(cacheSize: nat, es: seq<Event>) {
    Always(cacheSize, es, (s, e) => Orderly(cacheSize, s, e))
  }

  lemma SlipsZeroWhenOrderly(cacheSize: nat, es: seq<Event>)
    ensures Slips(cacheSize, es) >= 0 && (Slips(cacheSize, es) == 0 <==> OrderlyRun(cacheSize, es))
  {
    TotalZero(cacheSize, es, (s, e) => Slip(cacheSize, s, e), (s, e) => Orderly(cacheSize, s, e));
  }

  /** The counters never fall short of the metadata, and agree with it exactly on orderly runs. */
  lemma CountersOneSided(cacheSize: nat, es: seq<Event>)
    ensures var s := After(cacheSize, es);
            && s.smallSize + s.mainSize >= |s.meta|
            && (s.smallSize + s.mainSize == |s.meta| <==> OrderlyRun(cacheSize, es))
  {
    CounterLedger(cacheSize, es);
    SlipsZeroWhenOrderly(cacheSize, es);
  }

  // ---- the main counter ----------------------------------------------------------------------------

  /** The small-list callback promotes this folio for the first time. */
  predicate Promoted(pages: Pages, meta: MetaMap, f: Folio) {
    Eligible(pages, meta, f) && meta[f].freq > 1 && !meta[f].inMain
  }

  /** How many folios of a list the callback would newly promote, or would not. */
  function Count(pages: Pages, meta: MetaMap, list: seq<Folio>, wanted: bool): (n: nat)
    ensures n == 0 <==> forall f :: f in list ==> Promoted(pages, meta, f) != wanted
  {
    if list == [] then 0
    else (if Promoted(pages, meta, list[0]) == wanted then 1 else 0) + Count(pages, meta, list[1..], wanted)
  }

  lemma {:induction false} CountBoth(pages: Pages, meta: MetaMap, list: seq<Folio>)
    ensures Count(pages, meta, list, true) + Count(pages, meta, list, false) == |list|
  {
    if list != [] {
      CountBoth(pages, meta, list[1..]);
    }
  }

  lemma {:induction false} CountSame(pages: Pages, meta: MetaMap, m: MetaMap, list: seq<Folio>)
    requires forall f :: f in list ==> (Promoted(pages, meta, f) <==> Promoted(pages, m, f))
    ensures Count(pages, meta, list, true) == Count(pages, m, list, true)
    decreases |list|
  {
    if list != [] {
      CountSame(pages, meta, m, list[1..]);
    }
  }

  lemma CountStep(pages: Pages, meta: MetaMap, f: Folio, list: seq<Folio>)
    ensures Count(pages, meta, [f] + list, true)
            == (if Promoted(pages, meta, f) then 1 else 0) + Count(pages, meta, list, true)
  {
    assert ([f] + list)[1..] == list;
  }

  lemma MarkWritten(meta: MetaMap, f: Folio, m: Meta)
    ensures |InMain(meta[f := m])| == |InMain(meta)| + (if m.inMain then 1 else 0)
                                      - (if f in meta && meta[f].inMain then 1 else 0)
  {
    SetChanges(InMain(meta), f);
    if m.inMain {
      assert InMain(meta[f := m]) == InMain(meta) + {f};
    } else {
      assert InMain(meta[f := m]) == InMain(meta) - {f};
    }
  }

  lemma SetChanges(xs: set<Folio>, f: Folio)
    ensures |xs + {f}| == |xs| + if f in xs then 0 else 1
    ensures |xs - {f}| == |xs| - if f in xs then 1 else 0
  {
    assert f in xs ==> xs + {f} == xs && xs == (xs - {f}) + {f};
    assert f !in xs ==> xs - {f} == xs;
  }

  lemma MarkRemoved(meta: MetaMap, f: Folio)
    ensures |InMain(meta - {f})| == |InMain(meta)| - if f in meta && meta[f].inMain then 1 else 0
  {
    SetChanges(InMain(meta), f);
    assert InMain(meta - {f}) == InMain(meta) - {f};
  }

  ghost predicate Single(list: seq<Folio>) {
    forall f :: multiset(list)[f] <= 1
  }

  lemma SingleTail(list: seq<Folio>)
    requires Single(list) && list != []
    ensures Single(list[1..]) && list[0] !in list[1..]
  {
    assert list == [list[0]] + list[1..];
    assert multiset(list) == multiset{list[0]} + multiset(list[1..]);
    forall f
      ensures multiset(list[1..])[f] <= if f == list[0] then 0 else 1
    {
      assert multiset(list)[f] <= 1;
    }
    assert list[0] !in multiset(list[1..]);
  }

  /** Calling back on one folio does not change which others would be promoted. */
  lemma OthersCount(pages: Pages, meta: MetaMap, f: Folio, list: seq<Folio>)
    requires f !in list
    ensures Count(pages, Call(EvictSmallCb, pages, meta, f).1, list, true) == Count(pages, meta, list, true)
  {
    CountSame(pages, meta, Call(EvictSmallCb, pages, meta, f).1, list);
  }

  /** One callback in front of a scan that kept `kept` and left the metadata `last`. */
  lemma PromotesStep(pages: Pages, meta: MetaMap, f: Folio, last: MetaMap, kept: seq<Folio>)
    requires f !in kept
    requires |InMain(last)| == |InMain(Call(EvictSmallCb, pages, meta, f).1)|
                               + Count(pages, Call(EvictSmallCb, pages, meta, f).1, kept, true)
    ensures |InMain(last)|
         == |InMain(meta)| + Count(pages, meta, if Call(EvictSmallCb, pages, meta, f).0 then kept else [f] + kept, true)
  {
    OthersCount(pages, meta, f, kept);
    if !Call(EvictSmallCb, pages, meta, f).0 {
      CountStep(pages, meta, f, kept);
      CallPromotes(pages, meta, f);
    }
  }

  /** The flags set by a scan of the small list are one per newly promoted folio. */
  lemma {:induction false} ScanPromotes(pages: Pages, meta: MetaMap, list: seq<Folio>, room: nat, budget: nat)
    requires Single(list)
    ensures var r := Scanned(EvictSmallCb, pages, meta, list, room, budget);
            |InMain(r.meta)| == |InMain(meta)| + Count(pages, meta, r.kept, true)
    decreases |list|
  {
    if list != [] && room != 0 && budget != 0 {
      var (evict, m) := Call(EvictSmallCb, pages, meta, list[0]);
      var less := if evict then room - 1 else room;
      var r := Scanned(EvictSmallCb, pages, m, list[1..], less, budget - 1);
      SingleTail(list);
      ScanPromotes(pages, m, list[1..], less, budget - 1);
      KeptWithin(pages, m, list[1..], less, budget - 1);
      PromotesStep(pages, meta, list[0], r.meta, r.kept);
    }
  }

  lemma KeptWithin(pages: Pages, meta: MetaMap, list: seq<Folio>, room: nat, budget: nat)
    ensures forall f :: f in Scanned(EvictSmallCb, pages, meta, list, room, budget).kept ==> f in list
  {
    var r := Scanned(EvictSmallCb, pages, meta, list, room, budget);
    ScanConserves(EvictSmallCb, pages, meta, list, room, budget);
    forall f | f in r.kept
      ensures f in list
    {
      assert f in multiset(r.kept) && f in multiset(list);
    }
  }

  lemma CallPromotes(pages: Pages, meta: MetaMap, f: Folio)
    requires !Call(EvictSmallCb, pages, meta, f).0
    ensures |InMain(Call(EvictSmallCb, pages, meta, f).1)| == |InMain(meta)| + if Promoted(pages, meta, f) then 1 else 0
  {
    if f in meta {
      MarkWritten(meta, f, meta[f].(inMain := true));
    }
  }

  /** The folios a scan of the small list moves to the main list. */
  function Continued(s: State, pages: Pages, request: nat, limit: Option<nat>): seq<Folio> {
    Scanned(EvictSmallCb, pages, s.meta, s.small, request, Budget(limit, s.small)).kept
  }

  /** What an event adds to the main counter beyond the folios marked as in main: a failed add on
      a ghost hit, an add over a marked entry; for a scan of the small list the reported count and
      what the clamp makes up, unless it fails, minus the marks it sets in either case. */
  function MainSlip(cacheSize: nat, s: State, e: Event): int {
    match e
    case FolioAdded(f, key, relevant, refused, noRoom) =>
      if !relevant then 0
      else if AddFails(s, f, refused, noRoom) then if key in s.ghosts then 1 else 0
      else if f in s.meta && s.meta[f].inMain then 1 else 0
    case EvictFolios(pages, request, limits, reported) =>
      if ChoosesSmall(cacheSize, s) then
        (if limits(0).Some? then 0 else reported + if s.mainSize < 0 then -s.mainSize else 0)
        - Count(pages, s.meta, Continued(s, pages, request, limits(0)), true)
      else 0
    case _ => 0
  }

  ghost function MainSlips(cacheSize: nat, es: seq<Event>): int {
    Total(cacheSize, es, (s, e) => MainSlip(cacheSize, s, e))
  }

  lemma EvictMainSlip(cacheSize: nat, s: State, pages: Pages, request: nat, limits: nat -> Option<nat>, reported: nat)
    requires OneNodeEach(s)
    ensures var u := Evict(cacheSize, s, pages, request, limits, reported).0;
            u.mainSize - |InMain(u.meta)|
            == s.mainSize - |InMain(s.meta)| + MainSlip(cacheSize, s, EvictFolios(pages, request, limits, reported))
  {
    if ChoosesSmall(cacheSize, s) {
      assert Single(s.small) by {
        forall f
          ensures multiset(s.small)[f] <= 1
        {
          assert Nodes(s)[f] <= 1;
        }
      }
      ScanPromotes(pages, s.meta, s.small, request, Budget(limits(0), s.small));
    } else {
      PassesKeep(s, pages, request, limits, 0, []);
    }
  }

  lemma StepMainSlip(cacheSize: nat, s: State, e: Event)
    requires OneNodeEach(s)
    ensures var u := Step(cacheSize, s, e);
            u.mainSize - |InMain(u.meta)| == s.mainSize - |InMain(s.meta)| + MainSlip(cacheSize, s, e)
  {
    match e {
      case FolioAdded(f, key, relevant, refused, noRoom) =>
        MarkWritten(s.meta, f, Meta(0, key in s.ghosts));
      case FolioAccessed(f, relevant) =>
        assert InMain(Accessed(s, f, relevant).meta) == InMain(s.meta);
      case FolioEvicted(f, key) =>
        MarkRemoved(s.meta, f);
      case EvictFolios(pages, request, limits, reported) =>
        EvictMainSlip(cacheSize, s, pages, request, limits, reported);
      case _ =>
    }
  }

  /** In every run, failed scans and false reports included, the main counter differs from the
      number of folios marked as in main by exactly the slips. */
  lemma {:induction false} MainCounterLedger(cacheSize: nat, es: seq<Event>)
    ensures var s := After(cacheSize, es); s.mainSize == |InMain(s.meta)| + MainSlips(cacheSize, es)
    decreases |es|
  {
    if es != [] {
      MainCounterLedger(cacheSize, es[..|es| - 1]);
      ReachableStates(cacheSize, es[..|es| - 1]);
      StepMainSlip(cacheSize, After(cacheSize, es[..|es| - 1]), es[|es| - 1]);
    }
  }

  // ---- when the main counter is right ---------------------------------------------------------------

  ghost predicate ScansSmall(cacheSize: nat, s: State, e: Event) {
    e.EvictFolios? && ChoosesSmall(cacheSize, s)
  }

  /** A scan of the small list that succeeds reports the number of folios it continued. */
  ghost predicate Honest(cacheSize: nat, s: State, e: Event) {
    ScansSmall(cacheSize, s, e) && e.limits(0).None? ==> e.reported == |Continued(s, e.pages, e.request, None)|
  }

  ghost predicate HonestRun(cacheSize: nat, es: seq<Event>) {
    Always(cacheSize, es, (s, e) => Honest(cacheSize, s, e))
  }

  /** The positive part of the slip, if the report is honest. */
  function Surplus(cacheSize: nat, s: State, e: Event): nat {
    match e
    case FolioAdded(f, key, relevant, refused, noRoom) =>
      if !relevant then 0
      else if AddFails(s, f, refused, noRoom) then if key in s.ghosts then 1 else 0
      else if f in s.meta && s.meta[f].inMain then 1 else 0
    case EvictFolios(pages, request, limits, _) =>
      if ChoosesSmall(cacheSize, s) && limits(0).None? then
        Count(pages, s.meta, Continued(s, pages, request, None), false) + if s.mainSize < 0 then -s.mainSize else 0
      else 0
    case _ => 0
  }

  /** The folios marked by a scan that then fails, so that no counter learns of them. */
  function LostMarks(cacheSize: nat, s: State, e: Event): nat {
    match e
    case EvictFolios(pages, request, limits, _) =>
      if ChoosesSmall(cacheSize, s)
          && limits(0).Some? then Count(pages, s.meta, Continued(s, pages, request, limits(0)), true)
      else 0
    case _ => 0
  }

  /** No failed add hits a ghost, no add overwrites a mark, every folio a successful small-list scan
      continues is newly marked by it, and its clamp does not fire. */
  ghost predicate Tidy(cacheSize: nat, s: State, e: Event) {
    match e
    case FolioAdded(f, key, relevant, refused, noRoom) =>
      relevant ==> if AddFails(s, f, refused, noRoom) then key !in s.ghosts else !(f in s.meta && s.meta[f].inMain)
    case EvictFolios(pages, request, limits, _) =>
      ChoosesSmall(cacheSize, s) && limits(0).None? ==>
        s.mainSize >= 0 && forall f :: f in Continued(s, pages, request, None) ==> Promoted(pages, s.meta, f)
    case _ => true
  }

  ghost predicate TidyRun(cacheSize: nat, es: seq<Event>) {
    Always(cacheSize, es, (s, e) => Tidy(cacheSize, s, e))
  }

  /** A small-list scan that fails has newly marked nothing. */
  ghost predicate FailsClean(cacheSize: nat, s: State, e: Event) {
    ScansSmall(cacheSize, s, e) && e.limits(0).Some? ==>
      forall f :: f in Continued(s, e.pages, e.request, e.limits(0)) ==> !Promoted(e.pages, s.meta, f)
  }

  ghost predicate FailsCleanRun(cacheSize: nat, es: seq<Event>) {
    Always(cacheSize, es, (s, e) => FailsClean(cacheSize, s, e))
  }

  ghost function Surpluses(cacheSize: nat, es: seq<Event>): int {
    Total(cacheSize, es, (s, e) => Surplus(cacheSize, s, e))
  }

  ghost function AllLostMarks(cacheSize: nat, es: seq<Event>): int {
    Total(cacheSize, es, (s, e) => LostMarks(cacheSize, s, e))
  }

  lemma MainSlipSplits(cacheSize: nat, s: State, e: Event)
    requires Honest(cacheSize, s, e)
    ensures MainSlip(cacheSize, s, e) == Surplus(cacheSize, s, e) - LostMarks(cacheSize, s, e)
  {
    if e.EvictFolios? {
      CountBoth(e.pages, s.meta, Continued(s, e.pages, e.request, None));
    }
  }

  lemma {:induction false} MainSlipsSplit(cacheSize: nat, es: seq<Event>)
    requires HonestRun(cacheSize, es)
    ensures MainSlips(cacheSize, es) == Surpluses(cacheSize, es) - AllLostMarks(cacheSize, es)
    decreases |es|
  {
    if es != [] {
      var init := es[..|es| - 1];
      AlwaysStep(cacheSize, es, init, (s, e) => Honest(cacheSize, s, e));
      MainSlipsSplit(cacheSize, init);
      MainSlipSplits(cacheSize, After(cacheSize, init), es[|es| - 1]);
    }
  }

  lemma SurplusesZeroWhenTidy(cacheSize: nat, es: seq<Event>)
    ensures Surpluses(cacheSize, es) >= 0 && (Surpluses(cacheSize, es) == 0 <==> TidyRun(cacheSize, es))
  {
    TotalZero(cacheSize, es, (s, e) => Surplus(cacheSize, s, e), (s, e) => Tidy(cacheSize, s, e));
  }

  lemma LostMarksZeroWhenClean(cacheSize: nat, es: seq<Event>)
    ensures AllLostMarks(cacheSize, es) >= 0 && (AllLostMarks(cacheSize, es) == 0 <==> FailsCleanRun(cacheSize, es))
  {
    TotalZero(cacheSize, es, (s, e) => LostMarks(cacheSize, s, e), (s, e) => FailsClean(cacheSize, s, e));
  }

  /** With honest reports the main counter is the number of marked folios, plus the surplus, minus
      the marks of failed scans. So it is negative exactly when those outweigh the other two. */
  lemma MainCounterSplit(cacheSize: nat, es: seq<Event>)
    requires HonestRun(cacheSize, es)
    ensures var s := After(cacheSize, es);
            && s.mainSize == |InMain(s.meta)| + Surpluses(cacheSize, es) - AllLostMarks(cacheSize, es)
            && (s.mainSize < 0 <==> AllLostMarks(cacheSize, es) > |InMain(s.meta)| + Surpluses(cacheSize, es))
  {
    MainCounterLedger(cacheSize, es);
    MainSlipsSplit(cacheSize, es);
  }

  /** On tidy runs the main counter never exceeds the number of marked folios, and agrees with it
      exactly when no failed scan has newly marked a folio. */
  lemma MainCounterExact(cacheSize: nat, es: seq<Event>)
    requires HonestRun(cacheSize, es) && TidyRun(cacheSize, es)
    ensures var s := After(cacheSize, es);
            && s.mainSize <= |InMain(s.meta)|
            && (s.mainSize == |InMain(s.meta)| <==> FailsCleanRun(cacheSize, es))
  {
    MainCounterSplit(cacheSize, es);
    SurplusesZeroWhenTidy(cacheSize, es);
    LostMarksZeroWhenClean(cacheSize, es);
  }

  /** While no failed scan has newly marked a folio, the main counter never falls short of the marked
      folios, so it is never negative; and it agrees with them exactly on tidy runs. */
  lemma MainCounterOneSided(cacheSize: nat, es: seq<Event>)
    requires HonestRun(cacheSize, es) && FailsCleanRun(cacheSize, es)
    ensures var s := After(cacheSize, es);
            && s.mainSize >= |InMain(s.meta)| >= 0
            && (s.mainSize == |InMain(s.meta)| <==> TidyRun(cacheSize, es))
  {
    MainCounterSplit(cacheSize, es);
    SurplusesZeroWhenTidy(cacheSize, es);
    LostMarksZeroWhenClean(cacheSize, es);
  }

  // ---- when the small counter is right --------------------------------------------------------------

  /** The folios with metadata that are not marked as in main. */
  function Unmarked(meta: MetaMap): set<Folio> {
    set f | f in meta && !meta[f].inMain
  }

  lemma UnmarkedCount(meta: MetaMap)
    ensures |Unmarked(meta)| == |meta| - |InMain(meta)|
  {
    assert Unmarked(meta) == meta.Keys - InMain(meta);
    assert InMain(meta) <= meta.Keys;
  }

  /** In every run the small counter differs from the number of unmarked folios by what both
      counters slipped together minus what the main counter slipped. */
  lemma SmallCounterLedger(cacheSize: nat, es: seq<Event>)
    ensures var s := After(cacheSize, es);
            s.smallSize == |Unmarked(s.meta)| + Slips(cacheSize, es) - MainSlips(cacheSize, es)
  {
    CounterLedger(cacheSize, es);
    MainCounterLedger(cacheSize, es);
    UnmarkedCount(After(cacheSize, es).meta);
  }

  /** Every folio that a successful scan of the small list continues is newly marked by it: none is
      continued because it is being read, dirty, without metadata, or marked already. */
  ghost predicate MarksAll(cacheSize: nat, s: State, e: Event) {
    ScansSmall(cacheSize, s, e) && e.limits(0).None? ==>
      forall f :: f in Continued(s, e.pages, e.request, None) ==> Promoted(e.pages, s.meta, f)
  }

  ghost predicate MarksAllRun(cacheSize: nat, es: seq<Event>) {
    Always(cacheSize, es, (s, e) => MarksAll(cacheSize, s, e))
  }

  lemma TidyMeansMarksAll(cacheSize: nat, es: seq<Event>)
    requires OrderlyRun(cacheSize, es)
    ensures TidyRun(cacheSize, es) <==> MarksAllRun(cacheSize, es)
  {
    forall k | 0 <= k < |es|
      ensures Tidy(cacheSize, After(cacheSize, es[..k]), es[k]) <==>
              MarksAll(cacheSize, After(cacheSize, es[..k]), es[k])
    {
      assert Orderly(cacheSize, After(cacheSize, es[..k]), es[k]);
    }
  }

  lemma SmallCounterSplit(cacheSize: nat, es: seq<Event>)
    requires OrderlyRun(cacheSize, es) && HonestRun(cacheSize, es)
    ensures var s := After(cacheSize, es);
            s.smallSize == |Unmarked(s.meta)| - Surpluses(cacheSize, es) + AllLostMarks(cacheSize, es)
    ensures Surpluses(cacheSize, es) >= 0 && (Surpluses(cacheSize, es) == 0 <==> MarksAllRun(cacheSize, es))
    ensures AllLostMarks(cacheSize, es) >= 0 && (AllLostMarks(cacheSize, es) == 0 <==> FailsCleanRun(cacheSize, es))
  {
    SmallCounterLedger(cacheSize, es);
    SlipsZeroWhenOrderly(cacheSize, es);
    MainSlipsSplit(cacheSize, es);
    SurplusesZeroWhenTidy(cacheSize, es);
    LostMarksZeroWhenClean(cacheSize, es);
    TidyMeansMarksAll(cacheSize, es);
  }

  /** On orderly runs whose failed scans mark nothing, the small counter never exceeds the number of
      unmarked folios, and agrees with it if and only if every successful small-list scan continues
      only folios it newly marks. */
  lemma SmallCounterExact(cacheSize: nat, es: seq<Event>)
    requires OrderlyRun(cacheSize, es) && HonestRun(cacheSize, es) && FailsCleanRun(cacheSize, es)
    ensures var s := After(cacheSize, es);
            && s.smallSize <= |Unmarked(s.meta)|
            && (s.smallSize == |Unmarked(s.meta)| <==> MarksAllRun(cacheSize, es))
  {
    SmallCounterSplit(cacheSize, es);
  }

  /** On orderly runs whose successful scans continue only folios they mark, it never falls short of
      them, and agrees with them if and only if no failed scan has newly marked a folio. */
  lemma SmallCounterAfterFailures(cacheSize: nat, es: seq<Event>)
    requires OrderlyRun(cacheSize, es) && HonestRun(cacheSize, es) && MarksAllRun(cacheSize, es)
    ensures var s := After(cacheSize, es);
            && s.smallSize >= |Unmarked(s.meta)|
            && (s.smallSize == |Unmarked(s.meta)| <==> FailsCleanRun(cacheSize, es))
  {
    SmallCounterSplit(cacheSize, es);
  }


  // ---- what does not hold ----------------------------------------------------------------------------

  function Reading(f: Folio): Page {
    Page(false, true, false, false)
  }

  function Cached(f: Folio): Page {
    Page(true, true, false, false)
  }

  const READ_SCAN: Event := EvictFolios(Reading, 1, (n: nat) => None, 1)

  lemma ReadingMoves(cacheSize: nat)
    ensures After(cacheSize, [ADD, READ_SCAN]) == State([], [7], map[7 := Meta(0, false)], {}, 0, 1)
  {
    var s := State([7], [], map[7 := Meta(0, false)], {}, 1, 0);
    AfterLast(cacheSize, [], ADD);
    AfterLast(cacheSize, [ADD], READ_SCAN);
    assert [] + [ADD] == [ADD] && [ADD] + [READ_SCAN] == [ADD, READ_SCAN];
    assert Step(cacheSize, INIT, ADD) == s;
    assert Scanned(EvictSmallCb, Reading, s.meta, s.small, 1, 1) == Scan(s.meta, [7], [], []);
  }

  lemma AlwaysAppend(cacheSize: nat, init: seq<Event>, e: Event, p: (State, Event) -> bool)
    ensures Always(cacheSize, init + [e], p) <==> Always(cacheSize, init, p) && p(After(cacheSize, init), e)
  {
    assert (init + [e])[..|init|] == init;
    AlwaysStep(cacheSize, init + [e], init, p);
  }

  lemma AlwaysThree(cacheSize: nat, a: Event, b: Event, c: Event, p: (State, Event) -> bool)
    requires p(INIT, a) && p(After(cacheSize, [a]), b) && p(After(cacheSize, [a, b]), c)
    ensures Always(cacheSize, [a, b, c], p)
  {
    assert [] + [a] == [a] && [a] + [b] == [a, b] && [a, b] + [c] == [a, b, c];
    AlwaysAppend(cacheSize, [], a, p);
    AlwaysAppend(cacheSize, [a], b, p);
    AlwaysAppend(cacheSize, [a, b], c, p);
  }

  lemma ReadScanFits(cacheSize: nat)
    ensures var s := After(cacheSize, [ADD]); Orderly(cacheSize, s, READ_SCAN) && Honest(cacheSize, s, READ_SCAN)
  {
    var s := State([7], [], map[7 := Meta(0, false)], {}, 1, 0);
    AfterLast(cacheSize, [], ADD);
    assert [] + [ADD] == [ADD];
    assert After(cacheSize, [ADD]) == s;
    assert Scanned(EvictSmallCb, Reading, s.meta, s.small, 1, 1) == Scan(s.meta, [7], [], []);
  }

  /** The small counter is not the length of the small list: a folio still being read when it is
      scanned moves to the main list without a mark, and its removal is charged to the wrong
      counter, even on an orderly run without failed scans. */
  lemma SmallCounterGoesNegative(cacheSize: nat)
    ensures exists es :: OrderlyRun(cacheSize, es) && HonestRun(cacheSize, es) && FailsCleanRun(cacheSize, es)
                      && After(cacheSize, es).smallSize == -1 && After(cacheSize, es).mainSize == 1
  {
    var es := [ADD, READ_SCAN, GONE];
    ReadingMoves(cacheSize);
    ReadScanFits(cacheSize);
    AlwaysThree(cacheSize, ADD, READ_SCAN, GONE, (s, e) => Orderly(cacheSize, s, e));
    AlwaysThree(cacheSize, ADD, READ_SCAN, GONE, (s, e) => Honest(cacheSize, s, e));
    AlwaysThree(cacheSize, ADD, READ_SCAN, GONE, (s, e) => FailsClean(cacheSize, s, e));
    AfterLast(cacheSize, [ADD, READ_SCAN], GONE);
    assert [ADD, READ_SCAN] + [GONE] == es;
  }

  const ADD: Event := FolioAdded(7, (1, 1), true, false, false)
  const ACCESS: Event := FolioAccessed(7, true)
  const FAILED_SCAN: Event := EvictFolios(Cached, 1, (n: nat) => Some(1), 0)
  const GONE: Event := FolioEvicted(7, (1, 1))

  lemma FailedScanMarks(cacheSize: nat)
    ensures Step(cacheSize, State([7], [], map[7 := Meta(2, false)], {}, 1, 0), FAILED_SCAN)
         == State([], [7], map[7 := Meta(2, true)], {}, 1, 0)
  {
    var s := State([7], [], map[7 := Meta(2, false)], {}, 1, 0);
    var m := map[7 := Meta(2, true)];
    assert s.meta[7 := s.meta[7].(inMain := true)] == m;
    assert Scanned(EvictSmallCb, Cached, s.meta, s.small, 1, 1) == Scan(m, [7], [], []);
  }

  lemma AccessedTwice(cacheSize: nat)
    ensures After(cacheSize, [ADD, ACCESS, ACCESS]) == State([7], [], map[7 := Meta(2, false)], {}, 1, 0)
  {
    AfterLast(cacheSize, [], ADD);
    AfterLast(cacheSize, [ADD], ACCESS);
    AfterLast(cacheSize, [ADD, ACCESS], ACCESS);
    assert [] + [ADD] == [ADD] && [ADD] + [ACCESS] == [ADD, ACCESS];
    assert [ADD, ACCESS] + [ACCESS] == [ADD, ACCESS, ACCESS];
    var s0, s1 := State([7], [], map[7 := Meta(0, false)], {}, 1, 0), State([7], [], map[7 := Meta(1, false)],
        {}, 1, 0);
    assert Step(cacheSize, INIT, ADD) == s0;
    assert Step(cacheSize, s0, ACCESS) == s1;
  }

  /** The main counter can go negative once a small-list scan fails after setting a mark, even if
      nothing else is out of order. */
  lemma MainCounterGoesNegative(cacheSize: nat)
    ensures exists es :: HonestRun(cacheSize, es) && TidyRun(cacheSize, es) && After(cacheSize, es).mainSize == -1
  {
    AccessedTwice(cacheSize);
    FailedScanMarks(cacheSize);
    var es := [ADD, ACCESS, ACCESS] + [FAILED_SCAN] + [GONE];
    AfterLast(cacheSize, [ADD, ACCESS, ACCESS], FAILED_SCAN);
    AfterLast(cacheSize, [ADD, ACCESS, ACCESS] + [FAILED_SCAN], GONE);
    FailedRunFits(cacheSize, (s, e) => Honest(cacheSize, s, e));
    FailedRunFits(cacheSize, (s, e) => Tidy(cacheSize, s, e));
    var s := State([], [7], map[7 := Meta(2, true)], {}, 1, 0);
    assert Step(cacheSize, s, GONE).mainSize == -1;
    assert HonestRun(cacheSize, es) && TidyRun(cacheSize, es) && After(cacheSize, es).mainSize == -1;
  }

  lemma FailedRunFits(cacheSize: nat, p: (State, Event) -> bool)
    requires p(INIT, ADD) && forall s, e :: e == ACCESS || e == FAILED_SCAN || e == GONE ==> p(s, e)
    ensures Always(cacheSize, [ADD, ACCESS, ACCESS] + [FAILED_SCAN] + [GONE], p)
  {
    AlwaysThree(cacheSize, ADD, ACCESS, ACCESS, p);
    AlwaysAppend(cacheSize, [ADD, ACCESS, ACCESS], FAILED_SCAN, p);
    AlwaysAppend(cacheSize, [ADD, ACCESS, ACCESS] + [FAILED_SCAN], GONE, p);
  }

  /** A negative small counter repairs itself: read as unsigned it exceeds every threshold, so
      the next eviction scans the small list and, unless that scan fails, resets the counter. */
  lemma NegativeSmallCounterResets(cacheSize: nat, s: State, pages: Pages, request: nat, limits: nat -> Option<nat>,
                                   reported: nat)
    requires cacheSize < TWO_TO_THE_64 && -0x8000_0000_0000_0000 <= s.smallSize < 0
    ensures Evict(cacheSize, s, pages, request, limits, reported) == EvictSmall(s, pages, request, limits(0), reported)
    ensures limits(0).None? ==> Evict(cacheSize, s, pages, request, limits, reported).0.smallSize == 0
  {
    assert Unsigned(s.smallSize) >= cacheSize / 15;
  }
}
