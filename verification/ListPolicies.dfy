/** The one-list policies lru.c, mru.c and scan_resist.c. The kernel's list calls are stated as
    this interface: adding fails when the folio is already in the list, moving fails when it is
    not, and a scan calls the callback from head to tail, with the position, until the list ends
    or the request is filled. */
module ListPolicies {
  import opened FolioLists
  import opened Options

  datatype Kind = Lru | Mru | ScanResist

  predicate AddsAtTail(kind: Kind) {
    kind.Lru?
  }

  predicate PromotesToTail(kind: Kind) {
    kind.Lru? || kind.ScanResist?
  }

  datatype Page = Page(uptodate: bool, lru: bool)

  /** Positions from here on are evicted whatever the state of the page. */
  const PATIENCE: nat := 200

  // ---- the handlers on values --------------------------------------------------------------------

  function Placed(list: seq<Folio>, f: Folio, tail: bool): seq<Folio> {
    if tail then list + [f] else [f] + list
  }

  function Added(kind: Kind, list: seq<Folio>, f: Folio, relevant: bool): seq<Folio> {
    if relevant then Placed(Without(list, f), f, AddsAtTail(kind)) else list
  }

  function Accessed(kind: Kind, list: seq<Folio>, f: Folio, relevant: bool): seq<Folio> {
    if relevant && f in list then Placed(Without(list, f), f, PromotesToTail(kind)) else list
  }

  predicate Ready(p: Page) {
    p.uptodate && p.lru
  }

  /** The first `room` folios the callback accepts, the scan being at position `idx`. */
  function Nominated(pages: Folio -> Page, list: seq<Folio>, idx: nat, room: nat): seq<Folio> {
    if list == [] || room == 0 then []
    else if idx < PATIENCE && !Ready(pages(list[0])) then Nominated(pages, list[1..], idx + 1, room)
    else [list[0]] + Nominated(pages, list[1..], idx + 1, room - 1)
  }

  // ---- the kernel list and the handlers ------------------------------------------------------------

  class FolioList {
    var nodes: seq<Folio>

    constructor ()
      ensures nodes == []
    {
      nodes := [];
    }

    /** bpf_cache_ext_list_add and _add_tail. */
    method Add(f: Folio, tail: bool) returns (failed: bool)
      modifies this
      ensures failed <==> f in old(nodes)
      ensures nodes == if failed then old(nodes) else Placed(old(nodes), f, tail)
    {
      failed := f in nodes;
      if !failed {
        nodes := if tail then nodes + [f] else [f] + nodes;
      }
    }

    /** bpf_cache_ext_list_move. */
    method Move(f: Folio, tail: bool)
      modifies this
      ensures nodes == if f in old(nodes) then Placed(Without(old(nodes), f), f, tail) else old(nodes)
    {
      if f in nodes {
        Del(f);
        nodes := if tail then nodes + [f] else [f] + nodes;
      }
    }

    /** bpf_cache_ext_list_del. */
    method Del(f: Folio)
      modifies this
      ensures nodes == Without(old(nodes), f)
    {
      nodes := Without(nodes, f);
    }
  }

  lemma {:induction false} WithoutAbsent(list: seq<Folio>, f: Folio)
    requires f !in list
    ensures Without(list, f) == list
  {
    if list != [] {
      WithoutAbsent(list[1..], f);
    }
  }

  class Policy {
    const kind: Kind
    const mainList: FolioList

    constructor (kind: Kind)
      ensures this.kind == kind && fresh(mainList) && mainList.nodes == []
    {
      this.kind := kind;
      mainList := new FolioList();
    }

    method FolioAdded(f: Folio, relevant: bool)
      modifies mainList
      ensures mainList.nodes == Added(kind, old(mainList.nodes), f, relevant)
    {
      if !relevant {
        return;
      }
      var failed := mainList.Add(f, AddsAtTail(kind));
      if failed {
        mainList.Move(f, AddsAtTail(kind));
      } else {
        WithoutAbsent(old(mainList.nodes), f);
      }
    }

    method FolioAccessed(f: Folio, relevant: bool)
      modifies mainList
      ensures mainList.nodes == Accessed(kind, old(mainList.nodes), f, relevant)
    {
      if relevant {
        mainList.Move(f, PromotesToTail(kind));
      }
    }

    method FolioEvicted(f: Folio)
      modifies mainList
      ensures mainList.nodes == Without(old(mainList.nodes), f)
    {
      mainList.Del(f);
    }

    /** evict_cb: true for EVICT_NODE. */
    function OnNode(idx: nat, p: Page): bool {
      !(idx < PATIENCE && (!p.uptodate || !p.lru))
    }

    method EvictFolios(pages: Folio -> Page, request: nat) returns (out: seq<Folio>)
      ensures out == Nominated(pages, mainList.nodes, 0, request)
    {
      var list := mainList.nodes;
      out := [];
      var idx := 0;
      while idx < |list| && |out| < request
        invariant idx <= |list| && |out| <= request
        invariant out + Nominated(pages, list[idx..], idx, request - |out|) == Nominated(pages, list, 0, request)
      {
        assert list[idx..][0] == list[idx] && list[idx..][1..] == list[idx + 1..];
        if OnNode(idx, pages(list[idx])) {
          out := out + [list[idx]];
        }
        idx := idx + 1;
      }
    }
  }

  // ---- which folios a scan nominates ------------------------------------------------------------------

  /** The folios from position `idx` on that are at position 200 or later, or whose page is up to date
      and on an LRU list. */
  function Candidates(pages: Folio -> Page, list: seq<Folio>, idx: nat): seq<Folio> {
    if list == [] then []
    else
      (if idx >= 200 || (pages(list[0]).uptodate && pages(list[0]).lru) then [list[0]] else [])
      + Candidates(pages, list[1..], idx + 1)
  }

  /** A scan nominates the first `room` candidates, in list order. */
  lemma {:induction false} NominatesFirst(pages: Folio -> Page, list: seq<Folio>, idx: nat, room: nat)
    ensures var cs := Candidates(pages, list, idx);
            Nominated(pages, list, idx, room) == cs[..if room < |cs| then room else |cs|]
    decreases |list|
  {
    if list != [] && room != 0 {
      var skip := idx < PATIENCE && !Ready(pages(list[0]));
      NominatesFirst(pages, list[1..], idx + 1, if skip then room else room - 1);
    }
  }

  lemma {:induction false} ManyCandidates(pages: Folio -> Page, list: seq<Folio>, idx: nat)
    ensures |Candidates(pages, list, idx)| >= |list| - (if idx < PATIENCE then PATIENCE - idx else 0)
    decreases |list|
  {
    if list != [] {
      ManyCandidates(pages, list[1..], idx + 1);
    }
  }

  /** A scan of L folios nominates at least min(R, L - 200) and at most R of them. */
  lemma ScanMakesProgress(pages: Folio -> Page, list: seq<Folio>, request: nat)
    ensures var out := Nominated(pages, list, 0, request);
            && |out| <= request && (|out| >= request || |out| >= |list| - PATIENCE)
  {
    NominatesFirst(pages, list, 0, request);
    ManyCandidates(pages, list, 0);
  }

  /** A ready folio before a nominated one is nominated as well. */
  lemma {:induction false} NoneOvertaken(pages: Folio -> Page, list: seq<Folio>, idx: nat, room: nat, i: nat, j: nat)
    requires i < j < |list| && (forall a, b :: 0 <= a < b < |list| ==> list[a] != list[b])
    requires Ready(pages(list[i])) && list[j] in Nominated(pages, list, idx, room)
    ensures list[i] in Nominated(pages, list, idx, room)
    decreases |list|
  {
    if i > 0 {
      var skip := idx < PATIENCE && !Ready(pages(list[0]));
      NoneOvertaken(pages, list[1..], idx + 1, if skip then room else room - 1, i - 1, j - 1);
    }
  }

  // ---- runs -------------------------------------------------------------------------------------------

  datatype Event = FolioAdded(f: Folio, relevant: bool) | FolioAccessed(f: Folio, relevant: bool)
      | FolioEvicted(f: Folio)

  function After(kind: Kind, es: seq<Event>): seq<Folio> {
    if es == [] then []
    else
      var list := After(kind, es[..|es| - 1]);
      match es[|es| - 1]
      case FolioAdded(f, relevant) => Added(kind, list, f, relevant)
      case FolioAccessed(f, relevant) => Accessed(kind, list, f, relevant)
      case FolioEvicted(f) => Without(list, f)
  }

  /** When a folio was last touched, and whether by an access or by an add. */
  datatype Touch = Touch(time: nat, access: bool)

  /** The last touch of `f` since its last eviction: adds of watched folios count always,
      accesses only while the folio is cached. */
  function LastTouch(es: seq<Event>, f: Folio): (t: Option<Touch>)
    ensures t.Some? ==> t.value.time < |es|
  {
    if es == [] then None
    else
      var n := |es| - 1;
      var before := LastTouch(es[..n], f);
      match es[n]
      case FolioAdded(g, relevant) => if g == f && relevant then Some(Touch(n, false)) else before
      case FolioAccessed(g, relevant) => if g == f && relevant && before.Some? then Some(Touch(n, true)) else before
      case FolioEvicted(g) => if g == f then None else before
  }

  /** Where a touch puts a folio: later touches further out, towards the end it goes to. */
  function Key(kind: Kind, t: Touch): int {
    var n: int := t.time + 1;
    if (if t.access then PromotesToTail(kind) else AddsAtTail(kind)) then n else -n
  }

  ghost function KeyOf(kind: Kind, es: seq<Event>, f: Folio): int {
    if LastTouch(es, f).Some? then Key(kind, LastTouch(es, f).value) else 0
  }

  ghost predicate SortedBy(list: seq<Folio>, key: Folio -> int) {
    forall i, j :: 0 <= i < j < |list| ==> key(list[i]) < key(list[j])
  }

  /** The list holds exactly the touched folios, each once, in the order of their keys. */
  ghost predicate InOrder(kind: Kind, es: seq<Event>, list: seq<Folio>) {
    && (forall f :: f in list <==> LastTouch(es, f).Some?)
    && SortedBy(list, (f: Folio) => KeyOf(kind, es, f))
  }

  lemma {:induction false} WithoutMembers(list: seq<Folio>, f: Folio)
    ensures forall g :: g in Without(list, f) <==> g in list && g != f
  {
    if list != [] {
      WithoutMembers(list[1..], f);
      assert forall g :: g in list <==> g == list[0] || g in list[1..];
    }
  }

  lemma SortedParts(list: seq<Folio>, key: Folio -> int)
    requires SortedBy(list, key) && list != []
    ensures SortedBy(list[1..], key) && forall g :: g in list[1..] ==> key(list[0]) < key(g)
  {
  }

  lemma {:induction false} WithoutSorted(list: seq<Folio>, f: Folio, key: Folio -> int)
    requires SortedBy(list, key)
    ensures SortedBy(Without(list, f), key)
  {
    if list != [] {
      SortedParts(list, key);
      WithoutSorted(list[1..], f, key);
      WithoutMembers(list[1..], f);
      if list[0] != f {
        PlacedSorted(Without(list[1..], f), list[0], false, key);
      }
    }
  }

  lemma PlacedSorted(list: seq<Folio>, f: Folio, tail: bool, key: Folio -> int)
    requires SortedBy(list, key)
    requires forall g :: g in list ==> if tail then key(g) < key(f) else key(f) < key(g)
    ensures SortedBy(Placed(list, f, tail), key)
  {
  }

  lemma SortedAgree(list: seq<Folio>, key: Folio -> int, new_: Folio -> int)
    requires SortedBy(list, key) && forall f :: f in list ==> key(f) == new_(f)
    ensures SortedBy(list, new_)
  {
  }

  /** A folio just touched goes to the end the touch selects. */
  lemma TouchedInOrder(kind: Kind, init: seq<Event>, e: Event, list: seq<Folio>, f: Folio, access: bool, tail: bool)
    requires InOrder(kind, init, list) && LastTouch(init + [e], f) == Some(Touch(|init|, access))
    requires forall g :: g != f ==> LastTouch(init + [e], g) == LastTouch(init, g)
    requires tail == if access then PromotesToTail(kind) else AddsAtTail(kind)
    ensures InOrder(kind, init + [e], Placed(Without(list, f), f, tail))
  {
    var es := init + [e];
    var rest := Without(list, f);
    WithoutMembers(list, f);
    WithoutSorted(list, f, (g: Folio) => KeyOf(kind, init, g));
    SortedAgree(rest, (g: Folio) => KeyOf(kind, init, g), (g: Folio) => KeyOf(kind, es, g));
    forall g | g in rest
      ensures if tail then KeyOf(kind, es, g) < KeyOf(kind, es, f) else KeyOf(kind, es, f) < KeyOf(kind, es, g)
    {
    }
    PlacedSorted(rest, f, tail, (g: Folio) => KeyOf(kind, es, g));
  }

  lemma UntouchedInOrder(kind: Kind, init: seq<Event>, e: Event, list: seq<Folio>)
    requires InOrder(kind, init, list) && forall g :: LastTouch(init + [e], g) == LastTouch(init, g)
    ensures InOrder(kind, init + [e], list)
  {
    SortedAgree(list, (g: Folio) => KeyOf(kind, init, g), (g: Folio) => KeyOf(kind, init + [e], g));
  }

  lemma EvictedInOrder(kind: Kind, init: seq<Event>, e: Event, list: seq<Folio>, f: Folio)
    requires InOrder(kind, init, list) && LastTouch(init + [e], f).None?
    requires forall g :: g != f ==> LastTouch(init + [e], g) == LastTouch(init, g)
    ensures InOrder(kind, init + [e], Without(list, f))
  {
    WithoutMembers(list, f);
    WithoutSorted(list, f, (g: Folio) => KeyOf(kind, init, g));
    SortedAgree(Without(list, f), (g: Folio) => KeyOf(kind, init, g), (g: Folio) => KeyOf(kind, init + [e], g));
  }

  /** After any events the list is exactly the touched folios in the order of their keys. */
  lemma {:induction false} RunInOrder(kind: Kind, es: seq<Event>)
    ensures InOrder(kind, es, After(kind, es))
    decreases |es|
  {
    if es != [] {
      var init, e := es[..|es| - 1], es[|es| - 1];
      RunInOrder(kind, init);
      assert init + [e] == es;
      var list := After(kind, init);
      match e {
        case FolioAdded(f, relevant) =>
          if relevant {
            TouchedInOrder(kind, init, e, list, f, false, AddsAtTail(kind));
          } else {
            UntouchedInOrder(kind, init, e, list);
          }
        case FolioAccessed(f, relevant) =>
          if relevant && f in list {
            TouchedInOrder(kind, init, e, list, f, true, PromotesToTail(kind));
          } else {
            UntouchedInOrder(kind, init, e, list);
          }
        case FolioEvicted(f) =>
          EvictedInOrder(kind, init, e, list, f);
      }
    }
  }

  /** The time and kind of the last touch of the folio at position `i`. */
  ghost function TouchAt(kind: Kind, es: seq<Event>, i: nat): Touch
    requires i < |After(kind, es)|
  {
    RunInOrder(kind, es);
    assert After(kind, es)[i] in After(kind, es);
    LastTouch(es, After(kind, es)[i]).value
  }

  /** LRU keeps the folios in the order of their last touch, MRU in the opposite order. The
      scan-resistant list is the folios last touched by an add, newest first, followed by those
      last touched by an access, oldest first. */
  lemma ListOrders(kind: Kind, es: seq<Event>, i: nat, j: nat)
    requires i < j < |After(kind, es)|
    ensures After(kind, es)[i] != After(kind, es)[j]
    ensures var x, y := TouchAt(kind, es, i), TouchAt(kind, es, j);
            match kind
            case Lru => x.time < y.time
            case Mru => x.time > y.time
            case ScanResist =>
              if x.access then y.access && x.time < y.time else y.access || x.time > y.time
  {
    RunInOrder(kind, es);
    var list := After(kind, es);
    assert list[i] in list && list[j] in list;
    assert KeyOf(kind, es, list[i]) < KeyOf(kind, es, list[j]);
  }

  /** An eviction never overtakes: if it nominates `g`, it also nominates every ready folio with
      a smaller key. Under LRU these are the folios touched less recently; under the scan-resistant
      policy a re-accessed folio goes only together with all ready folios that were merely added. */
  lemma SmallerKeysGoFirst(kind: Kind, es: seq<Event>, pages: Folio -> Page, request: nat, f: Folio, g: Folio)
    requires g in Nominated(pages, After(kind, es), 0, request) && Ready(pages(f))
    requires LastTouch(es, f).Some? && LastTouch(es, g).Some?
    requires Key(kind, LastTouch(es, f).value) < Key(kind, LastTouch(es, g).value)
    ensures f in Nominated(pages, After(kind, es), 0, request)
  {
    RunInOrder(kind, es);
    var list := After(kind, es);
    var key := (h: Folio) => KeyOf(kind, es, h);
    var i, j := SortedPositions(list, key, f, g);
    NoneOvertaken(pages, list, 0, request, i, j);
  }

  lemma SortedPositions(list: seq<Folio>, key: Folio -> int, f: Folio, g: Folio) returns (i: nat, j: nat)
    requires SortedBy(list, key) && f in list && g in list && key(f) < key(g)
    ensures i < j < |list| && list[i] == f && list[j] == g
    ensures forall a, b :: 0 <= a < b < |list| ==> list[a] != list[b]
  {
    i :| 0 <= i < |list| && list[i] == f;
    j :| 0 <= j < |list| && list[j] == g;
    forall a, b | 0 <= a < b < |list|
      ensures list[a] != list[b]
    {
      assert key(list[a]) < key(list[b]);
    }
  }
}
