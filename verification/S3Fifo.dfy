/** The S3-FIFO policy of s3_fifo.c: event handlers over two lists, a metadata map, a ghost map
    and two counters. The kernel's list calls are stated as this interface: adding fails when the
    folio already has a node; an extended scan takes nodes from the head, each node at most once,
    until the list or the request is exhausted, and moves every node it visited to the tail of the
    list the callback's answer selects. It also reports how many folios continued; the policy
    believes any number. */
module S3Fifo {
  import opened FolioLists
  import opened Options

  type GhostKey = (nat, nat)

  datatype Meta = Meta(freq: int, inMain: bool)

  datatype Page = Page(uptodate: bool, lru: bool, dirty: bool, writeback: bool)

  /** The folios with metadata, and the page flags as one call sees them. */
  type MetaMap = map<Folio, Meta>
  type Pages = Folio -> Page

  datatype State = State(small: seq<Folio>, main: seq<Folio>, meta: MetaMap, ghosts: set<GhostKey>,
                         smallSize: int, mainSize: int)

  const INIT: State := State([], [], map[], {}, 0, 0)
  const TWO_TO_THE_64: int := 0x1_0000_0000_0000_0000

  // ---- scans ----------------------------------------------------------------------------------

  /** The five callbacks: evict_small_cb and evict_main_iter_fn_0 to 3. */
  datatype Callback = EvictSmallCb | EvictMainIterFn(id: nat)

  predicate Clean(p: Page) {
    p.uptodate && p.lru && !p.dirty && !p.writeback
  }

  /** The callback may judge the folio by its frequency. */
  predicate Eligible(pages: Pages, meta: MetaMap, f: Folio) {
    Clean(pages(f)) && f in meta
  }

  /** Whether the callback answers EVICT_NODE, and the metadata it leaves. */
  function Call(cb: Callback, pages: Pages, meta: MetaMap, f: Folio): (bool, MetaMap) {
    if !Eligible(pages, meta, f) then (false, meta)
    else
      match cb
      case EvictSmallCb =>
        if meta[f].freq > 1 then (false, meta[f := meta[f].(inMain := true)]) else (true, meta)
      case EvictMainIterFn(id) =>
        var freq := meta[f].freq - 1;
        (freq < id, meta[f := meta[f].(freq := freq)])
  }

  /** A finished scan: the metadata, the continued and the nominated folios in list order, and
      the nodes not visited. */
  datatype Scan = Scan(meta: MetaMap, kept: seq<Folio>, out: seq<Folio>, left: seq<Folio>)

  /** Visit nodes of `list` while `room` nominations are missing, at most `budget` of them. */
  function Scanned(cb: Callback, pages: Pages, meta: MetaMap, list: seq<Folio>, room: nat, budget: nat): Scan
    decreases |list|
  {
    if list == [] || room == 0 || budget == 0 then Scan(meta, [], [], list)
    else
      var (evict, m) := Call(cb, pages, meta, list[0]);
      if evict then
        var r := Scanned(cb, pages, m, list[1..], room - 1, budget - 1);
        r.(out := [list[0]] + r.out)
      else
        var r := Scanned(cb, pages, m, list[1..], room, budget - 1);
        r.(kept := [list[0]] + r.kept)
  }

  function Budget(limit: Option<nat>, list: seq<Folio>): nat {
    if limit.Some? then limit.value else |list|
  }

  // ---- the handlers on values ------------------------------------------------------------------

  /** A signed 64-bit value as the unsigned comparison with `cache_size / 15` reads it. */
  function Unsigned(x: int): int {
    if x < 0 then x + TWO_TO_THE_64 else x
  }

  predicate ChoosesSmall(cacheSize: nat, s: State) {
    Unsigned(s.smallSize) >= cacheSize / 15 || s.mainSize <= 2 * s.smallSize
  }

  function AfterSmallScan(s: State, r: Scan): State {
    s.(meta := r.meta, small := r.left + r.out, main := s.main + r.kept)
  }

  /** evict_small; `limit` is the number of nodes after which the scan reports an error, and
      `reported` the continue count the kernel hands back otherwise. */
  function EvictSmall(s: State, pages: Pages, request: nat, limit: Option<nat>, reported: nat): (State, seq<Folio>) {
    var r := Scanned(EvictSmallCb, pages, s.meta, s.small, request, Budget(limit, s.small));
    var s' := AfterSmallScan(s, r);
    if limit.Some? then (s', r.out)
    else
      (s'.(smallSize := if s.smallSize < 0 then 0 else s.smallSize - reported,
           mainSize := if s.mainSize < 0 then reported else s.mainSize + reported), r.out)
  }

  /** One pass over the main list: all visited nodes end up at its tail. */
  function MainPass(s: State, pages: Pages, id: nat, room: nat, limit: Option<nat>): (State, seq<Folio>) {
    var r := Scanned(EvictMainIterFn(id), pages, s.meta, s.main, room, Budget(limit, s.main));
    ScanFits(EvictMainIterFn(id), pages, s.meta, s.main, room, Budget(limit, s.main));
    (s.(meta := r.meta, main := r.left + s.main[..|s.main| - |r.left|]), r.out)
  }

  /** The passes from the `id`-th on, after `out` was nominated. */
  function MainPasses(s: State, pages: Pages, request: nat, limits: nat -> Option<nat>, id: nat, out: seq<Folio>):
      (State, seq<Folio>)
    requires |out| <= request && id <= 4
    decreases 4 - id
  {
    if id == 4 || (id > 0 && |out| >= request) then (s, out)
    else
      PassFits(s, pages, id, request - |out|, limits(id));
      var (s', more) := MainPass(s, pages, id, request - |out|, limits(id));
      if limits(id).Some? then (s', out + more) else MainPasses(s', pages, request, limits, id + 1, out + more)
  }

  lemma {:induction false} ScanFits(cb: Callback, pages: Pages, meta: MetaMap, list: seq<Folio>, room: nat, budget: nat)
    ensures var r := Scanned(cb, pages, meta, list, room, budget);
            && |r.out| <= room && |r.kept| + |r.out| + |r.left| == |list|
            && r.left == list[|list| - |r.left|..]
    decreases |list|
  {
    if list != [] && room != 0 && budget != 0 {
      var (evict, m) := Call(cb, pages, meta, list[0]);
      ScanFits(cb, pages, m, list[1..], if evict then room - 1 else room, budget - 1);
    }
  }

  lemma PassFits(s: State, pages: Pages, id: nat, room: nat, limit: Option<nat>)
    ensures |MainPass(s, pages, id, room, limit).1| <= room
  {
    ScanFits(EvictMainIterFn(id), pages, s.meta, s.main, room, Budget(limit, s.main));
  }

  function Evict(cacheSize: nat, s: State, pages: Pages, request: nat, limits: nat -> Option<nat>,
                 reported: nat): (State, seq<Folio>) {
    if ChoosesSmall(cacheSize, s) then EvictSmall(s, pages, request, limits(0), reported)
    else MainPasses(s, pages, request, limits, 0, [])
  }

  function Accessed(s: State, f: Folio, relevant: bool): State {
    if !relevant || f !in s.meta then s
    else
      var freq := s.meta[f].freq + 1;
      s.(meta := s.meta[f := s.meta[f].(freq := if freq > 3 then 3 else freq)])
  }

  function Evicted(s: State, f: Folio, key: GhostKey): State {
    var g := s.(ghosts := s.ghosts + {key});
    if f !in s.meta then g
    else if s.meta[f].inMain then g.(mainSize := s.mainSize - 1, meta := s.meta - {f})
    else g.(smallSize := s.smallSize - 1, meta := s.meta - {f})
  }

  /** The folio gets no node, or no metadata. */
  predicate AddFails(s: State, f: Folio, refused: bool, noRoom: bool) {
    refused || noRoom || f in s.small || f in s.main
  }

  function Added(s: State, f: Folio, key: GhostKey, relevant: bool, refused: bool, noRoom: bool): State {
    if !relevant then s
    else
      var ghost_ := key in s.ghosts;
      var g := s.(ghosts := s.ghosts - {key}, mainSize := s.mainSize + (if ghost_ then 1 else 0),
                  smallSize := s.smallSize + (if ghost_ then 0 else 1));
      if AddFails(s, f, refused, noRoom) then g
      else if ghost_ then g.(main := s.main + [f], meta := s.meta[f := Meta(0, true)])
      else g.(small := s.small + [f], meta := s.meta[f := Meta(0, false)])
  }

  // ---- the handlers ------------------------------------------------------------------------------

  class Policy {
    const cacheSize: nat
    var smallList: seq<Folio>
    var mainList: seq<Folio>
    var meta: MetaMap
    var ghosts: set<GhostKey>
    var smallListSize: int
    var mainListSize: int

    constructor (cacheSize: nat)
      ensures this.cacheSize == cacheSize && View() == INIT
    {
      this.cacheSize := cacheSize;
      smallList, mainList, meta, ghosts, smallListSize, mainListSize := [], [], map[], {}, 0, 0;
    }

    function View(): State
      reads this
    {
      State(smallList, mainList, meta, ghosts, smallListSize, mainListSize)
    }

    method OnSmallNode(pages: Pages, f: Folio) returns (evict: bool)
      modifies this`meta
      ensures (evict, meta) == Call(EvictSmallCb, pages, old(meta), f)
    {
      if !pages(f).uptodate || !pages(f).lru {
        return false;
      }
      if pages(f).dirty || pages(f).writeback {
        return false;
      }
      if f !in meta {
        return false;
      }
      if meta[f].freq > 1 {
        meta := meta[f := meta[f].(inMain := true)];
        return false;
      }
      evict := true;
    }

    method OnMainNode(id: nat, pages: Pages, f: Folio) returns (evict: bool)
      modifies this`meta
      ensures (evict, meta) == Call(EvictMainIterFn(id), pages, old(meta), f)
    {
      if !pages(f).uptodate || !pages(f).lru {
        return false;
      }
      if pages(f).dirty || pages(f).writeback {
        return false;
      }
      if f !in meta {
        return false;
      }
      var freq := meta[f].freq - 1;
      meta := meta[f := meta[f].(freq := freq)];
      evict := freq < id;
    }

    /** bpf_cache_ext_list_iterate_extended, up to the moves of the visited nodes. */
    method Iterate(cb: Callback, pages: Pages, list: seq<Folio>, room: nat, budget: nat)
      returns (kept: seq<Folio>, out: seq<Folio>, left: seq<Folio>)
      modifies this`meta
      ensures Scanned(cb, pages, old(meta), list, room, budget) == Scan(meta, kept, out, left)
    {
      kept, out, left := [], [], list;
      while left != [] && |out| < room && |kept| + |out| < budget
        invariant |out| <= room && |kept| + |out| <= budget
        invariant Resumed(kept, out, Scanned(cb, pages, meta, left, room - |out|, budget - |kept| - |out|))
               == Scanned(cb, pages, old(meta), list, room, budget)
        decreases |left|
      {
        ghost var m := meta;
        var evict: bool;
        match cb {
          case EvictSmallCb => evict := OnSmallNode(pages, left[0]);
          case EvictMainIterFn(id) => evict := OnMainNode(id, pages, left[0]);
        }
        ScanStep(cb, pages, m, left, room - |out|, budget - |kept| - |out|, kept, out);
        if evict {
          out := out + [left[0]];
        } else {
          kept := kept + [left[0]];
        }
        left := left[1..];
      }
    }

    method EvictFromSmall(pages: Pages, request: nat, limit: Option<nat>, reported: nat) returns (out: seq<Folio>)
      modifies this
      ensures (View(), out) == EvictSmall(old(View()), pages, request, limit, reported)
    {
      var kept, left;
      kept, out, left := Iterate(EvictSmallCb, pages, smallList, request, Budget(limit, smallList));
      smallList, mainList := left + out, mainList + kept;
      if limit.Some? {
        return;
      }
      var before := smallListSize;
      smallListSize := smallListSize - reported;
      if before < 0 {
        smallListSize := 0;
      }
      before := mainListSize;
      mainListSize := mainListSize + reported;
      if before < 0 {
        mainListSize := reported;
      }
    }

    method PassOverMain(id: nat, pages: Pages, room: nat, limit: Option<nat>) returns (out: seq<Folio>)
      modifies this
      ensures (View(), out) == MainPass(old(View()), pages, id, room, limit)
      ensures |out| <= room
    {
      PassFits(View(), pages, id, room, limit);
      ScanFits(EvictMainIterFn(id), pages, meta, mainList, room, Budget(limit, mainList));
      var kept, left;
      kept, out, left := Iterate(EvictMainIterFn(id), pages, mainList, room, Budget(limit, mainList));
      mainList := left + mainList[..|mainList| - |left|];
    }

    method EvictFromMain(pages: Pages, request: nat, limits: nat -> Option<nat>) returns (out: seq<Folio>)
      modifies this
      ensures (View(), out) == MainPasses(old(View()), pages, request, limits, 0, [])
    {
      PassesStep(View(), pages, request, limits, 0, []);
      out := PassOverMain(0, pages, request, limits(0));
      assert [] + out == out;
      if limits(0).Some? {
        return;
      }
      if |out| < request {
        PassesStep(View(), pages, request, limits, 1, out);
        var more := PassOverMain(1, pages, request - |out|, limits(1));
        out := out + more;
        if limits(1).Some? {
          return;
        }
      } else {
        return;
      }
      if |out| < request {
        PassesStep(View(), pages, request, limits, 2, out);
        var more := PassOverMain(2, pages, request - |out|, limits(2));
        out := out + more;
        if limits(2).Some? {
          return;
        }
      } else {
        return;
      }
      if |out| < request {
        PassesStep(View(), pages, request, limits, 3, out);
        var more := PassOverMain(3, pages, request - |out|, limits(3));
        out := out + more;
      }
    }

    method EvictFolios(pages: Pages, request: nat, limits: nat -> Option<nat>, reported: nat) returns (out: seq<Folio>)
      modifies this
      ensures (View(), out) == Evict(cacheSize, old(View()), pages, request, limits, reported)
    {
      if Unsigned(smallListSize) >= cacheSize / 15 || mainListSize <= 2 * smallListSize {
        out := EvictFromSmall(pages, request, limits(0), reported);
      } else {
        out := EvictFromMain(pages, request, limits);
      }
    }

    method FolioAccessed(f: Folio, relevant: bool)
      modifies this`meta
      ensures View() == Accessed(old(View()), f, relevant)
    {
      if !relevant || f !in meta {
        return;
      }
      meta := meta[f := meta[f].(freq := meta[f].freq + 1)];
      if meta[f].freq > 3 {
        meta := meta[f := meta[f].(freq := 3)];
      }
    }

    method FolioEvicted(f: Folio, key: GhostKey)
      modifies this
      ensures View() == Evicted(old(View()), f, key)
    {
      ghosts := ghosts + {key};
      if f !in meta {
        return;
      }
      if meta[f].inMain {
        mainListSize := mainListSize - 1;
      } else {
        smallListSize := smallListSize - 1;
      }
      meta := meta - {f};
    }

    /** Deletes the ghost entry it finds. */
    method FolioInGhost(key: GhostKey) returns (found: bool)
      modifies this`ghosts
      ensures found == (key in old(ghosts)) && ghosts == old(ghosts) - {key}
    {
      found := key in ghosts;
      ghosts := ghosts - {key};
    }

    method FolioAdded(f: Folio, key: GhostKey, relevant: bool, refused: bool, noRoom: bool)
      modifies this
      ensures View() == Added(old(View()), f, key, relevant, refused, noRoom)
    {
      if !relevant {
        return;
      }
      var inMain := FolioInGhost(key);
      if inMain {
        mainListSize := mainListSize + 1;
      } else {
        smallListSize := smallListSize + 1;
      }
      if refused || f in smallList || f in mainList {
        return;
      }
      if inMain {
        mainList := mainList + [f];
      } else {
        smallList := smallList + [f];
      }
      if noRoom {
        if inMain {
          mainList := mainList[..|mainList| - 1];
        } else {
          smallList := smallList[..|smallList| - 1];
        }
        return;
      }
      meta := meta[f := Meta(0, inMain)];
    }
  }

  /** A scan whose first nodes were already sorted into `kept` and `out`. */
  ghost function Resumed(kept: seq<Folio>, out: seq<Folio>, r: Scan): Scan {
    r.(kept := kept + r.kept, out := out + r.out)
  }

  lemma PassesStep(s: State, pages: Pages, request: nat, limits: nat -> Option<nat>, id: nat, out: seq<Folio>)
    requires |out| <= request && id < 4 && (id > 0 ==> |out| < request)
    ensures var (s', more) := MainPass(s, pages, id, request - |out|, limits(id));
            && |out + more| <= request
            && MainPasses(s, pages, request, limits, id, out)
               == if limits(id).Some? || |out + more| >= request || id == 3 then (s', out + more)
                  else MainPasses(s', pages, request, limits, id + 1, out + more)
  {
    PassFits(s, pages, id, request - |out|, limits(id));
  }

  lemma ScanStep(cb: Callback, pages: Pages, meta: MetaMap, list: seq<Folio>, room: nat, budget: nat,
                 kept: seq<Folio>, out: seq<Folio>)
    requires list != [] && room != 0 && budget != 0
    ensures var (evict, m) := Call(cb, pages, meta, list[0]);
            Resumed(kept, out, Scanned(cb, pages, meta, list, room, budget))
            == if evict then Resumed(kept, out + [list[0]], Scanned(cb, pages, m, list[1..], room - 1, budget - 1))
               else Resumed(kept + [list[0]], out, Scanned(cb, pages, m, list[1..], room, budget - 1))
  {
    var (evict, m) := Call(cb, pages, meta, list[0]);
    var r := Scanned(cb, pages, m, list[1..], if evict then room - 1 else room, budget - 1);
    assert (out + [list[0]]) + r.out == out + ([list[0]] + r.out);
    assert (kept + [list[0]]) + r.kept == kept + ([list[0]] + r.kept);
  }
}
