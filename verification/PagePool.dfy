/**
 The receive buffer pool of a socket (homa_pool.c): reference-counted pages, some owned by a
 core that cuts them into chunks for small messages.
 */
module PagePool {
  import opened Basics

  const BPAGE_SHIFT := 16
  const BPAGE_SIZE := 65536
  const MIN_EXTRA := 4
  const INT_MAX := 2147483647
  const MAX_MESSAGE_LENGTH := 1400000

  /** struct homa_bpage; owner < 0 means none. */
  datatype Bpage = Bpage(refs: int, owner: int, expiration: nat)

  /** struct homa_pool_core. */
  datatype Core = Core(pageHint: nat, used: nat, nextCandidate: nat)

  /** Bytes start..start+len of a page, held by a message or by the application that received it. */
  datatype Chunk = Chunk(page: nat, start: nat, len: nat)

  function ChunkEnd(c: Chunk): nat {
    c.start + c.len
  }

  /** The chunk's offset in the region. */
  function Addr(c: Chunk): nat {
    c.page * BPAGE_SIZE + c.start
  }

  /** The chunks of live on page p. */
  ghost function On(live: set<Chunk>, p: nat): set<Chunk> {
    set c | c in live && c.page == p
  }

  ghost predicate Apart(c: Chunk, d: Chunk) {
    c.page != d.page || ChunkEnd(c) <= d.start || ChunkEnd(d) <= c.start
  }

  /** Live chunks are inside their pages, not empty, and share no byte. */
  ghost predicate ChunksOk(live: set<Chunk>, n: nat) {
    && (forall c :: c in live ==> c.page < n && 0 < c.len && ChunkEnd(c) <= BPAGE_SIZE)
    && (forall c, d :: c in live && d in live && c != d ==> Apart(c, d))
  }

  /** A page counts its chunks, and its owner, which cuts it from the bottom up. */
  ghost predicate PageOk(b: Bpage, p: nat, cores: seq<Core>, live: set<Chunk>) {
    && b.refs == |On(live, p)| + (if b.owner >= 0 then 1 else 0)
    && (b.owner >= 0 ==> b.owner < |cores| && cores[b.owner].pageHint == p)
    && (b.owner >= 0 ==> forall c :: c in live && c.page == p ==> ChunkEnd(c) <= cores[b.owner].used)
  }

  ghost predicate PagesOk(ds: seq<Bpage>, cores: seq<Core>, live: set<Chunk>) {
    forall p :: 0 <= p < |ds| ==> PageOk(ds[p], p, cores, live)
  }

  ghost predicate CoresOk(cores: seq<Core>, n: nat) {
    forall k :: 0 <= k < |cores| ==>
      cores[k].pageHint < n && cores[k].used <= BPAGE_SIZE && cores[k].nextCandidate <= n
  }

  ghost predicate PoolInv(ds: seq<Bpage>, cores: seq<Core>, live: set<Chunk>) {
    |ds| > 0 && ChunksOk(live, |ds|) && PagesOk(ds, cores, live) && CoresOk(cores, |ds|)
  }

  /** How many pages have no references. */
  function Zeros(ds: seq<Bpage>): (z: nat)
    ensures z <= |ds|
  {
    if ds == [] then 0 else Zeros(ds[..|ds| - 1]) + (if ds[|ds| - 1].refs == 0 then 1 else 0)
  }

  /** homa_bpage_available: the page is free, or unused with an owner whose lease is over. */
  predicate Available(b: Bpage, now: nat) {
    b.refs == 0 || (b.refs == 1 && b.owner >= 0 && b.expiration <= now)
  }

  // ---- Counting ----

  lemma {:induction false} ZerosSplit(a: seq<Bpage>, b: seq<Bpage>)
    ensures Zeros(a + b) == Zeros(a) + Zeros(b)
    decreases |b|
  {
    if b == [] {
      assert a + b == a;
    } else {
      assert (a + b)[..|a + b| - 1] == a + b[..|b| - 1];
      ZerosSplit(a, b[..|b| - 1]);
    }
  }

  lemma {:induction false} ZerosFind(ds: seq<Bpage>) returns (p: nat)
    requires Zeros(ds) > 0
    ensures p < |ds| && ds[p].refs == 0
    decreases |ds|
  {
    if ds[|ds| - 1].refs == 0 {
      p := |ds| - 1;
    } else {
      p := ZerosFind(ds[..|ds| - 1]);
    }
  }

  lemma {:induction false} ZerosSet(ds: seq<Bpage>, p: nat, b: Bpage)
    requires p < |ds|
    ensures Zeros(ds[p := b]) == Zeros(ds) - (if ds[p].refs == 0 then 1 else 0) + (if b.refs == 0 then 1 else 0)
    decreases |ds|
  {
    var k := |ds| - 1;
    if p < k {
      assert ds[p := b][..k] == ds[..k][p := b];
      ZerosSet(ds[..k], p, b);
    } else {
      assert ds[p := b][..k] == ds[..k];
    }
  }

  /** Pigeonhole: among the first `limit` pages one is free, if there are fewer used pages than that. */
  lemma Pigeonhole(ds: seq<Bpage>, limit: nat) returns (p: nat)
    requires |ds| - Zeros(ds) < limit <= |ds|
    ensures p < limit && ds[p].refs == 0
  {
    assert ds == ds[..limit] + ds[limit..];
    ZerosSplit(ds[..limit], ds[limit..]);
    p := ZerosFind(ds[..limit]);
  }

  // ---- Each change keeps the invariant ----

  lemma OnOther(live: set<Chunk>, c: Chunk, q: nat)
    requires q != c.page
    ensures On(live + {c}, q) == On(live, q) == On(live - {c}, q)
  {
    assert On(live + {c}, q) == On(live, q);
    assert On(live - {c}, q) == On(live, q);
  }

  lemma OnAdd(live: set<Chunk>, c: Chunk)
    requires c !in live
    ensures On(live + {c}, c.page) == On(live, c.page) + {c}
    ensures |On(live + {c}, c.page)| == |On(live, c.page)| + 1
  {
    assert On(live + {c}, c.page) == On(live, c.page) + {c};
  }

  lemma OnRemove(live: set<Chunk>, c: Chunk)
    requires c in live
    ensures |On(live - {c}, c.page)| == |On(live, c.page)| - 1
  {
    assert On(live - {c}, c.page) == On(live, c.page) - {c};
  }

  /** A page that is available has no chunks. */
  lemma AvailableUnused(b: Bpage, p: nat, cores: seq<Core>, live: set<Chunk>, now: nat)
    requires PageOk(b, p, cores, live) && Available(b, now)
    ensures On(live, p) == {} && forall c :: c in live ==> c.page != p
  {
    assert |On(live, p)| == 0;
    forall c | c in live ensures c.page != p {
      assert c.page == p ==> c in On(live, p);
    }
  }

  /** A new chunk that shares no byte with the others. */
  lemma AddChunk(live: set<Chunk>, c: Chunk, n: nat)
    requires ChunksOk(live, n) && c.page < n && 0 < c.len && ChunkEnd(c) <= BPAGE_SIZE
    requires forall d :: d in live ==> Apart(c, d)
    ensures c !in live && ChunksOk(live + {c}, n)
  {
  }

  /** An unused page is given to a message as a whole. */
  lemma FullPageOk(ds: seq<Bpage>, cores: seq<Core>, live: set<Chunk>, p: nat, now: nat)
    requires PoolInv(ds, cores, live) && p < |ds| && Available(ds[p], now)
    ensures Chunk(p, 0, BPAGE_SIZE) !in live
    ensures PoolInv(ds[p := Unowned(ds[p])], cores, live + {Chunk(p, 0, BPAGE_SIZE)})
  {
    hide On;
    var c := Chunk(p, 0, BPAGE_SIZE);
    AvailableUnused(ds[p], p, cores, live, now);
    AddChunk(live, c, |ds|);
    OnAdd(live, c);
    forall q | 0 <= q < |ds| && q != p ensures PageOk(ds[q], q, cores, live + {c}) {
      OnOther(live, c, q);
    }
  }

  /** A core that owns no page. */
  ghost predicate OwnsNone(ds: seq<Bpage>, core: nat) {
    forall p :: 0 <= p < |ds| ==> ds[p].owner != core
  }

  /** Other cores' pages do not depend on this core's fields. */
  lemma CoreFrame(b: Bpage, p: nat, cores: seq<Core>, live: set<Chunk>, core: nat, k: Core)
    requires PageOk(b, p, cores, live) && core < |cores| && b.owner != core
    ensures PageOk(b, p, cores[core := k], live)
  {
  }

  /** An unused page becomes the page of a core, with a first chunk. */
  lemma OwnPageOk(ds: seq<Bpage>, cores: seq<Core>, live: set<Chunk>, core: nat, p: nat, len: nat, e: nat, now: nat)
    requires PoolInv(ds, cores, live) && p < |ds| && Available(ds[p], now)
    requires core < |cores| && OwnsNone(ds, core) && 0 < len <= BPAGE_SIZE
    ensures Chunk(p, 0, len) !in live
    ensures PoolInv(ds[p := Bpage(2, core, e)], cores[core := cores[core].(pageHint := p, used := len)],
                    live + {Chunk(p, 0, len)})
  {
    hide On;
    var c := Chunk(p, 0, len);
    var k := cores[core].(pageHint := p, used := len);
    AvailableUnused(ds[p], p, cores, live, now);
    AddChunk(live, c, |ds|);
    OnAdd(live, c);
    forall q | 0 <= q < |ds| && q != p ensures PageOk(ds[q], q, cores[core := k], live + {c}) {
      OnOther(live, c, q);
      CoreFrame(ds[q], q, cores, live + {c}, core, k);
    }
  }

  /** The next chunk of the page that a core owns. */
  lemma BumpOk(ds: seq<Bpage>, cores: seq<Core>, live: set<Chunk>, core: nat, len: nat, e: nat)
    requires PoolInv(ds, cores, live) && core < |cores| && 0 < len
    requires var p := cores[core].pageHint; p < |ds| && ds[p].owner == core
    requires cores[core].used + len <= BPAGE_SIZE
    ensures var p, a := cores[core].pageHint, cores[core].used;
      && Chunk(p, a, len) !in live
      && PoolInv(ds[p := Bpage(ds[p].refs + 1, core, e)], cores[core := cores[core].(used := a + len)],
                 live + {Chunk(p, a, len)})
  {
    hide On;
    var p, a := cores[core].pageHint, cores[core].used;
    var c := Chunk(p, a, len);
    var k := cores[core].(used := a + len);
    assert PageOk(ds[p], p, cores, live);
    AddChunk(live, c, |ds|);
    OnAdd(live, c);
    forall q | 0 <= q < |ds| && q != p ensures PageOk(ds[q], q, cores[core := k], live + {c}) {
      OnOther(live, c, q);
      assert PageOk(ds[q], q, cores, live);
      CoreFrame(ds[q], q, cores, live + {c}, core, k);
    }
  }

  /** A core starts again at the bottom of its page when no chunk of it is left. */
  lemma ReuseOk(ds: seq<Bpage>, cores: seq<Core>, live: set<Chunk>, core: nat)
    requires PoolInv(ds, cores, live) && core < |cores|
    requires var p := cores[core].pageHint; p < |ds| && ds[p].owner == core && ds[p].refs == 1
    ensures PoolInv(ds, cores[core := cores[core].(used := 0)], live)
  {
    hide On;
    var p := cores[core].pageHint;
    var k := cores[core].(used := 0);
    forall q | 0 <= q < |ds| ensures PageOk(ds[q], q, cores[core := k], live) {
      assert PageOk(ds[q], q, cores, live);
      if q == p {
        OnlyOwner(ds[q], q, cores, live);
      } else {
        CoreFrame(ds[q], q, cores, live, core, k);
      }
    }
  }

  lemma OnlyOwner(b: Bpage, p: nat, cores: seq<Core>, live: set<Chunk>)
    requires PageOk(b, p, cores, live) && b.refs == 1 && b.owner >= 0
    ensures forall c :: c in live ==> c.page != p
  {
    AvailableUnused(b.(expiration := 0), p, cores, live, 0);
  }

  /** A core gives up a page that still has chunks. */
  lemma DisownOk(ds: seq<Bpage>, cores: seq<Core>, live: set<Chunk>, core: nat)
    requires PoolInv(ds, cores, live) && core < |cores|
    requires var p := cores[core].pageHint; p < |ds| && ds[p].owner == core && ds[p].refs != 1
    ensures var p := cores[core].pageHint; var b := ds[p].(owner := -1, refs := ds[p].refs - 1);
      PoolInv(ds[p := b], cores, live) && OwnsNone(ds[p := b], core) && b.refs > 0
  {
    hide On;
    var p := cores[core].pageHint;
    forall q | 0 <= q < |ds| && q != p ensures ds[q].owner != core {
      assert PageOk(ds[q], q, cores, live);
    }
    assert PageOk(ds[p], p, cores, live);
  }

  /** A core whose hint names a page that it does not own, owns none. */
  lemma HintTells(ds: seq<Bpage>, cores: seq<Core>, live: set<Chunk>, core: nat)
    requires PoolInv(ds, cores, live) && core < |cores|
    requires cores[core].pageHint < |ds| && ds[cores[core].pageHint].owner != core
    ensures OwnsNone(ds, core)
  {
    hide On;
    forall q | 0 <= q < |ds| ensures ds[q].owner != core {
      assert PageOk(ds[q], q, cores, live);
    }
  }

  /** A chunk is returned. */
  lemma ReleaseOk(ds: seq<Bpage>, cores: seq<Core>, live: set<Chunk>, c: Chunk)
    requires PoolInv(ds, cores, live) && c in live
    ensures c.page < |ds| && ds[c.page].refs > 0
    ensures PoolInv(ds[c.page := ds[c.page].(refs := ds[c.page].refs - 1)], cores, live - {c})
  {
    hide On;
    var p := c.page;
    OnRemove(live, c);
    assert PageOk(ds[p], p, cores, live);
    forall q | 0 <= q < |ds| && q != p ensures PageOk(ds[q], q, cores, live - {c}) {
      assert PageOk(ds[q], q, cores, live);
      OnOther(live, c, q);
    }
  }

  // ---- Several pages at once ----

  /** A page as homa_pool_get_pages leaves it: without an owner, or owned by a core until e. */
  function Unowned(b: Bpage): Bpage {
    b.(refs := 1, owner := -1)
  }

  function Taken(b: Bpage, setOwner: bool, core: nat, e: nat): Bpage {
    if setOwner then Bpage(2, core, e) else Unowned(b)
  }

  function TakeAll(ds: seq<Bpage>, pages: seq<nat>, setOwner: bool, core: nat, e: nat): (r: seq<Bpage>)
    requires forall i :: 0 <= i < |pages| ==> pages[i] < |ds|
    ensures |r| == |ds|
    ensures forall p :: 0 <= p < |ds| && p !in pages ==> r[p] == ds[p]
  {
    if pages == [] then ds
    else
      var k := |pages| - 1;
      assert pages == pages[..k] + [pages[k]];
      TakeAll(ds, pages[..k], setOwner, core, e)[pages[k] := Taken(ds[pages[k]], setOwner, core, e)]
  }

  ghost predicate AllAvailable(ds: seq<Bpage>, pages: seq<nat>, now: nat) {
    forall i :: 0 <= i < |pages| ==> pages[i] < |ds| && Available(ds[pages[i]], now)
  }

  /** The chunks of a message's full pages. */
  ghost function Fulls(pages: seq<nat>): set<Chunk> {
    set i | 0 <= i < |pages| :: Chunk(pages[i], 0, BPAGE_SIZE)
  }

  lemma FullsAppend(pages: seq<nat>, p: nat)
    ensures Fulls(pages + [p]) == Fulls(pages) + {Chunk(p, 0, BPAGE_SIZE)}
  {
    var all := pages + [p];
    forall c | c in Fulls(pages) + {Chunk(p, 0, BPAGE_SIZE)} ensures c in Fulls(all) {
      if c in Fulls(pages) {
        var i :| 0 <= i < |pages| && c == Chunk(pages[i], 0, BPAGE_SIZE);
        assert c == Chunk(all[i], 0, BPAGE_SIZE);
      } else {
        assert c == Chunk(all[|pages|], 0, BPAGE_SIZE);
      }
    }
  }

  /** Unused pages are given to a message as a whole. */
  lemma {:induction false} FullPagesOk(ds: seq<Bpage>, cores: seq<Core>, live: set<Chunk>, pages: seq<nat>,
                                       core: nat, e: nat, now: nat)
    requires PoolInv(ds, cores, live) && Distinct(pages) && AllAvailable(ds, pages, now)
    ensures live !! Fulls(pages)
    ensures PoolInv(TakeAll(ds, pages, false, core, e), cores, live + Fulls(pages))
    decreases |pages|
  {
    hide PoolInv, Available, Fulls;
    if pages == [] {
      NoFulls();
      assert live + {} == live;
    } else {
      var k := |pages| - 1;
      var front, p := pages[..k], pages[k];
      FullPagesOk(ds, cores, live, front, core, e, now);
      var ds' := TakeAll(ds, front, false, core, e);
      assert ds'[p] == ds[p];
      FullPageOk(ds', cores, live + Fulls(front), p, now);
      assert pages == front + [p];
      FullsAppend(front, p);
      assert live + (Fulls(front) + {Chunk(p, 0, BPAGE_SIZE)}) == live + Fulls(front) + {Chunk(p, 0, BPAGE_SIZE)};
    }
  }

  lemma NoFulls()
    ensures Fulls([]) == {}
  {
  }
}
