/**
 The operations of a receive buffer pool, in place.
 */
module BufferPool {
  import opened Basics
  import opened PagePool

  /** An RPC that waits for buffer space. */
  datatype Waiter = Waiter(rpc: nat, length: nat)

  /** Pages that a message may take. */
  function Need(length: nat): nat {
    (length + BPAGE_SIZE - 1) / BPAGE_SIZE
  }

  /** What bpages_needed should be. */
  function Needed(w: seq<Waiter>): nat {
    if w == [] then INT_MAX else Need(w[0].length)
  }

  /** The queue is in order of length, and no message is longer than homa_message_in_init admits. */
  ghost predicate ByLength(w: seq<Waiter>) {
    && (forall i, j :: 0 <= i < j < |w| ==> w[i].length <= w[j].length)
    && (forall i :: 0 <= i < |w| ==> w[i].length <= MAX_MESSAGE_LENGTH)
  }

  lemma NeededShrinks(w: seq<Waiter>, i: nat)
    requires ByLength(w) && i < |w|
    ensures ByLength(w[..i] + w[i + 1..]) && Needed(w) <= Needed(w[..i] + w[i + 1..])
  {
    var w' := w[..i] + w[i + 1..];
    if w' != [] {
      NeedMonotone(w[0].length, w'[0].length);
    }
  }

  /** bpages_needed is still right after RPC i has left the queue: it was not the first one, or the next one
      needs as many pages. */
  predicate StillNeeded(w: seq<Waiter>, i: nat) {
    i > 0 || (|w| > 1 && Need(w[1].length) == Need(w[0].length))
  }

  lemma NeededAfter(w: seq<Waiter>, i: nat)
    requires ByLength(w) && i < |w|
    ensures Needed(w[..i] + w[i + 1..]) == Needed(w) <==> StillNeeded(w, i)
  {
    var w' := w[..i] + w[i + 1..];
    assert w[0].length <= MAX_MESSAGE_LENGTH;
  }

  lemma NeedMonotone(a: nat, b: nat)
    requires a <= b
    ensures Need(a) <= Need(b)
  {
  }

  /** The limit below which homa_pool_get_pages looks for pages. */
  function Limit(n: nat, free: nat): (r: nat)
    requires free <= n
    ensures 0 < n ==> 0 < r <= n && (r == n || n - free < r)
  {
    var used := n - free;
    var extra := used / 4;
    var limit := used + if extra < MIN_EXTRA then MIN_EXTRA else extra;
    if limit > n then n else limit
  }

  lemma {:induction false} TakeAllAt(ds: seq<Bpage>, pages: seq<nat>, setOwner: bool, core: nat, e: nat, p: nat)
    requires forall i :: 0 <= i < |pages| ==> pages[i] < |ds|
    requires p in pages
    ensures TakeAll(ds, pages, setOwner, core, e)[p] == Taken(ds[p], setOwner, core, e)
    decreases |pages|
  {
    var k := |pages| - 1;
    assert pages == pages[..k] + [pages[k]];
    if p != pages[k] {
      TakeAllAt(ds, pages[..k], setOwner, core, e, p);
    }
  }

  /** A page that is still available has not been taken. */
  lemma NotTaken(ds: seq<Bpage>, pages: seq<nat>, setOwner: bool, core: nat, e: nat, p: nat, now: nat)
    requires AllAvailable(ds, pages, now) && p < |ds|
    requires Available(TakeAll(ds, pages, setOwner, core, e)[p], now)
    ensures p !in pages && TakeAll(ds, pages, setOwner, core, e)[p] == ds[p]
    ensures TakeAll(ds, pages + [p], setOwner, core, e)
         == TakeAll(ds, pages, setOwner, core, e)[p := Taken(ds[p], setOwner, core, e)]
  {
    if p in pages {
      TakeAllAt(ds, pages, setOwner, core, e, p);
    }
    assert (pages + [p])[..|pages|] == pages;
  }

  /** No owned page has its count at zero. */
  ghost predicate OwnersCounted(ds: seq<Bpage>) {
    forall p :: 0 <= p < |ds| && ds[p].owner >= 0 ==> ds[p].refs > 0
  }

  lemma InvOwnersCounted(ds: seq<Bpage>, cores: seq<Core>, live: set<Chunk>)
    requires PoolInv(ds, cores, live)
    ensures OwnersCounted(ds)
  {
    forall p | 0 <= p < |ds| && ds[p].owner >= 0 ensures ds[p].refs > 0 {
      assert PageOk(ds[p], p, cores, live);
    }
  }

  /** Where a core looks for pages next does not matter to the pool. */
  lemma CandidateFrame(ds: seq<Bpage>, cores: seq<Core>, live: set<Chunk>, core: nat, x: nat)
    requires PoolInv(ds, cores, live) && core < |cores| && x <= |ds|
    ensures PoolInv(ds, cores[core := cores[core].(nextCandidate := x)], live)
  {
    hide On;
    forall p | 0 <= p < |ds| ensures PageOk(ds[p], p, cores[core := cores[core].(nextCandidate := x)], live) {
      assert PageOk(ds[p], p, cores, live);
    }
  }

  // ---- The chunks of a message ----

  /** The part of a message of the given length that is stored at buffers[i]. */
  function ChunkAt(buffers: seq<nat>, length: nat, i: nat): Chunk
    requires i < |buffers| && i * BPAGE_SIZE <= length
  {
    var left := length - i * BPAGE_SIZE;
    Chunk(buffers[i] / BPAGE_SIZE, buffers[i] % BPAGE_SIZE, if left < BPAGE_SIZE then left else BPAGE_SIZE)
  }

  ghost predicate Fits(buffers: seq<nat>, length: nat) {
    |buffers| == Need(length)
  }

  ghost function Cut(buffers: seq<nat>, length: nat): set<Chunk> {
    set i | 0 <= i < |buffers| && i * BPAGE_SIZE <= length :: ChunkAt(buffers, length, i)
  }

  /** No two parts of a message are the same chunk. */
  ghost predicate Separate(buffers: seq<nat>, length: nat)
    requires Fits(buffers, length)
  {
    forall i, j :: 0 <= i < j < |buffers| ==> ChunkAt(buffers, length, i) != ChunkAt(buffers, length, j)
  }

  /** The offsets of full pages. */
  function Starts(pages: seq<nat>): (r: seq<nat>)
    ensures |r| == |pages| && forall i :: 0 <= i < |r| ==> r[i] == pages[i] * BPAGE_SIZE
  {
    seq(|pages|, i requires 0 <= i < |pages| => pages[i] * BPAGE_SIZE)
  }

  lemma CutFull(pages: seq<nat>, length: nat)
    requires length == |pages| * BPAGE_SIZE
    ensures Fits(Starts(pages), length) && Cut(Starts(pages), length) == Fulls(pages)
    ensures Distinct(pages) ==> Separate(Starts(pages), length)
  {
    var bs := Starts(pages);
    forall i | 0 <= i < |pages| ensures ChunkAt(bs, length, i) == Chunk(pages[i], 0, BPAGE_SIZE) {
    }
    forall c | c in Fulls(pages) ensures c in Cut(bs, length) {
      var i :| 0 <= i < |pages| && c == Chunk(pages[i], 0, BPAGE_SIZE);
      assert c == ChunkAt(bs, length, i);
    }
    forall c | c in Cut(bs, length) ensures c in Fulls(pages) {
      var i :| 0 <= i < |bs| && c == ChunkAt(bs, length, i);
    }
  }

  lemma CutPartial(pages: seq<nat>, length: nat, c: Chunk)
    requires length == |pages| * BPAGE_SIZE + c.len && 0 < c.len < BPAGE_SIZE && c.start < BPAGE_SIZE
    ensures var bs := Starts(pages) + [Addr(c)];
      && Fits(bs, length) && Cut(bs, length) == Fulls(pages) + {c}
      && (Distinct(pages) && c !in Fulls(pages) ==> Separate(bs, length))
  {
    var bs := Starts(pages) + [Addr(c)];
    forall i | 0 <= i < |pages| ensures ChunkAt(bs, length, i) == Chunk(pages[i], 0, BPAGE_SIZE) {
    }
    assert ChunkAt(bs, length, |pages|) == c;
    forall d | d in Fulls(pages) + {c} ensures d in Cut(bs, length) {
      if d in Fulls(pages) {
        var i :| 0 <= i < |pages| && d == Chunk(pages[i], 0, BPAGE_SIZE);
        assert d == ChunkAt(bs, length, i);
      } else {
        assert d == ChunkAt(bs, length, |pages|);
      }
    }
    forall d | d in Cut(bs, length) ensures d in Fulls(pages) + {c} {
      var i :| 0 <= i < |bs| && d == ChunkAt(bs, length, i);
    }
  }

  /** Nobody uses the page, and if a core owns it the core's lease has run out. */
  ghost predicate LeaseOver(b: Bpage, now: nat) {
    b.refs == 0 || (b.refs == 1 && b.owner >= 0 && b.expiration <= now)
  }

  lemma LeasesOver(ds: seq<Bpage>, pages: seq<nat>, now: nat)
    requires AllAvailable(ds, pages, now)
    ensures forall i :: 0 <= i < |pages| ==> pages[i] < |ds| && LeaseOver(ds[pages[i]], now)
  {
  }

  /** A core has a page of its own with room for len bytes: at its end, or at its start if no message uses it. */
  ghost predicate HasRoom(ds: seq<Bpage>, cs: seq<Core>, core: nat, len: nat) {
    && core < |cs| && cs[core].pageHint < |ds| && ds[cs[core].pageHint].owner == core
    && (cs[core].used + len <= BPAGE_SIZE || ds[cs[core].pageHint].refs == 1)
  }

  class Pool {
    const n: nat
    const descriptors: array<Bpage>
    const cores: array<Core>
    const lease: nat
    var freeBpages: int
    var bpagesNeeded: int
    var waiting: seq<Waiter>

    /** The chunks in use. */
    ghost var live: set<Chunk>

    ghost predicate Counts(claimed: nat)
      reads this`freeBpages, descriptors
    {
      descriptors.Length == n && 0 < n && 0 <= freeBpages && freeBpages + claimed == Zeros(descriptors[..])
    }

    /** homa_pool_get_pages looks for the next page that is free or can be stolen: claimed pages are
        still to be found, so that there is one. */
    method NextAvailable(core: nat, now: nat, limit: nat, ghost claimed: nat) returns (cur: nat, limit': nat)
      requires Counts(claimed) && claimed > 0 && limit <= n
      requires core < cores.Length && cores[core].nextCandidate <= n
      modifies cores
      ensures cur < n && Available(descriptors[cur], now) && limit' <= n
      ensures cores[core].nextCandidate <= n
      ensures cores[..] == old(cores[..])[core := old(cores[core]).(nextCandidate := cores[core].nextCandidate)]
    {
      hide Zeros, Limit;
      limit' := limit;
      ghost var clean, w: nat := false, 0;
      while true
        invariant limit' <= n && cores[core].nextCandidate <= n
        invariant cores[..] == old(cores[..])[core := old(cores[core]).(nextCandidate := cores[core].nextCandidate)]
        invariant clean && limit' == 0 ==> cores[core].nextCandidate == 0
        invariant clean && limit' > 0 ==> w < limit' && descriptors[w].refs == 0
        invariant clean ==> forall q :: 0 <= q < cores[core].nextCandidate ==> !Available(descriptors[q], now)
        decreases if clean then 0 else 1, n - cores[core].nextCandidate
      {
        if limit' == 0 {
          limit' := Limit(n, freeBpages);
          w := Pigeonhole(descriptors[..], limit');
        }
        assert clean ==> Available(descriptors[w], now);
        cur := cores[core].nextCandidate;
        cores[core] := cores[core].(nextCandidate := cur + 1);
        if cur >= limit' {
          cores[core] := cores[core].(nextCandidate := 0);
          limit' := 0;
          clean := true;
        } else if Available(descriptors[cur], now) {
          return;
        }
      }
    }

    ghost predicate PoolOk()
      reads this`freeBpages, this`live, descriptors, cores
    {
      Counts(0) && PoolInv(descriptors[..], cores[..], live)
    }

    /** homa_pool_get_pages: it fails exactly if there are not enough free pages; otherwise it yields
        distinct pages that were free or could be stolen. */
    method GetPages(num: nat, setOwner: bool, core: nat, now: nat) returns (ok: bool, pages: seq<nat>)
      requires Counts(0) && OwnersCounted(descriptors[..])
      requires core < cores.Length && cores[core].nextCandidate <= n
      modifies `freeBpages, descriptors, cores
      ensures Counts(0) && ok == (num <= old(freeBpages))
      ensures !ok ==> descriptors[..] == old(descriptors[..]) && cores[..] == old(cores[..])
      ensures !ok ==> freeBpages == old(freeBpages)
      ensures ok ==> |pages| == num && Distinct(pages) && AllAvailable(old(descriptors[..]), pages, now)
      ensures ok ==> forall i :: 0 <= i < |pages| ==> pages[i] < n && LeaseOver(old(descriptors[..])[pages[i]], now)
      ensures ok ==> descriptors[..] == TakeAll(old(descriptors[..]), pages, setOwner, core, now + lease)
      ensures ok ==> freeBpages >= old(freeBpages) - num
      ensures cores[core].nextCandidate <= n
      ensures cores[..] == old(cores[..])[core := old(cores[core]).(nextCandidate := cores[core].nextCandidate)]
    {
      hide Zeros, TakeAll, Available;
      pages := [];
      freeBpages := freeBpages - num;
      if freeBpages < 0 {
        freeBpages := freeBpages + num;
        return false, [];
      }
      var limit: nat := 0;
      ghost var ds := descriptors[..];
      TakeNone(ds, setOwner, core, now + lease);
      while |pages| != num
        invariant |pages| <= num && Counts(num - |pages|) && limit <= n && freeBpages >= old(freeBpages) - num
        invariant Distinct(pages) && AllAvailable(ds, pages, now)
        invariant descriptors[..] == TakeAll(ds, pages, setOwner, core, now + lease)
        invariant cores[core].nextCandidate <= n
        invariant cores[..] == old(cores[..])[core := old(cores[core]).(nextCandidate := cores[core].nextCandidate)]
      {
        var cur: nat;
        cur, limit := NextAvailable(core, now, limit, num - |pages|);
        NotTaken(ds, pages, setOwner, core, now + lease, cur, now);
        ZerosSet(descriptors[..], cur, Taken(ds[cur], setOwner, core, now + lease));
        AvailableCases(ds[cur], now);
        if descriptors[cur].owner >= 0 {
          freeBpages := freeBpages + 1;
        }
        if setOwner {
          descriptors[cur] := Bpage(2, core, now + lease);
        } else {
          descriptors[cur] := descriptors[cur].(refs := 1, owner := -1);
        }
        pages := pages + [cur];
      }
      LeasesOver(ds, pages, now);
      ok := true;
    }

    /** homa_pool_alloc_msg takes the next chunk of the core's own page, if it has one with enough room. */
    method TryOwnPage(core: nat, len: nat, now: nat) returns (done: bool, addr: nat, ghost c: Chunk)
      requires PoolOk() && core < cores.Length && 0 < len < BPAGE_SIZE
      modifies `live, descriptors, cores
      ensures PoolOk()
      ensures done <==> HasRoom(old(descriptors[..]), old(cores[..]), core, len)
      ensures done ==> addr == Addr(c) && c.len == len && c !in old(live) && live == old(live) + {c}
      ensures done ==> c.page == old(cores[core].pageHint) < n && freeBpages == old(freeBpages)
      ensures done ==> descriptors[c.page].expiration == now + lease && descriptors[c.page].owner == core
      ensures !done ==> live == old(live) && OwnsNone(descriptors[..], core) && freeBpages == old(freeBpages)
    {
      hide PoolInv, Zeros, OwnsNone;
      c := Chunk(0, 0, 0);
      ghost var ds, cs := descriptors[..], cores[..];
      CoreInRange(ds, cs, live, core);
      var hint := cores[core].pageHint;
      if descriptors[hint].owner != core {
        HintTells(ds, cs, live, core);
        return false, 0, c;
      }
      if cores[core].used + len > BPAGE_SIZE {
        if descriptors[hint].refs == 1 {
          ReuseOk(ds, cs, live, core);
          cores[core] := cores[core].(used := 0);
        } else {
          DisownOk(ds, cs, live, core);
          ghost var b := ds[hint].(owner := -1, refs := ds[hint].refs - 1);
          InvOwnersCounted(ds, cs, live);
          ZerosSet(ds, hint, b);
          descriptors[hint] := descriptors[hint].(owner := -1, refs := descriptors[hint].refs - 1);
          assert descriptors[..] == ds[hint := b];
          return false, 0, c;
        }
      }
      Bump(core, len, now);
      c := Chunk(hint, cores[core].used - len, len);
      addr := cores[core].used - len + hint * BPAGE_SIZE;
      done := true;
    }

    method Bump(core: nat, len: nat, now: nat)
      requires PoolOk() && core < cores.Length && 0 < len && cores[core].used + len <= BPAGE_SIZE
      requires cores[core].pageHint < n && descriptors[cores[core].pageHint].owner == core
      modifies `live, descriptors, cores
      ensures PoolOk() && cores[core].pageHint == old(cores[core].pageHint)
      ensures cores[core].used == old(cores[core].used) + len
      ensures descriptors[cores[core].pageHint].expiration == now + lease
      ensures descriptors[cores[core].pageHint].owner == core
      ensures ghost var c := Chunk(cores[core].pageHint, old(cores[core].used), len);
        c !in old(live) && live == old(live) + {c}
    {
      hide PoolInv, Zeros;
      ghost var ds, cs := descriptors[..], cores[..];
      var hint := cores[core].pageHint;
      BumpOk(ds, cs, live, core, len, now + lease);
      InvOwnersCounted(ds, cs, live);
      ghost var b := Bpage(ds[hint].refs + 1, core, now + lease);
      ZerosSet(ds, hint, b);
      descriptors[hint] := descriptors[hint].(refs := descriptors[hint].refs + 1, expiration := now + lease);
      live := live + {Chunk(hint, cores[core].used, len)};
      cores[core] := cores[core].(used := cores[core].used + len);
      assert descriptors[..] == ds[hint := b];
      assert cores[..] == cs[core := cs[core].(used := cs[core].used + len)];
    }

    /** homa_pool_alloc_msg makes a free page the core's own and takes its first chunk. */
    method NewPage(core: nat, len: nat, now: nat) returns (ok: bool, addr: nat, ghost c: Chunk)
      requires PoolOk() && core < cores.Length && OwnsNone(descriptors[..], core) && 0 < len < BPAGE_SIZE
      modifies `live, `freeBpages, descriptors, cores
      ensures PoolOk() && ok == (old(freeBpages) > 0)
      ensures ok ==> addr == Addr(c) && c.len == len && c !in old(live) && live == old(live) + {c}
      ensures !ok ==> live == old(live)
    {
      hide PoolInv, Zeros, OwnsNone, AllAvailable, TakeAll;
      c := Chunk(0, 0, 0);
      ghost var ds, cs := descriptors[..], cores[..];
      CoreInRange(ds, cs, live, core);
      InvOwnersCounted(ds, cs, live);
      var pages: seq<nat>;
      ok, pages := GetPages(1, true, core, now);
      if !ok {
        return false, 0, c;
      }
      TakeOne(ds, pages, core, now + lease, now);
      CandidateFrame(ds, cs, live, core, cores[core].nextCandidate);
      ghost var cs' := cores[..];
      OwnPageOk(ds, cs', live, core, pages[0], len, now + lease, now);
      cores[core] := cores[core].(pageHint := pages[0], used := len);
      c := Chunk(pages[0], 0, len);
      live := live + {c};
      assert cores[..] == cs'[core := cs'[core].(pageHint := pages[0], used := len)];
      addr := pages[0] * BPAGE_SIZE;
    }

    /** The last part of homa_pool_alloc_msg: space for less than a page. */
    method AllocPartial(core: nat, len: nat, now: nat) returns (ok: bool, addr: nat, ghost c: Chunk)
      requires PoolOk() && core < cores.Length && 0 < len < BPAGE_SIZE
      modifies `live, `freeBpages, descriptors, cores
      ensures PoolOk()
      ensures ok <==> HasRoom(old(descriptors[..]), old(cores[..]), core, len) || old(freeBpages) > 0
      ensures ok ==> addr == Addr(c) && c.len == len && c !in old(live) && live == old(live) + {c}
      ensures !ok ==> live == old(live)
    {
      hide PoolInv, Zeros, OwnsNone;
      ok, addr, c := TryOwnPage(core, len, now);
      if !ok {
        ok, addr, c := NewPage(core, len, now);
      }
    }

    /** homa_pool_release_buffers: the chunks are free again; offsets outside the region are refused. */
    method ReleaseBuffers(buffers: seq<nat>, ghost cs: seq<Chunk>) returns (invalid: bool)
      requires PoolOk() && Returns(buffers, cs, live, n)
      modifies `live, `freeBpages, descriptors
      ensures PoolOk() && live == old(live) - Returned(buffers, cs, n, |buffers|)
      ensures invalid <==> exists i :: 0 <= i < |buffers| && buffers[i] / BPAGE_SIZE >= n
      ensures freeBpages >= old(freeBpages)
    {
      hide PoolInv, Zeros, Returned;
      invalid := false;
      var i := 0;
      ReturnedNone(buffers, cs, n);
      while i < |buffers|
        invariant 0 <= i <= |buffers| && PoolOk() && live == old(live) - Returned(buffers, cs, n, i)
        invariant invalid <==> exists j :: 0 <= j < i && buffers[j] / BPAGE_SIZE >= n
        invariant freeBpages >= old(freeBpages)
      {
        var p := buffers[i] / BPAGE_SIZE;
        ReturnedNext(buffers, cs, old(live), n, i);
        if p < n {
          AddrPage(descriptors[..], cores[..], live, cs[i]);
          ReleaseOne(p, cs[i]);
        } else {
          invalid := true;
        }
        i := i + 1;
      }
    }

    method ReleaseOne(p: nat, ghost c: Chunk)
      requires PoolOk() && c in live && p == c.page
      modifies `live, `freeBpages, descriptors
      ensures PoolOk() && live == old(live) - {c} && freeBpages >= old(freeBpages)
    {
      hide PoolInv, Zeros;
      ghost var ds := descriptors[..];
      ReleaseOk(ds, cores[..], live, c);
      ghost var b := ds[p].(refs := ds[p].refs - 1);
      ZerosSet(ds, p, b);
      descriptors[p] := descriptors[p].(refs := descriptors[p].refs - 1);
      if descriptors[p].refs == 0 {
        freeBpages := freeBpages + 1;
      }
      live := live - {c};
      assert descriptors[..] == ds[p := b];
    }

    /** homa_pool_alloc_msg without its queue: space for a message in full pages and at most one chunk. */
    method Alloc(length: nat, core: nat, now: nat) returns (ok: bool, buffers: seq<nat>)
      requires PoolOk() && core < cores.Length
      modifies `live, `freeBpages, descriptors, cores
      ensures PoolOk()
      ensures ok ==> Fits(buffers, length) && Separate(buffers, length)
      ensures ok ==> old(live) !! Cut(buffers, length) && live == old(live) + Cut(buffers, length)
      ensures !ok ==> live == old(live) && buffers == []
      ensures Need(length) <= old(freeBpages) ==> ok
      ensures ok ==> length / BPAGE_SIZE <= old(freeBpages)
      ensures 0 < length < BPAGE_SIZE ==>
                (ok <==> HasRoom(old(descriptors[..]), old(cores[..]), core, length) || old(freeBpages) > 0)
    {
      hide PoolInv, Zeros, Cut, Fulls, Separate;
      var full, partial := length / BPAGE_SIZE, length % BPAGE_SIZE;
      var pages: seq<nat>;
      ok, pages := AllocFull(full, core, now);
      buffers := [];
      if !ok {
        return;
      }
      buffers := Starts(pages);
      if partial == 0 {
        CutFull(pages, length);
        return;
      }
      var addr: nat;
      ghost var c: Chunk;
      ok, addr, c := AllocPartial(core, partial, now);
      if ok {
        ChunkInPage(descriptors[..], cores[..], live, c);
        CutPartial(pages, length, c);
        buffers := buffers + [addr];
        assert old(live) + (Fulls(pages) + {c}) == old(live) + Fulls(pages) + {c};
      } else {
        Undo(pages, old(live));
        buffers := [];
      }
    }

    method AllocFull(full: nat, core: nat, now: nat) returns (ok: bool, pages: seq<nat>)
      requires PoolOk() && core < cores.Length
      modifies `live, `freeBpages, descriptors, cores
      ensures PoolOk() && ok == (full <= old(freeBpages))
      ensures ok ==> |pages| == full && Distinct(pages) && freeBpages >= old(freeBpages) - full
      ensures ok ==> old(live) !! Fulls(pages) && live == old(live) + Fulls(pages)
      ensures !ok ==> live == old(live)
      ensures full == 0 ==> descriptors[..] == old(descriptors[..]) && cores[..] == old(cores[..])
      ensures full == 0 ==> freeBpages == old(freeBpages) && live == old(live)
    {
      hide PoolInv, Zeros, Fulls, TakeAll, AllAvailable;
      if full == 0 {
        NoFulls([]);
        return true, [];
      }
      ghost var ds, cs := descriptors[..], cores[..];
      CoreInRange(ds, cs, live, core);
      InvOwnersCounted(ds, cs, live);
      ok, pages := GetPages(full, false, core, now);
      if ok {
        FullPagesOk(ds, cs, live, pages, core, now + lease, now);
        live := live + Fulls(pages);
        CandidateFrame(descriptors[..], cs, live, core, cores[core].nextCandidate);
      }
    }

    lemma NoFulls(pages: seq<nat>)
      requires pages == []
      ensures Fulls(pages) == {}
    {
    }

    /** Full pages are returned when there is no space for the rest of the message. */
    method Undo(pages: seq<nat>, ghost was: set<Chunk>)
      requires PoolOk() && Distinct(pages) && was !! Fulls(pages) && live == was + Fulls(pages)
      modifies `live, `freeBpages, descriptors
      ensures PoolOk() && live == was
    {
      hide PoolInv, Zeros, Fulls;
      ghost var cs := seq(|pages|, i requires 0 <= i < |pages| => Chunk(pages[i], 0, BPAGE_SIZE));
      ReturnsFull(pages, cs, live, descriptors[..], cores[..]);
      var _ := ReleaseBuffers(Starts(pages), cs);
    }

    /** bpages_needed may be too small for the first RPC that waits, never too large. */
    ghost predicate Valid()
      reads this, descriptors, cores
    {
      PoolOk() && n < INT_MAX && ByLength(waiting) && bpagesNeeded <= Needed(waiting)
    }

    /** homa_pool_set_region: all pages are free. */
    constructor (n: nat, numCores: nat, lease: nat)
      requires 2 <= n < INT_MAX
      ensures Valid() && live == {} && waiting == [] && freeBpages == n
      ensures this.n == n && cores.Length == numCores && fresh(descriptors) && fresh(cores)
    {
      this.n, this.lease := n, lease;
      descriptors := new Bpage[n](_ => Bpage(0, -1, 0));
      cores := new Core[numCores](_ => Core(0, 0, 0));
      freeBpages, bpagesNeeded, waiting, live := n, INT_MAX, [], {};
      new;
      InitialOk(descriptors[..], cores[..]);
    }

    /** The end of homa_pool_alloc_msg: the RPC joins the queue behind all that are no longer. */
    method Enqueue(w: Waiter)
      requires ByLength(waiting) && w.length <= MAX_MESSAGE_LENGTH
      modifies `waiting, `bpagesNeeded
      ensures ByLength(waiting) && bpagesNeeded == Needed(waiting)
      ensures exists k :: 0 <= k <= |old(waiting)| && Queued(old(waiting), w, k, waiting)
    {
      var k := 0;
      while k < |waiting| && waiting[k].length <= w.length
        invariant 0 <= k <= |waiting| && forall i :: 0 <= i < k ==> waiting[i].length <= w.length
      {
        k := k + 1;
      }
      ghost var was := waiting;
      waiting := waiting[..k] + [w] + waiting[k..];
      assert Queued(was, w, k, waiting);
      bpagesNeeded := Need(waiting[0].length);
    }

    /** homa_pool_alloc_msg: the message gets chunks that no other message has, or the RPC waits. */
    method AllocMsg(rpc: nat, length: nat, core: nat, now: nat) returns (ok: bool, buffers: seq<nat>)
      requires Valid() && core < cores.Length && length <= MAX_MESSAGE_LENGTH
      modifies this, descriptors, cores
      ensures Valid()
      ensures ok ==> Fits(buffers, length) && Separate(buffers, length)
      ensures ok ==> old(live) !! Cut(buffers, length) && live == old(live) + Cut(buffers, length)
      ensures ok ==> waiting == old(waiting) && bpagesNeeded == old(bpagesNeeded)
      ensures !ok ==> live == old(live) && buffers == [] && bpagesNeeded == Needed(waiting)
      ensures !ok ==> exists k :: 0 <= k <= |old(waiting)| && Queued(old(waiting), Waiter(rpc, length), k, waiting)
      ensures Need(length) <= old(freeBpages) ==> ok
      ensures 0 < length < BPAGE_SIZE ==>
                (ok <==> HasRoom(old(descriptors[..]), old(cores[..]), core, length) || old(freeBpages) > 0)
    {
      hide PoolOk, Cut, Separate, Queued, ByLength;
      ok, buffers := Alloc(length, core, now);
      if !ok {
        Enqueue(Waiter(rpc, length));
      }
    }

    /** homa_rpc_end takes an RPC off the queue; bpages_needed is left as it is. If it was what the first RPC
        needs, it is so still exactly if that was not the one to leave or the next needs as much. */
    method Withdraw(i: nat)
      requires Valid() && i < |waiting|
      modifies `waiting
      ensures Valid() && waiting == old(waiting)[..i] + old(waiting)[i + 1..]
      ensures bpagesNeeded == Needed(old(waiting)) ==>
                (bpagesNeeded == Needed(waiting) <==> StillNeeded(old(waiting), i))
    {
      hide PoolOk, ByLength, Needed, StillNeeded;
      NeededShrinks(waiting, i);
      NeededAfter(waiting, i);
      waiting := waiting[..i] + waiting[i + 1..];
    }

    /** homa_pool_check_waiting: RPCs leave the queue, each with the space it needs, until the pool has
        not enough free pages for the first one. */
    method CheckWaiting(core: nat) returns (woken: seq<Woken>)
      requires Valid() && core < cores.Length
      modifies this, descriptors, cores
      ensures Valid() && live == old(live) + AllCut(woken) && Unshared(old(live), woken)
      ensures waiting == [] || freeBpages < Need(waiting[0].length)
      ensures multiset(old(waiting)) == multiset(waiting) + multiset(Waiters(woken))
      ensures forall i :: 0 <= i < |woken| ==> Fits(woken[i].buffers, woken[i].w.length)
    {
      hide PoolOk, Cut, Separate, Queued, ByLength, Need, Unshared, AllCut, Waiters;
      woken := [];
      NoneWoken(live);
      while freeBpages >= bpagesNeeded
        invariant Valid() && live == old(live) + AllCut(woken) && Unshared(old(live), woken)
        invariant multiset(old(waiting)) == multiset(waiting) + multiset(Waiters(woken))
        invariant forall i :: 0 <= i < |woken| ==> Fits(woken[i].buffers, woken[i].w.length)
        decreases |waiting|, if bpagesNeeded == Needed(waiting) then 0 else 1
      {
        if waiting == [] {
          bpagesNeeded := INT_MAX;
          return;
        }
        var w := waiting[0];
        var ok, buffers := Retry(core);
        if ok {
          WokenAppend(old(live), woken, Woken(w, buffers));
          woken := woken + [Woken(w, buffers)];
        }
      }
      FreeBelow();
    }

    /** One round of homa_pool_check_waiting: the first RPC in the queue tries again. */
    method Retry(core: nat) returns (ok: bool, buffers: seq<nat>)
      requires Valid() && core < cores.Length && waiting != []
      modifies this, descriptors, cores
      ensures Valid() && bpagesNeeded == Needed(waiting)
      ensures ok ==> Fits(buffers, old(waiting[0].length)) && waiting == old(waiting)[1..]
      ensures ok ==> multiset(old(waiting)) == multiset(waiting) + multiset{old(waiting[0])}
      ensures ok ==> old(live) !! Cut(buffers, old(waiting[0].length))
      ensures ok ==> live == old(live) + Cut(buffers, old(waiting[0].length))
      ensures !ok ==> live == old(live) && |waiting| == |old(waiting)| && multiset(waiting) == multiset(old(waiting))
      ensures Need(old(waiting[0].length)) <= old(freeBpages) ==> ok
    {
      hide PoolOk, Cut, Separate, Need;
      var now: nat := *;
      var w := waiting[0];
      ghost var was := waiting;
      assert was == [w] + was[1..];
      waiting := waiting[1..];
      bpagesNeeded := if waiting == [] then INT_MAX else Need(waiting[0].length);
      ok, buffers := AllocMsg(w.rpc, w.length, core, now);
      if !ok {
        ghost var k :| 0 <= k <= |was[1..]| && Queued(was[1..], w, k, waiting);
        Requeued(was, w, k, waiting);
      }
    }

    lemma FreeBelow()
      requires Valid() && freeBpages < bpagesNeeded
      ensures waiting == [] || freeBpages < Need(waiting[0].length)
    {
    }
  }

  /** An input for which bpages_needed becomes too small: all of a pool of two pages is given to one message, a
      message of one byte and one of two pages have to wait, and the shorter one is withdrawn. */
  method StaleNeed(lease: nat) returns (pool: Pool)
    ensures fresh(pool) && pool.Valid() && |pool.waiting| == 1
    ensures pool.bpagesNeeded == 1 && Needed(pool.waiting) == 2
  {
    hide PoolInv, Zeros, Separate, Cut, BothTaken;
    pool := new Pool(2, 1, lease);
    var ok, buffers := pool.AllocMsg(1, 2 * BPAGE_SIZE, 0, 0);
    TwoPages(pool.descriptors[..], pool.cores[..], pool.live, buffers);
    ghost var was := pool.live;
    ok, buffers := pool.AllocMsg(2, 1, 0, 0);
    NoRoom(pool.descriptors[..], pool.cores[..], was, pool.live, ok, buffers, 1);
    QueuedFirst(Waiter(2, 1), pool.waiting);
    ok, buffers := pool.AllocMsg(3, 2 * BPAGE_SIZE, 0, 0);
    NoRoom(pool.descriptors[..], pool.cores[..], was, pool.live, ok, buffers, 2 * BPAGE_SIZE);
    QueuedSecond(Waiter(2, 1), Waiter(3, 2 * BPAGE_SIZE), pool.waiting);
    pool.Withdraw(0);
  }

  /** Both pages of a pool of two are given to messages as a whole. */
  ghost predicate BothTaken(live: set<Chunk>) {
    Chunk(0, 0, BPAGE_SIZE) in live && Chunk(1, 0, BPAGE_SIZE) in live
  }

  lemma TwoPages(ds: seq<Bpage>, cores: seq<Core>, live: set<Chunk>, buffers: seq<nat>)
    requires PoolInv(ds, cores, live) && |ds| == 2 && Cut(buffers, 2 * BPAGE_SIZE) <= live
    requires Fits(buffers, 2 * BPAGE_SIZE) && Separate(buffers, 2 * BPAGE_SIZE)
    ensures BothTaken(live)
  {
    hide PagesOk, CoresOk;
    var c, d := ChunkAt(buffers, 2 * BPAGE_SIZE, 0), ChunkAt(buffers, 2 * BPAGE_SIZE, 1);
    assert c in Cut(buffers, 2 * BPAGE_SIZE) && d in Cut(buffers, 2 * BPAGE_SIZE);
    assert c != d && Apart(c, d);
  }

  /** Then no message gets space. */
  lemma NoRoom(ds: seq<Bpage>, cores: seq<Core>, was: set<Chunk>, live: set<Chunk>, ok: bool,
               buffers: seq<nat>, length: nat)
    requires PoolInv(ds, cores, live) && |ds| == 2 && BothTaken(was) && was <= live && length > 0
    requires ok ==> Fits(buffers, length) && was !! Cut(buffers, length) && live == was + Cut(buffers, length)
    ensures !ok
  {
    hide PagesOk, CoresOk;
    if ok {
      var d := ChunkAt(buffers, length, 0);
      assert d in Cut(buffers, length);
      AllTaken(live, d);
    }
  }

  lemma AllTaken(live: set<Chunk>, d: Chunk)
    requires ChunksOk(live, 2) && BothTaken(live) && d in live
    ensures d == Chunk(0, 0, BPAGE_SIZE) || d == Chunk(1, 0, BPAGE_SIZE)
  {
    var c := Chunk(d.page, 0, BPAGE_SIZE);
    assert c in live && (c != d ==> Apart(c, d));
  }

  lemma QueuedFirst(w: Waiter, after: seq<Waiter>)
    requires exists k :: 0 <= k <= 0 && Queued([], w, k, after)
    ensures after == [w]
  {
  }

  lemma QueuedSecond(v: Waiter, w: Waiter, after: seq<Waiter>)
    requires v.length <= w.length && exists k :: 0 <= k <= 1 && Queued([v], w, k, after)
    ensures after == [v, w]
  {
    var k :| 0 <= k <= 1 && Queued([v], w, k, after);
  }

  /** after is before with w put in at position k, behind all waiters that are no longer. */
  ghost predicate Queued(before: seq<Waiter>, w: Waiter, k: nat, after: seq<Waiter>)
    requires k <= |before|
  {
    && after == before[..k] + [w] + before[k..]
    && (forall i :: 0 <= i < k ==> before[i].length <= w.length)
    && (forall i :: k <= i < |before| ==> w.length < before[i].length)
  }

  lemma Requeued(before: seq<Waiter>, w: Waiter, k: nat, after: seq<Waiter>)
    requires before != [] && before[0] == w && k <= |before| - 1 && Queued(before[1..], w, k, after)
    ensures multiset(after) == multiset(before) && |after| == |before|
  {
    assert before == [w] + before[1..];
    assert before[1..] == before[1..][..k] + before[1..][k..];
  }

  /** An RPC that has got its buffers after waiting. */
  datatype Woken = Woken(w: Waiter, buffers: seq<nat>)

  ghost function Waiters(woken: seq<Woken>): (r: seq<Waiter>) {
    seq(|woken|, i requires 0 <= i < |woken| => woken[i].w)
  }

  ghost function AllCut(woken: seq<Woken>): set<Chunk> {
    if woken == [] then {}
    else AllCut(woken[..|woken| - 1]) + Cut(woken[|woken| - 1].buffers, woken[|woken| - 1].w.length)
  }

  /** Each RPC got chunks that nobody had. */
  ghost predicate Unshared(base: set<Chunk>, woken: seq<Woken>) {
    woken == [] ||
    (Unshared(base, woken[..|woken| - 1]) &&
     base + AllCut(woken[..|woken| - 1]) !! Cut(woken[|woken| - 1].buffers, woken[|woken| - 1].w.length))
  }

  lemma NoneWoken(base: set<Chunk>)
    ensures Unshared(base, []) && base + AllCut([]) == base && multiset(Waiters([])) == multiset{}
  {
  }

  lemma WokenAppend(base: set<Chunk>, woken: seq<Woken>, w: Woken)
    ensures Unshared(base, woken) && base + AllCut(woken) !! Cut(w.buffers, w.w.length) ==> Unshared(base, woken + [w])
    ensures base + AllCut(woken + [w]) == base + AllCut(woken) + Cut(w.buffers, w.w.length)
    ensures multiset(Waiters(woken + [w])) == multiset(Waiters(woken)) + multiset{w.w}
  {
    assert (woken + [w])[..|woken|] == woken;
    assert Waiters(woken + [w]) == Waiters(woken) + [w.w];
  }

  /** The byte ranges of different chunks do not overlap, and all lie in the region of the pool. */
  lemma BuffersDisjoint(ds: seq<Bpage>, cores: seq<Core>, live: set<Chunk>, c: Chunk, d: Chunk)
    requires PoolInv(ds, cores, live) && c in live && d in live && c != d
    ensures Addr(c) + c.len <= Addr(d) || Addr(d) + d.len <= Addr(c)
    ensures Addr(c) + c.len <= |ds| * BPAGE_SIZE
  {
    hide PagesOk, CoresOk;
    if c.page < d.page {
      assert (c.page + 1) * BPAGE_SIZE <= d.page * BPAGE_SIZE;
    }
    if d.page < c.page {
      assert (d.page + 1) * BPAGE_SIZE <= c.page * BPAGE_SIZE;
    }
    assert (c.page + 1) * BPAGE_SIZE <= |ds| * BPAGE_SIZE;
  }

  lemma InitialOk(ds: seq<Bpage>, cores: seq<Core>)
    requires |ds| > 0 && (forall p :: 0 <= p < |ds| ==> ds[p] == Bpage(0, -1, 0))
    requires forall k :: 0 <= k < |cores| ==> cores[k] == Core(0, 0, 0)
    ensures PoolInv(ds, cores, {}) && Zeros(ds) == |ds|
  {
    forall p | 0 <= p < |ds| ensures PageOk(ds[p], p, cores, {}) {
      assert On({}, p) == {};
    }
    AllZeros(ds);
  }

  lemma {:induction false} AllZeros(ds: seq<Bpage>)
    requires forall p :: 0 <= p < |ds| ==> ds[p].refs == 0
    ensures Zeros(ds) == |ds|
    decreases |ds|
  {
    if ds != [] {
      AllZeros(ds[..|ds| - 1]);
    }
  }

  /** The application returns, of the chunks it holds, each at most once. */
  ghost predicate Returns(buffers: seq<nat>, cs: seq<Chunk>, live: set<Chunk>, n: nat) {
    && |cs| == |buffers|
    && (forall i :: 0 <= i < |buffers| && buffers[i] / BPAGE_SIZE < n ==> cs[i] in live && Addr(cs[i]) == buffers[i])
    && (forall i, j :: 0 <= i < j < |cs| && buffers[i] / BPAGE_SIZE < n && buffers[j] / BPAGE_SIZE < n ==>
          cs[i] != cs[j])
  }

  /** The chunks among the first k buffers. */
  ghost function Returned(buffers: seq<nat>, cs: seq<Chunk>, n: nat, k: nat): set<Chunk>
    requires k <= |buffers| == |cs|
  {
    set i | 0 <= i < k && buffers[i] / BPAGE_SIZE < n :: cs[i]
  }


  lemma ReturnedNone(buffers: seq<nat>, cs: seq<Chunk>, n: nat)
    requires |buffers| == |cs|
    ensures Returned(buffers, cs, n, 0) == {}
  {
  }

  lemma ReturnedNext(buffers: seq<nat>, cs: seq<Chunk>, live: set<Chunk>, n: nat, k: nat)
    requires k < |buffers| && Returns(buffers, cs, live, n)
    ensures Returned(buffers, cs, n, k + 1)
         == Returned(buffers, cs, n, k) + if buffers[k] / BPAGE_SIZE < n then {cs[k]} else {}
    ensures buffers[k] / BPAGE_SIZE < n ==> cs[k] in live - Returned(buffers, cs, n, k)
  {
    var next := Returned(buffers, cs, n, k) + if buffers[k] / BPAGE_SIZE < n then {cs[k]} else {};
    forall c | c in Returned(buffers, cs, n, k + 1) ensures c in next {
      var i :| 0 <= i < k + 1 && buffers[i] / BPAGE_SIZE < n && c == cs[i];
    }
  }

  lemma ChunkInPage(ds: seq<Bpage>, cores: seq<Core>, live: set<Chunk>, c: Chunk)
    requires PoolInv(ds, cores, live) && c in live
    ensures c.page < |ds| && 0 < c.len && ChunkEnd(c) <= BPAGE_SIZE
  {
  }

  lemma AddrPage(ds: seq<Bpage>, cores: seq<Core>, live: set<Chunk>, c: Chunk)
    requires PoolInv(ds, cores, live) && c in live
    ensures Addr(c) / BPAGE_SIZE == c.page < |ds|
  {
    hide PagesOk, CoresOk;
  }

  lemma ReturnsFull(pages: seq<nat>, cs: seq<Chunk>, live: set<Chunk>, ds: seq<Bpage>, cores: seq<Core>)
    requires Distinct(pages) && |cs| == |pages|
    requires forall i :: 0 <= i < |pages| ==> cs[i] == Chunk(pages[i], 0, BPAGE_SIZE)
    requires Fulls(pages) <= live && PoolInv(ds, cores, live)
    ensures Returns(Starts(pages), cs, live, |ds|)
    ensures Returned(Starts(pages), cs, |ds|, |pages|) == Fulls(pages)
  {
    hide PagesOk, CoresOk;
    var n, bs := |ds|, Starts(pages);
    forall i | 0 <= i < |pages| ensures cs[i] in live && bs[i] / BPAGE_SIZE < n {
      assert cs[i] in Fulls(pages);
    }
    forall c | c in Fulls(pages) ensures c in Returned(bs, cs, n, |pages|) {
      var i :| 0 <= i < |pages| && c == Chunk(pages[i], 0, BPAGE_SIZE);
      assert c == cs[i];
    }
    forall c | c in Returned(bs, cs, n, |pages|) ensures c in Fulls(pages) {
      var i :| 0 <= i < |pages| && bs[i] / BPAGE_SIZE < n && c == cs[i];
    }
  }

  /** A core's hint is a page and its fields are in range. */
  lemma CoreInRange(ds: seq<Bpage>, cores: seq<Core>, live: set<Chunk>, core: nat)
    requires PoolInv(ds, cores, live) && core < |cores|
    ensures cores[core].pageHint < |ds| && cores[core].used <= BPAGE_SIZE && cores[core].nextCandidate <= |ds|
  {
  }

  lemma TakeOne(ds: seq<Bpage>, pages: seq<nat>, core: nat, e: nat, now: nat)
    requires |pages| == 1 && AllAvailable(ds, pages, now)
    ensures pages[0] < |ds| && Available(ds[pages[0]], now)
    ensures TakeAll(ds, pages, true, core, e) == ds[pages[0] := Bpage(2, core, e)]
  {
    assert pages[..0] == [];
  }

  lemma TakeNone(ds: seq<Bpage>, setOwner: bool, core: nat, e: nat)
    ensures TakeAll(ds, [], setOwner, core, e) == ds
  {
  }

  lemma AvailableCases(b: Bpage, now: nat)
    requires Available(b, now)
    ensures b.refs == 0 || (b.refs == 1 && b.owner >= 0)
  {
  }
}
