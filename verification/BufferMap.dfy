/**
 Message bytes in the buffer region: the kernel stores packets by its map from message offsets
 to addresses (homa_copy_to_pool, homa_pool_get_buffer), and the application reads them back by
 its own (homa::receiver).
 */
module BufferMap {
  import opened Basics
  import opened PagePool
  import opened BufferPool
  import opened Reassembly
  import D = Delivery

  const MAX_SKBS := 20

  // ---- The two maps ----

  /** homa_pool_get_buffer: the address of a message offset, and how many bytes fit there. */
  function GetBuffer(buffers: seq<nat>, length: nat, offset: nat): (Option<nat>, nat)
    requires Fits(buffers, length)
  {
    var i := offset / BPAGE_SIZE;
    if offset >= length then (None, 0)
    else
      Located(buffers, length, offset);
      var inPage := offset % BPAGE_SIZE;
      (Some(buffers[i] + inPage), if i < |buffers| - 1 then BPAGE_SIZE - inPage else length - offset)
  }

  /** homa::receiver::contiguous. */
  function Contiguous(buffers: seq<nat>, length: nat, offset: nat): nat {
    if offset >= length then 0
    else if offset / BPAGE_SIZE == |buffers| - 1 then length - offset
    else BPAGE_SIZE - offset % BPAGE_SIZE
  }

  /** homa::receiver::get for an object of the given size, without storage to copy to. */
  function Get(buffers: seq<nat>, length: nat, offset: nat, size: nat): Option<nat>
    requires Fits(buffers, length) && size > 0
  {
    if offset + size > length then None
    else if Contiguous(buffers, length, offset) >= size then
      Located(buffers, length, offset);
      Some(buffers[offset / BPAGE_SIZE] + offset % BPAGE_SIZE)
    else None
  }

  lemma Located(buffers: seq<nat>, length: nat, offset: nat)
    requires Fits(buffers, length) && offset < length
    ensures offset / BPAGE_SIZE < |buffers| && length <= |buffers| * BPAGE_SIZE
    ensures |buffers| * BPAGE_SIZE < length + BPAGE_SIZE
  {
  }

  /** The kernel and the application agree about every offset. */
  lemma MapsAgree(buffers: seq<nat>, length: nat, offset: nat)
    requires Fits(buffers, length)
    ensures GetBuffer(buffers, length, offset).1 == Contiguous(buffers, length, offset)
    ensures GetBuffer(buffers, length, offset).0 == Get(buffers, length, offset, 1)
  {
  }

  /** The address of a byte of the message. */
  function Map(buffers: seq<nat>, length: nat, x: nat): nat
    requires Fits(buffers, length) && x < length
  {
    Located(buffers, length, x);
    buffers[x / BPAGE_SIZE] + x % BPAGE_SIZE
  }

  /** What GetBuffer and Get call contiguous is: the bytes from there on have consecutive addresses. */
  lemma Consecutive(buffers: seq<nat>, length: nat, offset: nat, k: nat)
    requires Fits(buffers, length) && offset < length && k < Contiguous(buffers, length, offset)
    ensures offset + k < length
    ensures Map(buffers, length, offset + k) == Map(buffers, length, offset) + k
    ensures GetBuffer(buffers, length, offset).0 == Some(Map(buffers, length, offset))
  {
    Located(buffers, length, offset);
  }

  /** The message's chunks lie in a region of the given size and do not overlap. */
  ghost predicate Laid(buffers: seq<nat>, length: nat, size: nat) {
    && Fits(buffers, length)
    && (forall i :: 0 <= i < |buffers| ==> buffers[i] + ChunkAt(buffers, length, i).len <= size)
    && (forall i, j :: 0 <= i < j < |buffers| ==>
          buffers[i] + ChunkAt(buffers, length, i).len <= buffers[j] ||
          buffers[j] + ChunkAt(buffers, length, j).len <= buffers[i])
  }

  /** Buffers from the pool are laid out so. */
  lemma LaidInPool(ds: seq<Bpage>, cores: seq<Core>, live: set<Chunk>, buffers: seq<nat>, length: nat)
    requires PoolInv(ds, cores, live) && Fits(buffers, length) && Separate(buffers, length)
    requires Cut(buffers, length) <= live
    ensures Laid(buffers, length, |ds| * BPAGE_SIZE)
  {
    hide PoolInv;
    forall i | 0 <= i < |buffers| ensures ChunkAt(buffers, length, i) in live {
      assert ChunkAt(buffers, length, i) in Cut(buffers, length);
    }
    forall i | 0 <= i < |buffers| ensures Addr(ChunkAt(buffers, length, i)) == buffers[i] {
    }
    forall i | 0 <= i < |buffers| ensures buffers[i] + ChunkAt(buffers, length, i).len <= |ds| * BPAGE_SIZE {
      InRegion(ds, cores, live, ChunkAt(buffers, length, i));
    }
    forall i, j | 0 <= i < j < |buffers|
      ensures buffers[i] + ChunkAt(buffers, length, i).len <= buffers[j] ||
              buffers[j] + ChunkAt(buffers, length, j).len <= buffers[i]
    {
      BuffersDisjoint(ds, cores, live, ChunkAt(buffers, length, i), ChunkAt(buffers, length, j));
    }
  }

  lemma InRegion(ds: seq<Bpage>, cores: seq<Core>, live: set<Chunk>, c: Chunk)
    requires PoolInv(ds, cores, live) && c in live
    ensures Addr(c) + c.len <= |ds| * BPAGE_SIZE
  {
    hide PagesOk, CoresOk;
    assert (c.page + 1) * BPAGE_SIZE <= |ds| * BPAGE_SIZE;
  }

  /** A byte lies in the chunk of its page of the message. */
  lemma InChunk(buffers: seq<nat>, length: nat, x: nat)
    requires Fits(buffers, length) && x < length
    ensures var i := x / BPAGE_SIZE;
      && i < |buffers|
      && buffers[i] <= Map(buffers, length, x) < buffers[i] + ChunkAt(buffers, length, i).len
  {
    Located(buffers, length, x);
  }

  /** Different bytes have different addresses, all in the region. */
  lemma MapInjective(buffers: seq<nat>, length: nat, size: nat, x: nat, y: nat)
    requires Laid(buffers, length, size) && x < length && y < length
    ensures Map(buffers, length, x) < size
    ensures x != y ==> Map(buffers, length, x) != Map(buffers, length, y)
  {
    InChunk(buffers, length, x);
    InChunk(buffers, length, y);
    var i, j := x / BPAGE_SIZE, y / BPAGE_SIZE;
    if i < j {
      assert buffers[i] + ChunkAt(buffers, length, i).len <= buffers[j] ||
             buffers[j] + ChunkAt(buffers, length, j).len <= buffers[i];
    } else if j < i {
      assert buffers[j] + ChunkAt(buffers, length, j).len <= buffers[i] ||
             buffers[i] + ChunkAt(buffers, length, i).len <= buffers[j];
    }
  }

  // ---- Storing packets ----

  /** Memory after the bytes of data that lie within the message have been stored at their addresses. */
  function Write(mem: seq<Byte>, buffers: seq<nat>, length: nat, offset: nat, data: seq<Byte>): (r: seq<Byte>)
    requires Laid(buffers, length, |mem|)
    ensures |r| == |mem|
    decreases |data|
  {
    if data == [] then mem
    else
      var k := |data| - 1;
      var m := Write(mem, buffers, length, offset, data[..k]);
      if offset + k < length then
        MapInjective(buffers, length, |mem|, offset + k, offset + k);
        m[Map(buffers, length, offset + k) := data[k]]
      else m
  }

  function WriteAll(mem: seq<Byte>, buffers: seq<nat>, length: nat, ps: seq<Packet>): (r: seq<Byte>)
    requires Laid(buffers, length, |mem|)
    ensures |r| == |mem|
    decreases |ps|
  {
    if ps == [] then mem
    else
      var k := |ps| - 1;
      Write(WriteAll(mem, buffers, length, ps[..k]), buffers, length, ps[k].offset, ps[k].data)
  }

  /** Memory with bs stored from address a on. */
  function Splice(mem: seq<Byte>, a: nat, bs: seq<Byte>): (r: seq<Byte>)
    requires a + |bs| <= |mem|
    ensures |r| == |mem|
  {
    mem[..a] + bs + mem[a + |bs|..]
  }

  lemma SpliceNext(mem: seq<Byte>, a: nat, bs: seq<Byte>, b: Byte)
    requires a + |bs| < |mem|
    ensures Splice(mem, a, bs)[a + |bs| := b] == Splice(mem, a, bs + [b])
  {
  }

  /** One memcpy of homa_copy_to_pool stores just the next bytes of the packet. */
  lemma {:induction false} WriteRun(mem: seq<Byte>, buffers: seq<nat>, length: nat, offset: nat,
                                    data: seq<Byte>, c: nat, n: nat)
    requires Laid(buffers, length, |mem|) && c + n <= |data| && offset + c < length
    requires n <= Contiguous(buffers, length, offset + c)
    ensures var a := Map(buffers, length, offset + c);
      && a + n <= |mem|
      && Write(mem, buffers, length, offset, data[..c + n])
         == Splice(Write(mem, buffers, length, offset, data[..c]), a, data[c..c + n])
    decreases n
  {
    hide Contiguous, Laid, Map, Splice, Write;
    LaidFits(buffers, length, |mem|);
    var a := Map(buffers, length, offset + c);
    var m := Write(mem, buffers, length, offset, data[..c]);
    if n == 0 {
      MapInjective(buffers, length, |mem|, offset + c, offset + c);
      SpliceNone(m, a, data[c..c]);
    } else {
      WriteRun(mem, buffers, length, offset, data, c, n - 1);
      Consecutive(buffers, length, offset + c, n - 1);
      MapInjective(buffers, length, |mem|, offset + c + (n - 1), 0);
      WriteNext(mem, buffers, length, offset, data, c + n - 1);
      assert data[c..c + n] == data[c..c + n - 1] + [data[c + n - 1]];
      SpliceNext(m, a, data[c..c + n - 1], data[c + n - 1]);
    }
  }

  lemma SpliceNone(mem: seq<Byte>, a: nat, bs: seq<Byte>)
    requires a <= |mem| && bs == []
    ensures Splice(mem, a, bs) == mem
  {
  }

  lemma WriteNext(mem: seq<Byte>, buffers: seq<nat>, length: nat, offset: nat, data: seq<Byte>, k: nat)
    requires Laid(buffers, length, |mem|) && k < |data| && offset + k < length
    ensures Map(buffers, length, offset + k) < |mem|
    ensures Write(mem, buffers, length, offset, data[..k + 1])
         == Write(mem, buffers, length, offset, data[..k])[Map(buffers, length, offset + k) := data[k]]
  {
    hide Laid, Map;
    MapInjective(buffers, length, |mem|, offset + k, offset + k);
    assert data[..k + 1][..k] == data[..k];
  }

  /** Bytes past the end of the message are not stored. */
  lemma {:induction false} WritePast(mem: seq<Byte>, buffers: seq<nat>, length: nat, offset: nat,
                                     data: seq<Byte>, c: nat)
    requires Laid(buffers, length, |mem|) && c <= |data| && offset + c >= length
    ensures Write(mem, buffers, length, offset, data) == Write(mem, buffers, length, offset, data[..c])
    decreases |data|
  {
    if c < |data| {
      WritePast(mem, buffers, length, offset, data[..|data| - 1], c);
      assert data[..|data| - 1][..c] == data[..c];
    } else {
      assert data[..c] == data;
    }
  }

  /** A packet can be stored: it lies within the message and none of its addresses is bad. */
  ghost predicate Storable(buffers: seq<nat>, length: nat, p: Packet, bad: set<nat>)
    requires Fits(buffers, length)
  {
    p.data == [] || (D.PEnd(p) <= length && Reachable(buffers, length, p.offset, |p.data|, bad))
  }

  /** The n bytes from offset on are within the message and can be written. */
  ghost predicate Reachable(buffers: seq<nat>, length: nat, offset: nat, n: nat, bad: set<nat>)
    requires Fits(buffers, length)
  {
    forall x :: offset <= x < offset + n ==> x < length && Map(buffers, length, x) !in bad
  }

  /** The copying of one packet in homa_copy_to_pool, buffer by buffer. Copying to a bad address fails, and so does
      copying past the end of the message; the bytes before that point have been stored. */
  method CopyPacket(region: array<Byte>, buffers: seq<nat>, length: nat, p: Packet, bad: set<nat>)
    returns (ok: bool, copied: nat)
    requires Laid(buffers, length, region.Length)
    modifies region
    ensures copied <= |p.data| && Reachable(buffers, length, p.offset, copied, bad)
    ensures region[..] == Write(old(region[..]), buffers, length, p.offset, p.data[..copied])
    ensures ok <==> Storable(buffers, length, p, bad)
    ensures ok <==> copied == |p.data|
  {
    hide Laid, Write, Contiguous, GetBuffer, Map, Splice;
    ghost var mem := region[..];
    copied := 0;
    assert p.data[..0] == [];
    WriteNone(mem, buffers, length, p.offset);
    LaidFits(buffers, length, region.Length);
    while copied < |p.data|
      invariant 0 <= copied <= |p.data| && (copied > 0 ==> p.offset + copied <= length)
      invariant Fits(buffers, length) && Reachable(buffers, length, p.offset, copied, bad)
      invariant region[..] == Write(mem, buffers, length, p.offset, p.data[..copied])
    {
      var (dst, bufBytes) := GetBuffer(buffers, length, p.offset + copied);
      BufferFacts(buffers, length, p.offset + copied);
      if dst.None? || bufBytes <= 0 {
        return false, copied;
      }
      var chunkSize := |p.data| - copied;
      if bufBytes < chunkSize {
        chunkSize := bufBytes;
      }
      RunFits(buffers, length, region.Length, p.offset + copied, chunkSize);
      var n := CopyChunk(region, dst.value, p.data[copied..copied + chunkSize], bad);
      WriteRun(mem, buffers, length, p.offset, p.data, copied, n);
      SliceOfSlice(p.data, copied, chunkSize, n);
      RunReachable(buffers, length, p.offset, copied, chunkSize, n, bad);
      copied := copied + n;
      if n < chunkSize {
        return false, copied;
      }
    }
    ok := true;
  }

  lemma SliceOfSlice(s: seq<Byte>, i: nat, n: nat, k: nat)
    requires i + n <= |s| && k <= n
    ensures s[i..i + n][..k] == s[i..i + k]
  {
  }

  lemma RunFits(buffers: seq<nat>, length: nat, size: nat, offset: nat, n: nat)
    requires Laid(buffers, length, size) && offset < length && 0 < n <= Contiguous(buffers, length, offset)
    ensures Map(buffers, length, offset) + n <= size
  {
    hide Laid, Contiguous, Map;
    LaidFits(buffers, length, size);
    Consecutive(buffers, length, offset, n - 1);
    MapInjective(buffers, length, size, offset + (n - 1), 0);
  }

  /** n bytes of a contiguous piece have been copied, and the next address is bad unless that was all. */
  lemma RunReachable(buffers: seq<nat>, length: nat, offset: nat, copied: nat, size: nat, n: nat, bad: set<nat>)
    requires Fits(buffers, length) && Reachable(buffers, length, offset, copied, bad) && n <= size
    requires offset + copied < length && size <= Contiguous(buffers, length, offset + copied)
    requires var a := Map(buffers, length, offset + copied);
      (forall k :: a <= k < a + n ==> k !in bad) && (n < size ==> a + n in bad)
    ensures Reachable(buffers, length, offset, copied + n, bad)
    ensures offset + copied + n <= length
    ensures n < size ==> offset + copied + n < length && Map(buffers, length, offset + copied + n) in bad
  {
    hide Contiguous, Map;
    forall x | offset <= x < offset + copied + n ensures x < length && Map(buffers, length, x) !in bad {
      if x >= offset + copied {
        Consecutive(buffers, length, offset + copied, x - offset - copied);
      }
    }
    if n < size {
      Consecutive(buffers, length, offset + copied, n);
    } else if n > 0 {
      Consecutive(buffers, length, offset + copied, n - 1);
    }
  }

  /** One copy, up to the first bad address. */
  method CopyChunk(region: array<Byte>, dst: nat, src: seq<Byte>, bad: set<nat>) returns (n: nat)
    requires dst + |src| <= region.Length
    modifies region
    ensures n <= |src| && region[..] == Splice(old(region[..]), dst, src[..n])
    ensures (forall k :: dst <= k < dst + n ==> k !in bad) && (n < |src| ==> dst + n in bad)
  {
    n := 0;
    while n < |src| && dst + n !in bad
      invariant 0 <= n <= |src| && forall k :: dst <= k < dst + n ==> k !in bad
      invariant region[..] == Splice(old(region[..]), dst, src[..n])
    {
      SpliceNext(old(region[..]), dst, src[..n], src[n]);
      assert src[..n + 1] == src[..n] + [src[n]];
      region[dst + n] := src[n];
      n := n + 1;
    }
  }

  lemma WriteNone(mem: seq<Byte>, buffers: seq<nat>, length: nat, offset: nat)
    requires Laid(buffers, length, |mem|)
    ensures Write(mem, buffers, length, offset, []) == mem
  {
  }

  lemma LaidFits(buffers: seq<nat>, length: nat, size: nat)
    requires Laid(buffers, length, size)
    ensures Fits(buffers, length)
  {
  }

  /** Within the message there is room for at least a byte, and for none past its end. */
  lemma BufferFacts(buffers: seq<nat>, length: nat, offset: nat)
    requires Fits(buffers, length)
    ensures offset >= length ==> GetBuffer(buffers, length, offset) == (None, 0)
    ensures offset < length ==>
              GetBuffer(buffers, length, offset)
              == (Some(Map(buffers, length, offset)), Contiguous(buffers, length, offset))
    ensures offset < length ==> 0 < Contiguous(buffers, length, offset) <= length - offset
  {
    if offset < length {
      Consecutive(buffers, length, offset, Contiguous(buffers, length, offset) - 1);
    }
  }

  /** All of the packets from lo up to hi can be stored. */
  ghost predicate AllStorable(buffers: seq<nat>, length: nat, ps: seq<Packet>, lo: nat, hi: nat, bad: set<nat>)
    requires Fits(buffers, length) && hi <= |ps|
  {
    forall i :: lo <= i < hi ==> Storable(buffers, length, ps[i], bad)
  }

  /** Memory after the first k packets, and n bytes of the next one. */
  ghost function WritePart(mem: seq<Byte>, buffers: seq<nat>, length: nat, ps: seq<Packet>, k: nat, n: nat): seq<Byte>
    requires Laid(buffers, length, |mem|) && k <= |ps| && (k == |ps| || n <= |ps[k].data|)
  {
    var m := WriteAll(mem, buffers, length, ps[..k]);
    if k == |ps| then m else Write(m, buffers, length, ps[k].offset, ps[k].data[..n])
  }

  /** homa_copy_to_pool: the queued packets are stored, in batches, up to the first one that cannot be. Of that one
      the bytes before the fault have been stored. */
  method CopyToPool(region: array<Byte>, buffers: seq<nat>, length: nat, packets: seq<Packet>, bad: set<nat>)
    returns (ok: bool, ghost k: nat, ghost n: nat)
    requires Laid(buffers, length, region.Length)
    modifies region
    ensures k <= |packets| && (k < |packets| ==> n < |packets[k].data|)
    ensures region[..] == WritePart(old(region[..]), buffers, length, packets, k, n)
    ensures AllStorable(buffers, length, packets, 0, k, bad)
    ensures ok <==> AllStorable(buffers, length, packets, 0, |packets|, bad)
    ensures ok <==> k == |packets|
  {
    hide Laid, Write, WriteAll, WritePart, Storable;
    ghost var mem := region[..];
    var queue, skbs: seq<Packet> := packets, [];
    k, n := 0, 0;
    LaidFits(buffers, length, region.Length);
    WriteAllNone(mem, buffers, length, packets);
    while true
      invariant 0 <= k <= |packets| && packets[k..] == skbs + queue
      invariant region[..] == WriteAll(mem, buffers, length, packets[..k])
      invariant AllStorable(buffers, length, packets, 0, k, bad)
      decreases 2 * |queue| + |skbs|
    {
      if queue != [] {
        assert skbs + queue == skbs + [queue[0]] + queue[1..];
        skbs, queue := skbs + [queue[0]], queue[1..];
        if |skbs| < MAX_SKBS {
          continue;
        }
      }
      if skbs == [] {
        break;
      }
      assert packets[k..k + |skbs|] == skbs;
      ghost var i;
      ok, i, n := CopyBatch(region, buffers, length, packets, k, skbs, mem, bad);
      if !ok {
        k := i;
        return;
      }
      k, skbs := k + |skbs|, [];
    }
    WriteWhole(mem, buffers, length, packets, n);
    ok := true;
  }

  lemma WriteWhole(mem: seq<Byte>, buffers: seq<nat>, length: nat, ps: seq<Packet>, n: nat)
    requires Laid(buffers, length, |mem|)
    ensures WritePart(mem, buffers, length, ps, |ps|, n) == WriteAll(mem, buffers, length, ps)
    ensures ps[..|ps|] == ps
  {
    assert ps[..|ps|] == ps;
  }

  /** The copying of one batch. */
  method CopyBatch(region: array<Byte>, buffers: seq<nat>, length: nat, ghost packets: seq<Packet>, ghost done: nat,
                   skbs: seq<Packet>, ghost mem: seq<Byte>, bad: set<nat>)
    returns (ok: bool, ghost k: nat, ghost n: nat)
    requires Laid(buffers, length, region.Length) && |mem| == region.Length
    requires done + |skbs| <= |packets| && packets[done..done + |skbs|] == skbs
    requires region[..] == WriteAll(mem, buffers, length, packets[..done])
    modifies region
    ensures done <= k <= done + |skbs| && AllStorable(buffers, length, packets, done, k, bad)
    ensures ok ==> k == done + |skbs| && region[..] == WriteAll(mem, buffers, length, packets[..k])
    ensures !ok ==> k < done + |skbs| && n < |packets[k].data| && !Storable(buffers, length, packets[k], bad)
    ensures !ok ==> region[..] == WritePart(mem, buffers, length, packets, k, n)
  {
    hide Laid, Write, WriteAll, Storable;
    LaidFits(buffers, length, region.Length);
    var i := 0;
    k, n := done, 0;
    while i < |skbs|
      invariant 0 <= i <= |skbs| && k == done + i && region[..] == WriteAll(mem, buffers, length, packets[..k])
      invariant AllStorable(buffers, length, packets, done, k, bad)
    {
      assert skbs[i] == packets[k];
      WriteAllNext(mem, buffers, length, packets, k);
      var copied;
      ok, copied := CopyPacket(region, buffers, length, skbs[i], bad);
      if !ok {
        n := copied;
        return;
      }
      assert skbs[i].data[..copied] == skbs[i].data;
      i, k := i + 1, k + 1;
    }
    ok := true;
  }

  lemma WriteAllNone(mem: seq<Byte>, buffers: seq<nat>, length: nat, ps: seq<Packet>)
    requires Laid(buffers, length, |mem|)
    ensures WriteAll(mem, buffers, length, ps[..0]) == mem
  {
  }

  lemma WriteAllNext(mem: seq<Byte>, buffers: seq<nat>, length: nat, ps: seq<Packet>, k: nat)
    requires Laid(buffers, length, |mem|) && k < |ps|
    ensures WriteAll(mem, buffers, length, ps[..k + 1])
         == Write(WriteAll(mem, buffers, length, ps[..k]), buffers, length, ps[k].offset, ps[k].data)
  {
    assert ps[..k + 1][..k] == ps[..k];
  }

  // ---- What is stored ----

  /** Memory holds the message. */
  ghost predicate Stored(mem: seq<Byte>, buffers: seq<nat>, content: seq<Byte>) {
    && Laid(buffers, |content|, |mem|)
    && forall x :: 0 <= x < |content| ==> At(mem, buffers, |content|, x) == content[x]
  }

  function At(mem: seq<Byte>, buffers: seq<nat>, length: nat, x: nat): Byte
    requires Laid(buffers, length, |mem|) && x < length
  {
    MapInjective(buffers, length, |mem|, x, x);
    mem[Map(buffers, length, x)]
  }

  /** A packet's bytes go to their places and no other byte of the message is touched. */
  lemma {:induction false} WriteAt(mem: seq<Byte>, buffers: seq<nat>, length: nat, offset: nat, data: seq<Byte>, x: nat)
    requires Laid(buffers, length, |mem|) && x < length
    ensures At(Write(mem, buffers, length, offset, data), buffers, length, x)
         == if offset <= x < offset + |data| then data[x - offset] else At(mem, buffers, length, x)
    decreases |data|
  {
    hide Laid, Map;
    if data != [] {
      var k := |data| - 1;
      WriteAt(mem, buffers, length, offset, data[..k], x);
      MapInjective(buffers, length, |mem|, x, x);
      if offset + k < length {
        MapInjective(buffers, length, |mem|, offset + k, x);
      }
    }
  }

  /** Nothing outside the message's own bytes is touched. */
  lemma {:induction false} WriteElsewhere(mem: seq<Byte>, buffers: seq<nat>, length: nat, offset: nat,
                                          data: seq<Byte>, a: nat)
    requires Laid(buffers, length, |mem|) && a < |mem|
    requires forall x :: 0 <= x < length ==> Map(buffers, length, x) != a
    ensures Write(mem, buffers, length, offset, data)[a] == mem[a]
    decreases |data|
  {
    hide Laid, Map;
    LaidFits(buffers, length, |mem|);
    if data != [] {
      WriteElsewhere(mem, buffers, length, offset, data[..|data| - 1], a);
    }
  }

  lemma {:induction false} WriteAllElsewhere(mem: seq<Byte>, buffers: seq<nat>, length: nat, ps: seq<Packet>, a: nat)
    requires Laid(buffers, length, |mem|) && a < |mem|
    requires forall x :: 0 <= x < length ==> Map(buffers, length, x) != a
    ensures WriteAll(mem, buffers, length, ps)[a] == mem[a]
    decreases |ps|
  {
    hide Laid, Map, Write;
    LaidFits(buffers, length, |mem|);
    if ps != [] {
      var k := |ps| - 1;
      WriteAllElsewhere(mem, buffers, length, ps[..k], a);
      WriteElsewhere(WriteAll(mem, buffers, length, ps[..k]), buffers, length, ps[k].offset, ps[k].data, a);
    }
  }

  /** A byte that some packet carries is stored, whatever the order of the packets. */
  lemma {:induction false} WriteAllAt(mem: seq<Byte>, buffers: seq<nat>, ps: seq<Packet>, content: seq<Byte>, x: nat)
    requires Laid(buffers, |content|, |mem|) && x < |content|
    requires forall i :: 0 <= i < |ps| ==> D.Carries(ps[i], content)
    requires D.Covered(ps, x)
    ensures At(WriteAll(mem, buffers, |content|, ps), buffers, |content|, x) == content[x]
    decreases |ps|
  {
    hide Laid, Write, At;
    var k := |ps| - 1;
    var i :| 0 <= i < |ps| && D.Covers(ps[i], x);
    var m := WriteAll(mem, buffers, |content|, ps[..k]);
    WriteAt(m, buffers, |content|, ps[k].offset, ps[k].data, x);
    if !D.Covers(ps[k], x) {
      assert D.Covers(ps[..k][i], x);
      WriteAllAt(mem, buffers, ps[..k], content, x);
    }
  }

  /** Each byte of a complete message is in exactly one packet. */
  lemma WrittenOnce(m: MsgIn, ps: seq<Packet>, content: seq<Byte>, x: nat)
    requires D.Holds(m, ps, content) && m.bytesRemaining == 0 && x < |content|
    ensures exists i :: 0 <= i < |ps| && D.Covers(ps[i], x) &&
              forall j :: 0 <= j < |ps| && j != i ==> !D.Covers(ps[j], x)
  {
    hide Received, Valid;
    AllCovered(m, ps, content);
    assert D.Covered(ps, x);
    var i :| 0 <= i < |ps| && D.Covers(ps[i], x);
    assert forall j :: 0 <= j < |ps| && j != i ==> !D.Covers(ps[j], x);
  }

  lemma AllCovered(m: MsgIn, ps: seq<Packet>, content: seq<Byte>)
    requires D.Holds(m, ps, content) && m.bytesRemaining == 0
    ensures forall x :: 0 <= x < |content| ==> D.Covered(ps, x)
  {
    hide Received, Valid, D.Covered;
    Complete(m);
    forall x | 0 <= x < |content| ensures D.Covered(ps, x) {
      assert x in Range(0, m.length);
    }
  }

  /** Once all packets of a complete message have been copied, in any order and in any batches, memory
      holds the message, and nothing but its own chunks has changed. */
  lemma AllStored(mem: seq<Byte>, buffers: seq<nat>, m: MsgIn, ps: seq<Packet>, content: seq<Byte>, qs: seq<Packet>)
    requires D.Holds(m, ps, content) && m.bytesRemaining == 0 && Laid(buffers, |content|, |mem|)
    requires multiset(qs) == multiset(ps)
    ensures Stored(WriteAll(mem, buffers, |content|, qs), buffers, content)
    ensures forall a :: 0 <= a < |mem| && (forall x :: 0 <= x < |content| ==> Map(buffers, |content|, x) != a) ==>
              WriteAll(mem, buffers, |content|, qs)[a] == mem[a]
  {
    hide Received, Valid, D.Covered, D.Apart, D.Carries, Laid, WriteAll, Map, At;
    AllCovered(m, ps, content);
    forall i | 0 <= i < |qs| ensures D.Carries(qs[i], content) {
      assert qs[i] in multiset(ps);
      assert qs[i] in ps;
    }
    forall x | 0 <= x < |content|
      ensures At(WriteAll(mem, buffers, |content|, qs), buffers, |content|, x) == content[x]
    {
      D.CoveredPermuted(ps, qs, x);
      WriteAllAt(mem, buffers, qs, content, x);
    }
    LaidFits(buffers, |content|, |mem|);
    forall a | 0 <= a < |mem| && (forall x :: 0 <= x < |content| ==> Map(buffers, |content|, x) != a)
      ensures WriteAll(mem, buffers, |content|, qs)[a] == mem[a]
    {
      WriteAllElsewhere(mem, buffers, |content|, qs, a);
    }
  }

  // ---- Reading back ----

  /** Where homa::receiver::copy_out stops: it copies whole chunks. */
  function OutEnd(length: nat, limit: nat): nat {
    var page := (limit + BPAGE_SIZE - 1) / BPAGE_SIZE * BPAGE_SIZE;
    if page < length then page else length
  }

  function Limit(length: nat, offset: nat, count: nat): nat {
    if offset + count > length then length else offset + count
  }

  /** The bytes that a call of copy_out asks for. */
  ghost function Asked(content: seq<Byte>, offset: nat, count: nat): seq<Byte> {
    var limit := Limit(|content|, offset, count);
    if offset < limit then content[offset..limit] else []
  }

  /** homa::receiver::copy_out: it copies whole chunks, so it copies just what was asked for, as documented, exactly
      if nothing was, or the range reaches the end of the message, or it ends at a page boundary. */
  method CopyOut(mem: seq<Byte>, buffers: seq<nat>, offset: nat, count: nat, ghost content: seq<Byte>, length: nat)
    returns (dest: seq<Byte>)
    requires Stored(mem, buffers, content) && length == |content|
    ensures dest == if offset < Limit(length, offset, count)
                    then content[offset..OutEnd(length, Limit(length, offset, count))] else []
    ensures Asked(content, offset, count) <= dest
    ensures dest == Asked(content, offset, count)
            <==> (count == 0 || length <= offset + count || (offset + count) % BPAGE_SIZE == 0)
  {
    hide Laid, Contiguous, At, Stored;
    var limit := offset + count;
    if limit > length {
      limit := length;
    }
    dest := [];
    var cur := offset;
    while cur < limit
      invariant offset <= cur && (offset < limit ==> cur <= OutEnd(length, limit) <= length)
      invariant cur != offset && limit <= cur ==> cur == OutEnd(length, limit)
      invariant dest == if offset < limit then content[offset..cur] else []
    {
      StoredRun(mem, buffers, content, cur);
      var chunkSize := Contiguous(buffers, length, cur);
      RunEnd(buffers, length, cur, limit);
      var src := GetBuffer(buffers, length, cur).0.value;
      dest := dest + mem[src..src + chunkSize];
      assert content[offset..cur] + content[cur..cur + chunkSize] == content[offset..cur + chunkSize];
      cur := cur + chunkSize;
    }
    CopyOutExact(length, offset, count);
    if offset < limit {
      WholeChunks(content, offset, limit);
    }
  }

  lemma WholeChunks(content: seq<Byte>, offset: nat, limit: nat)
    requires offset < limit <= |content|
    ensures var end := OutEnd(|content|, limit);
      && limit <= end <= |content| && content[offset..limit] <= content[offset..end]
      && (content[offset..limit] == content[offset..end] <==> limit == end)
  {
    var end := OutEnd(|content|, limit);
    assert |content[offset..limit]| == limit - offset && |content[offset..end]| == end - offset;
  }

  /** A contiguous piece of memory holds a piece of the message. */
  lemma StoredRun(mem: seq<Byte>, buffers: seq<nat>, content: seq<Byte>, offset: nat)
    requires Stored(mem, buffers, content) && offset < |content|
    ensures Fits(buffers, |content|)
    ensures var n := Contiguous(buffers, |content|, offset); var b := GetBuffer(buffers, |content|, offset).0;
      && 0 < n && offset + n <= |content| && b.Some? && b.value + n <= |mem|
      && mem[b.value..b.value + n] == content[offset..offset + n]
  {
    hide Laid, Contiguous, Map, GetBuffer;
    var length := |content|;
    LaidFits(buffers, length, |mem|);
    BufferFacts(buffers, length, offset);
    var n := Contiguous(buffers, length, offset);
    var a := Map(buffers, length, offset);
    Consecutive(buffers, length, offset, n - 1);
    MapInjective(buffers, length, |mem|, offset + (n - 1), offset);
    var stored, sent := mem[a..a + n], content[offset..offset + n];
    forall k | 0 <= k < n ensures stored[k] == sent[k] {
      Consecutive(buffers, length, offset, k);
      assert At(mem, buffers, length, offset + k) == content[offset + k];
    }
  }

  /** Each chunk but the last ends below the limit, and the last where OutEnd says. */
  lemma RunEnd(buffers: seq<nat>, length: nat, offset: nat, limit: nat)
    requires Fits(buffers, length) && offset < limit <= length
    ensures var e := offset + Contiguous(buffers, length, offset);
      && e <= OutEnd(length, limit) <= length
      && (limit <= e ==> e == OutEnd(length, limit))
  {
    Located(buffers, length, offset);
  }

  lemma CopyOutExact(length: nat, offset: nat, count: nat)
    ensures var limit := Limit(length, offset, count);
      (offset >= limit || OutEnd(length, limit) == limit)
      <==> (count == 0 || length <= offset + count || (offset + count) % BPAGE_SIZE == 0)
  {
  }

  /** Ten bytes of a message of 100 are asked for, and copy_out copies all 100. */
  method CopyOutOverruns(content: seq<Byte>) returns (dest: seq<Byte>)
    requires |content| == 100
    ensures dest == content && |Asked(content, 0, 10)| == 10
  {
    hide At;
    forall x | 0 <= x < 100 ensures Laid([0], 100, 100) && At(content, [0], 100, x) == content[x] {
      FirstPage(content, x);
    }
    dest := CopyOut(content, [0], 0, 10, content, 100);
  }

  lemma FirstPage(content: seq<Byte>, x: nat)
    requires x < |content| <= BPAGE_SIZE
    ensures Laid([0], |content|, |content|) && At(content, [0], |content|, x) == content[x]
  {
  }

  // ---- From arrival to reading ----

  /** A packet arrives, or the first n queued packets are copied to the pool. */
  datatype Event = Arrive(p: Packet, memory: bool) | Copy(n: nat)

  /** What has been copied and what is queued make up what has been received. */
  ghost predicate Partly(msg: MsgIn, copied: seq<Packet>, queued: seq<Packet>, content: seq<Byte>,
                         mem0: seq<Byte>, mem: seq<Byte>, buffers: seq<nat>)
  {
    && Laid(buffers, |content|, |mem0|) && D.Holds(msg, copied + queued, content)
    && mem == WriteAll(mem0, buffers, |content|, copied)
  }

  /** homa_add_packet while earlier packets may have been copied already. */
  method TakePacket(msg: MessageIn, p: Packet, memory: bool, ghost copied: seq<Packet>, ghost content: seq<Byte>,
                    ghost mem0: seq<Byte>, ghost mem: seq<Byte>, ghost buffers: seq<nat>)
    requires Partly(msg.Abs(), copied, msg.packets, content, mem0, mem, buffers) && D.Carries(p, content)
    modifies msg
    ensures Partly(msg.Abs(), copied, msg.packets, content, mem0, mem, buffers)
  {
    hide Laid, WriteAll, D.Holds, Add;
    ghost var m, queued := msg.Abs(), msg.packets;
    D.HoldsKept(m, copied + queued, p, content, memory);
    HoldsValid(m, copied + queued, content);
    var kept := msg.AddPacket(p, memory);
    ghost var more := if kept then [p] else [];
    assert copied + queued + more == copied + (queued + more);
  }

  lemma HoldsValid(m: MsgIn, ps: seq<Packet>, content: seq<Byte>)
    requires D.Holds(m, ps, content)
    ensures Valid(m) && |content| == m.length
  {
  }

  /** homa_copy_to_pool takes the first packets of the queue and copies them; others may arrive meanwhile. */
  method Drain(region: array<Byte>, buffers: seq<nat>, msg: MessageIn, n: nat, ghost copied: seq<Packet>,
               ghost content: seq<Byte>, ghost mem0: seq<Byte>)
    returns (ghost copied': seq<Packet>)
    requires n <= |msg.packets| && Partly(msg.Abs(), copied, msg.packets, content, mem0, region[..], buffers)
    modifies region, msg`packets
    ensures msg.packets == old(msg.packets)[n..]
    ensures Partly(msg.Abs(), copied', msg.packets, content, mem0, region[..], buffers)
  {
    hide Laid, WriteAll, D.Holds, WritePart;
    var batch := msg.packets[..n];
    ghost var rest := msg.packets[n..];
    assert msg.packets == batch + rest && copied + (batch + rest) == copied + batch + rest;
    HoldsValid(msg.Abs(), copied + batch + rest, content);
    LaidFits(buffers, |content|, region.Length);
    QueuedStorable(msg.Abs(), copied, batch, rest, content, buffers);
    var ok;
    ghost var k, b;
    ok, k, b := CopyToPool(region, buffers, msg.length, batch, {});
    WriteWhole(WriteAll(mem0, buffers, |content|, copied), buffers, |content|, batch, b);
    WriteAllAppend(mem0, buffers, |content|, copied, batch);
    msg.packets := msg.packets[n..];
    copied' := copied + batch;
  }

  lemma QueuedStorable(m: MsgIn, copied: seq<Packet>, queued: seq<Packet>, rest: seq<Packet>, content: seq<Byte>,
                       buffers: seq<nat>)
    requires D.Holds(m, copied + queued + rest, content) && Fits(buffers, |content|)
    ensures AllStorable(buffers, |content|, queued, 0, |queued|, {})
  {
    hide Received, Valid, D.Covered, D.Apart, Map, Fits;
    forall i | 0 <= i < |queued| ensures Storable(buffers, |content|, queued[i], {}) {
      assert (copied + queued + rest)[|copied| + i] == queued[i];
    }
  }

  lemma {:induction false} WriteAllAppend(mem: seq<Byte>, buffers: seq<nat>, length: nat,
                                          ps: seq<Packet>, qs: seq<Packet>)
    requires Laid(buffers, length, |mem|)
    ensures WriteAll(mem, buffers, length, ps + qs) == WriteAll(WriteAll(mem, buffers, length, ps), buffers, length, qs)
    decreases |qs|
  {
    hide Laid, Write;
    if qs == [] {
      assert ps + qs == ps;
    } else {
      var k := |qs| - 1;
      assert (ps + qs)[..|ps| + k] == ps + qs[..k];
      WriteAllAppend(mem, buffers, length, ps, qs[..k]);
    }
  }

  /** A message from its first packet to the application: packets arrive in any order, some of them twice, some are
      dropped for want of memory, and the queue is emptied in between at any time. As soon as no bytes are
      missing, what copy_out gives from any offset to the end of the message is what was sent; and nothing
      but the message's own chunks has been written. */
  method RoundTrip(region: array<Byte>, buffers: seq<nat>, events: seq<Event>, ghost content: seq<Byte>, length: nat,
                   offset: nat, count: nat)
    returns (msg: MessageIn, dest: seq<Byte>)
    requires |content| == length && Laid(buffers, length, region.Length)
    requires forall i :: 0 <= i < |events| && events[i].Arrive? ==> D.Carries(events[i].p, content)
    modifies region
    ensures msg.bytesRemaining == 0 <==> Received(msg.Abs()) == Range(0, length)
    ensures msg.bytesRemaining == 0 ==> Asked(content, offset, count) <= dest
    ensures msg.bytesRemaining == 0 && offset <= length <= offset + count ==> dest == content[offset..]
    ensures forall a :: 0 <= a < region.Length && (forall x :: 0 <= x < length ==> Map(buffers, length, x) != a) ==>
              region[a] == old(region[a])
  {
    hide Laid, WriteAll, D.Holds, Stored, Received, Range, Map;
    ghost var mem0, copied: seq<Packet> := region[..], [];
    msg := new MessageIn(length);
    dest := [];
    D.HoldsNothing(content);
    WriteAllNone(mem0, buffers, length, []);
    assert copied + copied == copied && copied[..0] == copied;
    var i := 0;
    while i < |events|
      invariant 0 <= i <= |events| && fresh(msg) && msg.length == length
      invariant Partly(msg.Abs(), copied, msg.packets, content, mem0, region[..], buffers)
    {
      match events[i] {
        case Arrive(p, memory) => TakePacket(msg, p, memory, copied, content, mem0, region[..], buffers);
        case Copy(n) =>
          copied := Drain(region, buffers, msg, if n < |msg.packets| then n else |msg.packets|, copied, content, mem0);
      }
      i := i + 1;
    }
    copied := Drain(region, buffers, msg, |msg.packets|, copied, content, mem0);
    assert copied + [] == copied;
    CompleteHeld(msg.Abs(), copied, content);
    if msg.bytesRemaining == 0 {
      AllStored(mem0, buffers, msg.Abs(), copied, content, copied);
      dest := CopyOut(region[..], buffers, offset, count, content, length);
    }
    LaidFits(buffers, length, region.Length);
    forall a | 0 <= a < region.Length && (forall x :: 0 <= x < length ==> Map(buffers, length, x) != a)
      ensures region[a] == mem0[a]
    {
      WriteAllElsewhere(mem0, buffers, length, copied, a);
    }
  }

  lemma CompleteHeld(m: MsgIn, ps: seq<Packet>, content: seq<Byte>)
    requires D.Holds(m, ps, content)
    ensures m.bytesRemaining == 0 <==> Received(m) == Range(0, m.length)
  {
    hide Received, Range;
    Complete(m);
  }
}
