/**
 Loss recovery of one message: the sender only ever sends blocks of one partition of the
 message, the receiver records them in a gap list and asks for what is missing, and the
 sender answers with the blocks that hold the missing bytes.
 */
module LossRecovery {
  import opened Reassembly
  import opened PacketGeometry

  /** A block reaches the receiver; memory says whether a gap object could be allocated. */
  datatype Arrival = Arrival(block: Block, memory: bool)

  function Deliver(m: MsgIn, a: Arrival): MsgIn {
    Add(m, a.block.offset, a.block.len, a.memory).0
  }

  function DeliverAll(m: MsgIn, ds: seq<Arrival>): MsgIn
    decreases |ds|
  {
    if ds == [] then m else DeliverAll(Deliver(m, ds[0]), ds[1..])
  }

  ghost predicate Has(m: MsgIn, b: Block) {
    forall x :: b.offset <= x < End(b) ==> x in Received(m)
  }

  ghost predicate Lacks(m: MsgIn, b: Block) {
    forall x :: b.offset <= x < End(b) ==> x !in Received(m)
  }

  /** The receiver has each block of the partition altogether or not at all. */
  ghost predicate Aligned(m: MsgIn, bs: seq<Block>) {
    && Valid(m) && Tiles(bs, 0, m.length)
    && forall b :: b in bs ==> Has(m, b) || Lacks(m, b)
  }

  /** Only blocks arrive. */
  ghost predicate AllFrom(ds: seq<Arrival>, bs: seq<Block>) {
    forall i :: 0 <= i < |ds| ==> ds[i].block in bs
  }

  ghost predicate Arrives(b: Block, ds: seq<Arrival>) {
    exists i :: 0 <= i < |ds| && ds[i].block == b && ds[i].memory
  }

  lemma NothingYet(bs: seq<Block>, length: nat)
    requires Tiles(bs, 0, length)
    ensures Aligned(Fresh(length), bs)
  {
    assert Received(Fresh(length)) == {};
  }

  lemma NotBoth(m: MsgIn, b: Block)
    requires b.len > 0
    ensures !(Has(m, b) && Lacks(m, b))
  {
    assert Has(m, b) ==> b.offset in Received(m);
  }

  lemma LacksDisjoint(m: MsgIn, b: Block)
    ensures Lacks(m, b) ==> Received(m) !! Range(b.offset, b.offset + b.len)
  {
  }

  /** A block that arrives is new altogether or a duplicate altogether; it is kept exactly if it is
      new (gap allocation permitting), and no other block is affected. */
  lemma DeliverOk(m: MsgIn, a: Arrival, bs: seq<Block>)
    requires Aligned(m, bs) && a.block in bs
    ensures var m' := Deliver(m, a);
      && Aligned(m', bs) && m'.length == m.length
      && (a.memory ==> Has(m', a.block))
      && (forall b :: b in bs && Has(m, b) ==> Has(m', b))
      && (forall b :: b in bs && b != a.block && Lacks(m, b) ==> Lacks(m', b))
    ensures a.memory ==> Add(m, a.block.offset, a.block.len, true).1 == Lacks(m, a.block)
  {
    hide Valid, Received, Tiles, Add, Has, Lacks, Gained, Range;
    var b := a.block;
    TilesBounds(bs, 0, m.length);
    NotBoth(m, b);
    LacksDisjoint(m, b);
    AddOk(m, b.offset, b.len, a.memory);
    var (m', kept) := Add(m, b.offset, b.len, a.memory);
    if kept {
      GainedBlock(m, m', b);
      forall c | c in bs && c != b && Lacks(m, c) ensures Lacks(m', c) {
        OtherBlock(m, m', b, c, bs);
      }
    }
  }

  lemma GainedBlock(m: MsgIn, m': MsgIn, b: Block)
    requires Gained(m, m', b.offset, End(b))
    ensures Valid(m') && m'.length == m.length && Lacks(m, b) && Has(m', b)
    ensures forall c :: Has(m, c) ==> Has(m', c)
  {
    hide Valid, Received;
    forall x | b.offset <= x < End(b) ensures x !in Received(m) && x in Received(m') {
      assert x in Range(b.offset, End(b));
    }
  }

  lemma OtherBlock(m: MsgIn, m': MsgIn, b: Block, c: Block, bs: seq<Block>)
    requires Gained(m, m', b.offset, End(b)) && Tiles(bs, 0, m.length) && b in bs && c in bs
    requires b != c && Lacks(m, c)
    ensures Lacks(m', c)
  {
    hide Valid, Received, Tiles;
    forall x | c.offset <= x < End(c) ensures x !in Received(m') {
      if x in Received(m') {
        assert x !in Received(m);
        TilesDisjoint(bs, 0, m.length, b, c, x);
      }
    }
  }

  /** After any arrivals, the receiver has the blocks it had and those that arrived. */
  lemma {:induction false} DeliverAllOk(m: MsgIn, ds: seq<Arrival>, bs: seq<Block>)
    requires Aligned(m, bs) && AllFrom(ds, bs)
    ensures var m' := DeliverAll(m, ds);
      && Aligned(m', bs) && m'.length == m.length
      && (forall b :: b in bs && (Has(m, b) || Arrives(b, ds)) ==> Has(m', b))
      && (forall b :: b in bs && Lacks(m, b) && (forall i :: 0 <= i < |ds| ==> ds[i].block != b) ==> Lacks(m', b))
    decreases |ds|
  {
    hide Aligned, Has, Lacks, Deliver;
    if ds != [] {
      var n := Deliver(m, ds[0]);
      DeliverOk(m, ds[0], bs);
      DeliverAllOk(n, ds[1..], bs);
      forall b | b in bs && (Has(m, b) || Arrives(b, ds)) ensures Has(n, b) || Arrives(b, ds[1..]) {
        if !Has(m, b) {
          var i :| 0 <= i < |ds| && ds[i].block == b && ds[i].memory;
          if i > 0 {
            assert ds[1..][i - 1] == ds[i];
          }
        }
      }
    }
  }

  // ---- Gaps lie on block boundaries ----

  lemma {:induction false} MissingAt(gaps: seq<Gap>, i: nat, x: int)
    requires i < |gaps| && gaps[i].start <= x < gaps[i].end
    ensures Missing(gaps, x)
    decreases i
  {
    if i > 0 {
      MissingAt(gaps[1..], i - 1, x);
    }
  }

  lemma {:induction false} MissingIndex(gaps: seq<Gap>, x: int) returns (i: nat)
    requires Missing(gaps, x)
    ensures i < |gaps| && gaps[i].start <= x < gaps[i].end
    decreases |gaps|
  {
    if gaps[0].start <= x < gaps[0].end {
      i := 0;
    } else {
      var j := MissingIndex(gaps[1..], x);
      i := j + 1;
    }
  }

  /** The bytes just before and just after a gap are not missing. */
  lemma {:induction false} GapEdges(gaps: seq<Gap>, lo: nat, hi: nat, i: nat)
    requires GapsOk(gaps, lo, hi) && i < |gaps|
    ensures lo <= gaps[i].start < gaps[i].end < hi
    ensures !Missing(gaps, gaps[i].start - 1) && !Missing(gaps, gaps[i].end)
    decreases i
  {
    var g, rest := gaps[0], gaps[1..];
    RestAbove(g, rest, hi);
    if i > 0 {
      GapEdges(rest, g.end + 1, hi, i - 1);
    }
  }

  /** The bytes on either side of each edge of a gap. */
  lemma EdgeBytes(m: MsgIn, i: nat)
    requires Valid(m) && i < |m.gaps|
    ensures var g := m.gaps[i];
      && g.start < g.end < m.recvEnd <= m.length
      && (g.start > 0 ==> g.start - 1 in Received(m)) && g.end in Received(m)
      && forall x :: g.start <= x < g.end ==> x !in Received(m)
  {
    hide GapsOk, Missing;
    var g := m.gaps[i];
    GapEdges(m.gaps, 0, m.recvEnd, i);
    forall x | g.start <= x < g.end ensures Missing(m.gaps, x) {
      MissingAt(m.gaps, i, x);
    }
  }

  /** A block with a received byte and a missing one. */
  lemma SplitBlock(m: MsgIn, b: Block, x: int, y: int)
    requires b.offset <= x < End(b) && b.offset <= y < End(b) && x in Received(m) && y !in Received(m)
    ensures !Has(m, b) && !Lacks(m, b)
  {
  }

  /** A gap starts where a block starts and ends where a block ends. */
  lemma GapsOnBoundaries(m: MsgIn, bs: seq<Block>, i: nat) returns (j: nat, k: nat)
    requires Aligned(m, bs) && i < |m.gaps|
    ensures j < |bs| && k < |bs| && bs[j].offset == m.gaps[i].start && End(bs[k]) == m.gaps[i].end
  {
    hide Tiles, Valid, Received, Has, Lacks;
    var g := m.gaps[i];
    EdgeBytes(m, i);
    j := TilesPosition(bs, 0, m.length, g.start);
    k := TilesPosition(bs, 0, m.length, g.end - 1);
    assert bs[j] in bs && bs[k] in bs;
    if bs[j].offset < g.start {
      SplitBlock(m, bs[j], g.start - 1, g.start);
    }
    if End(bs[k]) > g.end {
      SplitBlock(m, bs[k], g.end, g.end - 1);
    }
  }

  /** Compared with any gap, a block is either clear of it or inside it: the discards of
      homa_add_packet for a partial overlap are never taken. */
  lemma NoPartialOverlap(m: MsgIn, bs: seq<Block>, b: Block, i: nat)
    requires Aligned(m, bs) && b in bs && i < |m.gaps|
    ensures Judge(m.gaps[i], b.offset, End(b), true) != Reject
  {
    hide Tiles, Valid, Received, Has, Lacks;
    var g := m.gaps[i];
    EdgeBytes(m, i);
    if b.offset < g.start < End(b) {
      SplitBlock(m, b, g.start - 1, g.start);
    }
    if b.offset < g.end < End(b) {
      SplitBlock(m, b, g.end, g.end - 1);
    }
  }

  // ---- RESENDs and their answers ----

  /** A RESEND packet; length -1 asks for everything sent so far. */
  datatype Resend = Resend(offset: nat, length: int)

  /** What a receiver knows of a message: nothing before the first packet. */
  datatype Incoming = NoData | Known(m: MsgIn, granted: int)

  function GapRequest(g: Gap): Resend {
    Resend(g.start, g.end - g.start)
  }

  /** homa_request_retrans: one RESEND for each gap, and one for granted bytes after the last one. */
  method RequestRetrans(inc: Incoming) returns (rs: seq<Resend>)
    ensures inc.NoData? ==> rs == [Resend(0, -1)]
    ensures inc.Known? ==> IsRequest(inc.m, inc.granted, rs)
  {
    rs := [];
    match inc
    case NoData =>
      rs := [Resend(0, -1)];
    case Known(m, granted) =>
      var i := 0;
      while i < |m.gaps|
        invariant 0 <= i <= |m.gaps| && |rs| == i
        invariant forall j :: 0 <= j < i ==> rs[j] == GapRequest(m.gaps[j])
      {
        rs := rs + [GapRequest(m.gaps[i])];
        i := i + 1;
      }
      if granted - m.recvEnd > 0 {
        rs := rs + [Resend(m.recvEnd, granted - m.recvEnd)];
      }
  }

  ghost predicate IsRequest(m: MsgIn, granted: int, rs: seq<Resend>) {
    && |rs| == |m.gaps| + (if granted > m.recvEnd then 1 else 0)
    && (forall i :: 0 <= i < |m.gaps| ==> rs[i] == GapRequest(m.gaps[i]))
    && (granted > m.recvEnd ==> rs[|m.gaps|] == Resend(m.recvEnd, granted - m.recvEnd))
  }

  /** The end of the range that homa_resend_pkt passes to homa_resend_data. */
  function ResendEnd(r: Resend, txEnd: nat): int {
    var end := if r.length == -1 then txEnd else r.offset + r.length;
    if end > txEnd then txEnd else end
  }

  /** The blocks with which a sender that has transmitted up to txEnd answers a RESEND. */
  function Answer(bs: seq<Block>, r: Resend, txEnd: nat): seq<Block> {
    if ResendEnd(r, txEnd) <= r.offset then [] else Touching(bs, r.offset, ResendEnd(r, txEnd))
  }

  /** Some RESEND of rs is answered with b. */
  ghost predicate Fetched(bs: seq<Block>, rs: seq<Resend>, txEnd: nat, b: Block) {
    exists i :: 0 <= i < |rs| && b in Answer(bs, rs[i], txEnd)
  }

  lemma AnswerMember(bs: seq<Block>, r: Resend, txEnd: nat, b: Block)
    ensures b in Answer(bs, r, txEnd) <==>
            b in bs && r.offset < ResendEnd(r, txEnd) && b.offset < ResendEnd(r, txEnd) && r.offset < End(b)
  {
    if r.offset < ResendEnd(r, txEnd) {
      TouchingMember(bs, r.offset, ResendEnd(r, txEnd));
      TouchesMeans(b, r.offset, ResendEnd(r, txEnd));
    }
  }

  /** Every block fetched by the RESENDs is missing altogether. */
  lemma FetchedIsMissing(m: MsgIn, granted: int, bs: seq<Block>, rs: seq<Resend>, txEnd: nat, b: Block)
    requires Aligned(m, bs) && IsRequest(m, granted, rs) && Fetched(bs, rs, txEnd, b)
    ensures b in bs && Lacks(m, b) && b.offset < txEnd
  {
    hide Tiles, GapsOk, Missing, Answer;
    var i :| 0 <= i < |rs| && b in Answer(bs, rs[i], txEnd);
    AnswerMember(bs, rs[i], txEnd, b);
    if i < |m.gaps| {
      var g := m.gaps[i];
      EdgeBytes(m, i);
      var x := if b.offset < g.start then g.start else b.offset;
      assert x !in Received(m);
    } else {
      var x := if b.offset < m.recvEnd then m.recvEnd else b.offset;
      assert x !in Received(m);
    }
  }

  /** A missing block within reach is fetched: it starts below what the sender has transmitted, and below
      recvEnd or within what was granted. */
  lemma MissingIsFetched(m: MsgIn, granted: int, bs: seq<Block>, rs: seq<Resend>, txEnd: nat, b: Block)
    requires Aligned(m, bs) && IsRequest(m, granted, rs) && b in bs && Lacks(m, b)
    requires b.offset < txEnd && (b.offset < m.recvEnd || b.offset < granted)
    ensures Fetched(bs, rs, txEnd, b)
  {
    hide Tiles, GapsOk, Missing, Answer;
    TilesBounds(bs, 0, m.length);
    var i: nat;
    if b.offset < m.recvEnd {
      assert b.offset !in Received(m);
      i := MissingIndex(m.gaps, b.offset);
      GapEdges(m.gaps, 0, m.recvEnd, i);
    } else {
      i := |m.gaps|;
    }
    AnswerMember(bs, rs[i], txEnd, b);
  }

  /** The RESENDs fetch exactly the missing blocks within reach. */
  lemma ResendsFetchMissing(m: MsgIn, granted: int, bs: seq<Block>, rs: seq<Resend>, txEnd: nat, b: Block)
    requires Aligned(m, bs) && IsRequest(m, granted, rs)
    ensures Fetched(bs, rs, txEnd, b) <==>
            b in bs && Lacks(m, b) && b.offset < txEnd && (b.offset < m.recvEnd || b.offset < granted)
  {
    hide Aligned, IsRequest;
    if b in bs && Lacks(m, b) && b.offset < txEnd && (b.offset < m.recvEnd || b.offset < granted) {
      MissingIsFetched(m, granted, bs, rs, txEnd, b);
    }
    if Fetched(bs, rs, txEnd, b) {
      FetchedIsMissing(m, granted, bs, rs, txEnd, b);
      FetchedInReach(m, granted, bs, rs, txEnd, b);
    }
  }

  lemma FetchedInReach(m: MsgIn, granted: int, bs: seq<Block>, rs: seq<Resend>, txEnd: nat, b: Block)
    requires Aligned(m, bs) && IsRequest(m, granted, rs) && Fetched(bs, rs, txEnd, b)
    ensures b.offset < m.recvEnd || b.offset < granted
  {
    hide Tiles, GapsOk, Missing, Answer;
    var i :| 0 <= i < |rs| && b in Answer(bs, rs[i], txEnd);
    AnswerMember(bs, rs[i], txEnd, b);
    if i < |m.gaps| {
      GapEdges(m.gaps, 0, m.recvEnd, i);
    }
  }

  /** A sender that holds only some of the blocks answers with those of them that all would give. */
  lemma FetchedAmong(some: seq<Block>, bs: seq<Block>, rs: seq<Resend>, txEnd: nat, b: Block)
    requires forall c :: c in some ==> c in bs
    ensures Fetched(some, rs, txEnd, b) <==> b in some && Fetched(bs, rs, txEnd, b)
  {
    hide Answer;
    if Fetched(some, rs, txEnd, b) {
      var i :| 0 <= i < |rs| && b in Answer(some, rs[i], txEnd);
      AnswerMember(some, rs[i], txEnd, b);
      AnswerMember(bs, rs[i], txEnd, b);
    }
    if b in some && Fetched(bs, rs, txEnd, b) {
      var i :| 0 <= i < |rs| && b in Answer(bs, rs[i], txEnd);
      AnswerMember(some, rs[i], txEnd, b);
      AnswerMember(bs, rs[i], txEnd, b);
    }
  }

  // ---- Recovery ----

  /** If the receiver has every block, the message is complete. */
  lemma HasAll(m: MsgIn, bs: seq<Block>)
    requires Aligned(m, bs) && forall b :: b in bs ==> Has(m, b)
    ensures m.bytesRemaining == 0 && m.gaps == [] && m.recvEnd == m.length
  {
    hide Tiles, GapsOk, Received;
    forall x | 0 <= x < m.length ensures x in Received(m) {
      var i := TilesPosition(bs, 0, m.length, x);
      assert bs[i] in bs;
    }
    AllReceived(m);
    assert Received(m) == Range(0, m.length);
    Complete(m);
  }

  /** Loss recovery: whatever blocks of a message arrived before, in whatever order, once the
      whole message has been granted and transmitted, one round of RESENDs fetches just what is
      missing, and when that arrives, in any order and with any duplicates, the message is complete. */
  lemma Recovery(g: Geometry, before: seq<Arrival>, granted: int, rs: seq<Resend>, after: seq<Arrival>)
    requires ValidGeometry(g) && AllFrom(before, Blocks(g)) && AllFrom(after, Blocks(g))
    requires granted >= g.length && IsRequest(DeliverAll(Fresh(g.length), before), granted, rs)
    requires forall b :: Fetched(Blocks(g), rs, g.length, b) ==> Arrives(b, after)
    ensures var m := DeliverAll(Fresh(g.length), before);
      && Aligned(m, Blocks(g))
      && (forall b :: Fetched(Blocks(g), rs, g.length, b) <==> b in Blocks(g) && !Has(m, b))
    ensures var m' := DeliverAll(Fresh(g.length), before + after);
      m'.bytesRemaining == 0 && m'.gaps == [] && m'.recvEnd == g.length
  {
    hide Blocks, Tiles, IsRequest, Has, Lacks, Fetched, Valid, Arrives, AllFrom;
    var bs := Blocks(g);
    var m := DeliverAll(Fresh(g.length), before);
    BlocksTile(g);
    NothingYet(bs, g.length);
    DeliverAllOk(Fresh(g.length), before, bs);
    TilesBounds(bs, 0, g.length);
    RecvEndInside(m);
    forall b ensures Fetched(bs, rs, g.length, b) <==> b in bs && !Has(m, b) {
      ResendsFetchMissing(m, granted, bs, rs, g.length, b);
      if b in bs {
        NotBoth(m, b);
      }
    }
    DeliverAllOk(m, after, bs);
    DeliverAppend(Fresh(g.length), before, after);
    HasAll(DeliverAll(m, after), bs);
  }

  lemma RecvEndInside(m: MsgIn)
    requires Valid(m)
    ensures m.recvEnd <= m.length
  {
  }

  lemma {:induction false} DeliverAppend(m: MsgIn, ds: seq<Arrival>, es: seq<Arrival>)
    ensures DeliverAll(m, ds + es) == DeliverAll(DeliverAll(m, ds), es)
    decreases |ds|
  {
    if ds == [] {
      assert ds + es == es;
    } else {
      assert (ds + es)[1..] == ds[1..] + es;
      DeliverAppend(Deliver(m, ds[0]), ds[1..], es);
    }
  }

  /** Before the whole message is granted: when the answers to the RESENDs for the gaps arrive, in any
      order, among any duplicates of blocks below recvEnd, no gap remains and recvEnd is unchanged. */
  lemma GapsEmptied(m: MsgIn, granted: int, bs: seq<Block>, rs: seq<Resend>, txEnd: nat, after: seq<Arrival>)
    requires Aligned(m, bs) && IsRequest(m, granted, rs) && m.recvEnd <= txEnd && AllFrom(after, bs)
    requires forall i :: 0 <= i < |after| ==> after[i].block.offset < m.recvEnd
    requires forall b: Block :: b.offset < m.recvEnd && Fetched(bs, rs, txEnd, b) ==> Arrives(b, after)
    ensures DeliverAll(m, after).gaps == [] && DeliverAll(m, after).recvEnd == m.recvEnd
  {
    hide Aligned, IsRequest, Has, Lacks, Fetched, Arrives;
    var m' := DeliverAll(m, after);
    DeliverAllOk(m, after, bs);
    forall b | b in bs ensures if b.offset < m.recvEnd then Has(m', b) else Lacks(m', b) {
      ResendsFetchMissing(m, granted, bs, rs, txEnd, b);
      BlockCases(m, bs, b);
    }
    AlignedEnd(m, bs);
    PrefixReceived(m', bs, m.recvEnd);
    SameEnd(m, m', bs);
  }

  lemma SameEnd(m: MsgIn, m': MsgIn, bs: seq<Block>)
    requires Aligned(m, bs) && Aligned(m', bs) && m.length == m'.length
    requires forall b :: b in bs ==> if b.offset < m.recvEnd then Has(m', b) else Lacks(m', b)
    ensures m'.recvEnd == m.recvEnd
  {
    hide Tiles, Valid, Received;
    AlignedEnd(m, bs);
    AlignedEnd(m', bs);
    TilesBounds(bs, 0, m.length);
    if m.recvEnd > 0 {
      var b :| b in bs && End(b) == m.recvEnd && Has(m, b) && b.offset < m.recvEnd;
      ReceivedBelow(m', m.recvEnd - 1);
      var b' :| b' in bs && End(b') == m'.recvEnd && Has(m', b') && b'.offset < m'.recvEnd;
      NotBoth(m', b');
      if End(b') > m.recvEnd {
        TilesDisjoint(bs, 0, m.length, b, b', m.recvEnd - 1);
      }
    } else if m'.recvEnd > 0 {
      var b' :| b' in bs && End(b') == m'.recvEnd && Has(m', b') && b'.offset < m'.recvEnd;
      NotBoth(m', b');
    }
  }

  lemma ReceivedBelow(m: MsgIn, x: int)
    requires x in Received(m)
    ensures x < m.recvEnd
  {
  }

  lemma BlockCases(m: MsgIn, bs: seq<Block>, b: Block)
    requires Aligned(m, bs) && b in bs
    ensures Has(m, b) || Lacks(m, b)
    ensures b.offset >= m.recvEnd ==> Lacks(m, b)
  {
    hide Tiles, GapsOk;
  }

  /** recvEnd is a block boundary. */
  lemma AlignedEnd(m: MsgIn, bs: seq<Block>)
    requires Aligned(m, bs)
    ensures m.recvEnd <= m.length
    ensures m.recvEnd > 0 ==> exists b :: b in bs && End(b) == m.recvEnd && Has(m, b) && b.offset < m.recvEnd
  {
    hide Tiles, GapsOk;
    if m.recvEnd > 0 {
      LastReceived(m);
      var i := TilesPosition(bs, 0, m.length, m.recvEnd - 1);
      assert bs[i] in bs;
      assert End(bs[i]) > m.recvEnd ==> m.recvEnd !in Received(m);
    }
  }

  /** If exactly the blocks below `end` have been received, there is no gap. */
  lemma PrefixReceived(m: MsgIn, bs: seq<Block>, end: nat)
    requires Aligned(m, bs) && end <= m.length
    requires forall b :: b in bs ==> if b.offset < end then Has(m, b) else Lacks(m, b)
    ensures m.gaps == [] && (m.recvEnd == 0 ==> end == 0)
  {
    hide Tiles, Valid, Received, Has, Lacks;
    if m.gaps != [] {
      EdgeBytes(m, 0);
      var i := TilesPosition(bs, 0, m.length, m.gaps[0].start);
      var j := TilesPosition(bs, 0, m.length, m.gaps[0].end);
      assert bs[i] in bs && bs[j] in bs;
      NotLacking(m, bs[j], m.gaps[0].end);
      HasByte(m, if bs[i].offset < end then bs[i] else bs[j], m.gaps[0].start);
    }
    if m.recvEnd == 0 && end > 0 {
      var i := TilesPosition(bs, 0, m.length, 0);
      assert bs[i] in bs;
      HasByte(m, bs[i], 0);
      ReceivedBelow(m, 0);
    }
  }

  lemma NotLacking(m: MsgIn, b: Block, x: int)
    requires b.offset <= x < End(b) && x in Received(m)
    ensures !Lacks(m, b)
  {
  }

  lemma HasByte(m: MsgIn, b: Block, x: int)
    requires b.offset <= x < End(b) && Has(m, b)
    ensures x in Received(m)
  {
  }
}
