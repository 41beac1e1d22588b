/**
 How a sender cuts a message: homa_message_out_fill makes GSO packets, the NIC cuts each
 into segments, and homa_resend_data cuts the same way when it retransmits.
 */
module PacketGeometry {

  /** max_seg_data and max_gso_data of homa_message_out_fill, with the message's limits. */
  datatype Geometry = Geometry(length: nat, unscheduled: nat, maxSeg: nat, maxGso: nat)

  ghost predicate ValidGeometry(g: Geometry) {
    0 < g.length && g.unscheduled <= g.length && 0 < g.maxSeg <= g.maxGso
  }

  /** A piece of a message. */
  datatype Block = Block(offset: nat, len: nat)

  function End(b: Block): nat {
    b.offset + b.len
  }

  function Min(a: nat, b: nat): nat {
    if a < b then a else b
  }

  /** Data bytes of the GSO packet that starts at offset: a boundary is put at the unscheduled limit. */
  function PacketLen(g: Geometry, offset: nat): (n: nat)
    requires offset <= g.length
  {
    var n := if offset < g.unscheduled && offset + g.maxGso > g.unscheduled
             then g.unscheduled - offset else g.maxGso;
    Min(n, g.length - offset)
  }

  function PacketsFrom(g: Geometry, offset: nat): seq<Block>
    requires ValidGeometry(g) && offset <= g.length
    decreases g.length - offset
  {
    if offset == g.length then []
    else [Block(offset, PacketLen(g, offset))] + PacketsFrom(g, offset + PacketLen(g, offset))
  }

  /** The segments of one packet: maxSeg bytes each, the last one possibly shorter. */
  function Segments(b: Block, maxSeg: nat): seq<Block>
    requires maxSeg > 0
    decreases b.len
  {
    if b.len == 0 then []
    else
      var n := Min(maxSeg, b.len);
      [Block(b.offset, n)] + Segments(Block(b.offset + n, b.len - n), maxSeg)
  }

  function AllSegments(packets: seq<Block>, maxSeg: nat): seq<Block>
    requires maxSeg > 0
  {
    if packets == [] then [] else Segments(packets[0], maxSeg) + AllSegments(packets[1..], maxSeg)
  }

  /** Every DATA payload ever sent for the message is one of these. */
  function Blocks(g: Geometry): seq<Block>
    requires ValidGeometry(g)
  {
    AllSegments(PacketsFrom(g, 0), g.maxSeg)
  }

  /** The blocks follow one another without gap or overlap from lo to hi, and none is empty. */
  ghost predicate Tiles(bs: seq<Block>, lo: nat, hi: nat)
    decreases |bs|
  {
    if bs == [] then lo == hi
    else bs[0].offset == lo && bs[0].len > 0 && Tiles(bs[1..], End(bs[0]), hi)
  }

  // ---- The cut is a partition ----

  lemma {:induction false} TilesBounds(bs: seq<Block>, lo: nat, hi: nat)
    requires Tiles(bs, lo, hi)
    ensures lo <= hi && forall b :: b in bs ==> lo <= b.offset < End(b) <= hi
    decreases |bs|
  {
    if bs != [] {
      TilesBounds(bs[1..], End(bs[0]), hi);
      assert bs == [bs[0]] + bs[1..];
    }
  }

  lemma {:induction false} TilesAppend(front: seq<Block>, bs: seq<Block>, lo: nat, mid: nat, hi: nat)
    requires Tiles(front, lo, mid) && Tiles(bs, mid, hi)
    ensures Tiles(front + bs, lo, hi)
    decreases |front|
  {
    if front == [] {
      assert front + bs == bs;
    } else {
      assert (front + bs)[1..] == front[1..] + bs;
      TilesAppend(front[1..], bs, End(front[0]), mid, hi);
    }
  }

  lemma {:induction false} PacketsTile(g: Geometry, offset: nat)
    requires ValidGeometry(g) && offset <= g.length
    ensures Tiles(PacketsFrom(g, offset), offset, g.length)
    ensures forall b :: b in PacketsFrom(g, offset) ==> b.len <= g.maxGso
    ensures forall b :: b in PacketsFrom(g, offset) ==>
              b.len == g.maxGso || End(b) == g.length || End(b) == g.unscheduled
    ensures offset <= g.unscheduled ==>
      forall b :: b in PacketsFrom(g, offset) ==> End(b) <= g.unscheduled || g.unscheduled <= b.offset
    decreases g.length - offset
  {
    if offset < g.length {
      var n := PacketLen(g, offset);
      PacketsTile(g, offset + n);
      var rest := PacketsFrom(g, offset + n);
      assert ([Block(offset, n)] + rest)[1..] == rest;
      TilesBounds(rest, offset + n, g.length);
    }
  }

  lemma {:induction false} SegmentsTile(b: Block, maxSeg: nat)
    requires maxSeg > 0
    ensures Tiles(Segments(b, maxSeg), b.offset, End(b))
    ensures forall s :: s in Segments(b, maxSeg) ==> s.len <= maxSeg
    decreases b.len
  {
    if b.len > 0 {
      var n := Min(maxSeg, b.len);
      var b' := Block(b.offset + n, b.len - n);
      SegmentsTile(b', maxSeg);
      assert ([Block(b.offset, n)] + Segments(b', maxSeg))[1..] == Segments(b', maxSeg);
    }
  }

  lemma {:induction false} AllSegmentsTile(packets: seq<Block>, maxSeg: nat, lo: nat, hi: nat)
    requires maxSeg > 0 && Tiles(packets, lo, hi)
    ensures Tiles(AllSegments(packets, maxSeg), lo, hi)
    ensures forall s :: s in AllSegments(packets, maxSeg) ==> s.len <= maxSeg
    decreases |packets|
  {
    if packets != [] {
      SegmentsTile(packets[0], maxSeg);
      AllSegmentsTile(packets[1..], maxSeg, End(packets[0]), hi);
      TilesAppend(Segments(packets[0], maxSeg), AllSegments(packets[1..], maxSeg), lo, End(packets[0]), hi);
    }
  }

  lemma {:induction false} SegmentFull(b: Block, maxSeg: nat, s: Block)
    requires maxSeg > 0 && s in Segments(b, maxSeg)
    ensures s.len == maxSeg || End(s) == End(b)
    decreases b.len
  {
    var n := Min(maxSeg, b.len);
    if s != Block(b.offset, n) {
      SegmentFull(Block(b.offset + n, b.len - n), maxSeg, s);
    }
  }

  /** Only the last segment of a packet is shorter than it may be. */
  lemma {:induction false} SegmentsFull(packets: seq<Block>, maxSeg: nat, s: Block)
    requires maxSeg > 0 && s in AllSegments(packets, maxSeg)
    ensures s.len == maxSeg || exists p :: p in packets && End(s) == End(p)
    decreases |packets|
  {
    if s in Segments(packets[0], maxSeg) {
      SegmentFull(packets[0], maxSeg, s);
      assert packets[0] in packets;
    } else {
      SegmentsFull(packets[1..], maxSeg, s);
    }
  }

  /** The blocks of a message partition it: in order, without gap or overlap, none empty or too long. */
  lemma BlocksTile(g: Geometry)
    requires ValidGeometry(g)
    ensures Tiles(Blocks(g), 0, g.length)
    ensures forall b :: b in Blocks(g) ==> 0 < b.len <= g.maxSeg
  {
    PacketsTile(g, 0);
    AllSegmentsTile(PacketsFrom(g, 0), g.maxSeg, 0, g.length);
    TilesBounds(Blocks(g), 0, g.length);
  }

  lemma {:induction false} TilesPosition(bs: seq<Block>, lo: nat, hi: nat, x: nat) returns (i: nat)
    requires Tiles(bs, lo, hi) && lo <= x < hi
    ensures i < |bs| && bs[i].offset <= x < End(bs[i])
    decreases |bs|
  {
    if x < End(bs[0]) {
      i := 0;
    } else {
      var j := TilesPosition(bs[1..], End(bs[0]), hi, x);
      i := j + 1;
    }
  }

  /** Two blocks of a tiling that share a byte are the same block. */
  lemma {:induction false} TilesDisjoint(bs: seq<Block>, lo: nat, hi: nat, b: Block, b': Block, x: nat)
    requires Tiles(bs, lo, hi) && b in bs && b' in bs
    requires b.offset <= x < End(b) && b'.offset <= x < End(b')
    ensures b == b'
    decreases |bs|
  {
    TilesBounds(bs[1..], End(bs[0]), hi);
    if b != bs[0] && b' != bs[0] {
      TilesDisjoint(bs[1..], End(bs[0]), hi, b, b', x);
    }
  }

  // ---- The loops of homa_outgoing.c ----

  /** homa_message_out_fill: the packet list of the message. */
  method MessageOutFill(g: Geometry) returns (packets: seq<Block>)
    requires ValidGeometry(g)
    ensures packets == PacketsFrom(g, 0)
  {
    hide PacketLen;
    packets := [];
    var bytesLeft: nat := g.length;
    while bytesLeft > 0
      invariant bytesLeft <= g.length
      invariant packets + PacketsFrom(g, g.length - bytesLeft) == PacketsFrom(g, 0)
    {
      var offset := g.length - bytesLeft;
      var dataBytes := NextPacket(g, offset);
      ghost var rest := PacketsFrom(g, offset + dataBytes);
      assert packets + ([Block(offset, dataBytes)] + rest) == packets + [Block(offset, dataBytes)] + rest;
      packets := packets + [Block(offset, dataBytes)];
      bytesLeft := bytesLeft - dataBytes;
    }
  }

  /** The size computation in the loop of homa_message_out_fill. */
  method NextPacket(g: Geometry, offset: nat) returns (dataBytes: nat)
    requires ValidGeometry(g) && offset < g.length
    ensures dataBytes == PacketLen(g, offset) && 0 < dataBytes <= g.length - offset
  {
    dataBytes := g.maxGso;
    if offset < g.unscheduled && offset + dataBytes > g.unscheduled {
      dataBytes := g.unscheduled - offset;
    }
    if dataBytes > g.length - offset {
      dataBytes := g.length - offset;
    }
  }

  /** The block holds at least one of the bytes start..end. */
  predicate Touches(b: Block, start: nat, end: nat) {
    b.offset < end && start < End(b)
  }

  function Touching(bs: seq<Block>, start: nat, end: nat): seq<Block> {
    if bs == [] then []
    else (if Touches(bs[0], start, end) then [bs[0]] else []) + Touching(bs[1..], start, end)
  }

  lemma {:induction false} TouchingAppend(front: seq<Block>, bs: seq<Block>, start: nat, end: nat)
    ensures Touching(front + bs, start, end) == Touching(front, start, end) + Touching(bs, start, end)
    decreases |front|
  {
    hide Touches;
    if front == [] {
      assert front + bs == bs;
    } else {
      assert (front + bs)[1..] == front[1..] + bs;
      TouchingAppend(front[1..], bs, start, end);
      var h := if Touches(front[0], start, end) then [front[0]] else [];
      assert h + (Touching(front[1..], start, end) + Touching(bs, start, end))
          == h + Touching(front[1..], start, end) + Touching(bs, start, end);
    }
  }

  lemma {:induction false} TouchingMember(bs: seq<Block>, start: nat, end: nat)
    ensures forall b :: b in Touching(bs, start, end) <==> b in bs && Touches(b, start, end)
    decreases |bs|
  {
    if bs != [] {
      TouchingMember(bs[1..], start, end);
      assert bs == [bs[0]] + bs[1..];
    }
  }

  /** Nothing at or beyond the end of the requested range is touched. */
  lemma {:induction false} TouchingNone(bs: seq<Block>, lo: nat, hi: nat, start: nat, end: nat)
    requires Tiles(bs, lo, hi) && (end <= lo || hi <= start)
    ensures Touching(bs, start, end) == []
    decreases |bs|
  {
    if bs != [] {
      TilesBounds(bs, lo, hi);
      assert bs[0] in bs;
      TouchingNone(bs[1..], End(bs[0]), hi, start, end);
    }
  }

  /** The segments of packet b that hold any of the bytes start..end. */
  function Due(b: Block, maxSeg: nat, start: nat, end: nat): (r: seq<Block>)
    requires maxSeg > 0
  {
    Touching(Segments(b, maxSeg), start, end)
  }

  /** The inner loop of homa_resend_data: the segments of one packet that must be resent. */
  method ResendPacket(b: Block, maxSeg: nat, start: nat, end: nat) returns (sent: seq<Block>)
    requires maxSeg > 0
    ensures sent == Due(b, maxSeg, start, end)
  {
    hide Due;
    sent := [];
    ghost var goal := Due(b, maxSeg, start, end);
    ghost var rest := goal;
    assert sent + rest == goal;
    var offset, dataLeft: nat, segLength: nat := b.offset, b.len, if b.len <= maxSeg then b.len else maxSeg;
    while dataLeft > 0
      invariant offset + dataLeft == End(b)
      invariant dataLeft > 0 ==> segLength > 0 && Min(segLength, dataLeft) == Min(maxSeg, dataLeft)
      invariant sent + rest == goal && rest == Due(Block(offset, dataLeft), maxSeg, start, end)
      decreases dataLeft
    {
      if segLength > dataLeft {
        segLength := dataLeft;
      }
      SegmentsFirst(offset, dataLeft, segLength, maxSeg, start, end);
      if end <= offset {
        Assoc(sent, [], []);
        return;
      }
      rest := Due(Block(offset + segLength, dataLeft - segLength), maxSeg, start, end);
      if offset + segLength > start {
        Assoc(sent, [Block(offset, segLength)], rest);
        sent := sent + [Block(offset, segLength)];
      }
      offset, dataLeft := offset + segLength, dataLeft - segLength;
    }
    SegmentsNone(offset, maxSeg, start, end);
    Assoc(sent, [], []);
  }

  lemma Assoc(a: seq<Block>, b: seq<Block>, c: seq<Block>)
    ensures a + b + c == a + (b + c)
    ensures a + [] == a
  {
  }

  lemma SegmentsNone(offset: nat, maxSeg: nat, start: nat, end: nat)
    requires maxSeg > 0
    ensures Due(Block(offset, 0), maxSeg, start, end) == []
  {
  }

  lemma TouchesMeans(b: Block, start: nat, end: nat)
    ensures Touches(b, start, end) <==> b.offset < end && start < End(b)
  {
  }

  /** The first segment of what is left of a packet, and the rest. */
  lemma SegmentsFirst(offset: nat, left: nat, n: nat, maxSeg: nat, start: nat, end: nat)
    requires maxSeg > 0 && left > 0 && n == Min(maxSeg, left)
    ensures end <= offset ==> Due(Block(offset, left), maxSeg, start, end) == []
    ensures offset < end && start < offset + n ==>
              Due(Block(offset, left), maxSeg, start, end)
              == [Block(offset, n)] + Due(Block(offset + n, left - n), maxSeg, start, end)
    ensures offset < end && offset + n <= start ==>
              Due(Block(offset, left), maxSeg, start, end)
              == Due(Block(offset + n, left - n), maxSeg, start, end)
  {
    hide Touches, Tiles;
    TouchesMeans(Block(offset, n), start, end);
    var rest := Segments(Block(offset + n, left - n), maxSeg);
    assert Segments(Block(offset, left), maxSeg) == [Block(offset, n)] + rest;
    assert ([Block(offset, n)] + rest)[1..] == rest;
    if end <= offset {
      SegmentsTile(Block(offset, left), maxSeg);
      TouchingNone(Segments(Block(offset, left), maxSeg), offset, offset + left, start, end);
    }
  }

  /** homa_resend_data: retransmit the segments that hold any of the bytes start..end. */
  method ResendData(packets: seq<Block>, maxSeg: nat, start: nat, end: nat, ghost hi: nat) returns (sent: seq<Block>)
    requires maxSeg > 0 && Tiles(packets, 0, hi)
    ensures sent == if end <= start then [] else Touching(AllSegments(packets, maxSeg), start, end)
  {
    hide Touches, Touching, AllSegments, Segments;
    sent := [];
    if end <= start {
      return;
    }
    var i := 0;
    ghost var lo := 0;
    assert packets[0..] == packets;
    while i < |packets|
      invariant 0 <= i <= |packets| && Tiles(packets[i..], lo, hi)
      invariant sent + Touching(AllSegments(packets[i..], maxSeg), start, end)
             == Touching(AllSegments(packets, maxSeg), start, end)
    {
      var b := packets[i];
      assert packets[i..][1..] == packets[i + 1..];
      ResendFirst(packets[i..], maxSeg, lo, hi, start, end);
      if b.offset >= end {
        Assoc(sent, [], []);
        return;
      }
      Assoc(sent, Touching(Segments(b, maxSeg), start, end),
            Touching(AllSegments(packets[i + 1..], maxSeg), start, end));
      if start < End(b) {
        var more := ResendPacket(b, maxSeg, start, end);
        sent := sent + more;
      }
      i, lo := i + 1, End(b);
    }
    ResendNone(maxSeg, start, end);
    Assoc(sent, [], []);
    assert packets[i..] == [];
  }

  lemma ResendNone(maxSeg: nat, start: nat, end: nat)
    requires maxSeg > 0
    ensures Touching(AllSegments([], maxSeg), start, end) == []
  {
  }

  /** What homa_resend_data must send from the remaining packets, by its first one. */
  lemma ResendFirst(packets: seq<Block>, maxSeg: nat, lo: nat, hi: nat, start: nat, end: nat)
    requires maxSeg > 0 && packets != [] && Tiles(packets, lo, hi)
    ensures Touching(AllSegments(packets, maxSeg), start, end)
         == Touching(Segments(packets[0], maxSeg), start, end) + Touching(AllSegments(packets[1..], maxSeg), start, end)
    ensures packets[0].offset >= end ==> Touching(AllSegments(packets, maxSeg), start, end) == []
    ensures start >= End(packets[0]) ==> Touching(Segments(packets[0], maxSeg), start, end) == []
  {
    hide Touches, Touching, Segments;
    TouchingAppend(Segments(packets[0], maxSeg), AllSegments(packets[1..], maxSeg), start, end);
    if packets[0].offset >= end {
      AllSegmentsTile(packets, maxSeg, lo, hi);
      TouchingNone(AllSegments(packets, maxSeg), lo, hi, start, end);
    }
    if start >= End(packets[0]) {
      SegmentsTile(packets[0], maxSeg);
      TouchingNone(Segments(packets[0], maxSeg), packets[0].offset, End(packets[0]), start, end);
    }
  }
}
