/**
 Reassembly of one incoming message (homa_add_packet): the gap list stands for the set
 of bytes received so far.
 */
module Reassembly {

  /** Bytes start..end have not been received although a later byte has. */
  datatype Gap = Gap(start: nat, end: nat)

  /** The receiving state of a message: struct homa_message_in without its packets. */
  datatype MsgIn = MsgIn(length: nat, recvEnd: nat, gaps: seq<Gap>, bytesRemaining: int)

  function Fresh(length: nat): MsgIn {
    MsgIn(length, 0, [], length)
  }

  ghost function Range(a: int, b: int): (s: set<int>)
    ensures forall x :: x in s <==> a <= x < b
    ensures |s| == if a <= b then b - a else 0
    decreases b - a
  {
    if a >= b then {} else Range(a, b - 1) + {b - 1}
  }

  ghost predicate Missing(gaps: seq<Gap>, x: int)
    decreases |gaps|
  {
    gaps != [] && (gaps[0].start <= x < gaps[0].end || Missing(gaps[1..], x))
  }

  /** The bytes received: everything below recvEnd that is in no gap. */
  ghost function Received(m: MsgIn): set<int> {
    set x | x in Range(0, m.recvEnd) && !Missing(m.gaps, x)
  }

  /** Gaps are non-empty, in order, with at least one received byte after each, all in lo..hi. */
  ghost predicate GapsOk(gaps: seq<Gap>, lo: nat, hi: nat)
    decreases |gaps|
  {
    gaps == [] ||
    (lo <= gaps[0].start < gaps[0].end < hi && GapsOk(gaps[1..], gaps[0].end + 1, hi))
  }

  ghost predicate Valid(m: MsgIn) {
    && m.recvEnd <= m.length
    && GapsOk(m.gaps, 0, m.recvEnd)
    && m.bytesRemaining == m.length - |Received(m)|
  }

  /** The outcome of looking for a gap that a packet fills. */
  datatype Filled = Kept(gaps: seq<Gap>) | Discarded

  /** What homa_add_packet finds when it compares a packet with one gap. */
  datatype Verdict = Pass | Reject | Into(pieces: seq<Gap>)

  /** The packet has bytes start..end; `memory` says whether a gap object can be allocated
      if the gap has to be split. */
  function Judge(g: Gap, start: nat, end: nat, memory: bool): Verdict {
    if start <= g.start then
      if end <= g.start then Pass
      else if start < g.start || end > g.end then Reject
      else Into(if end >= g.end then [] else [Gap(end, g.end)])
    else if end >= g.end then
      if start >= g.end then Pass
      else if end > g.end then Reject
      else Into([Gap(g.start, start)])
    else if memory then Into([Gap(g.start, start), Gap(end, g.end)])
    else Reject
  }

  /** The gap loop of homa_add_packet. */
  function Fill(gaps: seq<Gap>, start: nat, end: nat, memory: bool): Filled
    decreases |gaps|
  {
    if gaps == [] then Discarded
    else
      match Judge(gaps[0], start, end, memory)
      case Pass => Skip(gaps[0], Fill(gaps[1..], start, end, memory))
      case Reject => Discarded
      case Into(pieces) => Kept(pieces + gaps[1..])
  }

  function Skip(g: Gap, f: Filled): Filled {
    if f.Kept? then Kept([g] + f.gaps) else f
  }

  /** homa_add_packet: the new state, and whether the packet is kept. */
  function Add(m: MsgIn, start: nat, len: nat, memory: bool): (MsgIn, bool) {
    if start + len > m.length then (m, false)
    else if start == m.recvEnd then
      (m.(recvEnd := start + len, bytesRemaining := m.bytesRemaining - len), true)
    else if start > m.recvEnd then
      if !memory then (m, false)
      else (m.(recvEnd := start + len, gaps := m.gaps + [Gap(m.recvEnd, start)],
               bytesRemaining := m.bytesRemaining - len), true)
    else
      match Fill(m.gaps, start, start + len, memory)
      case Kept(gaps) => (m.(gaps := gaps, bytesRemaining := m.bytesRemaining - len), true)
      case Discarded => (m, false)
  }

  // ---- Gap lists and byte sets ----

  lemma MissingCons(g: Gap, rest: seq<Gap>, x: int)
    ensures Missing([g] + rest, x) <==> (g.start <= x < g.end || Missing(rest, x))
  {
    assert ([g] + rest)[1..] == rest;
  }

  lemma {:induction false} MissingRange(gaps: seq<Gap>, lo: nat, hi: nat, x: int)
    requires GapsOk(gaps, lo, hi) && Missing(gaps, x)
    ensures lo <= x < hi - 1
    decreases |gaps|
  {
    if !(gaps[0].start <= x < gaps[0].end) {
      MissingRange(gaps[1..], gaps[0].end + 1, hi, x);
    }
  }

  lemma GapsCons(g: Gap, rest: seq<Gap>, lo: nat, hi: nat)
    requires lo <= g.start < g.end < hi && GapsOk(rest, g.end + 1, hi)
    ensures GapsOk([g] + rest, lo, hi)
  {
    assert ([g] + rest)[1..] == rest;
  }

  lemma {:induction false} GapsWeaken(gaps: seq<Gap>, lo: nat, lo': nat, hi: nat, hi': nat)
    requires GapsOk(gaps, lo, hi) && lo' <= lo && hi <= hi'
    ensures GapsOk(gaps, lo', hi')
    decreases |gaps|
  {
    if gaps != [] {
      GapsWeaken(gaps[1..], gaps[0].end + 1, gaps[0].end + 1, hi, hi');
    }
  }

  /** All bytes of the packet are missing. */
  ghost predicate AllMissing(gaps: seq<Gap>, start: nat, end: nat) {
    forall x :: start <= x < end ==> Missing(gaps, x)
  }

  /** gaps' is gaps with start..end filled in. */
  ghost predicate Fills(gaps: seq<Gap>, gaps': seq<Gap>, start: nat, end: nat, lo: nat, hi: nat) {
    && AllMissing(gaps, start, end) && GapsOk(gaps', lo, hi)
    && (forall x :: Missing(gaps', x) <==> Missing(gaps, x) && !(start <= x < end))
  }

  lemma RestAbove(g: Gap, rest: seq<Gap>, hi: nat)
    requires GapsOk(rest, g.end + 1, hi)
    ensures forall x :: Missing(rest, x) ==> g.end + 1 <= x
  {
    forall x | Missing(rest, x) ensures g.end + 1 <= x {
      MissingRange(rest, g.end + 1, hi, x);
    }
  }

  /** One piece of a gap remains in front of the rest. */
  lemma OnePiece(p: Gap, g: Gap, rest: seq<Gap>, lo: nat, hi: nat)
    requires lo <= p.start < p.end <= g.end < hi && GapsOk(rest, g.end + 1, hi)
    ensures GapsOk([p] + rest, lo, hi)
    ensures forall x :: Missing([p] + rest, x) <==> p.start <= x < p.end || Missing(rest, x)
  {
    GapsWeaken(rest, g.end + 1, p.end + 1, hi, hi);
    GapsCons(p, rest, lo, hi);
    forall x { MissingCons(p, rest, x); }
  }

  /** What is left of a gap after a packet inside it, followed by the later gaps. */
  lemma PiecesOk(g: Gap, rest: seq<Gap>, start: nat, end: nat, lo: nat, hi: nat)
    requires lo <= g.start <= start < end <= g.end < hi && GapsOk(rest, g.end + 1, hi)
    ensures var v := Judge(g, start, end, true);
      && v.Into? && GapsOk(v.pieces + rest, lo, hi)
      && forall x :: Missing(v.pieces + rest, x) <==>
           (g.start <= x < g.end || Missing(rest, x)) && !(start <= x < end)
  {
    RestAbove(g, rest, hi);
    if start == g.start && end == g.end {
      assert [] + rest == rest;
      GapsWeaken(rest, g.end + 1, lo, hi, hi);
    } else if start == g.start {
      OnePiece(Gap(end, g.end), g, rest, lo, hi);
    } else if end == g.end {
      OnePiece(Gap(g.start, start), g, rest, lo, hi);
    } else {
      var tail := [Gap(end, g.end)] + rest;
      OnePiece(Gap(end, g.end), g, rest, start + 1, hi);
      GapsCons(Gap(g.start, start), tail, lo, hi);
      assert [Gap(g.start, start), Gap(end, g.end)] + rest == [Gap(g.start, start)] + tail;
      forall x ensures Missing([Gap(g.start, start)] + tail, x) <==> g.start <= x < start || Missing(tail, x) {
        MissingCons(Gap(g.start, start), tail, x);
      }
    }
  }

  /** The packet lies inside the first gap. */
  lemma FillHead(gaps: seq<Gap>, start: nat, end: nat, memory: bool, lo: nat, hi: nat)
    requires GapsOk(gaps, lo, hi) && gaps != [] && gaps[0].start <= start < end <= gaps[0].end
    ensures var f := Fill(gaps, start, end, memory);
      (f.Kept? ==> Fills(gaps, f.gaps, start, end, lo, hi)) && (memory ==> f.Kept?)
  {
    hide Judge, Missing;
    PiecesOk(gaps[0], gaps[1..], start, end, lo, hi);
    JudgeMemory(gaps[0], start, end, memory);
    MissingHead(gaps);
  }

  lemma MissingHead(gaps: seq<Gap>)
    requires gaps != []
    ensures forall x :: Missing(gaps, x) <==> gaps[0].start <= x < gaps[0].end || Missing(gaps[1..], x)
  {
  }

  /** Lack of memory can only turn a kept packet into a rejected one. */
  lemma JudgeMemory(g: Gap, start: nat, end: nat, memory: bool)
    ensures || Judge(g, start, end, memory) == Judge(g, start, end, true)
            || (!memory && Judge(g, start, end, memory) == Reject)
  {
  }

  /** A packet that reaches beyond the end of the first gap, or starts before it, is not all missing. */
  lemma OutsideHead(gaps: seq<Gap>, start: nat, end: nat, lo: nat, hi: nat)
    requires GapsOk(gaps, lo, hi) && gaps != [] && start < end
    requires start < gaps[0].end && !(gaps[0].start <= start < end <= gaps[0].end)
    ensures !AllMissing(gaps, start, end)
  {
    var g, rest := gaps[0], gaps[1..];
    var x := if start < g.start then start else g.end;
    if Missing(gaps, x) {
      MissingRange(rest, g.end + 1, hi, x);
    }
  }

  /** A packet is kept exactly if it lies in gaps altogether, and then just its bytes are filled in. */
  lemma {:induction false} FillOk(gaps: seq<Gap>, start: nat, end: nat, memory: bool, lo: nat, hi: nat)
    requires GapsOk(gaps, lo, hi) && start < end
    ensures var f := Fill(gaps, start, end, memory); f.Kept? ==> Fills(gaps, f.gaps, start, end, lo, hi)
    ensures memory && AllMissing(gaps, start, end) ==> Fill(gaps, start, end, memory).Kept?
    decreases |gaps|
  {
    if gaps == [] {
      assert !Missing(gaps, start);
    } else {
      var g, rest := gaps[0], gaps[1..];
      if end <= g.start || g.end <= start {
        FillOk(rest, start, end, memory, g.end + 1, hi);
        FillPast(gaps, start, end, memory, lo, hi);
      } else if g.start <= start && end <= g.end {
        FillHead(gaps, start, end, memory, lo, hi);
      } else {
        OutsideHead(gaps, start, end, lo, hi);
      }
    }
  }

  lemma FillPast(gaps: seq<Gap>, start: nat, end: nat, memory: bool, lo: nat, hi: nat)
    requires GapsOk(gaps, lo, hi) && gaps != [] && start < end
    requires end <= gaps[0].start || gaps[0].end <= start
    requires var f := Fill(gaps[1..], start, end, memory);
      f.Kept? ==> Fills(gaps[1..], f.gaps, start, end, gaps[0].end + 1, hi)
    ensures var f := Fill(gaps, start, end, memory); f.Kept? ==> Fills(gaps, f.gaps, start, end, lo, hi)
    ensures AllMissing(gaps, start, end) ==> AllMissing(gaps[1..], start, end)
    ensures Fill(gaps, start, end, memory).Kept? <==> Fill(gaps[1..], start, end, memory).Kept?
  {
    hide Missing;
    var g, rest := gaps[0], gaps[1..];
    var f := Fill(rest, start, end, memory);
    MissingHead(gaps);
    if f.Kept? {
      GapsCons(g, f.gaps, lo, hi);
      forall x ensures Missing([g] + f.gaps, x) <==> (g.start <= x < g.end || Missing(f.gaps, x)) {
        MissingCons(g, f.gaps, x);
      }
    }
  }

  // ---- The theorem about one packet ----

  lemma {:induction false} AppendGap(gaps: seq<Gap>, lo: nat, hi: nat, start: nat, hi': nat)
    requires GapsOk(gaps, lo, hi) && lo <= hi < start < hi'
    ensures GapsOk(gaps + [Gap(hi, start)], lo, hi')
    ensures forall x :: Missing(gaps + [Gap(hi, start)], x) <==> Missing(gaps, x) || hi <= x < start
    decreases |gaps|
  {
    var l := gaps + [Gap(hi, start)];
    if gaps == [] {
      assert l[1..] == [];
    } else {
      assert l[1..] == gaps[1..] + [Gap(hi, start)];
      AppendGap(gaps[1..], gaps[0].end + 1, hi, start, hi');
    }
  }

  /** m' is m with the bytes start..end received in addition. */
  ghost predicate Gained(m: MsgIn, m': MsgIn, start: nat, end: nat) {
    && Valid(m') && m'.length == m.length
    && Received(m) !! Range(start, end) && Received(m') == Received(m) + Range(start, end)
    && m'.recvEnd == (if end > m.recvEnd then end else m.recvEnd)
  }

  lemma GainedCount(m: MsgIn, m': MsgIn, start: nat, end: nat)
    requires Valid(m) && m'.recvEnd <= m'.length == m.length && GapsOk(m'.gaps, 0, m'.recvEnd) && start <= end
    requires Received(m) !! Range(start, end) && Received(m') == Received(m) + Range(start, end)
    requires m'.bytesRemaining == m.bytesRemaining - (end - start)
    ensures Valid(m')
  {
    hide GapsOk, Received, Range;
  }

  lemma ReceivedExtended(m: MsgIn, m': MsgIn)
    requires Valid(m) && m'.gaps == m.gaps && m.recvEnd <= m'.recvEnd
    ensures Received(m') == Received(m) + Range(m.recvEnd, m'.recvEnd)
    ensures Received(m) !! Range(m.recvEnd, m'.recvEnd)
  {
    hide GapsOk, Range, Missing;
    GapsBelow(m);
  }

  lemma AddAtEnd(m: MsgIn, start: nat, len: nat, memory: bool)
    requires Valid(m) && len > 0 && start + len <= m.length && start == m.recvEnd
    ensures Gained(m, Add(m, start, len, memory).0, start, start + len)
  {
    hide GapsOk, Fill, Range, Missing, Received;
    var m' := Add(m, start, len, memory).0;
    GapsWeaken(m.gaps, 0, 0, m.recvEnd, m'.recvEnd);
    ReceivedExtended(m, m');
    GainedCount(m, m', start, start + len);
  }

  lemma AddBeyondEnd(m: MsgIn, start: nat, len: nat)
    requires Valid(m) && len > 0 && start + len <= m.length && start > m.recvEnd
    ensures Gained(m, Add(m, start, len, true).0, start, start + len)
  {
    hide GapsOk, Fill, Range, Missing;
    var m' := Add(m, start, len, true).0;
    GapsBelow(m);
    AppendGap(m.gaps, 0, m.recvEnd, start, start + len);
    assert Received(m') == Received(m) + Range(start, start + len);
    GainedCount(m, m', start, start + len);
  }

  lemma AddInGap(m: MsgIn, start: nat, len: nat, memory: bool)
    requires Valid(m) && len > 0 && start + len <= m.length && start < m.recvEnd
    ensures var (m', kept) := Add(m, start, len, memory);
      && (kept ==> Gained(m, m', start, start + len))
      && (memory && Received(m) !! Range(start, start + len) ==> kept)
  {
    hide GapsOk, Fill, Range, Missing;
    var (m', kept) := Add(m, start, len, memory);
    var end := start + len;
    FillOk(m.gaps, start, end, memory, 0, m.recvEnd);
    GapsBelow(m);
    if kept {
      assert Missing(m.gaps, end - 1);
      assert Received(m') == Received(m) + Range(start, end);
      GainedCount(m, m', start, end);
    }
    if Received(m) !! Range(start, end) {
      LastReceived(m);
      forall x | start <= x < end ensures Missing(m.gaps, x) {
        assert x in Range(start, end) && (x >= m.recvEnd ==> m.recvEnd - 1 in Range(start, end));
      }
    }
  }

  /** A packet is kept exactly if it lies within the message and brings no byte already received
      (gap allocation permitting), and then exactly its bytes become received. */
  lemma AddOk(m: MsgIn, start: nat, len: nat, memory: bool)
    requires Valid(m) && len > 0
    ensures var (m', kept) := Add(m, start, len, memory);
      && (kept ==> start + len <= m.length && Gained(m, m', start, start + len))
      && (memory && start + len <= m.length && Received(m) !! Range(start, start + len) ==> kept)
      && (!kept ==> m' == m)
  {
    hide Valid, Received, Gained, Fill;
    if start + len <= m.length {
      if start < m.recvEnd {
        AddInGap(m, start, len, memory);
      } else if start == m.recvEnd {
        AddAtEnd(m, start, len, memory);
      } else if memory {
        AddBeyondEnd(m, start, len);
      }
    }
  }

  /** All bytes have been received exactly if there are no gaps and recvEnd has reached the end. */
  lemma AllReceived(m: MsgIn)
    requires Valid(m)
    ensures Received(m) <= Range(0, m.length)
    ensures Received(m) == Range(0, m.length) <==> m.gaps == [] && m.recvEnd == m.length
  {
    var all := Range(0, m.length);
    if m.gaps != [] {
      var x := m.gaps[0].start;
      assert Missing(m.gaps, x) && x in all && x !in Received(m);
    } else if m.recvEnd < m.length {
      assert m.recvEnd in all && m.recvEnd !in Received(m);
    } else {
      assert Received(m) == all;
    }
  }

  /** When nothing remains there are no gaps and the message has been received to its end; and conversely. */
  lemma Complete(m: MsgIn)
    requires Valid(m)
    ensures m.bytesRemaining == 0 <==> m.gaps == [] && m.recvEnd == m.length
    ensures m.bytesRemaining == 0 <==> Received(m) == Range(0, m.length)
    ensures 0 <= m.bytesRemaining <= m.length
  {
    hide GapsOk, Received;
    AllReceived(m);
    Sizes(Received(m), Range(0, m.length));
  }

  lemma {:induction false} Sizes(a: set<int>, b: set<int>)
    requires a <= b
    ensures |a| <= |b| && (|a| == |b| <==> a == b)
  {
    assert b == a + (b - a);
    if b - a == {} {
      assert a == b;
    }
  }

  lemma GapsBelow(m: MsgIn)
    requires Valid(m)
    ensures forall x :: Missing(m.gaps, x) ==> 0 <= x < m.recvEnd - 1
  {
    forall x | Missing(m.gaps, x) ensures 0 <= x < m.recvEnd - 1 {
      MissingRange(m.gaps, 0, m.recvEnd, x);
    }
  }

  /** The byte just below recvEnd has been received. */
  lemma LastReceived(m: MsgIn)
    requires Valid(m) && m.recvEnd > 0
    ensures m.recvEnd - 1 in Received(m)
  {
    GapsBelow(m);
  }

  // ---- In place ----

  type Byte = b: int | 0 <= b < 256

  /** A DATA packet as received. */
  datatype Packet = Packet(offset: nat, data: seq<Byte>)

  function Prefixed(gaps: seq<Gap>, f: Filled): Filled {
    if f.Kept? then Kept(gaps + f.gaps) else f
  }

  class MessageIn {
    const length: nat
    var recvEnd: nat
    var gaps: seq<Gap>
    var bytesRemaining: int
    var packets: seq<Packet>

    ghost function Abs(): MsgIn
      reads this
    {
      MsgIn(length, recvEnd, gaps, bytesRemaining)
    }

    /** homa_message_in_init: nothing has been received. */
    constructor (length: nat)
      ensures this.length == length && Abs() == Fresh(length) && packets == [] && Valid(Abs())
    {
      this.length := length;
      recvEnd, gaps, bytesRemaining, packets := 0, [], length, [];
      new;
      assert Received(Abs()) == {};
    }

    /** homa_add_packet: keep the packet if it brings only new bytes of the message. */
    method AddPacket(p: Packet, memory: bool) returns (kept: bool)
      requires Valid(Abs()) && p.data != []
      modifies this
      ensures Valid(Abs()) && (Abs(), kept) == Add(old(Abs()), p.offset, |p.data|, memory)
      ensures packets == old(packets) + (if kept then [p] else [])
    {
      hide Valid, Received, Fill, Gained;
      var start, end := p.offset, p.offset + |p.data|;
      AddKeepsValid(Abs(), start, |p.data|, memory);
      kept := false;
      if end > length {
      } else if start == recvEnd {
        recvEnd, kept := end, true;
      } else if start > recvEnd {
        if memory {
          gaps := gaps + [Gap(recvEnd, start)];
          recvEnd, kept := end, true;
        }
      } else {
        kept := FillGap(start, end, memory);
      }
      if kept {
        packets := packets + [p];
        bytesRemaining := bytesRemaining - |p.data|;
      }
    }

    /** The loop of homa_add_packet over existing gaps. */
    method FillGap(start: nat, end: nat, memory: bool) returns (kept: bool)
      modifies `gaps
      ensures kept == Fill(old(gaps), start, end, memory).Kept?
      ensures gaps == if kept then Fill(old(gaps), start, end, memory).gaps else old(gaps)
    {
      hide Judge;
      var i := 0;
      while i < |gaps|
        invariant 0 <= i <= |gaps| && gaps == old(gaps)
        invariant Fill(gaps, start, end, memory) == Prefixed(gaps[..i], Fill(gaps[i..], start, end, memory))
      {
        assert gaps[i..][1..] == gaps[i + 1..] && gaps[..i + 1] == gaps[..i] + [gaps[i]];
        match Judge(gaps[i], start, end, memory)
        case Pass =>
          SkipPrefixed(gaps[..i], gaps[i], Fill(gaps[i + 1..], start, end, memory));
          i := i + 1;
        case Reject =>
          return false;
        case Into(pieces) =>
          assert gaps[..i] + pieces + gaps[i + 1..] == gaps[..i] + (pieces + gaps[i + 1..]);
          gaps := gaps[..i] + pieces + gaps[i + 1..];
          return true;
      }
      kept := false;
    }
  }

  lemma SkipPrefixed(pre: seq<Gap>, g: Gap, f: Filled)
    ensures Prefixed(pre, Skip(g, f)) == Prefixed(pre + [g], f)
  {
    if f.Kept? {
      assert pre + ([g] + f.gaps) == pre + [g] + f.gaps;
    }
  }

  lemma AddKeepsValid(m: MsgIn, start: nat, len: nat, memory: bool)
    requires Valid(m) && len > 0
    ensures Valid(Add(m, start, len, memory).0)
  {
    hide Valid, Received, Fill;
    AddOk(m, start, len, memory);
  }
}
