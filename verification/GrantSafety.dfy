/**
 One message under grants: a sender that transmits what it may, a receiver that grants and asks
 for lost data, and a network that loses, repeats and reorders what is sent.
 */
module GrantSafety {
  import opened Reassembly
  import opened PacketGeometry
  import opened LossRecovery

  /** The sending state of a message: the first `filled` packets have been copied from user space,
      nextXmit of them have been passed to the IP stack, and all before firstNotTx have left the NIC. */
  datatype Out = Out(granted: nat, nextXmit: nat, nextOffset: nat, firstNotTx: nat, filled: nat)

  function Max(a: int, b: int): int {
    if a < b then b else a
  }

  /** Where packet i starts. */
  function Off(g: Geometry, ps: seq<Block>, i: nat): nat {
    if i < |ps| then ps[i].offset else g.length
  }

  ghost predicate OutOk(g: Geometry, ps: seq<Block>, o: Out) {
    && ValidGeometry(g) && ps == PacketsFrom(g, 0)
    && o.firstNotTx <= o.nextXmit <= o.filled <= |ps|
    && o.nextOffset == Off(g, ps, o.nextXmit)
    && o.granted <= g.length
  }

  /** homa_xmit_data; `budget` is how many packets the pacer lets through. */
  function Xmit(ps: seq<Block>, o: Out, budget: nat): Out
    decreases budget
  {
    if budget == 0 || o.nextXmit >= o.filled || o.nextXmit >= |ps| || o.nextOffset >= o.granted then o
    else Xmit(ps, o.(nextXmit := o.nextXmit + 1, nextOffset := o.nextOffset + ps[o.nextXmit].len), budget - 1)
  }

  /** The first packet, from i on, that has not been passed on or that the driver still holds. */
  function TxScan(ps: seq<Block>, o: Out, busy: set<nat>, i: nat): nat
    decreases o.filled - i
  {
    if i >= o.filled || i >= |ps| then i
    else if ps[i].offset >= o.nextOffset || i in busy then i
    else TxScan(ps, o, busy, i + 1)
  }

  /** homa_rpc_tx_end; busy are the packets that the driver holds. */
  function TxEnd(g: Geometry, ps: seq<Block>, o: Out, busy: set<nat>): nat {
    var i := TxScan(ps, o, busy, o.firstNotTx);
    if i < o.filled && i < |ps| then ps[i].offset else g.length
  }

  function Raise(g: Geometry, o: Out, end: nat): Out {
    if end > o.granted then o.(granted := Min(end, g.length)) else o
  }

  function TakeGrant(g: Geometry, ps: seq<Block>, o: Out, offset: nat, budget: nat): Out {
    Xmit(ps, Raise(g, o, offset), budget)
  }

  /** The end of the bytes that a RESEND asks for. */
  function WantedEnd(r: Resend, txEnd: nat): int {
    if r.length == -1 then txEnd else r.offset + r.length
  }

  function TakeResend(g: Geometry, ps: seq<Block>, o: Out, r: Resend, busy: set<nat>, budget: nat): Out {
    var o1 := o.(firstNotTx := TxScan(ps, o, busy, o.firstNotTx));
    var end := WantedEnd(r, TxEnd(g, ps, o, busy));
    if end > o.granted then Xmit(ps, Raise(g, o1, end), budget) else o1
  }

  // ---- Facts about the sender ----

  lemma {:induction false} TilesNext(ps: seq<Block>, lo: nat, hi: nat, i: nat)
    requires Tiles(ps, lo, hi) && i < |ps|
    ensures ps[i].len > 0 && End(ps[i]) <= hi
    ensures End(ps[i]) == if i + 1 < |ps| then ps[i + 1].offset else hi
    decreases i
  {
    TilesBounds(ps[1..], End(ps[0]), hi);
    if i > 0 {
      TilesNext(ps[1..], End(ps[0]), hi, i - 1);
    }
  }

  lemma OffNext(g: Geometry, ps: seq<Block>, i: nat)
    requires ValidGeometry(g) && ps == PacketsFrom(g, 0) && i < |ps|
    ensures Off(g, ps, i) < Off(g, ps, i + 1) <= g.length
    ensures Off(g, ps, i + 1) == Off(g, ps, i) + ps[i].len && ps[i].len <= g.maxGso
    ensures Off(g, ps, i + 1) <= g.unscheduled || g.unscheduled <= Off(g, ps, i)
  {
    PacketsTile(g, 0);
    TilesNext(ps, 0, g.length, i);
    assert ps[i] in ps;
  }

  lemma {:induction false} OffOrder(g: Geometry, ps: seq<Block>, i: nat, j: nat)
    requires ValidGeometry(g) && ps == PacketsFrom(g, 0) && i < j <= |ps|
    ensures Off(g, ps, i) < Off(g, ps, j)
    decreases j
  {
    OffNext(g, ps, j - 1);
    if i < j - 1 {
      OffOrder(g, ps, i, j - 1);
    }
  }

  /** homa_xmit_data passes on packets in order, and each starts below the granted offset. It stops only when
      the pacer lets no more through, when all packets copied so far are out, or when the next one starts
      at or beyond the granted offset. */
  lemma {:induction false} XmitFacts(g: Geometry, ps: seq<Block>, o: Out, budget: nat)
    requires ValidGeometry(g) && OutOk(g, ps, o)
    ensures var o' := Xmit(ps, o, budget);
      && OutOk(g, ps, o') && o'.granted == o.granted && o'.filled == o.filled && o'.firstNotTx == o.firstNotTx
      && o.nextXmit <= o'.nextXmit && o.nextOffset <= o'.nextOffset
      && (forall i :: o.nextXmit <= i < o'.nextXmit ==> Off(g, ps, i) < o.granted)
      && o'.nextXmit <= o.nextXmit + budget
      && (o'.nextXmit == o.nextXmit + budget || o'.nextXmit == o.filled || o'.nextOffset >= o.granted)
    decreases budget
  {
    hide PacketsFrom;
    if !(budget == 0 || o.nextXmit >= o.filled || o.nextOffset >= o.granted) {
      OffNext(g, ps, o.nextXmit);
      XmitFacts(g, ps, o.(nextXmit := o.nextXmit + 1, nextOffset := o.nextOffset + ps[o.nextXmit].len), budget - 1);
    }
  }

  /** A GRANT raises the granted offset to what it says, but neither below what it was nor above the length, and
      everything that may be sent then is sent. */
  lemma GrantTaken(g: Geometry, ps: seq<Block>, o: Out, offset: nat, budget: nat)
    requires ValidGeometry(g) && OutOk(g, ps, o)
    ensures var o' := TakeGrant(g, ps, o, offset, budget);
      && OutOk(g, ps, o') && o'.granted == Max(o.granted, Min(offset, g.length))
      && SentUpTo(g, ps, o, o', budget)
  {
    hide PacketsFrom, Xmit;
    XmitFacts(g, ps, Raise(g, o, offset), budget);
  }

  /** From o on, all that the pacer lets through has been sent of what has been copied and starts below the granted
      offset, and nothing else. */
  ghost predicate SentUpTo(g: Geometry, ps: seq<Block>, o: Out, o': Out, budget: nat) {
    && o'.filled == o.filled && o.nextXmit <= o'.nextXmit <= o.nextXmit + budget
    && o'.nextOffset == Off(g, ps, o'.nextXmit)
    && (forall i :: o.nextXmit <= i < o'.nextXmit ==> Off(g, ps, i) < o'.granted)
    && (o'.nextXmit == o.nextXmit + budget || o'.nextXmit == o.filled || o'.nextOffset >= o'.granted)
  }

  /** A RESEND for bytes beyond the granted offset raises it up to them, but not above the length, and then all
      that may be sent is sent; any other RESEND sends nothing for the first time. */
  lemma ResendTaken(g: Geometry, ps: seq<Block>, o: Out, r: Resend, busy: set<nat>, budget: nat)
    requires ValidGeometry(g) && OutOk(g, ps, o)
    ensures var o' := TakeResend(g, ps, o, r, busy, budget);
      var end := WantedEnd(r, TxEnd(g, ps, o, busy));
      && o'.granted == Max(o.granted, if end < g.length then end else g.length)
      && SentUpTo(g, ps, o, o', if end > o.granted then budget else 0)
  {
    hide PacketsFrom, Xmit, TxEnd, TxScan;
    TxScanFacts(g, ps, o, busy, o.firstNotTx);
    var end := WantedEnd(r, TxEnd(g, ps, o, busy));
    if end > o.granted {
      XmitFacts(g, ps, Raise(g, o.(firstNotTx := TxScan(ps, o, busy, o.firstNotTx)), end), budget);
    }
  }

  /** The scan of homa_rpc_tx_end stops at the first packet that the driver holds, or else at the first that has
      not been passed on. */
  lemma {:induction false} TxScanFacts(g: Geometry, ps: seq<Block>, o: Out, busy: set<nat>, i: nat)
    requires ValidGeometry(g) && OutOk(g, ps, o) && i <= o.nextXmit
    ensures i <= TxScan(ps, o, busy, i) <= o.nextXmit
    ensures forall j :: i <= j < TxScan(ps, o, busy, i) ==> j !in busy
    ensures TxScan(ps, o, busy, i) == o.nextXmit || TxScan(ps, o, busy, i) in busy
    decreases o.nextXmit - i
  {
    hide PacketsFrom;
    if i < o.nextXmit {
      OffOrder(g, ps, i, o.nextXmit);
      if i !in busy {
        TxScanFacts(g, ps, o, busy, i + 1);
      }
    }
  }

  /** All packets copied so far are out although the message is not complete. */
  predicate Stalled(ps: seq<Block>, o: Out, busy: set<nat>) {
    o.filled < |ps| && TxScan(ps, o, busy, o.firstNotTx) == o.filled
  }

  /** homa_rpc_tx_end never lies beyond what has been passed on, unless a partly copied message is all out;
      then it is the length of the message. */
  lemma TxEndFacts(g: Geometry, ps: seq<Block>, o: Out, busy: set<nat>)
    requires ValidGeometry(g) && OutOk(g, ps, o)
    ensures TxEnd(g, ps, o, busy) <= g.length
    ensures !Stalled(ps, o, busy) ==> TxEnd(g, ps, o, busy) <= o.nextOffset
    ensures Stalled(ps, o, busy) ==>
              TxEnd(g, ps, o, busy) == g.length && o.nextXmit == o.filled && o.nextOffset < g.length
  {
    hide PacketsFrom, TxScan;
    TxScanFacts(g, ps, o, busy, o.firstNotTx);
    var i := TxScan(ps, o, busy, o.firstNotTx);
    if i < |ps| {
      OffNext(g, ps, i);
    }
    if i < o.nextXmit {
      OffOrder(g, ps, i, o.nextXmit);
    }
  }

  // ---- In place ----

  /** struct homa_message_out; the packet list only ever grows, along PacketsFrom(g, 0). */
  class MessageOut {
    const g: Geometry
    var packets: seq<Block>
    var granted: nat
    var nextXmit: nat
    var nextXmitOffset: nat
    var firstNotTx: nat

    ghost function Abs(): Out
      reads this
    {
      Out(granted, nextXmit, nextXmitOffset, firstNotTx, |packets|)
    }

    ghost predicate Valid()
      reads this
    {
      ValidGeometry(g) && OutOk(g, PacketsFrom(g, 0), Abs()) && packets == PacketsFrom(g, 0)[..|packets|]
    }

    /** homa_message_out_init and the start of homa_message_out_fill. */
    constructor (g: Geometry)
      requires ValidGeometry(g)
      ensures this.g == g && Valid() && Abs() == Out(g.unscheduled, 0, 0, 0, 0)
    {
      this.g := g;
      packets, granted, nextXmit, nextXmitOffset, firstNotTx := [], g.unscheduled, 0, 0, 0;
      new;
      FirstOff(g);
    }

    /** homa_xmit_data. */
    method XmitData(budget: nat)
      requires Valid()
      modifies this
      ensures Valid() && packets == old(packets)
      ensures Abs() == Xmit(PacketsFrom(g, 0), old(Abs()), budget)
      ensures SentUpTo(g, PacketsFrom(g, 0), old(Abs()), Abs(), budget)
    {
      hide PacketsFrom;
      ghost var ps := PacketsFrom(g, 0);
      var k: nat := budget;
      XmitFacts(g, ps, Abs(), budget);
      while nextXmit < |packets| && k > 0
        invariant k <= budget && packets == old(packets) && granted == old(granted) && firstNotTx == old(firstNotTx)
        invariant nextXmit <= |packets|
        invariant Xmit(ps, old(Abs()), budget) == Xmit(ps, Abs(), k)
      {
        if nextXmitOffset >= granted {
          return;
        }
        nextXmitOffset := nextXmitOffset + packets[nextXmit].len;
        nextXmit := nextXmit + 1;
        k := k - 1;
      }
    }

    /** homa_rpc_tx_end. */
    method RpcTxEnd(busy: set<nat>) returns (end: nat)
      requires Valid()
      modifies `firstNotTx
      ensures Valid() && end == TxEnd(g, PacketsFrom(g, 0), old(Abs()), busy)
      ensures firstNotTx == TxScan(PacketsFrom(g, 0), old(Abs()), busy, old(firstNotTx))
    {
      hide PacketsFrom;
      ghost var ps := PacketsFrom(g, 0);
      TxScanFacts(g, ps, Abs(), busy, firstNotTx);
      while firstNotTx < |packets|
        invariant firstNotTx <= |packets|
        invariant TxScan(ps, old(Abs()), busy, firstNotTx) == TxScan(ps, old(Abs()), busy, old(firstNotTx))
      {
        if packets[firstNotTx].offset >= nextXmitOffset || firstNotTx in busy {
          return packets[firstNotTx].offset;
        }
        firstNotTx := firstNotTx + 1;
      }
      end := g.length;
    }

    /** homa_grant_pkt. */
    method GrantPkt(offset: nat, budget: nat)
      requires Valid()
      modifies this
      ensures Valid() && packets == old(packets)
      ensures Abs() == TakeGrant(g, PacketsFrom(g, 0), old(Abs()), offset, budget)
      ensures granted == Max(old(granted), Min(offset, g.length))
      ensures SentUpTo(g, PacketsFrom(g, 0), old(Abs()), Abs(), budget)
    {
      hide PacketsFrom, Xmit;
      GrantTaken(g, PacketsFrom(g, 0), Abs(), offset, budget);
      if offset > granted {
        granted := offset;
        if offset > g.length {
          granted := g.length;
        }
      }
      XmitData(budget);
    }

    /** homa_resend_pkt for a message that can be sent: what is retransmitted, and what is sent for the
        first time because the RESEND shows that a grant was lost. */
    method ResendPkt(r: Resend, busy: set<nat>, budget: nat) returns (resent: seq<Block>)
      requires Valid()
      modifies this
      ensures Valid() && packets == old(packets)
      ensures Abs() == TakeResend(g, PacketsFrom(g, 0), old(Abs()), r, busy, budget)
      ensures resent == Answer(AllSegments(packets, g.maxSeg), r, TxEnd(g, PacketsFrom(g, 0), old(Abs()), busy))
      ensures var end := WantedEnd(r, TxEnd(g, PacketsFrom(g, 0), old(Abs()), busy));
        granted == Max(old(granted), if end < g.length then end else g.length)
    {
      hide PacketsFrom, Xmit, TxScan, TxEnd, Answer, AllSegments;
      ResendTaken(g, PacketsFrom(g, 0), Abs(), r, busy, budget);
      var txEnd := RpcTxEnd(busy);
      var end := WantedEnd(r, txEnd);
      resent := Resent(g, packets, r, txEnd);
      if end > granted {
        granted := end;
        if granted > g.length {
          granted := g.length;
        }
        XmitData(budget);
      }
    }
  }

  /** The call of homa_resend_data: the segments that answer the RESEND, of the packets copied so far. */
  method Resent(g: Geometry, packets: seq<Block>, r: Resend, txEnd: nat) returns (sent: seq<Block>)
    requires ValidGeometry(g) && packets <= PacketsFrom(g, 0)
    ensures sent == Answer(AllSegments(packets, g.maxSeg), r, txEnd)
  {
    hide PacketsFrom, AllSegments, Touching;
    PacketsTile(g, 0);
    var hi := TilesPrefix(PacketsFrom(g, 0), packets, 0, g.length);
    var last := ResendEnd(r, txEnd);
    if last <= r.offset {
      sent := [];
    } else {
      sent := ResendData(packets, g.maxSeg, r.offset, last, hi);
    }
  }

  lemma {:induction false} TilesPrefix(ps: seq<Block>, front: seq<Block>, lo: nat, hi: nat) returns (mid: nat)
    requires Tiles(ps, lo, hi) && front <= ps
    ensures Tiles(front, lo, mid)
    decreases |front|
  {
    if front == [] {
      mid := lo;
    } else {
      assert front[0] == ps[0] && front[1..] <= ps[1..];
      mid := TilesPrefix(ps[1..], front[1..], End(ps[0]), hi);
    }
  }

  // ---- The protocol ----

  /** A retransmitted DATA packet; incoming is what its header tells a receiver that knows nothing of the
      message to expect. In a packet sent for the first time that is the unscheduled part. */
  datatype Copy = Copy(block: Block, incoming: nat)

  datatype State = State(out: Out, inc: Incoming, grants: set<nat>, resends: set<Resend>, copies: set<Copy>)

  datatype Action =
    | Fill                                              // one more packet is copied from user space
    | Send(budget: nat)                                 // homa_xmit_data
    | Arrive(block: Block, incoming: nat, memory: bool) // a DATA segment reaches the receiver
    | RaiseGrant(offset: nat)                           // the receiver grants more
    | SendGrant                                         // it sends a GRANT
    | SendResends(rs: seq<Resend>)                      // homa_request_retrans
    | GetGrant(offset: nat, budget: nat)                // homa_grant_pkt
    | GetResend(r: Resend, busy: set<nat>, budget: nat) // homa_resend_pkt

  function Granted(inc: Incoming): int {
    if inc.Known? then inc.granted else 0
  }

  function Init(g: Geometry): State {
    State(Out(g.unscheduled, 0, 0, 0, 0), NoData, {}, {}, {})
  }

  /** The segments of the packets copied so far: those that homa_resend_data walks. */
  function Copied(g: Geometry, o: Out): seq<Block>
    requires ValidGeometry(g)
  {
    var ps := PacketsFrom(g, 0);
    AllSegments(if o.filled <= |ps| then ps[..o.filled] else ps, g.maxSeg)
  }

  /** What homa_resend_data puts into the network for a RESEND. */
  ghost function Copies(g: Geometry, o: Out, r: Resend, busy: set<nat>): set<Copy>
    requires ValidGeometry(g)
  {
    var txEnd := TxEnd(g, PacketsFrom(g, 0), o, busy);
    if ResendEnd(r, txEnd) <= r.offset then {}
    else set b | b in Answer(Copied(g, o), r, txEnd) :: Copy(b, ResendEnd(r, txEnd))
  }

  /** What may happen: packets come out of the network only if they were put in, any number of times.
      A segment has been sent if its packet has been passed on, or if it has been retransmitted. */
  ghost predicate Enabled(g: Geometry, s: State, a: Action)
    requires ValidGeometry(g)
  {
    match a
    case Fill => s.out.filled < |PacketsFrom(g, 0)|
    case Send(_) => true
    case Arrive(b, incoming, _) =>
      (b in Blocks(g) && End(b) <= s.out.nextOffset && incoming == g.unscheduled) || Copy(b, incoming) in s.copies
    case RaiseGrant(x) => s.inc.Known? && s.inc.granted < x <= g.length
    case SendGrant => s.inc.Known? && s.inc.granted >= 0
    case SendResends(rs) => if s.inc.NoData? then rs == [Resend(0, -1)] else IsRequest(s.inc.m, s.inc.granted, rs)
    case GetGrant(x, _) => x in s.grants
    case GetResend(r, _, _) => r in s.resends
  }

  /** The first packet tells how much to expect (homa_message_in_init, homa_grant_init_rpc). */
  function Receive(g: Geometry, inc: Incoming, b: Block, incoming: nat, memory: bool): Incoming {
    var k := if inc.NoData? then Known(Fresh(g.length), Min(incoming, g.length)) else inc;
    Known(Deliver(k.m, Arrival(b, memory)), k.granted)
  }

  ghost function Next(g: Geometry, s: State, a: Action): State
    requires ValidGeometry(g)
  {
    var ps := PacketsFrom(g, 0);
    match a
    case Fill => s.(out := s.out.(filled := s.out.filled + 1, firstNotTx := 0))
    case Send(budget) => s.(out := Xmit(ps, s.out, budget))
    case Arrive(b, incoming, memory) => s.(inc := Receive(g, s.inc, b, incoming, memory))
    case RaiseGrant(x) => s.(inc := if s.inc.Known? then s.inc.(granted := x) else s.inc)
    case SendGrant => s.(grants := s.grants + if Granted(s.inc) >= 0 then {Granted(s.inc)} else {})
    case SendResends(rs) => s.(resends := s.resends + (set r | r in rs))
    case GetGrant(x, budget) => s.(out := TakeGrant(g, ps, s.out, x, budget))
    case GetResend(r, busy, budget) =>
      s.(out := TakeResend(g, ps, s.out, r, busy, budget), copies := s.copies + Copies(g, s.out, r, busy))
  }

  /** What the receiver has allowed: the unscheduled bytes, or more if it has granted more. */
  function Allowed(g: Geometry, s: State): int {
    Max(g.unscheduled, Granted(s.inc))
  }

  /** The sender never believes more to be granted than the receiver allowed or than it has sent. */
  ghost predicate Bound(g: Geometry, s: State) {
    s.out.granted <= Max(Allowed(g, s), s.out.nextOffset)
  }

  /** No packet has been sent that starts where the receiver had not allowed it. */
  ghost predicate StartsAllowed(g: Geometry, ps: seq<Block>, s: State) {
    forall i :: 0 <= i < s.out.nextXmit ==> Off(g, ps, i) < Allowed(g, s)
  }

  ghost predicate ResendOk(g: Geometry, s: State, r: Resend) {
    r.length == -1 || r.offset + r.length <= Max(Granted(s.inc), s.out.nextOffset)
  }

  ghost predicate IncOk(g: Geometry, s: State)
    requires ValidGeometry(g)
  {
    s.inc.Known? ==>
      && s.inc.m.length == g.length && Aligned(s.inc.m, Blocks(g))
      && s.inc.m.recvEnd <= s.out.nextOffset && 0 <= s.inc.granted <= g.length
  }

  ghost predicate MessagesOk(g: Geometry, s: State) {
    && (forall x :: x in s.grants ==> x <= Granted(s.inc))
    && (forall r :: r in s.resends ==> ResendOk(g, s, r))
  }

  /** Only what has been passed on is retransmitted. */
  ghost predicate CopiesOk(g: Geometry, s: State)
    requires ValidGeometry(g)
  {
    forall c :: c in s.copies ==> c.block in Blocks(g) && End(c.block) <= s.out.nextOffset
  }

  ghost predicate Inv(g: Geometry, s: State)
    requires ValidGeometry(g)
  {
    && OutOk(g, PacketsFrom(g, 0), s.out)
    && Bound(g, s) && StartsAllowed(g, PacketsFrom(g, 0), s)
    && IncOk(g, s) && MessagesOk(g, s) && CopiesOk(g, s)
  }

  // ---- Each step keeps the invariant ----

  /** Nothing is taken back: what was allowed or sent stays so. */
  ghost predicate Grows(s: State, s': State) {
    Granted(s.inc) <= Granted(s'.inc) && s.out.nextOffset <= s'.out.nextOffset
  }

  lemma MessagesStay(g: Geometry, s: State, s': State)
    requires MessagesOk(g, s) && Grows(s, s') && s'.grants == s.grants && s'.resends == s.resends
    ensures MessagesOk(g, s')
  {
  }

  lemma StartsStay(g: Geometry, ps: seq<Block>, s: State, s': State)
    requires StartsAllowed(g, ps, s) && Grows(s, s') && s'.out.nextXmit == s.out.nextXmit
    ensures StartsAllowed(g, ps, s')
  {
  }

  /** Transmission under a granted offset that the receiver allowed, or that has been sent already. */
  lemma XmitOk(g: Geometry, s: State, o: Out, budget: nat)
    requires ValidGeometry(g) && Inv(g, s) && OutOk(g, PacketsFrom(g, 0), o)
    requires o.nextXmit == s.out.nextXmit && o.granted <= Max(Allowed(g, s), o.nextOffset)
    ensures Inv(g, s.(out := Xmit(PacketsFrom(g, 0), o, budget)))
  {
    hide PacketsFrom, Xmit, Aligned, Blocks, ResendOk;
    var ps := PacketsFrom(g, 0);
    XmitFacts(g, ps, o, budget);
    var o' := Xmit(ps, o, budget);
    var s' := s.(out := o');
    forall i | 0 <= i < o'.nextXmit ensures Off(g, ps, i) < Allowed(g, s') {
      if i >= o.nextXmit {
        NotBelowNext(g, ps, o, i);
      }
    }
    MessagesStay(g, s, s');
  }

  lemma NotBelowNext(g: Geometry, ps: seq<Block>, o: Out, i: nat)
    requires ValidGeometry(g) && OutOk(g, ps, o) && o.nextXmit <= i < |ps|
    ensures o.nextOffset <= Off(g, ps, i)
  {
    hide PacketsFrom;
    if o.nextXmit < i {
      OffOrder(g, ps, o.nextXmit, i);
    }
  }

  lemma FillOk(g: Geometry, s: State)
    requires ValidGeometry(g) && Inv(g, s) && Enabled(g, s, Fill)
    ensures Inv(g, Next(g, s, Fill))
  {
    hide PacketsFrom, Aligned, Blocks, ResendOk;
    var s' := Next(g, s, Fill);
    MessagesStay(g, s, s');
    StartsStay(g, PacketsFrom(g, 0), s, s');
  }

  lemma ArriveOk(g: Geometry, s: State, b: Block, incoming: nat, memory: bool)
    requires ValidGeometry(g) && Inv(g, s) && Enabled(g, s, Arrive(b, incoming, memory))
    ensures Inv(g, Next(g, s, Arrive(b, incoming, memory)))
  {
    hide PacketsFrom, Aligned, Blocks, ResendOk, Deliver;
    var s' := Next(g, s, Arrive(b, incoming, memory));
    var m := if s.inc.NoData? then Fresh(g.length) else s.inc.m;
    BlocksTile(g);
    NothingYet(Blocks(g), g.length);
    DeliverOk(m, Arrival(b, memory), Blocks(g));
    DeliverEnd(m, Arrival(b, memory), Blocks(g));
    MessagesStay(g, s, s');
    StartsStay(g, PacketsFrom(g, 0), s, s');
  }

  lemma DeliverEnd(m: MsgIn, a: Arrival, bs: seq<Block>)
    requires Aligned(m, bs) && a.block in bs
    ensures Deliver(m, a).recvEnd <= Max(m.recvEnd, End(a.block))
  {
    hide Tiles, Valid;
    TilesBounds(bs, 0, m.length);
    AddOk(m, a.block.offset, a.block.len, a.memory);
  }

  lemma RaiseGrantOk(g: Geometry, s: State, x: nat)
    requires ValidGeometry(g) && Inv(g, s) && Enabled(g, s, RaiseGrant(x))
    ensures Inv(g, Next(g, s, RaiseGrant(x)))
  {
    hide PacketsFrom, Aligned, Blocks, ResendOk;
    var s' := Next(g, s, RaiseGrant(x));
    MessagesStay(g, s, s');
    StartsStay(g, PacketsFrom(g, 0), s, s');
  }

  /** A receiver asks only for bytes that it has granted or that lie below a byte it has received. */
  lemma SendResendsOk(g: Geometry, s: State, rs: seq<Resend>)
    requires ValidGeometry(g) && Inv(g, s) && Enabled(g, s, SendResends(rs))
    ensures Inv(g, Next(g, s, SendResends(rs)))
  {
    hide PacketsFrom, Blocks;
    var s' := Next(g, s, SendResends(rs));
    forall r | r in rs ensures ResendOk(g, s', r) {
      if s.inc.Known? {
        RequestEnds(s.inc.m, s.inc.granted, rs, r);
      }
    }
    forall r | r in s'.resends ensures ResendOk(g, s', r) {
      assert r in s.resends ==> ResendOk(g, s, r);
    }
  }

  lemma RequestEnds(m: MsgIn, granted: int, rs: seq<Resend>, r: Resend)
    requires Valid(m) && IsRequest(m, granted, rs) && r in rs
    ensures r.offset + r.length <= Max(granted, m.recvEnd) && r.length > 0
  {
    hide GapsOk, Received;
    var i :| 0 <= i < |rs| && rs[i] == r;
    if i < |m.gaps| {
      GapEdges(m.gaps, 0, m.recvEnd, i);
    }
  }

  lemma GetGrantOk(g: Geometry, s: State, x: nat, budget: nat)
    requires ValidGeometry(g) && Inv(g, s) && Enabled(g, s, GetGrant(x, budget))
    ensures Inv(g, Next(g, s, GetGrant(x, budget)))
  {
    hide PacketsFrom, Xmit, Aligned, Blocks, ResendOk;
    XmitOk(g, s, Raise(g, s.out, x), budget);
  }

  /** The case in which homa_resend_pkt takes more to be granted than was: the RESEND asks for everything
      sent so far, the message is only partly copied and all of that part is out. */
  ghost predicate Overgrants(g: Geometry, s: State, r: Resend, busy: set<nat>)
    requires ValidGeometry(g)
  {
    r.length == -1 && Stalled(PacketsFrom(g, 0), s.out, busy) && Allowed(g, s) < g.length
  }

  lemma GetResendOk(g: Geometry, s: State, r: Resend, busy: set<nat>, budget: nat)
    requires ValidGeometry(g) && Inv(g, s) && r in s.resends && !Overgrants(g, s, r, busy)
    ensures Inv(g, Next(g, s, GetResend(r, busy, budget)))
  {
    hide PacketsFrom, Xmit, Aligned, Blocks, TxScan, Stalled, TxEnd, Copies;
    var ps := PacketsFrom(g, 0);
    TxEndFacts(g, ps, s.out, busy);
    TxScanFacts(g, ps, s.out, busy, s.out.firstNotTx);
    var o1 := s.out.(firstNotTx := TxScan(ps, s.out, busy, s.out.firstNotTx));
    var end := WantedEnd(r, TxEnd(g, ps, s.out, busy));
    assert ResendOk(g, s, r);
    CopiesSent(g, s.out, r, busy);
    var s1 := s.(copies := s.copies + Copies(g, s.out, r, busy));
    if end > s.out.granted {
      XmitOk(g, s1, Raise(g, o1, end), budget);
    } else {
      XmitOk(g, s1, o1, 0);
      XmitNone(ps, o1);
    }
  }

  // ---- Which segments have been copied and sent ----

  lemma {:induction false} AllSegmentsAppend(a: seq<Block>, b: seq<Block>, maxSeg: nat)
    requires maxSeg > 0
    ensures AllSegments(a + b, maxSeg) == AllSegments(a, maxSeg) + AllSegments(b, maxSeg)
    decreases |a|
  {
    hide Segments;
    if a == [] {
      assert a + b == b;
    } else {
      assert (a + b)[1..] == a[1..] + b;
      AllSegmentsAppend(a[1..], b, maxSeg);
      Assoc(Segments(a[0], maxSeg), AllSegments(a[1..], maxSeg), AllSegments(b, maxSeg));
    }
  }

  lemma {:induction false} TilesSplit(g: Geometry, ps: seq<Block>, i: nat)
    requires ValidGeometry(g) && ps == PacketsFrom(g, 0) && i <= |ps|
    ensures Tiles(ps[..i], 0, Off(g, ps, i)) && Tiles(ps[i..], Off(g, ps, i), g.length)
    decreases i
  {
    hide PacketsFrom;
    PacketsTile(g, 0);
    if i == 0 {
      FirstOff(g);
      assert ps[0..] == ps;
    } else {
      TilesSplit(g, ps, i - 1);
      OffNext(g, ps, i - 1);
      assert ps[i - 1..][1..] == ps[i..] && ps[i - 1..][0] == ps[i - 1];
      assert ps[..i] == ps[..i - 1] + [ps[i - 1]];
      OneTile(ps[i - 1]);
      TilesAppend(ps[..i - 1], [ps[i - 1]], 0, Off(g, ps, i - 1), Off(g, ps, i));
    }
  }

  lemma OneTile(b: Block)
    requires b.len > 0
    ensures Tiles([b], b.offset, End(b))
  {
    assert [b][1..] == [];
  }

  /** The segments of the first i packets are the blocks that start, or end, below the end of those packets. */
  lemma SegmentsOfFirst(g: Geometry, ps: seq<Block>, i: nat, b: Block)
    requires ValidGeometry(g) && ps == PacketsFrom(g, 0) && i <= |ps|
    ensures b in AllSegments(ps[..i], g.maxSeg) <==> b in Blocks(g) && b.offset < Off(g, ps, i)
    ensures b in Blocks(g) ==> (b.offset < Off(g, ps, i) <==> End(b) <= Off(g, ps, i))
  {
    hide PacketsFrom, AllSegments, Tiles, Off;
    TilesSplit(g, ps, i);
    var front, back := AllSegments(ps[..i], g.maxSeg), AllSegments(ps[i..], g.maxSeg);
    AllSegmentsTile(ps[..i], g.maxSeg, 0, Off(g, ps, i));
    AllSegmentsTile(ps[i..], g.maxSeg, Off(g, ps, i), g.length);
    TilesBounds(front, 0, Off(g, ps, i));
    TilesBounds(back, Off(g, ps, i), g.length);
    assert ps[..i] + ps[i..] == ps;
    AllSegmentsAppend(ps[..i], ps[i..], g.maxSeg);
    assert b in front + back <==> b in front || b in back;
  }

  /** The answer to a RESEND holds only blocks that have been passed on. */
  lemma AnswerSent(g: Geometry, o: Out, busy: set<nat>, b: Block)
    requires ValidGeometry(g) && OutOk(g, PacketsFrom(g, 0), o)
    ensures b in Copied(g, o) && b.offset < TxEnd(g, PacketsFrom(g, 0), o, busy) <==>
            b in Blocks(g) && b.offset < TxEnd(g, PacketsFrom(g, 0), o, busy) && b.offset < o.nextOffset
    ensures b in Blocks(g) && b.offset < o.nextOffset ==> End(b) <= o.nextOffset
  {
    hide PacketsFrom, AllSegments, TxEnd, Stalled;
    var ps := PacketsFrom(g, 0);
    TxEndFacts(g, ps, o, busy);
    SegmentsOfFirst(g, ps, o.filled, b);
    SegmentsOfFirst(g, ps, o.nextXmit, b);
    if o.nextXmit < o.filled {
      OffOrder(g, ps, o.nextXmit, o.filled);
    }
  }

  lemma CopiesSent(g: Geometry, o: Out, r: Resend, busy: set<nat>)
    requires ValidGeometry(g) && OutOk(g, PacketsFrom(g, 0), o)
    ensures forall c :: c in Copies(g, o, r, busy) ==> c.block in Blocks(g) && End(c.block) <= o.nextOffset
  {
    hide PacketsFrom, Copied, TxEnd, Answer, Blocks;
    forall c | c in Copies(g, o, r, busy) ensures c.block in Blocks(g) && End(c.block) <= o.nextOffset {
      AnswerMember(Copied(g, o), r, TxEnd(g, PacketsFrom(g, 0), o, busy), c.block);
      AnswerSent(g, o, busy, c.block);
    }
  }

  lemma XmitNone(ps: seq<Block>, o: Out)
    ensures Xmit(ps, o, 0) == o
  {
  }

  /** homa_resend_pkt keeps the sender's granted offset within bounds exactly if it is not that case. */
  lemma ResendBoundIff(g: Geometry, s: State, r: Resend, busy: set<nat>, budget: nat)
    requires ValidGeometry(g) && Inv(g, s) && r in s.resends
    ensures Bound(g, Next(g, s, GetResend(r, busy, budget))) <==> !Overgrants(g, s, r, busy)
  {
    hide PacketsFrom, TxScan, TxEnd, Inv, Xmit;
    var ps := PacketsFrom(g, 0);
    if Overgrants(g, s, r, busy) {
      assert OutOk(g, ps, s.out) && Bound(g, s) by { InvParts(g, s); }
      TxEndFacts(g, ps, s.out, busy);
      TxScanFacts(g, ps, s.out, busy, s.out.firstNotTx);
      var o1 := s.out.(firstNotTx := TxScan(ps, s.out, busy, s.out.firstNotTx));
      AllSent(ps, Raise(g, o1, g.length), budget);
    } else {
      GetResendOk(g, s, r, busy, budget);
      InvParts(g, Next(g, s, GetResend(r, busy, budget)));
    }
  }

  lemma InvParts(g: Geometry, s: State)
    requires ValidGeometry(g) && Inv(g, s)
    ensures OutOk(g, PacketsFrom(g, 0), s.out) && Bound(g, s) && StartsAllowed(g, PacketsFrom(g, 0), s)
    ensures IncOk(g, s) && MessagesOk(g, s) && CopiesOk(g, s)
  {
  }

  lemma AllSent(ps: seq<Block>, o: Out, budget: nat)
    requires o.nextXmit == o.filled
    ensures Xmit(ps, o, budget) == o
  {
  }

  // ---- Every run ----

  /** The step is possible and is not the exceptional RESEND. */
  ghost predicate Regular(g: Geometry, s: State, a: Action)
    requires ValidGeometry(g)
  {
    Enabled(g, s, a) && (a.GetResend? ==> !Overgrants(g, s, a.r, a.busy))
  }

  lemma StepOk(g: Geometry, s: State, a: Action)
    requires ValidGeometry(g) && Inv(g, s) && Regular(g, s, a)
    ensures Inv(g, Next(g, s, a))
  {
    hide Inv, Overgrants;
    match a
    case Fill => FillOk(g, s);
    case Send(budget) =>
      InvParts(g, s);
      XmitOk(g, s, s.out, budget);
    case Arrive(b, incoming, memory) => ArriveOk(g, s, b, incoming, memory);
    case RaiseGrant(x) => RaiseGrantOk(g, s, x);
    case SendGrant => SendGrantOk(g, s);
    case SendResends(rs) => SendResendsOk(g, s, rs);
    case GetGrant(x, budget) => GetGrantOk(g, s, x, budget);
    case GetResend(r, busy, budget) => GetResendOk(g, s, r, busy, budget);
  }

  lemma SendGrantOk(g: Geometry, s: State)
    requires ValidGeometry(g) && Inv(g, s) && Enabled(g, s, SendGrant)
    ensures Inv(g, Next(g, s, SendGrant))
  {
    hide PacketsFrom, Aligned, Blocks;
  }

  ghost function Run(g: Geometry, s: State, run: seq<Action>): State
    requires ValidGeometry(g)
    decreases |run|
  {
    if run == [] then s else Run(g, Next(g, s, run[0]), run[1..])
  }

  ghost predicate RegularRun(g: Geometry, s: State, run: seq<Action>)
    requires ValidGeometry(g)
    decreases |run|
  {
    run == [] || (Regular(g, s, run[0]) && RegularRun(g, Next(g, s, run[0]), run[1..]))
  }

  lemma {:induction false} RunKeepsInv(g: Geometry, s: State, run: seq<Action>)
    requires ValidGeometry(g) && Inv(g, s) && RegularRun(g, s, run)
    ensures Inv(g, Run(g, s, run))
    decreases |run|
  {
    hide Inv, Regular, Next;
    if run != [] {
      StepOk(g, s, run[0]);
      RunKeepsInv(g, Next(g, s, run[0]), run[1..]);
    }
  }

  /** Grant safety: in every run, the sender's granted offset is within the message and within what the
      receiver allowed or the sender has sent already; every packet sent for the first time starts
      below what the receiver allowed, so at most one packet reaches beyond it; and as long as the
      receiver has granted nothing, only unscheduled bytes are sent. */
  lemma GrantSafety(g: Geometry, run: seq<Action>)
    requires ValidGeometry(g) && RegularRun(g, Init(g), run)
    ensures var s := Run(g, Init(g), run);
      && s.out.granted <= g.length && Bound(g, s)
      && StartsAllowed(g, PacketsFrom(g, 0), s)
      && s.out.nextOffset < Allowed(g, s) + g.maxGso
      && (Granted(s.inc) <= g.unscheduled ==> s.out.nextOffset <= g.unscheduled)
  {
    hide Inv, PacketsFrom, Next, StartsAllowed;
    InitOk(g);
    RunKeepsInv(g, Init(g), run);
    var s := Run(g, Init(g), run);
    InvParts(g, s);
    LastStart(g, s);
  }

  lemma LastStart(g: Geometry, s: State)
    requires ValidGeometry(g) && OutOk(g, PacketsFrom(g, 0), s.out) && StartsAllowed(g, PacketsFrom(g, 0), s)
    ensures s.out.nextOffset < Allowed(g, s) + g.maxGso
    ensures Granted(s.inc) <= g.unscheduled ==> s.out.nextOffset <= g.unscheduled
  {
    hide PacketsFrom;
    var ps := PacketsFrom(g, 0);
    if s.out.nextXmit > 0 {
      OffNext(g, ps, s.out.nextXmit - 1);
      assert Off(g, ps, s.out.nextXmit - 1) < Allowed(g, s);
    } else {
      FirstOff(g);
    }
  }

  lemma FirstOff(g: Geometry)
    requires ValidGeometry(g)
    ensures Off(g, PacketsFrom(g, 0), 0) == 0
  {
  }

  lemma InitOk(g: Geometry)
    requires ValidGeometry(g)
    ensures Inv(g, Init(g))
  {
    FirstOff(g);
  }

  /** In every run the receiver holds whole blocks, and has none that was not sent. */
  lemma ReceiverAligned(g: Geometry, run: seq<Action>)
    requires ValidGeometry(g) && RegularRun(g, Init(g), run)
    ensures IncOk(g, Run(g, Init(g), run))
  {
    hide Inv, Next, IncOk;
    InitOk(g);
    RunKeepsInv(g, Init(g), run);
    InvParts(g, Run(g, Init(g), run));
  }

  /** In every run, whatever part of the message has been copied and whatever the driver still holds, a round
      of RESENDs by the receiver is answered by exactly the missing blocks that have left the sender and
      that lie below recvEnd or within what was granted. */
  lemma ResendRound(g: Geometry, run: seq<Action>, rs: seq<Resend>, busy: set<nat>, b: Block)
    requires ValidGeometry(g) && RegularRun(g, Init(g), run)
    requires var s := Run(g, Init(g), run); s.inc.Known? && IsRequest(s.inc.m, s.inc.granted, rs)
    ensures var s := Run(g, Init(g), run);
      var txEnd := TxEnd(g, PacketsFrom(g, 0), s.out, busy);
      Fetched(Copied(g, s.out), rs, txEnd, b) <==>
        b in Blocks(g) && Lacks(s.inc.m, b) && b.offset < txEnd && b.offset < s.out.nextOffset &&
        (b.offset < s.inc.m.recvEnd || b.offset < s.inc.granted)
  {
    hide Next, TxEnd, PacketsFrom, Blocks, IsRequest, Fetched, Lacks, Aligned, Copied, Inv;
    var s := Run(g, Init(g), run);
    var txEnd := TxEnd(g, PacketsFrom(g, 0), s.out, busy);
    InitOk(g);
    RunKeepsInv(g, Init(g), run);
    InvParts(g, s);
    CopiedAreBlocks(g, s.out);
    FetchedAmong(Copied(g, s.out), Blocks(g), rs, txEnd, b);
    ResendsFetchMissing(s.inc.m, s.inc.granted, Blocks(g), rs, txEnd, b);
    AnswerSent(g, s.out, busy, b);
  }

  lemma CopiedAreBlocks(g: Geometry, o: Out)
    requires ValidGeometry(g) && OutOk(g, PacketsFrom(g, 0), o)
    ensures forall b :: b in Copied(g, o) ==> b in Blocks(g)
  {
    hide PacketsFrom, AllSegments;
    forall b | b in Copied(g, o) ensures b in Blocks(g) {
      SegmentsOfFirst(g, PacketsFrom(g, 0), o.filled, b);
    }
  }

  /** In every run, a GRANT for the whole message makes the sender send everything that has been copied, if the
      pacer lets it through; once all is copied, that is the whole message. */
  lemma WholeGrantSends(g: Geometry, run: seq<Action>, budget: nat)
    requires ValidGeometry(g) && RegularRun(g, Init(g), run)
    requires var s := Run(g, Init(g), run);
      Enabled(g, s, GetGrant(g.length, budget)) && s.out.filled <= s.out.nextXmit + budget
    ensures var s := Run(g, Init(g), run);
      var s' := Next(g, s, GetGrant(g.length, budget));
      && s'.out.granted == g.length && s'.out.nextXmit == s.out.filled == s'.out.filled
      && (s.out.filled == |PacketsFrom(g, 0)| ==> s'.out.nextOffset == g.length)
  {
    hide Inv, PacketsFrom, Xmit, TakeGrant, Enabled;
    InitOk(g);
    RunKeepsInv(g, Init(g), run);
    var s := Run(g, Init(g), run);
    InvParts(g, s);
    GrantSends(g, s.out, budget);
  }

  // ---- Every message can be completed ----

  lemma RunOne(g: Geometry, s: State, a: Action)
    requires ValidGeometry(g) && Regular(g, s, a)
    ensures RegularRun(g, s, [a]) && Run(g, s, [a]) == Next(g, s, a)
  {
    hide Regular, Next;
    assert [a][1..] == [];
    assert Run(g, Next(g, s, a), []) == Next(g, s, a);
  }

  lemma {:induction false} RunJoin(g: Geometry, s: State, run: seq<Action>, more: seq<Action>)
    requires ValidGeometry(g) && RegularRun(g, s, run) && RegularRun(g, Run(g, s, run), more)
    ensures RegularRun(g, s, run + more) && Run(g, s, run + more) == Run(g, Run(g, s, run), more)
    decreases |run|
  {
    hide Regular, Next;
    if run == [] {
      assert run + more == more;
    } else {
      assert (run + more)[1..] == run[1..] + more && (run + more)[0] == run[0];
      RunJoin(g, Next(g, s, run[0]), run[1..], more);
    }
  }

  /** The rest of the message is copied from user space. */
  lemma {:induction false} FillUp(g: Geometry, s: State) returns (run: seq<Action>)
    requires ValidGeometry(g) && Inv(g, s)
    ensures RegularRun(g, s, run) && Inv(g, Run(g, s, run)) && Run(g, s, run).inc == s.inc
    ensures Run(g, s, run).out.filled == |PacketsFrom(g, 0)|
    decreases |PacketsFrom(g, 0)| - s.out.filled
  {
    hide PacketsFrom, IncOk, MessagesOk, CopiesOk, StartsAllowed;
    run := [];
    if s.out.filled < |PacketsFrom(g, 0)| {
      FillOk(g, s);
      RunOne(g, s, Fill);
      var more := FillUp(g, Next(g, s, Fill));
      RunJoin(g, s, [Fill], more);
      run := [Fill] + more;
    }
  }

  /** The receiver grants the whole message and the sender gets the GRANT. */
  lemma GrantAll(g: Geometry, s: State) returns (run: seq<Action>)
    requires ValidGeometry(g) && Inv(g, s) && s.inc.Known? && s.out.filled == |PacketsFrom(g, 0)|
    ensures RegularRun(g, s, run) && Inv(g, Run(g, s, run))
    ensures var s' := Run(g, s, run); s'.inc.Known? && s'.inc.m == s.inc.m && s'.out.nextOffset == g.length
  {
    hide PacketsFrom, Inv, IsRequest, TakeGrant, Xmit;
    assert 0 <= s.inc.granted <= g.length by { InvParts(g, s); }
    var s1, r1 := s, [];
    if s.inc.granted < g.length {
      r1 := [RaiseGrant(g.length)];
      RunOne(g, s, RaiseGrant(g.length));
      StepOk(g, s, RaiseGrant(g.length));
      s1 := Next(g, s, RaiseGrant(g.length));
    }
    assert s1 == Run(g, s, r1) && RegularRun(g, s, r1) && s1.inc.granted == g.length;
    RunOne(g, s1, SendGrant);
    StepOk(g, s1, SendGrant);
    var s2, n := Next(g, s1, SendGrant), |PacketsFrom(g, 0)|;
    var last := GetGrant(g.length, n);
    RunOne(g, s2, last);
    StepOk(g, s2, last);
    assert OutOk(g, PacketsFrom(g, 0), s2.out) by { InvParts(g, s2); }
    GrantSends(g, s2.out, n);
    RunJoin(g, s1, [SendGrant], [last]);
    RunJoin(g, s, r1, [SendGrant] + [last]);
    run := r1 + ([SendGrant] + [last]);
  }

  lemma GrantSends(g: Geometry, o: Out, budget: nat)
    requires ValidGeometry(g) && OutOk(g, PacketsFrom(g, 0), o) && o.filled <= o.nextXmit + budget
    ensures var o' := TakeGrant(g, PacketsFrom(g, 0), o, g.length, budget);
      && o'.granted == g.length && o'.nextXmit == o.filled == o'.filled
      && (o.filled == |PacketsFrom(g, 0)| ==> o'.nextOffset == g.length)
  {
    hide PacketsFrom, TakeGrant;
    var ps := PacketsFrom(g, 0);
    GrantTaken(g, ps, o, g.length, budget);
    var o' := TakeGrant(g, ps, o, g.length, budget);
    if o'.nextOffset >= g.length && o'.nextXmit < |ps| {
      OffNext(g, ps, o'.nextXmit);
    }
  }

  /** The given blocks of a message that has been sent arrive. */
  lemma {:induction false} ArriveAll(g: Geometry, s: State, bs: seq<Block>) returns (run: seq<Action>)
    requires ValidGeometry(g) && Inv(g, s) && s.inc.Known? && s.out.nextOffset == g.length
    requires forall b :: b in bs ==> b in Blocks(g)
    ensures RegularRun(g, s, run)
    ensures var s' := Run(g, s, run);
      s'.inc.Known? && Aligned(s'.inc.m, Blocks(g)) && s'.inc.m.length == g.length
      && (forall b :: b in Blocks(g) && (b in bs || Has(s.inc.m, b)) ==> Has(s'.inc.m, b))
    decreases |bs|
  {
    hide PacketsFrom, Inv, Aligned, Blocks, Deliver, Has;
    InvParts(g, s);
    run := [];
    if bs != [] {
      var b := bs[0];
      var a := Arrive(b, g.unscheduled, true);
      assert End(b) <= g.length by { BlockInside(g, b); }
      RunOne(g, s, a);
      StepOk(g, s, a);
      DeliverOk(s.inc.m, Arrival(b, true), Blocks(g));
      var more := ArriveAll(g, Next(g, s, a), bs[1..]);
      RunJoin(g, s, [a], more);
      run := [a] + more;
    }
  }

  lemma BlockInside(g: Geometry, b: Block)
    requires ValidGeometry(g) && b in Blocks(g)
    ensures End(b) <= g.length
  {
    hide Blocks;
    BlocksTile(g);
    TilesBounds(Blocks(g), 0, g.length);
  }

  /** In every run, from the moment the receiver knows of the message, the protocol has a continuation that
      completes it, whatever has been lost so far. */
  lemma AlwaysCompletable(g: Geometry, run: seq<Action>) returns (more: seq<Action>)
    requires ValidGeometry(g) && RegularRun(g, Init(g), run) && Run(g, Init(g), run).inc.Known?
    ensures RegularRun(g, Init(g), run + more)
    ensures var s := Run(g, Init(g), run + more); s.inc.Known? && s.inc.m.bytesRemaining == 0
  {
    hide PacketsFrom, Inv, Aligned, Blocks, Has, Next;
    InitOk(g);
    RunKeepsInv(g, Init(g), run);
    var s := Run(g, Init(g), run);
    var r1 := FillUp(g, s);
    var s1 := Run(g, s, r1);
    var r2 := GrantAll(g, s1);
    var s2 := Run(g, s1, r2);
    var r3 := ArriveAll(g, s2, Blocks(g));
    HasAll(Run(g, s2, r3).inc.m, Blocks(g));
    RunJoin(g, s1, r2, r3);
    RunJoin(g, s, r1, r2 + r3);
    RunJoin(g, Init(g), run, r1 + (r2 + r3));
    more := r1 + (r2 + r3);
  }

  // ---- The exception is real ----

  /** A message of three packets, one unscheduled. */
  const example := Geometry(3000, 1000, 1000, 1000)

  lemma ExamplePackets()
    ensures PacketsFrom(example, 0) == [Block(0, 1000), Block(1000, 1000), Block(2000, 1000)]
  {
    var g := example;
    assert PacketsFrom(g, 3000) == [];
    assert PacketsFrom(g, 2000) == [Block(2000, 1000)];
    assert PacketsFrom(g, 1000) == [Block(1000, 1000), Block(2000, 1000)];
  }

  /** The first packet is copied and sent and the receiver, which has got nothing, asks for everything
      sent so far: the sender takes all 3000 bytes to be granted although none was. */
  lemma PartlyCopiedOvergrants()
    ensures var run := [Fill, Send(1), SendResends([Resend(0, -1)])];
      && RegularRun(example, Init(example), run)
      && Enabled(example, Run(example, Init(example), run), GetResend(Resend(0, -1), {}, 0))
      && var s := Run(example, Init(example), run + [GetResend(Resend(0, -1), {}, 0)]);
         s.out.granted == 3000 && s.out.nextOffset == 1000 && Allowed(example, s) == 1000
  {
    hide Copies, PacketsFrom;
    var g := example;
    ExamplePackets();
    var s0 := Init(g);
    var s1 := Next(g, s0, Fill);
    assert s1 == State(Out(1000, 0, 0, 0, 1), NoData, {}, {}, {});
    var s2 := Next(g, s1, Send(1));
    assert s2 == State(Out(1000, 1, 1000, 0, 1), NoData, {}, {}, {});
    var s3 := Next(g, s2, SendResends([Resend(0, -1)]));
    assert s3 == State(Out(1000, 1, 1000, 0, 1), NoData, {}, {Resend(0, -1)}, {});
    var run := [Fill, Send(1), SendResends([Resend(0, -1)])];
    assert run[1..] == [Send(1), SendResends([Resend(0, -1)])] && run[1..][1..] == [SendResends([Resend(0, -1)])];
    assert run[1..][1..][1..] == [];
    assert Run(g, s0, run) == s3;
    var last := GetResend(Resend(0, -1), {}, 0);
    RunAppend(g, s0, run, last);
  }

  lemma {:induction false} RunAppend(g: Geometry, s: State, run: seq<Action>, a: Action)
    requires ValidGeometry(g)
    ensures Run(g, s, run + [a]) == Next(g, Run(g, s, run), a)
    decreases |run|
  {
    hide Next;
    if run == [] {
      assert (run + [a])[1..] == [];
    } else {
      assert (run + [a])[1..] == run[1..] + [a];
      RunAppend(g, Next(g, s, run[0]), run[1..], a);
    }
  }
}
