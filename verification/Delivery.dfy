/**
 Zero-copy delivery (homa_deliver_skbs): a complete message is handed to its reader in order,
 whatever the order in which its packets arrived.
 */
module Delivery {
  import opened Reassembly

  function PEnd(p: Packet): nat {
    p.offset + |p.data|
  }

  ghost predicate Covers(p: Packet, x: int) {
    p.offset <= x < PEnd(p)
  }

  ghost predicate Covered(ps: seq<Packet>, x: int) {
    exists i :: 0 <= i < |ps| && Covers(ps[i], x)
  }

  /** No byte is in two queued packets. */
  ghost predicate Apart(ps: seq<Packet>) {
    forall i, j :: 0 <= i < j < |ps| ==> PEnd(ps[i]) <= ps[j].offset || PEnd(ps[j]) <= ps[i].offset
  }

  /** A packet carries bytes of the message. */
  ghost predicate Carries(p: Packet, content: seq<Byte>) {
    p.data != [] && PEnd(p) <= |content| && p.data == content[p.offset..PEnd(p)]
  }

  /** The queued packets are exactly the bytes received, each once. */
  ghost predicate Holds(m: MsgIn, ps: seq<Packet>, content: seq<Byte>) {
    && Valid(m) && |content| == m.length
    && (forall i :: 0 <= i < |ps| ==> Carries(ps[i], content))
    && Apart(ps)
    && (forall x :: Covered(ps, x) <==> x in Received(m))
  }

  lemma HoldsNothing(content: seq<Byte>)
    ensures Holds(Fresh(|content|), [], content)
  {
    assert Received(Fresh(|content|)) == {};
  }

  lemma CoveredAppend(ps: seq<Packet>, p: Packet, x: int)
    ensures Covered(ps + [p], x) <==> Covered(ps, x) || Covers(p, x)
  {
    hide Covers;
    if Covered(ps, x) {
      var i :| 0 <= i < |ps| && Covers(ps[i], x);
      assert (ps + [p])[i] == ps[i];
    }
    if Covers(p, x) {
      assert (ps + [p])[|ps|] == p;
    }
  }

  /** homa_add_packet keeps the queue equal to the bytes received. */
  lemma HoldsKept(m: MsgIn, ps: seq<Packet>, p: Packet, content: seq<Byte>, memory: bool)
    requires Holds(m, ps, content) && Carries(p, content)
    ensures var (m', kept) := Add(m, p.offset, |p.data|, memory);
      Holds(m', ps + (if kept then [p] else []), content)
  {
    hide Valid, Received, Add, Covered, Range;
    AddOk(m, p.offset, |p.data|, memory);
    var (m', kept) := Add(m, p.offset, |p.data|, memory);
    if kept {
      ApartAppend(m, ps, p, content);
      forall x ensures Covered(ps + [p], x) <==> x in Received(m') {
        CoveredAppend(ps, p, x);
        assert Covers(p, x) <==> x in Range(p.offset, PEnd(p));
      }
    } else {
      assert ps + [] == ps;
    }
  }

  lemma ApartAppend(m: MsgIn, ps: seq<Packet>, p: Packet, content: seq<Byte>)
    requires Holds(m, ps, content) && p.data != [] && Received(m) !! Range(p.offset, PEnd(p))
    ensures Apart(ps + [p])
  {
    hide Valid, Received, Range;
    forall i | 0 <= i < |ps| ensures PEnd(ps[i]) <= p.offset || PEnd(p) <= ps[i].offset {
      var x := if ps[i].offset < p.offset then p.offset else ps[i].offset;
      assert Covers(ps[i], x) ==> Covered(ps, x);
      assert x in Range(p.offset, PEnd(p)) <==> p.offset <= x < PEnd(p);
    }
  }

  // ---- Sorting ----

  ghost predicate Sorted(ps: seq<Packet>) {
    forall i, j :: 0 <= i < j < |ps| ==> ps[i].offset <= ps[j].offset
  }

  ghost predicate Increasing(ps: seq<Packet>) {
    forall i, j :: 0 <= i < j < |ps| ==> ps[i].offset < ps[j].offset
  }

  /** The in-order test of homa_deliver_skbs: it accepts just the strictly increasing queues. */
  method InOrder(ps: seq<Packet>) returns (inOrder: bool)
    ensures inOrder <==> Increasing(ps)
  {
    var prev: int, i: nat := -1, 0;
    while i < |ps|
      invariant 0 <= i <= |ps| && Increasing(ps[..i])
      invariant prev == if i == 0 then -1 else ps[i - 1].offset
    {
      if ps[i].offset <= prev {
        return false;
      }
      prev, i := ps[i].offset, i + 1;
    }
    assert ps[..i] == ps;
    inOrder := true;
  }

  /** The inner loop of the insertion sort: put p in front of the first packet with a larger offset. */
  method Insert(p: Packet, sorted: seq<Packet>) returns (r: seq<Packet>)
    requires Sorted(sorted)
    ensures Sorted(r) && multiset(r) == multiset(sorted) + multiset{p}
  {
    hide Sorted;
    var k := 0;
    while k < |sorted| && sorted[k].offset <= p.offset
      invariant 0 <= k <= |sorted|
      invariant forall i :: 0 <= i < k ==> sorted[i].offset <= p.offset
    {
      k := k + 1;
    }
    r := sorted[..k] + [p] + sorted[k..];
    InsertedSorted(p, sorted, k);
    InsertedSame(p, sorted, k);
  }

  lemma InsertedSorted(p: Packet, sorted: seq<Packet>, k: nat)
    requires Sorted(sorted) && k <= |sorted| && forall i :: 0 <= i < k ==> sorted[i].offset <= p.offset
    requires k < |sorted| ==> p.offset < sorted[k].offset
    ensures Sorted(sorted[..k] + [p] + sorted[k..])
  {
    var r := sorted[..k] + [p] + sorted[k..];
    forall i, j | 0 <= i < j < |r| ensures r[i].offset <= r[j].offset {
      assert r[i] == (if i < k then sorted[i] else if i == k then p else sorted[i - 1]);
      assert r[j] == (if j < k then sorted[j] else if j == k then p else sorted[j - 1]);
    }
  }

  lemma InsertedSame(p: Packet, sorted: seq<Packet>, k: nat)
    requires k <= |sorted|
    ensures multiset(sorted[..k] + [p] + sorted[k..]) == multiset(sorted) + multiset{p}
  {
    assert sorted == sorted[..k] + sorted[k..];
  }

  /** homa_deliver_skbs up to the hand-over: the queue in order of offset, by splicing it if it is in
      order already and by insertion sort otherwise. */
  method InSequence(packets: seq<Packet>) returns (sorted: seq<Packet>)
    ensures Sorted(sorted) && multiset(sorted) == multiset(packets)
    ensures Increasing(packets) ==> sorted == packets
  {
    if |packets| > 1 {
      var inOrder := InOrder(packets);
      if inOrder {
        return packets;
      }
      var queue := packets;
      sorted := [];
      while queue != []
        invariant Sorted(sorted) && multiset(sorted) + multiset(queue) == multiset(packets)
        decreases |queue|
      {
        assert queue == [queue[0]] + queue[1..];
        sorted := Insert(queue[0], sorted);
        queue := queue[1..];
      }
    } else {
      sorted := packets;
    }
  }

  // ---- What the reader gets ----

  function Stream(ps: seq<Packet>): seq<Byte> {
    if ps == [] then [] else ps[0].data + Stream(ps[1..])
  }

  lemma {:induction false} StreamAppend(ps: seq<Packet>, p: Packet)
    ensures Stream(ps + [p]) == Stream(ps) + p.data
    decreases |ps|
  {
    if ps == [] {
      assert (ps + [p])[1..] == [] && [] + p.data == p.data == p.data + [];
    } else {
      assert (ps + [p])[1..] == ps[1..] + [p];
      StreamAppend(ps[1..], p);
      assert ps[0].data + (Stream(ps[1..]) + p.data) == ps[0].data + Stream(ps[1..]) + p.data;
    }
  }

  lemma {:induction false} CountTwo(ps: seq<Packet>, i: nat, j: nat)
    requires i < j < |ps| && ps[i] == ps[j]
    ensures multiset(ps)[ps[i]] >= 2
  {
    assert ps == ps[..i] + [ps[i]] + ps[i + 1..j] + [ps[j]] + ps[j + 1..];
  }

  lemma {:induction false} CountOne(ps: seq<Packet>, p: Packet)
    requires forall i, j :: 0 <= i < j < |ps| ==> ps[i] != ps[j]
    ensures multiset(ps)[p] <= 1
    decreases |ps|
  {
    if ps != [] {
      assert ps == [ps[0]] + ps[1..];
      CountOne(ps[1..], p);
      if p == ps[0] {
        assert p !in ps[1..];
      }
    }
  }

  /** Reordering does not make packets overlap. */
  lemma ApartPermuted(ps: seq<Packet>, qs: seq<Packet>)
    requires Apart(ps) && multiset(ps) == multiset(qs) && forall i :: 0 <= i < |ps| ==> ps[i].data != []
    ensures Apart(qs)
  {
    forall i, j | 0 <= i < j < |qs| ensures PEnd(qs[i]) <= qs[j].offset || PEnd(qs[j]) <= qs[i].offset {
      assert qs[i] in multiset(qs) && qs[j] in multiset(qs);
      assert qs[i] in ps && qs[j] in ps;
      if qs[i] == qs[j] {
        CountTwo(qs, i, j);
        CountOne(ps, qs[i]);
      }
    }
  }

  /** Packets in order that cover exactly the bytes lo..hi, each once, follow one another. */
  lemma {:induction false} SortedStream(ps: seq<Packet>, lo: nat, content: seq<Byte>)
    requires Sorted(ps) && Apart(ps) && lo <= |content|
    requires forall i :: 0 <= i < |ps| ==> Carries(ps[i], content)
    requires forall x :: Covered(ps, x) <==> lo <= x < |content|
    ensures Increasing(ps) && Stream(ps) == content[lo..]
    decreases |ps|
  {
    hide Covered, Sorted, Apart;
    if ps == [] {
      NoneCovered(ps, lo);
    } else {
      FirstPacket(ps, lo, content);
      var rest, lo' := ps[1..], PEnd(ps[0]);
      RestCovered(ps, lo, content);
      SortedStream(rest, lo', content);
      assert content[lo..] == content[lo..lo'] + content[lo'..];
    }
  }

  lemma NoneCovered(ps: seq<Packet>, x: int)
    requires ps == []
    ensures !Covered(ps, x)
  {
  }

  lemma FirstPacket(ps: seq<Packet>, lo: nat, content: seq<Byte>)
    requires Sorted(ps) && Apart(ps) && ps != [] && lo <= |content|
    requires forall i :: 0 <= i < |ps| ==> Carries(ps[i], content)
    requires forall x :: Covered(ps, x) <==> lo <= x < |content|
    ensures ps[0].offset == lo
    ensures Sorted(ps[1..]) && Apart(ps[1..])
    ensures forall i :: 0 < i < |ps| ==> PEnd(ps[0]) <= ps[i].offset
  {
    assert Covers(ps[0], ps[0].offset);
    assert Covered(ps, ps[0].offset);
    assert Covered(ps, lo);
    var i :| 0 <= i < |ps| && Covers(ps[i], lo);
    assert ps[0].offset <= ps[i].offset;
    forall i | 0 < i < |ps| ensures PEnd(ps[0]) <= ps[i].offset {
      assert ps[i].data != [] && ps[0].offset <= ps[i].offset;
    }
  }

  lemma RestCovered(ps: seq<Packet>, lo: nat, content: seq<Byte>)
    requires ps != [] && ps[0].offset == lo && ps[0].data != []
    requires forall i :: 0 < i < |ps| ==> PEnd(ps[0]) <= ps[i].offset
    requires forall x :: Covered(ps, x) <==> lo <= x < |content|
    ensures forall x :: Covered(ps[1..], x) <==> PEnd(ps[0]) <= x < |content|
  {
    forall x ensures Covered(ps[1..], x) <==> PEnd(ps[0]) <= x < |content| {
      if Covered(ps[1..], x) {
        var i :| 0 <= i < |ps[1..]| && Covers(ps[1..][i], x);
        assert Covers(ps[i + 1], x);
        assert Covered(ps, x);
      }
      if PEnd(ps[0]) <= x < |content| {
        assert Covered(ps, x);
        var i :| 0 <= i < |ps| && Covers(ps[i], x);
        assert i > 0;
        assert ps[1..][i - 1] == ps[i];
      }
    }
  }

  /** A complete message read in order of offset is the message. */
  lemma OrderedIsContent(m: MsgIn, ps: seq<Packet>, sorted: seq<Packet>, content: seq<Byte>)
    requires Holds(m, ps, content) && m.bytesRemaining == 0
    requires Sorted(sorted) && multiset(sorted) == multiset(ps)
    ensures Increasing(sorted) && Stream(sorted) == content
  {
    hide Valid, Received, Sorted, Apart, Covered, Carries, Range;
    Complete(m);
    CarriesNonEmpty(ps, content);
    ApartPermuted(ps, sorted);
    forall i | 0 <= i < |sorted| ensures Carries(sorted[i], content) {
      assert sorted[i] in multiset(sorted);
      assert sorted[i] in ps;
    }
    forall x ensures Covered(sorted, x) <==> 0 <= x < |content| {
      CoveredPermuted(ps, sorted, x);
      assert x in Range(0, m.length) <==> 0 <= x < m.length;
    }
    SortedStream(sorted, 0, content);
    assert content[0..] == content;
  }

  lemma CarriesNonEmpty(ps: seq<Packet>, content: seq<Byte>)
    requires forall i :: 0 <= i < |ps| ==> Carries(ps[i], content)
    ensures forall i :: 0 <= i < |ps| ==> ps[i].data != []
  {
  }

  lemma CoveredPermuted(ps: seq<Packet>, qs: seq<Packet>, x: int)
    requires multiset(ps) == multiset(qs)
    ensures Covered(ps, x) <==> Covered(qs, x)
  {
    if Covered(ps, x) {
      var i :| 0 <= i < |ps| && Covers(ps[i], x);
      assert ps[i] in multiset(qs);
      assert ps[i] in qs;
    }
    if Covered(qs, x) {
      var i :| 0 <= i < |qs| && Covers(qs[i], x);
      assert qs[i] in multiset(ps);
      assert qs[i] in ps;
    }
  }

  /** What is left of a message after some of its packets has at least a byte. */
  lemma {:induction false} StreamSplit(ps: seq<Packet>, k: nat)
    requires k <= |ps|
    ensures Stream(ps) == Stream(ps[..k]) + Stream(ps[k..])
    decreases |ps|
  {
    if k == 0 {
      assert ps[k..] == ps && ps[..k] == [];
    } else {
      StreamSplit(ps[1..], k - 1);
      assert ps[1..][..k - 1] == ps[..k][1..] && ps[1..][k - 1..] == ps[k..];
      var front, back := Stream(ps[..k][1..]), Stream(ps[k..]);
      assert ps[0].data + (front + back) == ps[0].data + front + back;
    }
  }

  lemma StreamGrows(ps: seq<Packet>, k: nat)
    requires k < |ps| && forall i :: 0 <= i < |ps| ==> ps[i].data != []
    ensures Stream(ps[..k]) < Stream(ps)
  {
    StreamSplit(ps, k);
    assert ps[k..][0] == ps[k];
  }

  /** The packets are handed over one by one until the reader reports an error; it takes the first `accepts`
      of them. */
  method HandOver(sorted: seq<Packet>, accepts: nat) returns (error: bool, stream: seq<Byte>)
    requires forall i :: 0 <= i < |sorted| ==> sorted[i].data != []
    ensures stream <= Stream(sorted)
    ensures (error <==> accepts < |sorted|) && (error <==> stream != Stream(sorted))
  {
    error, stream := false, [];
    var i := 0;
    while i < |sorted| && !error
      invariant 0 <= i <= |sorted| && i <= accepts && stream == Stream(sorted[..i])
      invariant error ==> i == accepts < |sorted|
      decreases |sorted| - i, !error
    {
      if i == accepts {
        error := true;
      } else {
        assert sorted[..i + 1] == sorted[..i] + [sorted[i]];
        StreamAppend(sorted[..i], sorted[i]);
        stream := stream + sorted[i].data;
        i := i + 1;
      }
    }
    if error {
      StreamGrows(sorted, i);
    } else {
      assert sorted[..i] == sorted;
    }
  }

  /** homa_deliver_skbs: a complete message that has not been delivered yet is handed to the reader. What the
      reader has taken is a prefix of the message, and the whole message unless the reader reports an error. */
  method DeliverSkbs(msg: MessageIn, accepts: nat, ghost content: seq<Byte>) returns (error: bool, stream: seq<Byte>)
    requires Holds(msg.Abs(), msg.packets, content)
    modifies msg`packets
    ensures old(msg.bytesRemaining) != 0 || old(msg.packets) == [] ==>
              !error && stream == [] && msg.packets == old(msg.packets)
    ensures old(msg.bytesRemaining) == 0 && old(msg.packets) != [] ==>
              && msg.packets == [] && stream <= content
              && (error <==> accepts < |old(msg.packets)|) && (error <==> stream != content)
  {
    hide Valid, Holds, Stream;
    if msg.bytesRemaining != 0 || |msg.packets| == 0 {
      return false, [];
    }
    var sorted := InSequence(msg.packets);
    OrderedIsContent(msg.Abs(), msg.packets, sorted, content);
    NonEmptyPackets(msg.Abs(), msg.packets, sorted, content);
    msg.packets := [];
    error, stream := HandOver(sorted, accepts);
  }

  lemma NonEmptyPackets(m: MsgIn, ps: seq<Packet>, sorted: seq<Packet>, content: seq<Byte>)
    requires Holds(m, ps, content) && multiset(sorted) == multiset(ps)
    ensures |sorted| == |ps| && forall i :: 0 <= i < |sorted| ==> sorted[i].data != []
  {
    hide Valid, Received, Apart, Covered;
    assert |sorted| == |multiset(sorted)| == |ps|;
    forall i | 0 <= i < |sorted| ensures sorted[i].data != [] {
      assert sorted[i] in multiset(sorted);
      assert sorted[i] in ps;
    }
  }
}
