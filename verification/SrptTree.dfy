/**
 Deferred Homa packets of a network device (homa_qdisc.c): a search tree of RPCs ordered by the
 bytes they have left to transmit, which is lowered in place.
 */
module SrptTree {
  import opened Basics

  const MAX_MESSAGE_LENGTH := 1400000

  /** A deferred packet. */
  datatype Skb = Skb(id: nat, offset: nat, dataBytes: nat)

  /** struct homa_rpc_qdisc with the fields of the RPC's outgoing message that order it. */
  datatype Qrpc = Qrpc(packets: seq<Skb>, txLeft: int, initTime: nat, length: nat)

  type Rpcs = map<nat, Qrpc>

  datatype Tree = Leaf | Node(left: Tree, rpc: nat, right: Tree)

  /** What orders an RPC; its identity stands for its address. */
  datatype Key = Key(txLeft: int, initTime: nat, rpc: nat)

  function KeyOf(rs: Rpcs, r: nat): Key {
    if r in rs then Key(rs[r].txLeft, rs[r].initTime, r) else Key(MAX_MESSAGE_LENGTH, 0, r)
  }

  predicate Less(a: Key, b: Key) {
    a.txLeft < b.txLeft ||
    (a.txLeft == b.txLeft && (a.initTime < b.initTime || (a.initTime == b.initTime && a.rpc < b.rpc)))
  }

  /** homa_qdisc_precedes. */
  predicate Precedes(rs: Rpcs, a: nat, b: nat) {
    Less(KeyOf(rs, a), KeyOf(rs, b))
  }

  function Elems(t: Tree): set<nat> {
    match t
    case Leaf => {}
    case Node(l, x, r) => Elems(l) + {x} + Elems(r)
  }

  /** The tree is a search tree for the current keys. */
  ghost predicate Ordered(t: Tree, rs: Rpcs) {
    match t
    case Leaf => true
    case Node(l, x, r) =>
      && Ordered(l, rs) && Ordered(r, rs)
      && (forall y :: y in Elems(l) ==> Precedes(rs, y, x))
      && (forall y :: y in Elems(r) ==> Precedes(rs, x, y))
  }

  function Insert(t: Tree, rs: Rpcs, n: nat): Tree {
    match t
    case Leaf => Node(Leaf, n, Leaf)
    case Node(l, x, r) =>
      if Precedes(rs, n, x) then Node(Insert(l, rs, n), x, r) else Node(l, x, Insert(r, rs, n))
  }

  /** rb_first: the leftmost node. */
  function First(t: Tree): nat
    requires t.Node?
  {
    if t.left.Leaf? then t.rpc else First(t.left)
  }

  /** The tree without its leftmost node. */
  function EraseFirst(t: Tree): Tree
    requires t.Node?
  {
    if t.left.Leaf? then t.right else Node(EraseFirst(t.left), t.rpc, t.right)
  }

  // ---- The order ----

  lemma PrecedesTotal(rs: Rpcs, a: nat, b: nat)
    requires a != b
    ensures Precedes(rs, a, b) <==> !Precedes(rs, b, a)
  {
  }

  lemma PrecedesTransitive(rs: Rpcs, a: nat, b: nat, c: nat)
    requires Precedes(rs, a, b) && Precedes(rs, b, c)
    ensures Precedes(rs, a, c)
  {
  }

  lemma {:induction false} InsertOrdered(t: Tree, rs: Rpcs, n: nat)
    requires Ordered(t, rs) && n !in Elems(t)
    ensures Ordered(Insert(t, rs, n), rs) && Elems(Insert(t, rs, n)) == Elems(t) + {n}
    decreases t
  {
    hide Precedes;
    if t.Node? {
      PrecedesTotal(rs, n, t.rpc);
      if Precedes(rs, n, t.rpc) {
        InsertOrdered(t.left, rs, n);
      } else {
        InsertOrdered(t.right, rs, n);
      }
    }
  }

  /** The leftmost node precedes all others. */
  lemma {:induction false} FirstIsLeast(t: Tree, rs: Rpcs)
    requires Ordered(t, rs) && t.Node?
    ensures First(t) in Elems(t)
    ensures forall y :: y in Elems(t) && y != First(t) ==> Precedes(rs, First(t), y)
    decreases t
  {
    hide Precedes;
    if t.left.Node? {
      FirstIsLeast(t.left, rs);
      forall y | y in Elems(t.right) ensures Precedes(rs, First(t), y) {
        PrecedesTransitive(rs, First(t), t.rpc, y);
      }
    }
  }

  lemma NotSelf(rs: Rpcs, a: nat)
    ensures !Precedes(rs, a, a)
  {
  }

  lemma {:induction false} EraseFirstOrdered(t: Tree, rs: Rpcs)
    requires Ordered(t, rs) && t.Node?
    ensures Ordered(EraseFirst(t), rs) && Elems(EraseFirst(t)) == Elems(t) - {First(t)}
    decreases t
  {
    hide Precedes;
    if t.left.Leaf? {
      NotSelf(rs, t.rpc);
    } else {
      FirstIsLeast(t.left, rs);
      EraseFirstOrdered(t.left, rs);
      var f := First(t.left);
      assert Precedes(rs, f, t.rpc);
      NotSelf(rs, t.rpc);
      forall y | y in Elems(t.right) ensures y != f {
        assert Precedes(rs, t.rpc, y);
        if y == f {
          PrecedesTransitive(rs, t.rpc, f, t.rpc);
        }
      }
    }
  }

  /** The order depends on the keys of the tree's own RPCs only. */
  lemma {:induction false} OrderedFrame(t: Tree, rs: Rpcs, rs': Rpcs)
    requires Ordered(t, rs) && forall y :: y in Elems(t) ==> KeyOf(rs', y) == KeyOf(rs, y)
    ensures Ordered(t, rs')
    decreases t
  {
    if t.Node? {
      OrderedFrame(t.left, rs, rs');
      OrderedFrame(t.right, rs, rs');
    }
  }

  /** The key of the first RPC may be lowered where it stands. */
  lemma {:induction false} LowerFirst(t: Tree, rs: Rpcs, rs': Rpcs)
    requires Ordered(t, rs) && t.Node?
    requires forall y :: y in Elems(t) && y != First(t) ==> KeyOf(rs', y) == KeyOf(rs, y)
    requires KeyOf(rs', First(t)) == KeyOf(rs, First(t)) || Less(KeyOf(rs', First(t)), KeyOf(rs, First(t)))
    ensures Ordered(t, rs')
    decreases t
  {
    var f := First(t);
    FirstIsLeast(t, rs);
    FirstOnce(t, rs);
    if t.left.Leaf? {
      OrderedFrame(t.right, rs, rs');
    } else {
      LowerFirst(t.left, rs, rs');
      OrderedFrame(t.right, rs, rs');
    }
  }

  /** The first RPC is in the left part only. */
  lemma FirstOnce(t: Tree, rs: Rpcs)
    requires Ordered(t, rs) && t.Node?
    ensures First(t) !in Elems(t.right)
    ensures t.left.Node? ==> First(t) == First(t.left) && First(t) != t.rpc && First(t) in Elems(t.left)
  {
    hide Precedes;
    NotSelf(rs, t.rpc);
    if t.left.Node? {
      FirstIsLeast(t.left, rs);
      if First(t) in Elems(t.right) {
        PrecedesTransitive(rs, t.rpc, First(t), t.rpc);
      }
    }
  }

  // ---- The descent, as a loop ----

  /** A step down: the node passed, and whether to the left. */
  datatype Step = Step(node: Tree, left: bool)

  /** The tree above the place where t has been put. */
  function Zip(path: seq<Step>, t: Tree): Tree
    requires forall i :: 0 <= i < |path| ==> path[i].node.Node?
    decreases |path|
  {
    if path == [] then t
    else
      var s := path[|path| - 1];
      Zip(path[..|path| - 1],
          if s.left then Node(t, s.node.rpc, s.node.right) else Node(s.node.left, s.node.rpc, t))
  }

  /** homa_qdisc_insert_rb without rebalancing; leftmost says whether the new node is the first. */
  method InsertRb(tree: Tree, rs: Rpcs, n: nat) returns (t: Tree, leftmost: bool)
    ensures t == Insert(tree, rs, n)
    ensures leftmost <==> OnLeft(tree, rs, n)
  {
    hide Precedes;
    var path: seq<Step> := [];
    var cur := tree;
    leftmost := true;
    while cur.Node?
      invariant forall i :: 0 <= i < |path| ==> path[i].node.Node?
      invariant Zip(path, Insert(cur, rs, n)) == Insert(tree, rs, n)
      invariant leftmost && OnLeft(cur, rs, n) <==> OnLeft(tree, rs, n)
      decreases cur
    {
      var step := Step(cur, Precedes(rs, n, cur.rpc));
      assert (path + [step])[..|path|] == path;
      path := path + [step];
      if step.left {
        cur := cur.left;
      } else {
        cur := cur.right;
        leftmost := false;
      }
    }
    t := Node(Leaf, n, Leaf);
    while path != []
      invariant forall i :: 0 <= i < |path| ==> path[i].node.Node?
      invariant Zip(path, t) == Insert(tree, rs, n)
      decreases |path|
    {
      var s := path[|path| - 1];
      t := if s.left then Node(t, s.node.rpc, s.node.right) else Node(s.node.left, s.node.rpc, t);
      path := path[..|path| - 1];
    }
  }

  /** The way down for n only goes left. */
  predicate OnLeft(t: Tree, rs: Rpcs, n: nat) {
    t.Leaf? || (Precedes(rs, n, t.rpc) && OnLeft(t.left, rs, n))
  }

  lemma {:induction false} OnLeftFirst(t: Tree, rs: Rpcs, n: nat)
    ensures Insert(t, rs, n).Node?
    ensures OnLeft(t, rs, n) ==> First(Insert(t, rs, n)) == n
    ensures t.Node? && !OnLeft(t, rs, n) ==> First(Insert(t, rs, n)) == First(t)
    decreases t
  {
    hide Precedes;
    if t.Node? {
      OnLeftFirst(t.left, rs, n);
    }
  }

  // ---- The device ----

  function FirstOf(t: Tree): Option<nat> {
    if t.Leaf? then None else Some(First(t))
  }

  ghost predicate DeviceOk(t: Tree, rs: Rpcs) {
    && Ordered(t, rs)
    && (forall r :: r in Elems(t) <==> r in rs && rs[r].packets != [])
  }

  /** An RPC's queue with one more packet; the key is set only when the queue was empty. */
  function Joined(q: Qrpc, skb: Skb): Qrpc {
    var left := q.length - skb.offset;
    q.(packets := q.packets + [skb], txLeft := if q.packets == [] && left < q.txLeft then left else q.txLeft)
  }

  /** An RPC's queue without its oldest packet; the key is lowered to what is left after that packet. */
  function Dequeued(q: Qrpc): Qrpc
    requires q.packets != []
  {
    var p := q.packets[0];
    var left := q.length - (p.offset + p.dataBytes);
    q.(packets := q.packets[1..], txLeft := if left < q.txLeft then left else q.txLeft)
  }

  function SkbEnd(p: Skb): nat {
    p.offset + p.dataBytes
  }

  /** The deferred packets follow one another, and the key is the number of bytes from the first of them to
      the end of the message. */
  ghost predicate Tracks(q: Qrpc) {
    && (forall i :: 0 < i < |q.packets| ==> q.packets[i].offset == SkbEnd(q.packets[i - 1]))
    && (q.packets != [] ==> q.txLeft == q.length - q.packets[0].offset)
  }

  /** When packets are deferred in order, the key is exactly the bytes left to transmit. */
  lemma JoinTracks(q: Qrpc, skb: Skb)
    requires Tracks(q) && (q.packets != [] ==> skb.offset == SkbEnd(q.packets[|q.packets| - 1]))
    requires q.packets == [] ==> q.length - skb.offset <= q.txLeft
    ensures Tracks(Joined(q, skb))
  {
  }

  /** Sending a packet keeps it so, and the key is what is left after that packet, also for the next one that
      is deferred. */
  lemma DequeueTracks(q: Qrpc)
    requires Tracks(q) && q.packets != []
    ensures Tracks(Dequeued(q)) && Dequeued(q).txLeft == q.length - SkbEnd(q.packets[0])
  {
    var r := Dequeued(q);
    forall i | 0 < i < |r.packets| ensures r.packets[i].offset == SkbEnd(r.packets[i - 1]) {
      assert r.packets[i] == q.packets[i + 1];
    }
  }

  /** An RPC that is not in the tree gets its first packet. */
  lemma JoinOk(t: Tree, rs: Rpcs, r: nat, skb: Skb)
    requires DeviceOk(t, rs) && r in rs && rs[r].packets == []
    ensures var rs' := rs[r := Joined(rs[r], skb)]; DeviceOk(Insert(t, rs', r), rs')
  {
    hide Precedes;
    var rs' := rs[r := Joined(rs[r], skb)];
    OrderedFrame(t, rs, rs');
    InsertOrdered(t, rs', r);
  }

  /** A packet joins a queue that is not empty. */
  lemma QueueOk(t: Tree, rs: Rpcs, r: nat, skb: Skb)
    requires DeviceOk(t, rs) && r in rs && rs[r].packets != []
    ensures DeviceOk(t, rs[r := Joined(rs[r], skb)])
  {
    OrderedFrame(t, rs, rs[r := Joined(rs[r], skb)]);
  }

  /** The first RPC loses its oldest packet and its key is lowered. */
  lemma DequeueOk(t: Tree, rs: Rpcs)
    requires DeviceOk(t, rs) && t.Node?
    ensures First(t) in rs && rs[First(t)].packets != []
    ensures var q := Dequeued(rs[First(t)]);
      DeviceOk(if q.packets == [] then EraseFirst(t) else t, rs[First(t) := q])
  {
    var f := First(t);
    FirstIsLeast(t, rs);
    var q := Dequeued(rs[f]);
    if q.packets == [] {
      EraseFirstOrdered(t, rs);
      OrderedFrame(EraseFirst(t), rs, rs[f := q]);
    } else {
      LowerFirst(t, rs, rs[f := q]);
    }
  }

  /** Fewer bytes left, or as many and older; RPCs of the same age are told apart by their addresses. */
  ghost predicate FewerOrOlder(rs: Rpcs, r: nat, s: nat)
    requires r in rs && s in rs
  {
    || rs[r].txLeft < rs[s].txLeft
    || (rs[r].txLeft == rs[s].txLeft && rs[r].initTime < rs[s].initTime)
    || (rs[r].txLeft == rs[s].txLeft && rs[r].initTime == rs[s].initTime && r < s)
  }

  /** homa_qdisc_precedes by its numbers. */
  lemma PrecedesByNumbers(rs: Rpcs, r: nat, s: nat)
    requires r in rs && s in rs
    ensures Precedes(rs, r, s) <==> FewerOrOlder(rs, r, s)
  {
  }

  /** r has packets and, of all RPCs that have, the fewest bytes left to transmit; among several it is the oldest. */
  ghost predicate Chosen(rs: Rpcs, r: nat) {
    && r in rs && rs[r].packets != []
    && forall s :: s in rs && s != r && rs[s].packets != [] ==> FewerOrOlder(rs, r, s)
  }

  ghost predicate NoPackets(rs: Rpcs) {
    forall s :: s in rs ==> rs[s].packets == []
  }

  lemma FirstIsChosen(t: Tree, rs: Rpcs)
    requires DeviceOk(t, rs)
    ensures t.Leaf? <==> NoPackets(rs)
    ensures t.Node? ==> Chosen(rs, First(t))
  {
    hide Precedes, FewerOrOlder;
    if t.Node? {
      FirstIsLeast(t, rs);
      forall s | s in rs && s != First(t) && rs[s].packets != [] ensures FewerOrOlder(rs, First(t), s) {
        PrecedesByNumbers(rs, First(t), s);
      }
    }
  }

  /** In order per RPC, no packet is lost or repeated. */
  ghost predicate Accounted(rs: Rpcs, deferred: map<nat, seq<Skb>>, sent: map<nat, seq<Skb>>) {
    && deferred.Keys == sent.Keys == rs.Keys
    && forall r :: r in rs ==> deferred[r] == sent[r] + rs[r].packets
  }

  lemma NewRpcOk(t: Tree, rs: Rpcs, deferred: map<nat, seq<Skb>>, sent: map<nat, seq<Skb>>, r: nat, q: Qrpc)
    requires DeviceOk(t, rs) && Accounted(rs, deferred, sent) && r !in rs && q.packets == []
    ensures DeviceOk(t, rs[r := q]) && Accounted(rs[r := q], deferred[r := []], sent[r := []])
  {
    hide Ordered;
    OrderedFrame(t, rs, rs[r := q]);
    assert sent[r := []][r] + q.packets == [];
  }

  lemma AccountJoin(rs: Rpcs, deferred: map<nat, seq<Skb>>, sent: map<nat, seq<Skb>>, r: nat, skb: Skb)
    requires Accounted(rs, deferred, sent) && r in rs
    ensures r in deferred && Accounted(rs[r := Joined(rs[r], skb)], deferred[r := deferred[r] + [skb]], sent)
  {
    assert sent[r] + rs[r].packets + [skb] == sent[r] + (rs[r].packets + [skb]);
  }

  lemma AccountDequeue(rs: Rpcs, deferred: map<nat, seq<Skb>>, sent: map<nat, seq<Skb>>, r: nat)
    requires Accounted(rs, deferred, sent) && r in rs && rs[r].packets != []
    ensures r in sent && Accounted(rs[r := Dequeued(rs[r])], deferred, sent[r := sent[r] + [rs[r].packets[0]]])
  {
    assert rs[r].packets == [rs[r].packets[0]] + rs[r].packets[1..];
    assert sent[r] + [rs[r].packets[0]] + rs[r].packets[1..] == sent[r] + rs[r].packets;
  }

  /** struct homa_qdisc_dev as far as Homa packets are concerned. deferred and sent record, for each RPC,
      the packets that were put in and taken out. */
  class Qdev {
    var tree: Tree
    var cached: Option<nat>
    var rpcs: Rpcs
    ghost var deferred: map<nat, seq<Skb>>
    ghost var sent: map<nat, seq<Skb>>

    ghost predicate Valid()
      reads this
    {
      DeviceOk(tree, rpcs) && cached == FirstOf(tree) && Accounted(rpcs, deferred, sent)
    }

    constructor ()
      ensures Valid() && rpcs == map[]
    {
      tree, cached, rpcs, deferred, sent := Leaf, None, map[], map[], map[];
    }

    /** homa_qdisc_rpc_init. */
    method RpcInit(r: nat, length: nat, initTime: nat)
      requires Valid() && r !in rpcs
      modifies this
      ensures Valid() && rpcs == old(rpcs)[r := Qrpc([], MAX_MESSAGE_LENGTH, initTime, length)]
    {
      hide DeviceOk, Accounted;
      NewRpcOk(tree, rpcs, deferred, sent, r, Qrpc([], MAX_MESSAGE_LENGTH, initTime, length));
      rpcs := rpcs[r := Qrpc([], MAX_MESSAGE_LENGTH, initTime, length)];
      deferred, sent := deferred[r := []], sent[r := []];
    }

    /** homa_qdisc_defer_homa: the packet joins the queue of its RPC. */
    method DeferHoma(r: nat, skb: Skb)
      requires Valid() && r in rpcs
      modifies this
      ensures Valid() && rpcs == old(rpcs)[r := Joined(old(rpcs[r]), skb)]
      ensures r in old(deferred) && deferred == old(deferred)[r := old(deferred)[r] + [skb]] && sent == old(sent)
    {
      hide DeviceOk, Accounted, Insert, Precedes, First;
      AccountJoin(rpcs, deferred, sent, r, skb);
      deferred := deferred[r := deferred[r] + [skb]];
      var q := rpcs[r].(packets := rpcs[r].packets + [skb]);
      if |q.packets| == 1 {
        JoinOk(tree, rpcs, r, skb);
        var bytesLeft := q.length - skb.offset;
        if bytesLeft < q.txLeft {
          q := q.(txLeft := bytesLeft);
        }
        rpcs := rpcs[r := q];
        OnLeftFirst(tree, rpcs, r);
        var leftmost: bool;
        tree, leftmost := InsertRb(tree, rpcs, r);
        if leftmost {
          cached := Some(r);
        }
      } else {
        QueueOk(tree, rpcs, r, skb);
        rpcs := rpcs[r := q];
      }
    }

    /** homa_qdisc_get_deferred_homa: the oldest packet of the RPC with the fewest bytes left, and the oldest among
        several, if any has packets. */
    method GetDeferredHoma() returns (r: nat, skb: Option<Skb>)
      requires Valid()
      modifies this
      ensures Valid() && deferred == old(deferred)
      ensures skb.None? <==> NoPackets(old(rpcs))
      ensures skb.None? ==> unchanged(this)
      ensures skb.Some? ==> Chosen(old(rpcs), r) && skb.value == old(rpcs)[r].packets[0]
      ensures skb.Some? ==> rpcs == old(rpcs)[r := Dequeued(old(rpcs)[r])]
      ensures skb.Some? ==> r in old(sent) && sent == old(sent)[r := old(sent)[r] + [skb.value]]
    {
      hide DeviceOk, Accounted, First, EraseFirst, Precedes;
      FirstIsChosen(tree, rpcs);
      if cached.None? {
        return 0, None;
      }
      r := cached.value;
      AccountDequeue(rpcs, deferred, sent, r);
      DequeueOk(tree, rpcs);
      var q := rpcs[r];
      var p := q.packets[0];
      q := q.(packets := q.packets[1..]);
      if |q.packets| == 0 {
        tree := EraseFirst(tree);
        cached := FirstOf(tree);
      }
      var bytesLeft := q.length - (p.offset + p.dataBytes);
      if bytesLeft < q.txLeft {
        q := q.(txLeft := bytesLeft);
      }
      rpcs := rpcs[r := q];
      sent := sent[r := sent[r] + [p]];
      skb := Some(p);
    }
  }
}
