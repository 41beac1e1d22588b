/**
 When a server may forget an RPC: acknowledgments between nodes over a network that loses, repeats
 and reorders packets.
 */
module AckSafety {
  import opened Basics

  const MAX_ACKS_PER_PKT := 5

  /** An RPC is named by its client and an id that the client chose. */
  datatype Rid = Rid(client: nat, id: nat)

  /** The client's side of an RPC: remaining is None until a response packet has arrived. */
  datatype Crpc = Crpc(server: nat, remaining: Option<nat>, failed: bool)

  /** The server's side of an RPC. */
  datatype Srpc = Srpc(server: nat, rid: Rid)

  /** The acks that a node has in store for another. */
  datatype Peer = Peer(src: nat, dst: nat)

  /** Packets. The acks in a packet name RPCs of its sender. */
  datatype Msg =
    | Data(src: nat, dst: nat, rid: Rid, ack: Option<nat>)
    | Ack(src: nat, dst: nat, id: nat, acks: seq<nat>)
    | NeedAck(src: nat, dst: nat, rid: Rid)
    | Resend(src: nat, dst: nat, rid: Rid)
    | Unknown(src: nat, dst: nat, rid: Rid)

  /** built holds the DATA packets that have been made for RPCs that still exist, sent or not. */
  datatype State = State(next: map<nat, nat>, clients: map<Rid, Crpc>, servers: set<Srpc>,
                         stores: map<Peer, seq<nat>>, built: set<Msg>, net: set<Msg>)

  /** The id that a node's next RPC will have. */
  function NextId(s: State, node: nat): nat {
    if node in s.next then s.next[node] else 2
  }

  predicate Used(s: State, rid: Rid) {
    rid.id < NextId(s, rid.client)
  }

  /** The RPC has been used by its client, which has received the whole response, has given up, or no
      longer has the RPC. */
  predicate Done(s: State, rid: Rid) {
    Used(s, rid) && (rid in s.clients ==> s.clients[rid].failed || s.clients[rid].remaining == Some(0))
  }

  function Store(s: State, p: Peer): seq<nat> {
    if p in s.stores then s.stores[p] else []
  }

  // ---- The store of acks of one peer ----

  /** What homa_peer_add_ack does: keep the id, or send all there is. */
  datatype Added = Kept(acks: seq<nat>) | Overflow(acks: seq<nat>)

  function AddAck(acks: seq<nat>, id: nat): Added {
    if |acks| < MAX_ACKS_PER_PKT then Kept(acks + [id]) else Overflow(acks)
  }

  /** What homa_peer_get_acks leaves, and what it takes: the youngest. */
  function GetAcks(acks: seq<nat>, count: nat): (r: (seq<nat>, seq<nat>))
    ensures r.0 + r.1 == acks && |r.1| == if count < |acks| then count else |acks|
  {
    var n := if count > |acks| then |acks| else count;
    (acks[..|acks| - n], acks[|acks| - n..])
  }

  /** The ack fields of struct homa_peer. */
  class PeerAcks {
    const acks: array<nat>
    var numAcks: nat

    ghost predicate Valid()
      reads this, acks
    {
      acks.Length == MAX_ACKS_PER_PKT && numAcks <= acks.Length
    }

    ghost function Abs(): seq<nat>
      requires Valid()
      reads this, acks
    {
      acks[..numAcks]
    }

    constructor ()
      ensures Valid() && Abs() == [] && fresh(acks)
    {
      acks := new nat[MAX_ACKS_PER_PKT];
      numAcks := 0;
    }

    /** homa_peer_add_ack: no ack is dropped, and there is never one too many. */
    method Add(id: nat) returns (overflow: Option<seq<nat>>)
      requires Valid()
      modifies this, acks
      ensures Valid()
      ensures match AddAck(old(Abs()), id)
        case Kept(a) => overflow == None && Abs() == a
        case Overflow(a) => overflow == Some(a) && Abs() == []
      ensures overflow.None? <==> |old(Abs())| < MAX_ACKS_PER_PKT
      ensures overflow.None? ==> Abs() == old(Abs()) + [id]
      ensures overflow.Some? ==> overflow.value == old(Abs()) && Abs() == []
    {
      if numAcks < MAX_ACKS_PER_PKT {
        acks[numAcks] := id;
        numAcks := numAcks + 1;
        return None;
      }
      overflow := Some(acks[..numAcks]);
      numAcks := 0;
    }

    /** homa_peer_get_acks. */
    method Get(count: nat) returns (taken: seq<nat>)
      requires Valid()
      modifies this
      ensures Valid() && (Abs(), taken) == GetAcks(old(Abs()), count)
    {
      if numAcks == 0 {
        return [];
      }
      var n := count;
      if n > numAcks {
        n := numAcks;
      }
      taken := acks[numAcks - n..numAcks];
      assert taken == Abs()[numAcks - n..] && acks[..numAcks - n] == Abs()[..numAcks - n];
      numAcks := numAcks - n;
    }
  }

  // ---- The protocol ----

  datatype Action =
    | NewRpc(client: nat, server: nat)            // homa_rpc_alloc_client
    | Build(src: nat, dst: nat, rid: Rid)         // homa_tx_data_pkt_alloc: a packet is made, with an ack
    | Transmit(m: Msg)                            // the packet is sent
    | Discard(m: Msg)                             // the packet is freed because of an error
    | GetRequest(m: Msg)                          // a request packet reaches the server
    | GetResponse(m: Msg, remaining: nat)         // a response packet reaches the client
    | Fail(rid: Rid)                              // the client gives up
    | Receive(rid: Rid)                           // homa_recvmsg returns the result
    | Abandon(rid: Rid)                           // the client's side is ended for another reason
    | AskForAck(v: Srpc)                          // the server sends NEED_ACK
    | GetNeedAck(m: Msg)                          // homa_need_ack_pkt
    | SendResend(src: nat, dst: nat, rid: Rid)    // homa_request_retrans
    | GetResend(m: Msg)                           // homa_resend_pkt
    | GetUnknown(m: Msg)                          // homa_rpc_unknown_pkt
    | GetAck(m: Msg)                              // homa_ack_pkt
    | EndServer(v: Srpc)                          // the server's side is ended for another reason

  ghost predicate Enabled(s: State, a: Action) {
    match a
    case NewRpc(_, _) => true
    case Build(src, dst, rid) =>
      (rid in s.clients && src == rid.client && dst == s.clients[rid].server) ||
      (Srpc(src, rid) in s.servers && dst == rid.client)
    case Transmit(m) => m in s.built
    case Discard(m) => m in s.built
    case GetRequest(m) => m in s.net && m.Data? && m.rid.client == m.src
    case GetResponse(m, _) => m in s.net && m.Data? && m.rid.client == m.dst
    case Fail(rid) => rid in s.clients
    case Receive(rid) => rid in s.clients && (s.clients[rid].failed || s.clients[rid].remaining == Some(0))
    case Abandon(rid) => rid in s.clients
    case AskForAck(v) => v in s.servers
    case GetNeedAck(m) => m in s.net && m.NeedAck? && m.rid.client == m.dst
    case SendResend(src, dst, rid) =>
      (rid in s.clients && src == rid.client && dst == s.clients[rid].server) ||
      (Srpc(src, rid) in s.servers && dst == rid.client)
    case GetResend(m) => m in s.net && m.Resend?
    case GetUnknown(m) => m in s.net && m.Unknown?
    case GetAck(m) => m in s.net && m.Ack?
    case EndServer(v) => v in s.servers
  }

  /** The packets without those made by a node for an RPC: what is left when the node ends the RPC. */
  function WithoutPackets(built: set<Msg>, node: nat, rid: Rid): set<Msg> {
    set m | m in built && !Made(m, node, rid)
  }

  predicate Made(m: Msg, node: nat, rid: Rid) {
    m.Data? && m.src == node && m.rid == rid
  }

  /** homa_rpc_acked. */
  function Acked(s: State, server: nat, rid: Rid): State {
    s.(servers := s.servers - {Srpc(server, rid)}, built := WithoutPackets(s.built, server, rid))
  }

  function AckedAll(s: State, server: nat, client: nat, ids: seq<nat>): State
    decreases |ids|
  {
    if ids == [] then s else AckedAll(Acked(s, server, Rid(client, ids[0])), server, client, ids[1..])
  }

  /** The effect of the ack that a DATA packet carries. */
  function Piggybacked(s: State, m: Msg): State
    requires m.Data?
  {
    if m.ack.Some? then Acked(s, m.dst, Rid(m.src, m.ack.value)) else s
  }

  /** The response has arrived so far except for `remaining` bytes; what has arrived stays. */
  function Arrived(c: Crpc, remaining: nat): Crpc {
    c.(remaining := if c.remaining.Some? && c.remaining.value <= remaining then c.remaining else Some(remaining))
  }

  function MakeData(s: State, src: nat, dst: nat, rid: Rid): State {
    var (rest, taken) := GetAcks(Store(s, Peer(src, dst)), 1);
    s.(stores := s.stores[Peer(src, dst) := rest],
       built := s.built + {Data(src, dst, rid, if taken == [] then None else Some(taken[0]))})
  }

  /** The end of homa_recvmsg for a client: the RPC will be acked, and is ended. */
  function FinishClient(s: State, rid: Rid): State
    requires rid in s.clients
  {
    var p := Peer(rid.client, s.clients[rid].server);
    var s1 := s.(clients := s.clients - {rid}, built := WithoutPackets(s.built, rid.client, rid));
    match AddAck(Store(s, p), rid.id)
    case Kept(acks) => s1.(stores := s.stores[p := acks])
    case Overflow(acks) => s1.(stores := s.stores[p := []], net := s.net + {Ack(p.src, p.dst, rid.id, acks)})
  }

  /** homa_need_ack_pkt: an ack, unless the RPC exists and has not been received completely. */
  function AnswerNeedAck(s: State, m: Msg): State
    requires m.NeedAck?
  {
    if m.rid in s.clients && s.clients[m.rid].remaining != Some(0) then
      s.(net := s.net + {Resend(m.dst, m.src, m.rid)})
    else
      var (rest, taken) := GetAcks(Store(s, Peer(m.dst, m.src)), MAX_ACKS_PER_PKT);
      s.(stores := s.stores[Peer(m.dst, m.src) := rest], net := s.net + {Ack(m.dst, m.src, m.rid.id, taken)})
  }

  /** homa_resend_pkt, as far as it answers for an RPC that does not exist. */
  function AnswerResend(s: State, m: Msg): State
    requires m.Resend?
  {
    var known := if m.rid.client == m.dst then m.rid in s.clients else Srpc(m.dst, m.rid) in s.servers;
    if known then s else s.(net := s.net + {Unknown(m.dst, m.src, m.rid)})
  }

  function Next(s: State, a: Action): State {
    match a
    case NewRpc(client, server) =>
      var rid := Rid(client, NextId(s, client));
      s.(next := s.next[client := rid.id + 2], clients := s.clients[rid := Crpc(server, None, false)])
    case Build(src, dst, rid) => MakeData(s, src, dst, rid)
    case Transmit(m) => s.(net := s.net + {m})
    case Discard(m) => s.(built := s.built - {m})
    case GetRequest(m) =>
      if m.Data? then Piggybacked(s.(servers := s.servers + {Srpc(m.dst, m.rid)}), m) else s
    case GetResponse(m, remaining) =>
      if m.Data? && m.rid in s.clients then
        Piggybacked(s.(clients := s.clients[m.rid := Arrived(s.clients[m.rid], remaining)]), m)
      else s
    case Fail(rid) => if rid in s.clients then s.(clients := s.clients[rid := s.clients[rid].(failed := true)]) else s
    case Receive(rid) => if rid in s.clients then FinishClient(s, rid) else s
    case Abandon(rid) =>
      s.(clients := s.clients - {rid}, built := WithoutPackets(s.built, rid.client, rid))
    case AskForAck(v) => s.(net := s.net + {NeedAck(v.server, v.rid.client, v.rid)})
    case GetNeedAck(m) => if m.NeedAck? then AnswerNeedAck(s, m) else s
    case SendResend(src, dst, rid) => s.(net := s.net + {Resend(src, dst, rid)})
    case GetResend(m) => if m.Resend? then AnswerResend(s, m) else s
    case GetUnknown(m) =>
      if m.Unknown? && m.rid.client == m.src then Acked(s, m.dst, m.rid) else s
    case GetAck(m) =>
      if m.Ack? then AckedAll(Acked(s, m.dst, Rid(m.src, m.id)), m.dst, m.src, m.acks) else s
    case EndServer(v) => Acked(s, v.server, v.rid)
  }

  // ---- The invariant ----

  /** All these ids of a client's RPCs are done. */
  ghost predicate AllDone(s: State, client: nat, ids: seq<nat>) {
    forall i :: 0 <= i < |ids| ==> Done(s, Rid(client, ids[i]))
  }

  ghost predicate MsgOk(s: State, m: Msg) {
    match m
    case Data(src, _, rid, ack) => Used(s, rid) && (ack.Some? ==> Done(s, Rid(src, ack.value)))
    case Ack(src, _, id, acks) => Done(s, Rid(src, id)) && AllDone(s, src, acks)
    case NeedAck(_, _, rid) => Used(s, rid)
    case Resend(_, _, rid) => Used(s, rid)
    case Unknown(src, _, rid) => Used(s, rid) && (rid.client == src ==> Done(s, rid))
  }

  ghost predicate StoresOk(s: State) {
    forall p :: p in s.stores ==> |s.stores[p]| <= MAX_ACKS_PER_PKT && AllDone(s, p.src, s.stores[p])
  }

  ghost predicate NamesOk(s: State) {
    && (forall rid :: rid in s.clients ==> Used(s, rid))
    && (forall v :: v in s.servers ==> Used(s, v.rid))
  }

  ghost predicate NetOk(s: State) {
    && (forall m :: m in s.net ==> MsgOk(s, m))
    && (forall m :: m in s.built ==> MsgOk(s, m))
  }

  /** Every ack on its way, and every ack in store, is for an RPC that is done. */
  ghost predicate Inv(s: State) {
    NamesOk(s) && StoresOk(s) && NetOk(s)
  }

  /** What is done stays done, and what is used stays used: ids are never used again. */
  ghost predicate Forward(s: State, s': State) {
    && (forall rid :: Used(s, rid) ==> Used(s', rid))
    && (forall rid :: Done(s, rid) ==> Done(s', rid))
  }

  /** In every step what is done stays done. */
  lemma StepForward(s: State, a: Action)
    requires NamesOk(s)
    ensures Forward(s, Next(s, a))
  {
    hide AddAck, GetAcks, Store;
    if a.GetAck? && a.m.Ack? {
      AckedFrame(Acked(s, a.m.dst, Rid(a.m.src, a.m.id)), a.m.dst, a.m.src, a.m.acks);
    }
  }

  lemma {:induction false} AckedFrame(s: State, server: nat, client: nat, ids: seq<nat>)
    ensures var r := AckedAll(s, server, client, ids);
      && r.next == s.next && r.clients == s.clients && r.stores == s.stores && r.net == s.net && r.built <= s.built
      && (forall v :: v in r.servers <==>
            v in s.servers && !(v.server == server && v.rid.client == client && v.rid.id in ids))
      && (forall m :: m in s.built ==>
            (m in r.built <==> !(m.Data? && m.src == server && m.rid.client == client && m.rid.id in ids)))
    decreases |ids|
  {
    if ids != [] {
      AckedFrame(Acked(s, server, Rid(client, ids[0])), server, client, ids[1..]);
    }
  }

  lemma MsgForward(s: State, s': State, m: Msg)
    requires Forward(s, s') && MsgOk(s, m)
    ensures MsgOk(s', m)
  {
  }

  /** Old packets and stores stay good. */
  lemma OldOk(s: State, s': State)
    requires Forward(s, s') && Inv(s)
    ensures forall m :: m in s.net || m in s.built ==> MsgOk(s', m)
    ensures forall p :: p in s.stores ==> |s.stores[p]| <= MAX_ACKS_PER_PKT && AllDone(s', p.src, s.stores[p])
  {
    hide MsgOk, Used, Done;
    forall m | m in s.net || m in s.built ensures MsgOk(s', m) {
      MsgForward(s, s', m);
    }
  }

  lemma StoreOk(s: State, p: Peer)
    requires StoresOk(s)
    ensures |Store(s, p)| <= MAX_ACKS_PER_PKT && AllDone(s, p.src, Store(s, p))
  {
  }

  lemma NamesStay(s: State, a: Action)
    requires Inv(s) && Enabled(s, a)
    ensures NamesOk(Next(s, a))
  {
    hide AddAck, GetAcks, Store, Done, StoresOk, AllDone, Used, MsgOk, Enabled;
    StepForward(s, a);
    if a.GetAck? && a.m.Ack? {
      AckedFrame(Acked(s, a.m.dst, Rid(a.m.src, a.m.id)), a.m.dst, a.m.src, a.m.acks);
    }
    if a.GetRequest? {
      RequestUsed(s, a.m);
    }
    if a.NewRpc? {
      NewUsed(s, a.client, a.server);
    }
  }

  lemma RequestUsed(s: State, m: Msg)
    requires NetOk(s) && Enabled(s, GetRequest(m))
    ensures m.Data? && Used(s, m.rid)
  {
    assert MsgOk(s, m);
  }

  lemma NewUsed(s: State, client: nat, server: nat)
    ensures Used(Next(s, NewRpc(client, server)), Rid(client, NextId(s, client)))
  {
  }

  /** Taking acks from a store. */
  lemma TakeOk(s: State, client: nat, acks: seq<nat>, count: nat)
    requires AllDone(s, client, acks)
    ensures AllDone(s, client, GetAcks(acks, count).0) && AllDone(s, client, GetAcks(acks, count).1)
    ensures |GetAcks(acks, count).0| <= |acks|
  {
    hide Done;
  }

  lemma BuildOk(s: State, src: nat, dst: nat, rid: Rid)
    requires Inv(s) && Enabled(s, Build(src, dst, rid))
    ensures StoresOk(MakeData(s, src, dst, rid)) && NetOk(MakeData(s, src, dst, rid))
  {
    hide Done, GetAcks, Store, MsgOk;
    var s' := MakeData(s, src, dst, rid);
    StepForward(s, Build(src, dst, rid));
    OldOk(s, s');
    StoreOk(s, Peer(src, dst));
    AllForward(s, s', src, Store(s, Peer(src, dst)));
    TakeOk(s', src, Store(s, Peer(src, dst)), 1);
    var taken := GetAcks(Store(s, Peer(src, dst)), 1).1;
    DataOk(s', src, dst, rid, taken);
  }

  lemma DataOk(s: State, src: nat, dst: nat, rid: Rid, taken: seq<nat>)
    requires Used(s, rid) && AllDone(s, src, taken)
    ensures MsgOk(s, Data(src, dst, rid, if taken == [] then None else Some(taken[0])))
  {
  }

  lemma AllForward(s: State, s': State, client: nat, ids: seq<nat>)
    requires Forward(s, s') && AllDone(s, client, ids)
    ensures AllDone(s', client, ids)
  {
    hide Used, Done;
  }

  lemma ReceiveOk(s: State, rid: Rid)
    requires Inv(s) && Enabled(s, Receive(rid))
    ensures StoresOk(FinishClient(s, rid)) && NetOk(FinishClient(s, rid))
  {
    hide Done, Store, MsgOk;
    var s' := FinishClient(s, rid);
    StepForward(s, Receive(rid));
    OldOk(s, s');
    var p := Peer(rid.client, s.clients[rid].server);
    StoreOk(s, p);
    AllForward(s, s', rid.client, Store(s, p));
    assert Done(s', rid) by { DoneHere(s, rid); }
    if AddAck(Store(s, p), rid.id).Overflow? {
      AckOk(s', p.src, p.dst, rid.id, Store(s, p));
    }
  }

  lemma DoneHere(s: State, rid: Rid)
    requires Inv(s) && Enabled(s, Receive(rid))
    ensures Done(s, rid)
  {
  }

  lemma AckOk(s: State, src: nat, dst: nat, id: nat, acks: seq<nat>)
    requires Done(s, Rid(src, id)) && AllDone(s, src, acks)
    ensures MsgOk(s, Ack(src, dst, id, acks))
  {
  }

  /** A client acks an RPC only if it has all of the response or no longer has the RPC. */
  lemma NeedAckOk(s: State, m: Msg)
    requires Inv(s) && Enabled(s, GetNeedAck(m))
    ensures StoresOk(AnswerNeedAck(s, m)) && NetOk(AnswerNeedAck(s, m))
  {
    hide GetAcks, Store, AllDone;
    var s' := AnswerNeedAck(s, m);
    StepForward(s, GetNeedAck(m));
    OldOk(s, s');
    assert MsgOk(s, m);
    var p := Peer(m.dst, m.src);
    StoreOk(s, p);
    AllForward(s, s', m.dst, Store(s, p));
    TakeOk(s', m.dst, Store(s, p), MAX_ACKS_PER_PKT);
  }

  lemma ResendOk(s: State, m: Msg)
    requires Inv(s) && Enabled(s, GetResend(m))
    ensures StoresOk(AnswerResend(s, m)) && NetOk(AnswerResend(s, m))
  {
    hide AllDone;
    var s' := AnswerResend(s, m);
    StepForward(s, GetResend(m));
    OldOk(s, s');
    assert MsgOk(s, m);
  }

  /** Steps that put at most a harmless packet into the network. */
  lemma PlainOk(s: State, a: Action)
    requires Inv(s) && Enabled(s, a)
    requires !a.Build? && !a.Receive? && !a.GetNeedAck? && !a.GetResend?
    ensures StoresOk(Next(s, a)) && NetOk(Next(s, a))
  {
    hide AllDone, Done;
    StepForward(s, a);
    OldOk(s, Next(s, a));
    if a.GetAck? {
      AckedFrame(Acked(s, a.m.dst, Rid(a.m.src, a.m.id)), a.m.dst, a.m.src, a.m.acks);
    }
  }

  lemma StepOk(s: State, a: Action)
    requires Inv(s) && Enabled(s, a)
    ensures Inv(Next(s, a))
  {
    hide NamesOk, StoresOk, NetOk, Enabled;
    NamesStay(s, a);
    match a
    case Build(src, dst, rid) => BuildOk(s, src, dst, rid);
    case Receive(rid) =>
      assert rid in s.clients by { Present(s, rid); }
      ReceiveOk(s, rid);
    case GetNeedAck(m) =>
      assert m.NeedAck? by { assert Enabled(s, a); Kind(s, a); }
      NeedAckOk(s, m);
    case GetResend(m) =>
      assert m.Resend? by { Kind(s, a); }
      ResendOk(s, m);
    case _ => PlainOk(s, a);
  }

  lemma Present(s: State, rid: Rid)
    requires Enabled(s, Receive(rid))
    ensures rid in s.clients
  {
  }

  lemma Kind(s: State, a: Action)
    requires Enabled(s, a)
    ensures a.GetNeedAck? ==> a.m.NeedAck?
    ensures a.GetResend? ==> a.m.Resend?
  {
  }

  // ---- Every run ----

  function Init(): State {
    State(map[], map[], {}, map[], {}, {})
  }

  function Run(s: State, run: seq<Action>): State
    decreases |run|
  {
    if run == [] then s else Run(Next(s, run[0]), run[1..])
  }

  ghost predicate Possible(s: State, run: seq<Action>)
    decreases |run|
  {
    run == [] || (Enabled(s, run[0]) && Possible(Next(s, run[0]), run[1..]))
  }

  lemma {:induction false} RunKeepsInv(s: State, run: seq<Action>)
    requires Inv(s) && Possible(s, run)
    ensures Inv(Run(s, run))
    decreases |run|
  {
    hide Inv, Next, Enabled;
    if run != [] {
      StepOk(s, run[0]);
      RunKeepsInv(Next(s, run[0]), run[1..]);
    }
  }

  /** Ack safety: in every run, when a step ends a server's RPC because of an ACK, an ack carried by a DATA
      packet or an RPC_UNKNOWN, its client has received the whole response, has given up, or no longer
      has the RPC. */
  lemma ServerEndsWhenDone(run: seq<Action>, a: Action, v: Srpc)
    requires Possible(Init(), run) && Enabled(Run(Init(), run), a) && !a.EndServer?
    requires v in Run(Init(), run).servers && v !in Next(Run(Init(), run), a).servers
    ensures Done(Run(Init(), run), v.rid) && Done(Next(Run(Init(), run), a), v.rid)
  {
    hide Done, Run;
    var s := Run(Init(), run);
    assert Inv(s) by {
      assert Inv(Init());
      RunKeepsInv(Init(), run);
    }
    RemovalMeansDone(s, a, v);
    StepForward(s, a);
  }

  lemma RemovalMeansDone(s: State, a: Action, v: Srpc)
    requires Inv(s) && Enabled(s, a) && !a.EndServer? && v in s.servers && v !in Next(s, a).servers
    ensures Done(s, v.rid)
  {
    hide Done, AddAck, GetAcks, Store, StoresOk;
    match a
    case GetAck(m) =>
      AckedFrame(Acked(s, m.dst, Rid(m.src, m.id)), m.dst, m.src, m.acks);
      assert MsgOk(s, m);
    case GetRequest(m) => assert MsgOk(s, m);
    case GetResponse(m, _) => assert MsgOk(s, m);
    case GetUnknown(m) => assert MsgOk(s, m);
    case _ =>
  }

  /** The step brings the server's RPC into being: a request packet for it arrives. */
  predicate Begins(a: Action, v: Srpc) {
    a.GetRequest? && a.m.Data? && v == Srpc(a.m.dst, a.m.rid)
  }

  /** The step tells v's server that v is done, or ends v: an ACK from its client names it in its header or in
      its list, a DATA packet that is not dropped carries an ack for it, or its client does not know it. */
  predicate Ends(s: State, a: Action, v: Srpc) {
    match a
    case EndServer(u) => u == v
    case GetAck(m) =>
      m.Ack? && m.dst == v.server && m.src == v.rid.client && (m.id == v.rid.id || v.rid.id in m.acks)
    case GetRequest(m) => m.Data? && m.dst == v.server && m.src == v.rid.client && m.ack == Some(v.rid.id)
    case GetResponse(m, _) =>
      m.Data? && m.rid in s.clients && m.dst == v.server && m.src == v.rid.client && m.ack == Some(v.rid.id)
    case GetUnknown(m) => m.Unknown? && m.dst == v.server && m.src == v.rid.client && m.rid == v.rid
    case _ => false
  }

  /** Which RPCs a server has after a step: exactly those it had and those the step brings into being, without
      those that the step tells it to forget. */
  lemma ServersExactly(s: State, a: Action, v: Srpc)
    requires Enabled(s, a)
    ensures v in Next(s, a).servers <==> (v in s.servers || Begins(a, v)) && !Ends(s, a, v)
  {
    hide AddAck, GetAcks, Store;
    if a.GetAck? && a.m.Ack? {
      AckedFrame(Acked(s, a.m.dst, Rid(a.m.src, a.m.id)), a.m.dst, a.m.src, a.m.acks);
    }
  }

  /** Which RPCs a client has after a step. */
  lemma ClientsExactly(s: State, a: Action, rid: Rid)
    requires Enabled(s, a)
    ensures rid in Next(s, a).clients <==>
      || (rid in s.clients && a != Receive(rid) && a != Abandon(rid))
      || (a.NewRpc? && rid == Rid(a.client, NextId(s, a.client)))
  {
    hide AddAck, GetAcks, Store;
    if a.GetAck? && a.m.Ack? {
      AckedFrame(Acked(s, a.m.dst, Rid(a.m.src, a.m.id)), a.m.dst, a.m.src, a.m.acks);
    }
  }

  /** A response packet for an RPC that the client has brings down what is missing, and never up. */
  lemma ResponseArrives(s: State, m: Msg, remaining: nat)
    requires Enabled(s, GetResponse(m, remaining)) && m.rid in s.clients
    ensures var s' := Next(s, GetResponse(m, remaining)); var c := s.clients[m.rid];
      && m.rid in s'.clients
      && s'.clients == s.clients[m.rid := c.(remaining := s'.clients[m.rid].remaining)]
      && s'.clients[m.rid].remaining.Some?
      && (c.remaining.None? ==> s'.clients[m.rid].remaining.value == remaining)
      && (c.remaining.Some? ==> s'.clients[m.rid].remaining.value
                                == if remaining < c.remaining.value then remaining else c.remaining.value)
  {
  }

  /** A RESEND is answered with RPC_UNKNOWN if and only if the node does not have the RPC. */
  lemma UnknownIff(s: State, m: Msg)
    requires Enabled(s, GetResend(m))
    ensures var known := if m.rid.client == m.dst then m.rid in s.clients else Srpc(m.dst, m.rid) in s.servers;
      Next(s, GetResend(m)) == if known then s else s.(net := s.net + {Unknown(m.dst, m.src, m.rid)})
  {
  }

  /** A NEED_ACK is answered with an ACK that names the RPC if and only if the client has received all of the
      response or no longer has the RPC, and else with a request for what is missing. */
  lemma NeedAckIff(s: State, m: Msg)
    requires Enabled(s, GetNeedAck(m))
    ensures var s' := Next(s, GetNeedAck(m));
      if m.rid in s.clients && s.clients[m.rid].remaining != Some(0)
      then s' == s.(net := s.net + {Resend(m.dst, m.src, m.rid)})
      else exists acks :: s'.net == s.net + {Ack(m.dst, m.src, m.rid.id, acks)} &&
             |acks| == (if |Store(s, Peer(m.dst, m.src))| < MAX_ACKS_PER_PKT
                        then |Store(s, Peer(m.dst, m.src))| else MAX_ACKS_PER_PKT)
  {
    hide GetAcks;
    var taken := GetAcks(Store(s, Peer(m.dst, m.src)), MAX_ACKS_PER_PKT).1;
    assert Ack(m.dst, m.src, m.rid.id, taken).acks == taken;
  }

  /** A server can always get rid of an RPC whose client has received the whole response or no longer has it,
      even if the ack was lost: it asks, and the answer ends the RPC. */
  lemma ServerCanForget(s: State, v: Srpc) returns (run: seq<Action>)
    requires v in s.servers && (v.rid in s.clients ==> s.clients[v.rid].remaining == Some(0))
    ensures Possible(s, run) && v !in Run(s, run).servers && forall i :: 0 <= i < |run| ==> !run[i].EndServer?
  {
    hide GetAcks, AckedAll;
    var need := NeedAck(v.server, v.rid.client, v.rid);
    var s1 := Next(s, AskForAck(v));
    var s2 := Next(s1, GetNeedAck(need));
    var acks := GetAcks(Store(s1, Peer(v.rid.client, v.server)), MAX_ACKS_PER_PKT).1;
    var answer := Ack(v.rid.client, v.server, v.rid.id, acks);
    assert need in s1.net && answer in s2.net;
    ServersExactly(s2, GetAck(answer), v);
    run := [AskForAck(v)] + ([GetNeedAck(need)] + ([GetAck(answer)] + []));
    Unroll(s2, GetAck(answer), []);
    Unroll(s1, GetNeedAck(need), [GetAck(answer)] + []);
    Unroll(s, AskForAck(v), [GetNeedAck(need)] + ([GetAck(answer)] + []));
  }

  // ---- When an ack is lost ----

  /** A packet tells the server that the RPC is done. */
  predicate Tells(m: Msg, rid: Rid, server: nat) {
    m.src == rid.client && m.dst == server &&
    ((m.Data? && m.ack == Some(rid.id)) || (m.Ack? && (m.id == rid.id || rid.id in m.acks)))
  }

  /** An ack for the RPC is in store. */
  predicate Stored(s: State, rid: Rid, server: nat) {
    rid.id in Store(s, Peer(rid.client, server))
  }

  /** An ack for the RPC has been sent. */
  ghost predicate Told(s: State, rid: Rid, server: nat) {
    exists m :: m in s.net && Tells(m, rid, server)
  }

  /** An ack for the RPC is in a packet that has been made and still exists. */
  ghost predicate Carried(s: State, rid: Rid, server: nat) {
    exists m :: m in s.built && Tells(m, rid, server)
  }

  ghost predicate Owed(s: State, rid: Rid, server: nat) {
    Stored(s, rid, server) || Told(s, rid, server) || Carried(s, rid, server)
  }

  /** The step frees the packet: the packet alone, or because the RPC it was made for ends. */
  predicate Frees(s: State, a: Action, m: Msg) {
    match a
    case Discard(d) => m == d
    case Receive(r) => Made(m, r.client, r)
    case Abandon(r) => Made(m, r.client, r)
    case EndServer(v) => Made(m, v.server, v.rid)
    case GetUnknown(u) => u.Unknown? && u.rid.client == u.src && Made(m, u.dst, u.rid)
    case GetAck(k) =>
      k.Ack? && m.Data? && m.src == k.dst && m.rid.client == k.src && (m.rid.id == k.id || m.rid.id in k.acks)
    case GetRequest(d) => d.Data? && d.ack.Some? && Made(m, d.dst, Rid(d.src, d.ack.value))
    case GetResponse(d, _) => d.Data? && d.rid in s.clients && d.ack.Some? && Made(m, d.dst, Rid(d.src, d.ack.value))
    case _ => false
  }

  /** A packet that exists is still there after a step unless the step frees it; packets are made by Build only. */
  lemma BuiltAfter(s: State, a: Action)
    requires Enabled(s, a)
    ensures forall m :: m in s.built ==> (m in Next(s, a).built <==> !Frees(s, a, m))
    ensures !a.Build? ==> Next(s, a).built <= s.built
  {
    hide GetAcks, Store;
    if a.GetAck? {
      AckedFrame(Acked(s, a.m.dst, Rid(a.m.src, a.m.id)), a.m.dst, a.m.src, a.m.acks);
    }
  }

  /** What a step that frees packets does to stores and network: nothing, unless it returns a result. */
  lemma FreeingFrame(s: State, a: Action, m: Msg)
    requires Enabled(s, a) && m in s.built && Frees(s, a, m)
    ensures !a.Build?
    ensures !a.Receive? ==> Next(s, a).stores == s.stores && Next(s, a).net == s.net
  {
    hide GetAcks, Store;
    if a.GetAck? {
      AckedFrame(Acked(s, a.m.dst, Rid(a.m.src, a.m.id)), a.m.dst, a.m.src, a.m.acks);
    }
  }

  /** Returning another result sends acks that were in store, and none that was not. */
  lemma ReceiveFrame(s: State, r: Rid, rid: Rid, server: nat)
    requires Enabled(s, Receive(r)) && r != rid && !Stored(s, rid, server) && !Told(s, rid, server)
    ensures !Stored(Next(s, Receive(r)), rid, server) && !Told(Next(s, Receive(r)), rid, server)
  {
  }

  /** What homa_peer_get_acks takes from the store goes into the packet. */
  lemma TakenOrKept(acks: seq<nat>, count: nat, id: nat)
    requires id in acks
    ensures id in GetAcks(acks, count).0 || id in GetAcks(acks, count).1
  {
    hide GetAcks;
    assert id in GetAcks(acks, count).0 + GetAcks(acks, count).1;
  }

  /** An ack in store stays there or goes into a packet. */
  lemma StoredStays(s: State, a: Action, rid: Rid, server: nat)
    requires Enabled(s, a) && Stored(s, rid, server)
    ensures Owed(Next(s, a), rid, server)
  {
    hide GetAcks;
    match a
    case Build(_, _, _) => StoredOrBuilt(s, a, rid, server);
    case GetNeedAck(_) => StoredOrAnswered(s, a, rid, server);
    case Receive(_) => StoredOrFlushed(s, a, rid, server);
    case GetAck(m) => AckedFrame(Acked(s, m.dst, Rid(m.src, m.id)), m.dst, m.src, m.acks);
    case _ =>
  }

  lemma StoredOrBuilt(s: State, a: Action, rid: Rid, server: nat)
    requires a.Build? && Enabled(s, a) && Stored(s, rid, server)
    ensures Owed(Next(s, a), rid, server)
  {
    hide GetAcks;
    var p := Peer(rid.client, server);
    if p == Peer(a.src, a.dst) {
      TakenOrKept(Store(s, p), 1, rid.id);
      var taken := GetAcks(Store(s, p), 1).1;
      var m := Data(a.src, a.dst, a.rid, if taken == [] then None else Some(taken[0]));
      assert m in Next(s, a).built && (rid.id in taken ==> Tells(m, rid, server));
    }
  }

  lemma StoredOrAnswered(s: State, a: Action, rid: Rid, server: nat)
    requires a.GetNeedAck? && Enabled(s, a) && Stored(s, rid, server)
    ensures Owed(Next(s, a), rid, server)
  {
    hide GetAcks;
    var n, p := a.m, Peer(rid.client, server);
    if p == Peer(n.dst, n.src) {
      TakenOrKept(Store(s, p), MAX_ACKS_PER_PKT, rid.id);
      var m := Ack(n.dst, n.src, n.rid.id, GetAcks(Store(s, p), MAX_ACKS_PER_PKT).1);
      assert m in Next(s, a).net ==> (rid.id in m.acks ==> Tells(m, rid, server));
    }
  }

  lemma StoredOrFlushed(s: State, a: Action, rid: Rid, server: nat)
    requires a.Receive? && Enabled(s, a) && Stored(s, rid, server)
    ensures Owed(Next(s, a), rid, server)
  {
    hide GetAcks;
    var r := a.rid;
    var p := Peer(r.client, s.clients[r].server);
    var m := Ack(r.client, s.clients[r].server, r.id, Store(s, p));
    assert m in Next(s, a).net && rid.id in Store(s, p) && Peer(rid.client, server) == p ==> Tells(m, rid, server);
  }

  lemma ToldStays(s: State, a: Action, rid: Rid, server: nat)
    requires Enabled(s, a) && Told(s, rid, server)
    ensures Told(Next(s, a), rid, server)
  {
    hide GetAcks, Store;
    if a.GetAck? {
      AckedFrame(Acked(s, a.m.dst, Rid(a.m.src, a.m.id)), a.m.dst, a.m.src, a.m.acks);
    }
    assert s.net <= Next(s, a).net;
  }

  /** When the ack of an RPC whose result has been returned is lost: exactly if it is neither in store nor has
      been sent, and the step frees every packet that carries it. */
  lemma AckLostIff(s: State, a: Action, rid: Rid, server: nat)
    requires Enabled(s, a) && rid !in s.clients && Owed(s, rid, server)
    ensures !Owed(Next(s, a), rid, server) <==>
            !Stored(s, rid, server) && !Told(s, rid, server) &&
            forall m :: m in s.built && Tells(m, rid, server) ==> Frees(s, a, m)
  {
    hide Next, Enabled, Frees, Stored, Tells;
    var s' := Next(s, a);
    BuiltAfter(s, a);
    if Stored(s, rid, server) {
      StoredStays(s, a, rid, server);
    } else if Told(s, rid, server) {
      ToldStays(s, a, rid, server);
    } else if m :| m in s.built && Tells(m, rid, server) && !Frees(s, a, m) {
      assert m in s'.built;
    } else {
      var m :| m in s.built && Tells(m, rid, server);
      FreeingFrame(s, a, m);
      if a.Receive? {
        assert a.rid != rid by { Present(s, a.rid); }
        ReceiveFrame(s, a.rid, rid, server);
      } else {
        StoredFrame(s, s', rid, server);
      }
    }
  }

  lemma StoredFrame(s: State, s': State, rid: Rid, server: nat)
    requires s'.stores == s.stores
    ensures Stored(s', rid, server) <==> Stored(s, rid, server)
  {
  }

  /** When homa_recvmsg returns a result, the ack is stored or sent. */
  lemma ReceiveOwes(s: State, rid: Rid)
    requires Enabled(s, Receive(rid))
    ensures Owed(Next(s, Receive(rid)), rid, s.clients[rid].server) && rid !in Next(s, Receive(rid)).clients
  {
    var s', server := Next(s, Receive(rid)), s.clients[rid].server;
    var acks := Store(s, Peer(rid.client, server));
    if |acks| >= MAX_ACKS_PER_PKT {
      var m := Ack(rid.client, server, rid.id, acks);
      assert m in s'.net && Tells(m, rid, server);
    }
  }

  /** An RPC that its client no longer has does not come back. */
  lemma {:induction false} GoneForever(s: State, run: seq<Action>, rid: Rid)
    requires Possible(s, run) && Used(s, rid) && rid !in s.clients
    ensures rid !in Run(s, run).clients
    decreases |run|
  {
    hide Next, Enabled;
    if run != [] {
      GoneStays(s, run[0], rid);
      GoneForever(Next(s, run[0]), run[1..], rid);
    }
  }

  lemma GoneStays(s: State, a: Action, rid: Rid)
    requires Enabled(s, a) && Used(s, rid) && rid !in s.clients
    ensures Used(Next(s, a), rid) && rid !in Next(s, a).clients
  {
    hide GetAcks, Store;
    if a.GetAck? {
      AckedFrame(Acked(s, a.m.dst, Rid(a.m.src, a.m.id)), a.m.dst, a.m.src, a.m.acks);
    }
  }

  /** A lost ack is made up for: whatever happens after a result has been returned, a NEED_ACK for that RPC is
      answered with an ACK for it. */
  lemma NeedAckAnswered(s: State, rid: Rid, after: seq<Action>, m: Msg)
    requires Inv(s) && Enabled(s, Receive(rid)) && Possible(Next(s, Receive(rid)), after)
    requires m.NeedAck? && m.rid == rid && Enabled(Run(Next(s, Receive(rid)), after), GetNeedAck(m))
    ensures Told(Next(Run(Next(s, Receive(rid)), after), GetNeedAck(m)), rid, m.src)
  {
    hide Run, GetAcks, Store;
    var s1 := Next(s, Receive(rid));
    assert Used(s1, rid) && rid !in s1.clients;
    GoneForever(s1, after, rid);
    var s2 := Run(s1, after);
    var ack := Ack(m.dst, m.src, m.rid.id, GetAcks(Store(s2, Peer(m.dst, m.src)), MAX_ACKS_PER_PKT).1);
    assert ack in Next(s2, GetNeedAck(m)).net && Tells(ack, rid, m.src);
  }

  // ---- An ack is lost ----

  /** Node 1 returns the result of its first RPC to node 2, which has failed, and puts the ack into the first
      packet of its second RPC; that RPC is abandoned before the packet is sent. */
  const losingRun := [NewRpc(1, 2), Fail(Rid(1, 2)), Receive(Rid(1, 2)), NewRpc(1, 2), Build(1, 2, Rid(1, 4)),
                      Abandon(Rid(1, 4))]

  lemma AckLost()
    ensures Possible(Init(), losingRun) && !Owed(Run(Init(), losingRun), Rid(1, 2), 2)
  {
    hide Enabled, Next;
    var s1 := Next(Init(), NewRpc(1, 2));
    var s2 := Next(s1, Fail(Rid(1, 2)));
    var s3 := Next(s2, Receive(Rid(1, 2)));
    FirstThree();
    LastThree(s3);
    var rest := [NewRpc(1, 2), Build(1, 2, Rid(1, 4)), Abandon(Rid(1, 4))];
    assert losingRun == [NewRpc(1, 2)] + ([Fail(Rid(1, 2))] + ([Receive(Rid(1, 2))] + rest));
    Unroll(s2, Receive(Rid(1, 2)), rest);
    Unroll(s1, Fail(Rid(1, 2)), [Receive(Rid(1, 2))] + rest);
    Unroll(Init(), NewRpc(1, 2), [Fail(Rid(1, 2))] + ([Receive(Rid(1, 2))] + rest));
  }

  lemma Unroll(s: State, a: Action, run: seq<Action>)
    ensures Run(s, [a] + run) == Run(Next(s, a), run)
    ensures Possible(s, [a] + run) <==> Enabled(s, a) && Possible(Next(s, a), run)
  {
    hide Next, Enabled;
    assert ([a] + run)[1..] == run;
  }

  lemma FirstThree()
    ensures var s1 := Next(Init(), NewRpc(1, 2)); var s2 := Next(s1, Fail(Rid(1, 2)));
      var s3 := Next(s2, Receive(Rid(1, 2)));
      && Enabled(Init(), NewRpc(1, 2)) && Enabled(s1, Fail(Rid(1, 2))) && Enabled(s2, Receive(Rid(1, 2)))
      && NextId(s3, 1) == 4 && Store(s3, Peer(1, 2)) == [2] && s3.built == {} && s3.net == {}
  {
    assert [] + [2] == [2];
  }

  lemma LastThree(s: State)
    requires NextId(s, 1) == 4 && Store(s, Peer(1, 2)) == [2] && s.built == {} && s.net == {}
    ensures var run := [NewRpc(1, 2), Build(1, 2, Rid(1, 4)), Abandon(Rid(1, 4))];
      Possible(s, run) && !Owed(Run(s, run), Rid(1, 2), 2)
  {
    var s1 := Next(s, NewRpc(1, 2));
    var s2 := Next(s1, Build(1, 2, Rid(1, 4)));
    var s3 := Next(s2, Abandon(Rid(1, 4)));
    assert s2.built == {Data(1, 2, Rid(1, 4), Some(2))} && Store(s2, Peer(1, 2)) == [];
    assert s3.built == {} && s3.net == {};
    Unroll(s2, Abandon(Rid(1, 4)), []);
    Unroll(s1, Build(1, 2, Rid(1, 4)), [Abandon(Rid(1, 4))]);
    Unroll(s, NewRpc(1, 2), [Build(1, 2, Rid(1, 4)), Abandon(Rid(1, 4))]);
    assert [Abandon(Rid(1, 4))] + [] == [Abandon(Rid(1, 4))];
    assert [Build(1, 2, Rid(1, 4))] + [Abandon(Rid(1, 4))] == [Build(1, 2, Rid(1, 4)), Abandon(Rid(1, 4))];
    assert [NewRpc(1, 2)] + [Build(1, 2, Rid(1, 4)), Abandon(Rid(1, 4))]
        == [NewRpc(1, 2), Build(1, 2, Rid(1, 4)), Abandon(Rid(1, 4))];
  }
}
