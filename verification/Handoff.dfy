/**
 How RPCs with arrived packets reach the threads that wait for messages on a socket: ready list,
 interests and the RPC_PKTS_READY flag.
 */
module Handoff {
  import opened Basics

  /** The most packets copied at a time (homa_copy_to_pool). */
  const MAX_SKBS := 20

  /** The error field of an RPC: set by homa_rpc_abort, by a fault while copying, or by homa_rpc_end. */
  datatype Error = NoError | Aborted | Faulted | Ended

  /** A shared RPC: flag is RPC_PKTS_READY, queue the number of packets not yet copied, left the bytes
      of the incoming message that are missing; seen says that a packet of it has been kept. */
  datatype Rpc = Rpc(live: bool, client: bool, flag: bool, queue: nat, left: nat, error: Error, seen: bool)

  /** Where a thread is in homa_wait_shared. */
  datatype Thread =
    | Idle                  // not waiting for a message
    | Looking               // at the top of the loop
    | Waiting               // its interest is linked to the socket
    | Assigned(rpc: nat)    // its interest has been given an RPC
    | Holding(rpc: nat)     // it has an RPC, not yet locked
    | Copying(rpc: nat)     // it has dropped the RPC's lock to copy or deliver packets

  /** What a call of homa_wait_shared gives to the application: an RPC with its message, if error is NoError,
      or with an error. */
  datatype Result = Result(rpc: nat, error: Error)

  /** A socket; actor says whether messages are delivered to an actor in the kernel as a whole rather
      than copied to the buffer pool packet by packet; log records the results returned so far. */
  datatype State = State(actor: bool, rpcs: map<nat, Rpc>, threads: map<nat, Thread>,
                         interests: seq<nat>, ready: seq<nat>, log: seq<Result>)

  datatype Action =
    | NewClient(r: nat, left: nat)                                // a request is sent
    | NewServer(r: nat, left: nat, first: bool, choice: nat)      // homa_rpc_alloc_server
    | Packet(r: nat, bytes: nat, choice: nat)                     // homa_data_pkt
    | Abort(r: nat, choice: nat)                                  // homa_rpc_abort
    | End(r: nat)                                                 // homa_rpc_end
    | Enter(t: nat)                                               // homa_wait_shared is called
    | Look(t: nat, nonblocking: bool)                             // it looks for a ready RPC
    | Wake(t: nat)                                                // its interest has become ready
    | Interrupt(t: nat)                                           // its wait is interrupted
    | Begin(t: nat)                                               // it locks its RPC
    | Resume(t: nat, fault: bool)                                 // it locks its RPC again after copying

  function Without(l: seq<nat>, x: nat): seq<nat> {
    if l == [] then [] else (if l[0] == x then [] else [l[0]]) + Without(l[1..], x)
  }

  /** homa_choose_interest may choose any. */
  function Choose(s: State, choice: nat): nat
    requires s.interests != []
  {
    s.interests[if choice < |s.interests| then choice else 0]
  }

  /** homa_choose_interest: the first whose core is not busy, or else the first. */
  method ChooseInterest(interests: seq<nat>, busy: set<nat>) returns (i: nat)
    requires interests != []
    ensures i < |interests|
    ensures interests[i] in busy ==> i == 0 && forall j :: 0 <= j < |interests| ==> interests[j] in busy
    ensures interests[i] !in busy ==> forall j :: 0 <= j < i ==> interests[j] in busy
  {
    i := 0;
    while i < |interests|
      invariant 0 <= i <= |interests| && forall j :: 0 <= j < i ==> interests[j] in busy
    {
      if interests[i] !in busy {
        return;
      }
      i := i + 1;
    }
    i := 0;
  }

  /** homa_rpc_handoff. */
  function HandOff(s: State, r: nat, choice: nat): (s': State)
    ensures s'.rpcs == s.rpcs && s'.actor == s.actor && s'.log == s.log
  {
    if s.interests != [] then
      var t := Choose(s, choice);
      s.(interests := Without(s.interests, t), threads := s.threads[t := Assigned(r)])
    else if r in s.ready then s
    else s.(ready := s.ready + [r])
  }

  /** homa_rpc_end. */
  function EndRpc(s: State, r: nat): State {
    if r in s.rpcs then
      s.(rpcs := s.rpcs[r := s.rpcs[r].(live := false, error := Ended)], ready := Without(s.ready, r))
    else s
  }

  function SetRpc(s: State, r: nat, p: Rpc): State {
    s.(rpcs := s.rpcs[r := p])
  }

  function SetThread(s: State, t: nat, p: Thread): State {
    s.(threads := s.threads[t := p])
  }

  /** A packet has been kept (or, with no bytes, discarded): the flag is set if it was not. */
  function TakePacket(s: State, r: nat, bytes: nat, choice: nat): State
    requires r in s.rpcs
  {
    var p := s.rpcs[r];
    var p1 := if bytes == 0 || bytes > p.left then p
              else p.(queue := p.queue + 1, left := p.left - bytes, seen := true);
    if p1.queue != 0 && !p1.flag then HandOff(SetRpc(s, r, p1.(flag := true)), r, choice)
    else SetRpc(s, r, p1)
  }

  /** The call returns an error, and homa_recvmsg ends the RPC. */
  function ReturnError(s: State, t: nat, r: nat, e: Error): State {
    SetThread(EndRpc(s, r).(log := s.log + [Result(r, e)]), t, Idle)
  }

  /** The end of a round of homa_wait_shared after everything there was has been dealt with: the flag is
      cleared and the error overwritten; a complete message is returned, and otherwise the thread goes on. */
  function Settle(s: State, t: nat, r: nat): State
    requires r in s.rpcs
  {
    var p := s.rpcs[r].(flag := false, error := NoError);
    var s1 := SetRpc(s, r, p);
    if p.left != 0 || p.queue != 0 then SetThread(s1, t, Looking)
    else SetThread((if p.client then EndRpc(s1, r) else s1).(log := s.log + [Result(r, NoError)]), t, Idle)
  }

  /** Packets of the RPC are taken, and its lock is dropped while they are copied; a whole message that is
      delivered leaves the queue at once, and its flag is cleared before the lock is dropped. */
  function TakeBatch(s: State, t: nat, r: nat): State
    requires r in s.rpcs
  {
    var p := s.rpcs[r];
    var p1 := if s.actor then p.(flag := false, queue := 0)
              else p.(queue := if p.queue < MAX_SKBS then 0 else p.queue - MAX_SKBS);
    SetThread(SetRpc(s, r, p1), t, Copying(r))
  }

  /** A thread has locked an RPC that has no error: homa_copy_to_pool or homa_deliver_skbs, up to where the
      lock is dropped if it is. */
  function StartCopy(s: State, t: nat, r: nat): State
    requires r in s.rpcs
  {
    if s.rpcs[r].queue == 0 || (s.actor && s.rpcs[r].left > 0) then Settle(s, t, r) else TakeBatch(s, t, r)
  }

  /** A thread has locked its RPC again after copying. */
  function ResumeCopy(s: State, t: nat, r: nat, fault: bool): State
    requires r in s.rpcs
  {
    if !s.rpcs[r].live then SetThread(s, t, Looking)
    else if fault then ReturnError(s, t, r, Faulted)
    else if s.rpcs[r].queue > 0 && !s.actor then TakeBatch(s, t, r)
    else Settle(s, t, r)
  }

  function ThreadOf(s: State, t: nat): Thread {
    if t in s.threads then s.threads[t] else Idle
  }

  ghost predicate Live(s: State, r: nat) {
    r in s.rpcs && s.rpcs[r].live
  }

  ghost predicate Enabled(s: State, a: Action) {
    match a
    case NewClient(r, _) => r !in s.rpcs
    case NewServer(r, _, _, _) => r !in s.rpcs
    case Packet(r, _, _) => Live(s, r)
    case Abort(r, _) => Live(s, r)
    case End(r) => Live(s, r)
    case Enter(t) => ThreadOf(s, t) == Idle
    case Look(t, _) => ThreadOf(s, t) == Looking
    case Wake(t) => ThreadOf(s, t).Assigned?
    case Interrupt(t) => ThreadOf(s, t) == Waiting || ThreadOf(s, t).Assigned?
    case Begin(t) => ThreadOf(s, t).Holding?
    case Resume(t, _) => ThreadOf(s, t).Copying?
  }

  function Next(s: State, a: Action): State {
    match a
    case NewClient(r, left) => SetRpc(s, r, Rpc(true, true, false, 0, left, NoError, false))
    case NewServer(r, left, first, choice) =>
      var s1 := SetRpc(s, r, Rpc(true, false, first, 0, left, NoError, false));
      if first then HandOff(s1, r, choice) else s1
    case Packet(r, bytes, choice) => if r in s.rpcs then TakePacket(s, r, bytes, choice) else s
    case Abort(r, choice) =>
      if r !in s.rpcs then s
      else if !s.rpcs[r].client then EndRpc(s, r)
      else HandOff(SetRpc(s, r, s.rpcs[r].(error := Aborted)), r, choice)
    case End(r) => EndRpc(s, r)
    case Enter(t) => SetThread(s, t, Looking)
    case Look(t, nonblocking) =>
      if s.ready != [] then SetThread(s.(ready := s.ready[1..]), t, Holding(s.ready[0]))
      else if nonblocking then SetThread(s, t, Idle)
      else SetThread(s.(interests := [t] + s.interests), t, Waiting)
    case Wake(t) => if ThreadOf(s, t).Assigned? then SetThread(s, t, Holding(ThreadOf(s, t).rpc)) else s
    case Interrupt(t) =>
      if ThreadOf(s, t).Assigned? then SetThread(s, t, Holding(ThreadOf(s, t).rpc))
      else SetThread(s.(interests := Without(s.interests, t)), t, Idle)
    case Begin(t) =>
      if !ThreadOf(s, t).Holding? || ThreadOf(s, t).rpc !in s.rpcs then s
      else
        var r := ThreadOf(s, t).rpc;
        if s.rpcs[r].error == NoError then StartCopy(s, t, r)
        else if s.rpcs[r].live then ReturnError(s, t, r, s.rpcs[r].error)
        else SetThread(s, t, Looking)
    case Resume(t, fault) =>
      if ThreadOf(s, t).Copying? && ThreadOf(s, t).rpc in s.rpcs then ResumeCopy(s, t, ThreadOf(s, t).rpc, fault) else s
  }

  // ---- The invariant ----

  /** The linked interests are those of the threads that wait. */
  ghost predicate Linked(s: State) {
    Distinct(s.interests) && forall t :: t in s.interests <==> t in s.threads && s.threads[t] == Waiting
  }

  /** A thread never waits while an RPC is ready. */
  ghost predicate NotBoth(s: State) {
    s.interests == [] || s.ready == []
  }

  ghost predicate ReadyOk(s: State) {
    Distinct(s.ready) && forall r :: r in s.ready ==> Live(s, r)
  }

  predicate Has(p: Thread, r: nat) {
    (p.Assigned? || p.Holding? || p.Copying?) && p.rpc == r
  }

  /** No bytes become missing again, and a complete message gets no more packets. */
  ghost predicate Later(p: Rpc, p': Rpc) {
    p'.left <= p.left && (p.left == 0 ==> p'.queue <= p.queue)
  }

  /** A thread's RPC exists; what is being delivered to an actor is a complete message, all of it. */
  ghost predicate ThreadOk(s: State, p: Thread) {
    && (p.Assigned? || p.Holding? || p.Copying? ==> p.rpc in s.rpcs)
    && (p.Copying? && s.actor ==> s.rpcs[p.rpc].left == 0 && s.rpcs[p.rpc].queue == 0)
  }

  ghost predicate ThreadsOk(s: State) {
    forall t :: t in s.threads ==> ThreadOk(s, s.threads[t])
  }

  /** The RPC is on the ready list, assigned to an interest, or in the hands of a thread. */
  ghost predicate Placed(s: State, r: nat) {
    r in s.ready || exists t :: t in s.threads && Has(s.threads[t], r)
  }

  /** There is something for a thread to do. */
  predicate Needs(s: State, r: nat)
    requires r in s.rpcs
  {
    s.rpcs[r].queue > 0 && (s.actor ==> s.rpcs[r].left == 0)
  }

  ghost predicate RpcOk(s: State, r: nat)
    requires r in s.rpcs
  {
    if !s.rpcs[r].live then s.rpcs[r].error == Ended
    else
      && (s.rpcs[r].flag || s.rpcs[r].error != NoError ==> Placed(s, r))
      && (Needs(s, r) ==> s.rpcs[r].flag)
      && (Whole(s.rpcs[r]) ==> Placed(s, r) || Returned(s, r))
  }

  /** The incoming message is complete. */
  predicate Whole(p: Rpc) {
    p.seen && p.left == 0
  }

  /** The message has been returned to the application. */
  ghost predicate Returned(s: State, r: nat) {
    Result(r, NoError) in s.log
  }

  ghost predicate RpcsOk(s: State) {
    forall r :: r in s.rpcs ==> RpcOk(s, r)
  }

  ghost predicate Inv(s: State) {
    Linked(s) && NotBoth(s) && ReadyOk(s) && ThreadsOk(s) && RpcsOk(s)
  }

  // ---- Lists ----

  lemma {:induction false} WithoutMembers(l: seq<nat>, x: nat)
    ensures forall y :: y in Without(l, x) <==> y in l && y != x
    decreases |l|
  {
    if l != [] {
      WithoutMembers(l[1..], x);
      assert l == [l[0]] + l[1..];
    }
  }

  lemma {:induction false} WithoutDistinct(l: seq<nat>, x: nat)
    requires Distinct(l)
    ensures Distinct(Without(l, x))
    decreases |l|
  {
    if l != [] {
      WithoutDistinct(l[1..], x);
      WithoutMembers(l[1..], x);
      assert l[0] !in l[1..];
      assert l[0] !in Without(l[1..], x);
    }
  }

  // ---- Changes to one thread or one RPC ----

  /** RPCs other than r do not notice a change of r. */
  lemma RpcFrame(s: State, r: nat, p: Rpc, q: nat)
    requires q in s.rpcs && RpcOk(s, q) && q != r
    ensures RpcOk(SetRpc(s, r, p), q)
  {
  }

  /** Placement is kept when more is placed. */
  lemma PlacedKept(s: State, s': State, r: nat)
    requires Placed(s, r)
    requires r in s.ready ==> r in s'.ready || exists t :: t in s'.threads && Has(s'.threads[t], r)
    requires forall t :: t in s.threads && Has(s.threads[t], r) ==>
               r in s'.ready || (t in s'.threads && Has(s'.threads[t], r))
    ensures Placed(s', r)
  {
    if r !in s.ready {
      var t :| t in s.threads && Has(s.threads[t], r);
    }
  }

  /** homa_rpc_handoff places its RPC and takes nothing away from the others. */
  lemma HandOffOk(s: State, r: nat, choice: nat)
    requires Linked(s) && NotBoth(s) && ReadyOk(s) && ThreadsOk(s) && Live(s, r)
    ensures var s' := HandOff(s, r, choice);
      && Linked(s') && NotBoth(s') && ReadyOk(s') && ThreadsOk(s') && Placed(s', r)
      && s'.rpcs == s.rpcs && s'.actor == s.actor
      && (forall q :: Placed(s, q) ==> Placed(s', q))
  {
    var s' := HandOff(s, r, choice);
    if s.interests != [] {
      var t := Choose(s, choice);
      WithoutMembers(s.interests, t);
      WithoutDistinct(s.interests, t);
      assert t in s.interests;
      assert Has(s'.threads[t], r);
      forall q | Placed(s, q) ensures Placed(s', q) {
        PlacedKept(s, s', q);
      }
    } else if r !in s.ready {
      assert r in s'.ready;
      forall q | Placed(s, q) ensures Placed(s', q) {
        PlacedKept(s, s', q);
      }
    }
  }

  /** An RPC is set anew and handed off. */
  lemma SetHandOffOk(s: State, r: nat, p: Rpc, choice: nat)
    requires Inv(s) && p.live && (r in s.rpcs ==> Live(s, r) && Later(s.rpcs[r], p))
    requires p.queue > 0 ==> p.flag || (s.actor && p.left > 0)
    ensures Inv(HandOff(SetRpc(s, r, p), r, choice))
  {
    hide Linked, NotBoth, Placed, Distinct;
    var s1 := SetRpc(s, r, p);
    SetRpcBase(s, r, p);
    HandOffOk(s1, r, choice);
    var s' := HandOff(s1, r, choice);
    forall q | q in s'.rpcs && q != r ensures RpcOk(s', q) {
      RpcFrame(s, r, p, q);
    }
  }

  lemma SetRpcBase(s: State, r: nat, p: Rpc)
    requires Linked(s) && NotBoth(s) && ReadyOk(s) && ThreadsOk(s)
    requires p.live && (r in s.rpcs ==> Live(s, r) && Later(s.rpcs[r], p))
    ensures var s1 := SetRpc(s, r, p); Linked(s1) && NotBoth(s1) && ReadyOk(s1) && ThreadsOk(s1)
    ensures forall q :: Placed(s, q) <==> Placed(SetRpc(s, r, p), q)
  {
    hide Distinct;
  }

  /** An RPC is changed without being handed off. */
  lemma SetRpcOk(s: State, r: nat, p: Rpc)
    requires Inv(s) && p.live && (r in s.rpcs ==> Live(s, r) && Later(s.rpcs[r], p))
    requires p.flag || p.error != NoError ==> r in s.rpcs && (s.rpcs[r].flag || s.rpcs[r].error != NoError)
    requires p.queue > 0 ==> p.flag || (s.actor && p.left > 0)
    requires Whole(p) ==> r in s.rpcs && (s.rpcs[r].flag || s.rpcs[r].error != NoError || Whole(s.rpcs[r]))
    ensures Inv(SetRpc(s, r, p))
  {
    hide Linked, NotBoth, Placed, Distinct;
    SetRpcBase(s, r, p);
    forall q | q in s.rpcs && q != r ensures RpcOk(SetRpc(s, r, p), q) {
      RpcFrame(s, r, p, q);
    }
  }

  lemma EndRpcOk(s: State, r: nat)
    requires Inv(s) && Live(s, r)
    ensures Inv(EndRpc(s, r))
  {
    hide Distinct;
    var s' := EndRpc(s, r);
    WithoutMembers(s.ready, r);
    WithoutDistinct(s.ready, r);
    forall q | q in s'.rpcs && q != r ensures RpcOk(s', q) {
      if Live(s, q) && Placed(s, q) {
        PlacedKept(s, s', q);
      }
    }
  }

  /** A thread that does not wait moves on; the RPC it leaves, if any, needs no attention. */
  lemma SetThreadOk(s: State, t: nat, p: Thread)
    requires Inv(s) && ThreadOf(s, t) != Waiting && p != Waiting
    requires ThreadOk(s, p)
    requires forall r :: Has(ThreadOf(s, t), r) && !Has(p, r) ==>
               !Live(s, r) || (!s.rpcs[r].flag && s.rpcs[r].error == NoError && (Whole(s.rpcs[r]) ==> Returned(s, r)))
    ensures Inv(SetThread(s, t, p))
  {
    hide Distinct, Whole;
    var s' := SetThread(s, t, p);
    forall r | r in s'.rpcs ensures RpcOk(s', r) {
      if Live(s, r) && Placed(s, r) && (Has(ThreadOf(s, t), r) ==> Has(p, r)) {
        PlacedKept(s, s', r);
      }
    }
  }

  /** A thread takes the first ready RPC. */
  lemma TakeReadyOk(s: State, t: nat)
    requires Inv(s) && ThreadOf(s, t) == Looking && s.ready != []
    ensures Inv(SetThread(s.(ready := s.ready[1..]), t, Holding(s.ready[0])))
  {
    hide Distinct;
    var first, s1 := s.ready[0], s.(ready := s.ready[1..]);
    var s' := SetThread(s1, t, Holding(first));
    assert s.ready == [first] + s.ready[1..] && first in s.ready;
    assert Distinct(s.ready[1..]) by { TailDistinct(s.ready); }
    assert forall x :: x in s.ready[1..] ==> x in s.ready;
    assert s'.threads[t] == Holding(first);
    forall r | r in s'.rpcs ensures RpcOk(s', r) {
      if Live(s, r) && Placed(s, r) {
        if r == first {
          assert Has(s'.threads[t], r);
        }
        PlacedKept(s, s', r);
      }
    }
  }

  lemma TailDistinct(l: seq<nat>)
    requires Distinct(l) && l != []
    ensures Distinct(l[1..])
  {
  }

  /** A thread begins to wait when no RPC is ready. */
  lemma WaitOk(s: State, t: nat)
    requires Inv(s) && ThreadOf(s, t) == Looking && s.ready == []
    ensures Inv(SetThread(s.(interests := [t] + s.interests), t, Waiting))
  {
    var s' := SetThread(s.(interests := [t] + s.interests), t, Waiting);
    forall r | r in s'.rpcs ensures RpcOk(s', r) {
      if Live(s, r) && Placed(s, r) {
        PlacedKept(s, s', r);
      }
    }
  }

  /** A wait is interrupted before an RPC has been assigned. */
  lemma UnlinkOk(s: State, t: nat)
    requires Inv(s) && ThreadOf(s, t) == Waiting
    ensures Inv(SetThread(s.(interests := Without(s.interests, t)), t, Idle))
  {
    hide Distinct;
    var s' := SetThread(s.(interests := Without(s.interests, t)), t, Idle);
    WithoutMembers(s.interests, t);
    WithoutDistinct(s.interests, t);
    forall r | r in s'.rpcs ensures RpcOk(s', r) {
      if Live(s, r) && Placed(s, r) {
        PlacedKept(s, s', r);
      }
    }
  }

  /** A thread that has an RPC keeps an RPC that exists. */
  lemma OwnRpc(s: State, t: nat)
    requires Inv(s) && (ThreadOf(s, t).Assigned? || ThreadOf(s, t).Holding? || ThreadOf(s, t).Copying?)
    ensures ThreadOf(s, t).rpc in s.rpcs
  {
    hide Linked, ReadyOk, RpcsOk;
    assert ThreadOk(s, s.threads[t]);
  }

  lemma LogOk(s: State, log: seq<Result>)
    requires Inv(s) && s.log <= log
    ensures Inv(s.(log := log))
  {
    hide Distinct, Linked, Needs;
    var s' := s.(log := log);
    assert Linked(s') by { LinkedLog(s, log); }
    forall r | r in s'.rpcs ensures RpcOk(s', r) {
      NeedsLog(s, log, r);
      if Placed(s, r) {
        PlacedKept(s, s', r);
      }
    }
    forall t | t in s'.threads ensures ThreadOk(s', s'.threads[t]) {
      assert ThreadOk(s, s.threads[t]);
    }
  }

  lemma LinkedLog(s: State, log: seq<Result>)
    ensures Linked(s) ==> Linked(s.(log := log))
  {
  }

  lemma NeedsLog(s: State, log: seq<Result>, r: nat)
    requires r in s.rpcs
    ensures Needs(s.(log := log), r) <==> Needs(s, r)
  {
  }

  lemma ReturnErrorOk(s: State, t: nat, r: nat, e: Error)
    requires Inv(s) && Live(s, r) && Has(ThreadOf(s, t), r)
    ensures Inv(ReturnError(s, t, r, e))
  {
    hide Inv;
    EndRpcOk(s, r);
    LogOk(EndRpc(s, r), s.log + [Result(r, e)]);
    SetThreadOk(EndRpc(s, r).(log := s.log + [Result(r, e)]), t, Idle);
  }

  /** A thread that has dealt with what there was may clear the flag and leave the RPC. */
  lemma SettleOk(s: State, t: nat, r: nat)
    requires Inv(s) && Live(s, r) && Has(ThreadOf(s, t), r)
    requires s.rpcs[r].queue == 0 || (s.actor && s.rpcs[r].left > 0)
    ensures Inv(Settle(s, t, r))
  {
    hide Inv;
    var p := s.rpcs[r].(flag := false, error := NoError);
    var s1 := SetRpc(s, r, p);
    SetRpcOk(s, r, p);
    if p.left != 0 || p.queue != 0 {
      SetThreadOk(s1, t, Looking);
    } else {
      var log := s.log + [Result(r, NoError)];
      if p.client {
        EndRpcOk(s1, r);
        LogOk(EndRpc(s1, r), log);
        SetThreadOk(EndRpc(s1, r).(log := log), t, Idle);
      } else {
        LogOk(s1, log);
        SetThreadOk(s1.(log := log), t, Idle);
      }
    }
  }

  /** A thread that has dealt with all of a complete message returns it; a client's RPC ends with that. */
  lemma SettleReturns(s: State, t: nat, r: nat)
    requires Live(s, r) && s.rpcs[r].left == 0 && s.rpcs[r].queue == 0
    ensures var s' := Settle(s, t, r);
      && s'.log == s.log + [Result(r, NoError)] && ThreadOf(s', t) == Idle
      && r in s'.rpcs && !s'.rpcs[r].flag && (Live(s', r) <==> !s.rpcs[r].client)
  {
    hide Without;
  }

  lemma TakeBatchOk(s: State, t: nat, r: nat)
    requires Inv(s) && Live(s, r) && Has(ThreadOf(s, t), r) && (s.actor ==> s.rpcs[r].left == 0)
    ensures Inv(TakeBatch(s, t, r))
  {
    hide Linked, NotBoth, ReadyOk, ThreadsOk, Placed;
    var p := s.rpcs[r];
    assert RpcOk(s, r);
    var p1 := if s.actor then p.(flag := false, queue := 0)
              else p.(queue := if p.queue < MAX_SKBS then 0 else p.queue - MAX_SKBS);
    SetRpcOk(s, r, p1);
    SetThreadOk(SetRpc(s, r, p1), t, Copying(r));
  }

  lemma DeadHasError(s: State, r: nat)
    requires Inv(s) && r in s.rpcs
    ensures !s.rpcs[r].live ==> s.rpcs[r].error == Ended
  {
    hide Linked, ReadyOk, ThreadsOk, Placed;
    assert RpcOk(s, r);
  }

  lemma DeliveredOnce(s: State, t: nat, r: nat)
    requires Inv(s) && ThreadOf(s, t) == Copying(r) && s.actor
    ensures r in s.rpcs && s.rpcs[r].queue == 0
  {
    hide Linked, ReadyOk, RpcsOk;
    assert ThreadOk(s, s.threads[t]);
  }

  lemma BeginOk(s: State, t: nat)
    requires Inv(s) && ThreadOf(s, t).Holding?
    ensures Inv(Next(s, Begin(t)))
  {
    hide Inv, Settle, TakeBatch, ReturnError;
    OwnRpc(s, t);
    var r := ThreadOf(s, t).rpc;
    DeadHasError(s, r);
    if s.rpcs[r].error == NoError {
      if s.rpcs[r].queue == 0 || (s.actor && s.rpcs[r].left > 0) {
        SettleOk(s, t, r);
      } else {
        TakeBatchOk(s, t, r);
      }
    } else if s.rpcs[r].live {
      ReturnErrorOk(s, t, r, s.rpcs[r].error);
    } else {
      SetThreadOk(s, t, Looking);
    }
  }

  lemma ResumeOk(s: State, t: nat, fault: bool)
    requires Inv(s) && ThreadOf(s, t).Copying?
    ensures Inv(Next(s, Resume(t, fault)))
  {
    hide Inv, Settle, TakeBatch, ReturnError;
    OwnRpc(s, t);
    var r := ThreadOf(s, t).rpc;
    if !s.rpcs[r].live {
      SetThreadOk(s, t, Looking);
    } else if fault {
      ReturnErrorOk(s, t, r, Faulted);
    } else if s.rpcs[r].queue > 0 && !s.actor {
      TakeBatchOk(s, t, r);
    } else {
      if s.actor {
        DeliveredOnce(s, t, r);
      }
      SettleOk(s, t, r);
    }
  }

  lemma PacketOk(s: State, r: nat, bytes: nat, choice: nat)
    requires Inv(s) && Live(s, r)
    ensures Inv(TakePacket(s, r, bytes, choice))
  {
    hide Linked, NotBoth, ReadyOk, ThreadsOk, Placed;
    var p := s.rpcs[r];
    var p1 := if bytes == 0 || bytes > p.left then p
              else p.(queue := p.queue + 1, left := p.left - bytes, seen := true);
    assert RpcOk(s, r);
    if p1.queue != 0 && !p1.flag {
      SetHandOffOk(s, r, p1.(flag := true), choice);
    } else {
      SetRpcOk(s, r, p1);
    }
  }

  /** A packet with bytes that are missing is queued, and then the RPC is flagged; nothing else changes. */
  lemma PacketCounted(s: State, r: nat, bytes: nat, choice: nat)
    requires Live(s, r)
    ensures var s' := TakePacket(s, r, bytes, choice); var p := s.rpcs[r];
      && r in s'.rpcs && s'.rpcs == s.rpcs[r := s'.rpcs[r]] && s'.log == s.log
      && (0 < bytes <= p.left ==>
            s'.rpcs[r] == p.(flag := true, queue := p.queue + 1, left := p.left - bytes, seen := true))
      && (bytes == 0 || bytes > p.left ==> s'.rpcs[r] == p.(flag := p.flag || p.queue > 0))
  {
    hide Without;
  }

  lemma LookOk(s: State, t: nat, nonblocking: bool)
    requires Inv(s) && ThreadOf(s, t) == Looking
    ensures Inv(Next(s, Look(t, nonblocking)))
  {
    hide Inv;
    if s.ready != [] {
      TakeReadyOk(s, t);
    } else if nonblocking {
      SetThreadOk(s, t, Idle);
    } else {
      WaitOk(s, t);
    }
  }

  /** Every step keeps the invariant. */
  lemma StepOk(s: State, a: Action)
    requires Inv(s) && Enabled(s, a)
    ensures Inv(Next(s, a))
  {
    hide Linked, NotBoth, ReadyOk, RpcsOk;
    match a
    case NewClient(r, left) => SetRpcOk(s, r, Rpc(true, true, false, 0, left, NoError, false));
    case NewServer(r, left, first, choice) =>
      var p := Rpc(true, false, first, 0, left, NoError, false);
      if first {
        SetHandOffOk(s, r, p, choice);
      } else {
        SetRpcOk(s, r, p);
      }
    case Packet(r, bytes, choice) => PacketOk(s, r, bytes, choice);
    case Abort(r, choice) => AbortOk(s, r, choice);
    case End(r) => EndRpcOk(s, r);
    case Enter(t) => SetThreadOk(s, t, Looking);
    case Look(t, nonblocking) => LookOk(s, t, nonblocking);
    case Wake(t) =>
      OwnRpc(s, t);
      SetThreadOk(s, t, Holding(ThreadOf(s, t).rpc));
    case Interrupt(t) =>
      if ThreadOf(s, t) == Waiting {
        UnlinkOk(s, t);
      } else {
        OwnRpc(s, t);
        SetThreadOk(s, t, Holding(ThreadOf(s, t).rpc));
      }
    case Begin(t) => BeginOk(s, t);
    case Resume(t, fault) => ResumeOk(s, t, fault);
  }

  lemma AbortOk(s: State, r: nat, choice: nat)
    requires Inv(s) && Live(s, r)
    ensures Inv(Next(s, Abort(r, choice)))
  {
    hide Linked, NotBoth, ReadyOk, ThreadsOk, Placed;
    assert RpcOk(s, r);
    if s.rpcs[r].client {
      SetHandOffOk(s, r, s.rpcs[r].(error := Aborted), choice);
    } else {
      EndRpcOk(s, r);
    }
  }

  // ---- Every run ----

  function Init(actor: bool): State {
    State(actor, map[], map[], [], [], [])
  }

  function Run(s: State, run: seq<Action>): State
    decreases |run|
  {
    if run == [] then s else Run(Next(s, run[0]), run[1..])
  }

  ghost predicate Possible(s: State, run: seq<Action>)
    decreases |run|
  {
    run == [] || (Enabled(s, run[0]) && Possible(Next(s, run[0]), run[1..]))
  }

  lemma {:induction false} RunKeepsInv(s: State, run: seq<Action>)
    requires Inv(s) && Possible(s, run)
    ensures Inv(Run(s, run))
    decreases |run|
  {
    hide Inv, Next, Enabled;
    if run != [] {
      StepOk(s, run[0]);
      RunKeepsInv(Next(s, run[0]), run[1..]);
    }
  }

  /** No handoff is lost: in every run, also when waits are interrupted, no thread waits while an RPC is
      ready; and a live RPC with packets to be dealt with has its flag set, and one with its flag set or
      with an error is on the ready list, assigned to an interest, or in the hands of a thread; and so is one with a
      complete message, request or response, unless the message has been returned. */
  lemma NoHandoffLost(actor: bool, run: seq<Action>, r: nat)
    requires Possible(Init(actor), run)
    ensures var s := Run(Init(actor), run);
      && (s.interests == [] || s.ready == [])
      && (Live(s, r) && Needs(s, r) ==> s.rpcs[r].flag)
      && (Live(s, r) && (s.rpcs[r].flag || s.rpcs[r].error != NoError) ==> Placed(s, r))
      && (Live(s, r) && s.rpcs[r].seen && s.rpcs[r].left == 0 ==> Placed(s, r) || Result(r, NoError) in s.log)
  {
    hide Run, Next, Placed;
    assert Inv(Init(actor));
    RunKeepsInv(Init(actor), run);
    var s := Run(Init(actor), run);
    if r in s.rpcs {
      assert RpcOk(s, r);
    }
  }

  // ---- First come, first served ----

  /** x stands before y. */
  ghost predicate Before(l: seq<nat>, x: nat, y: nat) {
    exists i, j :: 0 <= i < j < |l| && l[i] == x && l[j] == y
  }

  lemma {:induction false} WithoutOrder(l: seq<nat>, x: nat, y: nat, z: nat)
    requires Before(Without(l, z), x, y)
    ensures Before(l, x, y)
    decreases |l|
  {
    var r := Without(l, z);
    var i, j :| 0 <= i < j < |r| && r[i] == x && r[j] == y;
    var rest := Without(l[1..], z);
    if l[0] == z {
      assert r == rest;
      WithoutOrder(l[1..], x, y, z);
      BeforeLater(l, x, y);
    } else if i == 0 {
      assert r[j] == rest[j - 1] && y in rest;
      WithoutMembers(l[1..], z);
      var k :| 0 <= k < |l[1..]| && l[1..][k] == y;
      assert l[0] == x && l[k + 1] == y;
    } else {
      assert rest[i - 1] == x && rest[j - 1] == y;
      WithoutOrder(l[1..], x, y, z);
      BeforeLater(l, x, y);
    }
  }

  lemma BeforeLater(l: seq<nat>, x: nat, y: nat)
    requires l != [] && Before(l[1..], x, y)
    ensures Before(l, x, y)
  {
    var i, j :| 0 <= i < j < |l[1..]| && l[1..][i] == x && l[1..][j] == y;
    assert l[i + 1] == x && l[j + 1] == y;
  }

  /** How a step changes the ready list: RPCs leave it, one may join it at the end. */
  ghost predicate Queues(l: seq<nat>, l': seq<nat>) {
    && (forall x, y :: Before(l', x, y) && y in l ==> Before(l, x, y))
    && (forall k :: 0 <= k < |l'| && l'[k] !in l ==> k == |l'| - 1)
  }

  lemma QueuesSame(l: seq<nat>)
    ensures Queues(l, l)
  {
    forall k | 0 <= k < |l| ensures l[k] in l {
    }
  }

  lemma QueuesTail(l: seq<nat>)
    requires l != []
    ensures Queues(l, l[1..])
  {
    forall x, y | Before(l[1..], x, y) ensures Before(l, x, y) {
      BeforeLater(l, x, y);
    }
    forall k | 0 <= k < |l[1..]| ensures l[1..][k] in l {
      assert l[1..][k] == l[k + 1];
    }
  }

  lemma QueuesWithout(l: seq<nat>, z: nat)
    ensures Queues(l, Without(l, z))
  {
    hide Before;
    WithoutMembers(l, z);
    forall x, y | Before(Without(l, z), x, y) ensures Before(l, x, y) {
      WithoutOrder(l, x, y, z);
    }
    forall k | 0 <= k < |Without(l, z)| ensures Without(l, z)[k] in l {
      assert Without(l, z)[k] in Without(l, z);
    }
  }

  lemma QueuesAppend(l: seq<nat>, r: nat)
    requires r !in l
    ensures Queues(l, l + [r])
  {
    var l' := l + [r];
    forall x, y | Before(l', x, y) && y in l ensures Before(l, x, y) {
      var i, j :| 0 <= i < j < |l'| && l'[i] == x && l'[j] == y;
      assert j < |l| && l[i] == x && l[j] == y;
    }
    forall k | 0 <= k < |l| ensures l'[k] in l {
      assert l'[k] == l[k];
    }
  }

  /** RPCs are taken from the ready list in the order in which they became ready. */
  lemma FirstComeFirstServed(s: State, a: Action)
    requires Enabled(s, a)
    ensures Queues(s.ready, Next(s, a).ready)
    ensures a.Look? && s.ready != [] ==> ThreadOf(Next(s, a), a.t) == Holding(s.ready[0])
  {
    hide Queues, Without;
    var l := s.ready;
    QueuesSame(l);
    if l != [] {
      QueuesTail(l);
    }
    var r := Subject(s, a);
    QueuesWithout(l, r);
    if r !in l {
      QueuesAppend(l, r);
    }
    ReadyIs(s, a);
  }

  /** The RPC that a step is about. */
  function Subject(s: State, a: Action): nat {
    match a
    case NewServer(r, _, _, _) => r
    case Packet(r, _, _) => r
    case Abort(r, _) => r
    case End(r) => r
    case Begin(t) => if ThreadOf(s, t).Holding? then ThreadOf(s, t).rpc else 0
    case Resume(t, _) => if ThreadOf(s, t).Copying? then ThreadOf(s, t).rpc else 0
    case _ => 0
  }

  lemma ReadyIs(s: State, a: Action)
    requires Enabled(s, a)
    ensures var l, l', r := s.ready, Next(s, a).ready, Subject(s, a);
      l' == l || (a.Look? && l != [] && l' == l[1..]) || l' == Without(l, r) || (r !in l && l' == l + [r])
  {
    hide Without;
  }

  // ---- What is returned ----

  /** What a step returns to the application: exactly a thread that locks an RPC returns something, namely the
      error if there is one, a fault if copying failed, and the message if it is complete and all copied. */
  ghost function Returns(s: State, a: Action): seq<Result> {
    match a
    case Begin(t) =>
      var r := if ThreadOf(s, t).Holding? then ThreadOf(s, t).rpc else 0;
      if !Live(s, r) then []
      else if s.rpcs[r].error != NoError then [Result(r, s.rpcs[r].error)]
      else if s.rpcs[r].left == 0 && s.rpcs[r].queue == 0 then [Result(r, NoError)]
      else []
    case Resume(t, fault) =>
      var r := if ThreadOf(s, t).Copying? then ThreadOf(s, t).rpc else 0;
      if !Live(s, r) then []
      else if fault then [Result(r, Faulted)]
      else if s.rpcs[r].left == 0 && s.rpcs[r].queue == 0 then [Result(r, NoError)]
      else []
    case _ => []
  }

  lemma ReturnedExactly(s: State, a: Action)
    requires Inv(s) && Enabled(s, a)
    ensures Next(s, a).log == s.log + Returns(s, a)
    ensures Returns(s, a) != [] ==> (a.Begin? || a.Resume?) && ThreadOf(Next(s, a), a.t) == Idle
  {
    hide Inv, Without;
    assert s.log + [] == s.log;
    if a.Begin? || a.Resume? {
      OwnRpc(s, a.t);
      DeadHasError(s, ThreadOf(s, a.t).rpc);
      if a.Resume? && s.actor {
        DeliveredOnce(s, a.t, ThreadOf(s, a.t).rpc);
      }
    }
  }

  // ---- When an abort is reported ----

  /** A thread has dropped the lock of the RPC to copy or deliver its packets. */
  ghost predicate BeingCopied(s: State, r: nat) {
    exists t :: t in s.threads && s.threads[t] == Copying(r)
  }

  /** Whatever has been returned for r since there were n results is the error of an abort. */
  ghost predicate OnlyAborts(n: nat, log: seq<Result>, r: nat) {
    forall i :: n <= i < |log| && log[i].rpc == r ==> log[i].error == Aborted
  }

  /** r has been returned with its message since there were n results. */
  ghost predicate Delivered(n: nat, log: seq<Result>, r: nat) {
    exists i :: n <= i < |log| && log[i] == Result(r, NoError)
  }

  ghost predicate Faultless(run: seq<Action>) {
    forall i :: 0 <= i < |run| ==> !(run[i].Resume? && run[i].fault)
  }

  /** The abort of r cannot be overwritten: r has ended, or its error is set and no thread is copying. */
  ghost predicate Fixed(s: State, r: nat) {
    && r in s.rpcs && s.rpcs[r].client
    && if s.rpcs[r].live then s.rpcs[r].error == Aborted && !BeingCopied(s, r) else s.rpcs[r].error == Ended
  }

  /** A thread begins to copy an RPC only if it finds no error. */
  lemma CopyBegins(s: State, a: Action, r: nat, t: nat)
    requires Enabled(s, a) && ThreadOf(Next(s, a), t) == Copying(r)
    ensures ThreadOf(s, t) == Copying(r) || (r in s.rpcs && s.rpcs[r].error == NoError)
  {
    hide Without;
  }

  ghost predicate StillFixed(s: State, s': State, r: nat)
    requires r in s.rpcs
  {
    && r in s'.rpcs && s'.rpcs[r].client
    && (if s'.rpcs[r].live then s.rpcs[r].live && s'.rpcs[r].error == Aborted else s'.rpcs[r].error == Ended)
  }

  /** What a step does to an RPC whose abort is fixed: it stays as it is or ends. */
  lemma FixedRpc(s: State, a: Action, r: nat)
    requires Enabled(s, a) && Fixed(s, r)
    ensures StillFixed(s, Next(s, a), r)
  {
    hide Without, HandOff, StartCopy, ResumeCopy;
    match a
    case Begin(t) =>
      if ThreadOf(s, t).rpc in s.rpcs && s.rpcs[ThreadOf(s, t).rpc].error == NoError {
        OtherCopy(s, t, ThreadOf(s, t).rpc, r);
      }
    case Resume(t, fault) =>
      var q := ThreadOf(s, t).rpc;
      if q in s.rpcs {
        if s.rpcs[r].live {
          NotCopying(s, r);
        }
        OtherResume(s, t, q, fault, r);
      }
    case _ =>
  }

  lemma OtherCopy(s: State, t: nat, q: nat, r: nat)
    requires Fixed(s, r) && q in s.rpcs && q != r
    ensures StillFixed(s, StartCopy(s, t, q), r)
  {
    hide Without;
  }

  lemma OtherResume(s: State, t: nat, q: nat, fault: bool, r: nat)
    requires Fixed(s, r) && q in s.rpcs && (q != r || !s.rpcs[r].live)
    ensures StillFixed(s, ResumeCopy(s, t, q, fault), r)
  {
    hide Without;
  }

  lemma NotCopying(s: State, r: nat)
    requires Fixed(s, r) && s.rpcs[r].live
    ensures forall t :: ThreadOf(s, t) != Copying(r)
  {
  }

  /** At most one result is returned in a step, and for an RPC whose abort is fixed it is that error. */
  lemma FixedLog(s: State, a: Action, r: nat)
    requires Enabled(s, a)
    ensures s.log <= Next(s, a).log
    ensures Fixed(s, r) ==> OnlyAborts(|s.log|, Next(s, a).log, r)
  {
    hide Without, HandOff, BeingCopied;
    if Fixed(s, r) && s.rpcs[r].live {
      NotCopying(s, r);
    }
  }

  lemma FixedStays(s: State, a: Action, r: nat)
    requires Enabled(s, a) && Fixed(s, r)
    ensures Fixed(Next(s, a), r)
  {
    hide Next, Enabled;
    var s' := Next(s, a);
    FixedRpc(s, a, r);
    if s'.rpcs[r].live {
      forall t | t in s'.threads ensures s'.threads[t] != Copying(r) {
        if ThreadOf(s', t) == Copying(r) {
          CopyBegins(s, a, r, t);
        }
      }
    }
  }

  lemma {:induction false} FixedForever(s: State, run: seq<Action>, r: nat)
    requires Possible(s, run) && Fixed(s, r)
    ensures s.log <= Run(s, run).log && OnlyAborts(|s.log|, Run(s, run).log, r)
    decreases |run|
  {
    hide Fixed, Next, Enabled;
    if run != [] {
      FixedStays(s, run[0], r);
      FixedLog(s, run[0], r);
      FixedForever(Next(s, run[0]), run[1..], r);
    }
  }

  // ---- How an abort is overwritten ----

  lemma Unroll(s: State, a: Action, run: seq<Action>)
    ensures Run(s, [a] + run) == Run(Next(s, a), run)
    ensures Possible(s, [a] + run) <==> Enabled(s, a) && Possible(Next(s, a), run)
  {
    hide Next, Enabled;
    assert ([a] + run)[1..] == run;
  }

  lemma {:induction false} RunConcat(s: State, run: seq<Action>, more: seq<Action>)
    requires Possible(s, run) && Possible(Run(s, run), more) && Faultless(run) && Faultless(more)
    ensures Possible(s, run + more) && Run(s, run + more) == Run(Run(s, run), more) && Faultless(run + more)
    decreases |run|
  {
    hide Next, Enabled;
    if run == [] {
      assert run + more == more;
    } else {
      assert (run + more)[1..] == run[1..] + more;
      RunConcat(Next(s, run[0]), run[1..], more);
    }
  }

  /** The thread that is copying r finishes: the error is overwritten, and the message returned if complete. */
  lemma {:induction false} FinishCopy(s: State, t: nat, r: nat) returns (run: seq<Action>)
    requires Inv(s) && ThreadOf(s, t) == Copying(r) && Live(s, r)
    ensures Possible(s, run) && Faultless(run)
    ensures var s' := Run(s, run);
      if s.rpcs[r].left == 0 then Delivered(|s.log|, s'.log, r)
      else s'.actor == s.actor && s'.log == s.log && r in s'.rpcs &&
           s'.rpcs[r] == s.rpcs[r].(flag := false, queue := 0, error := NoError)
    decreases s.rpcs[r].queue
  {
    hide Inv, Delivered, Without;
    var a := Resume(t, false);
    var s1 := Next(s, a);
    StepOk(s, a);
    if s.actor {
      DeliveredOnce(s, t, r);
    }
    if s.rpcs[r].queue > 0 && !s.actor {
      var rest := FinishCopy(s1, t, r);
      run := [a] + rest;
      Unroll(s, a, rest);
    } else {
      run := [a] + [];
      Unroll(s, a, []);
      LastResume(s, t, r);
    }
  }

  lemma LastResume(s: State, t: nat, r: nat)
    requires ThreadOf(s, t) == Copying(r) && Live(s, r) && s.rpcs[r].queue == 0
    ensures var s' := Next(s, Resume(t, false));
      if s.rpcs[r].left == 0 then Delivered(|s.log|, s'.log, r)
      else s'.actor == s.actor && s'.log == s.log && r in s'.rpcs &&
           s'.rpcs[r] == s.rpcs[r].(flag := false, queue := 0, error := NoError)
  {
    hide Without;
    var s' := Next(s, Resume(t, false));
    if s.rpcs[r].left == 0 {
      assert s'.log[|s.log|] == Result(r, NoError);
    }
  }

  lemma DeliveredAt(n: nat, log: seq<Result>, r: nat, i: nat)
    requires n <= i < |log| && log[i] == Result(r, NoError)
    ensures Delivered(n, log, r)
  {
  }

  /** A thread that holds an RPC with a complete message and no error copies what is left and returns it. */
  lemma HolderDelivers(s: State, t: nat, r: nat) returns (run: seq<Action>)
    requires Inv(s) && ThreadOf(s, t) == Holding(r) && Live(s, r) && s.rpcs[r].error == NoError && s.rpcs[r].left == 0
    ensures Possible(s, run) && Faultless(run) && Delivered(|s.log|, Run(s, run).log, r)
  {
    hide Inv, Delivered, Without;
    var a := Begin(t);
    var s1 := Next(s, a);
    StepOk(s, a);
    var rest: seq<Action> := [];
    if s.rpcs[r].queue > 0 {
      rest := FinishCopy(s1, t, r);
    } else {
      DeliveredAt(|s.log|, s1.log, r, |s.log|);
    }
    run := [a] + rest;
    Unroll(s, a, rest);
  }

  lemma {:induction false} FreshThread(used: set<nat>) returns (u: nat)
    ensures forall x :: x in used ==> x < u
    decreases |used|
  {
    if used == {} {
      u := 0;
    } else {
      var y :| y in used;
      var v := FreshThread(used - {y});
      u := if v <= y then y + 1 else v;
      assert forall x :: x in used ==> x == y || x in used - {y};
    }
  }

  /** Threads that call homa_wait_shared take the ready RPCs one by one, r among them. */
  lemma {:induction false} TakeFromReady(s: State, r: nat) returns (run: seq<Action>, u: nat)
    requires r in s.ready
    ensures Possible(s, run) && Faultless(run)
    ensures var s' := Run(s, run);
      s'.rpcs == s.rpcs && s'.log == s.log && s'.actor == s.actor && ThreadOf(s', u) == Holding(r)
    decreases |s.ready|
  {
    hide Without;
    var v := FreshThread(s.threads.Keys);
    var s1 := Next(s, Enter(v));
    var s2 := Next(s1, Look(v, true));
    assert ThreadOf(s, v) == Idle && ThreadOf(s1, v) == Looking;
    assert s2.ready == s.ready[1..] && ThreadOf(s2, v) == Holding(s.ready[0]);
    var rest: seq<Action> := [];
    u := v;
    if s.ready[0] != r {
      rest, u := TakeFromReady(s2, r);
    }
    run := [Enter(v)] + ([Look(v, true)] + rest);
    Unroll(s1, Look(v, true), rest);
    Unroll(s, Enter(v), [Look(v, true)] + rest);
  }

  lemma ReadyDelivers(s: State, r: nat) returns (run: seq<Action>)
    requires Inv(s) && r in s.ready && Live(s, r) && s.rpcs[r].error == NoError && s.rpcs[r].left == 0
    ensures Possible(s, run) && Faultless(run) && Delivered(|s.log|, Run(s, run).log, r)
  {
    hide Inv, Delivered, Next, Enabled;
    var front, u := TakeFromReady(s, r);
    RunKeepsInv(s, front);
    var more := HolderDelivers(Run(s, front), u, r);
    RunConcat(s, front, more);
    run := front + more;
  }

  lemma WakerDelivers(s: State, t: nat, r: nat) returns (run: seq<Action>)
    requires Inv(s) && ThreadOf(s, t) == Assigned(r) && Live(s, r) && s.rpcs[r].error == NoError && s.rpcs[r].left == 0
    ensures Possible(s, run) && Faultless(run) && Delivered(|s.log|, Run(s, run).log, r)
  {
    hide Inv, Delivered;
    StepOk(s, Wake(t));
    var more := HolderDelivers(Next(s, Wake(t)), t, r);
    Unroll(s, Wake(t), more);
    run := [Wake(t)] + more;
  }

  /** After the error has been overwritten the rest of the message arrives and the message is returned. */
  lemma RestArrives(s: State, r: nat) returns (run: seq<Action>)
    requires Inv(s) && !s.actor && Live(s, r) && s.rpcs[r].left > 0
    requires s.rpcs[r] == Rpc(true, true, false, 0, s.rpcs[r].left, NoError, s.rpcs[r].seen)
    ensures Possible(s, run) && Faultless(run) && Delivered(|s.log|, Run(s, run).log, r)
  {
    hide Inv, Delivered, Without, HandOff;
    var a := Packet(r, s.rpcs[r].left, 0);
    var s1 := Next(s, a);
    StepOk(s, a);
    LastPacket(s, r);
    var more: seq<Action>;
    if r in s1.ready {
      more := ReadyDelivers(s1, r);
    } else {
      var c :| ThreadOf(s1, c) == Assigned(r);
      more := WakerDelivers(s1, c, r);
    }
    Unroll(s, a, more);
    run := [a] + more;
  }

  /** The last packet makes the message complete and hands the RPC off. */
  lemma LastPacket(s: State, r: nat)
    requires Live(s, r) && s.rpcs[r].left > 0 && !s.rpcs[r].flag
    ensures var s' := Next(s, Packet(r, s.rpcs[r].left, 0));
      && r in s'.rpcs && s'.rpcs[r] == s.rpcs[r].(flag := true, queue := s.rpcs[r].queue + 1, left := 0, seen := true)
      && s'.log == s.log && s'.actor == s.actor && (r in s'.ready || exists c :: ThreadOf(s', c) == Assigned(r))
  {
    hide Without;
    var s' := Next(s, Packet(r, s.rpcs[r].left, 0));
    if s.interests != [] {
      var p := s.rpcs[r].(flag := true, queue := s.rpcs[r].queue + 1, left := 0, seen := true);
      assert ThreadOf(s', Choose(SetRpc(s, r, p), 0)) == Assigned(r);
    }
  }

  /** An abort sets the error and does not disturb a thread that is copying. */
  lemma AbortEffect(s: State, r: nat, choice: nat)
    requires Inv(s) && Live(s, r) && s.rpcs[r].client
    ensures var s1 := Next(s, Abort(r, choice));
      && Live(s1, r) && s1.rpcs[r] == s.rpcs[r].(error := Aborted) && s1.actor == s.actor && s1.log == s.log
      && (BeingCopied(s1, r) <==> BeingCopied(s, r))
  {
    hide Without, RpcsOk, ReadyOk, ThreadsOk, Distinct;
    var s1 := Next(s, Abort(r, choice));
    if s.interests != [] {
      var c := Choose(s, choice);
      assert c in s.interests;
      if BeingCopied(s, r) {
        var t :| t in s.threads && s.threads[t] == Copying(r);
        assert t in s1.threads && s1.threads[t] == Copying(r);
      }
    }
  }

  /** A thread that was copying when the RPC was aborted leads to a result without the abort's error. */
  lemma OverwritingRun(s: State, r: nat) returns (run: seq<Action>)
    requires Inv(s) && Live(s, r) && s.rpcs[r].client && BeingCopied(s, r)
    ensures Possible(s, run) && Faultless(run) && Delivered(|s.log|, Run(s, run).log, r)
  {
    hide Inv, Delivered, Next, Enabled;
    var t :| t in s.threads && s.threads[t] == Copying(r);
    run := FinishCopy(s, t, r);
    if s.rpcs[r].left > 0 {
      RunKeepsInv(s, run);
      if s.actor {
        assert false by { WholeOnly(s, t, r); }
      }
      var more := RestArrives(Run(s, run), r);
      RunConcat(s, run, more);
      run := run + more;
    }
  }

  lemma WholeOnly(s: State, t: nat, r: nat)
    requires Inv(s) && ThreadOf(s, t) == Copying(r) && s.actor
    ensures r in s.rpcs && s.rpcs[r].left == 0
  {
    hide Linked, ReadyOk, RpcsOk;
    assert ThreadOk(s, s.threads[t]);
  }

  /** When an abort is not reported: after the abort of a client RPC some continuation returns the RPC with
      something else than the abort's error if and only if, at the abort, a thread had dropped the RPC's
      lock to copy its packets. Then there is even a continuation without any fault that returns the
      RPC with its message; and otherwise the RPC is never returned with anything but that error. */
  lemma AbortMisreportedIff(s: State, r: nat, choice: nat)
    requires Inv(s) && Live(s, r) && s.rpcs[r].client
    ensures var s1 := Next(s, Abort(r, choice));
      && ((exists run :: Possible(s1, run) && !OnlyAborts(|s1.log|, Run(s1, run).log, r)) <==> BeingCopied(s, r))
      && (BeingCopied(s, r) ==>
            exists run :: Possible(s1, run) && Faultless(run) && Delivered(|s1.log|, Run(s1, run).log, r))
  {
    hide Inv, Run, Possible, BeingCopied, HandOff, Fixed, Delivered, OnlyAborts, Faultless;
    var s1 := Next(s, Abort(r, choice));
    AbortEffect(s, r, choice);
    if BeingCopied(s, r) {
      StepOk(s, Abort(r, choice));
      var run := OverwritingRun(s1, r);
      NotOnlyAborts(|s1.log|, Run(s1, run).log, r);
    } else {
      assert Fixed(s1, r) by { FixedByAbort(s, r, choice); }
      forall run | Possible(s1, run) ensures OnlyAborts(|s1.log|, Run(s1, run).log, r) {
        FixedForever(s1, run, r);
      }
    }
  }

  lemma NotOnlyAborts(n: nat, log: seq<Result>, r: nat)
    requires Delivered(n, log, r)
    ensures !OnlyAborts(n, log, r)
  {
  }

  lemma FixedByAbort(s: State, r: nat, choice: nat)
    requires Inv(s) && Live(s, r) && s.rpcs[r].client && !BeingCopied(s, r)
    ensures Fixed(Next(s, Abort(r, choice)), r)
  {
    hide Inv;
    AbortEffect(s, r, choice);
  }

  /** In every run a complete message that has not been returned, request or response, can still be: some continuation
      without faults returns it, unless an error has been set. */
  lemma AlwaysDeliverable(actor: bool, run: seq<Action>, r: nat) returns (more: seq<Action>)
    requires Possible(Init(actor), run)
    requires var s := Run(Init(actor), run);
      Live(s, r) && s.rpcs[r].seen && s.rpcs[r].left == 0 && s.rpcs[r].error == NoError && Result(r, NoError) !in s.log
    ensures var s := Run(Init(actor), run);
      Possible(s, more) && Faultless(more) && Delivered(|s.log|, Run(s, more).log, r)
  {
    hide Inv, Next, Enabled, Delivered, Placed;
    assert Inv(Init(actor)) by { InitOk(actor); }
    RunKeepsInv(Init(actor), run);
    NoHandoffLost(actor, run, r);
    var s := Run(Init(actor), run);
    if r in s.ready {
      more := ReadyDelivers(s, r);
    } else {
      var t := HolderOf(s, r);
      match ThreadOf(s, t)
      case Assigned(_) => more := WakerDelivers(s, t, r);
      case Holding(_) => more := HolderDelivers(s, t, r);
      case Copying(_) => more := FinishCopy(s, t, r);
    }
  }

  lemma InitOk(actor: bool)
    ensures Inv(Init(actor))
  {
  }

  lemma HolderOf(s: State, r: nat) returns (t: nat)
    requires Placed(s, r) && r !in s.ready
    ensures Has(ThreadOf(s, t), r)
  {
    t :| t in s.threads && Has(s.threads[t], r);
  }

  /** Such states are reached, with complete and with incomplete messages: thread 7 is copying the first packet
      of the response to RPC 1. */
  lemma CopyingReached(length: nat, bytes: nat)
    requires 0 < bytes <= length
    ensures var run := [NewClient(1, length), Packet(1, bytes, 0), Enter(7), Look(7, false), Begin(7)];
      var s := Run(Init(false), run);
      && Possible(Init(false), run) && Live(s, 1) && s.rpcs[1].client
      && s.rpcs[1].left == length - bytes && BeingCopied(s, 1)
  {
    hide Next, Enabled;
    var run := [NewClient(1, length), Packet(1, bytes, 0), Enter(7), Look(7, false), Begin(7)];
    var s0 := Init(false);
    var s1 := Next(s0, NewClient(1, length));
    var s2 := Next(s1, Packet(1, bytes, 0));
    FirstPacket(length, bytes);
    ReadyToCopy(s2);
    var rest := [Enter(7), Look(7, false), Begin(7)];
    Unroll(s0, NewClient(1, length), [Packet(1, bytes, 0)] + rest);
    Unroll(s1, Packet(1, bytes, 0), rest);
    assert run == [NewClient(1, length)] + ([Packet(1, bytes, 0)] + rest);
  }

  lemma FirstPacket(length: nat, bytes: nat)
    requires 0 < bytes <= length
    ensures var s0 := Init(false); var s1 := Next(s0, NewClient(1, length)); var s2 := Next(s1, Packet(1, bytes, 0));
      && Enabled(s0, NewClient(1, length)) && Enabled(s1, Packet(1, bytes, 0))
      && 1 in s2.rpcs && s2.rpcs[1] == Rpc(true, true, true, 1, length - bytes, NoError, true)
      && s2.threads == map[] && s2.ready == [1] && s2.interests == [] && !s2.actor
  {
    assert [] + [1] == [1];
  }

  lemma ReadyToCopy(s: State)
    requires 1 in s.rpcs && s.rpcs[1] == Rpc(true, true, true, 1, s.rpcs[1].left, NoError, true) && !s.actor
    requires s.threads == map[] && s.ready == [1]
    ensures var run := [Enter(7), Look(7, false), Begin(7)]; var s' := Run(s, run);
      Possible(s, run) && Live(s', 1) && s'.rpcs[1].client && s'.rpcs[1].left == s.rpcs[1].left && BeingCopied(s', 1)
  {
    hide Without, BeingCopied;
    var s1 := Next(s, Enter(7));
    var s2 := Next(s1, Look(7, false));
    var s3 := Next(s2, Begin(7));
    assert ThreadOf(s2, 7) == Holding(1) && s2.rpcs == s.rpcs && !s2.actor;
    BeginCopies(s2);
    Unroll(s2, Begin(7), []);
    Unroll(s1, Look(7, false), [Begin(7)]);
    Unroll(s, Enter(7), [Look(7, false), Begin(7)]);
    assert [Begin(7)] + [] == [Begin(7)];
    assert [Look(7, false)] + [Begin(7)] == [Look(7, false), Begin(7)];
    assert [Enter(7)] + [Look(7, false), Begin(7)] == [Enter(7), Look(7, false), Begin(7)];
  }

  lemma BeginCopies(s: State)
    requires 1 in s.rpcs && s.rpcs[1] == Rpc(true, true, true, 1, s.rpcs[1].left, NoError, true) && !s.actor
    requires ThreadOf(s, 7) == Holding(1)
    ensures var s' := Next(s, Begin(7));
      Live(s', 1) && s'.rpcs[1].client && s'.rpcs[1].left == s.rpcs[1].left && BeingCopied(s', 1)
  {
    assert ThreadOf(Next(s, Begin(7)), 7) == Copying(1);
  }
}
