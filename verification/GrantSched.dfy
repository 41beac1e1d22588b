/**
 The whole grant scheduler of homa_grant.c as a state machine over values. Each
 operation is one lock-protected call; operations whose caller-side condition
 does not hold leave the state alone, so that every operation list is a run.
 */
module GrantSched {
  import opened Basics
  import opened RankedLists
  import opened GrantQueues
  import opened Sums

  const INT_MAX := 0x7fff_ffff

  datatype Sched = Sched(
    msgs: map<nat, Msg>, q: Queues, window: nat, total: int,
    numGrantable: int, oldest: Option<nat>, stalled: nat)

  function WindowSize(c: Config, numActive: nat): nat {
    if c.windowParam == 0 then c.maxIncoming / (numActive + 1) else c.windowParam
  }

  function Init(c: Config): Sched {
    Sched(map[], Queues([], map[], []), WindowSize(c, 0), 0, 0, None, INT_MAX)
  }

  // ---- Priority repair: homa_grant_fix_order ----

  /** Insertion sort of l from index i on; also the lowest index any RPC moved up to. */
  function FixOrderFrom(msgs: map<nat, Msg>, l: seq<nat>, i: nat, best: nat): (seq<nat>, nat)
    decreases |l| - i
  {
    if i >= |l| then (l, best)
    else
      var (l', j) := MoveUp(msgs, l, i);
      FixOrderFrom(msgs, l', i + 1, if j < i && j < best then j else best)
  }

  function FixOrder(msgs: map<nat, Msg>, l: seq<nat>): (seq<nat>, nat) {
    FixOrderFrom(msgs, l, 1, INT_MAX)
  }

  // ---- Byte accounting ----

  /** homa_grant_update_incoming for one message. */
  function Recorded(m: Msg): Msg {
    m.(recIncoming := if m.granted > m.received then m.granted - m.received else 0, recorded := true)
  }

  function SetMsg(s: Sched, r: nat, m: Msg): Sched {
    s.(msgs := s.msgs[r := m])
  }

  function UpdateIncoming(s: Sched, r: nat): Sched
    requires r in s.msgs
  {
    var m := Recorded(s.msgs[r]);
    SetMsg(s, r, m).(total := s.total + m.recIncoming - s.msgs[r].recIncoming)
  }

  /** The grant offset r would get if there were no limit on incoming bytes. */
  function Desired(s: Sched, m: Msg): nat {
    if m.received + s.window > m.length then m.length else m.received + s.window
  }

  /** How many bytes the desired offset lacks in max_incoming; 0 means it fits. */
  function Shortfall(c: Config, s: Sched, m: Msg): nat {
    var delta := Desired(s, m) - m.received - m.recIncoming;
    var available := c.maxIncoming - s.total;
    if available < delta then delta - available else 0
  }

  predicate MayGrow(s: Sched, r: nat) {
    r in s.msgs && r in s.q.active && !s.msgs[r].silent && s.msgs[r].granted < s.msgs[r].length
  }

  /** homa_grant_update_granted; the boolean says whether a GRANT packet is due. */
  function UpdateGranted(c: Config, s: Sched, r: nat): (Sched, bool) {
    if !MayGrow(s, r) then (s, false)
    else
      var m := s.msgs[r];
      var offset := Desired(s, m) - Shortfall(c, s, m);
      var rank := IndexOf(s.q.active, r);
      var s1 := if Shortfall(c, s, m) > 0 && rank < s.stalled then s.(stalled := rank) else s;
      if offset <= m.granted then (s1, false)
      else (SetMsg(s1, r, m.(granted := offset)), true)
  }

  // ---- Queue operations on the whole state ----

  function Manage(c: Config, s: Sched, r: nat): Sched {
    var q := Admit(c, s.msgs, s.q, r);
    s.(q := q, numGrantable := s.numGrantable + 1, window := WindowSize(c, |q.active|))
  }

  /** homa_grant_unmanage_rpc, with the RPC it promoted into active_rpcs. */
  function Unmanage(c: Config, s: Sched, r: nat): (Sched, Option<nat>) {
    var (q, other) := Expel(c, s.msgs, s.q, r);
    var s1 := if Managed(s.msgs, s.q, r)
              then s.(q := q, numGrantable := s.numGrantable - 1, window := WindowSize(c, |q.active|))
              else s;
    (if s.oldest == Some(r) then s1.(oldest := None) else s1, other)
  }

  function UnmanageIfComplete(c: Config, s: Sched, r: nat): (Sched, Option<nat>)
    requires r in s.msgs
  {
    if s.msgs[r].granted >= s.msgs[r].length then Unmanage(c, s, r) else (s, None)
  }

  /** What homa_grant_check_rpc and homa_grant_cand_check do for one RPC. */
  function WindowGrant(c: Config, s: Sched, r: nat): (Sched, Option<nat>) {
    var (s1, grew) := UpdateGranted(c, s, r);
    if !grew then (s1, None) else UnmanageIfComplete(c, UpdateIncoming(s1, r), r)
  }

  /** The message after a FIFO grant: more bytes granted, never beyond its length. */
  function FifoRaised(c: Config, m: Msg): Msg {
    var d := if m.granted + c.fifoIncrement >= m.length
             then (if m.granted < m.length then m.length - m.granted else 0) else c.fifoIncrement;
    m.(granted := m.granted + d, fifo := m.fifo + d)
  }

  /** The granting part of homa_grant_check_fifo for the chosen RPC. */
  function FifoGrant(c: Config, s: Sched, r: nat): (Sched, Option<nat>)
    requires r in s.msgs
  {
    var s1 := SetMsg(s, r, FifoRaised(c, s.msgs[r]));
    if s1.msgs[r].granted >= s1.msgs[r].length then
      var (s2, other) := Unmanage(c, s1, r);
      (UpdateIncoming(s2, r), other)
    else
      (UpdateIncoming(s1.(q := Promote(c, s1.msgs, s1.q, r)), r), None)
  }

  /** homa_grant_init_rpc without the queue insertion: the unscheduled bytes are granted. */
  function NewMsg(peer: nat, length: nat, birth: nat, unsched: nat): Msg {
    var g := if unsched >= length then length else unsched;
    Msg(peer, length, birth, g, 0, 0, false, g, 0, false)
  }

  // ---- Choosing the oldest RPC: homa_grant_find_oldest ----

  /** All RPCs in the order homa_grant_find_oldest looks at them. */
  function FifoOrder(q: Queues, ps: seq<nat>): seq<nat> {
    if ps == [] then (if q.active == [] then [] else q.active[1..])
    else Wait(q, ps[0]) + FifoOrder(q, ps[1..])
  }

  /** An RPC that ignores its FIFO grants is passed over. */
  predicate Eligible(c: Config, s: Sched, r: nat) {
    Key(s.msgs, r).recIncoming < s.window + 2 * c.fifoIncrement
  }

  /** The first RPC in l with the smallest birth among `best` and the eligible ones in l. */
  function OldestOf(c: Config, s: Sched, l: seq<nat>, best: Option<nat>): Option<nat> {
    if l == [] then best
    else if (best.Some? && Key(s.msgs, l[0]).birth >= Key(s.msgs, best.value).birth) || !Eligible(c, s, l[0]) then
      OldestOf(c, s, l[1..], best)
    else OldestOf(c, s, l[1..], Some(l[0]))
  }

  function FindOldest(c: Config, s: Sched): Sched {
    s.(oldest := OldestOf(c, s, FifoOrder(s.q, s.q.peers), None))
  }

  // ---- Runs ----

  datatype Op =
    | Arrive(r: nat, peer: nat, length: nat, birth: nat, unsched: nat)
    | StartGranting(r: nat)
    | Receive(r: nat, bytes: nat)
    | SetSilent(r: nat, silent: bool)
    | Account(r: nat)
    | GrantWindow(r: nat)
    | GrantFifo(r: nat)
    | Recalculate
    | ChooseOldest
    | ClearStalled
    | StopGranting(r: nat)
    | End(r: nat)

  /** One step. Cases the kernel never reaches (such as managing an RPC twice, a BUG_ON) do nothing. */
  function Apply(c: Config, s: Sched, op: Op): Sched {
    match op
    case Arrive(r, peer, length, birth, unsched) =>
      if r in s.msgs then s else SetMsg(s, r, NewMsg(peer, length, birth, unsched))
    case StartGranting(r) =>
      if r in s.msgs && !Managed(s.msgs, s.q, r) && s.msgs[r].granted < s.msgs[r].length
      then Manage(c, s, r) else s
    case Receive(r, bytes) =>
      if r in s.msgs && s.msgs[r].received + bytes <= s.msgs[r].length
      then SetMsg(s, r, s.msgs[r].(received := s.msgs[r].received + bytes)) else s
    case SetSilent(r, silent) =>
      if r in s.msgs then SetMsg(s, r, s.msgs[r].(silent := silent)) else s
    case Account(r) =>
      if r in s.msgs then UpdateIncoming(s, r) else s
    case GrantWindow(r) => WindowGrant(c, s, r).0
    case GrantFifo(r) =>
      if r in s.msgs && (Managed(s.msgs, s.q, r) || s.msgs[r].granted == s.msgs[r].length)
      then FifoGrant(c, s, r).0 else s
    case Recalculate => s.(q := s.q.(active := FixOrder(s.msgs, s.q.active).0))
    case ChooseOldest => FindOldest(c, s)
    case ClearStalled => s.(stalled := INT_MAX)
    case StopGranting(r) =>
      if r in s.msgs then Unmanage(c, s, r).0 else s
    case End(r) =>
      if r in s.msgs then
        var s1 := if s.msgs[r].granted < s.msgs[r].length then Unmanage(c, s, r).0 else s;
        s1.(msgs := s1.msgs - {r}, total := s1.total - s1.msgs[r].recIncoming)
      else s
  }

  function Run(c: Config, s: Sched, ops: seq<Op>): Sched
    decreases |ops|
  {
    if ops == [] then s else Run(c, Apply(c, s, ops[0]), ops[1..])
  }

  // ---- The invariant of every run ----

  ghost predicate MsgOk(m: Msg) {
    && m.granted <= m.length && m.received <= m.length
    && (m.recorded ==> m.granted <= m.received + m.recIncoming)
    && (!m.recorded ==> m.recIncoming == 0 && m.granted <= m.unsched + m.fifo)
  }

  ghost function RecMap(msgs: map<nat, Msg>): map<nat, int> {
    map r | r in msgs :: msgs[r].recIncoming
  }

  /** The part of a message's incoming bytes that no window grant asked for. */
  ghost function Excess(m: Msg): (e: int)
    ensures 0 <= e <= m.recIncoming
  {
    if m.recIncoming < m.unsched + m.fifo then m.recIncoming else m.unsched + m.fifo
  }

  ghost function ExcessMap(msgs: map<nat, Msg>): map<nat, int> {
    map r | r in msgs :: Excess(msgs[r])
  }

  ghost predicate MsgsOk(msgs: map<nat, Msg>, q: Queues) {
    && (forall r :: r in msgs ==> MsgOk(msgs[r]))
    && (forall r :: r in msgs && Managed(msgs, q, r) ==> msgs[r].granted < msgs[r].length)
  }

  ghost predicate BudgetOk(c: Config, msgs: map<nat, Msg>, total: int) {
    && total == Sum(RecMap(msgs))
    && total <= c.maxIncoming + Sum(ExcessMap(msgs))
  }

  ghost predicate Inv(c: Config, s: Sched) {
    && QInv(c, s.msgs, s.q) && Conserving(c, s.msgs, s.q)
    && MsgsOk(s.msgs, s.q) && BudgetOk(c, s.msgs, s.total)
    && s.window == WindowSize(c, |s.q.active|)
    && s.numGrantable == |ManagedSet(s.msgs, s.q)|
    && (s.oldest.Some? ==> s.oldest.value in s.msgs && Managed(s.msgs, s.q, s.oldest.value))
  }
}
