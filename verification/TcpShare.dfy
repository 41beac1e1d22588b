/**
 Deferred TCP packets of a network device (homa_qdisc.c): qdiscs with deferred packets take turns,
 by credit.
 */
module TcpShare {
  import opened Basics

  /** The qdiscs with deferred packets, the position of the current one (-1 if none), and for every
      qdisc its credit and its packets (their lengths); incs, skips and bytes record how often a qdisc got
      the turn with credit, how often without, and how much it has sent. */
  datatype State = State(list: seq<nat>, cur: int, credit: map<nat, int>, queue: map<nat, seq<nat>>,
                         incs: map<nat, int>, skips: map<nat, int>, bytes: map<nat, int>)

  ghost predicate Shape(s: State) {
    && s.credit.Keys == s.queue.Keys == s.incs.Keys == s.skips.Keys == s.bytes.Keys
    && (forall i :: 0 <= i < |s.list| ==> s.list[i] in s.credit)
    && -1 <= s.cur < |s.list| && Distinct(s.list)
  }

  /** A qdisc is on the list exactly if it has deferred packets. */
  ghost predicate QueuesOk(s: State, most: nat) {
    && (forall q :: q in s.queue ==> (q in s.list <==> s.queue[q] != []))
    && (forall q, i :: q in s.queue && 0 <= i < |s.queue[q]| ==> 0 < s.queue[q][i] <= most)
  }

  /** No qdisc but the current one has credit. */
  ghost predicate OthersLow(s: State)
    requires Shape(s)
  {
    forall i :: 0 <= i < |s.list| && i != s.cur ==> s.credit[s.list[i]] <= 0
  }

  /** Credits are never above one increment nor as low as a packet of the largest length. */
  ghost predicate Bounded(s: State, inc: nat, most: nat)
    requires Shape(s)
  {
    forall i :: 0 <= i < |s.list| ==> 0 - most < s.credit[s.list[i]] <= inc
  }

  ghost predicate Inv(s: State, inc: nat, most: nat) {
    Shape(s) && QueuesOk(s, most) && OthersLow(s) && Bounded(s, inc, most)
  }

  // ---- One call ----

  function NextPos(s: State): int {
    if s.cur + 1 < |s.list| then s.cur + 1 else 0
  }

  /** The turn passes on, with an increment of credit. */
  function Give(s: State, inc: nat, i: int): State
    requires Shape(s) && 0 <= i < |s.list|
  {
    var q := s.list[i];
    s.(cur := i, credit := s.credit[q := s.credit[q] + inc], incs := s.incs[q := s.incs[q] + 1])
  }

  /** How much credit is missing in all. */
  function Deficit(l: seq<nat>, credit: map<nat, int>): nat {
    if l == [] then 0
    else
      var q := l[0];
      (if q in credit && credit[q] <= 0 then 1 - credit[q] else 0) + Deficit(l[1..], credit)
  }

  lemma {:induction false} DeficitSame(l: seq<nat>, credit: map<nat, int>, q: nat, c: int)
    requires q !in l && q in credit
    ensures Deficit(l, credit[q := c]) == Deficit(l, credit)
    decreases |l|
  {
    if l != [] {
      DeficitSame(l[1..], credit, q, c);
    }
  }

  lemma {:induction false} DeficitLess(l: seq<nat>, credit: map<nat, int>, i: nat, inc: nat)
    requires Distinct(l) && i < |l| && l[i] in credit && credit[l[i]] <= 0 && inc > 0
    ensures Deficit(l, credit[l[i] := credit[l[i]] + inc]) < Deficit(l, credit)
    decreases |l|
  {
    if i == 0 {
      DeficitSame(l[1..], credit, l[0], credit[l[0]] + inc);
    } else {
      DeficitLess(l[1..], credit, i - 1, inc);
    }
  }

  /** The loop of homa_qdisc_xmit_deferred_tcp: the turn passes on until a qdisc has credit. */
  function Rotate(s: State, inc: nat): State
    requires Shape(s) && OthersLow(s) && 0 <= s.cur && inc > 0
    decreases Deficit(s.list, s.credit)
  {
    if s.credit[s.list[s.cur]] > 0 then s
    else
      DeficitLess(s.list, s.credit, NextPos(s), inc);
      Rotate(Give(s, inc, NextPos(s)), inc)
  }

  /** The first packet of the current qdisc is sent. */
  function Sent(s: State): (r: State)
    requires Shape(s) && 0 <= s.cur && s.queue[s.list[s.cur]] != []
    ensures Shape(r)
  {
    var q := s.list[s.cur];
    var len := s.queue[q][0];
    s.(queue := s.queue[q := s.queue[q][1..]], credit := s.credit[q := s.credit[q] - len],
       bytes := s.bytes[q := s.bytes[q] + len])
  }

  lemma Removed(l: seq<nat>, c: nat)
    requires Distinct(l) && c < |l|
    ensures var r := Without(l, c);
      && Distinct(r)
      && (forall i :: 0 <= i < |r| ==> r[i] == l[if i < c then i else i + 1] && r[i] != l[c])
  {
  }

  lemma RemovedIn(l: seq<nat>, c: nat)
    requires Distinct(l) && c < |l|
    ensures forall x :: x in Without(l, c) <==> x in l && x != l[c]
  {
    assert l == l[..c] + [l[c]] + l[c + 1..];
  }

  /** The current qdisc leaves the list; the turn passes on, without credit. */
  function Leave(s: State): State
    requires Shape(s) && 0 <= s.cur
  {
    Removed(s.list, s.cur);
    var l := Without(s.list, s.cur);
    if l == [] then s.(list := l, cur := -1)
    else
      var c := if s.cur < |l| then s.cur else 0;
      s.(list := l, cur := c, skips := s.skips[l[c] := s.skips[l[c]] + 1])
  }

  /** The first packet of the current qdisc is sent; a qdisc without packets leaves the list. */
  function Serve(s: State): State
    requires Shape(s) && 0 <= s.cur && s.queue[s.list[s.cur]] != []
  {
    if |s.queue[s.list[s.cur]]| == 1 then Leave(Sent(s)) else Sent(s)
  }

  function Turn(s: State, inc: nat): State
    requires Shape(s) && OthersLow(s) && s.list != [] && inc > 0
  {
    Rotate(if s.cur < 0 then Give(s, inc, 0) else s, inc)
  }

  // ---- What each step keeps ----

  lemma GiveOk(s: State, inc: nat, most: nat, i: int)
    requires Inv(s, inc, most) && 0 <= i < |s.list| && s.credit[s.list[i]] <= 0
    requires forall j :: 0 <= j < |s.list| ==> s.credit[s.list[j]] <= 0
    ensures Inv(Give(s, inc, i), inc, most)
  {
  }

  lemma {:induction false} RotateOk(s: State, inc: nat, most: nat)
    requires Inv(s, inc, most) && 0 <= s.cur && inc > 0
    ensures var r := Rotate(s, inc);
      && Inv(r, inc, most) && 0 <= r.cur && r.credit[r.list[r.cur]] > 0
      && r.list == s.list && r.queue == s.queue && r.bytes == s.bytes
    decreases Deficit(s.list, s.credit)
  {
    hide QueuesOk, Distinct, Deficit;
    if s.credit[s.list[s.cur]] <= 0 {
      DeficitLess(s.list, s.credit, NextPos(s), inc);
      GiveOk(s, inc, most, NextPos(s));
      RotateOk(Give(s, inc, NextPos(s)), inc, most);
    }
  }

  lemma TurnOk(s: State, inc: nat, most: nat)
    requires Inv(s, inc, most) && s.list != [] && inc > 0
    ensures var r := Turn(s, inc);
      && Inv(r, inc, most) && 0 <= r.cur && r.credit[r.list[r.cur]] > 0
      && r.list == s.list && r.queue == s.queue && r.bytes == s.bytes
  {
    hide QueuesOk, Distinct, Rotate;
    if s.cur < 0 {
      GiveOk(s, inc, most, 0);
      RotateOk(Give(s, inc, 0), inc, most);
    } else {
      RotateOk(s, inc, most);
    }
  }

  lemma OnList(s: State, most: nat, i: nat)
    requires Shape(s) && QueuesOk(s, most) && i < |s.list|
    ensures s.queue[s.list[i]] != [] && 0 < s.queue[s.list[i]][0] <= most
  {
    assert s.list[i] in s.list;
  }

  /** Serving a qdisc that has credit keeps the invariant. */
  lemma ServeOk(s: State, inc: nat, most: nat)
    requires Inv(s, inc, most) && 0 <= s.cur && s.credit[s.list[s.cur]] > 0 && s.queue[s.list[s.cur]] != []
    ensures Inv(Serve(s), inc, most)
  {
    var q, r := s.list[s.cur], Serve(s);
    OnList(s, most, s.cur);
    if |s.queue[q]| == 1 {
      ServeLast(s, inc, most);
    } else {
      assert s.queue[q] == [s.queue[q][0]] + s.queue[q][1..];
    }
  }

  lemma ServeLast(s: State, inc: nat, most: nat)
    requires Inv(s, inc, most) && 0 <= s.cur && |s.queue[s.list[s.cur]]| == 1
    ensures Inv(Serve(s), inc, most)
  {
    hide Distinct, QueuesOk, Leave, Sent;
    SentLow(s, inc, most);
    LeaveOk(Sent(s), inc, most);
    ServeLastQueues(s, most);
  }

  /** The other qdiscs have no credit, but less than a packet of the largest length is missing. */
  ghost predicate Low(s: State, most: nat)
    requires Shape(s)
  {
    forall i :: 0 <= i < |s.list| && i != s.cur ==> 0 - most < s.credit[s.list[i]] <= 0
  }

  lemma SentLow(s: State, inc: nat, most: nat)
    requires Inv(s, inc, most) && 0 <= s.cur && s.queue[s.list[s.cur]] != []
    ensures Low(Sent(s), most) && Sent(s).cur == s.cur
  {
    hide QueuesOk;
  }

  lemma LeaveOk(s: State, inc: nat, most: nat)
    requires Shape(s) && 0 <= s.cur && Low(s, most)
    ensures var r := Leave(s); Shape(r) && OthersLow(r) && Bounded(r, inc, most)
  {
    hide Distinct, Without;
    Removed(s.list, s.cur);
  }

  lemma ServeLastQueues(s: State, most: nat)
    requires Shape(s) && QueuesOk(s, most) && 0 <= s.cur && |s.queue[s.list[s.cur]]| == 1
    ensures QueuesOk(Serve(s), most)
  {
    hide Distinct, Without;
    RemovedIn(s.list, s.cur);
  }

  // ---- Runs ----

  datatype Op = Send | Queue(q: nat, len: nat)

  ghost predicate OpOk(op: Op, qdiscs: set<nat>, most: nat) {
    op.Queue? ==> op.q in qdiscs && 0 < op.len <= most
  }

  /** homa_qdisc_defer_tcp. */
  function Defer(s: State, q: nat, len: nat): State
    requires Shape(s) && q in s.queue
  {
    var s1 := s.(queue := s.queue[q := s.queue[q] + [len]]);
    if q in s.list then s1 else s1.(credit := s.credit[q := 0], list := s.list + [q])
  }

  lemma DeferOk(s: State, q: nat, len: nat, inc: nat, most: nat)
    requires Inv(s, inc, most) && q in s.queue && 0 < len <= most
    ensures Inv(Defer(s, q, len), inc, most)
  {
    hide QueuesOk, Distinct;
    var r := Defer(s, q, len);
    DeferQueues(s, q, len, most);
    if q !in s.list {
      AppendDistinct(s.list, q);
    }
    assert forall i :: 0 <= i < |s.list| ==> r.credit[s.list[i]] == s.credit[s.list[i]];
  }

  lemma AppendDistinct(l: seq<nat>, q: nat)
    requires Distinct(l) && q !in l
    ensures Distinct(l + [q])
  {
  }

  lemma DeferQueues(s: State, q: nat, len: nat, most: nat)
    requires Shape(s) && QueuesOk(s, most) && q in s.queue && 0 < len <= most
    ensures QueuesOk(Defer(s, q, len), most)
  {
    hide Distinct;
    var r := Defer(s, q, len);
    assert forall x :: x in r.list <==> x in s.list || x == q;
  }

  /** homa_qdisc_xmit_deferred_tcp, or homa_qdisc_defer_tcp. */
  function Step(s: State, op: Op, inc: nat, most: nat): State
    requires Inv(s, inc, most) && inc > 0 && OpOk(op, s.queue.Keys, most)
  {
    match op
    case Queue(q, len) => Defer(s, q, len)
    case Send =>
      if s.list == [] then s
      else
        TurnOk(s, inc, most);
        var t := Turn(s, inc);
        OnList(t, most, t.cur);
        Serve(t)
  }

  /** Every step keeps the invariant, and the qdiscs there are. */
  lemma StepOk(s: State, op: Op, inc: nat, most: nat)
    requires Inv(s, inc, most) && inc > 0 && OpOk(op, s.queue.Keys, most)
    ensures Inv(Step(s, op, inc, most), inc, most) && Step(s, op, inc, most).queue.Keys == s.queue.Keys
  {
    hide QueuesOk, OthersLow, Bounded, Distinct, Turn;
    match op
    case Queue(q, len) => DeferOk(s, q, len, inc, most);
    case Send =>
      if s.list != [] {
        TurnOk(s, inc, most);
        var t := Turn(s, inc);
        OnList(t, most, t.cur);
        ServeOk(t, inc, most);
      }
  }

  ghost predicate OpsOk(ops: seq<Op>, qdiscs: set<nat>, most: nat) {
    forall i :: 0 <= i < |ops| ==> OpOk(ops[i], qdiscs, most)
  }

  function Run(s: State, ops: seq<Op>, inc: nat, most: nat): State
    requires Inv(s, inc, most) && inc > 0 && OpsOk(ops, s.queue.Keys, most)
    decreases |ops|
  {
    if ops == [] then s
    else
      StepOk(s, ops[0], inc, most);
      Run(Step(s, ops[0], inc, most), ops[1..], inc, most)
  }

  function Init(qdiscs: set<nat>): State {
    var none := map q | q in qdiscs :: 0;
    State([], -1, none, map q | q in qdiscs :: [], none, none, none)
  }

  /** In every run only the current qdisc has credit, and all credits are within bounds. */
  lemma {:induction false} CreditsBounded(s: State, ops: seq<Op>, inc: nat, most: nat)
    requires Inv(s, inc, most) && inc > 0 && OpsOk(ops, s.queue.Keys, most)
    ensures Inv(Run(s, ops, inc, most), inc, most)
    decreases |ops|
  {
    hide Inv, Step;
    if ops != [] {
      StepOk(s, ops[0], inc, most);
      CreditsBounded(Step(s, ops[0], inc, most), ops[1..], inc, most);
    }
  }

  lemma InitOk(qdiscs: set<nat>, inc: nat, most: nat)
    ensures Inv(Init(qdiscs), inc, most)
  {
  }

  // ---- What is sent ----

  /** The qdisc that a call serves. */
  function Served(s: State, inc: nat): nat
    requires Shape(s) && OthersLow(s) && s.list != [] && inc > 0 && 0 <= Turn(s, inc).cur < |Turn(s, inc).list|
  {
    Turn(s, inc).list[Turn(s, inc).cur]
  }

  /** A call sends the first packet of the qdisc it serves, which has credit; the packet's length comes off that
      credit, and no other queue changes. */
  lemma SendTakesFirst(s: State, inc: nat, most: nat)
    requires Inv(s, inc, most) && inc > 0 && s.list != []
    ensures 0 <= Turn(s, inc).cur < |Turn(s, inc).list|
    ensures var t, q, r := Turn(s, inc), Served(s, inc), Step(s, Send, inc, most);
      && q in s.list && q in s.queue && s.queue[q] != [] && q in s.bytes && q in t.credit && t.credit[q] > 0
      && r.queue == s.queue[q := s.queue[q][1..]] && r.bytes == s.bytes[q := s.bytes[q] + s.queue[q][0]]
      && q in r.credit && r.credit[q] == t.credit[q] - s.queue[q][0]
  {
    hide QueuesOk, Bounded, Turn, Distinct, Serve, OthersLow;
    TurnOk(s, inc, most);
    var t := Turn(s, inc);
    OnList(t, most, t.cur);
    ServeTakes(t);
    assert t.list[t.cur] in t.list;
  }

  lemma ServeTakes(t: State)
    requires Shape(t) && 0 <= t.cur && t.queue[t.list[t.cur]] != []
    ensures var q, r := t.list[t.cur], Serve(t);
      && q in t.credit && q in t.bytes && r.queue == t.queue[q := t.queue[q][1..]]
      && r.bytes == t.bytes[q := t.bytes[q] + t.queue[q][0]]
      && q in r.credit && r.credit[q] == t.credit[q] - t.queue[q][0]
  {
    hide Distinct, Without;
  }

  /** A packet that is deferred joins the end of its qdisc's queue; a qdisc that had none joins the list at its
      end, without credit. */
  lemma DeferJoins(s: State, q: nat, len: nat)
    requires Shape(s) && q in s.queue
    ensures var r := Defer(s, q, len);
      && r.queue == s.queue[q := s.queue[q] + [len]] && r.cur == s.cur && r.bytes == s.bytes
      && (q in s.list ==> r.list == s.list && r.credit == s.credit)
      && (q !in s.list ==> r.list == s.list + [q] && r.credit == s.credit[q := 0])
  {
  }

  function Total(l: seq<nat>): nat {
    if l == [] then 0 else l[0] + Total(l[1..])
  }

  /** The packets that a run defers for q. */
  function DeferredIn(ops: seq<Op>, q: nat): seq<nat> {
    if ops == [] then [] else (if ops[0].Queue? && ops[0].q == q then [ops[0].len] else []) + DeferredIn(ops[1..], q)
  }

  /** What one step sends for q, if anything. */
  lemma StepSends(s: State, op: Op, q: nat, inc: nat, most: nat) returns (sent: seq<nat>)
    requires Inv(s, inc, most) && inc > 0 && OpOk(op, s.queue.Keys, most) && q in s.queue
    ensures var r := Step(s, op, inc, most);
      && q in r.queue && q in s.bytes && q in r.bytes
      && s.queue[q] + (if op.Queue? && op.q == q then [op.len] else []) == sent + r.queue[q]
      && r.bytes[q] == s.bytes[q] + Total(sent) && |sent| <= 1
  {
    hide QueuesOk, OthersLow, Bounded, Distinct, Turn, Rotate;
    sent := [];
    if op.Send? && s.list != [] {
      SendTakesFirst(s, inc, most);
      if Served(s, inc) == q {
        sent := [s.queue[q][0]];
        assert s.queue[q] == sent + s.queue[q][1..];
      }
    } else if op.Queue? {
      DeferJoins(s, op.q, op.len);
    }
  }

  /** First in, first out: in every run the packets that a qdisc had and those deferred for it are, in this
      order, those it has sent and those it still has, and the bytes recorded are those of the packets sent. */
  lemma {:induction false} NoPacketLost(s: State, ops: seq<Op>, q: nat, inc: nat, most: nat) returns (sent: seq<nat>)
    requires Inv(s, inc, most) && inc > 0 && OpsOk(ops, s.queue.Keys, most) && q in s.queue
    ensures var r := Run(s, ops, inc, most);
      && q in r.queue && q in s.bytes && q in r.bytes
      && s.queue[q] + DeferredIn(ops, q) == sent + r.queue[q] && r.bytes[q] - s.bytes[q] == Total(sent)
    decreases |ops|
  {
    hide Inv, Step;
    if ops == [] {
      sent := [];
      assert q in s.bytes by { InvShape(s, inc, most); }
      assert s.queue[q] + [] == s.queue[q] == [] + s.queue[q];
    } else {
      StepOk(s, ops[0], inc, most);
      var s1 := Step(s, ops[0], inc, most);
      var first := StepSends(s, ops[0], q, inc, most);
      var rest := NoPacketLost(s1, ops[1..], q, inc, most);
      sent := first + rest;
      var d := if ops[0].Queue? && ops[0].q == q then [ops[0].len] else [];
      var ds, r := DeferredIn(ops[1..], q), Run(s, ops, inc, most);
      assert s.queue[q] + (d + ds) == s.queue[q] + d + ds == first + s1.queue[q] + ds;
      assert first + s1.queue[q] + ds == first + (s1.queue[q] + ds) == first + (rest + r.queue[q]) == sent + r.queue[q];
      TotalOne(first, rest);
    }
  }

  lemma TotalOne(first: seq<nat>, rest: seq<nat>)
    requires |first| <= 1
    ensures Total(first + rest) == Total(first) + Total(rest)
  {
    if first == [] {
      assert first + rest == rest;
    } else {
      assert first == [first[0]] && (first + rest)[1..] == rest && first[1..] == [];
    }
  }

  // ---- Equal shares, but for turns without credit ----

  /** Where q is on the list. */
  function Pos(l: seq<nat>, q: nat): (k: nat)
    requires q in l
    ensures k < |l| && l[k] == q
  {
    if l[0] == q then 0 else 1 + Pos(l[1..], q)
  }

  lemma PosUnique(l: seq<nat>, k: nat)
    requires Distinct(l) && k < |l|
    ensures l[k] in l && Pos(l, l[k]) == k
  {
    hide Pos;
    var j := Pos(l, l[k]);
    if j != k {
      Unlike(l, j, k);
    }
  }

  lemma Unlike(l: seq<nat>, i: nat, j: nat)
    requires Distinct(l) && i < |l| && j < |l| && i != j
    ensures l[i] != l[j]
  {
  }

  /** q has been on the list all the time. */
  ghost predicate Both(s0: State, s: State, q: nat) {
    Shape(s0) && Shape(s) && q in s0.list && q in s.list
  }

  /** How often q has got the turn, with or without credit. */
  function Turns(s: State, q: nat): int
    requires Shape(s) && q in s.incs
  {
    s.incs[q] + s.skips[q]
  }

  /** Credit is what was given minus what was sent. */
  ghost predicate Booked(s0: State, s: State, q: nat, inc: nat)
    requires Both(s0, s, q)
  {
    s.credit[q] - s0.credit[q] == inc * (s.incs[q] - s0.incs[q]) - (s.bytes[q] - s0.bytes[q])
  }

  /** 1 if the turn has come to q in the round that is going on, counted from the front of the list. */
  function Passed(s: State, q: nat): int
    requires q in s.list
  {
    if Pos(s.list, q) <= s.cur then 1 else 0
  }

  /** The turn has gone round b times. */
  ghost predicate InTurn(s0: State, s: State, q: nat, b: int)
    requires Both(s0, s, q)
  {
    Turns(s, q) - Turns(s0, q) + Passed(s0, q) == b + Passed(s, q)
  }

  lemma Plus(inc: int, k: int)
    ensures inc * (k + 1) == inc * k + inc
  {
  }

  /** How far the turn has gone after a step from s. */
  function Rounds(s: State, b: int): int {
    if s.cur + 1 < |s.list| then b else b + 1
  }

  lemma GiveWindow(s0: State, s: State, q: nat, inc: nat, b: int)
    requires Both(s0, s, q) && Booked(s0, s, q, inc) && InTurn(s0, s, q, b)
    ensures var r := Give(s, inc, NextPos(s));
      Both(s0, r, q) && Booked(s0, r, q, inc) && InTurn(s0, r, q, Rounds(s, b))
  {
    hide Distinct, Pos;
    var n := NextPos(s);
    Plus(inc, s.incs[q] - s0.incs[q]);
    PosUnique(s.list, n);
  }

  lemma {:induction false} RotateWindow(s0: State, s: State, i: nat, j: nat, inc: nat, b: int) returns (b': int)
    requires Both(s0, s, i) && Both(s0, s, j) && OthersLow(s) && 0 <= s.cur && inc > 0
    requires Booked(s0, s, i, inc) && Booked(s0, s, j, inc) && InTurn(s0, s, i, b) && InTurn(s0, s, j, b)
    ensures var r := Rotate(s, inc);
      && Both(s0, r, i) && Both(s0, r, j) && r.list == s.list
      && Booked(s0, r, i, inc) && Booked(s0, r, j, inc) && InTurn(s0, r, i, b') && InTurn(s0, r, j, b')
    decreases Deficit(s.list, s.credit)
  {
    hide Booked, InTurn, Deficit;
    b' := b;
    if s.credit[s.list[s.cur]] <= 0 {
      DeficitLess(s.list, s.credit, NextPos(s), inc);
      GiveWindow(s0, s, i, inc, b);
      GiveWindow(s0, s, j, inc, b);
      b' := RotateWindow(s0, Give(s, inc, NextPos(s)), i, j, inc, Rounds(s, b));
    }
  }

  lemma TurnWindow(s0: State, s: State, i: nat, j: nat, inc: nat, b: int) returns (b': int)
    requires Both(s0, s, i) && Both(s0, s, j) && OthersLow(s) && inc > 0
    requires Booked(s0, s, i, inc) && Booked(s0, s, j, inc) && InTurn(s0, s, i, b) && InTurn(s0, s, j, b)
    ensures var r := Turn(s, inc);
      && Both(s0, r, i) && Both(s0, r, j) && r.list == s.list
      && Booked(s0, r, i, inc) && Booked(s0, r, j, inc) && InTurn(s0, r, i, b') && InTurn(s0, r, j, b')
  {
    hide Booked, InTurn, Rotate;
    if s.cur < 0 {
      GiveWindow(s0, s, i, inc, b);
      GiveWindow(s0, s, j, inc, b);
      b' := RotateWindow(s0, Give(s, inc, 0), i, j, inc, Rounds(s, b));
    } else {
      b' := RotateWindow(s0, s, i, j, inc, b);
    }
  }

  /** Positions after the element at c has been taken out. */
  lemma PosRemoved(l: seq<nat>, c: nat, q: nat)
    requires Distinct(l) && c < |l| && q in l && q != l[c]
    ensures var r := Without(l, c);
      q in r && Pos(r, q) == (if Pos(l, q) < c then Pos(l, q) else Pos(l, q) - 1) && Pos(l, q) != c
  {
    hide Pos, Distinct, Without;
    Removed(l, c);
    var r, k := Without(l, c), Pos(l, q);
    PosUnique(r, if k < c then k else k - 1);
  }

  /** Sending: a qdisc that leaves passes the turn on without credit. */
  lemma ServeWindow(s0: State, s: State, q: nat, inc: nat, b: int)
    requires Both(s0, s, q) && Booked(s0, s, q, inc) && InTurn(s0, s, q, b)
    requires 0 <= s.cur && s.queue[s.list[s.cur]] != [] && q in Serve(s).list && Shape(Serve(s))
    ensures var r := Serve(s);
      Both(s0, r, q) && Booked(s0, r, q, inc) && InTurn(s0, r, q, if r.list == s.list then b else Rounds(s, b))
  {
    hide Leave, Sent, Booked, InTurn, Distinct;
    SentWindow(s0, s, q, inc, b);
    if |s.queue[s.list[s.cur]]| == 1 {
      LeaveWindow(s0, Sent(s), q, inc, b);
    }
  }

  lemma SentWindow(s0: State, s: State, q: nat, inc: nat, b: int)
    requires Both(s0, s, q) && Booked(s0, s, q, inc) && InTurn(s0, s, q, b)
    requires 0 <= s.cur && s.queue[s.list[s.cur]] != []
    ensures var r := Sent(s);
      Both(s0, r, q) && Booked(s0, r, q, inc) && InTurn(s0, r, q, b) && r.list == s.list && r.cur == s.cur
  {
    hide Pos, Distinct;
  }

  lemma LeaveWindow(s0: State, s: State, q: nat, inc: nat, b: int)
    requires Both(s0, s, q) && Booked(s0, s, q, inc) && InTurn(s0, s, q, b)
    requires 0 <= s.cur && q in Leave(s).list && Shape(Leave(s))
    ensures var r := Leave(s);
      r.list != s.list && Both(s0, r, q) && Booked(s0, r, q, inc) && InTurn(s0, r, q, Rounds(s, b))
  {
    hide Pos, Distinct, InTurn, Booked, Without;
    var r := Leave(s);
    assert |r.list| == |s.list| - 1;
    LeavePassed(s, q);
    LeaveTurns(s, q);
    assert Booked(s0, r, q, inc) by { LeaveBooked(s0, s, q, inc); }
    Passes(s0, s, r, q, b);
  }

  lemma Passes(s0: State, s: State, r: State, q: nat, b: int)
    requires Both(s0, s, q) && Both(s0, r, q) && InTurn(s0, s, q, b)
    requires Turns(r, q) + b + Passed(s, q) == Turns(s, q) + Rounds(s, b) + Passed(r, q)
    ensures InTurn(s0, r, q, Rounds(s, b))
  {
    hide Pos, Distinct;
  }

  lemma LeaveBooked(s0: State, s: State, q: nat, inc: nat)
    requires Both(s0, s, q) && Booked(s0, s, q, inc) && 0 <= s.cur && Both(s0, Leave(s), q)
    ensures Booked(s0, Leave(s), q, inc)
  {
    hide Distinct, Without;
  }

  lemma LeaveTurns(s: State, q: nat)
    requires Shape(s) && 0 <= s.cur && Shape(Leave(s)) && q in s.incs && q in Leave(s).list
    ensures Turns(Leave(s), q) == Turns(s, q) + (if Leave(s).list[Leave(s).cur] == q then 1 else 0)
  {
    hide Distinct, Without;
  }

  lemma LeavePassed(s: State, q: nat)
    requires Shape(s) && 0 <= s.cur && Shape(Leave(s)) && q in s.list && q in Leave(s).list
    ensures var r := Leave(s);
      && 0 <= r.cur < |r.list|
      && (if r.list[r.cur] == q then 1 else 0) + Passed(s, q) == Rounds(s, 0) + Passed(r, q)
  {
    hide Pos, Distinct, Without;
    RemovedIn(s.list, s.cur);
    PosRemoved(s.list, s.cur, q);
    PosUnique(Leave(s).list, Leave(s).cur);
  }

  lemma DeferWindow(s0: State, s: State, q: nat, x: nat, len: nat, inc: nat, b: int)
    requires Both(s0, s, q) && x in s.queue && Booked(s0, s, q, inc) && InTurn(s0, s, q, b) && Shape(Defer(s, x, len))
    ensures var r := Defer(s, x, len); Both(s0, r, q) && Booked(s0, r, q, inc) && InTurn(s0, r, q, b)
    ensures Pos(Defer(s, x, len).list, q) == Pos(s.list, q)
  {
    hide Pos, Distinct;
    var r := Defer(s, x, len);
    assert r.list[Pos(s.list, q)] == q;
    PosUnique(r.list, Pos(s.list, q));
  }

  /** The order of i and j on the list has not changed. */
  ghost predicate SameOrder(s0: State, s: State, i: nat, j: nat)
    requires Both(s0, s, i) && Both(s0, s, j)
  {
    Pos(s0.list, i) < Pos(s0.list, j) <==> Pos(s.list, i) < Pos(s.list, j)
  }

  ghost predicate Window(s0: State, s: State, i: nat, j: nat, inc: nat, b: int) {
    && Both(s0, s, i) && Both(s0, s, j) && SameOrder(s0, s, i, j)
    && Booked(s0, s, i, inc) && Booked(s0, s, j, inc) && InTurn(s0, s, i, b) && InTurn(s0, s, j, b)
  }

  lemma SendWindow(s0: State, s: State, i: nat, j: nat, inc: nat, most: nat, b: int) returns (b': int)
    requires Window(s0, s, i, j, inc, b) && Inv(s, inc, most) && inc > 0
    requires i in Step(s, Send, inc, most).list && j in Step(s, Send, inc, most).list
    ensures Window(s0, Step(s, Send, inc, most), i, j, inc, b')
  {
    hide Booked, InTurn, Turn, QueuesOk, Bounded, Distinct, Pos, Serve;
    TurnOk(s, inc, most);
    var t := Turn(s, inc);
    OnList(t, most, t.cur);
    b' := TurnWindow(s0, s, i, j, inc, b);
    StepOk(s, Send, inc, most);
    ServeWindow(s0, t, i, inc, b');
    ServeWindow(s0, t, j, inc, b');
    ServeOrder(t, i, j);
    b' := if Serve(t).list == t.list then b' else Rounds(t, b');
  }

  lemma ServeOrder(s: State, i: nat, j: nat)
    requires Shape(s) && 0 <= s.cur && s.queue[s.list[s.cur]] != []
    requires i in s.list && j in s.list && i in Serve(s).list && j in Serve(s).list
    ensures Pos(s.list, i) < Pos(s.list, j) <==> Pos(Serve(s).list, i) < Pos(Serve(s).list, j)
  {
    hide Pos, Distinct, Without, Serve;
    ServeList(s);
    if |s.queue[s.list[s.cur]]| == 1 {
      RemovedIn(s.list, s.cur);
      PosRemoved(s.list, s.cur, i);
      PosRemoved(s.list, s.cur, j);
    }
  }

  lemma ServeList(s: State)
    requires Shape(s) && 0 <= s.cur && s.queue[s.list[s.cur]] != []
    ensures Serve(s).list == if |s.queue[s.list[s.cur]]| == 1 then Without(s.list, s.cur) else s.list
  {
    hide Without, Distinct;
  }

  lemma StepWindow(s0: State, s: State, op: Op, i: nat, j: nat, inc: nat, most: nat, b: int) returns (b': int)
    requires Window(s0, s, i, j, inc, b) && Inv(s, inc, most) && inc > 0 && OpOk(op, s.queue.Keys, most)
    requires i in Step(s, op, inc, most).list && j in Step(s, op, inc, most).list
    ensures Window(s0, Step(s, op, inc, most), i, j, inc, b')
  {
    hide Booked, InTurn, QueuesOk, OthersLow, Bounded, Distinct, Pos;
    b' := b;
    match op
    case Queue(x, len) =>
      StepOk(s, op, inc, most);
      DeferWindow(s0, s, i, x, len, inc, b);
      DeferWindow(s0, s, j, x, len, inc, b);
    case Send => b' := SendWindow(s0, s, i, j, inc, most, b);
  }

  /** i and j are on the list all the time; others may join and leave. */
  ghost predicate StayListed(s: State, ops: seq<Op>, i: nat, j: nat, inc: nat, most: nat)
    requires Inv(s, inc, most) && inc > 0 && OpsOk(ops, s.queue.Keys, most)
    decreases |ops|
  {
    && i in s.list && j in s.list
    && (ops == [] ||
        (StepOk(s, ops[0], inc, most); StayListed(Step(s, ops[0], inc, most), ops[1..], i, j, inc, most)))
  }

  lemma {:induction false} RunWindow(s0: State, s: State, ops: seq<Op>, i: nat, j: nat, inc: nat, most: nat, b: int)
    returns (b': int)
    requires Window(s0, s, i, j, inc, b) && Inv(s, inc, most) && inc > 0 && OpsOk(ops, s.queue.Keys, most)
    requires StayListed(s, ops, i, j, inc, most)
    ensures Window(s0, Run(s, ops, inc, most), i, j, inc, b')
    decreases |ops|
  {
    hide Window, Inv, Step, Shape;
    b' := b;
    if ops != [] {
      StepOk(s, ops[0], inc, most);
      var s1 := Step(s, ops[0], inc, most);
      assert StayListed(s1, ops[1..], i, j, inc, most);
      b' := StepWindow(s0, s, ops[0], i, j, inc, most, b);
      b' := RunWindow(s0, s1, ops[1..], i, j, inc, most, b');
    }
  }

  /** Shares are equal but for turns without credit: in every run in which i and j stay on the list, whoever
      else joins or leaves, what each has sent, plus one increment for each turn it was given without
      credit, differs by less than a constant. */
  lemma SharesDifferBySkips(s: State, ops: seq<Op>, i: nat, j: nat, inc: nat, most: nat)
    requires Inv(s, inc, most) && inc > 0 && OpsOk(ops, s.queue.Keys, most) && StayListed(s, ops, i, j, inc, most)
    ensures var r := Run(s, ops, inc, most);
      && i in s.bytes && j in s.bytes && i in r.bytes && j in r.bytes
      && i in s.skips && j in s.skips && i in r.skips && j in r.skips
      && (r.bytes[i] - s.bytes[i]) - (r.bytes[j] - s.bytes[j])
         + inc * ((r.skips[i] - s.skips[i]) - (r.skips[j] - s.skips[j])) < 3 * inc + 2 * most
  {
    hide Run, Inv, Window, Step;
    assert i in s.list && j in s.list;
    Start(s, i, j, inc, most);
    var b := RunWindow(s, s, ops, i, j, inc, most, 0);
    CreditsBounded(s, ops, inc, most);
    var r := Run(s, ops, inc, most);
    var di, ki := Facts(s, r, i, j, inc, most, b);
    var dj, kj := Facts(s, r, j, i, inc, most, b);
    Difference(inc, ki, kj);
    Combine(inc, r.skips[i] - s.skips[i], r.skips[j] - s.skips[j], ki, kj);
  }

  lemma Start(s: State, i: nat, j: nat, inc: nat, most: nat)
    requires Inv(s, inc, most) && i in s.list && j in s.list
    ensures Window(s, s, i, j, inc, 0)
  {
    hide Pos;
  }

  /** What a qdisc has sent, by its turns; di is how its credit changed and ki how often it got the turn. */
  lemma Facts(s: State, r: State, i: nat, j: nat, inc: nat, most: nat, b: int) returns (di: int, ki: int)
    requires Inv(s, inc, most) && Inv(r, inc, most) && (Window(s, r, i, j, inc, b) || Window(s, r, j, i, inc, b))
    ensures i in s.bytes && i in r.bytes && i in s.skips && i in r.skips && i in s.list && i in r.list
    ensures r.bytes[i] - s.bytes[i] == inc * (ki - (r.skips[i] - s.skips[i])) - di && -(inc + most) < di < inc + most
    ensures ki + Passed(s, i) == b + Passed(r, i)
    ensures j in s.list && j in r.list && (Pos(s.list, i) < Pos(s.list, j) <==> Pos(r.list, i) < Pos(r.list, j))
  {
    hide Distinct, QueuesOk, OthersLow, Pos;
    PosUnique(s.list, Pos(s.list, i));
    PosUnique(s.list, Pos(s.list, j));
    PosUnique(r.list, Pos(r.list, i));
    di, ki := r.credit[i] - s.credit[i], Turns(r, i) - Turns(s, i);
  }

  lemma Difference(inc: nat, a: int, b: int)
    requires a - b <= 1
    ensures inc * a - inc * b <= inc
  {
    var d := 1 - (a - b);
    assert inc * a - inc * b == inc * (a - b) == inc * (1 - d) == inc - inc * d;
    Product(inc, d);
  }

  lemma Combine(inc: nat, x: int, y: int, a: int, b: int)
    ensures inc * (a - x) - inc * (b - y) + inc * (x - y) == inc * a - inc * b
  {
  }

  lemma Product(a: nat, b: nat)
    ensures 0 <= a * b
  {
  }

  /** No qdisc leaves the list. */
  ghost predicate NoneLeaves(s: State, ops: seq<Op>, inc: nat, most: nat)
    requires Inv(s, inc, most) && inc > 0 && OpsOk(ops, s.queue.Keys, most)
    decreases |ops|
  {
    ops == [] ||
    (s.list <= Step(s, ops[0], inc, most).list &&
     (StepOk(s, ops[0], inc, most); NoneLeaves(Step(s, ops[0], inc, most), ops[1..], inc, most)))
  }

  lemma {:induction false} NoSkips(s: State, ops: seq<Op>, i: nat, j: nat, inc: nat, most: nat)
    requires Inv(s, inc, most) && inc > 0 && OpsOk(ops, s.queue.Keys, most) && NoneLeaves(s, ops, inc, most)
    requires i in s.list && j in s.list
    ensures Run(s, ops, inc, most).skips == s.skips && StayListed(s, ops, i, j, inc, most)
    decreases |ops|
  {
    hide Inv, Step;
    if ops != [] {
      StepOk(s, ops[0], inc, most);
      StepSkips(s, ops[0], inc, most);
      NoSkips(Step(s, ops[0], inc, most), ops[1..], i, j, inc, most);
    }
  }

  lemma StepSkips(s: State, op: Op, inc: nat, most: nat)
    requires Inv(s, inc, most) && inc > 0 && OpOk(op, s.queue.Keys, most) && s.list <= Step(s, op, inc, most).list
    ensures Step(s, op, inc, most).skips == s.skips
  {
    hide QueuesOk, Bounded, Distinct, Turn;
    if op.Send? && s.list != [] {
      TurnOk(s, inc, most);
      TurnSkips(s, inc);
      OnList(Turn(s, inc), most, Turn(s, inc).cur);
    }
  }

  lemma TurnSkips(s: State, inc: nat)
    requires Shape(s) && OthersLow(s) && s.list != [] && inc > 0
    ensures Turn(s, inc).skips == s.skips
  {
    hide Rotate;
    if s.cur < 0 {
      LowGiven(s, inc);
      RotateSkips(Give(s, inc, 0), inc);
    } else {
      RotateSkips(s, inc);
    }
  }

  lemma LowGiven(s: State, inc: nat)
    requires Shape(s) && OthersLow(s) && s.cur < 0 && s.list != []
    ensures Shape(Give(s, inc, 0)) && OthersLow(Give(s, inc, 0))
  {
  }

  lemma {:induction false} RotateSkips(s: State, inc: nat)
    requires Shape(s) && OthersLow(s) && 0 <= s.cur && inc > 0
    ensures Rotate(s, inc).skips == s.skips
    decreases Deficit(s.list, s.credit)
  {
    hide Deficit;
    if s.credit[s.list[s.cur]] <= 0 {
      DeficitLess(s.list, s.credit, NextPos(s), inc);
      RotateSkips(Give(s, inc, NextPos(s)), inc);
    }
  }

  /** Equal shares: as long as no qdisc leaves the list, what any two qdiscs on it have sent differs by less than
      a constant. */
  lemma FairShare(s: State, ops: seq<Op>, i: nat, j: nat, inc: nat, most: nat)
    requires Inv(s, inc, most) && inc > 0 && OpsOk(ops, s.queue.Keys, most) && NoneLeaves(s, ops, inc, most)
    requires i in s.list && j in s.list
    ensures var r := Run(s, ops, inc, most);
      && i in s.bytes && j in s.bytes && i in r.bytes && j in r.bytes
      && (r.bytes[i] - s.bytes[i]) - (r.bytes[j] - s.bytes[j]) < 3 * inc + 2 * most
  {
    hide Inv, Run, NoneLeaves, StayListed, OpsOk;
    NoSkips(s, ops, i, j, inc, most);
    SharesDifferBySkips(s, ops, i, j, inc, most);
    var r := Run(s, ops, inc, most);
    NoDifference(inc, r.skips[i] - s.skips[i], r.skips[j] - s.skips[j]);
  }

  lemma NoDifference(inc: nat, x: int, y: int)
    requires x == y
    ensures inc * (x - y) == 0
  {
  }

  // ---- Shares are not equal when qdiscs come and go ----

  /** After a call the turn is with a qdisc that has not been served if and only if the one that was served has
      run out of packets. Such a qdisc has no credit, and the next call gives credit to another one first if
      and only if there is another one. */
  lemma PassedOverIff(s: State, inc: nat, most: nat)
    requires Inv(s, inc, most) && inc > 0 && s.list != []
    ensures var t, r := Turn(s, inc), Step(s, Send, inc, most);
      && 0 <= t.cur < |t.list| && Served(s, inc) in s.queue && Shape(r)
      && (r.list != [] ==> 0 <= r.cur)
      && (r.list != [] ==> (r.list[r.cur] != Served(s, inc) <==> |s.queue[Served(s, inc)]| == 1))
      && (r.list != [] && r.list[r.cur] != Served(s, inc) ==>
            r.credit[r.list[r.cur]] <= 0 && (r.list[NextPos(r)] != r.list[r.cur] <==> |r.list| > 1))
  {
    hide QueuesOk, Bounded, Rotate, Distinct, Turn, Without, Serve;
    TurnOk(s, inc, most);
    var t := Turn(s, inc);
    OnList(t, most, t.cur);
    StepOk(s, Send, inc, most);
    PassedOn(t);
    var r := Step(s, Send, inc, most);
    if r.list != [] && |r.list| > 1 {
      Unlike(r.list, NextPos(r), r.cur);
    }
  }

  /** Who is current after a packet has been sent. */
  lemma PassedOn(t: State)
    requires Shape(t) && OthersLow(t) && 0 <= t.cur && t.queue[t.list[t.cur]] != [] && Shape(Serve(t))
    ensures var r := Serve(t);
      && (r.list != [] ==> 0 <= r.cur)
      && (r.list != [] ==> (r.list[r.cur] != t.list[t.cur] <==> |t.queue[t.list[t.cur]]| == 1))
      && (r.list != [] && r.list[r.cur] != t.list[t.cur] ==> r.credit[r.list[r.cur]] <= 0)
  {
    hide Distinct, Without;
    Removed(t.list, t.cur);
  }

  /** It is the turn of b, which has packets but no credit; a waits with a single packet. */
  ghost predicate PassedOver(s: State, a: nat, b: nat, len: nat) {
    && s.list == [b, a] && s.cur == 0
    && a in s.credit && b in s.credit && s.credit[b] <= 0 && s.credit[a] == 0
    && a in s.queue && s.queue[a] == [len]
  }

  function Repeat(a: nat, len: nat, n: nat): seq<Op> {
    if n == 0 then [] else [Send, Queue(a, len)] + Repeat(a, len, n - 1)
  }

  lemma {:induction false} RepeatOk(a: nat, len: nat, n: nat, qdiscs: set<nat>, most: nat)
    requires a in qdiscs && 0 < len <= most
    ensures OpsOk(Repeat(a, len, n), qdiscs, most)
    decreases n
  {
    if n > 0 {
      RepeatOk(a, len, n - 1, qdiscs, most);
    }
  }

  lemma PassOverSend(s: State, a: nat, b: nat, len: nat, inc: nat, most: nat)
    requires Inv(s, inc, most) && inc > 0 && PassedOver(s, a, b, len)
    ensures a != b
    ensures var s1 := Step(s, Send, inc, most);
      && s1.list == [b] && s1.cur == 0 && s1.queue == s.queue[a := []]
      && a in s1.credit && b in s1.credit && s1.credit[b] == s.credit[b]
      && a in s.bytes && s1.bytes == s.bytes[a := s.bytes[a] + len]
      && b in s.skips && s1.skips == s.skips[b := s.skips[b] + 1]
  {
    hide QueuesOk, OthersLow, Bounded, Rotate;
    assert a != b by { assert s.list[0] != s.list[1]; }
    var t := Give(s, inc, 1);
    LowAfter(s, inc, most);
    RotateOnce(s, inc);
    assert Without(t.list, 1) == [b];
  }

  /** A call in that state serves a, which leaves the list; when a returns, the state is the same again. */
  lemma PassOver(s: State, a: nat, b: nat, len: nat, inc: nat, most: nat)
    requires Inv(s, inc, most) && inc > 0 && PassedOver(s, a, b, len) && 0 < len <= most
    ensures var s1 := Step(s, Send, inc, most);
      && s1.list == [b] && s1.queue.Keys == s.queue.Keys && Inv(s1, inc, most)
      && b in s.queue && a in s.bytes && a in s.queue && b in s.skips
      && var s2 := Step(s1, Queue(a, len), inc, most);
         && PassedOver(s2, a, b, len) && b in s2.queue && s2.queue[b] == s.queue[b]
         && s2.queue.Keys == s.queue.Keys && Inv(s2, inc, most)
         && s2.bytes == s.bytes[a := s.bytes[a] + len] && s2.skips == s.skips[b := s.skips[b] + 1]
  {
    hide Inv, Step;
    Waiting(s, a, b, len, inc, most);
    PassOverSend(s, a, b, len, inc, most);
    StepOk(s, Send, inc, most);
    var s1 := Step(s, Send, inc, most);
    StepOk(s1, Queue(a, len), inc, most);
    assert Shape(s1) by { InvShape(s1, inc, most); }
    FourthStep(s1, a, b, len, inc, most);
  }

  lemma InvShape(s: State, inc: nat, most: nat)
    requires Inv(s, inc, most)
    ensures Shape(s)
  {
  }

  lemma LowAfter(s: State, inc: nat, most: nat)
    requires Inv(s, inc, most) && |s.list| == 2 && s.cur == 0 && s.credit[s.list[0]] <= 0
    ensures OthersLow(Give(s, inc, 1))
  {
  }

  lemma RotateOnce(s: State, inc: nat)
    requires Shape(s) && OthersLow(s) && |s.list| == 2 && s.cur == 0 && inc > 0
    requires s.credit[s.list[0]] <= 0 && s.credit[s.list[1]] == 0
    ensures Rotate(s, inc) == Give(s, inc, 1)
  {
  }

  /** Starvation: for every n there is a run in which b has deferred packets all the time and a sends n
      packets, one at a time, but b sends none. */
  lemma {:induction false} Starvation(s: State, a: nat, b: nat, len: nat, inc: nat, most: nat, n: nat)
    requires Inv(s, inc, most) && inc > 0 && PassedOver(s, a, b, len) && 0 < len <= most
    ensures OpsOk(Repeat(a, len, n), s.queue.Keys, most)
    ensures var r := Run(s, Repeat(a, len, n), inc, most);
      && PassedOver(r, a, b, len) && b in s.queue && b in r.queue && r.queue[b] == s.queue[b] != []
      && a in s.bytes && r.bytes == s.bytes[a := s.bytes[a] + n * len]
      && b in s.skips && r.skips == s.skips[b := s.skips[b] + n]
    decreases n
  {
    hide PassedOver, Inv, Step;
    assert a in s.queue && b in s.queue && a in s.bytes && b in s.skips && s.queue[b] != [] by {
      Waiting(s, a, b, len, inc, most);
    }
    RepeatOk(a, len, n, s.queue.Keys, most);
    if n > 0 {
      var ops := Repeat(a, len, n);
      assert ops[0] == Send && ops[1..][0] == Queue(a, len) && ops[1..][1..] == Repeat(a, len, n - 1);
      PassOver(s, a, b, len, inc, most);
      var s1 := Step(s, Send, inc, most);
      var s2 := Step(s1, Queue(a, len), inc, most);
      assert Run(s, ops, inc, most) == Run(s1, ops[1..], inc, most);
      assert Run(s1, ops[1..], inc, most) == Run(s2, Repeat(a, len, n - 1), inc, most);
      Starvation(s2, a, b, len, inc, most, n - 1);
      assert len + (n - 1) * len == n * len;
    } else {
      assert s.bytes[a := s.bytes[a]] == s.bytes && s.skips[b := s.skips[b]] == s.skips;
    }
  }

  lemma Waiting(s: State, a: nat, b: nat, len: nat, inc: nat, most: nat)
    requires Inv(s, inc, most) && PassedOver(s, a, b, len)
    ensures a in s.queue && b in s.queue && a in s.bytes && b in s.skips && s.queue[b] != []
  {
    OnList(s, most, 0);
  }

  /** Such a state is reached from the start in four steps. */
  lemma StarvationReached(a: nat, b: nat, len: nat, inc: nat, most: nat)
    requires a != b && inc > 0 && 0 < len <= most
    ensures var ops := [Queue(a, len), Queue(b, len), Send, Queue(a, len)];
      && Inv(Init({a, b}), inc, most) && OpsOk(ops, {a, b}, most)
      && Init({a, b}).queue.Keys == {a, b}
      && PassedOver(Run(Init({a, b}), ops, inc, most), a, b, len)
  {
    hide Inv, Step;
    var ops := [Queue(a, len), Queue(b, len), Send, Queue(a, len)];
    var s0 := Init({a, b});
    InitOk({a, b}, inc, most);
    assert s0.queue.Keys == {a, b};
    assert ops[1..] == [Queue(b, len), Send, Queue(a, len)] && ops[1..][1..] == [Send, Queue(a, len)];
    assert ops[1..][1..][1..] == [Queue(a, len)] && ops[1..][1..][1..][1..] == [];
    StepOk(s0, ops[0], inc, most);
    var s1 := Step(s0, ops[0], inc, most);
    StepOk(s1, ops[1], inc, most);
    var s2 := Step(s1, ops[1], inc, most);
    StepOk(s2, ops[2], inc, most);
    var s3 := Step(s2, ops[2], inc, most);
    StepOk(s3, ops[3], inc, most);
    var s4 := Step(s3, ops[3], inc, most);
    assert Run(s0, ops, inc, most) == Run(s1, ops[1..], inc, most) == Run(s2, ops[1..][1..], inc, most);
    assert Run(s2, ops[1..][1..], inc, most) == Run(s3, [ops[3]], inc, most) == s4;
    FirstSteps(a, b, len, inc, most);
    ThirdStep(s2, a, b, len, inc, most);
    assert Shape(s3) by { InvShape(s3, inc, most); }
    FourthStep(s3, a, b, len, inc, most);
  }

  lemma FirstSteps(a: nat, b: nat, len: nat, inc: nat, most: nat)
    requires a != b && inc > 0 && 0 < len <= most && Inv(Init({a, b}), inc, most)
    ensures var s0 := Init({a, b}); var s1 := Step(s0, Queue(a, len), inc, most);
      && Inv(s1, inc, most) && b in s1.queue
      && var s2 := Step(s1, Queue(b, len), inc, most);
         && s2.list == [a, b] && s2.cur == -1 && a in s2.credit && b in s2.credit && s2.credit[a] == 0 == s2.credit[b]
         && a in s2.queue && s2.queue[a] == [len]
  {
    hide Inv;
    var s0 := Init({a, b});
    StepOk(s0, Queue(a, len), inc, most);
    assert [] + [a] == [a] && [a] + [b] == [a, b];
    assert Shape(s0) by { InvShape(s0, inc, most); }
    var s1 := Step(s0, Queue(a, len), inc, most);
    assert Shape(s1) by { InvShape(s1, inc, most); }
    assert s1.list == [a];
  }

  lemma ThirdStep(s: State, a: nat, b: nat, len: nat, inc: nat, most: nat)
    requires Inv(s, inc, most) && inc > 0 && a != b && s.list == [a, b] && s.cur == -1
    requires a in s.credit && b in s.credit && s.credit[a] == 0 == s.credit[b] && a in s.queue && s.queue[a] == [len]
    ensures var r := Step(s, Send, inc, most);
      && r.list == [b] && r.cur == 0 && b in r.credit && r.credit[b] == 0 && a in r.queue && r.queue[a] == []
  {
    hide QueuesOk, OthersLow, Bounded, Turn, Rotate, Distinct;
    var t := Give(s, inc, 0);
    assert Turn(s, inc) == t by { LowFirst(s, inc, most); }
    assert Without(t.list, 0) == [b];
  }

  lemma LowFirst(s: State, inc: nat, most: nat)
    requires Inv(s, inc, most) && |s.list| == 2 && s.cur == -1 && inc > 0 && s.credit[s.list[0]] == 0
    ensures OthersLow(Give(s, inc, 0)) && Turn(s, inc) == Give(s, inc, 0)
  {
  }

  lemma FourthStep(s: State, a: nat, b: nat, len: nat, inc: nat, most: nat)
    requires Inv(s, inc, most) && Shape(s) && inc > 0 && a != b && s.list == [b] && s.cur == 0 && 0 < len <= most
    requires b in s.credit && s.credit[b] <= 0 && a in s.queue && s.queue[a] == []
    ensures var r := Step(s, Queue(a, len), inc, most);
      PassedOver(r, a, b, len) && r.bytes == s.bytes && r.skips == s.skips && r.queue == s.queue[a := [len]]
  {
    hide Inv;
    assert [b] + [a] == [b, a] && [] + [len] == [len];
  }

  // ---- In place ----

  class TcpQdiscs {
    const inc: nat
    ghost const most: nat
    var list: seq<nat>
    var cur: int
    var credit: map<nat, int>
    var queue: map<nat, seq<nat>>
    ghost var incs: map<nat, int>
    ghost var skips: map<nat, int>
    ghost var bytes: map<nat, int>

    ghost function Abs(): State
      reads this
    {
      State(list, cur, credit, queue, incs, skips, bytes)
    }

    ghost predicate Valid()
      reads this
    {
      inc > 0 && Inv(Abs(), inc, most)
    }

    constructor (qdiscs: set<nat>, inc: nat, ghost most: nat)
      requires inc > 0
      ensures Valid() && Abs() == Init(qdiscs) && this.inc == inc && this.most == most
    {
      this.inc, this.most := inc, most;
      list, cur := [], -1;
      credit, queue := map q | q in qdiscs :: 0, map q | q in qdiscs :: [];
      incs, skips, bytes := map q | q in qdiscs :: 0, map q | q in qdiscs :: 0, map q | q in qdiscs :: 0;
      new;
      InitOk(qdiscs, inc, most);
    }

    /** homa_qdisc_defer_tcp. */
    method DeferTcp(q: nat, len: nat)
      requires Valid() && q in queue && 0 < len <= most
      modifies this
      ensures Valid() && Abs() == Step(old(Abs()), Queue(q, len), inc, most)
    {
      hide Inv;
      InvShape(Abs(), inc, most);
      StepOk(Abs(), Queue(q, len), inc, most);
      queue := queue[q := queue[q] + [len]];
      if q !in list {
        credit := credit[q := 0];
        list := list + [q];
      }
    }

    /** homa_qdisc_xmit_deferred_tcp: the length of the packet sent, or 0. */
    method XmitDeferredTcp() returns (len: nat)
      requires Valid()
      modifies this
      ensures Valid() && Abs() == Step(old(Abs()), Send, inc, most)
      ensures len == 0 <==> old(list) == []
      ensures old(list) != [] ==>
                && Shape(old(Abs())) && OthersLow(old(Abs()))
                && 0 <= Turn(old(Abs()), inc).cur < |Turn(old(Abs()), inc).list|
                && Served(old(Abs()), inc) in old(queue) && old(queue)[Served(old(Abs()), inc)] != []
                && len == old(queue)[Served(old(Abs()), inc)][0]
    {
      hide Inv, Turn, Serve, Shape;
      if list == [] {
        return 0;
      }
      StepOk(Abs(), Send, inc, most);
      SendTakesFirst(Abs(), inc, most);
      TurnOk(Abs(), inc, most);
      InvParts(Abs(), inc, most);
      FindTurn();
      InvParts(Abs(), inc, most);
      OnList(Abs(), most, cur);
      len := SendFirst();
    }

    /** Send the first packet of the current qdisc. */
    method SendFirst() returns (len: nat)
      requires Shape(Abs()) && 0 <= cur && queue[list[cur]] != []
      modifies this
      ensures Abs() == Serve(old(Abs())) && len == old(queue[list[cur]][0])
    {
      hide Distinct, Sent, Leave, Shape;
      CurrentOk(Abs());
      var q := list[cur];
      len := queue[q][0];
      SentIs(Abs());
      queue, credit, bytes := queue[q := queue[q][1..]], credit[q := credit[q] - len], bytes[q := bytes[q] + len];
      if queue[q] == [] {
        TakeOffList();
      }
    }

    /** The current qdisc leaves the list, and the next one is current. */
    method TakeOffList()
      requires Shape(Abs()) && 0 <= cur
      modifies `list, `cur, `skips
      ensures Abs() == Leave(old(Abs()))
    {
      hide Distinct;
      Removed(list, cur);
      list := list[..cur] + list[cur + 1..];
      cur := if list == [] then -1 else if cur < |list| then cur else 0;
      if list != [] {
        skips := skips[list[cur] := skips[list[cur]] + 1];
      }
    }

    /** Give the turn, and credit, to the qdisc at position i. */
    method GiveCredit(i: int)
      requires Shape(Abs()) && 0 <= i < |list|
      modifies `cur, `credit, `incs
      ensures Abs() == Give(old(Abs()), inc, i)
    {
      credit := credit[list[i] := credit[list[i]] + inc];
      incs := incs[list[i] := incs[list[i]] + 1];
      cur := i;
    }

    /** The turn goes to the first qdisc, from the current one on, whose credit is above zero. */
    method FindTurn()
      requires Valid() && list != []
      modifies `cur, `credit, `incs
      ensures Shape(old(Abs())) && OthersLow(old(Abs())) && Abs() == Turn(old(Abs()), inc)
    {
      hide Inv, Give, Rotate, Shape, OthersLow;
      InvParts(Abs(), inc, most);
      if cur < 0 {
        FirstTurn(Abs(), inc, most);
        GiveCredit(0);
      }
      PassTurn();
    }

    /** The loop: the turn passes on until a qdisc has positive credit. */
    method PassTurn()
      requires Valid() && Shape(Abs()) && OthersLow(Abs()) && 0 <= cur
      modifies `cur, `credit, `incs
      ensures Abs() == Rotate(old(Abs()), inc)
    {
      hide Inv, Give, Deficit, Rotate, Shape, OthersLow;
      ghost var start := Abs();
      CurrentOk(start);
      while credit[list[cur]] <= 0
        invariant Valid() && Shape(Abs()) && OthersLow(Abs()) && 0 <= cur < |list| && list[cur] in credit
        invariant Rotate(Abs(), inc) == Rotate(start, inc)
        decreases Deficit(list, credit)
      {
        GoRound(Abs(), inc, most);
        GiveCredit(if cur + 1 < |list| then cur + 1 else 0);
        CurrentOk(Abs());
      }
      RotateStops(Abs(), inc);
    }
  }

  lemma CurrentOk(s: State)
    requires Shape(s) && 0 <= s.cur
    ensures s.cur < |s.list| && s.list[s.cur] in s.credit
    ensures s.credit.Keys == s.queue.Keys == s.bytes.Keys
  {
  }

  lemma SentIs(s: State)
    requires Shape(s) && 0 <= s.cur && s.queue[s.list[s.cur]] != []
    ensures var q := s.list[s.cur]; var len := s.queue[q][0];
      && q in s.credit && q in s.bytes
      && Sent(s) == s.(queue := s.queue[q := s.queue[q][1..]], credit := s.credit[q := s.credit[q] - len],
                       bytes := s.bytes[q := s.bytes[q] + len])
  {
  }

  lemma FirstTurn(s: State, inc: nat, most: nat)
    requires Inv(s, inc, most) && s.cur < 0 && s.list != []
    ensures Shape(s)
    ensures var r := Give(s, inc, 0);
      Inv(r, inc, most) && Shape(r) && OthersLow(r) && r.cur == 0 && r.list == s.list && r.list[0] in r.credit
  {
    GiveOk(s, inc, most, 0);
  }

  lemma GoRound(s: State, inc: nat, most: nat)
    requires Inv(s, inc, most) && Shape(s) && OthersLow(s) && 0 <= s.cur && inc > 0 && s.credit[s.list[s.cur]] <= 0
    ensures var r := Give(s, inc, NextPos(s));
      && Inv(r, inc, most) && Shape(r) && OthersLow(r) && r.list == s.list && r.cur == NextPos(s)
      && r.list[r.cur] in r.credit
      && Rotate(r, inc) == Rotate(s, inc) && Deficit(r.list, r.credit) < Deficit(s.list, s.credit)
  {
    hide QueuesOk, Bounded, Deficit;
    GiveOk(s, inc, most, NextPos(s));
    DeficitLess(s.list, s.credit, NextPos(s), inc);
  }

  lemma RotateStops(s: State, inc: nat)
    requires Shape(s) && OthersLow(s) && 0 <= s.cur && inc > 0 && s.credit[s.list[s.cur]] > 0
    ensures Rotate(s, inc) == s
  {
  }

  lemma InvParts(s: State, inc: nat, most: nat)
    requires Inv(s, inc, most)
    ensures Shape(s) && QueuesOk(s, most) && OthersLow(s)
  {
  }
}
