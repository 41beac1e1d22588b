/** How much homa_grant.c grants: each grant is as large as its limits allow, and none is withheld. */
module GrantAmounts {
  import opened Basics
  import opened RankedLists
  import opened GrantQueues
  import opened GrantQueueProofs
  import opened GrantSched
  import opened GrantRuns

  function Least(a: int, b: int): int {
    if a < b then a else b
  }

  function Most(a: int, b: int): int {
    if a < b then b else a
  }

  // ---- The window ----

  /** An active RPC has the share of max_incoming that leaves as much again for newcomers. */
  lemma WindowShare(c: Config, n: nat)
    ensures var w := WindowSize(c, n);
      && (c.windowParam != 0 ==> w == c.windowParam)
      && (c.windowParam == 0 ==> w * (n + 1) <= c.maxIncoming < (w + 1) * (n + 1))
  {
    var w := WindowSize(c, n);
    assert (w + 1) * (n + 1) == w * (n + 1) + (n + 1);
  }

  /** rec_incoming is what has been granted and not received, and total_incoming follows it. */
  lemma IncomingExact(s: Sched, r: nat)
    requires r in s.msgs
    ensures var s' := UpdateIncoming(s, r); var m := s.msgs[r];
      && r in s'.msgs && s'.msgs[r].recIncoming == Most(0, m.granted - m.received)
      && s'.total - s.total == s'.msgs[r].recIncoming - m.recIncoming
      && s' == s.(msgs := s.msgs[r := m.(recIncoming := s'.msgs[r].recIncoming, recorded := true)], total := s'.total)
  {
  }

  // ---- Window grants ----

  /** An offset that may be granted: within the message, within the window, and with total_incoming within
      max_incoming once it is accounted for. */
  ghost predicate Grantable(c: Config, s: Sched, m: Msg, offset: int) {
    && offset <= m.length && offset <= m.received + s.window
    && s.total + (offset - m.received - m.recIncoming) <= c.maxIncoming
  }

  /** The largest such offset. */
  function Reach(c: Config, s: Sched, m: Msg): int {
    Least(Least(m.length, m.received + s.window), m.received + m.recIncoming + c.maxIncoming - s.total)
  }

  lemma ReachLargest(c: Config, s: Sched, m: Msg, offset: int)
    ensures Grantable(c, s, m, offset) <==> offset <= Reach(c, s, m)
  {
  }

  /** The byte budget is what limits the grant. */
  predicate BudgetBinds(c: Config, s: Sched, m: Msg) {
    m.received + m.recIncoming + c.maxIncoming - s.total < Least(m.length, m.received + s.window)
  }

  /** r may have grants: it is active, its peer responds, and it does not have all its grants. */
  predicate WantsGrant(s: Sched, r: nat) {
    r in s.msgs && r in s.q.active && !s.msgs[r].silent && s.msgs[r].granted < s.msgs[r].length
  }

  /** homa_grant_update_granted: a grant is due if and only if r may have grants and an offset beyond the one it
      has may be granted; the new offset is the largest such. The stalled rank goes down to r's exactly if the
      byte budget is what limits an RPC that may have grants. */
  lemma UpdateGrantedIff(c: Config, s: Sched, r: nat)
    ensures var (s', grew) := UpdateGranted(c, s, r);
      && (grew <==> WantsGrant(s, r) &&
                    exists offset: int :: Grantable(c, s, s.msgs[r], offset) && offset > s.msgs[r].granted)
      && (grew ==> Reach(c, s, s.msgs[r]) > s.msgs[r].granted
                   && s'.msgs == s.msgs[r := s.msgs[r].(granted := Reach(c, s, s.msgs[r]))])
      && (!grew ==> s'.msgs == s.msgs)
      && s'.stalled == (if WantsGrant(s, r) && BudgetBinds(c, s, s.msgs[r])
                        then Least(s.stalled, IndexOf(s.q.active, r)) else s.stalled)
      && s' == s.(msgs := s'.msgs, stalled := s'.stalled)
  {
    if r in s.msgs {
      var m := s.msgs[r];
      ReachLargest(c, s, m, Reach(c, s, m));
      if offset: int :| Grantable(c, s, m, offset) && offset > m.granted {
        ReachLargest(c, s, m, offset);
      }
    }
  }

  /** The offset that r has after a window grant. */
  function GrantedTo(c: Config, s: Sched, r: nat): int
    requires r in s.msgs
  {
    if WantsGrant(s, r) then Most(s.msgs[r].granted, Reach(c, s, s.msgs[r])) else s.msgs[r].granted
  }

  /** A window grant, with what follows from it: r has the largest offset that may be granted, its bytes are accounted
      for, no other message changes, and as long as r is managed another window grant to it adds nothing. */
  lemma WindowGrantExact(c: Config, s: Sched, r: nat)
    requires r in s.msgs && MsgOk(s.msgs[r])
    ensures var s' := WindowGrant(c, s, r).0; var m := s.msgs[r];
      && r in s'.msgs && s'.msgs[r].granted == GrantedTo(c, s, r)
      && (s'.msgs[r].granted > m.granted ==> s'.msgs[r].recIncoming == Most(0, s'.msgs[r].granted - m.received))
      && s'.total - s.total == s'.msgs[r].recIncoming - m.recIncoming
      && s'.msgs == s.msgs[r := s'.msgs[r]] && s'.msgs[r].received == m.received && s'.msgs[r].length == m.length
      && (UpdateGranted(c, s, r).1 && s'.msgs[r].granted < m.length ==> s'.q == s.q && !UpdateGranted(c, s', r).1)
  {
    hide Expel, Managed, UpdateGranted;
    UpdateGrantedIff(c, s, r);
    ReachLargest(c, s, s.msgs[r], Reach(c, s, s.msgs[r]));
    var (s1, grew) := UpdateGranted(c, s, r);
    if grew {
      IncomingExact(s1, r);
      var s2 := UpdateIncoming(s1, r);
      UpdateGrantedIff(c, s2, r);
      forall offset: int ensures !(Grantable(c, s2, s2.msgs[r], offset) && offset > s2.msgs[r].granted) {
        ReachLargest(c, s2, s2.msgs[r], offset);
      }
    } else if WantsGrant(s, r) {
      assert !(Grantable(c, s, s.msgs[r], Reach(c, s, s.msgs[r])) && Reach(c, s, s.msgs[r]) > s.msgs[r].granted);
    }
  }

  // ---- FIFO grants ----

  /** A FIFO grant adds fifo_grant_increment bytes, or what is left of the message. */
  lemma FifoExact(c: Config, m: Msg)
    requires m.granted <= m.length
    ensures var m' := FifoRaised(c, m);
      && m'.granted == Least(m.length, m.granted + c.fifoIncrement)
      && m' == m.(granted := m'.granted, fifo := m.fifo + (m'.granted - m.granted))
  {
  }

  /** A FIFO grant with what follows from it: the message has those bytes, they are accounted for, no other message
      changes, and it is managed afterwards exactly if it still needs grants. */
  lemma FifoGrantExact(c: Config, s: Sched, r: nat)
    requires ValidConfig(c) && Inv(c, s) && r in s.msgs && Managed(s.msgs, s.q, r)
    ensures var s' := FifoGrant(c, s, r).0; var m := s.msgs[r];
      && r in s'.msgs && s'.msgs[r].granted == Least(m.length, m.granted + c.fifoIncrement)
      && s'.msgs[r].recIncoming == Most(0, s'.msgs[r].granted - m.received)
      && s'.total - s.total == s'.msgs[r].recIncoming - m.recIncoming
      && s'.msgs == s.msgs[r := s'.msgs[r]]
      && (Managed(s'.msgs, s'.q, r) <==> s'.msgs[r].granted < m.length)
  {
    hide QInv, Conserving, BudgetOk, Managed, Expel, Promote, MsgOk;
    EachMsgOk(c, s, r);
    assert s.msgs[r].granted <= s.msgs[r].length by { GrantedInside(s.msgs[r]); }
    FifoExact(c, s.msgs[r]);
    FifoManages(c, s, r);
  }

  lemma GrantedInside(m: Msg)
    requires MsgOk(m)
    ensures m.granted <= m.length
  {
  }

  lemma FifoManages(c: Config, s: Sched, r: nat)
    requires ValidConfig(c) && Inv(c, s) && r in s.msgs && Managed(s.msgs, s.q, r)
    ensures var s' := FifoGrant(c, s, r).0;
      Managed(s'.msgs, s'.q, r) <==> FifoRaised(c, s.msgs[r]).granted < s.msgs[r].length
  {
    hide QInv, Conserving, BudgetOk, FifoGrant, MsgOk, Managed;
    FifoGrantKeys(c, s, r);
    var s' := FifoGrant(c, s, r).0;
    if FifoRaised(c, s.msgs[r]).granted < s.msgs[r].length {
      FifoPromoteOk(c, s, r);
      assert r in ManagedSet(s.msgs, s.q);
      assert r in ManagedSet(s'.msgs, s'.q);
    } else {
      FifoCompleteOk(c, s, r);
      assert s'.msgs[r].granted >= s'.msgs[r].length by { FifoWhole(c, s, r); }
      CompleteNotManaged(c, s', r);
      assert r !in ManagedSet(s'.msgs, s'.q);
    }
  }

  lemma FifoWhole(c: Config, s: Sched, r: nat)
    requires r in s.msgs && FifoRaised(c, s.msgs[r]).granted >= s.msgs[r].length
    ensures var s' := FifoGrant(c, s, r).0; r in s'.msgs && s'.msgs[r].granted >= s'.msgs[r].length
  {
    hide Expel, Managed;
  }
}
