/** Every run of the grant scheduler keeps the scheduler's invariant. */
module GrantRuns {
  import opened Basics
  import opened RankedLists
  import opened GrantQueues
  import opened GrantQueueProofs
  import opened GrantSched
  import opened Sums

  // ---- Byte budget ----

  lemma BudgetSet(c: Config, msgs: map<nat, Msg>, total: int, r: nat, m: Msg, total': int)
    requires BudgetOk(c, msgs, total)
    requires total' == total + m.recIncoming - (if r in msgs then msgs[r].recIncoming else 0)
    requires total' <= c.maxIncoming
      || m.recIncoming - (if r in msgs then msgs[r].recIncoming else 0)
         <= Excess(m) - (if r in msgs then Excess(msgs[r]) else 0)
    ensures BudgetOk(c, msgs[r := m], total')
  {
    hide Sum, Excess;
    SumSet(RecMap(msgs), r, m.recIncoming);
    assert RecMap(msgs[r := m]) == RecMap(msgs)[r := m.recIncoming];
    SumSet(ExcessMap(msgs), r, Excess(m));
    assert ExcessMap(msgs[r := m]) == ExcessMap(msgs)[r := Excess(m)];
    SumNonNegative(ExcessMap(msgs[r := m]));
  }

  lemma BudgetRemove(c: Config, msgs: map<nat, Msg>, total: int, r: nat)
    requires BudgetOk(c, msgs, total) && r in msgs
    ensures BudgetOk(c, msgs - {r}, total - msgs[r].recIncoming)
  {
    SumOut(RecMap(msgs), r);
    assert RecMap(msgs - {r}) == RecMap(msgs) - {r};
    SumOut(ExcessMap(msgs), r);
    assert ExcessMap(msgs - {r}) == ExcessMap(msgs) - {r};
  }

  /** A window grant never takes total_incoming above max_incoming, nor higher than it was. */
  lemma WindowGrantBudget(c: Config, s: Sched, r: nat)
    requires r in s.msgs && MsgOk(s.msgs[r])
    ensures var (s1, grew) := UpdateGranted(c, s, r);
      grew ==>
        && s1.msgs == s.msgs[r := s1.msgs[r]]
        && s.msgs[r].granted < s1.msgs[r].granted <= s.msgs[r].length
        && s1.msgs[r].granted <= s.msgs[r].received + s.window
        && (var s2 := UpdateIncoming(s1, r);
            s2.total <= c.maxIncoming || (s2.total <= s.total && s2.msgs[r].recIncoming <= s.msgs[r].recIncoming))
  {
  }

  // ---- Queue facts about single messages ----

  /** The queues only depend on the messages in them. */
  lemma QueueFrame(c: Config, msgs: map<nat, Msg>, msgs': map<nat, Msg>, q: Queues)
    requires QInv(c, msgs, q)
    requires forall x :: x in msgs && Managed(msgs, q, x) ==> x in msgs' && msgs'[x] == msgs[x]
    ensures QInv(c, msgs', q)
    ensures Conserving(c, msgs, q) ==> Conserving(c, msgs', q)
    ensures ManagedSet(msgs', q) == ManagedSet(msgs, q)
  {
    hide Sorted, Distinct, Load;
    forall p ensures Load(msgs', q.active, p) == Load(msgs, q.active, p) {
      LoadSamePeers(msgs, msgs', q.active, p);
    }
    forall p ensures Load(msgs', q.active, p) <= c.maxPerPeer {
      assert Load(msgs, q.active, p) <= c.maxPerPeer;
    }
    forall p ensures ListOk(msgs', q, p) && Sorted(msgs', Wait(q, p)) {
      assert ListOk(msgs, q, p);
      SortedSameKeys(msgs, msgs', Wait(q, p));
    }
    forall o | o in q.peers ensures SamePriority(Key(Heads(msgs, q), o), Key(Heads(msgs', q), o)) {
      assert Wait(q, o) != [] && ListOk(msgs, q, o) && Wait(q, o)[0] in Wait(q, o);
    }
    SortedSameKeys(Heads(msgs, q), Heads(msgs', q), q.peers);
    SameManaged(msgs, msgs', q);
  }

  lemma SameManaged(msgs: map<nat, Msg>, msgs': map<nat, Msg>, q: Queues)
    requires WaitingOk(msgs, q) && WaitingOk(msgs', q)
    requires forall r :: r in q.active ==> r in msgs && r in msgs'
    requires forall x :: x in msgs && Managed(msgs, q, x) ==> x in msgs' && msgs'[x] == msgs[x]
    ensures ManagedSet(msgs', q) == ManagedSet(msgs, q)
  {
    hide Sorted, Distinct;
    forall x ensures x in ManagedSet(msgs', q) <==> x in ManagedSet(msgs, q) {
      assert ListOk(msgs, q, PeerOf(msgs', x));
    }
  }

  // ---- Single steps ----

  /** The invariant, except that r may be managed although it is fully granted. */
  ghost predicate InvBut(c: Config, s: Sched, r: nat) {
    && QInv(c, s.msgs, s.q) && Conserving(c, s.msgs, s.q)
    && (forall x :: x in s.msgs ==> MsgOk(s.msgs[x]))
    && (forall x :: x in s.msgs && Managed(s.msgs, s.q, x) && x != r ==> s.msgs[x].granted < s.msgs[x].length)
    && BudgetOk(c, s.msgs, s.total)
    && s.window == WindowSize(c, |s.q.active|)
    && s.numGrantable == |ManagedSet(s.msgs, s.q)|
    && (s.oldest.Some? ==> s.oldest.value in s.msgs && Managed(s.msgs, s.q, s.oldest.value))
  }

  lemma ManageOk(c: Config, s: Sched, r: nat)
    requires Inv(c, s) && r in s.msgs && !Managed(s.msgs, s.q, r) && s.msgs[r].granted < s.msgs[r].length
    ensures Inv(c, Manage(c, s, r))
  {
    hide QInv, Conserving, BudgetOk, Admit, Managed, MsgOk;
    AdmitOk(c, s.msgs, s.q, r);
    AdmitConserves(c, s.msgs, s.q, r);
    var q := Admit(c, s.msgs, s.q, r);
    assert ManagedSet(s.msgs, q) == ManagedSet(s.msgs, s.q) + {r};
  }

  /** Unmanaging r right after its own numbers changed: all that does not concern bytes is in order. */
  lemma UnmanageQueues(c: Config, s: Sched, r: nat, m: Msg)
    requires InvBut(c, s, r) && r in s.msgs && m.peer == s.msgs[r].peer
    ensures var (s', other) := Unmanage(c, SetMsg(s, r, m), r);
      && QInv(c, s'.msgs, s'.q) && Conserving(c, s'.msgs, s'.q)
      && s'.msgs == s.msgs[r := m] && s'.total == s.total && s'.stalled == s.stalled
      && s'.window == WindowSize(c, |s'.q.active|) && s'.numGrantable == |ManagedSet(s'.msgs, s'.q)|
      && !Managed(s'.msgs, s'.q, r) && ManagedSet(s'.msgs, s'.q) <= ManagedSet(s.msgs, s.q)
      && (forall x :: x in s'.msgs && Managed(s'.msgs, s'.q, x) ==> s'.msgs[x].granted < s'.msgs[x].length)
      && (s'.oldest.Some? ==> s'.oldest.value in s'.msgs && Managed(s'.msgs, s'.q, s'.oldest.value))
      && (other.Some? ==> other.value in s'.q.active && other.value in s'.msgs)
  {
    hide QInv, Conserving, BudgetOk, Expel, Managed, MsgOk;
    var msgs' := s.msgs[r := m];
    ExpelOk(c, s.msgs, msgs', s.q, r);
    var q := Expel(c, msgs', s.q, r).0;
    assert Managed(msgs', s.q, r) == Managed(s.msgs, s.q, r) by { SameManagedOne(s.msgs, msgs', s.q, r); }
    if Managed(s.msgs, s.q, r) {
      assert ManagedSet(msgs', q) == ManagedSet(s.msgs, s.q) - {r};
    } else {
      assert ManagedSet(msgs', q) == ManagedSet(s.msgs, s.q);
      ExpelAbsent(c, msgs', s.q, r);
    }
  }

  lemma SameManagedOne(msgs: map<nat, Msg>, msgs': map<nat, Msg>, q: Queues, r: nat)
    requires PeerOf(msgs, r) == PeerOf(msgs', r)
    ensures Managed(msgs', q, r) == Managed(msgs, q, r)
  {
  }

  lemma UnmanageOk(c: Config, s: Sched, r: nat)
    requires InvBut(c, s, r) && r in s.msgs
    ensures var (s', other) := Unmanage(c, s, r);
      && Inv(c, s') && !Managed(s'.msgs, s'.q, r) && ManagedSet(s'.msgs, s'.q) <= ManagedSet(s.msgs, s.q)
      && s'.msgs == s.msgs && s'.total == s.total && s'.stalled == s.stalled
      && (other.Some? ==> other.value in s'.q.active && other.value in s'.msgs)
  {
    hide QInv, Conserving, BudgetOk, Unmanage, Managed, MsgOk;
    UnmanageQueues(c, s, r, s.msgs[r]);
    assert SetMsg(s, r, s.msgs[r]) == s;
  }

  lemma ExpelAbsent(c: Config, msgs: map<nat, Msg>, q: Queues, r: nat)
    requires !Managed(msgs, q, r)
    ensures Expel(c, msgs, q, r) == (q, None)
  {
  }

  /** Changing the numbers of one message whose place in the queues stays right. */
  lemma SetMsgOk(c: Config, s: Sched, r: nat, m: Msg, total': int)
    requires InvBut(c, s, r) && r in s.msgs && MsgOk(m) && m.peer == s.msgs[r].peer
    requires r !in Wait(s.q, s.msgs[r].peer) || SamePriority(s.msgs[r], m)
    requires total' == s.total + m.recIncoming - s.msgs[r].recIncoming
    requires total' <= c.maxIncoming || m.recIncoming - s.msgs[r].recIncoming <= Excess(m) - Excess(s.msgs[r])
    ensures InvBut(c, SetMsg(s, r, m).(total := total'), r)
    ensures ManagedSet(s.msgs[r := m], s.q) == ManagedSet(s.msgs, s.q)
  {
    hide QInv, Conserving, BudgetOk, Managed, MsgOk, SamePriority, Excess;
    BudgetSet(c, s.msgs, s.total, r, m, total');
    MsgFrame(c, s.msgs, s.msgs[r := m], s.q, r);
    assert ManagedSet(s.msgs[r := m], s.q) == ManagedSet(s.msgs, s.q);
  }

  lemma UpdateIncomingOk(c: Config, s: Sched, r: nat)
    requires InvBut(c, s, r) && r in s.msgs
    ensures InvBut(c, UpdateIncoming(s, r), r)
  {
    hide QInv, Conserving, BudgetOk, Managed;
    SetMsgOk(c, s, r, Recorded(s.msgs[r]), UpdateIncoming(s, r).total);
  }

  /** Growing a grant and accounting for it leaves at most r's own completion to deal with. */
  lemma GrowOk(c: Config, s: Sched, r: nat)
    requires Inv(c, s) && UpdateGranted(c, s, r).1
    ensures var s2 := UpdateIncoming(UpdateGranted(c, s, r).0, r);
      && InvBut(c, s2, r) && r in s2.q.active && s2.q == s.q && s2.msgs.Keys == s.msgs.Keys
      && ManagedSet(s2.msgs, s2.q) == ManagedSet(s.msgs, s.q)
    ensures r in UpdateGranted(c, s, r).0.msgs
  {
    hide QInv, Conserving, BudgetOk, Managed;
    var s1 := UpdateGranted(c, s, r).0;
    WindowGrantBudget(c, s, r);
    ActiveNotWaitingQ(c, s, r);
    var s2 := UpdateIncoming(s1, r);
    var s0 := s.(stalled := s1.stalled);
    assert InvBut(c, s0, r);
    SetMsgOk(c, s0, r, s2.msgs[r], s2.total);
    assert s2 == SetMsg(s0, r, s2.msgs[r]).(total := s2.total);
  }

  lemma WindowGrantOk(c: Config, s: Sched, r: nat)
    requires Inv(c, s)
    ensures var (s', other) := WindowGrant(c, s, r);
      && Inv(c, s') && ManagedSet(s'.msgs, s'.q) <= ManagedSet(s.msgs, s.q)
      && (other.Some? ==> other.value in s'.q.active && other.value in s'.msgs)
  {
    hide QInv, Conserving, BudgetOk, Managed, Unmanage, UpdateIncoming;
    var (s1, grew) := UpdateGranted(c, s, r);
    if grew {
      GrowOk(c, s, r);
      var s2 := UpdateIncoming(s1, r);
      if s2.msgs[r].granted >= s2.msgs[r].length {
        UnmanageOk(c, s2, r);
      } else {
        InvFromBut(c, s2, r);
      }
    }
  }

  lemma ActiveNotWaitingQ(c: Config, s: Sched, r: nat)
    requires QInv(c, s.msgs, s.q) && r in s.q.active && r in s.msgs
    ensures r !in Wait(s.q, s.msgs[r].peer)
  {
    ActiveNotWaiting(s.msgs, s.q, r);
  }

  /** The bytes a FIFO grant adds are matched by the excess it is allowed. */
  lemma FifoExcess(c: Config, m: Msg)
    requires MsgOk(m)
    ensures var m1 := FifoRaised(c, m); var m2 := Recorded(m1);
      && MsgOk(m2) && m1.recIncoming == m.recIncoming && m.granted <= m1.granted <= m.length
      && m2.recIncoming - m.recIncoming <= Excess(m2) - Excess(m)
  {
  }

  /** A FIFO grant may raise a waiting message, so promotion and accounting are proved together. */
  lemma FifoPromoteOk(c: Config, s: Sched, r: nat)
    requires ValidConfig(c) && Inv(c, s) && r in s.msgs && Managed(s.msgs, s.q, r)
    requires FifoRaised(c, s.msgs[r]).granted < s.msgs[r].length
    ensures var s' := FifoGrant(c, s, r).0;
      Inv(c, s') && ManagedSet(s'.msgs, s'.q) == ManagedSet(s.msgs, s.q)
  {
    hide QInv, Conserving, BudgetOk, Managed, Promote, MsgOk;
    var m1 := FifoRaised(c, s.msgs[r]);
    var m2 := Recorded(m1);
    FifoExcess(c, s.msgs[r]);
    var msgs1, msgs2 := s.msgs[r := m1], s.msgs[r := m2];
    var q := Promote(c, msgs1, s.q, r);
    PromoteOk(c, s.msgs, msgs1, s.q, r);
    MsgFrame(c, msgs1, msgs2, q, r);
    var s' := FifoGrant(c, s, r).0;
    assert s'.msgs == msgs2 && s'.q == q;
    BudgetSet(c, s.msgs, s.total, r, m2, s'.total);
    assert ManagedSet(msgs2, q) == ManagedSet(s.msgs, s.q);
  }

  /** A FIFO grant that completes the message takes it out of the queues. */
  lemma FifoCompleteOk(c: Config, s: Sched, r: nat)
    requires Inv(c, s) && r in s.msgs
    requires FifoRaised(c, s.msgs[r]).granted >= s.msgs[r].length
    ensures var (s', other) := FifoGrant(c, s, r);
      && Inv(c, s') && (other.Some? ==> other.value in s'.q.active && other.value in s'.msgs)
      && ManagedSet(s'.msgs, s'.q) <= ManagedSet(s.msgs, s.q)
  {
    hide QInv, Conserving, BudgetOk, Managed, MsgOk, Excess, Unmanage;
    var m1 := FifoRaised(c, s.msgs[r]);
    FifoExcess(c, s.msgs[r]);
    UnmanageQueues(c, s, r, m1);
    var s2 := Unmanage(c, SetMsg(s, r, m1), r).0;
    var s' := FifoGrant(c, s, r).0;
    assert s'.msgs == s.msgs[r := Recorded(m1)];
    BudgetSet(c, s.msgs, s.total, r, Recorded(m1), s'.total);
    MsgFrame(c, s2.msgs, s'.msgs, s2.q, r);
    assert ManagedSet(s'.msgs, s'.q) == ManagedSet(s2.msgs, s2.q);
  }

  // ---- Priority repair ----

  lemma {:induction false} LoadPermuted(msgs: map<nat, Msg>, l: seq<nat>, i: nat, b: nat, p: nat)
    requires i < |l| && b < |l|
    ensures Load(msgs, InsertAt(Without(l, i), b, l[i]), p) == Load(msgs, l, p)
  {
    LoadWithout(msgs, l, i, p);
    LoadInsert(msgs, Without(l, i), b, l[i], p);
  }

  /** One round of the insertion sort extends the sorted prefix by one element. */
  lemma PrefixSorted(msgs: map<nat, Msg>, l: seq<nat>, i: nat)
    requires i < |l| && Sorted(msgs, l[..i])
    ensures Sorted(msgs, MoveUp(msgs, l, i).0[..i + 1])
  {
    hide MoveUp, Sorted;
    var (l', j) := MoveUp(msgs, l, i);
    assert l'[..i + 1] == InsertAt(l[..i], j, l[i]);
    NeighboursDecide(msgs, l[..i], j, l[i]);
  }

  lemma {:induction false} FixOrderSorts(msgs: map<nat, Msg>, l: seq<nat>, i: nat, best: nat)
    requires 1 <= i <= |l| && Distinct(l) && Sorted(msgs, l[..i])
    ensures var l' := FixOrderFrom(msgs, l, i, best).0;
      && |l'| == |l| && Sorted(msgs, l') && Distinct(l')
      && (forall x :: x in l' <==> x in l) && (forall p :: Load(msgs, l', p) == Load(msgs, l, p))
    decreases |l| - i
  {
    hide MoveUp, Sorted, Distinct, Load;
    if i == |l| {
      assert l[..i] == l;
    } else {
      var (l1, j) := MoveUp(msgs, l, i);
      PrefixSorted(msgs, l, i);
      MoveUpMembers(msgs, l, i);
      forall p ensures Load(msgs, l1, p) == Load(msgs, l, p) {
        LoadPermuted(msgs, l, i, j, p);
      }
      FixOrderSorts(msgs, l1, i + 1, if j < i && j < best then j else best);
    }
  }

  lemma MoveUpFrame(msgs: map<nat, Msg>, l: seq<nat>, i: nat)
    requires i < |l|
    ensures var (l', j) := MoveUp(msgs, l, i);
      && |l'| == |l| && j <= i && l'[j] == l[i] && l'[..j] == l[..j] && l'[i + 1..] == l[i + 1..]
      && (j == i ==> l' == l)
  {
    hide MoveUp, InsertAt, Without, Better;
    var (l', j) := MoveUp(msgs, l, i);
    Relocated(l, i, j);
  }

  /** The element at i taken out and put in at j. */
  lemma Relocated(l: seq<nat>, i: nat, j: nat)
    requires j <= i < |l|
    ensures j <= |Without(l, i)|
    ensures var l' := InsertAt(Without(l, i), j, l[i]);
      && |l'| == |l| && l'[j] == l[i] && l'[..j] == l[..j] && l'[i + 1..] == l[i + 1..] && (j == i ==> l' == l)
  {
    assert InsertAt(Without(l, i), j, l[i]) == l[..j] + [l[i]] + l[j..i] + l[i + 1..];
  }

  lemma InSuffix(l: seq<nat>, i: nat, j: nat, x: nat)
    requires i <= j <= |l| && x in l[j..]
    ensures x in l[i..]
  {
    assert l[i..] == l[i..j] + l[j..];
  }

  /** Result of the sort from index i on: what is new at index b came from index i or later. */
  lemma {:induction false} FixOrderResult(msgs: map<nat, Msg>, l: seq<nat>, i: nat, best: nat)
    requires 1 <= i <= |l|
    ensures var (l', b) := FixOrderFrom(msgs, l, i, best);
      && |l'| == |l| && 0 <= b <= best
      && (b < |l| ==> l'[..b] == l[..b]) && (b >= |l| ==> l' == l)
      && (b < best ==> b < |l| - 1 && l'[b] in l[b + 1..] && l'[b] in l[i..])
      && (b == best < i ==> l'[b] == l[b] || l'[b] in l[i..])
    decreases |l| - i
  {
    hide MoveUp, InsertAt, Without, Better;
    if i < |l| {
      var (l1, j) := MoveUp(msgs, l, i);
      MoveUpFrame(msgs, l, i);
      var best1 := if j < i && j < best then j else best;
      FixOrderResult(msgs, l1, i + 1, best1);
      var (l', b) := FixOrderFrom(msgs, l, i, best);
      FixOrderStep(l, l1, l', i, j, best, b);
    }
  }

  /** Puts the facts about the first move and about the rest of the sort together. */
  lemma FixOrderStep(l: seq<nat>, l1: seq<nat>, l': seq<nat>, i: nat, j: nat, best: nat, b: nat)
    requires 1 <= i < |l| == |l1| == |l'| && j <= i && l1[j] == l[i] && l1[..j] == l[..j] && l1[i + 1..] == l[i + 1..]
    requires j == i ==> l1 == l
    requires var best1 := if j < i && j < best then j else best;
      && 0 <= b <= best1
      && (b < |l| ==> l'[..b] == l1[..b]) && (b >= |l| ==> l' == l1)
      && (b < best1 ==> b < |l| - 1 && l'[b] in l1[b + 1..] && l'[b] in l1[i + 1..])
      && (b == best1 < i + 1 ==> l'[b] == l1[b] || l'[b] in l1[i + 1..])
    ensures b < |l| ==> l'[..b] == l[..b]
    ensures b >= |l| ==> l' == l
    ensures b < best ==> b < |l| - 1 && l'[b] in l[b + 1..] && l'[b] in l[i..]
    ensures b == best < i ==> l'[b] == l[b] || l'[b] in l[i..]
  {
    assert l[i] in l[i..];
    if b < |l| && l'[b] in l1[i + 1..] {
      InSuffix(l, i, i + 1, l'[b]);
    }
  }

  /** homa_grant_fix_order sorts active_rpcs. Below the returned index nothing moved, and the RPC
      now at that index came from a worse position; INT_MAX means the list was in order. */
  lemma FixOrderOk(msgs: map<nat, Msg>, l: seq<nat>)
    requires Distinct(l) && |l| <= MAX_GRANTS
    ensures var (l', b) := FixOrder(msgs, l);
      && |l'| == |l| && Sorted(msgs, l') && ByBytesThenAge(msgs, l') && Distinct(l')
      && (forall x :: x in l' <==> x in l) && (forall p :: Load(msgs, l', p) == Load(msgs, l, p))
      && (b == INT_MAX ==> l' == l)
      && (b != INT_MAX ==> 0 <= b < |l| && l'[..b] == l[..b] && l'[b] in l[b + 1..])
  {
    hide FixOrderFrom, Distinct, Load, Sorted, ByBytesThenAge;
    assert Sorted(msgs, l[..if |l| == 0 then 0 else 1]) by { FirstSorted(msgs, l); }
    SortedByNumbers(msgs, FixOrder(msgs, l).0);
    if |l| == 0 {
      FixOrderEmpty(msgs);
      assert l == [];
    } else {
      FixOrderSorts(msgs, l, 1, INT_MAX);
      FixOrderResult(msgs, l, 1, INT_MAX);
    }
  }

  lemma FirstSorted(msgs: map<nat, Msg>, l: seq<nat>)
    ensures Sorted(msgs, l[..if |l| == 0 then 0 else 1])
  {
  }

  lemma FixOrderEmpty(msgs: map<nat, Msg>)
    ensures FixOrder(msgs, []) == ([], INT_MAX)
  {
  }

  lemma RecalculateOk(c: Config, s: Sched)
    requires ValidConfig(c) && Inv(c, s)
    ensures var s' := Apply(c, s, Recalculate);
      Inv(c, s') && ManagedSet(s'.msgs, s'.q) == ManagedSet(s.msgs, s.q)
  {
    hide Sorted, Distinct, Load, FixOrder, MsgOk, BudgetOk;
    FixOrderOk(s.msgs, s.q.active);
    var l := FixOrder(s.msgs, s.q.active).0;
    forall p ensures Load(s.msgs, l, p) <= c.maxPerPeer {
      assert Load(s.msgs, s.q.active, p) <= c.maxPerPeer;
    }
    forall p, x | x in Wait(s.q, p) ensures x !in l { assert ListOk(s.msgs, s.q, p); }
    WaitingFrame(s.msgs, s.q, l);
    var q := s.q.(active := l);
    assert forall x :: Managed(s.msgs, q, x) <==> Managed(s.msgs, s.q, x);
    assert ManagedSet(s.msgs, q) == ManagedSet(s.msgs, s.q);
  }

  // ---- Choice of the oldest RPC ----

  /** The scan finds an eligible RPC with the smallest birth, and finds none only if there is none. */
  lemma {:induction false} OldestOfOk(c: Config, s: Sched, l: seq<nat>, best: Option<nat>)
    ensures var o := OldestOf(c, s, l, best);
      && (o.None? <==> best.None? && forall x :: x in l ==> !Eligible(c, s, x))
      && (o.Some? ==> o == best || (o.value in l && Eligible(c, s, o.value)))
      && (o.Some? ==> forall x :: x in l && Eligible(c, s, x) ==> Key(s.msgs, o.value).birth <= Key(s.msgs, x).birth)
      && (o.Some? && best.Some? ==> Key(s.msgs, o.value).birth <= Key(s.msgs, best.value).birth)
    decreases |l|
  {
    if l != [] {
      assert l == [l[0]] + l[1..];
      if (best.Some? && Key(s.msgs, l[0]).birth >= Key(s.msgs, best.value).birth) || !Eligible(c, s, l[0]) {
        OldestOfOk(c, s, l[1..], best);
      } else {
        OldestOfOk(c, s, l[1..], Some(l[0]));
      }
    }
  }

  lemma {:induction false} FifoOrderMembers(q: Queues, ps: seq<nat>)
    ensures forall x :: x in FifoOrder(q, ps) <==>
      (exists p :: p in ps && x in Wait(q, p)) || (q.active != [] && x in q.active[1..])
    decreases |ps|
  {
    if ps != [] {
      FifoOrderMembers(q, ps[1..]);
      assert ps == [ps[0]] + ps[1..];
    }
  }

  /** The choice depends only on the messages and the window. */
  lemma {:induction false} OldestOfFrame(c: Config, s: Sched, s': Sched, l: seq<nat>, best: Option<nat>)
    requires s.msgs == s'.msgs && s.window == s'.window
    ensures OldestOf(c, s, l, best) == OldestOf(c, s', l, best)
    decreases |l|
  {
    if l != [] {
      OldestOfFrame(c, s, s', l[1..], best);
      OldestOfFrame(c, s, s', l[1..], Some(l[0]));
    }
  }

  /** homa_grant_find_oldest picks, among all managed RPCs but the first active one, an oldest eligible one. */
  lemma FindOldestOk(c: Config, s: Sched)
    requires Inv(c, s)
    ensures Inv(c, FindOldest(c, s))
    ensures var o := FindOldest(c, s).oldest;
      forall x :: x in s.msgs && Managed(s.msgs, s.q, x) && s.msgs[x].recIncoming < s.window + 2 * c.fifoIncrement
                  && (s.q.active == [] || x != s.q.active[0])
                  ==> o.Some? && Key(s.msgs, o.value).birth <= s.msgs[x].birth
    ensures var o := FindOldest(c, s).oldest;
      o.Some? ==>
        && Managed(s.msgs, s.q, o.value) && Eligible(c, s, o.value)
        && Key(s.msgs, o.value).recIncoming < s.window + 2 * c.fifoIncrement
        && (s.q.active != [] ==> o.value != s.q.active[0])
  {
    hide Sorted, Distinct, Load, BudgetOk, MsgOk;
    var l := FifoOrder(s.q, s.q.peers);
    OldestOfOk(c, s, l, None);
    FifoOrderMembers(s.q, s.q.peers);
    forall x | x in l
      ensures x in s.msgs && Managed(s.msgs, s.q, x) && (s.q.active != [] ==> x != s.q.active[0])
    {
      if p :| p in s.q.peers && x in Wait(s.q, p) {
        assert ListOk(s.msgs, s.q, p);
      } else {
        FirstOnce(s.q.active, x);
      }
    }
    forall x | x in s.msgs && Managed(s.msgs, s.q, x) && (s.q.active == [] || x != s.q.active[0])
      ensures x in l
    {
      if x in s.q.active {
        assert s.q.active == [s.q.active[0]] + s.q.active[1..];
      } else {
        assert PeerOf(s.msgs, x) in s.q.peers;
      }
    }
  }

  lemma FirstOnce(l: seq<nat>, x: nat)
    requires Distinct(l) && l != [] && x in l[1..]
    ensures x in l && x != l[0]
  {
  }

  // ---- Steps from outside ----

  lemma ArriveOk(c: Config, s: Sched, r: nat, m: Msg)
    requires Inv(c, s) && r !in s.msgs && MsgOk(m) && m.recIncoming == 0
    ensures Inv(c, SetMsg(s, r, m))
  {
    hide QInv, Conserving, BudgetOk, Managed, MsgOk;
    var msgs' := s.msgs[r := m];
    QueueFrame(c, s.msgs, msgs', s.q);
    BudgetSet(c, s.msgs, s.total, r, m, s.total);
    forall x | x in msgs' && Managed(msgs', s.q, x) ensures msgs'[x].granted < msgs'[x].length
    {
      assert x in ManagedSet(msgs', s.q) && x in ManagedSet(s.msgs, s.q);
    }
    assert s.oldest.Some? ==> s.oldest.value in ManagedSet(msgs', s.q);
  }

  lemma EndOk(c: Config, s: Sched, r: nat)
    requires Inv(c, s) && r in s.msgs && !Managed(s.msgs, s.q, r)
    ensures Inv(c, s.(msgs := s.msgs - {r}, total := s.total - s.msgs[r].recIncoming))
  {
    hide QInv, Conserving, BudgetOk, Managed, MsgOk;
    var msgs' := s.msgs - {r};
    QueueFrame(c, s.msgs, msgs', s.q);
    BudgetRemove(c, s.msgs, s.total, r);
    forall x | x in msgs' && Managed(msgs', s.q, x) ensures msgs'[x].granted < msgs'[x].length
    {
      assert x in ManagedSet(msgs', s.q) && x in ManagedSet(s.msgs, s.q);
    }
    if s.oldest.Some? {
      assert s.oldest.value in ManagedSet(s.msgs, s.q) && s.oldest.value in ManagedSet(msgs', s.q);
    }
  }

  /** From InvBut back to Inv when r still needs grants or is not managed. */
  lemma InvFromBut(c: Config, s: Sched, r: nat)
    requires InvBut(c, s, r)
    requires r in s.msgs && Managed(s.msgs, s.q, r) ==> s.msgs[r].granted < s.msgs[r].length
    ensures Inv(c, s)
  {
    hide QInv, Conserving, BudgetOk, Managed, MsgOk;
  }

  /** Every step keeps the invariant. */
  lemma ApplyOk(c: Config, s: Sched, op: Op)
    requires ValidConfig(c) && Inv(c, s)
    ensures Inv(c, Apply(c, s, op))
  {
    hide QInv, Conserving, BudgetOk, Managed, MsgsOk, InvBut;
    hide Manage, Unmanage, WindowGrant, FifoGrant, FixOrder, FindOldest;
    match op
    case Arrive(r, peer, length, birth, unsched) =>
      if r !in s.msgs { ArriveOk(c, s, r, NewMsg(peer, length, birth, unsched)); }
    case StartGranting(r) =>
      if r in s.msgs && !Managed(s.msgs, s.q, r) && s.msgs[r].granted < s.msgs[r].length { ManageOk(c, s, r); }
    case Receive(r, bytes) =>
      if r in s.msgs { ReceiveOk(c, s, r, bytes); }
    case SetSilent(r, silent) =>
      if r in s.msgs { SetSilentOk(c, s, r, silent); }
    case Account(r) =>
      if r in s.msgs { AccountOk(c, s, r); }
    case GrantWindow(r) => WindowGrantOk(c, s, r);
    case GrantFifo(r) =>
      if r in s.msgs && (Managed(s.msgs, s.q, r) || s.msgs[r].granted == s.msgs[r].length) { GrantFifoOk(c, s, r); }
    case Recalculate => RecalculateOk(c, s);
    case ChooseOldest => FindOldestOk(c, s);
    case ClearStalled =>
    case StopGranting(r) =>
      if r in s.msgs { StopGrantingOk(c, s, r); }
    case End(r) =>
      if r in s.msgs { EndStepOk(c, s, r); }
  }

  lemma StopGrantingOk(c: Config, s: Sched, r: nat)
    requires Inv(c, s) && r in s.msgs
    ensures Inv(c, Unmanage(c, s, r).0)
  {
    hide QInv, Conserving, BudgetOk, Managed, Unmanage, MsgOk;
    UnmanageOk(c, s, r);
  }

  lemma ReceiveOk(c: Config, s: Sched, r: nat, bytes: nat)
    requires Inv(c, s) && r in s.msgs
    ensures Inv(c, Apply(c, s, Receive(r, bytes)))
  {
    hide QInv, Conserving, BudgetOk, Managed;
    if s.msgs[r].received + bytes <= s.msgs[r].length {
      var m := s.msgs[r].(received := s.msgs[r].received + bytes);
      SetMsgOk(c, s, r, m, s.total);
      ManagedFrame(s, r, m);
      InvFromBut(c, SetMsg(s, r, m), r);
    }
  }

  lemma SetSilentOk(c: Config, s: Sched, r: nat, silent: bool)
    requires Inv(c, s) && r in s.msgs
    ensures Inv(c, SetMsg(s, r, s.msgs[r].(silent := silent)))
  {
    hide QInv, Conserving, BudgetOk, Managed;
    var m := s.msgs[r].(silent := silent);
    SetMsgOk(c, s, r, m, s.total);
    ManagedFrame(s, r, m);
    InvFromBut(c, SetMsg(s, r, m), r);
  }

  lemma AccountOk(c: Config, s: Sched, r: nat)
    requires Inv(c, s) && r in s.msgs
    ensures Inv(c, UpdateIncoming(s, r))
  {
    hide QInv, Conserving, BudgetOk, Managed;
    UpdateIncomingOk(c, s, r);
    ManagedFrame(s, r, Recorded(s.msgs[r]));
    InvFromBut(c, UpdateIncoming(s, r), r);
  }

  lemma ManagedFrame(s: Sched, r: nat, m: Msg)
    requires r in s.msgs && m.peer == s.msgs[r].peer
    ensures Managed(s.msgs[r := m], s.q, r) == Managed(s.msgs, s.q, r)
  {
  }

  lemma GrantFifoOk(c: Config, s: Sched, r: nat)
    requires ValidConfig(c) && Inv(c, s) && r in s.msgs
    requires Managed(s.msgs, s.q, r) || s.msgs[r].granted == s.msgs[r].length
    ensures Inv(c, FifoGrant(c, s, r).0)
  {
    hide QInv, Conserving, BudgetOk, Managed, FifoGrant;
    if FifoRaised(c, s.msgs[r]).granted >= s.msgs[r].length {
      FifoCompleteOk(c, s, r);
    } else {
      FifoPromoteOk(c, s, r);
    }
  }

  lemma EndStepOk(c: Config, s: Sched, r: nat)
    requires Inv(c, s) && r in s.msgs
    ensures Inv(c, Apply(c, s, End(r)))
  {
    hide QInv, Conserving, BudgetOk, Managed, Unmanage, MsgOk;
    if s.msgs[r].granted < s.msgs[r].length {
      UnmanageOk(c, s, r);
      EndOk(c, Unmanage(c, s, r).0, r);
    } else {
      EndOk(c, s, r);
    }
  }

  // ---- The theorems ----

  lemma InitOk(c: Config)
    ensures Inv(c, Init(c))
  {
    assert RecMap(map[]) == map[] && ExcessMap(map[]) == map[];
    assert ManagedSet(map[], Init(c).q) == {};
  }

  lemma {:induction false} RunKeepsInv(c: Config, s: Sched, ops: seq<Op>)
    requires ValidConfig(c) && Inv(c, s)
    ensures Inv(c, Run(c, s, ops))
    decreases |ops|
  {
    hide Inv, Apply;
    if ops != [] {
      ApplyOk(c, s, ops[0]);
      RunKeepsInv(c, Apply(c, s, ops[0]), ops[1..]);
    }
  }

  lemma {:induction false} RunAppend(c: Config, s: Sched, ops: seq<Op>, op: Op)
    ensures Run(c, s, ops + [op]) == Apply(c, Run(c, s, ops), op)
    decreases |ops|
  {
    hide Apply;
    if ops == [] {
      assert ops + [op] == [op];
      assert Run(c, Apply(c, s, op), []) == Apply(c, s, op);
    } else {
      assert (ops + [op])[1..] == ops[1..] + [op];
      RunAppend(c, Apply(c, s, ops[0]), ops[1..], op);
    }
  }

  lemma {:induction false} RunConcat(c: Config, s: Sched, ops: seq<Op>, more: seq<Op>)
    ensures Run(c, s, ops + more) == Run(c, Run(c, s, ops), more)
    decreases |ops|
  {
    hide Apply;
    if ops == [] {
      assert ops + more == more;
    } else {
      assert (ops + more)[1..] == ops[1..] + more;
      RunConcat(c, Apply(c, s, ops[0]), ops[1..], more);
    }
  }

  /** Structure, order, work conservation and byte accounting hold in every reachable state. */
  lemma EveryRun(c: Config, ops: seq<Op>)
    requires ValidConfig(c)
    ensures Inv(c, Run(c, Init(c), ops))
  {
    InitOk(c);
    RunKeepsInv(c, Init(c), ops);
  }

  ghost function AllowanceMap(msgs: map<nat, Msg>): map<nat, int> {
    map r | r in msgs :: msgs[r].unsched + msgs[r].fifo
  }

  /** In every reachable state total_incoming is the sum over live messages, and exceeds max_incoming
      by no more than the unscheduled and FIFO-granted bytes of live messages. */
  lemma IncomingBudget(c: Config, ops: seq<Op>)
    requires ValidConfig(c)
    ensures var s := Run(c, Init(c), ops);
      s.total == Sum(RecMap(s.msgs)) && s.total <= c.maxIncoming + Sum(AllowanceMap(s.msgs))
  {
    hide Run, QInv, Conserving;
    EveryRun(c, ops);
    var s := Run(c, Init(c), ops);
    SumLeq(ExcessMap(s.msgs), AllowanceMap(s.msgs));
  }

  /** In every reachable state a managed RPC is in exactly one list, active RPCs respect both limits,
      and an RPC waits only if active_rpcs is full or its peer has all the active RPCs it may have. */
  lemma PlacesAndWorkConservation(c: Config, ops: seq<Op>)
    requires ValidConfig(c)
    ensures var s := Run(c, Init(c), ops);
      && |s.q.active| <= c.maxOvercommit
      && (forall p :: Load(s.msgs, s.q.active, p) <= c.maxPerPeer)
      && s.numGrantable == |ManagedSet(s.msgs, s.q)|
      && (forall p, r :: r in Wait(s.q, p) ==>
            && r !in s.q.active && r in s.msgs && s.msgs[r].peer == p
            && (|s.q.active| == c.maxOvercommit || Load(s.msgs, s.q.active, p) == c.maxPerPeer))
  {
    hide Run, Sorted, Distinct, Load, BudgetOk, MsgOk;
    EveryRun(c, ops);
    var s := Run(c, Init(c), ops);
    forall p, r | r in Wait(s.q, p)
      ensures r !in s.q.active && r in s.msgs && s.msgs[r].peer == p
      ensures |s.q.active| == c.maxOvercommit || Load(s.msgs, s.q.active, p) == c.maxPerPeer
    {
      assert ListOk(s.msgs, s.q, p) && p in s.q.peers && Load(s.msgs, s.q.active, p) <= c.maxPerPeer;
    }
  }

  /** In every reachable state each peer's list is in order of priority, and grantable_peers holds exactly
      the peers with a non-empty list, in the order of their heads. */
  lemma WaitingListsSorted(c: Config, ops: seq<Op>, p: nat)
    requires ValidConfig(c)
    ensures var s := Run(c, Init(c), ops);
      && ByBytesThenAge(s.msgs, Wait(s.q, p)) && Distinct(Wait(s.q, p))
      && (p in s.q.peers <==> Wait(s.q, p) != []) && Distinct(s.q.peers)
      && ByBytesThenAge(Heads(s.msgs, s.q), s.q.peers)
  {
    hide Run, Sorted, Distinct, Load, BudgetOk, MsgOk, ByBytesThenAge;
    EveryRun(c, ops);
    var s := Run(c, Init(c), ops);
    assert ListOk(s.msgs, s.q, p);
    SortedByNumbers(s.msgs, Wait(s.q, p));
    SortedByNumbers(Heads(s.msgs, s.q), s.q.peers);
  }

  /** In every reachable state a window grant that raises total_incoming leaves it within max_incoming, and
      never grants more than the window or the message. */
  lemma WindowGrantWithinBudget(c: Config, ops: seq<Op>, r: nat)
    requires ValidConfig(c)
    ensures var s := Run(c, Init(c), ops); var s' := WindowGrant(c, s, r).0;
      && (s'.total > s.total ==> s'.total <= c.maxIncoming)
      && (r in s.msgs && r in s'.msgs && s'.msgs[r].granted != s.msgs[r].granted ==>
            s.msgs[r].granted < s'.msgs[r].granted <= s.msgs[r].length &&
            s'.msgs[r].granted <= s.msgs[r].received + s.window)
  {
    hide Run, Expel, Inv, Managed, MsgOk;
    EveryRun(c, ops);
    var s := Run(c, Init(c), ops);
    if r in s.msgs {
      EachMsgOk(c, s, r);
      WindowGrantBudget(c, s, r);
    }
  }

  /** A window grant that promotes another RPC has taken one out of management. */
  lemma WindowGrantCounts(c: Config, s: Sched, r: nat)
    ensures var (s', other) := WindowGrant(c, s, r);
      && s'.numGrantable <= s.numGrantable && (other.Some? ==> s'.numGrantable < s.numGrantable)
      && s'.msgs.Keys == s.msgs.Keys
  {
    hide Refill, AdjustPeer;
  }

  /** What the candidate loop needs to know about one window grant. */
  lemma WindowGrantFacts(c: Config, s: Sched, r: nat)
    requires Inv(c, s)
    ensures var (s', other) := WindowGrant(c, s, r);
      && Inv(c, s') && 0 <= s'.numGrantable <= s.numGrantable && s'.msgs.Keys == s.msgs.Keys
      && ManagedSet(s'.msgs, s'.q) <= ManagedSet(s.msgs, s.q)
      && (other.Some? ==> s'.numGrantable < s.numGrantable && other.value in s'.msgs)
      && s' == Apply(c, s, GrantWindow(r))
  {
    hide WindowGrant, QInv, Conserving, BudgetOk, MsgsOk;
    WindowGrantOk(c, s, r);
    WindowGrantCounts(c, s, r);
  }

  lemma EachMsgOk(c: Config, s: Sched, r: nat)
    requires Inv(c, s) && r in s.msgs
    ensures MsgOk(s.msgs[r])
  {
    hide QInv, Conserving, BudgetOk, MsgOk;
  }

  lemma FifoGrantKeys(c: Config, s: Sched, r: nat)
    requires r in s.msgs
    ensures FifoGrant(c, s, r).0.msgs.Keys == s.msgs.Keys
  {
    hide Expel, Promote, Managed;
  }

  /** What homa_grant_check_fifo needs to know about the grant it makes. */
  lemma FifoGrantFacts(c: Config, s: Sched, r: nat)
    requires ValidConfig(c) && Inv(c, s) && s.oldest == Some(r)
    ensures r in s.msgs
    ensures var (s', other) := FifoGrant(c, s, r);
      && Inv(c, s') && s'.msgs.Keys == s.msgs.Keys && ManagedSet(s'.msgs, s'.q) <= ManagedSet(s.msgs, s.q)
      && (other.Some? ==> other.value in s'.msgs)
      && s' == Apply(c, s, GrantFifo(r))
  {
    hide FifoGrant, QInv, Conserving, BudgetOk, Managed, ManagedSet;
    FifoGrantKeys(c, s, r);
    if FifoRaised(c, s.msgs[r]).granted >= s.msgs[r].length {
      FifoCompleteOk(c, s, r);
    } else {
      FifoPromoteOk(c, s, r);
      FifoPromotesNone(c, s, r);
    }
  }

  lemma FifoPromotesNone(c: Config, s: Sched, r: nat)
    requires r in s.msgs && FifoRaised(c, s.msgs[r]).granted < s.msgs[r].length
    ensures FifoGrant(c, s, r).1 == None
  {
    hide Promote, Expel;
  }

  /** Once r is out of the queues, ending it only settles its bytes. */
  lemma EndFacts(c: Config, s: Sched, r: nat)
    requires Inv(c, s) && r in s.msgs && r !in ManagedSet(s.msgs, s.q)
    ensures var s' := s.(msgs := s.msgs - {r}, total := s.total - s.msgs[r].recIncoming);
      Inv(c, s') && s' == Apply(c, s, End(r))
  {
    hide QInv, Conserving, BudgetOk, MsgsOk, Expel;
    EndOk(c, s, r);
    ExpelAbsent(c, s.msgs, s.q, r);
  }

  lemma CompleteNotManaged(c: Config, s: Sched, r: nat)
    requires Inv(c, s) && r in s.msgs && s.msgs[r].granted >= s.msgs[r].length
    ensures r !in ManagedSet(s.msgs, s.q)
  {
    hide QInv, Conserving, BudgetOk, Managed, MsgOk;
  }
}
