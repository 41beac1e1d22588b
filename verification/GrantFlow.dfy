/**
 The control flow of homa_grant.c above its single operations: the candidate loop, FIFO
 grants and the check made whenever data arrives. Other threads may end RPCs wherever
 no lock is held. Each procedure is shown to end, to be a run of the operations of
 GrantSched that makes the grants it is there for, and to give back every RPC reference
 it takes, dead RPCs included.
 */
module GrantFlow {
  import opened Basics
  import opened RankedLists
  import opened GrantQueues
  import opened GrantQueueProofs
  import opened GrantSched
  import opened GrantRuns
  import opened GrantAmounts
  import opened GrantTraces
  import opened CandidateRing

  /** The reference that goes with grant->oldest_rpc. */
  function Held(oldest: Option<nat>): multiset<nat> {
    if oldest.Some? then multiset{oldest.value} else multiset{}
  }

  /** References held: one for oldest_rpc, one per ring entry, and the caller's. */
  ghost predicate RefsOk(refs: multiset<nat>, oldest: Option<nat>, ring: seq<nat>, extra: multiset<nat>) {
    refs == Held(oldest) + multiset(ring) + extra
  }

  ghost predicate Known(w: World, l: seq<nat>) {
    forall r :: r in l ==> r in w.s.msgs || r in w.dead
  }

  // ---- Other threads ----

  /** RPCs end, but none that is locked. */
  ghost predicate OnlyEnds(ops: seq<Op>, locked: set<nat>) {
    forall i :: 0 <= i < |ops| ==> ops[i].End? && ops[i].r !in locked
  }

  /** Another thread is in homa_rpc_end for r: it marks r dead or, if that has been done, ends r's grants. If r is
      oldest_rpc, ending its grants drops that reference. */
  method OtherEnds(c: Config, w0: World, refs0: multiset<nat>, r: nat,
                   ghost locked: set<nat>, ghost ring: seq<nat>, ghost extra: multiset<nat>)
    returns (w: World, refs: multiset<nat>, ghost ops: seq<Op>)
    requires Inv(c, w0.s) && RefsOk(refs0, w0.s.oldest, ring, extra) && r in w0.s.msgs && r !in locked
    ensures Leads(c, w0, ring, w, ring, ops, locked) && RefsOk(refs, w.s.oldest, ring, extra) && OnlyEnds(ops, locked)
    ensures if r in w0.dead then w.s.msgs.Keys == w0.s.msgs.Keys - {r} && w.dead == w0.dead
            else w.s == w0.s && w.dead == w0.dead + {r}
    ensures w.s.oldest != w0.s.oldest ==> w0.s.oldest == Some(r) && r in w.dead
  {
    hide Inv, Leads, Apply;
    refs := refs0;
    if r in w0.dead {
      LeadsEnd(c, w0, ring, r, locked);
      w, ops := w0.(s := Apply(c, w0.s, End(r))), [End(r)];
      if w0.s.oldest == Some(r) {
        refs := refs - multiset{r};
      }
    } else {
      w, ops := w0.(dead := w0.dead + {r}), [];
      LeadsMark(c, w0, ring, r, locked);
    }
  }

  /** Other threads end any number of RPCs, but not those that are locked. */
  method Others(c: Config, w0: World, refs0: multiset<nat>, locked: set<nat>,
                ghost ring: seq<nat>, ghost extra: multiset<nat>)
    returns (w: World, refs: multiset<nat>, ghost ops: seq<Op>)
    requires Inv(c, w0.s) && RefsOk(refs0, w0.s.oldest, ring, extra)
    ensures Leads(c, w0, ring, w, ring, ops, locked) && Inv(c, w.s) && RefsOk(refs, w.s.oldest, ring, extra)
    ensures OnlyEnds(ops, locked) && forall r :: r in locked && r !in w0.dead ==> r !in w.dead
    ensures w.s.oldest != w0.s.oldest ==> w0.s.oldest.Some? && w0.s.oldest.value in w.dead
  {
    hide Inv, RefsOk, Leads;
    w, refs, ops := w0, refs0, [];
    LeadsNowhere(c, w0, ring, locked);
    while *
      invariant Leads(c, w0, ring, w, ring, ops, locked) && Inv(c, w.s) && w0.dead <= w.dead
      invariant RefsOk(refs, w.s.oldest, ring, extra)
      invariant OnlyEnds(ops, locked) && forall r :: r in locked && r !in w0.dead ==> r !in w.dead
      invariant w.s.oldest != w0.s.oldest ==> w0.s.oldest.Some? && w0.s.oldest.value in w.dead
      decreases w.s.msgs.Keys, w.s.msgs.Keys - w.dead
    {
      var r: nat := *;
      if r !in w.s.msgs || r in locked {
        break;
      }
      ghost var w1, more := w, [];
      assert r in w1.s.msgs.Keys;
      w, refs, more := OtherEnds(c, w, refs, r, locked, ring, extra);
      LeadsOn(c, w0, ring, w1, ring, w, ring, ops, more, locked);
      ops := ops + more;
    }
  }

  // ---- Candidates ----

  function Fitting(other: Option<nat>, used: nat): seq<nat> {
    if other.Some? && used < MAX_CAND then [other.value] else []
  }

  /** homa_grant_cand_add: a ring entry comes with a reference. */
  method CandAdd(cand: Candidates, other: Option<nat>, refs: multiset<nat>) returns (refs': multiset<nat>)
    requires cand.Valid()
    modifies cand, cand.rpcs
    ensures cand.Valid()
    ensures cand.contents == old(cand.contents) + Fitting(other, |old(cand.contents)|)
    ensures refs' == refs + multiset(Fitting(other, |old(cand.contents)|))
  {
    refs' := refs;
    if other.Some? {
      var added := cand.Add(other.value);
      if added {
        refs' := refs + multiset{other.value};
      }
    }
  }

  /** homa_grant_unmanage_rpc: the RPC promoted in r's place becomes a candidate, and the reference on oldest_rpc is
      dropped if that is r. */
  method UnmanageRpc(c: Config, s: Sched, refs: multiset<nat>, r: nat, cand: Candidates, ghost extra: multiset<nat>)
    returns (s': Sched, refs': multiset<nat>)
    requires cand.Valid() && RefsOk(refs, s.oldest, cand.contents, extra)
    modifies cand, cand.rpcs
    ensures cand.Valid() && s' == Unmanage(c, s, r).0 && RefsOk(refs', s'.oldest, cand.contents, extra)
    ensures cand.contents == old(cand.contents) + Fitting(Unmanage(c, s, r).1, |old(cand.contents)|)
  {
    hide Unmanage, Entries;
    var step := Unmanage(c, s, r);
    UnmanageOldest(c, s, r);
    refs' := CandAdd(cand, step.1, refs);
    if s.oldest == Some(r) {
      refs' := refs' - multiset{r};
    }
    s' := step.0;
  }

  /** One RPC's grant grows, if it may; once it has all it needs it is no longer managed. */
  method GrantTo(c: Config, s: Sched, refs: multiset<nat>, r: nat, cand: Candidates, ghost extra: multiset<nat>)
    returns (s': Sched, refs': multiset<nat>, grew: bool)
    requires cand.Valid() && RefsOk(refs, s.oldest, cand.contents, extra)
    modifies cand, cand.rpcs
    ensures cand.Valid() && s' == WindowGrant(c, s, r).0 && RefsOk(refs', s'.oldest, cand.contents, extra)
    ensures grew == GrantSched.UpdateGranted(c, s, r).1
    ensures cand.contents == old(cand.contents) + Fitting(WindowGrant(c, s, r).1, |old(cand.contents)|)
  {
    hide Unmanage, Entries, GrantSched.UpdateGranted, GrantSched.UpdateIncoming, Fitting;
    GrowsKnown(c, s, r);
    var step := GrantSched.UpdateGranted(c, s, r);
    s', refs', grew := step.0, refs, step.1;
    NothingFits(|cand.contents|);
    if grew {
      IncomingKeeps(s', r);
      s' := GrantSched.UpdateIncoming(s', r);
      if s'.msgs[r].granted >= s'.msgs[r].length {
        s', refs' := UnmanageRpc(c, s', refs, r, cand, extra);
      }
    }
  }

  lemma NothingFits(used: nat)
    ensures Fitting(None, used) == []
  {
  }

  lemma GrowsKnown(c: Config, s: Sched, r: nat)
    ensures var (s1, grew) := GrantSched.UpdateGranted(c, s, r); s1.oldest == s.oldest && (grew ==> r in s1.msgs)
  {
  }

  lemma IncomingKeeps(s: Sched, r: nat)
    requires r in s.msgs
    ensures var s1 := GrantSched.UpdateIncoming(s, r); s1.oldest == s.oldest && r in s1.msgs
  {
  }

  /** The packet for a window grant that has been made. */
  lemma WindowDue(c: Config, s: Sched, r: nat)
    requires Inv(c, s) && r in s.msgs
    ensures var s' := WindowGrant(c, s, r).0;
      && r in s'.msgs && s'.msgs[r].granted == GrantedTo(c, s, r)
      && Due(c, s, GrantWindow(r))
         == (if GrantedTo(c, s, r) > s.msgs[r].granted then [GrantPkt(r, s'.msgs[r].granted)] else [])
      && (UpdateGranted(c, s, r).1 <==> GrantedTo(c, s, r) > s.msgs[r].granted)
  {
    hide Inv, WindowGrant, UpdateGranted, MsgOk, Reach;
    EachMsgOk(c, s, r);
    WindowGrantExact(c, s, r);
    UpdateGrantedIff(c, s, r);
    ReachLargest(c, s, s.msgs[r], Reach(c, s, s.msgs[r]));
  }

  /** Promotion only brings in RPCs that are there, and only after an RPC has stopped being managed. */
  lemma FittingKnown(c: Config, w: World, s: Sched, r: nat, used: nat)
    requires Inv(c, s) && w.s == WindowGrant(c, s, r).0
    ensures Known(w, Fitting(WindowGrant(c, s, r).1, used))
    ensures w.s.numGrantable == s.numGrantable ==> Fitting(WindowGrant(c, s, r).1, used) == []
  {
    hide Inv, WindowGrant;
    WindowGrantFacts(c, s, r);
  }

  /** One iteration of homa_grant_cand_check. A dead candidate gets no grant, but its reference is dropped all the
      same; a grant that grew is sent. */
  method CandStep(c: Config, w0: World, refs0: multiset<nat>, cand: Candidates,
                  ghost extra: multiset<nat>, ghost locked: set<nat>)
    returns (w: World, refs: multiset<nat>, ghost ops: seq<Op>)
    requires Inv(c, w0.s) && cand.Valid() && cand.contents != [] && Known(w0, cand.contents)
    requires RefsOk(refs0, w0.s.oldest, cand.contents, extra)
    modifies cand, cand.rpcs
    ensures cand.Valid() && Known(w, cand.contents) && RefsOk(refs, w.s.oldest, cand.contents, extra)
    ensures var r := old(cand.contents)[0];
      if r in w0.dead then w == w0 && ops == [] else r in w0.s.msgs && ops == [GrantWindow(r)] && w.dead == w0.dead
    ensures Leads(c, w0, old(cand.contents), w, cand.contents, ops, locked)
    ensures 0 <= w.s.numGrantable <= w0.s.numGrantable
    ensures w.s.numGrantable == w0.s.numGrantable ==> |cand.contents| < |old(cand.contents)|
  {
    hide Inv, Apply, WindowGrant, Entries, RefsOk, ManagedSet, Fitting, Leads, Known, UpdateGranted, GrantedTo;
    NonNegative(c, w0.s);
    ghost var ring := cand.contents;
    var r := cand.Take();
    FirstHeld(refs0, w0.s.oldest, ring, extra);
    KnownRest(w0, ring);
    w, refs, ops := w0, refs0, [];
    if r in w0.dead {
      LeadsDead(c, w0, ring, locked);
    } else {
      var s, grew;
      s, refs, grew := GrantTo(c, w0.s, refs0, r, cand, extra + multiset{r});
      WindowDue(c, w0.s, r);
      w := World(s, w0.dead, w0.sent + if grew then [GrantPkt(r, s.msgs[r].granted)] else []);
      ops := [GrantWindow(r)];
      WindowGrantFacts(c, w0.s, r);
      FittingKnown(c, w, w0.s, r, |ring| - 1);
      KnownMore(w0, w, ring[1..], Fitting(WindowGrant(c, w0.s, r).1, |ring| - 1));
      LeadsWindow(c, w0, ring, ring[1..], r, locked);
    }
    PutOne(refs, w.s.oldest, cand.contents, extra, r);
    refs := refs - multiset{r};
  }

  /** A dead candidate is dropped. */
  lemma LeadsDead(c: Config, w: World, ring: seq<nat>, locked: set<nat>)
    requires Inv(c, w.s) && ring != [] && ring[0] in w.dead
    ensures Leads(c, w, ring, w, ring[1..], [], locked)
  {
    hide Inv, ManagedSet;
    LeadsNowhere(c, w, ring[1..], locked);
    assert ring == [ring[0]] + ring[1..];
  }

  /** A window grant; the RPC pulled in by it becomes a candidate. */
  lemma LeadsWindow(c: Config, w0: World, ring0: seq<nat>, rest: seq<nat>, r: nat, locked: set<nat>)
    requires Inv(c, w0.s) && r in w0.s.msgs && |rest| < MAX_CAND && (ring0 == [r] + rest || ring0 == rest)
    ensures var step := WindowGrant(c, w0.s, r);
      Leads(c, w0, ring0, World(step.0, w0.dead, w0.sent + Due(c, w0.s, GrantWindow(r))),
            rest + Fitting(step.1, |rest|), [GrantWindow(r)], locked)
  {
    hide Inv, Apply, WindowGrant, ManagedSet, Leads, Due;
    WindowGrantFacts(c, w0.s, r);
    var step := WindowGrant(c, w0.s, r);
    LeadsStep(c, w0, ring0, step.0, rest + Fitting(step.1, |rest|), GrantWindow(r), locked);
  }

  lemma FirstHeld(refs: multiset<nat>, oldest: Option<nat>, ring: seq<nat>, extra: multiset<nat>)
    requires ring != [] && RefsOk(refs, oldest, ring, extra)
    ensures RefsOk(refs, oldest, ring[1..], extra + multiset{ring[0]})
  {
    assert ring == [ring[0]] + ring[1..];
  }

  lemma PutOne(refs: multiset<nat>, oldest: Option<nat>, ring: seq<nat>, extra: multiset<nat>, r: nat)
    requires RefsOk(refs, oldest, ring, extra + multiset{r})
    ensures RefsOk(refs - multiset{r}, oldest, ring, extra)
  {
  }

  lemma PutLast(refs: multiset<nat>, oldest: Option<nat>, ring: seq<nat>, r: nat)
    requires RefsOk(refs, oldest, ring, multiset{r})
    ensures RefsOk(refs - multiset{r}, oldest, ring, multiset{})
  {
  }

  lemma KnownRest(w: World, ring: seq<nat>)
    requires ring != [] && Known(w, ring)
    ensures Known(w, ring[1..]) && (ring[0] in w.s.msgs || ring[0] in w.dead)
  {
  }

  lemma KnownMore(w0: World, w: World, ring: seq<nat>, more: seq<nat>)
    requires Known(w0, ring) && Known(w, more) && w0.dead <= w.dead && w.s.msgs.Keys == w0.s.msgs.Keys
    ensures Known(w, ring + more)
  {
  }

  /** While others end RPCs, candidates stay known and no RPC starts to be managed. */
  lemma StillKnown(c: Config, w0: World, w: World, ops: seq<Op>, locked: set<nat>, ring: seq<nat>)
    requires Inv(c, w0.s) && Leads(c, w0, ring, w, ring, ops, locked) && Known(w0, ring)
    ensures Known(w, ring) && 0 <= w.s.numGrantable <= w0.s.numGrantable
  {
    hide Run, ManagedSet, QInv, Conserving, BudgetOk, Managed, MsgOk, SentBy, Served;
    Cardinality(ManagedSet(w.s.msgs, w.s.q), ManagedSet(w0.s.msgs, w0.s.q));
  }

  lemma Cardinality(a: set<nat>, b: set<nat>)
    requires a <= b
    ensures |a| <= |b|
  {
    assert b == a + (b - a);
  }

  /** homa_grant_cand_check: grant to every candidate, including those promoted on the way, while others end RPCs.
      It ends because a candidate is only added when the number of managed RPCs has gone down. */
  method CandCheck(c: Config, w0: World, refs0: multiset<nat>, locked: set<nat>, cand: Candidates,
                   ghost extra: multiset<nat>)
    returns (w: World, refs: multiset<nat>, ghost ops: seq<Op>)
    requires Inv(c, w0.s) && cand.Valid() && Known(w0, cand.contents)
    requires RefsOk(refs0, w0.s.oldest, cand.contents, extra)
    modifies cand, cand.rpcs
    ensures cand.Valid() && cand.contents == [] && RefsOk(refs, w.s.oldest, [], extra)
    ensures Leads(c, w0, old(cand.contents), w, [], ops, locked) && Inv(c, w.s)
    ensures forall x :: x in old(cand.contents) ==> x in w.dead || GrantWindow(x) in ops
  {
    hide Inv, Apply, Entries, RefsOk, Known, ManagedSet, Leads, Run;
    ghost var ring0 := cand.contents;
    w, refs, ops := w0, refs0, [];
    LeadsNowhere(c, w0, ring0, locked);
    while cand.removes < cand.inserts
      invariant cand.Valid() && Inv(c, w.s) && Leads(c, w0, ring0, w, cand.contents, ops, locked)
      invariant RefsOk(refs, w.s.oldest, cand.contents, extra) && Known(w, cand.contents)
      decreases w.s.numGrantable, cand.inserts - cand.removes
    {
      ghost var w1, more, ring := w, [], cand.contents;
      w, refs, more := Others(c, w, refs, locked, ring, extra);
      LeadsOn(c, w0, ring0, w1, ring, w, ring, ops, more, locked);
      StillKnown(c, w1, w, more, locked, ring);
      ops := ops + more;
      ghost var w2 := w;
      w, refs, more := CandStep(c, w, refs, cand, extra, locked);
      LeadsOn(c, w0, ring0, w2, ring, w, cand.contents, ops, more, locked);
      ops := ops + more;
    }
    LeadsRun(c, w0, ring0, w, [], ops, locked);
  }

  lemma NonNegative(c: Config, s: Sched)
    requires Inv(c, s)
    ensures 0 <= s.numGrantable
  {
  }

  // ---- FIFO grants ----

  /** The RPC that homa_grant_check_fifo grants to: oldest_rpc while it responds, and else a new choice. */
  function Choice(c: Config, s: Sched): Option<nat> {
    if s.oldest.Some? && Eligible(c, s, s.oldest.value) then s.oldest else GrantSched.FindOldest(c, s).oldest
  }

  /** There is one whenever some managed RPC other than the first active one has fewer than window plus two
      increments of bytes on their way. */
  lemma ChoiceExists(c: Config, s: Sched, x: nat)
    requires Inv(c, s) && x in s.msgs && Managed(s.msgs, s.q, x) && (s.q.active == [] || x != s.q.active[0])
    requires s.msgs[x].recIncoming < s.window + 2 * c.fifoIncrement
    ensures Choice(c, s).Some? && Choice(c, s).value in s.msgs && Managed(s.msgs, s.q, Choice(c, s).value)
  {
    hide QInv, Conserving, BudgetOk, MsgsOk, GrantSched.FindOldest, Managed;
    FindOldestOk(c, s);
    assert Inv(c, GrantSched.FindOldest(c, s));
    ChooseOldestFacts(c, s);
  }

  /** The first part of homa_grant_check_fifo: an oldest_rpc that does not respond is dropped, with its reference;
      if there is none a new one is chosen and held. */
  method RefreshOldest(c: Config, s0: Sched, refs0: multiset<nat>)
    returns (s: Sched, refs: multiset<nat>, ghost ops: seq<Op>)
    requires Inv(c, s0) && RefsOk(refs0, s0.oldest, [], multiset{})
    ensures Inv(c, s) && s == Run(c, s0, ops) && s.msgs == s0.msgs && s.q == s0.q
    ensures RefsOk(refs, s.oldest, [], multiset{})
    ensures s.oldest == Choice(c, s0) && (s.oldest.Some? ==> Eligible(c, s, s.oldest.value))
    ensures ops == [] || ops == [ChooseOldest]
  {
    hide Inv, Apply, Eligible, GrantSched.FindOldest;
    s, refs, ops := s0, refs0, [];
    if s.oldest.Some? && !Eligible(c, s, s.oldest.value) {
      refs := refs - multiset{s.oldest.value};
      s := s.(oldest := None);
    }
    if s.oldest.None? {
      ChooseOldestFacts(c, s0);
      ChoiceForgets(c, s0);
      s := GrantSched.FindOldest(c, s);
      if s.oldest.Some? {
        refs := refs + multiset{s.oldest.value};
      }
      ops := [ChooseOldest];
      RunOne(c, s0, ChooseOldest);
    }
  }

  /** The choice does not depend on the one before. */
  lemma ChoiceForgets(c: Config, s: Sched)
    ensures GrantSched.FindOldest(c, s.(oldest := None)) == GrantSched.FindOldest(c, s)
  {
    OldestOfFrame(c, s, s.(oldest := None), FifoOrder(s.q, s.q.peers), None);
  }

  lemma ChooseOldestFacts(c: Config, s: Sched)
    requires Inv(c, s)
    ensures var s' := GrantSched.FindOldest(c, s);
      && Inv(c, s') && s' == Apply(c, s, ChooseOldest) && s'.msgs == s.msgs && s'.q == s.q
      && (s'.oldest.Some? ==> Eligible(c, s', s'.oldest.value))
  {
    hide QInv, Conserving, BudgetOk, MsgsOk;
    FindOldestOk(c, s);
  }

  /** The granting part of homa_grant_check_fifo, for an RPC that is not dead. */
  method FifoTo(c: Config, s: Sched, refs: multiset<nat>, r: nat, cand: Candidates, ghost extra: multiset<nat>)
    returns (s': Sched, refs': multiset<nat>)
    requires r in s.msgs && cand.Valid() && cand.contents == [] && RefsOk(refs, s.oldest, [], extra)
    modifies cand, cand.rpcs
    ensures cand.Valid() && s' == FifoGrant(c, s, r).0 && RefsOk(refs', s'.oldest, cand.contents, extra)
    ensures cand.contents == Fitting(FifoGrant(c, s, r).1, 0)
  {
    hide Unmanage, Entries, Fitting, Promote, GrantSched.UpdateIncoming;
    s', refs' := SetMsg(s, r, FifoRaised(c, s.msgs[r])), refs;
    NothingFits(0);
    if s'.msgs[r].granted >= s'.msgs[r].length {
      UnmanageKeeps(c, s', r);
      s', refs' := UnmanageRpc(c, s', refs, r, cand, extra);
    } else {
      s' := s'.(q := Promote(c, s'.msgs, s'.q, r));
    }
    IncomingKeeps(s', r);
    s' := GrantSched.UpdateIncoming(s', r);
  }

  lemma UnmanageKeeps(c: Config, s: Sched, r: nat)
    ensures Unmanage(c, s, r).0.msgs == s.msgs
  {
    hide Expel, Managed;
  }

  /** homa_grant_check_fifo: when its time has come, one FIFO grant to the RPC chosen. No lock is held between
      choosing the RPC and locking it, so it may be dead by then; otherwise it gets its grant. */
  method CheckFifo(c: Config, w0: World, refs0: multiset<nat>, due: bool)
    returns (w: World, refs: multiset<nat>, ghost ops: seq<Op>)
    requires ValidConfig(c) && Inv(c, w0.s) && RefsOk(refs0, w0.s.oldest, [], multiset{})
    ensures Leads(c, w0, [], w, [], ops, {}) && Inv(c, w.s) && RefsOk(refs, w.s.oldest, [], multiset{})
    ensures due && c.fifoIncrement != 0 && Choice(c, w0.s).Some? ==>
              Choice(c, w0.s).value in w.dead || Op.GrantFifo(Choice(c, w0.s).value) in ops
    ensures !due ==> ops == []
  {
    hide Inv, Eligible, Run, Leads, Known, ManagedSet, Entries, RefsOk, Choice;
    w, refs, ops := w0, refs0, [];
    LeadsNowhere(c, w0, [], {});
    if !due || c.fifoIncrement == 0 {
      return;
    }
    var s;
    s, refs, ops := RefreshOldest(c, w0.s, refs0);
    w := w0.(s := s);
    LeadsChoice(c, w0, s, ops);
    if s.oldest.None? {
      return;
    }
    var r := s.oldest.value;
    HoldOne(refs, s.oldest, r);
    refs := refs + multiset{r};
    ghost var w1, more := w, [];
    w, refs, more := Others(c, w, refs, {}, [], multiset{r});
    LeadsOn(c, w0, [], w1, [], w, [], ops, more, {});
    ops := ops + more;
    if r in w.dead {
      PutLast(refs, w.s.oldest, [], r);
      refs := refs - multiset{r};
      return;
    }
    w1 := w;
    w, refs, more := FifoRound(c, w, refs, r);
    LeadsOn(c, w0, [], w1, [], w, [], ops, more, {});
    ops := ops + more;
  }

  lemma HoldOne(refs: multiset<nat>, oldest: Option<nat>, r: nat)
    requires RefsOk(refs, oldest, [], multiset{})
    ensures RefsOk(refs + multiset{r}, oldest, [], multiset{r})
  {
  }

  lemma LeadsChoice(c: Config, w0: World, s: Sched, ops: seq<Op>)
    requires Inv(c, s) && s == Run(c, w0.s, ops) && s.msgs == w0.s.msgs && s.q == w0.s.q
    requires ops == [] || ops == [ChooseOldest]
    ensures Leads(c, w0, [], w0.(s := s), [], ops, {})
  {
    hide Inv, Apply, ManagedSet, Leads;
    if ops == [] {
      LeadsNowhere(c, w0, [], {});
    } else {
      RunOne(c, w0.s, ChooseOldest);
      LeadsStep(c, w0, [], s, [], ChooseOldest, {});
      assert w0.sent + [] == w0.sent;
    }
  }

  /** The rest of homa_grant_check_fifo, with r, which is oldest_rpc, locked and held. */
  method FifoRound(c: Config, w0: World, refs0: multiset<nat>, r: nat)
    returns (w: World, refs: multiset<nat>, ghost ops: seq<Op>)
    requires ValidConfig(c) && Inv(c, w0.s) && w0.s.oldest == Some(r)
    requires RefsOk(refs0, w0.s.oldest, [], multiset{r})
    ensures Leads(c, w0, [], w, [], ops, {}) && Inv(c, w.s) && RefsOk(refs, w.s.oldest, [], multiset{})
    ensures Op.GrantFifo(r) in ops
  {
    hide Inv, Apply, FifoGrant, Eligible, Run, Leads, Known, ManagedSet, Entries, RefsOk, Due;
    FifoGrantFacts(c, w0.s, r);
    var cand := new Candidates();
    var s;
    s, refs := FifoTo(c, w0.s, refs0, r, cand, multiset{r});
    FifoDue(c, w0, r);
    w, ops := World(s, w0.dead, w0.sent + [GrantPkt(r, s.msgs[r].granted)]), [Op.GrantFifo(r)];
    PutLast(refs, s.oldest, cand.contents, r);
    refs := refs - multiset{r};
    FifoKnown(c, w, w0.s, r);
    ghost var w1, ring, more := w, cand.contents, [];
    w, refs, more := CandCheck(c, w, refs, {}, cand, multiset{});
    LeadsOn(c, w0, [], w1, ring, w, [], ops, more, {});
    ops := ops + more;
  }

  lemma FifoDue(c: Config, w0: World, r: nat)
    requires ValidConfig(c) && Inv(c, w0.s) && w0.s.oldest == Some(r)
    ensures r in w0.s.msgs
    ensures var step := FifoGrant(c, w0.s, r);
      && r in step.0.msgs
      && Leads(c, w0, [], World(step.0, w0.dead, w0.sent + [GrantPkt(r, step.0.msgs[r].granted)]),
               Fitting(step.1, 0), [Op.GrantFifo(r)], {})
  {
    hide QInv, Conserving, BudgetOk, MsgsOk, Apply, FifoGrant, Managed, ManagedSet, Leads;
    FifoGrantFacts(c, w0.s, r);
    var step := FifoGrant(c, w0.s, r);
    LeadsStep(c, w0, [], step.0, Fitting(step.1, 0), Op.GrantFifo(r), {});
  }

  lemma FifoKnown(c: Config, w: World, s: Sched, r: nat)
    requires ValidConfig(c) && Inv(c, s) && s.oldest == Some(r) && r in s.msgs && w.s == FifoGrant(c, s, r).0
    ensures Known(w, Fitting(FifoGrant(c, s, r).1, 0))
  {
    hide Inv, FifoGrant, ManagedSet;
    FifoGrantFacts(c, s, r);
  }

  // ---- Data arrives ----

  /** The fast path of homa_grant_check_rpc: r's own grant grows if it may, and then there may be a FIFO grant,
      decided on after k steps. r is unlocked once a grant is due. */
  method FastPath(c: Config, w0: World, refs0: multiset<nat>, r: nat, fifoDue: bool)
    returns (w: World, refs: multiset<nat>, ghost ops: seq<Op>, ghost k: nat)
    requires ValidConfig(c) && Inv(c, w0.s) && r in w0.s.msgs && RefsOk(refs0, w0.s.oldest, [], multiset{})
    ensures Leads(c, w0, [], w, [], ops, {}) && Inv(c, w.s) && RefsOk(refs, w.s.oldest, [], multiset{})
    ensures ops != [] && ops[0] == GrantWindow(r)
    ensures GrantedTo(c, w0.s, r) > w0.s.msgs[r].granted ==> FifoDone(c, w0.s, fifoDue, w, ops, k)
  {
    hide Inv, Apply, WindowGrant, Run, UpdateGranted, Leads, Known, ManagedSet, Entries, RefsOk, Fitting;
    hide GrantedTo, Choice, Due;
    WindowDue(c, w0.s, r);
    var cand := new Candidates();
    var s, grew;
    s, refs, grew := GrantTo(c, w0.s, refs0, r, cand, multiset{});
    w := World(s, w0.dead, w0.sent + if grew then [GrantPkt(r, s.msgs[r].granted)] else []);
    ops, k := [GrantWindow(r)], 0;
    WindowGrantFacts(c, w0.s, r);
    LeadsWindow(c, w0, [], [], r, {});
    FittingKnown(c, w, w0.s, r, 0);
    ghost var ring := Fitting(WindowGrant(c, w0.s, r).1, 0);
    assert [] + ring == ring;
    ghost var w1, more := w, [];
    if !grew {
      AccountFacts(c, s, r);
      NoGrowthNoPromotion(c, w0.s, r);
      w := w.(s := GrantSched.UpdateIncoming(s, r));
      AccountLeads(c, w1, r);
      LeadsOn(c, w0, [], w1, [], w, [], ops, [Account(r)], {});
      ops := ops + [Account(r)];
    } else {
      w, refs, more := CandCheck(c, w, refs, {}, cand, multiset{});
      LeadsOn(c, w0, [], w1, ring, w, [], ops, more, {});
      ops, w1 := ops + more, w;
      k := |ops|;
      w, refs, more := CheckFifo(c, w, refs, fifoDue);
      FifoSeen(c, w0, w1, w, ops, more, fifoDue);
      LeadsOn(c, w0, [], w1, [], w, [], ops, more, {});
      ops := ops + more;
    }
  }

  /** If a FIFO grant was due after k steps and there was an RPC to choose, it got its grant, or is dead. */
  ghost predicate FifoDone(c: Config, s: Sched, due: bool, w: World, ops: seq<Op>, k: nat) {
    && k <= |ops|
    && var o := Choice(c, Run(c, s, ops[..k]));
       due && c.fifoIncrement != 0 && o.Some? ==> o.value in w.dead || Op.GrantFifo(o.value) in ops[k..]
  }

  lemma FifoSeen(c: Config, w0: World, w1: World, w: World, ops: seq<Op>, more: seq<Op>, due: bool)
    requires Leads(c, w0, [], w1, [], ops, {})
    requires due && c.fifoIncrement != 0 && Choice(c, w1.s).Some? ==>
               Choice(c, w1.s).value in w.dead || Op.GrantFifo(Choice(c, w1.s).value) in more
    ensures FifoDone(c, w0.s, due, w, ops + more, |ops|)
  {
    hide Inv, Run, ManagedSet, SentBy, Served, Handled, Choice;
    assert (ops + more)[..|ops|] == ops && (ops + more)[|ops|..] == more;
  }

  lemma AccountLeads(c: Config, w: World, r: nat)
    requires Inv(c, w.s) && r in w.s.msgs
    ensures Leads(c, w, [], w.(s := GrantSched.UpdateIncoming(w.s, r)), [], [Account(r)], {})
  {
    hide Inv, Apply, ManagedSet, Leads, GrantSched.UpdateIncoming;
    AccountFacts(c, w.s, r);
    LeadsStep(c, w, [], GrantSched.UpdateIncoming(w.s, r), [], Account(r), {});
    assert w.sent + [] == w.sent;
  }

  lemma SameSet(s: Sched, r: nat, m: Msg)
    requires r in s.msgs && m.peer == s.msgs[r].peer
    ensures ManagedSet(s.msgs[r := m], s.q) == ManagedSet(s.msgs, s.q)
  {
  }

  lemma AccountFacts(c: Config, s: Sched, r: nat)
    requires Inv(c, s) && r in s.msgs
    ensures var s' := GrantSched.UpdateIncoming(s, r);
      && Inv(c, s') && s' == Apply(c, s, Account(r)) && s'.msgs.Keys == s.msgs.Keys && s'.oldest == s.oldest
      && ManagedSet(s'.msgs, s'.q) == ManagedSet(s.msgs, s.q)
  {
    hide QInv, Conserving, BudgetOk, MsgsOk, ManagedSet;
    AccountOk(c, s, r);
    SameSet(s, r, Recorded(s.msgs[r]));
  }

  lemma NoGrowthNoPromotion(c: Config, s: Sched, r: nat)
    requires !GrantSched.UpdateGranted(c, s, r).1
    ensures WindowGrant(c, s, r).1 == None && Fitting(WindowGrant(c, s, r).1, 0) == []
  {
  }

  /** The RPCs in l that have less than a window of bytes on their way and are not dead. */
  function Needies(s: Sched, l: seq<nat>, dead: set<nat>): seq<nat> {
    if l == [] then []
    else (if Key(s.msgs, l[0]).recIncoming < s.window && l[0] !in dead then [l[0]] else []) + Needies(s, l[1..], dead)
  }

  /** As many of l as the candidate ring holds. */
  function Candidated(l: seq<nat>): seq<nat> {
    if |l| <= MAX_CAND then l else l[..MAX_CAND]
  }

  lemma {:induction false} NeediesNext(s: Sched, l: seq<nat>, i: nat, dead: set<nat>)
    requires i < |l|
    ensures Needies(s, l[..i + 1], dead) == Needies(s, l[..i], dead) + Needies(s, [l[i]], dead)
    decreases i
  {
    if i == 0 {
      assert l[..1] == [l[0]] && l[..0] == [];
      assert [] + Needies(s, [l[0]], dead) == Needies(s, [l[0]], dead);
    } else {
      NeediesNext(s, l[1..], i - 1, dead);
      assert l[1..][..i] == l[..i + 1][1..] && l[1..][..i - 1] == l[..i][1..];
      var a := if Key(s.msgs, l[0]).recIncoming < s.window && l[0] !in dead then [l[0]] else [];
      var b, d := Needies(s, l[..i][1..], dead), Needies(s, [l[i]], dead);
      assert a + (b + d) == a + b + d;
    }
  }

  lemma NeedyOne(s: Sched, x: nat, dead: set<nat>)
    ensures Needies(s, [x], dead) == if Key(s.msgs, x).recIncoming < s.window && x !in dead then [x] else []
  {
    assert [x][1..] == [];
  }

  /** The loop over active_rpcs from a given rank on: the first eight RPCs that need grants become candidates. */
  method Gather(c: Config, w: World, refs0: multiset<nat>, needy: nat, cand: Candidates) returns (refs: multiset<nat>)
    requires Inv(c, w.s) && cand.Valid() && cand.contents == [] && RefsOk(refs0, w.s.oldest, [], multiset{})
    modifies cand, cand.rpcs
    ensures cand.Valid() && Known(w, cand.contents) && RefsOk(refs, w.s.oldest, cand.contents, multiset{})
    ensures cand.contents == Candidated(Needies(w.s, From(w.s.q.active, needy), w.dead))
  {
    hide Inv, Entries, RefsOk, Needies;
    ClearStalledFacts(c, w.s);
    refs := refs0;
    var l := From(w.s.q.active, needy);
    FromIn(w.s.q.active, needy);
    var i := 0;
    assert l[..0] == [];
    NeedyNone(w.s, w.dead);
    while i < |l|
      invariant 0 <= i <= |l| && cand.Valid()
      invariant cand.contents == Candidated(Needies(w.s, l[..i], w.dead))
      invariant Known(w, cand.contents) && RefsOk(refs, w.s.oldest, cand.contents, multiset{})
    {
      NeediesNext(w.s, l, i, w.dead);
      NeedyOne(w.s, l[i], w.dead);
      ghost var was, all := cand.contents, Needies(w.s, l[..i], w.dead);
      if Key(w.s.msgs, l[i]).recIncoming < w.s.window && l[i] !in w.dead {
        GatherOne(refs, w.s.oldest, was, l[i]);
        refs := CandAdd(cand, Some(l[i]), refs);
        assert Candidated(all + [l[i]]) == was + Fitting(Some(l[i]), |was|);
      } else {
        assert all + [] == all;
      }
      i := i + 1;
    }
    assert l[..i] == l;
  }

  lemma GatherOne(refs: multiset<nat>, oldest: Option<nat>, ring: seq<nat>, x: nat)
    requires RefsOk(refs, oldest, ring, multiset{})
    ensures RefsOk(refs + multiset(Fitting(Some(x), |ring|)), oldest, ring + Fitting(Some(x), |ring|), multiset{})
  {
  }

  lemma NeedyNone(s: Sched, dead: set<nat>)
    ensures Needies(s, [], dead) == []
  {
  }

  function From(l: seq<nat>, i: nat): seq<nat> {
    if i <= |l| then l[i..] else []
  }

  lemma FromIn(l: seq<nat>, i: nat)
    ensures forall x :: x in From(l, i) ==> x in l
  {
  }

  /** The slow path of homa_grant_check_rpc: the first eight RPCs that need grants, from a given rank on, get another
      chance, but for dead ones. */
  method ServeNeedy(c: Config, w0: World, refs0: multiset<nat>, needy0: nat)
    returns (w: World, refs: multiset<nat>, ghost ops: seq<Op>)
    requires ValidConfig(c) && Inv(c, w0.s) && RefsOk(refs0, w0.s.oldest, [], multiset{})
    ensures Leads(c, w0, [], w, [], ops, {}) && Inv(c, w.s) && RefsOk(refs, w.s.oldest, [], multiset{})
    ensures forall x :: x in FirstNeedies(w0.s, needy0, w0.dead) ==> x in w.dead || GrantWindow(x) in ops
  {
    hide Inv, Apply, Run, Held, Leads, ManagedSet, Entries, Known, Needies;
    var needy := if w0.s.stalled < needy0 then w0.s.stalled else needy0;
    w, refs, ops := w0.(s := w0.s.(stalled := INT_MAX)), refs0, [ClearStalled];
    ClearStalledFacts(c, w0.s);
    LeadsStep(c, w0, [], w.s, [], ClearStalled, {});
    assert w0.sent + [] == w0.sent;
    var cand := new Candidates();
    refs := Gather(c, w, refs, needy, cand);
    ghost var w1, ring, more := w, cand.contents, [];
    NeediesFrame(w0.s, w.s, From(w.s.q.active, needy), w0.dead);
    w, refs, more := CandCheck(c, w, refs, {}, cand, multiset{});
    NewRing(c, w0, w1, ring, ops, {});
    LeadsOn(c, w0, [], w1, ring, w, [], ops, more, {});
    ops := ops + more;
  }

  /** The RPCs that the slow path looks at. */
  function FirstNeedies(s: Sched, needy: nat, dead: set<nat>): seq<nat> {
    Candidated(Needies(s, From(s.q.active, if s.stalled < needy then s.stalled else needy), dead))
  }

  lemma {:induction false} NeediesFrame(s: Sched, s': Sched, l: seq<nat>, dead: set<nat>)
    requires s.msgs == s'.msgs && s.window == s'.window
    ensures Needies(s, l, dead) == Needies(s', l, dead)
    decreases |l|
  {
    if l != [] {
      NeediesFrame(s, s', l[1..], dead);
    }
  }

  /** More candidates may be pending. */
  lemma NewRing(c: Config, w0: World, w: World, ring: seq<nat>, ops: seq<Op>, locked: set<nat>)
    requires Leads(c, w0, [], w, [], ops, locked)
    ensures Leads(c, w0, [], w, ring, ops, locked)
  {
    hide Inv, Run, ManagedSet, SentBy, Promoted;
    forall k | 0 <= k < |ops| ensures Follows(c, w0.s, ops, k, w.dead, ring) {
      assert Follows(c, w0.s, ops, k, w.dead, []);
    }
  }

  lemma ClearStalledFacts(c: Config, s: Sched)
    requires Inv(c, s)
    ensures var s' := s.(stalled := INT_MAX); Inv(c, s') && s' == Apply(c, s, ClearStalled)
    ensures forall r :: r in s.q.active ==> r in s.msgs
  {
    hide WaitingOk, PeersOk, Conserving, BudgetOk, MsgsOk;
  }

  /** What homa_grant_check_rpc does first: account for the bytes that have arrived and, if it is time, sort. */
  function Opening(r: nat, recalcDue: bool): seq<Op> {
    if recalcDue then [Account(r), Recalculate] else [Account(r)]
  }

  /** The best rank that sorting has improved, or INT_MAX. */
  function Improved(s: Sched, r: nat, recalcDue: bool): nat
    requires r in s.msgs
  {
    if recalcDue then
      var s1 := GrantSched.UpdateIncoming(s, r);
      GrantSched.FixOrder(s1.msgs, s1.q.active).1
    else INT_MAX
  }

  /** No RPC that is better placed than r is waiting for its turn. */
  predicate InTurn(s: Sched, r: nat, needy: nat) {
    r in s.q.active && IndexOf(s.q.active, r) <= needy
  }

  /** What is known of a call of homa_grant_check_rpc: after fast steps it has decided about r's own grant,
      after slow steps about those of others, while the RPCs in `dead` were dead. */
  datatype Course = Course(fast: nat, slow: nat, dead: set<nat>)

  /** The call has begun as it should: only the ends of other RPCs come between the opening and the decision. */
  ghost predicate Opened(ops: seq<Op>, r: nat, recalcDue: bool, fast: nat) {
    var n := |Opening(r, recalcDue)|;
    n <= fast <= |ops| && ops[..n] == Opening(r, recalcDue) && OnlyEnds(ops[n..fast], {r})
  }

  /** r's grant has been dealt with: if it was r's turn it has the largest grant that its limits allow, the
      sender has been told if that is a new one, and then a FIFO grant has been made if it was due. */
  ghost predicate FastDone(c: Config, w0: World, w: World, ops: seq<Op>, r: nat, needy: nat, fifoDue: bool, fast: nat) {
    && fast <= |ops| && |w0.sent| <= |w.sent|
    && var s := Run(c, w0.s, ops[..fast]);
       && r in s.msgs
       && (InTurn(s, r, needy) ==>
             && fast < |ops| && ops[fast] == GrantWindow(r)
             && (GrantedTo(c, s, r) > s.msgs[r].granted ==>
                   && GrantPkt(r, GrantedTo(c, s, r)) in w.sent[|w0.sent|..]
                   && exists k :: FifoDone(c, s, fifoDue, w, ops[fast..], k)))
  }

  /** Others have been dealt with: if some rank was waiting and there was room in the byte budget, the first
      eight RPCs that need grants from that rank on have got theirs, but for those that have died. */
  ghost predicate SlowDone(c: Config, w0: World, w: World, ops: seq<Op>, needy: nat, slow: nat, dead: set<nat>) {
    && slow <= |ops|
    && var s := Run(c, w0.s, ops[..slow]);
       needy < INT_MAX && s.total < c.maxIncoming ==>
         forall x :: x in FirstNeedies(s, needy, dead) ==> x in w.dead || GrantWindow(x) in ops[slow..]
  }

  /** homa_grant_check_rpc, called when data has arrived for r: nothing is done without a message or buffers for it,
      or if r is dead. */
  method CheckRpc(c: Config, w0: World, refs0: multiset<nat>, r: nat, haveBuffers: bool, recalcDue: bool, fifoDue: bool)
    returns (w: World, refs: multiset<nat>, ghost ops: seq<Op>, ghost t: Course)
    requires ValidConfig(c) && Inv(c, w0.s) && RefsOk(refs0, w0.s.oldest, [], multiset{})
    ensures Leads(c, w0, [], w, [], ops, {}) && RefsOk(refs, w.s.oldest, [], multiset{})
    ensures r !in w0.s.msgs || !haveBuffers || r in w0.dead ==> w == w0 && refs == refs0
    ensures r in w0.s.msgs && haveBuffers && r !in w0.dead ==>
      && Opened(ops, r, recalcDue, t.fast) && t.fast <= t.slow <= |ops| && w0.dead <= t.dead <= w.dead
      && var stalled := Run(c, w0.s, ops[..t.fast]).stalled;
         var needy := if stalled < Improved(w0.s, r, recalcDue) then stalled else Improved(w0.s, r, recalcDue);
         FastDone(c, w0, w, ops, r, needy, fifoDue, t.fast) && SlowDone(c, w0, w, ops, needy, t.slow, t.dead)
  {
    hide Inv, Apply, Run, Held, Leads, RefsOk, Opened, FastDone, SlowDone, Improved, FirstNeedies, OnlyEnds, FifoDone;
    hide GrantedTo;
    w, refs, ops, t := w0, refs0, [], Course(0, 0, w0.dead);
    LeadsNowhere(c, w0, [], {});
    if r !in w0.s.msgs || !haveBuffers || r in w0.dead {
      return;
    }
    var needy;
    ghost var fast, slow, dead, more;
    w, refs, needy, ops, fast := CheckOwn(c, w0, refs0, r, recalcDue, fifoDue);
    ghost var w1, own := w, ops;
    w, refs, more, slow, dead := CheckOthers(c, w, refs, needy);
    LeadsOn(c, w0, [], w1, [], w, [], ops, more, {});
    ops := ops + more;
    t := Course(fast, |own| + slow, dead);
    LeadsRun(c, w0, [], w1, [], own, {});
    FastDoneOn(c, w0, w1, w, own, more, r, needy, fifoDue, fast);
    SlowDoneOn(c, w0, w1, w, own, more, needy, slow, dead);
    OpenedOn(own, more, r, recalcDue, fast);
    assert ops[..fast] == own[..fast];
  }

  /** The first half of a call: the opening and r's own grant. */
  method CheckOwn(c: Config, w0: World, refs0: multiset<nat>, r: nat, recalcDue: bool, fifoDue: bool)
    returns (w: World, refs: multiset<nat>, needy: nat, ghost ops: seq<Op>, ghost fast: nat)
    requires ValidConfig(c) && Inv(c, w0.s) && RefsOk(refs0, w0.s.oldest, [], multiset{}) && r in w0.s.msgs
    ensures Leads(c, w0, [], w, [], ops, {}) && Inv(c, w.s) && RefsOk(refs, w.s.oldest, [], multiset{})
    ensures Opened(ops, r, recalcDue, fast) && fast <= |ops|
    ensures var stalled := Run(c, w0.s, ops[..fast]).stalled;
      needy == if stalled < Improved(w0.s, r, recalcDue) then stalled else Improved(w0.s, r, recalcDue)
    ensures FastDone(c, w0, w, ops, r, needy, fifoDue, fast)
  {
    hide Inv, Apply, Run, Held, Leads, RefsOk, Opened, FastDone, Improved, OnlyEnds, FifoDone, GrantedTo;
    ghost var more;
    w, needy, ops := OpenCheck(c, w0, r, recalcDue);
    ghost var w1 := w;
    w, refs, more := Others(c, w, refs0, {r}, [], multiset{});
    BeginsWell(c, w0, w1, w, ops, more, r, recalcDue);
    ops := ops + more;
    needy := if w.s.stalled < needy then w.s.stalled else needy;
    ghost var wf, opening := w, ops;
    fast := |ops|;
    ghost var k;
    w, refs, more, k := TryFast(c, w, refs, r, needy, fifoDue);
    LeadsOn(c, w0, [], wf, [], w, [], ops, more, {});
    ops := ops + more;
    OpenedOn(opening, more, r, recalcDue, fast);
    LeadsRun(c, w0, [], wf, [], opening, {});
    assert ops[..fast] == opening;
    FastProof(c, w0, wf, w, opening, more, r, needy, fifoDue, k);
  }

  /** The second half of a call: the grants of others. */
  method CheckOthers(c: Config, w0: World, refs0: multiset<nat>, needy: nat)
    returns (w: World, refs: multiset<nat>, ghost ops: seq<Op>, ghost slow: nat, ghost dead: set<nat>)
    requires ValidConfig(c) && Inv(c, w0.s) && RefsOk(refs0, w0.s.oldest, [], multiset{})
    ensures Leads(c, w0, [], w, [], ops, {}) && Inv(c, w.s) && RefsOk(refs, w.s.oldest, [], multiset{})
    ensures w0.dead <= dead <= w.dead && slow <= |ops| && SlowDone(c, w0, w, ops, needy, slow, dead)
  {
    hide Inv, Run, Leads, RefsOk, FirstNeedies, OnlyEnds;
    w, refs, ops := Others(c, w0, refs0, {}, [], multiset{});
    ghost var w1, first, more := w, ops, [];
    w, refs, more := TrySlow(c, w, refs, needy);
    LeadsOn(c, w0, [], w1, [], w, [], ops, more, {});
    LeadsRun(c, w0, [], w1, [], first, {});
    LeadsRun(c, w1, [], w, [], more, {});
    ops, slow, dead := ops + more, |first|, w1.dead;
    assert ops[..slow] == first && ops[slow..] == more;
  }

  /** The opening of a call. */
  method OpenCheck(c: Config, w0: World, r: nat, recalcDue: bool) returns (w: World, best: nat, ghost ops: seq<Op>)
    requires ValidConfig(c) && Inv(c, w0.s) && r in w0.s.msgs
    ensures ops == Opening(r, recalcDue) && best == Improved(w0.s, r, recalcDue)
    ensures Leads(c, w0, [], w, [], ops, {}) && Inv(c, w.s)
    ensures r in w.s.msgs && w.dead == w0.dead && w.s.oldest == w0.s.oldest
  {
    hide Inv, Apply, Run, Leads, ManagedSet, GrantSched.FixOrder, GrantSched.UpdateIncoming;
    AccountFacts(c, w0.s, r);
    AccountLeads(c, w0, r);
    w, best, ops := w0.(s := GrantSched.UpdateIncoming(w0.s, r)), INT_MAX, [Account(r)];
    if recalcDue {
      RecalculateFacts(c, w.s);
      var (l, b) := GrantSched.FixOrder(w.s.msgs, w.s.q.active);
      ghost var w1 := w;
      w, best := w.(s := w.s.(q := w.s.q.(active := l))), b;
      LeadsStep(c, w1, [], w.s, [], Recalculate, {});
      assert w1.sent + [] == w1.sent;
      LeadsOn(c, w0, [], w1, [], w, [], ops, [Recalculate], {});
      ops := ops + [Recalculate];
    }
  }

  lemma BeginsWell(c: Config, w0: World, w1: World, w: World, ops: seq<Op>, more: seq<Op>, r: nat, recalcDue: bool)
    requires Leads(c, w0, [], w1, [], ops, {}) && ops == Opening(r, recalcDue) && r in w1.s.msgs
    requires Leads(c, w1, [], w, [], more, {r}) && OnlyEnds(more, {r})
    ensures Leads(c, w0, [], w, [], ops + more, {}) && r in w.s.msgs && Inv(c, w.s)
    ensures Opened(ops + more, r, recalcDue, |ops + more|)
  {
    hide Inv, Leads, Run, OnlyEnds;
    Unlocked(c, w1, [], w, [], more, r);
    LeadsOn(c, w0, [], w1, [], w, [], ops, more, {});
    assert (ops + more)[..|ops|] == ops && (ops + more)[|ops|..|ops + more|] == more;
  }

  lemma OpenedOn(ops: seq<Op>, more: seq<Op>, r: nat, recalcDue: bool, fast: nat)
    requires Opened(ops, r, recalcDue, fast)
    ensures Opened(ops + more, r, recalcDue, fast)
  {
    hide OnlyEnds;
    var n := |Opening(r, recalcDue)|;
    assert (ops + more)[..n] == ops[..n] && (ops + more)[n..fast] == ops[n..fast];
  }

  /** The fast path, if it is r's turn. */
  method TryFast(c: Config, w0: World, refs0: multiset<nat>, r: nat, needy: nat, fifoDue: bool)
    returns (w: World, refs: multiset<nat>, ghost ops: seq<Op>, ghost k: nat)
    requires ValidConfig(c) && Inv(c, w0.s) && r in w0.s.msgs && RefsOk(refs0, w0.s.oldest, [], multiset{})
    ensures Leads(c, w0, [], w, [], ops, {}) && Inv(c, w.s) && RefsOk(refs, w.s.oldest, [], multiset{})
    ensures InTurn(w0.s, r, needy) ==> ops != [] && ops[0] == GrantWindow(r)
    ensures InTurn(w0.s, r, needy) && GrantedTo(c, w0.s, r) > w0.s.msgs[r].granted ==>
              FifoDone(c, w0.s, fifoDue, w, ops, k)
  {
    hide Inv, Leads, RefsOk, FifoDone, GrantedTo;
    w, refs, ops, k := w0, refs0, [], 0;
    if r in w0.s.q.active && IndexOf(w0.s.q.active, r) <= needy {
      w, refs, ops, k := FastPath(c, w0, refs0, r, fifoDue);
    } else {
      LeadsNowhere(c, w0, [], {});
    }
  }

  /** The slow path, if some rank is waiting and the byte budget has room. */
  method TrySlow(c: Config, w0: World, refs0: multiset<nat>, needy: nat)
    returns (w: World, refs: multiset<nat>, ghost ops: seq<Op>)
    requires ValidConfig(c) && Inv(c, w0.s) && RefsOk(refs0, w0.s.oldest, [], multiset{})
    ensures Leads(c, w0, [], w, [], ops, {}) && Inv(c, w.s) && RefsOk(refs, w.s.oldest, [], multiset{})
    ensures needy < INT_MAX && w0.s.total < c.maxIncoming ==>
              forall x :: x in FirstNeedies(w0.s, needy, w0.dead) ==> x in w.dead || GrantWindow(x) in ops
  {
    hide Inv, Leads, RefsOk, FirstNeedies;
    w, refs, ops := w0, refs0, [];
    if needy < INT_MAX && w0.s.total < c.maxIncoming {
      w, refs, ops := ServeNeedy(c, w0, refs0, needy);
    } else {
      LeadsNowhere(c, w0, [], {});
    }
  }

  lemma SlowDoneOn(c: Config, w0: World, w1: World, w: World, ops: seq<Op>, more: seq<Op>, needy: nat,
                   slow: nat, dead: set<nat>)
    requires w1.s == Run(c, w0.s, ops) && SlowDone(c, w1, w, more, needy, slow, dead)
    ensures SlowDone(c, w0, w, ops + more, needy, |ops| + slow, dead)
  {
    hide Run, FirstNeedies;
    var all := ops + more;
    assert all[..|ops| + slow] == ops + more[..slow] && all[|ops| + slow..] == more[slow..];
    RunConcat(c, w0.s, ops, more[..slow]);
  }

  lemma FastProof(c: Config, w0: World, wf: World, w: World, ops: seq<Op>, fast: seq<Op>, r: nat, needy: nat,
                  fifoDue: bool, k: nat)
    requires Leads(c, w0, [], wf, [], ops, {}) && r in wf.s.msgs && Inv(c, wf.s)
    requires Leads(c, w0, [], w, [], ops + fast, {})
    requires InTurn(wf.s, r, needy) ==> fast != [] && fast[0] == GrantWindow(r)
    requires InTurn(wf.s, r, needy) && GrantedTo(c, wf.s, r) > wf.s.msgs[r].granted ==>
               FifoDone(c, wf.s, fifoDue, w, fast, k)
    ensures FastDone(c, w0, w, ops + fast, r, needy, fifoDue, |ops|)
  {
    hide Inv, Run, Leads, SentBy, InTurn, GrantedTo, FifoDone, Due;
    var all := ops + fast;
    LeadsRun(c, w0, [], wf, [], ops, {});
    LeadsRun(c, w0, [], w, [], all, {});
    assert all[..|ops|] == ops && all[|ops|..] == fast;
    assert w.sent[|w0.sent|..] == SentBy(c, w0.s, all);
    if InTurn(wf.s, r, needy) {
      assert all[|ops|] == fast[0];
      if GrantedTo(c, wf.s, r) > wf.s.msgs[r].granted {
        WindowDue(c, wf.s, r);
        SentAt(c, w0.s, all, |ops|);
      }
    }
  }

  lemma FastDoneOn(c: Config, w0: World, w1: World, w: World, ops: seq<Op>, more: seq<Op>, r: nat, needy: nat,
                   fifoDue: bool, fast: nat)
    requires FastDone(c, w0, w1, ops, r, needy, fifoDue, fast) && Leads(c, w1, [], w, [], more, {})
    ensures FastDone(c, w0, w, ops + more, r, needy, fifoDue, fast)
  {
    hide Run, Leads, SentBy, InTurn, GrantedTo, FifoDone;
    LeadsRun(c, w1, [], w, [], more, {});
    var all := ops + more;
    assert all[..fast] == ops[..fast] && all[fast..] == ops[fast..] + more;
    assert w.sent[|w0.sent|..] == w1.sent[|w0.sent|..] + SentBy(c, w1.s, more);
    var s := Run(c, w0.s, ops[..fast]);
    if InTurn(s, r, needy) && GrantedTo(c, s, r) > s.msgs[r].granted {
      var k :| FifoDone(c, s, fifoDue, w1, ops[fast..], k);
      FifoDoneOn(c, s, fifoDue, w1, w, ops[fast..], more, k);
    }
  }

  lemma FifoDoneOn(c: Config, s: Sched, due: bool, wa: World, w: World, ops: seq<Op>, rest: seq<Op>, k: nat)
    requires FifoDone(c, s, due, wa, ops, k) && wa.dead <= w.dead
    ensures FifoDone(c, s, due, w, ops + rest, k)
  {
    hide Run, Choice;
    assert (ops + rest)[..k] == ops[..k] && (ops + rest)[k..] == ops[k..] + rest;
  }

  lemma RecalculateFacts(c: Config, s: Sched)
    requires ValidConfig(c) && Inv(c, s)
    ensures var s' := s.(q := s.q.(active := GrantSched.FixOrder(s.msgs, s.q.active).0));
      Inv(c, s') && s' == Apply(c, s, Recalculate) && ManagedSet(s'.msgs, s'.q) == ManagedSet(s.msgs, s.q)
  {
    hide QInv, Conserving, BudgetOk, MsgsOk, ManagedSet;
    RecalculateOk(c, s);
  }

  // ---- The end and the start of an RPC ----

  /** homa_grant_end_rpc, for an RPC that homa_rpc_end has just marked dead: unmanage, let a promoted RPC be
      granted to, then settle the byte count. */
  method EndRpc(c: Config, w0: World, refs0: multiset<nat>, r: nat)
    returns (w: World, refs: multiset<nat>, ghost ops: seq<Op>)
    requires ValidConfig(c) && Inv(c, w0.s) && r in w0.s.msgs && r in w0.dead
    requires RefsOk(refs0, w0.s.oldest, [], multiset{})
    ensures Leads(c, w0, [], w, [], ops, {}) && r !in w.s.msgs && RefsOk(refs, w.s.oldest, [], multiset{})
  {
    hide Inv, Apply, Run, Unmanage, ManagedSet, Leads, Known, RefsOk, Entries, Fitting;
    w, refs, ops := w0, refs0, [];
    LeadsNowhere(c, w0, [], {});
    if w.s.msgs[r].granted < w.s.msgs[r].length {
      w, refs, ops := StopGrants(c, w0, refs0, r);
    } else {
      CompleteNotManaged(c, w.s, r);
    }
    EndFacts(c, w.s, r);
    LeadsEnd(c, w, [], r, {});
    ghost var w1 := w;
    w := w.(s := w.s.(msgs := w.s.msgs - {r}, total := w.s.total - w.s.msgs[r].recIncoming));
    LeadsOn(c, w0, [], w1, [], w, [], ops, [End(r)], {});
    ops := ops + [End(r)];
  }

  /** The first part of homa_grant_end_rpc: r stops being managed. */
  method StopGrants(c: Config, w0: World, refs0: multiset<nat>, r: nat)
    returns (w: World, refs: multiset<nat>, ghost ops: seq<Op>)
    requires ValidConfig(c) && Inv(c, w0.s) && r in w0.s.msgs && r in w0.dead
    requires RefsOk(refs0, w0.s.oldest, [], multiset{})
    ensures Leads(c, w0, [], w, [], ops, {}) && Inv(c, w.s) && RefsOk(refs, w.s.oldest, [], multiset{})
    ensures r in w.s.msgs && r in w.dead && r !in ManagedSet(w.s.msgs, w.s.q)
  {
    hide Inv, Apply, Run, Unmanage, ManagedSet, Leads, Known, RefsOk, Entries, Fitting;
    UnmanageFacts(c, w0.s, r);
    var cand := new Candidates();
    var s;
    s, refs := UnmanageRpc(c, w0.s, refs0, r, cand, multiset{});
    w, ops := w0.(s := s), [StopGranting(r)];
    ghost var ring := cand.contents;
    StopLeads(c, w0, r);
    PromotedKnown(c, w, w0.s, r);
    ghost var w1, more := w, [];
    w, refs, more := CandCheck(c, w, refs, {r}, cand, multiset{});
    Unlocked(c, w1, ring, w, [], more, r);
    LeadsOn(c, w0, [], w1, ring, w, [], ops, more, {});
    ops := ops + more;
  }

  lemma StopLeads(c: Config, w0: World, r: nat)
    requires Inv(c, w0.s) && r in w0.s.msgs
    ensures var step := Unmanage(c, w0.s, r);
      Leads(c, w0, [], w0.(s := step.0), [] + Fitting(step.1, 0), [StopGranting(r)], {})
  {
    hide Inv, Apply, Unmanage, ManagedSet, Leads;
    UnmanageFacts(c, w0.s, r);
    var step := Unmanage(c, w0.s, r);
    LeadsStep(c, w0, [], step.0, [] + Fitting(step.1, 0), StopGranting(r), {});
    assert w0.sent + [] == w0.sent;
  }

  lemma PromotedKnown(c: Config, w: World, s: Sched, r: nat)
    requires Inv(c, s) && r in s.msgs && w.s == Unmanage(c, s, r).0
    ensures Known(w, [] + Fitting(Unmanage(c, s, r).1, 0))
  {
    hide Inv, Unmanage, ManagedSet;
    UnmanageFacts(c, s, r);
  }

  lemma UnmanageFacts(c: Config, s: Sched, r: nat)
    requires Inv(c, s) && r in s.msgs
    ensures var (s', other) := Unmanage(c, s, r);
      && Inv(c, s') && s' == Apply(c, s, StopGranting(r)) && s'.msgs == s.msgs
      && r !in ManagedSet(s'.msgs, s'.q) && ManagedSet(s'.msgs, s'.q) <= ManagedSet(s.msgs, s.q)
      && (other.Some? ==> other.value in s'.msgs)
  {
    hide QInv, Conserving, BudgetOk, Unmanage, Managed, MsgOk;
    UnmanageOk(c, s, r);
  }

  /** homa_grant_init_rpc: the unscheduled bytes are granted; more grants need buffer space. */
  method InitRpc(c: Config, s0: Sched, r: nat, peer: nat, length: nat, birth: nat, unsched: nat, haveBuffers: bool)
    returns (s: Sched, ghost ops: seq<Op>)
    requires ValidConfig(c) && Inv(c, s0) && r !in s0.msgs
    ensures Inv(c, s) && s == Run(c, s0, ops) && r in s.msgs
    ensures s.msgs[r].granted == (if unsched >= length then length else unsched)
    ensures s.msgs[r].length == length && s.msgs[r].peer == peer && s.msgs[r].birth == birth && s.msgs[r].received == 0
    ensures Managed(s.msgs, s.q, r) <==> unsched < length && haveBuffers
  {
    hide Inv, Apply, Run, Managed, ManagedSet, Admit;
    InitFacts(c, s0, r, NewMsg(peer, length, birth, unsched));
    s := SetMsg(s0, r, NewMsg(peer, length, birth, unsched));
    ops := [Arrive(r, peer, length, birth, unsched)];
    assert s == Apply(c, s0, ops[0]) by { ArriveFacts(c, s0, r, peer, length, birth, unsched); }
    RunOne(c, s0, ops[0]);
    if unsched < length && haveBuffers {
      ManageFacts(c, s, r);
      RunAppend(c, s0, ops, StartGranting(r));
      ops := ops + [StartGranting(r)];
      s := Manage(c, s, r);
    }
  }

  lemma ArriveFacts(c: Config, s: Sched, r: nat, peer: nat, length: nat, birth: nat, unsched: nat)
    requires r !in s.msgs
    ensures Apply(c, s, Arrive(r, peer, length, birth, unsched)) == SetMsg(s, r, NewMsg(peer, length, birth, unsched))
  {
  }

  lemma InitFacts(c: Config, s: Sched, r: nat, m: Msg)
    requires Inv(c, s) && r !in s.msgs && MsgOk(m) && m.recIncoming == 0
    ensures Inv(c, SetMsg(s, r, m)) && !Managed(SetMsg(s, r, m).msgs, s.q, r)
  {
    hide Sorted, Distinct, Load, BudgetOk, Conserving;
    ArriveOk(c, s, r, m);
    assert ListOk(s.msgs, s.q, m.peer);
  }

  lemma ManageFacts(c: Config, s: Sched, r: nat)
    requires Inv(c, s) && r in s.msgs && !Managed(s.msgs, s.q, r) && s.msgs[r].granted < s.msgs[r].length
    ensures var s' := Manage(c, s, r);
      Inv(c, s') && s' == Apply(c, s, StartGranting(r)) && s'.msgs == s.msgs && Managed(s'.msgs, s'.q, r)
  {
    hide QInv, Conserving, BudgetOk, MsgsOk, Managed, Admit;
    ManageOk(c, s, r);
    AdmitOk(c, s.msgs, s.q, r);
  }
}
