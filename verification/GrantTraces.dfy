/**
 What a stretch of grant processing has done: the scheduler steps it consists of, the GRANT
 packets it has sent, and whether every RPC that came up on the way was looked at.
 */
module GrantTraces {
  import opened Basics
  import opened RankedLists
  import opened GrantQueues
  import opened GrantQueueProofs
  import opened GrantSched
  import opened GrantRuns
  import opened GrantAmounts

  datatype GrantPkt = GrantPkt(rpc: nat, offset: nat)

  /** The scheduler, the RPCs whose state is RPC_DEAD, and the GRANT packets sent so far. */
  datatype World = World(s: Sched, dead: set<nat>, sent: seq<GrantPkt>)

  // ---- GRANT packets ----

  /** The GRANT packet that goes with a step, if any. */
  ghost function Due(c: Config, s: Sched, op: Op): seq<GrantPkt> {
    match op
    case GrantWindow(r) =>
      if UpdateGranted(c, s, r).1 then [GrantPkt(r, Key(WindowGrant(c, s, r).0.msgs, r).granted)] else []
    case GrantFifo(r) =>
      if r in s.msgs && (Managed(s.msgs, s.q, r) || s.msgs[r].granted == s.msgs[r].length)
      then [GrantPkt(r, Key(FifoGrant(c, s, r).0.msgs, r).granted)] else []
    case _ => []
  }

  ghost function SentBy(c: Config, s: Sched, ops: seq<Op>): seq<GrantPkt>
    decreases |ops|
  {
    if ops == [] then [] else Due(c, s, ops[0]) + SentBy(c, Apply(c, s, ops[0]), ops[1..])
  }

  lemma {:induction false} SentJoin(c: Config, s: Sched, ops: seq<Op>, more: seq<Op>)
    ensures SentBy(c, s, ops + more) == SentBy(c, s, ops) + SentBy(c, Run(c, s, ops), more)
    decreases |ops|
  {
    hide Apply, Due;
    if ops == [] {
      assert ops + more == more;
      assert [] + SentBy(c, s, more) == SentBy(c, s, more);
    } else {
      assert (ops + more)[1..] == ops[1..] + more && (ops + more)[0] == ops[0];
      var s1 := Apply(c, s, ops[0]);
      SentJoin(c, s1, ops[1..], more);
      var a, b, d := Due(c, s, ops[0]), SentBy(c, s1, ops[1..]), SentBy(c, Run(c, s1, ops[1..]), more);
      assert a + (b + d) == (a + b) + d;
    }
  }

  lemma SentOne(c: Config, s: Sched, op: Op)
    ensures SentBy(c, s, [op]) == Due(c, s, op)
  {
    hide Apply, Due;
    assert [op][1..] == [];
    assert Due(c, s, op) + [] == Due(c, s, op);
    assert SentBy(c, Apply(c, s, op), []) == [];
  }

  /** Each step's packet is among those sent. */
  lemma SentAt(c: Config, s: Sched, ops: seq<Op>, k: nat)
    requires k < |ops|
    ensures forall p :: p in Due(c, Run(c, s, ops[..k]), ops[k]) ==> p in SentBy(c, s, ops)
  {
    hide Apply, Due, Run, SentBy;
    assert ops == ops[..k] + ([ops[k]] + ops[k + 1..]);
    SentJoin(c, s, ops[..k], [ops[k]] + ops[k + 1..]);
    SentJoin(c, Run(c, s, ops[..k]), [ops[k]], ops[k + 1..]);
    SentOne(c, Run(c, s, ops[..k]), ops[k]);
  }

  /** Steps that grant processing takes for RPCs that are there. */
  predicate OfGranting(op: Op) {
    || op.Account? || op.GrantWindow? || op.GrantFifo? || op.Recalculate? || op.ChooseOldest?
    || op.ClearStalled? || op.StopGranting? || op.End?
  }

  /** A step changes no grant but the one it announces. */
  lemma StepAnnounces(c: Config, s: Sched, op: Op, x: nat)
    requires ValidConfig(c) && Inv(c, s) && OfGranting(op) && x in Apply(c, s, op).msgs
    ensures x in s.msgs
    ensures var g := Apply(c, s, op).msgs[x].granted;
      g == s.msgs[x].granted || Due(c, s, op) == [GrantPkt(x, g)]
  {
    hide Inv, FixOrder, FindOldest, UpdateGranted, Unmanage, FifoGrant, WindowGrant, Managed;
    match op
    case GrantWindow(r) => WindowAnnounces(c, s, r, x);
    case GrantFifo(r) =>
      if r in s.msgs && (Managed(s.msgs, s.q, r) || s.msgs[r].granted == s.msgs[r].length) {
        FifoOthers(c, s, r);
      }
    case ChooseOldest => ChoosesOnly(c, s);
    case StopGranting(r) => StopsOnly(c, s, r);
    case End(r) => StopsOnly(c, s, r);
    case _ =>
  }

  lemma WindowAnnounces(c: Config, s: Sched, r: nat, x: nat)
    requires Inv(c, s) && x in WindowGrant(c, s, r).0.msgs
    ensures x in s.msgs
    ensures var g := WindowGrant(c, s, r).0.msgs[x].granted;
      g == s.msgs[x].granted || (x == r && UpdateGranted(c, s, r).1)
  {
    hide Inv, Unmanage, MsgOk, Managed, Expel;
    if r in s.msgs {
      EachMsgOk(c, s, r);
      WindowGrantExact(c, s, r);
      UpdateGrantedIff(c, s, r);
    }
  }

  lemma FifoOthers(c: Config, s: Sched, r: nat)
    requires r in s.msgs
    ensures var s' := FifoGrant(c, s, r).0; r in s'.msgs && s'.msgs == s.msgs[r := s'.msgs[r]]
  {
    hide Expel, Managed, Promote;
  }

  lemma ChoosesOnly(c: Config, s: Sched)
    ensures FindOldest(c, s).msgs == s.msgs
  {
  }

  lemma StopsOnly(c: Config, s: Sched, r: nat)
    ensures Unmanage(c, s, r).0.msgs == s.msgs
  {
    hide Expel, Managed;
  }

  /** The sender is told: whenever an RPC that is still there has another grant than before, a GRANT packet with just
      that offset has been sent. */
  lemma {:induction false} Announced(c: Config, s: Sched, ops: seq<Op>, x: nat)
    requires ValidConfig(c) && Inv(c, s) && (forall i :: 0 <= i < |ops| ==> OfGranting(ops[i]))
    requires x in Run(c, s, ops).msgs
    ensures x in s.msgs
    ensures var g := Run(c, s, ops).msgs[x].granted;
      g == s.msgs[x].granted || GrantPkt(x, g) in SentBy(c, s, ops)
    decreases |ops|
  {
    hide Inv, Apply, Due, OfGranting;
    if ops != [] {
      ApplyOk(c, s, ops[0]);
      var s1 := Apply(c, s, ops[0]);
      Announced(c, s1, ops[1..], x);
      StepAnnounces(c, s, ops[0], x);
    }
  }

  // ---- Nobody is forgotten ----

  /** The RPC that a step of this thread pulls into active_rpcs. What another thread pulls in when it ends an
      RPC is that thread's to deal with. */
  ghost function Promoted(c: Config, s: Sched, op: Op): Option<nat> {
    match op
    case GrantWindow(r) => WindowGrant(c, s, r).1
    case GrantFifo(r) =>
      if r in s.msgs && (Managed(s.msgs, s.q, r) || s.msgs[r].granted == s.msgs[r].length)
      then FifoGrant(c, s, r).1 else None
    case StopGranting(r) => if r in s.msgs then Unmanage(c, s, r).1 else None
    case _ => None
  }

  /** x gets a chance to have its grant raised, is still to get it, or is dead. */
  ghost predicate Handled(x: nat, ops: seq<Op>, dead: set<nat>, ring: seq<nat>) {
    x in dead || x in ring || GrantWindow(x) in ops
  }

  ghost predicate Follows(c: Config, s: Sched, ops: seq<Op>, k: nat, dead: set<nat>, ring: seq<nat>)
    requires k < |ops|
  {
    var p := Promoted(c, Run(c, s, ops[..k]), ops[k]);
    p.Some? ==> Handled(p.value, ops[k + 1..], dead, ring)
  }

  /** Every RPC that a step pulls into active_rpcs is handled after it. */
  ghost predicate Served(c: Config, s: Sched, ops: seq<Op>, dead: set<nat>, ring: seq<nat>) {
    forall k :: 0 <= k < |ops| ==> Follows(c, s, ops, k, dead, ring)
  }

  lemma HandledOn(x: nat, ops: seq<Op>, more: seq<Op>, dead: set<nat>, dead': set<nat>, ring: seq<nat>, ring': seq<nat>)
    requires Handled(x, ops, dead, ring) && dead <= dead' && (x in ring ==> Handled(x, more, dead', ring'))
    ensures Handled(x, ops + more, dead', ring')
  {
  }

  lemma ServedJoin(c: Config, s: Sched, ops: seq<Op>, more: seq<Op>, dead: set<nat>, dead': set<nat>,
                   ring: seq<nat>, ring': seq<nat>)
    requires Served(c, s, ops, dead, ring) && Served(c, Run(c, s, ops), more, dead', ring')
    requires dead <= dead' && forall x :: x in ring ==> Handled(x, more, dead', ring')
    ensures Served(c, s, ops + more, dead', ring')
  {
    hide Promoted, Run, Handled;
    var all := ops + more;
    forall k | 0 <= k < |all| ensures Follows(c, s, all, k, dead', ring') {
      if k < |ops| {
        assert all[..k] == ops[..k] && all[k + 1..] == ops[k + 1..] + more;
        assert Follows(c, s, ops, k, dead, ring);
        var p := Promoted(c, Run(c, s, ops[..k]), ops[k]);
        if p.Some? {
          HandledOn(p.value, ops[k + 1..], more, dead, dead', ring, ring');
        }
      } else {
        var j := k - |ops|;
        assert all[..k] == ops + more[..j] && all[k + 1..] == more[j + 1..];
        RunConcat(c, s, ops, more[..j]);
        assert Follows(c, Run(c, s, ops), more, j, dead', ring');
      }
    }
  }

  // ---- From one state to a later one ----

  /** With candidates `ring` pending, w is reached from w0 by a run of the scheduler. Its GRANT packets have
      been sent, no RPC starts to be managed, the RPCs that have gone are dead and were not locked, and all
      candidates, those of the beginning and those that came up, have been handled but for the ones now pending.
      */
  ghost predicate Leads(c: Config, w0: World, ring0: seq<nat>, w: World, ring: seq<nat>, ops: seq<Op>,
                        locked: set<nat>)
  {
    && Inv(c, w.s) && w.s == Run(c, w0.s, ops) && ManagedSet(w.s.msgs, w.s.q) <= ManagedSet(w0.s.msgs, w0.s.q)
    && w.s.msgs.Keys <= w0.s.msgs.Keys && w0.dead <= w.dead
    && (forall r :: r in w0.s.msgs && r !in w.s.msgs ==> r in w.dead && r !in locked)
    && (forall i :: 0 <= i < |ops| ==> OfGranting(ops[i]))
    && w.sent == w0.sent + SentBy(c, w0.s, ops)
    && Served(c, w0.s, ops, w.dead, ring)
    && (forall x :: x in ring0 ==> Handled(x, ops, w.dead, ring))
  }

  lemma LeadsNowhere(c: Config, w: World, ring: seq<nat>, locked: set<nat>)
    requires Inv(c, w.s)
    ensures Leads(c, w, ring, w, ring, [], locked)
  {
    hide Inv, Apply, ManagedSet;
    assert w.sent + [] == w.sent;
  }

  lemma LeadsOn(c: Config, w0: World, ring0: seq<nat>, w1: World, ring1: seq<nat>, w2: World, ring2: seq<nat>,
                ops: seq<Op>, more: seq<Op>, locked: set<nat>)
    requires Leads(c, w0, ring0, w1, ring1, ops, locked) && Leads(c, w1, ring1, w2, ring2, more, locked)
    ensures Leads(c, w0, ring0, w2, ring2, ops + more, locked) && Inv(c, w2.s)
  {
    hide Inv, Run, ManagedSet, SentBy, Served, Handled;
    RunConcat(c, w0.s, ops, more);
    SentJoin(c, w0.s, ops, more);
    var a, b := SentBy(c, w0.s, ops), SentBy(c, w1.s, more);
    assert w0.sent + (a + b) == w0.sent + a + b;
    ServedJoin(c, w0.s, ops, more, w1.dead, w2.dead, ring1, ring2);
    forall x | x in ring0 ensures Handled(x, ops + more, w2.dead, ring2) {
      HandledOn(x, ops, more, w1.dead, w2.dead, ring1, ring2);
    }
  }

  /** One step. */
  lemma LeadsStep(c: Config, w0: World, ring0: seq<nat>, s: Sched, ring: seq<nat>, op: Op, locked: set<nat>)
    requires Inv(c, s) && s == Apply(c, w0.s, op) && s.msgs.Keys == w0.s.msgs.Keys && OfGranting(op)
    requires ManagedSet(s.msgs, s.q) <= ManagedSet(w0.s.msgs, w0.s.q)
    requires forall x :: x in ring0 ==> Handled(x, [op], w0.dead, ring)
    requires var p := Promoted(c, w0.s, op); p.Some? ==> p.value in ring
    ensures Leads(c, w0, ring0, World(s, w0.dead, w0.sent + Due(c, w0.s, op)), ring, [op], locked)
  {
    hide Inv, Apply, Run, ManagedSet, SentBy, Due, Promoted, OfGranting;
    RunOne(c, w0.s, op);
    SentOne(c, w0.s, op);
    assert Follows(c, w0.s, [op], 0, w0.dead, ring) by {
      assert [op][..0] == [];
      RunNone(c, w0.s);
    }
  }

  /** An RPC that is dead ends. */
  lemma LeadsEnd(c: Config, w0: World, ring: seq<nat>, r: nat, locked: set<nat>)
    requires Inv(c, w0.s) && r in w0.s.msgs && r in w0.dead && r !in locked
    ensures var s := Apply(c, w0.s, End(r));
      && Leads(c, w0, ring, w0.(s := s), ring, [End(r)], locked) && s.msgs.Keys == w0.s.msgs.Keys - {r}
      && s.oldest == (if w0.s.oldest == Some(r) then None else w0.s.oldest)
  {
    hide Inv, Apply, Run, ManagedSet, SentBy, OfGranting;
    EndShrinks(c, w0.s, r);
    RunOne(c, w0.s, End(r));
    SentOne(c, w0.s, End(r));
    assert w0.sent + [] == w0.sent;
    assert OfGranting(End(r)) by { EndOfGranting(r); }
    assert Follows(c, w0.s, [End(r)], 0, w0.dead, ring);
  }

  lemma EndOfGranting(r: nat)
    ensures OfGranting(End(r))
  {
  }

  /** An RPC is marked dead. */
  lemma LeadsMark(c: Config, w0: World, ring: seq<nat>, r: nat, locked: set<nat>)
    requires Inv(c, w0.s)
    ensures Leads(c, w0, ring, w0.(dead := w0.dead + {r}), ring, [], locked)
  {
    hide Inv, Apply, ManagedSet;
    assert w0.sent + [] == w0.sent;
  }

  lemma Unlocked(c: Config, w0: World, ring0: seq<nat>, w: World, ring: seq<nat>, ops: seq<Op>, r: nat)
    requires Leads(c, w0, ring0, w, ring, ops, {r})
    ensures Leads(c, w0, ring0, w, ring, ops, {}) && (r in w0.s.msgs ==> r in w.s.msgs) && w0.dead <= w.dead
    ensures Inv(c, w.s)
    ensures r !in ManagedSet(w0.s.msgs, w0.s.q) ==> r !in ManagedSet(w.s.msgs, w.s.q)
  {
    hide Inv, Run, ManagedSet, SentBy, Served, Handled, OfGranting;
  }

  lemma LeadsRun(c: Config, w0: World, ring0: seq<nat>, w: World, ring: seq<nat>, ops: seq<Op>, locked: set<nat>)
    requires Leads(c, w0, ring0, w, ring, ops, locked)
    ensures w.s == Run(c, w0.s, ops) && Inv(c, w.s) && w0.dead <= w.dead && w.s.msgs.Keys <= w0.s.msgs.Keys
    ensures w.sent == w0.sent + SentBy(c, w0.s, ops)
    ensures forall x :: x in ring0 ==> Handled(x, ops, w.dead, ring)
  {
    hide Inv, Run, ManagedSet, SentBy, Served, Handled, OfGranting;
  }

  /** In every such stretch the sender is told of every change. */
  lemma LeadsAnnounced(c: Config, w0: World, ring0: seq<nat>, w: World, ring: seq<nat>, ops: seq<Op>,
                       locked: set<nat>, x: nat)
    requires ValidConfig(c) && Inv(c, w0.s) && Leads(c, w0, ring0, w, ring, ops, locked) && x in w.s.msgs
    ensures |w0.sent| <= |w.sent| && x in w0.s.msgs
    ensures w.s.msgs[x].granted == w0.s.msgs[x].granted ||
            GrantPkt(x, w.s.msgs[x].granted) in w.sent[|w0.sent|..]
  {
    hide Inv, Run, ManagedSet, SentBy, Served, Handled, OfGranting;
    Announced(c, w0.s, ops, x);
    assert w.sent[|w0.sent|..] == SentBy(c, w0.s, ops);
  }

  lemma RunOne(c: Config, s: Sched, op: Op)
    ensures Run(c, s, [op]) == Apply(c, s, op)
  {
    hide Apply;
    assert [op][1..] == [];
    assert Run(c, Apply(c, s, op), []) == Apply(c, s, op);
  }

  lemma RunNone(c: Config, s: Sched)
    ensures Run(c, s, []) == s
  {
  }

  // ---- The end of an RPC ----

  /** What homa_grant_end_rpc does to the scheduler. */
  lemma EndShrinks(c: Config, s: Sched, r: nat)
    requires Inv(c, s) && r in s.msgs
    ensures var s' := Apply(c, s, End(r));
      && Inv(c, s') && ManagedSet(s'.msgs, s'.q) <= ManagedSet(s.msgs, s.q) && s'.msgs.Keys == s.msgs.Keys - {r}
      && s'.oldest == (if s.oldest == Some(r) then None else s.oldest)
  {
    hide QInv, Conserving, BudgetOk, Unmanage, Managed, MsgOk, ManagedSet, InvBut;
    EndStepOk(c, s, r);
    if s.msgs[r].granted < s.msgs[r].length {
      assert InvBut(c, s, r) by { ButFromInv(c, s, r); }
      UnmanageOk(c, s, r);
      var s1 := Unmanage(c, s, r).0;
      UnmanageOldest(c, s, r);
      EndSame(c, s1, r);
    } else {
      OldestNotComplete(c, s, r);
      assert !Managed(s.msgs, s.q, r) by { CompleteNotManaged(c, s, r); NotInSet(s, r); }
      EndSame(c, s, r);
    }
  }

  lemma ButFromInv(c: Config, s: Sched, r: nat)
    requires Inv(c, s)
    ensures InvBut(c, s, r)
  {
    hide QInv, Conserving, BudgetOk, Managed, MsgOk;
  }

  lemma NotInSet(s: Sched, r: nat)
    requires r in s.msgs && r !in ManagedSet(s.msgs, s.q)
    ensures !Managed(s.msgs, s.q, r)
  {
  }

  lemma EndSame(c: Config, s: Sched, r: nat)
    requires Inv(c, s) && r in s.msgs && !Managed(s.msgs, s.q, r)
    ensures ManagedSet(s.msgs - {r}, s.q) == ManagedSet(s.msgs, s.q)
  {
    hide QInv, Conserving, BudgetOk, Managed, MsgOk, ManagedSet;
    QueueFrame(c, s.msgs, s.msgs - {r}, s.q);
  }

  lemma OldestNotComplete(c: Config, s: Sched, r: nat)
    requires Inv(c, s) && r in s.msgs && s.msgs[r].granted >= s.msgs[r].length
    ensures s.oldest != Some(r)
  {
    hide QInv, Conserving, BudgetOk, Managed, MsgOk;
  }

  lemma UnmanageOldest(c: Config, s: Sched, r: nat)
    ensures Unmanage(c, s, r).0.oldest == if s.oldest == Some(r) then None else s.oldest
  {
    hide Expel, Managed;
  }
}
