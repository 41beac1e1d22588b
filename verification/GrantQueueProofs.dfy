/** Every procedure on the grant queues keeps the queue invariant and work conservation. */
module GrantQueueProofs {
  import opened Basics
  import opened RankedLists
  import opened GrantQueues

  // ---- Counting active RPCs per peer ----

  lemma {:induction false} LoadAppend(msgs: map<nat, Msg>, l1: seq<nat>, l2: seq<nat>, p: nat)
    ensures Load(msgs, l1 + l2, p) == Load(msgs, l1, p) + Load(msgs, l2, p)
  {
    if l1 == [] {
      assert l1 + l2 == l2;
    } else {
      assert (l1 + l2)[1..] == l1[1..] + l2;
      LoadAppend(msgs, l1[1..], l2, p);
    }
  }

  lemma LoadInsert(msgs: map<nat, Msg>, l: seq<nat>, k: nat, r: nat, p: nat)
    requires k <= |l|
    ensures Load(msgs, InsertAt(l, k, r), p) == Load(msgs, l, p) + (if PeerOf(msgs, r) == p then 1 else 0)
  {
    LoadAppend(msgs, l[..k], l[k..], p);
    assert l[..k] + l[k..] == l;
    LoadAppend(msgs, l[..k] + [r], l[k..], p);
    LoadAppend(msgs, l[..k], [r], p);
  }

  lemma LoadWithout(msgs: map<nat, Msg>, l: seq<nat>, k: nat, p: nat)
    requires k < |l|
    ensures Load(msgs, Without(l, k), p) == Load(msgs, l, p) - (if PeerOf(msgs, l[k]) == p then 1 else 0)
  {
    LoadInsert(msgs, Without(l, k), k, l[k], p);
    assert InsertAt(Without(l, k), k, l[k]) == l;
  }

  lemma {:induction false} LoadSamePeers(msgs: map<nat, Msg>, msgs': map<nat, Msg>, l: seq<nat>, p: nat)
    requires forall r :: r in l ==> PeerOf(msgs, r) == PeerOf(msgs', r)
    ensures Load(msgs, l, p) == Load(msgs', l, p)
  {
    if l != [] {
      LoadSamePeers(msgs, msgs', l[1..], p);
    }
  }

  // ---- grantable_peers ----

  /** Heads of all lists but p's are the same messages. */
  ghost predicate SameOtherHeads(msgs: map<nat, Msg>, msgs': map<nat, Msg>, q: Queues, p: nat) {
    forall o :: o != p && Wait(q, o) != [] ==> SamePriority(Key(msgs, Wait(q, o)[0]), Key(msgs', Wait(q, o)[0]))
  }

  lemma AdjustPeerFrame(msgs: map<nat, Msg>, q: Queues, p: nat)
    ensures AdjustPeer(msgs, q, p).waiting == q.waiting && AdjustPeer(msgs, q, p).active == q.active
  {
  }

  lemma OtherPeersSorted(msgs: map<nat, Msg>, msgs': map<nat, Msg>, q: Queues, q1: Queues, p: nat, ps: seq<nat>)
    requires PeersOk(msgs, q) && SameOtherHeads(msgs, msgs', q, p)
    requires forall o :: o != p ==> Wait(q1, o) == Wait(q, o)
    requires Sorted(Heads(msgs, q), ps)
    requires forall o :: o in ps ==> o != p && o in q.peers
    ensures Sorted(Heads(msgs', q1), ps)
  {
    hide Sorted, Distinct;
    forall o | o in ps ensures SamePriority(Key(Heads(msgs, q), o), Key(Heads(msgs', q1), o)) {
      assert Wait(q1, o) == Wait(q, o) && Wait(q, o) != [];
    }
    SortedSameKeys(Heads(msgs, q), Heads(msgs', q1), ps);
  }

  lemma AdjustPresentPeer(msgs: map<nat, Msg>, msgs': map<nat, Msg>, q: Queues, p: nat, l: seq<nat>)
    requires PeersOk(msgs, q) && SameOtherHeads(msgs, msgs', q, p) && p in q.peers
    ensures PeersOk(msgs', AdjustPeer(msgs', SetList(q, p, l), p))
  {
    hide Sorted, Distinct, Resettle;
    var q1 := SetList(q, p, l);
    var i := IndexOf(q.peers, p);
    WithoutMembers(q.peers, i);
    WithoutSorted(Heads(msgs, q), q.peers, i);
    OtherPeersSorted(msgs, msgs', q, q1, p, Without(q.peers, i));
    AdjustPeerFrame(msgs', q1, p);
    var q2 := AdjustPeer(msgs', q1, p);
    assert Heads(msgs', q2) == Heads(msgs', q1);
    if l != [] {
      var _ := ResettleSorted(Heads(msgs', q1), q.peers, i);
      ResettleMembers(Heads(msgs', q1), q.peers, i);
    }
    forall o ensures o in q2.peers <==> Wait(q2, o) != [] {
      assert o in q.peers <==> Wait(q, o) != [];
    }
  }

  lemma AdjustAbsentPeer(msgs: map<nat, Msg>, msgs': map<nat, Msg>, q: Queues, p: nat, l: seq<nat>)
    requires PeersOk(msgs, q) && SameOtherHeads(msgs, msgs', q, p) && p !in q.peers
    ensures PeersOk(msgs', AdjustPeer(msgs', SetList(q, p, l), p))
  {
    hide Sorted, Distinct;
    var q1 := SetList(q, p, l);
    OtherPeersSorted(msgs, msgs', q, q1, p, q.peers);
    var q2 := AdjustPeer(msgs', q1, p);
    AdjustPeerFrame(msgs', q1, p);
    assert Heads(msgs', q2) == Heads(msgs', q1);
    if l != [] {
      PlaceSorted(Heads(msgs', q1), q.peers, p);
      InsertMembers(q.peers, Place(Heads(msgs', q1), q.peers, p), p);
    }
  }

  /** Whatever happens to one peer's list, homa_grant_adjust_peer restores grantable_peers. */
  lemma AdjustPeerOk(msgs: map<nat, Msg>, msgs': map<nat, Msg>, q: Queues, p: nat, l: seq<nat>)
    requires PeersOk(msgs, q) && SameOtherHeads(msgs, msgs', q, p)
    ensures PeersOk(msgs', AdjustPeer(msgs', SetList(q, p, l), p))
  {
    if p in q.peers {
      AdjustPresentPeer(msgs, msgs', q, p, l);
    } else {
      AdjustAbsentPeer(msgs, msgs', q, p, l);
    }
  }

  /** A change behind the head of p's list leaves grantable_peers in order. */
  lemma SameHeadOk(msgs: map<nat, Msg>, msgs': map<nat, Msg>, q: Queues, p: nat, l: seq<nat>)
    requires PeersOk(msgs, q) && SameOtherHeads(msgs, msgs', q, p)
    requires Wait(q, p) != [] && l != [] && SamePriority(Key(msgs, Wait(q, p)[0]), Key(msgs', l[0]))
    ensures PeersOk(msgs', SetList(q, p, l))
  {
    hide Sorted, Distinct;
    var q1 := SetList(q, p, l);
    forall o | o in q.peers ensures SamePriority(Key(Heads(msgs, q), o), Key(Heads(msgs', q1), o)) {
      assert Wait(q, o) != [];
    }
    SortedSameKeys(Heads(msgs, q), Heads(msgs', q1), q.peers);
  }

  // ---- Waiting lists ----

  /** Replacing one list by a good one keeps all lists good. */
  lemma SetListOk(msgs: map<nat, Msg>, q: Queues, q': Queues, p: nat, l: seq<nat>)
    requires forall o :: o != p ==> ListOk(msgs, q, o) && Sorted(msgs, Wait(q, o))
    requires q'.waiting == q.waiting[p := l]
    requires forall o, r :: o != p && r in Wait(q, o) ==> r !in q'.active
    requires Distinct(l) && Sorted(msgs, l)
    requires forall r :: r in l ==> r in msgs && PeerOf(msgs, r) == p && r !in q'.active
    ensures WaitingOk(msgs, q')
  {
    forall o ensures ListOk(msgs, q', o) && Sorted(msgs, Wait(q', o)) {
      if o != p {
        assert Wait(q', o) == Wait(q, o);
        assert ListOk(msgs, q, o);
      } else {
        assert Wait(q', o) == l;
      }
    }
  }

  lemma InsertGrantableOk(msgs: map<nat, Msg>, q: Queues, r: nat)
    requires WaitingOk(msgs, q) && PeersOk(msgs, q)
    requires r in msgs && !Managed(msgs, q, r)
    ensures var q' := InsertGrantable(msgs, q, r);
      && WaitingOk(msgs, q') && PeersOk(msgs, q') && q'.active == q.active
      && (forall x :: x in msgs ==> (Managed(msgs, q', x) <==> Managed(msgs, q, x) || x == r))
      && (forall o :: o in q'.peers <==> o in q.peers || o == PeerOf(msgs, r))
  {
    hide Sorted, Distinct, AdjustPeer;
    var p := PeerOf(msgs, r);
    var l := Wait(q, p);
    var k := Place(msgs, l, r);
    var l' := InsertAt(l, k, r);
    assert ListOk(msgs, q, p);
    PlaceSorted(msgs, l, r);
    InsertMembers(l, k, r);
    AdjustPeerOk(msgs, msgs, q, p, l');
    AdjustPeerFrame(msgs, SetList(q, p, l'), p);
    var q' := InsertGrantable(msgs, q, r);
    assert forall o, x :: o != p && x in Wait(q, o) ==> x !in q.active by {
      forall o, x | o != p && x in Wait(q, o) ensures x !in q.active { assert ListOk(msgs, q, o); }
    }
    SetListOk(msgs, q, q', p, l');
    forall o ensures Wait(q', o) == if o == p then l' else Wait(q, o) {}
  }

  /** Messages agree except that r's priority may have changed, as after a FIFO grant. */
  ghost predicate SameButFor(msgs: map<nat, Msg>, msgs': map<nat, Msg>, r: nat) {
    && r in msgs' && msgs.Keys == msgs'.Keys
    && PeerOf(msgs, r) == PeerOf(msgs', r)
    && forall x :: x in msgs' && x != r ==> msgs'[x] == msgs[x]
  }

  lemma SameHeads(msgs: map<nat, Msg>, msgs': map<nat, Msg>, q: Queues, r: nat)
    requires SameButFor(msgs, msgs', r)
    requires forall o :: ListOk(msgs, q, o)
    ensures SameOtherHeads(msgs, msgs', q, PeerOf(msgs', r))
  {
    forall o | o != PeerOf(msgs', r) && Wait(q, o) != []
      ensures SamePriority(Key(msgs, Wait(q, o)[0]), Key(msgs', Wait(q, o)[0]))
    {
      assert ListOk(msgs, q, o) && Wait(q, o)[0] in Wait(q, o);
    }
  }

  lemma RemoveGrantablePeers(msgs: map<nat, Msg>, msgs': map<nat, Msg>, q: Queues, r: nat)
    requires PeersOk(msgs, q) && SameButFor(msgs, msgs', r) && WaitingOk(msgs, q)
    requires r in Wait(q, PeerOf(msgs', r))
    ensures PeersOk(msgs', RemoveGrantable(msgs', q, r))
  {
    hide Sorted, PeersOk, AdjustPeer;
    var p := PeerOf(msgs', r);
    var l := Wait(q, p);
    var k := IndexOf(l, r);
    SameHeads(msgs, msgs', q, r);
    if k == 0 {
      AdjustPeerOk(msgs, msgs', q, p, Without(l, k));
    } else {
      assert ListOk(msgs, q, p) && l[0] in l;
      SameHeadOk(msgs, msgs', q, p, Without(l, k));
    }
  }

  lemma RemoveGrantableLists(msgs: map<nat, Msg>, q: Queues, r: nat)
    requires r in Wait(q, PeerOf(msgs, r))
    ensures var q' := RemoveGrantable(msgs, q, r);
      && q'.active == q.active
      && (forall o :: Wait(q', o) == if o == PeerOf(msgs, r) then Without(Wait(q, o), IndexOf(Wait(q, o), r))
                                     else Wait(q, o))
  {
    var p := PeerOf(msgs, r);
    AdjustPeerFrame(msgs, SetList(q, p, Without(Wait(q, p), IndexOf(Wait(q, p), r))), p);
  }

  lemma RemoveGrantableWaiting(msgs: map<nat, Msg>, msgs': map<nat, Msg>, q: Queues, r: nat)
    requires SameButFor(msgs, msgs', r) && WaitingOk(msgs, q)
    requires r in Wait(q, PeerOf(msgs', r))
    ensures WaitingOk(msgs', RemoveGrantable(msgs', q, r))
    ensures var q' := RemoveGrantable(msgs', q, r);
      forall x :: x in msgs' ==> (Managed(msgs', q', x) <==> Managed(msgs, q, x) && x != r)
  {
    hide Sorted, Distinct, RemoveGrantable;
    var p := PeerOf(msgs', r);
    var l := Wait(q, p);
    assert ListOk(msgs, q, p);
    WithoutMembers(l, IndexOf(l, r));
    WithoutSorted(msgs, l, IndexOf(l, r));
    RemoveGrantableLists(msgs', q, r);
    var q' := RemoveGrantable(msgs', q, r);
    forall o ensures ListOk(msgs', q', o) && Sorted(msgs', Wait(q', o)) {
      assert ListOk(msgs, q, o);
      SortedSameKeys(msgs, msgs', Wait(q', o));
    }
  }

  /** Removal needs order only among the others, so it also repairs a list r has outgrown. */
  lemma RemoveGrantableOk(msgs: map<nat, Msg>, msgs': map<nat, Msg>, q: Queues, r: nat)
    requires PeersOk(msgs, q) && SameButFor(msgs, msgs', r) && WaitingOk(msgs, q)
    requires r in Wait(q, PeerOf(msgs', r))
    ensures var q' := RemoveGrantable(msgs', q, r);
      && WaitingOk(msgs', q') && PeersOk(msgs', q') && q'.active == q.active
      && (forall x :: x in msgs' ==> (Managed(msgs', q', x) <==> Managed(msgs, q, x) && x != r))
      && (forall o :: o in q'.peers ==> o in q.peers)
      && (forall o :: o in q.peers && o != PeerOf(msgs', r) ==> o in q'.peers)
  {
    hide Sorted, Distinct, RemoveGrantable, WaitingOk;
    RemoveGrantablePeers(msgs, msgs', q, r);
    RemoveGrantableWaiting(msgs, msgs', q, r);
    RemoveGrantableLists(msgs', q, r);
    var q' := RemoveGrantable(msgs', q, r);
    forall o ensures (o in q'.peers ==> o in q.peers) && (o in q.peers && o != PeerOf(msgs', r) ==> o in q'.peers) {
      assert (o in q.peers <==> Wait(q, o) != []) && (o in q'.peers <==> Wait(q', o) != []);
    }
  }

  // ---- active_rpcs ----

  /** Putting r in and taking out the element at k, if any, changes contents and loads accordingly. */
  ghost predicate Exchanged(msgs: map<nat, Msg>, l: seq<nat>, l': seq<nat>, r: nat, out: Option<nat>) {
    && Distinct(l') && |l'| == |l| + (if out.Some? then 0 else 1)
    && (out.Some? ==> out.value !in l' && (out.value == r || out.value in l))
    && (forall x :: x in l' <==> (x in l || x == r) && out != Some(x))
    && (forall p :: Load(msgs, l', p) == Load(msgs, l, p) + (if PeerOf(msgs, r) == p then 1 else 0)
          - (if out.Some? && PeerOf(msgs, out.value) == p then 1 else 0))
  }

  lemma ExchangeAt(msgs: map<nat, Msg>, l: seq<nat>, k: nat, a: nat, r: nat)
    requires Distinct(l) && r !in l && a <= k < |l|
    ensures Exchanged(msgs, l, InsertAt(Without(l, k), a, r), r, Some(l[k]))
  {
    WithoutMembers(l, k);
    InsertMembers(Without(l, k), a, r);
    forall p
      ensures Load(msgs, InsertAt(Without(l, k), a, r), p) == Load(msgs, l, p)
        + (if PeerOf(msgs, r) == p then 1 else 0) - (if PeerOf(msgs, l[k]) == p then 1 else 0)
    {
      LoadWithout(msgs, l, k, p);
      LoadInsert(msgs, Without(l, k), a, r, p);
    }
  }

  lemma ExchangeNothing(msgs: map<nat, Msg>, l: seq<nat>, r: nat)
    requires Distinct(l) && r !in l
    ensures Exchanged(msgs, l, l, r, Some(r))
  {
  }

  lemma Enlarge(msgs: map<nat, Msg>, l: seq<nat>, a: nat, r: nat)
    requires Distinct(l) && r !in l && a <= |l|
    ensures Exchanged(msgs, l, InsertAt(l, a, r), r, None)
  {
    InsertMembers(l, a, r);
    forall p
      ensures Load(msgs, InsertAt(l, a, r), p) == Load(msgs, l, p) + (if PeerOf(msgs, r) == p then 1 else 0)
    {
      LoadInsert(msgs, l, a, r, p);
    }
  }

  lemma InsertActiveOk(c: Config, msgs: map<nat, Msg>, l: seq<nat>, r: nat)
    requires Distinct(l) && r !in l && |l| <= c.maxOvercommit
    ensures var (l', out) := InsertActive(c, msgs, l, r);
      && Exchanged(msgs, l, l', r, out)
      && (out.None? ==> |l| < c.maxOvercommit && Load(msgs, l, PeerOf(msgs, r)) < c.maxPerPeer)
      && (Load(msgs, l, PeerOf(msgs, r)) >= c.maxPerPeer ==> PeerOf(msgs, out.value) == PeerOf(msgs, r))
      && (Load(msgs, l, PeerOf(msgs, r)) < c.maxPerPeer && out.Some? ==> |l| == c.maxOvercommit)
  {
    hide Exchanged, Distinct, Better, Load, InsertAt, Without;
    ExchangeNothing(msgs, l, r);
    var a := InsertAfter(msgs, l, r);
    var k := LastOfPeer(msgs, l, a, PeerOf(msgs, r));
    if Load(msgs, l, PeerOf(msgs, r)) >= c.maxPerPeer {
      if k > a { ExchangeAt(msgs, l, k, a + 1, r); }
    } else if a < c.maxOvercommit - 1 && |l| >= c.maxOvercommit {
      ExchangeAt(msgs, l, |l| - 1, a + 1, r);
    } else if a < c.maxOvercommit - 1 {
      Enlarge(msgs, l, a + 1, r);
    }
  }

  /** The two scan results are determined by what they were looking for. */
  lemma SlotUnique(msgs: map<nat, Msg>, l: seq<nat>, r: nat, a: int, k: int)
    requires -1 <= a < |l| && (a >= 0 ==> !Better(msgs, r, l[a]))
    requires forall i :: a < i < |l| ==> Better(msgs, r, l[i])
    requires k == -1 || (a < k < |l| && PeerOf(msgs, l[k]) == PeerOf(msgs, r))
    requires forall i :: a < i < |l| && i > k ==> PeerOf(msgs, l[i]) != PeerOf(msgs, r)
    ensures a == InsertAfter(msgs, l, r) && k == LastOfPeer(msgs, l, a, PeerOf(msgs, r))
  {
    hide Better, InsertAfter, LastOfPeer, PeerOf;
  }

  lemma RoomUnique(c: Config, msgs: map<nat, Msg>, active: seq<nat>, ps: seq<nat>, k: nat)
    requires k <= |ps| && (k < |ps| ==> Load(msgs, active, ps[k]) < c.maxPerPeer)
    requires forall i :: 0 <= i < k ==> Load(msgs, active, ps[i]) >= c.maxPerPeer
    ensures k == FirstWithRoom(c, msgs, active, ps)
  {
    hide Load, FirstWithRoom;
  }

  // ---- Admission: homa_grant_manage_rpc and promotion ----

  lemma ActiveExchangeOk(c: Config, msgs: map<nat, Msg>, q: Queues, l: seq<nat>, r: nat, out: Option<nat>)
    requires ActiveOk(c, msgs, q) && r in msgs && Exchanged(msgs, q.active, l, r, out)
    requires |l| <= c.maxOvercommit
    requires || (out.Some? && PeerOf(msgs, out.value) == PeerOf(msgs, r))
             || Load(msgs, q.active, PeerOf(msgs, r)) < c.maxPerPeer
    ensures ActiveOk(c, msgs, q.(active := l))
  {
    hide Distinct;
    forall p ensures Load(msgs, l, p) <= c.maxPerPeer {
      assert Load(msgs, q.active, p) <= c.maxPerPeer;
    }
  }

  lemma WaitingFrame(msgs: map<nat, Msg>, q: Queues, l: seq<nat>)
    requires WaitingOk(msgs, q) && PeersOk(msgs, q)
    requires forall p, r :: r in Wait(q, p) ==> r !in l
    ensures WaitingOk(msgs, q.(active := l)) && PeersOk(msgs, q.(active := l))
  {
    hide Distinct, Sorted;
    var q1 := q.(active := l);
    forall p ensures ListOk(msgs, q1, p) && Sorted(msgs, Wait(q1, p)) {
      assert ListOk(msgs, q, p) && Wait(q1, p) == Wait(q, p);
    }
    assert Heads(msgs, q1) == Heads(msgs, q);
    assert forall p :: Wait(q1, p) == Wait(q, p);
  }

  /** After the exchange in active_rpcs the displaced RPC is the only one out of place. */
  lemma ExchangeFrame(c: Config, msgs: map<nat, Msg>, q: Queues, l: seq<nat>, r: nat, out: Option<nat>)
    requires QInv(c, msgs, q) && r in msgs && !Managed(msgs, q, r)
    requires Exchanged(msgs, q.active, l, r, out)
    ensures WaitingOk(msgs, q.(active := l)) && PeersOk(msgs, q.(active := l))
    ensures out.Some? ==> out.value in msgs && !Managed(msgs, q.(active := l), out.value)
  {
    hide Distinct, Sorted, PeersOk;
    forall p, x | x in Wait(q, p) ensures x !in l { assert ListOk(msgs, q, p); }
    WaitingFrame(msgs, q, l);
    if out.Some? {
      assert ListOk(msgs, q, PeerOf(msgs, out.value));
    }
  }

  /** What admitting r does: r becomes managed and nothing else does. */
  lemma AdmitOk(c: Config, msgs: map<nat, Msg>, q: Queues, r: nat)
    requires QInv(c, msgs, q) && r in msgs && !Managed(msgs, q, r)
    ensures var q' := Admit(c, msgs, q, r);
      && QInv(c, msgs, q')
      && (forall x :: x in msgs ==> (Managed(msgs, q', x) <==> Managed(msgs, q, x) || x == r))
  {
    hide WaitingOk, PeersOk, InsertActive, InsertGrantable;
    var (l, out) := InsertActive(c, msgs, q.active, r);
    InsertActiveOk(c, msgs, q.active, r);
    ActiveExchangeOk(c, msgs, q, l, r, out);
    ExchangeFrame(c, msgs, q, l, r, out);
    if out.Some? {
      InsertGrantableOk(msgs, q.(active := l), out.value);
    }
  }

  /** Admission never leaves room unused, and leaves the number active alone when there was none. */
  lemma AdmitConserves(c: Config, msgs: map<nat, Msg>, q: Queues, r: nat)
    requires QInv(c, msgs, q) && Conserving(c, msgs, q) && r in msgs && !Managed(msgs, q, r)
    ensures Conserving(c, msgs, Admit(c, msgs, q, r))
    ensures |q.active| == c.maxOvercommit || Load(msgs, q.active, PeerOf(msgs, r)) >= c.maxPerPeer
      ==> |Admit(c, msgs, q, r).active| == |q.active|
  {
    hide WaitingOk, PeersOk, InsertActive, InsertGrantable;
    var (l, out) := InsertActive(c, msgs, q.active, r);
    InsertActiveOk(c, msgs, q.active, r);
    ExchangeFrame(c, msgs, q, l, r, out);
    if out.Some? {
      InsertGrantableOk(msgs, q.(active := l), out.value);
    }
  }

  // ---- Removal: homa_grant_unmanage_rpc ----

  lemma DropActiveOk(c: Config, msgs: map<nat, Msg>, q: Queues, r: nat)
    requires QInv(c, msgs, q) && r in q.active
    ensures var q1 := DropActive(q, r);
      && QInv(c, msgs, q1) && |q1.active| == |q.active| - 1
      && (forall x :: x in msgs ==> (Managed(msgs, q1, x) <==> Managed(msgs, q, x) && x != r))
      && (forall p :: Load(msgs, q1.active, p) == Load(msgs, q.active, p) - (if PeerOf(msgs, r) == p then 1 else 0))
  {
    hide Sorted, PeersOk;
    var k := IndexOf(q.active, r);
    var l := Without(q.active, k);
    WithoutMembers(q.active, k);
    forall p
      ensures Load(msgs, l, p) == Load(msgs, q.active, p) - (if PeerOf(msgs, r) == p then 1 else 0)
    {
      LoadWithout(msgs, q.active, k, p);
    }
    forall p ensures Load(msgs, l, p) <= c.maxPerPeer {
      assert Load(msgs, q.active, p) <= c.maxPerPeer;
    }
    forall p, x | x in Wait(q, p) ensures x !in l { assert ListOk(msgs, q, p); }
    WaitingFrame(msgs, q, l);
    assert ListOk(msgs, q, PeerOf(msgs, r));
  }

  lemma PullOk(c: Config, msgs: map<nat, Msg>, q: Queues, other: nat)
    requires QInv(c, msgs, q) && |q.active| < c.maxOvercommit
    requires other in msgs && other in Wait(q, PeerOf(msgs, other))
    requires Load(msgs, q.active, PeerOf(msgs, other)) < c.maxPerPeer
    ensures var q' := Pull(msgs, q, other);
      && QInv(c, msgs, q') && q'.active == q.active + [other]
      && (forall x :: x in msgs ==> (Managed(msgs, q', x) <==> Managed(msgs, q, x)))
      && (forall p :: Load(msgs, q'.active, p) == Load(msgs, q.active, p) + (if PeerOf(msgs, other) == p then 1 else 0))
      && (forall o :: o in q'.peers ==> o in q.peers)
  {
    hide Sorted, PeersOk, RemoveGrantable;
    RemoveGrantableOk(msgs, msgs, q, other);
    var q2 := RemoveGrantable(msgs, q, other);
    var l := q.active + [other];
    assert other !in q.active by { assert ListOk(msgs, q, PeerOf(msgs, other)); }
    forall p
      ensures Load(msgs, l, p) == Load(msgs, q.active, p) + (if PeerOf(msgs, other) == p then 1 else 0)
    {
      LoadAppend(msgs, q.active, [other], p);
    }
    forall p ensures Load(msgs, l, p) <= c.maxPerPeer {
      assert Load(msgs, q.active, p) <= c.maxPerPeer;
    }
    forall p, x | x in Wait(q2, p) ensures x !in l {
      assert ListOk(msgs, q2, p) && !Managed(msgs, q2, other);
    }
    WaitingFrame(msgs, q2, l);
  }

  /** Refilling either uses the free slot or shows that no waiting RPC may have it. */
  lemma RefillOk(c: Config, msgs: map<nat, Msg>, q: Queues)
    requires QInv(c, msgs, q) && |q.active| < c.maxOvercommit
    ensures var (q', other) := Refill(c, msgs, q);
      && QInv(c, msgs, q')
      && (forall x :: x in msgs ==> (Managed(msgs, q', x) <==> Managed(msgs, q, x)))
      && (other.None? ==> q' == q && forall p :: p in q.peers ==> Load(msgs, q.active, p) >= c.maxPerPeer)
      && (other.Some? ==>
            && other.value in msgs && q'.active == q.active + [other.value]
            && PeerOf(msgs, other.value) in q.peers
            && Load(msgs, q.active, PeerOf(msgs, other.value)) < c.maxPerPeer
            && (forall p :: Load(msgs, q'.active, p)
                            == Load(msgs, q.active, p) + (if PeerOf(msgs, other.value) == p then 1 else 0))
            && (forall o :: o in q'.peers ==> o in q.peers))
  {
    hide Sorted, Distinct, Pull;
    var k := FirstWithRoom(c, msgs, q.active, q.peers);
    if k < |q.peers| {
      var p := q.peers[k];
      assert p in q.peers;
      var other := Wait(q, p)[0];
      assert ListOk(msgs, q, p) && other in Wait(q, p);
      PullOk(c, msgs, q, other);
    }
  }

  /** Removing an active RPC fills the freed slot if any waiting RPC may use it. */
  lemma RemoveActiveOk(c: Config, msgs: map<nat, Msg>, q: Queues, r: nat)
    requires QInv(c, msgs, q) && Conserving(c, msgs, q) && r in q.active
    ensures var (q', other) := RemoveActive(c, msgs, q, r);
      && QInv(c, msgs, q') && Conserving(c, msgs, q')
      && (forall x :: x in msgs ==> (Managed(msgs, q', x) <==> Managed(msgs, q, x) && x != r))
      && (other.Some? ==> other.value in q'.active && other.value in msgs && other.value != r)
  {
    hide ListOk, Sorted, Distinct, Refill;
    var q1 := DropActive(q, r);
    DropActiveOk(c, msgs, q, r);
    RefillOk(c, msgs, q1);
    var (q', other) := Refill(c, msgs, q1);
    if other.Some? && |q.active| < c.maxOvercommit {
      var p := PeerOf(msgs, other.value);
      assert p in q.peers && Load(msgs, q.active, p) >= c.maxPerPeer;
      forall o | o in q'.peers ensures Load(msgs, q'.active, o) >= c.maxPerPeer {
        assert o in q.peers;
      }
    }
  }

  // ---- Changes to one message ----

  lemma LoadsFrame(c: Config, msgs: map<nat, Msg>, msgs': map<nat, Msg>, q: Queues, r: nat)
    requires ActiveOk(c, msgs, q) && SameButFor(msgs, msgs', r)
    ensures ActiveOk(c, msgs', q)
    ensures forall p :: Load(msgs', q.active, p) == Load(msgs, q.active, p)
  {
    hide Distinct, Load;
    forall p ensures Load(msgs', q.active, p) == Load(msgs, q.active, p) {
      LoadSamePeers(msgs, msgs', q.active, p);
    }
    forall p ensures Load(msgs', q.active, p) <= c.maxPerPeer {
      assert Load(msgs, q.active, p) <= c.maxPerPeer;
    }
  }

  /** A message that is not waiting, or whose priority stays, may change without touching the queues. */
  lemma MsgFrame(c: Config, msgs: map<nat, Msg>, msgs': map<nat, Msg>, q: Queues, r: nat)
    requires QInv(c, msgs, q) && SameButFor(msgs, msgs', r)
    requires r !in Wait(q, PeerOf(msgs, r)) || SamePriority(msgs[r], msgs'[r])
    ensures QInv(c, msgs', q)
    ensures Conserving(c, msgs, q) ==> Conserving(c, msgs', q)
    ensures forall x :: Managed(msgs', q, x) <==> Managed(msgs, q, x)
  {
    hide Sorted, Distinct, Load;
    LoadsFrame(c, msgs, msgs', q, r);
    assert ListOk(msgs, q, PeerOf(msgs, r));
    forall p ensures ListOk(msgs', q, p) && Sorted(msgs', Wait(q, p)) {
      assert ListOk(msgs, q, p);
      SortedSameKeys(msgs, msgs', Wait(q, p));
    }
    forall o | o in q.peers ensures SamePriority(Key(Heads(msgs, q), o), Key(Heads(msgs', q), o)) {
      assert Wait(q, o) != [] && ListOk(msgs, q, o) && Wait(q, o)[0] in Wait(q, o);
    }
    SortedSameKeys(Heads(msgs, q), Heads(msgs', q), q.peers);
  }

  // ---- Promotion after a FIFO grant ----

  ghost predicate Raised(msgs: map<nat, Msg>, msgs': map<nat, Msg>, r: nat) {
    && SameButFor(msgs, msgs', r)
    && msgs'[r].length == msgs[r].length && msgs'[r].birth == msgs[r].birth
    && msgs[r].granted <= msgs'[r].granted
  }

  lemma RaisedListSorted(msgs: map<nat, Msg>, msgs': map<nat, Msg>, l: seq<nat>, r: nat)
    requires Raised(msgs, msgs', r) && Distinct(l) && Sorted(msgs, l) && r in l
    requires forall x :: x in l ==> x in msgs
    ensures Sorted(msgs', MoveUp(msgs', l, IndexOf(l, r)).0)
  {
    hide MoveUp;
    var i := IndexOf(l, r);
    WithoutMembers(l, i);
    WithoutSorted(msgs, l, i);
    SortedSameKeys(msgs, msgs', Without(l, i));
    if i + 1 < |l| {
      assert !Better(msgs, l[i + 1], l[i]) && l[i + 1] in l;
    }
    MoveUpSorted(msgs', l, i);
  }

  /** Moving a raised RPC up in its peer's list, and its peer if it became the head, restores order. */
  lemma PromoteWaitingPeers(msgs: map<nat, Msg>, msgs': map<nat, Msg>, q: Queues, r: nat)
    requires WaitingOk(msgs, q) && PeersOk(msgs, q) && Raised(msgs, msgs', r)
    requires r in Wait(q, PeerOf(msgs', r))
    ensures var p := PeerOf(msgs', r);
      var (l, k) := MoveUp(msgs', Wait(q, p), IndexOf(Wait(q, p), r));
      PeersOk(msgs', if k == 0 then AdjustPeer(msgs', SetList(q, p, l), p) else SetList(q, p, l))
  {
    hide MoveUp, PeersOk, Sorted;
    var p := PeerOf(msgs', r);
    var (l, k) := MoveUp(msgs', Wait(q, p), IndexOf(Wait(q, p), r));
    SameHeads(msgs, msgs', q, r);
    if k == 0 {
      AdjustPeerOk(msgs, msgs', q, p, l);
    } else {
      assert ListOk(msgs, q, p) && l[0] == Wait(q, p)[0] && l[0] in Wait(q, p);
      SameHeadOk(msgs, msgs', q, p, l);
    }
  }

  lemma PromoteWaitingLists(msgs: map<nat, Msg>, msgs': map<nat, Msg>, q: Queues, q': Queues, r: nat)
    requires WaitingOk(msgs, q) && Raised(msgs, msgs', r)
    requires r in Wait(q, PeerOf(msgs', r))
    requires var p := PeerOf(msgs', r);
      q'.waiting == q.waiting[p := MoveUp(msgs', Wait(q, p), IndexOf(Wait(q, p), r)).0] && q'.active == q.active
    ensures WaitingOk(msgs', q')
    ensures forall x :: x in msgs' ==> (Managed(msgs', q', x) <==> Managed(msgs, q, x))
    ensures forall o :: Wait(q', o) != [] <==> Wait(q, o) != []
  {
    hide MoveUp, Sorted, Distinct, InsertAt, Without, Better;
    var p := PeerOf(msgs', r);
    var l := MoveUp(msgs', Wait(q, p), IndexOf(Wait(q, p), r)).0;
    assert ListOk(msgs, q, p);
    RaisedListSorted(msgs, msgs', Wait(q, p), r);
    MoveUpMembers(msgs', Wait(q, p), IndexOf(Wait(q, p), r));
    forall o ensures ListOk(msgs', q', o) && Sorted(msgs', Wait(q', o)) {
      assert ListOk(msgs, q, o);
      if o != p {
        SortedSameKeys(msgs, msgs', Wait(q, o));
      }
    }
  }

  /** Promoting r within the waiting lists. */
  lemma PromoteWaitingOk(c: Config, msgs: map<nat, Msg>, msgs': map<nat, Msg>, q: Queues, r: nat)
    requires QInv(c, msgs, q) && Conserving(c, msgs, q) && Raised(msgs, msgs', r)
    requires r !in q.active && r in Wait(q, PeerOf(msgs', r))
    requires 1 <= c.maxOvercommit == |q.active| && !Better(msgs', r, q.active[|q.active| - 1])
    ensures var q' := Promote(c, msgs', q, r);
      && QInv(c, msgs', q') && Conserving(c, msgs', q') && |q'.active| == |q.active|
      && (forall x :: x in msgs' ==> (Managed(msgs', q', x) <==> Managed(msgs, q, x)))
  {
    hide MoveUp, Sorted, Distinct, PeersOk, WaitingOk, AdjustPeer, Better, InsertAt, Without, Load;
    var p := PeerOf(msgs', r);
    var (l, k) := MoveUp(msgs', Wait(q, p), IndexOf(Wait(q, p), r));
    var q' := Promote(c, msgs', q, r);
    LoadsFrame(c, msgs, msgs', q, r);
    AdjustPeerFrame(msgs', SetList(q, p, l), p);
    PromoteWaitingPeers(msgs, msgs', q, r);
    PromoteWaitingLists(msgs, msgs', q, q', r);
  }

  /** Promoting r into active_rpcs. */
  lemma PromoteActiveOk(c: Config, msgs: map<nat, Msg>, msgs': map<nat, Msg>, q: Queues, r: nat)
    requires QInv(c, msgs, q) && Conserving(c, msgs, q) && Raised(msgs, msgs', r)
    requires r !in q.active && r in Wait(q, PeerOf(msgs', r))
    ensures var q' := Admit(c, msgs', RemoveGrantable(msgs', q, r), r);
      && QInv(c, msgs', q') && Conserving(c, msgs', q') && |q'.active| == |q.active|
      && (forall x :: x in msgs' ==> (Managed(msgs', q', x) <==> Managed(msgs, q, x)))
  {
    hide Sorted, Distinct, WaitingOk, RemoveGrantable, Admit;
    var q1 := RemoveGrantable(msgs', q, r);
    assert PeerOf(msgs', r) in q.peers;
    RemoveGrantableOk(msgs, msgs', q, r);
    LoadsFrame(c, msgs, msgs', q, r);
    AdmitOk(c, msgs', q1, r);
    AdmitConserves(c, msgs', q1, r);
  }

  /** homa_grant_promote_rpc keeps every invariant, and never changes how many RPCs are active. */
  lemma PromoteOk(c: Config, msgs: map<nat, Msg>, msgs': map<nat, Msg>, q: Queues, r: nat)
    requires QInv(c, msgs, q) && Conserving(c, msgs, q) && Raised(msgs, msgs', r)
    requires 1 <= c.maxOvercommit && Managed(msgs, q, r)
    ensures var q' := Promote(c, msgs', q, r);
      && QInv(c, msgs', q') && Conserving(c, msgs', q') && |q'.active| == |q.active|
      && (forall x :: x in msgs' ==> (Managed(msgs', q', x) <==> Managed(msgs, q, x)))
  {
    hide WaitingOk, PeersOk, Admit, RemoveGrantable, AdjustPeer, MoveUp;
    if r in q.active {
      ActiveNotWaiting(msgs, q, r);
      MsgFrame(c, msgs, msgs', q, r);
    } else if |q.active| < c.maxOvercommit || Better(msgs', r, q.active[|q.active| - 1]) {
      PromoteActiveOk(c, msgs, msgs', q, r);
    } else {
      PromoteWaitingOk(c, msgs, msgs', q, r);
    }
  }

  lemma ActiveNotWaiting(msgs: map<nat, Msg>, q: Queues, r: nat)
    requires WaitingOk(msgs, q) && r in q.active
    ensures r !in Wait(q, PeerOf(msgs, r))
  {
    assert ListOk(msgs, q, PeerOf(msgs, r));
  }

  /** Taking r out of the queues, wherever it is, keeps every invariant, even if r's priority just changed. */
  lemma ExpelOk(c: Config, msgs: map<nat, Msg>, msgs': map<nat, Msg>, q: Queues, r: nat)
    requires QInv(c, msgs, q) && Conserving(c, msgs, q) && SameButFor(msgs, msgs', r)
    ensures var (q', other) := Expel(c, msgs', q, r);
      && QInv(c, msgs', q') && Conserving(c, msgs', q')
      && (forall x :: x in msgs' ==> (Managed(msgs', q', x) <==> Managed(msgs, q, x) && x != r))
      && (other.Some? ==> other.value in q'.active && other.value in msgs' && other.value != r)
  {
    hide WaitingOk, PeersOk, RemoveActive, AdjustPeer, Load;
    if r in q.active {
      ActiveNotWaiting(msgs, q, r);
      MsgFrame(c, msgs, msgs', q, r);
      RemoveActiveOk(c, msgs', q, r);
    } else if r in Wait(q, PeerOf(msgs', r)) {
      RemoveGrantableOk(msgs, msgs', q, r);
      LoadsFrame(c, msgs, msgs', q, r);
    } else {
      MsgFrame(c, msgs, msgs', q, r);
    }
  }
}
