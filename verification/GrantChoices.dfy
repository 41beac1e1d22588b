/** Who gets a place among the active RPCs: the choices of homa_grant.c go by priority. */
module GrantChoices {
  import opened Basics
  import opened RankedLists
  import opened GrantQueues
  import opened GrantQueueProofs
  import opened GrantRanks

  /** Not being outranked is transitive. */
  lemma NotBetterTransitive(msgs: map<nat, Msg>, x: nat, y: nat, z: nat)
    requires !Better(msgs, x, y) && !Better(msgs, y, z)
    ensures !Better(msgs, x, z)
  {
  }

  /** In a sorted list r outranks exactly the elements behind the place where the backward scan stops. */
  lemma ScanSplits(msgs: map<nat, Msg>, l: seq<nat>, r: nat, i: nat)
    requires Sorted(msgs, l) && i < |l|
    ensures Better(msgs, r, l[i]) <==> i > InsertAfter(msgs, l, r)
  {
    hide Better, InsertAfter;
    var a := InsertAfter(msgs, l, r);
    if i < a {
      NotBetterTransitive(msgs, r, l[a], l[i]);
    }
  }

  lemma InsertBehindScan(msgs: map<nat, Msg>, l: seq<nat>, r: nat)
    requires Sorted(msgs, l)
    ensures Sorted(msgs, InsertAt(l, InsertAfter(msgs, l, r) + 1, r))
  {
    hide Better, InsertAfter;
    var k := InsertAfter(msgs, l, r) + 1;
    forall i | 0 <= i < |l| ensures i < k ==> !Better(msgs, r, l[i])
      ensures i >= k ==> !Better(msgs, l[i], r)
    {
      ScanSplits(msgs, l, r, i);
      Asymmetric(msgs, r, l[i]);
    }
  }

  lemma Asymmetric(msgs: map<nat, Msg>, x: nat, y: nat)
    ensures !(Better(msgs, x, y) && Better(msgs, y, x))
  {
  }

  /** Taking out an element behind the place of insertion first makes no difference to the order. */
  lemma InsertWithout(msgs: map<nat, Msg>, l: seq<nat>, r: nat, k: nat)
    requires Sorted(msgs, l) && InsertAfter(msgs, l, r) < k < |l|
    ensures InsertAfter(msgs, l, r) + 1 <= |Without(l, k)|
    ensures var l' := InsertAt(Without(l, k), InsertAfter(msgs, l, r) + 1, r); Sorted(msgs, l') && r in l'
  {
    hide Better, InsertAfter, Sorted, Without;
    var a := InsertAfter(msgs, l, r);
    InsertBehindScan(msgs, l, r);
    InsertCommutes(l, a + 1, k, r);
    StaysSorted(msgs, InsertAt(l, a + 1, r), k + 1);
    Inserted(Without(l, k), a + 1, r);
  }

  lemma InsertCommutes(l: seq<nat>, j: nat, k: nat, r: nat)
    requires j <= k < |l|
    ensures j <= |Without(l, k)| && InsertAt(Without(l, k), j, r) == Without(InsertAt(l, j, r), k + 1)
  {
    var u, v := InsertAt(Without(l, k), j, r), Without(InsertAt(l, j, r), k + 1);
    assert |u| == |v| == |l|;
    forall i | 0 <= i < |l| ensures u[i] == v[i] {
    }
  }

  lemma StaysSorted(msgs: map<nat, Msg>, l: seq<nat>, k: nat)
    requires Sorted(msgs, l) && k < |l|
    ensures Sorted(msgs, Without(l, k))
  {
    hide Better;
  }

  /** r may not become active: its peer has all its places and r outranks none of its RPCs, or all places
      are taken and r outranks none of the active RPCs. */
  ghost predicate Refused(c: Config, msgs: map<nat, Msg>, l: seq<nat>, r: nat) {
    if Load(msgs, l, PeerOf(msgs, r)) >= c.maxPerPeer then
      forall x :: x in l && PeerOf(msgs, x) == PeerOf(msgs, r) ==> !Better(msgs, r, x)
    else |l| == c.maxOvercommit && forall x :: x in l ==> !Better(msgs, r, x)
  }

  /** x is the one to make way for r: r outranks it, and x outranks none of those it is chosen from,
      namely r's peer's RPCs if the peer has all its places, and else all active RPCs. */
  ghost predicate MakesWay(c: Config, msgs: map<nat, Msg>, l: seq<nat>, r: nat, x: nat) {
    && x in l && Better(msgs, r, x)
    && if Load(msgs, l, PeerOf(msgs, r)) >= c.maxPerPeer then
         PeerOf(msgs, x) == PeerOf(msgs, r) &&
         forall y :: y in l && PeerOf(msgs, y) == PeerOf(msgs, r) ==> !Better(msgs, x, y)
       else
         |l| == c.maxOvercommit && forall y :: y in l ==> !Better(msgs, x, y)
  }

  /** When active_rpcs is in order, homa_grant_insert_active keeps it so; it turns r away just when r is
      refused, and otherwise displaces at most the lowest-priority RPC that is in r's way. */
  lemma InsertActiveByPriority(c: Config, msgs: map<nat, Msg>, l: seq<nat>, r: nat)
    requires Sorted(msgs, l) && |l| <= c.maxOvercommit && r !in l
    ensures var (l', out) := InsertActive(c, msgs, l, r);
      && Sorted(msgs, l') && ByBytesThenAge(msgs, l')
      && (r in l' <==> !Refused(c, msgs, l, r))
      && (r !in l' ==> l' == l && out == Some(r))
      && (r in l' && out.Some? ==> MakesWay(c, msgs, l, r, out.value))
      && (r in l' && out.None? ==> |l| < c.maxOvercommit && Load(msgs, l, PeerOf(msgs, r)) < c.maxPerPeer)
  {
    hide Better, Sorted, InsertAfter, LastOfPeer, Load, PeerOf, Refused, MakesWay, InsertAt, Without, ByBytesThenAge;
    SortedByNumbers(msgs, InsertActive(c, msgs, l, r).0);
    var a := InsertAfter(msgs, l, r);
    var k := LastOfPeer(msgs, l, a, PeerOf(msgs, r));
    if Load(msgs, l, PeerOf(msgs, r)) >= c.maxPerPeer {
      PeerIsFull(c, msgs, l, r, k);
      if k > a {
        InsertWithout(msgs, l, r, k);
      }
    } else {
      PeerHasRoom(c, msgs, l, r);
      if a < |l| - 1 {
        InsertWithout(msgs, l, r, |l| - 1);
      }
      InsertBehindScan(msgs, l, r);
      Inserted(l, a + 1, r);
    }
  }

  lemma Inserted(l: seq<nat>, k: nat, r: nat)
    requires k <= |l|
    ensures r in InsertAt(l, k, r)
  {
    assert InsertAt(l, k, r)[k] == r;
  }

  lemma PeerIsFull(c: Config, msgs: map<nat, Msg>, l: seq<nat>, r: nat, k: int)
    requires Sorted(msgs, l) && Load(msgs, l, PeerOf(msgs, r)) >= c.maxPerPeer
    requires k == LastOfPeer(msgs, l, InsertAfter(msgs, l, r), PeerOf(msgs, r))
    ensures k <= InsertAfter(msgs, l, r) ==> Refused(c, msgs, l, r)
    ensures k > InsertAfter(msgs, l, r) ==> !Refused(c, msgs, l, r) && MakesWay(c, msgs, l, r, l[k])
  {
    hide Better, Sorted, InsertAfter, LastOfPeer, Load, PeerOf;
    var a := InsertAfter(msgs, l, r);
    forall i | 0 <= i < |l| ensures Better(msgs, r, l[i]) <==> i > a {
      ScanSplits(msgs, l, r, i);
    }
    if k > a {
      LeastOf(msgs, l, k);
      assert l[k] in l;
    }
  }

  lemma PeerHasRoom(c: Config, msgs: map<nat, Msg>, l: seq<nat>, r: nat)
    requires Sorted(msgs, l) && Load(msgs, l, PeerOf(msgs, r)) < c.maxPerPeer && |l| <= c.maxOvercommit
    ensures InsertAfter(msgs, l, r) >= c.maxOvercommit - 1 ==> Refused(c, msgs, l, r)
    ensures InsertAfter(msgs, l, r) < c.maxOvercommit - 1 ==> !Refused(c, msgs, l, r)
    ensures InsertAfter(msgs, l, r) < c.maxOvercommit - 1 && |l| == c.maxOvercommit ==>
              MakesWay(c, msgs, l, r, l[|l| - 1])
  {
    hide Better, Sorted, InsertAfter, Load, PeerOf;
    var a := InsertAfter(msgs, l, r);
    forall i | 0 <= i < |l| ensures Better(msgs, r, l[i]) <==> i > a {
      ScanSplits(msgs, l, r, i);
    }
    if a < |l| - 1 {
      LeastOf(msgs, l, |l| - 1);
      assert l[|l| - 1] in l;
    }
  }

  /** An element outranks none that stands before it. */
  lemma LeastOf(msgs: map<nat, Msg>, l: seq<nat>, k: nat)
    requires Sorted(msgs, l) && k < |l|
    ensures forall i :: 0 <= i <= k ==> !Better(msgs, l[k], l[i])
  {
    Asymmetric(msgs, l[k], l[k]);
  }

  // ---- Active RPCs in any order ----

  /** r outranks the RPC at i and all those behind it. */
  ghost predicate OutranksFrom(msgs: map<nat, Msg>, l: seq<nat>, r: nat, i: nat) {
    i < |l| && forall j :: i <= j < |l| ==> Better(msgs, r, l[j])
  }

  /** Whatever the order, r is turned away just when its peer has all its places and none of the peer's RPCs is
      in the stretch at the end of active_rpcs that r outranks, or when all places are taken and r does not
      outrank the last. */
  ghost predicate TurnedAway(c: Config, msgs: map<nat, Msg>, l: seq<nat>, r: nat) {
    if Load(msgs, l, PeerOf(msgs, r)) >= c.maxPerPeer then
      forall i :: 0 <= i < |l| && OutranksFrom(msgs, l, r, i) ==> PeerOf(msgs, l[i]) != PeerOf(msgs, r)
    else |l| == c.maxOvercommit && (l == [] || !Better(msgs, r, l[|l| - 1]))
  }

  /** The RPC at k makes way for r: it is in the stretch at the end that r outranks, and it is the last one there, or
      the last one of r's peer if the peer has all its places. */
  ghost predicate LastInTheWay(c: Config, msgs: map<nat, Msg>, l: seq<nat>, r: nat, k: nat) {
    && OutranksFrom(msgs, l, r, k)
    && if Load(msgs, l, PeerOf(msgs, r)) >= c.maxPerPeer then
         && PeerOf(msgs, l[k]) == PeerOf(msgs, r)
         && forall j :: k < j < |l| ==> PeerOf(msgs, l[j]) != PeerOf(msgs, r)
       else k == |l| - 1 && |l| == c.maxOvercommit
  }

  /** r is right behind an RPC it does not outrank, or first, and outranks all RPCs behind it. */
  ghost predicate BehindBetter(msgs: map<nat, Msg>, l: seq<nat>, r: nat, i: nat) {
    && i < |l| && l[i] == r && (i == 0 || !Better(msgs, r, l[i - 1]))
    && forall j :: i < j < |l| ==> Better(msgs, r, l[j])
  }

  /** l' is l with r put in, and without the RPC at k. */
  ghost predicate Replaced(l: seq<nat>, l': seq<nat>, r: nat, k: nat)
    requires k < |l|
  {
    forall x :: x in l' <==> x == r || x in Without(l, k)
  }

  /** homa_grant_insert_active when active_rpcs is in any order, as it may be until the next call of
      homa_grant_fix_order. An RPC that outranks nobody it competes with is always turned away. */
  lemma InsertActiveInAnyOrder(c: Config, msgs: map<nat, Msg>, l: seq<nat>, r: nat)
    requires |l| <= c.maxOvercommit && r !in l
    ensures var (l', out) := InsertActive(c, msgs, l, r);
      && (r in l' <==> !TurnedAway(c, msgs, l, r)) && (Refused(c, msgs, l, r) ==> r !in l')
      && (r !in l' ==> l' == l && out == Some(r))
      && (r in l' ==> exists i :: BehindBetter(msgs, l', r, i))
      && (r in l' && out.Some? ==>
            exists k :: 0 <= k < |l| && LastInTheWay(c, msgs, l, r, k) && out.value == l[k] && Replaced(l, l', r, k))
      && (r in l' && out.None? ==> |l| < c.maxOvercommit && Load(msgs, l, PeerOf(msgs, r)) < c.maxPerPeer
                                   && forall x :: x in l' <==> x == r || x in l)
  {
    hide Better, InsertAfter, LastOfPeer, Load, PeerOf, InsertAt, Without;
    hide Refused, TurnedAway, LastInTheWay, BehindBetter, Replaced;
    var a := InsertAfter(msgs, l, r);
    var k := LastOfPeer(msgs, l, a, PeerOf(msgs, r));
    AwayIff(c, msgs, l, r, k);
    if k > a {
      LandsBehind(msgs, l, k, r);
    }
    if a < |l| - 1 {
      LandsBehind(msgs, l, |l| - 1, r);
    }
    Lands(msgs, l, a, r);
    InsertMembers(l, a + 1, r);
  }

  lemma AwayIff(c: Config, msgs: map<nat, Msg>, l: seq<nat>, r: nat, k: int)
    requires |l| <= c.maxOvercommit && k == LastOfPeer(msgs, l, InsertAfter(msgs, l, r), PeerOf(msgs, r))
    ensures Refused(c, msgs, l, r) ==> TurnedAway(c, msgs, l, r)
    ensures Load(msgs, l, PeerOf(msgs, r)) >= c.maxPerPeer ==>
              (TurnedAway(c, msgs, l, r) <==> k <= InsertAfter(msgs, l, r)) &&
              (k > InsertAfter(msgs, l, r) ==> LastInTheWay(c, msgs, l, r, k))
    ensures Load(msgs, l, PeerOf(msgs, r)) < c.maxPerPeer ==>
              (TurnedAway(c, msgs, l, r) <==> InsertAfter(msgs, l, r) >= c.maxOvercommit - 1) &&
              (!TurnedAway(c, msgs, l, r) && |l| == c.maxOvercommit ==> LastInTheWay(c, msgs, l, r, |l| - 1))
  {
    hide Better, InsertAfter, LastOfPeer, Load, PeerOf;
    var a := InsertAfter(msgs, l, r);
    assert forall i :: 0 <= i < |l| ==> (OutranksFrom(msgs, l, r, i) <==> i > a);
    if k > a {
      assert l[k] in l && OutranksFrom(msgs, l, r, k);
    }
    if l != [] {
      assert l[|l| - 1] in l;
    }
  }

  lemma InsertedAt(l: seq<nat>, k: nat, r: nat, j: nat)
    requires k <= |l| && j <= |l|
    ensures |InsertAt(l, k, r)| == |l| + 1
    ensures InsertAt(l, k, r)[j] == if j < k then l[j] else if j == k then r else l[j - 1]
  {
  }

  lemma TakenOut(l: seq<nat>, k: nat, j: nat)
    requires k < |l| && j < |l| - 1
    ensures Without(l, k)[j] == if j < k then l[j] else l[j + 1]
  {
  }

  /** m begins like l up to a, and r outranks the rest of m. */
  lemma Lands(msgs: map<nat, Msg>, m: seq<nat>, a: int, r: nat)
    requires -1 <= a < |m| && (a >= 0 ==> !Better(msgs, r, m[a])) && forall j :: a < j < |m| ==> Better(msgs, r, m[j])
    ensures a + 1 <= |m| && BehindBetter(msgs, InsertAt(m, a + 1, r), r, a + 1)
    ensures r in InsertAt(m, a + 1, r)
  {
    hide Better, InsertAt;
    var l' := InsertAt(m, a + 1, r);
    InsertedAt(m, a + 1, r, a + 1);
    assert l'[a + 1] in l';
    if a >= 0 {
      InsertedAt(m, a + 1, r, a);
    }
    forall j | a + 1 < j < |l'| ensures Better(msgs, r, l'[j]) {
      InsertedAt(m, a + 1, r, j);
    }
  }

  lemma LandsBehind(msgs: map<nat, Msg>, l: seq<nat>, k: nat, r: nat)
    requires InsertAfter(msgs, l, r) < k < |l|
    ensures var a := InsertAfter(msgs, l, r);
      && a + 1 <= |Without(l, k)| && BehindBetter(msgs, InsertAt(Without(l, k), a + 1, r), r, a + 1)
      && Replaced(l, InsertAt(Without(l, k), a + 1, r), r, k) && r in InsertAt(Without(l, k), a + 1, r)
  {
    hide Better, InsertAt, Without, InsertAfter, BehindBetter;
    var a := InsertAfter(msgs, l, r);
    forall j | 0 <= j < |l| - 1
      ensures j == a ==> !Better(msgs, r, Without(l, k)[j])
      ensures j > a ==> Better(msgs, r, Without(l, k)[j])
    {
      TakenOut(l, k, j);
    }
    Lands(msgs, Without(l, k), a, r);
    InsertMembers(Without(l, k), InsertAfter(msgs, l, r) + 1, r);
  }

  // ---- Where an RPC goes ----

  /** homa_grant_manage_rpc: r becomes active unless it is turned away; whoever does not get or keep a place
      waits in its peer's list. */
  lemma AdmitPlaces(c: Config, msgs: map<nat, Msg>, q: Queues, r: nat)
    requires |q.active| <= c.maxOvercommit && !Managed(msgs, q, r)
    ensures var q' := Admit(c, msgs, q, r); var (l, out) := InsertActive(c, msgs, q.active, r);
      && q'.active == l && (r in q'.active <==> !TurnedAway(c, msgs, q.active, r))
      && (out.Some? ==> out.value in Wait(q', PeerOf(msgs, out.value)))
  {
    hide InsertActive, Better, TurnedAway, AdjustPeer, Place, InsertAt;
    InsertActiveInAnyOrder(c, msgs, q.active, r);
    var (l, out) := InsertActive(c, msgs, q.active, r);
    if out.Some? {
      JoinsList(msgs, q.(active := l), out.value);
    }
  }

  lemma JoinsList(msgs: map<nat, Msg>, q: Queues, x: nat)
    ensures var q' := InsertGrantable(msgs, q, x); q'.active == q.active && x in Wait(q', PeerOf(msgs, x))
  {
    hide Better, Resettle, Place;
    var l := Wait(q, PeerOf(msgs, x));
    Inserted(l, Place(msgs, l, x), x);
  }

  /** homa_grant_promote_rpc: a waiting RPC whose priority rose becomes active if and only if there is a place, or it
      outranks the last active RPC, and it is not turned away. */
  lemma PromotePlaces(c: Config, msgs: map<nat, Msg>, msgs': map<nat, Msg>, q: Queues, r: nat)
    requires QInv(c, msgs, q) && Raised(msgs, msgs', r) && 1 <= c.maxOvercommit
    requires r !in q.active && r in Wait(q, PeerOf(msgs', r))
    ensures var q' := Promote(c, msgs', q, r);
      r in q'.active <==>
        && (|q.active| < c.maxOvercommit || Better(msgs', r, q.active[|q.active| - 1]))
        && !TurnedAway(c, msgs', q.active, r)
  {
    hide QInv, Better, TurnedAway, AdjustPeer, MoveUp, RemoveGrantable, Admit;
    ActiveSize(c, msgs, q);
    if |q.active| < c.maxOvercommit || Better(msgs', r, q.active[|q.active| - 1]) {
      RemoveRaised(c, msgs, msgs', q, r);
      AdmitPlaces(c, msgs', RemoveGrantable(msgs', q, r), r);
    } else {
      PromoteStays(c, msgs', q, r);
    }
  }

  lemma ActiveSize(c: Config, msgs: map<nat, Msg>, q: Queues)
    requires QInv(c, msgs, q)
    ensures |q.active| <= c.maxOvercommit
  {
  }

  lemma PromoteStays(c: Config, msgs: map<nat, Msg>, q: Queues, r: nat)
    requires r !in q.active && r in Wait(q, PeerOf(msgs, r))
    requires |q.active| >= c.maxOvercommit >= 1 && !Better(msgs, r, q.active[|q.active| - 1])
    ensures Promote(c, msgs, q, r).active == q.active
  {
    hide Better, MoveUp, AdjustPeer, IndexOf;
    var p := PeerOf(msgs, r);
    AdjustPeerFrame(msgs, SetList(q, p, MoveUp(msgs, Wait(q, p), IndexOf(Wait(q, p), r)).0), p);
  }

  /** The RPC pulled into a free place is outranked by no waiting RPC whose peer has room. */
  lemma RefillByPriority(c: Config, msgs: map<nat, Msg>, q: Queues, p: nat, y: nat)
    requires WaitingOk(msgs, q) && PeersOk(msgs, q)
    requires y in Wait(q, p) && Load(msgs, q.active, p) < c.maxPerPeer
    ensures var (_, other) := Refill(c, msgs, q); other.Some? && !Better(msgs, y, other.value)
  {
    hide Better, Load, ListOk, RemoveGrantable, Distinct;
    var k := FirstWithRoom(c, msgs, q.active, q.peers);
    assert p in q.peers;
    var j :| 0 <= j < |q.peers| && q.peers[j] == p;
    assert j >= k;
    var first, head := Wait(q, q.peers[k])[0], Wait(q, p)[0];
    assert Sorted(msgs, Wait(q, p));
    var i :| 0 <= i < |Wait(q, p)| && Wait(q, p)[i] == y;
    LeastFirst(msgs, Wait(q, p), i);
    assert !Better(msgs, head, first) by {
      HeadsDecide(msgs, q, p, q.peers[k]);
      if j == k {
        Asymmetric(msgs, head, head);
      }
    }
    NotBetterTransitive(msgs, y, head, first);
  }

  lemma LeastFirst(msgs: map<nat, Msg>, l: seq<nat>, i: nat)
    requires Sorted(msgs, l) && i < |l|
    ensures !Better(msgs, l[i], l[0])
  {
    Asymmetric(msgs, l[0], l[0]);
  }

  /** Peers compare like the heads of their lists. */
  lemma HeadsDecide(msgs: map<nat, Msg>, q: Queues, p: nat, o: nat)
    requires Wait(q, p) != [] && Wait(q, o) != []
    ensures Better(Heads(msgs, q), p, o) <==> Better(msgs, Wait(q, p)[0], Wait(q, o)[0])
  {
  }
}
