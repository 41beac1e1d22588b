/** Keeping msgin.rank and peer->active_rpcs in step with active_rpcs while entries are shifted. */
module GrantRanks {
  import opened Basics
  import opened RankedLists
  import opened GrantQueues
  import opened GrantQueueProofs

  // ---- Ranks and counts ----

  /** l' is l with l[lo..hi) moved down one slot and r at lo. */
  ghost predicate Shifted(l: seq<nat>, l': seq<nat>, lo: nat, hi: nat, r: nat)
    requires lo <= hi < |l|
  {
    && |l'| == |l| && l'[lo] == r
    && (forall k :: 0 <= k < lo || hi < k < |l| ==> l'[k] == l[k])
    && (forall k :: lo < k <= hi ==> l'[k] == l[k - 1])
  }

  /** Ranks after the RPCs at lo..hi have each moved down one slot. */
  ghost function RankDown(rank: map<nat, int>, l: seq<nat>, lo: nat, hi: nat): map<nat, int>
    requires hi <= |l|
    decreases hi - lo
  {
    if lo >= hi then rank else RankDown(rank, l, lo + 1, hi)[l[lo] := lo + 1]
  }

  lemma {:induction false} RankDownOk(rank: map<nat, int>, l: seq<nat>, lo: nat, hi: nat)
    requires lo <= hi <= |l| && Distinct(l)
    ensures var m := RankDown(rank, l, lo, hi);
      && (forall k :: lo <= k < hi ==> l[k] in m && m[l[k]] == k + 1)
      && (forall x :: x !in l[lo..hi] ==> (x in m <==> x in rank) && (x in m ==> m[x] == rank[x]))
    decreases hi - lo
  {
    if lo < hi {
      RankDownOk(rank, l, lo + 1, hi);
      assert l[lo..hi] == [l[lo]] + l[lo + 1..hi];
    }
  }

  /** rank maps each RPC in l to its index and every other RPC to -1. */
  ghost predicate RanksMatch(rank: map<nat, int>, l: seq<nat>) {
    && (forall i :: 0 <= i < |l| ==> l[i] in rank && rank[l[i]] == i)
    && (forall x :: x in rank && x !in l ==> rank[x] == -1)
  }

  function CountIn(counts: map<nat, nat>, p: nat): nat {
    if p in counts then counts[p] else 0
  }

  /** counts holds each peer's number of RPCs in l. */
  ghost predicate CountsMatch(msgs: map<nat, Msg>, counts: map<nat, nat>, l: seq<nat>) {
    forall p :: CountIn(counts, p) == Load(msgs, l, p)
  }

  lemma ShiftedPrefix(l: seq<nat>, l': seq<nat>, n: nat, lo: nat, hi: nat, r: nat)
    requires lo <= hi < n <= |l| && Shifted(l, l', lo, hi, r)
    ensures Shifted(l[..n], l'[..n], lo, hi, r)
  {
  }

  lemma ShiftedExchange(l: seq<nat>, l': seq<nat>, lo: nat, hi: nat, r: nat)
    requires lo <= hi < |l| && Shifted(l, l', lo, hi, r)
    ensures l' == InsertAt(Without(l, hi), lo, r)
  {
  }

  lemma ShiftedMembers(l: seq<nat>, l': seq<nat>, lo: nat, hi: nat, r: nat)
    requires lo <= hi < |l| && Shifted(l, l', lo, hi, r) && Distinct(l)
    ensures forall y :: y in l' <==> y == r || (y in l && y != l[hi])
  {
    hide Shifted, Distinct;
    ShiftedExchange(l, l', lo, hi, r);
    WithoutMembers(l, hi);
    InsertMembers(Without(l, hi), lo, r);
  }

  /** The RPC at hi leaves, those at lo..hi move down, and r enters at lo. */
  lemma ExchangeRanks(rank: map<nat, int>, l: seq<nat>, l': seq<nat>, lo: nat, hi: nat, r: nat)
    requires lo <= hi < |l| && Distinct(l) && r !in l && r in rank && RanksMatch(rank, l)
    requires Shifted(l, l', lo, hi, r)
    ensures var m := RankDown(rank[l[hi] := -1], l, lo, hi)[r := lo];
      RanksMatch(m, l') && m.Keys == rank.Keys
  {
    hide InsertAt, Without, RankDown;
    var m := RankDown(rank[l[hi] := -1], l, lo, hi)[r := lo];
    RankDownOk(rank[l[hi] := -1], l, lo, hi);
    ShiftedMembers(l, l', lo, hi, r);
    forall x ensures x in m <==> x in rank {
      assert x in l[lo..hi] ==> x in l;
    }
    forall i | 0 <= i < |l'| ensures l'[i] in m && m[l'[i]] == i {
      if i < lo || hi < i {
        assert l'[i] == l[i] && l[i] !in l[lo..hi];
      }
    }
    forall x | x in m && x !in l' ensures m[x] == -1 {
      assert x in l[lo..hi] ==> x in l;
    }
  }

  lemma GrownMembers(l: seq<nat>, l': seq<nat>, lo: nat, r: nat)
    requires lo <= |l| - 1 && Shifted(l, l', lo, |l| - 1, r)
    ensures l' == InsertAt(l[..|l| - 1], lo, r)
    ensures forall y :: y in l' <==> y == r || y in l[..|l| - 1]
  {
    InsertMembers(l[..|l| - 1], lo, r);
  }

  /** The last slot of l was free; those from lo on move down and r enters at lo. */
  lemma GrowRanks(rank: map<nat, int>, l: seq<nat>, l': seq<nat>, lo: nat, r: nat)
    requires l != [] && lo <= |l| - 1
    requires Distinct(l[..|l| - 1]) && r !in l[..|l| - 1] && r in rank && RanksMatch(rank, l[..|l| - 1])
    requires Shifted(l, l', lo, |l| - 1, r)
    ensures var m := RankDown(rank, l[..|l| - 1], lo, |l| - 1)[r := lo];
      RanksMatch(m, l') && m.Keys == rank.Keys
  {
    hide InsertAt, RankDown;
    var n := |l| - 1;
    var o := l[..n];
    var m := RankDown(rank, o, lo, n)[r := lo];
    RankDownOk(rank, o, lo, n);
    GrownMembers(l, l', lo, r);
    forall x ensures x in m <==> x in rank {
      assert x in o[lo..n] ==> x in o;
    }
    forall i | 0 <= i < |l'| ensures l'[i] in m && m[l'[i]] == i {
      if i < lo {
        assert l'[i] == o[i] && o[i] !in o[lo..n];
      } else if lo < i {
        assert l'[i] == o[i - 1];
      }
    }
    forall x | x in m && x !in l' ensures m[x] == -1 {
      assert x in o[lo..n] ==> x in o;
    }
  }

  /** Ranks after the RPCs at k+1..i have each moved up one slot. */
  ghost function RankUp(rank: map<nat, int>, l: seq<nat>, k: nat, i: nat): map<nat, int>
    requires i <= |l|
  {
    if i <= k + 1 then rank else RankUp(rank, l, k, i - 1)[l[i - 1] := i - 2]
  }

  lemma {:induction false} RankUpOk(rank: map<nat, int>, l: seq<nat>, k: nat, i: nat)
    requires k < i <= |l| && Distinct(l)
    ensures var m := RankUp(rank, l, k, i);
      && (forall j :: k < j < i ==> l[j] in m && m[l[j]] == j - 1)
      && (forall x :: x !in l[k + 1..i] ==> (x in m <==> x in rank) && (x in m ==> m[x] == rank[x]))
  {
    if k + 1 < i {
      RankUpOk(rank, l, k, i - 1);
      assert l[k + 1..i] == l[k + 1..i - 1] + [l[i - 1]];
    }
  }

  lemma {:induction false} RankUpPrefix(rank: map<nat, int>, l: seq<nat>, n: nat, k: nat, i: nat)
    requires i <= n <= |l|
    ensures RankUp(rank, l, k, i) == RankUp(rank, l[..n], k, i)
  {
    if k + 1 < i {
      RankUpPrefix(rank, l, n, k, i - 1);
    }
  }

  /** l' is l with the element at k taken out, stated element by element. */
  ghost predicate Closed(l: seq<nat>, l': seq<nat>, k: nat)
    requires k < |l|
  {
    && |l'| == |l| - 1
    && (forall j :: 0 <= j < k ==> l'[j] == l[j])
    && (forall j :: k <= j < |l'| ==> l'[j] == l[j + 1])
  }

  lemma ClosedWithout(l: seq<nat>, l': seq<nat>, k: nat)
    requires k < |l| && Closed(l, l', k)
    ensures l' == Without(l, k)
  {
  }

  /** The RPC at k leaves and those behind it move up. */
  lemma RemoveRanks(rank: map<nat, int>, l: seq<nat>, l': seq<nat>, k: nat)
    requires k < |l| && Distinct(l) && RanksMatch(rank, l) && Closed(l, l', k)
    ensures var m := RankUp(rank, l, k, |l|)[l[k] := -1];
      RanksMatch(m, l') && m.Keys == rank.Keys
  {
    hide RankUp, Without;
    var m := RankUp(rank, l, k, |l|)[l[k] := -1];
    RankUpOk(rank, l, k, |l|);
    ClosedWithout(l, l', k);
    WithoutMembers(l, k);
    forall x ensures x in m <==> x in rank {
      assert x in l[k + 1..] ==> x in l;
    }
    forall i | 0 <= i < |l'| ensures l'[i] in m && m[l'[i]] == i {
      if i < k {
        assert l'[i] == l[i] && l[i] !in l[k + 1..];
      }
    }
    forall x | x in m && x !in l' ensures m[x] == -1 {
      assert x in l[k + 1..] ==> x in l;
    }
  }

  lemma SwapRanks(rank: map<nat, int>, l: seq<nat>, j: nat)
    requires j + 1 < |l| && Distinct(l) && RanksMatch(rank, l)
    ensures var l' := l[j := l[j + 1]][j + 1 := l[j]];
      var m := rank[l[j] := j + 1][l[j + 1] := j];
      RanksMatch(m, l') && Distinct(l') && m.Keys == rank.Keys
  {
    var l' := l[j := l[j + 1]][j + 1 := l[j]];
    var m := rank[l[j] := j + 1][l[j + 1] := j];
    forall i | 0 <= i < |l'| ensures l'[i] in m && m[l'[i]] == i {}
    forall x | x in l ensures x in l' {
      var i :| 0 <= i < |l| && l[i] == x;
      assert l'[if i == j then j + 1 else if i == j + 1 then j else i] == x;
    }
  }

  function Bump(counts: map<nat, nat>, p: nat): map<nat, nat> {
    counts[p := CountIn(counts, p) + 1]
  }

  function Unbump(counts: map<nat, nat>, p: nat): map<nat, nat>
    requires CountIn(counts, p) > 0
  {
    counts[p := CountIn(counts, p) - 1]
  }

  lemma CountsWithout(msgs: map<nat, Msg>, counts: map<nat, nat>, l: seq<nat>, k: nat)
    requires CountsMatch(msgs, counts, l) && k < |l|
    ensures CountIn(counts, PeerOf(msgs, l[k])) > 0
    ensures CountsMatch(msgs, Unbump(counts, PeerOf(msgs, l[k])), Without(l, k))
  {
    hide Load, Without;
    LoadWithout(msgs, l, k, PeerOf(msgs, l[k]));
    var counts' := Unbump(counts, PeerOf(msgs, l[k]));
    forall p ensures CountIn(counts', p) == Load(msgs, Without(l, k), p) {
      LoadWithout(msgs, l, k, p);
      assert CountIn(counts, p) == Load(msgs, l, p);
    }
  }

  lemma CountsInsert(msgs: map<nat, Msg>, counts: map<nat, nat>, l: seq<nat>, k: nat, r: nat)
    requires CountsMatch(msgs, counts, l) && k <= |l|
    ensures CountsMatch(msgs, Bump(counts, PeerOf(msgs, r)), InsertAt(l, k, r))
  {
    hide Load, InsertAt;
    var counts' := Bump(counts, PeerOf(msgs, r));
    forall p ensures CountIn(counts', p) == Load(msgs, InsertAt(l, k, r), p) {
      LoadInsert(msgs, l, k, r, p);
      assert CountIn(counts, p) == Load(msgs, l, p);
    }
  }

  lemma {:induction false} RankDownPrefix(rank: map<nat, int>, l: seq<nat>, n: nat, lo: nat, hi: nat)
    requires hi <= n <= |l|
    ensures RankDown(rank, l, lo, hi) == RankDown(rank, l[..n], lo, hi)
    decreases hi - lo
  {
    if lo < hi {
      RankDownPrefix(rank, l, n, lo + 1, hi);
    }
  }

  lemma PeersDistinct(c: Config, msgs: map<nat, Msg>, q: Queues)
    requires QInv(c, msgs, q)
    ensures Distinct(q.peers)
  {
  }

  lemma HeadNotActive(c: Config, msgs: map<nat, Msg>, q: Queues, p: nat)
    requires QInv(c, msgs, q) && Wait(q, p) != []
    ensures var o := Wait(q, p)[0]; o in msgs && o !in q.active && PeerOf(msgs, o) == p && o in Wait(q, p)
  {
    assert ListOk(msgs, q, p) && Wait(q, p)[0] in Wait(q, p);
  }

  lemma RankTells(rank: map<nat, int>, l: seq<nat>, r: nat)
    requires RanksMatch(rank, l) && r in rank
    ensures rank[r] >= 0 <==> r in l
    ensures rank[r] >= 0 ==> rank[r] < |l| && l[rank[r]] == r
    ensures -1 <= rank[r]
  {
    if r in l {
      var i :| 0 <= i < |l| && l[i] == r;
    }
  }

  lemma InsertGrantableActive(msgs: map<nat, Msg>, q: Queues, r: nat)
    ensures InsertGrantable(msgs, q, r).active == q.active
  {
  }

  /** Counts depend only on the messages in active_rpcs. */
  lemma CountsSame(msgs: map<nat, Msg>, msgs': map<nat, Msg>, counts: map<nat, nat>, l: seq<nat>)
    requires CountsMatch(msgs, counts, l) && forall x :: x in l ==> x in msgs && x in msgs' && msgs'[x] == msgs[x]
    ensures CountsMatch(msgs', counts, l)
  {
    hide Load;
    forall p ensures CountIn(counts, p) == Load(msgs', l, p) {
      LoadSamePeers(msgs, msgs', l, p);
      assert CountIn(counts, p) == Load(msgs, l, p);
    }
  }

  /** An RPC that starts has rank -1. */
  lemma RanksAdd(rank: map<nat, int>, l: seq<nat>, r: nat)
    requires RanksMatch(rank, l) && r !in rank
    ensures RanksMatch(rank[r := -1], l) && r !in l
  {
  }

  lemma RanksDrop(rank: map<nat, int>, l: seq<nat>, r: nat)
    requires RanksMatch(rank, l) && r !in l
    ensures RanksMatch(rank - {r}, l)
  {
  }

  /** Counts do not change when a message's own numbers do. */
  lemma CountsFrame(msgs: map<nat, Msg>, counts: map<nat, nat>, l: seq<nat>, r: nat, m: Msg)
    requires CountsMatch(msgs, counts, l) && r in msgs && m.peer == msgs[r].peer
    ensures CountsMatch(msgs[r := m], counts, l)
  {
    forall p ensures CountIn(counts, p) == Load(msgs[r := m], l, p) {
      LoadSamePeers(msgs, msgs[r := m], l, p);
      assert CountIn(counts, p) == Load(msgs, l, p);
    }
  }

  /** Counts do not depend on the order of active_rpcs. */
  lemma CountsMoveUp(msgs: map<nat, Msg>, counts: map<nat, nat>, l: seq<nat>, i: nat)
    requires CountsMatch(msgs, counts, l) && i < |l|
    ensures CountsMatch(msgs, counts, MoveUp(msgs, l, i).0)
  {
    hide MoveUp, InsertAt, Load;
    forall p ensures CountIn(counts, p) == Load(msgs, MoveUp(msgs, l, i).0, p) {
      LoadWithout(msgs, l, i, p);
      LoadInsert(msgs, Without(l, i), MoveUp(msgs, l, i).1, l[i], p);
      assert CountIn(counts, p) == Load(msgs, l, p);
    }
  }

  /** A waiting RPC whose priority just rose can be taken out of its list. */
  lemma RemoveRaised(c: Config, msgs: map<nat, Msg>, msgs': map<nat, Msg>, q: Queues, r: nat)
    requires QInv(c, msgs, q) && Raised(msgs, msgs', r) && r in Wait(q, PeerOf(msgs', r))
    requires r !in q.active
    ensures var q1 := RemoveGrantable(msgs', q, r);
      QInv(c, msgs', q1) && q1.active == q.active && !Managed(msgs', q1, r)
  {
    hide Sorted, Distinct, Load, RemoveGrantable, WaitingOk, PeersOk;
    RemoveGrantableOk(msgs, msgs', q, r);
    LoadsFrame(c, msgs, msgs', q, r);
  }

  /** The queues stay good when an active RPC's own numbers change. */
  lemma ActiveChanged(c: Config, msgs: map<nat, Msg>, msgs': map<nat, Msg>, q: Queues, r: nat)
    requires QInv(c, msgs, q) && SameButFor(msgs, msgs', r) && r in q.active
    ensures QInv(c, msgs', q)
  {
    hide PeersOk;
    ActiveNotWaiting(msgs, q, r);
    MsgFrame(c, msgs, msgs', q, r);
  }
}
