/** homa_grant.c as it works in place: struct homa_grant and the procedures that update it. */
module GrantManager {
  import opened Basics
  import opened RankedLists
  import opened GrantQueues
  import opened GrantQueueProofs
  import opened GrantRanks
  import opened GrantSched
  import opened GrantRuns

  class Grant {
    const c: Config
    const active: array<nat>
    var numActive: nat
    var rank: map<nat, int>
    var peerActive: map<nat, nat>
    var waiting: map<nat, seq<nat>>
    var peers: seq<nat>
    var msgs: map<nat, Msg>
    var window: nat
    var total: int
    var numGrantable: int
    var oldest: Option<nat>
    var stalled: nat

    ghost function Active(): seq<nat>
      reads `numActive, active
    {
      if numActive <= active.Length then active[..numActive] else []
    }

    ghost function Lists(): Queues
      reads `numActive, active, `waiting, `peers
    {
      Queues(Active(), waiting, peers)
    }

    ghost function Abs(): Sched
      reads `numActive, active, `waiting, `peers, `msgs, `window, `total, `numGrantable, `oldest, `stalled
    {
      Sched(msgs, Lists(), window, total, numGrantable, oldest, stalled)
    }

    /** The redundant fields agree with active_rpcs. */
    ghost predicate Linked()
      reads `numActive, active, `rank, `peerActive, `msgs
    {
      && ValidConfig(c) && active.Length == MAX_GRANTS && numActive <= c.maxOvercommit
      && Distinct(Active()) && rank.Keys == msgs.Keys
      && RanksMatch(rank, Active()) && CountsMatch(msgs, peerActive, Active())
    }

    ghost predicate Valid()
      reads `numActive, active, `rank, `peerActive, `waiting, `peers, `msgs
      reads `window, `total, `numGrantable, `oldest, `stalled
    {
      Linked() && Inv(c, Abs())
    }

    /** homa_grant_alloc: no RPC needs grants yet. */
    constructor (c: Config)
      requires ValidConfig(c)
      ensures this.c == c && Valid() && Abs() == Init(c) && fresh(active)
    {
      this.c := c;
      active := new nat[MAX_GRANTS];
      numActive, rank, peerActive, waiting, peers, msgs := 0, map[], map[], map[], [], map[];
      window, total, numGrantable, oldest, stalled := WindowSize(c, 0), 0, 0, None, INT_MAX;
      new;
      InitOk(c);
    }

    /** Both scans of homa_grant_insert_active, done in one backward loop. */
    method FindSlot(r: nat) returns (a: int, k: int)
      requires numActive <= active.Length
      ensures a == InsertAfter(msgs, Active(), r)
      ensures k == LastOfPeer(msgs, Active(), a, PeerOf(msgs, r))
    {
      hide Better, InsertAfter, LastOfPeer, PeerOf;
      ghost var l := Active();
      var p := PeerOf(msgs, r);
      a := numActive - 1;
      k := -1;
      while a >= 0 && Better(msgs, r, active[a])
        invariant -1 <= a < numActive
        invariant forall j :: a < j < numActive ==> Better(msgs, r, l[j])
        invariant k == -1 || (a < k < numActive && PeerOf(msgs, l[k]) == p)
        invariant forall j :: a < j < numActive && j > k ==> PeerOf(msgs, l[j]) != p
      {
        if k < 0 && PeerOf(msgs, active[a]) == p {
          k := a;
        }
        a := a - 1;
      }
      SlotUnique(msgs, l, r, a, k);
    }

    /** Move active_rpcs[lo..hi) down one slot, overwriting slot hi, and put r at lo. */
    method ShiftIn(lo: nat, hi: nat, r: nat)
      requires lo <= hi < active.Length
      modifies active, `rank
      ensures Shifted(old(active[..]), active[..], lo, hi, r)
      ensures rank == RankDown(old(rank), old(active[..]), lo, hi)[r := lo]
    {
      ghost var l := active[..];
      var i := hi;
      while i > lo
        invariant lo <= i <= hi && rank == RankDown(old(rank), l, i, hi)
        invariant forall k :: 0 <= k < i || hi < k < active.Length ==> active[k] == l[k]
        invariant forall k :: i < k <= hi ==> active[k] == l[k - 1]
      {
        active[i], rank := active[i - 1], rank[active[i - 1] := i];
        i := i - 1;
      }
      active[lo], rank := r, rank[r := lo];
    }

    /** Take the RPC at hi out of active_rpcs and put r in at lo. */
    method Displace(lo: nat, hi: nat, r: nat) returns (out: nat)
      requires Linked() && r in rank && r !in Active() && lo <= hi < numActive
      modifies active, `rank, `peerActive
      ensures Linked() && out == old(Active())[hi]
      ensures Active() == InsertAt(Without(old(Active()), hi), lo, r)
    {
      hide Distinct, RanksMatch, Load, RankDown, Shifted, CountsMatch;
      ghost var l, l0, m := Active(), active[..], rank;
      out := active[hi];
      CountsWithout(msgs, peerActive, l, hi);
      rank := rank[out := -1];
      peerActive := Unbump(peerActive, PeerOf(msgs, out));
      ShiftIn(lo, hi, r);
      CountsInsert(msgs, peerActive, Without(l, hi), lo, r);
      peerActive := Bump(peerActive, PeerOf(msgs, r));
      ShiftedPrefix(l0, active[..], numActive, lo, hi, r);
      RankDownPrefix(m[out := -1], l0, numActive, lo, hi);
      ShiftedExchange(l, Active(), lo, hi, r);
      ExchangeRanks(m, l, Active(), lo, hi, r);
      WithoutMembers(l, hi);
      InsertMembers(Without(l, hi), lo, r);
    }

    /** Put r into active_rpcs at lo; there is room. */
    method Extend(lo: nat, r: nat)
      requires Linked() && r in rank && r !in Active() && lo <= numActive < c.maxOvercommit
      modifies active, `rank, `peerActive, `numActive
      ensures Linked() && Active() == InsertAt(old(Active()), lo, r)
    {
      hide Distinct, RanksMatch, Load, RankDown, Shifted, CountsMatch;
      ghost var l, l0, m := Active(), active[..], rank;
      var n := numActive;
      numActive := numActive + 1;
      ShiftIn(lo, n, r);
      CountsInsert(msgs, peerActive, l, lo, r);
      peerActive := Bump(peerActive, PeerOf(msgs, r));
      ShiftedPrefix(l0, active[..], n + 1, lo, n, r);
      RankDownPrefix(m, l0, n, lo, n);
      assert l0[..n + 1][..n] == l;
      GrownMembers(l0[..n + 1], Active(), lo, r);
      GrowRanks(m, l0[..n + 1], Active(), lo, r);
      InsertMembers(l, lo, r);
    }

    /** homa_grant_insert_active: put r where its priority belongs; say which RPC must wait instead. */
    method InsertActive(r: nat) returns (bumped: Option<nat>)
      requires Linked() && r in rank && r !in Active()
      modifies active, `rank, `numActive, `peerActive
      ensures Linked()
      ensures (Active(), bumped) == GrantQueues.InsertActive(c, msgs, old(Active()), r)
    {
      hide Distinct, RanksMatch, Load, Better, InsertAfter, LastOfPeer, InsertAt, Without;
      var a, k := FindSlot(r);
      assert CountIn(peerActive, PeerOf(msgs, r)) == Load(msgs, Active(), PeerOf(msgs, r));
      if CountIn(peerActive, PeerOf(msgs, r)) >= c.maxPerPeer {
        if k <= a {
          bumped := Some(r);
        } else {
          var out := Displace(a + 1, k, r);
          bumped := Some(out);
        }
      } else if a >= c.maxOvercommit - 1 {
        bumped := Some(r);
      } else if numActive >= c.maxOvercommit {
        var out := Displace(a + 1, numActive - 1, r);
        bumped := Some(out);
      } else {
        Extend(a + 1, r);
        bumped := None;
      }
    }

    /** homa_grant_adjust_peer: re-establish p's position in grantable_peers. */
    method AdjustPeer(p: nat)
      requires Distinct(peers)
      modifies `peers
      ensures Lists() == GrantQueues.AdjustPeer(msgs, old(Lists()), p)
    {
      hide Better, MoveUp, MoveDown, Place, Distinct, IndexOf;
      ghost var q := Lists();
      var heads := Heads(msgs, Queues([], waiting, []));
      assert heads == Heads(msgs, q);
      if p !in waiting || waiting[p] == [] {
        if p in peers {
          peers := Without(peers, IndexOf(peers, p));
        }
      } else if p !in peers {
        var i := 0;
        while i < |peers| && !Better(heads, p, peers[i])
          invariant 0 <= i <= |peers|
          invariant forall j :: 0 <= j < i ==> !Better(heads, p, peers[j])
        {
          i := i + 1;
        }
        PlaceUnique(heads, peers, p, i);
        peers := InsertAt(peers, i, p);
      } else {
        var i := IndexOf(peers, p);
        i := Raise(heads, i);
        Lower(heads, i);
      }
    }

    /** The first loop of homa_grant_adjust_peer: swap upward while the peer's head outranks its predecessor's. */
    method Raise(heads: map<nat, Msg>, i0: nat) returns (i: nat)
      requires i0 < |peers|
      modifies `peers
      ensures (peers, i) == MoveUp(heads, old(peers), i0)
    {
      hide Better, InsertAt, Without;
      i := i0;
      while i > 0 && Better(heads, peers[i], peers[i - 1])
        invariant i < |peers| && MoveUp(heads, peers, i) == MoveUp(heads, old(peers), i0)
      {
        peers := peers[i - 1 := peers[i]][i := peers[i - 1]];
        i := i - 1;
      }
    }

    /** The second loop of homa_grant_adjust_peer: swap downward while the successor's head outranks the peer's. */
    method Lower(heads: map<nat, Msg>, i0: nat)
      requires i0 < |peers|
      modifies `peers
      ensures peers == MoveDown(heads, old(peers), i0).0
    {
      hide Better, InsertAt, Without;
      var i: nat := i0;
      while i + 1 < |peers| && Better(heads, peers[i + 1], peers[i])
        invariant i < |peers| && MoveDown(heads, peers, i) == MoveDown(heads, old(peers), i0)
      {
        peers := peers[i + 1 := peers[i]][i := peers[i + 1]];
        i := i + 1;
      }
    }

    /** homa_grant_insert_grantable: add r to its peer's list and reposition the peer. */
    method InsertGrantable(r: nat)
      requires Distinct(peers)
      modifies `waiting, `peers
      ensures Lists() == GrantQueues.InsertGrantable(msgs, old(Lists()), r)
    {
      hide Better, Place, GrantQueues.AdjustPeer, Distinct;
      var p := PeerOf(msgs, r);
      var l := if p in waiting then waiting[p] else [];
      var i := 0;
      while i < |l| && !Better(msgs, r, l[i])
        invariant 0 <= i <= |l|
        invariant forall j :: 0 <= j < i ==> !Better(msgs, r, l[j])
      {
        i := i + 1;
      }
      PlaceUnique(msgs, l, r, i);
      waiting := waiting[p := InsertAt(l, i, r)];
      AdjustPeer(p);
    }

    /** homa_grant_remove_grantable: unlink r; only the loss of a head can move the peer. */
    method RemoveGrantable(r: nat)
      requires Distinct(peers)
      modifies `waiting, `peers
      ensures Lists() == GrantQueues.RemoveGrantable(msgs, old(Lists()), r)
    {
      hide GrantQueues.AdjustPeer, Distinct, IndexOf;
      var p := PeerOf(msgs, r);
      if p in waiting && r in waiting[p] {
        var k := IndexOf(waiting[p], r);
        waiting := waiting[p := Without(waiting[p], k)];
        if k == 0 {
          AdjustPeer(p);
        }
      }
    }

    /** The shifting loop of homa_grant_remove_active. */
    method ShiftOut(k: nat)
      requires k < numActive <= active.Length
      modifies active, `rank, `numActive
      ensures numActive == old(numActive) - 1
      ensures Closed(old(active[..numActive]), active[..numActive], k)
      ensures rank == RankUp(old(rank), old(active[..]), k, old(numActive))[old(active[k]) := -1]
    {
      ghost var l := active[..];
      var r := active[k];
      var i := k + 1;
      while i < numActive
        invariant k < i <= numActive == old(numActive) && rank == RankUp(old(rank), l, k, i)
        invariant forall j :: 0 <= j < k || i <= j < active.Length ==> active[j] == l[j]
        invariant forall j :: k <= j < i - 1 ==> active[j] == l[j + 1]
      {
        active[i - 1], rank := active[i], rank[active[i] := i - 1];
        i := i + 1;
      }
      rank := rank[r := -1];
      numActive := numActive - 1;
    }

    /** Take r out of active_rpcs, with its rank and its peer's count. */
    method DropActive(r: nat)
      requires Linked() && r in Active() && r in rank
      modifies active, `rank, `numActive, `peerActive
      ensures Linked() && Active() == Without(old(Active()), IndexOf(old(Active()), r))
    {
      hide Distinct, Load, RankUp, CountsMatch, IndexOf, Without, Closed;
      ghost var l, l0, m := Active(), active[..], rank;
      ghost var i :| 0 <= i < |l| && l[i] == r;
      var k := rank[r];
      assert k == i;
      IndexUnique(l, r, k);
      CountsWithout(msgs, peerActive, l, k);
      WithoutMembers(l, k);
      ShiftOut(k);
      peerActive := Unbump(peerActive, PeerOf(msgs, r));
      RankUpPrefix(m, l0, |l|, k, |l|);
      ClosedWithout(l, Active(), k);
      RemoveRanks(m, l, Active(), k);
    }

    /** The loop of homa_grant_remove_active that promotes a waiting RPC whose peer has room. */
    method Refill() returns (other: Option<nat>)
      requires Linked() && QInv(c, msgs, Lists()) && numActive < c.maxOvercommit
      modifies active, `rank, `numActive, `peerActive, `waiting, `peers
      ensures Linked() && (Lists(), other) == GrantQueues.Refill(c, msgs, old(Lists()))
    {
      hide Distinct, Load, RanksMatch, QInv, GrantQueues.RemoveGrantable, FirstWithRoom;
      ghost var q := Lists();
      PeersDistinct(c, msgs, q);
      var i := 0;
      while i < |peers| && CountIn(peerActive, peers[i]) >= c.maxPerPeer
        invariant 0 <= i <= |peers|
        invariant forall j :: 0 <= j < i ==> Load(msgs, q.active, peers[j]) >= c.maxPerPeer
      {
        assert CountIn(peerActive, peers[i]) == Load(msgs, q.active, peers[i]);
        i := i + 1;
      }
      assert i < |peers| ==> CountIn(peerActive, peers[i]) == Load(msgs, q.active, peers[i]);
      RoomUnique(c, msgs, q.active, q.peers, i);
      other := None;
      if i < |peers| && peers[i] in waiting && waiting[peers[i]] != [] {
        var o := waiting[peers[i]][0];
        HeadNotActive(c, msgs, q, peers[i]);
        RemoveGrantable(o);
        RemoveGrantableLists(msgs, q, o);
        Extend(numActive, o);
        assert InsertAt(q.active, |q.active|, o) == q.active + [o];
        other := Some(o);
      }
    }

    /** homa_grant_remove_active: drop r and pull the best waiting RPC whose peer has room. */
    method RemoveActive(r: nat) returns (other: Option<nat>)
      requires Linked() && QInv(c, msgs, Lists()) && r in Active() && r in msgs
      modifies active, `rank, `numActive, `peerActive, `waiting, `peers
      ensures Linked() && (Lists(), other) == GrantQueues.RemoveActive(c, msgs, old(Lists()), r)
    {
      hide Distinct, Load, RanksMatch, CountsMatch, QInv, IndexOf, Without, GrantQueues.Refill;
      DropActiveOk(c, msgs, Lists(), r);
      DropActive(r);
      other := Refill();
    }

    /** Take r out of whichever list it is in. */
    method Expel(ghost before: map<nat, Msg>, r: nat) returns (other: Option<nat>, removed: bool)
      requires Linked() && QInv(c, before, Lists()) && SameButFor(before, msgs, r)
      modifies active, `rank, `numActive, `peerActive, `waiting, `peers
      ensures Linked() && (Lists(), other) == GrantQueues.Expel(c, msgs, old(Lists()), r)
      ensures removed == Managed(msgs, old(Lists()), r)
    {
      hide Distinct, RanksMatch, CountsMatch, QInv, GrantQueues.AdjustPeer, GrantQueues.RemoveActive;
      PeersDistinct(c, before, Lists());
      RankTells(rank, Active(), r);
      other, removed := None, false;
      if rank[r] >= 0 {
        ActiveChanged(c, before, msgs, Lists(), r);
        other := RemoveActive(r);
        removed := true;
      } else if PeerOf(msgs, r) in waiting && r in waiting[PeerOf(msgs, r)] {
        RemoveGrantable(r);
        removed := true;
      }
    }

    /** homa_grant_unmanage_rpc: r needs no more grants; reports the RPC promoted in its place. */
    method UnmanageRpc(ghost before: map<nat, Msg>, r: nat) returns (other: Option<nat>)
      requires Linked() && QInv(c, before, Lists()) && SameButFor(before, msgs, r)
      modifies active, `rank, `numActive, `peerActive, `waiting, `peers, `numGrantable, `window, `oldest
      ensures Linked() && (Abs(), other) == Unmanage(c, old(Abs()), r)
    {
      hide Distinct, RanksMatch, CountsMatch, QInv, GrantQueues.Expel, Managed, SameButFor;
      var removed;
      other, removed := Expel(before, r);
      if removed {
        numGrantable := numGrantable - 1;
        window := WindowSize(c, numActive);
      } else {
        ExpelAbsent(c, msgs, old(Lists()), r);
      }
      if oldest == Some(r) {
        oldest := None;
      }
    }

    /** Insert r and put whatever it displaced back among the waiting RPCs. */
    method Admit(r: nat)
      requires Linked() && QInv(c, msgs, Lists()) && r in msgs && !Managed(msgs, Lists(), r)
      modifies active, `rank, `numActive, `peerActive, `waiting, `peers
      ensures Linked() && Lists() == GrantQueues.Admit(c, msgs, old(Lists()), r)
    {
      hide Distinct, RanksMatch, CountsMatch, QInv, GrantQueues.InsertActive, GrantQueues.InsertGrantable;
      PeersDistinct(c, msgs, Lists());
      ghost var q := Lists();
      var bumped := InsertActive(r);
      ghost var q1 := Lists();
      assert q1 == q.(active := GrantQueues.InsertActive(c, msgs, q.active, r).0);
      if bumped.Some? {
        InsertGrantable(bumped.value);
        InsertGrantableActive(msgs, q1, bumped.value);
      }
    }

    /** homa_grant_manage_rpc: start granting to r. Managing an RPC twice is a BUG_ON. */
    method ManageRpc(r: nat)
      requires Valid() && r in msgs && !Managed(msgs, Lists(), r) && msgs[r].granted < msgs[r].length
      modifies active, `rank, `numActive, `peerActive, `waiting, `peers, `numGrantable, `window
      ensures Valid() && Abs() == Manage(c, old(Abs()), r)
    {
      hide Distinct, RanksMatch, CountsMatch, QInv, Conserving, MsgsOk, BudgetOk;
      hide GrantQueues.Admit, Managed, ManagedSet;
      ManageOk(c, Abs(), r);
      numGrantable := numGrantable + 1;
      Admit(r);
      window := WindowSize(c, numActive);
    }

    /** homa_grant_update_incoming. */
    method UpdateIncoming(r: nat)
      requires Linked() && r in msgs
      modifies `msgs, `total
      ensures Linked() && Abs() == GrantSched.UpdateIncoming(old(Abs()), r)
    {
      hide Distinct, RanksMatch, CountsMatch;
      var incoming: int := msgs[r].granted - msgs[r].received;
      if incoming < 0 {
        incoming := 0;
      }
      var delta := incoming - msgs[r].recIncoming;
      if delta != 0 {
        total := total + delta;
      }
      CountsFrame(msgs, peerActive, Active(), r, msgs[r].(recIncoming := incoming, recorded := true));
      msgs := msgs[r := msgs[r].(recIncoming := incoming, recorded := true)];
    }

    /** homa_grant_update_granted; true means a GRANT packet must be sent. */
    method UpdateGranted(r: nat) returns (grew: bool)
      requires Linked() && r in msgs && MsgOk(msgs[r])
      modifies `msgs, `stalled
      ensures Linked() && (Abs(), grew) == GrantSched.UpdateGranted(c, old(Abs()), r)
    {
      hide Distinct, RanksMatch, CountsMatch, IndexOf;
      RankTells(rank, Active(), r);
      var m, k := msgs[r], rank[r];
      grew := false;
      if !m.silent && k >= 0 && m.granted < m.length {
        IndexUnique(Active(), r, k);
        var offset := m.received + window;
        if offset > m.length {
          offset := m.length;
        }
        var delta := offset - m.received - m.recIncoming;
        var available := c.maxIncoming - total;
        if available < delta {
          if k < stalled {
            stalled := k;
          }
          offset := offset - (delta - available);
        }
        if offset > m.granted {
          CountsFrame(msgs, peerActive, Active(), r, m.(granted := offset));
          msgs := msgs[r := m.(granted := offset)];
          grew := true;
        }
      }
    }

    /** The inner loop of homa_grant_fix_order: bubble the RPC at i up to where it belongs. */
    method BubbleUp(i: nat) returns (j: nat)
      requires Linked() && i < numActive
      modifies active, `rank
      ensures Linked() && (Active(), j) == MoveUp(msgs, old(Active()), i)
    {
      hide Distinct, RanksMatch, CountsMatch, Load, Better, InsertAt, Without;
      ghost var l := Active();
      j := i;
      while j > 0 && Better(msgs, active[j], active[j - 1])
        invariant j < numActive <= active.Length && rank.Keys == old(rank.Keys)
        invariant Distinct(Active()) && RanksMatch(rank, Active())
        invariant MoveUp(msgs, Active(), j) == MoveUp(msgs, l, i)
      {
        ghost var l1 := Active();
        SwapRanks(rank, l1, j - 1);
        rank := rank[active[j - 1] := j][active[j] := j - 1];
        active[j - 1], active[j] := active[j], active[j - 1];
        j := j - 1;
        assert Active() == l1[j := l1[j + 1]][j + 1 := l1[j]];
      }
      CountsMoveUp(msgs, peerActive, l, i);
    }

    /** homa_grant_fix_order: sort active_rpcs; the best rank that improved, or INT_MAX. */
    method FixOrder() returns (best: nat)
      requires Linked()
      modifies active, `rank
      ensures Linked() && (Active(), best) == GrantSched.FixOrder(msgs, old(Active()))
    {
      hide Distinct, RanksMatch, CountsMatch, MoveUp, InsertAt, Without, Better;
      ghost var l := Active();
      best := INT_MAX;
      var i := 1;
      while i < numActive
        invariant 1 <= i && Linked()
        invariant FixOrderFrom(msgs, Active(), i, best) == FixOrderFrom(msgs, l, 1, INT_MAX)
      {
        var j := BubbleUp(i);
        if j < i && j < best {
          best := j;
        }
        i := i + 1;
      }
    }

    /** homa_grant_promote_rpc: r's priority rose; move it up, perhaps into active_rpcs. */
    method PromoteRpc(ghost before: map<nat, Msg>, r: nat)
      requires Linked() && QInv(c, before, Lists()) && Conserving(c, before, Lists()) && Raised(before, msgs, r)
      requires Managed(before, Lists(), r)
      modifies active, `rank, `numActive, `peerActive, `waiting, `peers
      ensures Linked() && Lists() == Promote(c, msgs, old(Lists()), r)
    {
      hide Distinct, RanksMatch, CountsMatch, QInv, Conserving, Better, MoveUp, IndexOf;
      hide GrantQueues.Admit, GrantQueues.AdjustPeer, GrantQueues.RemoveGrantable;
      ghost var q := Lists();
      PeersDistinct(c, before, q);
      RankTells(rank, Active(), r);
      if rank[r] >= 0 {
        return;
      }
      var p := PeerOf(msgs, r);
      if numActive < c.maxOvercommit || Better(msgs, r, active[numActive - 1]) {
        RemoveRaised(c, before, msgs, q, r);
        RemoveGrantable(r);
        Admit(r);
      } else {
        var k := ClimbList(p, IndexOf(waiting[p], r));
        if k == 0 {
          AdjustPeer(p);
          AdjustPeerFrame(msgs, SetList(q, p, waiting[p]), p);
        }
      }
    }

    /** The last loop of homa_grant_promote_rpc: move an RPC up within its peer's list. */
    method ClimbList(p: nat, i0: nat) returns (i: nat)
      requires p in waiting && i0 < |waiting[p]|
      modifies `waiting
      ensures waiting == old(waiting)[p := MoveUp(msgs, old(waiting)[p], i0).0]
      ensures i == MoveUp(msgs, old(waiting)[p], i0).1
    {
      hide Better, InsertAt, Without;
      i := i0;
      var l := waiting[p];
      while i > 0 && Better(msgs, l[i], l[i - 1])
        invariant i < |l| && MoveUp(msgs, l, i) == MoveUp(msgs, old(waiting)[p], i0)
      {
        l := l[i - 1 := l[i]][i := l[i - 1]];
        i := i - 1;
      }
      waiting := waiting[p := l];
    }

    /** homa_grant_find_oldest: scan waiting lists, then active_rpcs but for its first entry. */
    method FindOldest()
      requires numActive <= active.Length
      modifies `oldest
      ensures Abs() == GrantSched.FindOldest(c, old(Abs()))
    {
      hide Eligible;
      ghost var s := Abs();
      ghost var goal := OldestOf(c, s, FifoOrder(s.q, peers), None);
      var best: Option<nat> := None;
      var i := 0;
      while i < |peers|
        invariant 0 <= i <= |peers|
        invariant OldestOf(c, s, FifoOrder(s.q, peers[i..]), best) == goal
      {
        var l := if peers[i] in waiting then waiting[peers[i]] else [];
        ghost var rest := FifoOrder(s.q, peers[i + 1..]);
        assert peers[i..][1..] == peers[i + 1..] && l + rest == FifoOrder(s.q, peers[i..]);
        best := ScanOldest(l, best, rest, s);
        i := i + 1;
      }
      assert peers[i..] == [];
      var tail := if numActive == 0 then [] else active[1..numActive];
      assert tail + [] == tail == FifoOrder(s.q, []);
      best := ScanOldest(tail, best, [], s);
      oldest := best;
    }

    /** One list of the scan: keep the oldest eligible RPC seen so far. */
    method ScanOldest(l: seq<nat>, best0: Option<nat>, ghost rest: seq<nat>, ghost s: Sched) returns (best: Option<nat>)
      requires s.msgs == msgs && s.window == window
      ensures OldestOf(c, s, rest, best) == OldestOf(c, s, l + rest, best0)
    {
      best := best0;
      var j := 0;
      assert l[j..] + rest == l + rest;
      while j < |l|
        invariant 0 <= j <= |l|
        invariant OldestOf(c, s, l[j..] + rest, best) == OldestOf(c, s, l + rest, best0)
      {
        var m := Key(msgs, l[j]);
        assert (l[j..] + rest)[1..] == l[j + 1..] + rest;
        if (best.None? || m.birth < Key(msgs, best.value).birth) && m.recIncoming < window + 2 * c.fifoIncrement {
          best := Some(l[j]);
        }
        j := j + 1;
      }
      assert l[j..] + rest == rest;
    }

    lemma LinkedConfig()
      requires Linked()
      ensures ValidConfig(c)
    {
    }

    lemma AbsParts()
      ensures Abs().msgs == msgs && Abs().q == Lists() && Lists().active == Active()
    {
    }

    /** Grow r's grant if the window and the byte budget allow, and stop managing r once it has all it needs. */
    method GrantOne(r: nat) returns (grew: bool, promoted: Option<nat>)
      requires Valid() && r in msgs
      modifies this, active
      ensures Valid() && (Abs(), promoted) == WindowGrant(c, old(Abs()), r)
    {
      hide Linked, Abs, Active, Lists, QInv, Conserving, MsgsOk, BudgetOk, Managed, ManagedSet, Unmanage;
      hide GrantSched.UpdateGranted, GrantSched.UpdateIncoming;
      ghost var s := Abs();
      AbsParts();
      WindowGrantOk(c, s, r);
      EachMsgOk(c, s, r);
      grew := UpdateGranted(r);
      AbsParts();
      promoted := None;
      if grew {
        GrowOk(c, s, r);
        UpdateIncoming(r);
        AbsParts();
        if msgs[r].granted >= msgs[r].length {
          promoted := UnmanageRpc(msgs, r);
        }
      }
    }

    /** The granting part of homa_grant_check_fifo. */
    method GrantFifo(r: nat) returns (promoted: Option<nat>)
      requires Valid() && r in msgs && (Managed(msgs, Lists(), r) || msgs[r].granted == msgs[r].length)
      modifies this, active
      ensures Valid() && (Abs(), promoted) == FifoGrant(c, old(Abs()), r)
    {
      hide Linked, Active, Lists, QInv, Conserving, MsgsOk, BudgetOk, Managed, ManagedSet, Unmanage;
      hide GrantSched.UpdateIncoming, Promote;
      ghost var s := Abs();
      LinkedConfig();
      GrantFifoOk(c, s, r);
      ghost var before := msgs;
      RaiseMsg(r);
      promoted := None;
      if msgs[r].granted >= msgs[r].length {
        promoted := UnmanageRpc(before, r);
      } else {
        PromoteRpc(before, r);
      }
      UpdateIncoming(r);
    }

    /** Add fifo_grant_increment to r's grant, but never go beyond the message. */
    method RaiseMsg(r: nat)
      requires Linked() && r in msgs
      modifies `msgs
      ensures Linked() && msgs == old(msgs)[r := FifoRaised(c, old(msgs)[r])]
    {
      hide Distinct, RanksMatch, CountsMatch;
      CountsFrame(msgs, peerActive, Active(), r, FifoRaised(c, msgs[r]));
      msgs := msgs[r := FifoRaised(c, msgs[r])];
    }

    // ---- RPCs come and go ----

    /** homa_grant_init_rpc, up to managing the RPC: the unscheduled bytes are granted, the rank is -1. */
    method InitRpc(r: nat, peer: nat, length: nat, birth: nat, unsched: nat)
      requires Valid()
      modifies `msgs, `rank
      ensures Valid() && Abs() == Apply(c, old(Abs()), Op.Arrive(r, peer, length, birth, unsched))
    {
      hide Distinct, RanksMatch, CountsMatch, Inv;
      ApplyOk(c, Abs(), Op.Arrive(r, peer, length, birth, unsched));
      if r !in msgs {
        RanksAdd(rank, Active(), r);
        KnownRanks(rank, Active());
        var m := NewMsg(peer, length, birth, unsched);
        CountsSame(msgs, msgs[r := m], peerActive, Active());
        msgs, rank := msgs[r := m], rank[r := -1];
      }
    }

    /** Change the numbers of one message. */
    method SetNumbers(r: nat, m: Msg)
      requires Linked() && r in msgs && m.peer == msgs[r].peer
      modifies `msgs
      ensures Linked() && msgs == old(msgs)[r := m]
    {
      hide Distinct, RanksMatch, CountsMatch;
      CountsFrame(msgs, peerActive, Active(), r, m);
      msgs := msgs[r := m];
    }

    /** Data of r arrives. */
    method ReceiveBytes(r: nat, bytes: nat)
      requires Valid()
      modifies `msgs
      ensures Valid() && Abs() == Apply(c, old(Abs()), Receive(r, bytes))
    {
      hide Linked, Inv;
      LinkedConfig();
      ApplyOk(c, Abs(), Receive(r, bytes));
      if r in msgs && msgs[r].received + bytes <= msgs[r].length {
        SetNumbers(r, msgs[r].(received := msgs[r].received + bytes));
      }
    }

    /** r has been, or no longer is, without an answer to its RESENDs. */
    method MarkSilent(r: nat, silent: bool)
      requires Valid()
      modifies `msgs
      ensures Valid() && Abs() == Apply(c, old(Abs()), SetSilent(r, silent))
    {
      hide Linked, Inv;
      LinkedConfig();
      ApplyOk(c, Abs(), SetSilent(r, silent));
      if r in msgs {
        SetNumbers(r, msgs[r].(silent := silent));
      }
    }

    /** Take r out of the RPCs there are; it is in no list. */
    method ForgetRpc(r: nat)
      requires Linked() && r in msgs && r !in Active()
      modifies `msgs, `rank, `total
      ensures Linked() && msgs == old(msgs) - {r} && total == old(total) - old(msgs)[r].recIncoming
    {
      hide Distinct, RanksMatch, CountsMatch;
      RanksDrop(rank, Active(), r);
      KnownRanks(rank, Active());
      CountsSame(msgs, msgs - {r}, peerActive, Active());
      total := total - msgs[r].recIncoming;
      msgs, rank := msgs - {r}, rank - {r};
    }

    /** homa_grant_end_rpc, without the grants to the RPC promoted in its place. */
    method EndRpc(r: nat) returns (promoted: Option<nat>)
      requires Valid()
      modifies this, active
      ensures Valid() && Abs() == Apply(c, old(Abs()), End(r))
      ensures promoted == if r in old(msgs) && old(msgs)[r].granted < old(msgs)[r].length
                          then Unmanage(c, old(Abs()), r).1 else None
    {
      hide Linked, Inv, Active, Lists, Unmanage, Managed;
      ghost var s := Abs();
      AbsParts();
      LinkedConfig();
      ApplyOk(c, s, End(r));
      promoted := None;
      if r in msgs {
        if msgs[r].granted < msgs[r].length {
          StopParts(c, s, r);
          promoted := UnmanageRpc(msgs, r);
          AbsParts();
        } else {
          CompleteNotActive(c, s, r);
        }
        ForgetRpc(r);
      }
    }

    /** Whether r is in active_rpcs or in its peer's list. */
    method IsManaged(r: nat) returns (managed: bool)
      requires Linked() && r in msgs
      ensures managed == Managed(msgs, Lists(), r)
    {
      hide Distinct, RanksMatch, CountsMatch;
      RankTells(rank, Active(), r);
      var p := PeerOf(msgs, r);
      managed := rank[r] >= 0 || (p in waiting && r in waiting[p]);
    }

    /** One step of the scheduler, in place. */
    method Perform(op: Op)
      requires Valid()
      modifies this, active
      ensures Valid() && Abs() == Apply(c, old(Abs()), op)
    {
      hide Linked, Inv, Active, Lists, Manage, Unmanage, Managed, WindowGrant, FifoGrant;
      hide GrantSched.FixOrder, GrantSched.FindOldest, GrantSched.UpdateIncoming;
      LinkedConfig();
      AbsParts();
      ApplyOk(c, Abs(), op);
      match op
      case Arrive(r, peer, length, birth, unsched) => InitRpc(r, peer, length, birth, unsched);
      case StartGranting(r) => StartIfNeeded(r);
      case Receive(r, bytes) => ReceiveBytes(r, bytes);
      case SetSilent(r, silent) => MarkSilent(r, silent);
      case Account(r) =>
        if r in msgs {
          UpdateIncoming(r);
        }
      case GrantWindow(r) => GrantIfKnown(r);
      case GrantFifo(r) => FifoIfManaged(r);
      case Recalculate => SortActive();
      case ChooseOldest =>
        LinkedSizes();
        FindOldest();
      case ClearStalled => stalled := INT_MAX;
      case StopGranting(r) =>
        if r in msgs {
          StopParts(c, Abs(), r);
          var other := UnmanageRpc(msgs, r);
        }
      case End(r) =>
        var other := EndRpc(r);
    }

    method StartIfNeeded(r: nat)
      requires Valid()
      modifies this, active
      ensures Valid() && Abs() == Apply(c, old(Abs()), StartGranting(r))
    {
      hide Linked, Inv, Active, Lists, Manage, Managed;
      AbsParts();
      if r in msgs {
        var managed := IsManaged(r);
        if !managed && msgs[r].granted < msgs[r].length {
          ManageRpc(r);
        }
      }
    }

    method GrantIfKnown(r: nat)
      requires Valid()
      modifies this, active
      ensures Valid() && Abs() == Apply(c, old(Abs()), GrantWindow(r))
    {
      hide Linked, Inv, Active, Lists, WindowGrant;
      AbsParts();
      if r in msgs {
        var grew, promoted := GrantOne(r);
      } else {
        UnknownNoGrant(c, Abs(), r);
      }
    }

    method FifoIfManaged(r: nat)
      requires Valid()
      modifies this, active
      ensures Valid() && Abs() == Apply(c, old(Abs()), Op.GrantFifo(r))
    {
      hide Linked, Inv, Active, Lists, Managed, FifoGrant;
      AbsParts();
      if r in msgs {
        var managed := IsManaged(r);
        if managed || msgs[r].granted == msgs[r].length {
          var promoted := GrantFifo(r);
        }
      }
    }

    method SortActive()
      requires Valid()
      modifies active, `rank
      ensures Valid() && Abs() == Apply(c, old(Abs()), Recalculate)
    {
      hide Linked, Inv, Active, GrantSched.FixOrder;
      LinkedConfig();
      ApplyOk(c, Abs(), Recalculate);
      var best := FixOrder();
    }

    lemma LinkedSizes()
      requires Linked()
      ensures numActive <= active.Length
    {
    }
  }

  lemma KnownRanks(rank: map<nat, int>, l: seq<nat>)
    requires RanksMatch(rank, l)
    ensures forall x :: x in l ==> x in rank
  {
  }

  lemma UnknownNoGrant(c: Config, s: Sched, r: nat)
    requires r !in s.msgs
    ensures WindowGrant(c, s, r).0 == s
  {
  }

  /** What homa_grant_unmanage_rpc may rely on, and that r is in no list afterwards. */
  lemma StopParts(c: Config, s: Sched, r: nat)
    requires Inv(c, s) && r in s.msgs
    ensures QInv(c, s.msgs, s.q) && SameButFor(s.msgs, s.msgs, r)
    ensures var s' := Unmanage(c, s, r).0; r !in s'.q.active && s'.msgs == s.msgs
  {
    hide QInv, Conserving, BudgetOk, Unmanage, MsgOk;
    UnmanageOk(c, s, r);
  }

  lemma CompleteNotActive(c: Config, s: Sched, r: nat)
    requires Inv(c, s) && r in s.msgs && s.msgs[r].granted >= s.msgs[r].length
    ensures r !in s.q.active
  {
    hide QInv, Conserving, BudgetOk, MsgOk;
    CompleteNotManaged(c, s, r);
  }

  /** Every run of the scheduler can be made in place, and after it the fields that repeat what active_rpcs says
      agree with it: each RPC in it has its own position as rank, every other RPC has rank -1, and a peer's count
      is the number of its RPCs in it. */
  method RunInPlace(c: Config, ops: seq<Op>) returns (g: Grant)
    requires ValidConfig(c)
    ensures g.Valid() && g.c == c && g.Abs() == Run(c, Init(c), ops)
    ensures g.rank.Keys == g.msgs.Keys && g.numActive <= c.maxOvercommit <= g.active.Length
    ensures forall i :: 0 <= i < g.numActive ==> g.active[i] in g.rank && g.rank[g.active[i]] == i
    ensures forall r :: r in g.rank && r !in g.active[..g.numActive] ==> g.rank[r] == -1
    ensures forall p :: CountIn(g.peerActive, p) == Load(g.msgs, g.active[..g.numActive], p)
  {
    hide Inv, Apply, Load, Distinct;
    g := new Grant(c);
    var i := 0;
    while i < |ops|
      invariant 0 <= i <= |ops| && fresh(g) && fresh(g.active) && g.c == c && g.Valid()
      invariant g.Abs() == Run(c, Init(c), ops[..i])
    {
      RunAppend(c, Init(c), ops[..i], ops[i]);
      assert ops[..i] + [ops[i]] == ops[..i + 1];
      g.Perform(ops[i]);
      i := i + 1;
    }
    assert ops[..i] == ops;
  }
}
