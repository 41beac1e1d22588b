/**
 The queues of homa_grant.c as values: active_rpcs, each peer's grantable_rpcs
 and grantable_peers, with one function per procedure that changes them.
 */
module GrantQueues {
  import opened Basics
  import opened RankedLists

  /** Limits in force during a run (sysctl values). */
  datatype Config = Config(
    maxOvercommit: nat, maxPerPeer: nat, maxIncoming: nat, windowParam: nat, fifoIncrement: nat)

  const MAX_GRANTS := 10

  ghost predicate ValidConfig(c: Config) {
    1 <= c.maxOvercommit <= MAX_GRANTS && 1 <= c.maxPerPeer
  }

  datatype Queues = Queues(active: seq<nat>, waiting: map<nat, seq<nat>>, peers: seq<nat>)

  function Wait(q: Queues, p: nat): seq<nat> {
    if p in q.waiting then q.waiting[p] else []
  }

  function PeerOf(msgs: map<nat, Msg>, r: nat): nat {
    Key(msgs, r).peer
  }

  /** The message that stands for each peer with waiting RPCs: the head of its list. */
  function Heads(msgs: map<nat, Msg>, q: Queues): map<nat, Msg> {
    map p | p in q.waiting && q.waiting[p] != [] :: Key(msgs, q.waiting[p][0])
  }

  /** How many of the RPCs in l belong to peer p. */
  function Load(msgs: map<nat, Msg>, l: seq<nat>, p: nat): nat {
    if l == [] then 0
    else (if PeerOf(msgs, l[0]) == p then 1 else 0) + Load(msgs, l[1..], p)
  }

  predicate Managed(msgs: map<nat, Msg>, q: Queues, r: nat) {
    r in q.active || r in Wait(q, PeerOf(msgs, r))
  }

  function ManagedSet(msgs: map<nat, Msg>, q: Queues): set<nat> {
    set r | r in msgs && Managed(msgs, q, r)
  }

  // ---- Invariant ----

  ghost predicate ActiveOk(c: Config, msgs: map<nat, Msg>, q: Queues) {
    && Distinct(q.active)
    && |q.active| <= c.maxOvercommit
    && (forall r :: r in q.active ==> r in msgs)
    && (forall p :: Load(msgs, q.active, p) <= c.maxPerPeer)
  }

  ghost predicate ListOk(msgs: map<nat, Msg>, q: Queues, p: nat) {
    && Distinct(Wait(q, p))
    && (forall r :: r in Wait(q, p) ==> r in msgs && PeerOf(msgs, r) == p && r !in q.active)
  }

  ghost predicate WaitingOk(msgs: map<nat, Msg>, q: Queues) {
    && (forall p :: ListOk(msgs, q, p))
    && (forall p :: Sorted(msgs, Wait(q, p)))
  }

  ghost predicate PeersOk(msgs: map<nat, Msg>, q: Queues) {
    && Distinct(q.peers)
    && (forall p :: p in q.peers <==> Wait(q, p) != [])
    && Sorted(Heads(msgs, q), q.peers)
  }

  /** All clauses about lists, ranks and counts that every step keeps. */
  ghost predicate QInv(c: Config, msgs: map<nat, Msg>, q: Queues) {
    ActiveOk(c, msgs, q) && WaitingOk(msgs, q) && PeersOk(msgs, q)
  }

  /** No RPC waits while its peer and active_rpcs both have room. */
  ghost predicate Conserving(c: Config, msgs: map<nat, Msg>, q: Queues) {
    || |q.active| == c.maxOvercommit
    || forall p :: p in q.peers ==> Load(msgs, q.active, p) >= c.maxPerPeer
  }

  // ---- Procedures ----

  /** Highest index in l that r does not outrank, or -1: the backward scan of insert_active. */
  function InsertAfter(msgs: map<nat, Msg>, l: seq<nat>, r: nat): (a: int)
    ensures -1 <= a < |l|
    ensures forall i :: a < i < |l| ==> Better(msgs, r, l[i])
    ensures a >= 0 ==> !Better(msgs, r, l[a])
  {
    if l == [] || !Better(msgs, r, l[|l| - 1]) then |l| - 1
    else InsertAfter(msgs, l[..|l| - 1], r)
  }

  /** Highest index above `a` whose RPC belongs to peer p, or -1. */
  function LastOfPeer(msgs: map<nat, Msg>, l: seq<nat>, a: int, p: nat): (k: int)
    requires -1 <= a < |l|
    ensures k == -1 || (a < k < |l| && PeerOf(msgs, l[k]) == p)
    ensures forall i :: a < i < |l| && i > k ==> PeerOf(msgs, l[i]) != p
  {
    if a == |l| - 1 then -1
    else if PeerOf(msgs, l[|l| - 1]) == p then |l| - 1
    else LastOfPeer(msgs, l[..|l| - 1], a, p)
  }

  /** homa_grant_insert_active: the new active_rpcs and the RPC that must wait instead, if any. */
  function InsertActive(c: Config, msgs: map<nat, Msg>, l: seq<nat>, r: nat): (seq<nat>, Option<nat>)
  {
    var a := InsertAfter(msgs, l, r);
    var k := LastOfPeer(msgs, l, a, PeerOf(msgs, r));
    InsertActiveAt(c, l, r, a, k, Load(msgs, l, PeerOf(msgs, r)))
  }

  /** The case split of homa_grant_insert_active once both scans are done. */
  function InsertActiveAt(c: Config, l: seq<nat>, r: nat, a: int, k: int, load: nat): (seq<nat>, Option<nat>)
    requires -1 <= a < |l| && (k == -1 || a < k < |l|)
  {
    if load >= c.maxPerPeer then
      if k <= a then (l, Some(r)) else (InsertAt(Without(l, k), a + 1, r), Some(l[k]))
    else if a >= c.maxOvercommit - 1 then (l, Some(r))
    else if |l| >= c.maxOvercommit then (InsertAt(Without(l, |l| - 1), a + 1, r), Some(l[|l| - 1]))
    else (InsertAt(l, a + 1, r), None)
  }

  /** homa_grant_adjust_peer: peer p's list changed, so put p where it belongs in grantable_peers. */
  function AdjustPeer(msgs: map<nat, Msg>, q: Queues, p: nat): Queues {
    if Wait(q, p) == [] then
      if p in q.peers then q.(peers := Without(q.peers, IndexOf(q.peers, p))) else q
    else if p !in q.peers then
      q.(peers := InsertAt(q.peers, Place(Heads(msgs, q), q.peers, p), p))
    else
      q.(peers := Resettle(Heads(msgs, q), q.peers, IndexOf(q.peers, p)))
  }

  function SetList(q: Queues, p: nat, l: seq<nat>): Queues {
    q.(waiting := q.waiting[p := l])
  }

  function InsertGrantable(msgs: map<nat, Msg>, q: Queues, r: nat): Queues {
    var p := PeerOf(msgs, r);
    var l := Wait(q, p);
    AdjustPeer(msgs, SetList(q, p, InsertAt(l, Place(msgs, l, r), r)), p)
  }

  function RemoveGrantable(msgs: map<nat, Msg>, q: Queues, r: nat): Queues {
    var p := PeerOf(msgs, r);
    if r !in Wait(q, p) then q
    else
      var k := IndexOf(Wait(q, p), r);
      var q1 := SetList(q, p, Without(Wait(q, p), k));
      if k == 0 then AdjustPeer(msgs, q1, p) else q1
  }

  /** The queue part of homa_grant_manage_rpc, shared with homa_grant_promote_rpc. */
  function Admit(c: Config, msgs: map<nat, Msg>, q: Queues, r: nat): Queues {
    var (l, bumped) := InsertActive(c, msgs, q.active, r);
    Requeue(msgs, q.(active := l), bumped)
  }

  function Requeue(msgs: map<nat, Msg>, q: Queues, bumped: Option<nat>): Queues {
    if bumped.Some? then InsertGrantable(msgs, q, bumped.value) else q
  }

  /** Index of the first peer in ps that may have another active RPC, or |ps|. */
  function FirstWithRoom(c: Config, msgs: map<nat, Msg>, active: seq<nat>, ps: seq<nat>): (k: nat)
    ensures k <= |ps|
    ensures forall i :: 0 <= i < k ==> Load(msgs, active, ps[i]) >= c.maxPerPeer
    ensures k < |ps| ==> Load(msgs, active, ps[k]) < c.maxPerPeer
  {
    if ps == [] || Load(msgs, active, ps[0]) < c.maxPerPeer then 0
    else 1 + FirstWithRoom(c, msgs, active, ps[1..])
  }

  /** Move a waiting RPC to the end of active_rpcs. */
  function Pull(msgs: map<nat, Msg>, q: Queues, other: nat): Queues {
    RemoveGrantable(msgs, q, other).(active := q.active + [other])
  }

  /** Pull the head of the first peer in grantable_peers that has room, if there is one. */
  function Refill(c: Config, msgs: map<nat, Msg>, q: Queues): (Queues, Option<nat>) {
    var k := FirstWithRoom(c, msgs, q.active, q.peers);
    if k == |q.peers| || Wait(q, q.peers[k]) == [] then (q, None)
    else
      var other := Wait(q, q.peers[k])[0];
      (Pull(msgs, q, other), Some(other))
  }

  function DropActive(q: Queues, r: nat): Queues
    requires r in q.active
  {
    q.(active := Without(q.active, IndexOf(q.active, r)))
  }

  /** homa_grant_remove_active: drop r and let a waiting RPC take its place. */
  function RemoveActive(c: Config, msgs: map<nat, Msg>, q: Queues, r: nat): (Queues, Option<nat>)
    requires r in q.active
  {
    Refill(c, msgs, DropActive(q, r))
  }

  /** The queue part of homa_grant_unmanage_rpc, with the RPC it promoted. */
  function Expel(c: Config, msgs: map<nat, Msg>, q: Queues, r: nat): (Queues, Option<nat>) {
    if r in q.active then RemoveActive(c, msgs, q, r)
    else (RemoveGrantable(msgs, q, r), None)
  }

  /** homa_grant_promote_rpc, after r's grant offset rose. */
  function Promote(c: Config, msgs: map<nat, Msg>, q: Queues, r: nat): Queues {
    var p := PeerOf(msgs, r);
    if r in q.active || r !in Wait(q, p) then q
    else if |q.active| < c.maxOvercommit || (q.active != [] && Better(msgs, r, q.active[|q.active| - 1])) then
      Admit(c, msgs, RemoveGrantable(msgs, q, r), r)
    else
      var (l, k) := MoveUp(msgs, Wait(q, p), IndexOf(Wait(q, p), r));
      var q1 := SetList(q, p, l);
      if k == 0 then AdjustPeer(msgs, q1, p) else q1
  }
}
