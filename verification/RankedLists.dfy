/**
 Priority order of incoming messages (homa_grant_outranks) and the list
 surgery homa_grant.c performs on lists kept in that order. A list holds
 identifiers; `keys` gives the message that decides each identifier's priority.
 */
module RankedLists {
  import opened Basics

  /** The grant-related part of a message being received (struct homa_message_in).
      `unsched`, `fifo` and `recorded` are history: the initial grant, the bytes
      added by FIFO grants, and whether recIncoming has been computed yet. */
  datatype Msg = Msg(
    peer: nat, length: nat, birth: nat, granted: nat, received: nat,
    recIncoming: nat, silent: bool,
    unsched: nat, fifo: nat, recorded: bool)

  /** Fewest ungranted bytes first; among equals the older message. */
  predicate Outranks(a: Msg, b: Msg) {
    var diff := (a.length - a.granted) - (b.length - b.granted);
    diff < 0 || (diff == 0 && a.birth < b.birth)
  }

  /** The two messages compare alike with every other message. */
  ghost predicate SamePriority(a: Msg, b: Msg) {
    a.length - a.granted == b.length - b.granted && a.birth == b.birth
  }

  function Key(keys: map<nat, Msg>, x: nat): Msg {
    if x in keys then keys[x] else Msg(0, 0, 0, 0, 0, 0, false, 0, 0, false)
  }

  predicate Better(keys: map<nat, Msg>, x: nat, y: nat) {
    Outranks(Key(keys, x), Key(keys, y))
  }

  /** No element outranks one that stands before it. */
  ghost predicate Sorted(keys: map<nat, Msg>, l: seq<nat>) {
    forall i, j :: 0 <= i < j < |l| ==> !Better(keys, l[j], l[i])
  }

  /** In order of ungranted bytes, and of age among those with as many. */
  ghost predicate ByBytesThenAge(keys: map<nat, Msg>, l: seq<nat>) {
    forall i, j :: 0 <= i < j < |l| ==> FewerOrOlder(Key(keys, l[i]), Key(keys, l[j]))
  }

  ghost predicate FewerOrOlder(a: Msg, b: Msg) {
    || a.length - a.granted < b.length - b.granted
    || (a.length - a.granted == b.length - b.granted && a.birth <= b.birth)
  }

  lemma SortedByNumbers(keys: map<nat, Msg>, l: seq<nat>)
    ensures Sorted(keys, l) <==> ByBytesThenAge(keys, l)
  {
    hide FewerOrOlder;
    if Sorted(keys, l) {
      forall i, j | 0 <= i < j < |l| ensures FewerOrOlder(Key(keys, l[i]), Key(keys, l[j])) {
        NotOutranked(Key(keys, l[j]), Key(keys, l[i]));
      }
    }
    if ByBytesThenAge(keys, l) {
      forall i, j | 0 <= i < j < |l| ensures !Better(keys, l[j], l[i]) {
        NotOutranked(Key(keys, l[j]), Key(keys, l[i]));
      }
    }
  }

  /** homa_grant_outranks by its numbers. */
  lemma NotOutranked(a: Msg, b: Msg)
    ensures !Outranks(a, b) <==> FewerOrOlder(b, a)
  {
  }

  function InsertAt(l: seq<nat>, k: nat, x: nat): seq<nat>
    requires k <= |l|
  {
    l[..k] + [x] + l[k..]
  }

  function IndexOf(l: seq<nat>, x: nat): (k: nat)
    requires x in l
    ensures k < |l| && l[k] == x && x !in l[..k]
  {
    if l[0] == x then 0 else 1 + IndexOf(l[1..], x)
  }

  /** Where an insertion scan from the front stops: before the first element that x outranks. */
  function Place(keys: map<nat, Msg>, l: seq<nat>, x: nat): (k: nat)
    ensures k <= |l|
    ensures forall i :: 0 <= i < k ==> !Better(keys, x, l[i])
    ensures k < |l| ==> Better(keys, x, l[k])
  {
    if l == [] || Better(keys, x, l[0]) then 0 else 1 + Place(keys, l[1..], x)
  }

  /** Repeatedly swap the element at i with its predecessor while it outranks it. */
  function MoveUp(keys: map<nat, Msg>, l: seq<nat>, i: nat): (r: (seq<nat>, nat))
    requires i < |l|
    ensures r.1 <= i && r.0 == InsertAt(Without(l, i), r.1, l[i])
    ensures r.1 > 0 ==> !Better(keys, l[i], Without(l, i)[r.1 - 1])
    ensures r.1 < i ==> Better(keys, l[i], Without(l, i)[r.1])
    decreases i
  {
    if i == 0 || !Better(keys, l[i], l[i - 1]) then
      assert l == InsertAt(Without(l, i), i, l[i]);
      (l, i)
    else
      var l1 := l[i - 1 := l[i]][i := l[i - 1]];
      assert Without(l1, i - 1) == Without(l, i);
      MoveUp(keys, l1, i - 1)
  }

  /** Repeatedly swap the element at i with its successor while the successor outranks it. */
  function MoveDown(keys: map<nat, Msg>, l: seq<nat>, i: nat): (r: (seq<nat>, nat))
    requires i < |l|
    ensures i <= r.1 < |l| && r.0 == InsertAt(Without(l, i), r.1, l[i])
    ensures r.1 > i ==> Better(keys, Without(l, i)[r.1 - 1], l[i])
    ensures r.1 < |l| - 1 ==> !Better(keys, Without(l, i)[r.1], l[i])
    decreases |l| - i
  {
    if i + 1 == |l| || !Better(keys, l[i + 1], l[i]) then
      assert l == InsertAt(Without(l, i), i, l[i]);
      (l, i)
    else
      var l1 := l[i + 1 := l[i]][i := l[i + 1]];
      assert Without(l1, i + 1) == Without(l, i);
      MoveDown(keys, l1, i + 1)
  }

  function Resettle(keys: map<nat, Msg>, l: seq<nat>, i: nat): (r: seq<nat>)
    requires i < |l|
  {
    var up := MoveUp(keys, l, i);
    MoveDown(keys, up.0, up.1).0
  }

  /** The place is determined by what the scan was looking for. */
  lemma PlaceUnique(keys: map<nat, Msg>, l: seq<nat>, x: nat, k: nat)
    requires k <= |l| && (k < |l| ==> Better(keys, x, l[k]))
    requires forall i :: 0 <= i < k ==> !Better(keys, x, l[i])
    ensures k == Place(keys, l, x)
  {
    hide Better, Place;
  }

  lemma IndexUnique(l: seq<nat>, x: nat, k: nat)
    requires k < |l| && l[k] == x && Distinct(l)
    ensures IndexOf(l, x) == k
  {
  }

  // ---- Order facts ----

  lemma InsertKeepsSorted(keys: map<nat, Msg>, l: seq<nat>, k: nat, x: nat)
    requires Sorted(keys, l) && k <= |l|
    requires forall i :: 0 <= i < k ==> !Better(keys, x, l[i])
    requires forall i :: k <= i < |l| ==> !Better(keys, l[i], x)
    ensures Sorted(keys, InsertAt(l, k, x))
  {
  }

  /** Scanning for a place from the front puts x where the list stays sorted. */
  lemma PlaceSorted(keys: map<nat, Msg>, l: seq<nat>, x: nat)
    requires Sorted(keys, l)
    ensures Sorted(keys, InsertAt(l, Place(keys, l, x), x))
  {
    var k := Place(keys, l, x);
    forall i | k <= i < |l| ensures !Better(keys, l[i], x) {
      assert !Better(keys, l[i], l[k]) || i == k;
    }
    InsertKeepsSorted(keys, l, k, x);
  }

  /** In a sorted list, comparing x with its two neighbours places it for the whole list. */
  lemma NeighboursDecide(keys: map<nat, Msg>, o: seq<nat>, b: nat, x: nat)
    requires Sorted(keys, o) && b <= |o|
    requires b > 0 ==> !Better(keys, x, o[b - 1])
    requires b < |o| ==> !Better(keys, o[b], x)
    ensures Sorted(keys, InsertAt(o, b, x))
  {
    forall j | 0 <= j < b ensures !Better(keys, x, o[j]) {
      assert j == b - 1 || !Better(keys, o[b - 1], o[j]);
    }
    forall j | b <= j < |o| ensures !Better(keys, o[j], x) {
      assert j == b || !Better(keys, o[j], o[b]);
    }
    InsertKeepsSorted(keys, o, b, x);
  }

  lemma WithoutInserted(o: seq<nat>, k: nat, x: nat)
    requires k <= |o|
    ensures InsertAt(o, k, x)[k] == x && Without(InsertAt(o, k, x), k) == o
  {
  }

  /** The two loops leave the element between neighbours it agrees with. */
  lemma ResettleShape(keys: map<nat, Msg>, l: seq<nat>, i: nat) returns (b: nat)
    requires i < |l|
    ensures b < |l| && Resettle(keys, l, i) == InsertAt(Without(l, i), b, l[i])
    ensures b > 0 ==> !Better(keys, l[i], Without(l, i)[b - 1])
    ensures b < |l| - 1 ==> !Better(keys, Without(l, i)[b], l[i])
  {
    hide MoveUp, MoveDown;
    var up := MoveUp(keys, l, i);
    WithoutInserted(Without(l, i), up.1, l[i]);
    b := MoveDown(keys, up.0, up.1).1;
  }

  /** Moving one element up and then down restores order when all others are in order. */
  lemma ResettleSorted(keys: map<nat, Msg>, l: seq<nat>, i: nat) returns (b: nat)
    requires i < |l| && Sorted(keys, Without(l, i))
    ensures b < |l| && Resettle(keys, l, i) == InsertAt(Without(l, i), b, l[i])
    ensures Sorted(keys, Resettle(keys, l, i))
  {
    hide Sorted;
    b := ResettleShape(keys, l, i);
    NeighboursDecide(keys, Without(l, i), b, l[i]);
  }

  lemma WithoutSorted(keys: map<nat, Msg>, l: seq<nat>, k: nat)
    requires k < |l| && Sorted(keys, l)
    ensures Sorted(keys, Without(l, k))
  {
    var w := Without(l, k);
    forall i, j | 0 <= i < j < |w| ensures !Better(keys, w[j], w[i]) {
      assert w[i] == l[if i < k then i else i + 1];
      assert w[j] == l[if j < k then j else j + 1];
    }
  }

  /** When the element at i has only risen, moving it up is enough. */
  lemma MoveUpSorted(keys: map<nat, Msg>, l: seq<nat>, i: nat)
    requires i < |l| && Sorted(keys, Without(l, i))
    requires i + 1 < |l| ==> !Better(keys, l[i + 1], l[i])
    ensures Sorted(keys, MoveUp(keys, l, i).0)
  {
    var a := MoveUp(keys, l, i).1;
    assert i + 1 < |l| ==> Without(l, i)[i] == l[i + 1];
    NeighboursDecide(keys, Without(l, i), a, l[i]);
  }

  /** Order only depends on the priorities of the list's own members. */
  lemma SortedSameKeys(keys: map<nat, Msg>, keys': map<nat, Msg>, l: seq<nat>)
    requires Sorted(keys, l)
    requires forall x :: x in l ==> SamePriority(Key(keys, x), Key(keys', x))
    ensures Sorted(keys', l)
  {
    forall i, j | 0 <= i < j < |l| ensures !Better(keys', l[j], l[i]) {
      assert l[i] in l && l[j] in l;
      assert !Better(keys, l[j], l[i]);
    }
  }

  // ---- Membership facts ----

  lemma InsertMembers(l: seq<nat>, k: nat, x: nat)
    requires k <= |l|
    ensures forall y :: y in InsertAt(l, k, x) <==> y == x || y in l
    ensures Distinct(l) && x !in l ==> Distinct(InsertAt(l, k, x))
  {
    assert l == l[..k] + l[k..];
  }

  lemma WithoutMembers(l: seq<nat>, k: nat)
    requires k < |l| && Distinct(l)
    ensures Distinct(Without(l, k)) && l[k] !in Without(l, k)
    ensures forall y :: y in Without(l, k) <==> y != l[k] && y in l
  {
    var w := Without(l, k);
    assert forall i :: 0 <= i < |w| ==> w[i] == l[if i < k then i else i + 1];
    forall y | y in l && y != l[k] ensures y in w {
      var i :| 0 <= i < |l| && l[i] == y;
      assert w[if i < k then i else i - 1] == y;
    }
  }

  /** Resettling one element permutes the list. */
  lemma ResettleMembers(keys: map<nat, Msg>, l: seq<nat>, i: nat)
    requires i < |l| && Distinct(l)
    ensures Distinct(Resettle(keys, l, i))
    ensures forall y :: y in Resettle(keys, l, i) <==> y in l
  {
    var b := ResettleShape(keys, l, i);
    WithoutMembers(l, i);
    InsertMembers(Without(l, i), b, l[i]);
  }

  lemma MoveUpMembers(keys: map<nat, Msg>, l: seq<nat>, i: nat)
    requires i < |l| && Distinct(l)
    ensures Distinct(MoveUp(keys, l, i).0)
    ensures forall y :: y in MoveUp(keys, l, i).0 <==> y in l
  {
    WithoutMembers(l, i);
    InsertMembers(Without(l, i), MoveUp(keys, l, i).1, l[i]);
  }
}
