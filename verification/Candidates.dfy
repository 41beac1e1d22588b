/** The candidate ring of homa_grant.h: RPCs set aside until their locks can be taken. */
module CandidateRing {

  const MAX_CAND := 8

  /** The slot for a counter value: its low-order bits. */
  function Slot(i: nat): (k: nat)
    ensures k < MAX_CAND
  {
    i % MAX_CAND
  }

  /** The n entries of ring `a` that start at counter value `first`, oldest first. */
  ghost function Entries(a: seq<nat>, first: nat, n: nat): (s: seq<nat>)
    requires |a| == MAX_CAND
    ensures |s| == n
    decreases n
  {
    if n == 0 then [] else [a[Slot(first)]] + Entries(a, first + 1, n - 1)
  }

  /** Fewer than MAX_CAND steps around the ring never return to the same slot. */
  lemma SlotsDiffer(i: nat, j: nat)
    requires i < j < i + MAX_CAND
    ensures Slot(i) != Slot(j)
  {
  }

  /** Writing the slot behind the last entry leaves all entries as they are and appends one. */
  lemma {:induction false} EntriesAppend(a: seq<nat>, first: nat, n: nat, x: nat)
    requires |a| == MAX_CAND && n < MAX_CAND
    ensures Entries(a[Slot(first + n) := x], first, n + 1) == Entries(a, first, n) + [x]
    decreases n
  {
    hide Slot, Entries;
    var k := Slot(first + n);
    if n == 0 {
      EntriesFirst(a[k := x], first, 1);
      NoEntries(a[k := x], first + 1);
      NoEntries(a, first);
    } else {
      var rest := Entries(a, first + 1, n - 1);
      SlotsDiffer(first, first + n);
      EntriesAppend(a, first + 1, n - 1, x);
      EntriesFirst(a, first, n);
      EntriesFirst(a[k := x], first, n + 1);
      assert [a[Slot(first)]] + (rest + [x]) == [a[Slot(first)]] + rest + [x];
    }
  }

  lemma EntriesFirst(a: seq<nat>, first: nat, n: nat)
    requires |a| == MAX_CAND && n > 0
    ensures Entries(a, first, n) == [a[Slot(first)]] + Entries(a, first + 1, n - 1)
  {
  }

  lemma NoEntries(a: seq<nat>, first: nat)
    requires |a| == MAX_CAND
    ensures Entries(a, first, 0) == []
  {
  }

  class Candidates {
    const rpcs: array<nat>
    var inserts: nat
    var removes: nat
    ghost var contents: seq<nat>  // the RPCs still to be processed

    ghost predicate Valid()
      reads this, rpcs
    {
      && rpcs.Length == MAX_CAND && removes <= inserts <= removes + MAX_CAND
      && contents == Entries(rpcs[..], removes, inserts - removes)
    }

    constructor ()
      ensures Valid() && contents == [] && fresh(rpcs)
    {
      rpcs := new nat[MAX_CAND];
      inserts, removes := 0, 0;
      contents := [];
    }

    /** homa_grant_cand_add without the reference count; a full ring ignores the RPC. */
    method Add(r: nat) returns (added: bool)
      requires Valid()
      modifies `inserts, `contents, rpcs
      ensures Valid() && added == (|old(contents)| < MAX_CAND)
      ensures contents == if added then old(contents) + [r] else old(contents)
    {
      hide Slot, Entries;
      added := inserts < removes + MAX_CAND;
      if added {
        EntriesAppend(rpcs[..], removes, inserts - removes, r);
        rpcs[Slot(inserts)] := r;
        inserts := inserts + 1;
        contents := contents + [r];
      }
    }

    method Take() returns (r: nat)
      requires Valid() && contents != []
      modifies `removes, `contents
      ensures Valid() && r == old(contents)[0] && contents == old(contents)[1..]
    {
      hide Slot;
      r := rpcs[Slot(removes)];
      removes := removes + 1;
      contents := contents[1..];
    }
  }
}
