/** What several components share. */
module Basics {

  datatype Option<+T> = None | Some(value: T)

  ghost predicate Distinct(l: seq<nat>) {
    forall i, j :: 0 <= i < j < |l| ==> l[i] != l[j]
  }

  /** l without its element at k. */
  function Without(l: seq<nat>, k: nat): (r: seq<nat>)
    requires k < |l|
    ensures |r| == |l| - 1
  {
    l[..k] + l[k + 1..]
  }
}
