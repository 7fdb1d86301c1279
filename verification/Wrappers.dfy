/** Shared vocabulary. */
module Wrappers {

  datatype Option<+T> = None | Some(value: T)

  /** The tensor made by the n-th reservation of buffer b. */
  datatype Tensor = Tensor(b: nat, n: nat)

  ghost predicate Distinct<T>(s: seq<T>)
  {
    forall i, j :: 0 <= i < j < |s| ==> s[i] != s[j]
  }
}
