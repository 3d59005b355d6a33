/** Small types and notions shared by the models. */
module Wrappers {

  datatype Option<+T> = None | Some(value: T)

  /** Instants are integers in microseconds. */
  const SECOND: nat := 1_000_000

  /** No element occurs twice. */
  predicate Distinct<T(==)>(s: seq<T>) {
    forall i, j :: 0 <= i < j < |s| ==> s[i] != s[j]
  }
}
