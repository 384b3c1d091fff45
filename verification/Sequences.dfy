/** Sequences that stand for linked lists. */
module Sequences {

  /** No element occurs twice. */
  ghost predicate Distinct<T>(q: seq<T>) {
    forall i, j :: 0 <= i < j < |q| ==> q[i] != q[j]
  }

  /** What a link to the `k`-th element holds: `end` if there is none. */
  function At(q: seq<nat>, k: int, end: int): int {
    if 0 <= k < |q| then q[k] else end
  }
}
