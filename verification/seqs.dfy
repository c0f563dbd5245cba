/** Sequence helpers shared by the name tables and the de-duplication. */
module Seqs {

  /** Position of the first occurrence of `x` in `xs`. */
  function FirstIndex<T(==, !new)>(xs: seq<T>, x: T): (k: nat)
    requires x in xs
    ensures k < |xs| && xs[k] == x
    ensures forall j :: 0 <= j < k ==> xs[j] != x
  {
    if xs[0] == x then 0 else 1 + FirstIndex(xs[1..], x)
  }
}
