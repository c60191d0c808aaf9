/** Sequence facts shared by the models. */
module Seqs {
  /** Concatenation regroups freely. Stated once so that proofs about lists
      built by appending can name the regrouping instead of searching for it. */
  lemma ConcatAssociative<T>(a: seq<T>, b: seq<T>, c: seq<T>)
    ensures (a + b) + c == a + (b + c)
  {
  }
}
