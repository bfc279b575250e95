/** Facts about sequences that the model's proofs share. Kept in a module of
    their own so that each is proved without the model's definitions in
    view. */
module Seqs {

  /** Concatenation regroups freely. */
  lemma ConcatAssoc<T>(a: seq<T>, b: seq<T>, c: seq<T>)
    ensures a + (b + c) == (a + b) + c
  {
  }

  /** An element appended to a concatenation joins its second part. */
  lemma SnocAfter<T>(a: seq<T>, b: seq<T>, c: seq<T>, x: T)
    requires a == b + c
    ensures a + [x] == b + (c + [x])
  {
  }

  /** Dropping the last element of a concatenation drops it from the second
      part. */
  lemma DropLastOfConcat<T>(a: seq<T>, b: seq<T>)
    requires |b| > 0
    ensures (a + b)[..|a + b| - 1] == a + b[..|b| - 1]
    ensures (a + b)[|a + b| - 1] == b[|b| - 1]
  {
  }
}
