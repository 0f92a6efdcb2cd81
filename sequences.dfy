/** Facts about sequences that the loop proofs of the other modules share. */
module Sequences {

  /** Appending one element and then a tail is prepending that element to the tail. */
  lemma AppendAssociates<T>(a: seq<T>, e: T, b: seq<T>)
    ensures (a + [e]) + b == a + ([e] + b)
  {
  }
}
