/** Facts about sequences that the enumeration and resume loops lean on. */
module Sequences {

  /** Concatenation is associative, stated for the steps where lists are appended to one at a time. */
  lemma AppendAssociative<T>(a: seq<T>, b: seq<T>, c: seq<T>)
    ensures (a + b) + c == a + (b + c)
  {
  }
}
