/** Facts about sequences. */
module Sequences {

  // Stated where the verifier would search too long.
  lemma Regroup<T>(a: seq<T>, b: seq<T>, c: seq<T>)
    ensures a + b + c == a + (b + c)
  {
  }
}
