/** Small facts about sequences used by the proofs. */
module Sequences {

  /** Concatenation regroups freely; stated once so that loop proofs need not re-derive it element by element. */
  lemma ConcatAssoc<T>(a: seq<T>, b: seq<T>, c: seq<T>)
    ensures (a + b) + c == a + (b + c)
  {
  }
}
