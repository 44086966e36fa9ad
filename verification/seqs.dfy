/** Small facts about sequences shared by the modules below. */
module Seqs {
  /** Concatenation regroups freely; stated once so that proofs can name the
      regrouping they need instead of asking the solver to find it. */
  lemma AppendAssoc<T>(a: seq<T>, b: seq<T>, c: seq<T>)
    ensures a + b + c == a + (b + c)
  {
  }
}
