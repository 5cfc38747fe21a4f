/** A fact about sequences that the solver finds only at great cost on its own. */
module Sequences {
  lemma ConcatAssociative<T>(x: seq<T>, y: seq<T>, z: seq<T>)
    ensures (x + y) + z == x + (y + z)
  {
  }
}
