/** A fact about sequences that the solver does not look for by itself. */
module Sequences {
  lemma Associative<T>(x: seq<T>, y: seq<T>, z: seq<T>)
    ensures (x + y) + z == x + (y + z)
  {
  }
}
