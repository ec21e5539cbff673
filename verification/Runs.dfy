/** A property of the states of a run, given as its values in order. */
module Runs {
  /** A property that fails at first and holds later is made true by some step. */
  lemma {:induction false} Turn(p: seq<bool>, i: nat) returns (k: nat)
    requires i < |p| && p[i] && !p[0]
    ensures k < i && !p[k] && p[k + 1]
  {
    if p[i - 1] { k := Turn(p, i - 1); } else { k := i - 1; }
  }
}
