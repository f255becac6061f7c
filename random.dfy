/**
 * The random generator that initialises weights, biases and the seed
 * vocabulary. The model does not generate numbers: the successive results of
 * `nextFloat()`, each in `[0, 1)`, are a parameter, and every stored value is
 * such a draw minus 0.5.
 */
module RandomDraws {

  /** `rand.nextFloat() - 0.5f` for each draw, in order. */
  function Centered(draws: seq<real>): (r: seq<real>)
  {
    seq(|draws|, k requires 0 <= k < |draws| => draws[k] - 0.5)
  }

  /** `nextFloat()` returns a value in `[0, 1)`. */
  ghost predicate UnitDraws(draws: seq<real>)
  {
    forall k :: 0 <= k < |draws| ==> 0.0 <= draws[k] < 1.0
  }

  /** Draws from `[0, 1)` give values in `[-0.5, 0.5)`, one per draw. */
  lemma CenteredRange(draws: seq<real>)
    requires UnitDraws(draws)
    ensures |Centered(draws)| == |draws|
    ensures forall k :: 0 <= k < |draws| ==> -0.5 <= Centered(draws)[k] < 0.5
  {
  }
}
