/** The random pause after each completed job: Math.floor(Math.random() * 10) + 5
    seconds. */
module Pacing {

  /** The values Math.random() returns: reals in [0, 1). */
  type Fraction = u: real | 0.0 <= u < 1.0

  /** The pause, in whole seconds, for one random draw. */
  function PacingSeconds(u: Fraction): (s: int)
    ensures 5 <= s <= 14
  {
    (u * 10.0).Floor + 5
  }

  /** The pause in milliseconds handed to setTimeout. */
  function PacingMs(u: Fraction): (ms: nat)
    ensures 5000 <= ms <= 14000
    ensures ms % 1000 == 0
  {
    PacingSeconds(u) * 1000
  }

  /** Each pause of k seconds is drawn exactly for the draws in a slice of
      width one tenth, [(k - 5) / 10, (k - 4) / 10): the ten values 5 .. 14
      are equally likely. */
  lemma PacingSlice(u: Fraction, k: int)
    ensures PacingSeconds(u) == k <==>
      5 <= k <= 14 && (k - 5) as real / 10.0 <= u < (k - 4) as real / 10.0
  {
    var f := (u * 10.0).Floor;
    assert f as real <= u * 10.0 < f as real + 1.0;
  }

  /** Every whole number of seconds from 5 to 14 is a possible pause. */
  lemma PacingReaches(k: int)
    requires 5 <= k <= 14
    ensures exists u: Fraction :: PacingSeconds(u) == k
  {
    var u: Fraction := (k - 5) as real / 10.0;
    PacingSlice(u, k);
  }
}
