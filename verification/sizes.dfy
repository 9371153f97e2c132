/** `isBig`, a numeric threshold test. */
module Sizes {

  /** `isBig`: a number is big from 100 upwards. */
  predicate IsBig(n: real)
  {
    n >= 100.0
  }

  /** Bigness is upward closed, and 100 is the least big number. */
  lemma IsBigThreshold(a: real, b: real)
    ensures IsBig(a) && a <= b ==> IsBig(b)
    ensures IsBig(100.0) && !IsBig(99.0)
    ensures IsBig(a) <==> !(a < 100.0)
  {
  }
}
