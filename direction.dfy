/**
  The direction decision of the predictor: ground truth, flipped for
  control-flow instructions when a random draw lands in the misprediction
  band. The draw `r` is a parameter; its value modulo 100 is what matters.

  `FlipsAsWritten` is the comparison the source makes, `r % 100 > 100 - rate`
  with the subtraction in unsigned 32-bit arithmetic. It flips on `rate - 1`
  of the 100 residues (and on none once `rate` exceeds 100, where the
  subtraction wraps). `Flips` is the comparison that flips on exactly `rate`
  of them, capped at all 100; the predictor uses it.
 */
module Direction {
  import opened Addressing

  /** `r % 100 > (100 - rate)` on UINT32 operands. */
  predicate FlipsAsWritten(draw: U32, rate: U32) {
    draw % 100 > (100 - rate) % U32_MOD
  }

  /** The intended comparison: `r % 100 >= 100 - rate`, so that `rate` residues out of 100 flip. */
  predicate Flips(draw: U32, rate: U32) {
    draw % 100 >= 100 - rate
  }

  /** The source's decision, given whether the draw flips. */
  function Decide(isControlFlow: bool, brTaken: bool, flip: bool): (predicted: bool)
    ensures !isControlFlow ==> predicted == brTaken
    ensures isControlFlow ==> (predicted != brTaken <==> flip)
  {
    if !isControlFlow then brTaken
    else if flip then !brTaken
    else brTaken
  }

  /** How many of the draws 0..n-1 flip under the as-written comparison. */
  function CountAsWritten(n: nat, rate: U32): nat
    requires n <= 100
  {
    if n == 0 then 0 else CountAsWritten(n - 1, rate) + (if FlipsAsWritten(n - 1, rate) then 1 else 0)
  }

  /** How many of the draws 0..n-1 flip under the intended comparison. */
  function CountIntended(n: nat, rate: U32): nat
    requires n <= 100
  {
    if n == 0 then 0 else CountIntended(n - 1, rate) + (if Flips(n - 1, rate) then 1 else 0)
  }

  function Clamp(x: int, lo: int, hi: int): int
    requires lo <= hi
  {
    if x < lo then lo else if x > hi then hi else x
  }

  lemma {:induction false} CountAsWrittenIs(n: nat, rate: U32)
    requires n <= 100
    ensures CountAsWritten(n, rate) == n - Clamp((100 - rate) % U32_MOD + 1, 0, n)
  {
    if n > 0 {
      CountAsWrittenIs(n - 1, rate);
    }
  }

  lemma {:induction false} CountIntendedIs(n: nat, rate: U32)
    requires n <= 100
    ensures CountIntended(n, rate) == n - Clamp(100 - rate, 0, n)
  {
    if n > 0 {
      CountIntendedIs(n - 1, rate);
    }
  }

  /**
    As written, a rate of `p` percent (1 <= p <= 100) mispredicts on `p - 1`
    residues out of 100, a rate above 100 on none; a rate of 100 leaves a
    draw of 0 predicted correctly.
   */
  lemma AsWrittenRate(rate: U32)
    ensures 1 <= rate <= 100 ==> CountAsWritten(100, rate) == rate - 1
    ensures rate == 0 || rate > 100 ==> CountAsWritten(100, rate) == 0
    ensures !FlipsAsWritten(0, 100)
  {
    CountAsWrittenIs(100, rate);
  }

  /** Intended: a rate of `p` percent mispredicts on exactly `p` residues out of 100 (all of them from 100 on). */
  lemma IntendedRate(rate: U32)
    ensures CountIntended(100, rate) == if rate <= 100 then rate else 100
    ensures Flips(0, 100)
  {
    CountIntendedIs(100, rate);
  }

  /** With rate 0 the decision never mispredicts: it returns the actual direction. */
  lemma ZeroRateNeverMispredicts(draw: U32, isControlFlow: bool, brTaken: bool)
    ensures !Flips(draw, 0) && !FlipsAsWritten(draw, 0)
    ensures Decide(isControlFlow, brTaken, Flips(draw, 0)) == brTaken
  {
  }
}
