/** The arithmetic of refilling a token bucket, over exact reals. */
module TokenRefill {

  function MinReal(a: real, b: real): real {
    if a <= b then a else b
  }

  function NotNegative(x: real): real {
    if x < 0.0 then 0.0 else x
  }

  /** How far a reading falls behind an earlier one. */
  function Behind(from: int, to: int): nat {
    if to < from then from - to else 0
  }

  /** What a rate adds in a number of milliseconds. */
  function Accrued(rate: real, ms: int): real {
    ms as real / 1000.0 * rate
  }

  lemma AccruedSplit(rate: real, a: int, b: int)
    ensures Accrued(rate, a + b) == Accrued(rate, a) + Accrued(rate, b)
  {
  }

  /** A rate is what accrues in a second. */
  lemma AccruedPerSecond(rate: real, seconds: int)
    ensures Accrued(rate, 1000 * seconds) == seconds as real * rate
  {
  }

  lemma AccruedSign(rate: real, ms: int)
    requires rate >= 0.0
    ensures ms >= 0 ==> Accrued(rate, ms) >= 0.0
    ensures ms <= 0 ==> Accrued(rate, ms) <= 0.0
    ensures rate > 0.0 && ms > 0 ==> Accrued(rate, ms) > 0.0
  {
  }

  lemma AccruedMonotone(rate: real, a: int, b: int)
    requires rate >= 0.0 && a <= b
    ensures Accrued(rate, a) <= Accrued(rate, b)
  {
    hide Accrued;
    AccruedSplit(rate, a, b - a);
    AccruedSign(rate, b - a);
  }
}
