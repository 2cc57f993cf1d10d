/** Rounding to the nearest minor unit, half away from zero, and powers. */
module Rounding {

  function Round(x: real): int {
    if x >= 0.0 then (x + 0.5).Floor else -((0.5 - x).Floor)
  }

  lemma RoundIsNear(x: real)
    ensures Round(x) as real - x <= 0.5 && x - Round(x) as real <= 0.5
  {
  }

  lemma RoundMonotone(x: real, y: real)
    requires x <= y
    ensures Round(x) <= Round(y)
  {
    RoundIsNear(x);
    RoundIsNear(y);
  }

  lemma RoundNonNegative(x: real)
    requires x >= 0.0
    ensures Round(x) >= 0
  {
  }

  function Pow(x: real, n: nat): real {
    if n == 0 then 1.0 else x * Pow(x, n - 1)
  }

  lemma {:induction false} PowAtLeastOne(x: real, n: nat)
    requires x >= 1.0
    ensures Pow(x, n) >= 1.0
  {
    if n > 0 {
      PowAtLeastOne(x, n - 1);
      assert x * Pow(x, n - 1) >= 1.0 * Pow(x, n - 1);
    }
  }

  lemma PowGreaterThanOne(x: real, n: nat)
    requires x > 1.0 && n > 0
    ensures Pow(x, n) > 1.0
  {
    PowAtLeastOne(x, n - 1);
    assert x * Pow(x, n - 1) >= x * 1.0;
  }
}
