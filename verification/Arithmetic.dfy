/** Truncating division, and the few facts about products that the inequalities rest on. */
module Arithmetic {

  /** Division of big integers, which truncates toward zero. */
  function TruncDiv(a: int, b: int): int
    requires b != 0
  {
    if a >= 0 then a / b else -(-a / b)
  }

  function TruncMod(a: int, b: int): int
    requires b != 0
  {
    a - b * TruncDiv(a, b)
  }

  lemma MulMonotone(x: int, y: int, b: int)
    requires x <= y && 0 <= b
    ensures x * b <= y * b
  {
  }

  lemma MulLessCancel(x: int, y: int, b: int)
    requires 0 < b && x * b < y * b
    ensures x < y
  {
  }

  lemma MulCancel(x: int, y: int, b: int)
    requires 0 < b && x * b <= y * b
    ensures x <= y
  {
  }

  /** Fractions a0/s0 <= a1/s1 <= a2/s2, cross-multiplied, are transitive over a positive middle denominator. */
  lemma CrossTransitive(a0: int, s0: int, a1: int, s1: int, a2: int, s2: int)
    requires 0 <= s0 && 0 < s1 && 0 <= s2
    requires a0 * s1 <= a1 * s0 && a1 * s2 <= a2 * s1
    ensures a0 * s2 <= a2 * s0
  {
    MulMonotone(a0 * s1, a1 * s0, s2);
    MulMonotone(a1 * s2, a2 * s1, s0);
    assert (a0 * s2) * s1 == (a0 * s1) * s2;
    assert (a1 * s0) * s2 == (a1 * s2) * s0;
    assert (a2 * s1) * s0 == (a2 * s0) * s1;
    MulCancel(a0 * s2, a2 * s0, s1);
  }
}
