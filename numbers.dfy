/** Arithmetic helpers shared by the model: JavaScript's Math.floor, Math.ceil,
    Math.round, Math.min, Math.max and Math.abs on real numbers, and the
    square root of three, which the source obtains from Math.sqrt(3). */
module Numbers {

  function Min(a: real, b: real): real { if a <= b then a else b }

  function Max(a: real, b: real): real { if a >= b then a else b }

  function Abs(i: int): nat { if i < 0 then -i else i }

  function IntMin(a: int, b: int): int { if a <= b then a else b }

  function IntMax(a: int, b: int): int { if a >= b then a else b }

  /** Math.floor */
  function Floor(x: real): int { x.Floor }

  /** Math.ceil: the least integer not below x. */
  function Ceil(x: real): (c: int)
    ensures x <= c as real < x + 1.0
  {
    -((-x).Floor)
  }

  /** Math.round: halves round up, towards positive infinity. */
  function Round(x: real): (n: int)
    ensures x - 0.5 < n as real <= x + 0.5
  {
    (x + 0.5).Floor
  }

  /** Rounding an integer gives it back, and rounding keeps within integer bounds. */
  lemma RoundBetween(x: real, lo: int, hi: int)
    requires lo as real <= x <= hi as real
    ensures lo <= Round(x) <= hi
  {
  }

  lemma RoundOfInt(n: int)
    ensures Round(n as real) == n
  {
  }

  /** `1 + pct / 100`: the factor a percentage change scales by. */
  function PercentFactor(pct: real): real { 1.0 + pct / 100.0 }

  /** Math.sqrt(3) is not a Dafny term: every member that needs it takes a
      value s3 with this property instead. */
  predicate IsSqrt3(s3: real) { s3 > 0.0 && s3 * s3 == 3.0 }
}
