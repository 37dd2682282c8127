/** lib/color-utils.ts: the colour of a payment amount, interpolated in HSL
    along a six-stop gradient from white to deep blue. */
module ColorUtils {
  import opened Numbers
  import opened Types
  import opened Constants

  /** White, three mints, teal-blue, deep blue. */
  const ColorStops: seq<Color> := [
    Hsl(0, 0, 100),
    Hsl(142, 20, 95),
    Hsl(142, 40, 85),
    Hsl(142, 60, 70),
    Hsl(200, 75, 50),
    Hsl(217, 80, 45)
  ]

  const LastStop: nat := |ColorStops| - 1

  /** The amount's place in [MIN_PAYMENT, MAX_PAYMENT], clamped to [0, 1]. */
  function Clamped(value: real): (c: real)
    ensures 0.0 <= c <= 1.0
    ensures value <= MinPayment ==> c == 0.0
    ensures value >= MaxPayment ==> c == 1.0
    ensures MinPayment <= value <= MaxPayment ==> c * (MaxPayment - MinPayment) == value - MinPayment
  {
    var normalized := (value - MinPayment) / (MaxPayment - MinPayment);
    Max(0.0, Min(1.0, normalized))
  }

  /** Position on the stop sequence, in [0, LastStop]. */
  function StopIndex(value: real): real
  {
    Clamped(value) * LastStop as real
  }

  /** Index of the stop at or below the position. */
  function LowerStop(value: real): (i: nat)
    ensures i <= LastStop
  {
    Floor(StopIndex(value))
  }

  /** Index of the stop above the position; the last stop pairs with itself. */
  function UpperStop(value: real): (j: nat)
    ensures j <= LastStop
    ensures j == LowerStop(value) + 1 || j == LowerStop(value) == LastStop
  {
    IntMin(Floor(StopIndex(value)) + 1, LastStop)
  }

  /** How far the position lies past the lower stop. */
  function Fraction(value: real): (t: real)
    ensures 0.0 <= t < 1.0
  {
    StopIndex(value) - Floor(StopIndex(value)) as real
  }

  /** One rounded, linearly interpolated component (no hue wrap-around). */
  function Lerp(a: int, b: int, t: real): int
  {
    Round(a as real + (b - a) as real * t)
  }

  /** getPaymentColor: each of h, s and l lies between the lower and the
      upper stop's. */
  function PaymentColor(value: real): (c: Color)
    ensures var lo, hi := ColorStops[LowerStop(value)], ColorStops[UpperStop(value)];
      && IntMin(lo.h, hi.h) <= c.h <= IntMax(lo.h, hi.h)
      && IntMin(lo.s, hi.s) <= c.s <= IntMax(lo.s, hi.s)
      && IntMin(lo.l, hi.l) <= c.l <= IntMax(lo.l, hi.l)
  {
    var lower := ColorStops[LowerStop(value)];
    var upper := ColorStops[UpperStop(value)];
    var t := Fraction(value);
    LerpBetween(lower.h, upper.h, t);
    LerpBetween(lower.s, upper.s, t);
    LerpBetween(lower.l, upper.l, t);
    Hsl(Lerp(lower.h, upper.h, t), Lerp(lower.s, upper.s, t), Lerp(lower.l, upper.l, t))
  }

  /** A rounded interpolation stays between its two ends, and is the first
      end exactly when t is 0. */
  lemma LerpBetween(a: int, b: int, t: real)
    requires 0.0 <= t <= 1.0
    ensures IntMin(a, b) <= Lerp(a, b, t) <= IntMax(a, b)
    ensures t == 0.0 ==> Lerp(a, b, t) == a
  {
    var x := a as real + (b - a) as real * t;
    if a <= b {
      assert (b - a) as real * t <= (b - a) as real;
    } else {
      assert (a - b) as real * t <= (a - b) as real;
    }
    RoundBetween(x, IntMin(a, b), IntMax(a, b));
  }

  /** With no fractional part the colour is the lower stop, exactly. */
  lemma PaymentColorOnStop(value: real)
    requires Fraction(value) == 0.0
    ensures PaymentColor(value) == ColorStops[LowerStop(value)]
  {
    var lo, hi := ColorStops[LowerStop(value)], ColorStops[UpperStop(value)];
    LerpBetween(lo.h, hi.h, 0.0);
    LerpBetween(lo.s, hi.s, 0.0);
    LerpBetween(lo.l, hi.l, 0.0);
  }

  /** The amount MIN_PAYMENT + k/5 of the range gets stop k exactly. */
  lemma PaymentColorAtStopValue(k: nat)
    requires k <= LastStop
    ensures PaymentColor(MinPayment + k as real * (MaxPayment - MinPayment) / LastStop as real) == ColorStops[k]
  {
    var value := MinPayment + k as real * (MaxPayment - MinPayment) / LastStop as real;
    assert Clamped(value) == k as real / LastStop as real;
    assert StopIndex(value) == k as real;
    PaymentColorOnStop(value);
  }

  /** Amounts at or below MIN_PAYMENT are white, hsl(0, 0%, 100%). */
  lemma PaymentColorBelowRange(value: real)
    requires value <= MinPayment
    ensures PaymentColor(value) == Hsl(0, 0, 100)
  {
    assert StopIndex(value) == 0.0;
    PaymentColorOnStop(value);
  }

  /** Amounts at or above MAX_PAYMENT are deep blue, hsl(217, 80%, 45%). */
  lemma PaymentColorAboveRange(value: real)
    requires value >= MaxPayment
    ensures PaymentColor(value) == Hsl(217, 80, 45)
  {
    assert StopIndex(value) == 5.0;
    PaymentColorOnStop(value);
  }

  /** STANDARD_PAYMENT sits 4/9 of the way along the range, 2/9 past the
      third stop, and is hsl(142, 44%, 82%). */
  lemma StandardPaymentColor()
    ensures PaymentColor(StandardPayment) == Hsl(142, 44, 82)
  {
    var t := 2.0 / 9.0;
    assert Clamped(StandardPayment) == 4.0 / 9.0;
    assert StopIndex(StandardPayment) == 20.0 / 9.0;
    assert LowerStop(StandardPayment) == 2 && UpperStop(StandardPayment) == 3;
    assert Fraction(StandardPayment) == t;
    assert Lerp(142, 142, t) == 142 by { RoundOfInt(142); }
    assert Round(40.0 + 20.0 * t) == 44;
    assert Round(85.0 + -15.0 * t) == 82;
  }

  /** No payment colour is darker than the last stop, so none is the mora
      colour, hsl(52, 50%, 14%). */
  lemma PaymentColorIsNotMora(value: real)
    ensures 45 <= PaymentColor(value).l <= 100
    ensures PaymentColor(value) != MoraColor
  {
  }
}
