/** lib/format-utils.ts: abbreviating large amounts with a K, M or B
    suffix. Decimal digits of naturals are defined here too; the aporte ids
    of lib/data-utils.ts use them. */
module FormatUtils {
  import opened Numbers

  // ------------------------------------------------------ decimal digits

  function DigitChar(d: nat): (c: char)
    requires d < 10
    ensures '0' <= c <= '9'
  {
    (48 + d) as char
  }

  /** The value of a digit character; any other character reads as 0. */
  function DigitValue(c: char): (d: nat)
    ensures d < 10
  {
    if '0' <= c <= '9' then (c as int - 48) else 0
  }

  predicate IsDigits(s: string)
  {
    forall i :: 0 <= i < |s| ==> '0' <= s[i] <= '9'
  }

  /** The decimal numeral of n, without leading zeros. */
  function Digits(n: nat): (s: string)
    ensures |s| >= 1 && IsDigits(s)
    ensures |s| > 1 ==> s[0] != '0'
  {
    if n < 10 then [DigitChar(n)]
    else Digits(n / 10) + [DigitChar(n % 10)]
  }

  /** Reads a string of digits as a natural number. */
  function ValueOf(s: string): nat
  {
    if s == [] then 0 else ValueOf(s[..|s| - 1]) * 10 + DigitValue(s[|s| - 1])
  }

  /** Reading back the numeral of n gives n. */
  lemma {:induction false} ValueOfDigits(n: nat)
    ensures ValueOf(Digits(n)) == n
  {
    if n >= 10 {
      var s := Digits(n);
      assert s[..|s| - 1] == Digits(n / 10);
      ValueOfDigits(n / 10);
    }
  }

  lemma DigitsInjective(a: nat, b: nat)
    ensures Digits(a) == Digits(b) ==> a == b
  {
    ValueOfDigits(a);
    ValueOfDigits(b);
  }

  // ------------------------------------------------------ formatWithSuffix

  /** The value rounded to tenths, counted in tenths (toFixed(1) on an exact
      real: halves round up). */
  function Tenths(value: real): (t: nat)
    requires value >= 0.0
    ensures value * 10.0 - 0.5 < t as real <= value * 10.0 + 0.5
  {
    var t := Round(value * 10.0);
    assert t >= 0;
    t
  }

  /** `value.toFixed(1)`: a numeral, a point and one digit, which reads
      back as the value rounded to tenths. */
  function Fixed(value: real): (fixed: string)
    requires value >= 0.0
    ensures |fixed| >= 3 && fixed[|fixed| - 2] == '.' && IsDigits(fixed[..|fixed| - 2])
    ensures ReadDecimal(fixed) * 10.0 == Tenths(value) as real
  {
    var t := Tenths(value);
    var fixed := Digits(t / 10) + "." + [DigitChar(t % 10)];
    ValueOfDigits(t / 10);
    assert fixed[..|fixed| - 2] == Digits(t / 10);
    assert DigitValue(DigitChar(t % 10)) == t % 10;
    fixed
  }

  predicate EndsWith(s: string, suffix: string)
  {
    |suffix| <= |s| && s[|s| - |suffix|..] == suffix
  }

  /** Drops a trailing ".0" and nothing else. */
  function TrimPointZero(fixed: string): (trimmed: string)
    ensures trimmed <= fixed
    ensures EndsWith(fixed, ".0") ==> trimmed + ".0" == fixed
    ensures !EndsWith(fixed, ".0") ==> trimmed == fixed
  {
    if EndsWith(fixed, ".0") then fixed[..|fixed| - 2] else fixed
  }

  function FormatWithSuffix(value: real, suffix: string): (text: string)
    requires value >= 0.0
    ensures EndsWith(text, suffix) && |text| > |suffix|
  {
    TrimPointZero(Fixed(value)) + suffix
  }

  /** Reads "ddd" or "ddd.d" as a decimal. */
  function ReadDecimal(s: string): real
  {
    if |s| >= 2 && s[|s| - 2] == '.' then ValueOf(s[..|s| - 2]) as real + DigitValue(s[|s| - 1]) as real / 10.0
    else ValueOf(s) as real
  }

  /** The text before the suffix is the value rounded to tenths, with no
      trailing ".0": an integer numeral when the tenths digit is 0, otherwise
      a numeral, a point and a non-zero digit. */
  lemma FormatWithSuffixShape(value: real, suffix: string)
    requires value >= 0.0
    ensures var t := Tenths(value);
      var text := FormatWithSuffix(value, suffix);
      && (t % 10 == 0 ==> text == Digits(t / 10) + suffix)
      && (t % 10 != 0 ==> text == Digits(t / 10) + "." + [DigitChar(t % 10)] + suffix)
  {
    var t := Tenths(value);
    var fixed := Fixed(value);
    var d := Digits(t / 10);
    assert fixed == d + "." + [DigitChar(t % 10)];
    assert fixed[|fixed| - 2..] == ['.', DigitChar(t % 10)];
    if t % 10 == 0 {
      assert fixed[..|fixed| - 2] == d;
    } else {
      assert DigitChar(t % 10) != '0';
      assert !EndsWith(fixed, ".0");
    }
  }

  /** The number printed before the suffix reads back as the value rounded
      to the nearest tenth, so it is within 0.05 of the value. */
  lemma FormatWithSuffixReadsBack(value: real, suffix: string)
    requires value >= 0.0 && |suffix| == 1
    ensures Printed(Suffixed(FormatWithSuffix(value, suffix))) * 10.0 == Tenths(value) as real
    ensures value - 0.05 < Printed(Suffixed(FormatWithSuffix(value, suffix))) <= value + 0.05
  {
    var t := Tenths(value);
    var text := FormatWithSuffix(value, suffix);
    var body := text[..|text| - |suffix|];
    var d := Digits(t / 10);
    FormatWithSuffixShape(value, suffix);
    ValueOfDigits(t / 10);
    if t % 10 == 0 {
      assert body == d;
      assert !(|d| >= 2 && d[|d| - 2] == '.');
      assert ReadDecimal(body) == (t / 10) as real;
    } else {
      assert body == d + "." + [DigitChar(t % 10)];
      assert body[..|body| - 2] == d;
      assert DigitValue(DigitChar(t % 10)) == t % 10;
      assert ReadDecimal(body) == (t / 10) as real + (t % 10) as real / 10.0;
    }
  }

  /** A suffixed text never ends in ".0" followed by the suffix. */
  lemma FormatWithSuffixTrimmed(value: real, suffix: string)
    requires value >= 0.0
    ensures !EndsWith(FormatWithSuffix(value, suffix), ".0" + suffix)
  {
    var t := Tenths(value);
    var text := FormatWithSuffix(value, suffix);
    var d := Digits(t / 10);
    FormatWithSuffixShape(value, suffix);
    var k := |text| - |suffix|;
    if t % 10 == 0 {
      assert text[..k] == d;
      if |d| >= 2 {
        assert text[k - 2] == d[|d| - 2];
      }
    } else {
      assert text[k - 1] == DigitChar(t % 10);
    }
  }

  // ---------------------------------------------------- formatAbbreviated

  /** What formatAbbreviated returns: a suffixed text, or the number itself
      for `num.toString()`, whose printing is not modelled. */
  datatype Abbrev = Suffixed(text: string) | Plain(num: real)

  function FormatAbbreviated(num: real): (a: Abbrev)
    ensures a.Plain? <==> num < 1000.0
    ensures a.Suffixed? ==> |a.text| >= 2
    ensures a.Plain? ==> a.num == num
  {
    if num >= 1000000000.0 then Suffixed(FormatWithSuffix(InUnits(num, 1000000000.0), "B"))
    else if num >= 1000000.0 then Suffixed(FormatWithSuffix(InUnits(num, 1000000.0), "M"))
    else if num >= 1000.0 then Suffixed(FormatWithSuffix(InUnits(num, 1000.0), "K"))
    else Plain(num)
  }

  /** num counted in units of `unit`. */
  function InUnits(num: real, unit: real): real
    requires unit > 0.0
  {
    num / unit
  }

  /** The unit the suffix of a suffixed num stands for. */
  function SuffixUnit(num: real): real
  {
    if num >= 1000000000.0 then 1000000000.0 else if num >= 1000000.0 then 1000000.0 else 1000.0
  }

  /** The suffix letter names the band num falls in. */
  lemma AbbreviatedSuffix(num: real)
    ensures var a := FormatAbbreviated(num);
      && (num >= 1000000000.0 <==> a.Suffixed? && EndsWith(a.text, "B"))
      && (1000000.0 <= num < 1000000000.0 <==> a.Suffixed? && EndsWith(a.text, "M"))
      && (1000.0 <= num < 1000000.0 <==> a.Suffixed? && EndsWith(a.text, "K"))
  {
  }

  /** The number a suffixed text prints before its one-letter suffix. */
  function Printed(a: Abbrev): real
    requires a.Suffixed? && |a.text| >= 1
  {
    ReadDecimal(a.text[..|a.text| - 1])
  }

  /** A suffixed text prints num in units of its suffix, rounded to tenths:
      the printed number is within 0.05 of num divided by the unit. */
  lemma AbbreviatedReadsBack(num: real)
    requires num >= 1000.0
    ensures Printed(FormatAbbreviated(num)) * 10.0 == Tenths(InUnits(num, SuffixUnit(num))) as real
    ensures InUnits(num, SuffixUnit(num)) - 0.05 < Printed(FormatAbbreviated(num)) <= InUnits(num, SuffixUnit(num)) + 0.05
  {
    FormatWithSuffixReadsBack(InUnits(num, SuffixUnit(num)), if num >= 1000000000.0 then "B" else if num >= 1000000.0 then "M" else "K");
  }

  /** The suffix is chosen before rounding: 999950 prints as "1000K", not
      "1M". */
  lemma ThousandK()
    ensures FormatAbbreviated(999950.0) == Suffixed("1000K")
  {
    assert InUnits(999950.0, 1000.0) == 999.95;
    assert Tenths(999.95) == 10000;
    assert Digits(1) == "1";
    assert Digits(10) == "10";
    assert Digits(100) == "100";
    assert Digits(1000) == "1000";
    FormatWithSuffixShape(999.95, "K");
  }
}
