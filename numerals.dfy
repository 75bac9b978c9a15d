/**
 * Decimal numerals as the core reads and writes them: Python's `int(text)`,
 * `float(text)` (restricted to plain decimal notation), `str(n)`, the `02d`
 * format and the `repr` of the few float values the core prints.
 */
module Numerals {

  import opened Wrappers
  import opened Text

  predicate IsDigit(c: char)
  {
    '0' <= c <= '9'
  }

  predicate AllDigits(s: string)
  {
    forall k :: 0 <= k < |s| ==> IsDigit(s[k])
  }

  function DigitValue(c: char): (d: nat)
    requires IsDigit(c)
    ensures d < 10
  {
    c as int - '0' as int
  }

  function DigitChar(d: nat): (c: char)
    requires d < 10
    ensures IsDigit(c) && DigitValue(c) == d
  {
    ('0' as int + d) as char
  }

  /** The value of a string of decimal digits, most significant first ("" is 0). */
  function DigitsValue(s: string): nat
    requires AllDigits(s)
    decreases |s|
  {
    if |s| == 0 then 0 else 10 * DigitsValue(s[..|s| - 1]) + DigitValue(s[|s| - 1])
  }

  function Pow10(n: nat): (p: nat)
    ensures p >= 1
  {
    if n == 0 then 1 else 10 * Pow10(n - 1)
  }

  /** A string of n digits has a value below 10^n. */
  lemma {:induction false} DigitsValueBound(s: string)
    requires AllDigits(s)
    ensures DigitsValue(s) < Pow10(|s|)
    decreases |s|
  {
    if |s| > 0 {
      DigitsValueBound(s[..|s| - 1]);
    }
  }

  /** The sign of a numeral once stripped: `-` gives true; the body follows any `+`/`-`. */
  function SignedBody(t: string): (bool, string)
  {
    if |t| > 0 && (t[0] == '+' || t[0] == '-') then (t[0] == '-', t[1..]) else (false, t)
  }

  /**
   * Python's `int(text)`: surrounding whitespace, an optional sign and one or
   * more digits. (Python also accepts `_` between digits and non-ASCII digits.)
   */
  function ParseInt(s: string): Option<int>
  {
    var (neg, body) := SignedBody(Trim(s));
    if |body| > 0 && AllDigits(body) then Some(if neg then -(DigitsValue(body) as int) else DigitsValue(body))
    else None
  }

  /** A decimal numeral: sign, the digits before the point and the digits after it. */
  datatype Decimal = Decimal(negative: bool, whole: string, fraction: string)
  {
    predicate Valid()
    {
      AllDigits(whole) && AllDigits(fraction) && |whole| + |fraction| > 0
    }

    /** `int(float(text))`: the value truncated toward zero. */
    function Truncated(): int
      requires Valid()
    {
      if negative then -(DigitsValue(whole) as int) else DigitsValue(whole)
    }

    /** The exact value of the numeral. */
    function Value(): real
      requires Valid()
    {
      var v := DigitsValue(whole) as real + DigitsValue(fraction) as real / Pow10(|fraction|) as real;
      if negative then -v else v
    }
  }

  /** The index of the first occurrence of c, if any. */
  function IndexOfChar(s: string, c: char): (r: Option<nat>)
    ensures r.Some? ==> r.value < |s| && s[r.value] == c && c !in s[..r.value]
    ensures r.None? ==> c !in s
    decreases |s|
  {
    if |s| == 0 then None
    else if s[0] == c then Some(0)
    else match IndexOfChar(s[1..], c)
      case None => None
      case Some(k) => assert s[1..][..k] == s[1..k + 1]; Some(k + 1)
  }

  /**
   * Python's `float(text)` restricted to plain decimal notation: surrounding
   * whitespace, an optional sign, digits with at most one point, at least one
   * digit. Exponents, `inf`, `nan` and `_` are not part of the model.
   */
  function ParseDecimal(s: string): (r: Option<Decimal>)
    ensures r.Some? ==> r.value.Valid()
  {
    var (neg, body) := SignedBody(Trim(s));
    match IndexOfChar(body, '.')
    case None =>
      if |body| > 0 && AllDigits(body) then Some(Decimal(neg, body, "")) else None
    case Some(k) =>
      var whole, fraction := body[..k], body[k + 1..];
      if AllDigits(whole) && AllDigits(fraction) && |whole| + |fraction| > 0
      then Some(Decimal(neg, whole, fraction)) else None
  }

  /** The sign of a parsed number is the sign in front of its digits. */
  lemma ParseDecimalSign(s: string)
    ensures ParseDecimal(s).Some? ==> |Trim(s)| > 0 && ParseDecimal(s).value.negative == SignedBody(Trim(s)).0
  {
  }

  /** Without a minus sign a number is not negative. */
  lemma DecimalNotNegative(d: Decimal)
    requires d.Valid() && !d.negative
    ensures d.Value() >= 0.0
  {
    var f := DigitsValue(d.fraction) as real / Pow10(|d.fraction|) as real;
    assert f >= 0.0;
  }

  /** `str(n)` for a natural number. */
  function NatToString(n: nat): (r: string)
    ensures |r| >= 1 && AllDigits(r)
    decreases n
  {
    if n < 10 then [DigitChar(n)] else NatToString(n / 10) + [DigitChar(n % 10)]
  }

  /** `str(i)` for an integer. */
  function IntToString(i: int): string
  {
    if i < 0 then "-" + NatToString(-i) else NatToString(i)
  }

  /** `f"{i:02d}"`: at least two characters, zero-padded for 0..9. */
  function Pad2(i: int): string
  {
    if 0 <= i < 10 then "0" + NatToString(i) else IntToString(i)
  }

  /** Reading back what `NatToString` wrote gives the number. */
  lemma {:induction false} NatToStringValue(n: nat)
    ensures DigitsValue(NatToString(n)) == n
    decreases n
  {
    if n >= 10 {
      NatToStringValue(n / 10);
      var s := NatToString(n);
      assert s[..|s| - 1] == NatToString(n / 10);
    }
  }

  /** Characters that may appear in a numeral. */
  predicate NumeralChar(c: char)
  {
    IsDigit(c) || c == '-' || c == '.'
  }

  /** A numeral is its own strip. */
  lemma NumeralTrim(s: string)
    requires forall k :: 0 <= k < |s| ==> NumeralChar(s[k])
    ensures Trim(s) == s
  {
    forall k | 0 <= k < |s| ensures !IsSpace(s[k]) {
      assert NumeralChar(s[k]);
    }
    TrimNoSpace(s);
  }

  /** `int(str(n)) == n` for a natural number. */
  lemma ParseNatRoundTrip(n: nat)
    ensures ParseInt(NatToString(n)) == Some(n)
  {
    var digits := NatToString(n);
    NatToStringValue(n);
    NumeralTrim(digits);
    assert IsDigit(digits[0]);
    assert SignedBody(Trim(digits)) == (false, digits);
  }

  /** A non-empty run of digits reads as its value. */
  lemma ParseDigits(digits: string)
    requires |digits| > 0 && AllDigits(digits)
    ensures ParseInt(digits) == Some(DigitsValue(digits))
  {
    NumeralTrim(digits);
    assert IsDigit(digits[0]);
    assert SignedBody(Trim(digits)) == (false, digits);
  }

  /** Distinct naturals print differently. */
  lemma NatToStringInjective(a: nat, b: nat)
    requires NatToString(a) == NatToString(b)
    ensures a == b
  {
    NatToStringValue(a);
    NatToStringValue(b);
  }

  /** Python's `repr` of the float `q / 4` for q >= 0, as `round(x, 2)` leaves it. */
  function QuartersText(q: nat): string
  {
    NatToString(q / 4) + "." + QuarterDigits(q % 4)
  }

  /** The digits after the point of `repr(r / 4)` for r in 0..3. */
  function QuarterDigits(r: nat): (f: string)
    requires r < 4
    ensures |f| > 0 && AllDigits(f)
  {
    if r == 0 then "0" else if r == 1 then "25" else if r == 2 then "5" else "75"
  }

  lemma QuarterDigitsValue(r: nat)
    requires r < 4
    ensures DigitsValue(QuarterDigits(r)) as real / Pow10(|QuarterDigits(r)|) as real == r as real / 4.0
  {
    var f := QuarterDigits(r);
    if r == 1 || r == 3 {
      assert f[..1] == [f[0]];
      assert f[..1][..0] == [];
      assert DigitsValue(f[..1]) == DigitValue(f[0]);
      assert Pow10(2) == 100;
    } else {
      assert Pow10(1) == 10;
      assert DigitsValue(f) == DigitValue(f[0]);
    }
  }

  /** "whole.frac" is its own strip. */
  lemma PointTextTrim(whole: string, frac: string)
    requires AllDigits(whole) && AllDigits(frac)
    ensures Trim(whole + "." + frac) == whole + "." + frac
  {
    var s := whole + "." + frac;
    forall k | 0 <= k < |s| ensures NumeralChar(s[k]) {
      if k < |whole| {
        assert s[k] == whole[k];
      } else if k > |whole| {
        assert s[k] == frac[k - |whole| - 1];
      }
    }
    NumeralTrim(s);
  }

  /** The first occurrence of c is at or before any position holding c. */
  lemma {:induction false} IndexOfCharAtMost(s: string, c: char, i: nat)
    requires i < |s| && s[i] == c
    ensures IndexOfChar(s, c).Some? && IndexOfChar(s, c).value <= i
    decreases i
  {
    if s[0] != c {
      IndexOfCharAtMost(s[1..], c, i - 1);
    }
  }

  /** In "whole.frac" the first point is the one after the whole digits. */
  lemma PointTextIndex(whole: string, frac: string)
    requires AllDigits(whole)
    ensures IndexOfChar(whole + "." + frac, '.') == Some(|whole|)
  {
    var s := whole + "." + frac;
    IndexOfCharAtMost(s, '.', |whole|);
    assert forall k :: 0 <= k < |whole| ==> s[k] == whole[k] && IsDigit(whole[k]);
  }

  lemma PointTextSigned(whole: string, frac: string)
    requires |whole| > 0 && AllDigits(whole)
    ensures SignedBody(whole + "." + frac) == (false, whole + "." + frac)
  {
    assert (whole + "." + frac)[0] == whole[0];
    assert IsDigit(whole[0]);
  }

  /** `float` reads a stripped, unsigned "whole.frac" as its two digit runs. */
  lemma ParseDecimalOfPoint(s: string, whole: string, frac: string)
    requires SignedBody(Trim(s)) == (false, s) && IndexOfChar(s, '.') == Some(|whole|)
    requires s[..|whole|] == whole && s[|whole| + 1..] == frac
    requires AllDigits(whole) && AllDigits(frac) && |whole| > 0
    ensures ParseDecimal(s) == Some(Decimal(false, whole, frac))
  {
  }

  lemma PointTextParts(whole: string, frac: string)
    ensures (whole + "." + frac)[..|whole|] == whole && (whole + "." + frac)[|whole| + 1..] == frac
  {
    var s := whole + "." + frac;
    assert s[..|whole|] == whole;
    assert s[|whole| + 1..] == frac;
  }

  /** `float(text)` reads "w.f" back as its whole and fractional digits. */
  lemma PointNumeral(whole: string, frac: string)
    requires |whole| > 0 && AllDigits(whole) && AllDigits(frac)
    ensures ParseDecimal(whole + "." + frac) == Some(Decimal(false, whole, frac))
  {
    PointTextTrim(whole, frac);
    PointTextSigned(whole, frac);
    PointTextIndex(whole, frac);
    PointTextParts(whole, frac);
    ParseDecimalOfPoint(whole + "." + frac, whole, frac);
  }

  /** What `QuartersText` prints reads back, through `float(text)`, as exactly q / 4. */
  lemma QuartersTextRoundTrip(q: nat)
    ensures ParseDecimal(QuartersText(q)).Some?
    ensures ParseDecimal(QuartersText(q)).value.Value() == q as real / 4.0
  {
    var w, r := q / 4, q % 4;
    NatToStringValue(w);
    PointNumeral(NatToString(w), QuarterDigits(r));
    QuarterDigitsValue(r);
    assert q as real / 4.0 == w as real + r as real / 4.0;
  }
}
