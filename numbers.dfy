/**
 * Decimal renderings the plugin passes to the reporter's command line: `Integer.toString`
 * for the line and cursor fields, `BigDecimal.toPlainString` for the timestamp, and the
 * `(int)` cast that narrows the line count.
 */
module Numbers {
  import opened Wrappers

  predicate IsDigit(c: char) {
    '0' <= c <= '9'
  }

  predicate AllDigits(s: string) {
    forall i :: 0 <= i < |s| ==> IsDigit(s[i])
  }

  function DigitChar(d: nat): (c: char)
    requires d < 10
    ensures IsDigit(c) && c as int - '0' as int == d
  {
    ('0' as int + d) as char
  }

  function DigitValue(c: char): (d: nat)
    requires IsDigit(c)
    ensures d < 10 && DigitChar(d) == c
  {
    c as int - '0' as int
  }

  /** The decimal digits of `n`, most significant first, without leading zeros. */
  function NatToString(n: nat): (s: string)
    ensures |s| >= 1 && AllDigits(s)
    ensures s[0] == '0' ==> n == 0
  {
    if n < 10 then [DigitChar(n)] else NatToString(n / 10) + [DigitChar(n % 10)]
  }

  /** The value of a string of decimal digits. */
  function DigitsValue(s: string): nat
    requires AllDigits(s)
  {
    if s == [] then 0 else DigitsValue(s[..|s| - 1]) * 10 + DigitValue(s[|s| - 1])
  }

  /** Reading back the digits of `n` gives `n`. */
  lemma {:induction false} DigitsValueOfNatToString(n: nat)
    ensures DigitsValue(NatToString(n)) == n
  {
    if n >= 10 {
      var s := NatToString(n);
      assert s[..|s| - 1] == NatToString(n / 10);
      DigitsValueOfNatToString(n / 10);
    }
  }

  /** `Integer.toString(n)` and `Long.toString(n)`: a minus sign, then the digits of |n|. */
  function IntToString(n: int): (s: string)
    ensures |s| >= 1
    ensures (s[0] == '-') <==> n < 0
  {
    if n < 0 then "-" + NatToString(-n) else NatToString(n)
  }

  /** `Integer.parseInt` on the strings `IntToString` produces. */
  function ParseInt(s: string): (r: Option<int>) {
    if |s| > 0 && s[0] == '-' then
      if |s| > 1 && AllDigits(s[1..]) then Some(0 - DigitsValue(s[1..]) as int) else None
    else if |s| > 0 && AllDigits(s) then Some(DigitsValue(s))
    else None
  }

  /** The reporter reads back exactly the integer the plugin rendered. */
  lemma IntToStringRoundTrip(n: int)
    ensures ParseInt(IntToString(n)) == Some(n)
  {
    if n < 0 {
      assert IntToString(n)[1..] == NatToString(-n);
      DigitsValueOfNatToString(-n);
    } else {
      DigitsValueOfNatToString(n);
    }
  }

  const TwoTo31: int := 0x8000_0000
  const TwoTo32: int := 0x1_0000_0000

  /** The values of a Java `int` (and of a non-null `Integer`). */
  type Int32 = n: int | -0x8000_0000 <= n < 0x8000_0000

  /** Java's narrowing `(int)` cast: keep the low 32 bits, read them as two's complement. */
  function ToInt32(n: int): (r: int)
    ensures -TwoTo31 <= r < TwoTo31
    ensures (r - n) % TwoTo32 == 0
  {
    (n + TwoTo31) % TwoTo32 - TwoTo31
  }

  /** The cast does not change a value that already fits in 32 bits. */
  lemma ToInt32Identity(n: int)
    requires -TwoTo31 <= n < TwoTo31
    ensures ToInt32(n) == n
  {
  }

  /**
   * A `BigDecimal` of scale 4: `units` counts ten-thousandths. The timestamps of the plugin
   * are always of this form (`setScale(4, HALF_UP)`).
   */
  datatype Decimal4 = Decimal4(units: int)

  /** The timestamp `new BigDecimal(millis / 1000.0).setScale(4, HALF_UP)` for a clock reading. */
  function TimestampOfMillis(millis: nat): (t: Decimal4)
    ensures t.units == millis * 10
  {
    Decimal4(millis * 10)
  }

  /** Four decimal digits of `f`, with leading zeros. */
  function FourDigits(f: nat): (s: string)
    requires f < 10000
    ensures |s| == 4 && AllDigits(s)
  {
    [DigitChar(f / 1000), DigitChar(f / 100 % 10), DigitChar(f / 10 % 10), DigitChar(f % 10)]
  }

  /** `toPlainString()` of a scale-4 decimal: sign, integral digits, a point, four fraction digits. */
  function PlainString(t: Decimal4): (s: string)
    ensures |s| >= 6 && s[|s| - 5] == '.'
    ensures AllDigits(s[|s| - 4..])
  {
    var m := if t.units < 0 then -t.units else t.units;
    var body := NatToString(m / 10000) + "." + FourDigits(m % 10000);
    assert body[|body| - 4..] == FourDigits(m % 10000);
    if t.units < 0 then "-" + body else body
  }

  /** Reads a plain decimal string with exactly four fraction digits. */
  function ParsePlain(s: string): (r: Option<Decimal4>) {
    var neg := |s| > 0 && s[0] == '-';
    var b := if neg then s[1..] else s;
    if |b| >= 6 && b[|b| - 5] == '.' && AllDigits(b[..|b| - 5]) && AllDigits(b[|b| - 4..]) then
      var m := DigitsValue(b[..|b| - 5]) * 10000 + DigitsValue(b[|b| - 4..]);
      Some(Decimal4(if neg then -m else m))
    else None
  }

  lemma FourDigitsValue(f: nat)
    requires f < 10000
    ensures DigitsValue(FourDigits(f)) == f
  {
    var s := FourDigits(f);
    assert s[..3][..2] == s[..2] && s[..2][..1] == s[..1] && s[..1][..0] == [];
    assert DigitsValue(s[..1]) == f / 1000;
    assert DigitsValue(s[..2]) == f / 100;
    assert DigitsValue(s[..3]) == f / 10;
  }

  /** The unsigned part `digits.dddd` of a rendering splits back into its two numbers. */
  lemma PlainBodyParts(m: nat)
    ensures var b := NatToString(m / 10000) + "." + FourDigits(m % 10000);
      |b| >= 6 && b[|b| - 5] == '.' && b[0] != '-'
      && b[..|b| - 5] == NatToString(m / 10000) && b[|b| - 4..] == FourDigits(m % 10000)
  {
    var head := NatToString(m / 10000);
    var b := head + "." + FourDigits(m % 10000);
    assert b[..|b| - 5] == head;
    assert b[|b| - 4..] == FourDigits(m % 10000);
  }

  /** The digits and the fraction of a body read back as the magnitude it encodes. */
  lemma ParseBodyValue(m: nat)
    ensures var b := NatToString(m / 10000) + "." + FourDigits(m % 10000);
      AllDigits(b[..|b| - 5]) && AllDigits(b[|b| - 4..])
      && DigitsValue(b[..|b| - 5]) * 10000 + DigitsValue(b[|b| - 4..]) == m
  {
    PlainBodyParts(m);
    DigitsValueOfNatToString(m / 10000);
    FourDigitsValue(m % 10000);
  }

  /** `ParsePlain` on a well-formed unsigned body, with and without a leading minus sign. */
  lemma ParsePlainOfBody(b: string, m: nat)
    requires |b| >= 6 && b[|b| - 5] == '.' && b[0] != '-'
    requires AllDigits(b[..|b| - 5]) && AllDigits(b[|b| - 4..])
    requires DigitsValue(b[..|b| - 5]) * 10000 + DigitsValue(b[|b| - 4..]) == m
    ensures ParsePlain(b) == Some(Decimal4(m))
    ensures ParsePlain("-" + b) == Some(Decimal4(-(m as int)))
  {
    assert ("-" + b)[1..] == b;
  }

  /** A rendering is its magnitude's body, behind a minus sign when negative. */
  lemma PlainStringShape(t: Decimal4)
    ensures var m := if t.units < 0 then -t.units else t.units;
      var body := NatToString(m / 10000) + "." + FourDigits(m % 10000);
      PlainString(t) == if t.units < 0 then "-" + body else body
  {
  }

  /** The body of a magnitude reads back as it, and as its negation behind a minus sign. */
  lemma ParsePlainOfMagnitude(m: nat)
    ensures var body := NatToString(m / 10000) + "." + FourDigits(m % 10000);
      ParsePlain(body) == Some(Decimal4(m)) && ParsePlain("-" + body) == Some(Decimal4(-(m as int)))
  {
    var body := NatToString(m / 10000) + "." + FourDigits(m % 10000);
    PlainBodyParts(m);
    ParseBodyValue(m);
    ParsePlainOfBody(body, m);
  }

  /** The timestamp the reporter reads from `--time` is the one the heartbeat carries. */
  lemma PlainStringRoundTrip(t: Decimal4)
    ensures ParsePlain(PlainString(t)) == Some(t)
  {
    var m: nat := if t.units < 0 then -t.units else t.units;
    ParsePlainOfMagnitude(m);
    PlainStringShape(t);
  }

  /**
   * The `--time` text of a clock reading: the whole seconds, a point, then the three digits
   * of the milliseconds and a 0, since a thousandth of a second needs only three of the four
   * decimals.
   */
  lemma TimestampText(millis: nat)
    ensures var t := PlainString(TimestampOfMillis(millis));
      t == NatToString(millis / 1000) + "." + FourDigits(millis % 1000 * 10)
      && t[|t| - 1] == '0'
  {
    var q := millis / 1000;
    var r := millis % 1000;
    assert millis * 10 == q * 10000 + r * 10;
    assert 0 <= r * 10 < 10000;
    assert millis * 10 / 10000 == q && millis * 10 % 10000 == r * 10 by {
      SplitTenThousandths(millis * 10, q, r * 10);
    }
  }

  /** Whole units and ten-thousandths are the only pair that rebuilds `n`. */
  lemma SplitTenThousandths(n: nat, q: nat, r: nat)
    requires r < 10000 && n == q * 10000 + r
    ensures n / 10000 == q && n % 10000 == r
  {
  }

  /** The rendering of the example instant 100 s after the epoch. */
  lemma PlainStringExample()
    ensures PlainString(TimestampOfMillis(100000)) == "100.0000"
  {
    assert NatToString(100) == "100";
  }

  /** A negative value keeps its sign in front of the leading zero. */
  lemma NegativePlainStringExample()
    ensures PlainString(Decimal4(-5)) == "-0.0005"
  {
  }
}
