/** Exact decimal amounts as the script handles them with Python's `Decimal`: parsing the text of
    a tag, and writing a sum back quantized to 0.01 with ROUND_HALF_UP. */
module Money {
  import opened Wrappers
  import opened Text

  function Pow10(n: nat): (p: nat)
    ensures p >= 1
  {
    if n == 0 then 1 else 10 * Pow10(n - 1)
  }

  /** Digits with at most one decimal point and at least one digit: "12", "12.5", ".5", "12.". */
  function ParseUnsigned(s: string): Option<real>
  {
    var parts := Split(s, '.');
    if |parts| == 1 && |s| > 0 && AllDigits(s) then Some(DigitsValue(s) as real)
    else if |parts| == 2 && AllDigits(parts[0]) && AllDigits(parts[1]) && |parts[0]| + |parts[1]| > 0 then
      Some(DigitsValue(parts[0]) as real + DigitsValue(parts[1]) as real / Pow10(|parts[1]|) as real)
    else None
  }

  /** `Decimal(text)` for plain decimal notation with an optional sign; `None` where `Decimal` raises. */
  function ParseDecimal(s: string): Option<real>
  {
    if |s| > 0 && (s[0] == '-' || s[0] == '+') then
      match ParseUnsigned(s[1..])
      case None => None
      case Some(v) => Some(if s[0] == '-' then -v else v)
    else ParseUnsigned(s)
  }

  /** Hundredths of `x` after `quantize(Decimal('0.01'), rounding=ROUND_HALF_UP)`:
      to the nearest cent, ties away from zero. */
  function RoundHalfUpCents(x: real): int
  {
    if x >= 0.0 then (x * 100.0 + 0.5).Floor else -((-x) * 100.0 + 0.5).Floor
  }

  function Abs(n: int): nat { if n < 0 then -n else n }

  /** `f"{x.quantize(Decimal('0.01'), rounding=ROUND_HALF_UP)}"`: a sign when `x` is negative
      (Decimal keeps "-0.00" for a small negative amount), the whole part, a point, two decimals. */
  function FormatAmount(x: real): string
  {
    var c := Abs(RoundHalfUpCents(x));
    (if x < 0.0 then "-" else "") + NatToString(c / 100) + "." + Pad2(c % 100)
  }

  /** ROUND_HALF_UP rounds to the nearest cent, and a tie goes away from zero. */
  lemma RoundHalfUpNearest(x: real)
    ensures var c := RoundHalfUpCents(x) as real;
      && -0.5 <= x * 100.0 - c <= 0.5
      && (x * 100.0 - c == 0.5 ==> x < 0.0)
      && (x * 100.0 - c == -0.5 ==> x > 0.0)
  {
  }

  /** Splitting "a.b" on the point, where neither side holds a point, gives back the two sides. */
  lemma {:induction false} SplitAtPoint(a: string, b: string)
    requires '.' !in a && '.' !in b
    ensures Split(a + "." + b, '.') == [a, b]
    decreases |a|
  {
    if a == [] {
      assert a + "." + b == ['.'] + b;
      SplitNoPoint(b);
    } else {
      SplitAtPoint(a[1..], b);
      assert (a + "." + b)[1..] == a[1..] + "." + b;
      assert (a + "." + b)[0] == a[0] && a[0] in a;
      assert [a[0]] + a[1..] == a;
    }
  }

  lemma {:induction false} SplitNoPoint(b: string)
    requires '.' !in b
    ensures Split(b, '.') == [b]
    decreases |b|
  {
    if b != [] {
      SplitNoPoint(b[1..]);
      assert b[0] in b;
      assert [b[0]] + b[1..] == b;
    }
  }

  lemma DigitsHaveNoPoint(s: string)
    requires AllDigits(s)
    ensures '.' !in s
  {
  }

  /** Reading back an amount the script wrote gives the rounded amount: the text written to
      `vIPI` or `vNF` is a valid `Decimal` whose value is the sum quantized to 0.01. */
  lemma FormatAmountRoundTrip(x: real)
    ensures ParseDecimal(FormatAmount(x)) == Some(RoundHalfUpCents(x) as real / 100.0)
  {
    var c := Abs(RoundHalfUpCents(x));
    var body := NatToString(c / 100) + "." + Pad2(c % 100);
    ParseCents(c);
    if x < 0.0 {
      assert FormatAmount(x) == "-" + body;
      assert FormatAmount(x)[1..] == body;
      RoundsNonPositive(x);
    } else {
      assert FormatAmount(x) == body;
      assert body[0] != '-' && body[0] != '+';
    }
  }

  /** A negative amount rounds to a non-positive number of cents. */
  lemma RoundsNonPositive(x: real)
    requires x < 0.0
    ensures RoundHalfUpCents(x) <= 0
  {
  }

  /** The unsigned text of `c` cents parses back as `c / 100`. */
  lemma ParseCents(c: nat)
    ensures ParseUnsigned(NatToString(c / 100) + "." + Pad2(c % 100)) == Some(c as real / 100.0)
  {
    var whole, cents := NatToString(c / 100), Pad2(c % 100);
    DigitsHaveNoPoint(whole);
    DigitsHaveNoPoint(cents);
    SplitAtPoint(whole, cents);
    NatToStringRoundTrip(c / 100);
    CentsSplit(c);
  }

  /** Whole units and hundredths add back up to the cents. */
  lemma CentsSplit(c: nat)
    ensures (c / 100) as real + (c % 100) as real / 100.0 == c as real / 100.0
  {
    assert c == (c / 100) * 100 + c % 100;
  }
}
