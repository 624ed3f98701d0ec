/** Re-deriving an access key when the issuer's CNPJ or the emission month changes:
    state code, year-month, zero-padded CNPJ, the untouched tail, and a fresh check digit. */
module AccessKey {
  import opened Wrappers
  import opened Text
  import opened CheckDigit

  type Day = d: nat | 1 <= d <= 31 witness 1
  type Month = m: nat | 1 <= m <= 12 witness 1
  type Year = y: nat | 1 <= y <= 9999 witness 2000

  /** Day, month and year fields, each in its own range. */
  datatype CalendarDate = CalendarDate(day: Day, month: Month, year: Year)

  /** Gregorian leap years, as Python's `calendar.isleap`. */
  predicate IsLeap(y: Year)
  {
    y % 4 == 0 && (y % 100 != 0 || y % 400 == 0)
  }

  function DaysInMonth(m: Month, y: Year): (n: nat)
    ensures 28 <= n <= 31
  {
    if m == 2 then (if IsLeap(y) then 29 else 28)
    else if m in {4, 6, 9, 11} then 30
    else 31
  }

  /** A calendar date as `strptime(..., "%d/%m/%Y")` yields it: the day exists in its month,
      so 31/04 or 29/02 of a common year is not a `Date` (`strptime` rejects them). */
  type Date = d: CalendarDate | d.day <= DaysInMonth(d.month, d.year) witness CalendarDate(1, 1, 2000)

  /** `date.strftime('%y%m')`: two-digit year, two-digit month. */
  function YearMonth(d: Date): (r: string)
    ensures |r| == 4 && AllDigits(r)
    ensures DigitsValue(r[..2]) == d.year % 100 && DigitsValue(r[2..]) == d.month
  {
    var r := Pad2(d.year % 100) + Pad2(d.month);
    assert r[..2] == Pad2(d.year % 100) && r[2..] == Pad2(d.month);
    r
  }

  /** Width of the CNPJ field of the key. */
  const CnpjWidth := 14

  /** The 43 characters the new check digit is computed over (line 269), Python slices included. */
  function NewKeyPrefix(original: string, cnpj: string, newYearMonth: Option<string>): string
  {
    var yymm := if newYearMonth.Some? then newYearMonth.value else Slice(original, 2, 6);
    Slice(original, 0, 2) + yymm + ZFill(DigitsOnly(cnpj), CnpjWidth) + Slice(original, 20, 43)
  }

  /** The new key of lines 267-270, or the error `calcular_dv_chave` raises on its prefix. */
  function DeriveKey(original: string, cnpj: string, newYearMonth: Option<string>): (r: Result<string, KeyError>)
    ensures r.Success? <==> CheckDigitOf(NewKeyPrefix(original, cnpj, newYearMonth)).Success?
  {
    var prefix := NewKeyPrefix(original, cnpj, newYearMonth);
    match CheckDigitOf(prefix)
    case Success(d) => Success(prefix + [d])
    case Failure(e) => Failure(e)
  }

  /** Whatever the inputs, a key that derivation produces is a valid access key built on the
      43-character prefix. */
  lemma DeriveKeyValid(original: string, cnpj: string, newYearMonth: Option<string>)
    requires DeriveKey(original, cnpj, newYearMonth).Success?
    ensures var k := DeriveKey(original, cnpj, newYearMonth).value;
      ValidKey(k) && k[..PrefixLength] == NewKeyPrefix(original, cnpj, newYearMonth)
  {
    var prefix := NewKeyPrefix(original, cnpj, newYearMonth);
    var d := CheckDigitOf(prefix).value;
    var k := prefix + [d];
    assert DeriveKey(original, cnpj, newYearMonth).value == k;
    assert IsDigit(d);
    ConcatDigits(prefix, [d]);
    assert k[..PrefixLength] == prefix;
  }

  /** The layout of a derived key: for a digit key of 43 or more characters, a CNPJ of at most 14
      digits and a four-digit new year-month, the result is a valid 44-digit key that keeps
      characters 0-1 and 20-42, holds the year-month at 2-5 and the padded CNPJ at 6-19. */
  lemma DeriveKeyLayout(original: string, cnpj: string, newYearMonth: Option<string>)
    requires |original| >= 43 && AllDigits(original)
    requires |DigitsOnly(cnpj)| <= CnpjWidth
    requires newYearMonth.Some? ==> |newYearMonth.value| == 4 && AllDigits(newYearMonth.value)
    ensures var r := DeriveKey(original, cnpj, newYearMonth);
      && r.Success?
      && ValidKey(r.value)
      && r.value[..2] == original[..2]
      && r.value[2..6] == (if newYearMonth.Some? then newYearMonth.value else original[2..6])
      && r.value[6..20] == ZFill(DigitsOnly(cnpj), CnpjWidth)
      && r.value[20..43] == original[20..43]
  {
    var prefix := NewKeyPrefix(original, cnpj, newYearMonth);
    var yymm := if newYearMonth.Some? then newYearMonth.value else original[2..6];
    var z := ZFill(DigitsOnly(cnpj), CnpjWidth);
    PrefixShape(original, cnpj, newYearMonth);
    ZFillKeepsDigits(DigitsOnly(cnpj), CnpjWidth);
    var cd := CheckDigitOf(prefix);
    var d := cd.value;
    assert DeriveKey(original, cnpj, newYearMonth) == Success(prefix + [d]);
    FieldsOf(original[..2], yymm, z, original[20..43], d);
    ConcatDigits(prefix, [d]);
  }

  /** Under the hypotheses of DeriveKeyLayout the prefix is 43 digits made of the four fields. */
  lemma PrefixShape(original: string, cnpj: string, newYearMonth: Option<string>)
    requires |original| >= 43 && AllDigits(original)
    requires |DigitsOnly(cnpj)| <= CnpjWidth
    requires newYearMonth.Some? ==> |newYearMonth.value| == 4 && AllDigits(newYearMonth.value)
    ensures var yymm := if newYearMonth.Some? then newYearMonth.value else original[2..6];
      var z := ZFill(DigitsOnly(cnpj), CnpjWidth);
      && NewKeyPrefix(original, cnpj, newYearMonth) == original[..2] + yymm + z + original[20..43]
      && |yymm| == 4 && |z| == 14
    ensures |NewKeyPrefix(original, cnpj, newYearMonth)| == 43
    ensures AllDigits(NewKeyPrefix(original, cnpj, newYearMonth))
  {
    var yymm := if newYearMonth.Some? then newYearMonth.value else original[2..6];
    var z := ZFill(DigitsOnly(cnpj), CnpjWidth);
    assert Slice(original, 0, 2) == original[..2] && Slice(original, 20, 43) == original[20..43];
    assert newYearMonth.None? ==> Slice(original, 2, 6) == original[2..6];
    assert |z| == 14 && |yymm| == 4;
    assert |original[..2] + yymm + z + original[20..43]| == 43;
    PrefixDigits(original[..2], yymm, z, original[20..43]);
  }

  lemma PrefixDigits(head: string, yymm: string, z: string, tail: string)
    requires AllDigits(head) && AllDigits(yymm) && AllDigits(tail)
    requires forall k | 0 <= k < |z| :: IsDigit(z[k])
    ensures AllDigits(head + yymm + z + tail)
  {
    ConcatDigits(head, yymm);
    ConcatDigits(head + yymm, z);
    ConcatDigits(head + yymm + z, tail);
  }

  /** Where each field lands in a key assembled from its parts. */
  lemma FieldsOf(a: string, b: string, c: string, d: string, x: char)
    requires |a| == 2 && |b| == 4 && |c| == 14 && |d| == 23
    ensures var k := a + b + c + d + [x];
      && k[..43] == a + b + c + d && k[43] == x
      && k[..2] == a && k[2..6] == b && k[6..20] == c && k[20..43] == d
  {
  }

  lemma ConcatDigits(a: string, b: string)
    requires AllDigits(a) && AllDigits(b)
    ensures AllDigits(a + b)
  {
    assert forall i | |a| <= i < |a + b| :: (a + b)[i] == b[i - |a|];
  }

  lemma ZFillKeepsDigits(s: string, width: nat)
    requires AllDigits(s)
    ensures AllDigits(ZFill(s, width))
  {
    var r := ZFill(s, width);
    forall i | 0 <= i < |r| ensures IsDigit(r[i]) {
      if i >= |r| - |s| {
        assert r[i] == s[i - (|r| - |s|)];
      }
    }
  }

  /** Deriving with no new year-month and the CNPJ the key already holds gives back the same key. */
  lemma DeriveKeyUnchanged(original: string, cnpj: string)
    requires ValidKey(original)
    requires ZFill(DigitsOnly(cnpj), CnpjWidth) == original[6..20]
    ensures DeriveKey(original, cnpj, None) == Success(original)
  {
    var prefix := NewKeyPrefix(original, cnpj, None);
    assert prefix == original[..2] + original[2..6] + original[6..20] + original[20..43];
    KeyFieldsJoin(original);
  }

  /** The four fields of a key, joined back, give its first 43 characters. */
  lemma KeyFieldsJoin(k: string)
    requires |k| >= 43
    ensures k[..2] + k[2..6] + k[6..20] + k[20..43] == k[..43]
    ensures |k| == 44 ==> k[..43] + [k[43]] == k
  {
    assert k[..2] + k[2..6] == k[..6];
    assert k[..6] + k[6..20] == k[..20];
    assert k[..20] + k[20..43] == k[..43];
  }

  /** A CNPJ of more than 14 digits on a key of 43 or more characters overflows the prefix:
      `calcular_dv_chave` raises on it. */
  lemma DeriveKeyLongCnpjFails(original: string, cnpj: string, newYearMonth: Option<string>)
    requires |original| >= 43
    requires |DigitsOnly(cnpj)| > CnpjWidth
    requires newYearMonth.Some? ==> |newYearMonth.value| == 4
    ensures DeriveKey(original, cnpj, newYearMonth) == Failure(InvalidLength)
  {
    assert |NewKeyPrefix(original, cnpj, newYearMonth)| > 43;
  }
}
