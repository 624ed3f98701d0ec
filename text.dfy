/** The string operations the script uses: Python slicing, lstrip, zfill,
    digit filtering, substring tests, str.split and str.replace. */
module Text {

  predicate IsDigit(c: char) { '0' <= c <= '9' }

  predicate AllDigits(s: string) { forall i | 0 <= i < |s| :: IsDigit(s[i]) }

  function DigitValue(c: char): (d: nat)
    requires IsDigit(c)
    ensures d < 10
  {
    c as int - '0' as int
  }

  function DigitChar(d: nat): (c: char)
    requires d < 10
    ensures IsDigit(c) && DigitValue(c) == d
  {
    ('0' as int + d) as char
  }

  function Min(a: int, b: int): int { if a < b then a else b }

  /** Python `s[i:j]` for non-negative bounds: out-of-range bounds are clamped, never an error. */
  function Slice(s: string, i: nat, j: nat): (r: string)
    ensures |r| == if i < Min(j, |s|) then Min(j, |s|) - i else 0
    ensures forall k | 0 <= k < |r| :: r[k] == s[i + k]
  {
    var hi := Min(j, |s|);
    if i < hi then s[i..hi] else []
  }

  /** A suffix of a slice is a slice ending at the same place. */
  lemma SuffixOfSlice(s: string, i: nat, j: nat, t: string)
    requires i <= j <= |s| && |t| <= j - i && t == s[i..j][j - i - |t|..]
    ensures t == s[j - |t|..j]
  {
  }

  /** Python `s.lstrip(c)` for one character `c`. */
  function LStrip(s: string, c: char): (r: string)
    ensures |r| <= |s| && r == s[|s| - |r|..]
    ensures r == [] || r[0] != c
    ensures forall k | 0 <= k < |s| - |r| :: s[k] == c
  {
    if |s| > 0 && s[0] == c then LStrip(s[1..], c) else s
  }

  function Repeat(c: char, n: nat): (r: string)
    ensures |r| == n
    ensures forall k | 0 <= k < n :: r[k] == c
  {
    if n == 0 then [] else [c] + Repeat(c, n - 1)
  }

  /** Python `s.zfill(width)` for a string without a leading sign
      (the script only pads digits-only strings). */
  function ZFill(s: string, width: nat): (r: string)
    ensures |r| == if |s| < width then width else |s|
    ensures forall k | 0 <= k < |r| - |s| :: r[k] == '0'
    ensures forall k | 0 <= k < |s| :: r[|r| - |s| + k] == s[k]
  {
    if |s| < width then Repeat('0', width - |s|) + s else s
  }

  /** Python `''.join(filter(str.isdigit, s))` over ASCII digits. */
  function DigitsOnly(s: string): (r: string)
    ensures AllDigits(r) && |r| <= |s|
    ensures AllDigits(s) ==> r == s
  {
    if s == [] then [] else (if IsDigit(s[0]) then [s[0]] else []) + DigitsOnly(s[1..])
  }

  predicate HasPrefix(s: string, p: string) { |p| <= |s| && s[..|p|] == p }

  /** Python `sub in s`. */
  predicate Contains(s: string, sub: string)
  {
    HasPrefix(s, sub) || (|s| > 0 && Contains(s[1..], sub))
  }

  /** Python `s.split(sep)` for a one-character separator. */
  function Split(s: string, sep: char): (parts: seq<string>)
    ensures |parts| >= 1
  {
    if s == [] then [[]]
    else
      var rest := Split(s[1..], sep);
      if s[0] == sep then [[]] + rest else [[s[0]] + rest[0]] + rest[1..]
  }

  /** Python `str(n)` for a natural number. */
  function NatToString(n: nat): (r: string)
    ensures |r| > 0 && AllDigits(r)
  {
    if n < 10 then [DigitChar(n)] else NatToString(n / 10) + [DigitChar(n % 10)]
  }

  /** The value of a string of decimal digits, read most significant first. */
  function DigitsValue(s: string): nat
    requires AllDigits(s)
  {
    if s == [] then 0 else DigitsValue(s[..|s| - 1]) * 10 + DigitValue(s[|s| - 1])
  }

  /** Reading back what NatToString writes gives the number again. */
  lemma {:induction false} NatToStringRoundTrip(n: nat)
    ensures DigitsValue(NatToString(n)) == n
  {
    if n >= 10 {
      NatToStringRoundTrip(n / 10);
      var s := NatToString(n);
      assert s[..|s| - 1] == NatToString(n / 10);
    }
  }

  /** Two decimal digits, zero-padded, as `%02d` writes them. */
  function Pad2(n: nat): (r: string)
    requires n < 100
    ensures |r| == 2 && AllDigits(r) && DigitsValue(r) == n
  {
    var r := [DigitChar(n / 10), DigitChar(n % 10)];
    assert r[..1] == [DigitChar(n / 10)] && r[..1][..0] == [];
    assert DigitsValue(r[..1]) == n / 10;
    r
  }

  /** Four decimal digits, zero-padded. */
  function Pad4(n: nat): (r: string)
    requires n < 10000
    ensures |r| == 4 && AllDigits(r) && DigitsValue(r) == n
  {
    var hi, lo := Pad2(n / 100), Pad2(n % 100);
    var r := hi + lo;
    assert r[..3][..2] == hi && r[..3][2] == lo[0] && r[..3] == r[..|r| - 1];
    assert lo[..1] == lo[..|lo| - 1];
    assert DigitsValue(r[..3]) == DigitsValue(hi) * 10 + DigitValue(lo[0]);
    assert DigitsValue(lo) == DigitValue(lo[0]) * 10 + DigitValue(lo[1]);
    r
  }

  /** Python `s.replace(pat, rep)`: every non-overlapping occurrence, scanning left to right. */
  function ReplaceAll(s: string, pat: string, rep: string): string
    requires |pat| > 0
    decreases |s|
  {
    if |s| < |pat| then s
    else if s[..|pat|] == pat then rep + ReplaceAll(s[|pat|..], pat, rep)
    else [s[0]] + ReplaceAll(s[1..], pat, rep)
  }

  /** Replacing a one-character pattern by nothing leaves no occurrence of that character. */
  lemma {:induction false} ReplaceRemovesChar(s: string, c: char)
    ensures c !in ReplaceAll(s, [c], "")
    decreases |s|
  {
    if |s| >= 1 {
      ReplaceRemovesChar(s[1..], c);
      if s[..1] != [c] {
        assert s[0] != c;
      }
    }
  }

  /** A replacement never introduces a character that is neither in the text nor in the replacement. */
  lemma {:induction false} ReplaceKeepsAbsent(s: string, pat: string, rep: string, c: char)
    requires |pat| > 0
    requires c !in s && c !in rep
    ensures c !in ReplaceAll(s, pat, rep)
    decreases |s|
  {
    if |s| >= |pat| {
      if s[..|pat|] == pat {
        ReplaceKeepsAbsent(s[|pat|..], pat, rep, c);
      } else {
        ReplaceKeepsAbsent(s[1..], pat, rep, c);
      }
    }
  }

  /** A pattern holding a character the text lacks never matches: the replacement changes nothing. */
  lemma {:induction false} ReplaceAbsentPattern(s: string, pat: string, rep: string, c: char)
    requires |pat| > 0 && c in pat && c !in s
    ensures ReplaceAll(s, pat, rep) == s
    decreases |s|
  {
    if |s| >= |pat| {
      ReplaceAbsentPattern(s[1..], pat, rep, c);
      assert [s[0]] + s[1..] == s;
    }
  }

  /** A pattern that does not occur in the text never matches: the replacement changes nothing. */
  lemma {:induction false} ReplaceNotContained(s: string, pat: string, rep: string)
    requires |pat| > 0 && !Contains(s, pat)
    ensures ReplaceAll(s, pat, rep) == s
    decreases |s|
  {
    if |s| >= |pat| {
      assert s[..|pat|] != pat;
      ReplaceNotContained(s[1..], pat, rep);
      assert [s[0]] + s[1..] == s;
    }
  }

  /** A text without `p` holds nothing that starts with `p`. */
  lemma {:induction false} ContainsPrefixOf(s: string, p: string, q: string)
    ensures Contains(s, p + q) ==> Contains(s, p)
    decreases |s|
  {
    if HasPrefix(s, p + q) {
      assert s[..|p|] == s[..|p + q|][..|p|];
    } else if |s| > 0 {
      ContainsPrefixOf(s[1..], p, q);
    }
  }
}
