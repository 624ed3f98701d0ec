/** The text clean-up applied to `ET.tostring`'s output before a file is written back: the `ds`
    namespace prefix is dropped in favour of a default namespace on `Signature`, line breaks and
    tabs are deleted, and whitespace between a closing `>` and the next `<` is collapsed. */
module Serialization {
  import opened Text

  /** `NS_DS['ds']`, the XML signature namespace. */
  const DsNamespace := "http://www.w3.org/2000/09/xmldsig#"

  /** Python's `\s` on a `str`: the characters `str.isspace` accepts. */
  predicate IsSpace(c: char)
  {
    var n := c as int;
    || 9 <= n <= 13 || 28 <= n <= 32 || n == 0x85 || n == 0xA0 || n == 0x1680
    || 0x2000 <= n <= 0x200A || n == 0x2028 || n == 0x2029 || n == 0x202F || n == 0x205F || n == 0x3000
  }

  /** The end of the run of whitespace that starts at `i`. */
  function SpaceRun(s: string, i: nat): (j: nat)
    requires i <= |s|
    ensures i <= j <= |s|
    ensures forall k | i <= k < j :: IsSpace(s[k])
    ensures j < |s| ==> !IsSpace(s[j])
    decreases |s| - i
  {
    if i == |s| || !IsSpace(s[i]) then i else SpaceRun(s, i + 1)
  }

  /** `re.sub(r'>\s+<', '><', s)`: left to right, each match replaced and the scan resumed after it. */
  function CollapseGaps(s: string): string
    decreases |s|
  {
    if s == [] then []
    else if s[0] == '>' && SpaceRun(s, 1) > 1 && SpaceRun(s, 1) < |s| && s[SpaceRun(s, 1)] == '<' then
      "><" + CollapseGaps(s[SpaceRun(s, 1) + 1..])
    else [s[0]] + CollapseGaps(s[1..])
  }

  /** A `>`, one or more whitespace characters and a `<`, from `i` to `k`. */
  predicate GapAt(s: string, i: nat, k: nat)
    requires i < k < |s|
  {
    s[i] == '>' && s[k] == '<' && i + 1 < k && forall m | i < m < k :: IsSpace(s[m])
  }

  predicate NoGaps(s: string)
  {
    forall i, k | 0 <= i < k < |s| :: !GapAt(s, i, k)
  }

  /** The text without its whitespace. */
  function NonSpace(s: string): string
  {
    if s == [] then [] else (if IsSpace(s[0]) then [] else [s[0]]) + NonSpace(s[1..])
  }

  /** The chain of lines 490-495 on the serialized tree. */
  function Normalize(x: string): string
  {
    var a := ReplaceAll(x, " xmlns:ds=\"" + DsNamespace + "\"", "");
    var b := ReplaceAll(a, "<ds:Signature>", "<Signature xmlns=\"" + DsNamespace + "\">");
    var c := ReplaceAll(ReplaceAll(b, "<ds:", "<"), "</ds:", "</");
    var d := ReplaceAll(ReplaceAll(ReplaceAll(c, "\n", ""), "\r", ""), "\t", "");
    ReplaceAll(CollapseGaps(d), "?>\n<", "?><")
  }

  // ---------------------------------------------------------------- properties

  /** Collapsing deletes whitespace only: the other characters stay, in order. */
  lemma {:induction false} CollapseKeepsContent(s: string)
    ensures NonSpace(CollapseGaps(s)) == NonSpace(s)
    decreases |s|
  {
    if s != [] {
      var j := SpaceRun(s, 1);
      if s[0] == '>' && j > 1 && j < |s| && s[j] == '<' {
        var tail := s[j + 1..];
        assert CollapseGaps(s) == "><" + CollapseGaps(tail);
        CollapseKeepsContent(tail);
        MatchContent(s, j);
        NonSpaceConcat("><", CollapseGaps(tail));
        assert NonSpace("><") == "><" by {
          assert "><"[1..] == "<" && "<"[1..] == [];
        }
      } else {
        assert CollapseGaps(s) == [s[0]] + CollapseGaps(s[1..]);
        CollapseKeepsContent(s[1..]);
        NonSpaceHead(s[0], CollapseGaps(s[1..]));
      }
    }
  }

  lemma NonSpaceHead(c: char, t: string)
    ensures NonSpace([c] + t) == (if IsSpace(c) then [] else [c]) + NonSpace(t)
  {
    assert ([c] + t)[1..] == t;
  }

  /** The content of a matched gap and what follows it: the two brackets, then the rest. */
  lemma MatchContent(s: string, j: nat)
    requires 1 < j < |s| && s[0] == '>' && s[j] == '<' && forall k | 1 <= k < j :: IsSpace(s[k])
    ensures NonSpace(s) == "><" + NonSpace(s[j + 1..])
  {
    var tail := s[j + 1..];
    var gap := s[1..j];
    var front := [s[0]] + gap;
    var back := [s[j]] + tail;
    SplitAround(s, j);
    NonSpaceConcat(front, back);
    SpacesVanish(s, 1, j);
    NonSpaceHead('>', gap);
    NonSpaceHead('<', tail);
    assert NonSpace(front) == ['>'];
    BracketsThen(NonSpace(tail));
  }

  lemma BracketsThen(t: string)
    ensures ['>'] + (['<'] + t) == "><" + t
  {
    assert "><" == ['>', '<'];
  }

  lemma SplitAround(s: string, j: nat)
    requires 0 < j < |s|
    ensures s == ([s[0]] + s[1..j]) + ([s[j]] + s[j + 1..])
  {
    assert s[..j] == [s[0]] + s[1..j];
    assert s[j..] == [s[j]] + s[j + 1..];
    assert s == s[..j] + s[j..];
  }

  lemma {:induction false} NonSpaceConcat(a: string, b: string)
    ensures NonSpace(a + b) == NonSpace(a) + NonSpace(b)
    decreases |a|
  {
    if a != [] {
      assert (a + b)[1..] == a[1..] + b;
      NonSpaceConcat(a[1..], b);
    } else {
      assert a + b == b;
    }
  }

  /** A run of whitespace has no content. */
  lemma {:induction false} SpacesVanish(s: string, i: nat, j: nat)
    requires i <= j <= |s| && forall k | i <= k < j :: IsSpace(s[k])
    ensures NonSpace(s[i..j]) == []
    decreases j - i
  {
    if i < j {
      assert s[i..j][1..] == s[i + 1..j];
      SpacesVanish(s, i + 1, j);
    }
  }

  /** Collapsing adds no character the text lacks. */
  lemma {:induction false} CollapseAddsNothing(s: string, c: char)
    requires c !in s
    ensures c !in CollapseGaps(s)
    decreases |s|
  {
    if s != [] {
      var j := SpaceRun(s, 1);
      if s[0] == '>' && j > 1 && j < |s| && s[j] == '<' {
        CollapseAddsNothing(s[j + 1..], c);
      } else {
        CollapseAddsNothing(s[1..], c);
      }
    }
  }

  /** The whitespace a collapsed text starts with is the input's own, and the first other
      character is the input's too. */
  lemma {:induction false} CollapseLeadingSpace(t: string, p: nat)
    requires p < |CollapseGaps(t)| && !IsSpace(CollapseGaps(t)[p])
    requires forall m | 0 <= m < p :: IsSpace(CollapseGaps(t)[m])
    ensures p < |t| && t[p] == CollapseGaps(t)[p] && forall m | 0 <= m < p :: IsSpace(t[m])
    decreases |t|
  {
    var j := SpaceRun(t, 1);
    if t[0] == '>' && j > 1 && j < |t| && t[j] == '<' {
      assert CollapseGaps(t)[0] == '>';
    } else if p > 0 {
      var r := CollapseGaps(t[1..]);
      assert CollapseGaps(t) == [t[0]] + r;
      forall m | 0 <= m < p - 1 ensures IsSpace(r[m]) {
        assert r[m] == CollapseGaps(t)[m + 1];
      }
      CollapseLeadingSpace(t[1..], p - 1);
      assert IsSpace(t[0]) by {
        assert CollapseGaps(t)[0] == t[0];
      }
      forall m | 0 <= m < p ensures IsSpace(t[m]) {
        if m > 0 { assert t[m] == t[1..][m - 1]; }
      }
    }
  }

  /** No `>` followed by whitespace and `<` survives the collapse. */
  lemma {:induction false} CollapseLeavesNoGaps(s: string)
    ensures NoGaps(CollapseGaps(s))
    decreases |s|
  {
    if s != [] {
      var j := SpaceRun(s, 1);
      var r := CollapseGaps(s);
      if s[0] == '>' && j > 1 && j < |s| && s[j] == '<' {
        var rest := CollapseGaps(s[j + 1..]);
        CollapseLeavesNoGaps(s[j + 1..]);
        assert r == "><" + rest;
        forall i, k | 0 <= i < k < |r| ensures !GapAt(r, i, k) {
          if i >= 2 {
            if GapAt(r, i, k) {
              forall m | i - 2 < m < k - 2 ensures IsSpace(rest[m]) { assert rest[m] == r[m + 2]; }
              assert GapAt(rest, i - 2, k - 2);
            }
          } else if i == 0 && k > 1 {
            assert !IsSpace(r[1]);
          }
        }
      } else {
        var rest := CollapseGaps(s[1..]);
        CollapseLeavesNoGaps(s[1..]);
        assert r == [s[0]] + rest;
        forall i, k | 0 <= i < k < |r| ensures !GapAt(r, i, k) {
          if i >= 1 {
            if GapAt(r, i, k) {
              forall m | i - 1 < m < k - 1 ensures IsSpace(rest[m]) { assert rest[m] == r[m + 1]; }
              assert GapAt(rest, i - 1, k - 1);
            }
          } else if GapAt(r, 0, k) {
            forall m | 0 <= m < k - 1 ensures IsSpace(rest[m]) {
              assert rest[m] == r[m + 1];
            }
            CollapseLeadingSpace(s[1..], k - 1);
            assert s[k] == '<';
            forall m | 1 <= m < k ensures IsSpace(s[m]) {
              assert s[m] == s[1..][m - 1];
            }
            SpaceRunIs(s, 1, k);
            assert false;
          }
        }
      }
    }
  }

  /** The run of whitespace from `i` ends at the first non-space character. */
  lemma {:induction false} SpaceRunIs(s: string, i: nat, k: nat)
    requires i <= k < |s| && !IsSpace(s[k]) && forall m | i <= m < k :: IsSpace(s[m])
    ensures SpaceRun(s, i) == k
    decreases k - i
  {
    if i < k {
      SpaceRunIs(s, i + 1, k);
    }
  }

  /** The written text has no line break, carriage return or tab. */
  lemma NormalizeHasNoBreaks(x: string)
    ensures var r := Normalize(x); '\n' !in r && '\r' !in r && '\t' !in r
  {
    var a := ReplaceAll(x, " xmlns:ds=\"" + DsNamespace + "\"", "");
    var b := ReplaceAll(a, "<ds:Signature>", "<Signature xmlns=\"" + DsNamespace + "\">");
    var c := ReplaceAll(ReplaceAll(b, "<ds:", "<"), "</ds:", "</");
    var d1 := ReplaceAll(c, "\n", "");
    var d2 := ReplaceAll(d1, "\r", "");
    var d := ReplaceAll(d2, "\t", "");
    ReplaceRemovesChar(c, '\n');
    ReplaceKeepsAbsent(d1, "\r", "", '\n');
    ReplaceRemovesChar(d1, '\r');
    ReplaceKeepsAbsent(d2, "\t", "", '\n');
    ReplaceKeepsAbsent(d2, "\t", "", '\r');
    ReplaceRemovesChar(d2, '\t');
    var f := CollapseGaps(d);
    CollapseAddsNothing(d, '\n');
    CollapseAddsNothing(d, '\r');
    CollapseAddsNothing(d, '\t');
    ReplaceAbsentPattern(f, "?>\n<", "?><", '\n');
  }

  /** The last replacement, of "?>\n<", never matches: the line breaks are gone by then, so the
      written text is the collapsed one, with no `>`-whitespace-`<` gap left anywhere. */
  lemma NormalizeLeavesNoGaps(x: string)
    ensures NoGaps(Normalize(x))
  {
    var a := ReplaceAll(x, " xmlns:ds=\"" + DsNamespace + "\"", "");
    var b := ReplaceAll(a, "<ds:Signature>", "<Signature xmlns=\"" + DsNamespace + "\">");
    var c := ReplaceAll(ReplaceAll(b, "<ds:", "<"), "</ds:", "</");
    var d1 := ReplaceAll(c, "\n", "");
    var d2 := ReplaceAll(d1, "\r", "");
    var d := ReplaceAll(d2, "\t", "");
    ReplaceRemovesChar(c, '\n');
    ReplaceKeepsAbsent(d1, "\r", "", '\n');
    ReplaceKeepsAbsent(d2, "\t", "", '\n');
    CollapseAddsNothing(d, '\n');
    ReplaceAbsentPattern(CollapseGaps(d), "?>\n<", "?><", '\n');
    CollapseLeavesNoGaps(d);
  }

  /** On a text with no `ds` namespace declaration and no `ds`-prefixed tag, the namespace
      rewrites and the last `?>\n<` replacement change nothing: the written text is the input
      with its line breaks and tabs deleted and its `>`-whitespace-`<` gaps collapsed. */
  lemma NormalizeWithoutDs(x: string)
    requires !Contains(x, " xmlns:ds=\"" + DsNamespace + "\"")
    requires !Contains(x, "<ds:") && !Contains(x, "</ds:")
    ensures Normalize(x) == CollapseGaps(ReplaceAll(ReplaceAll(ReplaceAll(x, "\n", ""), "\r", ""), "\t", ""))
  {
    ReplaceNotContained(x, " xmlns:ds=\"" + DsNamespace + "\"", "");
    assert "<ds:Signature>" == "<ds:" + "Signature>";
    ContainsPrefixOf(x, "<ds:", "Signature>");
    ReplaceNotContained(x, "<ds:Signature>", "<Signature xmlns=\"" + DsNamespace + "\">");
    ReplaceNotContained(x, "<ds:", "<");
    ReplaceNotContained(x, "</ds:", "</");
    var d1 := ReplaceAll(x, "\n", "");
    var d2 := ReplaceAll(d1, "\r", "");
    var d := ReplaceAll(d2, "\t", "");
    ReplaceRemovesChar(x, '\n');
    ReplaceKeepsAbsent(d1, "\r", "", '\n');
    ReplaceKeepsAbsent(d2, "\t", "", '\n');
    CollapseAddsNothing(d, '\n');
    ReplaceAbsentPattern(CollapseGaps(d), "?>\n<", "?><", '\n');
  }

  /** Collapsing twice is collapsing once. */
  lemma {:induction false} CollapseIdempotent(s: string)
    requires NoGaps(s)
    ensures CollapseGaps(s) == s
    decreases |s|
  {
    if s != [] {
      var j := SpaceRun(s, 1);
      if s[0] == '>' && j > 1 && j < |s| && s[j] == '<' {
        assert GapAt(s, 0, j);
      } else {
        forall i, k | 0 <= i < k < |s[1..]| ensures !GapAt(s[1..], i, k) {
          if GapAt(s[1..], i, k) {
            forall m | i + 1 < m < k + 1 ensures IsSpace(s[m]) { assert s[m] == s[1..][m - 1]; }
            assert GapAt(s, i + 1, k + 1);
          }
        }
        CollapseIdempotent(s[1..]);
        assert [s[0]] + s[1..] == s;
      }
    }
  }
}
