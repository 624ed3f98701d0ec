/** The mod-11 check digit of the 44-character NF-e access key ("chave de acesso"):
    the digit at index 43 is computed from the 43 characters before it. */
module CheckDigit {
  import opened Wrappers
  import opened Text

  /** What `calcular_dv_chave` raises: the length test, or `int()` on a character that is not a digit. */
  datatype KeyError = InvalidLength | NotADigit

  /** Number of characters the check digit is computed over. */
  const PrefixLength := 43

  /** Weight of the digit standing `j` places left of the last one: 2, 3, ..., 9, then 2 again. */
  function Weight(j: nat): (w: nat)
    ensures 2 <= w <= 9
  {
    2 + j % 8
  }

  /** Sum of every digit times the weight of its distance from the right end. */
  function WeightedSum(s: string): nat
    requires AllDigits(s)
  {
    if s == [] then 0 else DigitValue(s[0]) * Weight(|s| - 1) + WeightedSum(s[1..])
  }

  /** `11 - r`, with 0, 1, 10 and 11 all written as '0'. */
  function DigitForRemainder(r: nat): char
    requires r < 11
  {
    var dv := 11 - r;
    if dv in {0, 1, 10, 11} then '0' else DigitChar(dv)
  }

  /** The check digit of a key prefix, or the error `calcular_dv_chave` raises on it. */
  function CheckDigitOf(key: string): (r: Result<char, KeyError>)
  {
    if |key| != PrefixLength then Failure(InvalidLength)
    else if !AllDigits(key) then Failure(NotADigit)
    else Success(DigitForRemainder(WeightedSum(key) % 11))
  }

  /** A full access key: 44 digits whose last one is the check digit of the first 43. */
  predicate ValidKey(k: string)
  {
    |k| == PrefixLength + 1 && AllDigits(k) && CheckDigitOf(k[..PrefixLength]) == Success(k[PrefixLength])
  }

  /** The rule of `calcular_dv_chave`: it fails exactly on inputs that are not 43 digits, and
      otherwise answers '0' for remainders 0, 1 and 10 and the digit `11 - r` (in 2..9) for the others. */
  lemma CheckDigitRule(key: string)
    ensures CheckDigitOf(key).Failure? <==> |key| != PrefixLength || !AllDigits(key)
    ensures |key| != PrefixLength ==> CheckDigitOf(key) == Failure(InvalidLength)
    ensures |key| == PrefixLength && AllDigits(key) ==>
      var r := WeightedSum(key) % 11;
      && (CheckDigitOf(key) == Success('0') <==> r in {0, 1, 10})
      && (2 <= r <= 9 ==> 2 <= 11 - r <= 9 && CheckDigitOf(key) == Success(DigitChar(11 - r)))
  {
  }

  /** Leading zeros add nothing to the weighted sum. */
  lemma {:induction false} LeadingZeros(n: nat, s: string)
    requires AllDigits(s)
    ensures AllDigits(Repeat('0', n) + s) && WeightedSum(Repeat('0', n) + s) == WeightedSum(s)
    decreases n
  {
    var z := Repeat('0', n) + s;
    if n == 0 {
      assert z == s;
    } else {
      LeadingZeros(n - 1, s);
      assert z[0] == '0' && z[1..] == Repeat('0', n - 1) + s;
      assert AllDigits(z) by {
        assert forall i | 1 <= i < |z| :: z[i] == z[1..][i - 1];
      }
    }
  }

  /** Remainder 10 gives '0': the prefix "00...05" weighs 5 * 2 = 10, so `11 - r` is 1, which
      `calcular_dv_chave` writes as '0' (the NF-e Manual writes '1' there). */
  lemma RemainderTenGivesZero()
    ensures var key := Repeat('0', PrefixLength - 1) + "5";
      WeightedSum(key) % 11 == 10 && CheckDigitOf(key) == Success('0')
  {
    LeadingZeros(PrefixLength - 1, "5");
    assert WeightedSum("5") == 10 by {
      assert "5"[1..] == [];
    }
  }

  /** Moving one place further left steps the weight as the script's `multiplicador` does. */
  lemma WeightStep(j: nat)
    ensures Weight(j + 1) == if Weight(j) + 1 > 9 then 2 else Weight(j) + 1
  {
  }

  /** The weighted sum of a suffix grows by one weighted digit when the suffix grows by one on the left. */
  lemma WeightedSumExtend(s: string, i: nat)
    requires i < |s| && AllDigits(s[i..])
    ensures WeightedSum(s[i..]) == DigitValue(s[i]) * Weight(|s| - 1 - i) + WeightedSum(s[i + 1..])
  {
    assert s[i..][1..] == s[i + 1..];
  }

  /** `calcular_dv_chave`: walks the key from its last character to its first, accumulating
      `soma` with a weight `multiplicador` that cycles through 2..9. */
  method CalcularDvChave(chave: string) returns (r: Result<char, KeyError>)
    ensures r == CheckDigitOf(chave)
  {
    if |chave| != PrefixLength {
      return Failure(InvalidLength);
    }
    var soma: nat, multiplicador: nat := 0, 2;
    var i := |chave| - 1;
    while i >= 0
      invariant -1 <= i < |chave|
      invariant AllDigits(chave[i + 1..])
      invariant soma == WeightedSum(chave[i + 1..])
      invariant multiplicador == Weight(|chave| - 1 - i)
    {
      if !IsDigit(chave[i]) {
        assert !AllDigits(chave);
        return Failure(NotADigit);
      }
      WeightedSumExtend(chave, i);
      WeightStep(|chave| - 1 - i);
      soma := soma + DigitValue(chave[i]) * multiplicador;
      multiplicador := multiplicador + 1;
      if multiplicador > 9 {
        multiplicador := 2;
      }
      i := i - 1;
    }
    assert chave[0..] == chave;
    var resto := soma % 11;
    var dv := 11 - resto;
    r := Success(if dv in {0, 1, 10, 11} then '0' else DigitChar(dv));
  }
}
