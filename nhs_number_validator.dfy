/**
  The NHS Number validator: the NotEmpty / Length(10) / Must(BeValidNhsNumber)
  rule chain and the Modulus 11 check-digit algorithm of the NHS Data
  Dictionary. Weights 10 down to 2 are applied to the first nine digits; the
  check value is 11 minus the weighted sum modulo 11, an 11 stands for 0 and a
  10 means no valid number has that prefix.
*/
module NhsNumberValidator {
  import opened Text

  /** The `weights` array: 10, 9, ..., 2. */
  const Weights: seq<int> := seq(9, i => 10 - i)

  /** `c - '0'` in C#: the value of a decimal digit character. */
  function DigitValue(c: char): int {
    c as int - '0' as int
  }

  /** Σ_{i<n} digit(s[i]) · (10 - i): the running `total` after n steps of the loop. */
  function WeightedSum(s: string, n: nat): (total: int)
    requires n <= |s| && n <= 10
    ensures AllDigits(s) ==> 0 <= total <= 90 * n
  {
    if n == 0 then 0
    else
      var d, w := DigitValue(s[n - 1]), 10 - (n - 1);
      assert AllDigits(s) ==> 0 <= d <= 9 && 0 <= d * w <= 90 by {
        if AllDigits(s) { assert IsDigit(s[n - 1]); }
      }
      WeightedSum(s, n - 1) + d * w
  }

  /** The Modulus 11 rule as the source states it, step by step. */
  predicate IsValidNhsNumber(s: string): (valid: bool)
    ensures valid ==> |s| == 10 && AllDigits(s) && WeightedSum(s, 9) % 11 != 1
  {
    && |s| == 10
    && AllDigits(s)
    && var checkDigit := 11 - WeightedSum(s, 9) % 11;
       checkDigit != 10 && (if checkDigit == 11 then 0 else checkDigit) == DigitValue(s[9])
  }

  /**
    The rule is the classical Modulus 11 property: with the tenth digit weighted
    1, the weighted sum of all ten digits is a multiple of 11.
  */
  lemma ValidIffModElevenZero(s: string)
    requires |s| == 10 && AllDigits(s)
    ensures IsValidNhsNumber(s) <==> WeightedSum(s, 10) % 11 == 0
  {
    assert IsDigit(s[9]);
    CheckDigitRule(WeightedSum(s, 9), DigitValue(s[9]));
  }

  /**
    The arithmetic behind the rule: for a running total `t` and a digit `d`,
    `d` is the check digit of `t` exactly when `t + d` is a multiple of 11.
  */
  lemma CheckDigitRule(t: int, d: int)
    requires 0 <= d <= 9
    ensures (var checkDigit := 11 - t % 11;
             checkDigit != 10 && (if checkDigit == 11 then 0 else checkDigit) == d)
            <==> (t + d) % 11 == 0
  {
    var q, r := t / 11, t % 11;
    assert t + d == 11 * q + (r + d);
    assert (t + d) % 11 == (r + d) % 11;
  }

  /** `BeValidNhsNumber`: the loop accumulating `total`, then the check-digit cases. */
  method BeValidNhsNumber(nhsNumber: string) returns (valid: bool)
    ensures valid == IsValidNhsNumber(nhsNumber)
    ensures valid <==> |nhsNumber| == 10 && AllDigits(nhsNumber) && WeightedSum(nhsNumber, 10) % 11 == 0
  {
    if |nhsNumber| != 10 || !AllDigits(nhsNumber) {
      return false;
    }
    var total := 0;
    for i := 0 to 9
      invariant total == WeightedSum(nhsNumber, i)
    {
      total := total + DigitValue(nhsNumber[i]) * Weights[i];
    }
    var remainder := total % 11;
    var checkDigit := 11 - remainder;
    ValidIffModElevenZero(nhsNumber);
    if checkDigit == 11 {
      checkDigit := 0;
    } else if checkDigit == 10 {
      return false;
    }
    valid := checkDigit == DigitValue(nhsNumber[9]);
  }

  /** One failed rule of the chain; the last carries the message "Invalid NHS Number.". */
  datatype NhsNumberFailure = NotEmptyFailure | LengthFailure | InvalidNhsNumber

  /**
    The rule chain with FluentValidation's default cascade (every rule runs):
    the failures in rule order. A number is accepted when the list is empty.
  */
  function Validate(nhsNumber: string): (failures: seq<NhsNumberFailure>)
    ensures failures == [] <==> IsValidNhsNumber(nhsNumber)
    ensures NotEmptyFailure in failures <==> IsBlank(nhsNumber)
    ensures LengthFailure in failures <==> |nhsNumber| != 10
    ensures InvalidNhsNumber in failures <==> !IsValidNhsNumber(nhsNumber)
  {
    (if IsBlank(nhsNumber) then [NotEmptyFailure] else [])
    + (if |nhsNumber| != 10 then [LengthFailure] else [])
    + (if !IsValidNhsNumber(nhsNumber) then [InvalidNhsNumber] else [])
  }

  /** The weighted sum of the first n characters depends on those characters only. */
  lemma {:induction false} WeightedSumOfPrefix(s: string, t: string, n: nat)
    requires n <= 10 && n <= |s| && n <= |t| && s[..n] == t[..n]
    ensures WeightedSum(s, n) == WeightedSum(t, n)
  {
    if n > 0 {
      assert s[..n - 1] == s[..n][..n - 1] && t[..n - 1] == t[..n][..n - 1];
      assert s[n - 1] == s[..n][n - 1] && t[n - 1] == t[..n][n - 1];
      WeightedSumOfPrefix(s, t, n - 1);
    }
  }

  lemma EmptyIsInvalid()
    ensures !IsValidNhsNumber("")
    ensures Validate("") == [NotEmptyFailure, LengthFailure, InvalidNhsNumber]
  {
  }

  lemma WrongLengthIsInvalid(s: string)
    requires |s| != 10
    ensures !IsValidNhsNumber(s) && LengthFailure in Validate(s)
  {
  }

  lemma NonDigitIsInvalid(s: string, i: nat)
    requires i < |s| && !IsDigit(s[i])
    ensures !IsValidNhsNumber(s)
  {
  }

  /** A weighted sum of 1 modulo 11 gives check value 10: no tenth digit makes the number valid. */
  lemma CheckValueTenIsInvalid(s: string)
    requires |s| == 10 && WeightedSum(s, 9) % 11 == 1
    ensures !IsValidNhsNumber(s)
  {
  }

  /** A weighted sum divisible by 11 gives check value 11, read as 0. */
  lemma CheckValueElevenMeansZero(s: string)
    requires |s| == 10 && AllDigits(s) && WeightedSum(s, 9) % 11 == 0
    ensures IsValidNhsNumber(s) <==> s[9] == '0'
  {
  }

  /** Each nine-digit prefix has at most one valid completion. */
  lemma AtMostOneCompletion(s: string, t: string)
    requires IsValidNhsNumber(s) && IsValidNhsNumber(t) && s[..9] == t[..9]
    ensures s == t
  {
    WeightedSumOfPrefix(s, t, 9);
    assert DigitValue(s[9]) == DigitValue(t[9]);
    assert s == s[..9] + [s[9]] && t == t[..9] + [t[9]];
  }

  /** A nine-digit prefix whose weighted sum is not 1 modulo 11 has a valid completion. */
  lemma CompletionExists(prefix: string)
    requires |prefix| == 9 && AllDigits(prefix) && WeightedSum(prefix, 9) % 11 != 1
    ensures exists s :: |s| == 10 && s[..9] == prefix && IsValidNhsNumber(s)
  {
    var r := WeightedSum(prefix, 9) % 11;
    var d := if r == 0 then 0 else 11 - r;
    var s := prefix + [('0' as int + d) as char];
    assert s[..9] == prefix;
    WeightedSumOfPrefix(s, prefix, 9);
    assert IsValidNhsNumber(s);
  }

  /** The valid example of the validator's tests: the weighted sum of its first nine digits is 209. */
  lemma TestVectorValid()
    ensures IsValidNhsNumber("1373645350")
  {
    assert WeightedSum("1373645350", 9) == 209;
  }

  /** An example whose check value is 10: the weighted sum is 210, a multiple of 11 plus 1. */
  lemma TestVectorCheckValueTen()
    ensures !IsValidNhsNumber("1234567899")
  {
    assert WeightedSum("1234567899", 9) == 210;
  }

  /** Nine and eleven digits are refused whatever their check digit. */
  lemma TestVectorsWrongLength()
    ensures !IsValidNhsNumber("123456789")
    ensures !IsValidNhsNumber("12345678901")
  {
  }
}
