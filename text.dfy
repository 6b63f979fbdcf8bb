/**
  Character classes used by the validators and the status converter. Only the
  ASCII members of each .NET class are modelled: `char.IsDigit` and `[0-9]` are
  '0'..'9', `char.IsWhiteSpace` and the regex class `\s` are the six ASCII
  whitespace characters, and ordinal case folding maps 'a'..'z' to 'A'..'Z'.
*/
module Text {

  predicate IsDigit(c: char) { '0' <= c <= '9' }

  predicate IsUpper(c: char) { 'A' <= c <= 'Z' }

  predicate IsLower(c: char) { 'a' <= c <= 'z' }

  predicate IsWhiteSpace(c: char) {
    c == ' ' || c == '\t' || c == '\n' || c == '\U{B}' || c == '\U{C}' || c == '\r'
  }

  predicate AllDigits(s: string) {
    forall i :: 0 <= i < |s| ==> IsDigit(s[i])
  }

  /** `string.IsNullOrWhiteSpace` on a non-null string: what FluentValidation's NotEmpty rejects. */
  predicate IsBlank(s: string): (blank: bool)
    ensures blank ==> forall i :: 0 <= i < |s| ==> !IsDigit(s[i]) && !IsUpper(s[i]) && !IsLower(s[i])
  {
    forall i :: 0 <= i < |s| ==> IsWhiteSpace(s[i])
  }

  /** Ordinal upper-casing of one character. */
  function ToUpper(c: char): (u: char)
    ensures IsLower(c) ==> IsUpper(u) && u as int == c as int - 32
    ensures !IsLower(c) ==> u == c
  {
    if IsLower(c) then (c as int - 32) as char else c
  }

  /** `string.Equals(a, b, StringComparison.OrdinalIgnoreCase)`. */
  predicate EqualsIgnoreCase(a: string, b: string): (equal: bool)
    ensures equal ==> |a| == |b|
    ensures equal && |a| > 0 ==> ToUpper(a[0]) == ToUpper(b[0])
  {
    |a| == |b| && (|a| == 0 || (ToUpper(a[0]) == ToUpper(b[0]) && EqualsIgnoreCase(a[1..], b[1..])))
  }

  /** Two strings are equal ignoring case exactly when they agree position by position after folding. */
  lemma {:induction false} EqualsIgnoreCaseAt(a: string, b: string)
    ensures EqualsIgnoreCase(a, b) <==> |a| == |b| && forall i :: 0 <= i < |a| ==> ToUpper(a[i]) == ToUpper(b[i])
  {
    if |a| == |b| && |a| > 0 {
      EqualsIgnoreCaseAt(a[1..], b[1..]);
      assert forall i :: 1 <= i < |a| ==> a[1..][i - 1] == a[i] && b[1..][i - 1] == b[i];
    }
  }

  lemma {:induction false} EqualsIgnoreCaseReflexive(a: string)
    ensures EqualsIgnoreCase(a, a)
  {
    if |a| > 0 {
      EqualsIgnoreCaseReflexive(a[1..]);
    }
  }
}
