/** The character classes of <cctype> in the "C" locale, restricted to ASCII.
    A character outside ASCII belongs to none of the classes. */
module Ascii {

  predicate IsDigit(c: char) { '0' <= c <= '9' }

  /** Every character is a decimal digit. */
  predicate SoDigitos(s: string) { forall i :: 0 <= i < |s| ==> IsDigit(s[i]) }

  predicate IsUpper(c: char) { 'A' <= c <= 'Z' }

  predicate IsLower(c: char) { 'a' <= c <= 'z' }

  predicate IsAlpha(c: char) { IsUpper(c) || IsLower(c) }

  predicate IsAlnum(c: char) { IsAlpha(c) || IsDigit(c) }

  /** `std::toupper`: maps a-z to A-Z and leaves every other character alone. */
  function ToUpper(c: char): (r: char)
    ensures IsLower(c) ==> IsUpper(r) && r as int == c as int - 32
    ensures !IsLower(c) ==> r == c
  {
    if IsLower(c) then (c as int - 32) as char else c
  }

  /** `std::tolower`: maps A-Z to a-z and leaves every other character alone. */
  function ToLower(c: char): (r: char)
    ensures IsUpper(c) ==> IsLower(r) && r as int == c as int + 32
    ensures !IsUpper(c) ==> r == c
  {
    if IsUpper(c) then (c as int + 32) as char else c
  }

  /** The string with every character passed through `ToLower`. */
  function Lower(s: string): (r: string)
    ensures |r| == |s|
    ensures forall i :: 0 <= i < |s| ==> r[i] == ToLower(s[i])
  {
    seq(|s|, i requires 0 <= i < |s| => ToLower(s[i]))
  }

  /** The string with every character passed through `ToUpper`. */
  function Upper(s: string): (r: string)
    ensures |r| == |s|
    ensures forall i :: 0 <= i < |s| ==> r[i] == ToUpper(s[i])
  {
    seq(|s|, i requires 0 <= i < |s| => ToUpper(s[i]))
  }

  /** Decimal value of an ASCII digit. */
  function DigitValue(c: char): (v: nat)
    requires IsDigit(c)
    ensures v < 10
  {
    c as int - '0' as int
  }

  /** The ASCII digit of a value below ten. */
  function DigitChar(v: nat): (c: char)
    requires v < 10
    ensures IsDigit(c) && DigitValue(c) == v
  {
    ('0' as int + v) as char
  }

  /** Upper-casing twice is upper-casing once. */
  lemma UpperIdempotente(s: string)
    ensures Upper(Upper(s)) == Upper(s)
  {
    assert forall i :: 0 <= i < |s| ==> ToUpper(ToUpper(s[i])) == ToUpper(s[i]);
  }

  /** Lower-casing commutes with cutting a string around one position. */
  lemma LowerEmTorno(s: string, a: nat)
    requires a < |s|
    ensures Lower(s) == Lower(s[..a]) + [ToLower(s[a])] + Lower(s[a + 1..])
  {
    var d := Lower(s[..a]) + [ToLower(s[a])] + Lower(s[a + 1..]);
    assert |d| == |s|;
    forall i | 0 <= i < |s| ensures Lower(s)[i] == d[i] {
      if i < a {
        assert d[i] == Lower(s[..a])[i] == ToLower(s[..a][i]);
      } else if i > a {
        assert d[i] == Lower(s[a + 1..])[i - a - 1] == ToLower(s[a + 1..][i - a - 1]);
      }
    }
  }

  /** A string without upper-case letters is its own lower-cased form. */
  lemma LowerSemMaiusculas(s: string)
    requires forall i :: 0 <= i < |s| ==> !IsUpper(s[i])
    ensures Lower(s) == s
  {
  }

  /** Lower-casing twice is lower-casing once. */
  lemma LowerIdempotente(s: string)
    ensures Lower(Lower(s)) == Lower(s)
  {
    assert forall i :: 0 <= i < |s| ==> ToLower(ToLower(s[i])) == ToLower(s[i]);
  }
}
