/**
 * The few Python string operations the shop relies on (`str.lower`,
 * `str.isupper` on one character, `str.isdigit`, `int(...)`, `startswith`),
 * restricted to ASCII letters and digits.
 */
module Text {
  import opened Wrappers

  predicate IsUpperChar(c: char) {
    'A' <= c <= 'Z'
  }

  function LowerChar(c: char): (l: char)
    ensures !IsUpperChar(l)
    ensures IsUpperChar(c) ==> l as int == c as int + 32
    ensures !IsUpperChar(c) ==> l == c
  {
    if IsUpperChar(c) then (c as int + 32) as char else c
  }

  /** `s.lower()`: every character lowered, nothing added or dropped. */
  function Lower(s: string): (r: string)
    ensures |r| == |s|
    ensures forall i :: 0 <= i < |s| ==> r[i] == LowerChar(s[i])
  {
    if s == [] then [] else [LowerChar(s[0])] + Lower(s[1..])
  }

  lemma {:induction false} LowerIdempotent(s: string)
    ensures Lower(Lower(s)) == Lower(s)
  {
    assert forall i :: 0 <= i < |s| ==> Lower(Lower(s))[i] == Lower(s)[i];
  }

  predicate StartsWith(s: string, c: char) {
    |s| > 0 && s[0] == c
  }

  predicate IsDigitChar(c: char) {
    '0' <= c <= '9'
  }

  /** `s.isdigit()`: non-empty and made of digits only. */
  predicate IsDigits(s: string) {
    |s| > 0 && forall i :: 0 <= i < |s| ==> IsDigitChar(s[i])
  }

  function DigitValue(c: char): nat
    requires IsDigitChar(c)
  {
    c as int - '0' as int
  }

  /** `int(s)` for a string of decimal digits (leading zeros allowed). */
  function DigitsValue(s: string): nat
    requires forall i :: 0 <= i < |s| ==> IsDigitChar(s[i])
  {
    if s == [] then 0 else 10 * DigitsValue(s[..|s| - 1]) + DigitValue(s[|s| - 1])
  }

  /**
   * The guard `s.isdigit() and 1 <= int(s) <= count` of the shop's numbered
   * menus, turned into the zero-based position it selects.
   */
  function ParseChoice(s: string, count: nat): (r: Option<nat>)
    ensures r.Some? <==> IsDigits(s) && 1 <= DigitsValue(s) <= count
    ensures r.Some? ==> IsDigits(s) && r.value == DigitsValue(s) - 1 && r.value < count
  {
    if IsDigits(s) && 1 <= DigitsValue(s) <= count then Some(DigitsValue(s) - 1) else None
  }
}
