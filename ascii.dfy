/**
 * Character classes and digit-run arithmetic shared by both lexers: Rust's
 * `char::is_ascii_digit`, `is_ascii_alphabetic`, `is_ascii_whitespace`, ASCII
 * lower-casing, and `str::parse::<u32>` on a run of decimal digits.
 */
module Ascii {

  /** `u32::MAX`. */
  const U32_MAX: nat := 0xFFFF_FFFF

  const FORM_FEED: char := '\U{000C}'

  predicate IsDigit(c: char) { '0' <= c <= '9' }

  predicate IsUpper(c: char) { 'A' <= c <= 'Z' }

  predicate IsAlpha(c: char) { 'a' <= c <= 'z' || IsUpper(c) }

  /** `char::is_ascii_whitespace`: space, tab, line feed, form feed and carriage return. */
  predicate IsWhitespace(c: char)
  {
    c == ' ' || c == '\t' || c == '\n' || c == FORM_FEED || c == '\r'
  }

  /** ASCII lower-casing of one character; every other character is left alone. */
  function ToLower(c: char): (r: char)
    ensures IsAlpha(c) <==> IsAlpha(r)
    ensures !IsUpper(r)
    ensures !IsUpper(c) ==> r == c
    ensures IsUpper(c) ==> r as int - 'a' as int == c as int - 'A' as int
    ensures IsDigit(c) <==> IsDigit(r)
  {
    if IsUpper(c) then (c as int + 32) as char else c
  }

  /** ASCII lower-casing of a string, character by character. */
  function Lower(s: string): string
  {
    seq(|s|, i requires 0 <= i < |s| => ToLower(s[i]))
  }

  predicate AllDigits(s: string)
  {
    forall i :: 0 <= i < |s| ==> IsDigit(s[i])
  }

  predicate AllAlpha(s: string)
  {
    forall i :: 0 <= i < |s| ==> IsAlpha(s[i])
  }

  /** The length of the maximal run of digits at the start of `s`. */
  function DigitSpan(s: string): (n: nat)
    ensures n <= |s|
    ensures AllDigits(s[..n])
    ensures n == |s| || !IsDigit(s[n])
  {
    if s == [] || !IsDigit(s[0]) then 0 else 1 + DigitSpan(s[1..])
  }

  /** The length of the maximal run of ASCII letters at the start of `s`. */
  function AlphaSpan(s: string): (n: nat)
    ensures n <= |s|
    ensures AllAlpha(s[..n])
    ensures n == |s| || !IsAlpha(s[n])
  {
    if s == [] || !IsAlpha(s[0]) then 0 else 1 + AlphaSpan(s[1..])
  }

  /** The decimal value of a run of digits, read most significant digit first. */
  function DecimalValue(s: string): nat
    requires AllDigits(s)
  {
    if s == [] then 0
    else DecimalValue(s[..|s| - 1]) * 10 + (s[|s| - 1] as int - '0' as int)
  }

  /** Every maximal run of digits in `s` has a value that fits in a `u32`. */
  predicate RunsFit(s: string)
    decreases |s|
  {
    if s == [] then true
    else if IsDigit(s[0]) then
      DecimalValue(s[..DigitSpan(s)]) <= U32_MAX && RunsFit(s[DigitSpan(s)..])
    else RunsFit(s[1..])
  }

  /** Any `n` that has the two properties of a maximal digit run is `DigitSpan(s)`. */
  lemma {:induction false} DigitSpanUnique(s: string, n: nat)
    requires n <= |s| && AllDigits(s[..n]) && (n == |s| || !IsDigit(s[n]))
    ensures n == DigitSpan(s)
    decreases n
  {
    if n > 0 {
      var head, t := s[..n], s[1..];
      assert IsDigit(s[0]) by { assert head[0] == s[0]; }
      var u := t[..n - 1];
      assert AllDigits(u) by {
        forall i | 0 <= i < n - 1 ensures IsDigit(u[i]) {
          assert u[i] == head[i + 1];
        }
      }
      if n < |s| { assert t[n - 1] == s[n]; }
      DigitSpanUnique(t, n - 1);
    }
  }

  /** Any `n` that has the two properties of a maximal letter run is `AlphaSpan(s)`. */
  lemma {:induction false} AlphaSpanUnique(s: string, n: nat)
    requires n <= |s| && AllAlpha(s[..n]) && (n == |s| || !IsAlpha(s[n]))
    ensures n == AlphaSpan(s)
    decreases n
  {
    if n > 0 {
      var head, t := s[..n], s[1..];
      assert IsAlpha(s[0]) by { assert head[0] == s[0]; }
      var u := t[..n - 1];
      assert AllAlpha(u) by {
        forall i | 0 <= i < n - 1 ensures IsAlpha(u[i]) {
          assert u[i] == head[i + 1];
        }
      }
      if n < |s| { assert t[n - 1] == s[n]; }
      AlphaSpanUnique(t, n - 1);
    }
  }

  /** Leading zeros do not change the value of a digit run. */
  lemma {:induction false} LeadingZero(s: string)
    requires AllDigits(s)
    ensures AllDigits(['0'] + s) && DecimalValue(['0'] + s) == DecimalValue(s)
  {
    var z := ['0'] + s;
    assert AllDigits(z) by {
      forall i | 0 <= i < |z| ensures IsDigit(z[i]) {
        if i > 0 { assert z[i] == s[i - 1]; }
      }
    }
    if s != [] {
      var t := s[..|s| - 1];
      assert AllDigits(t) by {
        forall i | 0 <= i < |t| ensures IsDigit(t[i]) { assert t[i] == s[i]; }
      }
      LeadingZero(t);
      assert z[..|z| - 1] == ['0'] + t;
      assert z[|z| - 1] == s[|s| - 1];
    }
  }

  /** The decimal spelling of `n`, without leading zeros. */
  function DigitsOf(n: nat): string
  {
    var last := [('0' as int + n % 10) as char];
    if n < 10 then last else DigitsOf(n / 10) + last
  }

  /** Reading back the decimal spelling of `n` gives `n`. */
  lemma {:induction false} DigitsOfValue(n: nat)
    ensures |DigitsOf(n)| > 0 && AllDigits(DigitsOf(n)) && DecimalValue(DigitsOf(n)) == n
  {
    var s := DigitsOf(n);
    if n >= 10 {
      DigitsOfValue(n / 10);
      assert s[..|s| - 1] == DigitsOf(n / 10);
    }
  }

  /** Lower-casing twice is lower-casing once. */
  lemma LowerIdempotent(s: string)
    ensures Lower(Lower(s)) == Lower(s)
  {
  }

  /** Two characters that would belong to one maximal run. */
  predicate SameRun(c: char, d: char)
  {
    (IsDigit(c) && IsDigit(d)) || (IsAlpha(c) && IsAlpha(d))
  }

  /** Splitting `a + b` between `a` and `b` does not cut a digit or letter run in two. */
  predicate Boundary(a: string, b: string)
  {
    a == [] || b == [] || !SameRun(a[|a| - 1], b[0])
  }

  lemma DigitSpanAppend(a: string, b: string)
    requires a != [] && IsDigit(a[0]) && Boundary(a, b)
    ensures DigitSpan(a + b) == DigitSpan(a)
    ensures (a + b)[..DigitSpan(a)] == a[..DigitSpan(a)]
    ensures (a + b)[DigitSpan(a)..] == a[DigitSpan(a)..] + b
  {
    var n := DigitSpan(a);
    assert (a + b)[..n] == a[..n];
    assert a[..n][n - 1] == a[n - 1];
    if n == |a| && b != [] { assert (a + b)[n] == b[0]; }
    DigitSpanUnique(a + b, n);
    assert (a + b)[n..] == a[n..] + b;
  }

  lemma AlphaSpanAppend(a: string, b: string)
    requires a != [] && IsAlpha(a[0]) && Boundary(a, b)
    ensures AlphaSpan(a + b) == AlphaSpan(a)
    ensures (a + b)[..AlphaSpan(a)] == a[..AlphaSpan(a)]
    ensures (a + b)[AlphaSpan(a)..] == a[AlphaSpan(a)..] + b
  {
    var n := AlphaSpan(a);
    assert (a + b)[..n] == a[..n];
    assert a[..n][n - 1] == a[n - 1];
    if n == |a| && b != [] { assert (a + b)[n] == b[0]; }
    AlphaSpanUnique(a + b, n);
    assert (a + b)[n..] == a[n..] + b;
  }
}
