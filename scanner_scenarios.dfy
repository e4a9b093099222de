/**
 * The `u32` boundary for the alternative scanner of src/scanner.rs, next to
 * the library's scanner on the same input: the largest `u32` is scanned by
 * both, one more is an error result here and a panic in the library.
 */
module StandaloneScenarios {
  import opened Results
  import opened Ascii
  import opened StandaloneScanner
  import Durstr

  /** Appending a digit to a positive number appends its character to the spelling. */
  lemma DigitsOfStep(n: nat, d: nat)
    requires n > 0 && d < 10
    ensures DigitsOf(10 * n + d) == DigitsOf(n) + [('0' as int + d) as char]
  {
    assert (10 * n + d) / 10 == n && (10 * n + d) % 10 == d;
  }

  lemma MaxLiteral(d: string)
    requires d == "4294967295"
    ensures AllDigits(d) && DecimalValue(d) == U32_MAX
  {
    DigitsOfStep(4, 2);
    DigitsOfStep(42, 9);
    DigitsOfStep(429, 4);
    DigitsOfStep(4294, 9);
    DigitsOfStep(42949, 6);
    DigitsOfStep(429496, 7);
    DigitsOfStep(4294967, 2);
    DigitsOfStep(42949672, 9);
    DigitsOfStep(429496729, 5);
    assert DigitsOf(4) == "4";
    assert DigitsOf(4294967295) == d;
    DigitsOfValue(4294967295);
  }

  lemma OverflowLiteral(d: string)
    requires d == "4294967296"
    ensures AllDigits(d) && DecimalValue(d) == U32_MAX + 1
  {
    DigitsOfStep(4, 2);
    DigitsOfStep(42, 9);
    DigitsOfStep(429, 4);
    DigitsOfStep(4294, 9);
    DigitsOfStep(42949, 6);
    DigitsOfStep(429496, 7);
    DigitsOfStep(4294967, 2);
    DigitsOfStep(42949672, 9);
    DigitsOfStep(429496729, 6);
    assert DigitsOf(4) == "4";
    assert DigitsOf(4294967296) == d;
    DigitsOfValue(4294967296);
  }

  /** The ten-digit run at the head of `s` is a maximal run. */
  lemma TenDigitRun(s: string)
    requires |s| > 10 && AllDigits(s[..10]) && !IsDigit(s[10])
    ensures DigitSpan(s) == 10
  {
    DigitSpanUnique(s, 10);
  }

  lemma MillisecondsTail(s: string)
    requires s == " ms"
    ensures Lex(s) == Ok([Unit("ms")])
  {
    var u := s[1..];
    assert u == "ms";
    assert AlphaSpan(u) == 2 by {
      assert u[..2] == u;
      AlphaSpanUnique(u, 2);
    }
    assert u[..2] == "ms" && u[2..] == [];
    assert Lex(u) == Prepend([Unit(u[..2])], Lex(u[2..]));
    assert Lex(u[2..]) == Ok([]);
    assert [Unit("ms")] + [] == [Unit("ms")];
    assert Lex(s) == Lex(u);
  }

  /** The largest `u32` is scanned as an ordinary number. */
  lemma LargestNumberAccepted(s: string)
    requires s == "4294967295 ms"
    ensures Lex(s) == Ok([Number(U32_MAX), Unit("ms")])
  {
    MaxLiteral(s[..10]);
    TenDigitRun(s);
    MillisecondsTail(s[10..]);
    assert Lex(s) == Prepend([Number(U32_MAX)], Lex(s[10..]));
    assert [Number(U32_MAX)] + [Unit("ms")] == [Number(U32_MAX), Unit("ms")];
  }

  /** One more than the largest `u32` is the overflow error. */
  lemma TooLargeRejected(s: string)
    requires s == "4294967296 ms"
    ensures Lex(s) == Err(NumberTooLarge)
  {
    OverflowLiteral(s[..10]);
    TenDigitRun(s);
  }

  /** On the same input the library's scanner reaches an overflowing run, where it panics. */
  lemma TooLargePanicsInLibrary(s: string)
    requires s == "4294967296 ms"
    ensures !Durstr.ScanFits(s)
  {
    OverflowLiteral(s[..10]);
    TenDigitRun(s);
  }
}
