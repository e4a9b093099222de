/**
 * How the alternative scanner of src/scanner.rs relates to the library's
 * scanner of src/lib.rs: on input without carriage returns or form feeds
 * they produce the same tokens and stop at the same unexpected character,
 * except that where the library's scanner would panic on a digit run too
 * large for a `u32`, the alternative one returns its overflow error.
 */
module LexerAgreement {
  import opened Results
  import opened Ascii
  import Durstr
  import StandaloneScanner
  import DurstrLexing

  /** The two characters the library skips as ASCII whitespace and the alternative scanner rejects. */
  predicate ExtraWhitespace(c: char)
  {
    c == '\r' || c == FORM_FEED
  }

  predicate NoExtraWhitespace(s: string)
  {
    forall i :: 0 <= i < |s| ==> !ExtraWhitespace(s[i])
  }

  function ToStandalone(t: Durstr.Token): StandaloneScanner.Token
  {
    match t
    case Number(v) => StandaloneScanner.Number(v)
    case Unit(u) => StandaloneScanner.Unit(u)
  }

  function ToTokens(ts: seq<Durstr.Token>): (r: seq<StandaloneScanner.Token>)
    ensures |r| == |ts| && forall i :: 0 <= i < |ts| ==> r[i] == ToStandalone(ts[i])
  {
    seq(|ts|, i requires 0 <= i < |ts| => ToStandalone(ts[i]))
  }

  /** A library scan outcome read as an outcome of the alternative scanner. */
  function Convert(r: Result<seq<Durstr.Token>, Durstr.Error>): Result<seq<StandaloneScanner.Token>, StandaloneScanner.ScanError>
    requires r.Err? ==> r.error.UnexpectedChar?
  {
    match r
    case Ok(ts) => Ok(ToTokens(ts))
    case Err(e) => Err(StandaloneScanner.UnexpectedChar(e.ch))
  }

  lemma ConvertPrepend(ts: seq<Durstr.Token>, r: Result<seq<Durstr.Token>, Durstr.Error>)
    requires r.Err? ==> r.error.UnexpectedChar?
    ensures Prepend(ts, r).Err? ==> Prepend(ts, r).error.UnexpectedChar?
    ensures Convert(Prepend(ts, r)) == Prepend(ToTokens(ts), Convert(r))
  {
    if r.Ok? {
      assert ToTokens(ts + r.value) == ToTokens(ts) + ToTokens(r.value);
    }
  }

  lemma NoExtraWhitespaceTail(s: string, n: nat)
    requires NoExtraWhitespace(s) && n <= |s|
    ensures NoExtraWhitespace(s[n..])
  {
    forall i | 0 <= i < |s[n..]| ensures !ExtraWhitespace(s[n..][i]) {
      assert s[n..][i] == s[n + i];
    }
  }

  /**
   * Without carriage returns and form feeds the two scanners agree: where the
   * library's scanner does not panic, the alternative one yields the same
   * outcome; where it would panic, the alternative one reports the overflow.
   */
  lemma {:induction false} Agreement(s: string)
    requires NoExtraWhitespace(s)
    ensures Durstr.ScanFits(s) ==> StandaloneScanner.Lex(s) == Convert(Durstr.Lex(s))
    ensures !Durstr.ScanFits(s) ==> StandaloneScanner.Lex(s) == Err(StandaloneScanner.NumberTooLarge)
    decreases |s|
  {
    if s == [] {
    } else if Durstr.ShouldSkip(s[0]) {
      assert StandaloneScanner.IsSeparator(s[0]) by { assert !ExtraWhitespace(s[0]); }
      NoExtraWhitespaceTail(s, 1);
      Agreement(s[1..]);
    } else if IsDigit(s[0]) {
      var n := DigitSpan(s);
      NoExtraWhitespaceTail(s, n);
      Agreement(s[n..]);
      var v := DecimalValue(s[..n]);
      if v <= U32_MAX {
        assert Durstr.Lex(s) == Prepend([Durstr.Number(v)], Durstr.Lex(s[n..]));
        assert ToTokens([Durstr.Number(v)]) == [StandaloneScanner.Number(v)];
        ConvertPrepend([Durstr.Number(v)], Durstr.Lex(s[n..]));
      }
    } else if IsAlpha(s[0]) {
      var n := AlphaSpan(s);
      NoExtraWhitespaceTail(s, n);
      Agreement(s[n..]);
      assert Durstr.Lex(s) == Prepend([Durstr.Unit(s[..n])], Durstr.Lex(s[n..]));
      assert ToTokens([Durstr.Unit(s[..n])]) == [StandaloneScanner.Unit(s[..n])];
      ConvertPrepend([Durstr.Unit(s[..n])], Durstr.Lex(s[n..]));
    } else {
      assert !StandaloneScanner.IsSeparator(s[0]);
    }
  }

  /**
   * A carriage return separates tokens for the library's scanner, while the
   * alternative scanner stops at it.
   */
  lemma DifferOnCarriageReturn(s: string)
    requires s == "1\rs"
    ensures Durstr.Lex(s) == Ok([Durstr.Number(1), Durstr.Unit("s")])
    ensures StandaloneScanner.Lex(s) == Err(StandaloneScanner.UnexpectedChar('\r'))
  {
    var rest := s[1..];
    assert DigitSpan(s) == 1 && DecimalValue(s[..1]) == 1 by {
      assert s[..1] == "1";
      DigitSpanUnique(s, 1);
      assert "1"[..0] == "";
    }
    assert rest == "\rs" && rest[1..] == "s";
    DurstrLexing.LexLetterRun("s");
    assert Durstr.Lex(rest) == Ok([Durstr.Unit("s")]);
    assert Durstr.Lex(s) == Prepend([Durstr.Number(1)], Durstr.Lex(rest));
    assert [Durstr.Number(1)] + [Durstr.Unit("s")] == [Durstr.Number(1), Durstr.Unit("s")];
    assert StandaloneScanner.Lex(rest) == Err(StandaloneScanner.UnexpectedChar('\r'));
  }
}
