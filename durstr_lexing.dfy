/** Properties of the scanner of src/lib.rs, stated about `Durstr.Lex`. */
module DurstrLexing {
  import opened Results
  import opened Ascii
  import opened Durstr

  predicate AllAllowed(s: string)
  {
    forall i :: 0 <= i < |s| ==> Allowed(s[i])
  }

  predicate AllSkipped(s: string)
  {
    forall i :: 0 <= i < |s| ==> ShouldSkip(s[i])
  }

  lemma AllowedSplit(s: string, n: nat)
    requires n <= |s|
    ensures AllAllowed(s) <==> AllAllowed(s[..n]) && AllAllowed(s[n..])
  {
    if AllAllowed(s[..n]) && AllAllowed(s[n..]) {
      forall i | 0 <= i < |s| ensures Allowed(s[i]) {
        if i < n { assert s[..n][i] == s[i]; } else { assert s[n..][i - n] == s[i]; }
      }
    }
  }

  lemma DigitsAllowed(s: string)
    requires AllDigits(s)
    ensures AllAllowed(s)
  {
  }

  lemma LettersAllowed(s: string)
    requires AllAlpha(s)
    ensures AllAllowed(s)
  {
  }

  /** Scanning succeeds exactly when every character is a separator, a digit or an ASCII letter. */
  lemma {:induction false} LexOkIff(s: string)
    ensures Lex(s).Ok? <==> AllAllowed(s)
    decreases |s|
  {
    if s == [] {
    } else if ShouldSkip(s[0]) {
      LexOkIff(s[1..]);
      AllowedSplit(s, 1);
    } else if IsDigit(s[0]) {
      var n := DigitSpan(s);
      LexOkIff(s[n..]);
      AllowedSplit(s, n);
      DigitsAllowed(s[..n]);
    } else if IsAlpha(s[0]) {
      var n := AlphaSpan(s);
      LexOkIff(s[n..]);
      AllowedSplit(s, n);
      LettersAllowed(s[..n]);
    } else {
      assert !Allowed(s[0]);
    }
  }

  /** Scanning fails with the first character that is not allowed, whatever follows it. */
  lemma {:induction false} LexFirstBad(s: string, k: nat)
    requires k < |s| && !Allowed(s[k])
    requires forall j :: 0 <= j < k ==> Allowed(s[j])
    ensures Lex(s) == Err(UnexpectedChar(s[k]))
    decreases |s|
  {
    if k == 0 {
    } else if ShouldSkip(s[0]) {
      LexFirstBad(s[1..], k - 1);
    } else if IsDigit(s[0]) {
      var n := DigitSpan(s);
      LexFirstBad(s[n..], k - n);
    } else {
      var n := AlphaSpan(s);
      LexFirstBad(s[n..], k - n);
    }
  }

  /** A non-empty run of digits scans to one `Number` holding its value. */
  lemma LexDigitRun(s: string)
    requires |s| > 0 && AllDigits(s)
    ensures Lex(s) == Ok([Number(DecimalValue(s))])
  {
    assert IsDigit(s[0]);
    DigitSpanUnique(s, |s|);
    assert s[..|s|] == s;
    assert Lex(s[|s|..]) == Ok([]) by { assert s[|s|..] == []; }
    assert [Number(DecimalValue(s))] + [] == [Number(DecimalValue(s))];
  }

  /** A non-empty run of ASCII letters scans to one `Unit` holding it verbatim. */
  lemma LexLetterRun(s: string)
    requires |s| > 0 && AllAlpha(s)
    ensures Lex(s) == Ok([Unit(s)])
  {
    assert IsAlpha(s[0]) && !IsDigit(s[0]);
    AlphaSpanUnique(s, |s|);
    assert s[..|s|] == s;
    assert Lex(s[|s|..]) == Ok([]) by { assert s[|s|..] == []; }
    assert [Unit(s)] + [] == [Unit(s)];
  }

  /** Separators alone, the empty string included, scan to no tokens. */
  lemma {:induction false} LexSeparatorsOnly(s: string)
    requires AllSkipped(s)
    ensures Lex(s) == Ok([])
    decreases |s|
  {
    if s != [] {
      LexSeparatorsOnly(s[1..]);
    }
  }

  /**
   * Scanning is compositional: where `a + b` is split between two runs, its
   * tokens are those of `a` followed by those of `b`, and the first error wins.
   */
  lemma {:induction false} LexAppend(a: string, b: string)
    requires Boundary(a, b)
    ensures Lex(a + b) == Join(Lex(a), Lex(b))
    decreases |a|
  {
    if a == [] {
      assert a + b == b;
      PrependEmpty(Lex(b));
    } else if ShouldSkip(a[0]) {
      assert (a + b)[1..] == a[1..] + b;
      LexAppend(a[1..], b);
    } else if IsDigit(a[0]) {
      var n := DigitSpan(a);
      DigitSpanAppend(a, b);
      if a[n..] != [] { assert a[n..][|a[n..]| - 1] == a[|a| - 1]; }
      LexAppend(a[n..], b);
      JoinPrepend([Number(DecimalValue(a[..n]))], Lex(a[n..]), Lex(b));
    } else if IsAlpha(a[0]) {
      var n := AlphaSpan(a);
      AlphaSpanAppend(a, b);
      if a[n..] != [] { assert a[n..][|a[n..]| - 1] == a[|a| - 1]; }
      LexAppend(a[n..], b);
      JoinPrepend([Unit(a[..n])], Lex(a[n..]), Lex(b));
    } else {
      assert (a + b)[0] == a[0];
    }
  }

  /** A separator between two runs produces no token: `"1h 2min"` scans like `"1h2min"`. */
  lemma LexSeparator(a: string, c: char, b: string)
    requires ShouldSkip(c) && Boundary(a, b)
    ensures Lex(a + [c] + b) == Lex(a + b)
  {
    assert a + [c] + b == a + ([c] + b);
    LexAppend(a, [c] + b);
    assert ([c] + b)[1..] == b;
    LexAppend(a, b);
  }

  /** A scan that does not panic yields only numbers that fit in a `u32`. */
  lemma {:induction false} LexNumbersFit(s: string)
    requires ScanFits(s) && Lex(s).Ok?
    ensures forall t :: t in Lex(s).value && t.Number? ==> t.value <= U32_MAX
    decreases |s|
  {
    if s == [] {
    } else if ShouldSkip(s[0]) {
      LexNumbersFit(s[1..]);
    } else if IsDigit(s[0]) {
      LexNumbersFit(s[DigitSpan(s)..]);
    } else if IsAlpha(s[0]) {
      LexNumbersFit(s[AlphaSpan(s)..]);
    }
  }

  // ---------------------------------------------------------------------------
  // Inputs written as runs

  /** A piece of input text: a digit run, a letter run or a run of separators. */
  datatype Piece = Digits(digits: string) | Letters(letters: string) | Gap(gap: string)

  function PieceText(pc: Piece): string
  {
    match pc
    case Digits(d) => d
    case Letters(l) => l
    case Gap(g) => g
  }

  predicate PieceOk(pc: Piece)
  {
    |PieceText(pc)| > 0 &&
    match pc
    case Digits(d) => AllDigits(d)
    case Letters(l) => AllAlpha(l)
    case Gap(g) => AllSkipped(g)
  }

  /** The tokens a piece stands for. */
  function PieceTokens(pc: Piece): seq<Token>
    requires PieceOk(pc)
  {
    match pc
    case Digits(d) => [Number(DecimalValue(d))]
    case Letters(l) => [Unit(l)]
    case Gap(_) => []
  }

  function Text(pcs: seq<Piece>): string
  {
    if pcs == [] then [] else PieceText(pcs[0]) + Text(pcs[1..])
  }

  /**
   * Non-empty well-formed pieces in which no digit run touches another digit
   * run and no letter run touches another letter run.
   */
  predicate WellSeparated(pcs: seq<Piece>)
  {
    && (forall i :: 0 <= i < |pcs| ==> PieceOk(pcs[i]))
    && (forall i :: 0 <= i < |pcs| - 1 ==>
          !(pcs[i].Digits? && pcs[i + 1].Digits?) && !(pcs[i].Letters? && pcs[i + 1].Letters?))
  }

  function PiecesTokens(pcs: seq<Piece>): seq<Token>
    requires WellSeparated(pcs)
  {
    if pcs == [] then [] else PieceTokens(pcs[0]) + PiecesTokens(pcs[1..])
  }

  lemma PieceLex(pc: Piece)
    requires PieceOk(pc)
    ensures Lex(PieceText(pc)) == Ok(PieceTokens(pc))
  {
    match pc
    case Digits(d) => LexDigitRun(d);
    case Letters(l) => LexLetterRun(l);
    case Gap(g) => LexSeparatorsOnly(g);
  }

  lemma TextStartsWith(pcs: seq<Piece>)
    requires pcs != [] && WellSeparated(pcs)
    ensures Text(pcs) != [] && Text(pcs)[0] == PieceText(pcs[0])[0]
  {
    assert PieceOk(pcs[0]);
  }

  /**
   * The declarative reading of the scanner: text written as well-separated
   * runs scans to the runs' tokens, each number the value of its digit run and
   * each unit its letter run verbatim; separators yield nothing.
   */
  lemma {:induction false} LexPieces(pcs: seq<Piece>)
    requires WellSeparated(pcs)
    ensures Lex(Text(pcs)) == Ok(PiecesTokens(pcs))
    decreases |pcs|
  {
    if pcs == [] {
    } else {
      var head, tail := pcs[0], pcs[1..];
      assert WellSeparated(tail) by {
        forall i | 0 <= i < |tail| - 1
          ensures !(tail[i].Digits? && tail[i + 1].Digits?) && !(tail[i].Letters? && tail[i + 1].Letters?)
        {
          assert tail[i] == pcs[i + 1] && tail[i + 1] == pcs[i + 2];
        }
      }
      assert PieceOk(head);
      var a := PieceText(head);
      if tail != [] {
        TextStartsWith(tail);
        assert PieceOk(tail[0]) && tail[0] == pcs[1];
        var c, d := a[|a| - 1], Text(tail)[0];
        assert !SameRun(c, d) by {
          match head
          case Digits(_) =>
          case Letters(_) =>
          case Gap(_) => assert ShouldSkip(c);
        }
      }
      LexAppend(a, Text(tail));
      PieceLex(head);
      LexPieces(tail);
    }
  }

  // ---------------------------------------------------------------------------
  // Case

  function LowerToken(t: Token): Token
  {
    match t
    case Number(n) => Number(n)
    case Unit(u) => Unit(Lower(u))
  }

  function LowerTokens(ts: seq<Token>): seq<Token>
  {
    seq(|ts|, i requires 0 <= i < |ts| => LowerToken(ts[i]))
  }

  /** A scan outcome with every unit lower-cased; errors are unchanged. */
  function LowerOutcome(r: Result<seq<Token>, Error>): Result<seq<Token>, Error>
  {
    match r
    case Ok(ts) => Ok(LowerTokens(ts))
    case Err(e) => Err(e)
  }

  lemma LowerOutcomePrepend(t: Token, r: Result<seq<Token>, Error>)
    ensures LowerOutcome(Prepend([t], r)) == Prepend([LowerToken(t)], LowerOutcome(r))
  {
    if r.Ok? { assert LowerTokens([t] + r.value) == [LowerToken(t)] + LowerTokens(r.value); }
  }

  /**
   * Lower-casing the input lower-cases the units it scans to and changes
   * nothing else: digits, separators and unexpected characters are not letters.
   */
  lemma {:induction false} LexLower(s: string)
    ensures Lex(Lower(s)) == LowerOutcome(Lex(s))
    decreases |s|
  {
    var l := Lower(s);
    if s == [] {
      assert l == [] && LowerTokens([]) == [];
    } else if ShouldSkip(s[0]) {
      assert l[0] == s[0];
      assert l[1..] == Lower(s[1..]);
      LexLower(s[1..]);
    } else if IsDigit(s[0]) {
      var n := DigitSpan(s);
      assert l[..n] == s[..n];
      DigitSpanUnique(l, n);
      assert l[n..] == Lower(s[n..]);
      LexLower(s[n..]);
      LowerOutcomePrepend(Number(DecimalValue(s[..n])), Lex(s[n..]));
    } else if IsAlpha(s[0]) {
      var n := AlphaSpan(s);
      assert l[..n] == Lower(s[..n]);
      assert AllAlpha(l[..n]);
      AlphaSpanUnique(l, n);
      assert l[n..] == Lower(s[n..]);
      LexLower(s[n..]);
      LowerOutcomePrepend(Unit(s[..n]), Lex(s[n..]));
    } else {
      assert l[0] == s[0];
    }
  }
}
