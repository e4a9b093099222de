/**
 * The alternative scanner of src/scanner.rs. It keeps the same token shape
 * as the library's scanner, but skips only four separators, and a digit run
 * too large for a `u32` is an error result instead of a panic.
 */
module StandaloneScanner {
  import opened Results
  import opened Ascii

  /** A token; `Number` holds the value of a digit run that fits in a `u32`, `Unit` the letters verbatim. */
  datatype Token = Number(value: nat) | Unit(text: string)

  /**
   * The two ways a scan fails: an unexpected character, or a digit run whose
   * parse as a `u32` overflows. The source reports each of them as a message string.
   */
  datatype ScanError = UnexpectedChar(ch: char) | NumberTooLarge

  /** The only separators this scanner skips. */
  predicate IsSeparator(c: char)
  {
    c == ' ' || c == '\n' || c == '\t' || c == ','
  }

  predicate Accepted(c: char)
  {
    IsSeparator(c) || IsDigit(c) || IsAlpha(c)
  }

  predicate AllAccepted(s: string)
  {
    forall i :: 0 <= i < |s| ==> Accepted(s[i])
  }

  predicate AllSeparators(s: string)
  {
    forall i :: 0 <= i < |s| ==> IsSeparator(s[i])
  }

  /**
   * What scanning `s` yields: the tokens of its maximal digit and letter runs in
   * order, or the first failure met from the left, either a character that is not
   * accepted or a digit run that does not fit in a `u32`.
   */
  function Lex(s: string): (r: Result<seq<Token>, ScanError>)
    ensures r.Err? && r.error.UnexpectedChar? ==> !Accepted(r.error.ch)
    decreases |s|
  {
    if s == [] then Ok([])
    else if IsSeparator(s[0]) then Lex(s[1..])
    else if IsDigit(s[0]) then
      var n := DigitSpan(s);
      var v := DecimalValue(s[..n]);
      if v > U32_MAX then Err(NumberTooLarge)
      else Prepend([Number(v)], Lex(s[n..]))
    else if IsAlpha(s[0]) then
      var n := AlphaSpan(s);
      Prepend([Unit(s[..n])], Lex(s[n..]))
    else Err(UnexpectedChar(s[0]))
  }

  /** Every character the scanner has passed, from `start` up to `pos`, is accepted. */
  ghost predicate Consumed(source: string, start: nat, pos: nat)
  {
    start <= pos <= |source| && AllAccepted(source[start..pos])
  }

  /**
   * The scanner's loop state: scanning the characters passed so far,
   * `source[start..pos]`, on their own yields `tokens`, and `pos` does not cut a
   * run in two.
   */
  ghost predicate Scanned(source: string, start: nat, pos: nat, tokens: seq<Token>)
  {
    start <= pos <= |source| && Lex(source[start..pos]) == Ok(tokens) &&
    (pos == start || pos == |source| || !SameRun(source[pos - 1], source[pos]))
  }

  /**
   * `source[k..end]` is the first digit run of a scan from `start` that does not
   * fit in a `u32`: it is a maximal run, and everything before it scans successfully.
   */
  ghost predicate OverflowRun(source: string, start: nat, k: nat, end: nat)
  {
    start <= k < end <= |source| && Lex(source[start..k]).Ok? &&
    (k == start || !IsDigit(source[k - 1])) &&
    AllDigits(source[k..end]) && (end == |source| || !IsDigit(source[end])) &&
    DecimalValue(source[k..end]) > U32_MAX
  }

  /**
   * Where the cursor rests once a scan from `start` has ended with `r`: every
   * character passed is accepted; on success the input is used up; on an
   * unexpected character the cursor is on it; on an overflow the cursor is just
   * past the first digit run that does not fit.
   */
  ghost predicate Stopped(source: string, start: nat, pos: nat, r: Result<seq<Token>, ScanError>)
  {
    Consumed(source, start, pos) &&
    match r
    case Ok(_) => pos == |source|
    case Err(UnexpectedChar(c)) => pos < |source| && c == source[pos]
    case Err(NumberTooLarge) => exists k :: OverflowRun(source, start, k, pos)
  }

  /** A run of digits that fits in a `u32` scans to one number. */
  lemma DigitRunLex(b: string)
    requires b != [] && AllDigits(b) && DecimalValue(b) <= U32_MAX
    ensures Lex(b) == Ok([Number(DecimalValue(b))])
  {
    assert b[..|b|] == b && b[|b|..] == [];
    DigitSpanUnique(b, |b|);
    assert Lex(b) == Prepend([Number(DecimalValue(b))], Lex(b[|b|..]));
    assert [Number(DecimalValue(b))] + [] == [Number(DecimalValue(b))];
  }

  /** A run of letters scans to one unit. */
  lemma LetterRunLex(b: string)
    requires b != [] && AllAlpha(b)
    ensures Lex(b) == Ok([Unit(b)])
  {
    assert b[..|b|] == b && b[|b|..] == [];
    AlphaSpanUnique(b, |b|);
    assert Lex(b) == Prepend([Unit(b)], Lex(b[|b|..]));
    assert [Unit(b)] + [] == [Unit(b)];
  }

  /** From the loop state, the whole scan is the passed tokens followed by the scan of the rest. */
  lemma ScannedRest(source: string, start: nat, pos: nat, tokens: seq<Token>)
    requires Scanned(source, start, pos, tokens)
    ensures Lex(source[start..]) == Prepend(tokens, Lex(source[pos..]))
    ensures Consumed(source, start, pos)
  {
    var a := source[start..pos];
    var b := source[pos..];
    assert source[start..] == a + b;
    if pos > start && pos < |source| { assert a[|a| - 1] == source[pos - 1] && b[0] == source[pos]; }
    LexAppend(a, b);
    LexOkIff(a);
  }

  /** Passing a piece `source[pos..end]` that scans to `ts` on its own and ends at a run boundary. */
  lemma PieceStep(source: string, start: nat, pos: nat, end: nat, tokens: seq<Token>, ts: seq<Token>)
    requires Scanned(source, start, pos, tokens) && pos < end <= |source|
    requires Lex(source[pos..end]) == Ok(ts)
    requires end == |source| || !SameRun(source[end - 1], source[end])
    ensures Scanned(source, start, end, tokens + ts)
  {
    var a := source[start..pos];
    var b := source[pos..end];
    assert source[start..end] == a + b;
    if pos > start { assert a[|a| - 1] == source[pos - 1] && b[0] == source[pos]; }
    LexAppend(a, b);
  }

  /** Skipping a separator keeps the loop state. */
  lemma SkipStep(source: string, start: nat, pos: nat, tokens: seq<Token>)
    requires Scanned(source, start, pos, tokens) && pos < |source| && IsSeparator(source[pos])
    ensures Scanned(source, start, pos + 1, tokens)
  {
    var b := source[pos..pos + 1];
    assert b[0] == source[pos] && b[1..] == [];
    PieceStep(source, start, pos, pos + 1, tokens, []);
    assert tokens + [] == tokens;
  }

  /** The maximal digit run `source[pos..end]` adds its value, or ends the scan just past it with an overflow. */
  lemma DigitStep(source: string, start: nat, pos: nat, end: nat, tokens: seq<Token>)
    requires Scanned(source, start, pos, tokens) && pos < end <= |source| && IsDigit(source[pos])
    requires end == pos + DigitSpan(source[pos..]) && AllDigits(source[pos..end])
    ensures DecimalValue(source[pos..end]) > U32_MAX ==>
      Lex(source[start..]) == Err(NumberTooLarge) && Stopped(source, start, end, Err(NumberTooLarge))
    ensures DecimalValue(source[pos..end]) <= U32_MAX ==>
      Scanned(source, start, end, tokens + [Number(DecimalValue(source[pos..end]))])
  {
    var rest := source[pos..];
    var run := source[pos..end];
    assert rest[..end - pos] == run;
    assert run[end - pos - 1] == source[end - 1];
    if end < |source| { assert rest[end - pos] == source[end]; }
    if DecimalValue(run) <= U32_MAX {
      DigitRunLex(run);
      PieceStep(source, start, pos, end, tokens, [Number(DecimalValue(run))]);
    } else {
      ScannedRest(source, start, pos, tokens);
      assert source[start..end] == source[start..pos] + run;
      assert AllAccepted(run);
      AcceptedSplit(source[start..end], pos - start);
      assert OverflowRun(source, start, pos, end);
    }
  }

  /**
   * After the maximal digit run `source[pos..end]` has been read into `n`: an
   * overflow ends the scan there, otherwise the run's value is added.
   */
  lemma NumberStep(source: string, start: nat, pos: nat, end: nat, tokens: seq<Token>, n: Result<nat, ScanError>)
    requires Scanned(source, start, pos, tokens) && pos < end <= |source| && IsDigit(source[pos])
    requires end == pos + DigitSpan(source[pos..]) && AllDigits(source[pos..end])
    requires n.Ok? <==> DecimalValue(source[pos..end]) <= U32_MAX
    requires n.Ok? ==> n.value == DecimalValue(source[pos..end])
    requires n.Err? ==> n.error == NumberTooLarge
    ensures n.Err? ==> Lex(source[start..]) == Err(n.error) && Stopped(source, start, end, Err(n.error))
    ensures n.Ok? ==> Scanned(source, start, end, tokens + [Number(n.value)])
  {
    DigitStep(source, start, pos, end, tokens);
  }

  /** The maximal letter run `source[pos..end]` is added verbatim and the scan goes on from `end`. */
  lemma LetterStep(source: string, start: nat, pos: nat, end: nat, tokens: seq<Token>)
    requires Scanned(source, start, pos, tokens) && pos < end <= |source| && IsAlpha(source[pos])
    requires end == pos + AlphaSpan(source[pos..]) && AllAlpha(source[pos..end])
    ensures Scanned(source, start, end, tokens + [Unit(source[pos..end])])
  {
    LetterRunLex(source[pos..end]);
    assert source[pos..end][end - pos - 1] == source[end - 1];
    if end < |source| { assert source[pos..][end - pos] == source[end]; }
    PieceStep(source, start, pos, end, tokens, [Unit(source[pos..end])]);
  }

  /** A character that is not accepted ends the scan with that character, with the cursor on it. */
  lemma BadStep(source: string, start: nat, pos: nat, tokens: seq<Token>)
    requires Scanned(source, start, pos, tokens) && pos < |source| && !Accepted(source[pos])
    ensures Lex(source[start..]) == Err(UnexpectedChar(source[pos]))
    ensures Stopped(source, start, pos, Err(UnexpectedChar(source[pos])))
  {
    ScannedRest(source, start, pos, tokens);
    assert source[pos..][0] == source[pos];
  }

  /** At the end of the input the scan has produced exactly `tokens`. */
  lemma EndStep(source: string, start: nat, tokens: seq<Token>)
    requires Scanned(source, start, |source|, tokens)
    ensures Lex(source[start..]) == Ok(tokens) && Stopped(source, start, |source|, Ok(tokens))
  {
    ScannedRest(source, start, |source|, tokens);
    assert source[|source|..] == [] && tokens + [] == tokens;
  }

  /** The scanner over one input; `pos` is the index of the character the peekable cursor shows next. */
  class Scanner {
    const source: string
    var pos: nat

    constructor (source: string)
      ensures this.source == source && pos == 0
    {
      this.source := source;
      pos := 0;
    }

    /**
     * Scans the rest of the input into tokens. It stops at the first character
     * that is not accepted, or at the first digit run that overflows.
     */
    method ScanTokens() returns (r: Result<seq<Token>, ScanError>)
      requires pos <= |source|
      modifies this
      ensures r == Lex(source[old(pos)..])
      ensures Stopped(source, old(pos), pos, r)
    {
      ghost var start := pos;
      var tokens := [];
      assert source[pos..pos] == [];
      while pos < |source|
        invariant Scanned(source, start, pos, tokens)
      {
        var c := source[pos];
        if IsSeparator(c) {
          SkipStep(source, start, pos, tokens);
          pos := pos + 1;
        } else if IsDigit(c) {
          ghost var here := pos;
          var n := ScanNumber(pos);
          NumberStep(source, start, here, pos, tokens, n);
          if n.Err? {
            return Err(n.error);
          }
          tokens := tokens + [Number(n.value)];
        } else if IsAlpha(c) {
          ghost var here := pos;
          var u := ScanUnit(pos);
          LetterStep(source, start, here, pos, tokens);
          tokens := tokens + [Unit(u)];
        } else {
          BadStep(source, start, pos, tokens);
          return Err(UnexpectedChar(c));
        }
      }
      EndStep(source, start, tokens);
      return Ok(tokens);
    }

    /**
     * Collects the maximal digit run starting at `start` into a literal and
     * parses it as a `u32`; the literal is non-empty, so overflow is the only failure.
     */
    method ScanNumber(start: nat) returns (r: Result<nat, ScanError>)
      requires start == pos < |source| && IsDigit(source[start])
      modifies this
      ensures pos == start + DigitSpan(source[start..]) && pos > start
      ensures AllDigits(source[start..pos])
      ensures r.Ok? <==> DecimalValue(source[start..pos]) <= U32_MAX
      ensures r.Ok? ==> r.value == DecimalValue(source[start..pos])
      ensures r.Err? ==> r.error == NumberTooLarge
    {
      var literal := "";
      while pos < |source| && IsDigit(source[pos])
        invariant start <= pos <= |source|
        invariant literal == source[start..pos]
        invariant AllDigits(literal)
      {
        literal := literal + [source[pos]];
        pos := pos + 1;
      }
      assert source[start..][..pos - start] == source[start..pos];
      DigitSpanUnique(source[start..], pos - start);
      var value := DecimalValue(literal);
      if value <= U32_MAX {
        r := Ok(value);
      } else {
        r := Err(NumberTooLarge);
      }
    }

    /** Collects the maximal letter run starting at `start`, case preserved. */
    method ScanUnit(start: nat) returns (u: string)
      requires start == pos < |source| && IsAlpha(source[start])
      modifies this
      ensures pos == start + AlphaSpan(source[start..]) && pos > start
      ensures u == source[start..pos] && AllAlpha(u)
    {
      u := "";
      while pos < |source| && IsAlpha(source[pos])
        invariant start <= pos <= |source|
        invariant u == source[start..pos]
        invariant AllAlpha(u)
      {
        u := u + [source[pos]];
        pos := pos + 1;
      }
      assert source[start..][..pos - start] == source[start..pos];
      AlphaSpanUnique(source[start..], pos - start);
    }
  }

  // ---------------------------------------------------------------------------
  // Properties

  lemma AcceptedSplit(s: string, n: nat)
    requires n <= |s|
    ensures AllAccepted(s) <==> AllAccepted(s[..n]) && AllAccepted(s[n..])
  {
    if AllAccepted(s[..n]) && AllAccepted(s[n..]) {
      forall i | 0 <= i < |s| ensures Accepted(s[i]) {
        if i < n { assert s[..n][i] == s[i]; } else { assert s[n..][i - n] == s[i]; }
      }
    }
  }

  /** Characters that are not digits do not affect whether the digit runs fit. */
  lemma {:induction false} RunsFitSkip(s: string, n: nat)
    requires n <= |s| && forall i :: 0 <= i < n ==> !IsDigit(s[i])
    ensures RunsFit(s) == RunsFit(s[n..])
    decreases n
  {
    if n > 0 {
      assert s[1..][n - 1..] == s[n..];
      RunsFitSkip(s[1..], n - 1);
    }
  }

  /**
   * Scanning succeeds exactly when every character is one of the four
   * separators, a digit or an ASCII letter, and every digit run fits in a `u32`.
   */
  lemma {:induction false} LexOkIff(s: string)
    ensures Lex(s).Ok? <==> AllAccepted(s) && RunsFit(s)
    decreases |s|
  {
    if s == [] {
    } else if IsSeparator(s[0]) {
      LexOkIff(s[1..]);
      AcceptedSplit(s, 1);
    } else if IsDigit(s[0]) {
      var n := DigitSpan(s);
      if DecimalValue(s[..n]) <= U32_MAX {
        LexOkIff(s[n..]);
        AcceptedSplit(s, n);
      }
    } else if IsAlpha(s[0]) {
      var n := AlphaSpan(s);
      LexOkIff(s[n..]);
      AcceptedSplit(s, n);
      RunsFitSkip(s, n);
    } else {
      assert !Accepted(s[0]);
    }
  }

  /**
   * Scanning is compositional: where `a + b` is split between two runs, its
   * tokens are those of `a` followed by those of `b`, and the first failure wins.
   */
  lemma {:induction false} LexAppend(a: string, b: string)
    requires Boundary(a, b)
    ensures Lex(a + b) == Join(Lex(a), Lex(b))
    decreases |a|
  {
    if a == [] {
      assert a + b == b;
      PrependEmpty(Lex(b));
    } else if IsSeparator(a[0]) {
      assert (a + b)[1..] == a[1..] + b;
      LexAppend(a[1..], b);
    } else if IsDigit(a[0]) {
      var n := DigitSpan(a);
      DigitSpanAppend(a, b);
      if DecimalValue(a[..n]) <= U32_MAX {
        if a[n..] != [] { assert a[n..][|a[n..]| - 1] == a[|a| - 1]; }
        LexAppend(a[n..], b);
        JoinPrepend([Number(DecimalValue(a[..n]))], Lex(a[n..]), Lex(b));
      }
    } else if IsAlpha(a[0]) {
      var n := AlphaSpan(a);
      AlphaSpanAppend(a, b);
      if a[n..] != [] { assert a[n..][|a[n..]| - 1] == a[|a| - 1]; }
      LexAppend(a[n..], b);
      JoinPrepend([Unit(a[..n])], Lex(a[n..]), Lex(b));
    } else {
      assert (a + b)[0] == a[0];
    }
  }

  /**
   * A character that is not accepted stops the scan with that character, once
   * everything before it is accepted and its digit runs fit.
   */
  lemma FirstBad(s: string, k: nat)
    requires k < |s| && !Accepted(s[k])
    requires AllAccepted(s[..k]) && RunsFit(s[..k])
    ensures Lex(s) == Err(UnexpectedChar(s[k]))
  {
    assert s == s[..k] + s[k..];
    LexAppend(s[..k], s[k..]);
    LexOkIff(s[..k]);
  }

  /**
   * A digit run that overflows stops the scan with `NumberTooLarge`, once
   * everything before it is accepted and the digit runs there fit.
   */
  lemma FirstOverflow(s: string, k: nat)
    requires k < |s| && IsDigit(s[k]) && (k == 0 || !IsDigit(s[k - 1]))
    requires DecimalValue(s[k..][..DigitSpan(s[k..])]) > U32_MAX
    requires AllAccepted(s[..k]) && RunsFit(s[..k])
    ensures Lex(s) == Err(NumberTooLarge)
  {
    assert s == s[..k] + s[k..];
    if k > 0 { assert s[..k][k - 1] == s[k - 1]; }
    LexAppend(s[..k], s[k..]);
    LexOkIff(s[..k]);
  }

  /** Separators alone, the empty string included, scan to no tokens. */
  lemma {:induction false} SeparatorsOnly(s: string)
    requires AllSeparators(s)
    ensures Lex(s) == Ok([])
    decreases |s|
  {
    if s != [] {
      SeparatorsOnly(s[1..]);
    }
  }

  /** Every number a successful scan yields fits in a `u32`. */
  lemma {:induction false} NumbersFit(s: string)
    requires Lex(s).Ok?
    ensures forall t :: t in Lex(s).value && t.Number? ==> t.value <= U32_MAX
    decreases |s|
  {
    if s == [] {
    } else if IsSeparator(s[0]) {
      NumbersFit(s[1..]);
    } else if IsDigit(s[0]) {
      NumbersFit(s[DigitSpan(s)..]);
    } else if IsAlpha(s[0]) {
      NumbersFit(s[AlphaSpan(s)..]);
    }
  }

  /**
   * A scan from `start` has at most one first overflowing run, so the cursor
   * position `Stopped` gives after an overflow is determined by the input.
   */
  lemma OverflowRunUnique(source: string, start: nat, k1: nat, e1: nat, k2: nat, e2: nat)
    requires OverflowRun(source, start, k1, e1) && OverflowRun(source, start, k2, e2)
    ensures k1 == k2 && e1 == e2
  {
    if k1 < k2 {
      assert source[k2..e2][0] == source[k2];
      OverflowBeforeRun(source, start, k1, e1, k2);
    } else if k2 < k1 {
      assert source[k1..e1][0] == source[k1];
      OverflowBeforeRun(source, start, k2, e2, k1);
    } else {
      RunEndUnique(source, k1, e1, e2);
    }
  }

  /** After an overflow, `Stopped` allows exactly one cursor position. */
  lemma OverflowStopUnique(source: string, start: nat, p: nat, q: nat)
    requires Stopped(source, start, p, Err(NumberTooLarge)) && Stopped(source, start, q, Err(NumberTooLarge))
    ensures p == q
  {
    var k1 :| OverflowRun(source, start, k1, p);
    var k2 :| OverflowRun(source, start, k2, q);
    OverflowRunUnique(source, start, k1, p, k2, q);
  }

  /** Two maximal digit runs that start at the same index end at the same index. */
  lemma RunEndUnique(source: string, k: nat, e1: nat, e2: nat)
    requires k < e1 <= |source| && AllDigits(source[k..e1]) && (e1 == |source| || !IsDigit(source[e1]))
    requires k < e2 <= |source| && AllDigits(source[k..e2]) && (e2 == |source| || !IsDigit(source[e2]))
    ensures e1 == e2
  {
    var t := source[k..];
    assert t[..e1 - k] == source[k..e1] && t[..e2 - k] == source[k..e2];
    if e1 < |source| { assert t[e1 - k] == source[e1]; }
    if e2 < |source| { assert t[e2 - k] == source[e2]; }
    DigitSpanUnique(t, e1 - k);
    DigitSpanUnique(t, e2 - k);
  }

  /** A maximal digit run of length `n` at the head of `b` that does not fit makes the scan of `b` overflow. */
  lemma OverflowAtHead(b: string, n: nat)
    requires 0 < n <= |b| && AllDigits(b[..n]) && (n == |b| || !IsDigit(b[n]))
    requires DecimalValue(b[..n]) > U32_MAX
    ensures Lex(b) == Err(NumberTooLarge)
  {
    assert b[0] == b[..n][0];
    DigitSpanUnique(b, n);
  }

  /** A maximal digit run `source[k1..e1]` that overflows makes the scan up to a later run start `k2` fail. */
  lemma OverflowBeforeRun(source: string, start: nat, k1: nat, e1: nat, k2: nat)
    requires start <= k1 < e1 <= |source| && (k1 == start || !IsDigit(source[k1 - 1]))
    requires AllDigits(source[k1..e1]) && (e1 == |source| || !IsDigit(source[e1]))
    requires DecimalValue(source[k1..e1]) > U32_MAX
    requires k1 < k2 < |source| && IsDigit(source[k2]) && !IsDigit(source[k2 - 1])
    ensures !Lex(source[start..k2]).Ok?
  {
    assert e1 < k2;
    var a := source[start..k1];
    var b := source[k1..k2];
    assert source[start..k2] == a + b;
    if k1 > start { assert a[|a| - 1] == source[k1 - 1] && b[0] == source[k1]; }
    assert b[..e1 - k1] == source[k1..e1] && b[e1 - k1] == source[e1];
    OverflowAtHead(b, e1 - k1);
    LexAppend(a, b);
  }

  /** Leading zeros are accepted and change nothing: `"007s"` scans like `"7s"`. */
  lemma LeadingZeroIgnored(s: string)
    requires s != [] && IsDigit(s[0])
    ensures Lex(['0'] + s) == Lex(s)
  {
    var z := ['0'] + s;
    var n := DigitSpan(s);
    assert z[1..] == s;
    assert z[..n + 1] == ['0'] + s[..n];
    assert z[n + 1..] == s[n..];
    assert AllDigits(z[..n + 1]) by {
      var p := z[..n + 1];
      forall i | 0 <= i < n + 1 ensures IsDigit(p[i]) {
        if i > 0 { assert p[i] == s[..n][i - 1]; }
      }
    }
    if n + 1 < |z| { assert z[n + 1] == s[n]; }
    DigitSpanUnique(z, n + 1);
    LeadingZero(s[..n]);
  }

  /** A carriage return is not a separator here: it stops the scan where it stands. */
  lemma CarriageReturnRejected(a: string, b: string)
    requires AllAccepted(a) && RunsFit(a)
    ensures Lex(a + ['\r'] + b) == Err(UnexpectedChar('\r'))
  {
    var s := a + ['\r'] + b;
    assert s[..|a|] == a && s[|a|] == '\r';
    FirstBad(s, |a|);
  }
}
