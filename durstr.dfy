/**
 * The duration-string library (src/lib.rs): a scanner that turns text such as
 * "1h 2min 3s" into `Number`/`Unit` tokens, and a parser that sums the token
 * pairs into a duration, here a count of milliseconds.
 */
module Durstr {
  import opened Results
  import opened Ascii

  /** A token of the input; `Number` holds the value of a digit run, `Unit` the letters verbatim. */
  datatype Token = Number(value: nat) | Unit(text: string)

  /** The errors `parse` can return. */
  datatype Error =
    | UnexpectedChar(ch: char)
    | UnexpectedUnit(unit: string)
    | ExpectedUnit
    | ExpectedNumber

  /** Separators the scanner skips: ASCII whitespace and commas. */
  predicate ShouldSkip(c: char)
  {
    IsWhitespace(c) || c == ','
  }

  /** The characters the scanner accepts; any other one is an `UnexpectedChar`. */
  predicate Allowed(c: char)
  {
    ShouldSkip(c) || IsDigit(c) || IsAlpha(c)
  }

  // ---------------------------------------------------------------------------
  // Scanner

  /**
   * What scanning `s` yields: the tokens of its maximal digit and letter runs in
   * order, or the first character that is neither a separator, a digit nor a letter.
   */
  function Lex(s: string): (r: Result<seq<Token>, Error>)
    ensures r.Err? ==> r.error.UnexpectedChar? && !Allowed(r.error.ch)
    decreases |s|
  {
    if s == [] then Ok([])
    else if ShouldSkip(s[0]) then Lex(s[1..])
    else if IsDigit(s[0]) then
      var n := DigitSpan(s);
      assert s[n..] == s[1..][n - 1..];
      Prepend([Number(DecimalValue(s[..n]))], Lex(s[n..]))
    else if IsAlpha(s[0]) then
      var n := AlphaSpan(s);
      assert s[n..] == s[1..][n - 1..];
      Prepend([Unit(s[..n])], Lex(s[n..]))
    else Err(UnexpectedChar(s[0]))
  }

  /**
   * No digit run that the scanner reaches overflows a `u32`: `scan_number`
   * unwraps the parse of the run, so such an input makes the scanner panic.
   * Runs after the first unexpected character are never reached.
   */
  predicate ScanFits(s: string)
    decreases |s|
  {
    if s == [] then true
    else if ShouldSkip(s[0]) then ScanFits(s[1..])
    else if IsDigit(s[0]) then
      DecimalValue(s[..DigitSpan(s)]) <= U32_MAX && ScanFits(s[DigitSpan(s)..])
    else if IsAlpha(s[0]) then ScanFits(s[AlphaSpan(s)..])
    else true
  }

  /**
   * The scanner's loop state: scanning `source[start..]` yields the `tokens`
   * gathered so far followed by whatever scanning `source[pos..]` yields, and
   * no digit run from `pos` on overflows.
   */
  ghost predicate Scanned(source: string, start: nat, pos: nat, tokens: seq<Token>)
  {
    start <= pos <= |source| && ScanFits(source[pos..]) &&
    Lex(source[start..]) == Prepend(tokens, Lex(source[pos..]))
  }

  /** Skipping a separator keeps the loop state. */
  lemma SkipStep(source: string, start: nat, pos: nat, tokens: seq<Token>)
    requires Scanned(source, start, pos, tokens) && pos < |source| && ShouldSkip(source[pos])
    ensures Scanned(source, start, pos + 1, tokens)
  {
    assert source[pos..][1..] == source[pos + 1..];
  }

  /** At a digit, a scan that does not panic reaches a run that fits. */
  lemma ScanFitsDigitStep(source: string, start: nat, pos: nat, tokens: seq<Token>)
    requires Scanned(source, start, pos, tokens) && pos < |source| && IsDigit(source[pos])
    ensures DecimalValue(source[pos..][..DigitSpan(source[pos..])]) <= U32_MAX
  {
  }

  /** The maximal digit run `source[pos..end]` adds its value and the scan goes on from `end`. */
  lemma DigitStep(source: string, start: nat, pos: nat, end: nat, tokens: seq<Token>)
    requires Scanned(source, start, pos, tokens) && pos < end <= |source| && IsDigit(source[pos])
    requires end == pos + DigitSpan(source[pos..]) && AllDigits(source[pos..end])
    ensures Scanned(source, start, end, tokens + [Number(DecimalValue(source[pos..end]))])
  {
    var rest := source[pos..];
    assert rest[..end - pos] == source[pos..end];
    assert rest[end - pos..] == source[end..];
    PrependAssoc(tokens, [Number(DecimalValue(source[pos..end]))], Lex(source[end..]));
  }

  /** The maximal letter run `source[pos..end]` is added verbatim and the scan goes on from `end`. */
  lemma LetterStep(source: string, start: nat, pos: nat, end: nat, tokens: seq<Token>)
    requires Scanned(source, start, pos, tokens) && pos < end <= |source|
    requires IsAlpha(source[pos]) && !IsDigit(source[pos]) && end == pos + AlphaSpan(source[pos..])
    ensures Scanned(source, start, end, tokens + [Unit(source[pos..end])])
  {
    var rest := source[pos..];
    assert rest[..end - pos] == source[pos..end];
    assert rest[end - pos..] == source[end..];
    PrependAssoc(tokens, [Unit(source[pos..end])], Lex(source[end..]));
  }

  /** A character the scanner does not accept ends the scan with that character. */
  lemma BadStep(source: string, start: nat, pos: nat, tokens: seq<Token>)
    requires Scanned(source, start, pos, tokens) && pos < |source| && !Allowed(source[pos])
    ensures Lex(source[start..]) == Err(UnexpectedChar(source[pos]))
  {
    assert source[pos..][0] == source[pos];
  }

  /** At the end of the input the scan has produced exactly `tokens`. */
  lemma EndStep(source: string, start: nat, tokens: seq<Token>)
    requires Scanned(source, start, |source|, tokens)
    ensures Lex(source[start..]) == Ok(tokens)
  {
    assert source[|source|..] == [] && tokens + [] == tokens;
  }

  /** The scanner over one input; `pos` is the index of the character the peek cursor shows next. */
  class Scanner {
    const source: string
    var pos: nat

    constructor (source: string)
      ensures this.source == source && pos == 0
    {
      this.source := source;
      pos := 0;
    }

    /** Scans the rest of the input into tokens, stopping at the first unexpected character. */
    method ScanTokens() returns (r: Result<seq<Token>, Error>)
      requires pos <= |source| && ScanFits(source[pos..])
      modifies this
      ensures r == Lex(source[old(pos)..])
      ensures r.Ok? ==> pos == |source|
      ensures r.Err? ==> pos < |source| && r.error == UnexpectedChar(source[pos])
    {
      ghost var start := pos;
      var tokens := [];
      PrependEmpty(Lex(source[pos..]));
      while pos < |source|
        invariant Scanned(source, start, pos, tokens)
      {
        var c := source[pos];
        if ShouldSkip(c) {
          SkipStep(source, start, pos, tokens);
          pos := pos + 1;
        } else if IsDigit(c) {
          ghost var here := pos;
          ScanFitsDigitStep(source, start, pos, tokens);
          var n := ScanNumber(pos);
          DigitStep(source, start, here, pos, tokens);
          tokens := tokens + [Number(n)];
        } else if IsAlpha(c) {
          ghost var here := pos;
          var u := ScanUnit(pos);
          LetterStep(source, start, here, pos, tokens);
          tokens := tokens + [Unit(u)];
        } else {
          BadStep(source, start, pos, tokens);
          return Err(UnexpectedChar(c));
        }
      }
      EndStep(source, start, tokens);
      return Ok(tokens);
    }

    /** Consumes the maximal digit run starting at `start` and returns its value. */
    method ScanNumber(start: nat) returns (n: nat)
      requires start == pos < |source| && IsDigit(source[start])
      requires DecimalValue(source[start..][..DigitSpan(source[start..])]) <= U32_MAX
      modifies this
      ensures pos == start + DigitSpan(source[start..]) && pos > start
      ensures AllDigits(source[start..pos]) && n == DecimalValue(source[start..pos]) && n <= U32_MAX
    {
      while pos < |source| && IsDigit(source[pos])
        invariant start <= pos <= |source|
        invariant forall k :: start <= k < pos ==> IsDigit(source[k])
      {
        pos := pos + 1;
      }
      assert source[start..][..pos - start] == source[start..pos];
      DigitSpanUnique(source[start..], pos - start);
      n := DecimalValue(source[start..pos]);
    }

    /** Consumes the maximal letter run starting at `start` and returns it verbatim. */
    method ScanUnit(start: nat) returns (u: string)
      requires start == pos < |source| && IsAlpha(source[start])
      modifies this
      ensures pos == start + AlphaSpan(source[start..]) && pos > start
      ensures u == source[start..pos]
    {
      while pos < |source| && IsAlpha(source[pos])
        invariant start <= pos <= |source|
        invariant forall k :: start <= k < pos ==> IsAlpha(source[k])
      {
        pos := pos + 1;
      }
      assert source[start..][..pos - start] == source[start..pos];
      AlphaSpanUnique(source[start..], pos - start);
      u := source[start..pos];
    }
  }

  // ---------------------------------------------------------------------------
  // Parser

  /** The parser's configuration; `Default` matches unit names case-sensitively. */
  datatype ParserOptions = ParserOptions(ignoreCase: bool)

  const DEFAULT_OPTIONS := ParserOptions(false)

  /** The documented alias table: each accepted spelling and its length in milliseconds. */
  const UNIT_TABLE: map<string, nat> := map[
    "ms" := 1, "msec" := 1, "msecs" := 1, "milliseconds" := 1,
    "s" := 1000, "sec" := 1000, "secs" := 1000, "seconds" := 1000,
    "m" := 60_000, "min" := 60_000, "mins" := 60_000, "minutes" := 60_000,
    "h" := 3_600_000, "hr" := 3_600_000, "hrs" := 3_600_000, "hours" := 3_600_000
  ]

  /** Milliseconds added by `d` to whatever `r` yields; an error passes through. */
  function AddTo(d: nat, r: Result<nat, Error>): Result<nat, Error>
  {
    match r
    case Ok(x) => Ok(d + x)
    case Err(e) => Err(e)
  }

  datatype Parser = Parser(options: ParserOptions) {

    /** The spelling looked up in the table: lower-cased when case is ignored. */
    function UnitKey(unit: string): string
    {
      if options.ignoreCase then Lower(unit) else unit
    }

    /** The length of one `unit` in milliseconds, or `UnexpectedUnit` with the looked-up spelling. */
    function GetUnitDuration(unit: string): (r: Result<nat, Error>)
      ensures r.Ok? <==> UnitKey(unit) in UNIT_TABLE
      ensures r.Ok? ==> r.value == UNIT_TABLE[UnitKey(unit)]
      ensures r.Err? ==> r.error == UnexpectedUnit(UnitKey(unit))
    {
      match UnitKey(unit)
      case "ms" | "msec" | "msecs" | "milliseconds" => Ok(1)
      case "s" | "sec" | "secs" | "seconds" => Ok(1000)
      case "m" | "min" | "mins" | "minutes" => Ok(60_000)
      case "h" | "hr" | "hrs" | "hours" => Ok(3_600_000)
      case other => Err(UnexpectedUnit(other))
    }

    /** Sums the `Number, Unit` pairs of `tokens`, stopping at the first bad pair. */
    method ParseTokens(tokens: seq<Token>) returns (r: Result<nat, Error>)
      ensures r == Accumulate(this, tokens)
    {
      var dur := 0;
      var i := 0;
      while i < |tokens|
        invariant 0 <= i <= |tokens|
        invariant Accumulate(this, tokens) == AddTo(dur, Accumulate(this, tokens[i..]))
      {
        ghost var rest := tokens[i..];
        var token := tokens[i];
        i := i + 1;
        if token.Unit? {
          return Err(ExpectedNumber);
        }
        var num := token.value;
        if i == |tokens| || tokens[i].Number? {
          return Err(ExpectedUnit);
        }
        var unit := tokens[i].text;
        i := i + 1;
        var per := GetUnitDuration(unit);
        if per.Err? {
          return Err(per.error);
        }
        assert rest[2..] == tokens[i..];
        dur := dur + num * per.value;
      }
      return Ok(dur);
    }

    /** Scans `input` completely, then parses its tokens. */
    method Parse(input: string) returns (r: Result<nat, Error>)
      requires ScanFits(input)
      ensures r == DurationOf(this, input)
    {
      var scanner := new Scanner(input);
      assert input[0..] == input;
      var tokens := scanner.ScanTokens();
      if tokens.Err? {
        return Err(tokens.error);
      }
      r := ParseTokens(tokens.value);
    }
  }

  /**
   * What the parser makes of a token sequence: the sum of `n * unit` over its
   * `Number n, Unit unit` pairs, or the error of the first pair that is not one.
   */
  function Accumulate(p: Parser, ts: seq<Token>): (r: Result<nat, Error>)
    ensures r.Err? ==> !r.error.UnexpectedChar?
    ensures r.Ok? ==> |ts| % 2 == 0
    decreases |ts|
  {
    if ts == [] then Ok(0)
    else if ts[0].Unit? then Err(ExpectedNumber)
    else if |ts| == 1 || ts[1].Number? then Err(ExpectedUnit)
    else
      match p.GetUnitDuration(ts[1].text)
      case Err(e) => Err(e)
      case Ok(per) => AddTo(ts[0].value * per, Accumulate(p, ts[2..]))
  }

  /** What `p.parse(input)` returns: a lexical error, or the parse of all of the input's tokens. */
  function DurationOf(p: Parser, input: string): Result<nat, Error>
  {
    match Lex(input)
    case Err(e) => Err(e)
    case Ok(ts) => Accumulate(p, ts)
  }

  /** The library's entry point: parsing with the default, case-sensitive parser. */
  method Parse(input: string) returns (r: Result<nat, Error>)
    requires ScanFits(input)
    ensures r == DurationOf(Parser(DEFAULT_OPTIONS), input)
  {
    var parser := Parser(DEFAULT_OPTIONS);
    r := parser.Parse(input);
  }
}
