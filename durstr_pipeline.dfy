/**
 * Properties of the whole of `Parser::parse` in src/lib.rs (scan everything,
 * then accumulate), and the library's own test scenarios restated as lemmas.
 */
module DurstrPipeline {
  import opened Results
  import opened Ascii
  import opened Durstr
  import opened DurstrLexing
  import opened DurstrParsing

  const CASE_SENSITIVE := Parser(ParserOptions(false))
  const IGNORE_CASE := Parser(ParserOptions(true))

  /**
   * A lexical error wins over every structural and unit error: the first
   * character that is not allowed is reported whatever the tokens before it are.
   */
  lemma LexicalErrorFirst(p: Parser, s: string, k: nat)
    requires k < |s| && !Allowed(s[k])
    requires forall j :: 0 <= j < k ==> Allowed(s[j])
    ensures DurationOf(p, s) == Err(UnexpectedChar(s[k]))
  {
    LexFirstBad(s, k);
  }

  /** `parse` succeeds exactly when every character is allowed and the tokens are well-paired. */
  lemma DurationOkIff(p: Parser, s: string)
    ensures DurationOf(p, s).Ok? <==> AllAllowed(s) && Lex(s).Ok? && WellPaired(p, Lex(s).value)
  {
    LexOkIff(s);
    if Lex(s).Ok? {
      AccumulateOkIff(p, Lex(s).value);
    }
  }

  /** Input made only of separators, the empty string included, is a zero duration. */
  lemma SeparatorsOnlyIsZero(p: Parser, s: string)
    requires AllSkipped(s)
    ensures DurationOf(p, s) == Ok(0)
  {
    LexSeparatorsOnly(s);
  }

  /** A separator between two runs changes nothing: `"1h 2min"` means what `"1h2min"` means. */
  lemma SeparatorIrrelevant(p: Parser, a: string, c: char, b: string)
    requires ShouldSkip(c) && Boundary(a, b)
    ensures DurationOf(p, a + [c] + b) == DurationOf(p, a + b)
  {
    LexSeparator(a, c, b);
  }

  /**
   * With case ignored, changing the case of any ASCII letters of the input does
   * not change the result, error payloads included.
   */
  lemma IgnoreCaseInvariant(s: string, t: string)
    requires Lower(s) == Lower(t)
    ensures DurationOf(IGNORE_CASE, s) == DurationOf(IGNORE_CASE, t)
  {
    LexLower(s);
    LexLower(t);
    if Lex(s).Ok? { AccumulateLower(Lex(s).value); }
    if Lex(t).Ok? { AccumulateLower(Lex(t).value); }
  }

  /** On lower-case tokens the two case policies agree, error payloads included. */
  lemma {:induction false} AccumulateLowerCaseAgrees(ts: seq<Token>)
    requires LowerTokens(ts) == ts
    ensures Accumulate(IGNORE_CASE, ts) == Accumulate(CASE_SENSITIVE, ts)
    decreases |ts|
  {
    if |ts| >= 2 {
      var ls := LowerTokens(ts);
      assert ls[1] == LowerToken(ts[1]);
      assert LowerTokens(ts[2..]) == ls[2..];
      AccumulateLowerCaseAgrees(ts[2..]);
    }
  }

  /** On input without upper-case letters, ignoring case changes nothing. */
  lemma LowerCaseInputAgrees(s: string)
    requires Lower(s) == s
    ensures DurationOf(IGNORE_CASE, s) == DurationOf(CASE_SENSITIVE, s)
  {
    LexLower(s);
    if Lex(s).Ok? {
      AccumulateLowerCaseAgrees(Lex(s).value);
    }
  }

  // ---------------------------------------------------------------------------
  // Inputs written as pairs

  /** One pair as written: the number, an optional separator, the unit, an optional separator. */
  datatype WrittenPair = WrittenPair(count: nat, inner: string, unit: string, outer: string)

  predicate WrittenOk(w: WrittenPair)
  {
    AllSkipped(w.inner) && |w.unit| > 0 && AllAlpha(w.unit) && AllSkipped(w.outer)
  }

  function GapPieces(g: string): seq<Piece>
  {
    if g == [] then [] else [Gap(g)]
  }

  function PairPieces(w: WrittenPair): seq<Piece>
  {
    [Digits(DigitsOf(w.count))] + GapPieces(w.inner) + [Letters(w.unit)] + GapPieces(w.outer)
  }

  function WrittenPieces(ws: seq<WrittenPair>): seq<Piece>
  {
    if ws == [] then [] else PairPieces(ws[0]) + WrittenPieces(ws[1..])
  }

  /** The characters of one written pair. */
  function Written(w: WrittenPair): string
  {
    DigitsOf(w.count) + w.inner + w.unit + w.outer
  }

  /** The characters of written pairs, one after the other. */
  function WrittenText(ws: seq<WrittenPair>): string
  {
    if ws == [] then [] else Written(ws[0]) + WrittenText(ws[1..])
  }

  function PairsOf(ws: seq<WrittenPair>): seq<Pair>
  {
    seq(|ws|, i requires 0 <= i < |ws| => Pair(ws[i].count, ws[i].unit))
  }

  lemma {:induction false} TextAppend(a: seq<Piece>, b: seq<Piece>)
    ensures Text(a + b) == Text(a) + Text(b)
    decreases |a|
  {
    if a == [] {
      assert a + b == b;
    } else {
      assert (a + b)[1..] == a[1..] + b;
      TextAppend(a[1..], b);
    }
  }

  lemma GapText(g: string)
    ensures Text(GapPieces(g)) == g
  {
    if g != [] {
      assert Text([Gap(g)]) == g + Text([]);
    }
  }

  lemma PairHeadText(w: WrittenPair)
    ensures Text([Digits(DigitsOf(w.count))] + GapPieces(w.inner)) == DigitsOf(w.count) + w.inner
  {
    var d, gi := [Digits(DigitsOf(w.count))], GapPieces(w.inner);
    TextAppend(d, gi);
    GapText(w.inner);
    assert Text(d) == DigitsOf(w.count) + Text([]);
  }

  lemma PairPiecesText(w: WrittenPair)
    ensures Text(PairPieces(w)) == Written(w)
  {
    var h, l := [Digits(DigitsOf(w.count))] + GapPieces(w.inner), [Letters(w.unit)];
    var go := GapPieces(w.outer);
    PairHeadText(w);
    TextAppend(h + l, go);
    TextAppend(h, l);
    GapText(w.outer);
    assert Text(l) == w.unit + Text([]);
  }

  lemma {:induction false} WrittenPiecesText(ws: seq<WrittenPair>)
    ensures Text(WrittenPieces(ws)) == WrittenText(ws)
    decreases |ws|
  {
    if ws != [] {
      TextAppend(PairPieces(ws[0]), WrittenPieces(ws[1..]));
      PairPiecesText(ws[0]);
      WrittenPiecesText(ws[1..]);
    }
  }

  /** Two runs of pieces that do not touch in the same class concatenate into one. */
  lemma SeparatedAppend(a: seq<Piece>, b: seq<Piece>)
    requires WellSeparated(a) && WellSeparated(b)
    requires a == [] || b == [] || !(a[|a| - 1].Digits? && b[0].Digits?)
    requires a == [] || b == [] || !(a[|a| - 1].Letters? && b[0].Letters?)
    ensures WellSeparated(a + b)
    ensures PiecesTokens(a + b) == PiecesTokens(a) + PiecesTokens(b)
  {
    var ab := a + b;
    forall i | 0 <= i < |ab| ensures PieceOk(ab[i]) {
      if i < |a| { assert ab[i] == a[i]; } else { assert ab[i] == b[i - |a|]; }
    }
    forall i | 0 <= i < |ab| - 1
      ensures !(ab[i].Digits? && ab[i + 1].Digits?) && !(ab[i].Letters? && ab[i + 1].Letters?)
    {
      if i + 1 < |a| {
        assert ab[i] == a[i] && ab[i + 1] == a[i + 1];
      } else if i + 1 == |a| {
        assert ab[i] == a[|a| - 1] && ab[i + 1] == b[0];
      } else {
        assert ab[i] == b[i - |a|] && ab[i + 1] == b[i - |a| + 1];
      }
    }
    PiecesTokensAppend(a, b);
  }

  lemma TailSeparated(a: seq<Piece>)
    requires a != [] && WellSeparated(a)
    ensures WellSeparated(a[1..])
  {
    var t := a[1..];
    forall i | 0 <= i < |t| - 1
      ensures !(t[i].Digits? && t[i + 1].Digits?) && !(t[i].Letters? && t[i + 1].Letters?)
    {
      assert t[i] == a[i + 1] && t[i + 1] == a[i + 2];
    }
  }

  lemma {:induction false} PiecesTokensAppend(a: seq<Piece>, b: seq<Piece>)
    requires WellSeparated(a) && WellSeparated(b) && WellSeparated(a + b)
    ensures PiecesTokens(a + b) == PiecesTokens(a) + PiecesTokens(b)
    decreases |a|
  {
    if a == [] {
      assert a + b == b;
    } else {
      var ab := a + b;
      assert ab[0] == a[0];
      assert ab[1..] == a[1..] + b;
      TailSeparated(a);
      TailSeparated(ab);
      PiecesTokensAppend(a[1..], b);
    }
  }

  /** The number, the inner separator and the unit of a written pair. */
  lemma PairHeadSeparated(w: WrittenPair)
    requires WrittenOk(w)
    ensures var h := [Digits(DigitsOf(w.count))] + GapPieces(w.inner) + [Letters(w.unit)];
      && WellSeparated(h)
      && PiecesTokens(h) == [Number(w.count), Unit(w.unit)]
      && h[0].Digits? && h[|h| - 1].Letters?
  {
    DigitsOfValue(w.count);
    var d, l := [Digits(DigitsOf(w.count))], [Letters(w.unit)];
    var gi := GapPieces(w.inner);
    assert PieceOk(d[0]) && PieceOk(l[0]);
    SeparatedAppend(d, gi);
    SeparatedAppend(d + gi, l);
    assert PiecesTokens(d) == [Number(w.count)];
    assert PiecesTokens(l) == [Unit(w.unit)];
    assert PiecesTokens(gi) == [];
  }

  lemma PairPiecesSeparated(w: WrittenPair)
    requires WrittenOk(w)
    ensures WellSeparated(PairPieces(w))
    ensures PiecesTokens(PairPieces(w)) == [Number(w.count), Unit(w.unit)]
    ensures PairPieces(w)[0].Digits? && !PairPieces(w)[|PairPieces(w)| - 1].Digits?
  {
    PairHeadSeparated(w);
    var h := [Digits(DigitsOf(w.count))] + GapPieces(w.inner) + [Letters(w.unit)];
    var go := GapPieces(w.outer);
    SeparatedAppend(h, go);
    assert PiecesTokens(go) == [];
    assert [Number(w.count), Unit(w.unit)] + [] == [Number(w.count), Unit(w.unit)];
  }

  lemma {:induction false} WrittenSeparated(ws: seq<WrittenPair>)
    requires forall i :: 0 <= i < |ws| ==> WrittenOk(ws[i])
    ensures WellSeparated(WrittenPieces(ws))
    ensures PiecesTokens(WrittenPieces(ws)) == Spell(PairsOf(ws))
    ensures ws != [] ==> WrittenPieces(ws)[0].Digits?
    decreases |ws|
  {
    if ws != [] {
      assert WrittenOk(ws[0]);
      PairPiecesSeparated(ws[0]);
      WrittenSeparated(ws[1..]);
      SeparatedAppend(PairPieces(ws[0]), WrittenPieces(ws[1..]));
      assert PairsOf(ws)[0] == Pair(ws[0].count, ws[0].unit);
      assert PairsOf(ws)[1..] == PairsOf(ws[1..]);
    }
  }

  /**
   * Any input written as `<number><unit>` pairs, with or without separators of
   * any kind between and after them, scans to the pairs' numbers and units.
   */
  lemma WrittenLex(ws: seq<WrittenPair>)
    requires forall i :: 0 <= i < |ws| ==> WrittenOk(ws[i])
    ensures Lex(WrittenText(ws)) == Ok(Spell(PairsOf(ws)))
  {
    WrittenSeparated(ws);
    WrittenPiecesText(ws);
    LexPieces(WrittenPieces(ws));
  }

  /** When the units are also known, such an input means the sum of counts times units. */
  lemma WrittenPairsTotal(p: Parser, ws: seq<WrittenPair>)
    requires forall i :: 0 <= i < |ws| ==> WrittenOk(ws[i])
    requires AllKnown(p, PairsOf(ws))
    ensures DurationOf(p, WrittenText(ws)) == Ok(Total(p, PairsOf(ws)))
  {
    WrittenLex(ws);
    AccumulateSpelled(p, PairsOf(ws));
  }
}
