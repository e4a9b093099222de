/**
 * The library's own test scenarios (the unit tests at the end of src/lib.rs and
 * tests/parser_tests.rs), each derived from the general lemmas rather than by
 * evaluating the lexer on the literal.
 */
module DurstrScenarios {
  import opened Results
  import opened Ascii
  import opened Durstr
  import opened DurstrLexing
  import opened DurstrParsing
  import opened DurstrPipeline

  /** An input spelled by written pairs with known units means their total. */
  lemma WrittenScenario(p: Parser, s: string, ws: seq<WrittenPair>, total: nat)
    requires forall i :: 0 <= i < |ws| ==> WrittenOk(ws[i])
    requires AllKnown(p, PairsOf(ws)) && Total(p, PairsOf(ws)) == total
    requires WrittenText(ws) == s
    ensures DurationOf(p, s) == Ok(total)
  {
    WrittenPairsTotal(p, ws);
  }

  /** An input spelled by written pairs scans to their numbers and units. */
  lemma WrittenTokens(s: string, ws: seq<WrittenPair>, ts: seq<Token>)
    requires forall i :: 0 <= i < |ws| ==> WrittenOk(ws[i])
    requires WrittenText(ws) == s && Spell(PairsOf(ws)) == ts
    ensures Lex(s) == Ok(ts)
  {
    WrittenLex(ws);
  }

  /** An input spelled by well-separated pieces scans to the pieces' tokens. */
  lemma PiecesScenario(s: string, pcs: seq<Piece>, ts: seq<Token>)
    requires WellSeparated(pcs) && Text(pcs) == s && PiecesTokens(pcs) == ts
    ensures Lex(s) == Ok(ts)
  {
    LexPieces(pcs);
  }

  // ---------------------------------------------------------------------------
  // The scanner on its own

  lemma ScanTenSecondsWritten0(w: WrittenPair)
    requires w == WrittenPair(10, " ", "seconds", "")
    ensures Written(w) == "10 seconds"
  {
    assert DigitsOf(1) == "1";
    assert DigitsOf(10) == DigitsOf(1) + "0";
  }

  lemma ScanTenSecondsText(s: string, ws: seq<WrittenPair>)
    requires s == "10 seconds"
    requires ws == [WrittenPair(10, " ", "seconds", "")]
    ensures WrittenText(ws) == s
  {
    assert WrittenText(ws[0..]) == Written(ws[0]) + WrittenText(ws[1..]);
    ScanTenSecondsWritten0(ws[0]);
  }

  lemma ScanTenSecondsTokens(ws: seq<WrittenPair>)
    requires ws == [WrittenPair(10, " ", "seconds", "")]
    ensures forall i :: 0 <= i < |ws| ==> WrittenOk(ws[i])
    ensures Spell(PairsOf(ws)) == [Number(10), Unit("seconds")]
  {
    var ps := [Pair(10, "seconds")];
    assert PairsOf(ws) == ps;
    assert Spell(ps[0..]) == [Number(10), Unit("seconds")] + Spell(ps[1..]);
  }

  lemma ScanTenSeconds(s: string)
    requires s == "10 seconds"
    ensures Lex(s) == Ok([Number(10), Unit("seconds")])
  {
    var ws := [WrittenPair(10, " ", "seconds", "")];
    ScanTenSecondsText(s, ws);
    ScanTenSecondsTokens(ws);
    WrittenTokens(s, ws, [Number(10), Unit("seconds")]);
  }

  lemma ScanNineHoursOneMinuteText(s: string, ws: seq<WrittenPair>)
    requires s == "9hr1min"
    requires ws == [WrittenPair(9, "", "hr", ""), WrittenPair(1, "", "min", "")]
    ensures WrittenText(ws) == s
  {
    assert WrittenText(ws[1..]) == Written(ws[1]) + WrittenText(ws[2..]);
    assert WrittenText(ws[0..]) == Written(ws[0]) + WrittenText(ws[1..]);
    assert Written(ws[0]) == "9hr";
    assert Written(ws[1]) == "1min";
  }

  lemma ScanNineHoursOneMinuteTokens(ws: seq<WrittenPair>)
    requires ws == [WrittenPair(9, "", "hr", ""), WrittenPair(1, "", "min", "")]
    ensures forall i :: 0 <= i < |ws| ==> WrittenOk(ws[i])
    ensures Spell(PairsOf(ws)) == [Number(9), Unit("hr"), Number(1), Unit("min")]
  {
    var ps := [Pair(9, "hr"), Pair(1, "min")];
    assert PairsOf(ws) == ps;
    assert Spell(ps[1..]) == [Number(1), Unit("min")] + Spell(ps[2..]);
    assert Spell(ps[0..]) == [Number(9), Unit("hr")] + Spell(ps[1..]);
  }

  lemma ScanNineHoursOneMinute(s: string)
    requires s == "9hr1min"
    ensures Lex(s) == Ok([Number(9), Unit("hr"), Number(1), Unit("min")])
  {
    var ws := [WrittenPair(9, "", "hr", ""), WrittenPair(1, "", "min", "")];
    ScanNineHoursOneMinuteText(s, ws);
    ScanNineHoursOneMinuteTokens(ws);
    WrittenTokens(s, ws, [Number(9), Unit("hr"), Number(1), Unit("min")]);
  }

  lemma ScanUnknownWordWritten0(w: WrittenPair)
    requires w == WrittenPair(712635, " ", "days", "")
    ensures Written(w) == "712635 days"
  {
    assert DigitsOf(7) == "7";
    assert DigitsOf(71) == DigitsOf(7) + "1";
    assert DigitsOf(712) == DigitsOf(71) + "2";
    assert DigitsOf(7126) == DigitsOf(712) + "6";
    assert DigitsOf(71263) == DigitsOf(7126) + "3";
    assert DigitsOf(712635) == DigitsOf(71263) + "5";
  }

  lemma ScanUnknownWordText(s: string, ws: seq<WrittenPair>)
    requires s == "712635 days"
    requires ws == [WrittenPair(712635, " ", "days", "")]
    ensures WrittenText(ws) == s
  {
    assert WrittenText(ws[0..]) == Written(ws[0]) + WrittenText(ws[1..]);
    ScanUnknownWordWritten0(ws[0]);
  }

  lemma ScanUnknownWordTokens(ws: seq<WrittenPair>)
    requires ws == [WrittenPair(712635, " ", "days", "")]
    ensures forall i :: 0 <= i < |ws| ==> WrittenOk(ws[i])
    ensures Spell(PairsOf(ws)) == [Number(712635), Unit("days")]
  {
    var ps := [Pair(712635, "days")];
    assert PairsOf(ws) == ps;
    assert Spell(ps[0..]) == [Number(712635), Unit("days")] + Spell(ps[1..]);
  }

  /** The scanner does not consult the unit table: `days` is scanned like any other word. */
  lemma ScanUnknownWord(s: string)
    requires s == "712635 days"
    ensures Lex(s) == Ok([Number(712635), Unit("days")])
  {
    var ws := [WrittenPair(712635, " ", "days", "")];
    ScanUnknownWordText(s, ws);
    ScanUnknownWordTokens(ws);
    WrittenTokens(s, ws, [Number(712635), Unit("days")]);
  }

  // ---------------------------------------------------------------------------
  // Inputs the parser accepts

  lemma TwoMinutesTwelveSecondsWritten1(w: WrittenPair)
    requires w == WrittenPair(12, " ", "seconds", "")
    ensures Written(w) == "12 seconds"
  {
    assert DigitsOf(1) == "1";
    assert DigitsOf(12) == DigitsOf(1) + "2";
  }

  lemma TwoMinutesTwelveSecondsText(s: string, ws: seq<WrittenPair>)
    requires s == "2 minutes, 12 seconds"
    requires ws == [WrittenPair(2, " ", "minutes", ", "), WrittenPair(12, " ", "seconds", "")]
    ensures WrittenText(ws) == s
  {
    assert WrittenText(ws[1..]) == Written(ws[1]) + WrittenText(ws[2..]);
    assert WrittenText(ws[0..]) == Written(ws[0]) + WrittenText(ws[1..]);
    assert Written(ws[0]) == "2 minutes, ";
    TwoMinutesTwelveSecondsWritten1(ws[1]);
  }

  lemma TwoMinutesTwelveSecondsPairList(ws: seq<WrittenPair>, ps: seq<Pair>)
    requires ws == [WrittenPair(2, " ", "minutes", ", "), WrittenPair(12, " ", "seconds", "")]
    requires ps == [Pair(2, "minutes"), Pair(12, "seconds")]
    ensures forall i :: 0 <= i < |ws| ==> WrittenOk(ws[i])
    ensures PairsOf(ws) == ps
  {
  }

  lemma TwoMinutesTwelveSecondsTotal(ps: seq<Pair>)
    requires ps == [Pair(2, "minutes"), Pair(12, "seconds")]
    ensures AllKnown(CASE_SENSITIVE, ps) && Total(CASE_SENSITIVE, ps) == 132_000
  {
    assert Known(CASE_SENSITIVE, ps[0].unit);
    assert Known(CASE_SENSITIVE, ps[1].unit);
    assert AllKnown(CASE_SENSITIVE, ps);
    assert Total(CASE_SENSITIVE, ps[1..]) == 12000;
    assert Total(CASE_SENSITIVE, ps[0..]) == 132000;
  }

  lemma TwoMinutesTwelveSecondsPairs(ws: seq<WrittenPair>)
    requires ws == [WrittenPair(2, " ", "minutes", ", "), WrittenPair(12, " ", "seconds", "")]
    ensures forall i :: 0 <= i < |ws| ==> WrittenOk(ws[i])
    ensures AllKnown(CASE_SENSITIVE, PairsOf(ws)) && Total(CASE_SENSITIVE, PairsOf(ws)) == 132_000
  {
    var ps := [Pair(2, "minutes"), Pair(12, "seconds")];
    TwoMinutesTwelveSecondsPairList(ws, ps);
    TwoMinutesTwelveSecondsTotal(ps);
  }

  lemma TwoMinutesTwelveSeconds(s: string)
    requires s == "2 minutes, 12 seconds"
    ensures DurationOf(CASE_SENSITIVE, s) == Ok(132_000)
  {
    var ws := [WrittenPair(2, " ", "minutes", ", "), WrittenPair(12, " ", "seconds", "")];
    TwoMinutesTwelveSecondsText(s, ws);
    TwoMinutesTwelveSecondsPairs(ws);
    WrittenScenario(CASE_SENSITIVE, s, ws, 132_000);
  }

  lemma FortyFiveMillisecondsWritten0(w: WrittenPair)
    requires w == WrittenPair(45, " ", "msecs", "")
    ensures Written(w) == "45 msecs"
  {
    assert DigitsOf(4) == "4";
    assert DigitsOf(45) == DigitsOf(4) + "5";
  }

  lemma FortyFiveMillisecondsText(s: string, ws: seq<WrittenPair>)
    requires s == "45 msecs"
    requires ws == [WrittenPair(45, " ", "msecs", "")]
    ensures WrittenText(ws) == s
  {
    assert WrittenText(ws[0..]) == Written(ws[0]) + WrittenText(ws[1..]);
    FortyFiveMillisecondsWritten0(ws[0]);
  }

  lemma FortyFiveMillisecondsPairList(ws: seq<WrittenPair>, ps: seq<Pair>)
    requires ws == [WrittenPair(45, " ", "msecs", "")]
    requires ps == [Pair(45, "msecs")]
    ensures forall i :: 0 <= i < |ws| ==> WrittenOk(ws[i])
    ensures PairsOf(ws) == ps
  {
  }

  lemma FortyFiveMillisecondsTotal(ps: seq<Pair>)
    requires ps == [Pair(45, "msecs")]
    ensures AllKnown(CASE_SENSITIVE, ps) && Total(CASE_SENSITIVE, ps) == 45
  {
    assert Known(CASE_SENSITIVE, ps[0].unit);
    assert AllKnown(CASE_SENSITIVE, ps);
    assert Total(CASE_SENSITIVE, ps[0..]) == 45;
  }

  lemma FortyFiveMillisecondsPairs(ws: seq<WrittenPair>)
    requires ws == [WrittenPair(45, " ", "msecs", "")]
    ensures forall i :: 0 <= i < |ws| ==> WrittenOk(ws[i])
    ensures AllKnown(CASE_SENSITIVE, PairsOf(ws)) && Total(CASE_SENSITIVE, PairsOf(ws)) == 45
  {
    var ps := [Pair(45, "msecs")];
    FortyFiveMillisecondsPairList(ws, ps);
    FortyFiveMillisecondsTotal(ps);
  }

  lemma FortyFiveMilliseconds(s: string)
    requires s == "45 msecs"
    ensures DurationOf(CASE_SENSITIVE, s) == Ok(45)
  {
    var ws := [WrittenPair(45, " ", "msecs", "")];
    FortyFiveMillisecondsText(s, ws);
    FortyFiveMillisecondsPairs(ws);
    WrittenScenario(CASE_SENSITIVE, s, ws, 45);
  }

  lemma TwentyOneMinutesTwelveSecondsWritten0(w: WrittenPair)
    requires w == WrittenPair(21, " ", "minutes", " ")
    ensures Written(w) == "21 minutes "
  {
    assert DigitsOf(2) == "2";
    assert DigitsOf(21) == DigitsOf(2) + "1";
  }

  lemma TwentyOneMinutesTwelveSecondsWritten1(w: WrittenPair)
    requires w == WrittenPair(12, " ", "seconds", "")
    ensures Written(w) == "12 seconds"
  {
    assert DigitsOf(1) == "1";
    assert DigitsOf(12) == DigitsOf(1) + "2";
  }

  lemma TwentyOneMinutesTwelveSecondsText(s: string, ws: seq<WrittenPair>)
    requires s == "21 minutes 12 seconds"
    requires ws == [WrittenPair(21, " ", "minutes", " "), WrittenPair(12, " ", "seconds", "")]
    ensures WrittenText(ws) == s
  {
    assert WrittenText(ws[1..]) == Written(ws[1]) + WrittenText(ws[2..]);
    assert WrittenText(ws[0..]) == Written(ws[0]) + WrittenText(ws[1..]);
    TwentyOneMinutesTwelveSecondsWritten0(ws[0]);
    TwentyOneMinutesTwelveSecondsWritten1(ws[1]);
  }

  lemma TwentyOneMinutesTwelveSecondsPairList(ws: seq<WrittenPair>, ps: seq<Pair>)
    requires ws == [WrittenPair(21, " ", "minutes", " "), WrittenPair(12, " ", "seconds", "")]
    requires ps == [Pair(21, "minutes"), Pair(12, "seconds")]
    ensures forall i :: 0 <= i < |ws| ==> WrittenOk(ws[i])
    ensures PairsOf(ws) == ps
  {
  }

  lemma TwentyOneMinutesTwelveSecondsTotal(ps: seq<Pair>)
    requires ps == [Pair(21, "minutes"), Pair(12, "seconds")]
    ensures AllKnown(CASE_SENSITIVE, ps) && Total(CASE_SENSITIVE, ps) == 1_272_000
  {
    assert Known(CASE_SENSITIVE, ps[0].unit);
    assert Known(CASE_SENSITIVE, ps[1].unit);
    assert AllKnown(CASE_SENSITIVE, ps);
    assert Total(CASE_SENSITIVE, ps[1..]) == 12000;
    assert Total(CASE_SENSITIVE, ps[0..]) == 1272000;
  }

  lemma TwentyOneMinutesTwelveSecondsPairs(ws: seq<WrittenPair>)
    requires ws == [WrittenPair(21, " ", "minutes", " "), WrittenPair(12, " ", "seconds", "")]
    ensures forall i :: 0 <= i < |ws| ==> WrittenOk(ws[i])
    ensures AllKnown(CASE_SENSITIVE, PairsOf(ws)) && Total(CASE_SENSITIVE, PairsOf(ws)) == 1_272_000
  {
    var ps := [Pair(21, "minutes"), Pair(12, "seconds")];
    TwentyOneMinutesTwelveSecondsPairList(ws, ps);
    TwentyOneMinutesTwelveSecondsTotal(ps);
  }

  lemma TwentyOneMinutesTwelveSeconds(s: string)
    requires s == "21 minutes 12 seconds"
    ensures DurationOf(CASE_SENSITIVE, s) == Ok(1_272_000)
  {
    var ws := [WrittenPair(21, " ", "minutes", " "), WrittenPair(12, " ", "seconds", "")];
    TwentyOneMinutesTwelveSecondsText(s, ws);
    TwentyOneMinutesTwelveSecondsPairs(ws);
    WrittenScenario(CASE_SENSITIVE, s, ws, 1_272_000);
  }

  lemma HourMinutesSecondsText(s: string, ws: seq<WrittenPair>)
    requires s == "1 hr 2 mins 3 secs"
    requires ws == [WrittenPair(1, " ", "hr", " "), WrittenPair(2, " ", "mins", " "), WrittenPair(3, " ", "secs", "")]
    ensures WrittenText(ws) == s
  {
    assert WrittenText(ws[2..]) == Written(ws[2]) + WrittenText(ws[3..]);
    assert WrittenText(ws[1..]) == Written(ws[1]) + WrittenText(ws[2..]);
    assert WrittenText(ws[0..]) == Written(ws[0]) + WrittenText(ws[1..]);
    assert Written(ws[0]) == "1 hr ";
    assert Written(ws[1]) == "2 mins ";
    assert Written(ws[2]) == "3 secs";
  }

  lemma HourMinutesSecondsPairList(ws: seq<WrittenPair>, ps: seq<Pair>)
    requires ws == [WrittenPair(1, " ", "hr", " "), WrittenPair(2, " ", "mins", " "), WrittenPair(3, " ", "secs", "")]
    requires ps == [Pair(1, "hr"), Pair(2, "mins"), Pair(3, "secs")]
    ensures forall i :: 0 <= i < |ws| ==> WrittenOk(ws[i])
    ensures PairsOf(ws) == ps
  {
  }

  lemma HourMinutesSecondsTotal(ps: seq<Pair>)
    requires ps == [Pair(1, "hr"), Pair(2, "mins"), Pair(3, "secs")]
    ensures AllKnown(CASE_SENSITIVE, ps) && Total(CASE_SENSITIVE, ps) == 3_723_000
  {
    assert Known(CASE_SENSITIVE, ps[0].unit);
    assert Known(CASE_SENSITIVE, ps[1].unit);
    assert Known(CASE_SENSITIVE, ps[2].unit);
    assert AllKnown(CASE_SENSITIVE, ps);
    assert Total(CASE_SENSITIVE, ps[2..]) == 3000;
    assert Total(CASE_SENSITIVE, ps[1..]) == 123000;
    assert Total(CASE_SENSITIVE, ps[0..]) == 3723000;
  }

  lemma HourMinutesSecondsPairs(ws: seq<WrittenPair>)
    requires ws == [WrittenPair(1, " ", "hr", " "), WrittenPair(2, " ", "mins", " "), WrittenPair(3, " ", "secs", "")]
    ensures forall i :: 0 <= i < |ws| ==> WrittenOk(ws[i])
    ensures AllKnown(CASE_SENSITIVE, PairsOf(ws)) && Total(CASE_SENSITIVE, PairsOf(ws)) == 3_723_000
  {
    var ps := [Pair(1, "hr"), Pair(2, "mins"), Pair(3, "secs")];
    HourMinutesSecondsPairList(ws, ps);
    HourMinutesSecondsTotal(ps);
  }

  lemma HourMinutesSeconds(s: string)
    requires s == "1 hr 2 mins 3 secs"
    ensures DurationOf(CASE_SENSITIVE, s) == Ok(3_723_000)
  {
    var ws := [WrittenPair(1, " ", "hr", " "), WrittenPair(2, " ", "mins", " "), WrittenPair(3, " ", "secs", "")];
    HourMinutesSecondsText(s, ws);
    HourMinutesSecondsPairs(ws);
    WrittenScenario(CASE_SENSITIVE, s, ws, 3_723_000);
  }

  /** The last pair of the three short-unit spellings. */
  lemma SixtyTwoMillisecondsWritten(w: WrittenPair)
    requires w == WrittenPair(62, "", "ms", "")
    ensures Written(w) == "62ms"
  {
    assert DigitsOf(6) == "6";
    assert DigitsOf(62) == DigitsOf(6) + "2";
  }

  /** `h`, `min`, `s` and `ms` pairs written one after the other, separated by `g`. */
  lemma ShortUnitsText(ws: seq<WrittenPair>, g: string)
    requires ws == [WrittenPair(1, "", "h", g), WrittenPair(2, "", "min", g), WrittenPair(3, "", "s", g), WrittenPair(62, "", "ms", "")]
    ensures WrittenText(ws) == "1h" + g + "2min" + g + "3s" + g + "62ms"
  {
    assert WrittenText(ws[3..]) == Written(ws[3]) + WrittenText(ws[4..]);
    assert WrittenText(ws[2..]) == Written(ws[2]) + WrittenText(ws[3..]);
    assert WrittenText(ws[1..]) == Written(ws[1]) + WrittenText(ws[2..]);
    assert WrittenText(ws[0..]) == Written(ws[0]) + WrittenText(ws[1..]);
    assert Written(ws[0]) == "1h" + g;
    assert Written(ws[1]) == "2min" + g;
    assert Written(ws[2]) == "3s" + g;
    SixtyTwoMillisecondsWritten(ws[3]);
  }

  lemma ShortUnitsPairList(ws: seq<WrittenPair>, g: string, ps: seq<Pair>)
    requires AllSkipped(g)
    requires ws == [WrittenPair(1, "", "h", g), WrittenPair(2, "", "min", g), WrittenPair(3, "", "s", g), WrittenPair(62, "", "ms", "")]
    requires ps == [Pair(1, "h"), Pair(2, "min"), Pair(3, "s"), Pair(62, "ms")]
    ensures forall i :: 0 <= i < |ws| ==> WrittenOk(ws[i])
    ensures PairsOf(ws) == ps
  {
  }

  /** The pairs of both 3 723 062 ms spellings, spaced and touching. */
  lemma ShortUnitsTotal(ps: seq<Pair>)
    requires ps == [Pair(1, "h"), Pair(2, "min"), Pair(3, "s"), Pair(62, "ms")]
    ensures AllKnown(CASE_SENSITIVE, ps) && Total(CASE_SENSITIVE, ps) == 3_723_062
  {
    assert Known(CASE_SENSITIVE, ps[0].unit);
    assert Known(CASE_SENSITIVE, ps[1].unit);
    assert Known(CASE_SENSITIVE, ps[2].unit);
    assert Known(CASE_SENSITIVE, ps[3].unit);
    assert AllKnown(CASE_SENSITIVE, ps);
    assert Total(CASE_SENSITIVE, ps[3..]) == 62;
    assert Total(CASE_SENSITIVE, ps[2..]) == 3062;
    assert Total(CASE_SENSITIVE, ps[1..]) == 123062;
    assert Total(CASE_SENSITIVE, ps[0..]) == 3723062;
  }

  lemma ShortUnitsPairs(ws: seq<WrittenPair>, g: string)
    requires AllSkipped(g)
    requires ws == [WrittenPair(1, "", "h", g), WrittenPair(2, "", "min", g), WrittenPair(3, "", "s", g), WrittenPair(62, "", "ms", "")]
    ensures forall i :: 0 <= i < |ws| ==> WrittenOk(ws[i])
    ensures AllKnown(CASE_SENSITIVE, PairsOf(ws)) && Total(CASE_SENSITIVE, PairsOf(ws)) == 3_723_062
  {
    var ps := [Pair(1, "h"), Pair(2, "min"), Pair(3, "s"), Pair(62, "ms")];
    ShortUnitsPairList(ws, g, ps);
    ShortUnitsTotal(ps);
  }

  /** `1h`, `2min`, `3s` and `62ms` with any run of skipped characters between them mean 3 723 062 ms. */
  lemma ShortUnitsSeparated(g: string)
    requires AllSkipped(g)
    ensures DurationOf(CASE_SENSITIVE, "1h" + g + "2min" + g + "3s" + g + "62ms") == Ok(3_723_062)
  {
    var ws := [WrittenPair(1, "", "h", g), WrittenPair(2, "", "min", g), WrittenPair(3, "", "s", g), WrittenPair(62, "", "ms", "")];
    ShortUnitsText(ws, g);
    ShortUnitsPairs(ws, g);
    WrittenScenario(CASE_SENSITIVE, "1h" + g + "2min" + g + "3s" + g + "62ms", ws, 3_723_062);
  }

  lemma ShortUnitsSpaced(s: string)
    requires s == "1h 2min 3s 62ms"
    ensures DurationOf(CASE_SENSITIVE, s) == Ok(3_723_062)
  {
    assert s == "1h" + " " + "2min" + " " + "3s" + " " + "62ms";
    assert AllSkipped(" ");
    ShortUnitsSeparated(" ");
  }

  lemma ShortUnitsTouching(s: string)
    requires s == "1h2min3s62ms"
    ensures DurationOf(CASE_SENSITIVE, s) == Ok(3_723_062)
  {
    assert s == "1h" + "" + "2min" + "" + "3s" + "" + "62ms";
    ShortUnitsSeparated("");
  }

  lemma ShortUnitsMixedText(s: string, ws: seq<WrittenPair>)
    requires s == "2min 3s62ms"
    requires ws == [WrittenPair(2, "", "min", " "), WrittenPair(3, "", "s", ""), WrittenPair(62, "", "ms", "")]
    ensures WrittenText(ws) == s
  {
    assert WrittenText(ws[2..]) == Written(ws[2]) + WrittenText(ws[3..]);
    assert WrittenText(ws[1..]) == Written(ws[1]) + WrittenText(ws[2..]);
    assert WrittenText(ws[0..]) == Written(ws[0]) + WrittenText(ws[1..]);
    assert Written(ws[0]) == "2min ";
    assert Written(ws[1]) == "3s";
    SixtyTwoMillisecondsWritten(ws[2]);
  }

  lemma ShortUnitsMixedPairList(ws: seq<WrittenPair>, ps: seq<Pair>)
    requires ws == [WrittenPair(2, "", "min", " "), WrittenPair(3, "", "s", ""), WrittenPair(62, "", "ms", "")]
    requires ps == [Pair(2, "min"), Pair(3, "s"), Pair(62, "ms")]
    ensures forall i :: 0 <= i < |ws| ==> WrittenOk(ws[i])
    ensures PairsOf(ws) == ps
  {
  }

  lemma ShortUnitsMixedTotal(ps: seq<Pair>)
    requires ps == [Pair(2, "min"), Pair(3, "s"), Pair(62, "ms")]
    ensures AllKnown(CASE_SENSITIVE, ps) && Total(CASE_SENSITIVE, ps) == 123_062
  {
    assert Known(CASE_SENSITIVE, ps[0].unit);
    assert Known(CASE_SENSITIVE, ps[1].unit);
    assert Known(CASE_SENSITIVE, ps[2].unit);
    assert AllKnown(CASE_SENSITIVE, ps);
    assert Total(CASE_SENSITIVE, ps[2..]) == 62;
    assert Total(CASE_SENSITIVE, ps[1..]) == 3062;
    assert Total(CASE_SENSITIVE, ps[0..]) == 123062;
  }

  lemma ShortUnitsMixedPairs(ws: seq<WrittenPair>)
    requires ws == [WrittenPair(2, "", "min", " "), WrittenPair(3, "", "s", ""), WrittenPair(62, "", "ms", "")]
    ensures forall i :: 0 <= i < |ws| ==> WrittenOk(ws[i])
    ensures AllKnown(CASE_SENSITIVE, PairsOf(ws)) && Total(CASE_SENSITIVE, PairsOf(ws)) == 123_062
  {
    var ps := [Pair(2, "min"), Pair(3, "s"), Pair(62, "ms")];
    ShortUnitsMixedPairList(ws, ps);
    ShortUnitsMixedTotal(ps);
  }

  lemma ShortUnitsMixed(s: string)
    requires s == "2min 3s62ms"
    ensures DurationOf(CASE_SENSITIVE, s) == Ok(123_062)
  {
    var ws := [WrittenPair(2, "", "min", " "), WrittenPair(3, "", "s", ""), WrittenPair(62, "", "ms", "")];
    ShortUnitsMixedText(s, ws);
    ShortUnitsMixedPairs(ws);
    WrittenScenario(CASE_SENSITIVE, s, ws, 123_062);
  }

  /** Two single-digit pairs written `c1 u1 c2 u2`. */
  lemma TwoSpacedText(ws: seq<WrittenPair>, c1: nat, u1: string, c2: nat, u2: string)
    requires 0 < c1 < 10 && 0 < c2 < 10
    requires ws == [WrittenPair(c1, " ", u1, " "), WrittenPair(c2, " ", u2, "")]
    ensures WrittenText(ws) == [('0' as int + c1) as char] + " " + u1 + " " + [('0' as int + c2) as char] + " " + u2
  {
    var d1, d2 := [('0' as int + c1) as char], [('0' as int + c2) as char];
    assert DigitsOf(c1) == d1 && DigitsOf(c2) == d2;
    assert WrittenText(ws[1..]) == d2 + " " + u2 + WrittenText(ws[2..]);
    assert WrittenText(ws) == d1 + " " + u1 + " " + WrittenText(ws[1..]);
  }

  /** The tokens of two pairs, whatever their separators. */
  lemma TwoPairsTokens(ws: seq<WrittenPair>)
    requires |ws| == 2 && WrittenOk(ws[0]) && WrittenOk(ws[1])
    ensures forall i :: 0 <= i < |ws| ==> WrittenOk(ws[i])
    ensures Spell(PairsOf(ws)) == [Number(ws[0].count), Unit(ws[0].unit), Number(ws[1].count), Unit(ws[1].unit)]
  {
    var ps := PairsOf(ws);
    assert Spell(ps[1..]) == [Number(ws[1].count), Unit(ws[1].unit)] + Spell(ps[2..]);
    assert Spell(ps[0..]) == [Number(ws[0].count), Unit(ws[0].unit)] + Spell(ps[1..]);
  }

  lemma MinuteSecondPairList(ws: seq<WrittenPair>, ps: seq<Pair>)
    requires ws == [WrittenPair(1, " ", "min", " "), WrittenPair(2, " ", "sec", "")]
    requires ps == [Pair(1, "min"), Pair(2, "sec")]
    ensures forall i :: 0 <= i < |ws| ==> WrittenOk(ws[i])
    ensures PairsOf(ws) == ps
  {
  }

  lemma MinuteSecondTotal(ps: seq<Pair>)
    requires ps == [Pair(1, "min"), Pair(2, "sec")]
    ensures AllKnown(CASE_SENSITIVE, ps) && Total(CASE_SENSITIVE, ps) == 62_000
  {
    assert Known(CASE_SENSITIVE, ps[0].unit);
    assert Known(CASE_SENSITIVE, ps[1].unit);
    assert AllKnown(CASE_SENSITIVE, ps);
    assert Total(CASE_SENSITIVE, ps[1..]) == 2000;
    assert Total(CASE_SENSITIVE, ps[0..]) == 62000;
  }

  lemma MinuteSecondPairs(ws: seq<WrittenPair>)
    requires ws == [WrittenPair(1, " ", "min", " "), WrittenPair(2, " ", "sec", "")]
    ensures forall i :: 0 <= i < |ws| ==> WrittenOk(ws[i])
    ensures AllKnown(CASE_SENSITIVE, PairsOf(ws)) && Total(CASE_SENSITIVE, PairsOf(ws)) == 62_000
  {
    var ps := [Pair(1, "min"), Pair(2, "sec")];
    MinuteSecondPairList(ws, ps);
    MinuteSecondTotal(ps);
  }

  lemma MinuteSecond(s: string)
    requires s == "1 min 2 sec"
    ensures DurationOf(CASE_SENSITIVE, s) == Ok(62_000)
  {
    assert s == ['1'] + " " + "min" + " " + ['2'] + " " + "sec";
    var ws := [WrittenPair(1, " ", "min", " "), WrittenPair(2, " ", "sec", "")];
    TwoSpacedText(ws, 1, "min", 2, "sec");
    MinuteSecondPairs(ws);
    WrittenScenario(CASE_SENSITIVE, s, ws, 62_000);
  }

  // ---------------------------------------------------------------------------
  // Inputs the parser rejects

  /** A character outside digits, letters and separators stops everything, wherever it is. */
  lemma StrayAsterisk(s: string)
    requires s == "2min 1*2 sec"
    ensures DurationOf(CASE_SENSITIVE, s) == Err(UnexpectedChar('*'))
  {
    assert forall j :: 0 <= j < 6 ==> Allowed(s[j]);
    LexicalErrorFirst(CASE_SENSITIVE, s, 6);
  }

  /** There are no fractional counts: the decimal point is an unexpected character. */
  lemma DecimalPoint(s: string)
    requires s == "2.1 min"
    ensures DurationOf(CASE_SENSITIVE, s) == Err(UnexpectedChar('.'))
  {
    assert Allowed(s[0]);
    LexicalErrorFirst(CASE_SENSITIVE, s, 1);
  }

  lemma NumberNumberPieces(s: string, pcs: seq<Piece>)
    requires s == "1 2"
    requires pcs == [Digits("1"), Gap(" "), Digits("2")]
    ensures WellSeparated(pcs) && Text(pcs) == s && PiecesTokens(pcs) == [Number(1), Number(2)]
  {
    assert Text(pcs[2..]) == "2" + Text([]);
    assert Text(pcs[1..]) == " " + Text(pcs[2..]);
    assert PieceOk(pcs[0]) && PieceOk(pcs[1]) && PieceOk(pcs[2]);
    assert WellSeparated(pcs[2..]) && WellSeparated(pcs[1..]);
    assert PiecesTokens(pcs[2..]) == [Number(2)] + PiecesTokens([]) by {
      assert DecimalValue("2") == 2;
    }
    assert PiecesTokens(pcs[1..]) == [] + PiecesTokens(pcs[2..]);
  }

  /** Two numbers in a row: the first has no unit. */
  lemma NumberNumber(s: string)
    requires s == "1 2"
    ensures DurationOf(CASE_SENSITIVE, s) == Err(ExpectedUnit)
  {
    var pcs := [Digits("1"), Gap(" "), Digits("2")];
    NumberNumberPieces(s, pcs);
    PiecesScenario(s, pcs, [Number(1), Number(2)]);
    NumberWithoutUnit(CASE_SENSITIVE, [], 1, [Number(2)]);
    assert [] + [Number(1)] + [Number(2)] == [Number(1), Number(2)];
  }

  lemma UnitUnitLex(s: string)
    requires s == "1 s m"
    ensures Lex(s) == Ok([Number(1), Unit("s"), Unit("m")])
  {
    var a, ws := "1 s ", [WrittenPair(1, " ", "s", " ")];
    UnitUnitText(a, ws);
    UnitUnitTokens(ws);
    WrittenTokens(a, ws, [Number(1), Unit("s")]);
    LexLetterRun("m");
    LexAppend(a, "m");
    assert [Number(1), Unit("s")] + [Unit("m")] == [Number(1), Unit("s"), Unit("m")];
    assert s == a + "m";
  }

  lemma UnitUnitRejected(ts: seq<Token>)
    requires ts == [Number(1), Unit("s"), Unit("m")]
    ensures Accumulate(CASE_SENSITIVE, ts) == Err(ExpectedNumber)
  {
    var t1 := [Number(1), Unit("s")];
    assert Accumulate(CASE_SENSITIVE, t1) == Ok(1000);
    UnitWhereNumberExpected(CASE_SENSITIVE, t1, "m", []);
    assert t1 + [Unit("m")] + [] == ts;
  }

  /** A unit after a complete pair: a number was expected. */
  lemma UnitUnit(s: string)
    requires s == "1 s m"
    ensures DurationOf(CASE_SENSITIVE, s) == Err(ExpectedNumber)
  {
    UnitUnitLex(s);
    UnitUnitRejected([Number(1), Unit("s"), Unit("m")]);
  }


  /**
   * The whole input is scanned before any pair is read, so a lexical error wins
   * over the missing unit that comes before it.
   */
  lemma LexicalErrorBeforeMissingUnit(s: string)
    requires s == "1 2 *"
    ensures DurationOf(CASE_SENSITIVE, s) == Err(UnexpectedChar('*'))
  {
    assert forall j :: 0 <= j < 4 ==> Allowed(s[j]);
    LexicalErrorFirst(CASE_SENSITIVE, s, 4);
  }

  lemma UnitUnitText(s: string, ws: seq<WrittenPair>)
    requires s == "1 s "
    requires ws == [WrittenPair(1, " ", "s", " ")]
    ensures WrittenText(ws) == s
  {
    assert WrittenText(ws[0..]) == Written(ws[0]) + WrittenText(ws[1..]);
    assert Written(ws[0]) == "1 s ";
  }

  lemma UnitUnitTokens(ws: seq<WrittenPair>)
    requires ws == [WrittenPair(1, " ", "s", " ")]
    ensures forall i :: 0 <= i < |ws| ==> WrittenOk(ws[i])
    ensures Spell(PairsOf(ws)) == [Number(1), Unit("s")]
  {
    var ps := [Pair(1, "s")];
    assert PairsOf(ws) == ps;
    assert Spell(ps[0..]) == [Number(1), Unit("s")] + Spell(ps[1..]);
  }

  lemma UnknownUnitRejected(ts: seq<Token>)
    requires ts == [Number(2), Unit("min"), Number(1), Unit("r")]
    ensures Accumulate(CASE_SENSITIVE, ts) == Err(UnexpectedUnit("r"))
  {
    var t1 := [Number(2), Unit("min")];
    assert Accumulate(CASE_SENSITIVE, t1) == Ok(120_000);
    UnknownUnitStops(CASE_SENSITIVE, t1, 1, "r", []);
    assert t1 + [Number(1), Unit("r")] + [] == ts;
  }

  /** A word that is not a unit, after a complete pair. */
  lemma UnknownUnit(s: string)
    requires s == "2 min 1 r"
    ensures DurationOf(CASE_SENSITIVE, s) == Err(UnexpectedUnit("r"))
  {
    assert s == ['2'] + " " + "min" + " " + ['1'] + " " + "r";
    var ws := [WrittenPair(2, " ", "min", " "), WrittenPair(1, " ", "r", "")];
    TwoSpacedText(ws, 2, "min", 1, "r");
    TwoPairsTokens(ws);
    var ts := [Number(2), Unit("min"), Number(1), Unit("r")];
    WrittenTokens(s, ws, ts);
    UnknownUnitRejected(ts);
  }

  lemma CapitalisedMinuteRejected(ts: seq<Token>)
    requires ts == [Number(1), Unit("Min"), Number(2), Unit("sec")]
    ensures Accumulate(CASE_SENSITIVE, ts) == Err(UnexpectedUnit("Min"))
  {
    var t2 := [Number(2), Unit("sec")];
    assert Lower("Min")[0] == 'm';
    UpperCaseRejected("Min");
    UnknownUnitStops(CASE_SENSITIVE, [], 1, "Min", t2);
    assert [] + [Number(1), Unit("Min")] + t2 == ts;
  }

  /** Case-sensitive matching reports a capitalised unit as written. */
  lemma CapitalisedMinute(s: string)
    requires s == "1 Min 2 sec"
    ensures DurationOf(CASE_SENSITIVE, s) == Err(UnexpectedUnit("Min"))
  {
    assert s == ['1'] + " " + "Min" + " " + ['2'] + " " + "sec";
    var ws := [WrittenPair(1, " ", "Min", " "), WrittenPair(2, " ", "sec", "")];
    TwoSpacedText(ws, 1, "Min", 2, "sec");
    TwoPairsTokens(ws);
    var ts := [Number(1), Unit("Min"), Number(2), Unit("sec")];
    WrittenTokens(s, ws, ts);
    CapitalisedMinuteRejected(ts);
  }

  lemma CapitalisedSecondRejected(ts: seq<Token>)
    requires ts == [Number(1), Unit("min"), Number(2), Unit("seC")]
    ensures Accumulate(CASE_SENSITIVE, ts) == Err(UnexpectedUnit("seC"))
  {
    var t1 := [Number(1), Unit("min")];
    assert Accumulate(CASE_SENSITIVE, t1) == Ok(60_000);
    assert Lower("seC")[2] == 'c';
    UpperCaseRejected("seC");
    UnknownUnitStops(CASE_SENSITIVE, t1, 2, "seC", []);
    assert t1 + [Number(2), Unit("seC")] + [] == ts;
  }

  /** The same holds for an upper-case letter inside a later unit. */
  lemma CapitalisedSecond(s: string)
    requires s == "1 min 2 seC"
    ensures DurationOf(CASE_SENSITIVE, s) == Err(UnexpectedUnit("seC"))
  {
    assert s == ['1'] + " " + "min" + " " + ['2'] + " " + "seC";
    var ws := [WrittenPair(1, " ", "min", " "), WrittenPair(2, " ", "seC", "")];
    TwoSpacedText(ws, 1, "min", 2, "seC");
    TwoPairsTokens(ws);
    var ts := [Number(1), Unit("min"), Number(2), Unit("seC")];
    WrittenTokens(s, ws, ts);
    CapitalisedSecondRejected(ts);
  }

  // ---------------------------------------------------------------------------
  // Case policy

  /** With case ignored, the lower-case spelling and the test's three mixed-case ones all mean 62 seconds. */
  lemma MixedCaseIgnoringCase(s: string)
    requires s == "1 min 2 sec" || s == "1 Min 2 sec" || s == "1 min 2 seC" || s == "1 MIN 2 SEC"
    ensures DurationOf(IGNORE_CASE, s) == Ok(62_000)
  {
    var t := "1 min 2 sec";
    assert Lower(s) == t;
    assert Lower(t) == t;
    IgnoreCaseInvariant(s, t);
    LowerCaseInputAgrees(t);
    MinuteSecond(t);
  }
}
