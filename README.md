# durstr in Dafny

A model of `durstr`, a small Rust library that parses human-readable duration
strings such as `"1h 2min 3s"` or `"12 minutes, 21 seconds"`. It has two parts.

* The **scanner** (`Scanner` in src/lib.rs) makes one left-to-right pass with a
  peek cursor. It skips ASCII whitespace and commas. A maximal run of ASCII
  digits becomes a `Number` token and a maximal run of ASCII letters becomes a
  `Unit` token. Any other character stops it with `UnexpectedChar`.
* The **parser** (`Parser` in src/lib.rs) reads the tokens in strict
  `Number, Unit` pairs. It looks each unit up in a fixed alias table, lower-cased
  first when `ignore_case` is set, and adds `count * unit` to a running duration.
  It stops at the first `ExpectedNumber`, `ExpectedUnit` or `UnexpectedUnit`.

The repository also holds an **alternative scanner** (src/scanner.rs) that is not
compiled into the library. It skips only `' '`, `'\n'`, `'\t'` and `','`. A digit
run that does not fit in a `u32` makes it return an error instead of panicking.

A duration is a `nat` count of milliseconds.

Files and modules:

| file | module | contents |
|---|---|---|
| results.dfy | `Results` | `Result`, and `Prepend`/`Join` for gluing scan outcomes |
| ascii.dfy | `Ascii` | the `is_ascii_*` character classes, maximal digit and letter runs, decimal values, ASCII lower-casing, `u32::MAX` |
| durstr.dfy | `Durstr` | src/lib.rs: tokens, errors, the `Scanner` class and its loops, the alias table, the `Parser` and its loop, `parse` |
| durstr_lexing.dfy | `DurstrLexing` | properties of the library's scanner |
| durstr_parsing.dfy | `DurstrParsing` | properties of the pair accumulator and the unit table |
| durstr_pipeline.dfy | `DurstrPipeline` | properties of whole-input parsing: error precedence, separators, case policy, written pairs |
| durstr_scenarios.dfy | `DurstrScenarios` | the library's unit tests and tests/parser_tests.rs, derived from the general lemmas |
| scanner.dfy | `StandaloneScanner` | src/scanner.rs: its tokens, the `Scanner` class and its loops, and its properties |
| scanner_scenarios.dfy | `StandaloneScenarios` | the `u32` boundary for both scanners |
| agreement.dfy | `LexerAgreement` | where the two scanners agree, and where they differ |

Each scanner and the parser are specified twice. A recursive function states
what the code computes: `Durstr.Lex`, `StandaloneScanner.Lex` and
`Durstr.Accumulate`. The `Scanner` classes and `Parser.ParseTokens` mirror the
Rust loops, and each is proved equal to its function. Each function is then
tied to an independent description of its behaviour:

* which inputs scan successfully (`LexOkIff`);
* text assembled from digit runs, letter runs and gaps scans to the matching
  tokens (`LexPieces`, `WrittenLex`);
* well-paired tokens mean the sum of their pairs, in any order (`AccumulateSpelled`,
  `AccumulateOrderIndependent`).

The alias table in src/lib.rs:165-170 has no singular long forms: `minute`,
`second`, `hour` and `millisecond` are not units. `GetUnitDuration` and the table
constant `UNIT_TABLE` follow it, and `SingularLongFormsRejected` states that those
forms are rejected.

## Model

| member | source | states |
|---|---|---|
| Ascii.DigitSpan | src/lib.rs:92-99 | the length of the maximal digit run at the head of the input: all digits up to it, and the next character (if any) is not a digit |
| Ascii.AlphaSpan | src/lib.rs:104-111 | the length of the maximal ASCII-letter run at the head of the input, with the same two properties |
| Ascii.ToLower | src/lib.rs:160 | ASCII lower-casing maps each upper-case letter to the lower-case letter at the same place in the alphabet and leaves every other character unchanged |
| Durstr.Lex | src/lib.rs:67-114 | the outcome of scanning: when it fails, the error is an `UnexpectedChar` carrying a character that is not a separator, digit or letter |
| Durstr.Scanner.constructor | src/lib.rs:60-65 | a new scanner over the input has its cursor on the first character |
| Durstr.Scanner.ScanTokens | src/lib.rs:67-86 | the loop returns exactly `Lex` of the rest of the input; on success the cursor is at the end; on failure the cursor is on the unexpected character, which the error carries |
| Durstr.Scanner.ScanNumber | src/lib.rs:92-102 | consumes the maximal digit run (at least one character) and returns its decimal value, which fits in a `u32` |
| Durstr.Scanner.ScanUnit | src/lib.rs:104-114 | consumes the maximal letter run (at least one character) and returns it verbatim |
| Durstr.SkipStep | src/lib.rs:72-74 | skipping a separator keeps the loop state |
| Durstr.ScanFitsDigitStep | src/lib.rs:101 | when the scan does not panic, the digit run at the cursor fits in a `u32` |
| Durstr.DigitStep | src/lib.rs:75-77 | pushing the number of the maximal digit run keeps the loop state |
| Durstr.LetterStep | src/lib.rs:78-80 | pushing the text of the maximal letter run keeps the loop state |
| Durstr.BadStep | src/lib.rs:81 | an unexpected character is the outcome of the whole scan |
| Durstr.EndStep | src/lib.rs:83-85 | at the end of the input the gathered tokens are the outcome |
| Durstr.Parser.GetUnitDuration | src/lib.rs:158-172 | succeeds exactly when the looked-up spelling (lower-cased when case is ignored) is in the alias table, with that entry's length; otherwise `UnexpectedUnit` carrying the looked-up spelling |
| Durstr.Accumulate | src/lib.rs:137-156 | the parser's outcome on a token sequence: never an `UnexpectedChar`, and success only on an even number of tokens |
| Durstr.Parser.ParseTokens | src/lib.rs:137-156 | the loop returns exactly `Accumulate` of the tokens |
| Durstr.Parser.Parse | src/lib.rs:132-135 | scanning then parsing returns `DurationOf` the input |
| Durstr.Parse | src/lib.rs:194-196 | the entry point is `DurationOf` under the default, case-sensitive parser |
| DurstrLexing.LexOkIff | src/lib.rs:70-90 | scanning succeeds if and only if every character is ASCII whitespace, a comma, an ASCII digit or an ASCII letter |
| DurstrLexing.LexFirstBad | src/lib.rs:81 | the error is the first character that is not allowed, whatever follows it |
| DurstrLexing.LexDigitRun | src/lib.rs:92-102 | a digit run alone scans to one `Number` holding its decimal value |
| DurstrLexing.LexLetterRun | src/lib.rs:104-114 | a letter run alone scans to one `Unit` holding it verbatim |
| DurstrLexing.LexSeparatorsOnly | src/lib.rs:88-90 | input made only of separators, the empty input included, scans to no tokens |
| DurstrLexing.LexAppend | src/lib.rs:70-86 | where a split does not cut a run, the tokens of a concatenation are those of the parts in order, and the first error wins |
| DurstrLexing.LexSeparator | src/lib.rs:72-74 | inserting a separator where it does not split a run changes nothing |
| DurstrLexing.LexNumbersFit | src/lib.rs:101 | when the scan does not panic, every `Number` fits in a `u32` |
| DurstrLexing.PieceLex | src/lib.rs:92-114 | one well-formed piece (a digit run, a letter run, or separators) scans to its tokens |
| DurstrLexing.LexPieces | src/lib.rs:67-114 | text assembled from pieces where no two digit runs and no two letter runs touch scans to the pieces' tokens in order |
| DurstrLexing.LexLower | src/lib.rs:75-80 | lower-casing the input lower-cases the unit texts and changes nothing else in the outcome |
| DurstrParsing.AccumulateOkIff | src/lib.rs:141-153 | parsing succeeds if and only if the tokens are `Number, Unit` pairs whose units are all known |
| DurstrParsing.AccumulateAppend | src/lib.rs:141-155 | after whole pairs, parsing continues on the rest: totals add and the first error wins |
| DurstrParsing.UnitWhereNumberExpected | src/lib.rs:142-145 | a `Unit` where a number is due gives `ExpectedNumber` |
| DurstrParsing.NumberWithoutUnit | src/lib.rs:147-150 | a `Number` followed by a `Number` or by the end gives `ExpectedUnit` |
| DurstrParsing.UnknownUnitStops | src/lib.rs:152 | an unknown unit stops parsing with `UnexpectedUnit`, whatever follows |
| DurstrParsing.AccumulateSpelled | src/lib.rs:137-156 | pairs with known units parse to the sum of count times the unit's table entry; no tokens parse to zero |
| DurstrParsing.TotalAppend | src/lib.rs:152 | the total of concatenated pairs is the sum of the totals, so repeated units simply add |
| DurstrParsing.TotalPermutation | src/lib.rs:152 | reordering pairs does not change their total |
| DurstrParsing.AccumulateOrderIndependent | src/lib.rs:137-156 | the result of parsing does not depend on the order of the pairs |
| DurstrParsing.TableIsLowerCase | src/lib.rs:165-170 | every spelling in the alias table is lower case |
| DurstrParsing.SingularLongFormsRejected | src/lib.rs:165-170 | `millisecond`, `second`, `minute` and `hour` are rejected as `UnexpectedUnit` under either case policy |
| DurstrParsing.UpperCaseRejected | src/lib.rs:159-170 | case-sensitively, a spelling with an upper-case letter is rejected with itself as the unit |
| DurstrParsing.IgnoreCaseExtends | src/lib.rs:159-170 | every spelling accepted case-sensitively means the same when case is ignored |
| DurstrParsing.AccumulateLower | src/lib.rs:159-163 | when case is ignored, lower-casing the unit tokens does not change the parse |
| DurstrPipeline.LexicalErrorFirst | src/lib.rs:132-135 | the first character that is not allowed is the error, before any pair or unit error |
| DurstrPipeline.DurationOkIff | src/lib.rs:132-135 | parsing succeeds if and only if every character is allowed and the tokens are well-paired with known units |
| DurstrPipeline.SeparatorsOnlyIsZero | src/lib.rs:137-156 | input made only of separators means zero |
| DurstrPipeline.SeparatorIrrelevant | src/lib.rs:88-90 | inserting a separator where it does not split a run does not change the result |
| DurstrPipeline.IgnoreCaseInvariant | src/lib.rs:159-163 | when case is ignored, inputs that are equal up to ASCII case parse to the same result |
| DurstrPipeline.AccumulateLowerCaseAgrees | src/lib.rs:159-163 | on tokens with lower-case units the two case policies parse alike |
| DurstrPipeline.LowerCaseInputAgrees | src/lib.rs:159-163 | on lower-case input the two case policies give the same result |
| DurstrPipeline.WrittenLex | src/lib.rs:67-114 | a written sequence of count, optional separators, unit, optional separators scans to the `Number, Unit` pairs it spells |
| DurstrPipeline.WrittenPairsTotal | src/lib.rs:132-156 | such a written input with known units means the sum of its pairs |
| DurstrScenarios.ScanTenSeconds | src/lib.rs:205-207 | `"10 seconds"` scans to `Number(10), Unit("seconds")` |
| DurstrScenarios.ScanNineHoursOneMinute | src/lib.rs:209-219 | `"9hr1min"` scans to four tokens |
| DurstrScenarios.ScanUnknownWord | src/lib.rs:221-223 | `"712635 days"` scans: the scanner does not check unit names |
| DurstrScenarios.TwoMinutesTwelveSeconds | src/lib.rs:228-229 | `"2 minutes, 12 seconds"` is 132 s |
| DurstrScenarios.FortyFiveMilliseconds | src/lib.rs:231-232 | `"45 msecs"` is 45 ms |
| DurstrScenarios.TwentyOneMinutesTwelveSeconds | src/lib.rs:234-235 | `"21 minutes 12 seconds"` is 1272 s |
| DurstrScenarios.HourMinutesSeconds | src/lib.rs:237-238 | `"1 hr 2 mins 3 secs"` is 3723 s |
| DurstrScenarios.ShortUnitsSeparated | src/lib.rs:240-244 | `1h`, `2min`, `3s` and `62ms` separated by any run of skipped characters, none included, mean 3723062 ms |
| DurstrScenarios.ShortUnitsSpaced | src/lib.rs:240-241 | `"1h 2min 3s 62ms"` is 3723062 ms |
| DurstrScenarios.ShortUnitsTouching | src/lib.rs:243-244 | `"1h2min3s62ms"` is 3723062 ms |
| DurstrScenarios.ShortUnitsMixed | src/lib.rs:246-247 | `"2min 3s62ms"` is 123062 ms |
| DurstrScenarios.StrayAsterisk | src/lib.rs:249-250 | `"2min 1*2 sec"` fails with `UnexpectedChar('*')` |
| DurstrScenarios.UnknownUnit | src/lib.rs:252-253 | `"2 min 1 r"` fails with `UnexpectedUnit("r")` |
| DurstrScenarios.DecimalPoint | src/lib.rs:255-256 | `"2.1 min"` fails with `UnexpectedChar('.')` |
| DurstrScenarios.NumberNumber | src/lib.rs:258-259 | `"1 2"` fails with `ExpectedUnit` |
| DurstrScenarios.UnitUnit | src/lib.rs:261-262 | `"1 s m"` fails with `ExpectedNumber` |
| DurstrScenarios.MinuteSecond | src/lib.rs:269-270 | `"1 min 2 sec"` is 62 s case-sensitively |
| DurstrScenarios.CapitalisedMinute | src/lib.rs:272-273 | case-sensitively `"1 Min 2 sec"` fails with `UnexpectedUnit("Min")` |
| DurstrScenarios.CapitalisedSecond | src/lib.rs:275-276 | case-sensitively `"1 min 2 seC"` fails with `UnexpectedUnit("seC")` |
| DurstrScenarios.MixedCaseIgnoringCase | src/lib.rs:278-290 | ignoring case, `"1 min 2 sec"`, `"1 Min 2 sec"`, `"1 min 2 seC"` and `"1 MIN 2 SEC"` are 62 s |
| DurstrScenarios.LexicalErrorBeforeMissingUnit | src/lib.rs:132-135 | `"1 2 *"` fails with `UnexpectedChar('*')`, not `ExpectedUnit` |
| StandaloneScanner.Lex | src/scanner.rs:20-63 | the outcome of the alternative scan: an `UnexpectedChar` error carries a character that is not one of its four separators, a digit or a letter |
| StandaloneScanner.Scanner.constructor | src/scanner.rs:14-18 | a new scanner has its cursor on the first character |
| StandaloneScanner.Scanner.ScanTokens | src/scanner.rs:20-50 | the loop returns exactly `Lex` of the rest of the input, and the cursor rests as `Stopped` says: every character passed is accepted; on success the cursor is at the end; on an unexpected character the cursor is on it; on an overflow the cursor is just past the first maximal digit run that does not fit, which `scan_number` has already consumed and before which everything scans |
| StandaloneScanner.Scanner.ScanNumber | src/scanner.rs:39-50 | collects the maximal digit run (at least one character); succeeds exactly when its value fits in a `u32`, with that value, and otherwise reports the overflow |
| StandaloneScanner.Scanner.ScanUnit | src/scanner.rs:52-63 | collects the maximal letter run (at least one character) verbatim |
| StandaloneScanner.ScannedRest | src/scanner.rs:20-37 | from the loop state (the text before the cursor scans to the tokens gathered, and the cursor does not split a run), the whole scan is the gathered tokens followed by the scan of the rest |
| StandaloneScanner.PieceStep | src/scanner.rs:23-33 | a piece that scans on its own and ends at a run boundary extends the loop state by its tokens |
| StandaloneScanner.SkipStep | src/scanner.rs:25-28 | skipping a separator keeps the loop state |
| StandaloneScanner.DigitStep | src/scanner.rs:29 | a digit run that fits is pushed and keeps the loop state; one that overflows is the outcome of the whole scan |
| StandaloneScanner.NumberStep | src/scanner.rs:29 | once `scan_number` has read the maximal digit run, an overflow is the outcome of the whole scan with the cursor just past that run, and otherwise the run's value is pushed and the loop state kept |
| StandaloneScanner.LetterStep | src/scanner.rs:30 | pushing a letter run keeps the loop state |
| StandaloneScanner.BadStep | src/scanner.rs:31 | an unexpected character is the outcome of the whole scan, with the cursor on it |
| StandaloneScanner.EndStep | src/scanner.rs:36 | at the end of the input the gathered tokens are the outcome |
| StandaloneScanner.LexOkIff | src/scanner.rs:23-33 | scanning succeeds if and only if every character is a separator, digit or letter and every digit run fits in a `u32` |
| StandaloneScanner.LexAppend | src/scanner.rs:20-37 | where a split does not cut a run, the tokens of a concatenation are those of the parts in order, and the first failure wins |
| StandaloneScanner.FirstBad | src/scanner.rs:31 | the first character that is not accepted is the error when nothing before it fails |
| StandaloneScanner.FirstOverflow | src/scanner.rs:29 | the first overflowing run is the error when nothing before it fails |
| StandaloneScanner.SeparatorsOnly | src/scanner.rs:21-36 | separators alone, the empty input included, scan to no tokens |
| StandaloneScanner.NumbersFit | src/scanner.rs:49 | every number of a successful scan fits in a `u32` |
| StandaloneScanner.OverflowRunUnique | src/scanner.rs:29-50 | there is only one maximal overflowing digit run with everything before it scanning: its start and end are determined by the input |
| StandaloneScanner.OverflowStopUnique | src/scanner.rs:29-49 | after an overflow the stopping cursor that `Stopped` allows is unique |
| StandaloneScanner.LeadingZeroIgnored | src/scanner.rs:39-50 | a leading zero in a digit run changes nothing |
| StandaloneScanner.CarriageReturnRejected | src/scanner.rs:25 | a carriage return is not a separator: after accepted input it is the error |
| StandaloneScenarios.LargestNumberAccepted | src/scanner.rs:49 | `"4294967295 ms"` scans to `Number(4294967295), Unit("ms")` |
| StandaloneScenarios.TooLargeRejected | src/scanner.rs:49 | `"4294967296 ms"` fails with the overflow error |
| StandaloneScenarios.TooLargePanicsInLibrary | src/lib.rs:101 | on `"4294967296 ms"` the library's scanner reaches a run that does not fit, where it panics |
| LexerAgreement.Agreement | src/scanner.rs:20-37 | without carriage returns and form feeds, the alternative scanner returns what the library's scanner returns where that one does not panic, and the overflow error where it does |
| LexerAgreement.DifferOnCarriageReturn | src/scanner.rs:25 | on `"1\rs"` the library's scanner skips the carriage return while the alternative one stops at it |

## Left out

- I/O: none in the core. The model has no clock, randomness or network.
- `std::time::Duration` is a `nat` count of milliseconds. The overflow panics of `u32 * Duration` and `Duration += Duration` in src/lib.rs:152 are not modelled.
- Durstr.Scanner.ScanNumber, Durstr.Scanner.ScanTokens, Durstr.Parser.Parse, Durstr.Parse: the panic of `.parse().unwrap()` on a digit run wider than a `u32` (src/lib.rs:101) is a precondition: `ScanNumber` requires that its digit run fits, and the others require `ScanFits` (no digit run that the scanner reaches overflows). No new error variant is invented for it. `Durstr.Lex` itself takes unbounded numbers, and `TooLargePanicsInLibrary` shows an input that breaks the precondition.
- `to_lowercase` (src/lib.rs:160) is Unicode lower-casing. The model uses ASCII lower-casing, which agrees with it on unit tokens because they contain only ASCII letters.
- Error messages: the `Display` texts of `Error` and the `String` messages of src/scanner.rs are not modelled. The model keeps the error kinds. `ScanError` has `UnexpectedChar(c)` and `NumberTooLarge`, because a non-empty digit run can fail to parse only by overflowing.
- src/error.rs is a duplicate of the `Error` enum in src/lib.rs:33-46 with no logic, and is not part of this model.
- Rust mechanics: byte offsets from `char_indices`, `start..=end` slicing, lifetimes, `Cow` and the `Peekable` iterators. The cursor is an index `pos` into a `seq<char>`, and `Token::Unit` carries a copy of the text instead of a borrowed slice.
- `Parser::new` and the `Default` derivations are the datatype constructors `Parser(options)` and `ParserOptions(ignoreCase)`. `DEFAULT_OPTIONS` is `ignore_case = false`.
