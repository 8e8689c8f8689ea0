# xs:duration parsing as written in RVS_ParseXMLDuration

This project models the `String.asXMLDuration` extension of RVS_ParseXMLDuration.
The extension reads a loose form of the `xs:duration` lexical space (section 3.3.6
of W3C XML Schema 1.1 Part 2, "duration") into a `DateComponents` record. It works
in two parts, and the model follows the code as written in both.

- **The segment scanner `scanString(_:isDate:)`.** A Foundation `Scanner` walks one
  segment. Every character outside the digits, `.` and the letters `Y M D H S` is
  skipped. Each turn of the loop takes a maximal run of digits and dots, then a
  maximal run of unit letters. A turn whose number `Double` accepts and whose letter
  run is non-empty writes one or two fields, chosen by the whole letter run.
- **The top level.** The text is split on every `T`. Piece 0 loses its first
  character and becomes the date segment, unless it is exactly `P`. A non-empty
  piece 1 becomes the time segment. Both are scanned with `isDate` left at `false`.
  When both scans succeed, the time scan's hour, minute, second and nanosecond
  replace the date scan's.

The declared result type is non-optional. The code still returns a nil
implicitly-unwrapped value when neither scan succeeds, which stops the program when
used; the model returns `None` for it.

Modules:

- `DurationComponents` (`components.dfy`): the seven-field record, an `Option`, and
  the `WellFormed` bound (no negative field, nanosecond below 10^9).
- `DecimalLiteral` (`decimal.dfy`): `Double(value)` on a run of digits and dots,
  kept as an exact decimal (mantissa, scale). Also `Int(doubleVal)` and the
  nanosecond expression.
- `SegmentScanner` (`scanner.dfy`):
  - the scanner's primitives, as functions over an index into the segment;
  - the loop as the method `ScanString`, proved equal to the function `Scan`;
  - the lemmas about `Scan`.
- `XmlDuration` (`duration.dfy`):
  - the split on `T`, segment selection and merge;
  - the top-level method `AsXmlDuration`, proved equal to the function `Parse`;
  - the lemmas about `Parse`.
- `DurationExamples` (`examples.dfy`): a selection of the texts of the
  repository's test tables, each worked out from those lemmas.

## Model

| member | source | states |
|---|---|---|
| SegmentScanner.ScanString | RVS_ParseXMLDuration/RVS_ParseXMLDuration.swift:42-88 | the scan loop returns exactly `Scan(input, isDate)`: nil for a nil segment, otherwise the fold of every turn starting from nil |
| XmlDuration.AsXmlDuration | RVS_ParseXMLDuration/RVS_ParseXMLDuration.swift:90-125 | the body (split, segment selection, two scans, field-by-field merge) returns exactly `Parse(s)` |
| SegmentScanner.SkipFrom | RVS_ParseXMLDuration/RVS_ParseXMLDuration.swift:46-49 | the result is the first position at or after i whose character is not skippable; everything before it is skippable |
| SegmentScanner.RunEnd | RVS_ParseXMLDuration/RVS_ParseXMLDuration.swift:55-56 | the run from i ends at the first character outside the set: the run is maximal |
| SegmentScanner.AtEndIff | RVS_ParseXMLDuration/RVS_ParseXMLDuration.swift:51 | `isAtEnd` holds exactly when every character left is skippable |
| SegmentScanner.ScanCharacters | RVS_ParseXMLDuration/RVS_ParseXMLDuration.swift:55-56 | a scan skips first; the run it returns is a non-empty slice of the set's characters that starts at the first significant position, and it is present whenever that character is in the set; with no run, the location stays at that position |
| SegmentScanner.ScanCharactersMaximal | RVS_ParseXMLDuration/RVS_ParseXMLDuration.swift:55-56 | the run is maximal: the new location is the end of the text or a character outside the set, and equals the end of the run from the first significant position |
| SegmentScanner.TurnsFrom | RVS_ParseXMLDuration/RVS_ParseXMLDuration.swift:51-56 | the loop takes at most one turn per remaining character |
| SegmentScanner.PairOf | RVS_ParseXMLDuration/RVS_ParseXMLDuration.swift:58 | a turn counts exactly when it has a number run with a digit and at most one dot (the runs `Double` accepts) and a letter run; the pair carries that letter run |
| SegmentScanner.Step | RVS_ParseXMLDuration/RVS_ParseXMLDuration.swift:58-61 | after one turn the record is nil exactly when it was nil and the turn does not count; a turn that does not count changes nothing |
| SegmentScanner.Fold | RVS_ParseXMLDuration/RVS_ParseXMLDuration.swift:51-87 | once the record has been created it is never dropped again |
| SegmentScanner.Scan | RVS_ParseXMLDuration/RVS_ParseXMLDuration.swift:42-87 | a nil segment gives nil, and a segment with a result has a significant character |
| SegmentScanner.TurnAt | RVS_ParseXMLDuration/RVS_ParseXMLDuration.swift:51-56 | a turn taken before `isAtEnd` consumes at least one significant character, so the loop terminates |
| SegmentScanner.TurnsSkip | RVS_ParseXMLDuration/RVS_ParseXMLDuration.swift:49-56 | starting the loop at i or at the first significant position after i gives the same turns |
| SegmentScanner.TurnsOfPair | RVS_ParseXMLDuration/RVS_ParseXMLDuration.swift:55-56 | a number run followed at once by a maximal run of unit letters is one turn; the loop goes on after the letters |
| SegmentScanner.FoldPair | RVS_ParseXMLDuration/RVS_ParseXMLDuration.swift:58-83 | such a pair, with a number `Double` accepts, creates the record if needed and dispatches on the letter run; the scan continues after it |
| SegmentScanner.FoldEnd | RVS_ParseXMLDuration/RVS_ParseXMLDuration.swift:51 | once only skippable characters remain, the record built so far is the result |
| SegmentScanner.FoldWithoutLetters | RVS_ParseXMLDuration/RVS_ParseXMLDuration.swift:56-58 | with no unit letter left, no later turn writes anything: a number without a letter is dropped |
| SegmentScanner.ScanWithoutLetters | RVS_ParseXMLDuration/RVS_ParseXMLDuration.swift:47-58 | a segment without an upper-case unit letter scans to nil |
| SegmentScanner.ScanNoneIff | RVS_ParseXMLDuration/RVS_ParseXMLDuration.swift:58-61 | a scan is nil exactly when no turn has both a number `Double` accepts and a letter run; a counting pair with an unknown letter run such as "YM" still creates the record |
| SegmentScanner.FoldNoneIff | RVS_ParseXMLDuration/RVS_ParseXMLDuration.swift:58-61 | the fold is nil exactly when it starts from nil and no turn counts |
| SegmentScanner.Assign | RVS_ParseXMLDuration/RVS_ParseXMLDuration.swift:62-82 | the dispatch writes exactly the fields its letter run names (Y year; M month or minute by `isDate`; D day; H hour; S second and nanosecond), with the truncated number or its nanoseconds, and changes no other field; any other run writes nothing |
| SegmentScanner.ScanField | RVS_ParseXMLDuration/RVS_ParseXMLDuration.swift:58-82 | every field of a scan result comes from the last counting pair whose letter run writes it (later pairs overwrite earlier ones), and is absent when none does |
| SegmentScanner.FoldField | RVS_ParseXMLDuration/RVS_ParseXMLDuration.swift:58-82 | the same, for a fold starting from any record: an unwritten field keeps its starting value |
| SegmentScanner.ScanMonthOrMinute | RVS_ParseXMLDuration/RVS_ParseXMLDuration.swift:65-70 | scanned with `isDate` false a segment never sets month; with `isDate` true it never sets minute |
| SegmentScanner.ScanSecondAndNanosecond | RVS_ParseXMLDuration/RVS_ParseXMLDuration.swift:75-77 | second is present exactly when nanosecond is, and both come from the same number |
| SegmentScanner.ScanWellFormed | RVS_ParseXMLDuration/RVS_ParseXMLDuration.swift:46-77 | every field a scan sets is non-negative and the nanosecond count is below 10^9 |
| SegmentScanner.AssignWellFormed | RVS_ParseXMLDuration/RVS_ParseXMLDuration.swift:62-82 | the dispatch keeps the record within these bounds |
| SegmentScanner.ScanSkipsLeading | RVS_ParseXMLDuration/RVS_ParseXMLDuration.swift:49 | a leading skippable character (the `P`, a `-`, a lower-case letter) does not change the scan |
| SegmentScanner.ScanSkipsPrefix | RVS_ParseXMLDuration/RVS_ParseXMLDuration.swift:49 | nor does any prefix of skippable characters |
| DecimalLiteral.ParseDecimal | RVS_ParseXMLDuration/RVS_ParseXMLDuration.swift:58 | `Double(value)` on a run of digits and dots succeeds exactly when the run has a digit and at most one dot ("5.", ".5" yes; ".", "1..5" no) |
| DecimalLiteral.ParseInteger | RVS_ParseXMLDuration/RVS_ParseXMLDuration.swift:58 | a run of digits alone reads as that integer |
| DecimalLiteral.ParseWithFraction | RVS_ParseXMLDuration/RVS_ParseXMLDuration.swift:58 | digits, a dot and digits read as all the digits over 10 to the number of digits after the dot |
| DecimalLiteral.WholePart | RVS_ParseXMLDuration/RVS_ParseXMLDuration.swift:64 | `Int(doubleVal)` truncates: the result times 10^scale is at most the mantissa, and one more than the result times 10^scale exceeds it |
| DecimalLiteral.WholePartIsLeadingDigits | RVS_ParseXMLDuration/RVS_ParseXMLDuration.swift:64 | `Int(doubleVal)` is the value of the digits before the dot ("15.5" gives 15) |
| DecimalLiteral.NanosecondsAreFirstNineDigits | RVS_ParseXMLDuration/RVS_ParseXMLDuration.swift:77 | the nanosecond count is the first nine fractional digits, padded with zeros, read as an integer (".5" gives 500000000, no fraction gives 0) |
| DecimalLiteral.Nanoseconds | RVS_ParseXMLDuration/RVS_ParseXMLDuration.swift:77 | the nanosecond count is below 10^9 |
| DecimalLiteral.ScaledFraction | RVS_ParseXMLDuration/RVS_ParseXMLDuration.swift:77 | scaling a fraction 0.f by 10^9 and truncating keeps exactly its first nine digits |
| XmlDuration.Split | RVS_ParseXMLDuration/RVS_ParseXMLDuration.swift:90 | `components(separatedBy: "T")`: at least one piece, no piece holds a `T`, and joining the pieces with `T` gives the text back |
| XmlDuration.SplitWithoutSep | RVS_ParseXMLDuration/RVS_ParseXMLDuration.swift:90 | a text without `T` is one piece |
| XmlDuration.SplitAt | RVS_ParseXMLDuration/RVS_ParseXMLDuration.swift:90 | the first piece ends at the first `T` |
| XmlDuration.SplitMembers | RVS_ParseXMLDuration/RVS_ParseXMLDuration.swift:90 | every character of every piece occurs in the text |
| XmlDuration.DropFirst | RVS_ParseXMLDuration/RVS_ParseXMLDuration.swift:96-104 | `dropFirst()` removes exactly the first character, whatever it is, and leaves an empty piece empty |
| XmlDuration.DateSegment | RVS_ParseXMLDuration/RVS_ParseXMLDuration.swift:91-106 | there is a date segment exactly when piece 0 is not `P`, and it is piece 0 without its first character |
| XmlDuration.TimeSegment | RVS_ParseXMLDuration/RVS_ParseXMLDuration.swift:94-101 | there is a time segment exactly when there is a non-empty piece 1, and it is that piece |
| XmlDuration.Merge | RVS_ParseXMLDuration/RVS_ParseXMLDuration.swift:108-125 | the merge is nil only when both scans are; with both present, hour, minute, second and nanosecond come from the time result (absent ones included) and the rest from the date result; a lone result is returned unchanged |
| XmlDuration.MergeWellFormed | RVS_ParseXMLDuration/RVS_ParseXMLDuration.swift:108-123 | the merge keeps the field bounds |
| XmlDuration.Parse | RVS_ParseXMLDuration/RVS_ParseXMLDuration.swift:90-125 | no text, a leading `-` included, gives a negative field or a nanosecond count of 10^9 or more |
| XmlDuration.ParseNeverSetsMonth | RVS_ParseXMLDuration/RVS_ParseXMLDuration.swift:110-119 | both scans use `isDate` false, so no parse result sets month |
| XmlDuration.ParseDateOnly | RVS_ParseXMLDuration/RVS_ParseXMLDuration.swift:102-112 | a text without `T` is scanned without its first character, and the text `P` gives nil |
| XmlDuration.ParseDateAndTime | RVS_ParseXMLDuration/RVS_ParseXMLDuration.swift:94-123 | with one `T`, the part before it is the date segment as above, the part after it is the time segment unless empty, and the two results are merged |
| XmlDuration.ParseIgnoresLaterPieces | RVS_ParseXMLDuration/RVS_ParseXMLDuration.swift:94-101 | whatever follows a second `T` is never read |
| XmlDuration.ParseIgnoresSign | RVS_ParseXMLDuration/RVS_ParseXMLDuration.swift:95-96 | `-P…` parses exactly like `P…`: the `-` is dropped as the first character and the `P` is skipped |
| XmlDuration.ParseWithoutLetters | RVS_ParseXMLDuration/RVS_ParseXMLDuration.swift:47-114 | a text without an upper-case unit letter gives nil |
| XmlDuration.ScanEmpty | RVS_ParseXMLDuration/RVS_ParseXMLDuration.swift:51 | an empty segment scans to nil |
| DurationExamples.ParseP | RVS_ParseXMLDurationTests/RVS_ParseXMLDurationTests.swift:49 | "P" gives nil |
| DurationExamples.ParseEmpty | RVS_ParseXMLDurationTests/RVS_ParseXMLDurationTests.swift:51 | "" gives nil |
| DurationExamples.ParseNorman | RVS_ParseXMLDurationTests/RVS_ParseXMLDurationTests.swift:40 | "Norman" gives nil |
| DurationExamples.ParsePT20M | RVS_ParseXMLDurationTests/RVS_ParseXMLDurationTests.swift:18 | "PT20M" gives minute 20 |
| DurationExamples.ParseP1D | RVS_ParseXMLDurationTests/RVS_ParseXMLDurationTests.swift:31 | "P1D" gives day 1 |
| DurationExamples.ParseP1347Y | RVS_ParseXMLDurationTests/RVS_ParseXMLDurationTests.swift:25 | "P1347Y" gives year 1347 |
| DurationExamples.ParseP1DT2H | RVS_ParseXMLDurationTests/RVS_ParseXMLDurationTests.swift:16 | "P1DT2H" gives day 1 and hour 2 |
| DurationExamples.ParsePT168H120M | RVS_ParseXMLDurationTests/RVS_ParseXMLDurationTests.swift:38 | "PT168H120M" gives hour 168 and minute 120, not normalised |
| DurationExamples.ParsePT1M30Point5S | RVS_ParseXMLDurationTests/RVS_ParseXMLDurationTests.swift:22 | "PT1M30.5S" gives minute 1, second 30, nanosecond 500000000 |
| DurationExamples.ParsePT0Point001S | RVS_ParseXMLDurationTests/RVS_ParseXMLDurationTests.swift:36 | "PT0.001S" gives second 0, nanosecond 1000000 |
| DurationExamples.ParseP20M | RVS_ParseXMLDurationTests/RVS_ParseXMLDurationTests.swift:17 | "P20M" gives minute 20, where the table expects month 20 |
| DurationExamples.ParseMinusP60D | RVS_ParseXMLDurationTests/RVS_ParseXMLDurationTests.swift:21 | "-P60D" gives day 60, where the table expects -60 |
| DurationExamples.ParseLowerCase | RVS_ParseXMLDurationTests/RVS_ParseXMLDurationTests.swift:39 | "pt168h120m" gives nil, where the table expects hour 168 and minute 120 |
| DurationExamples.ParseFullDuration | RVS_ParseXMLDurationTests/RVS_ParseXMLDurationTests.swift:15 | "P2Y6M5DT12H35M30S" gives year 2, day 5, hour 12, minute 35, second 30 and nanosecond 0, with no month; the table expects month 6 and no nanosecond |
| DurationExamples.ParseMinuteDropped | RVS_ParseXMLDurationTests/RVS_ParseXMLDurationTests.swift:27 | "P1Y2MT2H" gives year 1 and hour 2: the date segment's 2M, read as minutes, is replaced by the time scan's absent minute |
| DurationExamples.ParsePT10H5s | RVS_ParseXMLDurationTests/RVS_ParseXMLDurationTests.swift:32 | "PT10H5s" gives hour 10 only, where the table expects second 5 as well |
| DurationExamples.ParseWithoutP | RVS_ParseXMLDurationTests/RVS_ParseXMLDurationTests.swift:41 | "T168H120M" gives hour 168 and minute 120, where the table expects nil |
| DurationExamples.ParseTrailingT | RVS_ParseXMLDurationTests/RVS_ParseXMLDurationTests.swift:43 | "P20MT" gives minute 20, where the table expects nil |
| DurationExamples.ParseP1YM5D | RVS_ParseXMLDurationTests/RVS_ParseXMLDurationTests.swift:44 | "P1YM5D" gives day 5 only ("YM" is one letter run that matches no case), where the table expects nil |
| DurationExamples.ParseFractionalYear | RVS_ParseXMLDurationTests/RVS_ParseXMLDurationTests.swift:45 | "P15.5Y" gives year 15, where the table expects nil |
| DurationExamples.ParseOutOfOrder | RVS_ParseXMLDurationTests/RVS_ParseXMLDurationTests.swift:48 | "P2M1Y" gives year 1 and minute 2, where the table expects nil |
| DurationExamples.ParsePT15PointS | RVS_ParseXMLDurationTests/RVS_ParseXMLDurationTests.swift:50 | "PT15.S" gives second 15 and nanosecond 0, where the table expects nil |

## Where the code and its test table disagree

The test table in `RVS_ParseXMLDurationTests/RVS_ParseXMLDurationTests.swift`
(lines 13-52) describes a stricter parser than the one the code implements. The model
follows the code. Each difference is proved as one of the `DurationExamples` lemmas
above.

- `isDate` is never passed as `true` (lines 110 and 114 of the parser). So a
  date-segment `M` is a minute, and no parse sets month (`ParseNeverSetsMonth`, `ParseP20M`).
- A `-` is skipped like any other character, so no field is ever negative
  (`Parse`, `ParseIgnoresSign`, `ParseMinusP60D`).
- Only upper-case unit letters are recognised (`ParseLowerCase`, `ParsePT10H5s`).
- An `S` pair always sets nanosecond, to 0 when the number has no fraction
  (`ScanSecondAndNanosecond`, `ParseFullDuration`).
- Reordered units, a missing `P`, a trailing `T`, fractional whole units and a
  number ending in a dot are all accepted. An unknown letter run is ignored, not
  rejected. See the last group of example rows.

The table's nil expectations are never compared. `runTest` (lines 54-58 of the test
file) asserts only when both the result and the expectation are non-nil.

## Left out

- The formatter `DateComponents.asXMLDuration`: it is used only by
  `Tests/RVS_ParseXMLDurationTests/RVS_ParseXMLDurationTests.swift`. Its source lies
  under `./src` (named at `Package.swift:22`), which is not part of this model.
- Foundation `Scanner` internals: the model gives the skip-then-maximal-run
  behaviour directly, as functions over an index. A scan that finds nothing leaves
  the location after the skipped characters, which does not change any result.
- `CharacterSet.decimalDigits` holds every Unicode decimal digit. The model takes
  only ASCII `0`-`9`.
- Swift strings are sequences of grapheme clusters; the model uses `seq<char>`.
  Case is never folded.
- Floating point: `Double(value)` is modelled as an exact decimal, so the model
  leaves out every rounding of the program's binary arithmetic. That covers the
  rounding of `Double(value)` itself and of the fraction-times-10^9 step at line 77,
  and the trap `Int(doubleVal)` raises on overflow. Such rounding can change a
  whole-unit field: a number just below an integer, with more digits than a
  `Double` holds, rounds up to that integer. It can also move the nanosecond count
  in either direction, by far more than one nanosecond once the whole part is large.
- `DecimalLiteral.ParseDecimal`: it covers only runs of digits and dots, the only
  input the scanner can pass. `Double`'s other accepted forms (signs, exponents,
  `inf`, `nan`) cannot occur here.
- The runtime trap of the nil implicitly-unwrapped result (line 125): modelled as
  `None`.
- `DateComponents` is a plain record of the seven fields the parser writes. Its
  calendar, its other fields and its equality are not modelled.
- The XCTest harnesses and the `Package.swift` manifest: not parser logic.
