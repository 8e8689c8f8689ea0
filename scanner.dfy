/** The nested `scanString(_:isDate:)`: a Foundation `Scanner` walks one
    segment of the duration text, taking a run of number characters and then
    a run of unit letters on each turn, and every pair whose number parses
    writes one or two fields of the result.

    The scanner's primitives are modelled as functions over an index into the
    segment; the loop itself is the method `ScanString`, proved against the
    function `Scan`. */
module SegmentScanner {
  import opened DurationComponents
  import opened DecimalLiteral

  /** The separator set "YMDHMS" (upper case only). */
  predicate IsUnitChar(c: char) {
    c == 'Y' || c == 'M' || c == 'D' || c == 'H' || c == 'S'
  }

  /** `charactersToBeSkipped`: everything outside both scan sets. */
  predicate IsSkippable(c: char) {
    !IsNumberChar(c) && !IsUnitChar(c)
  }

  /** The two character sets the scanner takes runs from. */
  datatype CharSet = Numbers | Separators

  predicate InSet(c: char, cs: CharSet) {
    match cs
    case Numbers => IsNumberChar(c)
    case Separators => IsUnitChar(c)
  }

  /** The first significant position at or after i. */
  function SkipFrom(s: seq<char>, i: nat): (j: nat)
    requires i <= |s|
    ensures i <= j <= |s|
    ensures forall k :: i <= k < j ==> IsSkippable(s[k])
    ensures j < |s| ==> !IsSkippable(s[j])
    decreases |s| - i
  {
    if i == |s| || !IsSkippable(s[i]) then i else SkipFrom(s, i + 1)
  }

  /** The end of the maximal run of characters from cs that starts at i. */
  function RunEnd(s: seq<char>, i: nat, cs: CharSet): (j: nat)
    requires i <= |s|
    ensures i <= j <= |s|
    ensures forall k :: i <= k < j ==> InSet(s[k], cs)
    ensures j < |s| ==> !InSet(s[j], cs)
    decreases |s| - i
  {
    if i == |s| || !InSet(s[i], cs) then i else RunEnd(s, i + 1, cs)
  }

  /** `scanner.isAtEnd`: nothing but skippable characters is left. */
  predicate IsAtEnd(s: seq<char>, i: nat)
    requires i <= |s|
  {
    SkipFrom(s, i) == |s|
  }

  /** The loop stops exactly when every character left is skippable. */
  lemma AtEndIff(s: seq<char>, i: nat)
    requires i <= |s|
    ensures IsAtEnd(s, i) <==> forall k :: i <= k < |s| ==> IsSkippable(s[k])
  {
  }

  /** `scanCharacters(from:into:)` at scan location i: skip, then take the
      maximal run from cs. The run is None (the out-parameter stays nil) when
      it would be empty; the second component is the new scan location, which
      keeps the skipped prefix. */
  function ScanCharacters(s: seq<char>, i: nat, cs: CharSet): (r: (Option<seq<char>>, nat))
    requires i <= |s|
    ensures SkipFrom(s, i) <= r.1 <= |s|
    ensures r.0.Some? ==> r.0.value == s[SkipFrom(s, i)..r.1] && r.0.value != []
    ensures r.0.Some? ==> forall k :: 0 <= k < |r.0.value| ==> InSet(r.0.value[k], cs)
    ensures r.0.None? ==> r.1 == SkipFrom(s, i)
    ensures SkipFrom(s, i) < |s| && InSet(s[SkipFrom(s, i)], cs) ==> r.0.Some?
  {
    var start := SkipFrom(s, i);
    var end := RunEnd(s, start, cs);
    if start == end then (None, start) else (Some(s[start..end]), end)
  }

  /** The run a scan returns is maximal: the scan stops at the end of the
      text or at the first character outside the set, so "YM" is read as one
      letter run. */
  lemma ScanCharactersMaximal(s: seq<char>, i: nat, cs: CharSet)
    requires i <= |s|
    ensures var j := ScanCharacters(s, i, cs).1; j == |s| || !InSet(s[j], cs)
    ensures ScanCharacters(s, i, cs).1 == RunEnd(s, SkipFrom(s, i), cs)
  {
  }

  /** What one turn of the loop reads: the number run and the letter run. */
  datatype Turn = Turn(value: Option<NumberRun>, indicator: Option<seq<char>>)

  /** One turn of the loop from scan location i (lines 55-56), and the scan
      location after it. A turn that starts before the end consumes at least
      one significant character. */
  function TurnAt(s: seq<char>, i: nat): (r: (Turn, nat))
    requires i <= |s|
    ensures r.1 <= |s|
    ensures !IsAtEnd(s, i) ==> SkipFrom(s, i) < r.1
  {
    var (value, afterValue) := ScanCharacters(s, i, Numbers);
    var number: Option<NumberRun> := if value.Some? then Some(value.value) else None;
    var (indicator, afterIndicator) := ScanCharacters(s, afterValue, Separators);
    (Turn(number, indicator), afterIndicator)
  }

  /** The turns the loop `while !scanner.isAtEnd` takes from scan location i:
      at most one per remaining character, since every turn consumes one. */
  function TurnsFrom(s: seq<char>, i: nat): (ts: seq<Turn>)
    requires i <= |s|
    ensures |ts| <= |s| - i
    decreases |s| - i
  {
    if IsAtEnd(s, i) then [] else [TurnAt(s, i).0] + TurnsFrom(s, TurnAt(s, i).1)
  }

  /** The guard at line 58: a number run that `Double` accepts and a letter
      run. Yields the number and the letter run. */
  function PairOf(t: Turn): (p: Option<(Decimal, seq<char>)>)
    ensures p.Some? <==>
      t.value.Some? && t.indicator.Some? && HasDigit(t.value.value) && DotCount(t.value.value) <= 1
    ensures p.Some? ==> p.value.1 == t.indicator.value
  {
    if t.value.Some? && t.indicator.Some? && ParseDecimal(t.value.value).Some? then
      Some((ParseDecimal(t.value.value).value, t.indicator.value))
    else None
  }

  predicate Counts(t: Turn) {
    PairOf(t).Some?
  }

  /** The `switch typeIndicator` of lines 62-82 on the whole letter run: it
      writes exactly the fields the run names, with the truncated number (or
      its nanoseconds), and leaves every other field. */
  function Assign(c: Components, unit: seq<char>, d: Decimal, isDate: bool): (r: Components)
    ensures forall f :: Get(r, f) == if Writes(unit, f, isDate) then Some(FieldValue(f, d)) else Get(c, f)
  {
    if unit == "Y" then c.(year := Some(WholePart(d)))
    else if unit == "M" then
      if isDate then c.(month := Some(WholePart(d))) else c.(minute := Some(WholePart(d)))
    else if unit == "D" then c.(day := Some(WholePart(d)))
    else if unit == "H" then c.(hour := Some(WholePart(d)))
    else if unit == "S" then c.(second := Some(WholePart(d)), nanosecond := Some(Nanoseconds(d)))
    else c
  }

  /** One turn's effect on `ret`: a counting pair creates the record if it is
      still nil (lines 59-61) and dispatches on the letter run. */
  function Step(ret: Option<Components>, t: Turn, isDate: bool): (r: Option<Components>)
    ensures r.None? <==> ret.None? && !Counts(t)
    ensures !Counts(t) ==> r == ret
  {
    match PairOf(t)
    case None => ret
    case Some((d, unit)) => Some(Assign(ret.GetOr(Empty), unit, d, isDate))
  }

  function Fold(ts: seq<Turn>, ret: Option<Components>, isDate: bool): (r: Option<Components>)
    ensures ret.Some? ==> r.Some?
  {
    if ts == [] then ret else Fold(ts[1..], Step(ret, ts[0], isDate), isDate)
  }

  /** What `scanString(inString, isDate:)` returns: nil for a nil segment,
      otherwise the fold of all its turns starting from nil. */
  function Scan(input: Option<seq<char>>, isDate: bool): (r: Option<Components>)
    ensures input.None? ==> r.None?
    ensures r.Some? ==> !IsAtEnd(input.value, 0)
  {
    match input
    case None => None
    case Some(s) => Fold(TurnsFrom(s, 0), None, isDate)
  }

  /** The scan loop of lines 42-88. */
  method ScanString(input: Option<seq<char>>, isDate: bool) returns (ret: Option<Components>)
    ensures ret == Scan(input, isDate)
  {
    ret := None;
    if input.Some? {
      var parseTarget := input.value;
      var location := 0;
      while !IsAtEnd(parseTarget, location)
        invariant location <= |parseTarget|
        invariant Fold(TurnsFrom(parseTarget, location), ret, isDate) == Scan(input, isDate)
        decreases |parseTarget| - location
      {
        ghost var turn, before := TurnAt(parseTarget, location), ret;
        var (value, afterValue) := ScanCharacters(parseTarget, location, Numbers);
        var (typeIndicator, afterIndicator) := ScanCharacters(parseTarget, afterValue, Separators);
        location := afterIndicator;
        if value.Some? && typeIndicator.Some? {
          var number: NumberRun := value.value;
          var doubleVal := ParseDecimal(number);
          if doubleVal.Some? {
            var c := if ret.None? then Empty else ret.value;
            var d, unit := doubleVal.value, typeIndicator.value;
            if unit == "Y" {
              c := c.(year := Some(WholePart(d)));
            } else if unit == "M" {
              if isDate {
                c := c.(month := Some(WholePart(d)));
              } else {
                c := c.(minute := Some(WholePart(d)));
              }
            } else if unit == "D" {
              c := c.(day := Some(WholePart(d)));
            } else if unit == "H" {
              c := c.(hour := Some(WholePart(d)));
            } else if unit == "S" {
              c := c.(second := Some(WholePart(d)));
              c := c.(nanosecond := Some(Nanoseconds(d)));
            }
            ret := Some(c);
          }
        }
        assert ret == Step(before, turn.0, isDate);
      }
    }
  }

  // ------------------------------------------------ which pairs count

  /** No turn of ts counts. */
  predicate NothingCounts(ts: seq<Turn>) {
    forall k :: 0 <= k < |ts| ==> !Counts(ts[k])
  }

  lemma {:induction false} FoldNoneIff(ts: seq<Turn>, ret: Option<Components>, isDate: bool)
    ensures Fold(ts, ret, isDate).None? <==> ret.None? && NothingCounts(ts)
  {
    if ts != [] {
      FoldNoneIff(ts[1..], Step(ret, ts[0], isDate), isDate);
      assert forall k :: 1 <= k < |ts| ==> ts[k] == ts[1..][k - 1];
    }
  }

  /** `scanString` returns nil exactly when no turn has both a number run that
      `Double` accepts and a letter run. A letter run without a number, an
      unparsable number such as "1..5", or a number followed by another number
      changes nothing; a counting pair whose letter run matches no case ("YM")
      still creates the (empty) record. */
  lemma ScanNoneIff(s: seq<char>, isDate: bool)
    ensures Scan(Some(s), isDate).None? <==> NothingCounts(TurnsFrom(s, 0))
  {
    FoldNoneIff(TurnsFrom(s, 0), None, isDate);
  }

  // ------------------------------------------------ unit mapping

  /** Which fields a letter run writes: Y year, M month in a date segment and
      minute otherwise, D day, H hour, S second and nanosecond. Any other run,
      such as "YM" or "MS", writes nothing. */
  predicate Writes(unit: seq<char>, f: Field, isDate: bool) {
    match f
    case Year => unit == "Y"
    case Month => isDate && unit == "M"
    case Day => unit == "D"
    case Hour => unit == "H"
    case Minute => !isDate && unit == "M"
    case Second => unit == "S"
    case Nanosecond => unit == "S"
  }

  /** The value a written field receives from the number d. */
  function FieldValue(f: Field, d: Decimal): int {
    if f == Nanosecond then Nanoseconds(d) else WholePart(d)
  }

  /** The number of the last counting turn whose letter run writes f. */
  function LastFor(ts: seq<Turn>, f: Field, isDate: bool): Option<Decimal> {
    if ts == [] then None
    else match LastFor(ts[1..], f, isDate)
      case Some(d) => Some(d)
      case None =>
        match PairOf(ts[0])
        case Some((d, unit)) => if Writes(unit, f, isDate) then Some(d) else None
        case None => None
  }

  lemma {:induction false} FoldField(ts: seq<Turn>, ret: Option<Components>, isDate: bool, f: Field)
    requires Fold(ts, ret, isDate).Some?
    ensures Get(Fold(ts, ret, isDate).value, f) ==
      match LastFor(ts, f, isDate)
      case Some(d) => Some(FieldValue(f, d))
      case None => Get(ret.GetOr(Empty), f)
  {
    if ts != [] {
      var next := Step(ret, ts[0], isDate);
      FoldField(ts[1..], next, isDate, f);
      match PairOf(ts[0])
      case Some((d, unit)) =>
        assert Get(next.value, f) ==
          if Writes(unit, f, isDate) then Some(FieldValue(f, d)) else Get(ret.GetOr(Empty), f);
      case None =>
    }
  }

  /** Every field of a segment's result comes from the last counting pair
      whose letter run writes it (later pairs overwrite earlier ones), and is
      absent when no pair writes it. */
  lemma ScanField(s: seq<char>, isDate: bool, f: Field)
    requires Scan(Some(s), isDate).Some?
    ensures Get(Scan(Some(s), isDate).value, f) ==
      match LastFor(TurnsFrom(s, 0), f, isDate)
      case Some(d) => Some(FieldValue(f, d))
      case None => None
  {
    FoldField(TurnsFrom(s, 0), None, isDate, f);
  }

  lemma {:induction false} LastForUnwritten(ts: seq<Turn>, f: Field, isDate: bool)
    requires forall unit :: !Writes(unit, f, isDate)
    ensures LastFor(ts, f, isDate).None?
  {
    if ts != [] {
      LastForUnwritten(ts[1..], f, isDate);
    }
  }

  lemma {:induction false} LastForAlike(ts: seq<Turn>, f: Field, g: Field, isDate: bool)
    requires forall unit :: Writes(unit, f, isDate) == Writes(unit, g, isDate)
    ensures LastFor(ts, f, isDate) == LastFor(ts, g, isDate)
  {
    if ts != [] {
      LastForAlike(ts[1..], f, g, isDate);
    }
  }

  /** A segment scanned with `isDate: false` never sets month, and one scanned
      with `isDate: true` never sets minute. */
  lemma ScanMonthOrMinute(s: seq<char>, isDate: bool)
    requires Scan(Some(s), isDate).Some?
    ensures !isDate ==> Scan(Some(s), isDate).value.month.None?
    ensures isDate ==> Scan(Some(s), isDate).value.minute.None?
  {
    var ts := TurnsFrom(s, 0);
    if isDate {
      LastForUnwritten(ts, Minute, isDate);
      ScanField(s, isDate, Minute);
    } else {
      LastForUnwritten(ts, Month, isDate);
      ScanField(s, isDate, Month);
    }
  }

  /** Second and nanosecond are written together by the same pair: an `S`
      pair always sets nanosecond, to 0 when the number has no fraction. */
  lemma ScanSecondAndNanosecond(s: seq<char>, isDate: bool)
    requires Scan(Some(s), isDate).Some?
    ensures var c := Scan(Some(s), isDate).value;
      c.second.Some? <==> c.nanosecond.Some?
    ensures var c := Scan(Some(s), isDate).value;
      c.second.Some? ==> exists d :: c.second == Some(WholePart(d)) && c.nanosecond == Some(Nanoseconds(d))
  {
    var ts := TurnsFrom(s, 0);
    LastForAlike(ts, Second, Nanosecond, isDate);
    ScanField(s, isDate, Second);
    ScanField(s, isDate, Nanosecond);
  }

  // ------------------------------------------------ bounds

  lemma AssignWellFormed(c: Components, unit: seq<char>, d: Decimal, isDate: bool)
    requires WellFormed(c)
    ensures WellFormed(Assign(c, unit, d, isDate))
  {
    forall f
      ensures var v := Get(Assign(c, unit, d, isDate), f);
        v.Some? ==> 0 <= v.value && (f == Nanosecond ==> v.value < NanosPerSecond)
    {
      assert Get(Assign(c, unit, d, isDate), f) == if Writes(unit, f, isDate) then Some(FieldValue(f, d)) else Get(c, f);
    }
  }

  lemma {:induction false} FoldWellFormed(ts: seq<Turn>, ret: Option<Components>, isDate: bool)
    requires ret.Some? ==> WellFormed(ret.value)
    ensures Fold(ts, ret, isDate).Some? ==> WellFormed(Fold(ts, ret, isDate).value)
  {
    if ts != [] {
      match PairOf(ts[0]) {
        case Some((d, unit)) =>
          assert WellFormed(Empty);
          AssignWellFormed(ret.GetOr(Empty), unit, d, isDate);
        case None =>
      }
      FoldWellFormed(ts[1..], Step(ret, ts[0], isDate), isDate);
    }
  }

  /** Every field a scan sets is non-negative and the nanosecond count is
      below 10^9: numbers come only from runs of digits and dots. */
  lemma ScanWellFormed(input: Option<seq<char>>, isDate: bool)
    ensures Scan(input, isDate).Some? ==> WellFormed(Scan(input, isDate).value)
  {
    if input.Some? {
      FoldWellFormed(TurnsFrom(input.value, 0), None, isDate);
    }
  }

  // ------------------------------------------------ skipped characters

  lemma {:induction false} ShiftTurns(c: char, s: seq<char>, i: nat)
    requires i <= |s|
    ensures TurnsFrom([c] + s, i + 1) == TurnsFrom(s, i)
    decreases |s| - i
  {
    var t := [c] + s;
    ShiftSkip(c, s, i);
    if !IsAtEnd(s, i) {
      var (turn, next) := TurnAt(s, i);
      ShiftTurnAt(c, s, i);
      ShiftTurns(c, s, next);
      SameTurns(t, s, i, turn, next);
    } else {
      TurnsFromEnd(t, i + 1);
      TurnsFromEnd(s, i);
    }
  }

  /** One turn read alike from t at i + 1 and from s at i, followed by equal
      rests, gives equal turn sequences. */
  lemma SameTurns(t: seq<char>, s: seq<char>, i: nat, turn: Turn, next: nat)
    requires i <= |s| && !IsAtEnd(s, i) && i + 1 <= |t| && !IsAtEnd(t, i + 1)
    requires TurnAt(s, i) == (turn, next) && TurnAt(t, i + 1) == (turn, next + 1)
    requires next + 1 <= |t|
    requires TurnsFrom(t, next + 1) == TurnsFrom(s, next)
    ensures TurnsFrom(t, i + 1) == TurnsFrom(s, i)
  {
    TurnsFromStep(t, i + 1);
    TurnsFromStep(s, i);
  }

  lemma TurnsFromStep(s: seq<char>, i: nat)
    requires i <= |s| && !IsAtEnd(s, i)
    ensures TurnsFrom(s, i) == [TurnAt(s, i).0] + TurnsFrom(s, TurnAt(s, i).1)
  {
  }

  lemma TurnsFromEnd(s: seq<char>, i: nat)
    requires i <= |s| && IsAtEnd(s, i)
    ensures TurnsFrom(s, i) == []
  {
  }

  lemma ShiftTurnAt(c: char, s: seq<char>, i: nat)
    requires i <= |s|
    ensures TurnAt([c] + s, i + 1) == (TurnAt(s, i).0, TurnAt(s, i).1 + 1)
  {
    ShiftScan(c, s, i, Numbers);
    ShiftScan(c, s, ScanCharacters(s, i, Numbers).1, Separators);
  }

  lemma ShiftScan(c: char, s: seq<char>, i: nat, cs: CharSet)
    requires i <= |s|
    ensures ScanCharacters([c] + s, i + 1, cs) == (ScanCharacters(s, i, cs).0, ScanCharacters(s, i, cs).1 + 1)
  {
    var t := [c] + s;
    ShiftSkip(c, s, i);
    var start := SkipFrom(s, i);
    ShiftRun(c, s, start, cs);
    assert t[start + 1..RunEnd(s, start, cs) + 1] == s[start..RunEnd(s, start, cs)];
  }

  lemma {:induction false} ShiftSkip(c: char, s: seq<char>, i: nat)
    requires i <= |s|
    ensures SkipFrom([c] + s, i + 1) == SkipFrom(s, i) + 1
    decreases |s| - i
  {
    if i < |s| && IsSkippable(s[i]) {
      ShiftSkip(c, s, i + 1);
    }
  }

  lemma {:induction false} ShiftRun(c: char, s: seq<char>, i: nat, cs: CharSet)
    requires i <= |s|
    ensures RunEnd([c] + s, i + 1, cs) == RunEnd(s, i, cs) + 1
    decreases |s| - i
  {
    if i < |s| && InSet(s[i], cs) {
      ShiftRun(c, s, i + 1, cs);
    }
  }

  /** A leading skippable character (the `P`, a `-`, a lower-case letter)
      does not change the scan. */
  lemma ScanSkipsLeading(c: char, s: seq<char>, isDate: bool)
    requires IsSkippable(c)
    ensures Scan(Some([c] + s), isDate) == Scan(Some(s), isDate)
  {
    var t := [c] + s;
    assert SkipFrom(t, 0) == SkipFrom(t, 1);
    assert TurnAt(t, 0) == TurnAt(t, 1);
    assert TurnsFrom(t, 0) == TurnsFrom(t, 1);
    ShiftTurns(c, s, 0);
  }

  /** Skippable characters in front of a segment do not change the scan. */
  lemma {:induction false} ScanSkipsPrefix(p: seq<char>, s: seq<char>, isDate: bool)
    requires forall k :: 0 <= k < |p| ==> IsSkippable(p[k])
    ensures Scan(Some(p + s), isDate) == Scan(Some(s), isDate)
  {
    if p != [] {
      calc {
        Scan(Some(p + s), isDate);
        { assert p + s == [p[0]] + (p[1..] + s); }
        Scan(Some([p[0]] + (p[1..] + s)), isDate);
        { ScanSkipsLeading(p[0], p[1..] + s, isDate); }
        Scan(Some(p[1..] + s), isDate);
        { ScanSkipsPrefix(p[1..], s, isDate); }
        Scan(Some(s), isDate);
      }
    } else {
      assert p + s == s;
    }
  }

  // ------------------------------------------------ one pair at a time

  lemma {:induction false} RunEndAt(s: seq<char>, i: nat, j: nat, cs: CharSet)
    requires i <= j <= |s|
    requires forall k :: i <= k < j ==> InSet(s[k], cs)
    requires j == |s| || !InSet(s[j], cs)
    ensures RunEnd(s, i, cs) == j
    decreases j - i
  {
    if i < j {
      RunEndAt(s, i + 1, j, cs);
    }
  }

  /** A maximal run from cs that starts at a significant position i is read
      whole. */
  lemma ScanRunAt(s: seq<char>, i: nat, j: nat, cs: CharSet)
    requires i < j <= |s|
    requires forall k :: i <= k < j ==> InSet(s[k], cs)
    requires j == |s| || !InSet(s[j], cs)
    ensures ScanCharacters(s, i, cs) == (Some(s[i..j]), j)
  {
    assert InSet(s[i], cs);
    assert SkipFrom(s, i) == i;
    RunEndAt(s, i, j, cs);
  }

  /** A number run s[i..j] directly followed by a maximal run of unit letters
      s[j..k] is one turn, and the loop goes on from k. */
  lemma TurnsOfPair(s: seq<char>, i: nat, j: nat, k: nat)
    requires i < j < k <= |s|
    requires forall x :: i <= x < j ==> IsNumberChar(s[x])
    requires forall x :: j <= x < k ==> IsUnitChar(s[x])
    requires k == |s| || !IsUnitChar(s[k])
    ensures (forall x :: 0 <= x < j - i ==> IsNumberChar(s[i..j][x])) &&
      TurnsFrom(s, i) == [Turn(Some(s[i..j]), Some(s[j..k]))] + TurnsFrom(s, k)
  {
    assert IsNumberChar(s[i]) && IsUnitChar(s[j]);
    ScanRunAt(s, i, j, Numbers);
    ScanRunAt(s, j, k, Separators);
    TurnsFromStep(s, i);
  }

  /** The loop skips before reading anything: starting at i or at the first
      significant position after it makes no difference. */
  lemma TurnsSkip(s: seq<char>, i: nat)
    requires i <= |s|
    ensures TurnsFrom(s, i) == TurnsFrom(s, SkipFrom(s, i))
  {
    var j := SkipFrom(s, i);
    assert SkipFrom(s, j) == j;
    if !IsAtEnd(s, i) {
      assert TurnAt(s, i) == TurnAt(s, j);
      TurnsFromStep(s, i);
      TurnsFromStep(s, j);
    }
  }

  /** A pair whose number `Double` accepts is applied to the record, and the
      scan goes on after its letter run. */
  lemma FoldPair(s: seq<char>, i: nat, j: nat, k: nat, d: Decimal, ret: Option<Components>, isDate: bool)
    requires i < j < k <= |s|
    requires forall x :: i <= x < j ==> IsNumberChar(s[x])
    requires forall x :: j <= x < k ==> IsUnitChar(s[x])
    requires k == |s| || !IsUnitChar(s[k])
    requires ParseDecimal(s[i..j]) == Some(d)
    ensures Fold(TurnsFrom(s, i), ret, isDate) ==
      Fold(TurnsFrom(s, k), Some(Assign(ret.GetOr(Empty), s[j..k], d, isDate)), isDate)
  {
    TurnsOfPair(s, i, j, k);
    var ts := [Turn(Some(s[i..j]), Some(s[j..k]))] + TurnsFrom(s, k);
    assert ts[1..] == TurnsFrom(s, k);
  }

  /** Once only skippable characters are left the record is complete. */
  lemma FoldEnd(s: seq<char>, i: nat, ret: Option<Components>, isDate: bool)
    requires i <= |s| && SkipFrom(s, i) == |s|
    ensures Fold(TurnsFrom(s, i), ret, isDate) == ret
  {
    TurnsFromEnd(s, i);
  }

  // ------------------------------------------------ no unit letters

  /** No turn of ts has a letter run. */
  predicate NoLetterRuns(ts: seq<Turn>) {
    forall k :: 0 <= k < |ts| ==> ts[k].indicator.None?
  }

  lemma NoLetterRunsCons(t: Turn, ts: seq<Turn>)
    requires t.indicator.None? && NoLetterRuns(ts)
    ensures NoLetterRuns([t] + ts)
  {
    assert forall k :: 1 <= k < |[t] + ts| ==> ([t] + ts)[k] == ts[k - 1];
  }

  lemma {:induction false} TurnsWithoutLetters(s: seq<char>, i: nat)
    requires i <= |s|
    requires forall k :: i <= k < |s| ==> !IsUnitChar(s[k])
    ensures NoLetterRuns(TurnsFrom(s, i))
    decreases |s| - i
  {
    if !IsAtEnd(s, i) {
      var (t, next) := TurnAt(s, i);
      TurnsWithoutLetters(s, next);
      TurnsFromStep(s, i);
      NoLetterRunsCons(t, TurnsFrom(s, next));
    }
  }

  lemma NothingCountsWithoutLetters(ts: seq<Turn>)
    requires NoLetterRuns(ts)
    ensures NothingCounts(ts)
  {
  }

  lemma {:induction false} FoldNothingCounts(ts: seq<Turn>, ret: Option<Components>, isDate: bool)
    requires NothingCounts(ts)
    ensures Fold(ts, ret, isDate) == ret
  {
    if ts != [] {
      assert forall k :: 0 <= k < |ts[1..]| ==> ts[1..][k] == ts[k + 1];
      FoldNothingCounts(ts[1..], ret, isDate);
    }
  }

  /** Once no unit letter is left, nothing more is written: a trailing number
      without a letter, as in "10H5s", is dropped. */
  lemma FoldWithoutLetters(s: seq<char>, i: nat, ret: Option<Components>, isDate: bool)
    requires i <= |s|
    requires forall k :: i <= k < |s| ==> !IsUnitChar(s[k])
    ensures Fold(TurnsFrom(s, i), ret, isDate) == ret
  {
    TurnsWithoutLetters(s, i);
    NothingCountsWithoutLetters(TurnsFrom(s, i));
    FoldNothingCounts(TurnsFrom(s, i), ret, isDate);
  }

  /** Without an upper-case unit letter nothing is scanned: "pt168h120m"
      gives nil. */
  lemma ScanWithoutLetters(s: seq<char>, isDate: bool)
    requires forall k :: 0 <= k < |s| ==> !IsUnitChar(s[k])
    ensures Scan(Some(s), isDate).None?
  {
    FoldWithoutLetters(s, 0, None, isDate);
  }
}
