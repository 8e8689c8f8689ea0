/** `String.asXMLDuration` (lines 38-126): split the text on every `T`, pick
    the date segment from piece 0 and the time segment from piece 1, scan
    both with `scanString` (each with `isDate` left at `false`), and merge.
    The declared result is a non-optional `DateComponents`, but a nil
    implicitly-unwrapped value is returned when neither scan succeeds, which
    would stop the program; that outcome is None here. */
module XmlDuration {
  import opened DurationComponents
  import opened SegmentScanner

  /** The pieces joined back together with the separator between them. */
  function Join(pieces: seq<seq<char>>, sep: char): seq<char>
    requires |pieces| >= 1
  {
    if |pieces| == 1 then pieces[0] else pieces[0] + [sep] + Join(pieces[1..], sep)
  }

  /** `components(separatedBy:)` with a one-character separator: the pieces
      between separators, an empty piece between two adjacent separators or at
      either end. */
  function Split(s: seq<char>, sep: char): (pieces: seq<seq<char>>)
    ensures |pieces| >= 1
    ensures forall k :: 0 <= k < |pieces| ==> sep !in pieces[k]
    ensures Join(pieces, sep) == s
  {
    if s == [] then [[]]
    else
      var rest := Split(s[1..], sep);
      if s[0] == sep then
        assert [s[0]] + s[1..] == s;
        [[]] + rest
      else
        JoinConsFirst(s[0], rest, sep);
        assert [s[0]] + s[1..] == s;
        [[s[0]] + rest[0]] + rest[1..]
  }

  lemma JoinConsFirst(c: char, pieces: seq<seq<char>>, sep: char)
    requires |pieces| >= 1
    ensures Join([[c] + pieces[0]] + pieces[1..], sep) == [c] + Join(pieces, sep)
  {
    var ps := [[c] + pieces[0]] + pieces[1..];
    if |pieces| > 1 {
      assert ps[1..] == pieces[1..];
    }
  }

  /** `String(piece.dropFirst())`: the piece without its first character,
      whatever that character is. */
  function DropFirst(p: seq<char>): (r: seq<char>)
    ensures p != [] ==> p == [p[0]] + r
    ensures p == [] ==> r == []
  {
    if p == [] then [] else p[1..]
  }

  /** Lines 91-106: the date segment is piece 0 without its first character,
      unless piece 0 is exactly "P". */
  function DateSegment(pieces: seq<seq<char>>): (r: Option<seq<char>>)
    requires |pieces| >= 1
    ensures r.None? <==> pieces[0] == "P"
    ensures r.Some? && pieces[0] != [] ==> pieces[0] == [pieces[0][0]] + r.value
    ensures r.Some? && pieces[0] == [] ==> r.value == []
  {
    if pieces[0] != "P" then Some(DropFirst(pieces[0])) else None
  }

  /** Lines 99-101: the time segment is piece 1 when there is one and it is
      not empty. Later pieces are never looked at. */
  function TimeSegment(pieces: seq<seq<char>>): (r: Option<seq<char>>)
    requires |pieces| >= 1
    ensures r.Some? <==> |pieces| > 1 && pieces[1] != []
    ensures r.Some? ==> r.value == pieces[1]
  {
    if 1 < |pieces| && pieces[1] != [] then Some(pieces[1]) else None
  }

  /** Lines 108-123: the merge is nil only when both scans are; with both
      present it takes hour, minute, second and nanosecond from the time
      result (even where that one is absent) and year, month and day from the
      date result; a lone result is returned unchanged. */
  function Merge(date: Option<Components>, time: Option<Components>): (r: Option<Components>)
    ensures r.None? <==> date.None? && time.None?
    ensures date.Some? && time.Some? ==>
      forall f :: Get(r.value, f) == if IsTimeField(f) then Get(time.value, f) else Get(date.value, f)
    ensures date.Some? && time.None? ==> r == date
    ensures date.None? ==> r == time
  {
    match (date, time)
    case (Some(d), Some(t)) =>
      Some(d.(hour := t.hour, minute := t.minute, second := t.second, nanosecond := t.nanosecond))
    case (Some(d), None) => Some(d)
    case (None, _) => time
  }

  /** The value `asXMLDuration` computes (None for the nil it would return).
      Every field of a result is non-negative and the nanosecond count is
      below 10^9, whatever the text (a leading '-' included). */
  function Parse(s: seq<char>): (r: Option<Components>)
    ensures r.Some? ==> WellFormed(r.value)
  {
    var pieces := Split(s, 'T');
    ScanWellFormed(DateSegment(pieces), false);
    ScanWellFormed(TimeSegment(pieces), false);
    MergeWellFormed(Scan(DateSegment(pieces), false), Scan(TimeSegment(pieces), false));
    Merge(Scan(DateSegment(pieces), false), Scan(TimeSegment(pieces), false))
  }

  /** The body of `asXMLDuration` as written. */
  method AsXmlDuration(s: seq<char>) returns (r: Option<Components>)
    ensures r == Parse(s)
  {
    var timeDate := Split(s, 'T');
    var dateString: Option<seq<char>> := None;
    var timeString: Option<seq<char>> := None;

    if 1 < |timeDate| {
      if timeDate[0] != "P" {
        dateString := Some(DropFirst(timeDate[0]));
      }
      if timeDate[1] != [] {
        timeString := Some(timeDate[1]);
      }
    } else {
      if timeDate[0] != "P" {
        dateString := Some(DropFirst(timeDate[0]));
      }
    }

    var returnValue: Option<Components> := None;

    var dateComp := ScanString(dateString, false);
    if dateComp.Some? {
      returnValue := dateComp;
    }

    var timeComp := ScanString(timeString, false);
    if timeComp.Some? {
      if returnValue.Some? {
        var merged := returnValue.value;
        merged := merged.(hour := timeComp.value.hour);
        merged := merged.(minute := timeComp.value.minute);
        merged := merged.(second := timeComp.value.second);
        merged := merged.(nanosecond := timeComp.value.nanosecond);
        returnValue := Some(merged);
      } else {
        returnValue := timeComp;
      }
    }

    r := returnValue;
  }

  // ------------------------------------------------ splitting on T

  /** A text without the separator is one piece. */
  lemma {:induction false} SplitWithoutSep(d: seq<char>, sep: char)
    requires sep !in d
    ensures Split(d, sep) == [d]
  {
    if d != [] {
      SplitWithoutSep(d[1..], sep);
      assert [d[0]] + d[1..] == d;
    }
  }

  /** A character other than the separator joins the first piece. */
  lemma SplitCons(c: char, x: seq<char>, sep: char)
    requires c != sep
    ensures Split([c] + x, sep) == [[c] + Split(x, sep)[0]] + Split(x, sep)[1..]
  {
    assert ([c] + x)[1..] == x;
  }

  /** A separator ends the first piece at the first separator. */
  lemma {:induction false} SplitAt(d: seq<char>, sep: char, r: seq<char>)
    requires sep !in d
    ensures Split(d + [sep] + r, sep) == [d] + Split(r, sep)
  {
    if d == [] {
      assert ([sep] + r)[1..] == r;
      assert d + [sep] + r == [sep] + r;
    } else {
      assert d + [sep] + r == [d[0]] + (d[1..] + [sep] + r);
      SplitCons(d[0], d[1..] + [sep] + r, sep);
      SplitAt(d[1..], sep, r);
      assert [d[0]] + d[1..] == d;
    }
  }

  lemma {:induction false} JoinHas(pieces: seq<seq<char>>, sep: char, k: nat, x: nat)
    requires |pieces| >= 1 && k < |pieces| && x < |pieces[k]|
    ensures pieces[k][x] in Join(pieces, sep)
  {
    if k == 0 {
      if |pieces| > 1 {
        assert Join(pieces, sep)[x] == pieces[0][x];
      }
    } else {
      JoinHas(pieces[1..], sep, k - 1, x);
    }
  }

  /** Every character of every piece comes from the text. */
  lemma SplitMembers(s: seq<char>, sep: char, k: nat, x: nat)
    requires k < |Split(s, sep)| && x < |Split(s, sep)[k]|
    ensures Split(s, sep)[k][x] in s
  {
    JoinHas(Split(s, sep), sep, k, x);
  }

  // ------------------------------------------------ merging

  /** The fields the time scan supplies. */
  predicate IsTimeField(f: Field) {
    f == Hour || f == Minute || f == Second || f == Nanosecond
  }

  lemma MergeWellFormed(date: Option<Components>, time: Option<Components>)
    requires date.Some? ==> WellFormed(date.value)
    requires time.Some? ==> WellFormed(time.value)
    ensures Merge(date, time).Some? ==> WellFormed(Merge(date, time).value)
  {
    if date.Some? && time.Some? {
      forall f
        ensures var v := Get(Merge(date, time).value, f);
          v.Some? ==> 0 <= v.value && (f == Nanosecond ==> v.value < NanosPerSecond)
      {
        assert Get(Merge(date, time).value, f) ==
          if IsTimeField(f) then Get(time.value, f) else Get(date.value, f);
      }
    }
  }

  // ------------------------------------------------ the whole parse

  /** Both segments are scanned with `isDate` false, so no parse sets month. */
  lemma ParseNeverSetsMonth(s: seq<char>)
    ensures Parse(s).Some? ==> Parse(s).value.month.None?
  {
    var pieces := Split(s, 'T');
    var date, time := Scan(DateSegment(pieces), false), Scan(TimeSegment(pieces), false);
    if date.Some? {
      ScanMonthOrMinute(DateSegment(pieces).value, false);
    }
    if time.Some? {
      ScanMonthOrMinute(TimeSegment(pieces).value, false);
    }
  }

  /** A text without 'T': the date segment is the text minus its first
      character, and nothing is parsed from the text "P". */
  lemma ParseDateOnly(d: seq<char>)
    requires 'T' !in d
    ensures Parse(d) == if d == "P" then None else Scan(Some(DropFirst(d)), false)
  {
    SplitWithoutSep(d, 'T');
  }

  /** A text with one 'T': the part before it gives the date segment as above,
      the part after it is the time segment unless it is empty, and the
      results are merged. */
  lemma ParseDateAndTime(d: seq<char>, t: seq<char>)
    requires 'T' !in d && 'T' !in t
    ensures Parse(d + ['T'] + t) ==
      Merge(if d == "P" then None else Scan(Some(DropFirst(d)), false),
            if t == [] then None else Scan(Some(t), false))
  {
    SplitAt(d, 'T', t);
    SplitWithoutSep(t, 'T');
  }

  /** Whatever follows a second 'T' is never looked at. */
  lemma ParseIgnoresLaterPieces(d: seq<char>, t: seq<char>, rest: seq<char>)
    requires 'T' !in d && 'T' !in t
    ensures Parse(d + ['T'] + t + ['T'] + rest) == Parse(d + ['T'] + t)
  {
    SplitAt(d, 'T', t + ['T'] + rest);
    SplitAt(t, 'T', rest);
    assert d + ['T'] + t + ['T'] + rest == d + ['T'] + (t + ['T'] + rest);
    SplitAt(d, 'T', t);
    SplitWithoutSep(t, 'T');
  }

  lemma ScanEmpty(isDate: bool)
    ensures Scan(Some([]), isDate).None?
  {
    TurnsFromEnd([], 0);
  }

  /** A leading '-' is not a sign: "-P..." parses exactly like "P...". */
  lemma ParseIgnoresSign(y: seq<char>)
    ensures Parse(['-', 'P'] + y) == Parse(['P'] + y)
  {
    var r := Split(y, 'T');
    SplitCons('P', y, 'T');
    var q := Split(['P'] + y, 'T');
    assert ['-', 'P'] + y == ['-'] + (['P'] + y);
    SplitCons('-', ['P'] + y, 'T');
    var p := Split(['-', 'P'] + y, 'T');
    assert p[1..] == q[1..] && q[1..] == r[1..];
    assert DateSegment(p) == Some(['P'] + r[0]);
    ScanSkipsLeading('P', r[0], false);
    if r[0] == [] {
      ScanEmpty(false);
    }
    assert TimeSegment(p) == TimeSegment(q);
  }

  /** Without an upper-case unit letter nothing is parsed: "Norman" and
      "pt168h120m" give nil. */
  lemma ParseWithoutLetters(s: seq<char>)
    requires forall k :: 0 <= k < |s| ==> !IsUnitChar(s[k])
    ensures Parse(s).None?
  {
    var pieces := Split(s, 'T');
    forall k, x | 0 <= k < |pieces| && 0 <= x < |pieces[k]|
      ensures !IsUnitChar(pieces[k][x])
    {
      SplitMembers(s, 'T', k, x);
    }
    if DateSegment(pieces).Some? {
      var d := DateSegment(pieces).value;
      assert forall x :: 0 <= x < |d| ==> d[x] == pieces[0][x + 1];
      ScanWithoutLetters(d, false);
    }
    if TimeSegment(pieces).Some? {
      ScanWithoutLetters(pieces[1], false);
    }
  }
}
