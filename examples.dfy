/** The parser applied to the duration texts of the repository's test table,
    each worked out from the general lemmas. The first group agrees with the
    expected value in the table; the second group reads the code as written
    where the table expects something else. */
module DurationExamples {
  import opened DurationComponents
  import opened DecimalLiteral
  import opened SegmentScanner
  import opened XmlDuration

  // ------------------------------------------------ number literals

  lemma Number1() ensures ParseDecimal("1") == Some(Decimal(1, 0)) {
    ParseInteger("1");
  }

  lemma Number2() ensures ParseDecimal("2") == Some(Decimal(2, 0)) {
    ParseInteger("2");
  }

  lemma Number5() ensures ParseDecimal("5") == Some(Decimal(5, 0)) {
    ParseInteger("5");
  }

  lemma Number6() ensures ParseDecimal("6") == Some(Decimal(6, 0)) {
    ParseInteger("6");
  }

  lemma Number10() ensures ParseDecimal("10") == Some(Decimal(10, 0)) {
    ParseInteger("10");
    assert "10"[..1] == "1";
  }

  lemma Number12() ensures ParseDecimal("12") == Some(Decimal(12, 0)) {
    ParseInteger("12");
    assert "12"[..1] == "1";
  }

  lemma Number20() ensures ParseDecimal("20") == Some(Decimal(20, 0)) {
    ParseInteger("20");
    assert "20"[..1] == "2";
  }

  lemma Number30() ensures ParseDecimal("30") == Some(Decimal(30, 0)) {
    ParseInteger("30");
    assert "30"[..1] == "3";
  }

  lemma Number35() ensures ParseDecimal("35") == Some(Decimal(35, 0)) {
    ParseInteger("35");
    assert "35"[..1] == "3";
  }

  lemma Number60() ensures ParseDecimal("60") == Some(Decimal(60, 0)) {
    ParseInteger("60");
    assert "60"[..1] == "6";
  }

  lemma Number120() ensures ParseDecimal("120") == Some(Decimal(120, 0)) {
    ParseInteger("120");
    assert "120"[..2] == "12" && "12"[..1] == "1";
  }

  lemma Number168() ensures ParseDecimal("168") == Some(Decimal(168, 0)) {
    ParseInteger("168");
    assert "168"[..2] == "16" && "16"[..1] == "1";
  }

  lemma Number1347() ensures ParseDecimal("1347") == Some(Decimal(1347, 0)) {
    ParseInteger("1347");
    assert "1347"[..3] == "134" && "134"[..2] == "13" && "13"[..1] == "1";
  }

  /** "30.5" is 305 tenths. */
  lemma Number30Point5() ensures ParseDecimal("30.5") == Some(Decimal(305, 1)) {
    ParseWithFraction("30", "5");
    assert "30" + ['.'] + "5" == "30.5";
    assert "30" + "5" == "305";
    assert "305"[..2] == "30" && "30"[..1] == "3";
  }

  /** "15.5" is 155 tenths. */
  lemma Number15Point5() ensures ParseDecimal("15.5") == Some(Decimal(155, 1)) {
    ParseWithFraction("15", "5");
    assert "15" + ['.'] + "5" == "15.5";
    assert "15" + "5" == "155";
    assert "155"[..2] == "15" && "15"[..1] == "1";
  }

  /** "0.001" is 1 thousandth. */
  lemma Number0Point001() ensures ParseDecimal("0.001") == Some(Decimal(1, 3)) {
    ParseWithFraction("0", "001");
    assert "0" + ['.'] + "001" == "0.001";
    assert "0" + "001" == "0001";
    assert "0001"[..3] == "000" && "000"[..2] == "00" && "00"[..1] == "0";
  }

  /** "15." has no fractional digits and parses as 15. */
  lemma Number15Point() ensures ParseDecimal("15.") == Some(Decimal(15, 0)) {
    ParseWithFraction("15", []);
    assert "15" + ['.'] + [] == "15.";
    assert "15" + [] == "15";
    assert "15"[..1] == "1";
  }

  // ------------------------------------------------ segments

  lemma Segment20M()
    ensures Scan(Some("20M"), false) == Some(Empty.(minute := Some(20)))
  {
    var s := "20M";
    Number20();
    assert s[0..2] == "20" && s[2..3] == "M";
    assert Assign(Empty, "M", Decimal(20, 0), false) == Empty.(minute := Some(20));
    FoldPair(s, 0, 2, 3, Decimal(20, 0), None, false);
    FoldEnd(s, 3, Some(Empty.(minute := Some(20))), false);
  }

  lemma Segment1D()
    ensures Scan(Some("1D"), false) == Some(Empty.(day := Some(1)))
  {
    var s := "1D";
    Number1();
    assert s[0..1] == "1" && s[1..2] == "D";
    assert Assign(Empty, "D", Decimal(1, 0), false) == Empty.(day := Some(1));
    FoldPair(s, 0, 1, 2, Decimal(1, 0), None, false);
    FoldEnd(s, 2, Some(Empty.(day := Some(1))), false);
  }

  lemma Segment2H()
    ensures Scan(Some("2H"), false) == Some(Empty.(hour := Some(2)))
  {
    var s := "2H";
    Number2();
    assert s[0..1] == "2" && s[1..2] == "H";
    assert Assign(Empty, "H", Decimal(2, 0), false) == Empty.(hour := Some(2));
    FoldPair(s, 0, 1, 2, Decimal(2, 0), None, false);
    FoldEnd(s, 2, Some(Empty.(hour := Some(2))), false);
  }

  lemma Segment60D()
    ensures Scan(Some("60D"), false) == Some(Empty.(day := Some(60)))
  {
    var s := "60D";
    Number60();
    assert s[0..2] == "60" && s[2..3] == "D";
    assert Assign(Empty, "D", Decimal(60, 0), false) == Empty.(day := Some(60));
    FoldPair(s, 0, 2, 3, Decimal(60, 0), None, false);
    FoldEnd(s, 3, Some(Empty.(day := Some(60))), false);
  }

  lemma Segment1347Y()
    ensures Scan(Some("1347Y"), false) == Some(Empty.(year := Some(1347)))
  {
    var s := "1347Y";
    Number1347();
    assert s[0..4] == "1347" && s[4..5] == "Y";
    assert Assign(Empty, "Y", Decimal(1347, 0), false) == Empty.(year := Some(1347));
    FoldPair(s, 0, 4, 5, Decimal(1347, 0), None, false);
    FoldEnd(s, 5, Some(Empty.(year := Some(1347))), false);
  }

  /** "15.5Y": the year is the truncated number. */
  lemma Segment15Point5Y()
    ensures Scan(Some("15.5Y"), false) == Some(Empty.(year := Some(15)))
  {
    var s := "15.5Y";
    Number15Point5();
    assert s[0..4] == "15.5" && s[4..5] == "Y";
    assert Assign(Empty, "Y", Decimal(155, 1), false) == Empty.(year := Some(15));
    FoldPair(s, 0, 4, 5, Decimal(155, 1), None, false);
    FoldEnd(s, 5, Some(Empty.(year := Some(15))), false);
  }

  /** "0.001S": second 0 and a millisecond of nanoseconds. */
  lemma Segment0Point001S()
    ensures Scan(Some("0.001S"), false) == Some(Empty.(second := Some(0), nanosecond := Some(1_000_000)))
  {
    var s := "0.001S";
    Number0Point001();
    assert s[0..5] == "0.001" && s[5..6] == "S";
    assert Assign(Empty, "S", Decimal(1, 3), false) == Empty.(second := Some(0), nanosecond := Some(1_000_000));
    FoldPair(s, 0, 5, 6, Decimal(1, 3), None, false);
    FoldEnd(s, 6, Some(Empty.(second := Some(0), nanosecond := Some(1_000_000))), false);
  }

  /** "15.S": an accepted number with a dot and no fraction. */
  lemma Segment15PointS()
    ensures Scan(Some("15.S"), false) == Some(Empty.(second := Some(15), nanosecond := Some(0)))
  {
    var s := "15.S";
    Number15Point();
    assert s[0..3] == "15." && s[3..4] == "S";
    assert Assign(Empty, "S", Decimal(15, 0), false) == Empty.(second := Some(15), nanosecond := Some(0));
    FoldPair(s, 0, 3, 4, Decimal(15, 0), None, false);
    FoldEnd(s, 4, Some(Empty.(second := Some(15), nanosecond := Some(0))), false);
  }

  lemma Segment168H120MTail()
    ensures Fold(TurnsFrom("168H120M", 4), Some(Empty.(hour := Some(168))), false) ==
      Some(Empty.(hour := Some(168), minute := Some(120)))
  {
    var s := "168H120M";
    Number120();
    assert s[4..7] == "120" && s[7..8] == "M";
    assert Assign(Empty.(hour := Some(168)), "M", Decimal(120, 0), false) == Empty.(hour := Some(168), minute := Some(120));
    FoldPair(s, 4, 7, 8, Decimal(120, 0), Some(Empty.(hour := Some(168))), false);
    FoldEnd(s, 8, Some(Empty.(hour := Some(168), minute := Some(120))), false);
  }

  lemma Segment168H120M()
    ensures Scan(Some("168H120M"), false) == Some(Empty.(hour := Some(168), minute := Some(120)))
  {
    var s := "168H120M";
    Number168();
    assert s[0..3] == "168" && s[3..4] == "H";
    assert Assign(Empty, "H", Decimal(168, 0), false) == Empty.(hour := Some(168));
    FoldPair(s, 0, 3, 4, Decimal(168, 0), None, false);
    Segment168H120MTail();
  }

  lemma Segment1M30Point5STail()
    ensures Fold(TurnsFrom("1M30.5S", 2), Some(Empty.(minute := Some(1))), false) ==
      Some(Empty.(minute := Some(1), second := Some(30), nanosecond := Some(500_000_000)))
  {
    var s := "1M30.5S";
    var c := Empty.(minute := Some(1), second := Some(30), nanosecond := Some(500_000_000));
    Number30Point5();
    assert s[2..6] == "30.5" && s[6..7] == "S";
    assert Assign(Empty.(minute := Some(1)), "S", Decimal(305, 1), false) == c;
    FoldPair(s, 2, 6, 7, Decimal(305, 1), Some(Empty.(minute := Some(1))), false);
    FoldEnd(s, 7, Some(c), false);
  }

  lemma Segment1M30Point5S()
    ensures Scan(Some("1M30.5S"), false) ==
      Some(Empty.(minute := Some(1), second := Some(30), nanosecond := Some(500_000_000)))
  {
    var s := "1M30.5S";
    Number1();
    assert s[0..1] == "1" && s[1..2] == "M";
    assert Assign(Empty, "M", Decimal(1, 0), false) == Empty.(minute := Some(1));
    FoldPair(s, 0, 1, 2, Decimal(1, 0), None, false);
    Segment1M30Point5STail();
  }

  lemma Segment1Y2MTail()
    ensures Fold(TurnsFrom("1Y2M", 2), Some(Empty.(year := Some(1))), false) ==
      Some(Empty.(year := Some(1), minute := Some(2)))
  {
    var s := "1Y2M";
    Number2();
    assert s[2..3] == "2" && s[3..4] == "M";
    assert Assign(Empty.(year := Some(1)), "M", Decimal(2, 0), false) == Empty.(year := Some(1), minute := Some(2));
    FoldPair(s, 2, 3, 4, Decimal(2, 0), Some(Empty.(year := Some(1))), false);
    FoldEnd(s, 4, Some(Empty.(year := Some(1), minute := Some(2))), false);
  }

  /** "1Y2M" in a date segment: the M lands in minute. */
  lemma Segment1Y2M()
    ensures Scan(Some("1Y2M"), false) == Some(Empty.(year := Some(1), minute := Some(2)))
  {
    var s := "1Y2M";
    Number1();
    assert s[0..1] == "1" && s[1..2] == "Y";
    assert Assign(Empty, "Y", Decimal(1, 0), false) == Empty.(year := Some(1));
    FoldPair(s, 0, 1, 2, Decimal(1, 0), None, false);
    Segment1Y2MTail();
  }

  lemma Segment2M1YTail()
    ensures Fold(TurnsFrom("2M1Y", 2), Some(Empty.(minute := Some(2))), false) ==
      Some(Empty.(year := Some(1), minute := Some(2)))
  {
    var s := "2M1Y";
    Number1();
    assert s[2..3] == "1" && s[3..4] == "Y";
    assert Assign(Empty.(minute := Some(2)), "Y", Decimal(1, 0), false) == Empty.(year := Some(1), minute := Some(2));
    FoldPair(s, 2, 3, 4, Decimal(1, 0), Some(Empty.(minute := Some(2))), false);
    FoldEnd(s, 4, Some(Empty.(year := Some(1), minute := Some(2))), false);
  }

  /** "2M1Y": units out of order are accepted. */
  lemma Segment2M1Y()
    ensures Scan(Some("2M1Y"), false) == Some(Empty.(year := Some(1), minute := Some(2)))
  {
    var s := "2M1Y";
    Number2();
    assert s[0..1] == "2" && s[1..2] == "M";
    assert Assign(Empty, "M", Decimal(2, 0), false) == Empty.(minute := Some(2));
    FoldPair(s, 0, 1, 2, Decimal(2, 0), None, false);
    Segment2M1YTail();
  }

  lemma Segment1YM5DTail()
    ensures Fold(TurnsFrom("1YM5D", 3), Some(Empty), false) == Some(Empty.(day := Some(5)))
  {
    var s := "1YM5D";
    Number5();
    assert s[3..4] == "5" && s[4..5] == "D";
    assert Assign(Empty, "D", Decimal(5, 0), false) == Empty.(day := Some(5));
    FoldPair(s, 3, 4, 5, Decimal(5, 0), Some(Empty), false);
    FoldEnd(s, 5, Some(Empty.(day := Some(5))), false);
  }

  /** "1YM5D": the letter run "YM" is one indicator that matches no case; it
      only creates the empty record, and the year is never set. */
  lemma Segment1YM5D()
    ensures Scan(Some("1YM5D"), false) == Some(Empty.(day := Some(5)))
  {
    var s := "1YM5D";
    Number1();
    assert s[0..1] == "1" && s[1..3] == "YM";
    assert Assign(Empty, "YM", Decimal(1, 0), false) == Empty;
    FoldPair(s, 0, 1, 3, Decimal(1, 0), None, false);
    Segment1YM5DTail();
  }

  lemma Segment10H5sTail()
    ensures Fold(TurnsFrom("10H5s", 3), Some(Empty.(hour := Some(10))), false) == Some(Empty.(hour := Some(10)))
  {
    var s := "10H5s";
    assert s[3] == '5' && s[4] == 's' && |s| == 5;
    FoldWithoutLetters(s, 3, Some(Empty.(hour := Some(10))), false);
  }

  /** "10H5s": the lower-case s is skipped, so the 5 has no letter run and is
      dropped. */
  lemma Segment10H5s()
    ensures Scan(Some("10H5s"), false) == Some(Empty.(hour := Some(10)))
  {
    var s := "10H5s";
    Number10();
    assert s[0..2] == "10" && s[2..3] == "H";
    assert Assign(Empty, "H", Decimal(10, 0), false) == Empty.(hour := Some(10));
    FoldPair(s, 0, 2, 3, Decimal(10, 0), None, false);
    Segment10H5sTail();
  }

  lemma Segment2Y6M5DTail()
    ensures Fold(TurnsFrom("2Y6M5D", 4), Some(Empty.(year := Some(2), minute := Some(6))), false) ==
      Some(Empty.(year := Some(2), day := Some(5), minute := Some(6)))
  {
    var s := "2Y6M5D";
    var c := Empty.(year := Some(2), minute := Some(6));
    Number5();
    assert s[4..5] == "5" && s[5..6] == "D";
    assert Assign(c, "D", Decimal(5, 0), false) == c.(day := Some(5));
    FoldPair(s, 4, 5, 6, Decimal(5, 0), Some(c), false);
    FoldEnd(s, 6, Some(c.(day := Some(5))), false);
  }

  lemma Segment2Y6M5DMiddle()
    ensures Fold(TurnsFrom("2Y6M5D", 2), Some(Empty.(year := Some(2))), false) ==
      Some(Empty.(year := Some(2), day := Some(5), minute := Some(6)))
  {
    var s := "2Y6M5D";
    Number6();
    assert s[2..3] == "6" && s[3..4] == "M";
    assert Assign(Empty.(year := Some(2)), "M", Decimal(6, 0), false) == Empty.(year := Some(2), minute := Some(6));
    FoldPair(s, 2, 3, 4, Decimal(6, 0), Some(Empty.(year := Some(2))), false);
    Segment2Y6M5DTail();
  }

  lemma Segment2Y6M5D()
    ensures Scan(Some("2Y6M5D"), false) == Some(Empty.(year := Some(2), day := Some(5), minute := Some(6)))
  {
    var s := "2Y6M5D";
    Number2();
    assert s[0..1] == "2" && s[1..2] == "Y";
    assert Assign(Empty, "Y", Decimal(2, 0), false) == Empty.(year := Some(2));
    FoldPair(s, 0, 1, 2, Decimal(2, 0), None, false);
    Segment2Y6M5DMiddle();
  }

  lemma Segment12H35M30STail()
    ensures Fold(TurnsFrom("12H35M30S", 6), Some(Empty.(hour := Some(12), minute := Some(35))), false) ==
      Some(Empty.(hour := Some(12), minute := Some(35), second := Some(30), nanosecond := Some(0)))
  {
    var s := "12H35M30S";
    var c := Empty.(hour := Some(12), minute := Some(35));
    Number30();
    assert s[6..8] == "30" && s[8..9] == "S";
    assert Assign(c, "S", Decimal(30, 0), false) == c.(second := Some(30), nanosecond := Some(0));
    FoldPair(s, 6, 8, 9, Decimal(30, 0), Some(c), false);
    FoldEnd(s, 9, Some(c.(second := Some(30), nanosecond := Some(0))), false);
  }

  lemma Segment12H35M30SMiddle()
    ensures Fold(TurnsFrom("12H35M30S", 3), Some(Empty.(hour := Some(12))), false) ==
      Some(Empty.(hour := Some(12), minute := Some(35), second := Some(30), nanosecond := Some(0)))
  {
    var s := "12H35M30S";
    Number35();
    assert s[3..5] == "35" && s[5..6] == "M";
    assert Assign(Empty.(hour := Some(12)), "M", Decimal(35, 0), false) == Empty.(hour := Some(12), minute := Some(35));
    FoldPair(s, 3, 5, 6, Decimal(35, 0), Some(Empty.(hour := Some(12))), false);
    Segment12H35M30STail();
  }

  lemma Segment12H35M30S()
    ensures Scan(Some("12H35M30S"), false) ==
      Some(Empty.(hour := Some(12), minute := Some(35), second := Some(30), nanosecond := Some(0)))
  {
    var s := "12H35M30S";
    Number12();
    assert s[0..2] == "12" && s[2..3] == "H";
    assert Assign(Empty, "H", Decimal(12, 0), false) == Empty.(hour := Some(12));
    FoldPair(s, 0, 2, 3, Decimal(12, 0), None, false);
    Segment12H35M30SMiddle();
  }

  // ------------------------------------------------ texts the table agrees with

  /** "P" gives nil. */
  lemma ParseP()
    ensures Parse("P") == None
  {
    ParseDateOnly("P");
  }

  /** The empty text gives nil. */
  lemma ParseEmpty()
    ensures Parse("") == None
  {
    ParseWithoutLetters("");
  }

  /** "Norman" gives nil. */
  lemma ParseNorman()
    ensures Parse("Norman") == None
  {
    NormanHasNoLetters();
    ParseWithoutLetters("Norman");
  }

  lemma NormanHasNoLetters()
    ensures forall k :: 0 <= k < |"Norman"| ==> !IsUnitChar("Norman"[k])
  {
  }

  /** "PT20M" is 20 minutes. */
  lemma ParsePT20M()
    ensures Parse("PT20M") == Some(Empty.(minute := Some(20)))
  {
    assert "P" + ['T'] + "20M" == "PT20M";
    ParseDateAndTime("P", "20M");
    Segment20M();
  }

  /** "P1D" is one day. */
  lemma ParseP1D()
    ensures Parse("P1D") == Some(Empty.(day := Some(1)))
  {
    ParseDateOnly("P1D");
    assert DropFirst("P1D") == "1D";
    Segment1D();
  }

  /** "P1347Y" is 1347 years. */
  lemma ParseP1347Y()
    ensures Parse("P1347Y") == Some(Empty.(year := Some(1347)))
  {
    ParseDateOnly("P1347Y");
    assert DropFirst("P1347Y") == "1347Y";
    Segment1347Y();
  }

  /** "P1DT2H": the day from the date segment, the hour from the time one. */
  lemma ParseP1DT2H()
    ensures Parse("P1DT2H") == Some(Empty.(day := Some(1), hour := Some(2)))
  {
    assert "P1D" + ['T'] + "2H" == "P1DT2H";
    ParseDateAndTime("P1D", "2H");
    assert DropFirst("P1D") == "1D";
    Segment1D();
    Segment2H();
  }

  /** "PT168H120M": hours and minutes are not normalised. */
  lemma ParsePT168H120M()
    ensures Parse("PT168H120M") == Some(Empty.(hour := Some(168), minute := Some(120)))
  {
    assert "P" + ['T'] + "168H120M" == "PT168H120M";
    ParseDateAndTime("P", "168H120M");
    Segment168H120M();
  }

  /** "PT1M30.5S": the fraction of the seconds becomes nanoseconds. */
  lemma ParsePT1M30Point5S()
    ensures Parse("PT1M30.5S") ==
      Some(Empty.(minute := Some(1), second := Some(30), nanosecond := Some(500_000_000)))
  {
    assert "P" + ['T'] + "1M30.5S" == "PT1M30.5S";
    ParseDateAndTime("P", "1M30.5S");
    Segment1M30Point5S();
  }

  /** "PT0.001S": second 0 and 1000000 nanoseconds. */
  lemma ParsePT0Point001S()
    ensures Parse("PT0.001S") == Some(Empty.(second := Some(0), nanosecond := Some(1_000_000)))
  {
    assert "P" + ['T'] + "0.001S" == "PT0.001S";
    ParseDateAndTime("P", "0.001S");
    Segment0Point001S();
  }

  // ------------------------------------------------ texts the table expects otherwise

  /** "P20M" is 20 minutes, not 20 months. */
  lemma ParseP20M()
    ensures Parse("P20M") == Some(Empty.(minute := Some(20)))
  {
    ParseDateOnly("P20M");
    assert DropFirst("P20M") == "20M";
    Segment20M();
  }

  lemma ParseP60D()
    ensures Parse("P60D") == Some(Empty.(day := Some(60)))
  {
    ParseDateOnly("P60D");
    assert DropFirst("P60D") == "60D";
    Segment60D();
  }

  /** "-P60D" is 60 days, not -60. */
  lemma ParseMinusP60D()
    ensures Parse("-P60D") == Some(Empty.(day := Some(60)))
  {
    assert ['-', 'P'] + "60D" == "-P60D";
    assert ['P'] + "60D" == "P60D";
    ParseIgnoresSign("60D");
    ParseP60D();
  }

  /** Lower-case "pt168h120m" gives nil. */
  lemma ParseLowerCase()
    ensures Parse("pt168h120m") == None
  {
    LowerCaseHasNoLetters();
    ParseWithoutLetters("pt168h120m");
  }

  lemma LowerCaseHasNoLetters()
    ensures forall k :: 0 <= k < |"pt168h120m"| ==> !IsUnitChar("pt168h120m"[k])
  {
  }

  /** "P2Y6M5DT12H35M30S": the 6M of the date segment goes to minute and is
      replaced by the 35 of the time segment; month stays absent and the
      nanosecond count is set to 0. */
  lemma ParseFullDuration()
    ensures Parse("P2Y6M5DT12H35M30S") == Some(Components(
      Some(2), None, Some(5), Some(12), Some(35), Some(30), Some(0)))
  {
    assert "P2Y6M5D" + ['T'] + "12H35M30S" == "P2Y6M5DT12H35M30S";
    ParseDateAndTime("P2Y6M5D", "12H35M30S");
    assert DropFirst("P2Y6M5D") == "2Y6M5D";
    Segment2Y6M5D();
    Segment12H35M30S();
  }

  /** "P1Y2MT2H": the date segment's 2M sits in minute and the successful time
      scan replaces it by absent. */
  lemma ParseMinuteDropped()
    ensures Parse("P1Y2MT2H") == Some(Empty.(year := Some(1), hour := Some(2)))
  {
    assert "P1Y2M" + ['T'] + "2H" == "P1Y2MT2H";
    ParseDateAndTime("P1Y2M", "2H");
    assert DropFirst("P1Y2M") == "1Y2M";
    Segment1Y2M();
    Segment2H();
  }

  /** "PT10H5s": the lower-case unit is skipped and the 5 seconds lost. */
  lemma ParsePT10H5s()
    ensures Parse("PT10H5s") == Some(Empty.(hour := Some(10)))
  {
    assert "P" + ['T'] + "10H5s" == "PT10H5s";
    ParseDateAndTime("P", "10H5s");
    Segment10H5s();
  }

  /** "T168H120M" (no P) is accepted. */
  lemma ParseWithoutP()
    ensures Parse("T168H120M") == Some(Empty.(hour := Some(168), minute := Some(120)))
  {
    assert [] + ['T'] + "168H120M" == "T168H120M";
    ParseDateAndTime("", "168H120M");
    ScanEmpty(false);
    Segment168H120M();
  }

  /** "P1YM5D" is accepted, with the day only. */
  lemma ParseP1YM5D()
    ensures Parse("P1YM5D") == Some(Empty.(day := Some(5)))
  {
    ParseDateOnly("P1YM5D");
    assert DropFirst("P1YM5D") == "1YM5D";
    Segment1YM5D();
  }

  /** "P15.5Y" is accepted as 15 years. */
  lemma ParseFractionalYear()
    ensures Parse("P15.5Y") == Some(Empty.(year := Some(15)))
  {
    ParseDateOnly("P15.5Y");
    assert DropFirst("P15.5Y") == "15.5Y";
    Segment15Point5Y();
  }

  /** "P2M1Y" (units out of order) is accepted. */
  lemma ParseOutOfOrder()
    ensures Parse("P2M1Y") == Some(Empty.(year := Some(1), minute := Some(2)))
  {
    ParseDateOnly("P2M1Y");
    assert DropFirst("P2M1Y") == "2M1Y";
    Segment2M1Y();
  }

  /** "PT15.S" is accepted as 15 seconds. */
  lemma ParsePT15PointS()
    ensures Parse("PT15.S") == Some(Empty.(second := Some(15), nanosecond := Some(0)))
  {
    assert "P" + ['T'] + "15.S" == "PT15.S";
    ParseDateAndTime("P", "15.S");
    Segment15PointS();
  }

  /** "P20MT": the empty time piece is not scanned. */
  lemma ParseTrailingT()
    ensures Parse("P20MT") == Some(Empty.(minute := Some(20)))
  {
    assert "P20M" + ['T'] + [] == "P20MT";
    ParseDateAndTime("P20M", "");
    assert DropFirst("P20M") == "20M";
    Segment20M();
  }
}
