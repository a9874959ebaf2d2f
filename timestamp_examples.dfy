/**
 * The timestamp values of the test scripts and the mixed-format probe,
 * worked through the conversion. Each reading, shift and rendering of a
 * concrete value is its own small lemma; the examples put them together.
 */
module TimestampExamples {
  import opened Wrappers
  import opened Calendar
  import opened Timestamps

  /** A value converts to `text` when its reading, instant and local wall clock are as given. */
  lemma ConvertsTo(raw: string, z: Zones, p: Parsed, instant: DateTime, local: DateTime, text: string)
    requires Parse(raw) == Some(p)
    requires Shift(p.wall, -ZoneOf(p, z)) == instant && InPandasRange(instant)
    requires Shift(instant, z.target) == local && 0 <= local.year <= 9999 && Format(local) == text
    ensures ParseInstant(raw, z) == Some(instant)
    ensures Normalize(raw, z) == Some(text) && NormalizeOrKeep(raw, z) == text
  {
    ParseInstantOfParsed(raw, z, p);
    NormalizeOfInstant(raw, z, instant);
    LocalTextIs(instant, z.target, local);
  }

  /** The rendered wall clock of an instant, given the wall clock. */
  lemma LocalTextIs(instant: DateTime, target: Offset, local: DateTime)
    requires Valid(instant) && InPandasRange(instant) && Shift(instant, target) == local && 0 <= local.year <= 9999
    ensures LocalText(instant, target) == Format(local)
  {
  }

  // ---------------------------------------------------------------------------
  // Readings, character by character

  /** The date and time-of-day characters of a value: digits, with `-` and `:` between the fields. */
  predicate ClockDigits(s: string)
    requires |s| >= 19
  {
    IsDigit(s[0]) && IsDigit(s[1]) && IsDigit(s[2]) && IsDigit(s[3])
    && s[4] == '-' && IsDigit(s[5]) && IsDigit(s[6]) && s[7] == '-' && IsDigit(s[8]) && IsDigit(s[9])
    && IsDigit(s[11]) && IsDigit(s[12]) && s[13] == ':' && IsDigit(s[14]) && IsDigit(s[15])
    && s[16] == ':' && IsDigit(s[17]) && IsDigit(s[18])
  }

  /** The fields those characters spell, with `nano` as the sub-second part. */
  function ClockReading(s: string, nano: int): DateTime
    requires |s| >= 19 && ClockDigits(s)
  {
    DateTime(DigitValue(s[0]) * 1000 + DigitValue(s[1]) * 100 + DigitValue(s[2]) * 10 + DigitValue(s[3]),
             DigitValue(s[5]) * 10 + DigitValue(s[6]), DigitValue(s[8]) * 10 + DigitValue(s[9]),
             DigitValue(s[11]) * 10 + DigitValue(s[12]), DigitValue(s[14]) * 10 + DigitValue(s[15]),
             DigitValue(s[17]) * 10 + DigitValue(s[18]), nano)
  }

  /** A `Z` value with milliseconds whose characters spell a real date and time parses to those fields. */
  lemma ReadsIsoMillisZ(s: string, nano: int)
    requires |s| == 24 && ClockDigits(s) && s[10] == 'T' && s[19] == '.' && s[23] == 'Z'
    requires IsDigit(s[20]) && IsDigit(s[21]) && IsDigit(s[22])
    requires nano == (DigitValue(s[20]) * 100 + DigitValue(s[21]) * 10 + DigitValue(s[22])) * 1_000_000
    requires Valid(ClockReading(s, nano))
    ensures Parse(s) == Some(Parsed(ClockReading(s, nano), true))
  {
    ReadsClock(s, IsoMillisZ);
    Digits3(s, 20);
    assert Reading(s, IsoMillisZ) == ClockReading(s, nano);
    ParseByLayout(s, 1, Parsed(ClockReading(s, nano), true));
  }

  /** A `Z` value without sub-second digits whose characters spell a real date and time parses to those fields. */
  lemma ReadsIsoSecondsZ(s: string)
    requires |s| == 20 && ClockDigits(s) && s[10] == 'T' && s[19] == 'Z'
    requires Valid(ClockReading(s, 0))
    ensures Parse(s) == Some(Parsed(ClockReading(s, 0), true))
  {
    ReadsClock(s, IsoSecondsZ);
    assert Reading(s, IsoSecondsZ) == ClockReading(s, 0);
    ParseByLayout(s, 2, Parsed(ClockReading(s, 0), true));
  }

  /** An `isoformat()` value with microseconds whose characters spell a real date and time parses to those fields. */
  lemma ReadsIsoMicros(s: string, nano: int)
    requires |s| == 26 && ClockDigits(s) && s[10] == 'T' && s[19] == '.'
    requires IsDigit(s[20]) && IsDigit(s[21]) && IsDigit(s[22]) && IsDigit(s[23]) && IsDigit(s[24]) && IsDigit(s[25])
    requires nano == ((((DigitValue(s[20]) * 10 + DigitValue(s[21])) * 10 + DigitValue(s[22])) * 10
      + DigitValue(s[23])) * 10 + DigitValue(s[24])) * 10_000 + DigitValue(s[25]) * 1000
    requires Valid(ClockReading(s, nano))
    ensures Parse(s) == Some(Parsed(ClockReading(s, nano), false))
  {
    ReadsClock(s, IsoMicros);
    Digits4(s, 20);
    DigitStep(s, 20, 24);
    DigitStep(s, 20, 25);
    assert Reading(s, IsoMicros) == ClockReading(s, nano);
    ParseByLayout(s, 0, Parsed(ClockReading(s, nano), false));
  }

  /** The date and time-of-day fields of a value, read character by character. */
  lemma ReadsClock(s: string, l: Layout)
    requires Supported(l) && |s| == LayoutLength(l) && ClockDigits(s)
    ensures AllDigits(s[0..4]) && AllDigits(s[5..7]) && AllDigits(s[8..10])
    ensures AllDigits(s[11..13]) && AllDigits(s[14..16]) && AllDigits(s[17..19])
    ensures Decimal(s[0..4]) == ClockReading(s, 0).year && Decimal(s[5..7]) == ClockReading(s, 0).month
    ensures Decimal(s[8..10]) == ClockReading(s, 0).day && Decimal(s[11..13]) == ClockReading(s, 0).hour
    ensures Decimal(s[14..16]) == ClockReading(s, 0).minute && Decimal(s[17..19]) == ClockReading(s, 0).second
  {
    ReadsDate(s);
    ReadsTimeOfDay(s);
  }

  lemma ReadsDate(s: string)
    requires |s| >= 19 && ClockDigits(s)
    ensures AllDigits(s[0..4]) && AllDigits(s[5..7]) && AllDigits(s[8..10])
    ensures Decimal(s[0..4]) == ClockReading(s, 0).year && Decimal(s[5..7]) == ClockReading(s, 0).month
    ensures Decimal(s[8..10]) == ClockReading(s, 0).day
  {
    Digits4(s, 0);
    Digits2(s, 5);
    Digits2(s, 8);
  }

  lemma ReadsTimeOfDay(s: string)
    requires |s| >= 19 && ClockDigits(s)
    ensures AllDigits(s[11..13]) && AllDigits(s[14..16]) && AllDigits(s[17..19])
    ensures Decimal(s[11..13]) == ClockReading(s, 0).hour
    ensures Decimal(s[14..16]) == ClockReading(s, 0).minute && Decimal(s[17..19]) == ClockReading(s, 0).second
  {
    Digits2(s, 11);
    Digits2(s, 14);
    Digits2(s, 17);
  }

  /** Export text whose characters spell a real date and time parses to those fields. */
  lemma ReadsExportText(s: string)
    requires |s| == 19 && ClockDigits(s) && s[10] == ' ' && Valid(ClockReading(s, 0))
    ensures IsExportText(s) && Parse(s) == Some(Parsed(ClockReading(s, 0), false))
    ensures Format(ClockReading(s, 0)) == s
  {
    ReadsClock(s, SpaceSeconds);
    assert Matches(s, SpaceSeconds);
    assert Reading(s, SpaceSeconds) == ClockReading(s, 0);
    ParseByLayout(s, 3, Parsed(ClockReading(s, 0), false));
    FormatParse(s);
  }

  // ---------------------------------------------------------------------------
  // The concrete values: readings

  /** ITEM005 and the first value of the mixed-format probe. */
  lemma ReadsNaiveSample()
    ensures Parse("2025-11-28 15:09:54") == Some(Parsed(DateTime(2025, 11, 28, 15, 9, 54, 0), false))
  {
    var s := "2025-11-28 15:09:54";
    assert ClockReading(s, 0) == DateTime(2025, 11, 28, 15, 9, 54, 0);
    ReadsExportText(s);
  }

  /** ITEM004 and the second value of the probe. */
  lemma ReadsMillisSample()
    ensures Parse("2025-11-28T20:09:33.987Z") == Some(Parsed(DateTime(2025, 11, 28, 20, 9, 33, 987_000_000), true))
  {
    var s := "2025-11-28T20:09:33.987Z";
    assert ClockReading(s, 987_000_000) == DateTime(2025, 11, 28, 20, 9, 33, 987_000_000);
    ReadsIsoMillisZ(s, 987_000_000);
  }

  /** The third value of the probe. */
  lemma ReadsSecondMillisSample()
    ensures Parse("2025-11-28T20:04:12.544Z") == Some(Parsed(DateTime(2025, 11, 28, 20, 4, 12, 544_000_000), true))
  {
    var s := "2025-11-28T20:04:12.544Z";
    assert ClockReading(s, 544_000_000) == DateTime(2025, 11, 28, 20, 4, 12, 544_000_000);
    ReadsIsoMillisZ(s, 544_000_000);
  }

  /** The fourth value of the probe. */
  lemma ReadsSecondNaiveSample()
    ensures Parse("2025-11-28 15:04:11") == Some(Parsed(DateTime(2025, 11, 28, 15, 4, 11, 0), false))
  {
    var s := "2025-11-28 15:04:11";
    assert ClockReading(s, 0) == DateTime(2025, 11, 28, 15, 4, 11, 0);
    ReadsExportText(s);
  }

  /** The fifth value of the probe. */
  lemma ReadsSecondsZuluSample()
    ensures Parse("2025-11-28T15:00:00Z") == Some(Parsed(DateTime(2025, 11, 28, 15, 0, 0, 0), true))
  {
    var s := "2025-11-28T15:00:00Z";
    assert ClockReading(s, 0) == DateTime(2025, 11, 28, 15, 0, 0, 0);
    ReadsIsoSecondsZ(s);
  }

  /** A value in the `isoformat()` layout of the first test row. */
  lemma ReadsMicrosSample()
    ensures Parse("2025-11-28T15:09:54.123456") == Some(Parsed(DateTime(2025, 11, 28, 15, 9, 54, 123_456_000), false))
  {
    var s := "2025-11-28T15:09:54.123456";
    assert ClockReading(s, 123_456_000) == DateTime(2025, 11, 28, 15, 9, 54, 123_456_000);
    ReadsIsoMicros(s, 123_456_000);
  }

  /** What ITEM004 is exported as, read again. */
  lemma ReadsExportedSample()
    ensures Parse("2025-11-28 15:09:33") == Some(Parsed(DateTime(2025, 11, 28, 15, 9, 33, 0), false))
  {
    var s := "2025-11-28 15:09:33";
    assert ClockReading(s, 0) == DateTime(2025, 11, 28, 15, 9, 33, 0);
    ReadsExportText(s);
  }

  /** Early on March 1st of a leap year, in UTC. */
  lemma ReadsAfterLeapDaySample()
    ensures Parse("2024-03-01T03:30:00Z") == Some(Parsed(DateTime(2024, 3, 1, 3, 30, 0, 0), true))
  {
    var s := "2024-03-01T03:30:00Z";
    assert ClockReading(s, 0) == DateTime(2024, 3, 1, 3, 30, 0, 0);
    ReadsIsoSecondsZ(s);
  }

  // ---------------------------------------------------------------------------
  // The concrete values: instants and wall clocks

  lemma NaiveSampleShifts()
    ensures Shift(DateTime(2025, 11, 28, 15, 9, 54, 0), -0) == DateTime(2025, 11, 28, 15, 9, 54, 0)
    ensures Shift(DateTime(2025, 11, 28, 15, 9, 54, 0), Bogota) == DateTime(2025, 11, 28, 10, 9, 54, 0)
    ensures InPandasRange(DateTime(2025, 11, 28, 15, 9, 54, 0))
  {
  }

  lemma NaiveLocalSampleShifts()
    ensures Shift(DateTime(2025, 11, 28, 15, 9, 54, 0), -Bogota) == DateTime(2025, 11, 28, 20, 9, 54, 0)
    ensures Shift(DateTime(2025, 11, 28, 20, 9, 54, 0), Bogota) == DateTime(2025, 11, 28, 15, 9, 54, 0)
    ensures InPandasRange(DateTime(2025, 11, 28, 20, 9, 54, 0))
  {
  }

  lemma MillisSampleShifts()
    ensures Shift(DateTime(2025, 11, 28, 20, 9, 33, 987_000_000), -0) == DateTime(2025, 11, 28, 20, 9, 33, 987_000_000)
    ensures Shift(DateTime(2025, 11, 28, 20, 9, 33, 987_000_000), Bogota) == DateTime(2025, 11, 28, 15, 9, 33, 987_000_000)
    ensures InPandasRange(DateTime(2025, 11, 28, 20, 9, 33, 987_000_000))
  {
  }

  lemma ExportedSampleShifts()
    ensures Shift(DateTime(2025, 11, 28, 15, 9, 33, 0), -0) == DateTime(2025, 11, 28, 15, 9, 33, 0)
    ensures Shift(DateTime(2025, 11, 28, 15, 9, 33, 0), Bogota) == DateTime(2025, 11, 28, 10, 9, 33, 0)
    ensures InPandasRange(DateTime(2025, 11, 28, 15, 9, 33, 0))
  {
  }

  lemma SecondMillisSampleShifts()
    ensures Shift(DateTime(2025, 11, 28, 20, 4, 12, 544_000_000), -0) == DateTime(2025, 11, 28, 20, 4, 12, 544_000_000)
    ensures InPandasRange(DateTime(2025, 11, 28, 20, 4, 12, 544_000_000))
  {
  }

  lemma SecondNaiveSampleShifts()
    ensures Shift(DateTime(2025, 11, 28, 15, 4, 11, 0), -0) == DateTime(2025, 11, 28, 15, 4, 11, 0)
    ensures InPandasRange(DateTime(2025, 11, 28, 15, 4, 11, 0))
  {
  }

  lemma SecondsZuluSampleShifts()
    ensures Shift(DateTime(2025, 11, 28, 15, 0, 0, 0), -0) == DateTime(2025, 11, 28, 15, 0, 0, 0)
    ensures InPandasRange(DateTime(2025, 11, 28, 15, 0, 0, 0))
  {
  }

  lemma MicrosSampleShifts()
    ensures Shift(DateTime(2025, 11, 28, 15, 9, 54, 123_456_000), -0) == DateTime(2025, 11, 28, 15, 9, 54, 123_456_000)
    ensures InPandasRange(DateTime(2025, 11, 28, 15, 9, 54, 123_456_000))
  {
  }

  /** Five hours back from 03:30 on March 1st of a leap year is 22:30 on February 29th. */
  lemma LeapDaySampleShifts()
    ensures Shift(DateTime(2024, 3, 1, 3, 30, 0, 0), -0) == DateTime(2024, 3, 1, 3, 30, 0, 0)
    ensures Shift(DateTime(2024, 3, 1, 3, 30, 0, 0), Bogota) == DateTime(2024, 2, 29, 22, 30, 0, 0)
    ensures InPandasRange(DateTime(2024, 3, 1, 3, 30, 0, 0))
  {
  }

  lemma FormatsNaiveSampleAsWritten()
    ensures Format(DateTime(2025, 11, 28, 10, 9, 54, 0)) == "2025-11-28 10:09:54"
  {
    var s := "2025-11-28 10:09:54";
    assert ClockReading(s, 0) == DateTime(2025, 11, 28, 10, 9, 54, 0);
    ReadsExportText(s);
  }

  lemma FormatsNaiveSample()
    ensures Format(DateTime(2025, 11, 28, 15, 9, 54, 0)) == "2025-11-28 15:09:54"
  {
    var s := "2025-11-28 15:09:54";
    assert ClockReading(s, 0) == DateTime(2025, 11, 28, 15, 9, 54, 0);
    ReadsExportText(s);
  }

  lemma FormatsMillisSample()
    ensures Format(DateTime(2025, 11, 28, 15, 9, 33, 987_000_000)) == "2025-11-28 15:09:33"
  {
    var s := "2025-11-28 15:09:33";
    assert ClockReading(s, 0) == DateTime(2025, 11, 28, 15, 9, 33, 0);
    ReadsExportText(s);
    FormatDropsNano(DateTime(2025, 11, 28, 15, 9, 33, 987_000_000));
  }

  lemma FormatsExportedSample()
    ensures Format(DateTime(2025, 11, 28, 10, 9, 33, 0)) == "2025-11-28 10:09:33"
  {
    var s := "2025-11-28 10:09:33";
    assert ClockReading(s, 0) == DateTime(2025, 11, 28, 10, 9, 33, 0);
    ReadsExportText(s);
  }

  lemma FormatsLeapDaySample()
    ensures Format(DateTime(2024, 2, 29, 22, 30, 0, 0)) == "2024-02-29 22:30:00"
  {
    var s := "2024-02-29 22:30:00";
    assert ClockReading(s, 0) == DateTime(2024, 2, 29, 22, 30, 0, 0);
    ReadsExportText(s);
  }

  // ---------------------------------------------------------------------------
  // The examples

  /** ITEM004: the ISO value with milliseconds and `Z` becomes Bogota time, five hours earlier, whichever policy. */
  lemma IsoMillisZuluConverts(z: Zones)
    requires z.target == Bogota
    ensures Normalize("2025-11-28T20:09:33.987Z", z) == Some("2025-11-28 15:09:33")
  {
    ReadsMillisSample();
    MillisSampleShifts();
    FormatsMillisSample();
    ConvertsTo("2025-11-28T20:09:33.987Z", z, Parsed(DateTime(2025, 11, 28, 20, 9, 33, 987_000_000), true), DateTime(2025, 11, 28, 20, 9, 33, 987_000_000),
      DateTime(2025, 11, 28, 15, 9, 33, 987_000_000), "2025-11-28 15:09:33");
  }

  /** ITEM005 as written: the naive value is read as UTC and moved five hours back. */
  lemma NaiveAsWrittenConverts()
    ensures Normalize("2025-11-28 15:09:54", AsWritten) == Some("2025-11-28 10:09:54")
  {
    ReadsNaiveSample();
    NaiveSampleShifts();
    FormatsNaiveSampleAsWritten();
    ConvertsTo("2025-11-28 15:09:54", AsWritten, Parsed(DateTime(2025, 11, 28, 15, 9, 54, 0), false), DateTime(2025, 11, 28, 15, 9, 54, 0),
      DateTime(2025, 11, 28, 10, 9, 54, 0), "2025-11-28 10:09:54");
  }

  /** ITEM005 with naive values taken as Bogota wall clock: it stays as it is. */
  lemma NaiveLocalKeepsWallClock()
    ensures Normalize("2025-11-28 15:09:54", NaiveLocal) == Some("2025-11-28 15:09:54")
  {
    ReadsNaiveSample();
    NaiveLocalSampleShifts();
    FormatsNaiveSample();
    ConvertsTo("2025-11-28 15:09:54", NaiveLocal, Parsed(DateTime(2025, 11, 28, 15, 9, 54, 0), false), DateTime(2025, 11, 28, 20, 9, 54, 0),
      DateTime(2025, 11, 28, 15, 9, 54, 0), "2025-11-28 15:09:54");
  }

  /**
   * As written, converting is not idempotent: a second pass over an exported
   * value reads it as UTC and moves it five more hours back.
   */
  lemma AsWrittenNotIdempotent()
    ensures NormalizeOrKeep("2025-11-28T20:09:33.987Z", AsWritten) == "2025-11-28 15:09:33"
    ensures NormalizeOrKeep("2025-11-28 15:09:33", AsWritten) == "2025-11-28 10:09:33"
  {
    IsoMillisZuluConverts(AsWritten);
    ExportedTextMovesAgain();
  }

  /** The exported text of the ISO sample, read again as written, moves five more hours back. */
  lemma ExportedTextMovesAgain()
    ensures NormalizeOrKeep("2025-11-28 15:09:33", AsWritten) == "2025-11-28 10:09:33"
  {
    ReadsExportedSample();
    ExportedSampleShifts();
    FormatsExportedSample();
    ConvertsTo("2025-11-28 15:09:33", AsWritten, Parsed(DateTime(2025, 11, 28, 15, 9, 33, 0), false), DateTime(2025, 11, 28, 15, 9, 33, 0),
      DateTime(2025, 11, 28, 10, 9, 33, 0), "2025-11-28 10:09:33");
  }

  /** A UTC instant early on March 1st lands on the previous day, the leap day. */
  lemma LeapDayBorrow()
    ensures Normalize("2024-03-01T03:30:00Z", AsWritten) == Some("2024-02-29 22:30:00")
  {
    ReadsAfterLeapDaySample();
    LeapDaySampleShifts();
    FormatsLeapDaySample();
    ConvertsTo("2024-03-01T03:30:00Z", AsWritten, Parsed(DateTime(2024, 3, 1, 3, 30, 0, 0), true), DateTime(2024, 3, 1, 3, 30, 0, 0),
      DateTime(2024, 2, 29, 22, 30, 0, 0), "2024-02-29 22:30:00");
  }

  /** The third value of the mixed-format probe converts: it does not become NaT. */
  lemma ThirdProbeValueConverts()
    ensures ParseInstant("2025-11-28T20:04:12.544Z", AsWritten) == Some(DateTime(2025, 11, 28, 20, 4, 12, 544_000_000))
  {
    ReadsSecondMillisSample();
    SecondMillisSampleShifts();
    ParseInstantOfParsed("2025-11-28T20:04:12.544Z", AsWritten, Parsed(DateTime(2025, 11, 28, 20, 4, 12, 544_000_000), true));
  }

  /** The fourth value of the mixed-format probe converts. */
  lemma FourthProbeValueConverts()
    ensures ParseInstant("2025-11-28 15:04:11", AsWritten) == Some(DateTime(2025, 11, 28, 15, 4, 11, 0))
  {
    ReadsSecondNaiveSample();
    SecondNaiveSampleShifts();
    ParseInstantOfParsed("2025-11-28 15:04:11", AsWritten, Parsed(DateTime(2025, 11, 28, 15, 4, 11, 0), false));
  }

  /** The fifth value of the mixed-format probe converts. */
  lemma FifthProbeValueConverts()
    ensures ParseInstant("2025-11-28T15:00:00Z", AsWritten) == Some(DateTime(2025, 11, 28, 15, 0, 0, 0))
  {
    ReadsSecondsZuluSample();
    SecondsZuluSampleShifts();
    ParseInstantOfParsed("2025-11-28T15:00:00Z", AsWritten, Parsed(DateTime(2025, 11, 28, 15, 0, 0, 0), true));
  }

  /** ITEM001 as written: the `isoformat()` value is read as UTC, moved five hours back, microseconds dropped. */
  lemma IsoMicrosExported()
    ensures Normalize("2025-11-28T15:09:54.123456", AsWritten) == Some("2025-11-28 10:09:54")
  {
    ReadsMicrosSample();
    MicrosSampleShifts();
    MicrosSampleLocal();
    FormatsMicrosSample();
    ConvertsTo("2025-11-28T15:09:54.123456", AsWritten, Parsed(DateTime(2025, 11, 28, 15, 9, 54, 123_456_000), false),
      DateTime(2025, 11, 28, 15, 9, 54, 123_456_000), DateTime(2025, 11, 28, 10, 9, 54, 123_456_000), "2025-11-28 10:09:54");
  }

  lemma MicrosSampleLocal()
    ensures Shift(DateTime(2025, 11, 28, 15, 9, 54, 123_456_000), Bogota) == DateTime(2025, 11, 28, 10, 9, 54, 123_456_000)
  {
  }

  lemma FormatsMicrosSample()
    ensures Format(DateTime(2025, 11, 28, 10, 9, 54, 123_456_000)) == "2025-11-28 10:09:54"
  {
    FormatsNaiveSampleAsWritten();
    FormatDropsNano(DateTime(2025, 11, 28, 10, 9, 54, 123_456_000));
  }

  // ---------------------------------------------------------------------------
  // Values that do not convert

  lemma EmptyKept(z: Zones)
    ensures Normalize("", z).None? && NormalizeOrKeep("", z) == ""
  {
    ParseFirstSpec("", Layouts);
  }

  lemma InvalidKept(z: Zones)
    ensures Normalize("INVALID-DATE-STRING", z).None?
    ensures NormalizeOrKeep("INVALID-DATE-STRING", z) == "INVALID-DATE-STRING"
  {
    var s := "INVALID-DATE-STRING";
    ParseFirstSpec(s, Layouts);
    assert !IsDigit(s[0]);
    assert !AllDigits(s[0..4]);
  }

}
