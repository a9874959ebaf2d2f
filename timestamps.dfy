/**
 * The per-value timestamp conversion of the export:
 *
 *   pd.to_datetime(raw, utc=True, errors='coerce', format='mixed')
 *     .dt.tz_convert("America/Bogota").dt.strftime("%Y-%m-%d %H:%M:%S")
 *
 * restricted to the four layouts the count records carry. A string either
 * parses to a UTC instant (`ParseInstant`) or becomes NaT (`None`); an instant
 * is rendered as the target zone's wall clock (`LocalText`). `NormalizeOrKeep`
 * adds the fallback of verify_dates_mixed.py: a value that does not convert is
 * kept verbatim.
 */
module Timestamps {
  import opened Wrappers
  import opened Calendar

  // ---------------------------------------------------------------------------
  // Zones

  /** A fixed UTC offset in seconds, less than a day either way. */
  type Offset = x: int | -86400 < x < 86400

  /** America/Bogota: UTC-05:00, no daylight saving. */
  const Bogota: Offset := -5 * 3600

  /**
   * The export's zone (`target`) and the offset assumed for a string with no
   * UTC designator (`naive`).
   */
  datatype Zones = Zones(target: Offset, naive: Offset)

  /** What the scripts do: `utc=True` reads a naive string as UTC. */
  const AsWritten: Zones := Zones(Bogota, 0)

  /** The alternative policy: a naive string is already Bogota wall-clock time. */
  const NaiveLocal: Zones := Zones(Bogota, Bogota)

  // ---------------------------------------------------------------------------
  // Digits

  predicate IsDigit(c: char) {
    '0' <= c <= '9'
  }

  predicate AllDigits(s: string) {
    forall i | 0 <= i < |s| :: IsDigit(s[i])
  }

  function DigitValue(c: char): (n: int)
    requires IsDigit(c)
    ensures 0 <= n < 10
  {
    c as int - '0' as int
  }

  function DigitChar(n: int): (c: char)
    requires 0 <= n < 10
    ensures IsDigit(c) && DigitValue(c) == n
  {
    ('0' as int + n) as char
  }

  /** The decimal number a run of digits spells. */
  function Decimal(s: string): (n: nat)
    requires AllDigits(s)
    ensures n < Pow10(|s|)
  {
    if s == [] then 0 else Decimal(s[..|s| - 1]) * 10 + DigitValue(s[|s| - 1])
  }

  function Pow10(k: nat): (p: nat)
    ensures p >= 1
  {
    if k == 0 then 1 else 10 * Pow10(k - 1)
  }

  /** `n` as exactly `width` zero-padded digits. */
  function Padded(n: nat, width: nat): (s: string)
    requires n < Pow10(width)
    ensures |s| == width && AllDigits(s)
    ensures Decimal(s) == n
  {
    if width == 0 then []
    else
      assert n / 10 < Pow10(width - 1);
      var s := Padded(n / 10, width - 1) + [DigitChar(n % 10)];
      assert s[..|s| - 1] == Padded(n / 10, width - 1);
      s
  }

  /** Padding the number a digit run spells gives the run back. */
  lemma PaddedDecimal(s: string)
    requires AllDigits(s)
    ensures Padded(Decimal(s), |s|) == s
  {
    DecimalInjective(Padded(Decimal(s), |s|), s);
  }

  /** Two digit runs of one length that spell the same number are the same run. */
  lemma {:induction false} DecimalInjective(s: string, t: string)
    requires AllDigits(s) && AllDigits(t) && |s| == |t|
    requires Decimal(s) == Decimal(t)
    ensures s == t
  {
    if s != [] {
      var s0, t0 := s[..|s| - 1], t[..|t| - 1];
      assert AllDigits(s0) by {
        forall k | 0 <= k < |s0| ensures IsDigit(s0[k]) { assert s0[k] == s[k]; }
      }
      assert AllDigits(t0) by {
        forall k | 0 <= k < |t0| ensures IsDigit(t0[k]) { assert t0[k] == t[k]; }
      }
      var d, e := DigitValue(s[|s| - 1]), DigitValue(t[|t| - 1]);
      LastDigit(Decimal(s0), d);
      LastDigit(Decimal(t0), e);
      DecimalInjective(s0, t0);
      DigitRoundTrip(s[|s| - 1]);
      DigitRoundTrip(t[|t| - 1]);
      assert s == s0 + [s[|s| - 1]] && t == t0 + [t[|t| - 1]];
    }
  }

  /** A digit's value written back as a digit is that digit. */
  lemma DigitRoundTrip(c: char)
    requires IsDigit(c)
    ensures DigitChar(DigitValue(c)) == c
  {
  }

  /** Appending digit `d` to `a` and splitting off the last digit again gives back `a` and `d`. */
  lemma LastDigit(a: nat, d: nat)
    requires d < 10
    ensures (a * 10 + d) / 10 == a && (a * 10 + d) % 10 == d
  {
  }

  /** A digit run grows one digit at a time: its value is the shorter run's times ten plus the new digit. */
  lemma DigitStep(s: string, i: nat, j: nat)
    requires i <= j < |s|
    ensures AllDigits(s[i..j + 1]) <==> AllDigits(s[i..j]) && IsDigit(s[j])
    ensures AllDigits(s[i..j + 1]) ==> Decimal(s[i..j + 1]) == Decimal(s[i..j]) * 10 + DigitValue(s[j])
  {
    var f := s[i..j + 1];
    assert f[..|f| - 1] == s[i..j];
    assert f[|f| - 1] == s[j];
    if AllDigits(s[i..j]) && IsDigit(s[j]) {
      forall k | 0 <= k < |f|
        ensures IsDigit(f[k])
      {
        if k < |f| - 1 {
          assert f[k] == s[i..j][k];
        }
      }
    }
    if AllDigits(f) {
      forall k | 0 <= k < j - i
        ensures IsDigit(s[i..j][k])
      {
        assert s[i..j][k] == f[k];
      }
    }
  }

  /** The two digits at `i`, character by character. */
  lemma Digits2(s: string, i: nat)
    requires i + 2 <= |s| && IsDigit(s[i]) && IsDigit(s[i + 1])
    ensures AllDigits(s[i..i + 2]) && Decimal(s[i..i + 2]) == DigitValue(s[i]) * 10 + DigitValue(s[i + 1])
  {
    DigitStep(s, i, i);
    DigitStep(s, i, i + 1);
  }

  /** The three digits at `i`, character by character. */
  lemma Digits3(s: string, i: nat)
    requires i + 3 <= |s| && IsDigit(s[i]) && IsDigit(s[i + 1]) && IsDigit(s[i + 2])
    ensures AllDigits(s[i..i + 3])
    ensures Decimal(s[i..i + 3]) == DigitValue(s[i]) * 100 + DigitValue(s[i + 1]) * 10 + DigitValue(s[i + 2])
  {
    Digits2(s, i);
    DigitStep(s, i, i + 2);
  }

  /** The four digits at `i`, character by character. */
  lemma Digits4(s: string, i: nat)
    requires i + 4 <= |s| && IsDigit(s[i]) && IsDigit(s[i + 1]) && IsDigit(s[i + 2]) && IsDigit(s[i + 3])
    ensures AllDigits(s[i..i + 4])
    ensures Decimal(s[i..i + 4]) == Decimal(s[i..i + 3]) * 10 + DigitValue(s[i + 3])
    ensures Decimal(s[i..i + 3]) == DigitValue(s[i]) * 100 + DigitValue(s[i + 1]) * 10 + DigitValue(s[i + 2])
  {
    Digits3(s, i);
    DigitStep(s, i, i + 3);
  }

  // ---------------------------------------------------------------------------
  // Layouts

  /**
   * One accepted layout: `YYYY-MM-DD`, the separator, `HH:MM:SS`, then `.`
   * and `fractionDigits` digits when that is positive, then `Z` when
   * `utcDesignator` holds.
   */
  datatype Layout = Layout(separator: char, fractionDigits: nat, utcDesignator: bool)

  const SpaceSeconds: Layout := Layout(' ', 0, false)   // 2025-11-28 15:09:54
  const IsoMillisZ: Layout := Layout('T', 3, true)      // 2025-11-28T20:09:33.987Z
  const IsoSecondsZ: Layout := Layout('T', 0, true)     // 2025-11-28T15:00:00Z
  const IsoMicros: Layout := Layout('T', 6, false)      // 2025-11-28T15:09:54.123456 (isoformat())

  /** The layouts, tried in this order, most specific first. */
  const Layouts: seq<Layout> := [IsoMicros, IsoMillisZ, IsoSecondsZ, SpaceSeconds]

  function LayoutLength(l: Layout): nat {
    19 + (if l.fractionDigits > 0 then 1 + l.fractionDigits else 0) + (if l.utcDesignator then 1 else 0)
  }

  predicate Matches(s: string, l: Layout)
    requires |s| == LayoutLength(l)
  {
    AllDigits(s[0..4]) && s[4] == '-' && AllDigits(s[5..7]) && s[7] == '-' && AllDigits(s[8..10])
    && s[10] == l.separator
    && AllDigits(s[11..13]) && s[13] == ':' && AllDigits(s[14..16]) && s[16] == ':' && AllDigits(s[17..19])
    && (l.fractionDigits > 0 ==> s[19] == '.' && AllDigits(s[20..20 + l.fractionDigits]))
    && (l.utcDesignator ==> s[|s| - 1] == 'Z')
  }

  /** A parsed wall-clock reading, and whether it carried a `Z`. */
  datatype Parsed = Parsed(wall: DateTime, utc: bool)

  /** The layouts the export meets show no, three or six sub-second digits. */
  predicate Supported(l: Layout) {
    l.fractionDigits == 0 || l.fractionDigits == 3 || l.fractionDigits == 6
  }

  /** Nanoseconds per unit of the last sub-second digit shown (a second when none is). */
  function Scale(l: Layout): (n: nat)
    requires Supported(l)
    ensures n * Pow10(l.fractionDigits) == 1_000_000_000
  {
    assert Pow10(3) == 1000 && Pow10(6) == 1_000_000;
    if l.fractionDigits == 0 then 1_000_000_000
    else if l.fractionDigits == 3 then 1_000_000
    else 1000
  }

  /** The sub-second digits, scaled to nanoseconds (".987" is 987000000). */
  function FractionNanos(s: string, l: Layout): (n: nat)
    requires Supported(l) && |s| == LayoutLength(l) && Matches(s, l)
    ensures n < 1_000_000_000 && n % Scale(l) == 0
  {
    if l.fractionDigits == 0 then 0
    else
      assert Pow10(3) == 1000 && Pow10(6) == 1_000_000;
      Decimal(s[20..20 + l.fractionDigits]) * Scale(l)
  }

  /** The fields of a string in layout `l`, read as numbers. */
  function Reading(s: string, l: Layout): (t: DateTime)
    requires Supported(l) && |s| == LayoutLength(l) && Matches(s, l)
    ensures 0 <= t.year <= 9999 && 0 <= t.month < 100 && 0 <= t.day < 100
    ensures 0 <= t.hour < 100 && 0 <= t.minute < 100 && 0 <= t.second < 100
    ensures 0 <= t.nano < 1_000_000_000
  {
    assert Pow10(4) == 10000 && Pow10(2) == 100;
    DateTime(Decimal(s[0..4]), Decimal(s[5..7]), Decimal(s[8..10]),
             Decimal(s[11..13]), Decimal(s[14..16]), Decimal(s[17..19]),
             FractionNanos(s, l))
  }

  /** Reads `s` in layout `l`; None unless the layout fits and the fields name a real date and time. */
  function ParseLayout(s: string, l: Layout): (r: Option<Parsed>)
    requires Supported(l)
    ensures r.Some? ==> |s| == LayoutLength(l) && Valid(r.value.wall) && r.value.utc == l.utcDesignator
    ensures r.Some? ==> 0 <= r.value.wall.year <= 9999
  {
    if |s| != LayoutLength(l) || !Matches(s, l) then None
    else if Valid(Reading(s, l)) then Some(Parsed(Reading(s, l), l.utcDesignator))
    else None
  }

  /** The first layout of `ls` that reads `s`. */
  function ParseFirst(s: string, ls: seq<Layout>): (r: Option<Parsed>)
    requires forall i | 0 <= i < |ls| :: Supported(ls[i])
    ensures r.Some? ==> Valid(r.value.wall) && 0 <= r.value.wall.year <= 9999
  {
    if ls == [] then None
    else
      var r := ParseLayout(s, ls[0]);
      if r.Some? then r else ParseFirst(s, ls[1..])
  }

  /** `ParseFirst` gives the reading of some layout of `ls`, and None only when none reads `s`. */
  lemma {:induction false} ParseFirstSpec(s: string, ls: seq<Layout>)
    requires forall i | 0 <= i < |ls| :: Supported(ls[i])
    ensures ParseFirst(s, ls).Some? ==> exists i | 0 <= i < |ls| :: ParseLayout(s, ls[i]) == ParseFirst(s, ls)
    ensures ParseFirst(s, ls).None? <==> forall i | 0 <= i < |ls| :: ParseLayout(s, ls[i]).None?
  {
    if ls != [] {
      ParseFirstSpec(s, ls[1..]);
      if ParseLayout(s, ls[0]).None? {
        forall i | 0 <= i < |ls| && ParseLayout(s, ls[i]).Some?
          ensures 1 <= i && ParseLayout(s, ls[1..][i - 1]) == ParseLayout(s, ls[i])
        {
        }
        if ParseFirst(s, ls).Some? {
          var j :| 0 <= j < |ls| - 1 && ParseLayout(s, ls[1..][j]) == ParseFirst(s, ls);
          assert ParseLayout(s, ls[j + 1]) == ParseFirst(s, ls);
        }
      }
    }
  }

  /** The reading of `s` in the first of the four layouts that reads it. */
  function Parse(s: string): (r: Option<Parsed>)
    ensures r.Some? ==> Valid(r.value.wall) && 0 <= r.value.wall.year <= 9999
  {
    ParseFirst(s, Layouts)
  }

  /**
   * The layouts have different lengths, so at most one of them reads any
   * string: the order in which they are tried does not matter.
   */
  lemma LayoutsExclusive(s: string, i: int, j: int)
    requires 0 <= i < j < |Layouts|
    ensures ParseLayout(s, Layouts[i]).None? || ParseLayout(s, Layouts[j]).None?
  {
  }

  /** A string parses exactly when one of the layouts reads it, and then it gives that reading. */
  lemma ParseIsSomeLayout(s: string, p: Parsed)
    ensures Parse(s) == Some(p) <==> exists i | 0 <= i < |Layouts| :: ParseLayout(s, Layouts[i]) == Some(p)
  {
    ParseFirstSpec(s, Layouts);
    if exists i | 0 <= i < |Layouts| :: ParseLayout(s, Layouts[i]) == Some(p) {
      var i :| 0 <= i < |Layouts| && ParseLayout(s, Layouts[i]) == Some(p);
      var j :| 0 <= j < |Layouts| && ParseLayout(s, Layouts[j]) == Parse(s);
      if i < j {
        LayoutsExclusive(s, i, j);
      } else if j < i {
        LayoutsExclusive(s, j, i);
      }
    }
  }

  /**
   * Only strings of the four layouts' lengths parse, and only those that open
   * with a four-digit year and a dash.
   */
  lemma ParseLength(s: string)
    requires Parse(s).Some?
    ensures |s| == 19 || |s| == 20 || |s| == 24 || |s| == 26
    ensures IsDigit(s[0]) && IsDigit(s[1]) && IsDigit(s[2]) && IsDigit(s[3]) && s[4] == '-'
  {
    ParseFirstSpec(s, Layouts);
    var i :| 0 <= i < |Layouts| && ParseLayout(s, Layouts[i]) == Parse(s);
    ReadOpensWithYear(s, Layouts[i]);
  }

  /** A layout reads only text that opens with four digits and a dash. */
  lemma ReadOpensWithYear(s: string, l: Layout)
    requires Supported(l) && ParseLayout(s, l).Some?
    ensures |s| == LayoutLength(l)
    ensures IsDigit(s[0]) && IsDigit(s[1]) && IsDigit(s[2]) && IsDigit(s[3]) && s[4] == '-'
  {
    assert Matches(s, l);
    assert forall k | 0 <= k < 4 :: s[0..4][k] == s[k];
  }

  // ---------------------------------------------------------------------------
  // pandas' representable range

  /** pandas stores a Timestamp as a signed 64-bit count of nanoseconds; the least value is NaT. */
  const MinNanos: int := -0x7FFF_FFFF_FFFF_FFFF
  const MaxNanos: int := 0x7FFF_FFFF_FFFF_FFFF

  predicate InPandasRange(t: DateTime)
    requires 1 <= t.month <= 12
  {
    MinNanos <= EpochNanos(t) <= MaxNanos
  }

  /** Timestamp.min is 1677-09-21 00:12:43.145224193 and Timestamp.max is 2262-04-11 23:47:16.854775807. */
  lemma PandasBoundsAsDates()
    ensures EpochNanos(DateTime(1677, 9, 21, 0, 12, 43, 145224193)) == MinNanos
    ensures EpochNanos(DateTime(2262, 4, 11, 23, 47, 16, 854775807)) == MaxNanos
  {
  }

  /** Every representable instant falls in the years 1677 to 2262. */
  lemma PandasRangeYears(t: DateTime)
    requires Valid(t) && InPandasRange(t)
    ensures 1677 <= t.year <= 2262
  {
    DayWithinYear(t);
    if t.year < 1677 {
      DaysBeforeYearGrows(t.year, 1677);
      YearStep(t.year);
      assert false;
    }
    if t.year > 2262 {
      DaysBeforeYearGrows(2263, t.year);
      assert false;
    }
  }

  // ---------------------------------------------------------------------------
  // Rendering: the inverse of parsing, and strftime("%Y-%m-%d %H:%M:%S")

  /** `t` with its sub-second part cut to the digits layout `l` shows. */
  function Truncated(t: DateTime, l: Layout): (r: DateTime)
    requires Supported(l)
    ensures r.nano <= t.nano && r.nano % Scale(l) == 0
    ensures 0 <= t.nano ==> t.nano - r.nano < Scale(l)
  {
    t.(nano := t.nano / Scale(l) * Scale(l))
  }

  /** The sub-second digits of `nano` that layout `l` shows, truncated. */
  function FractionText(nano: int, l: Layout): (r: string)
    requires Supported(l) && 0 <= nano < 1_000_000_000
    ensures |r| == l.fractionDigits && AllDigits(r)
    ensures Decimal(r) * Scale(l) == nano / Scale(l) * Scale(l)
  {
    assert Pow10(3) == 1000 && Pow10(6) == 1_000_000;
    if l.fractionDigits == 0 then [] else Padded(nano / Scale(l), l.fractionDigits)
  }

  /** `YYYY-MM-DD`. */
  function DateText(t: DateTime): (r: string)
    requires Valid(t) && 0 <= t.year <= 9999
    ensures |r| == 10
    ensures r[0..4] == Padded(t.year, 4) && r[4] == '-' && r[5..7] == Padded(t.month, 2) && r[7] == '-'
    ensures r[8..10] == Padded(t.day, 2)
  {
    assert Pow10(4) == 10000 && Pow10(2) == 100;
    Padded(t.year, 4) + "-" + Padded(t.month, 2) + "-" + Padded(t.day, 2)
  }

  /** `HH:MM:SS`. */
  function ClockText(t: DateTime): (r: string)
    requires Valid(t)
    ensures |r| == 8
    ensures r[0..2] == Padded(t.hour, 2) && r[2] == ':' && r[3..5] == Padded(t.minute, 2) && r[5] == ':'
    ensures r[6..8] == Padded(t.second, 2)
  {
    assert Pow10(2) == 100;
    Padded(t.hour, 2) + ":" + Padded(t.minute, 2) + ":" + Padded(t.second, 2)
  }

  /** `.` and the sub-second digits when the layout shows them, then `Z` when it carries one. */
  function TailText(t: DateTime, l: Layout): (r: string)
    requires Valid(t) && Supported(l)
    ensures |r| == LayoutLength(l) - 19
    ensures l.fractionDigits > 0 ==> r[0] == '.' && r[1..1 + l.fractionDigits] == FractionText(t.nano, l)
    ensures l.utcDesignator ==> r[|r| - 1] == 'Z'
  {
    var frac := if l.fractionDigits > 0 then "." + FractionText(t.nano, l) else "";
    assert l.fractionDigits > 0 ==> frac[1..] == FractionText(t.nano, l);
    frac + (if l.utcDesignator then "Z" else "")
  }

  /** `t` written in layout `l`, the sub-second part truncated to the layout's digits. */
  function Render(t: DateTime, l: Layout): (r: string)
    requires Valid(t) && 0 <= t.year <= 9999 && Supported(l)
    ensures |r| == LayoutLength(l)
  {
    DateText(t) + [l.separator] + ClockText(t) + TailText(t, l)
  }

  /** Where the date fields of `t` sit in its rendering. */
  lemma RenderDate(t: DateTime, l: Layout)
    requires Valid(t) && 0 <= t.year <= 9999 && Supported(l)
    ensures var r := Render(t, l);
      && r[0..4] == Padded(t.year, 4) && r[4] == '-' && r[5..7] == Padded(t.month, 2) && r[7] == '-'
      && r[8..10] == Padded(t.day, 2) && r[10] == l.separator
  {
    var r, d := Render(t, l), DateText(t);
    assert r[..10] == d;
    assert r[0..4] == d[0..4] && r[5..7] == d[5..7] && r[8..10] == d[8..10];
  }

  /** Where the time-of-day fields of `t` sit in its rendering. */
  lemma RenderClock(t: DateTime, l: Layout)
    requires Valid(t) && 0 <= t.year <= 9999 && Supported(l)
    ensures var r := Render(t, l);
      && r[11..13] == Padded(t.hour, 2) && r[13] == ':' && r[14..16] == Padded(t.minute, 2) && r[16] == ':'
      && r[17..19] == Padded(t.second, 2)
  {
    var r, c := Render(t, l), ClockText(t);
    assert r[11..19] == c;
    assert r[11..13] == c[0..2] && r[14..16] == c[3..5] && r[17..19] == c[6..8];
  }

  /** Where the sub-second digits and the `Z` sit in the rendering. */
  lemma RenderTail(t: DateTime, l: Layout)
    requires Valid(t) && 0 <= t.year <= 9999 && Supported(l)
    ensures var r := Render(t, l);
      && (l.fractionDigits > 0 ==> r[19] == '.' && r[20..20 + l.fractionDigits] == FractionText(t.nano, l))
      && (l.utcDesignator ==> r[|r| - 1] == 'Z')
  {
    var r, x := Render(t, l), TailText(t, l);
    assert r[19..] == x;
    if l.fractionDigits > 0 {
      assert r[20..20 + l.fractionDigits] == x[1..1 + l.fractionDigits];
    }
  }

  /** Every rendering is in its layout. */
  lemma RenderMatches(t: DateTime, l: Layout)
    requires Valid(t) && 0 <= t.year <= 9999 && Supported(l)
    ensures Matches(Render(t, l), l)
  {
    RenderDate(t, l);
    RenderClock(t, l);
    RenderTail(t, l);
  }

  /** The numbers read from a rendering are the fields rendered, sub-second part truncated. */
  lemma ReadingRender(t: DateTime, l: Layout)
    requires Valid(t) && 0 <= t.year <= 9999 && Supported(l)
    ensures Matches(Render(t, l), l) && Reading(Render(t, l), l) == Truncated(t, l)
  {
    var r := Render(t, l);
    RenderMatches(t, l);
    DecimalsRendered(t, l);
    FractionRendered(t, l);
  }

  /** The date and time-of-day fields of a rendering spell the numbers rendered. */
  lemma DecimalsRendered(t: DateTime, l: Layout)
    requires Valid(t) && 0 <= t.year <= 9999 && Supported(l)
    ensures var r := Render(t, l);
      && Decimal(r[0..4]) == t.year && Decimal(r[5..7]) == t.month && Decimal(r[8..10]) == t.day
      && Decimal(r[11..13]) == t.hour && Decimal(r[14..16]) == t.minute && Decimal(r[17..19]) == t.second
  {
    RenderDate(t, l);
    RenderClock(t, l);
  }

  /** The sub-second digits of a rendering spell the truncated sub-second part. */
  lemma FractionRendered(t: DateTime, l: Layout)
    requires Valid(t) && 0 <= t.year <= 9999 && Supported(l)
    ensures Matches(Render(t, l), l) && FractionNanos(Render(t, l), l) == Truncated(t, l).nano
  {
    RenderMatches(t, l);
    RenderTail(t, l);
  }

  /** Reading back what was rendered gives the reading, truncated to the layout's digits. */
  lemma ParseLayoutRender(t: DateTime, l: Layout)
    requires Valid(t) && 0 <= t.year <= 9999 && Supported(l)
    ensures ParseLayout(Render(t, l), l) == Some(Parsed(Truncated(t, l), l.utcDesignator))
  {
    RenderMatches(t, l);
    ReadingRender(t, l);
  }

  /** Two strings in layout `l` with the same fields are the same string. */
  lemma {:induction false} SameFields(r: string, s: string, l: Layout)
    requires Supported(l) && |r| == |s| == LayoutLength(l) && Matches(r, l) && Matches(s, l)
    requires r[0..4] == s[0..4] && r[5..7] == s[5..7] && r[8..10] == s[8..10]
    requires r[11..13] == s[11..13] && r[14..16] == s[14..16] && r[17..19] == s[17..19]
    requires l.fractionDigits > 0 ==> r[20..20 + l.fractionDigits] == s[20..20 + l.fractionDigits]
    ensures r == s
  {
    var fd := l.fractionDigits;
    forall k | 0 <= k < |s|
      ensures r[k] == s[k]
    {
      if k < 4 { assert r[k] == r[0..4][k] && s[k] == s[0..4][k]; }
      else if 5 <= k < 7 { assert r[k] == r[5..7][k - 5] && s[k] == s[5..7][k - 5]; }
      else if 8 <= k < 10 { assert r[k] == r[8..10][k - 8] && s[k] == s[8..10][k - 8]; }
      else if 11 <= k < 13 { assert r[k] == r[11..13][k - 11] && s[k] == s[11..13][k - 11]; }
      else if 14 <= k < 16 { assert r[k] == r[14..16][k - 14] && s[k] == s[14..16][k - 14]; }
      else if 17 <= k < 19 { assert r[k] == r[17..19][k - 17] && s[k] == s[17..19][k - 17]; }
      else if 20 <= k < 20 + fd { assert r[k] == r[20..20 + fd][k - 20] && s[k] == s[20..20 + fd][k - 20]; }
    }
  }

  /** Rendering what was read from `s` gives back its date fields. */
  lemma RenderDateRead(s: string, l: Layout)
    requires Supported(l) && ParseLayout(s, l).Some?
    ensures var r := Render(Reading(s, l), l);
      r[0..4] == s[0..4] && r[5..7] == s[5..7] && r[8..10] == s[8..10]
  {
    var w := Reading(s, l);
    assert w.year == Decimal(s[0..4]) && w.month == Decimal(s[5..7]) && w.day == Decimal(s[8..10]);
    RenderDate(w, l);
    PaddedDecimal(s[0..4]);
    PaddedDecimal(s[5..7]);
    PaddedDecimal(s[8..10]);
  }

  /** Rendering what was read from `s` gives back its time-of-day fields. */
  lemma RenderClockRead(s: string, l: Layout)
    requires Supported(l) && ParseLayout(s, l).Some?
    ensures var r := Render(Reading(s, l), l);
      r[11..13] == s[11..13] && r[14..16] == s[14..16] && r[17..19] == s[17..19]
  {
    var w := Reading(s, l);
    assert w.hour == Decimal(s[11..13]) && w.minute == Decimal(s[14..16]) && w.second == Decimal(s[17..19]);
    RenderClock(w, l);
    PaddedDecimal(s[11..13]);
    PaddedDecimal(s[14..16]);
    PaddedDecimal(s[17..19]);
  }

  /** The sub-second digits of a whole number of the layout's units are that number, padded. */
  lemma FractionTextOfDigits(n: nat, l: Layout)
    requires Supported(l) && l.fractionDigits > 0 && n < Pow10(l.fractionDigits)
    ensures n * Scale(l) < 1_000_000_000 && FractionText(n * Scale(l), l) == Padded(n, l.fractionDigits)
  {
    assert Pow10(3) == 1000 && Pow10(6) == 1_000_000;
    if l.fractionDigits == 3 {
      assert n * 1_000_000 / 1_000_000 == n;
    } else {
      assert n * 1000 / 1000 == n;
    }
  }

  /** Rendering what was read from `s` gives back its sub-second digits. */
  lemma RenderFractionRead(s: string, l: Layout)
    requires Supported(l) && ParseLayout(s, l).Some?
    ensures l.fractionDigits > 0 ==> Render(Reading(s, l), l)[20..20 + l.fractionDigits] == s[20..20 + l.fractionDigits]
  {
    var fd := l.fractionDigits;
    if fd > 0 {
      var w := Reading(s, l);
      var f := s[20..20 + fd];
      RenderTail(w, l);
      assert w.nano == Decimal(f) * Scale(l);
      FractionTextOfDigits(Decimal(f), l);
      PaddedDecimal(f);
    }
  }

  /** A string one of the layouts reads is the rendering of its reading in that layout. */
  lemma RenderParseLayout(s: string, l: Layout)
    requires Supported(l) && ParseLayout(s, l).Some?
    ensures Render(ParseLayout(s, l).value.wall, l) == s
  {
    assert ParseLayout(s, l).value.wall == Reading(s, l);
    var w := Reading(s, l);
    var r := Render(w, l);
    RenderMatches(w, l);
    RenderDateRead(s, l);
    RenderClockRead(s, l);
    RenderFractionRead(s, l);
    SameFields(r, s, l);
  }

  /** Every string the parser accepts is the rendering of its reading in one of the layouts. */
  lemma ParseIsRendering(s: string)
    requires Parse(s).Some?
    ensures exists i | 0 <= i < |Layouts| :: Render(Parse(s).value.wall, Layouts[i]) == s
  {
    ParseFirstSpec(s, Layouts);
    var i :| 0 <= i < |Layouts| && ParseLayout(s, Layouts[i]) == Parse(s);
    RenderParseLayout(s, Layouts[i]);
  }

  /** Rendering in any layout and parsing back loses only the digits the layout does not show. */
  lemma ParseRender(t: DateTime, i: nat)
    requires Valid(t) && 0 <= t.year <= 9999 && i < |Layouts|
    ensures Parse(Render(t, Layouts[i])) == Some(Parsed(Truncated(t, Layouts[i]), Layouts[i].utcDesignator))
  {
    ParseLayoutRender(t, Layouts[i]);
    ParseByLayout(Render(t, Layouts[i]), i, Parsed(Truncated(t, Layouts[i]), Layouts[i].utcDesignator));
  }

  /** Whichever layout reads a string, that reading is what `Parse` returns. */
  lemma ParseByLayout(s: string, i: nat, p: Parsed)
    requires i < |Layouts| && ParseLayout(s, Layouts[i]) == Some(p)
    ensures Parse(s) == Some(p)
  {
    ParseIsSomeLayout(s, p);
  }

  /** The export layout: `YYYY-MM-DD HH:MM:SS`. */
  predicate IsExportText(s: string) {
    |s| == 19 && Matches(s, SpaceSeconds)
  }

  /** strftime("%Y-%m-%d %H:%M:%S"): digits, `-`, `:` and one space, nothing else. */
  function Format(t: DateTime): (r: string)
    requires Valid(t) && 0 <= t.year <= 9999
    ensures IsExportText(r)
  {
    RenderMatches(t, SpaceSeconds);
    Render(t, SpaceSeconds)
  }

  /** Export text holds digits, `-`, `:` and one space, nothing else. */
  lemma ExportTextCharacters(s: string)
    requires IsExportText(s)
    ensures forall k | 0 <= k < |s| :: IsDigit(s[k]) || s[k] == '-' || s[k] == ':' || s[k] == ' '
  {
    forall k | 0 <= k < |s|
      ensures IsDigit(s[k]) || s[k] == '-' || s[k] == ':' || s[k] == ' '
    {
      if k < 4 { assert s[k] == s[0..4][k]; }
      else if 5 <= k < 7 { assert s[k] == s[5..7][k - 5]; }
      else if 8 <= k < 10 { assert s[k] == s[8..10][k - 8]; }
      else if 11 <= k < 13 { assert s[k] == s[11..13][k - 11]; }
      else if 14 <= k < 16 { assert s[k] == s[14..16][k - 14]; }
      else if 17 <= k < 19 { assert s[k] == s[17..19][k - 17]; }
    }
  }

  /** Export text carries neither the ISO `T` separator nor the UTC designator `Z`. */
  lemma ExportTextHasNoMarkers(s: string)
    requires IsExportText(s)
    ensures 'T' !in s && 'Z' !in s
  {
    ExportTextCharacters(s);
  }

  /** strftime("%S") truncates: the sub-second part never shows in the export text. */
  lemma FormatDropsNano(t: DateTime)
    requires Valid(t) && 0 <= t.year <= 9999
    ensures Format(t) == Format(t.(nano := 0))
  {
  }

  /** Parsing the export text gives back the reading, sub-second digits dropped. */
  lemma ParseFormat(t: DateTime)
    requires Valid(t) && 0 <= t.year <= 9999
    ensures Parse(Format(t)) == Some(Parsed(t.(nano := 0), false))
  {
    assert Layouts[3] == SpaceSeconds && Scale(SpaceSeconds) == 1_000_000_000;
    ParseRender(t, 3);
  }

  /** Text already in the export layout is its own rendering. */
  lemma FormatParse(s: string)
    requires IsExportText(s) && Parse(s).Some?
    ensures Format(Parse(s).value.wall) == s
  {
    ParseFirstSpec(s, Layouts);
    var i :| 0 <= i < |Layouts| && ParseLayout(s, Layouts[i]) == Parse(s);
    assert Layouts[i] == SpaceSeconds;
    RenderParseLayout(s, SpaceSeconds);
  }

  // ---------------------------------------------------------------------------
  // Conversion

  /** The offset a parsed reading is taken to be in: UTC for `Z`, `z.naive` otherwise. */
  function ZoneOf(p: Parsed, z: Zones): Offset {
    if p.utc then 0 else z.naive
  }

  /**
   * `pd.to_datetime(raw, utc=True, errors='coerce', format='mixed')` for one
   * value: the UTC instant, or None (NaT) when the string does not parse or
   * the instant is outside what pandas can represent.
   */
  function ParseInstant(raw: string, z: Zones): (r: Option<DateTime>)
    ensures r.Some? ==> Valid(r.value) && InPandasRange(r.value)
    ensures r.Some? <==> Parse(raw).Some? && InPandasRange(Shift(Parse(raw).value.wall, -ZoneOf(Parse(raw).value, z)))
  {
    match Parse(raw)
    case None => None
    case Some(p) =>
      var instant := Shift(p.wall, -ZoneOf(p, z));
      if InPandasRange(instant) then Some(instant) else None
  }

  /**
   * `.dt.tz_convert(zone).dt.strftime("%Y-%m-%d %H:%M:%S")` for one instant:
   * the zone's wall clock, in the export layout, seconds truncated.
   */
  function LocalText(instant: DateTime, target: Offset): (r: string)
    requires Valid(instant) && InPandasRange(instant)
    ensures IsExportText(r)
  {
    PandasRangeYears(instant);
    Format(Shift(instant, target))
  }

  /** The rendered text reads back as the instant moved by the zone's offset, sub-second digits dropped. */
  lemma LocalTextMeaning(instant: DateTime, target: Offset)
    requires Valid(instant) && InPandasRange(instant)
    ensures Parse(LocalText(instant, target)).Some?
    ensures var w := Parse(LocalText(instant, target)).value;
      !w.utc && w.wall.nano == 0 && EpochSeconds(w.wall) == EpochSeconds(instant) + target
  {
    PandasRangeYears(instant);
    ParseFormat(Shift(instant, target));
    ShiftMovesBy(instant, target);
  }

  /** The converted text of one raw value, or None where the source gets NaT/NaN. */
  function Normalize(raw: string, z: Zones): (r: Option<string>)
    ensures r.Some? <==> ParseInstant(raw, z).Some?
    ensures r.Some? ==> IsExportText(r.value)
  {
    match ParseInstant(raw, z)
    case None => None
    case Some(instant) => Some(LocalText(instant, z.target))
  }

  /** The converted text, or the raw value itself when it does not convert (`converted.fillna(original)`). */
  function NormalizeOrKeep(raw: string, z: Zones): (r: string)
    ensures Normalize(raw, z).None? ==> r == raw
    ensures Normalize(raw, z).Some? ==> r == Normalize(raw, z).value
    ensures Normalize(raw, z).Some? ==> IsExportText(r)
  {
    Normalize(raw, z).GetOr(raw)
  }

  /**
   * What a converted value means: the raw string parsed, and the text reads
   * back as that reading moved from its own zone (UTC for `Z`, `z.naive`
   * otherwise) to `z.target`, with the sub-second digits dropped.
   */
  lemma NormalizeMeaning(raw: string, z: Zones)
    requires Normalize(raw, z).Some?
    ensures Parse(raw).Some?
    ensures Parse(Normalize(raw, z).value).Some?
    ensures var p, w := Parse(raw).value, Parse(Normalize(raw, z).value).value;
      !w.utc && w.wall.nano == 0
      && EpochSeconds(w.wall) == EpochSeconds(p.wall) - ZoneOf(p, z) + z.target
  {
    LocalTextMeaning(ParseInstant(raw, z).value, z.target);
    ParseInstantMeaning(raw, z);
  }

  /** As written, every converted value, naive or `Z`, is the parsed reading minus exactly five hours. */
  lemma AsWrittenMinusFiveHours(raw: string)
    requires Normalize(raw, AsWritten).Some?
    ensures Parse(raw).Some? && Parse(Normalize(raw, AsWritten).value).Some?
    ensures EpochSeconds(Parse(Normalize(raw, AsWritten).value).value.wall) == EpochSeconds(Parse(raw).value.wall) - 5 * 3600
  {
    NormalizeMeaning(raw, AsWritten);
  }

  /**
   * The instant of a value that converts is its reading taken in its own
   * zone: the same sub-second part, and the seconds since 1970 less the
   * zone's offset.
   */
  lemma ParseInstantMeaning(raw: string, z: Zones)
    requires ParseInstant(raw, z).Some?
    ensures Parse(raw).Some?
    ensures ParseInstant(raw, z).value.nano == Parse(raw).value.wall.nano
    ensures EpochSeconds(ParseInstant(raw, z).value) == EpochSeconds(Parse(raw).value.wall) - ZoneOf(Parse(raw).value, z)
  {
    ParseInstantIsShift(raw, z);
    ShiftMovesBy(Parse(raw).value.wall, -ZoneOf(Parse(raw).value, z));
  }

  /** The instant of a value that converts is its reading moved out of its own zone. */
  lemma ParseInstantIsShift(raw: string, z: Zones)
    requires ParseInstant(raw, z).Some?
    ensures Parse(raw).Some?
    ensures ParseInstant(raw, z).value == Shift(Parse(raw).value.wall, -ZoneOf(Parse(raw).value, z))
  {
  }

  /** When naive strings are taken as target-zone wall clock, a naive string is only reformatted, never moved. */
  lemma NaiveLocalOnlyReformats(raw: string, z: Zones)
    requires z.naive == z.target && Normalize(raw, z).Some? && !Parse(raw).value.utc
    ensures Normalize(raw, z) == Some(Format(Parse(raw).value.wall))
  {
    assert ParseInstant(raw, z).Some?;
    NaiveInstant(raw, z, Parse(raw).value, ParseInstant(raw, z).value);
    ReformatsNaive(raw, z, Parse(raw).value, ParseInstant(raw, z).value);
  }

  /** With naive strings taken as target-zone wall clock, a naive reading is moved back by the target's offset. */
  lemma NaiveInstant(raw: string, z: Zones, p: Parsed, instant: DateTime)
    requires z.naive == z.target && Parse(raw) == Some(p) && !p.utc && ParseInstant(raw, z) == Some(instant)
    ensures instant == Shift(p.wall, -z.target)
  {
    ParseInstantIsShift(raw, z);
  }

  lemma ReformatsNaive(raw: string, z: Zones, p: Parsed, instant: DateTime)
    requires Parse(raw) == Some(p) && ParseInstant(raw, z) == Some(instant)
    requires instant == Shift(p.wall, -z.target)
    ensures Normalize(raw, z) == Some(Format(p.wall))
  {
    NormalizeOfInstant(raw, z, instant);
    ReformatsAfterRoundTrip(p.wall, instant, z.target);
  }

  lemma ReformatsAfterRoundTrip(wall: DateTime, instant: DateTime, target: Offset)
    requires Valid(wall) && 0 <= wall.year <= 9999
    requires instant == Shift(wall, -target) && InPandasRange(instant)
    ensures LocalText(instant, target) == Format(wall)
  {
    ShiftBackInverse(wall, target);
  }

  /**
   * With naive strings taken as target-zone wall clock, converting an export
   * twice is converting it once.
   */
  lemma NaiveLocalIdempotent(raw: string, z: Zones)
    requires z.naive == z.target
    ensures NormalizeOrKeep(NormalizeOrKeep(raw, z), z) == NormalizeOrKeep(raw, z)
  {
    var once := NormalizeOrKeep(raw, z);
    if Normalize(raw, z).Some? && Normalize(once, z).Some? {
      var instant := ParseInstant(raw, z).value;
      var local := Shift(instant, z.target);
      PandasRangeYears(instant);
      ParseFormat(local);
      NaiveLocalOnlyReformats(once, z);
      assert Format(local.(nano := 0)) == Format(local);
    }
  }

  /** The instant of a string, given its reading. */
  lemma ParseInstantOfParsed(raw: string, z: Zones, p: Parsed)
    requires Parse(raw) == Some(p)
    ensures var instant := Shift(p.wall, -ZoneOf(p, z));
      ParseInstant(raw, z) == (if InPandasRange(instant) then Some(instant) else None)
  {
    match Parse(raw)
    case Some(q) =>
      assert q == p;
  }

  /** The converted text of a string, given its instant. */
  lemma NormalizeOfInstant(raw: string, z: Zones, instant: DateTime)
    requires ParseInstant(raw, z) == Some(instant)
    ensures Normalize(raw, z) == Some(LocalText(instant, z.target))
  {
  }
}
