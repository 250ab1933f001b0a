/**
 * Business-hours range text "HH:MM-HH:MM" and its parse into two clock
 * times, with "24:00" accepted as an end and read as 23:59.
 *
 * A clock time is a minute of the day, 0 for 00:00 up to 1439 for 23:59.
 */
module Hours {
  import opened Wrappers
  import opened Text

  predicate IsClock(t: int)
  {
    0 <= t < 1440
  }

  /** A parsed range: start and end clock times of one day. */
  datatype TimeRange = TimeRange(start: int, end: int)

  /** The clock time with hour `h` and minute `m`; `None` where Python's `time` raises. */
  function ClockTime(h: int, m: int): (r: Option<int>)
    ensures r.Some? <==> 0 <= h <= 23 && 0 <= m <= 59
    ensures r.Some? ==> IsClock(r.value) && r.value / 60 == h && r.value % 60 == m
  {
    if 0 <= h <= 23 && 0 <= m <= 59 then Some(h * 60 + m) else None
  }

  /** Every part read by `parse`; `None` if any part does not parse. */
  function ParseAll(parse: string -> Option<int>, parts: seq<string>): (r: Option<seq<int>>)
    ensures r.Some? <==> forall k :: 0 <= k < |parts| ==> parse(parts[k]).Some?
    ensures r.Some? ==> |r.value| == |parts|
    ensures r.Some? ==> forall k :: 0 <= k < |parts| ==> Some(r.value[k]) == parse(parts[k])
    decreases |parts|
  {
    if parts == [] then Some([])
    else
      var head, tail := parse(parts[0]), ParseAll(parse, parts[1..]);
      if head.Some? && tail.Some? then
        Some([head.value] + tail.value)
      else None
  }

  /** Every part read as an integer; `None` if any part does not parse. */
  function ParseInts(parts: seq<string>): (r: Option<seq<int>>)
    ensures r.Some? <==> forall k :: 0 <= k < |parts| ==> ParseInt(parts[k]).Some?
    ensures r.Some? ==> |r.value| == |parts|
    ensures r.Some? ==> forall k :: 0 <= k < |parts| ==> Some(r.value[k]) == ParseInt(parts[k])
  {
    ParseAll(ParseInt, parts)
  }

  /** A field "H:M": split at colons, there must be exactly two parts, each an integer. */
  function ParseFields(s: string): Option<(int, int)>
  {
    var ns := ParseInts(Split(s, ':'));
    if ns.Some? && |ns.value| == 2 then Some((ns.value[0], ns.value[1])) else None
  }

  /** The end clock time: exactly 24:00 becomes 23:59, anything else must be a valid time. */
  function EndClock(h: int, m: int): (r: Option<int>)
    ensures r.Some? <==> (0 <= h <= 23 && 0 <= m <= 59) || (h == 24 && m == 0)
    ensures r.Some? ==> IsClock(r.value)
    ensures h == 24 && m == 0 ==> r == Some(1439)
  {
    if h == 24 && m == 0 then Some(23 * 60 + 59) else ClockTime(h, m)
  }

  /** `parse_range`; `None` where it raises `ValueError`. */
  function ParseRange(r: string): (res: Option<TimeRange>)
    ensures res.Some? ==> IsClock(res.value.start) && IsClock(res.value.end)
    ensures res.Some? ==> Count(r, '-') == 1
  {
    var halves := Split(r, '-');
    if |halves| != 2 then None
    else
      var f1, f2 := ParseFields(halves[0]), ParseFields(halves[1]);
      if f1.None? || f2.None? then None
      else
        var t1, t2 := ClockTime(f1.value.0, f1.value.1), EndClock(f2.value.0, f2.value.1);
        if t1.None? || t2.None? then None else Some(TimeRange(t1.value, t2.value))
  }

  /** "HH:MM" with two digits in each field. */
  function FormatFields(h: int, m: int): string
    requires 0 <= h <= 99 && 0 <= m <= 99
  {
    TwoDigits(h) + ":" + TwoDigits(m)
  }

  /** "HH:MM-HH:MM" with two digits in each field. */
  function FormatRange(h1: int, m1: int, h2: int, m2: int): string
    requires 0 <= h1 <= 99 && 0 <= m1 <= 99 && 0 <= h2 <= 99 && 0 <= m2 <= 99
  {
    FormatFields(h1, m1) + "-" + FormatFields(h2, m2)
  }

  lemma ParseIntsPair(a: string, b: string, x: int, y: int)
    requires ParseInt(a) == Some(x) && ParseInt(b) == Some(y)
    ensures ParseInts([a, b]) == Some([x, y])
  {
    assert [a, b][1..] == [b];
    assert [b][1..] == [];
    assert ParseInts([b]) == Some([y]) by {
      assert ParseInts([]) == Some([]);
      assert [y] + [] == [y];
    }
    assert [x] + [y] == [x, y];
  }

  /** "a:b" splits into its two fields when neither contains a colon. */
  lemma FieldsOfParts(a: string, b: string, x: int, y: int)
    requires ':' !in a && ':' !in b
    requires ParseInt(a) == Some(x) && ParseInt(b) == Some(y)
    ensures ParseFields(a + [':'] + b) == Some((x, y))
  {
    SplitAtFirst(a, ':', b);
    SplitWithoutSeparator(b, ':');
    ParseIntsPair(a, b, x, y);
  }

  lemma FieldsReadBack(h: int, m: int)
    requires 0 <= h <= 99 && 0 <= m <= 99
    ensures ParseFields(FormatFields(h, m)) == Some((h, m))
  {
    var a, b := TwoDigits(h), TwoDigits(m);
    assert ':' !in a && ':' !in b;
    ParseTwoDigits(h);
    ParseTwoDigits(m);
    FieldsOfParts(a, b, h, m);
  }

  /** A range text whose halves read as these fields parses as the fields' clock times say. */
  lemma RangeOfHalves(r: string, a: string, b: string, h1: int, m1: int, h2: int, m2: int)
    requires Split(r, '-') == [a, b]
    requires ParseFields(a) == Some((h1, m1)) && ParseFields(b) == Some((h2, m2))
    ensures ParseRange(r).Some?
        <==> (0 <= h1 <= 23 && 0 <= m1 <= 59 && ((0 <= h2 <= 23 && 0 <= m2 <= 59) || (h2 == 24 && m2 == 0)))
    ensures ParseRange(r).Some? ==>
        ParseRange(r).value == TimeRange(h1 * 60 + m1, if h2 == 24 && m2 == 0 then 1439 else h2 * 60 + m2)
  {
    var halves := Split(r, '-');
    assert halves[0] == a && halves[1] == b;
  }

  /**
   * Every range written with two-digit fields parses exactly when the start
   * is a valid clock time and the end is a valid clock time or 24:00, and
   * then yields those times with 24:00 read as 23:59.
   */
  lemma ParseRangeOfFields(h1: int, m1: int, h2: int, m2: int)
    requires 0 <= h1 <= 99 && 0 <= m1 <= 99 && 0 <= h2 <= 99 && 0 <= m2 <= 99
    ensures ParseRange(FormatRange(h1, m1, h2, m2)).Some?
        <==> (h1 <= 23 && m1 <= 59 && ((h2 <= 23 && m2 <= 59) || (h2 == 24 && m2 == 0)))
    ensures ParseRange(FormatRange(h1, m1, h2, m2)).Some? ==>
        ParseRange(FormatRange(h1, m1, h2, m2)).value
          == TimeRange(h1 * 60 + m1, if h2 == 24 && m2 == 0 then 1439 else h2 * 60 + m2)
  {
    var a, b := FormatFields(h1, m1), FormatFields(h2, m2);
    assert '-' !in a && '-' !in b;
    assert FormatRange(h1, m1, h2, m2) == Join([a, b], '-');
    SplitJoin([a, b], '-');
    FieldsReadBack(h1, m1);
    FieldsReadBack(h2, m2);
    RangeOfHalves(FormatRange(h1, m1, h2, m2), a, b, h1, m1, h2, m2);
  }

  /**
   * The round trip: valid clock fields written as "HH:MM-HH:MM" parse back
   * to exactly those clock times.
   */
  lemma ParseFormatRoundTrip(h1: int, m1: int, h2: int, m2: int)
    requires 0 <= h1 <= 23 && 0 <= m1 <= 59 && 0 <= h2 <= 23 && 0 <= m2 <= 59
    ensures ParseRange(FormatRange(h1, m1, h2, m2)) == Some(TimeRange(h1 * 60 + m1, h2 * 60 + m2))
  {
    ParseRangeOfFields(h1, m1, h2, m2);
  }

  /** An end of "24:00" parses as 23:59. */
  lemma MidnightEndIsLastMinute(h1: int, m1: int, h2: int, m2: int)
    requires 0 <= h1 <= 23 && 0 <= m1 <= 59 && h2 == 24 && m2 == 0
    ensures ParseRange(FormatRange(h1, m1, h2, m2)) == Some(TimeRange(h1 * 60 + m1, 1439))
  {
    ParseRangeOfFields(h1, m1, h2, m2);
  }

  /** Any other hour past 23 or minute past 59 raises, whichever side it is on. */
  lemma OutOfRangeFieldsRaise(h1: int, m1: int, h2: int, m2: int)
    requires 0 <= h1 <= 99 && 0 <= m1 <= 99 && 0 <= h2 <= 99 && 0 <= m2 <= 99
    requires h1 > 23 || m1 > 59 || ((h2 > 23 || m2 > 59) && !(h2 == 24 && m2 == 0))
    ensures ParseRange(FormatRange(h1, m1, h2, m2)) == None
  {
    ParseRangeOfFields(h1, m1, h2, m2);
  }

  /** A range text without a dash, or with more than one, raises. */
  lemma DashCountMustBeOne(r: string)
    requires Count(r, '-') != 1
    ensures ParseRange(r) == None
  {
  }

  /** Each half must split at ':' into exactly two parts. */
  lemma {:induction false} FieldsNeedOneColon(s: string)
    requires Count(s, ':') != 1
    ensures ParseFields(s) == None
  {
  }

  /** Range texts of the kind a store's working-hours template holds. */
  const MorningHours: string := "09:00-11:00"
  const MidnightHours: string := "21:00-24:00"
  const BadStartHours: string := "25:00-26:00"
  const BadEndHours: string := "09:00-24:30"

  /** The example range texts, field by field. */
  lemma MorningText()
    ensures MorningHours == FormatRange(9, 0, 11, 0)
  {
  }

  lemma MidnightText()
    ensures MidnightHours == FormatRange(21, 0, 24, 0)
  {
  }

  lemma BadHourTexts()
    ensures BadStartHours == FormatRange(25, 0, 26, 0)
    ensures BadEndHours == FormatRange(9, 0, 24, 30)
  {
  }

  /** The template's morning range. */
  lemma MorningRange()
    ensures ParseRange(MorningHours) == Some(TimeRange(540, 660))
  {
    MorningText();
    ParseFormatRoundTrip(9, 0, 11, 0);
  }

  /** A range ending at 23:59 and one ending at the end-of-day marker read the same. */
  lemma LastMinuteAndMarkerAgree(h: int, m: int)
    requires 0 <= h <= 23 && 0 <= m <= 59
    ensures ParseRange(FormatRange(h, m, 23, 59)) == ParseRange(FormatRange(h, m, 24, 0))
    ensures ParseRange(FormatRange(h, m, 24, 0)) == Some(TimeRange(h * 60 + m, 1439))
  {
    ParseFormatRoundTrip(h, m, 23, 59);
    MidnightEndIsLastMinute(h, m, 24, 0);
  }

  /** The same range written with the end-of-day marker. */
  lemma MidnightRange()
    ensures ParseRange(MidnightHours) == Some(TimeRange(1260, 1439))
  {
    MidnightText();
    ParseRangeOfFields(21, 0, 24, 0);
  }

  /** "25:00" is not a clock time and "24:30" is not the end-of-day marker. */
  lemma BadHourRanges()
    ensures ParseRange(BadStartHours) == None && ParseRange(BadEndHours) == None
  {
    BadHourTexts();
    ParseRangeOfFields(25, 0, 26, 0);
    ParseRangeOfFields(9, 0, 24, 30);
  }
}
