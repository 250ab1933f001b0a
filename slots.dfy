/**
 * Slot generation: the weekly template expanded into fixed-length slots for
 * one date.
 *
 * A date is a day number counted from 1970-01-01, a Thursday. A slot holds
 * the instants (UTC minutes) of its start and end; the generator builds
 * them on the local wall clock of a fixed-offset zone, where wall-clock and
 * instant order agree.
 */
module Slots {
  import opened Wrappers
  import opened Clock
  import opened Zones
  import opened Hours

  datatype Slot = Slot(start: int, end: int)

  /** Weekday names in Python's `date.weekday()` order, Monday first. */
  const Weekdays: seq<string> := ["mon", "tue", "wed", "thu", "fri", "sat", "sun"]

  /** Weekday name to the range texts open on that day. */
  type Template = map<string, seq<string>>

  /** `d.weekday()`: 0 for Monday up to 6 for Sunday. */
  function Weekday(d: int): (w: int)
    ensures 0 <= w < 7
  {
    (d + 3) % 7
  }

  /** The calendar: day 0 (1970-01-01) is a Thursday, and each next day is the next weekday, Sunday wrapping to Monday. */
  lemma WeekdayCalendar(d: int)
    ensures Weekday(0) == 3
    ensures Weekday(d + 1) == (Weekday(d) + 1) % 7
    ensures Weekday(d + 7) == Weekday(d)
  {
  }

  /** The range texts the template lists for the weekday of `d`; none when it leaves that weekday out. */
  function RangesFor(template: Template, d: int): seq<string>
  {
    var key := Weekdays[Weekday(d)];
    if key in template then template[key] else []
  }

  /** The instant of clock time `t` on date `d` in zone `tz`. */
  function Combine(d: int, t: int, tz: Zone): int
  {
    d * MinutesPerDay + t - tz.offset
  }

  /**
   * The slots one range yields: from `cur`, one slot of `step` minutes at a
   * time while the slot's end is at most one minute past `end`.
   */
  function RangeSlots(cur: int, end: int, step: int): seq<Slot>
    requires step > 0
    decreases end + 1 - cur
  {
    if cur + step <= end + 1 then [Slot(cur, cur + step)] + RangeSlots(cur + step, end, step) else []
  }

  /** Append `prefix` to a result that may be an error. */
  function Prepend(prefix: seq<Slot>, rest: Option<seq<Slot>>): Option<seq<Slot>>
  {
    if rest.Some? then Some(prefix + rest.value) else None
  }

  /** The slots of the ranges in `ranges` on date `d`, or `None` if one of them does not parse. */
  function RangesSlots(ranges: seq<string>, d: int, tz: Zone, step: int): Option<seq<Slot>>
    requires step > 0
    decreases |ranges|
  {
    if ranges == [] then Some([])
    else
      var r := ParseRange(ranges[0]);
      if r.None? then None
      else Prepend(RangeSlots(Combine(d, r.value.start, tz), Combine(d, r.value.end, tz), step),
                   RangesSlots(ranges[1..], d, tz, step))
  }

  /** What `generate_slots_for_date` returns for date `d`; `None` where it raises. */
  function DaySlots(template: Template, d: int, tz: Zone, step: int): Option<seq<Slot>>
    requires step > 0
  {
    RangesSlots(RangesFor(template, d), d, tz, step)
  }

  /** One step of `RangesSlots` from position `j`. */
  lemma RangesSlotsAt(ranges: seq<string>, j: int, d: int, tz: Zone, step: int, r: Option<TimeRange>)
    requires step > 0 && 0 <= j < |ranges| && r == ParseRange(ranges[j])
    ensures r.None? ==> RangesSlots(ranges[j..], d, tz, step) == None
    ensures r.Some? ==>
      RangesSlots(ranges[j..], d, tz, step) == Prepend(RangeSlots(Combine(d, r.value.start, tz), Combine(d, r.value.end, tz), step), RangesSlots(ranges[j + 1..], d, tz, step))
  {
    assert ranges[j..][0] == ranges[j];
    assert ranges[j..][1..] == ranges[j + 1..];
  }

  lemma PrependTwice(a: seq<Slot>, b: seq<Slot>, rest: Option<seq<Slot>>)
    ensures Prepend(a, Prepend(b, rest)) == Prepend(a + b, rest)
  {
    if rest.Some? {
      assert a + (b + rest.value) == (a + b) + rest.value;
    }
  }

  /**
   * The inner loop of `generate_slots_for_date`: append one slot per step to
   * `acc` while the slot ends at most one minute past `end`.
   */
  method AppendRangeSlots(acc: seq<Slot>, start: int, end: int, step: int) returns (out: seq<Slot>)
    requires step > 0
    ensures out == acc + RangeSlots(start, end, step)
  {
    out := acc;
    var cur := start;
    while cur + step <= end + 1
      invariant acc + RangeSlots(start, end, step) == out + RangeSlots(cur, end, step)
      decreases end + 1 - cur
    {
      out := out + [Slot(cur, cur + step)];
      cur := cur + step;
    }
  }

  /** `generate_slots_for_date`: every range of the date's weekday, in template order. */
  method GenerateSlotsForDate(template: Template, d: int, tz: Zone, slotMinutes: int) returns (out: Option<seq<Slot>>)
    requires slotMinutes > 0
    ensures out == DaySlots(template, d, tz, slotMinutes)
  {
    var ranges := RangesFor(template, d);
    var step := slotMinutes;
    var acc: seq<Slot> := [];
    assert ranges[0..] == ranges;
    ghost var all := RangesSlots(ranges, d, tz, step);
    assert all.Some? ==> [] + all.value == all.value;
    for j := 0 to |ranges|
      invariant all == Prepend(acc, RangesSlots(ranges[j..], d, tz, step))
    {
      var parsed := ParseRange(ranges[j]);
      RangesSlotsAt(ranges, j, d, tz, step, parsed);
      if parsed.None? {
        return None;
      }
      var cur := Combine(d, parsed.value.start, tz);
      var end := Combine(d, parsed.value.end, tz);
      ghost var acc0 := acc;
      acc := AppendRangeSlots(acc, cur, end, step);
      PrependTwice(acc0, RangeSlots(cur, end, step), RangesSlots(ranges[j + 1..], d, tz, step));
    }
    assert RangesSlots(ranges[|ranges|..], d, tz, step) == Some([]);
    assert acc + [] == acc;
    return Some(acc);
  }

  /**
   * The shape of one range's slots: each lasts exactly `step`, the first
   * starts at the range start, each later one starts where the previous one
   * ended, each ends at most one minute past the range end, and one more
   * slot would not fit.
   */
  lemma {:induction false} RangeSlotsShape(cur: int, end: int, step: int)
    requires step > 0
    ensures var s := RangeSlots(cur, end, step);
      && (forall i :: 0 <= i < |s| ==> s[i].end - s[i].start == step && s[i].end <= end + 1)
      && (|s| > 0 ==> s[0].start == cur)
      && (forall i :: 0 < i < |s| ==> s[i].start == s[i - 1].end)
      && (if |s| == 0 then cur + step > end + 1 else s[|s| - 1].end + step > end + 1)
    decreases end + 1 - cur
  {
    if cur + step <= end + 1 {
      RangeSlotsShape(cur + step, end, step);
    }
  }

  /**
   * A range yields exactly as many slots as whole steps fit between its
   * start and one minute past its end: `n` slots fit and `n + 1` do not.
   */
  lemma {:induction false} RangeSlotsCount(cur: int, end: int, step: int)
    requires step > 0
    ensures var n := |RangeSlots(cur, end, step)|;
      (n == 0 <==> cur + step > end + 1) && (n > 0 ==> cur + n * step <= end + 1 < cur + (n + 1) * step)
    decreases end + 1 - cur
  {
    if cur + step <= end + 1 {
      RangeSlotsCount(cur + step, end, step);
      var n' := |RangeSlots(cur + step, end, step)|;
      assert (n' + 1) * step == n' * step + step;
      assert (n' + 2) * step == n' * step + 2 * step;
    }
  }

  /** Every slot within `[lo, hi]` bounds, as a ghost predicate over a list. */
  ghost predicate AllWithin(s: seq<Slot>, lo: int, hi: int)
  {
    forall i :: 0 <= i < |s| ==> lo <= s[i].start && s[i].end <= hi
  }

  ghost predicate AllLast(s: seq<Slot>, step: int)
  {
    forall i :: 0 <= i < |s| ==> s[i].end - s[i].start == step
  }

  lemma {:induction false} RangeSlotsWithin(cur: int, end: int, step: int)
    requires step > 0
    ensures AllWithin(RangeSlots(cur, end, step), cur, end + 1)
    ensures AllLast(RangeSlots(cur, end, step), step)
    decreases end + 1 - cur
  {
    if cur + step <= end + 1 {
      var rest := RangeSlots(cur + step, end, step);
      RangeSlotsWithin(cur + step, end, step);
      var s := [Slot(cur, cur + step)] + rest;
      assert RangeSlots(cur, end, step) == s;
      forall i | 0 <= i < |s|
        ensures cur <= s[i].start && s[i].end <= end + 1 && s[i].end - s[i].start == step
      {
        if i > 0 {
          assert s[i] == rest[i - 1];
        }
      }
    }
  }

  /**
   * Every slot generated for date `d` lasts exactly `step` minutes and lies
   * within that local day: it starts at or after its midnight and ends at the
   * latest at the next midnight.
   */
  lemma {:induction false} RangesSlotsShape(ranges: seq<string>, d: int, tz: Zone, step: int)
    requires step > 0
    requires RangesSlots(ranges, d, tz, step).Some?
    ensures AllLast(RangesSlots(ranges, d, tz, step).value, step)
    ensures AllWithin(RangesSlots(ranges, d, tz, step).value, Combine(d, 0, tz), Combine(d + 1, 0, tz))
    decreases |ranges|
  {
    if ranges != [] {
      var r := ParseRange(ranges[0]).value;
      RangesSlotsShape(ranges[1..], d, tz, step);
      RangeSlotsWithin(Combine(d, r.start, tz), Combine(d, r.end, tz), step);
    }
  }

  lemma DaySlotsShape(template: Template, d: int, tz: Zone, step: int)
    requires step > 0
    requires DaySlots(template, d, tz, step).Some?
    ensures AllLast(DaySlots(template, d, tz, step).value, step)
    ensures AllWithin(DaySlots(template, d, tz, step).value, Combine(d, 0, tz), Combine(d + 1, 0, tz))
  {
    RangesSlotsShape(RangesFor(template, d), d, tz, step);
  }

  /** A weekday missing from the template is closed. */
  lemma ClosedWeekday(template: Template, d: int, tz: Zone, step: int)
    requires step > 0
    requires Weekdays[Weekday(d)] !in template
    ensures DaySlots(template, d, tz, step) == Some([])
  {
  }

  /** With one range open on the weekday, the day's slots are that range's slots. */
  lemma SingleRangeDay(template: Template, d: int, tz: Zone, step: int, text: string, r: TimeRange)
    requires step > 0
    requires Weekdays[Weekday(d)] in template && template[Weekdays[Weekday(d)]] == [text]
    requires ParseRange(text) == Some(r)
    ensures DaySlots(template, d, tz, step) == Some(RangeSlots(Combine(d, r.start, tz), Combine(d, r.end, tz), step))
  {
    assert RangesFor(template, d) == [text];
    assert [text][1..] == [];
    assert RangesSlots([], d, tz, step) == Some([]);
    var s := RangeSlots(Combine(d, r.start, tz), Combine(d, r.end, tz), step);
    assert s + [] == s;
    assert RangesSlots([text], d, tz, step) == Some(s);
  }

  /**
   * A day whose only range reads 09:00-11:00 (the text
   * `Hours.MorningHours`, by `Hours.MorningRange`) gives, with 60-minute slots, exactly 09:00-10:00
   * and 10:00-11:00.
   */
  lemma MorningExample(template: Template, d: int, tz: Zone, text: string)
    requires Weekdays[Weekday(d)] in template && template[Weekdays[Weekday(d)]] == [text]
    requires ParseRange(text) == Some(TimeRange(540, 660))
    ensures DaySlots(template, d, tz, 60)
         == Some([Slot(Combine(d, 540, tz), Combine(d, 600, tz)), Slot(Combine(d, 600, tz), Combine(d, 660, tz))])
  {
    SingleRangeDay(template, d, tz, 60, text, TimeRange(540, 660));
    MorningSlots(d, tz);
  }

  /** The template `{"mon": [Hours.MorningHours]}` on a Monday: two slots, 09-10 and 10-11. */
  lemma MondayMorningTemplate(d: int, tz: Zone)
    requires Weekday(d) == 0
    ensures DaySlots(map["mon" := [MorningHours]], d, tz, 60)
         == Some([Slot(Combine(d, 540, tz), Combine(d, 600, tz)), Slot(Combine(d, 600, tz), Combine(d, 660, tz))])
  {
    MorningRange();
    MorningExample(map["mon" := [MorningHours]], d, tz, MorningHours);
  }

  /** 09:00 to 11:00 in 60-minute steps gives 09-10 and 10-11. */
  lemma MorningSlots(d: int, tz: Zone)
    ensures RangeSlots(Combine(d, 540, tz), Combine(d, 660, tz), 60)
         == [Slot(Combine(d, 540, tz), Combine(d, 600, tz)), Slot(Combine(d, 600, tz), Combine(d, 660, tz))]
  {
    var a, b, e := Combine(d, 540, tz), Combine(d, 600, tz), Combine(d, 660, tz);
    assert b == a + 60 && e == b + 60;
    assert RangeSlots(e, e, 60) == [];
    assert RangeSlots(b, e, 60) == [Slot(b, e)];
  }

  /** The three slots of 21:00-23:59 with 60-minute steps, the last ending at the next midnight. */
  lemma LateSlots(d: int, tz: Zone)
    ensures RangeSlots(Combine(d, 1260, tz), Combine(d, 1439, tz), 60)
         == [Slot(Combine(d, 1260, tz), Combine(d, 1320, tz)),
             Slot(Combine(d, 1320, tz), Combine(d, 1380, tz)),
             Slot(Combine(d, 1380, tz), Combine(d + 1, 0, tz))]
  {
    var a, b, c, e := Combine(d, 1260, tz), Combine(d, 1320, tz), Combine(d, 1380, tz), Combine(d, 1439, tz);
    var m := Combine(d + 1, 0, tz);
    assert b == a + 60 && c == b + 60 && m == c + 60 && m == e + 1;
    assert RangeSlots(m, e, 60) == [];
    assert RangeSlots(c, e, 60) == [Slot(c, m)];
    assert RangeSlots(b, e, 60) == [Slot(b, c), Slot(c, m)];
  }

  /**
   * A day whose only range reads 21:00-23:59 still has a last slot
   * 23:00-00:00: the end is allowed one minute past 23:59. The texts
   * "21:00-23:59" and "21:00-24:00" both read so
   * (`Hours.LastMinuteAndMarkerAgree`, `Hours.MidnightRange`).
   */
  lemma LateEveningExample(template: Template, d: int, tz: Zone, text: string)
    requires Weekdays[Weekday(d)] in template && template[Weekdays[Weekday(d)]] == [text]
    requires ParseRange(text) == Some(TimeRange(1260, 1439))
    ensures DaySlots(template, d, tz, 60)
         == Some([Slot(Combine(d, 1260, tz), Combine(d, 1320, tz)),
                  Slot(Combine(d, 1320, tz), Combine(d, 1380, tz)),
                  Slot(Combine(d, 1380, tz), Combine(d + 1, 0, tz))])
  {
    SingleRangeDay(template, d, tz, 60, text, TimeRange(1260, 1439));
    LateSlots(d, tz);
  }
}
