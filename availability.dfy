/**
 * `available_slots`: the candidates of every date in the window, less those
 * starting before the lead-time cutoff, less those overlapping a confirmed
 * booking other than the one being rescheduled.
 */
module Availability {
  import opened Wrappers
  import opened Clock
  import opened Zones
  import opened Seqs
  import opened Slots
  import opened Bookings

  /**
   * The dates `daterange` yields: the local date of the start and the days
   * after it, as many as there are whole days between the two wall-clock
   * readings.
   */
  function WindowDates(startWall: int, endWall: int): (ds: seq<int>)
    ensures |ds| == if endWall - startWall >= MinutesPerDay then (endWall - startWall) / MinutesPerDay else 0
    ensures forall i :: 0 <= i < |ds| ==> ds[i] == startWall / MinutesPerDay + i
  {
    var days := (endWall - startWall) / MinutesPerDay;
    seq(if days > 0 then days else 0, i => (startWall + i * MinutesPerDay) / MinutesPerDay)
  }

  /** A window of `n` days from `startWall` lists exactly `n` consecutive dates, from the start's own. */
  lemma WindowOfDays(startWall: int, n: int, ds: seq<int>)
    requires ds == WindowDates(startWall, startWall + n * MinutesPerDay)
    ensures |ds| == if n > 0 then n else 0
    ensures forall i :: 0 <= i < |ds| ==> ds[i] == startWall / MinutesPerDay + i
  {
    assert (startWall + n * MinutesPerDay - startWall) / MinutesPerDay == n;
  }

  /** The candidates of `dates`, each date's slots in turn; `None` where generation raises. */
  function Candidates(template: Template, dates: seq<int>, tz: Zone, step: int): Option<seq<Slot>>
    requires step > 0
    decreases |dates|
  {
    if dates == [] then Some([])
    else
      var first := DaySlots(template, dates[0], tz, step);
      if first.None? then None else Prepend(first.value, Candidates(template, dates[1..], tz, step))
  }

  /** The lead-time filter: the candidates that start at or after the cutoff, in order. */
  function AfterLead(cands: seq<Slot>, cutoff: int): seq<Slot>
  {
    Filter(cands, (s: Slot) => s.start >= cutoff)
  }

  /** The candidates that overlap none of `existing`. */
  function FreeOf(cands: seq<Slot>, existing: seq<Booking>): seq<Slot>
  {
    Filter(cands, (s: Slot) => !AnyOverlap(existing, s.start, s.end))
  }

  /** `if exclude_booking_id:` — an empty id excludes nothing. */
  function Exclusion(excludeId: Option<string>): (r: Option<string>)
    ensures r.Some? <==> excludeId.Some? && excludeId.value != ""
    ensures r.Some? ==> r == excludeId
  {
    if excludeId.Some? && excludeId.value != "" then excludeId else None
  }

  /**
   * What `available_slots` returns, with the clock reading `nowUtc` and the
   * booking table `rows`; `None` where it raises.
   */
  function Available(template: Template, zones: ZoneDb, defaultZone: string, startWall: int, daysAhead: int,
                     slotMinutes: int, leadMinutes: int, tzOverride: Option<string>, excludeId: Option<string>,
                     nowUtc: int, rows: seq<Booking>): Option<seq<Slot>>
    requires slotMinutes > 0
  {
    var tz := SafeTz(tzOverride, zones, defaultZone);
    if tz.None? then None
    else
      var cands := Candidates(template, WindowDates(startWall, startWall + daysAhead * MinutesPerDay), tz.value, slotMinutes);
      if cands.None? then None
      else Some(FreeOf(AfterLead(cands.value, nowUtc + leadMinutes), ConfirmedExcept(rows, Exclusion(excludeId))))
  }

  lemma CandidatesAt(template: Template, dates: seq<int>, i: int, tz: Zone, step: int, day: Option<seq<Slot>>)
    requires step > 0 && 0 <= i < |dates| && day == DaySlots(template, dates[i], tz, step)
    ensures day.None? ==> Candidates(template, dates[i..], tz, step) == None
    ensures day.Some? ==>
      Candidates(template, dates[i..], tz, step) == Prepend(day.value, Candidates(template, dates[i + 1..], tz, step))
  {
    assert dates[i..][0] == dates[i];
    assert dates[i..][1..] == dates[i + 1..];
  }

  /** The candidate loop of `available_slots`: each date's slots in turn, stopping where one raises. */
  method CollectCandidates(template: Template, dates: seq<int>, tz: Zone, slotMinutes: int)
    returns (out: Option<seq<Slot>>)
    requires slotMinutes > 0
    ensures out == Candidates(template, dates, tz, slotMinutes)
  {
    var candidates: seq<Slot> := [];
    assert dates[0..] == dates;
    ghost var all := Candidates(template, dates, tz, slotMinutes);
    assert all.Some? ==> [] + all.value == all.value;
    for i := 0 to |dates|
      invariant all == Prepend(candidates, Candidates(template, dates[i..], tz, slotMinutes))
    {
      var day := GenerateSlotsForDate(template, dates[i], tz, slotMinutes);
      CandidatesAt(template, dates, i, tz, slotMinutes, day);
      if day.None? {
        return None;
      }
      PrependTwice(candidates, day.value, Candidates(template, dates[i + 1..], tz, slotMinutes));
      candidates := candidates + day.value;
    }
    assert Candidates(template, dates[|dates|..], tz, slotMinutes) == Some([]);
    assert candidates + [] == candidates;
    return Some(candidates);
  }

  /** The overlap loop of `available_slots`: keep each candidate no booking in `existing` overlaps. */
  method DropBooked(candidates: seq<Slot>, existing: seq<Booking>) returns (free: seq<Slot>)
    ensures free == FreeOf(candidates, existing)
  {
    free := [];
    for k := 0 to |candidates|
      invariant free == FreeOf(candidates[..k], existing)
    {
      var c := candidates[k];
      assert candidates[..k + 1][..k] == candidates[..k];
      if !AnyOverlap(existing, c.start, c.end) {
        free := free + [c];
      }
    }
    assert candidates[..|candidates|] == candidates;
  }

  /** `available_slots`: the window's candidates, after the lead time, less the booked ones. */
  method AvailableSlots(template: Template, zones: ZoneDb, defaultZone: string, startWall: int, daysAhead: int,
                        slotMinutes: int, leadMinutes: int, tzOverride: Option<string>, excludeId: Option<string>,
                        nowUtc: int, rows: seq<Booking>) returns (free: Option<seq<Slot>>)
    requires slotMinutes > 0
    ensures free == Available(template, zones, defaultZone, startWall, daysAhead, slotMinutes, leadMinutes,
                              tzOverride, excludeId, nowUtc, rows)
  {
    var tz := SafeTz(tzOverride, zones, defaultZone);
    if tz.None? {
      return None;
    }
    var nowLocal := nowUtc + leadMinutes;
    var endWall := startWall + daysAhead * MinutesPerDay;
    var candidates := CollectCandidates(template, WindowDates(startWall, endWall), tz.value, slotMinutes);
    if candidates.None? {
      return None;
    }
    var existing := ConfirmedExcept(rows, Exclusion(excludeId));
    var kept := DropBooked(AfterLead(candidates.value, nowLocal), existing);
    free := Some(kept);
  }

  /**
   * A slot is offered exactly when it is a candidate, starts at or after the
   * cutoff, and overlaps no confirmed booking other than the excluded one.
   */
  lemma FreeSlotsExactly(cands: seq<Slot>, cutoff: int, rows: seq<Booking>, exclude: Option<string>, s: Slot)
    ensures s in FreeOf(AfterLead(cands, cutoff), ConfirmedExcept(rows, exclude))
        <==> s in cands && s.start >= cutoff
             && forall b :: b in rows && Blocks(b, exclude) ==> !Intersects(s.start, s.end, b.startUtc, b.endUtc)
  {
    FilterMembers(cands, (s: Slot) => s.start >= cutoff, s);
    var ex := ConfirmedExcept(rows, exclude);
    FilterMembers(AfterLead(cands, cutoff), (s: Slot) => !AnyOverlap(ex, s.start, s.end), s);
    NoConflictMeans(rows, exclude, s.start, s.end);
  }

  /** The offered slots keep the candidates' order: they are a subsequence of them. */
  lemma FreeSlotsKeepOrder(cands: seq<Slot>, cutoff: int, existing: seq<Booking>)
    ensures IsSubsequence(FreeOf(AfterLead(cands, cutoff), existing), cands)
  {
    FilterTwiceIsSubsequence(cands, (s: Slot) => s.start >= cutoff, (s: Slot) => !AnyOverlap(existing, s.start, s.end));
  }

  /**
   * Every slot `available_slots` offers is a candidate, in candidate order,
   * starts at or after the cutoff and overlaps no blocking booking. The
   * offered list is `FreeOf(AfterLead(cands, cutoff), ConfirmedExcept(rows, exclude))`
   * by the definition of `Available`.
   */
  lemma FreeSlotsSound(cands: seq<Slot>, cutoff: int, rows: seq<Booking>, exclude: Option<string>)
    ensures var free := FreeOf(AfterLead(cands, cutoff), ConfirmedExcept(rows, exclude));
      && IsSubsequence(free, cands)
      && (forall k :: 0 <= k < |free| ==> free[k].start >= cutoff)
      && (forall k, b :: 0 <= k < |free| && b in rows && Blocks(b, exclude)
            ==> !Intersects(free[k].start, free[k].end, b.startUtc, b.endUtc))
  {
    var free := FreeOf(AfterLead(cands, cutoff), ConfirmedExcept(rows, exclude));
    FreeSlotsKeepOrder(cands, cutoff, ConfirmedExcept(rows, exclude));
    forall k | 0 <= k < |free|
      ensures free[k].start >= cutoff
      ensures forall b :: b in rows && Blocks(b, exclude) ==> !Intersects(free[k].start, free[k].end, b.startUtc, b.endUtc)
    {
      FreeSlotsExactly(cands, cutoff, rows, exclude, free[k]);
    }
  }

  /** Every candidate of a date generated without error lasts one slot and lies within the window. */
  lemma {:induction false} CandidatesShape(template: Template, dates: seq<int>, tz: Zone, step: int, lo: int, hi: int)
    requires step > 0
    requires Candidates(template, dates, tz, step).Some?
    requires forall i :: 0 <= i < |dates| ==> lo <= dates[i] < hi
    ensures AllLast(Candidates(template, dates, tz, step).value, step)
    ensures AllWithin(Candidates(template, dates, tz, step).value, Combine(lo, 0, tz), Combine(hi, 0, tz))
    decreases |dates|
  {
    if dates != [] {
      CandidatesShape(template, dates[1..], tz, step, lo, hi);
      DaySlotsShape(template, dates[0], tz, step);
    }
  }

  /**
   * What `available_slots` offers, end to end: when the call succeeds, every
   * offered slot lasts one slot length, lies between the midnight of the
   * window's first date and the midnight after its last date, starts at or
   * after now plus the lead time, and overlaps no confirmed booking other
   * than the one a non-empty `excludeId` names.
   */
  lemma AvailableOffers(template: Template, zones: ZoneDb, defaultZone: string, startWall: int, daysAhead: int,
                        slotMinutes: int, leadMinutes: int, tzOverride: Option<string>, excludeId: Option<string>,
                        nowUtc: int, rows: seq<Booking>, tz: Zone, free: seq<Slot>)
    requires slotMinutes > 0
    requires SafeTz(tzOverride, zones, defaultZone) == Some(tz)
    requires Available(template, zones, defaultZone, startWall, daysAhead, slotMinutes, leadMinutes,
                       tzOverride, excludeId, nowUtc, rows) == Some(free)
    ensures AllLast(free, slotMinutes)
    ensures AllWithin(free, Combine(startWall / MinutesPerDay, 0, tz), Combine(startWall / MinutesPerDay + daysAhead, 0, tz))
    ensures forall k :: 0 <= k < |free| ==> free[k].start >= nowUtc + leadMinutes
    ensures forall k, b :: 0 <= k < |free| && b in rows && b.status == Confirmed
              && (excludeId.None? || excludeId.value == "" || b.id != excludeId.value)
              ==> !Intersects(free[k].start, free[k].end, b.startUtc, b.endUtc)
  {
    var first := startWall / MinutesPerDay;
    var cutoff := nowUtc + leadMinutes;
    var ex := Exclusion(excludeId);
    var dates := WindowDates(startWall, startWall + daysAhead * MinutesPerDay);
    WindowOfDays(startWall, daysAhead, dates);
    var cands := Candidates(template, dates, tz, slotMinutes);
    assert cands.Some? && free == FreeOf(AfterLead(cands.value, cutoff), ConfirmedExcept(rows, ex));
    CandidatesShape(template, dates, tz, slotMinutes, first, first + daysAhead);
    FreeSlotsSound(cands.value, cutoff, rows, ex);
    forall k | 0 <= k < |free|
      ensures free[k].end - free[k].start == slotMinutes
      ensures Combine(first, 0, tz) <= free[k].start && free[k].end <= Combine(first + daysAhead, 0, tz)
    {
      FreeSlotsExactly(cands.value, cutoff, rows, ex, free[k]);
      var j :| 0 <= j < |cands.value| && cands.value[j] == free[k];
    }
    forall b | b in rows && b.status == Confirmed && (excludeId.None? || excludeId.value == "" || b.id != excludeId.value)
      ensures Blocks(b, ex)
    {
    }
  }

  /**
   * With a confirmed booking at 10:00-11:00, the candidates 09:00-10:00,
   * 10:00-11:00 and 11:00-12:00 leave 09:00-10:00 and 11:00-12:00.
   */
  lemma BookedHourExample(c: int, b: Booking)
    requires b.status == Confirmed && b.startUtc == c + 600 && b.endUtc == c + 660
    ensures FreeOf([Slot(c + 540, c + 600), Slot(c + 600, c + 660), Slot(c + 660, c + 720)], ConfirmedExcept([b], None))
         == [Slot(c + 540, c + 600), Slot(c + 660, c + 720)]
  {
    var cands := [Slot(c + 540, c + 600), Slot(c + 600, c + 660), Slot(c + 660, c + 720)];
    ConfirmedExceptSingle(b, None);
    assert [b][1..] == [];
    assert !AnyOverlap([b], c + 540, c + 600);
    assert AnyOverlap([b], c + 600, c + 660);
    assert !AnyOverlap([b], c + 660, c + 720);
    assert cands[..2][..1] == cands[..1];
    assert cands[..1][..0] == [];
    var p := (s: Slot) => !AnyOverlap([b], s.start, s.end);
    assert cands[..1] == [cands[0]] && p(cands[0]);
    assert Filter(cands[..1], p) == Filter(cands[..1][..0], p) + [cands[0]];
    assert FreeOf(cands[..1], [b]) == [cands[0]];
    assert cands[..2] == [cands[0], cands[1]] && !p(cands[1]);
    assert Filter(cands[..2], p) == Filter(cands[..1], p);
    assert FreeOf(cands[..2], [b]) == [cands[0]];
    assert p(cands[2]);
    assert Filter(cands, p) == Filter(cands[..2], p) + [cands[2]];
    assert cands[..3] == cands;
  }

  /**
   * A confirmed booking's own interval is offered again when it is the one
   * excluded: the reschedule page can show the slot the booking holds.
   */
  lemma ExcludedBookingDoesNotBlock(cands: seq<Slot>, cutoff: int, rows: seq<Booking>, i: int)
    requires Valid(rows) && 0 <= i < |rows| && rows[i].status == Confirmed
    requires Slot(rows[i].startUtc, rows[i].endUtc) in cands && rows[i].startUtc >= cutoff
    ensures Slot(rows[i].startUtc, rows[i].endUtc) in FreeOf(AfterLead(cands, cutoff), ConfirmedExcept(rows, Some(rows[i].id)))
  {
    OwnIntervalIsFree(rows, i);
    NoConflictMeans(rows, Some(rows[i].id), rows[i].startUtc, rows[i].endUtc);
    FreeSlotsExactly(cands, cutoff, rows, Some(rows[i].id), Slot(rows[i].startUtc, rows[i].endUtc));
  }
}
