# Booking and availability engine

A Dafny model of the availability and booking engine of a small Flask
booking site. The engine exists in two near-identical variants,
`templates/app.py` (the reference variant) and `app.py` (the second
variant). This model covers both and proves where they agree and where they
differ.

The weekly template maps weekday names to ranges such as `"09:00-11:00"`.
`parse_range` reads one range. `generate_slots_for_date` cuts a date's
ranges into fixed-length slots, allowing one minute of tolerance past a
range's end. `available_slots` lists the slots of every date in a window,
then drops those that start before the lead-time cutoff and those that
overlap a confirmed booking. A booking being rescheduled can be left out of
that overlap check. Three routes change the booking table:

- `book_post` checks the form, refuses an overlapping time and inserts a confirmed row.
- `reschedule_post` finds a row by its manage token, checks the new time against the other confirmed rows and moves it.
- `cancel` finds a row by its token and marks it canceled.

How things are represented:

- Times are whole minutes. An instant counts UTC minutes from 1970-01-01 00:00.
- A `DateTime` is either naive (a wall-clock reading) or aware (a wall-clock reading plus a UTC offset).
- A zone is a fixed offset, looked up by name in a zone database passed in as a parameter.
- A date is a day number. Day 0, 1970-01-01, was a Thursday.
- A raised exception shows up as `None`, or as a rejected request for the store routes.
- A stored booking keeps its UTC start and end as naive readings, the way SQLite hands them back, and `overlaps` stamps them as UTC.

Modules, in dependency order:

- `Wrappers`: `Option`.
- `Seqs`: order-preserving filtering and subsequences.
- `Text`: Python's `str.split`, `str.strip` and `int()`.
- `Clock`: `ensure_aware_utc` and `overlaps`.
- `Zones`: `safe_tz` and how a submitted time gets its zone.
- `Hours`: `parse_range`.
- `Slots`: `generate_slots_for_date`.
- `Bookings`: the rows, the conflict query and the table invariant.
- `Availability`: `daterange` and `available_slots`.
- `Store`: the booking table as a class whose methods are the three routes.

The table invariant `Bookings.Valid` has three parts: ids are distinct, manage tokens are distinct, and no two confirmed bookings overlap. Every store method requires it and preserves it.

Where the code and its documentation disagree, the model follows the code:

- Neither variant rejects a slot whose start is not before its end.
- `reschedule_post` never looks at the status. A canceled booking can be rescheduled, and it stays canceled.
- The conflict checks load every confirmed booking, not just those in the window shown.
- Blocked dates are never applied. `BLOCK_DATES` in `settings.py` is not read anywhere.
- The lead time is compared with a slot's start.

The two variants differ in a few places:

- `overlaps`: the reference variant converts aware values to UTC, while the second only stamps naive values. `Clock.OverlapsVariantsAgree` proves they give the same answer.
- `safe_tz`: the reference variant applies the default itself, while the second relies on its callers. `Zones.SafeTzVariantsAgree` proves they agree.
- Submitted slot times: the reference variant stamps the form's zone only on a naive time. The second stamps it on every time with `.replace(tzinfo=tz)`. `Zones.LocalizeVariantsDiffer` shows an input where the two differ, and `Store.FormInterval` states both behaviours.

## Model

| member | source | states |
|---|---|---|
| Clock.EnsureAwareUtc | templates/app.py:65-69 | the result is aware with offset 0; a naive input keeps its wall reading (read as UTC), an aware one keeps its instant |
| Clock.EnsureAwareUtcOrNone | app.py:76-82 | `None` passes through as `None`; any datetime is normalised as `ensure_aware_utc` does |
| Clock.Overlaps | templates/app.py:72-78 | true exactly when the UTC instants satisfy aStart < bEnd and aEnd > bStart (half-open intersection) |
| Clock.StampNaive | app.py:87-94 | the second variant's stamping makes every value aware: an aware value is returned unchanged, a naive one keeps its wall reading and is read as UTC |
| Clock.OverlapsStampingNaive | app.py:85-96 | no contract of its own; `Clock.OverlapsVariantsAgree` proves it equal to `Clock.Overlaps` on every input |
| Clock.OverlapsVariantsAgree | app.py:85-96 | the second variant's `overlaps` (stamp naive values only) answers exactly as the reference variant's |
| Clock.EnsureAwareUtcIdempotent | templates/app.py:65-69 | normalising twice is normalising once |
| Clock.IntersectsSymmetric | templates/app.py:78 | overlap is symmetric in its two intervals |
| Clock.BackToBackDisjoint | templates/app.py:78 | an interval ending where another starts does not overlap it, in either order |
| Clock.SelfOverlap | templates/app.py:78 | an interval overlaps itself exactly when it is non-empty |
| Zones.ZoneInfo | templates/app.py:60-62 | a zone is found exactly when the name is non-empty and known, and carries that name's offset |
| Zones.OrDefault | templates/app.py:60 | no contract of its own; the name `safe_tz` looks up, used by `Zones.SafeTz` and `Store.FormZone` |
| Zones.SafeTz | templates/app.py:57-62 | a known, non-empty requested name gives that zone; anything else gives the default zone, or raises when the default is unknown too |
| Zones.SafeTzDirect | app.py:68-73 | no contract of its own; `Zones.SafeTzVariantsAgree` proves it resolves every name as `Zones.SafeTz` does |
| Zones.SafeTzVariantsAgree | app.py:68-73 | the second variant's `safe_tz`, with or without the caller's `or settings.TIMEZONE`, resolves every name as the reference variant does |
| Zones.Localize | templates/app.py:303-308 | the localised time is aware with the same wall reading; a naive time gets the form's offset; the second variant always gets the form's offset; the reference variant keeps an aware time as it is |
| Zones.LocalizeVariantsAgree | app.py:309-310 | on a naive time, or one already in the form's offset, the variants localise alike |
| Zones.LocalizeVariantsDiffer | app.py:309-310 | "10:00+00:00" submitted in a zone at -05:00 is 10:00 UTC in the reference variant and 15:00 UTC in the second |
| Text.Split | templates/app.py:85 | `str.split(sep)`: one more part than there are separators, and no part contains the separator |
| Text.SplitAtFirst | templates/app.py:85 | splitting cuts at the first separator |
| Text.SplitJoin | templates/app.py:85-87 | splitting the join of separator-free parts gives back the parts |
| Text.SplitWithoutSeparator | templates/app.py:85 | a string without the separator splits into itself alone |
| Text.JoinSplit | templates/app.py:85 | joining the parts of a split gives back the string |
| Text.TrimLeft | templates/app.py:276-278 | the result is a suffix of the input that does not start with white space of the given kind (`str.strip`'s or `int()`'s), and every character removed is such white space |
| Text.TrimRight | templates/app.py:276-278 | the result is a prefix of the input that does not end with white space of the given kind, and every character removed is such white space |
| Text.Strip | templates/app.py:276-278 | no contract of its own; `str.strip` is trimming with its own white-space set, stated by `Text.TrimKeepsCore` and `Text.TrimIdempotent` |
| Text.TrimKeepsCore | templates/app.py:276-278 | trimming (as `str.strip` does, and as `int()` does before reading digits) keeps one contiguous piece of the input, removes only white space before and after it, and leaves no white space at either end |
| Text.TrimIdempotent | templates/app.py:276-278 | trimming twice is trimming once |
| Text.ParseInt | templates/app.py:86-87 | no contract of its own; `Text.ParseTwoDigits` states its value on two-digit fields, `Text.GroupedOnlyDigits` what it accepts and `Text.IntRejectsSeparatorControl` that it does not skip the white space `str.strip` alone removes |
| Text.IntRejectsSeparatorControl | templates/app.py:86-87 | `int()` raises on every text that starts with one of the separator controls 0x1C-0x1F |
| Text.StripRemovesSeparatorControl | templates/app.py:276-278 | `str.strip` removes a separator control 0x1C-0x1F at the front: the text strips as the rest of it does |
| Text.DigitChar | templates/app.py:86 | the character is an ASCII digit of value n |
| Text.TwoDigits | templates/app.py:86 | two ASCII digits |
| Text.ParseTwoDigits | templates/app.py:86-87 | `int()` reads a two-digit field back as its number |
| Text.GroupedOnlyDigits | templates/app.py:86 | a numeral `int()` accepts holds only digits and underscores |
| Hours.ClockTime | templates/app.py:88 | `time(hour, minute)` succeeds exactly for hour 0..23 and minute 0..59, and gives that hour and minute |
| Hours.ParseAll | templates/app.py:86-87 | reading every part with a given parser succeeds exactly when each part reads, and then element k is that part's reading |
| Hours.ParseInts | templates/app.py:86-87 | the list comprehension succeeds exactly when every part parses, and then element k is `int(parts[k])` |
| Hours.ParseFields | templates/app.py:86-87 | no contract of its own; stated by `Hours.FieldsOfParts`, `Hours.FieldsReadBack` and `Hours.FieldsNeedOneColon` |
| Hours.EndClock | templates/app.py:90-93 | the end time exists exactly for a valid clock time or 24:00 sharp; 24:00 becomes 23:59 |
| Hours.ParseRange | templates/app.py:81-94 | a successful parse gives two valid clock times and needs exactly one `-` in the text |
| Hours.ParseIntsPair | templates/app.py:86-87 | two fields that both parse give their two numbers |
| Hours.FieldsOfParts | templates/app.py:86-87 | "a:b" without further colons parses to the numbers of a and b |
| Hours.FieldsReadBack | templates/app.py:86-87 | a field written as HH:MM reads back as (HH, MM) |
| Hours.RangeOfHalves | templates/app.py:85-94 | a range whose two dash-separated halves read as fields parses exactly when the start is a clock time and the end a clock time or 24:00, and gives those times |
| Hours.ParseRangeOfFields | templates/app.py:81-94 | a two-digit-field range parses exactly when its start is a valid clock time and its end is a valid clock time or 24:00; the result is those times, with 24:00 as 23:59 |
| Hours.ParseFormatRoundTrip | templates/app.py:81-94 | valid hour and minute fields written as HH:MM-HH:MM parse back to those two clock times |
| Hours.MidnightEndIsLastMinute | templates/app.py:90-91 | a range written with a valid start and an end of 24:00 parses with its end at 23:59 |
| Hours.OutOfRangeFieldsRaise | templates/app.py:88-93 | a start hour above 23 or minute above 59, or an end out of range other than 24:00, raises |
| Hours.DashCountMustBeOne | templates/app.py:85 | a text without exactly one `-` raises |
| Hours.FieldsNeedOneColon | templates/app.py:86-87 | a field without exactly one `:` raises |
| Hours.MorningRange | templates/app.py:81-94 | the text `Hours.MorningHours`, "09:00-11:00", parses to 09:00 and 11:00 |
| Hours.LastMinuteAndMarkerAgree | templates/app.py:88-93 | for any valid start, a range ending at 23:59 and one ending at 24:00 parse alike, both ending at 23:59 |
| Hours.MidnightRange | app.py:117-120 | the text `Hours.MidnightHours`, "21:00-24:00", parses to 21:00 and 23:59 |
| Hours.BadHourRanges | templates/app.py:88-93 | the texts "25:00-26:00" and "09:00-24:30" raise |
| Slots.Weekday | templates/app.py:108 | `d.weekday()` lies in 0..6 |
| Slots.WeekdayCalendar | templates/app.py:108 | 1970-01-01 is a Thursday (3), each next day has the next weekday modulo 7, and the week repeats every seven days |
| Slots.RangesFor | templates/app.py:108 | no contract of its own; `Slots.ClosedWeekday` and `Slots.SingleRangeDay` state what it gives |
| Slots.Combine | templates/app.py:114-115 | no contract of its own; the instant of a clock time on a date in a fixed-offset zone |
| Slots.RangeSlots | templates/app.py:116-118 | no contract of its own; stated by `Slots.RangeSlotsShape`, `Slots.RangeSlotsCount` and `Slots.RangeSlotsWithin` |
| Slots.RangesSlots | templates/app.py:112-118 | no contract of its own; stated by `Slots.RangesSlotsAt` and `Slots.RangesSlotsShape` |
| Slots.DaySlots | templates/app.py:103-119 | no contract of its own; stated by `Slots.DaySlotsShape`, `Slots.ClosedWeekday` and `Slots.SingleRangeDay`, and computed by `Slots.GenerateSlotsForDate` |
| Slots.AppendRangeSlots | templates/app.py:116-118 | the inner `while` loop appends exactly the slots of one range |
| Slots.GenerateSlotsForDate | templates/app.py:103-119 | the method returns the slots of every range of the date's weekday in template order, or raises when a range does not parse |
| Slots.RangesSlotsAt | templates/app.py:112-118 | the slots of ranges j.. are range j's slots followed by those of ranges j+1.. |
| Slots.PrependTwice | templates/app.py:117 | appending in two steps equals appending once |
| Slots.RangeSlotsShape | templates/app.py:114-118 | each slot lasts exactly one step; the first starts at the range start; each later one starts where the previous one ended; every end is at most one minute past the range end; one more slot would not fit |
| Slots.RangeSlotsCount | templates/app.py:116 | a range yields n slots exactly when n steps fit up to one minute past its end and n+1 do not |
| Slots.RangeSlotsWithin | app.py:134-143 | the slots of one range last one step and lie between its start and one minute past its end |
| Slots.RangesSlotsShape | app.py:129-143 | all slots of a date's ranges last one step and lie within that local day, from its midnight to the next |
| Slots.DaySlotsShape | templates/app.py:103-119 | every slot `generate_slots_for_date` builds lasts one step and lies within the date's local day |
| Slots.ClosedWeekday | templates/app.py:108 | a weekday missing from the template gives no slots |
| Slots.SingleRangeDay | templates/app.py:108-118 | a weekday with one range gives that range's slots |
| Slots.MorningSlots | templates/app.py:114-118 | 09:00 to 11:00 in 60-minute steps gives exactly 09-10 and 10-11 |
| Slots.MorningExample | templates/app.py:103-119 | a weekday whose only range reads as 09:00-11:00 (as `Hours.MorningHours` does) gives, with 60-minute slots, exactly 09:00-10:00 and 10:00-11:00 |
| Slots.MondayMorningTemplate | templates/app.py:103-119 | the template with only Monday open 09:00-11:00, on a Monday, gives exactly the slots 09:00-10:00 and 10:00-11:00 |
| Slots.LateSlots | templates/app.py:116-118 | 21:00 to 23:59 in 60-minute steps gives 21-22, 22-23 and 23-00, the last ending at the next midnight |
| Slots.LateEveningExample | templates/app.py:103-119 | a weekday whose only range reads as 21:00-23:59 (as "21:00-23:59" and "21:00-24:00" do) gives 21-22, 22-23 and 23-00 |
| Seqs.Filter | templates/app.py:144 | no contract of its own; stated by `Seqs.FilterMembers`, `Seqs.FilterSatisfies` and `Seqs.FilterEmbeds` |
| Seqs.FilterMembers | templates/app.py:144 | a list comprehension keeps an element exactly when it occurs in the input and satisfies the condition |
| Seqs.FilterSatisfies | templates/app.py:144 | every kept element satisfies the condition |
| Seqs.FilterEmbeds | templates/app.py:144 | the kept elements sit at increasing positions of the input |
| Seqs.EmbedsCompose | templates/app.py:144-159 | a subsequence of a subsequence is a subsequence |
| Seqs.FilterTwiceIsSubsequence | templates/app.py:144-159 | two filters in a row keep a subsequence of the input |
| Bookings.ConfirmedExcept | templates/app.py:147-151 | no contract of its own; stated by `Bookings.ConfirmedExceptMembers` and `Bookings.ConfirmedExceptSingle` |
| Bookings.Blocks | templates/app.py:148-150 | no contract of its own; a row blocks when it is confirmed and is not the excluded one |
| Bookings.ConfirmedExceptMembers | templates/app.py:147-151 | the conflict query returns exactly the confirmed rows, minus the excluded id when one is given |
| Bookings.ConfirmedExceptSingle | templates/app.py:147-151 | on a one-row table the query keeps the row exactly when it is confirmed and not excluded |
| Bookings.AnyOverlap | templates/app.py:320 | the `any(overlaps(...))` check is true exactly when some row's stored interval intersects the new one |
| Bookings.NoConflictMeans | templates/app.py:318-322 | the check passes exactly when no confirmed row, other than the excluded one, intersects the interval |
| Bookings.FindByToken | templates/app.py:416 | `filter_by(manage_token=token).first()` finds nothing exactly when no row has the token; otherwise it finds the first row with it |
| Bookings.NoDoubleBooking | templates/app.py:318-334 | no contract of its own; the invariant that no two confirmed bookings overlap, kept by the `...Keeps...` lemmas |
| Bookings.Valid | templates/app.py:37-44 | no contract of its own; distinct ids (primary key), distinct manage tokens (unique column) and no double booking |
| Bookings.InsertKeepsNoDoubleBooking | templates/app.py:318-334 | inserting a row that passed the check keeps confirmed rows pairwise non-overlapping |
| Bookings.MoveKeepsNoDoubleBooking | templates/app.py:421-427 | moving a row that passed the check against the other confirmed rows keeps them pairwise non-overlapping |
| Bookings.CancelKeepsNoDoubleBooking | templates/app.py:452 | canceling keeps confirmed rows pairwise non-overlapping |
| Bookings.OwnIntervalIsFree | templates/app.py:421-422 | a confirmed booking's own interval passes the check that leaves out its id |
| Bookings.OwnIntervalBlocksItself | templates/app.py:318-320 | without the exclusion, a confirmed non-empty booking blocks its own interval |
| Bookings.InsertKeepsValid | templates/app.py:324-334 | inserting a checked row with an unused id and token keeps the whole table invariant |
| Bookings.MoveKeepsValid | templates/app.py:426-427 | moving a checked row keeps the whole table invariant |
| Bookings.CancelKeepsValid | templates/app.py:452 | canceling keeps the whole table invariant |
| Availability.WindowDates | templates/app.py:97-100 | `daterange` lists as many dates as whole days lie in the window, consecutive from the start's date |
| Availability.WindowOfDays | templates/app.py:136-141 | a window of N days from the start lists exactly N consecutive dates from the start's date (none when N is not positive) |
| Availability.Exclusion | templates/app.py:149-150 | an id excludes a booking exactly when it is given and non-empty |
| Availability.Candidates | templates/app.py:138-141 | no contract of its own; stated by `Availability.CandidatesAt` and `Availability.CandidatesShape`, computed by `Availability.CollectCandidates` |
| Availability.AfterLead | templates/app.py:143-144 | no contract of its own; the lead-time filter, stated by `Availability.FreeSlotsExactly` |
| Availability.FreeOf | templates/app.py:153-159 | no contract of its own; the overlap filter, stated by `Availability.FreeSlotsExactly` and computed by `Availability.DropBooked` |
| Availability.Available | templates/app.py:122-160 | no contract of its own; what `available_slots` returns, stated by `Availability.AvailableOffers` and computed by `Availability.AvailableSlots` |
| Availability.CandidatesAt | templates/app.py:140-141 | the candidates from date i on are date i's slots followed by those from date i+1 on |
| Availability.CollectCandidates | templates/app.py:136-141 | the loop over the window's dates collects every date's slots in date order, or raises when a range does not parse |
| Availability.DropBooked | templates/app.py:153-159 | the overlap loop keeps exactly the candidates that overlap none of the given bookings, in their order |
| Availability.AvailableSlots | templates/app.py:122-160 | the method returns exactly the candidates of the window that start at or after now plus the lead time and overlap no confirmed booking other than the excluded one; it raises when a range or the default zone is bad |
| Availability.FreeSlotsExactly | templates/app.py:144-159 | a slot is offered exactly when it is a candidate, starts at or after the cutoff and intersects no confirmed booking other than the excluded one |
| Availability.FreeSlotsKeepOrder | app.py:166-182 | the offered slots are an order-preserving subsequence of the candidates |
| Availability.FreeSlotsSound | templates/app.py:144-159 | every offered slot is a candidate, in candidate order, starts at or after now plus the lead time, and intersects no confirmed booking other than the excluded one |
| Availability.AvailableOffers | templates/app.py:122-160 | when `available_slots` succeeds, every offered slot lasts one slot length, lies within the window's days, starts at or after now plus the lead time, and overlaps no confirmed booking other than the one a non-empty exclude id names |
| Availability.CandidatesShape | templates/app.py:136-141 | every candidate of the window lasts one slot and lies between the first date's midnight and the midnight after the last date |
| Availability.BookedHourExample | templates/app.py:153-159 | with a confirmed 10:00-11:00 booking, 09-10, 10-11 and 11-12 leave 09-10 and 11-12 |
| Availability.ExcludedBookingDoesNotBlock | templates/app.py:375-382 | with its own id excluded, a confirmed booking's own slot is offered again |
| Store.FormZone | app.py:285-286 | the form's zone, `safe_tz(form tz or TIMEZONE)`, is the same in both variants |
| Store.FormInterval | templates/app.py:303-315 | both times parse or the slot is invalid; a naive time, or any time in the second variant, is read in the form's zone; the reference variant keeps an aware time's own instant |
| Store.ParsesNoEmpty | templates/app.py:398-402 | no contract of its own; the date parser raises on the empty string, as `fromisoformat` does |
| Store.MissingSlotTimeIsInvalid | templates/app.py:398-410 | with such a parser, a missing start or end time makes the slot invalid |
| Store.Filled | templates/app.py:284 | no contract of its own; the required-fields test, stated by `Store.CheckBooking` |
| Store.CheckBooking | templates/app.py:276-315 | requests are turned away in the source's order: bad default zone, an empty field, bad email, bad phone, bad slot time; an accepted form gives the stripped name and email, the normalised phone and the slot's instants |
| Store.BookingStore.constructor | templates/app.py:48 | a new table is empty and valid |
| Store.BookingStore.Book | templates/app.py:274-334 | a rejected form, an overlapping time or a used id or token changes nothing; otherwise exactly one confirmed row with the fresh id and token and the slot is appended, overlapping no confirmed row; the invariant is preserved |
| Store.BookingStore.Reschedule | templates/app.py:394-428 | a bad zone, a bad time, an unknown token or a time overlapping another confirmed booking changes nothing; otherwise only the row's start and end change, its status stays as it was; the invariant is preserved |
| Store.BookingStore.Cancel | templates/app.py:445-455 | an unknown token changes nothing; otherwise exactly the found row's status becomes canceled, a second cancel changes nothing, and the invariant is preserved |
| Store.SameSlotTwice | app.py:318-335 | booking the same non-empty slot twice saves the first and refuses the second as an overlap |
| Store.CancelThenRebook | templates/app.py:445-455 | after a cancel, the freed slot can be booked again |

## Left out

- Flask and its request handling are not modelled: routes, templates, `flash`, `redirect`, `jsonify`, the query-string date fallbacks of `home` and `api_slots`, `manage`, `admin_bookings`, `health` and the error handler. All of this is web plumbing.
- SQLAlchemy sessions and commits: the table is an in-memory sequence, and each method is one atomic step.
- The race between the conflict query and the commit: the model is sequential.
- `send_email`, `send_sms` and `fmt_local`: notifications and formatting have no effect on the table.
- `validate_email`, the `phonenumbers` checks and E.164 formatting, and `datetime.fromisoformat`: these are foreign libraries. The model takes them as function parameters.
- `uuid4`: the fresh id and token are parameters. A clash with an existing row is the `DuplicateKey` outcome, which changes nothing.
- `datetime.now`: the current instant is a parameter, and so is `created_at`.
- The zone database, DST and `astimezone`: zones are fixed offsets from a map given as a parameter.
- `settings.py`: the template, slot length, lead time, window and default zone are parameters.
- Slots.GenerateSlotsForDate: requires `slot_minutes > 0`, so a step of zero or less is not modelled. With such a step, on a range whose end plus one minute is at or past its start plus the step, the source's loop does not stop by itself: a zero step appends the same slot until memory runs out, and a negative step walks below `datetime.min` and raises `OverflowError`; it returns `[]` for a closed weekday or when every range starts too far past its end. Every caller passes `settings.SLOT_MINUTES`, which is 60 (settings.py:3).
- Python datetimes are bounded (years 1 to 9999); the model's integers are not. For example, `start_date_local + timedelta(days=days_ahead)` (templates/app.py:136) raises `OverflowError` for a huge `BOOKING_DAYS_AHEAD`, where `Availability.Available` still returns slots.
- Text.Strip: strips the ASCII characters of `str.isspace` only (tab to carriage return, 0x1C to space). Python's `str.strip` also removes non-ASCII white space.
- Text.ParseInt: skips only tab to carriage return and space around the numeral and reads ASCII digits only. Python's `int()` also skips non-ASCII white space (CPython turns it into a space first) and reads other Unicode decimal digits, and CPython 3.11 and later raise `ValueError` on a numeral of more than 4300 digits; the model reads numerals of any length.
