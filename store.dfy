/**
 * The booking table and the three routes that change it: `book_post`
 * inserts a confirmed row, `reschedule_post` moves a row found by its manage
 * token, `cancel` marks such a row canceled.
 *
 * What the model cannot compute is a parameter: the zone database,
 * `datetime.fromisoformat`, `validate_email`, the phone-number library, the
 * fresh id and token `uuid4` would draw, and the clock reading.
 */
module Store {
  import opened Wrappers
  import opened Clock
  import opened Zones
  import opened Text
  import opened Bookings

  /** How a request ends: a saved change, or the message it is turned away with. */
  datatype Outcome =
    | Success
    | ServerError      // `safe_tz` raised: the configured default zone is unknown
    | MissingFields    // "Name, email, phone and a time slot are required."
    | InvalidEmail     // "Email looks invalid: ..."
    | InvalidPhone     // "Please enter a valid US phone number ..."
    | InvalidSlotTime  // "Invalid slot time."
    | Conflict         // "That time overlaps an existing (another) booking."
    | DuplicateKey     // the commit violates the primary key or the token's unique constraint
    | LinkNotFound     // "Manage link not found."

  /** The services a route consults and the model leaves abstract. */
  datatype Env = Env(
    zones: ZoneDb,
    defaultZone: string,
    parseIso: string -> Option<DateTime>,
    validEmail: string -> bool,
    normalizePhone: string -> Option<string>)

  /** The fields `book_post` reads from the form, as submitted. */
  datatype BookingForm = BookingForm(
    name: string,
    email: string,
    phone: string,
    slotStartIso: string,
    slotEndIso: string,
    tz: Option<string>)

  datatype Interval = Interval(startUtc: int, endUtc: int)

  /** A booking form turned away with a message, or its cleaned-up contents. */
  datatype Checked =
    | Rejected(why: Outcome)
    | Accepted(name: string, email: string, phone: string, slot: Interval)

  /** The zone a form asks for, or the default zone when it names none. */
  function FormZone(env: Env, tz: Option<string>): (r: Option<Zone>)
    ensures r == SafeTz(tz, env.zones, env.defaultZone)
    ensures r == SafeTzDirect(Some(OrDefault(tz, env.defaultZone)), env.zones, env.defaultZone)
  {
    SafeTzVariantsAgree(Some(OrDefault(tz, env.defaultZone)), env.zones, env.defaultZone);
    SafeTz(Some(OrDefault(tz, env.defaultZone)), env.zones, env.defaultZone)
  }

  /**
   * The submitted start and end as UTC instants, `None` where
   * `fromisoformat` raises on either. A naive time is read in the form's
   * zone; an aware one keeps its own offset in the reference variant and is
   * moved into the form's zone in the second.
   */
  function FormInterval(v: Variant, tz: Zone, parseIso: string -> Option<DateTime>, startIso: string, endIso: string): (r: Option<Interval>)
    ensures r.Some? <==> parseIso(startIso).Some? && parseIso(endIso).Some?
    ensures r.Some? && (v == Second || parseIso(startIso).value.Naive?) ==>
      r.value.startUtc == parseIso(startIso).value.wall - tz.offset
    ensures r.Some? && (v == Second || parseIso(endIso).value.Naive?) ==>
      r.value.endUtc == parseIso(endIso).value.wall - tz.offset
    ensures r.Some? && v == Reference && parseIso(startIso).value.Aware? ==>
      r.value.startUtc == Instant(parseIso(startIso).value)
    ensures r.Some? && v == Reference && parseIso(endIso).value.Aware? ==>
      r.value.endUtc == Instant(parseIso(endIso).value)
  {
    var s := parseIso(startIso);
    if s.None? then None
    else
      var e := parseIso(endIso);
      if e.None? then None
      else Some(Interval(Instant(Localize(v, s.value, tz)), Instant(Localize(v, e.value, tz))))
  }

  /**
   * A date parser that, like `fromisoformat`, raises on the empty string.
   * The reschedule route relies on it: a missing slot field reads as "".
   */
  predicate ParsesNoEmpty(parseIso: string -> Option<DateTime>)
  {
    parseIso("").None?
  }

  /** With such a parser, a missing start or end time makes the slot invalid. */
  lemma MissingSlotTimeIsInvalid(v: Variant, tz: Zone, parseIso: string -> Option<DateTime>, startIso: string, endIso: string)
    requires ParsesNoEmpty(parseIso)
    requires startIso == "" || endIso == ""
    ensures FormInterval(v, tz, parseIso, startIso, endIso).None?
  {
  }

  /** Every required field is non-empty: name, email and phone after stripping, and both slot times. */
  predicate Filled(form: BookingForm)
  {
    Strip(form.name) != "" && Strip(form.email) != "" && Strip(form.phone) != ""
    && form.slotStartIso != "" && form.slotEndIso != ""
  }

  /**
   * The checks `book_post` makes before it opens a session, in its order:
   * the zone, the required fields, the email, the phone, the slot times.
   */
  function CheckBooking(v: Variant, env: Env, form: BookingForm): (c: Checked)
    ensures c.Rejected? ==> c.why in {ServerError, MissingFields, InvalidEmail, InvalidPhone, InvalidSlotTime}
    ensures c == Rejected(ServerError) <==> FormZone(env, form.tz).None?
    ensures c == Rejected(MissingFields) <==> FormZone(env, form.tz).Some? && !Filled(form)
    ensures c == Rejected(InvalidEmail) <==>
      FormZone(env, form.tz).Some? && Filled(form) && !env.validEmail(Strip(form.email))
    ensures c == Rejected(InvalidPhone) <==>
      FormZone(env, form.tz).Some? && Filled(form) && env.validEmail(Strip(form.email))
      && env.normalizePhone(Strip(form.phone)).None?
    ensures c == Rejected(InvalidSlotTime) <==>
      FormZone(env, form.tz).Some? && Filled(form) && env.validEmail(Strip(form.email))
      && env.normalizePhone(Strip(form.phone)).Some?
      && FormInterval(v, FormZone(env, form.tz).value, env.parseIso, form.slotStartIso, form.slotEndIso).None?
    ensures c.Accepted? ==>
      && c.name == Strip(form.name) && c.name != ""
      && c.email == Strip(form.email) && env.validEmail(c.email)
      && Some(c.phone) == env.normalizePhone(Strip(form.phone))
      && Some(c.slot) == FormInterval(v, FormZone(env, form.tz).value, env.parseIso, form.slotStartIso, form.slotEndIso)
  {
    var tz := FormZone(env, form.tz);
    if tz.None? then Rejected(ServerError)
    else if !Filled(form) then Rejected(MissingFields)
    else if !env.validEmail(Strip(form.email)) then Rejected(InvalidEmail)
    else
      var phone := env.normalizePhone(Strip(form.phone));
      if phone.None? then Rejected(InvalidPhone)
      else
        var slot := FormInterval(v, tz.value, env.parseIso, form.slotStartIso, form.slotEndIso);
        if slot.None? then Rejected(InvalidSlotTime)
        else Accepted(Strip(form.name), Strip(form.email), phone.value, slot.value)
  }

  /** The booking table. */
  class BookingStore {
    var bookings: seq<Booking>

    /** Keys are distinct, tokens are distinct, confirmed bookings never overlap. */
    ghost predicate Valid()
      reads this
    {
      Bookings.Valid(bookings)
    }

    constructor()
      ensures Valid() && bookings == []
    {
      bookings := [];
    }

    /**
     * `book_post`: check the form, refuse a time that overlaps a confirmed
     * booking, then add the row as confirmed.
     */
    method Book(v: Variant, env: Env, form: BookingForm, freshId: string, freshToken: string, now: int)
      returns (o: Outcome)
      requires Valid()
      modifies this
      ensures Valid()
      ensures CheckBooking(v, env, form).Rejected? ==>
        o == CheckBooking(v, env, form).why && bookings == old(bookings)
      ensures CheckBooking(v, env, form).Accepted? ==>
        var c := CheckBooking(v, env, form);
        var clash := AnyOverlap(ConfirmedExcept(old(bookings), None), c.slot.startUtc, c.slot.endUtc);
        var taken := HasId(old(bookings), freshId) || HasToken(old(bookings), freshToken);
        && (clash ==> o == Conflict && bookings == old(bookings))
        && (!clash && taken ==> o == DuplicateKey && bookings == old(bookings))
        && (!clash && !taken ==>
              (o == Success && bookings == old(bookings) +
                 [Booking(freshId, c.name, c.email, c.phone, c.slot.startUtc, c.slot.endUtc, Confirmed, freshToken, now)]))
      ensures o == Success ==> |bookings| == |old(bookings)| + 1 && bookings[..|old(bookings)|] == old(bookings)
      ensures o == Success ==> forall b :: b in old(bookings) && b.status == Confirmed ==>
        !Intersects(bookings[|old(bookings)|].startUtc, bookings[|old(bookings)|].endUtc, b.startUtc, b.endUtc)
    {
      var c := CheckBooking(v, env, form);
      if c.Rejected? {
        return c.why;
      }
      var existing := ConfirmedExcept(bookings, None);
      if AnyOverlap(existing, c.slot.startUtc, c.slot.endUtc) {
        return Conflict;
      }
      if HasId(bookings, freshId) || HasToken(bookings, freshToken) {
        return DuplicateKey;
      }
      var b := Booking(freshId, c.name, c.email, c.phone, c.slot.startUtc, c.slot.endUtc, Confirmed, freshToken, now);
      InsertKeepsValid(bookings, b);
      NoConflictMeans(bookings, None, b.startUtc, b.endUtc);
      bookings := bookings + [b];
      assert bookings[..|old(bookings)|] == old(bookings);
      o := Success;
    }

    /**
     * `reschedule_post`: read the new times, find the booking by its token,
     * refuse a time that overlaps another confirmed booking, then move it.
     * The status is neither checked nor changed.
     */
    method Reschedule(v: Variant, env: Env, token: string, tz: Option<string>, startIso: string, endIso: string)
      returns (o: Outcome)
      requires Valid()
      modifies this
      ensures Valid()
      ensures FormZone(env, tz).None? ==> o == ServerError && bookings == old(bookings)
      ensures FormZone(env, tz).Some? && FormInterval(v, FormZone(env, tz).value, env.parseIso, startIso, endIso).None? ==>
        o == InvalidSlotTime && bookings == old(bookings)
      ensures FormZone(env, tz).Some? && FormInterval(v, FormZone(env, tz).value, env.parseIso, startIso, endIso).Some? ==>
        var slot := FormInterval(v, FormZone(env, tz).value, env.parseIso, startIso, endIso).value;
        && (!HasToken(old(bookings), token) ==> o == LinkNotFound && bookings == old(bookings))
        && (HasToken(old(bookings), token) ==>
              var i := FindByToken(old(bookings), token).value;
              var clash := AnyOverlap(ConfirmedExcept(old(bookings), Some(old(bookings)[i].id)), slot.startUtc, slot.endUtc);
              && (clash ==> o == Conflict && bookings == old(bookings))
              && (!clash ==>
                    (o == Success &&
                     bookings == old(bookings)[i := old(bookings)[i].(startUtc := slot.startUtc, endUtc := slot.endUtc)])))
      ensures o == Success ==> |bookings| == |old(bookings)|
      ensures o == Success ==> forall k :: 0 <= k < |bookings| ==>
        bookings[k].status == old(bookings)[k].status && bookings[k].id == old(bookings)[k].id
        && bookings[k].manageToken == old(bookings)[k].manageToken
    {
      var zone := FormZone(env, tz);
      if zone.None? {
        return ServerError;
      }
      var slot := FormInterval(v, zone.value, env.parseIso, startIso, endIso);
      if slot.None? {
        return InvalidSlotTime;
      }
      var found := FindByToken(bookings, token);
      if found.None? {
        return LinkNotFound;
      }
      var i := found.value;
      var others := ConfirmedExcept(bookings, Some(bookings[i].id));
      if AnyOverlap(others, slot.value.startUtc, slot.value.endUtc) {
        return Conflict;
      }
      MoveKeepsValid(bookings, i, slot.value.startUtc, slot.value.endUtc);
      bookings := bookings[i := bookings[i].(startUtc := slot.value.startUtc, endUtc := slot.value.endUtc)];
      o := Success;
    }

    /** `cancel`: find the booking by its token and mark it canceled, whatever its status. */
    method Cancel(token: string) returns (o: Outcome)
      requires Valid()
      modifies this
      ensures Valid()
      ensures o == Success <==> HasToken(old(bookings), token)
      ensures o != Success ==> o == LinkNotFound && bookings == old(bookings)
      ensures o == Success ==>
        var i := FindByToken(old(bookings), token).value;
        bookings == old(bookings)[i := old(bookings)[i].(status := Canceled)]
      ensures o == Success ==> old(bookings)[FindByToken(old(bookings), token).value].status == Canceled ==>
        bookings == old(bookings)
    {
      var found := FindByToken(bookings, token);
      if found.None? {
        return LinkNotFound;
      }
      var i := found.value;
      CancelKeepsValid(bookings, i);
      bookings := bookings[i := bookings[i].(status := Canceled)];
      o := Success;
    }
  }

  /**
   * Two bookings of the same non-empty slot on a fresh table: the first is
   * saved, the second is refused as an overlap.
   */
  method SameSlotTwice(v: Variant, env: Env, form: BookingForm, id1: string, token1: string,
                       id2: string, token2: string, now: int)
    returns (first: Outcome, second: Outcome)
    requires CheckBooking(v, env, form).Accepted?
    requires CheckBooking(v, env, form).slot.startUtc < CheckBooking(v, env, form).slot.endUtc
    ensures first == Success && second == Conflict
  {
    ghost var c := CheckBooking(v, env, form);
    var store := new BookingStore();
    first := store.Book(v, env, form, id1, token1, now);
    ghost var b := Booking(id1, c.name, c.email, c.phone, c.slot.startUtc, c.slot.endUtc, Confirmed, token1, now);
    assert store.bookings == [b];
    OwnIntervalBlocksItself([b], 0);
    second := store.Book(v, env, form, id2, token2, now);
  }

  /**
   * Canceling a booking frees its slot: on a table holding only that
   * booking, booking the same slot again is saved.
   */
  method CancelThenRebook(v: Variant, env: Env, form: BookingForm, id1: string, token1: string,
                          id2: string, token2: string, now: int)
    returns (first: Outcome, canceled: Outcome, again: Outcome)
    requires CheckBooking(v, env, form).Accepted?
    requires id1 != id2 && token1 != token2
    ensures first == Success && canceled == Success && again == Success
  {
    ghost var c := CheckBooking(v, env, form);
    var store := new BookingStore();
    first := store.Book(v, env, form, id1, token1, now);
    ghost var b := Booking(id1, c.name, c.email, c.phone, c.slot.startUtc, c.slot.endUtc, Confirmed, token1, now);
    assert first == Success && store.bookings == [b];
    CancelOnlyRow(b, id2, token2);
    canceled := store.Cancel(token1);
    assert canceled == Success;
    assert store.bookings == [b][0 := b.(status := Canceled)];
    again := store.Book(v, env, form, id2, token2, now);
  }
}
