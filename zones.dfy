/**
 * Time-zone resolution and how a submitted slot time is placed in a zone.
 *
 * A zone is a fixed UTC offset looked up by name in a zone database; the
 * database and the configured default name are parameters.
 */
module Zones {
  import opened Wrappers
  import opened Clock

  datatype Zone = Zone(name: string, offset: int)

  /** Known zone names and their UTC offsets in minutes. */
  type ZoneDb = map<string, int>

  /** The zone named `name`; `None` where the zone constructor raises (an empty or unknown key). */
  function ZoneInfo(db: ZoneDb, name: string): (r: Option<Zone>)
    ensures r.Some? <==> name != "" && name in db
    ensures r.Some? ==> r.value == Zone(name, db[name])
  {
    if name != "" && name in db then Some(Zone(name, db[name])) else None
  }

  /** The requested name, or the default when none or an empty one is given. */
  function OrDefault(tzStr: Option<string>, default: string): string
  {
    if tzStr.Some? && tzStr.value != "" then tzStr.value else default
  }

  /**
   * `safe_tz` of the reference variant: the requested zone (the default when
   * none is named), and the default zone if that lookup raises. `None` only when the default itself
   * is unknown, where the fallback raises out of `safe_tz`.
   */
  function SafeTz(tzStr: Option<string>, db: ZoneDb, default: string): (r: Option<Zone>)
    ensures tzStr.Some? && tzStr.value != "" && tzStr.value in db ==> r == Some(Zone(tzStr.value, db[tzStr.value]))
    ensures !(tzStr.Some? && tzStr.value != "" && tzStr.value in db) ==> r == ZoneInfo(db, default)
  {
    var first := ZoneInfo(db, OrDefault(tzStr, default));
    if first.Some? then first else ZoneInfo(db, default)
  }

  /**
   * `safe_tz` of the second variant: the requested zone, falling back to the
   * default on any exception (a missing name is a type error there).
   */
  function SafeTzDirect(tzStr: Option<string>, db: ZoneDb, default: string): Option<Zone>
  {
    var first := if tzStr.Some? then ZoneInfo(db, tzStr.value) else None;
    if first.Some? then first else ZoneInfo(db, default)
  }

  /**
   * The variants resolve every zone alike, whether the caller applies the
   * default first (as the second variant's callers do) or not.
   */
  lemma SafeTzVariantsAgree(tzStr: Option<string>, db: ZoneDb, default: string)
    ensures SafeTzDirect(Some(OrDefault(tzStr, default)), db, default) == SafeTz(tzStr, db, default)
    ensures SafeTzDirect(tzStr, db, default) == SafeTz(tzStr, db, default)
  {
  }

  /** Which variant's form handling is meant. */
  datatype Variant = Reference | Second

  /**
   * How a parsed form time gets its zone: the reference variant stamps only
   * a naive value with the form's zone, the second variant overwrites any
   * offset the text carried.
   */
  function Localize(v: Variant, dt: DateTime, tz: Zone): (r: DateTime)
    ensures r.Aware?
    ensures r.wall == dt.wall
    ensures dt.Naive? ==> r.offset == tz.offset
    ensures v == Second ==> r.offset == tz.offset
    ensures v == Reference && dt.Aware? ==> r == dt
  {
    match v
    case Reference => if dt.Naive? then Aware(dt.wall, tz.offset) else dt
    case Second => Aware(dt.wall, tz.offset)
  }

  /** The variants place a naive time, or one already in the form's zone, at the same instant. */
  lemma LocalizeVariantsAgree(dt: DateTime, tz: Zone)
    requires dt.Naive? || dt.offset == tz.offset
    ensures Localize(Reference, dt, tz) == Localize(Second, dt, tz)
  {
  }

  /** They differ on a time whose text names another offset: "10:00+00:00" submitted in a zone at -05:00. */
  lemma LocalizeVariantsDiffer()
    ensures Instant(Localize(Reference, Aware(600, 0), Zone("Z", -300))) == 600
    ensures Instant(Localize(Second, Aware(600, 0), Zone("Z", -300))) == 900
  {
  }
}
