/**
 * Datetimes at minute resolution and the half-open overlap test.
 *
 * A `DateTime` is Python's `datetime` reduced to what the engine uses: its
 * wall-clock reading in minutes since 1970-01-01 00:00 and, for an aware
 * value, its UTC offset in minutes. An instant is a count of UTC minutes.
 */
module Clock {
  import opened Wrappers

  const MinutesPerDay: int := 1440

  datatype DateTime = Naive(wall: int) | Aware(wall: int, offset: int)

  /** The instant an aware datetime denotes. */
  function Instant(dt: DateTime): int
    requires dt.Aware?
  {
    dt.wall - dt.offset
  }

  /**
   * `ensure_aware_utc`: a naive value is read as UTC wall time, an aware one
   * is converted to UTC; either way the result is aware with offset 0.
   */
  function EnsureAwareUtc(dt: DateTime): (r: DateTime)
    ensures r.Aware? && r.offset == 0
    ensures dt.Naive? ==> r.wall == dt.wall
    ensures dt.Aware? ==> Instant(r) == Instant(dt)
  {
    match dt
    case Naive(w) => Aware(w, 0)
    case Aware(w, off) => Aware(w - off, 0)
  }

  /** The second variant's `ensure_aware_utc`, which also passes `None` through. */
  function EnsureAwareUtcOrNone(dt: Option<DateTime>): (r: Option<DateTime>)
    ensures r.Some? <==> dt.Some?
    ensures dt.Some? ==> r.value == EnsureAwareUtc(dt.value)
  {
    match dt
    case None => None
    case Some(Naive(w)) => Some(Aware(w, 0))
    case Some(Aware(w, off)) => Some(Aware(w - off, 0))
  }

  /** The UTC instant of a datetime once a naive one is stamped as UTC. */
  function UtcInstant(dt: DateTime): int
  {
    Instant(EnsureAwareUtc(dt))
  }

  /** Half-open intersection of `[aStart, aEnd)` and `[bStart, bEnd)` on instants. */
  predicate Intersects(aStart: int, aEnd: int, bStart: int, bEnd: int)
  {
    aStart < bEnd && aEnd > bStart
  }

  /** `overlaps` of the reference variant: normalise all four to UTC, then intersect. */
  function Overlaps(aStart: DateTime, aEnd: DateTime, bStart: DateTime, bEnd: DateTime): (r: bool)
    ensures r <==> Intersects(UtcInstant(aStart), UtcInstant(aEnd), UtcInstant(bStart), UtcInstant(bEnd))
  {
    var a1, a2 := EnsureAwareUtc(aStart), EnsureAwareUtc(aEnd);
    var b1, b2 := EnsureAwareUtc(bStart), EnsureAwareUtc(bEnd);
    Instant(a1) < Instant(b2) && Instant(a2) > Instant(b1)
  }

  /** Stamp a naive datetime with UTC and leave an aware one as it is. */
  function StampNaive(dt: DateTime): (r: DateTime)
    ensures r.Aware?
    ensures dt.Aware? ==> r == dt
    ensures dt.Naive? ==> r.wall == dt.wall && Instant(r) == dt.wall
  {
    if dt.Naive? then Aware(dt.wall, 0) else dt
  }

  /**
   * `overlaps` of the second variant: only naive values are stamped; aware
   * values keep their own offset and Python compares them as instants.
   */
  function OverlapsStampingNaive(aStart: DateTime, aEnd: DateTime, bStart: DateTime, bEnd: DateTime): bool
  {
    var a1, a2, b1, b2 := StampNaive(aStart), StampNaive(aEnd), StampNaive(bStart), StampNaive(bEnd);
    Instant(a1) < Instant(b2) && Instant(a2) > Instant(b1)
  }

  /** The two variants of `overlaps` agree on every input. */
  lemma OverlapsVariantsAgree(aStart: DateTime, aEnd: DateTime, bStart: DateTime, bEnd: DateTime)
    ensures OverlapsStampingNaive(aStart, aEnd, bStart, bEnd) == Overlaps(aStart, aEnd, bStart, bEnd)
  {
  }

  /** Normalising to UTC never changes the instant of an aware value. */
  lemma EnsureAwareUtcIdempotent(dt: DateTime)
    ensures EnsureAwareUtc(EnsureAwareUtc(dt)) == EnsureAwareUtc(dt)
  {
  }

  /** Overlap is symmetric. */
  lemma IntersectsSymmetric(aStart: int, aEnd: int, bStart: int, bEnd: int)
    ensures Intersects(aStart, aEnd, bStart, bEnd) <==> Intersects(bStart, bEnd, aStart, aEnd)
  {
  }

  /** Back-to-back intervals do not overlap. */
  lemma BackToBackDisjoint(aStart: int, aEnd: int, bEnd: int)
    ensures !Intersects(aStart, aEnd, aEnd, bEnd)
    ensures !Intersects(aEnd, bEnd, aStart, aEnd)
  {
  }

  /** An interval overlaps itself exactly when it is non-empty. */
  lemma SelfOverlap(start: int, end: int)
    ensures Intersects(start, end, start, end) <==> start < end
  {
  }
}
