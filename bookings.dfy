/**
 * Booking rows and the queries the engine runs over them.
 *
 * Start and end are stored in UTC; the database hands them back as naive
 * datetimes, so a row keeps their wall reading in minutes, which is the
 * instant once stamped as UTC.
 */
module Bookings {
  import opened Wrappers
  import opened Clock
  import opened Seqs

  datatype Status = Confirmed | Canceled

  datatype Booking = Booking(
    id: string,
    name: string,
    email: string,
    phone: string,
    startUtc: int,
    endUtc: int,
    status: Status,
    manageToken: string,
    createdAt: int)

  /**
   * The conflict query: the confirmed rows, leaving out the one whose id is
   * `exclude` when an id is given.
   */
  function ConfirmedExcept(rows: seq<Booking>, exclude: Option<string>): seq<Booking>
  {
    Filter(rows, (b: Booking) => Blocks(b, exclude))
  }

  /** Whether a row takes part in a conflict check that leaves out `exclude`. */
  predicate Blocks(b: Booking, exclude: Option<string>)
  {
    b.status == Confirmed && (exclude.None? || b.id != exclude.value)
  }

  lemma ConfirmedExceptMembers(rows: seq<Booking>, exclude: Option<string>, b: Booking)
    ensures b in ConfirmedExcept(rows, exclude) <==> b in rows && Blocks(b, exclude)
  {
    FilterMembers(rows, (b: Booking) => Blocks(b, exclude), b);
  }

  /** A one-row table keeps its row exactly when that row blocks. */
  lemma ConfirmedExceptSingle(b: Booking, exclude: Option<string>)
    ensures ConfirmedExcept([b], exclude) == if Blocks(b, exclude) then [b] else []
  {
    var p := (r: Booking) => Blocks(r, exclude);
    assert [b][..0] == [] && [b][0] == b;
    assert Filter([b], p) == Filter([b][..0], p) + (if p(b) then [b] else []);
  }

  /**
   * Whether the new interval overlaps some row of `existing`, with the new
   * interval aware in UTC and each row's stored values naive.
   */
  function AnyOverlap(existing: seq<Booking>, startUtc: int, endUtc: int): (r: bool)
    ensures r <==> exists k :: 0 <= k < |existing| && Intersects(startUtc, endUtc, existing[k].startUtc, existing[k].endUtc)
    decreases |existing|
  {
    if existing == [] then false
    else
      Overlaps(Aware(startUtc, 0), Aware(endUtc, 0), Naive(existing[0].startUtc), Naive(existing[0].endUtc))
      || AnyOverlap(existing[1..], startUtc, endUtc)
  }

  /** The conflict check passes exactly when no row that blocks overlaps the interval. */
  lemma NoConflictMeans(rows: seq<Booking>, exclude: Option<string>, startUtc: int, endUtc: int)
    ensures !AnyOverlap(ConfirmedExcept(rows, exclude), startUtc, endUtc)
        <==> forall b :: b in rows && Blocks(b, exclude) ==> !Intersects(startUtc, endUtc, b.startUtc, b.endUtc)
  {
    var ex := ConfirmedExcept(rows, exclude);
    forall b | b in rows && Blocks(b, exclude)
      ensures b in ex
    {
      ConfirmedExceptMembers(rows, exclude, b);
    }
    forall k | 0 <= k < |ex|
      ensures ex[k] in rows && Blocks(ex[k], exclude)
    {
      ConfirmedExceptMembers(rows, exclude, ex[k]);
    }
  }

  /** No two distinct confirmed rows overlap. */
  ghost predicate NoDoubleBooking(rows: seq<Booking>)
  {
    forall i, j :: 0 <= i < |rows| && 0 <= j < |rows| && i != j
      && rows[i].status == Confirmed && rows[j].status == Confirmed
      ==> !Intersects(rows[i].startUtc, rows[i].endUtc, rows[j].startUtc, rows[j].endUtc)
  }

  /** The primary key: ids are distinct. */
  ghost predicate UniqueIds(rows: seq<Booking>)
  {
    forall i, j :: 0 <= i < |rows| && 0 <= j < |rows| && i != j ==> rows[i].id != rows[j].id
  }

  /** The unique constraint on `manage_token`. */
  ghost predicate UniqueTokens(rows: seq<Booking>)
  {
    forall i, j :: 0 <= i < |rows| && 0 <= j < |rows| && i != j ==> rows[i].manageToken != rows[j].manageToken
  }

  ghost predicate Valid(rows: seq<Booking>)
  {
    UniqueIds(rows) && UniqueTokens(rows) && NoDoubleBooking(rows)
  }

  /** Whether some row has id `id`. */
  predicate HasId(rows: seq<Booking>, id: string)
  {
    exists k :: 0 <= k < |rows| && rows[k].id == id
  }

  /** Whether some row has manage token `token`. */
  predicate HasToken(rows: seq<Booking>, token: string)
  {
    exists k :: 0 <= k < |rows| && rows[k].manageToken == token
  }

  /** The lookup by manage token: the position of the first row with that token. */
  function FindByToken(rows: seq<Booking>, token: string): (r: Option<nat>)
    ensures r.None? <==> !HasToken(rows, token)
    ensures r.Some? ==> r.value < |rows| && rows[r.value].manageToken == token
    ensures r.Some? ==> forall k :: 0 <= k < r.value ==> rows[k].manageToken != token
    decreases |rows|
  {
    if rows == [] then None
    else if rows[0].manageToken == token then Some(0)
    else
      var rest := FindByToken(rows[1..], token);
      if rest.None? then None else Some(rest.value + 1)
  }

  /**
   * Adding a row keeps confirmed rows apart when the new row, if confirmed,
   * passed the conflict check against every confirmed row.
   */
  lemma InsertKeepsNoDoubleBooking(rows: seq<Booking>, b: Booking)
    requires NoDoubleBooking(rows)
    requires b.status == Confirmed ==> !AnyOverlap(ConfirmedExcept(rows, None), b.startUtc, b.endUtc)
    ensures NoDoubleBooking(rows + [b])
  {
    NoConflictMeans(rows, None, b.startUtc, b.endUtc);
    var rows' := rows + [b];
    forall i, j | 0 <= i < |rows'| && 0 <= j < |rows'| && i != j
      && rows'[i].status == Confirmed && rows'[j].status == Confirmed
      ensures !Intersects(rows'[i].startUtc, rows'[i].endUtc, rows'[j].startUtc, rows'[j].endUtc)
    {
      if i == |rows| {
        assert rows'[j] in rows;
      } else if j == |rows| {
        assert rows'[i] in rows;
      }
    }
  }

  /**
   * Moving row `i` keeps confirmed rows apart when the new interval passed
   * the check against the confirmed rows with another id; ids being
   * distinct, those are all the other rows.
   */
  lemma MoveKeepsNoDoubleBooking(rows: seq<Booking>, i: int, startUtc: int, endUtc: int)
    requires UniqueIds(rows) && NoDoubleBooking(rows) && 0 <= i < |rows|
    requires !AnyOverlap(ConfirmedExcept(rows, Some(rows[i].id)), startUtc, endUtc)
    ensures NoDoubleBooking(rows[i := rows[i].(startUtc := startUtc, endUtc := endUtc)])
  {
    NoConflictMeans(rows, Some(rows[i].id), startUtc, endUtc);
    var rows' := rows[i := rows[i].(startUtc := startUtc, endUtc := endUtc)];
    forall a, c | 0 <= a < |rows'| && 0 <= c < |rows'| && a != c
      && rows'[a].status == Confirmed && rows'[c].status == Confirmed
      ensures !Intersects(rows'[a].startUtc, rows'[a].endUtc, rows'[c].startUtc, rows'[c].endUtc)
    {
      if a == i {
        assert rows[c] in rows && Blocks(rows[c], Some(rows[i].id));
      } else if c == i {
        assert rows[a] in rows && Blocks(rows[a], Some(rows[i].id));
      }
    }
  }

  /** Canceling a row keeps confirmed rows apart. */
  lemma CancelKeepsNoDoubleBooking(rows: seq<Booking>, i: int)
    requires NoDoubleBooking(rows) && 0 <= i < |rows|
    ensures NoDoubleBooking(rows[i := rows[i].(status := Canceled)])
  {
  }

  /**
   * A confirmed booking never conflicts with its own interval once its own id
   * is left out, so rescheduling it to where it already is passes the check.
   */
  lemma OwnIntervalIsFree(rows: seq<Booking>, i: int)
    requires UniqueIds(rows) && NoDoubleBooking(rows) && 0 <= i < |rows|
    requires rows[i].status == Confirmed
    ensures !AnyOverlap(ConfirmedExcept(rows, Some(rows[i].id)), rows[i].startUtc, rows[i].endUtc)
  {
    NoConflictMeans(rows, Some(rows[i].id), rows[i].startUtc, rows[i].endUtc);
    forall b | b in rows && Blocks(b, Some(rows[i].id))
      ensures !Intersects(rows[i].startUtc, rows[i].endUtc, b.startUtc, b.endUtc)
    {
      var k :| 0 <= k < |rows| && rows[k] == b;
      assert k != i;
    }
  }

  /** Without leaving itself out, a non-empty confirmed booking does conflict with its own interval. */
  lemma OwnIntervalBlocksItself(rows: seq<Booking>, i: int)
    requires 0 <= i < |rows| && rows[i].status == Confirmed && rows[i].startUtc < rows[i].endUtc
    ensures AnyOverlap(ConfirmedExcept(rows, None), rows[i].startUtc, rows[i].endUtc)
  {
    NoConflictMeans(rows, None, rows[i].startUtc, rows[i].endUtc);
    assert rows[i] in rows && Blocks(rows[i], None);
  }

  /**
   * Adding a row with an unused id and token that, if confirmed, passed the
   * conflict check keeps the table valid.
   */
  lemma InsertKeepsValid(rows: seq<Booking>, b: Booking)
    requires Valid(rows) && !HasId(rows, b.id) && !HasToken(rows, b.manageToken)
    requires b.status == Confirmed ==> !AnyOverlap(ConfirmedExcept(rows, None), b.startUtc, b.endUtc)
    ensures Valid(rows + [b])
  {
    InsertKeepsNoDoubleBooking(rows, b);
    var rows' := rows + [b];
    forall i, j | 0 <= i < |rows'| && 0 <= j < |rows'| && i != j
      ensures rows'[i].id != rows'[j].id && rows'[i].manageToken != rows'[j].manageToken
    {
      if i == |rows| {
        assert rows'[j] == rows[j];
      } else if j == |rows| {
        assert rows'[i] == rows[i];
      }
    }
  }

  /** Moving a row that passed the check against the others keeps the table valid. */
  lemma MoveKeepsValid(rows: seq<Booking>, i: int, startUtc: int, endUtc: int)
    requires Valid(rows) && 0 <= i < |rows|
    requires !AnyOverlap(ConfirmedExcept(rows, Some(rows[i].id)), startUtc, endUtc)
    ensures Valid(rows[i := rows[i].(startUtc := startUtc, endUtc := endUtc)])
  {
    MoveKeepsNoDoubleBooking(rows, i, startUtc, endUtc);
  }

  /** Canceling a row keeps the table valid. */
  lemma CancelKeepsValid(rows: seq<Booking>, i: int)
    requires Valid(rows) && 0 <= i < |rows|
    ensures Valid(rows[i := rows[i].(status := Canceled)])
  {
    CancelKeepsNoDoubleBooking(rows, i);
  }

  /**
   * Canceling the only row of a table: its token finds it, and afterwards
   * nothing blocks and no other id or token is in use.
   */
  lemma CancelOnlyRow(b: Booking, id: string, token: string)
    requires id != b.id && token != b.manageToken
    ensures FindByToken([b], b.manageToken) == Some(0)
    ensures ConfirmedExcept([b][0 := b.(status := Canceled)], None) == []
    ensures !HasId([b][0 := b.(status := Canceled)], id) && !HasToken([b][0 := b.(status := Canceled)], token)
  {
    assert [b][0 := b.(status := Canceled)] == [b.(status := Canceled)];
    ConfirmedExceptSingle(b.(status := Canceled), None);
  }
}
