/**
 * The repository as an abstract store: the guest, plan and reservation tables as rows in
 * the order the store returns them, and the log of every write statement called on it.
 * The SQL behind the mapper is not part of this model; each operation below states
 * the effect the repository is relied on to have.
 */
module HotelRepository {
  import opened Nullable
  import opened GuestRecord
  import opened GuestSearchRecord
  import opened ReservationRecord
  import opened BookingRecord

  datatype Failure =
    | NullReference              // a NullPointerException
    | InvalidState(message: string)
    | DuplicateKey               // a primary key already present

  datatype Outcome = Ok | Fail(failure: Failure)

  /** One call of a write statement of the mapper. */
  datatype Write =
    | GuestInserted(guest: Guest)
    | BookingInserted(booking: Booking)
    | ReservationInserted(reservation: Reservation)
    | GuestUpdated(guest: Guest)
    | ReservationUpdated(reservation: Reservation)
    | CheckInWritten(reservationId: string)
    | CheckOutWritten(reservationId: string)

  datatype Tables = Tables(
    guests: seq<Guest>,
    bookings: seq<Booking>,
    reservations: seq<Reservation>,
    writes: seq<Write>)

  /** The tables after a write, and whether the write raised. */
  datatype Step = Step(tables: Tables, outcome: Outcome)

  // ---------------------------------------------------------------------------
  // Keys

  predicate GuestKeysUnique(rows: seq<Guest>) {
    forall i, j | 0 <= i < j < |rows| :: rows[i].id != rows[j].id
  }

  predicate BookingKeysUnique(rows: seq<Booking>) {
    forall i, j | 0 <= i < j < |rows| :: rows[i].id != rows[j].id
  }

  predicate ReservationKeysUnique(rows: seq<Reservation>) {
    forall i, j | 0 <= i < j < |rows| :: rows[i].id != rows[j].id
  }

  /** Each table's id column is a primary key. */
  predicate KeysUnique(t: Tables) {
    GuestKeysUnique(t.guests) && BookingKeysUnique(t.bookings) && ReservationKeysUnique(t.reservations)
  }

  // ---------------------------------------------------------------------------
  // Reads

  /** The exact-match query: all three criteria present and equal (SQL equality, so a null criterion matches nothing). */
  predicate MatchesSearch(g: Guest, q: GuestSearch) {
    && q.name.Some? && g.name == q.name
    && q.kanaName.Some? && g.kanaName == q.kanaName
    && q.phone.Some? && g.phone == q.phone
  }

  /** `matchGuest`: the first stored guest that matches exactly, or null. */
  function MatchGuest(rows: seq<Guest>, q: GuestSearch): (found: Option<Guest>)
    ensures found.Some? ==> found.value in rows && MatchesSearch(found.value, q)
    ensures found.None? <==> forall g | g in rows :: !MatchesSearch(g, q)
  {
    if rows == [] then None
    else if MatchesSearch(rows[0], q) then Some(rows[0])
    else MatchGuest(rows[1..], q)
  }

  /** `findTotalPriceById`: the price of the plan with that id, or null (no such plan, a null id, a null price). */
  function PriceOf(rows: seq<Booking>, id: Option<string>): (price: Option<int>)
    ensures price.Some? ==> id.Some? && exists b | b in rows :: b.id == id && b.price == price
    ensures id.Some? && BookingKeysUnique(rows) ==>
      forall b | b in rows && b.id == id :: price == b.price
    ensures (id.None? || forall b | b in rows :: b.id != id) ==> price.None?
  {
    if rows == [] || id.None? then None
    else if rows[0].id == id then rows[0].price
    else PriceOf(rows[1..], id)
  }

  /** `findStatusById`: the status of the reservation with that id, or null. */
  function StatusOf(rows: seq<Reservation>, id: string): (status: Option<ReservationStatus>)
    ensures status.Some? ==> exists r | r in rows :: r.id == Some(id) && r.status == status
    ensures ReservationKeysUnique(rows) ==> forall r | r in rows && r.id == Some(id) :: status == r.status
    ensures (forall r | r in rows :: r.id != Some(id)) ==> status.None?
  {
    if rows == [] then None
    else if rows[0].id == Some(id) then rows[0].status
    else StatusOf(rows[1..], id)
  }

  // ---------------------------------------------------------------------------
  // Writes

  predicate HasGuest(rows: seq<Guest>, id: Option<string>) {
    exists g | g in rows :: g.id == id
  }

  predicate HasBooking(rows: seq<Booking>, id: Option<string>) {
    exists b | b in rows :: b.id == id
  }

  predicate HasReservation(rows: seq<Reservation>, id: Option<string>) {
    exists r | r in rows :: r.id == id
  }

  function InsertGuestInto(t: Tables, g: Guest): Step {
    var logged := t.(writes := t.writes + [GuestInserted(g)]);
    if HasGuest(t.guests, g.id) then Step(logged, Fail(DuplicateKey))
    else Step(logged.(guests := t.guests + [g]), Ok)
  }

  function InsertBookingInto(t: Tables, b: Booking): Step {
    var logged := t.(writes := t.writes + [BookingInserted(b)]);
    if HasBooking(t.bookings, b.id) then Step(logged, Fail(DuplicateKey))
    else Step(logged.(bookings := t.bookings + [b]), Ok)
  }

  function InsertReservationInto(t: Tables, r: Reservation): Step {
    var logged := t.(writes := t.writes + [ReservationInserted(r)]);
    if HasReservation(t.reservations, r.id) then Step(logged, Fail(DuplicateKey))
    else Step(logged.(reservations := t.reservations + [r]), Ok)
  }

  /** Every row whose id is `id` (a null id matches no row) is replaced by `g`. */
  function ReplaceGuest(rows: seq<Guest>, g: Guest): (out: seq<Guest>)
    ensures |out| == |rows|
    ensures forall i | 0 <= i < |rows| :: out[i] == if g.id.Some? && rows[i].id == g.id then g else rows[i]
  {
    if rows == [] then []
    else [if g.id.Some? && rows[0].id == g.id then g else rows[0]] + ReplaceGuest(rows[1..], g)
  }

  function ReplaceReservation(rows: seq<Reservation>, r: Reservation): (out: seq<Reservation>)
    ensures |out| == |rows|
    ensures forall i | 0 <= i < |rows| :: out[i] == if r.id.Some? && rows[i].id == r.id then r else rows[i]
  {
    if rows == [] then []
    else [if r.id.Some? && rows[0].id == r.id then r else rows[0]] + ReplaceReservation(rows[1..], r)
  }

  /** The status column of every row with id `id` becomes `status`. */
  function SetStatus(rows: seq<Reservation>, id: string, status: ReservationStatus): seq<Reservation> {
    if rows == [] then []
    else
      var r := rows[0];
      [if r.id == Some(id) then r.(status := Some(status)) else r] + SetStatus(rows[1..], id, status)
  }

  /** The `checkIn` statement: the reservation's status becomes CHECKED_IN, whatever it was. */
  function CheckInRow(t: Tables, id: string): Tables {
    t.(reservations := SetStatus(t.reservations, id, CheckedIn), writes := t.writes + [CheckInWritten(id)])
  }

  /** The `checkOut` statement: the reservation's status becomes CHECKED_OUT, whatever it was. */
  function CheckOutRow(t: Tables, id: string): Tables {
    t.(reservations := SetStatus(t.reservations, id, CheckedOut), writes := t.writes + [CheckOutWritten(id)])
  }

  /**
   * A status write guarded in its SQL by the current status: only rows with id `id`
   * whose status is `from` become `to`. The mapper's statements are not visible; this
   * is the conditional alternative to `CheckOutRow`'s unconditional write.
   */
  function SetStatusWhere(rows: seq<Reservation>, id: string, from: ReservationStatus, to: ReservationStatus): seq<Reservation> {
    if rows == [] then []
    else
      var r := rows[0];
      [if r.id == Some(id) && r.status == Some(from) then r.(status := Some(to)) else r]
        + SetStatusWhere(rows[1..], id, from, to)
  }

  // ---------------------------------------------------------------------------
  // Lemmas about the store

  /** A status write changes the status of exactly the rows with that id and keeps every id. */
  lemma {:induction false} SetStatusRows(rows: seq<Reservation>, id: string, status: ReservationStatus)
    ensures |SetStatus(rows, id, status)| == |rows|
    ensures forall i | 0 <= i < |rows| ::
      SetStatus(rows, id, status)[i] == if rows[i].id == Some(id) then rows[i].(status := Some(status)) else rows[i]
    decreases |rows|
  {
    if rows != [] {
      SetStatusRows(rows[1..], id, status);
    }
  }

  /**
   * After a status write the written reservation reads back with the new status, if it
   * exists, and every other reservation reads back as before.
   */
  lemma {:induction false} StatusAfterSet(rows: seq<Reservation>, id: string, status: ReservationStatus, other: string)
    ensures StatusOf(SetStatus(rows, id, status), id) == if HasReservation(rows, Some(id)) then Some(status) else None
    ensures other != id ==> StatusOf(SetStatus(rows, id, status), other) == StatusOf(rows, other)
    decreases |rows|
  {
    if rows != [] {
      StatusAfterSet(rows[1..], id, status, other);
      assert forall r | r in rows :: r == rows[0] || r in rows[1..];
    }
  }

  /** After a guarded status write the reservation reads `to` if it read `from`, and as before otherwise. */
  lemma {:induction false} StatusAfterGuardedSet(rows: seq<Reservation>, id: string, from: ReservationStatus, to: ReservationStatus)
    ensures StatusOf(SetStatusWhere(rows, id, from, to), id) ==
      if StatusOf(rows, id) == Some(from) then Some(to) else StatusOf(rows, id)
    decreases |rows|
  {
    if rows != [] {
      StatusAfterGuardedSet(rows[1..], id, from, to);
    }
  }

  lemma SetStatusKeepsKeys(rows: seq<Reservation>, id: string, status: ReservationStatus)
    requires ReservationKeysUnique(rows)
    ensures ReservationKeysUnique(SetStatus(rows, id, status))
  {
    SetStatusRows(rows, id, status);
  }

  /** An insert keeps the keys unique: it is refused when the id is taken. */
  lemma InsertsKeepKeys(t: Tables, g: Guest, b: Booking, r: Reservation)
    requires KeysUnique(t)
    ensures KeysUnique(InsertGuestInto(t, g).tables)
    ensures KeysUnique(InsertBookingInto(t, b).tables)
    ensures KeysUnique(InsertReservationInto(t, r).tables)
  {
    if !HasGuest(t.guests, g.id) {
      var rows := t.guests + [g];
      forall i, j | 0 <= i < j < |rows| ensures rows[i].id != rows[j].id {
        if j == |rows| - 1 { assert t.guests[i] in t.guests; }
      }
    }
    if !HasBooking(t.bookings, b.id) {
      var rows := t.bookings + [b];
      forall i, j | 0 <= i < j < |rows| ensures rows[i].id != rows[j].id {
        if j == |rows| - 1 { assert t.bookings[i] in t.bookings; }
      }
    }
    if !HasReservation(t.reservations, r.id) {
      var rows := t.reservations + [r];
      forall i, j | 0 <= i < j < |rows| ensures rows[i].id != rows[j].id {
        if j == |rows| - 1 { assert t.reservations[i] in t.reservations; }
      }
    }
  }

  /**
   * After a reservation edit the edited reservation reads back with the edit's status,
   * if it existed, and every other reservation reads back as before.
   */
  lemma {:induction false} StatusAfterReplace(rows: seq<Reservation>, r: Reservation, id: string, other: string)
    requires r.id == Some(id)
    ensures StatusOf(ReplaceReservation(rows, r), id) == if HasReservation(rows, Some(id)) then r.status else None
    ensures other != id ==> StatusOf(ReplaceReservation(rows, r), other) == StatusOf(rows, other)
    decreases |rows|
  {
    if rows != [] {
      StatusAfterReplace(rows[1..], r, id, other);
      assert forall x | x in rows :: x == rows[0] || x in rows[1..];
    }
  }

  /** The guests inserted by a run of writes, in order. */
  function GuestInserts(ws: seq<Write>): seq<Guest> {
    if ws == [] then []
    else (if ws[0].GuestInserted? then [ws[0].guest] else []) + GuestInserts(ws[1..])
  }

  /** The reservations inserted by a run of writes, in order. */
  function ReservationInserts(ws: seq<Write>): seq<Reservation> {
    if ws == [] then []
    else (if ws[0].ReservationInserted? then [ws[0].reservation] else []) + ReservationInserts(ws[1..])
  }

  /** Extracting inserts distributes over a concatenation of write runs. */
  lemma {:induction false} GuestInsertsAppend(a: seq<Write>, b: seq<Write>)
    ensures GuestInserts(a + b) == GuestInserts(a) + GuestInserts(b)
    decreases |a|
  {
    if a == [] {
      assert a + b == b;
    } else {
      assert (a + b)[0] == a[0];
      assert (a + b)[1..] == a[1..] + b;
      GuestInsertsAppend(a[1..], b);
    }
  }

  lemma {:induction false} ReservationInsertsAppend(a: seq<Write>, b: seq<Write>)
    ensures ReservationInserts(a + b) == ReservationInserts(a) + ReservationInserts(b)
    decreases |a|
  {
    if a == [] {
      assert a + b == b;
    } else {
      assert (a + b)[0] == a[0];
      assert (a + b)[1..] == a[1..] + b;
      ReservationInsertsAppend(a[1..], b);
    }
  }

  /** A reservation appended under a fresh id reads back with its own status. */
  lemma {:induction false} StatusOfAppended(rows: seq<Reservation>, r: Reservation, id: string)
    requires !HasReservation(rows, Some(id))
    ensures StatusOf(rows + [r], id) == if r.id == Some(id) then r.status else None
    decreases |rows|
  {
    if rows != [] {
      assert (rows + [r])[1..] == rows[1..] + [r];
      assert forall x | x in rows[1..] :: x in rows;
      StatusOfAppended(rows[1..], r, id);
    }
  }

  // ---------------------------------------------------------------------------
  // The store

  class Store {
    var guests: seq<Guest>
    var bookings: seq<Booking>
    var reservations: seq<Reservation>
    var writes: seq<Write>

    function State(): Tables
      reads this
    {
      Tables(guests, bookings, reservations, writes)
    }

    ghost predicate Valid()
      reads this
    {
      KeysUnique(State())
    }

    constructor (guests: seq<Guest>, bookings: seq<Booking>, reservations: seq<Reservation>)
      requires KeysUnique(Tables(guests, bookings, reservations, []))
      ensures Valid()
      ensures State() == Tables(guests, bookings, reservations, [])
    {
      this.guests := guests;
      this.bookings := bookings;
      this.reservations := reservations;
      this.writes := [];
    }

    function FindAllGuest(): seq<Guest> reads this { guests }

    function FindAllBooking(): seq<Booking> reads this { bookings }

    function FindAllReservation(): seq<Reservation> reads this { reservations }

    function FindGuestMatch(q: GuestSearch): Option<Guest> reads this { MatchGuest(guests, q) }

    function FindTotalPriceById(id: Option<string>): Option<int> reads this { PriceOf(bookings, id) }

    function FindStatusById(id: string): Option<ReservationStatus> reads this { StatusOf(reservations, id) }

    method InsertGuest(g: Guest) returns (outcome: Outcome)
      requires Valid()
      modifies this
      ensures Valid()
      ensures Step(State(), outcome) == InsertGuestInto(old(State()), g)
    {
      InsertsKeepKeys(State(), g, Booking(None, None, None, None), Reservation(None, None, None, None, None, None, None, None));
      writes := writes + [GuestInserted(g)];
      if HasGuest(guests, g.id) {
        outcome := Fail(DuplicateKey);
      } else {
        guests := guests + [g];
        outcome := Ok;
      }
    }

    method InsertBooking(b: Booking) returns (outcome: Outcome)
      requires Valid()
      modifies this
      ensures Valid()
      ensures Step(State(), outcome) == InsertBookingInto(old(State()), b)
    {
      InsertsKeepKeys(State(), NewGuest(), b, Reservation(None, None, None, None, None, None, None, None));
      writes := writes + [BookingInserted(b)];
      if HasBooking(bookings, b.id) {
        outcome := Fail(DuplicateKey);
      } else {
        bookings := bookings + [b];
        outcome := Ok;
      }
    }

    method InsertReservation(r: Reservation) returns (outcome: Outcome)
      requires Valid()
      modifies this
      ensures Valid()
      ensures Step(State(), outcome) == InsertReservationInto(old(State()), r)
    {
      InsertsKeepKeys(State(), NewGuest(), Booking(None, None, None, None), r);
      writes := writes + [ReservationInserted(r)];
      if HasReservation(reservations, r.id) {
        outcome := Fail(DuplicateKey);
      } else {
        reservations := reservations + [r];
        outcome := Ok;
      }
    }

    method UpdateGuest(g: Guest)
      requires Valid()
      modifies this
      ensures Valid()
      ensures State() == old(State()).(guests := ReplaceGuest(old(guests), g), writes := old(writes) + [GuestUpdated(g)])
    {
      guests := ReplaceGuest(guests, g);
      writes := writes + [GuestUpdated(g)];
    }

    method UpdateReservation(r: Reservation)
      requires Valid()
      modifies this
      ensures Valid()
      ensures State() == old(State()).(reservations := ReplaceReservation(old(reservations), r),
                                       writes := old(writes) + [ReservationUpdated(r)])
    {
      reservations := ReplaceReservation(reservations, r);
      writes := writes + [ReservationUpdated(r)];
    }

    method CheckIn(id: string)
      requires Valid()
      modifies this
      ensures Valid()
      ensures State() == CheckInRow(old(State()), id)
    {
      SetStatusKeepsKeys(reservations, id, CheckedIn);
      reservations := SetStatus(reservations, id, CheckedIn);
      writes := writes + [CheckInWritten(id)];
    }

    method CheckOut(id: string)
      requires Valid()
      modifies this
      ensures Valid()
      ensures State() == CheckOutRow(old(State()), id)
    {
      SetStatusKeepsKeys(reservations, id, CheckedOut);
      reservations := SetStatus(reservations, id, CheckedOut);
      writes := writes + [CheckOutWritten(id)];
    }
  }
}
