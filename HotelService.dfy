/**
 * The reservation service over the store: the read compositions, match-or-build,
 * registration of a guest with its reservation, registration of a plan, edits and the
 * check-in and check-out transitions. Fresh UUIDs and today's date are parameters.
 */
module HotelService {
  import opened Nullable
  import opened Constraints
  import opened GuestRecord
  import opened GuestSearchRecord
  import opened GuestRegistrationRecord
  import opened ReservationRecord
  import opened BookingRecord
  import opened HotelConverter
  import opened HotelRepository

  const CheckInRefused: string := "未チェックインの予約のみチェックイン可能です"
  const CheckOutRefused: string := "チェックイン済みの予約のみチェックアウト可能です"

  // ---------------------------------------------------------------------------
  // Specification of the state-changing operations

  /** The store after a registration, the caller's request as the call left it, and the result. */
  datatype Registration = Registration(tables: Tables, request: GuestRegistration, outcome: Outcome)

  /** The caller's guest after `insertGuest`: a null id is replaced by the fresh one. */
  function AssignId(g: Guest, freshId: string): Guest {
    if g.id.None? then g.(id := Some(freshId)) else g
  }

  /** The reservation that `initReservation` fills in; the check-in date is overwritten with today. */
  function NewReservation(reg: GuestRegistration, reservationId: string, price: int, today: Day): Reservation
    requires reg.guest.Some? && reg.stayDays.Some?
  {
    Reservation(
      id := Some(reservationId),
      guestId := reg.guest.value.id,
      bookingId := reg.bookingId,
      checkInDate := Some(today),
      stayDays := reg.stayDays,
      totalPrice := Some(price * reg.stayDays.value),
      status := Some(Temporary),
      memo := reg.memo)
  }

  /** `initReservation`: a null price or a null number of days raises before the insert. */
  function InitReservation(t: Tables, reg: GuestRegistration, reservationId: string, today: Day): Registration
    requires reg.guest.Some?
  {
    var price := PriceOf(t.bookings, reg.bookingId);
    if price.None? || reg.stayDays.None? then Registration(t, reg, Fail(NullReference))
    else
      var s := InsertReservationInto(t, NewReservation(reg, reservationId, price.value, today));
      Registration(s.tables, reg, s.outcome)
  }

  /** `insertGuest`: a guest without an id gets one and is inserted, then the reservation is created. */
  function RegisterGuest(t: Tables, reg: GuestRegistration, guestId: string, reservationId: string, today: Day): Registration {
    if reg.guest.None? then Registration(t, reg, Fail(NullReference))
    else if reg.guest.value.id.Some? then InitReservation(t, reg, reservationId, today)
    else
      var request := reg.(guest := Some(AssignId(reg.guest.value, guestId)));
      var s := InsertGuestInto(t, request.guest.value);
      if s.outcome.Fail? then Registration(s.tables, request, s.outcome)
      else InitReservation(s.tables, request, reservationId, today)
  }

  datatype Transition = Transition(tables: Tables, outcome: Outcome)

  /** `checkIn`: read the status, write only from NOT_CHECKED_IN. */
  function CheckInTransition(t: Tables, id: string): Transition {
    if StatusOf(t.reservations, id) == Some(NotCheckedIn) then Transition(CheckInRow(t, id), Ok)
    else Transition(t, Fail(InvalidState(CheckInRefused)))
  }

  /** `checkOut` as written: a check-out write, then the status read, then a second write from CHECKED_IN. */
  function CheckOutAsWritten(t: Tables, id: string): Transition {
    var first := CheckOutRow(t, id);
    if StatusOf(first.reservations, id) == Some(CheckedIn) then Transition(CheckOutRow(first, id), Ok)
    else Transition(first, Fail(InvalidState(CheckOutRefused)))
  }

  /** `checkOut` with the status read before any write, as its error message describes. */
  function CheckOutGuarded(t: Tables, id: string): Transition {
    if StatusOf(t.reservations, id) == Some(CheckedIn) then Transition(CheckOutRow(t, id), Ok)
    else Transition(t, Fail(InvalidState(CheckOutRefused)))
  }

  // ---------------------------------------------------------------------------
  // The service

  /** `getAllGuest`: every guest with its reservations and plans. */
  method GetAllGuest(repo: Store) returns (details: seq<GuestDetail>)
    requires GuestIdsPresent(repo.guests, repo.reservations)
    ensures |details| == |repo.guests|
    ensures forall i | 0 <= i < |details| ::
      details[i] == DetailOf(repo.guests[i], repo.bookings, repo.reservations)
  {
    details := ConvertGuestDetail(repo.FindAllGuest(), repo.FindAllBooking(), repo.FindAllReservation());
  }

  /**
   * `getChackInToday`: the guests and reservations checking in today come from date
   * queries that are passed in; the plans are all of them.
   */
  method GetCheckInToday(repo: Store, todayGuests: seq<Guest>, todayReservations: seq<Reservation>)
    returns (details: seq<GuestDetail>)
    requires GuestIdsPresent(todayGuests, todayReservations)
    ensures |details| == |todayGuests|
    ensures forall i | 0 <= i < |details| ::
      details[i] == DetailOf(todayGuests[i], repo.bookings, todayReservations)
  {
    details := ConvertGuestDetail(todayGuests, repo.FindAllBooking(), todayReservations);
  }

  /** `getAllBooking` */
  method GetAllBooking(repo: Store) returns (bookings: seq<Booking>)
    ensures bookings == repo.bookings
  {
    bookings := repo.FindAllBooking();
  }

  /** `searchGuest`: the guests found by the search query, which is passed in, with all reservations and plans. */
  method SearchGuest(repo: Store, found: seq<Guest>) returns (details: seq<GuestDetail>)
    requires GuestIdsPresent(found, repo.reservations)
    ensures |details| == |found|
    ensures forall i | 0 <= i < |details| ::
      details[i] == DetailOf(found[i], repo.bookings, repo.reservations)
  {
    details := ConvertGuestDetail(found, repo.FindAllBooking(), repo.FindAllReservation());
  }

  /**
   * `matchGuest`: the stored guest when one matches all three criteria, otherwise a
   * guest built from the criteria. Nothing is written.
   */
  method MatchGuest(repo: Store, q: GuestSearch) returns (guest: Guest)
    ensures (exists g | g in repo.guests :: MatchesSearch(g, q)) ==> guest in repo.guests && MatchesSearch(guest, q)
    ensures (forall g | g in repo.guests :: !MatchesSearch(g, q)) ==> guest == ToGuest(q)
  {
    var stored := repo.FindGuestMatch(q);
    if stored.None? {
      guest := ToGuest(q);
    } else {
      guest := stored.value;
    }
  }

  /**
   * `insertGuest`. Returns the caller's request as the call leaves it (its guest may
   * have received an id) and whether the call raised.
   */
  method InsertGuest(repo: Store, reg: GuestRegistration, guestId: string, reservationId: string, today: Day)
    returns (request: GuestRegistration, outcome: Outcome)
    requires repo.Valid()
    modifies repo
    ensures repo.Valid()
    ensures Registration(repo.State(), request, outcome) == RegisterGuest(old(repo.State()), reg, guestId, reservationId, today)
  {
    request := reg;
    if reg.guest.None? {
      outcome := Fail(NullReference);
      return;
    }
    if reg.guest.value.id.None? {
      request := reg.(guest := Some(reg.guest.value.(id := Some(guestId))));
      outcome := repo.InsertGuest(request.guest.value);
      if outcome.Fail? {
        return;
      }
    }
    outcome := InitReservationOn(repo, request, reservationId, today);
  }

  /** `initReservation` */
  method InitReservationOn(repo: Store, reg: GuestRegistration, reservationId: string, today: Day)
    returns (outcome: Outcome)
    requires repo.Valid() && reg.guest.Some?
    modifies repo
    ensures repo.Valid()
    ensures Registration(repo.State(), reg, outcome) == InitReservation(old(repo.State()), reg, reservationId, today)
  {
    var price := repo.FindTotalPriceById(reg.bookingId);
    if price.None? || reg.stayDays.None? {
      outcome := Fail(NullReference);
      return;
    }
    var dto := NewReservation(reg, reservationId, price.value, today);
    outcome := repo.InsertReservation(dto);
  }

  /** `insertBooking`: the plan gets a fresh id, then it is inserted. Returns the plan as the call leaves it. */
  method InsertBooking(repo: Store, booking: Booking, bookingId: string) returns (plan: Booking, outcome: Outcome)
    requires repo.Valid()
    modifies repo
    ensures repo.Valid()
    ensures plan == booking.(id := Some(bookingId))
    ensures Step(repo.State(), outcome) == InsertBookingInto(old(repo.State()), plan)
  {
    plan := booking.(id := Some(bookingId));
    outcome := repo.InsertBooking(plan);
  }

  /** `editGuest` */
  method EditGuest(repo: Store, guest: Guest)
    requires repo.Valid()
    modifies repo
    ensures repo.Valid()
    ensures repo.State() == old(repo.State()).(guests := ReplaceGuest(old(repo.guests), guest),
                                               writes := old(repo.writes) + [GuestUpdated(guest)])
  {
    repo.UpdateGuest(guest);
  }

  /** `editReservation` */
  method EditReservation(repo: Store, reservation: Reservation)
    requires repo.Valid()
    modifies repo
    ensures repo.Valid()
    ensures repo.State() == old(repo.State()).(reservations := ReplaceReservation(old(repo.reservations), reservation),
                                               writes := old(repo.writes) + [ReservationUpdated(reservation)])
  {
    repo.UpdateReservation(reservation);
  }

  /** `checkIn` */
  method CheckIn(repo: Store, id: string) returns (outcome: Outcome)
    requires repo.Valid()
    modifies repo
    ensures repo.Valid()
    ensures Transition(repo.State(), outcome) == CheckInTransition(old(repo.State()), id)
  {
    var status := repo.FindStatusById(id);
    if status == Some(NotCheckedIn) {
      repo.CheckIn(id);
      outcome := Ok;
    } else {
      outcome := Fail(InvalidState(CheckInRefused));
    }
  }

  /** `checkOut`, as written. */
  method CheckOut(repo: Store, id: string) returns (outcome: Outcome)
    requires repo.Valid()
    modifies repo
    ensures repo.Valid()
    ensures Transition(repo.State(), outcome) == CheckOutAsWritten(old(repo.State()), id)
  {
    repo.CheckOut(id);
    var status := repo.FindStatusById(id);
    if status == Some(CheckedIn) {
      repo.CheckOut(id);
      outcome := Ok;
    } else {
      outcome := Fail(InvalidState(CheckOutRefused));
    }
  }

  /** `checkOut` with the status read first. */
  method CheckOutChecked(repo: Store, id: string) returns (outcome: Outcome)
    requires repo.Valid()
    modifies repo
    ensures repo.Valid()
    ensures Transition(repo.State(), outcome) == CheckOutGuarded(old(repo.State()), id)
  {
    var status := repo.FindStatusById(id);
    if status == Some(CheckedIn) {
      repo.CheckOut(id);
      outcome := Ok;
    } else {
      outcome := Fail(InvalidState(CheckOutRefused));
    }
  }

  // ---------------------------------------------------------------------------
  // Properties of registration

  /**
   * The whole effect of a registration: the caller's request, the write calls in order
   * (the guest insert when the id was null, then the reservation insert when the guest
   * is stored and the price and the stay are present), the two tables and the outcome.
   */
  lemma RegistrationEffect(t: Tables, reg: GuestRegistration, guestId: string, reservationId: string, today: Day)
    requires reg.guest.Some?
    ensures var out := RegisterGuest(t, reg, guestId, reservationId, today);
      var g := reg.guest.value;
      var named := AssignId(g, guestId);
      var price := PriceOf(t.bookings, reg.bookingId);
      var guestStored := g.id.Some? || !HasGuest(t.guests, Some(guestId));
      var reserved := guestStored && price.Some? && reg.stayDays.Some?;
      var r := NewReservation(reg.(guest := Some(named), stayDays := Some(if reg.stayDays.Some? then reg.stayDays.value else 0)),
                              reservationId, if price.Some? then price.value else 0, today);
      && out.request == reg.(guest := Some(named))
      && out.tables.writes == t.writes + (if g.id.None? then [GuestInserted(named)] else [])
                                       + (if reserved then [ReservationInserted(r)] else [])
      && out.tables.guests == (if g.id.None? && guestStored then t.guests + [named] else t.guests)
      && out.tables.bookings == t.bookings
      && out.tables.reservations ==
           (if reserved && !HasReservation(t.reservations, Some(reservationId)) then t.reservations + [r] else t.reservations)
      && (out.outcome == Ok <==> reserved && !HasReservation(t.reservations, Some(reservationId)))
      && (guestStored && !reserved ==> out.outcome == Fail(NullReference))
  {
    var g := reg.guest.value;
    if g.id.None? {
      var s := InsertGuestInto(t, AssignId(g, guestId));
      assert s.tables.bookings == t.bookings && s.tables.reservations == t.reservations;
    } else {
      assert reg.(guest := Some(AssignId(g, guestId))) == reg;
    }
  }

  /** A request without a guest raises a null reference before any write. */
  lemma NullGuestRaises(t: Tables, reg: GuestRegistration, guestId: string, reservationId: string, today: Day)
    requires reg.guest.None?
    ensures RegisterGuest(t, reg, guestId, reservationId, today) == Registration(t, reg, Fail(NullReference))
  {
  }

  /**
   * A guest without an id receives the fresh id, on the caller's own request, and is
   * inserted exactly once; a guest with an id is never inserted and keeps its id.
   */
  lemma RegisterGuestInsertsGuest(t: Tables, reg: GuestRegistration, guestId: string, reservationId: string, today: Day)
    requires reg.guest.Some?
    ensures var out := RegisterGuest(t, reg, guestId, reservationId, today);
      && out.request == reg.(guest := Some(AssignId(reg.guest.value, guestId)))
      && t.writes <= out.tables.writes
      && GuestInserts(out.tables.writes[|t.writes|..]) ==
           (if reg.guest.value.id.None? then [reg.guest.value.(id := Some(guestId))] else [])
      && (reg.guest.value.id.Some? ==> out.tables.guests == t.guests)
      && (reg.guest.value.id.None? && !HasGuest(t.guests, Some(guestId)) ==>
            out.tables.guests == t.guests + [reg.guest.value.(id := Some(guestId))])
  {
    RegistrationEffect(t, reg, guestId, reservationId, today);
    var out := RegisterGuest(t, reg, guestId, reservationId, today);
    var n := |t.writes|;
    var rest := out.tables.writes[n..];
    var a := if reg.guest.value.id.None? then [GuestInserted(AssignId(reg.guest.value, guestId))] else [];
    var b := rest[|a|..];
    assert rest == a + b;
    assert forall k | 0 <= k < |b| :: b[k].ReservationInserted?;
    GuestInsertsAppend(a, b);
    NoGuestInserts(b);
  }

  lemma {:induction false} NoGuestInserts(ws: seq<Write>)
    requires forall k | 0 <= k < |ws| :: ws[k].ReservationInserted?
    ensures GuestInserts(ws) == []
    decreases |ws|
  {
    if ws != [] {
      NoGuestInserts(ws[1..]);
    }
  }

  /**
   * A registration performs at most one reservation insert, and exactly one unless the
   * guest insert raised or the plan's price or the number of days is null. That
   * reservation links the guest's (possibly just assigned) id and the requested plan,
   * costs the plan's price times the number of days, starts TEMPORARY, checks in
   * today and carries the memo. A null price is an error, never a zero total.
   */
  lemma RegisterGuestInsertsReservation(t: Tables, reg: GuestRegistration, guestId: string, reservationId: string, today: Day)
    requires reg.guest.Some?
    ensures var out := RegisterGuest(t, reg, guestId, reservationId, today);
      var price := PriceOf(t.bookings, reg.bookingId);
      var guestStored := reg.guest.value.id.Some? || !HasGuest(t.guests, Some(guestId));
      var inserted := ReservationInserts(out.tables.writes[|t.writes|..]);
      && t.writes <= out.tables.writes
      && |inserted| <= 1
      && (|inserted| == 1 <==> guestStored && price.Some? && reg.stayDays.Some?)
      && (|inserted| == 1 ==>
            && inserted[0].id == Some(reservationId)
            && inserted[0].guestId == AssignId(reg.guest.value, guestId).id
            && inserted[0].bookingId == reg.bookingId
            && inserted[0].stayDays == reg.stayDays
            && inserted[0].totalPrice == Some(price.value * reg.stayDays.value)
            && inserted[0].status == Some(Temporary)
            && inserted[0].checkInDate == Some(today)
            && inserted[0].memo == reg.memo)
      && (guestStored && (price.None? || reg.stayDays.None?) ==>
            out.outcome == Fail(NullReference) && out.tables.reservations == t.reservations)
      && (out.outcome == Ok <==> |inserted| == 1 && !HasReservation(t.reservations, Some(reservationId)))
  {
    RegistrationEffect(t, reg, guestId, reservationId, today);
    var out := RegisterGuest(t, reg, guestId, reservationId, today);
    var n := |t.writes|;
    var rest := out.tables.writes[n..];
    var a := if reg.guest.value.id.None? then [GuestInserted(AssignId(reg.guest.value, guestId))] else [];
    var b := rest[|a|..];
    assert rest == a + b;
    assert ReservationInserts(a) == [];
    ReservationInsertsAppend(a, b);
    if |b| == 1 {
      assert ReservationInserts(b) == [b[0].reservation];
    } else {
      assert b == [];
    }
  }

  /** No lower bound on the stay: zero or negative days at a non-negative price give a total of at most zero. */
  lemma NonPositiveStayTotal(reg: GuestRegistration, reservationId: string, price: int, today: Day)
    requires reg.guest.Some? && reg.stayDays.Some? && reg.stayDays.value <= 0 && price >= 0
    ensures NewReservation(reg, reservationId, price, today).totalPrice.value <= 0
  {
    var days := reg.stayDays.value;
    assert price * days == -(price * -days);
    assert price * -days >= 0;
  }

  /**
   * The reservation built from a valid registration satisfies the reservation record's
   * constraints, provided the plan id is present and both identifiers are UUIDs: its
   * check-in date is today and its total is present.
   */
  lemma NewReservationValid(reg: GuestRegistration, reservationId: string, price: int, today: Day)
    requires reg.guest.Some? && RegistrationValid(reg, today) && reg.bookingId.Some?
    requires reg.guest.value.id.Some? && IsUuid(reg.guest.value.id.value) && IsUuid(reservationId)
    ensures ReservationValid(NewReservation(reg, reservationId, price, today), today)
  {
    UuidNotBlank(reservationId);
    UuidNotBlank(reg.guest.value.id.value);
    UuidNotBlank(reg.bookingId.value);
  }

  /**
   * A reservation just registered is TEMPORARY, so checking it in is refused: no code
   * path moves a reservation to NOT_CHECKED_IN except an edit.
   */
  lemma RegisteredReservationRefusesCheckIn(t: Tables, reg: GuestRegistration, guestId: string, reservationId: string, today: Day)
    requires RegisterGuest(t, reg, guestId, reservationId, today).outcome == Ok
    ensures var out := RegisterGuest(t, reg, guestId, reservationId, today);
      StatusOf(out.tables.reservations, reservationId) == Some(Temporary) &&
      CheckInTransition(out.tables, reservationId) == Transition(out.tables, Fail(InvalidState(CheckInRefused)))
  {
    var g := reg.guest.value;
    var t1 := if g.id.None? then InsertGuestInto(t, g.(id := Some(guestId))).tables else t;
    var request := if g.id.None? then reg.(guest := Some(AssignId(g, guestId))) else reg;
    assert t1.bookings == t.bookings && t1.reservations == t.reservations;
    var price := PriceOf(t1.bookings, request.bookingId);
    var r := NewReservation(request, reservationId, price.value, today);
    StatusOfAppended(t.reservations, r, reservationId);
  }

  /**
   * The two registration scenarios of the service tests, on an empty store holding one
   * plan at 10000 per night: a guest without an id gives one guest insert and one
   * reservation insert at 10000 for one night; a guest whose id is set gives only the
   * reservation insert.
   */
  lemma RegistrationScenarios(guestId: string, reservationId: string, today: Day)
    ensures var plan := "aaaaaaa1-aaaa-aaaa-aaaa-aaaaaaaaaaaa";
      var t := Tables([], [Booking(Some(plan), None, None, Some(10000))], [], []);
      var reg := GuestRegistration(Some(NewGuest()), Some(plan), Some(1), Some(today), None);
      var newcomer := RegisterGuest(t, reg, guestId, reservationId, today);
      var returning := RegisterGuest(t, reg.(guest := Some(NewGuest().(id := Some("11111111-1111-1111-1111-111111111120")))),
                                 guestId, reservationId, today);
      && newcomer.outcome == Ok && returning.outcome == Ok
      && |GuestInserts(newcomer.tables.writes)| == 1 && |ReservationInserts(newcomer.tables.writes)| == 1
      && ReservationInserts(newcomer.tables.writes)[0].totalPrice == Some(10000)
      && |GuestInserts(returning.tables.writes)| == 0 && |ReservationInserts(returning.tables.writes)| == 1
  {
    var plan := "aaaaaaa1-aaaa-aaaa-aaaa-aaaaaaaaaaaa";
    var t := Tables([], [Booking(Some(plan), None, None, Some(10000))], [], []);
    var reg := GuestRegistration(Some(NewGuest()), Some(plan), Some(1), Some(today), None);
    var reg2 := reg.(guest := Some(NewGuest().(id := Some("11111111-1111-1111-1111-111111111120"))));
    assert PriceOf(t.bookings, Some(plan)) == Some(10000);
    RegisterGuestInsertsGuest(t, reg, guestId, reservationId, today);
    RegisterGuestInsertsReservation(t, reg, guestId, reservationId, today);
    RegisterGuestInsertsGuest(t, reg2, guestId, reservationId, today);
    RegisterGuestInsertsReservation(t, reg2, guestId, reservationId, today);
    var newcomer := RegisterGuest(t, reg, guestId, reservationId, today);
    var returning := RegisterGuest(t, reg2, guestId, reservationId, today);
    assert newcomer.tables.writes[0..] == newcomer.tables.writes;
    assert returning.tables.writes[0..] == returning.tables.writes;
  }

  // ---------------------------------------------------------------------------
  // Properties of the transitions

  /**
   * Check-in writes exactly once, and only when the stored status is NOT_CHECKED_IN;
   * the reservation then reads CHECKED_IN and every other reservation is as before.
   * From any other status (or an unknown id) it raises and changes nothing.
   */
  lemma CheckInOnlyFromNotCheckedIn(t: Tables, id: string, other: string)
    ensures var out := CheckInTransition(t, id);
      && (out.outcome == Ok <==> StatusOf(t.reservations, id) == Some(NotCheckedIn))
      && (out.outcome == Ok ==>
            && out.tables.writes == t.writes + [CheckInWritten(id)]
            && StatusOf(out.tables.reservations, id) == Some(CheckedIn)
            && (other != id ==> StatusOf(out.tables.reservations, other) == StatusOf(t.reservations, other))
            && out.tables.guests == t.guests && out.tables.bookings == t.bookings)
      && (out.outcome != Ok ==> out == Transition(t, Fail(InvalidState(CheckInRefused))))
  {
    StatusAfterSet(t.reservations, id, CheckedIn, other);
  }

  /**
   * Check-out as written writes once before reading, and that write makes the status
   * read CHECKED_OUT (or null for an unknown id), so every call raises, and every
   * call leaves one write behind and the reservation CHECKED_OUT whatever it was.
   * The tests' "no write on failure, one write on success" fails on both halves.
   */
  lemma CheckOutAsWrittenAlwaysRaises(t: Tables, id: string)
    ensures var out := CheckOutAsWritten(t, id);
      && out.outcome == Fail(InvalidState(CheckOutRefused))
      && out.tables.writes == t.writes + [CheckOutWritten(id)]
      && StatusOf(out.tables.reservations, id) ==
           (if HasReservation(t.reservations, Some(id)) then Some(CheckedOut) else None)
  {
    StatusAfterSet(t.reservations, id, CheckedOut, id);
  }

  /**
   * The refusal does not rest on the write being unconditional: were the check-out
   * statement guarded by CHECKED_IN in its SQL, the status read right after it would
   * still never be CHECKED_IN, so `checkOut` as written would still raise on every call.
   */
  lemma GuardedWriteStillRefuses(t: Tables, id: string)
    ensures StatusOf(SetStatusWhere(t.reservations, id, CheckedIn, CheckedOut), id) != Some(CheckedIn)
  {
    StatusAfterGuardedSet(t.reservations, id, CheckedIn, CheckedOut);
  }

  /** A checked-in reservation as written: the call raises, yet the reservation ends CHECKED_OUT. */
  lemma CheckOutAsWrittenFromCheckedIn(t: Tables, id: string)
    requires StatusOf(t.reservations, id) == Some(CheckedIn)
    ensures CheckOutAsWritten(t, id).outcome.Fail?
    ensures StatusOf(CheckOutAsWritten(t, id).tables.reservations, id) == Some(CheckedOut)
  {
    CheckOutAsWrittenAlwaysRaises(t, id);
  }

  /**
   * Guarded check-out writes exactly once, and only from CHECKED_IN, leaving the
   * reservation CHECKED_OUT and every other one as before; otherwise it raises and
   * changes nothing.
   */
  lemma CheckOutOnlyFromCheckedIn(t: Tables, id: string, other: string)
    ensures var out := CheckOutGuarded(t, id);
      && (out.outcome == Ok <==> StatusOf(t.reservations, id) == Some(CheckedIn))
      && (out.outcome == Ok ==>
            && out.tables.writes == t.writes + [CheckOutWritten(id)]
            && StatusOf(out.tables.reservations, id) == Some(CheckedOut)
            && (other != id ==> StatusOf(out.tables.reservations, other) == StatusOf(t.reservations, other))
            && out.tables.guests == t.guests && out.tables.bookings == t.bookings)
      && (out.outcome != Ok ==> out == Transition(t, Fail(InvalidState(CheckOutRefused))))
  {
    StatusAfterSet(t.reservations, id, CheckedOut, other);
  }

  /**
   * NOT_CHECKED_IN, then CHECKED_IN, then CHECKED_OUT, with one write per step; a second
   * check-in and any check-out after the end are refused.
   */
  lemma Lifecycle(t: Tables, id: string)
    requires StatusOf(t.reservations, id) == Some(NotCheckedIn)
    ensures var a := CheckInTransition(t, id);
      var b := CheckOutGuarded(a.tables, id);
      && a.outcome == Ok && b.outcome == Ok
      && CheckInTransition(a.tables, id).outcome.Fail?
      && StatusOf(b.tables.reservations, id) == Some(CheckedOut)
      && b.tables.writes == t.writes + [CheckInWritten(id), CheckOutWritten(id)]
      && CheckInTransition(b.tables, id).outcome.Fail?
      && CheckOutGuarded(b.tables, id).outcome.Fail?
  {
    CheckInStep(t, id);
    var checkedIn := CheckInRow(t, id);
    CheckOutStep(checkedIn, id);
    var checkedOut := CheckOutRow(checkedIn, id);
    assert checkedOut.writes == t.writes + [CheckInWritten(id), CheckOutWritten(id)];
    assert !CheckInTransition(checkedIn, id).outcome.Ok?;
    assert !CheckInTransition(checkedOut, id).outcome.Ok?;
    assert !CheckOutGuarded(checkedOut, id).outcome.Ok?;
  }

  lemma CheckInStep(t: Tables, id: string)
    requires StatusOf(t.reservations, id) == Some(NotCheckedIn)
    ensures CheckInTransition(t, id) == Transition(CheckInRow(t, id), Ok)
    ensures StatusOf(CheckInRow(t, id).reservations, id) == Some(CheckedIn)
  {
    StatusAfterSet(t.reservations, id, CheckedIn, id);
  }

  lemma CheckOutStep(t: Tables, id: string)
    requires StatusOf(t.reservations, id) == Some(CheckedIn)
    ensures CheckOutGuarded(t, id) == Transition(CheckOutRow(t, id), Ok)
    ensures StatusOf(CheckOutRow(t, id).reservations, id) == Some(CheckedOut)
  {
    StatusAfterSet(t.reservations, id, CheckedOut, id);
  }

  /**
   * An edit is what makes a stored reservation checkable: after `editReservation` sets
   * NOT_CHECKED_IN on an existing reservation, check-in succeeds on it, and the edit
   * leaves every other reservation's status as it was.
   */
  lemma EditEnablesCheckIn(t: Tables, r: Reservation, id: string, other: string)
    requires r.id == Some(id) && r.status == Some(NotCheckedIn) && HasReservation(t.reservations, Some(id))
    ensures var edited := t.(reservations := ReplaceReservation(t.reservations, r),
                             writes := t.writes + [ReservationUpdated(r)]);
      && CheckInTransition(edited, id).outcome == Ok
      && (other != id ==> StatusOf(edited.reservations, other) == StatusOf(t.reservations, other))
  {
    StatusAfterReplace(t.reservations, r, id, other);
  }

  /**
   * The same path with check-out as written: after a successful check-in the
   * check-out call raises, although it has written CHECKED_OUT, after two writes in all.
   */
  lemma LifecycleAsWritten(t: Tables, id: string)
    requires StatusOf(t.reservations, id) == Some(NotCheckedIn)
    ensures var a := CheckInTransition(t, id);
      var b := CheckOutAsWritten(a.tables, id);
      && a.outcome == Ok
      && b.outcome == Fail(InvalidState(CheckOutRefused))
      && StatusOf(b.tables.reservations, id) == Some(CheckedOut)
      && b.tables.writes == t.writes + [CheckInWritten(id), CheckOutWritten(id)]
  {
    CheckInOnlyFromNotCheckedIn(t, id, id);
    var a := CheckInTransition(t, id);
    assert HasReservation(a.tables.reservations, Some(id));
    CheckOutAsWrittenAlwaysRaises(a.tables, id);
  }

  // ---------------------------------------------------------------------------
  // Match or build

  /**
   * The guest built from complete criteria is exactly what the match query looks for,
   * yet it never passes the guest constraints: its gender, age, region and e-mail are
   * still null and must be filled in before registration.
   */
  lemma BuiltGuestMatchesButIncomplete(q: GuestSearch)
    requires GuestSearchValid(q)
    ensures MatchesSearch(ToGuest(q), q)
    ensures !GuestValid(ToGuest(q))
  {
  }
}
