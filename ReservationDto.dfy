/** The reservation record and the constraints declared on its fields. */
module ReservationRecord {
  import opened Nullable
  import opened Constraints

  /** The reservation states the code refers to. */
  datatype ReservationStatus = Temporary | NotCheckedIn | CheckedIn | CheckedOut

  datatype Reservation = Reservation(
    id: Option<string>,
    guestId: Option<string>,
    bookingId: Option<string>,
    checkInDate: Option<Day>,
    stayDays: Option<int>,
    totalPrice: Option<int>,
    status: Option<ReservationStatus>,
    memo: Option<string>)

  /**
   * The declared constraints that apply: the three identifiers are not blank and
   * match the UUID pattern, the check-in date is not in the past, the total price is
   * present. The @NotBlank on the date, the stay days and the status is left out:
   * it does not apply to those types.
   */
  predicate ReservationValid(r: Reservation, today: Day) {
    && NotBlank(r.id) && NullOrUuid(r.id)
    && NotBlank(r.guestId) && NullOrUuid(r.guestId)
    && NotBlank(r.bookingId) && NullOrUuid(r.bookingId)
    && FutureOrPresent(r.checkInDate, today)
    && r.totalPrice.Some?
  }

  /** Each identifier is present and a UUID; @NotBlank adds nothing once the pattern holds. */
  lemma ReservationValidIff(r: Reservation, today: Day)
    ensures ReservationValid(r, today) <==>
      r.id.Some? && IsUuid(r.id.value) &&
      r.guestId.Some? && IsUuid(r.guestId.value) &&
      r.bookingId.Some? && IsUuid(r.bookingId.value) &&
      (r.checkInDate.None? || r.checkInDate.value >= today) &&
      r.totalPrice.Some?
  {
    NotBlankUuid(r.id);
    NotBlankUuid(r.guestId);
    NotBlankUuid(r.bookingId);
  }
}
