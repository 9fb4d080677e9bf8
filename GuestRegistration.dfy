/** The registration request: a guest, the chosen plan, the stay and a memo. */
module GuestRegistrationRecord {
  import opened Nullable
  import opened Constraints
  import opened GuestRecord

  datatype GuestRegistration = GuestRegistration(
    guest: Option<Guest>,
    bookingId: Option<string>,
    stayDays: Option<int>,
    checkInDate: Option<Day>,
    memo: Option<string>)

  /**
   * The declared constraints. The guest has no cascading validation and the memo no
   * constraint, and nothing bounds the number of stay days from below.
   */
  predicate RegistrationValid(reg: GuestRegistration, today: Day) {
    && NullOrUuid(reg.bookingId)
    && reg.stayDays.Some?
    && reg.checkInDate.Some? && FutureOrPresent(reg.checkInDate, today)
  }

  /** Validity does not look at the guest or the memo. */
  lemma RegistrationIgnoresGuestAndMemo(reg: GuestRegistration, g: Option<Guest>, m: Option<string>, today: Day)
    ensures RegistrationValid(reg.(guest := g, memo := m), today) == RegistrationValid(reg, today)
  {
  }

  /** A valid registration: a check-in date on or after today, any number of stay days. */
  lemma RegistrationValidIff(reg: GuestRegistration, today: Day)
    ensures RegistrationValid(reg, today) <==>
      (reg.bookingId.Some? ==> IsUuid(reg.bookingId.value)) &&
      reg.stayDays.Some? && reg.checkInDate.Some? && reg.checkInDate.value >= today
  {
  }

  /** A request with a null guest, no plan and zero or negative stay days still passes. */
  lemma NonPositiveStayAccepted(today: Day, days: int)
    requires days <= 0
    ensures RegistrationValid(GuestRegistration(None, None, Some(days), Some(today), None), today)
  {
  }
}
