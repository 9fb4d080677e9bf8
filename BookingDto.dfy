/** The plan record and the constraints declared on its fields. */
module BookingRecord {
  import opened Nullable
  import opened Constraints

  datatype Booking = Booking(
    id: Option<string>,
    name: Option<string>,
    description: Option<string>,
    price: Option<int>)

  /** An absent or UUID id, a non-blank name, a present price of any sign. */
  predicate BookingValid(b: Booking) {
    NullOrUuid(b.id) && NotBlank(b.name) && b.price.Some?
  }

  /** No sign constraint: a named plan with a negative price and no id passes. */
  lemma NegativePriceAccepted(price: int)
    requires price < 0
    ensures BookingValid(Booking(None, Some("朝食付きプラン"), None, Some(price)))
  {
    assert "朝食付きプラン"[0] > ' ';
  }
}
