/** The exact-match criteria: name, kana name and phone. */
module GuestSearchRecord {
  import opened Nullable
  import opened Constraints

  datatype GuestSearch = GuestSearch(name: Option<string>, kanaName: Option<string>, phone: Option<string>)

  predicate GuestSearchValid(q: GuestSearch) {
    NotBlank(q.name) && NotBlank(q.kanaName) && NotBlank(q.phone) && NullOrPhone(q.phone)
  }

  /** The phone's @NotBlank is implied by its pattern once the phone is present. */
  lemma GuestSearchValidIff(q: GuestSearch)
    ensures GuestSearchValid(q) <==>
      NotBlank(q.name) && NotBlank(q.kanaName) && q.phone.Some? && IsPhone(q.phone.value)
  {
    NotBlankPhone(q.phone);
  }
}
