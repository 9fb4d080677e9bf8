/** The guest record and the constraints declared on its fields. */
module GuestRecord {
  import opened Nullable
  import opened Constraints

  datatype Guest = Guest(
    id: Option<string>,
    name: Option<string>,
    kanaName: Option<string>,
    gender: Option<string>,
    age: Option<int>,
    region: Option<string>,
    email: Option<string>,
    phone: Option<string>,
    deleted: Option<bool>)

  /** `new Guest()`: every field is null except the deletion flag, which starts out false. */
  function NewGuest(): (g: Guest)
    ensures g.deleted == Some(false)
    ensures g.id.None? && g.name.None? && g.kanaName.None? && g.gender.None?
    ensures g.age.None? && g.region.None? && g.email.None? && g.phone.None?
  {
    Guest(None, None, None, None, None, None, None, None, Some(false))
  }

  /** Every declared constraint holds (the e-mail grammar is reduced to not-blank). */
  predicate GuestValid(g: Guest) {
    && NullOrUuid(g.id)
    && NotBlank(g.name)
    && NotBlank(g.kanaName)
    && NotBlank(g.gender)
    && PresentNonNegative(g.age)
    && NotBlank(g.region)
    && NotBlank(g.email)
    && NotBlank(g.phone) && NullOrPhone(g.phone)
    && g.deleted.Some?
  }

  /**
   * The field-level meaning of a valid guest: an absent id or a 36-character UUID,
   * a phone of exactly 10 or 11 ASCII digits, a present non-negative age and a
   * present deletion flag.
   */
  lemma GuestValidFields(g: Guest)
    requires GuestValid(g)
    ensures g.id.Some? ==>
      |g.id.value| == 36 && g.id.value[8] == '-' && g.id.value[13] == '-' &&
      g.id.value[18] == '-' && g.id.value[23] == '-'
    ensures g.phone.Some? && (|g.phone.value| == 10 || |g.phone.value| == 11)
    ensures forall i | 0 <= i < |g.phone.value| :: '0' <= g.phone.value[i] <= '9'
    ensures g.age.Some? && g.age.value >= 0 && g.deleted.Some?
  {
    if g.id.Some? {
      UuidShape(g.id.value);
      assert UuidClassAt(8) == Hyphen && UuidClassAt(13) == Hyphen;
      assert UuidClassAt(18) == Hyphen && UuidClassAt(23) == Hyphen;
    }
    PhoneShape(g.phone.value);
  }

  /** The guest that the service tests register, with the phone "010-1234-5678". */
  function ServiceTestGuest(): Guest {
    NewGuest().(name := Some("山田太郎"), kanaName := Some("ヤマダタロウ"), gender := Some("MALE"),
                age := Some(30), region := Some("青森県"), email := Some("yamadamori@mail.com"),
                phone := Some("010-1234-5678"))
  }

  /** That guest is rejected, and only because of its hyphenated phone. */
  lemma ServiceTestGuestRejectedForPhone()
    ensures !GuestValid(ServiceTestGuest())
    ensures GuestValid(ServiceTestGuest().(phone := Some("01012345678")))
  {
    HyphenatedPhoneRejected();
    PhoneShape("01012345678");
    var g := ServiceTestGuest();
    assert g.name.value[0] > ' ' && g.kanaName.value[0] > ' ' && g.gender.value[0] > ' ';
    assert g.region.value[0] > ' ' && g.email.value[0] > ' ';
    assert "01012345678"[0] > ' ';
  }
}
