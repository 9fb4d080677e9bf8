/** The guest transfer record: the guest's fields without the deletion flag. */
module GuestDtoRecord {
  import opened Nullable
  import opened Constraints
  import opened GuestRecord

  datatype GuestDto = GuestDto(
    id: Option<string>,
    name: Option<string>,
    kanaName: Option<string>,
    gender: Option<string>,
    age: Option<int>,
    region: Option<string>,
    email: Option<string>,
    phone: Option<string>)

  /**
   * The declared constraints. The age carries @PositiveOrZero only (its @NotBlank
   * does not apply to an integer), so a null age passes.
   */
  predicate GuestDtoValid(d: GuestDto) {
    && NullOrUuid(d.id)
    && NotBlank(d.name)
    && NotBlank(d.kanaName)
    && NotBlank(d.gender)
    && (d.age.None? || d.age.value >= 0)
    && NotBlank(d.region)
    && NotBlank(d.email)
    && NotBlank(d.phone) && NullOrPhone(d.phone)
  }

  /** The guest's fields other than the deletion flag. */
  function AsDto(g: Guest): GuestDto {
    GuestDto(g.id, g.name, g.kanaName, g.gender, g.age, g.region, g.email, g.phone)
  }

  /** The transfer form forgets the deletion flag and nothing else. */
  lemma AsDtoForgetsOnlyDeleted(g: Guest, h: Guest)
    ensures AsDto(h) == AsDto(g) <==> h.(deleted := g.deleted) == g
  {
  }

  /**
   * The two records agree on every shared field except the age: the guest also
   * demands a present age and a present deletion flag.
   */
  lemma GuestValidIffDtoValid(g: Guest)
    ensures GuestValid(g) <==> GuestDtoValid(AsDto(g)) && g.age.Some? && g.deleted.Some?
  {
  }

  /** A transfer record whose phone is present and 10 or 11 digits long, all ASCII digits. */
  lemma GuestDtoPhone(d: GuestDto)
    requires GuestDtoValid(d)
    ensures d.phone.Some? && (|d.phone.value| == 10 || |d.phone.value| == 11)
    ensures forall i | 0 <= i < |d.phone.value| :: '0' <= d.phone.value[i] <= '9'
  {
    PhoneShape(d.phone.value);
  }
}
