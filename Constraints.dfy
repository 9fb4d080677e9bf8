/**
 * The Bean Validation constraints that the data records declare, as predicates:
 * @Pattern (a full match of the value against a regular expression, null passes),
 * @NotBlank, @NotNull, @PositiveOrZero and @FutureOrPresent ("today" is a parameter).
 *
 * The two regular expressions in use are a concatenation of character classes with
 * repetition counts, so they are modelled by `Pattern`, a term list, and `Matches`,
 * a backtracking matcher that consumes the whole input, as `Matcher.matches` does.
 */
module Constraints {
  import opened Nullable

  /** A LocalDate, as a day number. */
  type Day = int

  datatype CharClass =
    | Hex       // [0-9a-fA-F]
    | Digit     // [0-9]
    | Hyphen    // -
    | Version   // [1-5]
    | Variant   // [89abAB]

  predicate InClass(k: CharClass, c: char) {
    match k
    case Hex => '0' <= c <= '9' || 'a' <= c <= 'f' || 'A' <= c <= 'F'
    case Digit => '0' <= c <= '9'
    case Hyphen => c == '-'
    case Version => '1' <= c <= '5'
    case Variant => c in "89abAB"
  }

  /** `cls{min,max}` */
  datatype Term = Term(cls: CharClass, min: nat, max: nat)

  type Pattern = seq<Term>

  /** `^[0-9a-fA-F]{8}-[0-9a-fA-F]{4}-[1-5][0-9a-fA-F]{3}-[89abAB][0-9a-fA-F]{3}-[0-9a-fA-F]{12}$` */
  const UuidPattern: Pattern := [
    Term(Hex, 8, 8), Term(Hyphen, 1, 1),
    Term(Hex, 4, 4), Term(Hyphen, 1, 1),
    Term(Version, 1, 1), Term(Hex, 3, 3), Term(Hyphen, 1, 1),
    Term(Variant, 1, 1), Term(Hex, 3, 3), Term(Hyphen, 1, 1),
    Term(Hex, 12, 12)
  ]

  /** `^[0-9]{10,11}$` */
  const PhonePattern: Pattern := [Term(Digit, 10, 11)]

  /** The `n` characters of `s` from `pos` on all belong to class `k`. */
  predicate Run(k: CharClass, s: string, pos: nat, n: nat)
    requires pos + n <= |s|
    decreases n
  {
    n == 0 || (InClass(k, s[pos]) && Run(k, s, pos + 1, n - 1))
  }

  /** The terms of `p` from index `t` on match all of `s` from `pos` to the end. */
  predicate MatchFrom(p: Pattern, t: nat, s: string, pos: nat)
    requires t <= |p| && pos <= |s|
    decreases |p| - t, 1, 0
  {
    if t == |p| then pos == |s| else TryCounts(p, t, s, pos, p[t].min)
  }

  /** Term `t` of `p` takes `k`, `k + 1`, ... up to its maximum characters. */
  predicate TryCounts(p: Pattern, t: nat, s: string, pos: nat, k: nat)
    requires t < |p| && pos <= |s|
    decreases |p| - t, 0, p[t].max - k
  {
    k <= p[t].max &&
    ((pos + k <= |s| && Run(p[t].cls, s, pos, k) && MatchFrom(p, t + 1, s, pos + k))
     || TryCounts(p, t, s, pos, k + 1))
  }

  predicate Matches(p: Pattern, s: string) {
    MatchFrom(p, 0, s, 0)
  }

  /** The UUID pattern, declared on seven identifier fields. */
  predicate IsUuid(s: string) {
    Matches(UuidPattern, s)
  }

  predicate IsPhone(s: string) {
    Matches(PhonePattern, s)
  }

  /** @Pattern: a null value is valid. */
  predicate NullOrUuid(s: Option<string>) {
    s.None? || IsUuid(s.value)
  }

  predicate NullOrPhone(s: Option<string>) {
    s.None? || IsPhone(s.value)
  }

  /**
   * @NotBlank: not null, and something is left after `String.trim()`, which strips
   * every leading and trailing character at or below U+0020.
   */
  predicate NotBlank(s: Option<string>) {
    s.Some? && exists i | 0 <= i < |s.value| :: s.value[i] > ' '
  }

  /** @NotNull together with @PositiveOrZero. */
  predicate PresentNonNegative(n: Option<int>) {
    n.Some? && n.value >= 0
  }

  /** @FutureOrPresent: a null date is valid. */
  predicate FutureOrPresent(d: Option<Day>, today: Day) {
    d.None? || d.value >= today
  }

  /** The character class the UUID pattern expects at each of its 36 positions. */
  function UuidClassAt(i: nat): CharClass {
    if i == 8 || i == 13 || i == 18 || i == 23 then Hyphen
    else if i == 14 then Version
    else if i == 19 then Variant
    else Hex
  }

  // ---------------------------------------------------------------------------
  // Lemmas

  lemma {:induction false} RunAll(k: CharClass, s: string, pos: nat, n: nat)
    requires pos + n <= |s|
    ensures Run(k, s, pos, n) <==> forall i | pos <= i < pos + n :: InClass(k, s[i])
    decreases n
  {
    if n > 0 {
      RunAll(k, s, pos + 1, n - 1);
    }
  }

  /** A term with a fixed count takes exactly that many characters. */
  lemma FixedTerm(p: Pattern, t: nat, s: string, pos: nat)
    requires t < |p| && p[t].min == p[t].max && pos <= |s|
    ensures MatchFrom(p, t, s, pos) <==>
      pos + p[t].min <= |s| && Run(p[t].cls, s, pos, p[t].min) && MatchFrom(p, t + 1, s, pos + p[t].min)
  {
    assert !TryCounts(p, t, s, pos, p[t].max + 1);
  }

  /**
   * The phone pattern accepts exactly the strings of 10 or 11 ASCII digits.
   */
  lemma PhoneShape(s: string)
    ensures IsPhone(s) <==> (|s| == 10 || |s| == 11) && forall i | 0 <= i < |s| :: '0' <= s[i] <= '9'
  {
    var p := PhonePattern;
    assert !TryCounts(p, 0, s, 0, 12);
    if |s| >= 10 { RunAll(Digit, s, 0, 10); }
    if |s| >= 11 { RunAll(Digit, s, 0, 11); }
  }

  /**
   * The UUID pattern accepts exactly the 36-character strings with '-' at indices
   * 8, 13, 18 and 23, a version digit 1-5 at index 14, a variant digit 8, 9, a, b
   * (either case) at index 19 and hex digits everywhere else.
   */
  lemma UuidShape(s: string)
    ensures IsUuid(s) <==> |s| == 36 && forall i | 0 <= i < 36 :: InClass(UuidClassAt(i), s[i])
  {
    UuidLength(s);
    if |s| == 36 {
      UuidPositions(s);
    }
  }

  lemma UuidLength(s: string)
    ensures IsUuid(s) ==> |s| == 36
  {
    var p := UuidPattern;
    if IsUuid(s) {
      FixedTerm(p, 0, s, 0);
      FixedTerm(p, 1, s, 8);
      FixedTerm(p, 2, s, 9);
      FixedTerm(p, 3, s, 13);
      FixedTerm(p, 4, s, 14);
      FixedTerm(p, 5, s, 15);
      FixedTerm(p, 6, s, 18);
      FixedTerm(p, 7, s, 19);
      FixedTerm(p, 8, s, 20);
      FixedTerm(p, 9, s, 23);
      FixedTerm(p, 10, s, 24);
    }
  }

  /** With the length fixed, the pattern is the conjunction of one run per term. */
  lemma UuidRuns(s: string)
    requires |s| == 36
    ensures IsUuid(s) <==> UuidGroups(s)
  {
    var p := UuidPattern;
    FixedTerm(p, 0, s, 0);
    FixedTerm(p, 1, s, 8);
    FixedTerm(p, 2, s, 9);
    FixedTerm(p, 3, s, 13);
    FixedTerm(p, 4, s, 14);
    FixedTerm(p, 5, s, 15);
    FixedTerm(p, 6, s, 18);
    FixedTerm(p, 7, s, 19);
    FixedTerm(p, 8, s, 20);
    FixedTerm(p, 9, s, 23);
    FixedTerm(p, 10, s, 24);
  }

  predicate UuidGroups(s: string)
    requires |s| == 36
  {
    Run(Hex, s, 0, 8) && Run(Hyphen, s, 8, 1) && Run(Hex, s, 9, 4) && Run(Hyphen, s, 13, 1) &&
    Run(Version, s, 14, 1) && Run(Hex, s, 15, 3) && Run(Hyphen, s, 18, 1) &&
    Run(Variant, s, 19, 1) && Run(Hex, s, 20, 3) && Run(Hyphen, s, 23, 1) && Run(Hex, s, 24, 12)
  }

  lemma UuidPositions(s: string)
    requires |s| == 36
    ensures IsUuid(s) <==> forall i | 0 <= i < 36 :: InClass(UuidClassAt(i), s[i])
  {
    UuidRuns(s);
    RunAll(Hex, s, 0, 8);
    RunAll(Hyphen, s, 8, 1);
    RunAll(Hex, s, 9, 4);
    RunAll(Hyphen, s, 13, 1);
    RunAll(Version, s, 14, 1);
    RunAll(Hex, s, 15, 3);
    RunAll(Hyphen, s, 18, 1);
    RunAll(Variant, s, 19, 1);
    RunAll(Hex, s, 20, 3);
    RunAll(Hyphen, s, 23, 1);
    RunAll(Hex, s, 24, 12);
    if UuidGroups(s) {
      forall i | 0 <= i < 36 ensures InClass(UuidClassAt(i), s[i]) {
      }
    }
  }

  /** A string that matches the UUID pattern is never blank. */
  lemma UuidNotBlank(s: string)
    requires IsUuid(s)
    ensures NotBlank(Some(s))
  {
    UuidShape(s);
    assert s[0] > ' ';
  }

  /** A string that matches the phone pattern is never blank. */
  lemma PhoneNotBlank(s: string)
    requires IsPhone(s)
    ensures NotBlank(Some(s))
  {
    PhoneShape(s);
    assert s[0] > ' ';
  }

  /** On a phone field, @NotBlank adds nothing to the pattern beyond ruling out null. */
  lemma NotBlankPhone(s: Option<string>)
    ensures NotBlank(s) && NullOrPhone(s) <==> s.Some? && IsPhone(s.value)
  {
    if s.Some? && IsPhone(s.value) {
      PhoneNotBlank(s.value);
    }
  }

  /** On an identifier field, @NotBlank adds nothing to the UUID pattern beyond ruling out null. */
  lemma NotBlankUuid(s: Option<string>)
    ensures NotBlank(s) && NullOrUuid(s) <==> s.Some? && IsUuid(s.value)
  {
    if s.Some? && IsUuid(s.value) {
      UuidNotBlank(s.value);
    }
  }

  /** The hyphenated phone number of the service tests' guest fixture is rejected. */
  lemma HyphenatedPhoneRejected()
    ensures !IsPhone("010-1234-5678")
  {
    PhoneShape("010-1234-5678");
  }

  lemma FixturePhoneAccepted()
    ensures IsPhone("08098765432")
  {
    PhoneShape("08098765432");
  }

  /** A version-1 identifier used by the service tests matches the pattern. */
  lemma FixtureUuidAccepted()
    ensures IsUuid("3822609c-5651-11f0-b59f-a75edf46bde3")
  {
    UuidShape("3822609c-5651-11f0-b59f-a75edf46bde3");
  }

  /** A guest identifier of the tests: variant digit '1' at index 19. */
  lemma GuestFixtureIdRejected()
    ensures !IsUuid("11111111-1111-1111-1111-111111111111")
  {
    var s := "11111111-1111-1111-1111-111111111111";
    UuidShape(s);
    assert !InClass(UuidClassAt(19), s[19]);
  }

  /** A plan identifier of the tests: version digit 'a' at index 14. */
  lemma BookingFixtureIdRejected()
    ensures !IsUuid("aaaaaaa1-aaaa-aaaa-aaaa-aaaaaaaaaaaa")
  {
    var s := "aaaaaaa1-aaaa-aaaa-aaaa-aaaaaaaaaaaa";
    UuidShape(s);
    assert !InClass(UuidClassAt(14), s[14]);
  }

  /** A reservation identifier of the tests: 'r' is not a hex digit. */
  lemma ReservationFixtureIdRejected()
    ensures !IsUuid("rsv00001-aaaa-bbbb-cccc-000000000001")
  {
    var s := "rsv00001-aaaa-bbbb-cccc-000000000001";
    UuidShape(s);
    assert !InClass(UuidClassAt(0), s[0]);
  }

  // ---------------------------------------------------------------------------
  // String.trim()

  /** The leading characters at or below U+0020 removed. */
  function TrimStart(s: string): string {
    if s != [] && s[0] <= ' ' then TrimStart(s[1..]) else s
  }

  /** The trailing characters at or below U+0020 removed. */
  function TrimEnd(s: string): string {
    if s != [] && s[|s| - 1] <= ' ' then TrimEnd(s[..|s| - 1]) else s
  }

  /** `String.trim()` */
  function Trim(s: string): string {
    TrimEnd(TrimStart(s))
  }

  lemma {:induction false} TrimStartEmpty(s: string)
    ensures TrimStart(s) == [] <==> forall i | 0 <= i < |s| :: s[i] <= ' '
    ensures TrimStart(s) != [] ==> TrimStart(s)[0] > ' '
    decreases |s|
  {
    if s != [] && s[0] <= ' ' {
      TrimStartEmpty(s[1..]);
      assert forall i | 1 <= i < |s| :: s[i] == s[1..][i - 1];
    }
  }

  lemma {:induction false} TrimEndKeepsFirst(s: string)
    requires s != [] && s[0] > ' '
    ensures TrimEnd(s) != []
    decreases |s|
  {
    if s[|s| - 1] <= ' ' {
      assert |s| > 1;
      TrimEndKeepsFirst(s[..|s| - 1]);
    }
  }

  /** @NotBlank is exactly "not null, and `trim()` leaves something". */
  lemma NotBlankIffTrimmed(s: string)
    ensures NotBlank(Some(s)) <==> |Trim(s)| > 0
  {
    TrimStartEmpty(s);
    if TrimStart(s) != [] {
      TrimEndKeepsFirst(TrimStart(s));
    }
  }

  /** `trim()` keeps U+3000, the ideographic space, and strips ASCII whitespace entirely. */
  lemma TrimSemantics()
    ensures Trim("\U{3000}") == "\U{3000}" && NotBlank(Some("\U{3000}"))
    ensures Trim(" \t\n") == "" && !NotBlank(Some(" \t\n"))
    ensures !NotBlank(None)
  {
    NotBlankIffTrimmed("\U{3000}");
    NotBlankIffTrimmed(" \t\n");
    assert " \t\n"[1..] == "\t\n" && "\t\n"[1..] == "\n" && "\n"[1..] == "";
  }
}
