# Hotel management: guests, plans and reservations

This project models the core of a small hotel management back end. Its parts are:

- **Records and their constraints.** The guest record and its transfer form hold identity, contact data and a deletion flag. Then come the exact-match search criteria (name, kana name, phone), the registration request, the reservation and the plan (booking). Each record's bean-validation constraints are predicates:
  - `@Pattern`: a character-class matcher that must consume the whole input.
  - `@NotBlank`: `trim()` leaves something.
  - `@NotNull`, `@PositiveOrZero`.
  - `@FutureOrPresent`: today's date is a parameter.

  A `null` value is `None`.
- **The converter.** `convertGuestDetail` joins guests, plans and reservations into one detail per guest:
  - the guest's reservations in input order;
  - the distinct plan ids they reference;
  - the plans with those ids, in input order.

  `toGuest` builds a guest from search criteria.
- **The repository.** This is an abstract store (a `class Store`). It holds the guest, plan and reservation tables as rows, plus a log of every write statement called on it. A primary-key clash on insert raises. The mapper's SQL is not part of this model. Each mapper operation states the effect the service relies on. For `checkIn` and `checkOut` that effect is taken from `HotelRepositoryTest.java`: the status becomes CHECKED_IN or CHECKED_OUT.
- **The service.**
  - The read compositions.
  - `matchGuest`: the stored match, or a guest built from the criteria.
  - Registration of a guest with its reservation: `insertGuest` and `initReservation`.
  - Registration of a plan, and the edits.
  - The check-in and check-out transitions.

  Each state-changing method is proved equal to a pure specification function of the old store. The properties of the service are lemmas about those functions.

Three values are parameters, because the code reads them from outside:
- the fresh UUIDs that `UUID.randomUUID()` returns;
- today's date, which `LocalDate.now()` returns;
- the result sets of the date and search queries.

Money is an unbounded integer and a date is a day number.

Where the specification and the code disagree, the model follows the code:
- `initReservation` creates the reservation as TEMPORARY, not NOT_CHECKED_IN.
- `initReservation` overwrites the requested check-in date with today.
- The service is the revision in `HotelService.java`, which has no per-operator scoping.

## Model

| member | source | states |
|---|---|---|
| Constraints.PhoneShape | src/main/java/com/portfolio/hotel/management/data/guest/Guest.java:42 | the phone pattern accepts a string iff it has 10 or 11 characters, all ASCII digits |
| Constraints.UuidShape | src/main/java/com/portfolio/hotel/management/data/guest/Guest.java:15-19 | the UUID pattern accepts a string iff it has 36 characters with '-' at 8, 13, 18, 23, a version digit 1-5 at 14, a variant 8/9/a/b (either case) at 19 and hex digits elsewhere |
| Constraints.RunAll | src/main/java/com/portfolio/hotel/management/data/guest/Guest.java:16 | a counted run of one character class holds iff every character in the run is in the class |
| Constraints.FixedTerm | src/main/java/com/portfolio/hotel/management/data/guest/Guest.java:16 | a term with a fixed count consumes exactly that many characters of its class before the rest of the pattern |
| Constraints.UuidLength | src/main/java/com/portfolio/hotel/management/data/guest/Guest.java:16 | a string that matches the UUID pattern has 36 characters |
| Constraints.UuidRuns | src/main/java/com/portfolio/hotel/management/data/guest/Guest.java:16 | on 36 characters the UUID pattern is exactly its eleven groups in sequence |
| Constraints.UuidPositions | src/main/java/com/portfolio/hotel/management/data/guest/Guest.java:16 | on 36 characters the UUID pattern holds iff every index has a character of its position's class |
| Constraints.UuidNotBlank | src/main/java/com/portfolio/hotel/management/data/reservation/ReservationDto.java:18-23 | a UUID-shaped string is never blank |
| Constraints.PhoneNotBlank | src/main/java/com/portfolio/hotel/management/data/guest/Guest.java:41-43 | a phone-shaped string is never blank |
| Constraints.NotBlankPhone | src/main/java/com/portfolio/hotel/management/data/guest/Guest.java:41-43 | `@NotBlank` together with the phone pattern holds iff the phone is present and phone-shaped |
| Constraints.NotBlankUuid | src/main/java/com/portfolio/hotel/management/data/reservation/ReservationDto.java:25-30 | `@NotBlank` together with the UUID pattern holds iff the id is present and UUID-shaped |
| Constraints.HyphenatedPhoneRejected | src/test/java/com/portfolio/hotel/management/service/HotelServiceTest.java:474 | the tests' phone "010-1234-5678" fails the phone pattern |
| Constraints.FixturePhoneAccepted | src/main/java/com/portfolio/hotel/management/data/guest/Guest.java:42 | an 11-digit phone number passes the phone pattern |
| Constraints.FixtureUuidAccepted | src/test/java/com/portfolio/hotel/management/service/HotelServiceTest.java:481 | the tests' version-1 id passes the UUID pattern |
| Constraints.GuestFixtureIdRejected | src/main/java/com/portfolio/hotel/management/data/guest/Guest.java:16 | "11111111-1111-1111-1111-111111111111" fails the UUID pattern (variant digit at 19) |
| Constraints.BookingFixtureIdRejected | src/main/java/com/portfolio/hotel/management/data/booking/BookingDto.java:17-21 | "aaaaaaa1-aaaa-aaaa-aaaa-aaaaaaaaaaaa" fails the UUID pattern (version digit at 14) |
| Constraints.ReservationFixtureIdRejected | src/main/java/com/portfolio/hotel/management/data/reservation/ReservationDto.java:18-23 | "rsv00001-…" fails the UUID pattern ('r' is not hex) |
| Constraints.NotBlankIffTrimmed | src/main/java/com/portfolio/hotel/management/data/guest/Guest.java:21-22 | `@NotBlank` on a present string holds iff `trim()` (stripping leading and trailing characters at or below U+0020) leaves a non-empty string |
| Constraints.TrimSemantics | src/main/java/com/portfolio/hotel/management/data/guest/Guest.java:21-22 | `trim()` keeps an ideographic space, which is therefore not blank, and strips ASCII whitespace to nothing; null is blank |
| GuestRecord.NewGuest | src/main/java/com/portfolio/hotel/management/data/guest/Guest.java:45-46 | a new guest has every field null except the deletion flag, which is false |
| GuestRecord.GuestValidFields | src/main/java/com/portfolio/hotel/management/data/guest/Guest.java:15-46 | a valid guest has an absent or 36-character hyphenated id, a present 10- or 11-digit phone, a present non-negative age and a present deletion flag |
| GuestRecord.ServiceTestGuestRejectedForPhone | src/test/java/com/portfolio/hotel/management/service/HotelServiceTest.java:465-476 | the service tests' guest violates the constraints, and satisfies them once its phone is written without hyphens |
| GuestDtoRecord.GuestValidIffDtoValid | src/main/java/com/portfolio/hotel/management/data/guest/GuestDto.java:16-44 | a guest is valid iff its transfer form is valid and its age and deletion flag are present |
| GuestDtoRecord.GuestDtoPhone | src/main/java/com/portfolio/hotel/management/data/guest/GuestDto.java:42-44 | a valid transfer form has a present phone of 10 or 11 ASCII digits |
| GuestSearchRecord.GuestSearchValidIff | src/main/java/com/portfolio/hotel/management/data/guest/GuestSearch.java:12-20 | the criteria are valid iff name and kana name are not blank and the phone is present and phone-shaped |
| GuestRegistrationRecord.RegistrationIgnoresGuestAndMemo | src/main/java/com/portfolio/hotel/management/data/guest/GuestRegistration.java:15-30 | validity of a request does not depend on its guest or its memo |
| GuestRegistrationRecord.RegistrationValidIff | src/main/java/com/portfolio/hotel/management/data/guest/GuestRegistration.java:17-28 | a request is valid iff its plan id is absent or a UUID, its stay days are present and its check-in date is present and not before today |
| GuestRegistrationRecord.NonPositiveStayAccepted | src/main/java/com/portfolio/hotel/management/data/guest/GuestRegistration.java:23-24 | zero or negative stay days pass (no lower bound), even without a guest or a plan |
| ReservationRecord.ReservationValidIff | src/main/java/com/portfolio/hotel/management/data/reservation/ReservationDto.java:18-47 | a reservation is valid iff its three ids are present UUIDs, its check-in date is absent or not before today and its total is present |
| BookingRecord.NegativePriceAccepted | src/main/java/com/portfolio/hotel/management/data/booking/BookingDto.java:28-29 | a named plan with a negative price passes (no sign constraint) |
| HotelConverter.ConvertGuestDetail | src/main/java/com/portfolio/hotel/management/service/converter/HotelConverter.java:16-44 | one detail per guest, in guest order, each holding that guest and built by the join |
| HotelConverter.ToGuest | src/main/java/com/portfolio/hotel/management/service/converter/HotelConverter.java:47-53 | the built guest carries the criteria's name, kana name and phone, and is otherwise a new guest |
| HotelConverter.BookingIds | src/main/java/com/portfolio/hotel/management/service/converter/HotelConverter.java:30-31 | one plan id per reservation, in order: the i-th id is the i-th reservation's plan id |
| HotelConverter.ReservationsOfSubsequence | src/main/java/com/portfolio/hotel/management/service/converter/HotelConverter.java:25-27 | the guest's reservations are a subsequence of the input |
| HotelConverter.ReservationsOfCount | src/main/java/com/portfolio/hotel/management/service/converter/HotelConverter.java:25-27 | each reservation of the guest occurs as often as in the input; the others not at all |
| HotelConverter.BookingsReferencedSubsequence | src/main/java/com/portfolio/hotel/management/service/converter/HotelConverter.java:35-37 | the referenced plans are a subsequence of the input plans |
| HotelConverter.BookingsReferencedCount | src/main/java/com/portfolio/hotel/management/service/converter/HotelConverter.java:35-37 | each plan whose id is referenced occurs as often as in the input; the others not at all |
| HotelConverter.DistinctMembers | src/main/java/com/portfolio/hotel/management/service/converter/HotelConverter.java:32 | `distinct()` keeps exactly the elements of its input |
| HotelConverter.DistinctNoDuplicates | src/main/java/com/portfolio/hotel/management/service/converter/HotelConverter.java:32 | `distinct()` yields no element twice |
| HotelConverter.BookingIdsMembers | src/main/java/com/portfolio/hotel/management/service/converter/HotelConverter.java:30-31 | an id is among the plan ids iff some reservation references it |
| HotelConverter.DetailReservations | src/main/java/com/portfolio/hotel/management/service/converter/HotelConverter.java:25-28 | a detail's reservations are exactly the input reservations whose guest id is the guest's, in input order and multiplicity |
| HotelConverter.DetailBookings | src/main/java/com/portfolio/hotel/management/service/converter/HotelConverter.java:30-39 | a detail's plans are exactly the input plans some reservation of the guest references, in input order and multiplicity |
| HotelConverter.DetailBookingIds | src/main/java/com/portfolio/hotel/management/service/converter/HotelConverter.java:30-33 | the plan ids of a detail are those referenced by the guest's reservations, each once |
| HotelConverter.NullIdGuestDetailEmpty | src/main/java/com/portfolio/hotel/management/service/converter/HotelConverter.java:26 | a guest with a null id gets no reservations and no plans |
| HotelConverter.NullIdGuestNoReservations | src/main/java/com/portfolio/hotel/management/service/converter/HotelConverter.java:26 | no reservation belongs to a guest with a null id |
| HotelConverter.NoIdsNoBookings | src/main/java/com/portfolio/hotel/management/service/converter/HotelConverter.java:35-37 | with no referenced ids, no plan is selected |
| HotelRepository.MatchGuest | src/main/java/com/portfolio/hotel/management/repository/HotelRepository.java:46-47 | the match is a stored guest equal on all three criteria, and it is null iff no stored guest is |
| HotelRepository.PriceOf | src/main/java/com/portfolio/hotel/management/repository/HotelRepository.java:49-50 | a found price is the price of a plan with that id (the only one under unique keys); a null or unknown id gives null |
| HotelRepository.StatusOf | src/main/java/com/portfolio/hotel/management/repository/HotelRepository.java:52-53 | a found status is that of a reservation with that id (the only one under unique keys); an unknown id gives null |
| HotelRepository.ReplaceGuest | src/main/java/com/portfolio/hotel/management/repository/HotelRepository.java:67-68 | the update replaces exactly the rows with the guest's id and keeps the others |
| HotelRepository.ReplaceReservation | src/main/java/com/portfolio/hotel/management/repository/HotelRepository.java:70-71 | the update replaces exactly the rows with the reservation's id and keeps the others |
| HotelRepository.SetStatusRows | src/main/java/com/portfolio/hotel/management/repository/HotelRepository.java:73-77 | a status write changes the status of exactly the rows with that id |
| HotelRepository.StatusAfterSet | src/test/java/com/portfolio/hotel/management/repository/HotelRepositoryTest.java:308-323 | after a status write the reservation reads back the new status (null if it does not exist); every other id reads as before |
| HotelRepository.StatusAfterReplace | src/main/java/com/portfolio/hotel/management/repository/HotelRepository.java:70-71 | after an edit the reservation reads back the edit's status; every other id reads as before |
| HotelRepository.StatusOfAppended | src/main/java/com/portfolio/hotel/management/repository/HotelRepository.java:64-65 | a reservation inserted under a new id reads back with its own status |
| HotelRepository.SetStatusKeepsKeys | src/main/java/com/portfolio/hotel/management/repository/HotelRepository.java:73-77 | status writes keep the reservation keys unique |
| HotelRepository.InsertsKeepKeys | src/main/java/com/portfolio/hotel/management/repository/HotelRepository.java:58-65 | the three inserts keep every table's keys unique |
| HotelRepository.Store.InsertGuest | src/main/java/com/portfolio/hotel/management/repository/HotelRepository.java:58-59 | logs the call and appends the guest, or raises on a taken id; keys stay unique |
| HotelRepository.Store.InsertBooking | src/main/java/com/portfolio/hotel/management/repository/HotelRepository.java:61-62 | logs the call and appends the plan, or raises on a taken id; keys stay unique |
| HotelRepository.Store.InsertReservation | src/main/java/com/portfolio/hotel/management/repository/HotelRepository.java:64-65 | logs the call and appends the reservation, or raises on a taken id; keys stay unique |
| HotelRepository.Store.UpdateGuest | src/main/java/com/portfolio/hotel/management/repository/HotelRepository.java:67-68 | replaces the guest's rows and logs the call; nothing else changes |
| HotelRepository.Store.UpdateReservation | src/main/java/com/portfolio/hotel/management/repository/HotelRepository.java:70-71 | replaces the reservation's rows and logs the call; nothing else changes |
| HotelRepository.Store.CheckIn | src/main/java/com/portfolio/hotel/management/repository/HotelRepository.java:73-74 | the reservation's status becomes CHECKED_IN and the call is logged |
| HotelRepository.Store.CheckOut | src/main/java/com/portfolio/hotel/management/repository/HotelRepository.java:76-77 | the reservation's status becomes CHECKED_OUT and the call is logged |
| HotelService.GetAllGuest | src/main/java/com/portfolio/hotel/management/service/HotelService.java:34-39 | one detail per stored guest, joined with all stored plans and reservations |
| HotelService.GetCheckInToday | src/main/java/com/portfolio/hotel/management/service/HotelService.java:42-49 | one detail per guest checking in today, joined with all plans and today's reservations |
| HotelService.GetAllBooking | src/main/java/com/portfolio/hotel/management/service/HotelService.java:52-54 | all stored plans |
| HotelService.SearchGuest | src/main/java/com/portfolio/hotel/management/service/HotelService.java:58-63 | one detail per guest found, joined with all plans and reservations |
| HotelService.MatchGuest | src/main/java/com/portfolio/hotel/management/service/HotelService.java:66-77 | a stored guest matching all criteria when there is one, otherwise the guest built from the criteria; nothing is written |
| HotelService.InsertGuest | src/main/java/com/portfolio/hotel/management/service/HotelService.java:80-87 | the new store, the request as the call leaves it and the outcome are those of the registration specification; keys stay unique |
| HotelService.InitReservationOn | src/main/java/com/portfolio/hotel/management/service/HotelService.java:90-107 | the new store and outcome are those of the reservation specification; keys stay unique |
| HotelService.InsertBooking | src/main/java/com/portfolio/hotel/management/service/HotelService.java:110-113 | the plan receives the fresh id and is inserted; keys stay unique |
| HotelService.EditGuest | src/main/java/com/portfolio/hotel/management/service/HotelService.java:116-118 | one guest update and nothing else |
| HotelService.EditReservation | src/main/java/com/portfolio/hotel/management/service/HotelService.java:121-123 | one reservation update and nothing else |
| HotelService.CheckIn | src/main/java/com/portfolio/hotel/management/service/HotelService.java:126-133 | the new store and outcome are those of the check-in specification |
| HotelService.CheckOut | src/main/java/com/portfolio/hotel/management/service/HotelService.java:136-144 | the new store and outcome are those of check-out as written |
| HotelService.CheckOutChecked | src/main/java/com/portfolio/hotel/management/service/HotelService.java:136-144 | the new store and outcome are those of check-out with the status read first |
| HotelService.NullGuestRaises | src/main/java/com/portfolio/hotel/management/service/HotelService.java:82 | a request without a guest raises a null reference and leaves the store unchanged |
| HotelService.RegistrationEffect | src/main/java/com/portfolio/hotel/management/service/HotelService.java:80-107 | the full effect of a registration: the request with the assigned id, the guest insert call only for a null id, then one reservation insert call when the guest is stored and price and stay are present, the resulting tables, success iff that insert went through, a null reference otherwise |
| HotelService.RegisterGuestInsertsGuest | src/main/java/com/portfolio/hotel/management/service/HotelService.java:80-87 | a guest with a null id receives the fresh id, also in the caller's request, and is inserted exactly once; a guest with an id is never inserted |
| HotelService.RegisterGuestInsertsReservation | src/main/java/com/portfolio/hotel/management/service/HotelService.java:90-107 | at most one reservation insert, and exactly one iff the guest is stored and the price and stay days are present; it links the guest and plan, costs price × days, is TEMPORARY and checks in today; a null price or stay raises a null reference; success iff the insert went through |
| HotelService.NonPositiveStayTotal | src/main/java/com/portfolio/hotel/management/service/HotelService.java:100 | zero or negative stay days at a non-negative price give a total of at most zero |
| HotelService.NewReservationValid | src/main/java/com/portfolio/hotel/management/service/HotelService.java:91-104 | the reservation built from a valid request with UUID ids and a plan id satisfies the reservation constraints |
| HotelService.RegisteredReservationRefusesCheckIn | src/main/java/com/portfolio/hotel/management/service/HotelService.java:103 | a just-registered reservation reads TEMPORARY, and check-in on it is refused without a write |
| HotelService.RegistrationScenarios | src/test/java/com/portfolio/hotel/management/service/HotelServiceTest.java:273-306 | a new guest gives one guest and one reservation insert at 10000 for one night; a guest with an id gives only the reservation insert |
| HotelService.CheckInOnlyFromNotCheckedIn | src/main/java/com/portfolio/hotel/management/service/HotelService.java:126-133 | check-in succeeds iff the status is NOT_CHECKED_IN, then writes once and reads CHECKED_IN with other reservations unchanged; otherwise it raises its message and changes nothing |
| HotelService.CheckOutAsWrittenAlwaysRaises | src/main/java/com/portfolio/hotel/management/service/HotelService.java:136-144 | check-out as written raises on every input and always leaves exactly one write; under the unconditional check-out write assumed for the mapper, it also leaves an existing reservation CHECKED_OUT whatever its status was |
| HotelService.GuardedWriteStillRefuses | src/main/java/com/portfolio/hotel/management/service/HotelService.java:137-142 | even if the check-out write at 137 only changed CHECKED_IN rows, the status read at 138 is never CHECKED_IN, so the call raises on every input |
| HotelService.CheckOutAsWrittenFromCheckedIn | src/test/java/com/portfolio/hotel/management/service/HotelServiceTest.java:387-397 | from CHECKED_IN, the case the test expects to succeed, the call as written raises yet the reservation ends CHECKED_OUT |
| HotelService.CheckOutOnlyFromCheckedIn | src/main/java/com/portfolio/hotel/management/service/HotelService.java:138-143 | guarded check-out succeeds iff the status is CHECKED_IN, then writes once and reads CHECKED_OUT with other reservations unchanged; otherwise it raises its message and changes nothing |
| HotelService.Lifecycle | src/main/java/com/portfolio/hotel/management/service/HotelService.java:126-133 | check-in as written, then the corrected check-out (see Findings): NOT_CHECKED_IN → CHECKED_IN → CHECKED_OUT with one write per step; a second check-in and a check-out after the end are refused |
| HotelService.LifecycleAsWritten | src/main/java/com/portfolio/hotel/management/service/HotelService.java:126-144 | with the code as written, a check-out right after a successful check-in raises, although the reservation is left CHECKED_OUT after two writes |
| HotelService.EditEnablesCheckIn | src/main/java/com/portfolio/hotel/management/service/HotelService.java:121-133 | after an edit sets NOT_CHECKED_IN on an existing reservation, check-in succeeds; other statuses are unaffected |
| HotelService.BuiltGuestMatchesButIncomplete | src/main/java/com/portfolio/hotel/management/service/HotelService.java:66-77 | the guest built from valid criteria matches them exactly, yet is not a valid guest until its other fields are filled in |

## Left out

- Per-operator scoping (the operator id that later revisions pass to every query), the soft-delete toggle, user registration and login: the service revision modelled here has none of them.
- The HTTP controller, the security configuration and the clock bean: they are outside the service core.
- The SQL of the mapper is not part of this model. These query results are inputs to the service methods: the date queries for today's check-ins, the search query, and any filtering on the deletion flag.
- The `findAll` queries return whole tables.
- `selectOne` with more than one matching row raises in MyBatis. `HotelRepository.MatchGuest`, `PriceOf` and `StatusOf` return the first matching row instead; under unique keys there is only one for the latter two.
- `HotelRepository.Store.CheckIn`, `HotelRepository.Store.CheckOut`: the status is set whatever it was. The conditional SQL these statements may have is not visible. Only the refusal on every call in the finding below is independent of that choice: `HotelService.GuardedWriteStillRefuses` proves it for a write guarded by CHECKED_IN as well. That a reservation not CHECKED_IN ends CHECKED_OUT assumes the unconditional write.
- `HotelConverter.ConvertGuestDetail`: a reservation with a null guest id makes the join raise a `NullPointerException` (`HotelConverter.java:26`) as soon as there is a guest. The model does not model that error path; it requires every guest id to be present whenever there is a guest. The same requirement carries over to `HotelService.GetAllGuest`, `HotelService.GetCheckInToday` and `HotelService.SearchGuest`.
- `HotelRepository.MatchesSearch`: the match query's SQL is not visible. The model assumes SQL equality, under which a null criterion matches no row.
- `HotelService.MatchGuest` returns the guest itself. The source wraps it in a new `GuestDetailDto` whose other fields stay empty; that wrapper is not modelled.
- The service calls the converter and the mapper by older names: `convertGuestDetailDto`, `toGuestDto`, `editGuest`, `editReservation`. The model maps them onto the converter's `convertGuestDetail` and `toGuest` and the mapper's `updateGuest` and `updateReservation`, whose sources are the ones available. The transfer-object types the older names take (`GuestDto`, `GuestSearchDto`, `GuestRegistrationDto`, `ReservationDto`) are modelled by the same records as the entities they carry.
- Concurrency: the read-then-write race between the status read and the write in `checkIn` is not modelled.
- `createdAt` is left out because it is a clock read.
- `BigDecimal` scale: money is an exact integer.
- 32-bit `Integer` wrap-around: `stayDays` and `age` are unbounded integers.
- `@Email` is reduced to `@NotBlank`: the address grammar is not modelled.
- `GuestDtoRecord.GuestDtoValid`, `ReservationRecord.ReservationValid`: these ignore `@NotBlank` where it is declared on an `Integer`, `LocalDate`, `LocalDateTime` or enum field. Bean validation refuses such a declaration with an `UnexpectedTypeException` at validation time. The model treats the declaration as having no effect.
- `HotelService.InsertGuest`, `HotelService.InsertBooking`: the caller's object is mutated in place, and the model returns the mutated value instead. Aliasing with other references to that object is not modelled.
- `UUID.randomUUID()` and `LocalDate.now()` are parameters.
- A fresh id that clashes with a stored key is a duplicate-key failure.

## Findings

| source | as written | input that shows it | evidently intended | confidence | as-written member | corrected member |
|---|---|---|---|---|---|---|
| src/main/java/com/portfolio/hotel/management/service/HotelService.java:136-144 | `checkOut` calls the check-out write before it reads the status. The read therefore sees CHECKED_OUT (or null), never CHECKED_IN. Every call raises "チェックイン済みの予約のみチェックアウト可能です" and every call writes once; under the unconditional write assumed for the mapper, every call also leaves an existing reservation CHECKED_OUT. | a reservation whose status is CHECKED_IN, the test's success case, raises; under the unconditional write, a reservation whose status is NOT_CHECKED_IN is checked out and the call still raises | read the status first, write once only from CHECKED_IN, and otherwise raise without writing, as the tests at HotelServiceTest.java:387-413 expect | not executed; high | HotelService.CheckOutAsWrittenAlwaysRaises | HotelService.CheckOutOnlyFromCheckedIn |
