/**
 * The in-memory join of guests, plans and reservations into guest details, and the
 * conversion of exact-match criteria into a guest.
 */
module HotelConverter {
  import opened Nullable
  import opened GuestRecord
  import opened GuestSearchRecord
  import opened ReservationRecord
  import opened BookingRecord

  /** A guest with its reservations and the plans they reference. */
  datatype GuestDetail = GuestDetail(guest: Guest, bookings: seq<Booking>, reservations: seq<Reservation>)

  /** Every reservation has a guest id: the join dereferences it. */
  predicate GuestIdsNonNull(reservations: seq<Reservation>) {
    forall r | r in reservations :: r.guestId.Some?
  }

  /** The join needs non-null guest ids as soon as there is a guest to compare them with. */
  predicate GuestIdsPresent(guests: seq<Guest>, reservations: seq<Reservation>) {
    guests != [] ==> GuestIdsNonNull(reservations)
  }

  /** Reservation `r` is one of guest `g`'s: a non-null guest id equal to the guest's. */
  predicate BelongsTo(r: Reservation, g: Guest) {
    r.guestId.Some? && r.guestId == g.id
  }

  /**
   * The reservations of `g`, in input order: `r.getGuestId().equals(g.getId())`, which
   * dereferences the reservation's guest id and is false when the guest's id is null.
   */
  function ReservationsOf(g: Guest, rs: seq<Reservation>): seq<Reservation>
    requires GuestIdsNonNull(rs)
  {
    if rs == [] then []
    else
      var rest := ReservationsOf(g, rs[1..]);
      if g.id == Some(rs[0].guestId.value) then [rs[0]] + rest else rest
  }

  /** `map(Reservation::getBookingId)` */
  function BookingIds(rs: seq<Reservation>): (ids: seq<Option<string>>)
    ensures |ids| == |rs|
    ensures forall i | 0 <= i < |rs| :: ids[i] == rs[i].bookingId
  {
    if rs == [] then [] else [rs[0].bookingId] + BookingIds(rs[1..])
  }

  /** `distinct()`: the first occurrence of each element, in order. */
  function Distinct<T(==)>(s: seq<T>): seq<T> {
    if s == [] then []
    else
      var d := Distinct(s[..|s| - 1]);
      if s[|s| - 1] in d then d else d + [s[|s| - 1]]
  }

  /** The plans, in input order, whose id is among `ids` (`contains` also matches a null id). */
  function BookingsReferenced(ids: seq<Option<string>>, bs: seq<Booking>): seq<Booking> {
    if bs == [] then []
    else
      var rest := BookingsReferenced(ids, bs[1..]);
      if bs[0].id in ids then [bs[0]] + rest else rest
  }

  /** The detail the join builds for one guest. */
  function DetailOf(g: Guest, bookings: seq<Booking>, reservations: seq<Reservation>): GuestDetail
    requires GuestIdsNonNull(reservations)
  {
    var matched := ReservationsOf(g, reservations);
    GuestDetail(g, BookingsReferenced(Distinct(BookingIds(matched)), bookings), matched)
  }

  /**
   * `convertGuestDetail`: one detail per guest, in the order of the guests; the input
   * sequences are values and are left as they are.
   */
  method ConvertGuestDetail(guests: seq<Guest>, bookings: seq<Booking>, reservations: seq<Reservation>)
    returns (details: seq<GuestDetail>)
    requires GuestIdsPresent(guests, reservations)
    ensures |details| == |guests|
    ensures forall i | 0 <= i < |guests| :: details[i].guest == guests[i]
    ensures forall i | 0 <= i < |guests| :: details[i] == DetailOf(guests[i], bookings, reservations)
  {
    details := [];
    for i := 0 to |guests|
      invariant |details| == i
      invariant forall j | 0 <= j < i :: details[j] == DetailOf(guests[j], bookings, reservations)
    {
      var guest := guests[i];
      var matchedReservations := ReservationsOf(guest, reservations);
      var bookingIds := Distinct(BookingIds(matchedReservations));
      var matchBookings := BookingsReferenced(bookingIds, bookings);
      details := details + [GuestDetail(guest, matchBookings, matchedReservations)];
    }
  }

  /** `toGuest`: a new guest carrying the three search fields. */
  function ToGuest(q: GuestSearch): (g: Guest)
    ensures g.name == q.name && g.kanaName == q.kanaName && g.phone == q.phone
    ensures g.(name := None, kanaName := None, phone := None) == NewGuest()
  {
    NewGuest().(name := q.name, kanaName := q.kanaName, phone := q.phone)
  }

  // ---------------------------------------------------------------------------
  // Sequences and subsequences

  /** `a` is `b` with some elements left out, the rest in order. */
  predicate IsSubsequence<T(==)>(a: seq<T>, b: seq<T>)
    decreases |b|
  {
    a == [] || (b != [] && ((a[0] == b[0] && IsSubsequence(a[1..], b[1..])) || IsSubsequence(a, b[1..])))
  }

  lemma {:induction false} ReservationsOfSubsequence(g: Guest, rs: seq<Reservation>)
    requires GuestIdsNonNull(rs)
    ensures IsSubsequence(ReservationsOf(g, rs), rs)
    decreases |rs|
  {
    if rs != [] {
      ReservationsOfSubsequence(g, rs[1..]);
      var out := ReservationsOf(g, rs);
      if BelongsTo(rs[0], g) {
        assert out[0] == rs[0] && out[1..] == ReservationsOf(g, rs[1..]);
      }
    }
  }

  lemma {:induction false} ReservationsOfCount(g: Guest, rs: seq<Reservation>, r: Reservation)
    requires GuestIdsNonNull(rs)
    ensures multiset(ReservationsOf(g, rs))[r] == if BelongsTo(r, g) then multiset(rs)[r] else 0
    decreases |rs|
  {
    if rs != [] {
      ReservationsOfCount(g, rs[1..], r);
      assert rs == [rs[0]] + rs[1..];
    }
  }

  lemma {:induction false} BookingsReferencedSubsequence(ids: seq<Option<string>>, bs: seq<Booking>)
    ensures IsSubsequence(BookingsReferenced(ids, bs), bs)
    decreases |bs|
  {
    if bs != [] {
      BookingsReferencedSubsequence(ids, bs[1..]);
      var out := BookingsReferenced(ids, bs);
      if bs[0].id in ids {
        assert out[0] == bs[0] && out[1..] == BookingsReferenced(ids, bs[1..]);
      }
    }
  }

  lemma {:induction false} BookingsReferencedCount(ids: seq<Option<string>>, bs: seq<Booking>, b: Booking)
    ensures multiset(BookingsReferenced(ids, bs))[b] == if b.id in ids then multiset(bs)[b] else 0
    decreases |bs|
  {
    if bs != [] {
      BookingsReferencedCount(ids, bs[1..], b);
      assert bs == [bs[0]] + bs[1..];
    }
  }

  lemma {:induction false} DistinctMembers<T>(s: seq<T>)
    ensures forall x :: x in Distinct(s) <==> x in s
    decreases |s|
  {
    if s != [] {
      DistinctMembers(s[..|s| - 1]);
      assert s == s[..|s| - 1] + [s[|s| - 1]];
    }
  }

  lemma {:induction false} DistinctNoDuplicates<T>(s: seq<T>)
    ensures forall i, j | 0 <= i < j < |Distinct(s)| :: Distinct(s)[i] != Distinct(s)[j]
    decreases |s|
  {
    if s != [] {
      DistinctNoDuplicates(s[..|s| - 1]);
    }
  }

  lemma {:induction false} BookingIdsMembers(rs: seq<Reservation>, id: Option<string>)
    ensures id in BookingIds(rs) <==> exists r | r in rs :: r.bookingId == id
    decreases |rs|
  {
    if rs != [] {
      BookingIdsMembers(rs[1..], id);
      assert forall r | r in rs :: r == rs[0] || r in rs[1..];
    }
  }

  // ---------------------------------------------------------------------------
  // What a guest detail holds

  /**
   * A detail's reservations are the input reservations whose guest id is the guest's,
   * in input order, each as often as in the input, and no other.
   */
  lemma DetailReservations(g: Guest, bookings: seq<Booking>, reservations: seq<Reservation>, r: Reservation)
    requires GuestIdsNonNull(reservations)
    ensures IsSubsequence(DetailOf(g, bookings, reservations).reservations, reservations)
    ensures multiset(DetailOf(g, bookings, reservations).reservations)[r] ==
      if BelongsTo(r, g) then multiset(reservations)[r] else 0
    ensures r in DetailOf(g, bookings, reservations).reservations <==> r in reservations && BelongsTo(r, g)
  {
    ReservationsOfSubsequence(g, reservations);
    ReservationsOfCount(g, reservations, r);
  }

  /**
   * A detail's plans are the input plans, in input order and as often as in the input,
   * whose id some reservation of the guest references, and no other.
   */
  lemma DetailBookings(g: Guest, bookings: seq<Booking>, reservations: seq<Reservation>, b: Booking)
    requires GuestIdsNonNull(reservations)
    ensures IsSubsequence(DetailOf(g, bookings, reservations).bookings, bookings)
    ensures b in DetailOf(g, bookings, reservations).bookings <==>
      b in bookings && exists r | r in DetailOf(g, bookings, reservations).reservations :: r.bookingId == b.id
    ensures multiset(DetailOf(g, bookings, reservations).bookings)[b] ==
      if exists r | r in DetailOf(g, bookings, reservations).reservations :: r.bookingId == b.id
      then multiset(bookings)[b] else 0
  {
    var matched := ReservationsOf(g, reservations);
    var ids := Distinct(BookingIds(matched));
    BookingsReferencedSubsequence(ids, bookings);
    BookingsReferencedCount(ids, bookings, b);
    DistinctMembers(BookingIds(matched));
    BookingIdsMembers(matched, b.id);
  }

  /** A guest whose id is null gets an empty detail. */
  lemma {:induction false} NullIdGuestDetailEmpty(g: Guest, bookings: seq<Booking>, reservations: seq<Reservation>)
    requires GuestIdsNonNull(reservations)
    requires g.id.None?
    ensures DetailOf(g, bookings, reservations) == GuestDetail(g, [], [])
  {
    NullIdGuestNoReservations(g, reservations);
    NoIdsNoBookings(bookings);
  }

  lemma {:induction false} NullIdGuestNoReservations(g: Guest, rs: seq<Reservation>)
    requires GuestIdsNonNull(rs)
    requires g.id.None?
    ensures ReservationsOf(g, rs) == []
    decreases |rs|
  {
    if rs != [] {
      NullIdGuestNoReservations(g, rs[1..]);
    }
  }

  lemma {:induction false} NoIdsNoBookings(bs: seq<Booking>)
    ensures BookingsReferenced([], bs) == []
    decreases |bs|
  {
    if bs != [] {
      NoIdsNoBookings(bs[1..]);
    }
  }

  /** The plan ids a detail is built from are referenced by the guest's reservations, each once. */
  lemma DetailBookingIds(g: Guest, reservations: seq<Reservation>)
    requires GuestIdsNonNull(reservations)
    ensures forall id :: id in Distinct(BookingIds(ReservationsOf(g, reservations))) <==>
      exists r | r in reservations :: BelongsTo(r, g) && r.bookingId == id
    ensures var ids := Distinct(BookingIds(ReservationsOf(g, reservations)));
      forall i, j | 0 <= i < j < |ids| :: ids[i] != ids[j]
  {
    var matched := ReservationsOf(g, reservations);
    DistinctMembers(BookingIds(matched));
    DistinctNoDuplicates(BookingIds(matched));
    forall id ensures id in BookingIds(matched) <==> exists r | r in reservations :: BelongsTo(r, g) && r.bookingId == id {
      MatchedBookingId(g, reservations, id);
    }
  }

  lemma MatchedBookingId(g: Guest, reservations: seq<Reservation>, id: Option<string>)
    requires GuestIdsNonNull(reservations)
    ensures id in BookingIds(ReservationsOf(g, reservations)) <==>
      exists r | r in reservations :: BelongsTo(r, g) && r.bookingId == id
  {
    var matched := ReservationsOf(g, reservations);
    BookingIdsMembers(matched, id);
    forall r ensures r in matched <==> r in reservations && BelongsTo(r, g) {
      ReservationsOfCount(g, reservations, r);
    }
  }
}
