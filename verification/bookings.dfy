/** The Bookings page: a filterable list of rides with a cancel action and a refresh button. */
module Bookings {
  import opened Optional
  import opened Text
  import opened Ids
  import opened Collection

  datatype Booking = Booking(
    id: string,
    user: string,
    driver: string,
    pickup: string,
    destination: string,
    status: string,
    fare: string,
    distance: string,
    duration: string,
    bookingTime: string,
    completedTime: Option<string>)

  function BookingId(b: Booking): string { b.id }

  /** The seed data the page starts from and the refresh button restores. */
  const InitialBookings: seq<Booking> := [
    Booking("BK001", "John Doe", "Mike Johnson", "123 Main St", "456 Oak Ave", "completed", "$25.50",
            "5.2 km", "18 min", "2024-04-15 10:30", Some("2024-04-15 10:48")),
    Booking("BK002", "Jane Smith", "Sarah Wilson", "789 Pine St", "321 Elm St", "in-progress", "$18.75",
            "3.8 km", "12 min", "2024-04-15 11:15", None),
    Booking("BK003", "Bob Brown", "David Lee", "555 Cedar Ave", "777 Maple Dr", "pending", "$32.00",
            "8.1 km", "25 min", "2024-04-15 11:45", None),
    Booking("BK004", "Alice Johnson", "Emma Davis", "999 Birch Ln", "111 Willow St", "cancelled", "$0.00",
            "6.5 km", "20 min", "2024-04-15 09:20", None),
    Booking("BK005", "Charlie Wilson", "James Brown", "222 Spruce St", "888 Poplar Ave", "completed", "$41.25",
            "9.8 km", "28 min", "2024-04-15 08:30", Some("2024-04-15 08:58"))
  ]

  /** The fare a cancelled ride is charged. */
  const CancelledFare: string := "$0.00"

  // ---------------------------------------------------------------------------
  // Filter
  // ---------------------------------------------------------------------------

  /** A booking is listed when user, driver or id contains the term and the status is selected. */
  function Shown(b: Booking, term: string, selected: string): (r: bool)
    ensures r ==> StatusMatches(b.status, selected)
    ensures |term| == 0 ==> (r <==> StatusMatches(b.status, selected))
    ensures r ==> |term| <= |b.user| || |term| <= |b.driver| || |term| <= |b.id|
  {
    && (IncludesIgnoringCase(b.user, term)
        || IncludesIgnoringCase(b.driver, term)
        || IncludesIgnoringCase(b.id, term))
    && StatusMatches(b.status, selected)
  }

  /** `filteredBookings`. */
  function FilterBookings(s: seq<Booking>, term: string, selected: string): (r: seq<Booking>)
    ensures SubsequenceOf(r, s)
    ensures forall b :: b in r <==> b in s && Shown(b, term, selected)
    ensures forall b :: multiset(r)[b] == if Shown(b, term, selected) then multiset(s)[b] else 0
    ensures selected != AllStatuses ==> forall i :: 0 <= i < |r| ==> r[i].status == selected
  {
    var keep := b => Shown(b, term, selected);
    FilterIsSubsequence(s, keep);
    FilterMembers(s, keep);
    FilterMultiplicity(s, keep);
    Filter(s, keep)
  }

  /** With an empty search box and the `"all"` selector the whole store is listed. */
  lemma EmptyQueryShowsAll(s: seq<Booking>)
    ensures FilterBookings(s, "", AllStatuses) == s
  {
    FilterKeepsAll(s, b => Shown(b, "", AllStatuses));
  }

  // ---------------------------------------------------------------------------
  // Cancel and refresh
  // ---------------------------------------------------------------------------

  /** `{ ...b, status: 'cancelled', fare: '$0.00' }`: a cancelled booking costs nothing. */
  function Cancelled(b: Booking): (c: Booking)
    ensures c.status == "cancelled" && c.fare == CancelledFare
    ensures c.(status := b.status, fare := b.fare) == b
    ensures c.id == b.id
  {
    b.(status := "cancelled", fare := CancelledFare)
  }

  /**
   `handleCancelBooking(id)`: every booking with that id becomes cancelled and
   free, whatever its fare was; nothing else about it or the store changes.
   */
  function CancelBooking(s: seq<Booking>, id: string): (r: seq<Booking>)
    ensures |r| == |s|
    ensures forall i :: 0 <= i < |s| ==> r[i].id == s[i].id
    ensures forall i :: 0 <= i < |s| && s[i].id == id ==>
              && r[i].status == "cancelled"
              && r[i].fare == CancelledFare
              && r[i].(status := s[i].status, fare := s[i].fare) == s[i]
    ensures forall i :: 0 <= i < |s| && s[i].id != id ==> r[i] == s[i]
    ensures (forall i :: 0 <= i < |s| ==> s[i].id != id) ==> r == s
  {
    UpdateWhere(s, BookingId, id, Cancelled)
  }

  /** Cancelling a booking twice is cancelling it once. */
  lemma CancelIdempotent(s: seq<Booking>, id: string)
    ensures CancelBooking(CancelBooking(s, id), id) == CancelBooking(s, id)
  {
    UpdateIdempotent(s, BookingId, id, Cancelled);
  }

  /** Cancellations of different bookings can be applied in either order. */
  lemma CancelCommutes(s: seq<Booking>, a: string, b: string)
    ensures CancelBooking(CancelBooking(s, a), b) == CancelBooking(CancelBooking(s, b), a)
  {
  }

  /** A cancelled booking is listed under the `"cancelled"` selector by any search that found it before. */
  lemma CancelledShowsUnderCancelled(s: seq<Booking>, id: string, term: string, i: nat)
    requires i < |s| && s[i].id == id
    requires Shown(s[i], term, AllStatuses)
    ensures CancelBooking(s, id)[i] in FilterBookings(CancelBooking(s, id), term, "cancelled")
  {
    var r := CancelBooking(s, id);
    assert r[i] in r;
  }

  /** The seed bookings are numbered BK001..BK005, as the create policy would number them. */
  lemma InitialBookingsSequential()
    ensures IdsAreSequential(InitialBookings, BookingId, "BK")
  {
    var ids := ["BK001", "BK002", "BK003", "BK004", "BK005"];
    assert forall i :: 0 <= i < 5 ==> InitialBookings[i].id == ids[i];
    forall i | 0 <= i < 5
      ensures ids[i] == SequentialId("BK", i)
    {
      SingleDigitId("BK", i);
      assert DigitChar(i + 1) == ids[i][4];
    }
  }

  /** The refresh button: the store goes back to the five seed bookings, whatever it held. */
  function Refresh(s: seq<Booking>): (r: seq<Booking>)
    ensures |r| == 5
    ensures IdsAreSequential(r, BookingId, "BK")
    ensures forall i :: 0 <= i < |r| ==> (r[i].completedTime.Some? <==> r[i].status == "completed")
  {
    InitialBookingsSequential();
    InitialBookings
  }

  /** Refresh undoes any cancellations. */
  lemma RefreshUndoesCancel(s: seq<Booking>, id: string)
    ensures Refresh(CancelBooking(s, id)) == Refresh(s) == InitialBookings
  {
  }
}
