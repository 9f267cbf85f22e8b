/** The active bookings list and its end-session button. */
module BookingList {
  import opened Wrappers
  import opened Seqs
  import opened Records

  const Active: string := "active"

  predicate IsActive(b: Booking) {
    b.status == Active
  }

  /** `activeBookings`: exactly the bookings whose status is `active`, in list order. */
  function ActiveBookings(bookings: seq<Booking>): (r: seq<Booking>)
    ensures forall b :: b in r <==> b in bookings && IsActive(b)
    ensures multiset(r) <= multiset(bookings)
    ensures forall b :: multiset(r)[b] == if IsActive(b) then multiset(bookings)[b] else 0
  {
    var r := Filter(bookings, IsActive);
    assert forall b :: multiset(r)[b] == if IsActive(b) then multiset(bookings)[b] else 0 by {
      forall b ensures multiset(r)[b] == if IsActive(b) then multiset(bookings)[b] else 0 {
        FilterMultiplicity(bookings, IsActive, b);
      }
    }
    r
  }

  /** The active list keeps the input order. */
  lemma ActiveBookingsInOrder(bookings: seq<Booking>)
    ensures Subsequence(ActiveBookings(bookings), bookings)
  {
    FilterIsSubsequence(bookings, IsActive);
  }

  /** What the list shows: the empty state, or one row per active booking. */
  datatype ListView = NoActiveBookings | ActiveRows(rows: seq<Booking>)

  function ListViewOf(bookings: seq<Booking>): (v: ListView)
    ensures v.NoActiveBookings? <==> forall k :: 0 <= k < |bookings| ==> !IsActive(bookings[k])
    ensures v.ActiveRows? ==> v.rows == ActiveBookings(bookings) && v.rows != []
  {
    var rows := ActiveBookings(bookings);
    if rows == [] then NoActiveBookings
    else
      assert rows[0] in rows;
      ActiveRows(rows)
  }

  /** `booking.id && onEndBooking(booking.id)`: the id passed to `onEndBooking`, if any. A
      missing or empty id calls nothing. */
  function EndSessionTarget(b: Booking): (target: Option<string>)
    ensures target.Some? <==> b.id.Some? && b.id.value != []
    ensures target.Some? ==> b.id == Some(target.value)
  {
    if b.id.Some? && b.id.value != [] then b.id else None
  }
}
