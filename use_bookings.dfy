/** The bookings list hook: the current page of bookings, kept in step with create, update and
    delete calls, and offset pagination. */
module UseBookings {
  import opened Wrappers
  import opened Seqs
  import opened Records
  import opened Paging

  /** `(b) => b.id !== id`: a booking without an id never matches. */
  function LacksId(id: string): Booking -> bool {
    (b: Booking) => b.id != Some(id)
  }

  /** `prev.map(b => b.id === id ? updated : b)`. */
  function ReplaceById(bookings: seq<Booking>, id: string, updated: Booking): (r: seq<Booking>)
    ensures |r| == |bookings|
    ensures forall k :: 0 <= k < |bookings| && bookings[k].id == Some(id) ==> r[k] == updated
    ensures forall k :: 0 <= k < |bookings| && bookings[k].id != Some(id) ==> r[k] == bookings[k]
  {
    seq(|bookings|, k requires 0 <= k < |bookings| => if bookings[k].id == Some(id) then updated else bookings[k])
  }

  /** `prev.filter(b => b.id !== id)`: exactly the bookings with another id or none, each as
      often as in the list (`RemoveByIdInOrder` states the order). */
  function RemoveById(bookings: seq<Booking>, id: string): (r: seq<Booking>)
    ensures forall k :: 0 <= k < |r| ==> r[k].id != Some(id) && r[k] in bookings
    ensures forall k :: 0 <= k < |bookings| && bookings[k].id != Some(id) ==> bookings[k] in r
    ensures forall b :: multiset(r)[b] == if b.id != Some(id) then multiset(bookings)[b] else 0
  {
    var r := Filter(bookings, LacksId(id));
    assert forall b :: multiset(r)[b] == if b.id != Some(id) then multiset(bookings)[b] else 0 by {
      forall b ensures multiset(r)[b] == if b.id != Some(id) then multiset(bookings)[b] else 0 {
        FilterMultiplicity(bookings, LacksId(id), b);
      }
    }
    r
  }

  /** Deleting keeps the other bookings in their order. */
  lemma RemoveByIdInOrder(bookings: seq<Booking>, id: string)
    ensures Subsequence(RemoveById(bookings, id), bookings)
  {
    FilterIsSubsequence(bookings, LacksId(id));
  }

  /** Deleting a booking that was just created with the same id leaves the list as deleting
      from the list before the creation. */
  lemma RemoveCreated(bookings: seq<Booking>, created: Booking, id: string)
    requires created.id == Some(id)
    ensures RemoveById(bookings + [created], id) == RemoveById(bookings, id)
  {
    FilterSnoc(bookings, created, LacksId(id));
  }

  /** An update keeps the id of the booking it returns: deleting by that id afterwards removes
      the same bookings as deleting before the update. */
  lemma RemoveUpdated(bookings: seq<Booking>, id: string, updated: Booking)
    requires updated.id == Some(id)
    ensures RemoveById(ReplaceById(bookings, id, updated), id) == RemoveById(bookings, id)
  {
    FilterReplaced(bookings, id, updated);
  }

  lemma {:induction false} FilterReplaced(bookings: seq<Booking>, id: string, updated: Booking)
    requires updated.id == Some(id)
    ensures Filter(ReplaceById(bookings, id, updated), LacksId(id)) == Filter(bookings, LacksId(id))
    decreases |bookings|
  {
    if bookings != [] {
      var r := ReplaceById(bookings, id, updated);
      assert r[1..] == ReplaceById(bookings[1..], id, updated);
      FilterReplaced(bookings[1..], id, updated);
    }
  }

  const FetchFallback: string := "Failed to fetch bookings"
  const CreateFallback: string := "Failed to create booking"
  const UpdateFallback: string := "Failed to update booking"
  const DeleteFallback: string := "Failed to delete booking"

  /** The state `useBookings` keeps. `limit` is fixed for the hook's lifetime. */
  class BookingsHook {
    const limit: int
    var bookings: seq<Booking>
    var loading: bool
    var error: Option<string>
    var response: Option<PagedResponse<Booking>>
    var offset: int

    constructor(limit: int, initialOffset: int)
      ensures this.limit == limit && offset == initialOffset
      ensures bookings == [] && loading && error == None && response == None
    {
      this.limit := limit;
      offset := initialOffset;
      bookings := [];
      loading := true;
      error := None;
      response := None;
    }

    /** The fetch effect for the current `limit` and `offset`: a page replaces the bookings and
        the response and clears the error; a failure keeps them and records the error. */
    method Fetch(reply: Reply<PagedResponse<Booking>>)
      modifies this
      ensures reply.Done? ==> bookings == reply.value.data && response == Some(reply.value) && error == None
      ensures reply.Thrown? ==>
        bookings == old(bookings) && response == old(response) && error == Some(ErrorMessage(reply.failure, FetchFallback))
      ensures offset == old(offset) && !loading
    {
      loading := true;
      if reply.Done? {
        bookings := reply.value.data;
        response := Some(reply.value);
        error := None;
      } else {
        error := Some(ErrorMessage(reply.failure, FetchFallback));
      }
      loading := false;
    }

    /** `createBooking`: the created booking is appended and returned; on failure the list is
        kept, the error recorded and the failure rethrown (`None`). */
    method CreateBooking(reply: Reply<Booking>) returns (created: Option<Booking>)
      modifies this
      ensures reply.Done? ==> created == Some(reply.value) && bookings == old(bookings) + [reply.value] && error == old(error)
      ensures reply.Thrown? ==>
        created == None && bookings == old(bookings) && error == Some(ErrorMessage(reply.failure, CreateFallback))
      ensures response == old(response) && offset == old(offset) && !loading
    {
      loading := true;
      if reply.Done? {
        bookings := bookings + [reply.value];
        created := Some(reply.value);
      } else {
        error := Some(ErrorMessage(reply.failure, CreateFallback));
        created := None;
      }
      loading := false;
    }

    /** `updateBooking`: every booking with the id is replaced by the returned one; on failure
        the list is kept, the error recorded and the failure rethrown. */
    method UpdateBooking(id: string, reply: Reply<Booking>) returns (updated: Option<Booking>)
      modifies this
      ensures reply.Done? ==> updated == Some(reply.value) && bookings == ReplaceById(old(bookings), id, reply.value) && error == old(error)
      ensures reply.Thrown? ==>
        updated == None && bookings == old(bookings) && error == Some(ErrorMessage(reply.failure, UpdateFallback))
      ensures response == old(response) && offset == old(offset) && !loading
    {
      loading := true;
      if reply.Done? {
        bookings := ReplaceById(bookings, id, reply.value);
        updated := Some(reply.value);
      } else {
        error := Some(ErrorMessage(reply.failure, UpdateFallback));
        updated := None;
      }
      loading := false;
    }

    /** `deleteBooking`: the bookings with the id are removed only once the backend has
        confirmed; on failure the list is kept, the error recorded and the failure rethrown
        (`false`). */
    method DeleteBooking(id: string, failure: Option<Failure>) returns (ok: bool)
      modifies this
      ensures failure.None? ==> ok && bookings == RemoveById(old(bookings), id) && error == old(error)
      ensures failure.Some? ==>
        !ok && bookings == old(bookings) && error == Some(ErrorMessage(failure.value, DeleteFallback))
      ensures response == old(response) && offset == old(offset) && !loading
    {
      loading := true;
      if failure.None? {
        bookings := RemoveById(bookings, id);
        ok := true;
      } else {
        error := Some(ErrorMessage(failure.value, DeleteFallback));
        ok := false;
      }
      loading := false;
    }

    /** `nextPage`: one page further, only after a full page. */
    method NextPage()
      modifies this
      ensures offset == NextOffset(response, limit, old(offset))
      ensures bookings == old(bookings) && response == old(response) && error == old(error) && loading == old(loading)
    {
      if response.Some? && |response.value.data| == limit {
        offset := offset + limit;
      }
    }

    /** `prevPage`: one page back, clamped at the start. */
    method PrevPage()
      modifies this
      ensures offset == PrevOffset(old(offset), limit)
      ensures bookings == old(bookings) && response == old(response) && error == old(error) && loading == old(loading)
    {
      offset := if offset - limit > 0 then offset - limit else 0;
    }
  }
}
