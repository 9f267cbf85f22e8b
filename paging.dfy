/** Offset pagination shared by the booking and machine lists. */
module Paging {
  import opened Wrappers
  import opened Records

  /** `hasNext`: the last response filled a whole page. */
  predicate HasNext<T>(response: Option<PagedResponse<T>>, limit: int) {
    response.Some? && |response.value.data| == limit
  }

  /** `hasPrev`: the list is not at its start. */
  predicate HasPrev(offset: int) {
    offset > 0
  }

  /** `total`: the total the last response reported, 0 without a response. */
  function Total<T>(response: Option<PagedResponse<T>>): (t: int)
    ensures response.None? ==> t == 0
    ensures response.Some? ==> t == response.value.total
  {
    if response.Some? then response.value.total else 0
  }

  /** The offset after `nextPage`: one page further after a full page, unchanged otherwise. */
  function NextOffset<T>(response: Option<PagedResponse<T>>, limit: int, offset: int): (r: int)
    ensures r != offset <==> HasNext(response, limit) && limit != 0
    ensures r == offset || r == offset + limit
  {
    if HasNext(response, limit) then offset + limit else offset
  }

  /** The offset after `prevPage`: one page back, never below the start. */
  function PrevOffset(offset: int, limit: int): (r: int)
    ensures r >= 0
    ensures r == 0 <==> offset <= limit
    ensures offset > limit ==> r == offset - limit
    ensures limit >= 0 && offset >= 0 ==> r <= offset
  {
    if offset - limit > 0 then offset - limit else 0
  }

  /** Going forward a page and back again returns to the same page. */
  lemma PrevAfterNext<T>(response: Option<PagedResponse<T>>, limit: int, offset: int)
    requires offset >= 0 && limit >= 0
    requires HasNext(response, limit)
    ensures PrevOffset(NextOffset(response, limit, offset), limit) == offset
  {
  }
}
