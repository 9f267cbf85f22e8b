/** The machines list hook: the current page of machines, single-machine lookups and offset
    pagination. */
module UseMachines {
  import opened Wrappers
  import opened Records
  import opened Paging

  const FetchFallback: string := "Failed to fetch machines"
  const GetFallback: string := "Failed to get machine"

  /** The state `useMachines` keeps. `limit` is fixed for the hook's lifetime. */
  class MachinesHook {
    const limit: int
    var machines: seq<Machine>
    var loading: bool
    var error: Option<string>
    var response: Option<PagedResponse<Machine>>
    var offset: int

    constructor(limit: int, initialOffset: int)
      ensures this.limit == limit && offset == initialOffset
      ensures machines == [] && loading && error == None && response == None
    {
      this.limit := limit;
      offset := initialOffset;
      machines := [];
      loading := true;
      error := None;
      response := None;
    }

    /** The fetch effect: a page replaces the machines and the response and clears the error;
        a failure keeps them and records the error. */
    method Fetch(reply: Reply<PagedResponse<Machine>>)
      modifies this
      ensures reply.Done? ==> machines == reply.value.data && response == Some(reply.value) && error == None
      ensures reply.Thrown? ==>
        machines == old(machines) && response == old(response) && error == Some(ErrorMessage(reply.failure, FetchFallback))
      ensures offset == old(offset) && !loading
    {
      loading := true;
      if reply.Done? {
        machines := reply.value.data;
        response := Some(reply.value);
        error := None;
      } else {
        error := Some(ErrorMessage(reply.failure, FetchFallback));
      }
      loading := false;
    }

    /** `getMachine`: returns the machine and leaves the list alone; a failure records the
        error and is rethrown (`None`). */
    method GetMachine(id: string, reply: Reply<Machine>) returns (machine: Option<Machine>)
      modifies this
      ensures reply.Done? ==> machine == Some(reply.value) && error == old(error)
      ensures reply.Thrown? ==> machine == None && error == Some(ErrorMessage(reply.failure, GetFallback))
      ensures machines == old(machines) && response == old(response) && offset == old(offset) && !loading
    {
      loading := true;
      if reply.Done? {
        machine := Some(reply.value);
      } else {
        error := Some(ErrorMessage(reply.failure, GetFallback));
        machine := None;
      }
      loading := false;
    }

    /** `nextPage`: one page further, only after a full page. */
    method NextPage()
      modifies this
      ensures offset == NextOffset(response, limit, old(offset))
      ensures machines == old(machines) && response == old(response) && error == old(error) && loading == old(loading)
    {
      if response.Some? && |response.value.data| == limit {
        offset := offset + limit;
      }
    }

    /** `prevPage`: one page back, clamped at the start. */
    method PrevPage()
      modifies this
      ensures offset == PrevOffset(old(offset), limit)
      ensures machines == old(machines) && response == old(response) && error == old(error) && loading == old(loading)
    {
      offset := if offset - limit > 0 then offset - limit else 0;
    }
  }
}
