/** The records the booking screens exchange with the backend, and the shape of a backend
    call's outcome. */
module Records {
  import opened Wrappers

  /** A machine booking. The backend assigns `id` and `user_id`; `end_time` is set when the
      session ends. Times are ISO date strings. */
  datatype Booking = Booking(
    id: Option<string>,
    user_id: Option<string>,
    machine_id: string,
    start_time: string,
    end_time: Option<string>,
    status: string)

  datatype Machine = Machine(id: Option<string>, name: string, location: string, status: string)

  /** One page of a list endpoint. */
  datatype PagedResponse<T> = PagedResponse(data: seq<T>, total: int, limit: int, offset: int)

  /** What a rejected call rejects with: an `Error` object with its message, or any other
      value. */
  datatype Failure = ErrorObject(message: string) | OtherValue

  /** The outcome of one awaited backend call. */
  datatype Reply<T> = Done(value: T) | Thrown(failure: Failure)

  /** `err instanceof Error ? err : new Error(fallback)`, seen through its message. */
  function ErrorMessage(failure: Failure, fallback: string): (message: string)
    ensures failure.ErrorObject? ==> message == failure.message
    ensures failure.OtherValue? ==> message == fallback
  {
    match failure
    case ErrorObject(m) => m
    case OtherValue => fallback
  }

  const UnknownMachine: string := "Unknown Machine"

  /** `getMachineName`: the name of the first machine whose id is `machineId`, or the
      placeholder when none has it. */
  function MachineName(machines: seq<Machine>, machineId: string): (name: string)
    ensures (forall k :: 0 <= k < |machines| ==> machines[k].id != Some(machineId)) ==> name == UnknownMachine
    ensures forall k :: (0 <= k < |machines| && machines[k].id == Some(machineId) &&
      forall j :: 0 <= j < k ==> machines[j].id != Some(machineId)) ==> name == machines[k].name
    decreases |machines|
  {
    if machines == [] then UnknownMachine
    else if machines[0].id == Some(machineId) then machines[0].name
    else
      assert forall k :: 1 <= k < |machines| ==> machines[k] == machines[1..][k - 1];
      MachineName(machines[1..], machineId)
  }
}
