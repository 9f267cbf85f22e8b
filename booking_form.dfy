/** The new-booking form: two required fields checked in order, the submitted booking, and
    the reset or error afterwards. */
module BookingForm {
  import opened Wrappers
  import opened Records

  const DefaultUserId: string := "user-1"
  const NoMachineError: string := "Please select a machine"
  const NoStartTimeError: string := "Please select a start time"
  const SubmitError: string := "Failed to create booking. Please try again."

  /** The booking a valid submit hands to `onSubmit`. */
  function Draft(machineId: string, isoStart: string): (b: Booking)
    ensures b.user_id == Some(DefaultUserId) && b.machine_id == machineId
    ensures b.start_time == isoStart && b.status == "active"
    ensures b.id.None? && b.end_time.None?
  {
    Booking(None, Some(DefaultUserId), machineId, isoStart, None, "active")
  }

  class BookingForm {
    var machineId: string
    var startTime: string
    var formError: Option<string>

    constructor()
      ensures machineId == "" && startTime == "" && formError == None
    {
      machineId := "";
      startTime := "";
      formError := None;
    }

    method SelectMachine(id: string)
      modifies this
      ensures machineId == id && startTime == old(startTime) && formError == old(formError)
    {
      machineId := id;
    }

    method SelectStartTime(time: string)
      modifies this
      ensures startTime == time && machineId == old(machineId) && formError == old(formError)
    {
      startTime := time;
    }

    /** `handleSubmit`. `isoStart` is `new Date(startTime).toISOString()`, `None` when that
        throws for a time that is not a date; `accepted` says whether `onSubmit` resolves.
        Returns the booking handed to `onSubmit`, if it was called. */
    method HandleSubmit(isoStart: Option<string>, accepted: bool) returns (submitted: Option<Booking>)
      modifies this
      ensures old(machineId) == "" ==>
        submitted == None && formError == Some(NoMachineError) && machineId == old(machineId) && startTime == old(startTime)
      ensures old(machineId) != "" && old(startTime) == "" ==>
        submitted == None && formError == Some(NoStartTimeError) && machineId == old(machineId) && startTime == old(startTime)
      ensures old(machineId) != "" && old(startTime) != "" && isoStart.None? ==>
        submitted == None && formError == Some(SubmitError) && machineId == old(machineId) && startTime == old(startTime)
      ensures old(machineId) != "" && old(startTime) != "" && isoStart.Some? ==>
        submitted == Some(Draft(old(machineId), isoStart.value))
      ensures submitted.Some? && accepted ==> formError == None && machineId == "" && startTime == ""
      ensures submitted.Some? && !accepted ==>
        formError == Some(SubmitError) && machineId == old(machineId) && startTime == old(startTime)
    {
      formError := None;
      if machineId == "" {
        formError := Some(NoMachineError);
        return None;
      }
      if startTime == "" {
        formError := Some(NoStartTimeError);
        return None;
      }
      if isoStart.None? {
        formError := Some(SubmitError);
        return None;
      }
      submitted := Some(Draft(machineId, isoStart.value));
      if accepted {
        machineId := "";
        startTime := "";
      } else {
        formError := Some(SubmitError);
      }
    }
  }
}
