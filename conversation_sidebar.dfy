/** The conversation list: the two-click delete confirmation, the relative date of each entry
    and its title. */
module ConversationSidebar {
  import opened Wrappers
  import opened Strings

  /** The armed delete button. A first click on a conversation's delete button arms it; a second
      click on the same button deletes; a click on another conversation's button re-arms to
      that one. */
  class DeleteConfirmation {
    var deletingId: Option<string>

    constructor()
      ensures deletingId == None
    {
      deletingId := None;
    }

    /** Whether the button of `id` shows the confirmation colour. */
    predicate Armed(id: string)
      reads this
    {
      deletingId == Some(id)
    }

    /** `handleDelete`: returns the id passed to `onDeleteConversation`, if any. */
    method HandleDelete(id: string) returns (deleted: Option<string>)
      modifies this
      ensures old(deletingId) == Some(id) ==> deleted == Some(id) && deletingId == None
      ensures old(deletingId) != Some(id) ==> deleted == None && deletingId == Some(id)
    {
      if deletingId == Some(id) {
        deleted := Some(id);
        deletingId := None;
      } else {
        deleted := None;
        deletingId := Some(id);
      }
    }

    /** The reset timer firing: whatever is armed is disarmed. */
    method ConfirmTimeout()
      modifies this
      ensures deletingId == None
    {
      deletingId := None;
    }
  }

  /** From a fresh list, two clicks on the same button delete that conversation exactly once,
      on the second click, and leave nothing armed. */
  method DeleteNeedsTwoClicks(id: string) returns (first: Option<string>, second: Option<string>, armedAfter: bool)
    ensures first == None && second == Some(id) && !armedAfter
  {
    var list := new DeleteConfirmation();
    first := list.HandleDelete(id);
    second := list.HandleDelete(id);
    armedAfter := list.deletingId.Some?;
  }

  /** Clicking another conversation between the two clicks deletes nothing: the second
      click on the first conversation only arms it again. */
  method SwitchingDisarms(a: string, b: string) returns (deleted: seq<Option<string>>, armed: Option<string>)
    requires a != b
    ensures deleted == [None, None, None] && armed == Some(a)
  {
    var list := new DeleteConfirmation();
    var d1 := list.HandleDelete(a);
    var d2 := list.HandleDelete(b);
    var d3 := list.HandleDelete(a);
    deleted := [d1, d2, d3];
    armed := list.deletingId;
  }

  /** Milliseconds in a day. */
  const DayMs: int := 1000 * 60 * 60 * 24

  /** `formatDate`, given the difference between now and the date in milliseconds and the
      date's locale text: whole days are counted by rounding down, so a date in the future
      shows a negative count. */
  function FormatDate(diffMs: int, localeDate: string): (r: string)
    ensures 0 <= diffMs < DayMs ==> r == "Today"
    ensures DayMs <= diffMs < 2 * DayMs ==> r == "Yesterday"
    ensures (diffMs < 0 || 2 * DayMs <= diffMs < 7 * DayMs) ==>
      exists n: int :: n * DayMs <= diffMs < (n + 1) * DayMs && r == IntToString(n) + "d ago"
    ensures diffMs < 0 ==> r[0] == '-'
    ensures diffMs >= 7 * DayMs ==> r == localeDate
  {
    var diffDays := diffMs / DayMs;
    if diffDays == 0 then "Today"
    else if diffDays == 1 then "Yesterday"
    else if diffDays < 7 then IntToString(diffDays) + "d ago"
    else localeDate
  }

  /** `conv.title || 'New conversation'`: a missing or empty title is shown as the default,
      any other title as it is. */
  function DisplayTitle(title: Option<string>): (r: string)
    ensures r != []
    ensures title.Some? && title.value != [] ==> r == title.value
    ensures title.None? || title.value == [] ==> r == "New conversation"
  {
    if title.Some? && title.value != [] then title.value else "New conversation"
  }
}
