/** The booking history: the finished sessions, newest first, with their durations. */
module BookingHistory {
  import opened Wrappers
  import opened Seqs
  import opened Strings
  import opened Ordering
  import opened Records

  const Completed: string := "completed"

  /** `booking.status === 'completed' && booking.end_time`: an empty end time is falsy. */
  predicate IsFinished(b: Booking) {
    b.status == Completed && b.end_time.Some? && b.end_time.value != []
  }

  /** `new Date(b.start_time).getTime()`, given the date parser as `startMillis`. */
  function StartKey(startMillis: string -> int): Booking -> int {
    (b: Booking) => startMillis(b.start_time)
  }

  /** `completedBookings`: the finished bookings, stably sorted by start time, most recent
      first. */
  function CompletedBookings(bookings: seq<Booking>, startMillis: string -> int): (r: seq<Booking>)
    ensures forall b :: b in r <==> b in bookings && IsFinished(b)
    ensures multiset(r) == multiset(Filter(bookings, IsFinished))
  {
    var sorted := SortDesc(Filter(bookings, IsFinished), StartKey(startMillis));
    assert forall b :: b in sorted <==> b in multiset(sorted);
    sorted
  }

  /** The history is ordered by start time, most recent first, and bookings that started at
      the same time keep their order in the list. */
  lemma CompletedBookingsOrder(bookings: seq<Booking>, startMillis: string -> int, t: int)
    ensures forall i, j :: 0 <= i < j < |CompletedBookings(bookings, startMillis)| ==>
      startMillis(CompletedBookings(bookings, startMillis)[i].start_time) >= startMillis(CompletedBookings(bookings, startMillis)[j].start_time)
    ensures FilterBy(CompletedBookings(bookings, startMillis), StartKey(startMillis), t) ==
      FilterBy(Filter(bookings, IsFinished), StartKey(startMillis), t)
  {
    SortDescSorted(Filter(bookings, IsFinished), StartKey(startMillis));
    SortDescStable(Filter(bookings, IsFinished), StartKey(startMillis), t);
  }

  /** `hour${hours > 1 ? 's' : ''}`. */
  function HourUnit(hours: int): (unit: string)
    ensures unit == "hours" <==> hours > 1
  {
    if hours > 1 then "hours" else "hour"
  }

  /** `calculateDuration`, given the whole minutes between start and end: under an hour the
      minutes; otherwise the hours, plural above one, and the leftover minutes when there are
      any. */
  function FormatDuration(minutes: int): (r: string)
    ensures minutes < 60 ==> r == IntToString(minutes) + " minutes"
    ensures minutes >= 60 ==> NatToString(minutes / 60) <= r
    ensures minutes >= 60 && minutes % 60 == 0 ==> r == NatToString(minutes / 60) + " " + HourUnit(minutes / 60)
  {
    if minutes < 60 then IntToString(minutes) + " minutes"
    else
      var hours, remaining := minutes / 60, minutes % 60;
      NatToString(hours) + " " + HourUnit(hours) +
        (if remaining > 0 then " " + NatToString(remaining) + " min" else "")
  }

  /** The words of a duration text. */
  function DurationWords(minutes: nat): (words: seq<string>)
    ensures |words| >= 2
    ensures forall i :: 0 <= i < |words| ==> ' ' !in words[i]
  {
    if minutes < 60 then [NatToString(minutes), "minutes"]
    else if minutes % 60 > 0 then [NatToString(minutes / 60), HourUnit(minutes / 60), NatToString(minutes % 60), "min"]
    else [NatToString(minutes / 60), HourUnit(minutes / 60)]
  }

  predicate AllDigits(s: string) {
    forall i :: 0 <= i < |s| ==> IsDigit(s[i])
  }

  /** Reads a duration text back: `<m> minutes`, `<h> hour[s]` or `<h> hour[s] <m> min`. */
  function ReadDuration(text: string): (minutes: Option<nat>)
  {
    ReadWords(Split(text, ' '))
  }

  function ReadWords(w: seq<string>): (minutes: Option<nat>)
  {
    if |w| == 2 && w[1] == "minutes" && AllDigits(w[0]) then Some(ParseNat(w[0]))
    else if |w| == 2 && (w[1] == "hour" || w[1] == "hours") && AllDigits(w[0]) then Some(60 * ParseNat(w[0]))
    else if |w| == 4 && (w[1] == "hour" || w[1] == "hours") && w[3] == "min" && AllDigits(w[0]) && AllDigits(w[2]) then
      Some(60 * ParseNat(w[0]) + ParseNat(w[2]))
    else None
  }

  lemma JoinTwo(a: string, b: string)
    ensures Join([a, b], " ") == a + " " + b
  {
    assert [a, b][1..] == [b];
  }

  lemma JoinFour(a: string, b: string, c: string, d: string)
    ensures Join([a, b, c, d], " ") == a + " " + b + (" " + c + " " + d)
  {
    assert [a, b, c, d][1..] == [b, c, d];
    assert [b, c, d][1..] == [c, d];
    JoinTwo(c, d);
  }

  /** The duration text is its words joined by single spaces. */
  lemma FormatIsWords(minutes: nat)
    ensures FormatDuration(minutes) == Join(DurationWords(minutes), " ")
  {
    if minutes < 60 {
      JoinTwo(NatToString(minutes), "minutes");
    } else if minutes % 60 > 0 {
      FormatHoursMinutesWords(minutes);
    } else {
      JoinTwo(NatToString(minutes / 60), HourUnit(minutes / 60));
    }
  }

  lemma FormatHoursMinutesWords(minutes: nat)
    requires minutes >= 60 && minutes % 60 > 0
    ensures FormatDuration(minutes) == Join(DurationWords(minutes), " ")
  {
    var h, u, m := NatToString(minutes / 60), HourUnit(minutes / 60), NatToString(minutes % 60);
    JoinFour(h, u, m, "min");
    assert FormatDuration(minutes) == h + " " + u + (" " + m + " min");
    assert " " + m + " min" == " " + m + " " + "min";
  }

  /** The text states the duration exactly: reading it back gives the minutes, and the unit
      is plural exactly when there is more than one hour. */
  lemma DurationRoundTrip(minutes: nat)
    ensures ReadDuration(FormatDuration(minutes)) == Some(minutes)
    ensures minutes >= 60 ==> (Split(FormatDuration(minutes), ' ')[1] == "hours" <==> minutes >= 120)
  {
    FormatIsWords(minutes);
    SplitJoin(DurationWords(minutes), ' ');
    ReadWordsBack(minutes);
  }

  lemma ReadWordsBack(minutes: nat)
    ensures ReadWords(DurationWords(minutes)) == Some(minutes)
  {
    if minutes < 60 {
      ParseNatToString(minutes);
    } else if minutes % 60 > 0 {
      ReadHoursMinutes(minutes);
    } else {
      ParseNatToString(minutes / 60);
    }
  }

  lemma ReadHoursMinutes(minutes: nat)
    requires minutes >= 60 && minutes % 60 > 0
    ensures ReadWords(DurationWords(minutes)) == Some(minutes)
  {
    ParseNatToString(minutes / 60);
    ParseNatToString(minutes % 60);
  }

  /** What the history shows: the empty state, or the rows. */
  datatype HistoryView = NoHistory | HistoryRows(rows: seq<Booking>)

  function History(bookings: seq<Booking>, startMillis: string -> int): (v: HistoryView)
    ensures v.NoHistory? <==> forall k :: 0 <= k < |bookings| ==> !IsFinished(bookings[k])
    ensures v.HistoryRows? ==> v.rows == CompletedBookings(bookings, startMillis)
  {
    var rows := CompletedBookings(bookings, startMillis);
    if rows == [] then NoHistory
    else
      assert rows[0] in rows;
      HistoryRows(rows)
  }
}
