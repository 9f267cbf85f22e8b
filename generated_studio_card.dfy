/** The progress badge and the summary line of a card generated in the chat. */
module GeneratedStudioCard {
  import opened Wrappers
  import opened PlanItems

  /** The fields of a generated card that the badge and the summary read. `checkedSteps` is
      absent until the card has been saved. */
  datatype StreamingStudioCard = StreamingStudioCard(
    title: string,
    description: string,
    category: string,
    overview: string,
    steps: seq<string>,
    checkedSteps: Option<seq<bool>>,
    isStreaming: bool)

  const SummaryLength: nat := 80
  const Ellipsis: string := "..."

  /** `checkedCount`: the true entries of the checked steps, none when they are absent. */
  function CheckedCount(card: StreamingStudioCard): (n: nat)
    ensures card.checkedSteps.None? ==> n == 0
    ensures card.checkedSteps.Some? ==> n == CountChecked(card.checkedSteps.value)
  {
    CountChecked(card.checkedSteps.GetOr([]))
  }

  /** `hasProgress`: the card has steps and has finished streaming. */
  predicate HasProgress(card: StreamingStudioCard) {
    |card.steps| > 0 && !card.isStreaming
  }

  /** `isComplete`: progress is shown and every step is counted as checked. */
  predicate IsComplete(card: StreamingStudioCard) {
    HasProgress(card) && CheckedCount(card) == |card.steps|
  }

  /** The marker at the end of the title row. */
  datatype Badge = NoBadge | CheckMark | Counter(checked: nat, total: nat)

  /** The check mark exactly for a complete card; the `k/n` counter exactly for a card with
      progress that is not complete and has at least one checked step; nothing otherwise. */
  function BadgeOf(card: StreamingStudioCard): (b: Badge)
    ensures b == CheckMark <==> IsComplete(card)
    ensures b.Counter? <==> HasProgress(card) && !IsComplete(card) && CheckedCount(card) > 0
    ensures b.Counter? ==> b.checked == CheckedCount(card) && b.total == |card.steps|
    ensures b.Counter? ==> 0 < b.checked && b.checked != b.total
    ensures b == NoBadge <==> !HasProgress(card) || (!IsComplete(card) && CheckedCount(card) == 0)
  {
    if !HasProgress(card) then NoBadge
    else if IsComplete(card) then CheckMark
    else if CheckedCount(card) > 0 then Counter(CheckedCount(card), |card.steps|)
    else NoBadge
  }


  /** `overview.slice(0, 80)`. */
  function Prefix(s: string, n: nat): (r: string)
    ensures r <= s
    ensures |r| == if |s| < n then |s| else n
  {
    if |s| <= n then s else s[..n]
  }

  /** The line under the title: the description when it is not empty; otherwise the first 80
      characters of the overview, followed by an ellipsis exactly when the overview was cut. */
  function Summary(card: StreamingStudioCard): (r: string)
    ensures card.description != [] ==> r == card.description
    ensures card.description == [] ==> |r| <= SummaryLength + |Ellipsis|
    ensures card.description == [] && |card.overview| <= SummaryLength ==> r == card.overview
    ensures card.description == [] && |card.overview| > SummaryLength ==>
      r == card.overview[..SummaryLength] + Ellipsis
  {
    if card.description != [] then card.description
    else
      Prefix(card.overview, SummaryLength) + (if |card.overview| > SummaryLength then Ellipsis else "")
  }

  /** With no description the summary starts with the overview's first 80 characters (all of
      it when shorter), and it carries the ellipsis exactly when the overview is longer than 80
      characters. */
  lemma SummaryOfOverview(card: StreamingStudioCard)
    requires card.description == []
    ensures Prefix(card.overview, SummaryLength) <= Summary(card)
    ensures |card.overview| > SummaryLength <==> |Summary(card)| == SummaryLength + |Ellipsis| && Summary(card)[SummaryLength..] == Ellipsis
  {
  }
}
