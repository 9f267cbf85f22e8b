/** What one plan card shows and which callbacks its buttons fire. */
module PlanCard {
  import opened Wrappers
  import opened PlanItems

  /** `checkedCount` on the card. */
  function CheckedCount(item: PlanItem): (n: nat)
    ensures n <= |item.checked_steps|
  {
    CountChecked(item.checked_steps)
  }

  /** `progressPercent`: the share of checked steps against the number of steps, 0 with no steps. */
  function ProgressPercent(item: PlanItem): real {
    if |item.steps| > 0 then (CheckedCount(item) as real / |item.steps| as real) * 100.0 else 0.0
  }

  /** The progress percentage is never negative; it is 0 without steps, 100 exactly when the
      checked count equals the number of steps, and at most 100 while the checked array is no
      longer than the steps; in that case 100 means every step shows as checked. */
  lemma ProgressPercentRange(item: PlanItem)
    ensures ProgressPercent(item) >= 0.0
    ensures |item.steps| == 0 ==> ProgressPercent(item) == 0.0
    ensures |item.steps| > 0 ==> (ProgressPercent(item) == 100.0 <==> CheckedCount(item) == |item.steps|)
    ensures |item.checked_steps| <= |item.steps| ==> ProgressPercent(item) <= 100.0
    ensures |item.steps| > 0 && |item.checked_steps| <= |item.steps| ==>
      (ProgressPercent(item) == 100.0 <==> forall j :: 0 <= j < |item.steps| ==> StepChecked(item, j))
  {
    if |item.steps| > 0 {
      RatioRange(CheckedCount(item) as real, |item.steps| as real);
      if |item.checked_steps| < |item.steps| {
        assert !StepChecked(item, |item.checked_steps|);
      } else if |item.checked_steps| == |item.steps| {
        var s := StepsStatus(item);
      }
    }
  }

  /** A non-negative count over a positive total: the share is non-negative, exactly 1 when the
      two are equal, and at most 1 when the count does not exceed the total. */
  lemma RatioRange(n: real, t: real)
    requires n >= 0.0 && t > 0.0
    ensures n / t >= 0.0
    ensures n / t == 1.0 <==> n == t
    ensures n <= t ==> n / t <= 1.0
  {
    var q := n / t;
    assert q * t == n;
    ScaleByPositive(q, 0.0, t);
    ScaleByPositive(q, 1.0, t);
  }

  /** Multiplying by a positive number keeps order and equality. */
  lemma ScaleByPositive(a: real, b: real, t: real)
    requires t > 0.0
    ensures a < b ==> a * t < b * t
    ensures b < a ==> b * t < a * t
    ensures a == b ==> a * t == b * t
  {
  }

  /** After a toggle, the bar is drawn in the complete colour exactly when every checked entry
      is true, which with one entry per step is a full progress bar. */
  lemma ToggledBarColour(item: PlanItem, i: nat)
    requires i < |item.checked_steps| && |item.checked_steps| == |item.steps|
    ensures BarShowsComplete(ToggleItem(item, i)) <==> ProgressPercent(ToggleItem(item, i)) == 100.0
  {
    ProgressPercentRange(ToggleItem(item, i));
  }

  /** `isChecked` for step `index`: the entry when present, unchecked past the end of the array. */
  function StepChecked(item: PlanItem, index: nat): (b: bool)
    ensures index >= |item.checked_steps| ==> !b
    ensures index < |item.checked_steps| ==> b == item.checked_steps[index]
  {
    if index < |item.checked_steps| then item.checked_steps[index] else false
  }

  /** Whether each step shows as checked on the card. */
  function StepView(item: PlanItem): (v: seq<bool>)
    ensures |v| == |item.steps|
    ensures forall j :: 0 <= j < |v| ==> v[j] == StepChecked(item, j)
  {
    seq(|item.steps|, j requires 0 <= j < |item.steps| => StepChecked(item, j))
  }

  /** The status measured against the steps the card shows: complete exactly when there are
      steps and every one of them shows as checked, to do exactly when none does. With one
      entry per step it is the status the client derives. */
  function StepsStatus(item: PlanItem): (s: string)
    ensures s == Complete <==> (|item.steps| > 0 && forall j :: 0 <= j < |item.steps| ==> StepChecked(item, j))
    ensures s == Todo <==> (forall j :: 0 <= j < |item.steps| ==> !StepChecked(item, j))
    ensures s == InProgress <==> ((exists j :: 0 <= j < |item.steps| && StepChecked(item, j)) &&
      (exists j :: 0 <= j < |item.steps| && !StepChecked(item, j)))
    ensures |item.checked_steps| == |item.steps| ==> s == StatusOf(item.checked_steps)
  {
    var v := StepView(item);
    CountAllChecked(v);
    CountNoneChecked(v);
    assert false !in v <==> forall j :: 0 <= j < |v| ==> v[j];
    assert true !in v <==> forall j :: 0 <= j < |v| ==> !v[j];
    assert |item.checked_steps| == |item.steps| ==> v == item.checked_steps;
    StatusOf(v)
  }

  /** As written, the status after a toggle is measured against the entries present rather
      than the steps: with no entries yet, one click on the first of three steps completes the
      card, while two steps still show unchecked and the bar stands at a third. */
  lemma OneClickCompletesShortSteps(item: PlanItem)
    requires |item.steps| == 3 && item.checked_steps == []
    ensures ToggleItem(item, 0).status == Complete && BarShowsComplete(ToggleItem(item, 0))
    ensures ProgressPercent(ToggleItem(item, 0)) < 100.0
    ensures StepsStatus(ToggleItem(item, 0)) != Complete
  {
    var t := ToggleItem(item, 0);
    assert t.checked_steps == [true];
    assert CountChecked(t.checked_steps) == 1;
    ProgressPercentRange(t);
    assert !StepChecked(t, 1);
  }

  /** The progress bar is drawn only when there are steps. */
  predicate ShowsProgressBar(item: PlanItem) {
    |item.steps| > 0
  }

  /** The bar uses the complete colour exactly when the status is `complete`. */
  predicate BarShowsComplete(item: PlanItem) {
    item.status == Complete
  }

  /** The card's local UI flags. */
  datatype CardState = CardState(expanded: bool, showConfirm: bool)

  /** The clickable parts of a card. The step boxes, the remove button and the confirmation
      buttons exist only while the card is expanded. */
  datatype CardClick = Header | StepBox(index: nat) | RemoveButton | ConfirmRemove | CancelRemove

  /** The callbacks a card receives from its board. */
  datatype CardCallback = ToggleStepCallback(stepIndex: nat) | DeleteCallback

  datatype ClickResult = ClickResult(state: CardState, fired: Option<CardCallback>)

  /** Whether the clicked part is on screen. */
  predicate Rendered(state: CardState, item: PlanItem, click: CardClick) {
    match click
    case Header => true
    case StepBox(index) => state.expanded && index < |item.steps|
    case RemoveButton => state.expanded && !state.showConfirm
    case ConfirmRemove => state.expanded && state.showConfirm
    case CancelRemove => state.expanded && state.showConfirm
  }

  /** One click on a card. The header folds the card; a step box fires the toggle for its own
      index without folding; remove asks for confirmation; confirm fires the delete and closes the
      confirmation; cancel only closes it. A click on a part that is not rendered does nothing. */
  function Click(state: CardState, item: PlanItem, click: CardClick): (r: ClickResult)
    ensures r.fired == Some(DeleteCallback) <==> click == ConfirmRemove && state.expanded && state.showConfirm
    ensures r.fired == Some(DeleteCallback) ==> !r.state.showConfirm
    ensures forall i: nat :: r.fired == Some(ToggleStepCallback(i)) <==> click == StepBox(i) && state.expanded && i < |item.steps|
    ensures click == CancelRemove ==> r.fired == None && (state.expanded ==> !r.state.showConfirm)
    ensures r.fired.Some? ==> r.state.expanded == state.expanded
  {
    if !Rendered(state, item, click) then ClickResult(state, None)
    else
      match click
      case Header => ClickResult(state.(expanded := !state.expanded), None)
      case StepBox(index) => ClickResult(state, Some(ToggleStepCallback(index)))
      case RemoveButton => ClickResult(state.(showConfirm := true), None)
      case ConfirmRemove => ClickResult(state.(showConfirm := false), Some(DeleteCallback))
      case CancelRemove => ClickResult(state.(showConfirm := false), None)
  }
}
