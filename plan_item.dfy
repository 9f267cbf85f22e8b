/** A training-plan item and the progress arithmetic every view of it shares: counting checked
    steps, deriving the status from them, and flipping one step. */
module PlanItems {
  import opened Wrappers

  const Todo: string := "todo"
  const InProgress: string := "in_progress"
  const Complete: string := "complete"

  /** A card saved to the user's plan. `status` is whatever string the backend holds; the
      client writes only the three values above. */
  datatype PlanItem = PlanItem(
    id: string,
    title: string,
    category: string,
    difficulty: Option<string>,
    duration: Option<string>,
    overview: string,
    steps: seq<string>,
    tips: seq<string>,
    checked_steps: seq<bool>,
    status: string)

  /** `checked.filter(Boolean).length`: the number of checked steps. */
  function CountChecked(checked: seq<bool>): (n: nat)
    ensures n <= |checked|
    decreases |checked|
  {
    if checked == [] then 0 else (if checked[0] then 1 else 0) + CountChecked(checked[1..])
  }

  lemma {:induction false} CountAllChecked(checked: seq<bool>)
    ensures CountChecked(checked) == |checked| <==> false !in checked
    decreases |checked|
  {
    if checked != [] {
      CountAllChecked(checked[1..]);
      assert checked == [checked[0]] + checked[1..];
    }
  }

  lemma {:induction false} CountNoneChecked(checked: seq<bool>)
    ensures CountChecked(checked) == 0 <==> true !in checked
    decreases |checked|
  {
    if checked != [] {
      CountNoneChecked(checked[1..]);
      assert checked == [checked[0]] + checked[1..];
    }
  }

  /** The status the client derives after a toggle: complete when there are steps and all are
      checked, in progress when some but not all are, to do when none is. */
  function StatusOf(checked: seq<bool>): (s: string)
    ensures s == Complete <==> |checked| > 0 && CountChecked(checked) == |checked|
    ensures s == InProgress <==> 0 < CountChecked(checked) < |checked|
    ensures s == Todo <==> CountChecked(checked) == 0
  {
    CountAllChecked(checked);
    CountNoneChecked(checked);
    var allChecked := |checked| > 0 && false !in checked;
    var anyChecked := true in checked;
    if allChecked then Complete else if anyChecked then InProgress else Todo
  }

  /** `newChecked[i] = !newChecked[i]` on a copy: the entry at `i` is negated; one past the end
      the missing entry reads as `undefined`, so `true` is appended. Every other entry is kept. */
  function ToggleAt(checked: seq<bool>, i: nat): (r: seq<bool>)
    requires i <= |checked|
    ensures |r| == if i < |checked| then |checked| else |checked| + 1
    ensures r[i] == if i < |checked| then !checked[i] else true
    ensures forall j :: 0 <= j < |checked| && j != i ==> r[j] == checked[j]
  {
    if i < |checked| then checked[i := !checked[i]] else checked + [true]
  }

  /** Flipping the same step twice restores the steps. */
  lemma ToggleTwice(checked: seq<bool>, i: nat)
    requires i < |checked|
    ensures ToggleAt(ToggleAt(checked, i), i) == checked
  {
  }

  /** Flipping the step one past the end twice does not restore the array: it keeps a new,
      unchecked entry. */
  lemma ToggleAppendTwice(checked: seq<bool>)
    ensures ToggleAt(ToggleAt(checked, |checked|), |checked|) == checked + [false]
  {
  }

  /** Flipping a step moves the count by exactly one: down for a checked entry, up for an
      unchecked or missing one. */
  lemma {:induction false} ToggleCount(checked: seq<bool>, i: nat)
    requires i <= |checked|
    ensures CountChecked(ToggleAt(checked, i)) == CountChecked(checked) + (if i < |checked| && checked[i] then -1 else 1)
    decreases |checked|
  {
    var r := ToggleAt(checked, i);
    if checked == [] {
      assert r == [true];
    } else if i > 0 {
      ToggleCount(checked[1..], i - 1);
      assert r[1..] == ToggleAt(checked[1..], i - 1);
    } else {
      assert r[1..] == checked[1..];
    }
  }

  /** The optimistic update of one item: the flipped steps and the status derived from them;
      every other field is kept. */
  function ToggleItem(item: PlanItem, i: nat): (r: PlanItem)
    requires i <= |item.checked_steps|
    ensures r.checked_steps == ToggleAt(item.checked_steps, i)
    ensures r.status == StatusOf(r.checked_steps)
    ensures r.(checked_steps := item.checked_steps, status := item.status) == item
  {
    var newChecked := ToggleAt(item.checked_steps, i);
    item.(checked_steps := newChecked, status := StatusOf(newChecked))
  }
}
