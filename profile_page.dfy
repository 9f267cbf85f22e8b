/** The profile page: the cached plan items, their optimistic step toggles and deletes with a
    reload when the backend refuses, and the avatar initials. */
module ProfilePage {
  import opened Wrappers
  import opened Seqs
  import opened Strings
  import opened Ordering
  import opened PlanItems

  /** `(i) => i.id === id`. */
  function HasId(id: string): PlanItem -> bool {
    (item: PlanItem) => item.id == id
  }

  /** `(item) => item.id !== id`. */
  function LacksId(id: string): PlanItem -> bool {
    (item: PlanItem) => item.id != id
  }

  /** Every item with the id has an entry at `stepIndex` to flip, or ends just before it, so
      that the flip appends. */
  predicate TogglableAt(items: seq<PlanItem>, id: string, stepIndex: nat) {
    forall k :: 0 <= k < |items| && items[k].id == id ==> stepIndex <= |items[k].checked_steps|
  }

  /** Every item with the id has an entry at `stepIndex`. */
  predicate EntryAt(items: seq<PlanItem>, id: string, stepIndex: nat) {
    forall k :: 0 <= k < |items| && items[k].id == id ==> stepIndex < |items[k].checked_steps|
  }

  /** The optimistic update: every item with the id gets step `stepIndex` flipped and its status
      derived again; every other item, the order and the length are kept. */
  function ToggledItems(items: seq<PlanItem>, id: string, stepIndex: nat): (r: seq<PlanItem>)
    requires TogglableAt(items, id, stepIndex)
    ensures |r| == |items|
    ensures forall k :: 0 <= k < |items| && items[k].id != id ==> r[k] == items[k]
    ensures forall k :: 0 <= k < |items| && items[k].id == id ==> r[k] == ToggleItem(items[k], stepIndex)
  {
    seq(|items|, k requires 0 <= k < |items| =>
      if items[k].id == id then ToggleItem(items[k], stepIndex) else items[k])
  }

  /** The steps array sent to the backend: the first item with the id, with the step flipped;
      nothing is sent when no item has the id. */
  function PersistedSteps(items: seq<PlanItem>, id: string, stepIndex: nat): (r: Option<seq<bool>>)
    requires TogglableAt(items, id, stepIndex)
    ensures r.None? <==> forall k :: 0 <= k < |items| ==> items[k].id != id
  {
    match FindFirst(items, HasId(id))
    case None => None
    case Some(item) => Some(ToggleAt(item.checked_steps, stepIndex))
  }

  /** The array sent to the backend is the array the optimistic update applied to the first
      item with the id; and when nothing is sent the optimistic update changed nothing. */
  lemma PersistedMatchesOptimistic(items: seq<PlanItem>, id: string, stepIndex: nat)
    requires TogglableAt(items, id, stepIndex)
    ensures PersistedSteps(items, id, stepIndex).None? ==> ToggledItems(items, id, stepIndex) == items
    ensures PersistedSteps(items, id, stepIndex).Some? ==>
      exists k :: 0 <= k < |items| && items[k].id == id &&
        ToggledItems(items, id, stepIndex)[k].checked_steps == PersistedSteps(items, id, stepIndex).value &&
        forall j :: 0 <= j < k ==> items[j].id != id
  {
    var found := FindFirst(items, HasId(id));
    if found.Some? {
      var k :| 0 <= k < |items| && items[k] == found.value && HasId(id)(found.value) && forall j :: 0 <= j < k ==> !HasId(id)(items[j]);
      assert ToggledItems(items, id, stepIndex)[k].checked_steps == PersistedSteps(items, id, stepIndex).value;
    }
  }

  /** An item whose status agrees with its steps, as the backend keeps it. */
  predicate Consistent(item: PlanItem) {
    item.status == StatusOf(item.checked_steps)
  }

  /** Toggling the same step of the same items twice restores the list, provided the toggled
      items have an entry at the step and their statuses already agreed with their steps. */
  lemma {:induction false} ToggleStepTwice(items: seq<PlanItem>, id: string, stepIndex: nat)
    requires EntryAt(items, id, stepIndex)
    requires forall k :: 0 <= k < |items| && items[k].id == id ==> Consistent(items[k])
    ensures EntryAt(ToggledItems(items, id, stepIndex), id, stepIndex)
    ensures ToggledItems(ToggledItems(items, id, stepIndex), id, stepIndex) == items
  {
    var once := ToggledItems(items, id, stepIndex);
    var twice := ToggledItems(once, id, stepIndex);
    forall k | 0 <= k < |items| ensures twice[k] == items[k] {
      if items[k].id == id {
        ToggleTwice(items[k].checked_steps, stepIndex);
      }
    }
  }

  /** Optimistic delete: exactly the items without the id, in their order. */
  function DeletedItems(items: seq<PlanItem>, id: string): (r: seq<PlanItem>)
    ensures forall k :: 0 <= k < |r| ==> r[k].id != id
    ensures forall k :: 0 <= k < |items| && items[k].id != id ==> items[k] in r
    ensures multiset(r) <= multiset(items)
    ensures forall item :: multiset(r)[item] == if item.id != id then multiset(items)[item] else 0
  {
    var r := Filter(items, LacksId(id));
    assert forall item :: multiset(r)[item] == if item.id != id then multiset(items)[item] else 0 by {
      forall item ensures multiset(r)[item] == if item.id != id then multiset(items)[item] else 0 {
        FilterMultiplicity(items, LacksId(id), item);
      }
    }
    r
  }

  /** Deleting keeps the surviving items in their relative order. */
  lemma DeletedKeepsOrder(items: seq<PlanItem>, id: string)
    ensures Subsequence(DeletedItems(items, id), items)
  {
    FilterIsSubsequence(items, LacksId(id));
  }

  /** The state of the page that the plan handlers change. */
  class ProfilePage {
    var items: seq<PlanItem>
    var loading: bool

    constructor()
      ensures items == [] && loading
    {
      items := [];
      loading := true;
    }

    /** `fetchPlan`: a listed plan replaces the items; a failed request keeps them. Loading
        ends either way. */
    method FetchPlan(reply: Option<seq<PlanItem>>)
      modifies this
      ensures items == (if reply.Some? then reply.value else old(items))
      ensures !loading
    {
      if reply.Some? {
        items := reply.value;
      }
      loading := false;
    }

    /** `handleToggleStep`: applies the optimistic toggle, then sends the flipped steps of the
        item found before the update. When the backend refuses, the list is reloaded from
        `reload` (a failed reload keeps the optimistic list). */
    method HandleToggleStep(itemId: string, stepIndex: nat, persistOk: bool, reload: Option<seq<PlanItem>>)
      returns (persisted: Option<seq<bool>>)
      requires TogglableAt(items, itemId, stepIndex)
      modifies this
      ensures persisted == PersistedSteps(old(items), itemId, stepIndex)
      ensures persisted.Some? && !persistOk ==>
        items == (if reload.Some? then reload.value else ToggledItems(old(items), itemId, stepIndex)) && !loading
      ensures persisted.None? || persistOk ==>
        items == ToggledItems(old(items), itemId, stepIndex) && loading == old(loading)
    {
      var before := items;
      items := ToggledItems(before, itemId, stepIndex);
      persisted := PersistedSteps(before, itemId, stepIndex);
      if persisted.Some? && !persistOk {
        FetchPlan(reload);
      }
    }

    /** `handleDelete`: removes the items with the id at once; when the backend refuses, the
        list is reloaded from `reload`. */
    method HandleDelete(itemId: string, removeOk: bool, reload: Option<seq<PlanItem>>)
      modifies this
      ensures !removeOk ==> items == (if reload.Some? then reload.value else DeletedItems(old(items), itemId)) && !loading
      ensures removeOk ==> items == DeletedItems(old(items), itemId) && loading == old(loading)
    {
      items := DeletedItems(items, itemId);
      if !removeOk {
        FetchPlan(reload);
      }
    }
  }

  predicate NonEmptyWord(w: string) {
    w != []
  }

  /** `.map((n) => n[0]).join('')`: the first character of every word; an empty word gives
      `undefined`, which `join` turns into nothing. */
  function FirstChars(words: seq<string>): (r: string)
    ensures |r| == |Filter(words, NonEmptyWord)|
    ensures forall k :: 0 <= k < |r| ==> r[k] == Filter(words, NonEmptyWord)[k][0]
    decreases |words|
  {
    if words == [] then []
    else
      assert Filter(words, NonEmptyWord) ==
        (if NonEmptyWord(words[0]) then [words[0]] else []) + Filter(words[1..], NonEmptyWord);
      (if words[0] == [] then [] else [words[0][0]]) + FirstChars(words[1..])
  }

  /** `getInitials`: at most two characters, the upper-cased first characters of the non-empty
      space-separated words, in order. */
  function Initials(name: string): (r: string)
    ensures |r| == (if |Filter(Split(name, ' '), NonEmptyWord)| < 2 then |Filter(Split(name, ' '), NonEmptyWord)| else 2)
    ensures forall k :: 0 <= k < |r| ==> r[k] == UpperChar(Filter(Split(name, ' '), NonEmptyWord)[k][0])
  {
    Take(ToUpper(FirstChars(Split(name, ' '))), 2)
  }
}
