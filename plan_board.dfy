/** The plan board: items grouped into the three status columns, and the callbacks its cards
    raise. */
module PlanBoard {
  import opened Wrappers
  import opened Seqs
  import opened PlanItems
  import PlanCard

  /** The bucket of a status: the same-named bucket for the three known statuses, the to-do
      bucket for any other string. */
  function BucketOf(status: string): (k: string)
    ensures k == Todo || k == InProgress || k == Complete
    ensures status == Todo || status == InProgress || status == Complete ==> k == status
    ensures status != Todo && status != InProgress && status != Complete ==> k == Todo
  {
    if status == Todo || status == InProgress || status == Complete then status else Todo
  }

  function ItemBucket(item: PlanItem): string {
    BucketOf(item.status)
  }

  /** The names every plain JavaScript object inherits from `Object.prototype`. Reading one of
      them from the bucket record yields a function or an object, never `undefined`. */
  const InheritedNames: set<string> := {
    "constructor", "__proto__", "toString", "toLocaleString", "valueOf", "hasOwnProperty",
    "isPrototypeOf", "propertyIsEnumerable", "__defineGetter__", "__defineSetter__",
    "__lookupGetter__", "__lookupSetter__"}

  /** `groups[item.status] ?? groups.todo` as written: the bucket that receives the item, or
      `None` when the lookup finds an inherited member that is not an array, so that the
      following `push` throws a TypeError. */
  function BucketAsWritten(status: string): (r: Option<string>)
    ensures r.None? <==> status in InheritedNames
    ensures r.Some? ==> r.value == BucketOf(status)
  {
    if status == Todo || status == InProgress || status == Complete then Some(status)
    else if status in InheritedNames then None
    else Some(Todo)
  }

  /** The grouping as written: it fails as a whole as soon as one item's status is an inherited
      name; otherwise every item is pushed into its bucket. */
  function GroupedAsWritten(items: seq<PlanItem>): (r: Option<map<string, seq<PlanItem>>>)
    ensures r.None? <==> exists k :: 0 <= k < |items| && items[k].status in InheritedNames
    ensures r.Some? ==> forall b :: b in r.value ==> r.value[b] == FilterBy(items, ItemBucket, b)
  {
    if exists k :: 0 <= k < |items| && items[k].status in InheritedNames then None
    else Some(map b | b in {Todo, InProgress, Complete} :: FilterBy(items, ItemBucket, b))
  }

  /** A plan item whose status is `toString` breaks the board as written, although the fallback
      was meant to put it in the to-do column, as `BucketOf` does. */
  lemma InheritedStatusBreaksBoard(item: PlanItem)
    requires item.status == "toString"
    ensures GroupedAsWritten([item]).None?
    ensures BucketAsWritten(item.status).None?
    ensures BucketOf(item.status) == Todo
  {
    assert [item][0].status in InheritedNames;
  }

  /** The `grouped` memo: a `forEach` that pushes each item into the bucket of its status.
      Each bucket ends up holding exactly the items of that bucket, in input order. */
  method Group(items: seq<PlanItem>) returns (grouped: map<string, seq<PlanItem>>)
    ensures grouped.Keys == {Todo, InProgress, Complete}
    ensures forall b :: b in grouped ==> grouped[b] == FilterBy(items, ItemBucket, b)
  {
    grouped := map[Todo := [], InProgress := [], Complete := []];
    for i := 0 to |items|
      invariant grouped.Keys == {Todo, InProgress, Complete}
      invariant forall b :: b in grouped ==> grouped[b] == FilterBy(items[..i], ItemBucket, b)
    {
      var item := items[i];
      var bucket := BucketOf(item.status);
      grouped := grouped[bucket := grouped[bucket] + [item]];
      forall b | b in grouped
        ensures grouped[b] == FilterBy(items[..i + 1], ItemBucket, b)
      {
        FilterByTakeStep(items, i, ItemBucket, b);
      }
    }
    assert items[..|items|] == items;
  }

  /** Every item lands in exactly one of the three buckets: together they hold the items, and
      their sizes add up to the number of items. */
  lemma BucketsPartition(items: seq<PlanItem>)
    ensures multiset(FilterBy(items, ItemBucket, Todo)) + multiset(FilterBy(items, ItemBucket, InProgress))
      + multiset(FilterBy(items, ItemBucket, Complete)) == multiset(items)
    ensures |FilterBy(items, ItemBucket, Todo)| + |FilterBy(items, ItemBucket, InProgress)|
      + |FilterBy(items, ItemBucket, Complete)| == |items|
  {
    FilterByPartition3(items, ItemBucket, Todo, InProgress, Complete);
  }

  /** One entry of `COLUMNS`. */
  datatype Column = Column(key: string, title: string, emptyText: string)

  const Columns: seq<Column> := [
    Column(Todo, "To Do", "No cards yet"),
    Column(InProgress, "In Progress", "No cards in progress"),
    Column(Complete, "Complete", "No completed cards")]

  /** A rendered column: its entry and the cards it lists. */
  datatype ColumnView = ColumnView(column: Column, cards: seq<PlanItem>)

  /** The board: the columns in their fixed order, each listing its own bucket
      (`grouped[col.key] ?? []`). */
  method Board(items: seq<PlanItem>) returns (views: seq<ColumnView>)
    ensures |views| == |Columns|
    ensures forall j :: 0 <= j < |views| ==>
      views[j].column == Columns[j] && views[j].cards == FilterBy(items, ItemBucket, Columns[j].key)
  {
    var grouped := Group(items);
    views := [];
    for j := 0 to |Columns|
      invariant |views| == j
      invariant forall i :: 0 <= i < j ==>
        views[i].column == Columns[i] && views[i].cards == FilterBy(items, ItemBucket, Columns[i].key)
    {
      var col := Columns[j];
      var cards := if col.key in grouped then grouped[col.key] else [];
      views := views + [ColumnView(col, cards)];
    }
  }

  /** What the board hands to the page when a card fires one of its callbacks. */
  datatype BoardCallback = ToggleStep(itemId: string, stepIndex: nat) | Delete(itemId: string)

  /** The wiring of a card's callbacks: both carry that card's own id. */
  function BoardEvent(item: PlanItem, fired: PlanCard.CardCallback): (r: BoardCallback)
    ensures r.itemId == item.id
    ensures fired.ToggleStepCallback? <==> r.ToggleStep?
    ensures fired.ToggleStepCallback? ==> r.stepIndex == fired.stepIndex
  {
    match fired
    case ToggleStepCallback(i) => ToggleStep(item.id, i)
    case DeleteCallback => Delete(item.id)
  }

  /** Through a card, the board asks to toggle step `i` of item `id` exactly when the card's
      own step box `i` is clicked while it is expanded, and asks to delete only through the
      card's confirm button. */
  lemma CardClickReachesBoard(state: PlanCard.CardState, item: PlanItem, click: PlanCard.CardClick, i: nat)
    ensures PlanCard.Click(state, item, click).fired.Some? &&
      BoardEvent(item, PlanCard.Click(state, item, click).fired.value) == ToggleStep(item.id, i)
      <==> click == PlanCard.StepBox(i) && state.expanded && i < |item.steps|
    ensures PlanCard.Click(state, item, click).fired.Some? &&
      BoardEvent(item, PlanCard.Click(state, item, click).fired.value) == Delete(item.id)
      ==> click == PlanCard.ConfirmRemove
  {
    var r := PlanCard.Click(state, item, click);
    if r.fired.Some? && BoardEvent(item, r.fired.value) == ToggleStep(item.id, i) {
      assert r.fired.value == PlanCard.ToggleStepCallback(i);
    }
  }
}
