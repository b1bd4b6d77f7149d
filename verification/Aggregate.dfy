/** Turn blocks (web/src/app/fold/aggregate.ts): a regrouping of the folded items
    that keeps every one of them. */
module Aggregate {
  import opened Collections
  import opened Conversation
  import opened UIEvents

  const AGGREGATE_MIN_RUN := 2

  predicate HasFamily(toolName: string) {
    toolName in {"Bash", "Edit", "Write", "Read", "Grep", "Glob"}
  }

  /** What a top-level aggregate may absorb. */
  predicate Aggregatable(item: Item) {
    item.StepItem? && item.ofSubtask.None? && HasFamily(item.toolName)
  }

  /** May join a run inside a subtask's own list. */
  predicate AggregatableStep(item: Item) {
    item.StepItem? && HasFamily(item.toolName)
  }

  datatype Row =
    | ItemRow(item: Item)
    | AggregateRow(run: seq<Item>)
    | SubtaskRow(subtask: Item, children: seq<Row>)

  function RowContents(row: Row): seq<Item>
    decreases row
  {
    match row
    case ItemRow(item) => [item]
    case AggregateRow(run) => run
    case SubtaskRow(subtask, children) => [subtask] + Contents(children)
  }

  /** Every item a list of rows stands for, in reading order. */
  function Contents(rows: seq<Row>): seq<Item>
    decreases rows
  {
    if rows == [] then [] else Contents(rows[..|rows| - 1]) + RowContents(rows[|rows| - 1])
  }

  function CountStepRows(rows: seq<Row>): nat
    decreases rows
  {
    if rows == [] then 0
    else
      CountStepRows(rows[..|rows| - 1])
      + match rows[|rows| - 1]
        case AggregateRow(run) => |run|
        case SubtaskRow(_, children) => 1 + CountStepRows(children)
        case ItemRow(_) => 1
  }

  /** The row count counts items, not rows. */
  lemma {:induction false} CountStepRowsCountsItems(rows: seq<Row>)
    ensures CountStepRows(rows) == |Contents(rows)|
    decreases rows
  {
    if rows != [] {
      CountStepRowsCountsItems(rows[..|rows| - 1]);
      var last := rows[|rows| - 1];
      if last.SubtaskRow? {
        CountStepRowsCountsItems(last.children);
      }
    }
  }

  // ---------------------------------------------------------------------------
  // Runs
  // ---------------------------------------------------------------------------

  /** A draft entry: an item by itself, or a run that may still grow. */
  datatype Entry = One(item: Item) | Run(run: seq<Item>)

  function Extended(draft: seq<Entry>, item: Item, aggregatable: Item -> bool): seq<Entry> {
    if !aggregatable(item) then draft + [One(item)]
    else if draft != [] && draft[|draft| - 1].Run? then
      draft[..|draft| - 1] + [Run(draft[|draft| - 1].run + [item])]
    else draft + [Run([item])]
  }

  function Drafted(items: seq<Item>, aggregatable: Item -> bool): seq<Entry> {
    if items == [] then [] else Extended(Drafted(items[..|items| - 1], aggregatable), items[|items| - 1], aggregatable)
  }

  function RowOf(entry: Entry): Row {
    match entry
    case One(item) => ItemRow(item)
    case Run(run) =>
      if 0 < |run| < AGGREGATE_MIN_RUN then ItemRow(run[0]) else AggregateRow(run)
  }

  function RowsOf(draft: seq<Entry>): (rows: seq<Row>)
    ensures |rows| == |draft|
    ensures forall i :: 0 <= i < |draft| ==> rows[i] == RowOf(draft[i])
  {
    seq(|draft|, i requires 0 <= i < |draft| => RowOf(draft[i]))
  }

  function Rows(items: seq<Item>, aggregatable: Item -> bool): seq<Row> {
    RowsOf(Drafted(items, aggregatable))
  }

  /** A row that aggregatable calls gave. */
  predicate IsRun(row: Row, aggregatable: Item -> bool) {
    row.AggregateRow? || (row.ItemRow? && aggregatable(row.item))
  }

  /** A row of the flat pass: an item, or at least two aggregatable calls. */
  predicate FlatRow(row: Row, aggregatable: Item -> bool) {
    match row
    case ItemRow(_) => true
    case AggregateRow(run) => |run| >= AGGREGATE_MIN_RUN && forall item :: item in run ==> aggregatable(item)
    case SubtaskRow(_, _) => false
  }

  /** Flat rows whose runs are maximal: no two are adjacent. */
  predicate MaximalRuns(rows: seq<Row>, aggregatable: Item -> bool) {
    rows == []
    || (var front, last := rows[..|rows| - 1], rows[|rows| - 1];
        && MaximalRuns(front, aggregatable)
        && FlatRow(last, aggregatable)
        && (IsRun(last, aggregatable) ==> front == [] || !IsRun(front[|front| - 1], aggregatable)))
  }

  /** The draft's run is open exactly when the previous item was aggregatable. */
  method BuildRows(items: seq<Item>, aggregatable: Item -> bool) returns (rows: seq<Row>)
    ensures rows == Rows(items, aggregatable)
  {
    var draft: seq<Entry> := [];
    var open := false;
    for i := 0 to |items|
      invariant draft == Drafted(items[..i], aggregatable)
      invariant open <==> draft != [] && draft[|draft| - 1].Run?
    {
      assert items[..i + 1][..i] == items[..i];
      var item := items[i];
      if aggregatable(item) {
        if open {
          var last := draft[|draft| - 1];
          draft := draft[|draft| - 1 := Run(last.run + [item])];
        } else {
          draft := draft + [Run([item])];
          open := true;
        }
      } else {
        open := false;
        draft := draft + [One(item)];
      }
    }
    assert items[..|items|] == items;
    rows := RowsOf(draft);
  }

  /** A draft's runs are non-empty lists of aggregatable calls, and nothing else in it is aggregatable. */
  predicate WellDrafted(draft: seq<Entry>, aggregatable: Item -> bool) {
    forall i :: 0 <= i < |draft| ==>
      match draft[i]
      case One(item) => !aggregatable(item)
      case Run(run) => run != [] && forall item :: item in run ==> aggregatable(item)
  }

  lemma {:induction false} DraftedWell(items: seq<Item>, aggregatable: Item -> bool)
    ensures WellDrafted(Drafted(items, aggregatable), aggregatable)
  {
    if items != [] {
      DraftedWell(items[..|items| - 1], aggregatable);
    }
  }

  /** The same pass over rows. */
  function ExtendedRows(rows: seq<Row>, item: Item, aggregatable: Item -> bool): seq<Row> {
    if aggregatable(item) && rows != [] && IsRun(rows[|rows| - 1], aggregatable) then
      rows[..|rows| - 1] + [AggregateRow(RowContents(rows[|rows| - 1]) + [item])]
    else rows + [ItemRow(item)]
  }

  lemma RowsExtend(items: seq<Item>, aggregatable: Item -> bool)
    requires items != []
    ensures Rows(items, aggregatable)
         == ExtendedRows(Rows(items[..|items| - 1], aggregatable), items[|items| - 1], aggregatable)
  {
    var draft := Drafted(items[..|items| - 1], aggregatable);
    DraftedWell(items[..|items| - 1], aggregatable);
    RowsOfExtended(draft, items[|items| - 1], aggregatable);
  }

  lemma RowsOfExtended(draft: seq<Entry>, item: Item, aggregatable: Item -> bool)
    requires WellDrafted(draft, aggregatable)
    ensures RowsOf(Extended(draft, item, aggregatable)) == ExtendedRows(RowsOf(draft), item, aggregatable)
  {
    if draft != [] {
      var front, last := draft[..|draft| - 1], draft[|draft| - 1];
      RunEntry(last, item, aggregatable);
      assert RowsOf(draft) == RowsOf(front) + [RowOf(last)];
      hide RowOf;
      hide IsRun;
      hide RowContents;
    }
  }

  lemma RunEntry(entry: Entry, item: Item, aggregatable: Item -> bool)
    requires WellDrafted([entry], aggregatable)
    ensures IsRun(RowOf(entry), aggregatable) <==> entry.Run?
    ensures entry.Run? ==> RowOf(Run(entry.run + [item])) == AggregateRow(RowContents(RowOf(entry)) + [item])
    ensures RowOf(Run([item])) == ItemRow(item) && RowOf(One(item)) == ItemRow(item)
  {
    assert WellDrafted([entry], aggregatable) && [entry][0] == entry;
  }

  lemma ContentsSnoc(rows: seq<Row>, row: Row)
    ensures Contents(rows + [row]) == Contents(rows) + RowContents(row)
  {
    assert (rows + [row])[..|rows|] == rows;
  }

  lemma ExtendedRowsRuns(rows: seq<Row>, item: Item, aggregatable: Item -> bool)
    requires MaximalRuns(rows, aggregatable)
    ensures Contents(ExtendedRows(rows, item, aggregatable)) == Contents(rows) + [item]
    ensures MaximalRuns(ExtendedRows(rows, item, aggregatable), aggregatable)
  {
    if aggregatable(item) && rows != [] && IsRun(rows[|rows| - 1], aggregatable) {
      var front, last := rows[..|rows| - 1], rows[|rows| - 1];
      var longer := AggregateRow(RowContents(last) + [item]);
      ContentsSnoc(front, longer);
      MaximalSnoc(front, longer, aggregatable);
      assert Contents(front) + (RowContents(last) + [item]) == Contents(rows) + [item];
    } else {
      ContentsSnoc(rows, ItemRow(item));
      MaximalSnoc(rows, ItemRow(item), aggregatable);
    }
  }

  lemma MaximalSnoc(rows: seq<Row>, row: Row, aggregatable: Item -> bool)
    ensures MaximalRuns(rows + [row], aggregatable)
       <==> MaximalRuns(rows, aggregatable) && FlatRow(row, aggregatable)
            && (IsRun(row, aggregatable) ==> rows == [] || !IsRun(rows[|rows| - 1], aggregatable))
  {
    assert (rows + [row])[..|rows|] == rows;
  }

  /** Aggregation loses nothing, keeps the order, and its aggregates are maximal runs of at least two. */
  lemma {:induction false} RowsAreMaximalRuns(items: seq<Item>, aggregatable: Item -> bool)
    ensures Contents(Rows(items, aggregatable)) == items
    ensures MaximalRuns(Rows(items, aggregatable), aggregatable)
  {
    if items != [] {
      var front := items[..|items| - 1];
      RowsAreMaximalRuns(front, aggregatable);
      RowsExtend(items, aggregatable);
      ExtendedRowsRuns(Rows(front, aggregatable), items[|items| - 1], aggregatable);
    }
  }

  /** A run without its last call. */
  function Shorter(run: seq<Item>): Row
    requires |run| >= AGGREGATE_MIN_RUN
  {
    if |run| == AGGREGATE_MIN_RUN then ItemRow(run[0]) else AggregateRow(run[..|run| - 1])
  }

  /** Take the last item away from a list of rows. */
  function Shortened(rows: seq<Row>, aggregatable: Item -> bool): seq<Row>
    requires rows != [] && FlatRow(rows[|rows| - 1], aggregatable)
  {
    var front, last := rows[..|rows| - 1], rows[|rows| - 1];
    if last.AggregateRow? then front + [Shorter(last.run)] else front
  }

  lemma GrowsBack(front: seq<Row>, run: seq<Item>, aggregatable: Item -> bool)
    requires FlatRow(AggregateRow(run), aggregatable)
    ensures RowContents(Shorter(run)) == run[..|run| - 1]
    ensures FlatRow(Shorter(run), aggregatable) && IsRun(Shorter(run), aggregatable)
    ensures ExtendedRows(front + [Shorter(run)], run[|run| - 1], aggregatable) == front + [AggregateRow(run)]
  {
    var rows, item := front + [Shorter(run)], run[|run| - 1];
    assert run[..|run| - 1] + [item] == run;
    assert rows[..|rows| - 1] == front;
  }

  lemma ShortenedContents(rows: seq<Row>, aggregatable: Item -> bool)
    requires rows != [] && FlatRow(rows[|rows| - 1], aggregatable)
    ensures var last := RowContents(rows[|rows| - 1]);
            last != [] && Contents(rows) == Contents(Shortened(rows, aggregatable)) + [last[|last| - 1]]
  {
    var front, last := rows[..|rows| - 1], rows[|rows| - 1];
    assert rows == front + [last];
    ContentsSnoc(front, last);
    hide Contents;
    if last.AggregateRow? {
      ContentsSnoc(front, Shorter(last.run));
    }
  }

  lemma ShortenedRuns(rows: seq<Row>, aggregatable: Item -> bool)
    requires rows != [] && MaximalRuns(rows, aggregatable)
    ensures MaximalRuns(Shortened(rows, aggregatable), aggregatable)
    ensures var last := RowContents(rows[|rows| - 1]);
            last != [] && ExtendedRows(Shortened(rows, aggregatable), last[|last| - 1], aggregatable) == rows
  {
    var front, last := rows[..|rows| - 1], rows[|rows| - 1];
    assert rows == front + [last];
    if last.AggregateRow? {
      GrowsBack(front, last.run, aggregatable);
      MaximalSnoc(front, Shorter(last.run), aggregatable);
    }
  }

  /** The rows are the only ones with these two properties. */
  lemma {:induction false} RowsAreUnique(rows: seq<Row>, items: seq<Item>, aggregatable: Item -> bool)
    requires Contents(rows) == items && MaximalRuns(rows, aggregatable)
    ensures rows == Rows(items, aggregatable)
    decreases |items|
  {
    if rows != [] {
      ShortenedContents(rows, aggregatable);
      ShortenedRuns(rows, aggregatable);
      RowsAreUnique(Shortened(rows, aggregatable), items[..|items| - 1], aggregatable);
      RowsExtend(items, aggregatable);
    }
  }

  /** Two calls next to each other become one row exactly when both are of an aggregating tool, and on the
      top level only if neither is a subtask's; a card's own list takes them either way. */
  lemma TwoCallsAggregate(a: Item, b: Item)
    requires a.StepItem? && b.StepItem?
    ensures var tools := ["Bash", "Edit", "Write", "Read", "Grep", "Glob"];
            var families := a.toolName in tools && b.toolName in tools;
            && (Rows([a, b], AggregatableStep) == [AggregateRow([a, b])] <==> families)
            && (Rows([a, b], AggregatableStep) == [ItemRow(a), ItemRow(b)] <==> !families)
            && (Rows([a, b], Aggregatable) == [AggregateRow([a, b])]
                <==> families && a.ofSubtask.None? && b.ofSubtask.None?)
            && (Rows([a, b], Aggregatable) == [ItemRow(a), ItemRow(b)]
                <==> !(families && a.ofSubtask.None? && b.ofSubtask.None?))
  {
    hide Rows;
    TwoRows(a, b, AggregatableStep);
    TwoRows(a, b, Aggregatable);
    assert |[AggregateRow([a, b])]| != |[ItemRow(a), ItemRow(b)]|;
  }

  lemma TwoRows(a: Item, b: Item, aggregatable: Item -> bool)
    ensures Rows([a, b], aggregatable)
         == if aggregatable(a) && aggregatable(b) then [AggregateRow([a, b])] else [ItemRow(a), ItemRow(b)]
  {
    assert [a, b][..1] == [a] && [a][..0] == [];
    RowsExtend([a, b], aggregatable);
    RowsExtend([a], aggregatable);
    assert Rows([], aggregatable) == [];
    hide Rows;
    assert [a] + [b] == [a, b] && [ItemRow(a)] + [ItemRow(b)] == [ItemRow(a), ItemRow(b)];
    assert [ItemRow(a)][..0] == [] && [] + [ItemRow(a)] == [ItemRow(a)];
    assert [] + [AggregateRow([a, b])] == [AggregateRow([a, b])];
  }

  /** Nothing but a call is ever aggregated. */
  lemma OnlyCallsAggregate(item: Item)
    requires !item.StepItem?
    ensures !Aggregatable(item) && !AggregatableStep(item)
  {
  }

  // ---------------------------------------------------------------------------
  // Subtask grouping
  // ---------------------------------------------------------------------------

  /** The subtasks with a card in this slice. */
  function Anchors(items: seq<Item>): set<string> {
    set i | 0 <= i < |items| && items[i].SubtaskItem? :: items[i].subtaskId
  }

  predicate IsNested(item: Item, anchors: set<string>) {
    item.StepItem? && item.ofSubtask.Some? && item.ofSubtask.value in anchors
  }

  function OnTop(anchors: set<string>): Item -> bool {
    (item: Item) => !IsNested(item, anchors)
  }

  function StepOf(id: string): Item -> bool {
    (item: Item) => item.StepItem? && item.ofSubtask == Some(id)
  }

  function CardOf(id: string): Item -> bool {
    (item: Item) => item.SubtaskItem? && item.subtaskId == id
  }

  function WithChildren(row: Row, items: seq<Item>): Row {
    if row.ItemRow? && row.item.SubtaskItem? then
      SubtaskRow(row.item, Rows(Filter(StepOf(row.item.subtaskId), items), AggregatableStep))
    else row
  }

  function AllWithChildren(rows: seq<Row>, items: seq<Item>): (out: seq<Row>)
    ensures |out| == |rows|
    ensures forall i :: 0 <= i < |rows| ==> out[i] == WithChildren(rows[i], items)
  {
    seq(|rows|, i requires 0 <= i < |rows| => WithChildren(rows[i], items))
  }

  function GroupedRows(items: seq<Item>): seq<Row> {
    AllWithChildren(Rows(Filter(OnTop(Anchors(items)), items), Aggregatable), items)
  }

  /** The buckets of the steps read so far. */
  ghost predicate Bucketed(buckets: map<string, seq<Item>>, items: seq<Item>, anchors: set<string>) {
    && (forall id :: id in buckets ==> id in anchors)
    && (forall id :: id in anchors ==> Filter(StepOf(id), items) == if id in buckets then buckets[id] else [])
  }

  method CollectAnchors(items: seq<Item>) returns (anchors: set<string>)
    ensures anchors == Anchors(items)
  {
    anchors := {};
    for i := 0 to |items|
      invariant anchors == Anchors(items[..i])
    {
      assert items[..i + 1] == items[..i] + [items[i]];
      AnchorsSnoc(items[..i], items[i]);
      if items[i].SubtaskItem? { anchors := anchors + {items[i].subtaskId}; }
    }
    assert items[..|items|] == items;
  }

  lemma BucketOne(buckets: map<string, seq<Item>>, items: seq<Item>, anchors: set<string>, item: Item)
    requires Bucketed(buckets, items, anchors)
    ensures IsNested(item, anchors) ==>
              var id := item.ofSubtask.value;
              Bucketed(buckets[id := (if id in buckets then buckets[id] else []) + [item]], items + [item], anchors)
    ensures !IsNested(item, anchors) ==> Bucketed(buckets, items + [item], anchors)
  {
    hide Filter;
    forall id | id in anchors
      ensures Filter(StepOf(id), items + [item])
           == Filter(StepOf(id), items) + if StepOf(id)(item) then [item] else []
    {
      FilterSnoc(StepOf(id), items, item);
    }
  }

  lemma FilterSnoc<T>(p: T -> bool, xs: seq<T>, x: T)
    ensures Filter(p, xs + [x]) == Filter(p, xs) + if p(x) then [x] else []
  {
    assert (xs + [x])[..|xs|] == xs;
  }

  method Bucket(items: seq<Item>, anchors: set<string>) returns (buckets: map<string, seq<Item>>, topLevel: seq<Item>)
    ensures topLevel == Filter(OnTop(anchors), items)
    ensures Bucketed(buckets, items, anchors)
  {
    hide Bucketed;
    buckets, topLevel := map[], [];
    NothingBucketed(anchors);
    for i := 0 to |items|
      invariant topLevel == Filter(OnTop(anchors), items[..i])
      invariant Bucketed(buckets, items[..i], anchors)
    {
      assert items[..i + 1][..i] == items[..i];
      assert items[..i + 1] == items[..i] + [items[i]];
      var item := items[i];
      BucketOne(buckets, items[..i], anchors, item);
      if IsNested(item, anchors) {
        var id := item.ofSubtask.value;
        buckets := buckets[id := (if id in buckets then buckets[id] else []) + [item]];
      } else {
        topLevel := topLevel + [item];
      }
    }
    assert items[..|items|] == items;
  }

  lemma NothingBucketed(anchors: set<string>)
    ensures Bucketed(map[], [], anchors)
  {
  }

  /** Pull every step whose card is in the slice into the card's own list. */
  method BuildGroupedRows(items: seq<Item>) returns (rows: seq<Row>)
    ensures rows == GroupedRows(items)
  {
    hide Rows;
    hide Anchors;
    hide Filter;
    var anchors := CollectAnchors(items);
    var buckets, topLevel := Bucket(items, anchors);
    var top := BuildRows(topLevel, Aggregatable);
    rows := [];
    for i := 0 to |top|
      invariant rows == AllWithChildren(top[..i], items)
    {
      var row := top[i];
      if row.ItemRow? && row.item.SubtaskItem? {
        var id := row.item.subtaskId;
        CardIsAnchor(items, anchors, top, i);
        var children := BuildRows(if id in buckets then buckets[id] else [], AggregatableStep);
        row := SubtaskRow(row.item, children);
      }
      rows := rows + [row];
    }
    assert top[..|top|] == top;
  }

  lemma AnchorsSnoc(items: seq<Item>, item: Item)
    ensures Anchors(items + [item]) == Anchors(items) + if item.SubtaskItem? then {item.subtaskId} else {}
  {
    var more := items + [item];
    assert item.SubtaskItem? ==> more[|items|] == item;
    forall id | id in Anchors(items) ensures id in Anchors(more) {
      var i :| 0 <= i < |items| && items[i].SubtaskItem? && items[i].subtaskId == id;
      assert more[i] == items[i];
    }
  }

  lemma CardIsAnchor(items: seq<Item>, anchors: set<string>, top: seq<Row>, i: nat)
    requires anchors == Anchors(items) && top == Rows(Filter(OnTop(anchors), items), Aggregatable)
    requires i < |top| && top[i].ItemRow? && top[i].item.SubtaskItem?
    ensures top[i].item.subtaskId in anchors
  {
    RowsAreMaximalRuns(Filter(OnTop(anchors), items), Aggregatable);
    RowIsContained(top, i);
    assert top[i].item in RowContents(top[i]);
    assert top[i].item in items;
  }

  lemma {:induction false} RowIsContained(rows: seq<Row>, i: nat)
    requires i < |rows|
    ensures forall item :: item in RowContents(rows[i]) ==> item in Contents(rows)
  {
    if i < |rows| - 1 {
      RowIsContained(rows[..|rows| - 1], i);
    }
  }

  // ---------------------------------------------------------------------------
  // Order
  // ---------------------------------------------------------------------------

  /** A row with its children left out. */
  function Bare(row: Row): Row {
    if row.SubtaskRow? then ItemRow(row.subtask) else row
  }

  function AllBare(rows: seq<Row>): (bare: seq<Row>)
    ensures |bare| == |rows|
    ensures forall i :: 0 <= i < |rows| ==> bare[i] == Bare(rows[i])
  {
    seq(|rows|, i requires 0 <= i < |rows| => Bare(rows[i]))
  }

  /** A card's own list: its subtask's steps in transcript order, aggregated into maximal runs. */
  predicate ChildrenInOrder(row: Row, items: seq<Item>) {
    row.SubtaskRow? ==>
      && row.subtask.SubtaskItem?
      && Contents(row.children) == Filter(StepOf(row.subtask.subtaskId), items)
      && MaximalRuns(row.children, AggregatableStep)
  }

  /** Nesting keeps the order of every list: the top level is the transcript without the nested steps,
      each card holds its own steps in order, and in both the aggregates are maximal runs. */
  ghost predicate InOrder(rows: seq<Row>, items: seq<Item>) {
    && Contents(AllBare(rows)) == Filter(OnTop(Anchors(items)), items)
    && MaximalRuns(AllBare(rows), Aggregatable)
    && forall i :: 0 <= i < |rows| ==> ChildrenInOrder(rows[i], items)
  }

  lemma {:induction false} FlatIsBare(rows: seq<Row>, items: seq<Item>)
    requires MaximalRuns(rows, Aggregatable)
    ensures AllBare(AllWithChildren(rows, items)) == rows
    ensures forall i :: 0 <= i < |rows| ==> !rows[i].SubtaskRow?
  {
    if rows != [] {
      FlatIsBare(rows[..|rows| - 1], items);
      assert forall i :: 0 <= i < |rows| - 1 ==> rows[..|rows| - 1][i] == rows[i];
    }
  }

  lemma GroupingKeepsOrder(items: seq<Item>)
    ensures InOrder(GroupedRows(items), items)
  {
    var top := Filter(OnTop(Anchors(items)), items);
    var flat := Rows(top, Aggregatable);
    RowsAreMaximalRuns(top, Aggregatable);
    FlatIsBare(flat, items);
    hide MaximalRuns;
    hide Contents;
    hide Rows;
    hide Filter;
    hide Anchors;
    forall i | 0 <= i < |flat| ensures ChildrenInOrder(GroupedRows(items)[i], items) {
      if flat[i].ItemRow? && flat[i].item.SubtaskItem? {
        RowsAreMaximalRuns(Filter(StepOf(flat[i].item.subtaskId), items), AggregatableStep);
      }
    }
  }

  // ---------------------------------------------------------------------------
  // Conservation
  // ---------------------------------------------------------------------------

  lemma {:induction false} FilterCount<T>(p: T -> bool, xs: seq<T>, x: T)
    ensures multiset(Filter(p, xs))[x] == if p(x) then multiset(xs)[x] else 0
  {
    if xs != [] {
      FilterCount(p, xs[..|xs| - 1], x);
      assert xs == xs[..|xs| - 1] + [xs[|xs| - 1]];
    }
  }

  /** The steps that the cards of `top` draw in. */
  function Children(top: seq<Item>, items: seq<Item>): multiset<Item> {
    if top == [] then multiset{}
    else
      var last := top[|top| - 1];
      Children(top[..|top| - 1], items)
      + if last.SubtaskItem? then multiset(Filter(StepOf(last.subtaskId), items)) else multiset{}
  }

  lemma {:induction false} ChildrenOfRun(top: seq<Item>, run: seq<Item>, items: seq<Item>)
    requires forall item :: item in run ==> !item.SubtaskItem?
    ensures Children(top + run, items) == Children(top, items)
  {
    if run == [] {
      assert top + run == top;
    } else {
      assert (top + run)[..|top + run| - 1] == top + run[..|run| - 1];
      ChildrenOfRun(top, run[..|run| - 1], items);
    }
  }

  lemma RowGains(row: Row, items: seq<Item>)
    requires FlatRow(row, Aggregatable)
    ensures multiset(RowContents(WithChildren(row, items)))
         == multiset(RowContents(row)) + Children(RowContents(row), items)
  {
    match row
    case ItemRow(item) => ItemGains(item, items);
    case AggregateRow(run) =>
      hide Children;
      ChildrenOfRun([], run, items);
      assert [] + run == run;
      NoChildren(items);
  }

  lemma NoChildren(items: seq<Item>)
    ensures Children([], items) == multiset{}
  {
  }

  lemma ItemGains(item: Item, items: seq<Item>)
    ensures multiset(RowContents(WithChildren(ItemRow(item), items))) == multiset([item]) + Children([item], items)
  {
    hide *;
    ChildrenOfOne(item, items);
    ShownWithChildren(item, items);
  }

  lemma ChildrenOfOne(item: Item, items: seq<Item>)
    ensures Children([item], items)
         == if item.SubtaskItem? then multiset(Filter(StepOf(item.subtaskId), items)) else multiset{}
  {
    hide Filter;
    assert [item][..0] == [];
  }

  lemma ShownWithChildren(item: Item, items: seq<Item>)
    ensures RowContents(WithChildren(ItemRow(item), items))
         == [item] + if item.SubtaskItem? then Filter(StepOf(item.subtaskId), items) else []
  {
    hide Filter;
    hide Rows;
    hide Contents;
    if item.SubtaskItem? {
      RowsAreMaximalRuns(Filter(StepOf(item.subtaskId), items), AggregatableStep);
    }
  }

  lemma {:induction false} ChildrenConcat(a: seq<Item>, b: seq<Item>, items: seq<Item>)
    ensures Children(a + b, items) == Children(a, items) + Children(b, items)
  {
    if b == [] {
      assert a + b == a;
    } else {
      assert (a + b)[..|a + b| - 1] == a + b[..|b| - 1];
      ChildrenConcat(a, b[..|b| - 1], items);
    }
  }

  lemma {:induction false} RowsGain(rows: seq<Row>, items: seq<Item>)
    requires MaximalRuns(rows, Aggregatable)
    ensures multiset(Contents(AllWithChildren(rows, items)))
         == multiset(Contents(rows)) + Children(Contents(rows), items)
  {
    hide *;
    if rows == [] {
      NoRowsGain(items);
    } else {
      var front, last := rows[..|rows| - 1], rows[|rows| - 1];
      MaximalRunsFront(rows, Aggregatable);
      RowsGain(front, items);
      RowGains(last, items);
      assert rows == front + [last];
      OneRowMore(front, last, items);
    }
  }

  lemma NoRowsGain(items: seq<Item>)
    ensures multiset(Contents(AllWithChildren([], items))) == multiset(Contents([])) + Children(Contents([]), items)
  {
    assert AllWithChildren([], items) == [];
  }

  lemma MaximalRunsFront(rows: seq<Row>, aggregatable: Item -> bool)
    requires rows != [] && MaximalRuns(rows, aggregatable)
    ensures MaximalRuns(rows[..|rows| - 1], aggregatable) && FlatRow(rows[|rows| - 1], aggregatable)
  {
  }

  lemma OneRowMore(front: seq<Row>, last: Row, items: seq<Item>)
    requires multiset(Contents(AllWithChildren(front, items)))
          == multiset(Contents(front)) + Children(Contents(front), items)
    requires multiset(RowContents(WithChildren(last, items)))
          == multiset(RowContents(last)) + Children(RowContents(last), items)
    ensures multiset(Contents(AllWithChildren(front + [last], items)))
         == multiset(Contents(front + [last])) + Children(Contents(front + [last]), items)
  {
    hide *;
    var grown, row := AllWithChildren(front, items), WithChildren(last, items);
    ChildrenConcat(Contents(front), RowContents(last), items);
    AllWithChildrenSnoc(front, last, items);
    ContentsSnoc(front, last);
    ContentsSnoc(grown, row);
  }

  lemma AllWithChildrenSnoc(front: seq<Row>, last: Row, items: seq<Item>)
    ensures AllWithChildren(front + [last], items) == AllWithChildren(front, items) + [WithChildren(last, items)]
  {
    hide WithChildren;
  }

  /** How many cards a subtask has in a slice. */
  function Cards(items: seq<Item>, id: string): nat {
    |Filter(CardOf(id), items)|
  }

  lemma {:induction false} ChildrenCount(top: seq<Item>, items: seq<Item>, x: Item)
    ensures Children(top, items)[x]
         == if x.StepItem? && x.ofSubtask.Some? then Cards(top, x.ofSubtask.value) * multiset(items)[x] else 0
  {
    if top != [] {
      hide Filter;
      hide Cards;
      var front, last := top[..|top| - 1], top[|top| - 1];
      ChildrenCount(front, items, x);
      if last.SubtaskItem? {
        FilterCount(StepOf(last.subtaskId), items, x);
      }
      if x.StepItem? && x.ofSubtask.Some? {
        CardsTimes(top, x.ofSubtask.value, multiset(items)[x]);
      }
    }
  }

  lemma CardsTimes(items: seq<Item>, id: string, m: nat)
    requires items != []
    ensures Cards(items, id) * m
         == Cards(items[..|items| - 1], id) * m + if CardOf(id)(items[|items| - 1]) then m else 0
  {
    hide Cards;
    CardsSnoc(items, id);
    OneMoreTimes(Cards(items[..|items| - 1], id), m);
  }

  lemma CardsSnoc(items: seq<Item>, id: string)
    requires items != []
    ensures Cards(items, id) == Cards(items[..|items| - 1], id) + if CardOf(id)(items[|items| - 1]) then 1 else 0
  {
  }

  lemma OneMoreTimes(n: nat, m: nat)
    ensures (n + 1) * m == n * m + m
  {
  }

  lemma GroupedContents(items: seq<Item>)
    ensures var top := Filter(OnTop(Anchors(items)), items);
            multiset(Contents(GroupedRows(items))) == multiset(top) + Children(top, items)
  {
    var top := Filter(OnTop(Anchors(items)), items);
    hide Filter;
    hide Rows;
    hide Contents;
    hide MaximalRuns;
    RowsAreMaximalRuns(top, Aggregatable);
    RowsGain(Rows(top, Aggregatable), items);
  }

  /** How often an item is shown: a nested step once under every card of its subtask. */
  lemma GroupedCount(items: seq<Item>, x: Item)
    ensures multiset(Contents(GroupedRows(items)))[x]
         == if IsNested(x, Anchors(items)) then Cards(items, x.ofSubtask.value) * multiset(items)[x]
            else multiset(items)[x]
  {
    hide Filter;
    hide Contents;
    hide Children;
    hide GroupedRows;
    hide Anchors;
    hide Cards;
    GroupedContents(items);
    FilterCount(OnTop(Anchors(items)), items, x);
    ChildrenCount(Filter(OnTop(Anchors(items)), items), items, x);
    if x.StepItem? && x.ofSubtask.Some? {
      CardsAreOnTop(items, x.ofSubtask.value);
      CardsAreAnchored(items, x.ofSubtask.value);
    }
  }

  lemma CardsAreOnTop(items: seq<Item>, id: string)
    ensures Cards(Filter(OnTop(Anchors(items)), items), id) == Cards(items, id)
  {
    FilterFilter(OnTop(Anchors(items)), CardOf(id), CardOf(id), items);
  }

  lemma CardsAreAnchored(items: seq<Item>, id: string)
    ensures Cards(items, id) > 0 <==> id in Anchors(items)
  {
    var cards := Filter(CardOf(id), items);
    if cards != [] {
      assert cards[0] in cards;
      var i :| 0 <= i < |items| && items[i] == cards[0];
    }
    if id in Anchors(items) {
      var i :| 0 <= i < |items| && items[i].SubtaskItem? && items[i].subtaskId == id;
      assert items[i] in cards;
    }
  }

  /** Every step that is drawn into a card is drawn into one card. */
  predicate OneCardEach(items: seq<Item>) {
    forall x :: x in items && IsNested(x, Anchors(items)) ==> Cards(items, x.ofSubtask.value) == 1
  }

  /** Nothing is ever lost, and a step is shown twice exactly when its subtask has two cards. */
  lemma GroupingConserves(items: seq<Item>)
    ensures multiset(items) <= multiset(Contents(GroupedRows(items)))
    ensures multiset(Contents(GroupedRows(items))) == multiset(items) <==> OneCardEach(items)
  {
    hide Contents;
    hide GroupedRows;
    hide Cards;
    hide Anchors;
    forall x
      ensures multiset(Contents(GroupedRows(items)))[x]
           == if IsNested(x, Anchors(items)) then Cards(items, x.ofSubtask.value) * multiset(items)[x]
              else multiset(items)[x]
      ensures IsNested(x, Anchors(items)) ==> Cards(items, x.ofSubtask.value) > 0
    {
      GroupedCount(items, x);
      if IsNested(x, Anchors(items)) { CardsAreAnchored(items, x.ofSubtask.value); }
    }
    TimesAtLeastOne();
  }

  lemma TimesAtLeastOne()
    ensures forall n: nat, m: nat :: n > 0 ==> n * m >= m && (n * m == m <==> n == 1 || m == 0)
  {
    forall n: nat, m: nat | n > 0 ensures n * m >= m && (n * m == m <==> n == 1 || m == 0) {
      OneMoreTimes(n - 1, m);
      if n > 1 { OneMoreTimes(n - 2, m); }
    }
  }

  // ---------------------------------------------------------------------------
  // Turns
  // ---------------------------------------------------------------------------

  predicate IsWork(item: Item) {
    match item
    case StepItem(_, _, _, _, _, _, _, _, _, _) => true
    case MemoryItem(_, _, _, _, _, _) => true
    case SkillItem(_, _, _, _) => true
    case TodosItem(_, _, _, _) => true
    case SubtaskItem(_, _, _, _, _, _, _, _) => true
    case ThinkingItem(_, _, _, _) => true
    case RecallItem(_, _, _, _) => true
    case _ => false
  }

  predicate IsNotice(item: Item) {
    item.ErrorItem? || item.QuestionItem? || item.CompactionItem?
  }

  predicate IsThinking(item: Item) {
    item.ThinkingItem?
  }

  predicate NotThinking(item: Item) {
    !item.ThinkingItem?
  }

  /** No work from here on, and no earlier place has that. */
  predicate TrailsFrom(body: seq<Item>, start: nat) {
    && start <= |body|
    && (forall i :: start <= i < |body| ==> !IsWork(body[i]))
    && (start > 0 ==> IsWork(body[start - 1]))
  }

  predicate NoNoticeBefore(body: seq<Item>, end: nat)
    requires end <= |body|
  {
    forall i :: 0 <= i < end ==> !IsNotice(body[i])
  }

  /** The cut between steps and answer: behind the last work, or at the first notice if that comes sooner. */
  predicate IsCut(body: seq<Item>, cut: nat) {
    && cut <= |body|
    && NoNoticeBefore(body, cut)
    && (TrailsFrom(body, cut)
        || (cut < |body| && IsNotice(body[cut]) && exists i :: cut < i < |body| && IsWork(body[i])))
  }

  /** A body has one cut only. */
  lemma CutIsUnique(body: seq<Item>, a: nat, b: nat)
    requires IsCut(body, a) && IsCut(body, b)
    ensures a == b
  {
  }

  function TrailStart(body: seq<Item>, end: nat): (start: nat)
    requires end <= |body| && forall i :: end <= i < |body| ==> !IsWork(body[i])
    ensures TrailsFrom(body, start)
  {
    if end > 0 && !IsWork(body[end - 1]) then TrailStart(body, end - 1) else end
  }

  function FirstNotice(body: seq<Item>, from: nat): (i: nat)
    requires from <= |body| && NoNoticeBefore(body, from)
    ensures i <= |body| && NoNoticeBefore(body, i) && (i < |body| ==> IsNotice(body[i]))
    decreases |body| - from
  {
    if from < |body| && !IsNotice(body[from]) then FirstNotice(body, from + 1) else from
  }

  function AnswerCut(body: seq<Item>): (cut: nat)
    ensures IsCut(body, cut)
  {
    var start, notice := TrailStart(body, |body|), FirstNotice(body, 0);
    if notice < start then
      assert notice < start - 1 && IsWork(body[start - 1]);
      notice
    else start
  }

  method AnswerStart(body: seq<Item>) returns (cut: nat)
    ensures cut == AnswerCut(body)
  {
    var start: nat := |body|;
    while start > 0 && !IsWork(body[start - 1])
      invariant start <= |body|
      invariant forall i :: start <= i < |body| ==> !IsWork(body[i])
    {
      start := start - 1;
    }
    var notice := FirstNotice(body, 0);
    if notice < start {
      cut := notice;
      assert notice < start - 1 && IsWork(body[start - 1]);
    } else {
      cut := start;
    }
    CutIsUnique(body, cut, AnswerCut(body));
  }

  /** The agent at work: calls, memory, skills, checklists, subtasks, reasoning, recalls. */
  predicate AtWork(item: Item) {
    || item.StepItem? || item.MemoryItem? || item.SkillItem? || item.TodosItem? || item.SubtaskItem?
    || item.ThinkingItem? || item.RecallItem?
  }

  /** What happened to the conversation. */
  predicate Happened(item: Item) {
    item.ErrorItem? || item.QuestionItem? || item.CompactionItem?
  }

  /** By the kinds of the items: nothing that happened is before the cut. What is at work behind it comes
      after something that happened. And the cut is no earlier than that needs: it is at the start, or
      directly behind something at work, or something that happened pulled it there from in front of work. */
  lemma AnswerByKinds(body: seq<Item>)
    ensures var cut := AnswerCut(body);
            && (forall i :: 0 <= i < cut ==> !Happened(body[i]))
            && (forall i :: cut <= i < |body| && AtWork(body[i]) ==> cut < i && Happened(body[cut]))
            && (cut == 0 || AtWork(body[cut - 1])
                || (cut < |body| && Happened(body[cut]) && exists i :: cut < i < |body| && AtWork(body[i])))
  {
    var cut := AnswerCut(body);
    KindsOf(body);
    hide AnswerCut;
    hide IsWork;
    hide IsNotice;
  }

  lemma KindsOf(body: seq<Item>)
    ensures forall i :: 0 <= i < |body| ==>
              (IsWork(body[i]) <==> AtWork(body[i])) && (IsNotice(body[i]) <==> Happened(body[i]))
  {
  }

  /** So where nothing happened the answer starts directly behind the last work, or at the start. */
  lemma PlainAnswerStart(body: seq<Item>, last: int)
    requires forall i :: 0 <= i < |body| ==> !Happened(body[i])
    requires -1 <= last < |body| && (last >= 0 ==> AtWork(body[last]))
    requires forall i :: last < i < |body| ==> !AtWork(body[i])
    ensures AnswerCut(body) == last + 1
  {
    AnswerByKinds(body);
    hide AnswerCut;
  }

  /** Work reaches the answer only behind a notice; then, whatever it is, it is shown there. */
  lemma AnswerHoldsWork(body: seq<Item>)
    ensures (exists i :: AnswerCut(body) <= i < |body| && IsWork(body[i]))
       <==> (exists i, j :: 0 <= i < j < |body| && IsNotice(body[i]) && IsWork(body[j]))
  {
    var cut := AnswerCut(body);
    if i, j :| 0 <= i < j < |body| && IsNotice(body[i]) && IsWork(body[j]) {
      assert cut <= i;
    }
  }

  /** Reasoning sits in the answer exactly when a notice came before it. */
  lemma AnswerHoldsThinking(body: seq<Item>)
    ensures (exists i :: AnswerCut(body) <= i < |body| && IsThinking(body[i]))
       <==> (exists i, j :: 0 <= i < j < |body| && IsNotice(body[i]) && IsThinking(body[j]))
  {
    var cut := AnswerCut(body);
    if i, j :| 0 <= i < j < |body| && IsNotice(body[i]) && IsThinking(body[j]) {
      assert cut <= i;
    }
    if i :| cut <= i < |body| && IsThinking(body[i]) {
      assert IsWork(body[i]) && IsNotice(body[cut]);
    }
  }

  /** What the renderer is given for one turn. */
  datatype Turn = Turn(user: Option<Item>, thinking: seq<Item>, steps: seq<Row>, answer: seq<Row>,
                       stepRowCount: nat, live: bool, folded: bool)

  /** A group's items after the message that opened it. */
  function Body(group: seq<Item>): seq<Item>
    requires group != []
  {
    if group[0].UserItem? then group[1..] else group
  }

  /** The items a turn may fold away: its work, reasoning aside. */
  function StepItems(group: seq<Item>): seq<Item>
    requires group != []
  {
    Filter(NotThinking, Body(group)[..AnswerCut(Body(group))])
  }

  function TurnOf(group: seq<Item>, live: bool): (turn: Turn)
    requires group != []
    ensures turn.live == live
    ensures live ==> !turn.folded
  {
    var body := Body(group);
    var cut := AnswerCut(body);
    var thinking, steps := Filter(IsThinking, body[..cut]), GroupedRows(StepItems(group));
    Turn(if group[0].UserItem? then Some(group[0]) else None, thinking, steps, Rows(body[cut..], Aggregatable),
         CountStepRows(steps), live, !live && (steps != [] || thinking != []))
  }

  /** A turn can be folded exactly when it is not live and something comes before its answer; its message is
      the one that opened it; and it says it is live when it is. */
  lemma TurnFoldsWhatIsBefore(group: seq<Item>, live: bool)
    requires group != []
    ensures var turn, cut := TurnOf(group, live), AnswerCut(Body(group));
            && (turn.folded <==> !live && cut > 0)
            && turn.live == live
            && turn.user == (if group[0].UserItem? then Some(group[0]) else None)
            && Body(group) == (if group[0].UserItem? then group[1..] else group)
  {
    var body := Body(group);
    var cut := AnswerCut(body);
    hide AnswerCut;
    FilterSplits(body[..cut]);
    GroupingConserves(StepItems(group));
    hide GroupedRows;
    hide CountStepRows;
    hide Rows;
    hide Filter;
    if cut > 0 {
      assert body[0] in body[..cut] && body[0] in multiset(body[..cut]);
      if StepItems(group) != [] {
        assert StepItems(group)[0] in multiset(StepItems(group));
        assert Contents([]) == [];
      }
    } else {
      assert body[..cut] == [] && multiset(body[..cut]) == multiset{};
      NothingGrouped(StepItems(group));
    }
  }

  lemma NothingGrouped(items: seq<Item>)
    ensures items == [] ==> GroupedRows(items) == []
    ensures |Filter(IsThinking, [])| == 0 && |Filter(NotThinking, [])| == 0
  {
  }

  /** The witness: reasoning behind an error is answer, as a row of its own, and not in the thinking line. */
  lemma ThinkingBehindError(error: Item, thinking: Item)
    requires error.ErrorItem? && thinking.ThinkingItem?
    ensures var turn := TurnOf([error, thinking], false);
            turn.thinking == [] && turn.answer == [ItemRow(error), ItemRow(thinking)]
  {
    var body := [error, thinking];
    CutIsUnique(body, AnswerCut(body), 0) by { assert IsWork(body[1]); }
    assert Body(body) == body && body[..0] == [] && body[0..] == body;
    assert body[..1] == [error] && [error][..0] == [];
    hide AnswerCut;
    hide GroupedRows;
    RowsExtend(body, Aggregatable);
    RowsExtend([error], Aggregatable);
    assert Rows([], Aggregatable) == [];
    hide Rows;
  }

  /** Everything a turn shows. */
  function TurnContents(turn: Turn): seq<Item> {
    (if turn.user.Some? then [turn.user.value] else []) + turn.thinking + Contents(turn.steps) + Contents(turn.answer)
  }

  lemma {:induction false} FilterSplits(items: seq<Item>)
    ensures multiset(items) == multiset(Filter(IsThinking, items)) + multiset(Filter(NotThinking, items))
  {
    if items != [] {
      FilterSplits(items[..|items| - 1]);
      assert items == items[..|items| - 1] + [items[|items| - 1]];
    }
  }

  /** What a turn shows besides its steps. */
  function Beside(group: seq<Item>): multiset<Item>
    requires group != []
  {
    var body := Body(group);
    var cut := AnswerCut(body);
    multiset(if group[0].UserItem? then [group[0]] else [])
    + multiset(Filter(IsThinking, body[..cut])) + multiset(body[cut..])
  }

  lemma GroupParts(group: seq<Item>)
    requires group != []
    ensures multiset(group) == Beside(group) + multiset(StepItems(group))
  {
    hide Filter;
    hide AnswerCut;
    hide TrailStart;
    hide FirstNotice;
    hide IsCut;
    BodyParts(group);
    if group[0].UserItem? {
      assert group == [group[0]] + Body(group);
      assert multiset(group) == multiset([group[0]]) + multiset(Body(group));
    }
  }

  lemma BodyParts(group: seq<Item>)
    requires group != []
    ensures var body := Body(group);
            var cut := AnswerCut(body);
            multiset(body)
            == multiset(Filter(IsThinking, body[..cut])) + multiset(StepItems(group)) + multiset(body[cut..])
  {
    hide Filter;
    hide AnswerCut;
    var body := Body(group);
    FilterSplits(body[..AnswerCut(body)]);
    CutParts(body, AnswerCut(body));
  }

  lemma CutParts<T>(body: seq<T>, cut: nat)
    requires cut <= |body|
    ensures multiset(body) == multiset(body[..cut]) + multiset(body[cut..])
  {
    assert body == body[..cut] + body[cut..];
  }

  lemma TurnParts(group: seq<Item>, live: bool)
    requires group != []
    ensures multiset(TurnContents(TurnOf(group, live)))
         == Beside(group) + multiset(Contents(GroupedRows(StepItems(group))))
  {
    hide Filter;
    hide AnswerCut;
    hide StepItems;
    hide GroupedRows;
    hide Contents;
    hide Rows;
    hide MaximalRuns;
    RowsAreMaximalRuns(Body(group)[AnswerCut(Body(group))..], Aggregatable);
  }

  /** One turn: its group's items are all shown, each once unless a subtask has two cards. */
  lemma TurnConserves(group: seq<Item>, live: bool)
    requires group != []
    ensures multiset(group) <= multiset(TurnContents(TurnOf(group, live)))
    ensures multiset(TurnContents(TurnOf(group, live))) == multiset(group) <==> OneCardEach(StepItems(group))
  {
    hide *;
    GroupParts(group);
    TurnParts(group, live);
    GroupingConserves(StepItems(group));
    var beside, work := Beside(group), multiset(StepItems(group));
    var shown := multiset(Contents(GroupedRows(StepItems(group))));
    assert beside + shown == beside + work ==> shown == work by {
      assert beside + shown - beside == shown && beside + work - beside == work;
    }
  }

  /** Inside a turn every list keeps the order of the transcript and aggregates are maximal runs: the
      reasoning, the answer, the top level of the steps and each card's own list. Nothing to be seen is
      folded away. */
  lemma TurnKeepsOrder(group: seq<Item>, live: bool)
    requires group != []
    ensures var turn, body := TurnOf(group, live), Body(group);
            var cut := AnswerCut(body);
            && (forall item :: item in Contents(turn.steps) ==> !IsNotice(item) && !item.ThinkingItem?)
            && turn.thinking == Filter(IsThinking, body[..cut])
            && Contents(turn.answer) == body[cut..] && MaximalRuns(turn.answer, Aggregatable)
            && InOrder(turn.steps, StepItems(group))
  {
    hide GroupedRows;
    hide Rows;
    hide Filter;
    hide MaximalRuns;
    hide AnswerCut;
    hide Contents;
    hide InOrder;
    hide StepItems;
    GroupingKeepsOrder(StepItems(group));
    RowsAreMaximalRuns(Body(group)[AnswerCut(Body(group))..], Aggregatable);
    StepsHideNothing(group);
  }

  lemma StepsHideNothing(group: seq<Item>)
    requires group != []
    ensures forall item :: item in Contents(GroupedRows(StepItems(group))) ==> !IsNotice(item) && !item.ThinkingItem?
  {
    hide *;
    StepItemsArePlain(group);
    ShownIsGiven(StepItems(group));
  }

  lemma StepItemsArePlain(group: seq<Item>)
    requires group != []
    ensures forall item :: item in StepItems(group) ==> !IsNotice(item) && !item.ThinkingItem?
  {
    var body := Body(group);
    var cut := AnswerCut(body);
    assert NoNoticeBefore(body, cut);
    forall item | item in body[..cut] ensures !IsNotice(item) {
      var i :| 0 <= i < cut && body[i] == item;
    }
    hide AnswerCut;
    hide IsNotice;
    assert forall item :: item in StepItems(group) ==> item in body[..cut] && NotThinking(item);
  }

  lemma ShownIsGiven(items: seq<Item>)
    ensures forall item :: item in Contents(GroupedRows(items)) ==> item in items
  {
    hide Contents;
    hide GroupedRows;
    hide Cards;
    hide Anchors;
    forall item | item in Contents(GroupedRows(items)) ensures item in items {
      GroupedCount(items, item);
      assert item in multiset(Contents(GroupedRows(items)));
    }
  }

  /** The step count is the number of non-thinking items before the cut, or more: more exactly when a
      step is drawn into two cards. */
  lemma StepCountIsExact(group: seq<Item>, live: bool)
    requires group != []
    ensures TurnOf(group, live).stepRowCount >= |StepItems(group)|
    ensures TurnOf(group, live).stepRowCount == |StepItems(group)| <==> OneCardEach(StepItems(group))
  {
    var items := StepItems(group);
    var rows := GroupedRows(items);
    hide GroupedRows;
    hide StepItems;
    hide Contents;
    hide OneCardEach;
    GroupingConserves(items);
    CountStepRowsCountsItems(rows);
    SameSizeSame(multiset(items), multiset(Contents(rows)));
    assert |multiset(items)| == |items| && |multiset(Contents(rows))| == |Contents(rows)|;
  }

  lemma SameSizeSame<T>(a: multiset<T>, b: multiset<T>)
    requires a <= b
    ensures |a| <= |b| && (|a| == |b| <==> a == b)
  {
    assert b == a + (b - a);
  }

  /** A user message opens a group; anything else joins the last one. */
  function Placed(groups: seq<seq<Item>>, item: Item): seq<seq<Item>> {
    if item.UserItem? || groups == [] then groups + [[item]]
    else groups[..|groups| - 1] + [groups[|groups| - 1] + [item]]
  }

  function Groups(items: seq<Item>): (groups: seq<seq<Item>>)
    ensures groups == [] <==> items == []
    ensures forall i :: 0 <= i < |groups| ==> groups[i] != []
  {
    if items == [] then [] else Placed(Groups(items[..|items| - 1]), items[|items| - 1])
  }

  predicate NoLaterMessage(group: seq<Item>) {
    forall j :: 0 < j < |group| ==> !group[j].UserItem?
  }

  /** Only a group's first item may be a user message, and every group but the first starts with one. */
  predicate CutAtMessages(groups: seq<seq<Item>>) {
    forall i :: 0 <= i < |groups| ==>
      NoLaterMessage(groups[i]) && (i > 0 ==> groups[i] != [] && groups[i][0].UserItem?)
  }

  lemma PlacedFlattens(groups: seq<seq<Item>>, item: Item)
    ensures Flatten(Placed(groups, item)) == Flatten(groups) + [item]
  {
    hide Flatten;
    if item.UserItem? || groups == [] {
      FlattenSnoc(groups, [item]);
    } else {
      var before, open := groups[..|groups| - 1], groups[|groups| - 1];
      FlattenSnoc(before, open);
      FlattenSnoc(before, open + [item]);
      assert groups == before + [open];
      assert Flatten(before) + (open + [item]) == Flatten(before) + open + [item];
    }
  }

  lemma PlacedCuts(groups: seq<seq<Item>>, item: Item)
    requires CutAtMessages(groups) && forall i :: 0 <= i < |groups| ==> groups[i] != []
    ensures CutAtMessages(Placed(groups, item))
  {
    if !item.UserItem? && groups != [] {
      var open := groups[|groups| - 1];
      assert NoLaterMessage(open + [item]);
    } else {
      assert NoLaterMessage([item]);
    }
    hide NoLaterMessage;
  }

  /** The groups are the transcript cut right before each user message. */
  lemma {:induction false} GroupsCutTheTranscript(items: seq<Item>)
    ensures Flatten(Groups(items)) == items && CutAtMessages(Groups(items))
  {
    hide Placed;
    hide Flatten;
    hide CutAtMessages;
    if items == [] {
      NoGroups();
    } else {
      var front, last := items[..|items| - 1], items[|items| - 1];
      GroupsCutTheTranscript(front);
      PlacedFlattens(Groups(front), last);
      PlacedCuts(Groups(front), last);
    }
  }

  lemma NoGroups()
    ensures Flatten<Item>([]) == [] && CutAtMessages([])
  {
  }

  function Turns(groups: seq<seq<Item>>, running: bool): (turns: seq<Turn>)
    requires forall i :: 0 <= i < |groups| ==> groups[i] != []
    ensures |turns| == |groups|
    ensures forall i :: 0 <= i < |groups| ==> turns[i] == TurnOf(groups[i], running && i == |groups| - 1)
  {
    seq(|groups|, i requires 0 <= i < |groups| => TurnOf(groups[i], running && i == |groups| - 1))
  }

  /** A turn is live exactly when it is the last and one is running; only the others can be folded. */
  lemma OnlyTheLastIsLive(items: seq<Item>, running: bool, i: nat)
    requires i < |Groups(items)|
    ensures var turns := Turns(Groups(items), running);
            && |turns| == |Groups(items)|
            && (turns[i].live <==> running && i + 1 == |turns|)
            && (turns[i].folded <==> !turns[i].live && AnswerCut(Body(Groups(items)[i])) > 0)
  {
    var groups := Groups(items);
    hide *;
    TurnFoldsWhatIsBefore(groups[i], running && i == |groups| - 1);
  }

  lemma PlaceStep(groups: seq<seq<Item>>, item: Item)
    ensures var grown := if item.UserItem? || groups == [] then groups + [[]] else groups;
            grown[..|grown| - 1] + [grown[|grown| - 1] + [item]] == Placed(groups, item)
  {
    if item.UserItem? || groups == [] {
      assert (groups + [[]])[..|groups|] == groups;
      assert [] + [item] == [item];
    }
  }

  method BuildGroups(items: seq<Item>) returns (groups: seq<seq<Item>>)
    ensures groups == Groups(items)
  {
    groups := [];
    for i := 0 to |items|
      invariant groups == Groups(items[..i])
    {
      assert items[..i + 1][..i] == items[..i];
      PlaceStep(groups, items[i]);
      hide Placed;
      if items[i].UserItem? || |groups| == 0 { groups := groups + [[]]; }
      groups := groups[..|groups| - 1] + [groups[|groups| - 1] + [items[i]]];
    }
    assert items[..|items|] == items;
  }

  method BuildTurns(items: seq<Item>, running: bool) returns (turns: seq<Turn>)
    ensures turns == Turns(Groups(items), running)
  {
    hide TurnOf;
    hide Groups;
    var groups := BuildGroups(items);
    turns := [];
    for i := 0 to |groups|
      invariant |turns| == i
      invariant forall j :: 0 <= j < i ==> turns[j] == TurnOf(groups[j], running && j == |groups| - 1)
    {
      var turn := BuildTurn(groups[i], running && i == |groups| - 1);
      turns := turns + [turn];
    }
  }

  method BuildTurn(group: seq<Item>, live: bool) returns (turn: Turn)
    requires group != []
    ensures turn == TurnOf(group, live)
  {
    hide Filter;
    hide GroupedRows;
    hide Rows;
    hide AnswerCut;
    hide CountStepRows;
    var user := if group[0].UserItem? then Some(group[0]) else None;
    var body := if user.None? then group else group[1..];
    var cut := AnswerStart(body);
    var stepItems := body[..cut];
    var thinking := Filter(IsThinking, stepItems);
    var steps := BuildGroupedRows(Filter(NotThinking, stepItems));
    var answer := BuildRows(body[cut..], Aggregatable);
    turn := Turn(user, thinking, steps, answer, CountStepRows(steps), live, !live && (steps != [] || thinking != []));
  }

  /** Everything the blocks show. */
  function Shown(turns: seq<Turn>): seq<Item> {
    if turns == [] then [] else Shown(turns[..|turns| - 1]) + TurnContents(turns[|turns| - 1])
  }

  ghost predicate NoSharedChildren(groups: seq<seq<Item>>)
    requires forall i :: 0 <= i < |groups| ==> groups[i] != []
  {
    forall i :: 0 <= i < |groups| ==> OneCardEach(StepItems(groups[i]))
  }

  lemma {:induction false} ShownConserves(groups: seq<seq<Item>>, turns: seq<Turn>)
    requires |turns| == |groups|
    requires forall i :: 0 <= i < |groups| ==> groups[i] != [] && turns[i] == TurnOf(groups[i], turns[i].live)
    ensures multiset(Flatten(groups)) <= multiset(Shown(turns))
    ensures multiset(Shown(turns)) == multiset(Flatten(groups)) <==> NoSharedChildren(groups)
  {
    hide *;
    if groups == [] {
      NothingShown(groups, turns);
    } else {
      var n := |groups| - 1;
      ShownConserves(groups[..n], turns[..n]);
      TurnConserves(groups[n], turns[n].live);
      LastShown(groups, turns);
      BothEqual(multiset(Flatten(groups[..n])), multiset(Shown(turns[..n])),
                multiset(groups[n]), multiset(TurnContents(turns[n])));
    }
  }

  lemma NothingShown(groups: seq<seq<Item>>, turns: seq<Turn>)
    requires groups == [] && turns == []
    ensures Flatten(groups) == [] && Shown(turns) == [] && NoSharedChildren(groups)
  {
  }

  lemma LastShown(groups: seq<seq<Item>>, turns: seq<Turn>)
    requires |turns| == |groups| > 0 && forall i :: 0 <= i < |groups| ==> groups[i] != []
    ensures var n := |groups| - 1;
            && Flatten(groups) == Flatten(groups[..n]) + groups[n]
            && Shown(turns) == Shown(turns[..n]) + TurnContents(turns[n])
            && (NoSharedChildren(groups) <==> NoSharedChildren(groups[..n]) && OneCardEach(StepItems(groups[n])))
  {
    hide TurnContents;
    LastShared(groups);
    hide NoSharedChildren;
  }

  lemma LastShared(groups: seq<seq<Item>>)
    requires |groups| > 0 && forall i :: 0 <= i < |groups| ==> groups[i] != []
    ensures var n := |groups| - 1;
            NoSharedChildren(groups) <==> NoSharedChildren(groups[..n]) && OneCardEach(StepItems(groups[n]))
  {
    hide StepItems;
    hide OneCardEach;
    var n := |groups| - 1;
    assert forall i :: 0 <= i < n ==> groups[..n][i] == groups[i];
  }

  lemma BothEqual<T>(a: multiset<T>, more: multiset<T>, b: multiset<T>, moreB: multiset<T>)
    requires a <= more && b <= moreB
    ensures a + b <= more + moreB
    ensures more + moreB == a + b <==> more == a && moreB == b
  {
    if more + moreB == a + b {
      forall x ensures more[x] == a[x] && moreB[x] == b[x] {
        assert (more + moreB)[x] == (a + b)[x];
      }
    }
  }

  /** Turn grouping conserves the transcript: every item is shown, and the blocks together are a
      permutation of the transcript exactly when no step is drawn into two cards. */
  lemma TurnsConserveTranscript(items: seq<Item>, running: bool)
    ensures multiset(items) <= multiset(Shown(Turns(Groups(items), running)))
    ensures multiset(Shown(Turns(Groups(items), running))) == multiset(items) <==> NoSharedChildren(Groups(items))
  {
    hide *;
    GroupsCutTheTranscript(items);
    ShownConserves(Groups(items), Turns(Groups(items), running));
  }

  /** Two cards of one subtask around one of its steps show that step twice. */
  lemma TwoCardsShowTwice(first: Item, step: Item, second: Item)
    requires first.SubtaskItem? && second.SubtaskItem? && step.StepItem?
    requires first.subtaskId == second.subtaskId && step.ofSubtask == Some(first.subtaskId)
    ensures multiset(Contents(GroupedRows([first, step, second])))[step] == 2
  {
    var items, id := [first, step, second], first.subtaskId;
    TwoCards(first, step, second);
    hide *;
    CardsAreAnchored(items, id);
    GroupedCount(items, step);
    OnceIn(first, step, second);
    IsNestedIff(step, Anchors(items));
  }

  lemma IsNestedIff(step: Item, anchors: set<string>)
    requires step.StepItem? && step.ofSubtask.Some?
    ensures IsNested(step, anchors) <==> step.ofSubtask.value in anchors
  {
  }

  lemma OnceIn(first: Item, step: Item, second: Item)
    requires first != step && second != step
    ensures multiset([first, step, second])[step] == 1
  {
  }

  lemma TwoCards(first: Item, step: Item, second: Item)
    requires first.SubtaskItem? && second.SubtaskItem? && step.StepItem? && first.subtaskId == second.subtaskId
    ensures Cards([first, step, second], first.subtaskId) == 2
  {
    hide Filter;
    var items, id := [first, step, second], first.subtaskId;
    assert items[..2] == [first, step] && items[..2][..1] == [first];
    CardsSnoc(items, id);
    CardsSnoc([first, step], id);
    CardsSnoc([first], id);
    FilterNone(CardOf(id), [first][..0]);
  }

  /** Such a list comes out of the fold: a subtask's start, one of its steps, and two ends without a seq. */
  lemma TwoEndsMakeTwoCards(start: Frame, call: Frame, end: Frame)
    requires start.event.SubtaskStarted? && IsDurable(start) && !IsDurable(call) && !IsDurable(end)
    requires call.event.ToolCall? && call.event.ofSubtask == Some(start.event.subtaskId)
    requires end.event.SubtaskFinished? && end.event.subtaskId == start.event.subtaskId
    ensures var items := FoldEvents(INITIAL, [start] + [call] + [end] + [end]).items;
            && |items| == 3 && items[1].StepItem?
            && multiset(Contents(GroupedRows(items)))[items[1]] == 2
  {
    hide *;
    var s1 := FoldEvent(INITIAL, start);
    var s2 := FoldEvent(s1, call);
    var s3 := FoldEvent(s2, end);
    var s4 := FoldEvent(s3, end);
    FoldsFour(start, call, end);
    var id := start.event.subtaskId;
    StartsCard(start);
    AddsStep(s1, call);
    EndsCard(s2, end);
    EndsAgain(s3, end);
    assert s4.items[0] == s4.items[..2][0] && s4.items[1] == s4.items[..2][1];
    TwoCardsShowTwice(s4.items[0], s4.items[1], s4.items[2]);
    assert s4.items == [s4.items[0], s4.items[1], s4.items[2]];
  }

  lemma FoldsFour(start: Frame, call: Frame, end: Frame)
    ensures FoldEvents(INITIAL, [start] + [call] + [end] + [end])
         == FoldEvent(FoldEvent(FoldEvent(FoldEvent(INITIAL, start), call), end), end)
  {
    hide FoldEvent;
    var one, two, three := [start], [start] + [call], [start] + [call] + [end];
    assert one[..0] == [] && two[..1] == one && three[..2] == two && (three + [end])[..3] == three;
    assert FoldEvents(INITIAL, one) == FoldEvent(INITIAL, start);
    assert FoldEvents(INITIAL, two) == FoldEvent(FoldEvents(INITIAL, one), call);
    assert FoldEvents(INITIAL, three) == FoldEvent(FoldEvents(INITIAL, two), end);
  }

  lemma StartsCard(start: Frame)
    requires start.event.SubtaskStarted? && IsDurable(start)
    ensures var items := FoldEvent(INITIAL, start).items;
            |items| == 1 && items[0].SubtaskItem? && items[0].subtaskId == start.event.subtaskId
            && items[0].cardStatus == SubtaskRunning
  {
  }

  lemma AddsStep(s: State, call: Frame)
    requires |s.items| == 1 && s.items[0].SubtaskItem? && call.event.ToolCall? && !IsDurable(call)
    ensures var items := FoldEvent(s, call).items;
            |items| == 2 && items[0] == s.items[0] && items[1].StepItem? && items[1].ofSubtask == call.event.ofSubtask
  {
    assert s.items[..0] == [];
  }

  lemma EndsCard(s: State, end: Frame)
    requires |s.items| == 2 && s.items[0].SubtaskItem? && s.items[1].StepItem?
    requires s.items[0].cardStatus == SubtaskRunning
    requires end.event.SubtaskFinished? && end.event.subtaskId == s.items[0].subtaskId && !IsDurable(end)
    ensures var items := FoldEvent(s, end).items;
            |items| == 2 && items[1] == s.items[1] && items[0].SubtaskItem?
            && items[0].subtaskId == end.event.subtaskId && items[0].cardStatus != SubtaskRunning
  {
    var index := FindLast(s.items, IsRunningCardOf(end.event.subtaskId));
    assert IsRunningCardOf(end.event.subtaskId)(s.items[0]) && !IsRunningCardOf(end.event.subtaskId)(s.items[1]);
    assert index == 0;
  }

  lemma EndsAgain(s: State, end: Frame)
    requires |s.items| == 2 && s.items[0].SubtaskItem? && s.items[1].StepItem?
    requires s.items[0].cardStatus != SubtaskRunning
    requires end.event.SubtaskFinished? && end.event.subtaskId == s.items[0].subtaskId && !IsDurable(end)
    ensures var items := FoldEvent(s, end).items;
            |items| == 3 && items[..2] == s.items && items[2].SubtaskItem? && items[2].subtaskId == end.event.subtaskId
  {
    var index := FindLast(s.items, IsRunningCardOf(end.event.subtaskId));
    assert index == -1;
  }
}
