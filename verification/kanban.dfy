/** The kanban board: columns of items, and the drag-and-drop move of one item
    from its column to another. */
module Kanban {
  import opened Js
  import opened Seqs

  datatype Priority = Low | Medium | High | Critical

  datatype KanbanItem = KanbanItem(
    id: Id, title: string, description: string, status: string, priority: Priority,
    assignee: Option<string>, dueDate: Option<string>)

  datatype Column = Column(id: string, title: string, items: seq<KanbanItem>)

  /** The board a `KanbanBoard` starts with when it is given no columns. */
  const DefaultColumns: seq<Column> := [
    Column("new", "New", []),
    Column("in-progress", "In Progress", []),
    Column("blocked", "Blocked", []),
    Column("resolved", "Resolved", [])
  ]

  /** `item => item.id !== id` */
  function ItemIsNot(id: Id): KanbanItem -> bool {
    (item: KanbanItem) => item.id != id
  }

  // ---------------------------------------------------------------------------
  // The column rewrite of a drop

  /** What the drop does to one column: the source column loses every item with
      the dragged id; otherwise the target column gets the item, with its status
      set to the target id, at its end; any other column is returned as it is. */
  function DropColumn(column: Column, item: KanbanItem, source: string, target: string): Column {
    if column.id == source then column.(items := Filter(column.items, ItemIsNot(item.id)))
    else if column.id == target then column.(items := column.items + [item.(status := target)])
    else column
  }

  /** `columns.map(...)` of `handleDrop`. */
  function DropColumns(columns: seq<Column>, item: KanbanItem, source: string, target: string): (r: seq<Column>)
    ensures |r| == |columns|
    ensures forall i :: 0 <= i < |columns| ==> r[i] == DropColumn(columns[i], item, source, target)
  {
    seq(|columns|, i requires 0 <= i < |columns| => DropColumn(columns[i], item, source, target))
  }

  /** The drop keeps the number of columns, their ids, titles and order; it
      changes no column other than the source and the target. */
  lemma DropKeepsColumns(columns: seq<Column>, item: KanbanItem, source: string, target: string)
    ensures var r := DropColumns(columns, item, source, target);
      && |r| == |columns|
      && (forall i :: 0 <= i < |r| ==> r[i].id == columns[i].id && r[i].title == columns[i].title)
      && (forall i :: 0 <= i < |r| && columns[i].id != source && columns[i].id != target ==> r[i] == columns[i])
  {
  }

  /** After the drop no source column holds an item with the dragged id. */
  lemma SourceLosesItem(columns: seq<Column>, item: KanbanItem, source: string, target: string)
    ensures var r := DropColumns(columns, item, source, target);
      forall i, k :: 0 <= i < |r| && r[i].id == source && 0 <= k < |r[i].items| ==> r[i].items[k].id != item.id
  {
    var r := DropColumns(columns, item, source, target);
    forall i, k | 0 <= i < |r| && r[i].id == source && 0 <= k < |r[i].items|
      ensures r[i].items[k].id != item.id
    {
      assert r[i].items == Filter(columns[i].items, ItemIsNot(item.id));
      assert ItemIsNot(item.id)(r[i].items[k]);
    }
  }

  /** The target column (when it is not the source) ends with the dragged item,
      whose status is now the target id and whose other fields are unchanged; the
      items before it are the column's old items. */
  lemma TargetGainsItem(columns: seq<Column>, item: KanbanItem, source: string, target: string)
    requires source != target
    ensures var r := DropColumns(columns, item, source, target);
      forall i :: 0 <= i < |r| && columns[i].id == target ==>
        && |r[i].items| == |columns[i].items| + 1
        && r[i].items[..|columns[i].items|] == columns[i].items
        && r[i].items[|r[i].items| - 1] == item.(status := target)
        && r[i].items[|r[i].items| - 1].status == target
  {
    var r := DropColumns(columns, item, source, target);
    forall i | 0 <= i < |r| && columns[i].id == target
      ensures r[i].items[..|columns[i].items|] == columns[i].items
    {
      assert r[i].items == columns[i].items + [item.(status := target)];
    }
  }

  // ---------------------------------------------------------------------------
  // Counting items

  /** How many items of `items` have the id `x`. */
  function Count(items: seq<KanbanItem>, x: Id): nat
    decreases |items|
  {
    if items == [] then 0 else (if items[0].id == x then 1 else 0) + Count(items[1..], x)
  }

  /** How many items of the whole board have the id `x`. */
  function Occurrences(columns: seq<Column>, x: Id): nat
    decreases |columns|
  {
    if columns == [] then 0 else Count(columns[0].items, x) + Occurrences(columns[1..], x)
  }

  /** The number of items on the board. */
  function Total(columns: seq<Column>): nat
    decreases |columns|
  {
    if columns == [] then 0 else |columns[0].items| + Total(columns[1..])
  }

  /** How many items with id `x` the columns named `source` hold. */
  function SourceCount(columns: seq<Column>, source: string, x: Id): nat
    decreases |columns|
  {
    if columns == [] then 0
    else (if columns[0].id == source then Count(columns[0].items, x) else 0) + SourceCount(columns[1..], source, x)
  }

  /** How many columns are named `name`. */
  function ColumnsNamed(columns: seq<Column>, name: string): nat
    decreases |columns|
  {
    if columns == [] then 0 else (if columns[0].id == name then 1 else 0) + ColumnsNamed(columns[1..], name)
  }

  /** Each item id is in at most one place on the board. */
  ghost predicate UniqueIds(columns: seq<Column>) {
    forall x :: Occurrences(columns, x) <= 1
  }

  ghost predicate DistinctColumnIds(columns: seq<Column>) {
    forall i, j :: 0 <= i < j < |columns| ==> columns[i].id != columns[j].id
  }

  lemma {:induction false} CountAppend(items: seq<KanbanItem>, extra: KanbanItem, x: Id)
    ensures Count(items + [extra], x) == Count(items, x) + (if extra.id == x then 1 else 0)
    decreases |items|
  {
    if items == [] {
      assert [extra][1..] == [];
    } else {
      assert (items + [extra])[1..] == items[1..] + [extra];
      CountAppend(items[1..], extra, x);
    }
  }

  /** Filtering out the id `id` removes exactly its items. */
  lemma {:induction false} CountWithout(items: seq<KanbanItem>, id: Id, x: Id)
    ensures Count(Filter(items, ItemIsNot(id)), x) == if x == id then 0 else Count(items, x)
    ensures |Filter(items, ItemIsNot(id))| + Count(items, id) == |items|
    decreases |items|
  {
    if items != [] {
      CountWithout(items[1..], id, x);
      var rest := Filter(items[1..], ItemIsNot(id));
      if items[0].id != id {
        assert Filter(items, ItemIsNot(id)) == [items[0]] + rest;
        assert ([items[0]] + rest)[1..] == rest;
      }
    }
  }

  /** The counting identity behind the partition invariant: what the drop takes
      out of the source columns and what it puts into target columns. */
  lemma {:induction false} DropCounts(columns: seq<Column>, item: KanbanItem, source: string, target: string, x: Id)
    requires source != target
    ensures var r := DropColumns(columns, item, source, target);
      && Occurrences(r, x) + (if x == item.id then SourceCount(columns, source, x) else 0)
         == Occurrences(columns, x) + (if x == item.id then ColumnsNamed(columns, target) else 0)
      && Total(r) + SourceCount(columns, source, item.id) == Total(columns) + ColumnsNamed(columns, target)
    decreases |columns|
  {
    if columns != [] {
      var r := DropColumns(columns, item, source, target);
      var c := columns[0];
      DropCounts(columns[1..], item, source, target, x);
      assert r[1..] == DropColumns(columns[1..], item, source, target);
      if c.id == source {
        CountWithout(c.items, item.id, x);
      } else if c.id == target {
        CountAppend(c.items, item.(status := target), x);
      }
    }
  }

  lemma {:induction false} SourceCountBelow(columns: seq<Column>, source: string, x: Id)
    ensures SourceCount(columns, source, x) <= Occurrences(columns, x)
    decreases |columns|
  {
    if columns != [] {
      SourceCountBelow(columns[1..], source, x);
    }
  }

  lemma {:induction false} CountMember(items: seq<KanbanItem>, item: KanbanItem)
    requires item in items
    ensures Count(items, item.id) >= 1
    decreases |items|
  {
    if items[0] != item {
      CountMember(items[1..], item);
    }
  }

  lemma {:induction false} SourceCountMember(columns: seq<Column>, source: string, s: nat, item: KanbanItem)
    requires s < |columns| && columns[s].id == source && item in columns[s].items
    ensures SourceCount(columns, source, item.id) >= 1
    decreases |columns|
  {
    if s == 0 {
      CountMember(columns[0].items, item);
    } else {
      SourceCountMember(columns[1..], source, s - 1, item);
    }
  }

  lemma {:induction false} ColumnsNamedOne(columns: seq<Column>, t: nat)
    requires DistinctColumnIds(columns) && t < |columns|
    ensures ColumnsNamed(columns, columns[t].id) == 1
    decreases |columns|
  {
    var name := columns[t].id;
    if t == 0 {
      ColumnsNamedNone(columns[1..], name);
    } else {
      ColumnsNamedOne(columns[1..], t - 1);
    }
  }

  lemma {:induction false} ColumnsNamedNone(columns: seq<Column>, name: string)
    requires forall i :: 0 <= i < |columns| ==> columns[i].id != name
    ensures ColumnsNamed(columns, name) == 0
    decreases |columns|
  {
    if columns != [] {
      ColumnsNamedNone(columns[1..], name);
    }
  }

  /** The partition invariant: when every item id is in one place, the dragged
      item sits in the source column and the target names exactly one other
      column, the drop keeps every id in one place, keeps the dragged item on the
      board once, leaves every other id's count alone and keeps the item total. */
  lemma DropKeepsPartition(columns: seq<Column>, item: KanbanItem, source: string, target: string, s: nat, t: nat)
    requires UniqueIds(columns) && DistinctColumnIds(columns)
    requires s < |columns| && columns[s].id == source && item in columns[s].items
    requires t < |columns| && columns[t].id == target
    requires source != target
    ensures var r := DropColumns(columns, item, source, target);
      && UniqueIds(r)
      && Occurrences(r, item.id) == 1
      && (forall x :: x != item.id ==> Occurrences(r, x) == Occurrences(columns, x))
      && Total(r) == Total(columns)
  {
    var r := DropColumns(columns, item, source, target);
    ColumnsNamedOne(columns, t);
    SourceCountMember(columns, source, s, item);
    SourceCountBelow(columns, source, item.id);
    assert Occurrences(columns, item.id) <= 1;
    forall x ensures Occurrences(r, x) == if x == item.id then 1 else Occurrences(columns, x) {
      DropCounts(columns, item, source, target, x);
    }
    DropCounts(columns, item, source, target, item.id);
  }

  /** With a target id that names no column, the drop takes the item off the board. */
  lemma UnknownTargetLosesItem(columns: seq<Column>, item: KanbanItem, source: string, target: string, s: nat)
    requires UniqueIds(columns)
    requires s < |columns| && columns[s].id == source && item in columns[s].items
    requires source != target
    requires forall i :: 0 <= i < |columns| ==> columns[i].id != target
    ensures Occurrences(DropColumns(columns, item, source, target), item.id) == 0
  {
    ColumnsNamedNone(columns, target);
    SourceCountMember(columns, source, s, item);
    SourceCountBelow(columns, source, item.id);
    assert Occurrences(columns, item.id) <= 1;
    DropCounts(columns, item, source, target, item.id);
  }

  // ---------------------------------------------------------------------------
  // The component state

  /** The `onItemMove(itemId, fromColumn, toColumn)` call a drop makes. */
  datatype Move = Move(itemId: Id, fromColumn: string, toColumn: string)

  class KanbanBoard {
    var columns: seq<Column>
    var draggedItem: Option<KanbanItem>
    var sourceColumn: string

    /** `initialColumns` when the parent passes them, otherwise the four default columns. */
    constructor (initialColumns: Option<seq<Column>>)
      ensures initialColumns.Some? ==> columns == initialColumns.value
      ensures initialColumns.None? ==> columns == DefaultColumns
      ensures draggedItem == None && sourceColumn == ""
    {
      columns := if initialColumns.Some? then initialColumns.value else DefaultColumns;
      draggedItem := None;
      sourceColumn := "";
    }

    /** `handleDragStart(item, columnId)`: remembers the item and where it came from. */
    method HandleDragStart(item: KanbanItem, columnId: string)
      modifies this
      ensures draggedItem == Some(item) && sourceColumn == columnId && columns == old(columns)
    {
      draggedItem := Some(item);
      sourceColumn := columnId;
    }

    /** `handleDrop(e, columnId)`; `hasCallback` says whether `onItemMove` was
        given, and the result is the call made to it, if any. */
    method HandleDrop(columnId: string, hasCallback: bool) returns (call: Option<Move>)
      modifies this
      ensures old(draggedItem).None? || old(sourceColumn) == columnId ==>
        call.None? && columns == old(columns) && draggedItem == old(draggedItem) && sourceColumn == old(sourceColumn)
      ensures old(draggedItem).Some? && old(sourceColumn) != columnId ==>
        && columns == DropColumns(old(columns), old(draggedItem).value, old(sourceColumn), columnId)
        && draggedItem == None && sourceColumn == ""
        && call == if hasCallback then Some(Move(old(draggedItem).value.id, old(sourceColumn), columnId)) else None
    {
      call := None;
      if draggedItem.None? { return; }
      if sourceColumn == columnId { return; }
      var item := draggedItem.value;
      columns := DropColumns(columns, item, sourceColumn, columnId);
      if hasCallback {
        call := Some(Move(item.id, sourceColumn, columnId));
      }
      draggedItem := None;
      sourceColumn := "";
    }
  }

  // ---------------------------------------------------------------------------
  // Priority colours

  /** `getPriorityColor(priority)`. */
  function GetPriorityColor(priority: string): string {
    match priority
    case "low" => "bg-blue-100 text-blue-800"
    case "medium" => "bg-amber-100 text-amber-800"
    case "high" => "bg-orange-100 text-orange-800"
    case "critical" => "bg-red-100 text-red-800"
    case _ => "bg-gray-100 text-gray-800"
  }

  /** The four priorities get four different colours, and every other string the
      gray default, which none of them shares. */
  lemma PriorityColorTotal(p: string)
    ensures p != "low" && p != "medium" && p != "high" && p != "critical" ==>
              GetPriorityColor(p) == "bg-gray-100 text-gray-800"
    ensures (p == "low" || p == "medium" || p == "high" || p == "critical") ==>
              GetPriorityColor(p) != "bg-gray-100 text-gray-800"
    ensures GetPriorityColor("low") != GetPriorityColor("medium") && GetPriorityColor("low") != GetPriorityColor("high")
         && GetPriorityColor("low") != GetPriorityColor("critical") && GetPriorityColor("medium") != GetPriorityColor("high")
         && GetPriorityColor("medium") != GetPriorityColor("critical") && GetPriorityColor("high") != GetPriorityColor("critical")
  {
  }
}
