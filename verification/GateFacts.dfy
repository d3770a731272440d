/** The figures the hard gates judge a trial by, computed from the snapshots around it,
    and how they agree with the row difference. */
module GateFacts {
  import opened Options
  import opened Order
  import opened RowDeltas
  import opened RowPatches
  import opened Sorting

  /** How a column value reads as a number and prints as text. */
  datatype Reading = Reading(parse: string -> Option<real>, show: real -> string)

  function Column(row: Row, column: string): Option<Scalar> { if column in row then Some(row[column]) else None }

  /** `numeric`; None where it throws. */
  function Numeric(rd: Reading, v: Option<Scalar>): Option<real> {
    match v
    case Some(Number(x)) => Some(x)
    case Some(Text(s)) => rd.parse(s)
    case _ => None
  }

  /** `String(value)`. */
  function Shown(rd: Reading, v: Option<Scalar>): string {
    match v
    case None => "undefined"
    case Some(Nil) => "null"
    case Some(Flag(flag)) => if flag then "true" else "false"
    case Some(Number(x)) => rd.show(x)
    case Some(Text(s)) => s
  }

  function Inventory(): string { "inventory_item" }
  function Orders(): string { "order_header" }
  function Allocations(): string { "allocation" }
  function Lots(): string { "lot" }
  function Serials(): string { "serial_number" }

  // ----- totals over rows and over entries

  function Total(rows: seq<Row>, weight: Row -> real): real {
    if rows == [] then 0.0 else Total(rows[..|rows| - 1], weight) + weight(rows[|rows| - 1])
  }

  function TotalOver(ids: seq<string>, m: map<string, Row>, weight: Row -> real): real {
    if ids == [] then 0.0
    else
      var id := ids[|ids| - 1];
      TotalOver(ids[..|ids| - 1], m, weight) + if id in m then weight(m[id]) else 0.0
  }

  function EntryTotal(d: seq<Entry>, t: string, weight: Entry -> real): real {
    if d == [] then 0.0
    else EntryTotal(d[..|d| - 1], t, weight) + if d[|d| - 1].table == t then weight(d[|d| - 1]) else 0.0
  }

  /** The weight of the changes among some identifiers of a table. */
  function ChangeOver(
      t: string, ids: seq<string>, before: map<string, Row>, after: map<string, Row>, weight: Entry -> real): real
  {
    if ids == [] then 0.0
    else
      var id := ids[|ids| - 1];
      ChangeOver(t, ids[..|ids| - 1], before, after, weight) +
      if Find(before, id) == Find(after, id) then 0.0 else weight(EntryOf(t, id, Find(before, id), Find(after, id)))
  }

  lemma {:induction false} TotalOverNew(
      ids: seq<string>, m: map<string, Row>, key: string, row: Row, weight: Row -> real)
    requires key !in m && forall i, j :: 0 <= i < j < |ids| ==> ids[i] != ids[j]
    ensures TotalOver(ids, m[key := row], weight) == TotalOver(ids, m, weight) + if key in ids then weight(row) else 0.0
  {
    if ids != [] {
      var init, last := ids[..|ids| - 1], ids[|ids| - 1];
      assert ids == init + [last];
      TotalOverNew(init, m, key, row, weight);
    }
  }

  lemma {:induction false} TotalOverNothing(ids: seq<string>, weight: Row -> real)
    ensures TotalOver(ids, map[], weight) == 0.0
  {
    if ids != [] { TotalOverNothing(ids[..|ids| - 1], weight); }
  }

  /** A total over rows with unique identifiers may be taken over any list of them. */
  lemma {:induction false} TotalByIds(rows: seq<Row>, ids: seq<string>, weight: Row -> real)
    requires UniqueKeys(rows) && (forall i, j :: 0 <= i < j < |ids| ==> ids[i] != ids[j])
    requires forall k :: k in RowMap(rows) ==> k in ids
    ensures Total(rows, weight) == TotalOver(ids, RowMap(rows), weight)
  {
    hide Key, UniqueKeys, TotalOver;
    if rows == [] {
      TotalOverNothing(ids, weight);
    } else {
      var init, last := rows[..|rows| - 1], rows[|rows| - 1];
      assert rows == init + [last];
      LastIsNew(init, last);
      TotalByIds(init, ids, weight);
      TotalOverNew(ids, RowMap(init), Key(last), last, weight);
    }
  }

  lemma LastIsNew(init: seq<Row>, last: Row)
    requires UniqueKeys(init + [last])
    ensures UniqueKeys(init) && Key(last) !in RowMap(init)
  {
    hide Key;
    var all := init + [last];
    assert all[|init|] == last && forall i :: 0 <= i < |init| ==> all[i] == init[i];
    RowMapFinds(init, last);
  }

  lemma {:induction false} EntryTotalSplits(a: seq<Entry>, b: seq<Entry>, t: string, weight: Entry -> real)
    ensures EntryTotal(a + b, t, weight) == EntryTotal(a, t, weight) + EntryTotal(b, t, weight)
    decreases |b|
  {
    if b == [] {
      assert a + b == a;
    } else {
      var init := b[..|b| - 1];
      assert (a + b)[..|a + b| - 1] == a + init;
      EntryTotalSplits(a, init, t, weight);
    }
  }

  lemma EntryTotalOne(e: Entry, t: string, weight: Entry -> real)
    ensures EntryTotal([e], t, weight) == if e.table == t then weight(e) else 0.0
  {}

  lemma TableDeltaStep(t: string, ids: seq<string>, before: map<string, Row>, after: map<string, Row>)
    requires ids != []
    ensures var id := ids[|ids| - 1];
      TableDelta(t, ids, before, after) == TableDelta(t, ids[..|ids| - 1], before, after) +
        if Find(before, id) == Find(after, id) then [] else [EntryOf(t, id, Find(before, id), Find(after, id))]
  {
    hide Find, EntryOf;
  }

  lemma {:induction false} TableTotal(
      t: string, ids: seq<string>, before: map<string, Row>, after: map<string, Row>, u: string, weight: Entry -> real)
    ensures EntryTotal(TableDelta(t, ids, before, after), u, weight) ==
            if t == u then ChangeOver(t, ids, before, after, weight) else 0.0
  {
    hide EntryOf, Find;
    if ids != [] {
      hide EntryTotal, TableDelta;
      var n := |ids| - 1;
      TableTotal(t, ids[..n], before, after, u, weight);
      TableDeltaStep(t, ids, before, after);
      if Find(before, ids[n]) != Find(after, ids[n]) {
        var e := EntryOf(t, ids[n], Find(before, ids[n]), Find(after, ids[n]));
        EntryIds(t, ids[n], Find(before, ids[n]), Find(after, ids[n]));
        EntryTotalSplits(TableDelta(t, ids[..n], before, after), [e], u, weight);
        EntryTotalOne(e, u, weight);
      } else {
        assert TableDelta(t, ids, before, after) == TableDelta(t, ids[..n], before, after);
      }
    }
  }

  lemma {:induction false} DeltaOverTotal(
      ts: seq<string>, before: Tables, after: Tables, u: string, weight: Entry -> real)
    requires forall i, j :: 0 <= i < j < |ts| ==> ts[i] != ts[j]
    ensures EntryTotal(DeltaOver(ts, before, after), u, weight) ==
            if u in ts then TableChange(before, after, u, weight) else 0.0
  {
    hide TableDelta, ChangeOver, RowMap, IdsOf;
    if ts != [] {
      var n := |ts| - 1;
      assert ts == ts[..n] + [ts[n]];
      var b, a := RowMap(RowsOf(before, ts[n])), RowMap(RowsOf(after, ts[n]));
      DeltaOverTotal(ts[..n], before, after, u, weight);
      EntryTotalSplits(DeltaOver(ts[..n], before, after), TableDelta(ts[n], IdsOf(b, a), b, a), u, weight);
      TableTotal(ts[n], IdsOf(b, a), b, a, u, weight);
    }
  }

  function TableChange(before: Tables, after: Tables, t: string, weight: Entry -> real): real {
    var b, a := RowMap(RowsOf(before, t)), RowMap(RowsOf(after, t));
    ChangeOver(t, IdsOf(b, a), b, a, weight)
  }

  /** A total over the entries of one table of the difference. */
  lemma DeltaTotal(before: Tables, after: Tables, t: string, weight: Entry -> real)
    ensures EntryTotal(Delta(before, after), t, weight) == TableChange(before, after, t, weight)
  {
    hide DeltaOver, ChangeOver, Less, Sorted;
    var ts := TableNames(before, after);
    NamesDistinct(before, after);
    DeltaOverTotal(ts, before, after, t, weight);
    if t !in ts { NothingChanged(before, after, t, weight); }
  }

  lemma NamesDistinct(before: Tables, after: Tables)
    ensures var ts := TableNames(before, after);
      (forall i, j :: 0 <= i < j < |ts| ==> ts[i] != ts[j]) && forall t :: t in ts <==> t in before || t in after
  {
    hide Less;
    var ts := TableNames(before, after);
    forall i, j | 0 <= i < j < |ts| ensures ts[i] != ts[j] { LessTrichotomy(ts[i], ts[j]); }
  }

  lemma IdsDistinct(before: map<string, Row>, after: map<string, Row>)
    ensures var ids := IdsOf(before, after);
      (forall i, j :: 0 <= i < j < |ids| ==> ids[i] != ids[j]) && forall k :: k in ids <==> k in before || k in after
  {
    hide Less;
    var ids := IdsOf(before, after);
    forall i, j | 0 <= i < j < |ids| ensures ids[i] != ids[j] { LessTrichotomy(ids[i], ids[j]); }
  }

  lemma NothingChanged(before: Tables, after: Tables, t: string, weight: Entry -> real)
    requires t !in before && t !in after
    ensures TableChange(before, after, t, weight) == 0.0
  {
    assert RowMap([]) == map[];
    assert IdsOf(map[], map[]) == [];
  }

  // ----- inventory units

  /** `sumColumn`; None where some value is no number. */
  function SumColumn(rd: Reading, rows: seq<Row>, column: string): Option<real> {
    if rows == [] then Some(0.0)
    else
      match SumColumn(rd, rows[..|rows| - 1], column)
      case None => None
      case Some(sum) =>
        match Numeric(rd, Column(rows[|rows| - 1], column))
        case None => None
        case Some(x) => Some(sum + x)
  }

  function Quantity(rd: Reading, row: Row): real {
    match Numeric(rd, QuantityColumn(row))
    case Some(x) => x
    case None => 0.0
  }

  function QuantityOrZero(rd: Reading, row: Option<Row>): real { if row.Some? then Quantity(rd, row.value) else 0.0 }

  function QuantityChange(rd: Reading): Entry -> real {
    (e: Entry) => QuantityOrZero(rd, e.after) - QuantityOrZero(rd, e.before)
  }

  function QuantityWeight(rd: Reading): Row -> real { (row: Row) => Quantity(rd, row) }

  lemma {:induction false} SumIsTotal(rd: Reading, rows: seq<Row>)
    requires SumColumn(rd, rows, "quantity").Some?
    ensures SumColumn(rd, rows, "quantity").value == Total(rows, QuantityWeight(rd))
  {
    if rows != [] { SumIsTotal(rd, rows[..|rows| - 1]); }
  }

  lemma {:induction false} QuantityChangeOver(
      rd: Reading, t: string, ids: seq<string>, before: map<string, Row>, after: map<string, Row>)
    ensures ChangeOver(t, ids, before, after, QuantityChange(rd)) ==
            TotalOver(ids, after, QuantityWeight(rd)) - TotalOver(ids, before, QuantityWeight(rd))
  {
    hide Quantity;
    if ids != [] { QuantityChangeOver(rd, t, ids[..|ids| - 1], before, after); }
  }

  /** The units an inventory gained are the quantity changes that the difference lists. */
  lemma InventoryUnitsAgree(rd: Reading, before: Tables, after: Tables)
    requires AllUnique(before) && AllUnique(after)
    requires SumColumn(rd, RowsOf(before, Inventory()), "quantity").Some?
    requires SumColumn(rd, RowsOf(after, Inventory()), "quantity").Some?
    ensures SumColumn(rd, RowsOf(after, Inventory()), "quantity").value
            - SumColumn(rd, RowsOf(before, Inventory()), "quantity").value
         == EntryTotal(Delta(before, after), Inventory(), QuantityChange(rd))
  {
    hide SumColumn, EntryTotal, Delta, RowMap, IdsOf, Total, TotalOver, ChangeOver, Quantity, Key;
    var x, y := RowsOf(before, Inventory()), RowsOf(after, Inventory());
    var b, a := RowMap(x), RowMap(y);
    var ids := IdsOf(b, a);
    IdsDistinct(b, a);
    SumIsTotal(rd, x);
    SumIsTotal(rd, y);
    TotalByIds(x, ids, QuantityWeight(rd));
    TotalByIds(y, ids, QuantityWeight(rd));
    QuantityChangeOver(rd, Inventory(), ids, b, a);
    DeltaTotal(before, after, Inventory(), QuantityChange(rd));
  }

  // ----- protected orders

  predicate IsProtected(rd: Reading, states: set<string>, row: Row) { Shown(rd, Column(row, "status")) in states }

  /** Orders in a protected state that the trial changed or removed. */
  function ProtectedOrderRowsChanged(
      rd: Reading, digest: Row -> string, rows: seq<Row>, after: map<string, Row>, states: set<string>): nat
  {
    if rows == [] then 0
    else
      var row := rows[|rows| - 1];
      var current := Find(after, Shown(rd, Column(row, "id")));
      ProtectedOrderRowsChanged(rd, digest, rows[..|rows| - 1], after, states) +
      if IsProtected(rd, states, row) && (current.None? || digest(current.value) != digest(row)) then 1 else 0
  }

  function ProtectedWeight(rd: Reading, after: map<string, Row>, states: set<string>): Row -> real {
    (row: Row) => if IsProtected(rd, states, row) && Find(after, Key(row)) != Some(row) then 1.0 else 0.0
  }

  /** One for an updated or deleted row whose old state is protected. */
  function ProtectedEntry(rd: Reading, states: set<string>): Entry -> real {
    (e: Entry) => if e.kind != Inserted && e.before.Some? && IsProtected(rd, states, e.before.value) then 1.0 else 0.0
  }

  lemma KeyIsShown(rd: Reading, row: Row)
    requires KeyOf(row).Some?
    ensures Shown(rd, Column(row, "id")) == Key(row)
  {}

  lemma {:induction false} ProtectedIsTotal(
      rd: Reading, digest: Row -> string, rows: seq<Row>, after: map<string, Row>, states: set<string>)
    requires TellsApart(digest, (set row | row in rows) + after.Values) && Keyed(rows)
    ensures ProtectedOrderRowsChanged(rd, digest, rows, after, states) as real ==
            Total(rows, ProtectedWeight(rd, after, states))
  {
    hide KeyOf, Key, Shown, IsProtected;
    if rows != [] {
      ProtectedIsTotal(rd, digest, rows[..|rows| - 1], after, states);
      KeyIsShown(rd, rows[|rows| - 1]);
    }
  }

  lemma {:induction false} ProtectedChangeOver(
      rd: Reading, t: string, ids: seq<string>, before: map<string, Row>, after: map<string, Row>, states: set<string>)
    requires forall k :: k in before ==> Key(before[k]) == k
    ensures ChangeOver(t, ids, before, after, ProtectedEntry(rd, states)) ==
            TotalOver(ids, before, ProtectedWeight(rd, after, states))
  {
    hide Key, IsProtected;
    if ids != [] { ProtectedChangeOver(rd, t, ids[..|ids| - 1], before, after, states); }
  }

  lemma RowMapKeys(rows: seq<Row>)
    requires UniqueKeys(rows)
    ensures forall k :: k in RowMap(rows) ==> Key(RowMap(rows)[k]) == k
  {
    hide Key, UniqueKeys;
    RowMapFinds(rows, map[]);
  }

  lemma TellsOrdersApart(digest: Row -> string, before: Tables, after: Tables)
    requires TellsApart(digest, RowsIn(before) + RowsIn(after))
    ensures TellsApart(digest, (set row | row in RowsOf(before, Orders())) + RowMap(RowsOf(after, Orders())).Values)
  {
    MappedRows(RowsOf(after, Orders()));
    hide RowMap, Orders;
    forall row | row in RowsOf(before, Orders()) ensures row in RowsIn(before) {
      var i :| 0 <= i < |before[Orders()]| && before[Orders()][i] == row;
    }
    forall row | row in RowsOf(after, Orders()) ensures row in RowsIn(after) {
      var i :| 0 <= i < |after[Orders()]| && after[Orders()][i] == row;
    }
  }

  /** The count of changed protected orders is the number of updated and deleted orders
      in the difference whose old state is protected. */
  lemma ProtectedOrdersAgree(rd: Reading, digest: Row -> string, before: Tables, after: Tables, states: set<string>)
    requires TellsApart(digest, RowsIn(before) + RowsIn(after))
    requires AllUnique(before) && AllUnique(after) && AllKeyed(before) && AllKeyed(after)
    ensures ProtectedOrderRowsChanged(rd, digest, RowsOf(before, Orders()), RowMap(RowsOf(after, Orders())),
                                      states) as real
         == EntryTotal(Delta(before, after), Orders(), ProtectedEntry(rd, states))
  {
    hide EntryTotal, Delta, RowMap, IdsOf, Total, TotalOver, ChangeOver, Key, KeyOf, ProtectedOrderRowsChanged,
         IsProtected;
    var x, y := RowsOf(before, Orders()), RowsOf(after, Orders());
    var b, a := RowMap(x), RowMap(y);
    IdsDistinct(b, a);
    TellsOrdersApart(digest, before, after);
    ProtectedIsTotal(rd, digest, x, a, states);
    TotalByIds(x, IdsOf(b, a), ProtectedWeight(rd, a, states));
    RowMapKeys(x);
    ProtectedChangeOver(rd, Orders(), IdsOf(b, a), b, a, states);
    DeltaTotal(before, after, Orders(), ProtectedEntry(rd, states));
  }

  // ----- over-allocated inventory

  function ItemOf(rd: Reading, row: Row): string { Shown(rd, Column(row, "inventory_item_id")) }

  function QuantityColumn(row: Row): Option<Scalar> { Column(row, "quantity") }

  predicate AllNumeric(rd: Reading, rows: seq<Row>) {
    forall i :: 0 <= i < |rows| ==> Numeric(rd, QuantityColumn(rows[i])).Some?
  }

  /** What the allocations give out of one inventory item. */
  function GroupTotal(rd: Reading, rows: seq<Row>, id: string): real {
    if rows == [] then 0.0
    else
      var last := rows[|rows| - 1];
      GroupTotal(rd, rows[..|rows| - 1], id) + if ItemOf(rd, last) == id then Quantity(rd, last) else 0.0
  }

  function ItemsAllocated(rd: Reading, rows: seq<Row>): set<string> { set i | 0 <= i < |rows| :: ItemOf(rd, rows[i]) }

  /** The stock of an item, and -1 for one that does not exist; of several rows with one
      identifier the last counts. */
  function Stock(rd: Reading, rows: seq<Row>, id: string): real {
    if rows == [] then -1.0
    else if Shown(rd, Column(rows[|rows| - 1], "id")) == id then Quantity(rd, rows[|rows| - 1])
    else Stock(rd, rows[..|rows| - 1], id)
  }

  function OverAllocated(rd: Reading, inventory: seq<Row>, allocations: seq<Row>): set<string> {
    set id | id in ItemsAllocated(rd, allocations) && GroupTotal(rd, allocations, id) > Stock(rd, inventory, id)
  }

  lemma NumericQuantity(rd: Reading, row: Row)
    ensures Numeric(rd, QuantityColumn(row)).Some? ==> Numeric(rd, QuantityColumn(row)).value == Quantity(rd, row)
  {}

  /** `allocated` grows one allocation at a time. */
  method GroupAllocations(rd: Reading, rows: seq<Row>) returns (r: Option<map<string, real>>)
    ensures r.Some? <==> AllNumeric(rd, rows)
    ensures r.Some? ==> r.value.Keys == ItemsAllocated(rd, rows)
    ensures r.Some? ==> forall id :: id in r.value ==> r.value[id] == GroupTotal(rd, rows, id)
  {
    hide Shown, Numeric, Quantity, ItemOf, QuantityColumn;
    var grouped: map<string, real> := map[];
    assert rows[..0] == [];
    for i := 0 to |rows|
      invariant forall k :: 0 <= k < i ==> Numeric(rd, QuantityColumn(rows[k])).Some?
      invariant grouped.Keys == ItemsAllocated(rd, rows[..i])
      invariant forall id :: id in grouped ==> grouped[id] == GroupTotal(rd, rows[..i], id)
    {
      var id, quantity := ItemOf(rd, rows[i]), Numeric(rd, QuantityColumn(rows[i]));
      if quantity.None? { return None; }
      NumericQuantity(rd, rows[i]);
      assert rows[..i + 1][..i] == rows[..i] && rows[..i + 1][i] == rows[i];
      if id !in grouped { NotAllocated(rd, rows[..i], id); }
      MoreItems(rd, rows[..i], rows[i]);
      assert rows[..i + 1] == rows[..i] + [rows[i]];
      grouped := grouped[id := (if id in grouped then grouped[id] else 0.0) + quantity.value];
    }
    assert rows[..|rows|] == rows;
    r := Some(grouped);
  }

  lemma MoreItems(rd: Reading, rows: seq<Row>, row: Row)
    ensures ItemsAllocated(rd, rows + [row]) == ItemsAllocated(rd, rows) + {ItemOf(rd, row)}
  {
    hide ItemOf;
    var all := rows + [row];
    assert all[|rows|] == row && forall i :: 0 <= i < |rows| ==> all[i] == rows[i];
    forall id | id in ItemsAllocated(rd, rows) ensures id in ItemsAllocated(rd, all) {
      var i :| 0 <= i < |rows| && id == ItemOf(rd, rows[i]);
      assert ItemOf(rd, all[i]) == id;
    }
    assert ItemOf(rd, all[|rows|]) == ItemOf(rd, row);
  }

  lemma {:induction false} NotAllocated(rd: Reading, rows: seq<Row>, id: string)
    requires id !in ItemsAllocated(rd, rows)
    ensures GroupTotal(rd, rows, id) == 0.0
  {
    hide ItemOf, Quantity;
    if rows != [] {
      var init := rows[..|rows| - 1];
      MoreItems(rd, init, rows[|rows| - 1]);
      assert rows == init + [rows[|rows| - 1]];
      NotAllocated(rd, init, id);
    }
  }

  /** `inventoryQuantity`; a later row of the same identifier replaces an earlier one. */
  method InventoryQuantities(rd: Reading, rows: seq<Row>) returns (r: Option<map<string, real>>)
    ensures r.Some? <==> AllNumeric(rd, rows)
    ensures r.Some? ==> forall id :: (if id in r.value then r.value[id] else -1.0) == Stock(rd, rows, id)
  {
    hide Shown, Numeric, Quantity, QuantityColumn, Column;
    var quantities: map<string, real> := map[];
    assert rows[..0] == [];
    for i := 0 to |rows|
      invariant forall k :: 0 <= k < i ==> Numeric(rd, QuantityColumn(rows[k])).Some?
      invariant forall id :: (if id in quantities then quantities[id] else -1.0) == Stock(rd, rows[..i], id)
    {
      var quantity := Numeric(rd, QuantityColumn(rows[i]));
      if quantity.None? { return None; }
      NumericQuantity(rd, rows[i]);
      assert rows[..i + 1][..i] == rows[..i] && rows[..i + 1][i] == rows[i];
      quantities := quantities[Shown(rd, Column(rows[i], "id")) := quantity.value];
    }
    assert rows[..|rows|] == rows;
    r := Some(quantities);
  }

  lemma OverAllocatedIs(
      rd: Reading, inventory: seq<Row>, allocations: seq<Row>, stock: map<string, real>, grouped: map<string, real>)
    requires forall id :: (if id in stock then stock[id] else -1.0) == Stock(rd, inventory, id)
    requires grouped.Keys == ItemsAllocated(rd, allocations)
    requires forall id :: id in grouped ==> grouped[id] == GroupTotal(rd, allocations, id)
    ensures (set id | id in grouped && grouped[id] > if id in stock then stock[id] else -1.0) ==
            OverAllocated(rd, inventory, allocations)
  {
    hide Stock, GroupTotal, ItemsAllocated;
  }

  /** The number of items whose allocations together exceed their stock. */
  method OverAllocatedRows(rd: Reading, after: Tables) returns (r: Option<nat>)
    ensures r.Some? <==> AllNumeric(rd, RowsOf(after, Inventory())) && AllNumeric(rd, RowsOf(after, Allocations()))
    ensures r.Some? ==> r.value == |OverAllocated(rd, RowsOf(after, Inventory()), RowsOf(after, Allocations()))|
    ensures r.Some? ==> r.value == |OverAllocated(rd, RowsOf(after, "inventory_item"), RowsOf(after, "allocation"))|
  {
    assert Inventory() == "inventory_item" && Allocations() == "allocation";
    hide OverAllocated, AllNumeric, Stock, GroupTotal, Inventory, Allocations;
    var inventory := InventoryQuantities(rd, RowsOf(after, Inventory()));
    if inventory.None? { return None; }
    var grouped := GroupAllocations(rd, RowsOf(after, Allocations()));
    if grouped.None? { return None; }
    var over := set id | id in grouped.value
      && grouped.value[id] > if id in inventory.value then inventory.value[id] else -1.0;
    OverAllocatedIs(rd, RowsOf(after, Inventory()), RowsOf(after, Allocations()), inventory.value, grouped.value);
    r := Some(|over|);
  }

  /** No item is over-allocated exactly when every item's allocations fit its stock. */
  lemma NoneOverAllocated(rd: Reading, inventory: seq<Row>, allocations: seq<Row>)
    ensures |OverAllocated(rd, inventory, allocations)| == 0 <==>
            forall i :: 0 <= i < |allocations| ==>
              GroupTotal(rd, allocations, ItemOf(rd, allocations[i])) <=
                Stock(rd, inventory, ItemOf(rd, allocations[i]))
  {
    hide GroupTotal, Stock, ItemOf;
    var over := OverAllocated(rd, inventory, allocations);
    if |over| == 0 {
      assert over == {};
      forall i | 0 <= i < |allocations|
        ensures GroupTotal(rd, allocations, ItemOf(rd, allocations[i])) <=
                Stock(rd, inventory, ItemOf(rd, allocations[i]))
      {
        assert ItemOf(rd, allocations[i]) in ItemsAllocated(rd, allocations);
        assert ItemOf(rd, allocations[i]) !in over;
      }
    } else {
      var id :| id in over;
      var i :| 0 <= i < |allocations| && ItemOf(rd, allocations[i]) == id;
    }
  }

  // ----- lots and serial numbers

  function TableAt(tables: Tables, t: string): Option<seq<Row>> { if t in tables then Some(tables[t]) else None }

  /** Zero when the digests over both tables agree and one otherwise. */
  function LostLotOrSerialRows(
      digest: (Option<seq<Row>>, Option<seq<Row>>) -> string, before: Tables, after: Tables): nat
  {
    if digest(TableAt(before, Lots()), TableAt(before, Serials())) ==
      digest(TableAt(after, Lots()), TableAt(after, Serials())) then 0 else 1
  }

  /** The digest tells the two tables before apart from the two after. */
  ghost predicate TellsTables(digest: (Option<seq<Row>>, Option<seq<Row>>) -> string, before: Tables, after: Tables) {
    digest(TableAt(before, Lots()), TableAt(before, Serials())) ==
      digest(TableAt(after, Lots()), TableAt(after, Serials())) ==>
      TableAt(before, Lots()) == TableAt(after, Lots()) && TableAt(before, Serials()) == TableAt(after, Serials())
  }

  /** Nothing is lost exactly when the difference touches neither table. */
  lemma LotsAndSerialsAgree(
      precedes: (string, string) -> bool, digest: (Option<seq<Row>>, Option<seq<Row>>) -> string, before: Tables,
      after: Tables)
    requires TellsTables(digest, before, after)
    requires StrictTotal(precedes) && AllOrdered(precedes, before) && AllOrdered(precedes, after)
    requires before.Keys == after.Keys
    ensures LostLotOrSerialRows(digest, before, after) == 0 <==>
            forall e :: e in Delta(before, after) ==> e.table != Lots() && e.table != Serials()
  {
    hide Delta, Lots, Serials, StrictTotal, AllOrdered;
    TableUntouched(precedes, before, after, Lots());
    TableUntouched(precedes, before, after, Serials());
  }

  lemma TableUntouched(precedes: (string, string) -> bool, before: Tables, after: Tables, t: string)
    requires StrictTotal(precedes) && AllOrdered(precedes, before) && AllOrdered(precedes, after)
    requires before.Keys == after.Keys
    ensures TableAt(before, t) == TableAt(after, t) <==> forall e :: e in Delta(before, after) ==> e.table != t
  {
    hide Delta, RowMap, Ordered, StrictTotal, EntryOf;
    DeltaIsExact(before, after);
    if t in before && forall e :: e in Delta(before, after) ==> e.table != t {
      forall id ensures Find(RowMap(before[t]), id) == Find(RowMap(after[t]), id) {
        if Lookup(before, t, id) != Lookup(after, t, id) { TableReported(before, after, t, id); }
      }
      SameFinds(RowMap(before[t]), RowMap(after[t]));
      SameMapSameRows(precedes, before[t], after[t]);
    }
  }

  lemma TableReported(before: Tables, after: Tables, t: string, id: string)
    requires Lookup(before, t, id) != Lookup(after, t, id)
    ensures exists e :: e in Delta(before, after) && e.table == t
  {
    hide Lookup, EntryOf, Delta;
    DeltaIsExact(before, after);
    var e := EntryOf(t, id, Lookup(before, t, id), Lookup(after, t, id));
    EntryIds(t, id, Lookup(before, t, id), Lookup(after, t, id));
    assert Reports(before, after, e);
  }

  // ----- scopes touched

  function TextColumn(row: Option<Row>, column: string): set<string> {
    if row.Some? && column in row.value && row.value[column].Text? then {row.value[column].text} else {}
  }

  function ScopeOf(e: Entry, column: string): set<string> { TextColumn(e.before, column) + TextColumn(e.after, column) }

  /** The warehouses and tenants named by any version of a changed row. */
  method TouchedScopes(delta: seq<Entry>) returns (warehouses: set<string>, tenants: set<string>)
    ensures forall x :: x in warehouses <==> exists i :: 0 <= i < |delta| && x in ScopeOf(delta[i], "warehouse_id")
    ensures forall x :: x in tenants <==> exists i :: 0 <= i < |delta| && x in ScopeOf(delta[i], "tenant_id")
  {
    hide ScopeOf;
    warehouses, tenants := {}, {};
    for n := 0 to |delta|
      invariant forall x :: x in warehouses <==> exists i :: 0 <= i < n && x in ScopeOf(delta[i], "warehouse_id")
      invariant forall x :: x in tenants <==> exists i :: 0 <= i < n && x in ScopeOf(delta[i], "tenant_id")
    {
      warehouses := warehouses + ScopeOf(delta[n], "warehouse_id");
      tenants := tenants + ScopeOf(delta[n], "tenant_id");
    }
  }

  /** A scope is touched exactly when some row that differs between the two states names
      it before or after. */
  lemma ScopeTouched(before: Tables, after: Tables, column: string, x: string)
    ensures (exists e :: e in Delta(before, after) && x in ScopeOf(e, column)) <==>
            exists t, id :: Lookup(before, t, id) != Lookup(after, t, id) &&
              (x in TextColumn(Lookup(before, t, id), column) || x in TextColumn(Lookup(after, t, id), column))
  {
    hide Lookup, EntryOf, Delta, TextColumn;
    DeltaIsExact(before, after);
    if exists e :: e in Delta(before, after) && x in ScopeOf(e, column) {
      var e :| e in Delta(before, after) && x in ScopeOf(e, column);
      ReportedRows(before, after, e);
    }
    if t, id :| Lookup(before, t, id) != Lookup(after, t, id) &&
              (x in TextColumn(Lookup(before, t, id), column) || x in TextColumn(Lookup(after, t, id), column)) {
      var e := EntryOf(t, id, Lookup(before, t, id), Lookup(after, t, id));
      EntryIds(t, id, Lookup(before, t, id), Lookup(after, t, id));
      assert Reports(before, after, e);
    }
  }
}
