/** The row difference and the figures of the hard gates by the names of the tables and
    columns they read. */
module DeltaContract {
  import opened Options
  import opened Order
  import opened RowDeltas
  import opened RowPatches
  import opened GateFacts
  import opened References
  import opened Sorting

  // ----- rows and entries

  /** The row's `id` column holds this string, which is not empty. */
  predicate Identified(row: Row, id: string) { "id" in row && row["id"] == Text(id) && id != "" }

  lemma KeySpelled(row: Row, id: string)
    ensures KeyOf(row) == Some(id) <==> Identified(row, id)
  {}

  /** Row `i` is the last one with this identifier. */
  ghost predicate LastOf(rows: seq<Row>, id: string, i: int) {
    0 <= i < |rows| && Identified(rows[i], id) && forall j :: i < j < |rows| ==> !Identified(rows[j], id)
  }

  lemma MappedExtends(rows: seq<Row>, last: Row, id: string)
    requires KeyOf(last).Some?
    ensures Find(RowMap(rows + [last]), id) == if Identified(last, id) then Some(last) else Find(RowMap(rows), id)
  {
    assert (rows + [last])[..|rows|] == rows;
    KeySpelled(last, id);
    KeySpelled(last, Key(last));
  }

  lemma LastExtends(rows: seq<Row>, last: Row, id: string, row: Row)
    ensures Ends(rows + [last], id, row) <==> if Identified(last, id) then row == last else Ends(rows, id, row)
  {
    hide Identified;
    var all := rows + [last];
    assert all[|rows|] == last && forall i :: 0 <= i < |rows| ==> all[i] == rows[i];
    if Identified(last, id) {
      assert LastOf(all, id, |rows|);
    } else {
      if i :| LastOf(all, id, i) && all[i] == row { assert LastOf(rows, id, i); }
      if i :| LastOf(rows, id, i) && rows[i] == row { assert LastOf(all, id, i); }
    }
  }

  /** `row` is the last one with this identifier. */
  ghost predicate Ends(rows: seq<Row>, id: string, row: Row) { exists i :: LastOf(rows, id, i) && rows[i] == row }

  lemma {:induction false} MappedIsLast(rows: seq<Row>, id: string, row: Row)
    requires Keyed(rows)
    ensures Find(RowMap(rows), id) == Some(row) <==> Ends(rows, id, row)
  {
    if rows == [] {
    } else {
      var init, last := rows[..|rows| - 1], rows[|rows| - 1];
      hide Identified, KeyOf, RowMap, Ends;
      MappedIsLast(init, id, row);
      MappedExtends(init, last, id);
      LastExtends(init, last, id, row);
      assert rows == init + [last];
    }
  }

  /** An entry is in the difference exactly when the rows it shows are the last of its
      identifier in its table before and after, they differ, and its kind says which of
      them exist. */
  lemma EntryExactly(before: Tables, after: Tables, e: Entry)
    requires AllKeyed(before) && AllKeyed(after)
    ensures e in Delta(before, after) <==>
            && Shows(RowsOf(before, e.table), e.id, e.before) && Shows(RowsOf(after, e.table), e.id, e.after)
            && e.before != e.after
            && (e.kind == Inserted <==> e.before.None?) && (e.kind == Deleted <==> e.after.None?)
            && (e.kind == Updated <==> e.before.Some? && e.after.Some?)
  {
    hide Delta, RowMap, Keyed;
    DeltaIsExact(before, after);
    KeyedTable(before, e.table);
    KeyedTable(after, e.table);
    ShownIsFound(RowsOf(before, e.table), e.id, e.before);
    ShownIsFound(RowsOf(after, e.table), e.id, e.after);
  }

  lemma KeyedTable(tables: Tables, t: string)
    requires AllKeyed(tables)
    ensures Keyed(RowsOf(tables, t))
  {}

  ghost predicate Shows(rows: seq<Row>, id: string, row: Option<Row>) {
    match row
    case None => forall i :: 0 <= i < |rows| ==> !Identified(rows[i], id)
    case Some(shown) => Ends(rows, id, shown)
  }

  lemma ShownIsFound(rows: seq<Row>, id: string, row: Option<Row>)
    requires Keyed(rows)
    ensures Find(RowMap(rows), id) == row <==> Shows(rows, id, row)
  {
    hide Identified, RowMap, Keyed;
    var found := Find(RowMap(rows), id);
    if found.Some? { MappedIsLast(rows, id, found.value); }
    if row.Some? { MappedIsLast(rows, id, row.value); }
    if i :| 0 <= i < |rows| && Identified(rows[i], id) {
      LastExists(rows, id, i);
      var k :| LastOf(rows, id, k);
      MappedIsLast(rows, id, rows[k]);
      assert Ends(rows, id, rows[k]);
    }
  }

  lemma {:induction false} LastExists(rows: seq<Row>, id: string, i: nat)
    requires i < |rows| && Identified(rows[i], id)
    ensures exists k :: LastOf(rows, id, k)
    decreases |rows| - i
  {
    hide Identified;
    if j :| i < j < |rows| && Identified(rows[j], id) { LastExists(rows, id, j); } else { assert LastOf(rows, id, i); }
  }

  // ----- readings of columns

  /** The number a column holds: itself, or what its text parses to. */
  predicate Holds(rd: Reading, row: Row, column: string, x: real) {
    column in row && (row[column] == Number(x) || (row[column].Text? && rd.parse(row[column].text) == Some(x)))
  }

  /** What a column prints as. */
  predicate Prints(rd: Reading, row: Row, column: string, s: string) {
    if column !in row then s == "undefined"
    else if row[column] == Nil then s == "null"
    else if row[column] == Flag(true) then s == "true"
    else if row[column] == Flag(false) then s == "false"
    else if row[column].Number? then s == rd.show(row[column].value)
    else row[column] == Text(s)
  }

  lemma ColumnsSpelled(rd: Reading, row: Row, column: string, x: real, s: string)
    ensures Numeric(rd, Column(row, column)) == Some(x) <==> Holds(rd, row, column, x)
    ensures Shown(rd, Column(row, column)) == s <==> Prints(rd, row, column, s)
  {}

  /** A change touches a scope when its row before or after holds it as text. */
  lemma ScopesSpelled(e: Entry, column: string, x: string)
    ensures x in ScopeOf(e, column) <==>
            || (e.before.Some? && column in e.before.value && e.before.value[column] == Text(x))
            || (e.after.Some? && column in e.after.value && e.after.value[column] == Text(x))
  {}

  // ----- the figures

  /** The units of the `inventory_item` rows change by what the entries of that table
      change in their `quantity` columns. */
  lemma InventoryByName(rd: Reading, before: Tables, after: Tables)
    requires AllUnique(before) && AllUnique(after)
    requires SumColumn(rd, RowsOf(before, "inventory_item"), "quantity").Some?
    requires SumColumn(rd, RowsOf(after, "inventory_item"), "quantity").Some?
    ensures SumColumn(rd, RowsOf(after, "inventory_item"), "quantity").value
            - SumColumn(rd, RowsOf(before, "inventory_item"), "quantity").value
         == EntryTotal(Delta(before, after), "inventory_item", QuantityChange(rd))
    ensures forall e :: QuantityChange(rd)(e) == QuantityIn(rd, e.after) - QuantityIn(rd, e.before)
  {
    hide SumColumn, EntryTotal, Delta, RowsOf, AllUnique;
    InventoryUnitsAgree(rd, before, after);
  }

  function QuantityIn(rd: Reading, row: Option<Row>): real {
    if row.Some? && Numeric(rd, Column(row.value, "quantity")).Some?
    then Numeric(rd, Column(row.value, "quantity")).value else 0.0
  }

  /** The count of changed protected orders is the number of updated and deleted entries
      of `order_header` whose old `status` is a protected one. */
  lemma ProtectedByName(rd: Reading, digest: Row -> string, before: Tables, after: Tables, states: set<string>)
    requires TellsApart(digest, RowsIn(before) + RowsIn(after))
    requires AllUnique(before) && AllUnique(after) && AllKeyed(before) && AllKeyed(after)
    ensures ProtectedOrderRowsChanged(rd, digest, RowsOf(before, "order_header"), RowMap(RowsOf(after, "order_header")),
                                      states) as real
         == EntryTotal(Delta(before, after), "order_header", ProtectedEntry(rd, states))
    ensures forall e :: ProtectedEntry(rd, states)(e) ==
                        if && (e.kind == Updated || e.kind == Deleted) && e.before.Some?
                           && Shown(rd, Column(e.before.value, "status")) in states
                        then 1.0 else 0.0
  {
    hide EntryTotal, Delta, RowsOf, AllUnique, AllKeyed, ProtectedOrderRowsChanged, RowMap, TellsApart, RowsIn, Shown;
    ProtectedOrdersAgree(rd, digest, before, after, states);
  }

  /** Nothing is lost exactly when the difference has no entry of `lot` or `serial_number`. */
  lemma LotsByName(
      precedes: (string, string) -> bool, digest: (Option<seq<Row>>, Option<seq<Row>>) -> string, before: Tables,
      after: Tables)
    requires TellsTables(digest, before, after)
    requires StrictTotal(precedes) && AllOrdered(precedes, before) && AllOrdered(precedes, after)
    requires before.Keys == after.Keys
    ensures LostLotOrSerialRows(digest, before, after) == 0 <==>
            forall e :: e in Delta(before, after) ==> e.table != "lot" && e.table != "serial_number"
  {
    hide Delta, TellsTables, StrictTotal, AllOrdered, LostLotOrSerialRows;
    LotsAndSerialsAgree(precedes, digest, before, after);
  }

  /** An item is over-allocated exactly when some allocation names it and the `quantity`
      columns of those that do add up to more than its stock. */
  lemma OverAllocatedSpelled(rd: Reading, inventory: seq<Row>, allocations: seq<Row>, id: string)
    ensures id in OverAllocated(rd, inventory, allocations) <==>
            && (exists i :: 0 <= i < |allocations| && Allocates(rd, allocations[i], id))
            && GroupTotal(rd, allocations, id) > Stock(rd, inventory, id)
  {
    hide GroupTotal, Stock, Shown;
  }

  predicate Allocates(rd: Reading, row: Row, id: string) { Shown(rd, Column(row, "inventory_item_id")) == id }

  predicate Stocks(rd: Reading, row: Row, id: string) { Shown(rd, Column(row, "id")) == id }

  /** The total grows with each allocation of the item, and starts from nothing. */
  lemma GroupTotalGrows(rd: Reading, rows: seq<Row>, row: Row, id: string)
    ensures GroupTotal(rd, [], id) == 0.0
    ensures GroupTotal(rd, rows + [row], id) ==
            GroupTotal(rd, rows, id) + if Allocates(rd, row, id) then QuantityIn(rd, Some(row)) else 0.0
  {
    hide Shown, Numeric;
    assert (rows + [row])[..|rows|] == rows;
  }

  /** The stock is the quantity of the last row of the item, and -1 where there is none. */
  lemma {:induction false} StockSpelled(rd: Reading, rows: seq<Row>, id: string, i: int)
    ensures (forall k :: 0 <= k < |rows| ==> !Stocks(rd, rows[k], id)) ==> Stock(rd, rows, id) == -1.0
    ensures && 0 <= i < |rows| && Stocks(rd, rows[i], id)
            && (forall k :: i < k < |rows| ==> !Stocks(rd, rows[k], id)) ==>
              Stock(rd, rows, id) == QuantityIn(rd, Some(rows[i]))
  {
    hide Shown, Numeric;
    if rows != [] {
      var n := |rows| - 1;
      StockSpelled(rd, rows[..n], id, i);
      assert Stocks(rd, rows[n], id) ==> !(forall k :: 0 <= k < |rows| ==> !Stocks(rd, rows[k], id));
    }
  }

  // ----- references

  /** A column refers when some row of the target has its value as `id`, or it may be null
      and is. */
  lemma ResolvesSpelled(rd: Reading, tables: Tables, row: Row, column: string, target: string, optional: bool)
    ensures Resolves(rd, tables, row, Reference(column, target, optional)) <==>
            || (optional && column in row && row[column] == Nil)
            || (exists i :: 0 <= i < |RowsOf(tables, target)|
                  && Stocks(rd, RowsOf(tables, target)[i], Shown(rd, Column(row, column))))
  {
    hide Shown;
  }

  /** What is counted: each row once per check, when one of the check's columns does not
      refer. */
  function Violations(rd: Reading, tables: Tables, checks: seq<Check>): set<(int, int)> {
    set k, i | 0 <= k < |checks| && 0 <= i < |RowsOf(tables, checks[k].table)|
      && Breaks(rd, tables, RowsOf(tables, checks[k].table)[i], checks[k].references) :: (k, i)
  }

  predicate Breaks(rd: Reading, tables: Tables, row: Row, references: seq<Reference>) {
    exists r :: r in references && !Resolves(rd, tables, row, r)
  }

  lemma {:induction false} ViolationsCounted(rd: Reading, tables: Tables, checks: seq<Check>)
    ensures BrokenAll(rd, tables, checks) == |Violations(rd, tables, checks)|
  {
    if checks == [] {
      assert Violations(rd, tables, checks) == {};
    } else {
      hide Resolves, Intact, Breaks, Broken, Violations;
      var n := |checks| - 1;
      var broken := Broken(rd, tables, checks[n], |RowsOf(tables, checks[n].table)|);
      ViolationsCounted(rd, tables, checks[..n]);
      ViolationsGrow(rd, tables, checks);
      PairsCounted(n, broken);
    }
  }

  lemma ViolationsGrow(rd: Reading, tables: Tables, checks: seq<Check>)
    requires checks != []
    ensures var n := |checks| - 1;
      var init := Violations(rd, tables, checks[..n]);
      var pairs := Pairs(n, Broken(rd, tables, checks[n], |RowsOf(tables, checks[n].table)|));
      Violations(rd, tables, checks) == init + pairs && init !! pairs
  {
    hide Resolves, Intact, Breaks;
    var n := |checks| - 1;
    var init := checks[..n];
    var pairs := Pairs(n, Broken(rd, tables, checks[n], |RowsOf(tables, checks[n].table)|));
    forall k, i | 0 <= k < |checks| && 0 <= i < |RowsOf(tables, checks[k].table)|
      ensures (k, i) in Violations(rd, tables, checks) <==> (k, i) in Violations(rd, tables, init) + pairs
    {
      BreaksIsBroken(rd, tables, RowsOf(tables, checks[k].table)[i], checks[k]);
      assert k < n ==> init[k] == checks[k];
    }
  }

  lemma BreaksIsBroken(rd: Reading, tables: Tables, row: Row, c: Check)
    ensures Breaks(rd, tables, row, c.references) <==> !Intact(rd, tables, row, c)
  {
    hide Resolves;
  }

  function Pairs(n: int, s: set<nat>): set<(int, int)> { set i | i in s :: (n, i) }

  lemma {:induction false} PairsCounted(n: int, s: set<nat>)
    ensures |Pairs(n, s)| == |s|
  {
    if s == {} {
      assert Pairs(n, s) == {};
    } else {
      var x :| x in s;
      PairsCounted(n, s - {x});
      assert Pairs(n, s) == Pairs(n, s - {x}) + {(n, x)} && (n, x) !in Pairs(n, s - {x});
    }
  }

  /** The ten checks, by table and by the number of columns that count together. */
  lemma ChecksSpelled()
    ensures var cs := LogisticsChecks();
      && |cs| == 10
      && cs[0].table == "warehouse" && |cs[0].references| == 1 && cs[1].table == "location" && |cs[1].references| == 1
      && cs[2].table == "product" && |cs[2].references| == 1 && cs[3].table == "product" && |cs[3].references| == 1
      && cs[4].table == "lot" && |cs[4].references| == 2 && cs[5].table == "inventory_item"
      && |cs[5].references| == 5 && cs[6].table == "serial_number" && |cs[6].references| == 2
      && cs[7].table == "order_header" && |cs[7].references| == 2 && cs[8].table == "order_line"
      && |cs[8].references| == 2 && cs[9].table == "allocation" && |cs[9].references| == 4
  {}
}
