/** The difference of two database states, as a list of changed rows. */
module RowDeltas {
  import opened Options
  import opened Order

  datatype Scalar = Nil | Flag(flag: bool) | Number(value: real) | Text(text: string)

  type Row = map<string, Scalar>

  type Tables = map<string, seq<Row>>

  datatype ChangeKind = Inserted | Deleted | Updated

  datatype Entry = Entry(table: string, id: string, kind: ChangeKind, before: Option<Row>, after: Option<Row>)

  datatype Snapshot = Snapshot(tables: Tables, digest: string)

  /** The row's identifier: a string that is not empty. */
  function KeyOf(row: Row): Option<string> {
    if "id" in row && row["id"].Text? && row["id"].text != "" then Some(row["id"].text) else None
  }

  function Key(row: Row): string {
    match KeyOf(row)
    case Some(id) => id
    case None => ""
  }

  predicate Keyed(rows: seq<Row>) { forall i :: 0 <= i < |rows| ==> KeyOf(rows[i]).Some? }

  predicate AllKeyed(tables: Tables) { forall t :: t in tables ==> Keyed(tables[t]) }

  predicate UniqueKeys(rows: seq<Row>) { forall i, j :: 0 <= i < j < |rows| ==> Key(rows[i]) != Key(rows[j]) }

  predicate AllUnique(tables: Tables) { forall t :: t in tables ==> UniqueKeys(tables[t]) }

  function RowsOf(tables: Tables, t: string): seq<Row> { if t in tables then tables[t] else [] }

  /** Rows by identifier; a later row replaces an earlier one of the same identifier. */
  function RowMap(rows: seq<Row>): map<string, Row> {
    if rows == [] then map[] else RowMap(rows[..|rows| - 1])[Key(rows[|rows| - 1]) := rows[|rows| - 1]]
  }

  function Find(m: map<string, Row>, id: string): Option<Row> { if id in m then Some(m[id]) else None }

  /** The row of a table with an identifier. */
  function Lookup(tables: Tables, t: string, id: string): Option<Row> { Find(RowMap(RowsOf(tables, t)), id) }

  function EntryOf(t: string, id: string, before: Option<Row>, after: Option<Row>): Entry {
    Entry(t, id, if before.None? then Inserted else if after.None? then Deleted else Updated, before, after)
  }

  /** Entries for the identifiers of one table, where the row changed. */
  function TableDelta(t: string, ids: seq<string>, before: map<string, Row>, after: map<string, Row>): seq<Entry> {
    if ids == [] then []
    else
      var id := ids[|ids| - 1];
      TableDelta(t, ids[..|ids| - 1], before, after) +
      if Find(before, id) == Find(after, id) then [] else [EntryOf(t, id, Find(before, id), Find(after, id))]
  }

  function IdsOf(before: map<string, Row>, after: map<string, Row>): seq<string> { Sorted(before.Keys + after.Keys) }

  function DeltaOver(ts: seq<string>, before: Tables, after: Tables): seq<Entry> {
    if ts == [] then []
    else
      var t := ts[|ts| - 1];
      var b, a := RowMap(RowsOf(before, t)), RowMap(RowsOf(after, t));
      DeltaOver(ts[..|ts| - 1], before, after) + TableDelta(t, IdsOf(b, a), b, a)
  }

  function TableNames(before: Tables, after: Tables): seq<string> { Sorted(before.Keys + after.Keys) }

  /** The difference as a function of the two states. */
  function Delta(before: Tables, after: Tables): seq<Entry> { DeltaOver(TableNames(before, after), before, after) }

  /** The digest tells these values apart. */
  ghost predicate TellsApart<T(!new)>(digest: T -> string, values: set<T>) {
    forall x, y :: x in values && y in values && digest(x) == digest(y) ==> x == y
  }

  /** The rows of a state. */
  ghost function RowsIn(tables: Tables): set<Row> {
    set t, i | t in tables && 0 <= i < |tables[t]| :: tables[t][i]
  }

  lemma {:induction false} MappedRows(rows: seq<Row>)
    ensures forall row :: row in RowMap(rows).Values ==> row in rows
  {
    hide KeyOf;
    if rows != [] {
      var init := rows[..|rows| - 1];
      MappedRows(init);
      forall row | row in RowMap(rows).Values ensures row in rows {
        var k :| k in RowMap(rows) && RowMap(rows)[k] == row;
        assert row != rows[|rows| - 1] ==> k in RowMap(init) && RowMap(init)[k] == row && row in RowMap(init).Values;
      }
    }
  }

  /** What tells all rows of two states apart tells those of one table apart. */
  lemma TellsTableApart(digest: Row -> string, before: Tables, after: Tables, t: string)
    requires TellsApart(digest, RowsIn(before) + RowsIn(after))
    ensures TellsApart(digest, RowMap(RowsOf(before, t)).Values + RowMap(RowsOf(after, t)).Values)
  {
    MappedRows(RowsOf(before, t));
    MappedRows(RowsOf(after, t));
    hide RowMap;
    forall row | row in RowsOf(before, t) ensures row in RowsIn(before) {
      var i :| 0 <= i < |before[t]| && before[t][i] == row;
    }
    forall row | row in RowsOf(after, t) ensures row in RowsIn(after) {
      var i :| 0 <= i < |after[t]| && after[t][i] == row;
    }
  }

  /** `new Map(rows.map(row => [rowKey(row), row]))`; None where a row has no identifier. */
  method MapRows(rows: seq<Row>) returns (r: Option<map<string, Row>>)
    ensures r == if Keyed(rows) then Some(RowMap(rows)) else None
  {
    var m: map<string, Row> := map[];
    assert rows[..0] == [];
    for i := 0 to |rows|
      invariant forall k :: 0 <= k < i ==> KeyOf(rows[k]).Some?
      invariant m == RowMap(rows[..i])
    {
      var key := KeyOf(rows[i]);
      if key.None? { return None; }
      assert rows[..i + 1][..i] == rows[..i];
      m := m[key.value := rows[i]];
    }
    assert rows[..|rows|] == rows;
    r := Some(m);
  }

  /** The inner loop: the changed rows of one table. */
  method TableChanges(digest: Row -> string, table: string, beforeRows: map<string, Row>, afterRows: map<string, Row>)
    returns (result: seq<Entry>)
    requires TellsApart(digest, beforeRows.Values + afterRows.Values)
    ensures result == TableDelta(table, IdsOf(beforeRows, afterRows), beforeRows, afterRows)
  {
    hide EntryOf, IdsOf;
    result := [];
    var ids := IdsOf(beforeRows, afterRows);
    assert ids[..0] == [];
    for j := 0 to |ids|
      invariant result == TableDelta(table, ids[..j], beforeRows, afterRows)
    {
      var id := ids[j];
      assert ids[..j + 1][..j] == ids[..j];
      IdsAreFound(beforeRows, afterRows, id);
      var beforeRow, afterRow := Find(beforeRows, id), Find(afterRows, id);
      if beforeRow.Some? && afterRow.Some? && digest(beforeRow.value) == digest(afterRow.value) { continue; }
      result := result + [EntryOf(table, id, beforeRow, afterRow)];
    }
    assert ids[..|ids|] == ids;
  }

  /** The nested loops over tables and identifiers compute the difference; they throw
      exactly when some row has no identifier. */
  method ComputeRowDelta(digest: Row -> string, before: Snapshot, after: Snapshot) returns (r: Option<seq<Entry>>)
    requires TellsApart(digest, RowsIn(before.tables) + RowsIn(after.tables))
    ensures r ==
            if AllKeyed(before.tables) && AllKeyed(after.tables) then Some(Delta(before.tables, after.tables)) else None
  {
    hide KeyOf, RowMap, Find, EntryOf, Sorted, Keyed, IdsOf, AllKeyed, TableDelta, TableNames, TellsApart, RowsIn;
    var result: seq<Entry> := [];
    var tables := TableNames(before.tables, after.tables);
    assert tables[..0] == [];
    for i := 0 to |tables|
      invariant forall k :: 0 <= k < i ==>
                Keyed(RowsOf(before.tables, tables[k])) && Keyed(RowsOf(after.tables, tables[k]))
      invariant result == DeltaOver(tables[..i], before.tables, after.tables)
    {
      var table := tables[i];
      assert tables[..i + 1][..i] == tables[..i];
      var beforeRows := MapRows(RowsOf(before.tables, table));
      if beforeRows.None? { UnkeyedTable(before.tables, table); return None; }
      var afterRows := MapRows(RowsOf(after.tables, table));
      if afterRows.None? { UnkeyedTable(after.tables, table); return None; }
      TellsTableApart(digest, before.tables, after.tables, table);
      var changes := TableChanges(digest, table, beforeRows.value, afterRows.value);
      result := result + changes;
    }
    assert tables[..|tables|] == tables;
    AllTablesSeen(before.tables, after.tables);
    r := Some(result);
  }

  lemma UnkeyedTable(tables: Tables, t: string)
    requires !Keyed(RowsOf(tables, t))
    ensures !AllKeyed(tables)
  {
    assert Keyed([]);
  }

  lemma IdsAreFound(before: map<string, Row>, after: map<string, Row>, id: string)
    requires id in IdsOf(before, after)
    ensures Find(before, id).Some? || Find(after, id).Some?
  {}

  lemma AllTablesSeen(before: Tables, after: Tables)
    requires var ts := TableNames(before, after); forall k :: 0 <= k < |ts| ==>
             Keyed(RowsOf(before, ts[k])) && Keyed(RowsOf(after, ts[k]))
    ensures AllKeyed(before) && AllKeyed(after)
  {
    var ts := TableNames(before, after);
    forall t | t in before || t in after ensures Keyed(RowsOf(before, t)) && Keyed(RowsOf(after, t)) {
      assert t in ts;
      var k :| 0 <= k < |ts| && ts[k] == t;
    }
    forall t | t in before ensures Keyed(before[t]) { assert Keyed(RowsOf(before, t)); }
    forall t | t in after ensures Keyed(after[t]) { assert Keyed(RowsOf(after, t)); }
  }

  // ----- what the difference contains

  lemma {:induction false} TableDeltaFacts(
      t: string, ids: seq<string>, before: map<string, Row>, after: map<string, Row>)
    requires Ascending(ids)
    ensures var d := TableDelta(t, ids, before, after);
      && (forall e: Entry :: e in d <==> ChangedIn(t, ids, before, after, e))
      && (forall i, j :: 0 <= i < j < |d| ==> Less(d[i].id, d[j].id))
  {
    hide EntryOf, Less;
    if ids != [] {
      var n := |ids| - 1;
      var prior := TableDelta(t, ids[..n], before, after);
      TableDeltaFacts(t, ids[..n], before, after);
      forall e: Entry ensures e in TableDelta(t, ids, before, after) <==> ChangedIn(t, ids, before, after, e) {
        OneMoreId(t, ids, before, after, e);
      }
      forall i | 0 <= i < |prior| ensures Less(prior[i].id, ids[n]) {
        assert prior[i] in prior;
        assert ChangedIn(t, ids[..n], before, after, prior[i]);
        assert prior[i].id in ids[..n];
        EntryIds(t, ids[n], Find(before, ids[n]), Find(after, ids[n]));
      }
      EntryIds(t, ids[n], Find(before, ids[n]), Find(after, ids[n]));
    }
  }

  lemma EntryIds(t: string, id: string, before: Option<Row>, after: Option<Row>)
    ensures EntryOf(t, id, before, after).id == id && EntryOf(t, id, before, after).table == t
    ensures EntryOf(t, id, before, after).before == before && EntryOf(t, id, before, after).after == after
  {}

  /** `e` is the entry of one of the identifiers, whose row changed. */
  predicate ChangedIn(t: string, ids: seq<string>, before: map<string, Row>, after: map<string, Row>, e: Entry) {
    e.id in ids && Find(before, e.id) != Find(after, e.id)
      && e == EntryOf(t, e.id, Find(before, e.id), Find(after, e.id))
  }

  lemma OneMoreId(t: string, ids: seq<string>, before: map<string, Row>, after: map<string, Row>, e: Entry)
    requires ids != []
    requires e in TableDelta(t, ids[..|ids| - 1], before, after) <==> ChangedIn(t, ids[..|ids| - 1], before, after, e)
    ensures e in TableDelta(t, ids, before, after) <==> ChangedIn(t, ids, before, after, e)
  {
    hide Find;
    var n := |ids| - 1;
    assert ids == ids[..n] + [ids[n]];
    assert e.id in ids <==> e.id in ids[..n] || e.id == ids[n];
  }

  /** `e` reports that the row it names differs between the two states. */
  predicate Reports(before: Tables, after: Tables, e: Entry) {
    && Lookup(before, e.table, e.id) != Lookup(after, e.table, e.id)
    && e == EntryOf(e.table, e.id, Lookup(before, e.table, e.id), Lookup(after, e.table, e.id))
  }

  predicate EntryLess(x: Entry, y: Entry) { Less(x.table, y.table) || (x.table == y.table && Less(x.id, y.id)) }

  lemma {:induction false} DeltaOverFacts(ts: seq<string>, before: Tables, after: Tables)
    requires Ascending(ts)
    ensures var d := DeltaOver(ts, before, after);
      && (forall e: Entry :: e in d <==> e.table in ts && Reports(before, after, e))
      && (forall i, j :: 0 <= i < j < |d| ==> EntryLess(d[i], d[j]))
  {
    hide EntryOf, Less, Find, RowMap, IdsOf, ChangedIn;
    if ts != [] {
      var n := |ts| - 1;
      var t := ts[n];
      var b, a := RowMap(RowsOf(before, t)), RowMap(RowsOf(after, t));
      var prior, last := DeltaOver(ts[..n], before, after), TableDelta(t, IdsOf(b, a), b, a);
      DeltaOverFacts(ts[..n], before, after);
      TableFacts(t, before, after);
      assert ts == ts[..n] + [t];
      forall e: Entry ensures e in prior + last <==> e.table in ts && Reports(before, after, e) {
        assert e.table in ts <==> e.table in ts[..n] || e.table == t;
      }
      forall i | 0 <= i < |prior| ensures Less(prior[i].table, t) {
        assert prior[i] in prior;
        assert prior[i].table in ts[..n];
      }
      forall j | 0 <= j < |last| ensures last[j].table == t { assert last[j] in last; }
    }
  }

  lemma TableFacts(t: string, before: Tables, after: Tables)
    ensures var b, a := RowMap(RowsOf(before, t)), RowMap(RowsOf(after, t));
      var d := TableDelta(t, IdsOf(b, a), b, a);
      && (forall e: Entry :: e in d <==> e.table == t && Reports(before, after, e))
      && (forall i, j :: 0 <= i < j < |d| ==> Less(d[i].id, d[j].id))
  {
    hide Less, RowMap;
    var b, a := RowMap(RowsOf(before, t)), RowMap(RowsOf(after, t));
    TableDeltaFacts(t, IdsOf(b, a), b, a);
    forall e: Entry ensures ChangedIn(t, IdsOf(b, a), b, a, e) <==> e.table == t && Reports(before, after, e) {
      assert Find(b, e.id) != Find(a, e.id) ==> e.id in IdsOf(b, a);
    }
  }

  /** The difference lists exactly the rows that differ, by table and then identifier,
      strictly ascending and so without repeats. */
  lemma DeltaIsExact(before: Tables, after: Tables)
    ensures var d := Delta(before, after);
      && (forall e: Entry :: e in d <==> Reports(before, after, e))
      && (forall i, j :: 0 <= i < j < |d| ==> EntryLess(d[i], d[j]))
  {
    hide EntryOf, Sorted, Less, Find, RowMap, Ascending, DeltaOver, Reports, TableNames;
    var ts := TableNames(before, after);
    NamesAscend(before, after);
    DeltaOverFacts(ts, before, after);
    var d := Delta(before, after);
    assert d == DeltaOver(ts, before, after);
    forall e: Entry ensures e in d <==> Reports(before, after, e) {
      if Reports(before, after, e) { ReportedTable(before, after, e); assert e.table in ts; }
    }
    assert forall i, j :: 0 <= i < j < |d| ==> EntryLess(d[i], d[j]);
  }

  lemma NamesAscend(before: Tables, after: Tables)
    ensures Ascending(TableNames(before, after))
    ensures forall t :: t in TableNames(before, after) <==> t in before || t in after
  {}

  lemma ReportedTable(before: Tables, after: Tables, e: Entry)
    requires Reports(before, after, e)
    ensures e.table in before || e.table in after
  {
    assert RowMap([]) == map[];
  }
}
