/** The row difference used as a patch, and the snapshots it is taken between. */
module RowPatches {
  import opened Options
  import opened Order
  import opened RowDeltas
  import opened Sorting

  /** A state as one row for each table and identifier. */
  type Cells = map<(string, string), Row>

  function CellsOf(tables: Tables): Cells {
    map t, id | t in tables && id in RowMap(tables[t]) :: (t, id) := RowMap(tables[t])[id]
  }

  function FindCell(cells: Cells, t: string, id: string): Option<Row> {
    if (t, id) in cells then Some(cells[(t, id)]) else None
  }

  lemma CellsLookup(tables: Tables, t: string, id: string)
    ensures FindCell(CellsOf(tables), t, id) == Lookup(tables, t, id)
  {
    assert RowMap([]) == map[];
  }

  function Put(cells: Cells, t: string, id: string, row: Option<Row>): Cells {
    match row
    case None => cells - {(t, id)}
    case Some(r) => cells[(t, id) := r]
  }

  /** Applies a patch; None where an entry does not find the row it says it changes. */
  function Apply(cells: Cells, patch: seq<Entry>): Option<Cells> {
    if patch == [] then Some(cells)
    else
      match Apply(cells, patch[..|patch| - 1])
      case None => None
      case Some(c) =>
        var e := patch[|patch| - 1];
        if FindCell(c, e.table, e.id) == e.before then Some(Put(c, e.table, e.id, e.after)) else None
  }

  ghost predicate Patches(before: Tables, after: Tables, patch: seq<Entry>) {
    && (forall i :: 0 <= i < |patch| ==> Reports(before, after, patch[i]))
    && (forall i, j :: 0 <= i < j < |patch| ==> (patch[i].table, patch[i].id) != (patch[j].table, patch[j].id))
  }

  predicate Touches(patch: seq<Entry>, t: string, id: string) {
    exists i :: 0 <= i < |patch| && patch[i].table == t && patch[i].id == id
  }

  lemma PutFinds(cells: Cells, t: string, id: string, row: Option<Row>, u: string, k: string)
    ensures FindCell(Put(cells, t, id, row), u, k) == if (u, k) == (t, id) then row else FindCell(cells, u, k)
  {}

  lemma ReportedRows(before: Tables, after: Tables, e: Entry)
    requires Reports(before, after, e)
    ensures e.before == Lookup(before, e.table, e.id) && e.after == Lookup(after, e.table, e.id)
  {}

  lemma TouchesMore(patch: seq<Entry>, e: Entry, t: string, id: string)
    ensures Touches(patch + [e], t, id) <==> Touches(patch, t, id) || (e.table == t && e.id == id)
  {
    var all := patch + [e];
    assert all[|patch|] == e;
    if Touches(patch, t, id) {
      var i :| 0 <= i < |patch| && patch[i].table == t && patch[i].id == id;
      assert all[i] == patch[i];
    }
  }

  /** A patch whose entries report changes, each row at most once, applies, and changes
      just the rows it touches. */
  lemma {:induction false} ApplyChangesTouched(before: Tables, after: Tables, patch: seq<Entry>)
    requires Patches(before, after, patch)
    ensures Apply(CellsOf(before), patch).Some?
    ensures forall t, id :: FindCell(Apply(CellsOf(before), patch).value, t, id) ==
                            if Touches(patch, t, id) then Lookup(after, t, id) else Lookup(before, t, id)
  {
    hide Lookup, Reports, Touches, Put, FindCell, CellsOf;
    if patch == [] {
      forall t, id ensures FindCell(CellsOf(before), t, id) == Lookup(before, t, id) && !Touches(patch, t, id) {
        CellsLookup(before, t, id);
        NothingTouched(t, id);
      }
    } else {
      var n := |patch| - 1;
      var prior, e := patch[..n], patch[n];
      assert patch == prior + [e];
      ApplyChangesTouched(before, after, prior);
      ReportedRows(before, after, e);
      NotYetTouched(prior, e);
      var c := Apply(CellsOf(before), prior).value;
      forall t, id
        ensures FindCell(Put(c, e.table, e.id, e.after), t, id) ==
                if Touches(patch, t, id) then Lookup(after, t, id) else Lookup(before, t, id)
      {
        PutFinds(c, e.table, e.id, e.after, t, id);
        TouchesMore(prior, e, t, id);
      }
    }
  }

  lemma NothingTouched(t: string, id: string)
    ensures !Touches([], t, id)
  {}

  lemma NotYetTouched(prior: seq<Entry>, e: Entry)
    requires forall i, j :: 0 <= i < j < |prior + [e]| ==>
             ((prior + [e])[i].table, (prior + [e])[i].id) != ((prior + [e])[j].table, (prior + [e])[j].id)
    ensures !Touches(prior, e.table, e.id)
  {
    var all := prior + [e];
    assert all[|prior|] == e;
    assert forall i :: 0 <= i < |prior| ==> all[i] == prior[i];
  }

  lemma DeltaPatches(before: Tables, after: Tables)
    ensures Patches(before, after, Delta(before, after))
    ensures forall t, id :: Lookup(before, t, id) != Lookup(after, t, id) ==> Touches(Delta(before, after), t, id)
  {
    hide Lookup, EntryOf, Less, Delta;
    DeltaIsExact(before, after);
    var d := Delta(before, after);
    forall i, j | 0 <= i < j < |d| ensures (d[i].table, d[i].id) != (d[j].table, d[j].id) {
      LessTrichotomy(d[i].table, d[j].table);
      LessTrichotomy(d[i].id, d[j].id);
      assert EntryLess(d[i], d[j]);
    }
    forall i | 0 <= i < |d| ensures Reports(before, after, d[i]) { assert d[i] in d; }
    forall t, id | Lookup(before, t, id) != Lookup(after, t, id) ensures Touches(d, t, id) {
      var e := EntryOf(t, id, Lookup(before, t, id), Lookup(after, t, id));
      EntryIds(t, id, Lookup(before, t, id), Lookup(after, t, id));
      assert e in d;
    }
  }

  /** Applying the difference to the state before yields the state after. */
  lemma DeltaTakesBeforeToAfter(before: Tables, after: Tables)
    ensures Apply(CellsOf(before), Delta(before, after)) == Some(CellsOf(after))
  {
    hide Lookup, Delta, Apply, Touches, CellsOf, Patches;
    DeltaPatches(before, after);
    ApplyChangesTouched(before, after, Delta(before, after));
    var c, d := Apply(CellsOf(before), Delta(before, after)).value, CellsOf(after);
    forall t, id ensures FindCell(c, t, id) == FindCell(d, t, id) { CellsLookup(after, t, id); }
    SameCells(c, d);
  }

  lemma SameCells(c: Cells, d: Cells)
    requires forall t, id :: FindCell(c, t, id) == FindCell(d, t, id)
    ensures c == d
  {
    forall p ensures (p in c <==> p in d) && (p in c ==> c[p] == d[p]) {
      var (t, id) := p;
      assert FindCell(c, t, id) == FindCell(d, t, id);
    }
  }

  // ----- the inverse

  function Swapped(e: Entry): Entry {
    Entry(e.table, e.id, match e.kind case Inserted => Deleted case Deleted => Inserted case Updated => Updated,
          e.after, e.before)
  }

  function Inverted(patch: seq<Entry>): seq<Entry> { seq(|patch|, i requires 0 <= i < |patch| => Swapped(patch[i])) }

  lemma InvertedAppend(a: seq<Entry>, b: seq<Entry>)
    ensures Inverted(a + b) == Inverted(a) + Inverted(b)
  {
    hide Swapped;
  }

  lemma SwapEntry(t: string, id: string, b: Option<Row>, a: Option<Row>)
    requires b != a
    ensures Swapped(EntryOf(t, id, b, a)) == EntryOf(t, id, a, b)
  {}

  lemma {:induction false} TableDeltaInverts(
      t: string, ids: seq<string>, before: map<string, Row>, after: map<string, Row>)
    ensures TableDelta(t, ids, after, before) == Inverted(TableDelta(t, ids, before, after))
  {
    hide Swapped, EntryOf, Find;
    if ids != [] {
      var n := |ids| - 1;
      var prior, id := TableDelta(t, ids[..n], before, after), ids[n];
      TableDeltaInverts(t, ids[..n], before, after);
      if Find(before, id) != Find(after, id) {
        InvertedAppend(prior, [EntryOf(t, id, Find(before, id), Find(after, id))]);
        SwapEntry(t, id, Find(before, id), Find(after, id));
      } else {
        assert prior + [] == prior && Inverted(prior) + [] == Inverted(prior);
      }
    }
  }

  lemma {:induction false} DeltaOverInverts(ts: seq<string>, before: Tables, after: Tables)
    ensures DeltaOver(ts, after, before) == Inverted(DeltaOver(ts, before, after))
  {
    hide RowMap, TableDelta, Inverted, Sorted;
    if ts == [] {
      InvertedNothing();
    } else {
      var n := |ts| - 1;
      var t := ts[n];
      var b, a := RowMap(RowsOf(before, t)), RowMap(RowsOf(after, t));
      DeltaOverInverts(ts[..n], before, after);
      assert b.Keys + a.Keys == a.Keys + b.Keys;
      TableDeltaInverts(t, IdsOf(b, a), b, a);
      InvertedAppend(DeltaOver(ts[..n], before, after), TableDelta(t, IdsOf(b, a), b, a));
    }
  }

  lemma InvertedNothing()
    ensures Inverted([]) == []
  {}

  /** The difference in the other direction is its exact inverse, so it undoes it. */
  lemma DeltaInverts(before: Tables, after: Tables)
    ensures Delta(after, before) == Inverted(Delta(before, after))
    ensures Apply(CellsOf(after), Inverted(Delta(before, after))) == Some(CellsOf(before))
  {
    hide DeltaOver, Inverted, Sorted, Apply, CellsOf;
    assert before.Keys + after.Keys == after.Keys + before.Keys;
    DeltaOverInverts(TableNames(before, after), before, after);
    DeltaTakesBeforeToAfter(after, before);
  }

  // ----- snapshots

  /** Rows compare by their identifiers. */
  function RowBefore(precedes: (string, string) -> bool): (Row, Row) -> bool {
    (x: Row, y: Row) => precedes(Key(x), Key(y))
  }

  function SortRows(precedes: (string, string) -> bool, rows: seq<Row>): seq<Row> { SortBy(RowBefore(precedes), rows) }

  predicate Ordered(precedes: (string, string) -> bool, rows: seq<Row>) { OrderedBy(RowBefore(precedes), rows) }

  lemma RowsCompare(precedes: (string, string) -> bool, rows: seq<Row>)
    requires StrictTotal(precedes)
    ensures StrictOrder(RowBefore(precedes))
    ensures UniqueKeys(rows) ==> Comparable(RowBefore(precedes), rows)
  {
    hide Key, StrictTotal;
    var before := RowBefore(precedes);
    forall x: Row, y: Row, z: Row
      ensures !before(x, x) && (before(x, y) && before(y, z) ==> before(x, z))
      ensures Key(x) != Key(y) ==> before(x, y) || before(y, x)
    {
      StrictTotalFacts(precedes, Key(x), Key(y), Key(z));
    }
  }

  /** Sorting permutes the rows, and orders them strictly when identifiers are unique. */
  lemma SortRowsSorts(precedes: (string, string) -> bool, rows: seq<Row>)
    requires StrictTotal(precedes)
    ensures multiset(SortRows(precedes, rows)) == multiset(rows)
    ensures UniqueKeys(rows) ==> Ordered(precedes, SortRows(precedes, rows))
  {
    hide StrictTotal, StrictOrder, UniqueKeys, RowBefore, OrderedBy, SortBy, Comparable;
    RowsCompare(precedes, rows);
    SortPermutes(RowBefore(precedes), rows);
    if UniqueKeys(rows) { SortOrders(RowBefore(precedes), rows); }
  }

  /** Strictly ordered rows are determined by which rows they are. */
  lemma OrderedRowsUnique(precedes: (string, string) -> bool, a: seq<Row>, b: seq<Row>)
    requires StrictTotal(precedes) && Ordered(precedes, a) && Ordered(precedes, b)
    requires forall row :: row in a <==> row in b
    ensures a == b
  {
    hide StrictTotal, StrictOrder, RowBefore, OrderedBy;
    RowsCompare(precedes, []);
    OrderedUnique(RowBefore(precedes), a, b);
  }

  function Normalized(precedes: (string, string) -> bool, tables: Tables): Tables {
    map t | t in tables :: SortRows(precedes, tables[t])
  }

  /** A comparison of two rows reads both identifiers, so sorting throws on a table of
      several rows one of which has none. */
  predicate Sortable(rows: seq<Row>) { |rows| < 2 || Keyed(rows) }

  lemma UnsortableTables(tables: Tables)
    ensures (exists t :: t in tables && !Sortable(tables[t])) <==>
            exists t, i :: t in tables && 0 <= i < |tables[t]| && |tables[t]| >= 2 && KeyOf(tables[t][i]).None?
  {
    hide KeyOf;
    if t :| t in tables && !Sortable(tables[t]) {
      var i :| 0 <= i < |tables[t]| && KeyOf(tables[t][i]).None?;
    }
  }

  method CreateDatabaseStateSnapshot(precedes: (string, string) -> bool, digest: Tables -> string, tables: Tables)
    returns (r: Option<Snapshot>)
    ensures r.Some? <==> forall t :: t in tables ==> Sortable(tables[t])
    ensures r.None? <==>
            exists t, i :: t in tables && 0 <= i < |tables[t]| && |tables[t]| >= 2 && KeyOf(tables[t][i]).None?
    ensures r.Some? ==> r.value == Snapshot(Normalized(precedes, tables), digest(Normalized(precedes, tables)))
  {
    UnsortableTables(tables);
    hide SortRows, Sortable, Sorted, Normalized, Less, Ascending, KeyOf;
    var normalized: Tables := map[];
    var names := Sorted(tables.Keys);
    for i := 0 to |names|
      invariant forall k :: k in normalized <==> k in names[..i]
      invariant forall k :: k in normalized ==> Sortable(tables[k]) && normalized[k] == SortRows(precedes, tables[k])
    {
      var table := names[i];
      assert table in tables;
      if !Sortable(tables[table]) { return None; }
      normalized := normalized[table := SortRows(precedes, tables[table])];
      assert names[..i + 1] == names[..i] + [table];
    }
    assert names[..|names|] == names;
    AllSorted(precedes, tables, normalized);
    r := Some(Snapshot(normalized, digest(normalized)));
  }

  lemma AllSorted(precedes: (string, string) -> bool, tables: Tables, normalized: Tables)
    requires normalized.Keys == tables.Keys
    requires forall k :: k in tables ==> normalized[k] == SortRows(precedes, tables[k])
    ensures normalized == Normalized(precedes, tables)
  {
    hide SortRows;
  }

  /** A snapshot does not depend on the order in which a table's rows were read. */
  lemma SnapshotIgnoresRowOrder(precedes: (string, string) -> bool, a: Tables, b: Tables)
    requires StrictTotal(precedes) && a.Keys == b.Keys && AllUnique(a) && AllUnique(b)
    requires forall t :: t in a ==> multiset(a[t]) == multiset(b[t])
    ensures Normalized(precedes, a) == Normalized(precedes, b)
  {
    hide Ordered, StrictTotal, UniqueKeys, SortRows;
    forall t | t in a ensures SortRows(precedes, a[t]) == SortRows(precedes, b[t]) {
      SortRowsSorts(precedes, a[t]);
      SortRowsSorts(precedes, b[t]);
      var x, y := SortRows(precedes, a[t]), SortRows(precedes, b[t]);
      SameElements(x, y);
      OrderedRowsUnique(precedes, x, y);
    }
  }

  // ----- the empty difference

  lemma {:induction false} RowMapFinds(rows: seq<Row>, row: Row)
    requires UniqueKeys(rows)
    ensures row in rows <==> Find(RowMap(rows), Key(row)) == Some(row)
    ensures forall k :: k in RowMap(rows) ==> RowMap(rows)[k] in rows && Key(RowMap(rows)[k]) == k
  {
    hide Key;
    if rows != [] {
      var init, last := rows[..|rows| - 1], rows[|rows| - 1];
      assert rows == init + [last];
      RowMapFinds(init, row);
      RowMapFinds(init, last);
    }
  }

  lemma OrderedIsUnique(precedes: (string, string) -> bool, rows: seq<Row>)
    requires StrictTotal(precedes) && Ordered(precedes, rows)
    ensures UniqueKeys(rows)
  {
    hide Key;
  }

  lemma SameMapSameRows(precedes: (string, string) -> bool, a: seq<Row>, b: seq<Row>)
    requires StrictTotal(precedes) && Ordered(precedes, a) && Ordered(precedes, b) && RowMap(a) == RowMap(b)
    ensures a == b
  {
    hide Key, RowMap, Ordered, StrictTotal, UniqueKeys;
    OrderedIsUnique(precedes, a);
    OrderedIsUnique(precedes, b);
    forall row ensures row in a <==> row in b {
      RowMapFinds(a, row);
      RowMapFinds(b, row);
    }
    OrderedRowsUnique(precedes, a, b);
  }

  ghost predicate AllOrdered(precedes: (string, string) -> bool, tables: Tables) {
    forall t :: t in tables ==> Ordered(precedes, tables[t])
  }

  lemma NormalizedIsOrdered(precedes: (string, string) -> bool, tables: Tables)
    requires StrictTotal(precedes) && AllUnique(tables)
    ensures AllOrdered(precedes, Normalized(precedes, tables))
  {
    hide Ordered, StrictTotal, UniqueKeys, SortRows;
    forall t | t in tables ensures Ordered(precedes, SortRows(precedes, tables[t])) {
      SortRowsSorts(precedes, tables[t]);
    }
  }

  /** For snapshots with the same table names the difference is empty exactly when the
      digests are equal, if the digest tells the two apart. */
  lemma EmptyDeltaIffSameDigest(precedes: (string, string) -> bool, digest: Tables -> string, a: Tables, b: Tables)
    requires StrictTotal(precedes) && a.Keys == b.Keys && AllUnique(a) && AllUnique(b)
    requires TellsApart(digest, {Normalized(precedes, a), Normalized(precedes, b)})
    ensures var x, y := Normalized(precedes, a), Normalized(precedes, b);
      Delta(x, y) == [] <==> digest(x) == digest(y)
  {
    hide SortRows, AllOrdered, AllUnique, StrictTotal, Delta;
    var x, y := Normalized(precedes, a), Normalized(precedes, b);
    NormalizedIsOrdered(precedes, a);
    NormalizedIsOrdered(precedes, b);
    EmptyDeltaIffEqual(precedes, x, y);
  }

  lemma DifferenceReported(x: Tables, y: Tables, t: string, id: string)
    requires Lookup(x, t, id) != Lookup(y, t, id)
    ensures Delta(x, y) != []
  {
    hide Lookup, EntryOf, Delta;
    DeltaIsExact(x, y);
    EntryIds(t, id, Lookup(x, t, id), Lookup(y, t, id));
    assert Reports(x, y, EntryOf(t, id, Lookup(x, t, id), Lookup(y, t, id)));
  }

  lemma EmptyDeltaIffEqual(precedes: (string, string) -> bool, x: Tables, y: Tables)
    requires StrictTotal(precedes) && x.Keys == y.Keys && AllOrdered(precedes, x) && AllOrdered(precedes, y)
    ensures Delta(x, y) == [] <==> x == y
  {
    hide RowMap, Delta, Ordered, StrictTotal, EntryOf;
    DeltaIsExact(x, y);
    if Delta(x, y) == [] {
      forall t | t in x ensures x[t] == y[t] {
        forall id ensures Find(RowMap(x[t]), id) == Find(RowMap(y[t]), id) {
          if Find(RowMap(x[t]), id) != Find(RowMap(y[t]), id) {
            DifferenceReported(x, y, t, id);
          }
        }
        SameFinds(RowMap(x[t]), RowMap(y[t]));
        SameMapSameRows(precedes, x[t], y[t]);
      }
    } else {
      assert Reports(x, y, Delta(x, y)[0]);
    }
  }

  lemma SameFinds(m: map<string, Row>, n: map<string, Row>)
    requires forall id :: Find(m, id) == Find(n, id)
    ensures m == n
  {
    forall id ensures (id in m <==> id in n) && (id in m ==> m[id] == n[id]) { assert Find(m, id) == Find(n, id); }
  }
}
