/** Referential integrity of a logistics state: which columns refer to which tables, and
    how many rows break it. */
module References {
  import opened Options
  import opened RowDeltas
  import opened GateFacts

  /** A column that must name a row of another table; an optional one may hold null. */
  datatype Reference = Reference(column: string, target: string, optional: bool)

  /** Columns of one table that count together: a row that breaks any of them is one
      violation. */
  datatype Check = Check(table: string, references: seq<Reference>)

  function LogisticsChecks(): seq<Check> {
    var tenant, warehouse := Reference("tenant_id", "tenant", false), Reference("warehouse_id", "warehouse", false);
    var location, product := Reference("location_id", "location", false), Reference("product_id", "product", false);
    var item := Reference("inventory_item_id", "inventory_item", false);
    [ Check("warehouse", [tenant]),
      Check("location", [warehouse]),
      Check("product", [tenant]),
      Check("product", [Reference("canonical_product_id", "product", true)]),
      Check("lot", [tenant, product]),
      Check("inventory_item", [tenant, warehouse, location, product, Reference("lot_id", "lot", true)]),
      Check("serial_number", [tenant, item]),
      Check("order_header", [tenant, warehouse]),
      Check("order_line", [Reference("order_id", "order_header", false), product]),
      Check("allocation", [tenant, warehouse, Reference("order_line_id", "order_line", false), item]) ]
  }

  function Ids(rd: Reading, rows: seq<Row>): set<string> { set i | 0 <= i < |rows| :: Shown(rd, Column(rows[i], "id")) }

  predicate Resolves(rd: Reading, tables: Tables, row: Row, r: Reference) {
    (r.optional && Column(row, r.column) == Some(Nil))
      || Shown(rd, Column(row, r.column)) in Ids(rd, RowsOf(tables, r.target))
  }

  predicate Intact(rd: Reading, tables: Tables, row: Row, c: Check) {
    forall i :: 0 <= i < |c.references| ==> Resolves(rd, tables, row, c.references[i])
  }

  /** The rows among the first `n` that break a check. */
  function Broken(rd: Reading, tables: Tables, c: Check, n: nat): set<nat>
    requires n <= |RowsOf(tables, c.table)|
  {
    set i | 0 <= i < n && !Intact(rd, tables, RowsOf(tables, c.table)[i], c)
  }

  function BrokenAll(rd: Reading, tables: Tables, checks: seq<Check>): nat {
    if checks == [] then 0
    else
      var c := checks[|checks| - 1];
      BrokenAll(rd, tables, checks[..|checks| - 1]) + |Broken(rd, tables, c, |RowsOf(tables, c.table)|)|
  }

  lemma NothingBroken(rd: Reading, tables: Tables, c: Check)
    ensures |Broken(rd, tables, c, 0)| == 0
  {
    assert Broken(rd, tables, c, 0) == {};
  }

  lemma BrokenGrows(rd: Reading, tables: Tables, c: Check, i: nat)
    requires i < |RowsOf(tables, c.table)|
    ensures |Broken(rd, tables, c, i + 1)| == |Broken(rd, tables, c, i)|
            + if Intact(rd, tables, RowsOf(tables, c.table)[i], c) then 0 else 1
  {
    hide Intact;
    if Intact(rd, tables, RowsOf(tables, c.table)[i], c) {
      assert Broken(rd, tables, c, i + 1) == Broken(rd, tables, c, i);
    } else {
      assert Broken(rd, tables, c, i + 1) == Broken(rd, tables, c, i) + {i};
    }
  }

  /** There is no violation exactly when every row satisfies every check. */
  lemma {:induction false} NoViolations(rd: Reading, tables: Tables, checks: seq<Check>)
    ensures BrokenAll(rd, tables, checks) == 0 <==>
            forall k, i :: 0 <= k < |checks| && 0 <= i < |RowsOf(tables, checks[k].table)| ==>
              Intact(rd, tables, RowsOf(tables, checks[k].table)[i], checks[k])
  {
    hide Intact;
    if checks != [] {
      var n := |checks| - 1;
      var c := checks[n];
      NoViolations(rd, tables, checks[..n]);
      NoneBroken(rd, tables, c);
      assert forall k :: 0 <= k < n ==> checks[..n][k] == checks[k];
      if BrokenAll(rd, tables, checks) == 0 {
        forall k, i | 0 <= k < |checks| && 0 <= i < |RowsOf(tables, checks[k].table)|
          ensures Intact(rd, tables, RowsOf(tables, checks[k].table)[i], checks[k])
        {
          assert k < n ==> checks[..n][k] == checks[k];
        }
      }
    }
  }

  lemma NoneBroken(rd: Reading, tables: Tables, c: Check)
    ensures var rows := RowsOf(tables, c.table);
      |Broken(rd, tables, c, |rows|)| == 0 <==> forall i :: 0 <= i < |rows| ==> Intact(rd, tables, rows[i], c)
  {
    hide Intact;
    var rows := RowsOf(tables, c.table);
    var broken := Broken(rd, tables, c, |rows|);
    if |broken| == 0 {
      forall i | 0 <= i < |rows| ensures Intact(rd, tables, rows[i], c) { assert i !in broken; }
    } else {
      var i :| i in broken;
      assert !Intact(rd, tables, rows[i], c);
    }
  }

  // ----- the logistics tables

  /** Every row of the table names a row of the target in this column, or, where that is
      allowed, holds null there. */
  ghost predicate RefersBy(rd: Reading, tables: Tables, table: string, r: Reference) {
    forall i :: 0 <= i < |RowsOf(tables, table)| ==> Resolves(rd, tables, RowsOf(tables, table)[i], r)
  }

  ghost predicate Refers(rd: Reading, tables: Tables, table: string, column: string, target: string, optional: bool) {
    RefersBy(rd, tables, table, Reference(column, target, optional))
  }

  /** What the references of a logistics state are. */
  ghost predicate LogisticsIntact(rd: Reading, tables: Tables) {
    && Refers(rd, tables, "warehouse", "tenant_id", "tenant", false)
    && Refers(rd, tables, "location", "warehouse_id", "warehouse", false)
    && Refers(rd, tables, "product", "tenant_id", "tenant", false)
    && Refers(rd, tables, "product", "canonical_product_id", "product", true)
    && Refers(rd, tables, "lot", "tenant_id", "tenant", false)
    && Refers(rd, tables, "lot", "product_id", "product", false)
    && Refers(rd, tables, "inventory_item", "tenant_id", "tenant", false)
    && Refers(rd, tables, "inventory_item", "warehouse_id", "warehouse", false)
    && Refers(rd, tables, "inventory_item", "location_id", "location", false)
    && Refers(rd, tables, "inventory_item", "product_id", "product", false)
    && Refers(rd, tables, "inventory_item", "lot_id", "lot", true)
    && Refers(rd, tables, "serial_number", "tenant_id", "tenant", false)
    && Refers(rd, tables, "serial_number", "inventory_item_id", "inventory_item", false)
    && Refers(rd, tables, "order_header", "tenant_id", "tenant", false)
    && Refers(rd, tables, "order_header", "warehouse_id", "warehouse", false)
    && Refers(rd, tables, "order_line", "order_id", "order_header", false)
    && Refers(rd, tables, "order_line", "product_id", "product", false)
    && Refers(rd, tables, "allocation", "tenant_id", "tenant", false)
    && Refers(rd, tables, "allocation", "warehouse_id", "warehouse", false)
    && Refers(rd, tables, "allocation", "order_line_id", "order_line", false)
    && Refers(rd, tables, "allocation", "inventory_item_id", "inventory_item", false)
  }

  ghost predicate Holds(rd: Reading, tables: Tables, c: Check) {
    forall i :: 0 <= i < |RowsOf(tables, c.table)| ==> Intact(rd, tables, RowsOf(tables, c.table)[i], c)
  }

  /** A check holds exactly when each of its columns refers. */
  lemma HoldsByColumn(rd: Reading, tables: Tables, c: Check)
    ensures Holds(rd, tables, c) <==>
            forall k :: 0 <= k < |c.references| ==> RefersBy(rd, tables, c.table, c.references[k])
  {
    hide Resolves;
    var rows := RowsOf(tables, c.table);
    if Holds(rd, tables, c) {
      forall k, i | 0 <= k < |c.references| && 0 <= i < |rows| ensures Resolves(rd, tables, rows[i], c.references[k]) {
        assert Intact(rd, tables, rows[i], c);
      }
    } else {
      var i :| 0 <= i < |rows| && !Intact(rd, tables, rows[i], c);
      var k :| 0 <= k < |c.references| && !Resolves(rd, tables, rows[i], c.references[k]);
      assert !RefersBy(rd, tables, c.table, c.references[k]);
    }
  }

  lemma HoldsForTwo(rd: Reading, tables: Tables, table: string, a: Reference, b: Reference)
    ensures Holds(rd, tables, Check(table, [a])) <==> RefersBy(rd, tables, table, a)
    ensures Holds(rd, tables, Check(table, [a, b])) <==>
            RefersBy(rd, tables, table, a) && RefersBy(rd, tables, table, b)
  {
    hide Holds, RefersBy;
    HoldsByColumn(rd, tables, Check(table, [a]));
    HoldsByColumn(rd, tables, Check(table, [a, b]));
    assert [a][0] == a && [a, b][0] == a && [a, b][1] == b;
  }

  lemma HoldsTogether(rd: Reading, tables: Tables, table: string, xs: seq<Reference>, ys: seq<Reference>)
    ensures Holds(rd, tables, Check(table, xs + ys)) <==>
            Holds(rd, tables, Check(table, xs)) && Holds(rd, tables, Check(table, ys))
  {
    hide Holds, RefersBy;
    var both := xs + ys;
    HoldsByColumn(rd, tables, Check(table, both));
    HoldsByColumn(rd, tables, Check(table, xs));
    HoldsByColumn(rd, tables, Check(table, ys));
    if Holds(rd, tables, Check(table, both)) {
      forall k | 0 <= k < |xs| ensures RefersBy(rd, tables, table, xs[k]) { assert both[k] == xs[k]; }
      forall k | 0 <= k < |ys| ensures RefersBy(rd, tables, table, ys[k]) { assert both[|xs| + k] == ys[k]; }
    }
  }

  lemma HoldsForFour(rd: Reading, tables: Tables, table: string, a: Reference, b: Reference, c: Reference, d: Reference)
    ensures Holds(rd, tables, Check(table, [a, b, c, d])) <==>
            && RefersBy(rd, tables, table, a) && RefersBy(rd, tables, table, b)
            && RefersBy(rd, tables, table, c) && RefersBy(rd, tables, table, d)
  {
    hide Holds, RefersBy;
    HoldsForTwo(rd, tables, table, a, b);
    HoldsForTwo(rd, tables, table, c, d);
    HoldsTogether(rd, tables, table, [a, b], [c, d]);
    assert [a, b] + [c, d] == [a, b, c, d];
  }

  lemma LogisticsByCheck(rd: Reading, tables: Tables)
    ensures LogisticsIntact(rd, tables) <==>
            forall k :: 0 <= k < |LogisticsChecks()| ==> Holds(rd, tables, LogisticsChecks()[k])
  {
    hide Holds, RefersBy;
    var tenant, warehouse := Reference("tenant_id", "tenant", false), Reference("warehouse_id", "warehouse", false);
    var location, product := Reference("location_id", "location", false), Reference("product_id", "product", false);
    var item, lot := Reference("inventory_item_id", "inventory_item", false), Reference("lot_id", "lot", true);
    var line, order := Reference("order_line_id", "order_line", false), Reference("order_id", "order_header", false);
    HoldsForTwo(rd, tables, "warehouse", tenant, tenant);
    HoldsForTwo(rd, tables, "location", warehouse, warehouse);
    HoldsForTwo(rd, tables, "product", tenant, tenant);
    HoldsForTwo(rd, tables, "product", Reference("canonical_product_id", "product", true), tenant);
    HoldsForTwo(rd, tables, "lot", tenant, product);
    HoldsForFour(rd, tables, "inventory_item", tenant, warehouse, location, product);
    HoldsForTwo(rd, tables, "inventory_item", lot, lot);
    HoldsTogether(rd, tables, "inventory_item", [tenant, warehouse, location, product], [lot]);
    assert [tenant, warehouse, location, product] + [lot] == [tenant, warehouse, location, product, lot];
    HoldsForTwo(rd, tables, "serial_number", tenant, item);
    HoldsForTwo(rd, tables, "order_header", tenant, warehouse);
    HoldsForTwo(rd, tables, "order_line", order, product);
    HoldsForFour(rd, tables, "allocation", tenant, warehouse, line, item);
    ByIndex(rd, tables, LogisticsChecks());
  }

  lemma ByIndex(rd: Reading, tables: Tables, checks: seq<Check>)
    requires |checks| == 10
    ensures (forall k :: 0 <= k < |checks| ==> Holds(rd, tables, checks[k])) <==>
            && Holds(rd, tables, checks[0]) && Holds(rd, tables, checks[1]) && Holds(rd, tables, checks[2])
            && Holds(rd, tables, checks[3]) && Holds(rd, tables, checks[4]) && Holds(rd, tables, checks[5])
            && Holds(rd, tables, checks[6]) && Holds(rd, tables, checks[7]) && Holds(rd, tables, checks[8])
            && Holds(rd, tables, checks[9])
  {
    hide Holds;
    assert forall k :: 0 <= k < |checks| ==> (k < 5 || k == 5 || k == 6 || k == 7 || k == 8 || checks[k] == checks[9]);
  }

  /** No violation is counted exactly when every reference of the logistics tables resolves. */
  lemma NoLogisticsViolations(rd: Reading, tables: Tables)
    ensures BrokenAll(rd, tables, LogisticsChecks()) == 0 <==> LogisticsIntact(rd, tables)
  {
    hide LogisticsIntact, Intact, BrokenAll, LogisticsChecks;
    var checks := LogisticsChecks();
    NoViolations(rd, tables, checks);
    LogisticsByCheck(rd, tables);
    if forall k :: 0 <= k < |checks| ==> Holds(rd, tables, checks[k]) {
      forall k, i | 0 <= k < |checks| && 0 <= i < |RowsOf(tables, checks[k].table)|
        ensures Intact(rd, tables, RowsOf(tables, checks[k].table)[i], checks[k])
      {
        assert Holds(rd, tables, checks[k]);
      }
    }
  }

  /** The counting loops, check by check and row by row. */
  method CountReferentialViolations(rd: Reading, tables: Tables) returns (violations: nat)
    ensures violations == BrokenAll(rd, tables, LogisticsChecks())
    ensures violations == 0 <==> LogisticsIntact(rd, tables)
  {
    hide Intact, Broken, LogisticsChecks, LogisticsIntact;
    var checks := LogisticsChecks();
    violations := 0;
    assert checks[..0] == [];
    for k := 0 to |checks|
      invariant violations == BrokenAll(rd, tables, checks[..k])
    {
      var c := checks[k];
      assert checks[..k + 1][..k] == checks[..k] && checks[..k + 1][k] == c;
      var rows := RowsOf(tables, c.table);
      NothingBroken(rd, tables, c);
      for i := 0 to |rows|
        invariant violations == BrokenAll(rd, tables, checks[..k]) + |Broken(rd, tables, c, i)|
      {
        BrokenGrows(rd, tables, c, i);
        if !Intact(rd, tables, rows[i], c) { violations := violations + 1; }
      }
    }
    assert checks[..|checks|] == checks;
    NoLogisticsViolations(rd, tables);
  }
}
