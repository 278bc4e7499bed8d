/**
 * Resetting a demo tenant to its baseline: what a row looks like after being exported and loaded back, and
 * why the tenant then is what it was when the baseline was taken.
 */
module RestoreInPlace {
  import opened Common
  import opened Json
  import opened RestoreSpec
  import RS = RestoreService

  // ---- one row there and back ------------------------------------------------------------------------

  /** An exported row: dates have become texts. */
  function Exported(r: Row): Row { r.(fields := map c | c in r.fields :: Plain(r.fields[c])) }

  /** A row of the bundle as it is loaded back into the tenant, under its own id. */
  function Reloaded(r: Row, tenant: string): Row { Row(r.id, tenant, WithDates(DATE_FIELDS, r.fields)) }

  predicate DateColumn(c: Column) { c.Dated? && c.name in DATE_FIELDS }

  /** Listed date columns hold dates or nothing textual; no other column holds a date at any depth. */
  predicate Typed(c: Column, v: Value) {
    if DateColumn(c) then v.JDate? || (!v.JStr? && Plain(v) == v) else Plain(v) == v
  }

  predicate TypedRow(r: Row) { forall c :: c in r.fields ==> Typed(c, r.fields[c]) }

  lemma {:induction false} DatesAt(names: seq<string>, fields: map<Column, Value>, c: Column)
    ensures c in WithDates(names, fields) <==> c in fields
    ensures c in fields ==> WithDates(names, fields)[c]
                            == if c.Dated? && c.name in names && fields[c].JStr? then JDate(fields[c].s) else fields[c]
  {
    if names == [] {
    } else {
      DatesAt(names[1..], WithDate(names[0], fields), c);
      assert names == [names[0]] + names[1..];
    }
  }

  /** Export and reload give a row back exactly when it is typed. */
  lemma RowRoundTrip(r: Row)
    ensures Reloaded(Exported(r), r.tenantId) == r <==> TypedRow(r)
  {
    var back := Reloaded(Exported(r), r.tenantId);
    forall c ensures c in back.fields <==> c in r.fields
      ensures c in r.fields ==> (back.fields[c] == r.fields[c] <==> Typed(c, r.fields[c]))
    {
      DatesAt(DATE_FIELDS, Exported(r).fields, c);
    }
    if TypedRow(r) { assert back.fields == r.fields; }
  }

  // ---- a tenant there and back -----------------------------------------------------------------------

  /** The rows of one tenant. */
  function OfTenant(db: Db, tenant: string): Db { map k | k in db && db[k].tenantId == tenant :: db[k] }

  /** A bundle that exports a tenant: each of its rows once, in any order. */
  ghost predicate Exports(b: Bundle, db: Db, tenant: string) {
    && WellKeyed(b)
    && (forall m, r :: r in RowsOf(b, m) ==> (m, r.id) in OfTenant(db, tenant) && r == Exported(db[(m, r.id)]))
    && (forall k :: k in OfTenant(db, tenant) ==> Exported(db[k]) in RowsOf(b, k.0) && db[k].id == k.1)
  }

  function Reloader(tenant: string): Row -> Row { (r: Row) => Reloaded(r, tenant) }

  ghost function PutRows(db: Db, m: Model, tenant: string, rows: seq<Row>): Db { Put(db, m, rows, Reloader(tenant)) }

  ghost function PutTables(db: Db, b: Bundle, tenant: string, tables: seq<Model>): Db {
    if tables == [] then db else
      var m := tables[|tables| - 1];
      PutRows(PutTables(db, b, tenant, tables[..|tables| - 1]), m, tenant, RowsOf(b, m))
  }

  lemma PutRow(db: Db, m: Model, tenant: string, rows: seq<Row>, r: Row)
    requires DistinctIds(rows) && r in rows
    ensures (m, r.id) in PutRows(db, m, tenant, rows)
    ensures PutRows(db, m, tenant, rows)[(m, r.id)] == Reloaded(r, tenant)
  {
    var after, load := PutRows(db, m, tenant, rows), Reloader(tenant);
    assert Makes(rows, load, r.id, r);
    PutAt(db, m, rows, load, (m, r.id));
    var r' :| Makes(rows, load, r.id, r') && after[(m, r.id)] == load(r');
    SameId(rows, r, r');
  }

  lemma PutElsewhere(db: Db, m: Model, tenant: string, rows: seq<Row>, k: (Model, string))
    requires k.0 == m ==> forall r :: r in rows ==> r.id != k.1
    ensures k in PutRows(db, m, tenant, rows) <==> k in db
    ensures k in db ==> PutRows(db, m, tenant, rows)[k] == db[k]
  {
    PutAt(db, m, rows, Reloader(tenant), k);
  }

  lemma {:induction false} PutTablesRow(db: Db, b: Bundle, tenant: string, tables: seq<Model>, m: Model, r: Row)
    requires WellKeyed(b) && m in tables && r in RowsOf(b, m)
    ensures (m, r.id) in PutTables(db, b, tenant, tables)
    ensures PutTables(db, b, tenant, tables)[(m, r.id)] == Reloaded(r, tenant)
  {
    var n := |tables| - 1;
    assert tables == tables[..n] + [tables[n]];
    if tables[n] == m {
      PutRow(PutTables(db, b, tenant, tables[..n]), m, tenant, RowsOf(b, m), r);
    } else {
      PutTablesRow(db, b, tenant, tables[..n], m, r);
      PutElsewhere(PutTables(db, b, tenant, tables[..n]), tables[n], tenant, RowsOf(b, tables[n]), (m, r.id));
    }
  }

  lemma {:induction false} PutTablesElsewhere(db: Db, b: Bundle, tenant: string, tables: seq<Model>, k: (Model, string))
    requires forall r :: r in RowsOf(b, k.0) ==> r.id != k.1
    ensures k in PutTables(db, b, tenant, tables) <==> k in db
    ensures k in db ==> PutTables(db, b, tenant, tables)[k] == db[k]
  {
    if tables == [] {
    } else {
      var n := |tables| - 1;
      PutTablesElsewhere(db, b, tenant, tables[..n], k);
      PutElsewhere(PutTables(db, b, tenant, tables[..n]), tables[n], tenant, RowsOf(b, tables[n]), k);
    }
  }

  ghost predicate AllTyped(db: Db, tenant: string) { forall k :: k in OfTenant(db, tenant) ==> TypedRow(db[k]) }

  /** No other tenant has taken an id of the bundle in the meantime. */
  ghost predicate IdsFree(db: Db, b: Bundle, tenant: string) {
    forall k, r :: k in db && r in RowsOf(b, k.0) && r.id == k.1 ==> db[k].tenantId == tenant
  }

  lemma ResetAt(was: Db, now: Db, b: Bundle, tenant: string, k: (Model, string))
    requires Exports(b, was, tenant) && AllTyped(was, tenant) && IdsFree(now, b, tenant)
    ensures var after := PutTables(Wiped(now, tenant), b, tenant, BACKUP_TABLES);
            if k in OfTenant(was, tenant) then k in after && after[k] == was[k]
            else (k in after <==> k in Wiped(now, tenant)) && (k in after ==> after[k] == now[k])
  {
    if k in OfTenant(was, tenant) {
      var r := Exported(was[k]);
      AllTables(k.0);
      PutTablesRow(Wiped(now, tenant), b, tenant, BACKUP_TABLES, k.0, r);
      RowRoundTrip(was[k]);
    } else {
      forall r | r in RowsOf(b, k.0) ensures r.id != k.1 { assert (k.0, r.id) in OfTenant(was, tenant); }
      PutTablesElsewhere(Wiped(now, tenant), b, tenant, BACKUP_TABLES, k);
    }
  }

  /** Whatever happened to the database since the baseline was taken, the reset gives the tenant exactly the
      rows it had then. */
  lemma ResetRestores(was: Db, now: Db, b: Bundle, tenant: string)
    requires Exports(b, was, tenant) && AllTyped(was, tenant) && IdsFree(now, b, tenant)
    ensures OfTenant(PutTables(Wiped(now, tenant), b, tenant, BACKUP_TABLES), tenant) == OfTenant(was, tenant)
  {
    var after := PutTables(Wiped(now, tenant), b, tenant, BACKUP_TABLES);
    forall k
      ensures k in OfTenant(after, tenant) <==> k in OfTenant(was, tenant)
      ensures k in OfTenant(was, tenant) ==> after[k] == was[k]
    {
      ResetAt(was, now, b, tenant, k);
    }
  }

  /** Every other tenant keeps the rows it has now. */
  lemma ResetSparesOthers(was: Db, now: Db, b: Bundle, tenant: string, other: string)
    requires Exports(b, was, tenant) && AllTyped(was, tenant) && IdsFree(now, b, tenant) && other != tenant
    ensures OfTenant(PutTables(Wiped(now, tenant), b, tenant, BACKUP_TABLES), other) == OfTenant(now, other)
  {
    var after := PutTables(Wiped(now, tenant), b, tenant, BACKUP_TABLES);
    forall k
      ensures k in OfTenant(after, other) <==> k in OfTenant(now, other)
      ensures k in OfTenant(now, other) ==> after[k] == now[k]
    {
      ResetAt(was, now, b, tenant, k);
      NotTaken(was, now, b, tenant, k);
    }
  }

  lemma NotTaken(was: Db, now: Db, b: Bundle, tenant: string, k: (Model, string))
    requires Exports(b, was, tenant) && IdsFree(now, b, tenant)
    ensures k in OfTenant(was, tenant) && k in now ==> now[k].tenantId == tenant
  {
    if k in OfTenant(was, tenant) { assert Exported(was[k]) in RowsOf(b, k.0) && Exported(was[k]).id == k.1; }
  }

  lemma PutRowsOwned(db: Db, m: Model, tenant: string, rows: seq<Row>, k: (Model, string))
    requires k in PutRows(db, m, tenant, rows)
    ensures PutRows(db, m, tenant, rows)[k].tenantId == tenant
            || (k in db && PutRows(db, m, tenant, rows)[k] == db[k])
  {
    PutAt(db, m, rows, Reloader(tenant), k);
  }

  /** What a load puts in is the tenant's. */
  lemma {:induction false} PutTablesOwned(db: Db, b: Bundle, tenant: string, tables: seq<Model>, k: (Model, string))
    requires k in PutTables(db, b, tenant, tables)
    ensures PutTables(db, b, tenant, tables)[k].tenantId == tenant
            || (k in db && PutTables(db, b, tenant, tables)[k] == db[k])
  {
    if tables == [] {
    } else {
      var n := |tables| - 1;
      PutRowsOwned(PutTables(db, b, tenant, tables[..n]), tables[n], tenant, RowsOf(b, tables[n]), k);
      if k in PutTables(db, b, tenant, tables[..n]) { PutTablesOwned(db, b, tenant, tables[..n], k); }
    }
  }

  // ---- the service -------------------------------------------------------------------------------------

  class Resetter {
    var db: Db

    constructor (db: Db)
      ensures this.db == db
    {
      this.db := db;
    }

    /** Deletes the tenant's rows table by table, children first. */
    method Wipe(tenant: string)
      modifies this
      ensures db == Wiped(old(db), tenant)
    {
      var loader := new RS.TenantLoader(db);
      loader.Wipe(tenant);
      db := loader.db;
    }

    method InsertVerbatim(m: Model, tenant: string, rows: seq<Row>) returns (inserted: nat)
      modifies this
      ensures db == PutRows(old(db), m, tenant, rows) && inserted == |rows|
    {
      ghost var load := Reloader(tenant);
      inserted := 0;
      for i := 0 to |rows|
        invariant db == Put(old(db), m, rows[..i], load) && inserted == i
      {
        PutNext(old(db), m, rows, load, i);
        var fields := RS.CoerceDates(DATE_FIELDS, rows[i].fields);
        db := db[(m, rows[i].id) := Row(rows[i].id, tenant, fields)];
        inserted := inserted + 1;
      }
      assert rows[..|rows|] == rows;
    }

    method InsertAll(tenant: string, b: Bundle, tables: seq<Model>) returns (counts: map<Model, nat>)
      modifies this
      ensures db == PutTables(old(db), b, tenant, tables)
      ensures forall m :: m in tables ==> m in counts && counts[m] == |RowsOf(b, m)|
    {
      counts := map[];
      for i := 0 to |tables|
        invariant db == PutTables(old(db), b, tenant, tables[..i])
        invariant forall m :: m in tables[..i] ==> m in counts && counts[m] == |RowsOf(b, m)|
      {
        assert tables[..i + 1][..i] == tables[..i] && tables[..i + 1] == tables[..i] + [tables[i]];
        var inserted := InsertVerbatim(tables[i], tenant, RowsOf(b, tables[i]));
        counts := counts[tables[i] := inserted];
      }
      assert tables[..|tables|] == tables;
    }

    /** Wipes the tenant and inserts the bundle's rows under their own ids. */
    method LoadInPlace(tenant: string, b: Bundle) returns (counts: map<Model, nat>)
      modifies this
      ensures db == PutTables(Wiped(old(db), tenant), b, tenant, BACKUP_TABLES)
      ensures forall m :: m in counts && counts[m] == |RowsOf(b, m)|
    {
      Wipe(tenant);
      counts := InsertAll(tenant, b, BACKUP_TABLES);
      forall m: Model ensures m in BACKUP_TABLES { AllTables(m); }
    }
  }
}
