/** The loader itself: wipe the target, give every row a new id, rewrite and insert table by table. */
module RestoreService {
  import opened Common
  import opened Json
  import opened RestoreSpec
  import opened RestoreGraph

  datatype Report = Report(
    ids: IdMap, inserted: map<Model, nat>, totalRows: nat, inFlightHeld: nat, danglingHolders: nat)

  datatype Error = LiveSourceTenant

  ghost function HeldCount(m: Model, rows: seq<Row>): nat {
    if rows == [] then 0 else
      HeldCount(m, rows[..|rows| - 1]) + if InFlight(m, rows[|rows| - 1].fields) then 1 else 0
  }

  ghost function HeldIn(b: Bundle, tables: seq<Model>): nat {
    if tables == [] then 0 else
      HeldIn(b, tables[..|tables| - 1]) + HeldCount(tables[|tables| - 1], RowsOf(b, tables[|tables| - 1]))
  }

  ghost function RowCount(b: Bundle, tables: seq<Model>): nat {
    if tables == [] then 0 else RowCount(b, tables[..|tables| - 1]) + |RowsOf(b, tables[|tables| - 1])|
  }

  /** The rows of some tables, one table after the other. */
  ghost function RowsIn(b: Bundle, tables: seq<Model>): seq<Row> {
    if tables == [] then [] else RowsIn(b, tables[..|tables| - 1]) + RowsOf(b, tables[|tables| - 1])
  }

  /** The commands among some rows that are pending or sent. */
  ghost function Waiting(rows: seq<Row>): seq<Row> {
    if rows == [] then [] else
      var r := rows[|rows| - 1];
      Waiting(rows[..|rows| - 1])
      + if Status in r.fields && (r.fields[Status] == JStr("pending") || r.fields[Status] == JStr("sent"))
        then [r] else []
  }

  lemma {:induction false} HeldWaiting(m: Model, rows: seq<Row>)
    ensures HeldCount(m, rows) == if m == ProvisioningCommand then |Waiting(rows)| else 0
  {
    if rows == [] {
    } else {
      HeldWaiting(m, rows[..|rows| - 1]);
    }
  }

  lemma {:induction false} HeldOnce(b: Bundle, tables: seq<Model>)
    requires NoDuplicates(tables)
    ensures HeldIn(b, tables)
            == if ProvisioningCommand in tables then |Waiting(RowsOf(b, ProvisioningCommand))| else 0
  {
    if tables == [] {
    } else {
      var init, last := tables[..|tables| - 1], tables[|tables| - 1];
      assert tables == init + [last];
      assert last !in init;
      HeldOnce(b, init);
      HeldWaiting(last, RowsOf(b, last));
    }
  }

  lemma {:induction false} RowsCounted(b: Bundle, tables: seq<Model>)
    ensures RowCount(b, tables) == |RowsIn(b, tables)|
  {
    if tables == [] {
    } else {
      RowsCounted(b, tables[..|tables| - 1]);
    }
  }

  /** What a load reports: the number of all rows of the bundle, and of its commands that were pending or sent. */
  lemma ReportCounts(b: Bundle)
    ensures RowCount(b, BACKUP_TABLES) == |RowsIn(b, BACKUP_TABLES)|
    ensures HeldIn(b, BACKUP_TABLES) == |Waiting(RowsOf(b, ProvisioningCommand))|
  {
    RowsCounted(b, BACKUP_TABLES);
    forall i, j | 0 <= i < j < |BACKUP_TABLES| ensures BACKUP_TABLES[i] != BACKUP_TABLES[j] {
      PlaceIs(i);
      PlaceIs(j);
    }
    HeldOnce(b, BACKUP_TABLES);
    AllTables(ProvisioningCommand);
  }

  /** Ids given out so far: each from the supply, none twice. */
  ghost predicate GivenOut(ids: IdMap, given: set<string>) {
    && (forall m, a :: a in IdsOf(ids, m) ==> IdsOf(ids, m)[a] in given)
    && (forall m, n, x, y :: x in IdsOf(ids, m) && y in IdsOf(ids, n) && IdsOf(ids, m)[x] == IdsOf(ids, n)[y] ==>
        m == n && x == y)
  }

  function Assign(ids: IdMap, m: Model, a: string, id: string): IdMap { ids[m := IdsOf(ids, m)[a := id]] }

  lemma AssignAt(ids: IdMap, m: Model, a: string, id: string, n: Model, x: string)
    ensures x in IdsOf(Assign(ids, m, a, id), n) <==> x in IdsOf(ids, n) || (n == m && x == a)
    ensures x in IdsOf(Assign(ids, m, a, id), n) ==>
              IdsOf(Assign(ids, m, a, id), n)[x] == if n == m && x == a then id else IdsOf(ids, n)[x]
  {
  }

  lemma GiveOut(ids: IdMap, given: set<string>, m: Model, a: string, id: string)
    requires GivenOut(ids, given) && id !in given
    ensures GivenOut(Assign(ids, m, a, id), given + {id})
  {
    var ids' := Assign(ids, m, a, id);
    forall n, x | x in IdsOf(ids', n) ensures IdsOf(ids', n)[x] in given + {id} { AssignAt(ids, m, a, id, n, x); }
    forall n, n', x, y | x in IdsOf(ids', n) && y in IdsOf(ids', n') && IdsOf(ids', n)[x] == IdsOf(ids', n')[y]
      ensures n == n' && x == y
    {
      AssignAt(ids, m, a, id, n, x);
      AssignAt(ids, m, a, id, n', y);
    }
  }

  ghost predicate Named(ids: IdMap, m: Model, rows: seq<Row>) { forall r :: r in rows ==> r.id in IdsOf(ids, m) }

  ghost predicate OnlyNames(ids: IdMap, b: Bundle) {
    forall m, a :: a in IdsOf(ids, m) ==> exists r :: r in RowsOf(b, m) && r.id == a
  }

  lemma NameRow(ids: IdMap, b: Bundle, m: Model, row: Row, id: string)
    requires OnlyNames(ids, b) && row in RowsOf(b, m)
    ensures OnlyNames(Assign(ids, m, row.id, id), b)
  {
    forall n, x | x in IdsOf(Assign(ids, m, row.id, id), n) ensures exists r :: r in RowsOf(b, n) && r.id == x {
      AssignAt(ids, m, row.id, id, n, x);
    }
  }

  lemma NamesGrow(ids: IdMap, m: Model, rows: seq<Row>, k: nat, id: string)
    requires k < |rows| && Named(ids, m, rows[..k])
    ensures Named(Assign(ids, m, rows[k].id, id), m, rows[..k + 1])
    ensures forall n, x :: x in IdsOf(ids, n) ==> x in IdsOf(Assign(ids, m, rows[k].id, id), n)
  {
    forall n, x | x in IdsOf(ids, n) ensures x in IdsOf(Assign(ids, m, rows[k].id, id), n) {
      AssignAt(ids, m, rows[k].id, id, n, x);
    }
    AssignAt(ids, m, rows[k].id, id, m, rows[k].id);
    assert rows[..k + 1] == rows[..k] + [rows[k]];
  }

  /** One new id per row of every table. */
  method AssignIds(b: Bundle, uuid: nat -> string, ghost used: set<string>) returns (ids: IdMap)
    requires forall i, j :: uuid(i) == uuid(j) ==> i == j
    requires forall i :: uuid(i) !in used
    ensures FreshIds(ids, b, used)
  {
    ids := map[];
    var next := 0;
    ghost var given: set<string> := {};
    for i := 0 to |BACKUP_TABLES|
      invariant GivenOut(ids, given) && given !! used && forall j :: j >= next ==> uuid(j) !in given
      invariant forall m :: m in BACKUP_TABLES[..i] ==> Named(ids, m, RowsOf(b, m))
      invariant OnlyNames(ids, b)
    {
      var m := BACKUP_TABLES[i];
      ids, next, given := AssignTable(b, m, uuid, ids, next, given, used);
    }
    forall m ensures Named(ids, m, RowsOf(b, m)) {
      AllTables(m);
    }
  }

  method AssignTable(b: Bundle, m: Model, uuid: nat -> string, ids0: IdMap, next0: nat, ghost given0: set<string>,
                     ghost used: set<string>)
    returns (ids: IdMap, next: nat, ghost given: set<string>)
    requires forall i, j :: uuid(i) == uuid(j) ==> i == j
    requires forall i :: uuid(i) !in used
    requires GivenOut(ids0, given0) && given0 !! used && forall j :: j >= next0 ==> uuid(j) !in given0
    requires OnlyNames(ids0, b)
    ensures GivenOut(ids, given) && given !! used && forall j :: j >= next ==> uuid(j) !in given
    ensures OnlyNames(ids, b)
    ensures Named(ids, m, RowsOf(b, m))
    ensures forall n, a :: a in IdsOf(ids0, n) ==> a in IdsOf(ids, n)
  {
    ids, next, given := ids0, next0, given0;
    var rows := RowsOf(b, m);
    for k := 0 to |rows|
      invariant GivenOut(ids, given) && given !! used && forall j :: j >= next ==> uuid(j) !in given
      invariant OnlyNames(ids, b)
      invariant Named(ids, m, rows[..k])
      invariant forall n, a :: a in IdsOf(ids0, n) ==> a in IdsOf(ids, n)
    {
      var id := uuid(next);
      GiveOut(ids, given, m, rows[k].id, id);
      NameRow(ids, b, m, rows[k], id);
      NamesGrow(ids, m, rows, k, id);
      ids := ids[m := IdsOf(ids, m)[rows[k].id := id]];
      next, given := next + 1, given + {id};
    }
  }

  method RewriteRefs(ids: IdMap, refs: seq<FkRef>, given: map<Column, Value>) returns (fields: map<Column, Value>)
    ensures fields == WithRefs(ids, refs, given)
  {
    fields := given;
    for i := 0 to |refs|
      invariant WithRefs(ids, refs, given) == WithRefs(ids, refs[i..], fields)
    {
      var ref := refs[i];
      assert refs[i..][0] == ref && refs[i..][1..] == refs[i + 1..];
      if ref.many {
        var items := if ref.column in fields && fields[ref.column].JArr? then fields[ref.column].items else [];
        fields := fields[ref.column := JArr(RemapAll(ids, ref.target, items))];
      } else if ref.column in fields {
        fields := fields[ref.column := Remap(ids, ref.target, fields[ref.column])];
      }
    }
  }

  /** Turns the strings of the date columns back into dates. */
  method CoerceDates(names: seq<string>, given: map<Column, Value>) returns (fields: map<Column, Value>)
    ensures fields == WithDates(names, given)
  {
    fields := given;
    for i := 0 to |names|
      invariant WithDates(names, given) == WithDates(names[i..], fields)
    {
      var c := Dated(names[i]);
      assert names[i..][0] == names[i] && names[i..][1..] == names[i + 1..];
      if c in fields && fields[c].JStr? {
        fields := fields[c := JDate(fields[c].s)];
      }
    }
  }

  /** Rewrites one row step by step. */
  method LoadRow(ids: IdMap, m: Model, target: string, src: Row) returns (row: Row, held: bool)
    requires src.id in IdsOf(ids, m)
    ensures row == Loaded(ids, m, target, src)
    ensures held == InFlight(m, src.fields)
  {
    var fields := RewriteRefs(ids, FkRefs(m), src.fields);
    StatusKept(ids, m, src.fields);
    if (m == RoleBinding || m == DataScope) && SubjectId in fields && fields[SubjectId].JStr?
        && fields[SubjectId].s != "" {
      if SubjectType in fields {
        var subject := SubjectModel(fields[SubjectType]);
        if subject.Some? {
          fields := fields[SubjectId := Remap(ids, subject.value, fields[SubjectId])];
        }
      }
    }
    held := InFlight(m, fields);
    if held {
      fields := fields[Status := JStr("completed")][Outcome := Held(fields)];
    }
    fields := CoerceDates(DATE_FIELDS, fields);
    row := Row(IdsOf(ids, m)[src.id], target, fields);
  }

  lemma StatusKept(ids: IdMap, m: Model, fields: map<Column, Value>)
    ensures InFlight(m, WithSubject(ids, m, WithRefs(ids, FkRefs(m), fields))) == InFlight(m, fields)
  {
    RefColumns(m);
    RefsKeep(ids, FkRefs(m), fields, Status);
  }

  lemma LoaderAt(ids: IdMap, m: Model, target: string, r: Row)
    requires r.id in IdsOf(ids, m)
    ensures Loader(ids, m, target)(r) == Loaded(ids, m, target, r)
  {
  }

  lemma NextHeld(m: Model, rows: seq<Row>, k: nat)
    requires k < |rows|
    ensures HeldCount(m, rows[..k + 1]) == HeldCount(m, rows[..k]) + if InFlight(m, rows[k].fields) then 1 else 0
  {
    assert rows[..k + 1][..k] == rows[..k];
  }

  lemma NextTable(db: Db, ids: IdMap, b: Bundle, target: string, tables: seq<Model>, i: nat)
    requires i < |tables|
    ensures InsertedTables(db, ids, b, target, tables[..i + 1])
            == Inserted(InsertedTables(db, ids, b, target, tables[..i]), ids, tables[i], target, RowsOf(b, tables[i]))
    ensures HeldIn(b, tables[..i + 1]) == HeldIn(b, tables[..i]) + HeldCount(tables[i], RowsOf(b, tables[i]))
    ensures RowCount(b, tables[..i + 1]) == RowCount(b, tables[..i]) + |RowsOf(b, tables[i])|
  {
    assert tables[..i + 1][..i] == tables[..i];
  }

  class TenantLoader {
    var db: Db

    constructor (db: Db)
      ensures this.db == db
    {
      this.db := db;
    }

    method WipeTables(target: string, tables: seq<Model>)
      modifies this
      ensures db == map k | k in old(db) && !(k.0 in tables && old(db)[k].tenantId == target) :: old(db)[k]
    {
      var i := |tables|;
      while i > 0
        invariant 0 <= i <= |tables|
        invariant db == map k | k in old(db) && !(k.0 in tables[i..] && old(db)[k].tenantId == target) :: old(db)[k]
      {
        i := i - 1;
        var m := tables[i];
        assert tables[i..] == [m] + tables[i + 1..];
        db := map k | k in db && !(k.0 == m && db[k].tenantId == target) :: db[k];
      }
      assert tables[0..] == tables;
    }

    /** Deletes the target tenant's rows, children first. */
    method Wipe(target: string)
      modifies this
      ensures db == Wiped(old(db), target)
    {
      WipeTables(target, BACKUP_TABLES);
      forall m: Model ensures m in BACKUP_TABLES { AllTables(m); }
    }

    /** Inserts the rewritten rows of one table. */
    method InsertTable(ids: IdMap, b: Bundle, m: Model, target: string) returns (inserted: nat, held: nat)
      requires forall r :: r in RowsOf(b, m) ==> r.id in IdsOf(ids, m)
      modifies this
      ensures db == Inserted(old(db), ids, m, target, RowsOf(b, m))
      ensures inserted == |RowsOf(b, m)| && held == HeldCount(m, RowsOf(b, m))
    {
      var rows := RowsOf(b, m);
      ghost var load := Loader(ids, m, target);
      held := 0;
      for k := 0 to |rows|
        invariant db == Put(old(db), m, rows[..k], load)
        invariant held == HeldCount(m, rows[..k])
      {
        PutNext(old(db), m, rows, load, k);
        LoaderAt(ids, m, target, rows[k]);
        NextHeld(m, rows, k);
        var row, wasHeld := LoadRow(ids, m, target, rows[k]);
        db := db[(m, row.id) := row];
        if wasHeld { held := held + 1; }
      }
      assert rows[..|rows|] == rows;
      inserted := |rows|;
    }

    /** Inserts every table, parents first. */
    method InsertTables(ids: IdMap, b: Bundle, target: string, tables: seq<Model>)
      returns (counts: map<Model, nat>, total: nat, held: nat)
      requires forall m, r :: r in RowsOf(b, m) ==> r.id in IdsOf(ids, m)
      modifies this
      ensures db == InsertedTables(old(db), ids, b, target, tables)
      ensures forall m :: m in tables ==> m in counts && counts[m] == |RowsOf(b, m)|
      ensures total == RowCount(b, tables) && held == HeldIn(b, tables)
    {
      counts, total, held := map[], 0, 0;
      for i := 0 to |tables|
        invariant db == InsertedTables(old(db), ids, b, target, tables[..i])
        invariant forall m :: m in tables[..i] ==> m in counts && counts[m] == |RowsOf(b, m)|
        invariant total == RowCount(b, tables[..i]) && held == HeldIn(b, tables[..i])
      {
        NextTable(old(db), ids, b, target, tables, i);
        var inserted, wasHeld := InsertTable(ids, b, tables[i], target);
        counts := counts[tables[i] := inserted];
        total, held := total + inserted, held + wasHeld;
      }
      assert tables[..|tables|] == tables;
    }

    /** Positions of the target whose holder is not a person of the target. */
    method CountDangling(target: string) returns (n: nat)
      ensures n == |DanglingPositions(db, target)|
    {
      var persons := set k | k in db && k.0 == PersonProfile && db[k].tenantId == target :: k.1;
      var dangling := set k | k in db && k.0 == Position && db[k].tenantId == target
                              && Holder(db[k]).Some? && Holder(db[k]).value !in persons;
      assert dangling == DanglingPositions(db, target);
      n := |dangling|;
    }

    /** Replaces the target tenant by the renamed bundle; refuses the live source tenant. */
    method LoadIntoSandbox(source: string, target: string, b: Bundle, uuid: nat -> string, ghost used: set<string>)
      returns (r: Result<Report, Error>)
      requires WellKeyed(b) && forall k :: k in db ==> k.1 in used
      requires forall i, j :: uuid(i) == uuid(j) ==> i == j
      requires forall i :: uuid(i) !in used
      modifies this
      ensures r.Err? <==> source == target
      ensures r.Err? ==> db == old(db)
      ensures r.Ok? ==>
                && FreshIds(r.value.ids, b, used)
                && IsLoaded(old(db), r.value.ids, b, target, db)
                && (forall m :: m in r.value.inserted && r.value.inserted[m] == |RowsOf(b, m)|)
                && r.value.totalRows == RowCount(b, BACKUP_TABLES)
                && r.value.inFlightHeld == HeldIn(b, BACKUP_TABLES)
                && r.value.danglingHolders == |DanglingPositions(db, target)|
    {
      if target == source { return Err(LiveSourceTenant); }
      Wipe(target);
      var ids := AssignIds(b, uuid, used);
      var counts, total, held := InsertTables(ids, b, target, BACKUP_TABLES);
      forall m: Model ensures m in BACKUP_TABLES { AllTables(m); }
      LoadIsImage(old(db), ids, b, target, used, BACKUP_TABLES);
      var dangling := CountDangling(target);
      r := Ok(Report(ids, counts, total, held, dangling));
    }
  }
}
