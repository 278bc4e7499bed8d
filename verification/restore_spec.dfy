/**
 * Loading a tenant's backup: the table catalogue, what happens to one row, and what the loaded tables
 * look like as a renaming of the bundle.
 */
module RestoreSpec {
  import opened Common
  import opened Json

  datatype Model =
    | PersonProfile | OrgUnit | Position | Group | RoleBinding | PermissionPolicy | DataScope
    | AssignmentResolution | Membership | Delegation | Notification | UnifiedWorkItem | CommandLog
    | ExternalExecution | TenantApplicationInstance | AppRoleMapping | AppAccountBinding | Workflow
    | WorkflowInstance | ApprovalTask | WorkflowEvent | ConnectorCommand | AuditLog
    | ProvisioningCommand | ProvisioningConflict | ImportJob | SourceRecord | DuplicatePair
    | TenantMasterOverlay

  /** Parents first, so that rows can be inserted in this order under real foreign keys. */
  const BACKUP_TABLES := [
    PersonProfile, OrgUnit, Position, Group, RoleBinding, PermissionPolicy, DataScope,
    AssignmentResolution, Membership, Delegation, Notification, UnifiedWorkItem, CommandLog,
    ExternalExecution, TenantApplicationInstance, AppRoleMapping, AppAccountBinding, Workflow,
    WorkflowInstance, ApprovalTask, WorkflowEvent, ConnectorCommand, AuditLog,
    ProvisioningCommand, ProvisioningConflict, ImportJob, SourceRecord, DuplicatePair,
    TenantMasterOverlay]

  /** The place of a table in this order. */
  function Place(m: Model): nat {
    match m
    case PersonProfile => 0 case OrgUnit => 1 case Position => 2 case Group => 3 case RoleBinding => 4
    case PermissionPolicy => 5 case DataScope => 6 case AssignmentResolution => 7 case Membership => 8
    case Delegation => 9 case Notification => 10 case UnifiedWorkItem => 11 case CommandLog => 12
    case ExternalExecution => 13 case TenantApplicationInstance => 14 case AppRoleMapping => 15
    case AppAccountBinding => 16 case Workflow => 17 case WorkflowInstance => 18 case ApprovalTask => 19
    case WorkflowEvent => 20 case ConnectorCommand => 21 case AuditLog => 22 case ProvisioningCommand => 23
    case ProvisioningConflict => 24 case ImportJob => 25 case SourceRecord => 26 case DuplicatePair => 27
    case TenantMasterOverlay => 28
  }

  lemma PlaceLow(i: nat)
    requires i < 15
    ensures Place(BACKUP_TABLES[i]) == i
  {
  }

  lemma PlaceHigh(i: nat)
    requires 15 <= i < |BACKUP_TABLES|
    ensures Place(BACKUP_TABLES[i]) == i
  {
  }

  lemma PlaceIs(i: nat)
    requires i < |BACKUP_TABLES|
    ensures Place(BACKUP_TABLES[i]) == i
  {
    if i < 15 { PlaceLow(i); } else { PlaceHigh(i); }
  }

  /** Columns the loader treats in some special way, and all others by name. */
  datatype Column =
    | ParentId | OrgUnitId | HolderPersonId | ReportsToPositionId | MemberPersonIds | PersonId
    | CommandId | InstanceId | ImportJobId | SourceRecordId
    | SubjectType | SubjectId | Status | Outcome
    | Dated(name: string)
    | Other(name: string)

  const DATE_FIELDS := [
    "createdAt", "updatedAt", "finishedAt", "actedAt", "escalatedAt", "readAt",
    "fromAt", "toAt", "resolvedAt", "snapshotAt", "lastSyncedAt", "enteredAt",
    "effectiveFrom", "effectiveTo", "dueAt", "at"]

  datatype Row = Row(id: string, tenantId: string, fields: map<Column, Value>)

  /** Rows of all tenants, by table and primary key. */
  type Db = map<(Model, string), Row>

  type Bundle = map<Model, seq<Row>>

  type IdMap = map<Model, map<string, string>>

  function RowsOf(b: Bundle, m: Model): seq<Row> { if m in b then b[m] else [] }

  function IdsOf(ids: IdMap, m: Model): map<string, string> { if m in ids then ids[m] else map[] }

  datatype FkRef = FkRef(column: Column, target: Model, many: bool)

  function FkRefs(m: Model): seq<FkRef> {
    match m
    case OrgUnit => [FkRef(ParentId, OrgUnit, false)]
    case Position => [FkRef(OrgUnitId, OrgUnit, false), FkRef(HolderPersonId, PersonProfile, false),
                      FkRef(ReportsToPositionId, Position, false)]
    case Group => [FkRef(MemberPersonIds, PersonProfile, true)]
    case AppAccountBinding => [FkRef(PersonId, PersonProfile, false)]
    case ProvisioningCommand => [FkRef(PersonId, PersonProfile, false)]
    case ProvisioningConflict => [FkRef(CommandId, ProvisioningCommand, false)]
    case ApprovalTask => [FkRef(InstanceId, WorkflowInstance, false)]
    case WorkflowEvent => [FkRef(InstanceId, WorkflowInstance, false)]
    case ConnectorCommand => [FkRef(InstanceId, WorkflowInstance, false)]
    case SourceRecord => [FkRef(ImportJobId, ImportJob, false)]
    case DuplicatePair => [FkRef(SourceRecordId, SourceRecord, false)]
    case _ => []
  }

  function SubjectModel(subjectType: Value): Option<Model> {
    if subjectType == JStr("USER") || subjectType == JStr("PERSON") then Some(PersonProfile)
    else if subjectType == JStr("POSITION") then Some(Position)
    else if subjectType == JStr("GROUP") then Some(Group)
    else if subjectType == JStr("ORG_UNIT") then Some(OrgUnit)
    else None
  }

  // ---- one row ------------------------------------------------------------------------------------

  /** A reference into the bundle follows the renaming; anything else is kept. */
  function Remap(ids: IdMap, m: Model, v: Value): Value {
    if v.JStr? && v.s in IdsOf(ids, m) then JStr(IdsOf(ids, m)[v.s]) else v
  }

  function RemapAll(ids: IdMap, m: Model, items: seq<Value>): (r: seq<Value>)
    ensures |r| == |items| && forall i :: 0 <= i < |items| ==> r[i] == Remap(ids, m, items[i])
  {
    seq(|items|, i requires 0 <= i < |items| => Remap(ids, m, items[i]))
  }

  function WithRef(ids: IdMap, ref: FkRef, fields: map<Column, Value>): map<Column, Value> {
    if ref.many then
      var items := if ref.column in fields && fields[ref.column].JArr? then fields[ref.column].items else [];
      fields[ref.column := JArr(RemapAll(ids, ref.target, items))]
    else if ref.column in fields then fields[ref.column := Remap(ids, ref.target, fields[ref.column])]
    else fields
  }

  function WithRefs(ids: IdMap, refs: seq<FkRef>, fields: map<Column, Value>): map<Column, Value> {
    if refs == [] then fields else WithRefs(ids, refs[1..], WithRef(ids, refs[0], fields))
  }

  /** The column that says to whom a role binding or data scope applies. */
  function WithSubject(ids: IdMap, m: Model, fields: map<Column, Value>): map<Column, Value> {
    if (m == RoleBinding || m == DataScope) && SubjectId in fields && fields[SubjectId].JStr?
        && fields[SubjectId].s != ""
       && SubjectType in fields && SubjectModel(fields[SubjectType]).Some?
    then fields[SubjectId := Remap(ids, SubjectModel(fields[SubjectType]).value, fields[SubjectId])]
    else fields
  }

  predicate InFlight(m: Model, fields: map<Column, Value>) {
    m == ProvisioningCommand && Status in fields
        && (fields[Status] == JStr("pending") || fields[Status] == JStr("sent"))
  }

  function SetKey(fs: seq<Field>, key: string, v: Value): seq<Field> {
    if fs == [] then [Field(key, v)]
    else if fs[0].key == key then [Field(key, v)] + fs[1..]
    else [fs[0]] + SetKey(fs[1..], key, v)
  }

  const HOLD_NOTE := "in-flight at backup watermark; not re-executed on restore"

  function Held(fields: map<Column, Value>): Value {
    var before := if Outcome in fields && fields[Outcome].JObj? then fields[Outcome].fields else [];
    JObj(SetKey(SetKey(before, "restoredHold", JBool(true)), "note", JStr(HOLD_NOTE)))
  }

  /** Commands that were under way are stored as completed, so that nothing runs them again. */
  function WithHold(m: Model, fields: map<Column, Value>): map<Column, Value> {
    if InFlight(m, fields) then fields[Status := JStr("completed")][Outcome := Held(fields)] else fields
  }

  function WithDate(name: string, fields: map<Column, Value>): map<Column, Value> {
    if Dated(name) in fields && fields[Dated(name)].JStr?
    then fields[Dated(name) := JDate(fields[Dated(name)].s)] else fields
  }

  function WithDates(names: seq<string>, fields: map<Column, Value>): map<Column, Value> {
    if names == [] then fields else WithDates(names[1..], WithDate(names[0], fields))
  }

  /** What a bundle row becomes in the target tenant. */
  function Loaded(ids: IdMap, m: Model, target: string, r: Row): Row
    requires r.id in IdsOf(ids, m)
  {
    var fields := WithSubject(ids, m, WithRefs(ids, FkRefs(m), r.fields));
    Row(IdsOf(ids, m)[r.id], target, WithDates(DATE_FIELDS, WithHold(m, fields)))
  }

  // ---- tables -------------------------------------------------------------------------------------

  ghost predicate DistinctIds(rows: seq<Row>) { forall i, j :: 0 <= i < j < |rows| ==> rows[i].id != rows[j].id }

  ghost predicate WellKeyed(b: Bundle) { forall m :: DistinctIds(RowsOf(b, m)) }

  /** Every bundle row has a new id; new ids are pairwise different and unused. */
  ghost predicate FreshIds(ids: IdMap, b: Bundle, used: set<string>) {
    && (forall m, r :: r in RowsOf(b, m) ==> r.id in IdsOf(ids, m))
    && (forall m, a :: a in IdsOf(ids, m) ==> IdsOf(ids, m)[a] !in used && exists r :: r in RowsOf(b, m) && r.id == a)
    && (forall m, n, x, y :: x in IdsOf(ids, m) && y in IdsOf(ids, n) && IdsOf(ids, m)[x] == IdsOf(ids, n)[y] ==>
        m == n && x == y)
  }

  /** The rows of every tenant but the target. */
  function Wiped(db: Db, target: string): Db {
    map k | k in db && db[k].tenantId != target :: db[k]
  }

  /** Rows stored one after the other, each under the id it is stored with. */
  ghost function Put(db: Db, m: Model, rows: seq<Row>, load: Row -> Row): Db {
    if rows == [] then db else
      var r := load(rows[|rows| - 1]);
      Put(db, m, rows[..|rows| - 1], load)[(m, r.id) := r]
  }

  lemma PutNext(db: Db, m: Model, rows: seq<Row>, load: Row -> Row, k: nat)
    requires k < |rows|
    ensures Put(db, m, rows[..k + 1], load) == Put(db, m, rows[..k], load)[(m, load(rows[k]).id) := load(rows[k])]
  {
    assert rows[..k + 1][..k] == rows[..k];
  }

  function Loader(ids: IdMap, m: Model, target: string): Row -> Row {
    (r: Row) => if r.id in IdsOf(ids, m) then Loaded(ids, m, target, r) else r
  }

  ghost function Inserted(db: Db, ids: IdMap, m: Model, target: string, rows: seq<Row>): Db {
    Put(db, m, rows, Loader(ids, m, target))
  }

  ghost function InsertedTables(db: Db, ids: IdMap, b: Bundle, target: string, tables: seq<Model>): Db {
    if tables == [] then db else
      var m := tables[|tables| - 1];
      Inserted(InsertedTables(db, ids, b, target, tables[..|tables| - 1]), ids, m, target, RowsOf(b, m))
  }

  ghost predicate KeepsOthers(db: Db, target: string, after: Db) {
    forall k :: k in db && db[k].tenantId != target ==> k in after && after[k] == db[k]
  }

  ghost predicate HasRow(ids: IdMap, m: Model, r: Row, target: string, after: Db) {
    r.id in IdsOf(ids, m)
    && (m, IdsOf(ids, m)[r.id]) in after && after[(m, IdsOf(ids, m)[r.id])] == Loaded(ids, m, target, r)
  }

  ghost predicate HasImage(ids: IdMap, b: Bundle, target: string, after: Db) {
    forall m, r :: r in RowsOf(b, m) ==> HasRow(ids, m, r, target, after)
  }

  ghost predicate Explained(db: Db, ids: IdMap, b: Bundle, target: string, after: Db, k: (Model, string))
    requires k in after
  {
    if after[k].tenantId != target then k in db && after[k] == db[k]
    else exists r :: r in RowsOf(b, k.0) && r.id in IdsOf(ids, k.0) && k.1 == IdsOf(ids, k.0)[r.id]
  }

  /** The database after the load: other tenants as before, the target tenant exactly the loaded bundle. */
  ghost predicate IsLoaded(db: Db, ids: IdMap, b: Bundle, target: string, after: Db) {
    KeepsOthers(db, target, after) && HasImage(ids, b, target, after)
    && forall k :: k in after ==> Explained(db, ids, b, target, after, k)
  }

  /** Row r is one of the rows, and is stored under this id. */
  predicate Makes(rows: seq<Row>, load: Row -> Row, id: string, r: Row) { r in rows && load(r).id == id }

  ghost predicate Made(rows: seq<Row>, load: Row -> Row, id: string) { exists r :: Makes(rows, load, id, r) }

  ghost predicate HoldsOne(after: Db, k: (Model, string), rows: seq<Row>, load: Row -> Row) {
    k in after && exists r :: Makes(rows, load, k.1, r) && after[k] == load(r)
  }

  lemma MadeMore(rows: seq<Row>, last: Row, load: Row -> Row, id: string)
    ensures Made(rows + [last], load, id) <==> Made(rows, load, id) || load(last).id == id
  {
    if Made(rows, load, id) {
      var r :| Makes(rows, load, id, r);
      assert Makes(rows + [last], load, id, r);
    }
    if load(last).id == id { assert Makes(rows + [last], load, id, last); }
    if Made(rows + [last], load, id) {
      var r :| Makes(rows + [last], load, id, r);
      assert r == last || Makes(rows, load, id, r);
    }
  }

  lemma HoldsOneMore(after: Db, k: (Model, string), rows: seq<Row>, last: Row, load: Row -> Row)
    requires HoldsOne(after, k, rows, load)
    ensures HoldsOne(after, k, rows + [last], load)
  {
    var r :| Makes(rows, load, k.1, r) && after[k] == load(r);
    assert Makes(rows + [last], load, k.1, r);
  }

  /** Under every key there is one of the rows stored there, or what was there before. */
  lemma {:induction false} PutAt(db: Db, m: Model, rows: seq<Row>, load: Row -> Row, k: (Model, string))
    ensures var after := Put(db, m, rows, load);
            if k.0 == m && Made(rows, load, k.1) then HoldsOne(after, k, rows, load)
            else (k in after <==> k in db) && (k in db ==> after[k] == db[k])
  {
    if rows == [] {
      assert !Made(rows, load, k.1);
    } else {
      var init, last, after := rows[..|rows| - 1], rows[|rows| - 1], Put(db, m, rows, load);
      assert rows == init + [last];
      MadeMore(init, last, load, k.1);
      if k == (m, load(last).id) {
        assert Makes(rows, load, k.1, last);
      } else {
        var before := Put(db, m, init, load);
        PutAt(db, m, init, load, k);
        if k.0 == m && Made(init, load, k.1) { HoldsOneMore(before, k, init, last, load); }
      }
    }
  }

  lemma {:induction false} InsertedTablesAt(db: Db, ids: IdMap, b: Bundle, target: string, tables: seq<Model>,
                                            k: (Model, string))
    ensures var after := InsertedTables(db, ids, b, target, tables);
            if k.0 in tables && Made(RowsOf(b, k.0), Loader(ids, k.0, target), k.1)
            then HoldsOne(after, k, RowsOf(b, k.0), Loader(ids, k.0, target))
            else (k in after <==> k in db) && (k in db ==> after[k] == db[k])
  {
    if tables == [] {
    } else {
      var last := tables[|tables| - 1];
      var init := tables[..|tables| - 1];
      InsertedTablesAt(db, ids, b, target, init, k);
      PutAt(InsertedTables(db, ids, b, target, init), last, RowsOf(b, last), Loader(ids, last, target), k);
      assert tables == init + [last];
    }
  }

  lemma AllTables(m: Model)
    ensures m in BACKUP_TABLES
  {
  }

  /** A table list that leaves no table out. */
  ghost predicate Complete(tables: seq<Model>) { forall m :: m in tables }

  lemma LoadKeepsOthers(db: Db, ids: IdMap, b: Bundle, target: string, used: set<string>, tables: seq<Model>,
                        k: (Model, string))
    requires FreshIds(ids, b, used) && k in db && k.1 in used && db[k].tenantId != target
    ensures var after := InsertedTables(Wiped(db, target), ids, b, target, tables); k in after && after[k] == db[k]
  {
    InsertedTablesAt(Wiped(db, target), ids, b, target, tables, k);
    forall r ensures !Makes(RowsOf(b, k.0), Loader(ids, k.0, target), k.1, r) { }
  }

  lemma LoadHasRow(db: Db, ids: IdMap, b: Bundle, target: string, used: set<string>, tables: seq<Model>, m: Model,
                   r: Row)
    requires FreshIds(ids, b, used) && DistinctIds(RowsOf(b, m)) && Complete(tables) && r in RowsOf(b, m)
    ensures HasRow(ids, m, r, target, InsertedTables(Wiped(db, target), ids, b, target, tables))
  {
    var k, load := (m, IdsOf(ids, m)[r.id]), Loader(ids, m, target);
    var after := InsertedTables(Wiped(db, target), ids, b, target, tables);
    assert Makes(RowsOf(b, m), load, k.1, r);
    InsertedTablesAt(Wiped(db, target), ids, b, target, tables, k);
    var r' :| Makes(RowsOf(b, m), load, k.1, r') && after[k] == load(r');
    assert r'.id in IdsOf(ids, m) && IdsOf(ids, m)[r'.id] == IdsOf(ids, m)[r.id];
    SameId(RowsOf(b, m), r, r');
  }

  lemma LoadHasOnly(db: Db, ids: IdMap, b: Bundle, target: string, used: set<string>, tables: seq<Model>,
                    k: (Model, string))
    requires FreshIds(ids, b, used)
    requires k in InsertedTables(Wiped(db, target), ids, b, target, tables)
    ensures Explained(db, ids, b, target, InsertedTables(Wiped(db, target), ids, b, target, tables), k)
  {
    InsertedTablesAt(Wiped(db, target), ids, b, target, tables, k);
  }

  /** Inserting the loaded rows into the wiped database gives exactly the loaded bundle. */
  lemma LoadIsImage(db: Db, ids: IdMap, b: Bundle, target: string, used: set<string>, tables: seq<Model>)
    requires WellKeyed(b) && FreshIds(ids, b, used) && Complete(tables) && forall k :: k in db ==> k.1 in used
    ensures IsLoaded(db, ids, b, target, InsertedTables(Wiped(db, target), ids, b, target, tables))
  {
    var after := InsertedTables(Wiped(db, target), ids, b, target, tables);
    forall k | k in db && db[k].tenantId != target ensures k in after && after[k] == db[k] {
      LoadKeepsOthers(db, ids, b, target, used, tables, k);
    }
    forall m, r | r in RowsOf(b, m) ensures HasRow(ids, m, r, target, after) {
      LoadHasRow(db, ids, b, target, used, tables, m, r);
    }
    forall k | k in after ensures Explained(db, ids, b, target, after, k) {
      LoadHasOnly(db, ids, b, target, used, tables, k);
    }
  }

  lemma SameId(rows: seq<Row>, r: Row, s: Row)
    requires DistinctIds(rows) && r in rows && s in rows && r.id == s.id
    ensures r == s
  {
  }
}
