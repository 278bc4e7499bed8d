/**
 * From the database to a bundle text and back: what the rows read from a written bundle are, when the reset
 * of a demo tenant accepts a bundle, and what it then leaves.
 */
module BackupReset {
  import opened Common
  import opened Json
  import opened RestoreInPlace
  import opened RestoreSpec
  import BB = BackupBundle
  import Canonical
  import SecretScan

  // ---- rows as JSON objects --------------------------------------------------------------------------

  function TableName(m: Model): string {
    match m
    case PersonProfile => "PersonProfile" case OrgUnit => "OrgUnit" case Position => "Position" case Group => "Group"
    case RoleBinding => "RoleBinding" case PermissionPolicy => "PermissionPolicy" case DataScope => "DataScope"
    case AssignmentResolution => "AssignmentResolution" case Membership => "Membership" case Delegation => "Delegation"
    case Notification => "Notification" case UnifiedWorkItem => "UnifiedWorkItem" case CommandLog => "CommandLog"
    case ExternalExecution => "ExternalExecution" case TenantApplicationInstance => "TenantApplicationInstance"
    case AppRoleMapping => "AppRoleMapping" case AppAccountBinding => "AppAccountBinding" case Workflow => "Workflow"
    case WorkflowInstance => "WorkflowInstance" case ApprovalTask => "ApprovalTask"
    case WorkflowEvent => "WorkflowEvent"
    case ConnectorCommand => "ConnectorCommand" case AuditLog => "AuditLog"
    case ProvisioningCommand => "ProvisioningCommand"
    case ProvisioningConflict => "ProvisioningConflict" case ImportJob => "ImportJob"
    case SourceRecord => "SourceRecord"
    case DuplicatePair => "DuplicatePair" case TenantMasterOverlay => "TenantMasterOverlay"
  }

  /** The column a key of an exported row stands for. */
  function ColumnOf(key: string): Column {
    if key == "parentId" then ParentId
    else if key == "orgUnitId" then OrgUnitId
    else if key == "holderPersonId" then HolderPersonId
    else if key == "reportsToPositionId" then ReportsToPositionId
    else if key == "memberPersonIds" then MemberPersonIds
    else if key == "personId" then PersonId
    else if key == "commandId" then CommandId
    else if key == "instanceId" then InstanceId
    else if key == "importJobId" then ImportJobId
    else if key == "sourceRecordId" then SourceRecordId
    else if key == "subjectType" then SubjectType
    else if key == "subjectId" then SubjectId
    else if key == "status" then Status
    else if key == "result" then Outcome
    else if key in DATE_FIELDS then Dated(key)
    else Other(key)
  }

  function ColumnsOf(fs: seq<Field>): map<Column, Value> {
    if fs == [] then map[]
    else if fs[0].key == "id" || fs[0].key == "tenantId" then ColumnsOf(fs[1..])
    else ColumnsOf(fs[1..])[ColumnOf(fs[0].key) := fs[0].value]
  }

  function TextAt(v: Value, key: string): string {
    match BB.Get(v, key) case Some(JStr(s)) => s case _ => ""
  }

  predicate HasText(v: Value, key: string) { BB.Get(v, key).Some? && BB.Get(v, key).value.JStr? }

  /** The row an object stands for. */
  function RowOf(v: Value): Row {
    Row(TextAt(v, "id"), TextAt(v, "tenantId"), if v.JObj? then ColumnsOf(v.fields) else map[])
  }

  function RowsFrom(items: seq<Value>): (rows: seq<Row>)
    ensures |rows| == |items| && forall i :: 0 <= i < |items| ==> rows[i] == RowOf(items[i])
  {
    seq(|items|, i requires 0 <= i < |items| => RowOf(items[i]))
  }

  /** The rows a bundle's data holds for a table; a table it lacks has none. */
  function TableRows(data: Value, m: Model): seq<Row> {
    match BB.Get(data, TableName(m)) case Some(JArr(items)) => RowsFrom(items) case _ => []
  }

  function BundleOf(data: Value): Bundle { map m | m in BACKUP_TABLES :: TableRows(data, m) }

  lemma {:induction false} PlainColumns(fs: seq<Field>)
    ensures ColumnsOf(PlainFields(fs)) == map c | c in ColumnsOf(fs) :: Plain(ColumnsOf(fs)[c])
  {
    if fs == [] {
    } else {
      PlainColumns(fs[1..]);
      assert PlainFields(fs)[1..] == PlainFields(fs[1..]);
    }
  }

  predicate RowObject(v: Value) { v.JObj? && HasText(v, "id") && HasText(v, "tenantId") }

  /** A row object that went through text is the exported row. */
  lemma PlainRow(v: Value)
    requires RowObject(v)
    ensures RowOf(Plain(v)) == Exported(RowOf(v))
  {
    PlainColumns(v.fields);
    BB.PlainGet(v, "id");
    BB.PlainGet(v, "tenantId");
  }

  // ---- what an export lists ----------------------------------------------------------------------------

  /** The rows are the tenant's rows of one table, each once. */
  ghost predicate ListsTable(rows: seq<Row>, db: Db, tenant: string, m: Model) {
    && DistinctIds(rows)
    && (forall r :: r in rows ==> (m, r.id) in OfTenant(db, tenant) && db[(m, r.id)] == r)
    && (forall id :: (m, id) in OfTenant(db, tenant) ==> db[(m, id)] in rows && db[(m, id)].id == id)
  }

  predicate RowTable(rows: Value) {
    rows.JArr? && WellFormed(rows) && forall i :: 0 <= i < |rows.items| ==> RowObject(rows.items[i])
  }

  /** What the export reads: every table of the catalogue, in order, with the tenant's rows. */
  ghost predicate Snapshot(tables: seq<BB.Table>, db: Db, tenant: string) {
    && |tables| == |BACKUP_TABLES|
    && forall i :: 0 <= i < |tables| ==>
         && tables[i].name == TableName(BACKUP_TABLES[i])
         && RowTable(tables[i].rows)
         && ListsTable(RowsFrom(tables[i].rows.items), db, tenant, BACKUP_TABLES[i])
  }

  /** The table a name belongs to, told by its length and first letter. */
  function Marked(name: string): Model
    requires name != ""
  {
    var n, c := |name|, name[0];
    if n == 5 then Group
    else if n == 7 then OrgUnit
    else if n == 8 then (if c == 'P' then Position else if c == 'W' then Workflow else AuditLog)
    else if n == 9 then (if c == 'D' then DataScope else ImportJob)
    else if n == 10 then (if c == 'M' then Membership else if c == 'D' then Delegation else CommandLog)
    else if n == 11 then RoleBinding
    else if n == 12 then (if c == 'N' then Notification else if c == 'A' then ApprovalTask else SourceRecord)
    else if n == 13 then (if c == 'P' then PersonProfile else if c == 'W' then WorkflowEvent else DuplicatePair)
    else if n == 14 then AppRoleMapping
    else if n == 15 then UnifiedWorkItem
    else if n == 16 then
      (if c == 'P' then PermissionPolicy else if c == 'W' then WorkflowInstance else ConnectorCommand)
    else if n == 17 then (if c == 'E' then ExternalExecution else AppAccountBinding)
    else if n == 19 then (if c == 'P' then ProvisioningCommand else TenantMasterOverlay)
    else if n == 20 then (if c == 'A' then AssignmentResolution else ProvisioningConflict)
    else TenantApplicationInstance
  }

  lemma MarkTellsLow(m: Model, name: string)
    requires name == TableName(m) && Place(m) < 15
    ensures name != "" && Marked(name) == m
  {
  }

  lemma MarkTellsHigh(m: Model, name: string)
    requires name == TableName(m) && Place(m) >= 15
    ensures name != "" && Marked(name) == m
  {
  }

  lemma MarkTells(m: Model, name: string)
    requires name == TableName(m)
    ensures name != "" && Marked(name) == m
  {
    if Place(m) < 15 { MarkTellsLow(m, name); } else { MarkTellsHigh(m, name); }
  }

  lemma NamesDiffer(m: Model, n: Model)
    requires TableName(m) == TableName(n)
    ensures m == n
  {
    MarkTells(m, TableName(m));
    MarkTells(n, TableName(m));
  }

  lemma {:induction false} LookupFirst(fs: seq<Field>, n: nat) returns (i: nat)
    requires n < |fs|
    ensures i <= n && fs[i].key == fs[n].key && BB.Lookup(fs, fs[n].key) == Some(fs[i].value)
  {
    if fs[0].key == fs[n].key {
      i := 0;
    } else {
      i := LookupFirst(fs[1..], n - 1);
      i := i + 1;
    }
  }

  /** The data holds each table's rows under its name. */
  lemma DataAt(tables: seq<BB.Table>, db: Db, tenant: string, m: Model) returns (i: nat)
    requires Snapshot(tables, db, tenant)
    ensures i < |tables| && BACKUP_TABLES[i] == m && BB.Get(BB.DataOf(tables), TableName(m)) == Some(tables[i].rows)
  {
    AllTables(m);
    var n :| 0 <= n < |BACKUP_TABLES| && BACKUP_TABLES[n] == m;
    i := LookupFirst(BB.FieldsOf(tables), n);
    NamesDiffer(BACKUP_TABLES[i], m);
  }

  lemma PlainRows(items: seq<Value>)
    requires forall i :: 0 <= i < |items| ==> RowObject(items[i])
    ensures |RowsFrom(PlainItems(items))| == |items|
    ensures forall i :: 0 <= i < |items| ==> RowsFrom(PlainItems(items))[i] == Exported(RowsFrom(items)[i])
  {
    Canonical.PlainItemsAt(items);
    forall i | 0 <= i < |items| ensures RowsFrom(PlainItems(items))[i] == Exported(RowsFrom(items)[i]) {
      PlainRow(items[i]);
    }
  }

  /** The rows of a table as they are read back from the text of an export. */
  lemma TableReadBack(tables: seq<BB.Table>, db: Db, tenant: string, m: Model) returns (rows: seq<Row>)
    requires Snapshot(tables, db, tenant)
    ensures ListsTable(rows, db, tenant, m)
    ensures var back := TableRows(Plain(BB.DataOf(tables)), m);
            |back| == |rows| && forall i :: 0 <= i < |rows| ==> back[i] == Exported(rows[i])
  {
    var i := DataAt(tables, db, tenant, m);
    rows := RowsFrom(tables[i].rows.items);
    BB.PlainGet(BB.DataOf(tables), TableName(m));
    PlainRows(tables[i].rows.items);
  }

  lemma ReadBackLists(tables: seq<BB.Table>, db: Db, tenant: string, m: Model)
    requires Snapshot(tables, db, tenant)
    ensures var back := TableRows(Plain(BB.DataOf(tables)), m);
            && DistinctIds(back)
            && (forall r :: r in back ==> (m, r.id) in OfTenant(db, tenant) && r == Exported(db[(m, r.id)]))
            && (forall id :: (m, id) in OfTenant(db, tenant) ==> Exported(db[(m, id)]) in back && db[(m, id)].id == id)
  {
    var back := TableRows(Plain(BB.DataOf(tables)), m);
    var rows := TableReadBack(tables, db, tenant, m);
    forall r | r in back ensures (m, r.id) in OfTenant(db, tenant) && r == Exported(db[(m, r.id)]) {
      var i :| 0 <= i < |back| && back[i] == r;
      assert rows[i] in rows;
    }
    forall id | (m, id) in OfTenant(db, tenant) ensures Exported(db[(m, id)]) in back {
      var i :| 0 <= i < |rows| && rows[i] == db[(m, id)];
      assert back[i] == Exported(db[(m, id)]);
    }
  }

  /** The rows read from the text of an export are the tenant's rows, exported. */
  lemma WrittenExports(tables: seq<BB.Table>, db: Db, tenant: string)
    requires Snapshot(tables, db, tenant)
    ensures Exports(BundleOf(Plain(BB.DataOf(tables))), db, tenant)
  {
    var b := BundleOf(Plain(BB.DataOf(tables)));
    forall m ensures m in b && RowsOf(b, m) == TableRows(Plain(BB.DataOf(tables)), m) { AllTables(m); }
    forall m ensures DistinctIds(RowsOf(b, m)) { ReadBackLists(tables, db, tenant, m); }
    forall m, r | r in RowsOf(b, m) ensures (m, r.id) in OfTenant(db, tenant) && r == Exported(db[(m, r.id)]) {
      ReadBackLists(tables, db, tenant, m);
    }
    forall k | k in OfTenant(db, tenant) ensures Exported(db[k]) in RowsOf(b, k.0) && db[k].id == k.1 {
      ReadBackLists(tables, db, tenant, k.0);
      assert k == (k.0, k.1);
    }
  }

  // ---- which bundles a reset accepts -------------------------------------------------------------------

  /** The reset compares the data with the manifest of the same text. */
  predicate Intact(hash: string -> string, text: string) {
    match Parse(text)
    case None => false
    case Some(payload) =>
      BB.Readable(payload)
      && BB.Get(BB.Get(payload, "manifest").value, "checksum")
          == Some(JStr(BB.Checksum(hash, BB.Get(payload, "data").value)))
  }

  function DataIn(hash: string -> string, text: string): Value
    requires Intact(hash, text)
  {
    BB.Get(Parse(text).value, "data").value
  }

  lemma SnapshotWellFormed(tables: seq<BB.Table>, db: Db, tenant: string)
    requires Snapshot(tables, db, tenant)
    ensures WellFormed(BB.DataOf(tables))
  {
    var fs := BB.FieldsOf(tables);
    forall i, j | 0 <= i < j < |fs| ensures fs[i].key != fs[j].key {
      if fs[i].key == fs[j].key {
        NamesDiffer(BACKUP_TABLES[i], BACKUP_TABLES[j]);
        PlaceIs(i);
        PlaceIs(j);
      }
    }
  }

  /** An export's text, untouched, is accepted, and its data is the exported data. */
  lemma ExportIntact(hash: string -> string, details: seq<Field>, data: Value)
    requires WellFormed(data)
    ensures var text := Print(BB.Payload(hash, details, data));
            Intact(hash, text) && DataIn(hash, text) == Plain(data)
  {
    ParsePrint(BB.Payload(hash, details, data));
    BB.PlainPayload(hash, details, data);
    Canonical.PlainCanonical(data);
  }

  /** A verified bundle is accepted unless its manifest lost its checksum; an accepted one is verified
      exactly when the checksum is also the one the job recorded, which a reset does not look at. */
  lemma IntactVersusVerify(hash: string -> string, jobSum: string, text: string)
    ensures Intact(hash, text) ==>
              (BB.Verify(hash, jobSum, text) == Some(true) <==> BB.Checksum(hash, DataIn(hash, text)) == jobSum)
    ensures BB.Verify(hash, jobSum, text) == Some(true) ==>
              (Intact(hash, text)
               <==> BB.Get(BB.Get(Parse(text).value, "manifest").value, "checksum") !in {None, Some(JNull)})
  {
  }

  /** Data replaced together with its checksum is accepted, whatever the job recorded. */
  lemma ReplacedDataIntact(hash: string -> string, details: seq<Field>, data: Value, jobSum: string)
    requires WellFormed(data) && jobSum != BB.Checksum(hash, data)
    ensures var text := Print(BB.Payload(hash, details, data));
            Intact(hash, text) && BB.Verify(hash, jobSum, text) == Some(false)
  {
    var text := Print(BB.Payload(hash, details, data));
    ExportIntact(hash, details, data);
    Canonical.PlainCanonical(data);
    IntactVersusVerify(hash, jobSum, text);
    assert BB.Readable(Parse(text).value);
  }

  // ---- the reset, end to end -----------------------------------------------------------------------------

  ghost function ResetDb(hash: string -> string, now: Db, tenant: string, text: string): Db
    requires Intact(hash, text)
  {
    PutTables(Wiped(now, tenant), BundleOf(DataIn(hash, text)), tenant, BACKUP_TABLES)
  }

  /** No other tenant has taken the id of a row the tenant had. */
  ghost predicate NotTakenOver(was: Db, now: Db, tenant: string) {
    forall k :: k in OfTenant(was, tenant) && k in now ==> now[k].tenantId == tenant
  }

  /** Whatever happened since a tenant was exported, resetting it to the text written then is accepted, gives
      it exactly the rows it had, and leaves every other tenant as it is. */
  lemma ExportThenReset(hash: string -> string, details: seq<Field>, tables: seq<BB.Table>, was: Db, now: Db,
                        tenant: string)
    requires Snapshot(tables, was, tenant) && AllTyped(was, tenant) && NotTakenOver(was, now, tenant)
    ensures var text := Print(BB.Payload(hash, details, BB.DataOf(tables)));
            && Intact(hash, text)
            && OfTenant(ResetDb(hash, now, tenant, text), tenant) == OfTenant(was, tenant)
            && forall other :: other != tenant
                ==> OfTenant(ResetDb(hash, now, tenant, text), other) == OfTenant(now, other)
  {
    var data := BB.DataOf(tables);
    SnapshotWellFormed(tables, was, tenant);
    ExportIntact(hash, details, data);
    WrittenExports(tables, was, tenant);
    var b := BundleOf(Plain(data));
    forall k, r | k in now && r in RowsOf(b, k.0) && r.id == k.1 ensures now[k].tenantId == tenant {
      assert (k.0, r.id) in OfTenant(was, tenant) && k == (k.0, r.id);
    }
    ResetRestores(was, now, b, tenant);
    forall other | other != tenant
      ensures OfTenant(PutTables(Wiped(now, tenant), b, tenant, BACKUP_TABLES), other) == OfTenant(now, other)
    {
      ResetSparesOthers(was, now, b, tenant, other);
    }
  }

  /** The safety copy taken before a reset, to whatever baseline, takes the tenant back to where it was. */
  lemma SafetyUndoesReset(hash: string -> string, details: seq<Field>, tables: seq<BB.Table>, was: Db, tenant: string,
                          baseline: string)
    requires Snapshot(tables, was, tenant) && AllTyped(was, tenant) && Intact(hash, baseline)
    ensures var safety := Print(BB.Payload(hash, details, BB.DataOf(tables)));
            Intact(hash, safety)
            && OfTenant(ResetDb(hash, ResetDb(hash, was, tenant, baseline), tenant, safety), tenant)
                == OfTenant(was, tenant)
  {
    var now := ResetDb(hash, was, tenant, baseline);
    forall k | k in OfTenant(was, tenant) && k in now ensures now[k].tenantId == tenant {
      PutTablesOwned(Wiped(was, tenant), BundleOf(DataIn(hash, baseline)), tenant, BACKUP_TABLES, k);
    }
    ExportThenReset(hash, details, tables, was, now, tenant);
  }

  // ---- the service -------------------------------------------------------------------------------------

  datatype Mode = Demo | Live

  datatype Error =
    | TenantNotFound | NotDemo | NoBaseline | SafetyFailed(key: string) | UnreadableBundle | ChecksumMismatch

  datatype Report = Report(safety: BB.Bundle, counts: map<Model, nat>)

  class DemoTenants {
    var db: Db
    const hash: string -> string

    constructor (db: Db, hash: string -> string)
      ensures this.db == db && this.hash == hash
    {
      this.db, this.hash := db, hash;
    }

    /** A demo tenant with a baseline is exported once more, for safety, and reset if the baseline's text is
        intact; anything else changes no row. tables is what the database lists of the tenant now. */
    method ResetToBaseline(tenant: string, mode: Option<Mode>, baseline: Option<string>,
                           details: seq<Field>, tables: seq<BB.Table>)
      returns (r: Result<Report, Error>)
      requires Snapshot(tables, db, tenant)
      modifies this
      ensures r.Ok? <==> mode == Some(Demo) && baseline.Some? && Intact(hash, baseline.value)
                         && forall i :: 0 <= i < |tables| ==> SecretScan.Clean(tables[i].rows)
      ensures r.Err? ==> db == old(db)
      ensures r.Ok? ==> db == ResetDb(hash, old(db), tenant, baseline.value)
                        && r.value.safety.text == Print(BB.Payload(hash, details, BB.DataOf(tables)))
    {
      if mode.None? { return Err(TenantNotFound); }
      if mode.value != Demo { return Err(NotDemo); }
      if baseline.None? { return Err(NoBaseline); }
      var safety := BB.CreateBackup(hash, details, tables);
      if safety.Err? { return Err(SafetyFailed(safety.error.key)); }
      var payload := Parse(baseline.value);
      if payload.None? || !BB.Readable(payload.value) { return Err(UnreadableBundle); }
      var data, manifest := BB.Get(payload.value, "data").value, BB.Get(payload.value, "manifest").value;
      if BB.Get(manifest, "checksum") != Some(JStr(BB.Checksum(hash, data))) { return Err(ChecksumMismatch); }
      var resetter := new Resetter(db);
      var counts := resetter.LoadInPlace(tenant, BundleOf(data));
      db := resetter.db;
      r := Ok(Report(safety.value, counts));
    }
  }
}
