/**
 * What a load does to the columns of the schema, each by its own name: which columns name rows of which
 * tables, which hold dates, which commands are held back, and the order of the tables.
 */
module RestoreColumns {
  import opened Common
  import opened Json
  import opened RestoreSpec
  import opened RestoreGraph

  // ---- columns that name rows ------------------------------------------------------------------------

  /** Every reference between tables that a load rewrites: the table, its column, the table it names. */
  const REFERENCES := {
    (OrgUnit, ParentId, OrgUnit),
    (Position, OrgUnitId, OrgUnit), (Position, HolderPersonId, PersonProfile),
    (Position, ReportsToPositionId, Position),
    (AppAccountBinding, PersonId, PersonProfile),
    (ProvisioningCommand, PersonId, PersonProfile), (ProvisioningConflict, CommandId, ProvisioningCommand),
    (ApprovalTask, InstanceId, WorkflowInstance), (WorkflowEvent, InstanceId, WorkflowInstance),
    (ConnectorCommand, InstanceId, WorkflowInstance),
    (SourceRecord, ImportJobId, ImportJob), (DuplicatePair, SourceRecordId, SourceRecord)}

  /** Row r of table m became this row of the target. */
  ghost predicate Became(ids: IdMap, target: string, after: Db, m: Model, r: Row, copy: Row) {
    r.id in IdsOf(ids, m) && copy.id == IdsOf(ids, m)[r.id] && copy.tenantId == target
    && (m, copy.id) in after && after[(m, copy.id)] == copy
  }

  lemma CopyOf(db: Db, ids: IdMap, b: Bundle, target: string, after: Db, m: Model, r: Row) returns (copy: Row)
    requires IsLoaded(db, ids, b, target, after) && r in RowsOf(b, m)
    ensures Became(ids, target, after, m, r, copy) && copy == Loaded(ids, m, target, r)
  {
    assert HasRow(ids, m, r, target, after);
    copy := Loaded(ids, m, target, r);
  }

  lemma ReferenceDeclared(m: Model, c: Column, n: Model)
    requires (m, c, n) in REFERENCES
    ensures FkRef(c, n, false) in FkRefs(m)
  {
    if m == Position {
      var refs := FkRefs(Position);
      assert FkRef(c, n, false) == refs[0] || FkRef(c, n, false) == refs[1] || FkRef(c, n, false) == refs[2];
    } else {
      assert FkRefs(m)[0] == FkRef(c, n, false);
    }
  }

  /** A column that names bundle row q comes to name q's copy, which is in the target. */
  lemma SchemaFollowed(db: Db, ids: IdMap, b: Bundle, target: string, after: Db, m: Model, c: Column, n: Model,
                       r: Row, q: Row)
    returns (copy: Row, named: Row)
    requires IsLoaded(db, ids, b, target, after) && (m, c, n) in REFERENCES
    requires r in RowsOf(b, m) && q in RowsOf(b, n) && Cell(r.fields, c) == Some(JStr(q.id))
    ensures Became(ids, target, after, m, r, copy) && Became(ids, target, after, n, q, named)
    ensures Cell(copy.fields, c) == Some(JStr(named.id))
  {
    copy := CopyOf(db, ids, b, target, after, m, r);
    named := CopyOf(db, ids, b, target, after, n, q);
    ReferenceDeclared(m, c, n);
    LoadedRef(ids, m, target, r, FkRef(c, n, false));
  }

  /** The members of a group come to be the copies of the persons it lists, in their places. */
  lemma MembersFollowed(db: Db, ids: IdMap, b: Bundle, target: string, after: Db, r: Row, i: nat, q: Row)
    returns (copy: Row, named: Row)
    requires IsLoaded(db, ids, b, target, after) && r in RowsOf(b, Group) && q in RowsOf(b, PersonProfile)
    requires MemberPersonIds in r.fields && r.fields[MemberPersonIds].JArr?
    requires i < |r.fields[MemberPersonIds].items| && r.fields[MemberPersonIds].items[i] == JStr(q.id)
    ensures Became(ids, target, after, Group, r, copy) && Became(ids, target, after, PersonProfile, q, named)
    ensures MemberPersonIds in copy.fields && copy.fields[MemberPersonIds].JArr?
    ensures |copy.fields[MemberPersonIds].items| == |r.fields[MemberPersonIds].items|
    ensures copy.fields[MemberPersonIds].items[i] == JStr(named.id)
  {
    copy := CopyOf(db, ids, b, target, after, Group, r);
    named := CopyOf(db, ids, b, target, after, PersonProfile, q);
    var ref := FkRef(MemberPersonIds, PersonProfile, true);
    assert FkRefs(Group)[0] == ref;
    LoadedRef(ids, Group, target, r, ref);
    assert Cell(copy.fields, MemberPersonIds) == Cell(WithRef(ids, ref, r.fields), MemberPersonIds);
  }

  /** The tables that the types of a subject name. */
  const SUBJECTS := map[
    "USER" := PersonProfile, "PERSON" := PersonProfile, "POSITION" := Position, "GROUP" := Group,
    "ORG_UNIT" := OrgUnit]

  lemma SubjectTable(t: string)
    ensures SubjectModel(JStr(t)) == if t in SUBJECTS then Some(SUBJECTS[t]) else None
  {
  }

  /** To whom a role binding or data scope applies follows the table its type names; under any other type the
      id is kept. */
  lemma SubjectsFollowed(db: Db, ids: IdMap, b: Bundle, target: string, after: Db, m: Model, r: Row, t: string,
                         id: string)
    returns (copy: Row)
    requires IsLoaded(db, ids, b, target, after) && r in RowsOf(b, m) && (m == RoleBinding || m == DataScope)
    requires Cell(r.fields, SubjectType) == Some(JStr(t)) && Cell(r.fields, SubjectId) == Some(JStr(id))
    ensures Became(ids, target, after, m, r, copy) && Cell(copy.fields, SubjectType) == Some(JStr(t))
    ensures t !in SUBJECTS || id == "" ==> Cell(copy.fields, SubjectId) == Some(JStr(id))
    ensures forall q :: t in SUBJECTS && id != "" && q in RowsOf(b, SUBJECTS[t]) && q.id == id ==>
              Cell(copy.fields, SubjectId) == Some(JStr(NewName(ids, SUBJECTS[t], id)))
              && InTenant(after, target, SUBJECTS[t], NewName(ids, SUBJECTS[t], id))
  {
    copy := CopyOf(db, ids, b, target, after, m, r);
    SubjectTable(t);
    var fields := WithSubject(ids, m, r.fields);
    DatesKeep(DATE_FIELDS, WithHold(m, fields), SubjectId);
    DatesKeep(DATE_FIELDS, WithHold(m, fields), SubjectType);
    forall q | t in SUBJECTS && q in RowsOf(b, SUBJECTS[t]) && q.id == id
      ensures InTenant(after, target, SUBJECTS[t], NewName(ids, SUBJECTS[t], id))
    {
      NewIdNamesCopy(db, ids, b, target, after, SUBJECTS[t], q);
    }
  }

  /** The columns of table m that a load may rewrite. */
  predicate Rewritten(m: Model, c: Column) {
    || (exists n :: (m, c, n) in REFERENCES)
    || (m == Group && c == MemberPersonIds)
    || ((m == RoleBinding || m == DataScope) && c == SubjectId)
    || (m == ProvisioningCommand && (c == Status || c == Outcome))
    || c.Dated?
  }

  lemma DeclaredListed(m: Model, ref: FkRef)
    requires ref in FkRefs(m)
    ensures if m == Group then ref.column == MemberPersonIds else (m, ref.column, ref.target) in REFERENCES
  {
  }

  /** All other columns are loaded as they are. */
  lemma OthersKept(db: Db, ids: IdMap, b: Bundle, target: string, after: Db, m: Model, r: Row, c: Column)
    returns (copy: Row)
    requires IsLoaded(db, ids, b, target, after) && r in RowsOf(b, m) && !Rewritten(m, c)
    ensures Became(ids, target, after, m, r, copy) && Cell(copy.fields, c) == Cell(r.fields, c)
  {
    copy := CopyOf(db, ids, b, target, after, m, r);
    forall ref | ref in FkRefs(m) ensures ref.column != c { DeclaredListed(m, ref); }
    UndeclaredKept(ids, m, target, r, c);
  }

  // ---- parents first -----------------------------------------------------------------------------------

  lemma PlaceApart(m: Model, n: Model)
    ensures Place(m) < 29 && (Place(m) == Place(n) ==> m == n)
  {
  }

  /** Each table is listed once, at its place. */
  lemma ListedOnce(m: Model)
    ensures |BACKUP_TABLES| == 29 && BACKUP_TABLES[Place(m)] == m
    ensures forall i :: 0 <= i < 29 && BACKUP_TABLES[i] == m ==> i == Place(m)
  {
    PlaceIs(Place(m));
    assert BACKUP_TABLES[Place(m)] == m by { PlaceApart(m, BACKUP_TABLES[Place(m)]); }
    forall i | 0 <= i < 29 && BACKUP_TABLES[i] == m ensures i == Place(m) { PlaceIs(i); }
  }

  /** Tables come after all tables their columns name. */
  lemma ParentsFirst(m: Model, c: Column, n: Model)
    requires ((m, c, n) in REFERENCES || (m == Group && n == PersonProfile)) && m != n
    ensures Place(n) < Place(m)
  {
  }

  // ---- dates -------------------------------------------------------------------------------------------

  const DATE_COLUMNS := {
    "createdAt", "updatedAt", "finishedAt", "actedAt", "escalatedAt", "readAt", "fromAt", "toAt", "resolvedAt",
    "snapshotAt", "lastSyncedAt", "enteredAt", "effectiveFrom", "effectiveTo", "dueAt", "at"}

  lemma DatesListed(name: string)
    ensures name in DATE_FIELDS <==> name in DATE_COLUMNS
  {
  }

  lemma {:induction false} DatesAt(names: seq<string>, fields: map<Column, Value>, name: string)
    ensures Cell(WithDates(names, fields), Dated(name))
            == if name in names then Cell(WithDate(name, fields), Dated(name)) else Cell(fields, Dated(name))
    decreases |names|
  {
    if names == [] {
    } else {
      DatesAt(names[1..], WithDate(names[0], fields), name);
    }
  }

  lemma RefsKeepDates(ids: IdMap, m: Model, fields: map<Column, Value>, name: string)
    ensures Cell(WithHold(m, WithSubject(ids, m, WithRefs(ids, FkRefs(m), fields))), Dated(name))
            == Cell(fields, Dated(name))
  {
    RefColumns(m);
    RefsKeep(ids, FkRefs(m), fields, Dated(name));
  }

  /** The text of a date column becomes a date; no other cell of such a column changes. */
  lemma DatesCoerced(db: Db, ids: IdMap, b: Bundle, target: string, after: Db, m: Model, r: Row, name: string)
    returns (copy: Row)
    requires IsLoaded(db, ids, b, target, after) && r in RowsOf(b, m) && Dated(name) in r.fields
    ensures Became(ids, target, after, m, r, copy) && Dated(name) in copy.fields
    ensures var v := r.fields[Dated(name)];
            copy.fields[Dated(name)] == if name in DATE_COLUMNS && v.JStr? then JDate(v.s) else v
  {
    copy := CopyOf(db, ids, b, target, after, m, r);
    var fields := WithHold(m, WithSubject(ids, m, WithRefs(ids, FkRefs(m), r.fields)));
    RefsKeepDates(ids, m, r.fields, name);
    DatesListed(name);
    DatesAt(DATE_FIELDS, fields, name);
    assert Cell(copy.fields, Dated(name)) == Cell(WithDates(DATE_FIELDS, fields), Dated(name));
  }

  // ---- commands under way ------------------------------------------------------------------------------

  function FieldAt(fs: seq<Field>, key: string): Option<Value> {
    if fs == [] then None else if fs[0].key == key then Some(fs[0].value) else FieldAt(fs[1..], key)
  }

  lemma {:induction false} SetKeyAt(fs: seq<Field>, key: string, v: Value, other: string)
    ensures FieldAt(SetKey(fs, key, v), other) == if other == key then Some(v) else FieldAt(fs, other)
  {
    if fs == [] {
    } else if fs[0].key == key {
      assert SetKey(fs, key, v)[1..] == fs[1..];
    } else {
      SetKeyAt(fs[1..], key, v, other);
      assert SetKey(fs, key, v)[1..] == SetKey(fs[1..], key, v);
    }
  }

  lemma HoldKeys(before: seq<Field>, key: string)
    ensures var fs := SetKey(SetKey(before, "restoredHold", JBool(true)), "note", JStr(HOLD_NOTE));
            FieldAt(fs, "restoredHold") == Some(JBool(true))
            && FieldAt(fs, "note") == Some(JStr("in-flight at backup watermark; not re-executed on restore"))
            && (key != "restoredHold" && key != "note" ==> FieldAt(fs, key) == FieldAt(before, key))
  {
    var held := SetKey(before, "restoredHold", JBool(true));
    assert "note"[0] != "restoredHold"[0];
    SetKeyAt(before, "restoredHold", JBool(true), "restoredHold");
    SetKeyAt(before, "restoredHold", JBool(true), key);
    SetKeyAt(held, "note", JStr(HOLD_NOTE), "restoredHold");
    SetKeyAt(held, "note", JStr(HOLD_NOTE), "note");
    SetKeyAt(held, "note", JStr(HOLD_NOTE), key);
  }

  /** What the hold makes of a command's cells. */
  lemma HeldCells(fields: map<Column, Value>, status: string, key: string)
    requires Cell(fields, Status) == Some(JStr(status))
    ensures var held := WithHold(ProvisioningCommand, fields);
            if status == "pending" || status == "sent" then
              && Cell(held, Status) == Some(JStr("completed")) && Outcome in held && held[Outcome].JObj?
              && FieldAt(held[Outcome].fields, "restoredHold") == Some(JBool(true))
              && FieldAt(held[Outcome].fields, "note")
                 == Some(JStr("in-flight at backup watermark; not re-executed on restore"))
              && (key != "restoredHold" && key != "note" && Outcome in fields && fields[Outcome].JObj?
                  ==> FieldAt(held[Outcome].fields, key) == FieldAt(fields[Outcome].fields, key))
            else held == fields
  {
    HoldKeys(if Outcome in fields && fields[Outcome].JObj? then fields[Outcome].fields else [], key);
  }

  lemma LoadedCommand(ids: IdMap, target: string, r: Row, c: Column)
    requires r.id in IdsOf(ids, ProvisioningCommand) && (c == Status || c == Outcome)
    ensures var fields := WithRefs(ids, FkRefs(ProvisioningCommand), r.fields);
            && Cell(fields, c) == Cell(r.fields, c)
            && Cell(Loaded(ids, ProvisioningCommand, target, r).fields, c)
               == Cell(WithHold(ProvisioningCommand, fields), c)
  {
    var fields := WithRefs(ids, FkRefs(ProvisioningCommand), r.fields);
    RefsKeep(ids, FkRefs(ProvisioningCommand), r.fields, c);
    DatesKeep(DATE_FIELDS, WithHold(ProvisioningCommand, fields), c);
  }

  /** A command that was pending or sent is loaded as completed, with a note added to what its result said; any
      other status and result are kept. */
  lemma CommandsHeld(db: Db, ids: IdMap, b: Bundle, target: string, after: Db, r: Row, status: string, key: string)
    returns (copy: Row)
    requires IsLoaded(db, ids, b, target, after) && r in RowsOf(b, ProvisioningCommand)
    requires Cell(r.fields, Status) == Some(JStr(status))
    ensures Became(ids, target, after, ProvisioningCommand, r, copy)
    ensures status != "pending" && status != "sent" ==>
              Cell(copy.fields, Status) == Some(JStr(status)) && Cell(copy.fields, Outcome) == Cell(r.fields, Outcome)
    ensures status == "pending" || status == "sent" ==>
              && Cell(copy.fields, Status) == Some(JStr("completed"))
              && Outcome in copy.fields && copy.fields[Outcome].JObj?
              && FieldAt(copy.fields[Outcome].fields, "restoredHold") == Some(JBool(true))
              && FieldAt(copy.fields[Outcome].fields, "note")
                 == Some(JStr("in-flight at backup watermark; not re-executed on restore"))
              && (key != "restoredHold" && key != "note" && Outcome in r.fields && r.fields[Outcome].JObj?
                  ==> FieldAt(copy.fields[Outcome].fields, key) == FieldAt(r.fields[Outcome].fields, key))
  {
    copy := CopyOf(db, ids, b, target, after, ProvisioningCommand, r);
    LoadedCommand(ids, target, r, Status);
    LoadedCommand(ids, target, r, Outcome);
    HeldCells(WithRefs(ids, FkRefs(ProvisioningCommand), r.fields), status, key);
  }
}
