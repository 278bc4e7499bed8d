/**
 * The columns of a row that was exported as an object: every key but those of the row itself, each under its
 * own name.
 */
module RowColumns {
  import opened Common
  import opened Json
  import opened RestoreSpec
  import opened BackupReset
  import BB = BackupBundle

  /** The key under which a column is exported. */
  function KeyOf(c: Column): string {
    match c
    case ParentId => "parentId" case OrgUnitId => "orgUnitId" case HolderPersonId => "holderPersonId"
    case ReportsToPositionId => "reportsToPositionId" case MemberPersonIds => "memberPersonIds"
    case PersonId => "personId" case CommandId => "commandId" case InstanceId => "instanceId"
    case ImportJobId => "importJobId" case SourceRecordId => "sourceRecordId" case SubjectType => "subjectType"
    case SubjectId => "subjectId" case Status => "status" case Outcome => "result"
    case Dated(name) => name case Other(name) => name
  }

  predicate Reference(key: string) {
    key == "parentId" || key == "orgUnitId" || key == "holderPersonId" || key == "reportsToPositionId"
    || key == "memberPersonIds" || key == "personId" || key == "commandId"
  }

  lemma ReferenceTold(key: string)
    requires Reference(key)
    ensures KeyOf(ColumnOf(key)) == key
  {
  }

  lemma OtherTold(key: string)
    requires !Reference(key)
    ensures KeyOf(ColumnOf(key)) == key
  {
  }

  /** A column tells its key, so no two keys share one. */
  lemma KeyTold(key: string)
    ensures KeyOf(ColumnOf(key)) == key
  {
    if Reference(key) { ReferenceTold(key); } else { OtherTold(key); }
  }

  lemma ColumnsApart(a: string, b: string)
    requires ColumnOf(a) == ColumnOf(b)
    ensures a == b
  {
    KeyTold(a);
    KeyTold(b);
  }

  /** Keys told apart by length and one letter. */
  lemma LettersApart()
    ensures "personId"[1] != "parentId"[1] && "sourceRecordId"[0] != "holderPersonId"[0]
    ensures "commandId"[0] != "orgUnitId"[0] && "subjectId"[0] != "orgUnitId"[0] && "subjectId"[0] != "commandId"[0]
    ensures "subjectType"[0] != "importJobId"[0] && "result"[0] != "status"[0]
  {
  }

  /** The columns a load treats in some special way are known by their keys. */
  lemma NamedColumns()
    ensures ColumnOf("parentId") == ParentId && ColumnOf("orgUnitId") == OrgUnitId
    ensures ColumnOf("holderPersonId") == HolderPersonId && ColumnOf("reportsToPositionId") == ReportsToPositionId
    ensures ColumnOf("memberPersonIds") == MemberPersonIds && ColumnOf("personId") == PersonId
    ensures ColumnOf("commandId") == CommandId && ColumnOf("instanceId") == InstanceId
    ensures ColumnOf("importJobId") == ImportJobId && ColumnOf("sourceRecordId") == SourceRecordId
    ensures ColumnOf("subjectType") == SubjectType && ColumnOf("subjectId") == SubjectId
    ensures ColumnOf("status") == Status && ColumnOf("result") == Outcome
  {
    LettersApart();
  }

  lemma {:induction false} ColumnAt(fs: seq<Field>, key: string)
    ensures (if ColumnOf(key) in ColumnsOf(fs) then Some(ColumnsOf(fs)[ColumnOf(key)]) else None)
            == if key == "id" || key == "tenantId" then None else BB.Lookup(fs, key)
  {
    if fs == [] {
    } else {
      ColumnAt(fs[1..], key);
      if ColumnOf(fs[0].key) == ColumnOf(key) { ColumnsApart(fs[0].key, key); }
    }
  }

  /** Only keys make columns. */
  lemma {:induction false} ColumnFrom(fs: seq<Field>, c: Column)
    requires c in ColumnsOf(fs)
    ensures ColumnOf(KeyOf(c)) == c
  {
    if fs[0].key != "id" && fs[0].key != "tenantId" && ColumnOf(fs[0].key) == c {
      KeyTold(fs[0].key);
    } else {
      ColumnFrom(fs[1..], c);
    }
  }

  /** A row read from an object has its id and tenant, and under the column of every other key the key's value; it
      has no further column. */
  lemma RowExactly(v: Value, key: string)
    requires RowObject(v)
    ensures BB.Get(v, "id") == Some(JStr(RowOf(v).id)) && BB.Get(v, "tenantId") == Some(JStr(RowOf(v).tenantId))
    ensures var c := ColumnOf(key);
            (if c in RowOf(v).fields then Some(RowOf(v).fields[c]) else None)
            == if key == "id" || key == "tenantId" then None else BB.Get(v, key)
    ensures forall c :: c in RowOf(v).fields ==> exists k :: ColumnOf(k) == c
  {
    ColumnAt(v.fields, key);
    forall c | c in RowOf(v).fields ensures exists k :: ColumnOf(k) == c { ColumnFrom(v.fields, c); }
  }
}
