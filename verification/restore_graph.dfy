/**
 * The loaded tenant is the bundle under a renaming: declared references between bundle rows follow it,
 * undeclared ones keep the old id and so come to point outside the tenant, references to anything else are
 * kept, no command is left under way, and exactly the dangling holders stay dangling.
 */
module RestoreGraph {
  import opened Common
  import opened Json
  import opened RestoreSpec

  // ---- which columns a load touches ------------------------------------------------------------------

  lemma {:induction false} DatesKeep(names: seq<string>, fields: map<Column, Value>, c: Column)
    requires !c.Dated?
    ensures c in WithDates(names, fields) <==> c in fields
    ensures c in fields ==> WithDates(names, fields)[c] == fields[c]
  {
    if names == [] {
    } else {
      DatesKeep(names[1..], WithDate(names[0], fields), c);
    }
  }

  ghost predicate DistinctColumns(refs: seq<FkRef>) {
    forall i, j :: 0 <= i < j < |refs| ==> refs[i].column != refs[j].column
  }

  lemma {:induction false} RefsKeep(ids: IdMap, refs: seq<FkRef>, fields: map<Column, Value>, c: Column)
    requires forall i :: 0 <= i < |refs| ==> refs[i].column != c
    ensures c in WithRefs(ids, refs, fields) <==> c in fields
    ensures c in fields ==> WithRefs(ids, refs, fields)[c] == fields[c]
  {
    if refs == [] {
    } else {
      RefsKeep(ids, refs[1..], WithRef(ids, refs[0], fields), c);
    }
  }

  /** Whether a column is present, and its value when it is. */
  function Cell(fields: map<Column, Value>, c: Column): Option<Value> { if c in fields then Some(fields[c]) else None }

  lemma {:induction false} RefsAt(ids: IdMap, refs: seq<FkRef>, fields: map<Column, Value>, i: nat)
    requires i < |refs| && DistinctColumns(refs)
    ensures var c := refs[i].column;
            Cell(WithRefs(ids, refs, fields), c) == Cell(WithRef(ids, refs[i], fields), c)
    decreases |refs|
  {
    var next := WithRef(ids, refs[0], fields);
    if i == 0 {
      RefsKeep(ids, refs[1..], next, refs[0].column);
    } else {
      RefsAt(ids, refs[1..], next, i - 1);
      assert refs[0].column != refs[i].column;
    }
  }

  lemma RefColumns(m: Model)
    ensures DistinctColumns(FkRefs(m))
    ensures forall ref :: ref in FkRefs(m) ==>
              !ref.column.Dated? && ref.column != Status && ref.column != Outcome
              && ref.column != SubjectId && ref.column != SubjectType
  {
  }

  /** Past the references, only the subject, the status, the outcome and the dates change. */
  lemma LaterSteps(ids: IdMap, m: Model, target: string, r: Row, c: Column)
    requires r.id in IdsOf(ids, m)
    requires !c.Dated? && c != SubjectId && c != Status && c != Outcome
    ensures Cell(Loaded(ids, m, target, r).fields, c) == Cell(WithRefs(ids, FkRefs(m), r.fields), c)
  {
    var fields := WithSubject(ids, m, WithRefs(ids, FkRefs(m), r.fields));
    DatesKeep(DATE_FIELDS, WithHold(m, fields), c);
  }

  lemma LoadedRef(ids: IdMap, m: Model, target: string, r: Row, ref: FkRef)
    requires r.id in IdsOf(ids, m) && ref in FkRefs(m)
    ensures Cell(Loaded(ids, m, target, r).fields, ref.column) == Cell(WithRef(ids, ref, r.fields), ref.column)
  {
    RefColumns(m);
    LaterSteps(ids, m, target, r, ref.column);
    var i :| 0 <= i < |FkRefs(m)| && FkRefs(m)[i] == ref;
    RefsAt(ids, FkRefs(m), r.fields, i);
  }

  // ---- references follow the renaming ------------------------------------------------------------------

  /** Row r points at the row called id through ref. */
  ghost predicate RefersTo(r: Row, ref: FkRef, id: string) {
    if ref.many then ref.column in r.fields && r.fields[ref.column].JArr? && JStr(id) in r.fields[ref.column].items
    else ref.column in r.fields && r.fields[ref.column] == JStr(id)
  }

  /** No reference of r happens to be spelled like an id that is still to be given out. */
  ghost predicate RefersWithin(r: Row, m: Model, used: set<string>) {
    forall ref, id :: ref in FkRefs(m) && RefersTo(r, ref, id) ==> id in used
  }

  /** The name under which the target tenant knows what the bundle calls id. */
  function NewName(ids: IdMap, m: Model, id: string): string {
    if id in IdsOf(ids, m) then IdsOf(ids, m)[id] else id
  }

  lemma NewNameInjective(ids: IdMap, b: Bundle, used: set<string>, m: Model, x: string, y: string)
    requires FreshIds(ids, b, used) && x in used && NewName(ids, m, x) == NewName(ids, m, y)
    requires y in used || y in IdsOf(ids, m)
    ensures x == y
  {
  }

  /** Names given out tell apart what they name, and what keeps its name. */
  ghost predicate NamesApart(ids: IdMap, m: Model, used: set<string>) {
    forall x, y :: x in used && (y in used || y in IdsOf(ids, m)) && NewName(ids, m, x) == NewName(ids, m, y) ==> x == y
  }

  lemma FreshApart(ids: IdMap, b: Bundle, used: set<string>, m: Model)
    requires FreshIds(ids, b, used)
    ensures NamesApart(ids, m, used)
  {
    forall x, y | x in used && (y in used || y in IdsOf(ids, m)) && NewName(ids, m, x) == NewName(ids, m, y)
      ensures x == y
    {
      NewNameInjective(ids, b, used, m, x, y);
    }
  }

  lemma RemapNames(ids: IdMap, used: set<string>, m: Model, v: Value, x: string)
    requires NamesApart(ids, m, used) && (v.JStr? ==> v.s in used)
    requires x in used || x in IdsOf(ids, m)
    ensures Remap(ids, m, v) == JStr(NewName(ids, m, x)) <==> v == JStr(x)
  {
  }

  /** A loaded row points at the new name of x exactly when the bundle row points at x, whether x is a
      bundle row (whose name changes) or something outside it (whose name is kept). */
  lemma ReferencesFollow(ids: IdMap, b: Bundle, used: set<string>, m: Model, target: string, r: Row, ref: FkRef,
                         x: string)
    requires FreshIds(ids, b, used) && r in RowsOf(b, m) && ref in FkRefs(m)
    requires RefersWithin(r, m, used) && (x in used || x in IdsOf(ids, ref.target))
    ensures RefersTo(Loaded(ids, m, target, r), ref, NewName(ids, ref.target, x)) <==> RefersTo(r, ref, x)
  {
    LoadedRef(ids, m, target, r, ref);
    FreshApart(ids, b, used, ref.target);
    if ref.many {
      ManyFollow(ids, used, m, target, r, ref, x);
    } else if ref.column in r.fields {
      var v := r.fields[ref.column];
      if v.JStr? { assert RefersTo(r, ref, v.s); }
      RemapNames(ids, used, ref.target, v, x);
    }
  }

  lemma ManyFollow(ids: IdMap, used: set<string>, m: Model, target: string, r: Row, ref: FkRef, x: string)
    requires NamesApart(ids, ref.target, used) && r.id in IdsOf(ids, m) && ref in FkRefs(m) && ref.many
    requires RefersWithin(r, m, used) && (x in used || x in IdsOf(ids, ref.target))
    requires Cell(Loaded(ids, m, target, r).fields, ref.column) == Cell(WithRef(ids, ref, r.fields), ref.column)
    ensures RefersTo(Loaded(ids, m, target, r), ref, NewName(ids, ref.target, x)) <==> RefersTo(r, ref, x)
  {
    var items := if ref.column in r.fields && r.fields[ref.column].JArr? then r.fields[ref.column].items else [];
    var out := RemapAll(ids, ref.target, items);
    assert Loaded(ids, m, target, r).fields[ref.column] == JArr(out);
    var name := JStr(NewName(ids, ref.target, x));
    forall i | 0 <= i < |items| ensures out[i] == name <==> items[i] == JStr(x) {
      if items[i].JStr? { assert RefersTo(r, ref, items[i].s); }
      RemapNames(ids, used, ref.target, items[i], x);
    }
    if name in out {
      var i :| 0 <= i < |out| && out[i] == name;
      assert items[i] == JStr(x);
    }
    if JStr(x) in items {
      var i :| 0 <= i < |items| && items[i] == JStr(x);
      assert out[i] == name;
    }
  }

  /** Whom a role binding or data scope is about: the table its subject type names, and the id. */
  function SubjectOf(m: Model, fields: map<Column, Value>): Option<(Model, string)> {
    if (m == RoleBinding || m == DataScope) && SubjectId in fields && fields[SubjectId].JStr?
        && fields[SubjectId].s != ""
       && SubjectType in fields && SubjectModel(fields[SubjectType]).Some?
    then Some((SubjectModel(fields[SubjectType]).value, fields[SubjectId].s))
    else None
  }

  lemma SubjectCells(m: Model, f: map<Column, Value>, g: map<Column, Value>)
    requires Cell(f, SubjectId) == Cell(g, SubjectId) && Cell(f, SubjectType) == Cell(g, SubjectType)
    ensures SubjectOf(m, f) == SubjectOf(m, g)
  {
  }

  lemma SubjectRenamed(ids: IdMap, m: Model, fields: map<Column, Value>)
    requires SubjectOf(m, fields).Some?
    requires NewName(ids, SubjectOf(m, fields).value.0, SubjectOf(m, fields).value.1) != ""
    ensures var s := SubjectOf(m, fields).value;
            SubjectOf(m, WithSubject(ids, m, fields)) == Some((s.0, NewName(ids, s.0, s.1)))
  {
  }

  /** The polymorphic subject follows the renaming of the table its type names. */
  lemma SubjectFollows(ids: IdMap, m: Model, target: string, r: Row)
    requires r.id in IdsOf(ids, m) && SubjectOf(m, r.fields).Some?
    requires NewName(ids, SubjectOf(m, r.fields).value.0, SubjectOf(m, r.fields).value.1) != ""
    ensures var s := SubjectOf(m, r.fields).value;
            SubjectOf(m, Loaded(ids, m, target, r).fields) == Some((s.0, NewName(ids, s.0, s.1)))
  {
    assert WithRefs(ids, FkRefs(m), r.fields) == r.fields;
    var fields := WithSubject(ids, m, r.fields);
    SubjectRenamed(ids, m, r.fields);
    DatesKeep(DATE_FIELDS, WithHold(m, fields), SubjectId);
    DatesKeep(DATE_FIELDS, WithHold(m, fields), SubjectType);
    SubjectCells(m, fields, Loaded(ids, m, target, r).fields);
  }

  // ---- undeclared references are left behind -------------------------------------------------------------

  /** A column the loader neither renames nor rewrites. */
  predicate Undeclared(m: Model, c: Column) {
    && !c.Dated?
    && (forall ref :: ref in FkRefs(m) ==> ref.column != c)
    && !(c == SubjectId && (m == RoleBinding || m == DataScope))
    && !((c == Status || c == Outcome) && m == ProvisioningCommand)
  }

  lemma UndeclaredKept(ids: IdMap, m: Model, target: string, r: Row, c: Column)
    requires r.id in IdsOf(ids, m) && Undeclared(m, c)
    ensures Cell(Loaded(ids, m, target, r).fields, c) == Cell(r.fields, c)
  {
    forall i | 0 <= i < |FkRefs(m)| ensures FkRefs(m)[i].column != c { assert FkRefs(m)[i] in FkRefs(m); }
    RefsKeep(ids, FkRefs(m), r.fields, c);
    DatesKeep(DATE_FIELDS, WithHold(m, WithSubject(ids, m, WithRefs(ids, FkRefs(m), r.fields))), c);
  }

  /** Row r is in the tenant, in table m. */
  predicate InTenant(db: Db, tenant: string, m: Model, id: string) { (m, id) in db && db[(m, id)].tenantId == tenant }

  lemma OldIdNamesNothing(db: Db, ids: IdMap, b: Bundle, target: string, after: Db, used: set<string>, n: Model,
                          x: string)
    requires IsLoaded(db, ids, b, target, after) && FreshIds(ids, b, used) && x in used
    ensures !InTenant(after, target, n, x)
  {
    assert (n, x) in after ==> Explained(db, ids, b, target, after, (n, x));
  }

  lemma NewIdNamesCopy(db: Db, ids: IdMap, b: Bundle, target: string, after: Db, n: Model, q: Row)
    requires IsLoaded(db, ids, b, target, after) && q in RowsOf(b, n)
    ensures q.id in IdsOf(ids, n) && InTenant(after, target, n, NewName(ids, n, q.id))
    ensures after[(n, NewName(ids, n, q.id))] == Loaded(ids, n, target, q)
  {
    assert HasRow(ids, n, q, target, after);
  }

  /** What an undeclared column named before the load it still names, and that is no row of the target, even
      where it is a bundle row: that one was loaded under another id. */
  lemma UndeclaredLeftBehind(db: Db, ids: IdMap, b: Bundle, target: string, after: Db, used: set<string>,
                             m: Model, r: Row, c: Column, n: Model, q: Row)
    requires IsLoaded(db, ids, b, target, after) && FreshIds(ids, b, used) && q.id in used
    requires r in RowsOf(b, m) && q in RowsOf(b, n) && Undeclared(m, c) && Cell(r.fields, c) == Some(JStr(q.id))
    ensures (m, NewName(ids, m, r.id)) in after
    ensures Cell(after[(m, NewName(ids, m, r.id))].fields, c) == Some(JStr(q.id))
    ensures !InTenant(after, target, n, q.id) && InTenant(after, target, n, NewName(ids, n, q.id))
  {
    NewIdNamesCopy(db, ids, b, target, after, m, r);
    NewIdNamesCopy(db, ids, b, target, after, n, q);
    OldIdNamesNothing(db, ids, b, target, after, used, n, q.id);
    UndeclaredKept(ids, m, target, r, c);
  }

  /** The import job of a duplicate pair, and the person of a resolution, are in such columns. */
  lemma UndeclaredReferences()
    ensures Undeclared(DuplicatePair, ImportJobId) && Undeclared(AssignmentResolution, Other("resolvedPersonId"))
  {
    assert FkRefs(DuplicatePair) == [FkRef(SourceRecordId, SourceRecord, false)];
  }

  /** So a loaded pair goes on naming the source tenant's job, although the target has a copy of it. */
  lemma PairKeepsOldJob(db: Db, ids: IdMap, b: Bundle, target: string, after: Db, used: set<string>, pair: Row,
                        job: Row)
    requires IsLoaded(db, ids, b, target, after) && FreshIds(ids, b, used) && job.id in used
    requires pair in RowsOf(b, DuplicatePair) && job in RowsOf(b, ImportJob)
    requires Cell(pair.fields, ImportJobId) == Some(JStr(job.id))
    ensures (DuplicatePair, NewName(ids, DuplicatePair, pair.id)) in after
    ensures Cell(after[(DuplicatePair, NewName(ids, DuplicatePair, pair.id))].fields, ImportJobId) == Some(JStr(job.id))
    ensures !InTenant(after, target, ImportJob, job.id)
    ensures InTenant(after, target, ImportJob, NewName(ids, ImportJob, job.id))
  {
    UndeclaredReferences();
    UndeclaredLeftBehind(db, ids, b, target, after, used, DuplicatePair, pair, ImportJobId, ImportJob, job);
  }

  // ---- nothing is left under way -----------------------------------------------------------------------

  lemma LoadedNotInFlight(ids: IdMap, m: Model, target: string, r: Row)
    requires r.id in IdsOf(ids, m)
    ensures !InFlight(m, Loaded(ids, m, target, r).fields)
  {
    var fields := WithSubject(ids, m, WithRefs(ids, FkRefs(m), r.fields));
    DatesKeep(DATE_FIELDS, WithHold(m, fields), Status);
  }

  lemma NothingInFlight(db: Db, ids: IdMap, b: Bundle, target: string, after: Db)
    requires IsLoaded(db, ids, b, target, after)
    ensures forall k :: k in after && after[k].tenantId == target ==> !InFlight(k.0, after[k].fields)
  {
    forall k | k in after && after[k].tenantId == target ensures !InFlight(k.0, after[k].fields) {
      assert Explained(db, ids, b, target, after, k);
      var r :| r in RowsOf(b, k.0) && r.id in IdsOf(ids, k.0) && k.1 == IdsOf(ids, k.0)[r.id];
      assert HasRow(ids, k.0, r, target, after);
      LoadedNotInFlight(ids, k.0, target, r);
    }
  }

  // ---- dangling holders ----------------------------------------------------------------------------------

  function Holder(r: Row): Option<string> {
    if HolderPersonId in r.fields && r.fields[HolderPersonId].JStr? then Some(r.fields[HolderPersonId].s) else None
  }

  /** The target's positions whose holder is not one of the target's persons. */
  ghost function DanglingPositions(db: Db, target: string): set<(Model, string)> {
    set k | k in db && k.0 == Position && db[k].tenantId == target && Holder(db[k]).Some?
            && !((PersonProfile, Holder(db[k]).value) in db
                 && db[(PersonProfile, Holder(db[k]).value)].tenantId == target)
  }

  /** The bundle's positions whose holder is not a person of the bundle. */
  ghost function DanglingRows(b: Bundle): set<Row> {
    set r | r in RowsOf(b, Position) && Holder(r).Some? && !IsPerson(b, Holder(r).value)
  }

  ghost predicate IsPerson(b: Bundle, id: string) { exists p :: p in RowsOf(b, PersonProfile) && p.id == id }

  lemma LoadedHolder(ids: IdMap, target: string, r: Row)
    requires r.id in IdsOf(ids, Position)
    ensures Holder(Loaded(ids, Position, target, r))
            == match Holder(r) case None => None case Some(h) => Some(NewName(ids, PersonProfile, h))
  {
    var ref := FkRef(HolderPersonId, PersonProfile, false);
    assert FkRefs(Position)[1] == ref;
    LoadedRef(ids, Position, target, r, ref);
  }

  /** A loaded position dangles exactly when its bundle row does. */
  lemma DanglesAlike(db: Db, ids: IdMap, b: Bundle, target: string, after: Db, used: set<string>, r: Row)
    requires IsLoaded(db, ids, b, target, after) && FreshIds(ids, b, used) && r in RowsOf(b, Position)
    requires RefersWithin(r, Position, used)
    ensures (Position, IdsOf(ids, Position)[r.id]) in DanglingPositions(after, target) <==> r in DanglingRows(b)
  {
    var k := (Position, IdsOf(ids, Position)[r.id]);
    assert HasRow(ids, Position, r, target, after);
    LoadedHolder(ids, target, r);
    if Holder(r).Some? {
      var h := Holder(r).value;
      var ref := FkRef(HolderPersonId, PersonProfile, false);
      assert FkRefs(Position)[1] == ref;
      assert RefersTo(r, ref, h);
      var p := (PersonProfile, NewName(ids, PersonProfile, h));
      assert p in after ==> Explained(db, ids, b, target, after, p);
      if h in IdsOf(ids, PersonProfile) {
        var q :| q in RowsOf(b, PersonProfile) && q.id == h;
        assert HasRow(ids, PersonProfile, q, target, after);
      }
    }
  }

  lemma {:induction false} ImageSize<A, B>(xs: set<A>, ys: set<B>, f: A -> B)
    requires forall x :: x in xs ==> f(x) in ys
    requires forall x, x' :: x in xs && x' in xs && f(x) == f(x') ==> x == x'
    requires forall y :: y in ys ==> exists x :: x in xs && f(x) == y
    ensures |xs| == |ys|
  {
    if xs == {} {
      assert ys == {};
    } else {
      var x :| x in xs;
      ImageSize(xs - {x}, ys - {f(x)}, f);
    }
  }

  /** The consistency check counts exactly the bundle positions whose holder the bundle lacks. */
  lemma DanglingCount(db: Db, ids: IdMap, b: Bundle, target: string, after: Db, used: set<string>)
    requires IsLoaded(db, ids, b, target, after) && FreshIds(ids, b, used) && DistinctIds(RowsOf(b, Position))
    requires forall r :: r in RowsOf(b, Position) ==> RefersWithin(r, Position, used)
    ensures |DanglingPositions(after, target)| == |DanglingRows(b)|
  {
    var names := IdsOf(ids, Position);
    var f := (r: Row) => (Position, if r.id in names then names[r.id] else "");
    var xs, ys := DanglingRows(b), DanglingPositions(after, target);
    forall x | x in xs ensures f(x) in ys { DanglesAlike(db, ids, b, target, after, used, x); }
    forall y | y in ys ensures exists x :: x in xs && f(x) == y {
      assert Explained(db, ids, b, target, after, y);
      var r :| r in RowsOf(b, y.0) && r.id in IdsOf(ids, y.0) && y.1 == IdsOf(ids, y.0)[r.id];
      DanglesAlike(db, ids, b, target, after, used, r);
      assert f(r) == y;
    }
    forall x, x' | x in xs && x' in xs && f(x) == f(x') ensures x == x' {
      SameId(RowsOf(b, Position), x, x');
    }
    ImageSize(xs, ys, f);
  }
}
