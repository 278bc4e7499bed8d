/** What each filter of a data layer selects, told from the cell and the filter's value. */
module DataFilters {
  import opened Common
  import opened DataLayer

  // ---- one filter --------------------------------------------------------------------------------------

  /** Numbers are ordered as numbers and instants as instants; nothing else is ordered. */
  predicate Before(a: Atom, b: Atom) {
    (a.Num? && b.Num? && a.n < b.n) || (a.Time? && b.Time? && a.t < b.t)
  }

  predicate NotAfter(a: Atom, b: Atom) { a == b || Before(a, b) }

  /** The texts of a list with commas between. */
  function Commas(c: Conversions, atoms: seq<Atom>): string {
    if atoms == [] then ""
    else if |atoms| == 1 then c.text(atoms[0])
    else Commas(c, atoms[..|atoms| - 1]) + "," + c.text(atoms[|atoms| - 1])
  }

  lemma {:induction false} JoinedIs(c: Conversions, atoms: seq<Atom>)
    ensures Joined(c, atoms) == Commas(c, atoms)
    decreases |atoms|
  {
    if |atoms| > 1 {
      var n := |atoms| - 1;
      JoinedIs(c, atoms[1..]);
      JoinedIs(c, atoms[..n]);
      if n > 1 {
        assert atoms[1..][..n - 1] == atoms[..n][1..];
        JoinedIs(c, atoms[1..][..n - 1]);
      }
    }
  }

  /** A column whose listed values include the text true holds yes or no. */
  predicate OfYesNo(f: Field) { f.kind == Enum && f.values != None && "true" in f.values.value }

  /** The value reads as the text true. */
  predicate SaysTrue(c: Conversions, v: Value) {
    (v.One? && c.text(v.atom) == "true") || (v.Many? && Commas(c, v.atoms) == "true")
  }

  /** The bound a filter compares with: on a date column the date its text names, elsewhere its one value. */
  function BoundOf(c: Conversions, f: Filter): Option<Atom> {
    if f.value.One? then (if f.field.kind == Date then c.date(f.value.atom) else Some(f.value.atom))
    else if f.value.Many? && f.field.kind == Date then c.date(Str(Commas(c, f.value.atoms)))
    else None
  }

  /** A value that is missing asks nothing, but of a date column, where it is no date. */
  predicate AsksNothing(f: Filter) { f.value.Missing? && f.field.kind != Date }

  /** Whether a cell is one the filter asks for. A null cell is only asked for by a test for null and by a filter
      that asks nothing. */
  predicate Asks(c: Conversions, f: Filter, cell: Option<Atom>) {
    if f.operator == IsNull then (if f.value == One(Bool(false)) then cell.Some? else cell.None?)
    else if OfYesNo(f.field) then f.operator == Eq && cell == Some(Bool(SaysTrue(c, f.value)))
    else
      match f.operator
      case Eq => f.value.Missing? || (f.value.One? && cell == Some(f.value.atom))
      case Ne => f.value.Missing? || (f.value.One? && cell.Some? && cell.value != f.value.atom)
      case In => cell.Some? && cell.value in AtomsOf(f.value)
      case NotIn => cell.Some? && cell.value !in AtomsOf(f.value)
      case Gt => AsksNothing(f) || (cell.Some? && BoundOf(c, f).Some? && Before(BoundOf(c, f).value, cell.value))
      case Gte => AsksNothing(f) || (cell.Some? && BoundOf(c, f).Some? && NotAfter(BoundOf(c, f).value, cell.value))
      case Lt => AsksNothing(f) || (cell.Some? && BoundOf(c, f).Some? && Before(cell.value, BoundOf(c, f).value))
      case Lte => AsksNothing(f) || (cell.Some? && BoundOf(c, f).Some? && NotAfter(cell.value, BoundOf(c, f).value))
      case Between =>
        f.value.Many? && |f.value.atoms| == 2 && cell.Some?
        && (var low, high := EndOf(c, f, f.value.atoms[0]), EndOf(c, f, f.value.atoms[1]);
            low.Some? && high.Some? && NotAfter(low.value, cell.value) && NotAfter(cell.value, high.value))
      case IsNull => cell.None?
  }

  function EndOf(c: Conversions, f: Filter, a: Atom): Option<Atom> {
    if f.field.kind == Date then c.date(a) else Some(a)
  }

  lemma ComparisonMeans(c: Conversions, f: Filter, row: Row)
    requires f.operator == Gt || f.operator == Gte || f.operator == Lt || f.operator == Lte
    ensures Holds(c, f, row) <==> Asks(c, f, Cell(row, f.field.key))
  {
    if f.value.Many? { JoinedIs(c, f.value.atoms); }
  }

  lemma RangeMeans(c: Conversions, f: Filter, row: Row)
    requires f.operator == Between
    ensures Holds(c, f, row) <==> Asks(c, f, Cell(row, f.field.key))
  {
    assert f.value.One? ==> |AtomsOf(f.value)| == 1;
  }

  lemma EqualityMeans(c: Conversions, f: Filter, row: Row)
    requires f.operator == Eq
    ensures Holds(c, f, row) <==> Asks(c, f, Cell(row, f.field.key))
  {
    if f.value.Many? { JoinedIs(c, f.value.atoms); }
    assert "undefined" != "true";
  }

  lemma HoldsMeans(c: Conversions, f: Filter, row: Row)
    ensures Holds(c, f, row) <==> Asks(c, f, Cell(row, f.field.key))
  {
    match f.operator
    case Gt => ComparisonMeans(c, f, row);
    case Gte => ComparisonMeans(c, f, row);
    case Lt => ComparisonMeans(c, f, row);
    case Lte => ComparisonMeans(c, f, row);
    case Between => RangeMeans(c, f, row);
    case Eq => EqualityMeans(c, f, row);
    case _ =>
  }

  // ---- all filters -------------------------------------------------------------------------------------

  /** When no two stored filters share a column and none is on the tenant's, a row is selected exactly when it is
      the tenant's and every filter asks for its cell. */
  lemma SelectionMeans(c: Conversions, tenant: string, fs: seq<Filter>, row: Row)
    requires AllCount(fs) && SparesTenant(fs)
    ensures Selected(WhereOf(c, tenant, fs), row)
            <==> Cell(row, "tenantId") == Some(Str(tenant))
                 && forall f :: f in fs ==> Asks(c, f, Cell(row, f.field.key))
  {
    WhereIsConjunction(c, tenant, fs, row);
    forall f | f in fs ensures Holds(c, f, row) <==> Asks(c, f, Cell(row, f.field.key)) { HoldsMeans(c, f, row); }
  }

  /** No stored filter is on the tenant's column. */
  predicate SparesStored(fs: seq<Filter>) {
    forall i :: 0 <= i < |fs| && !fs[i].field.derived ==> fs[i].field.key != "tenantId"
  }

  lemma FirstLast(tenant: string, fs: seq<Filter>)
    ensures Last(Demands(tenant, fs), 0) <==> SparesStored(fs)
  {
    var ds := Demands(tenant, fs);
    forall i | 0 <= i < |fs| ensures ds[i + 1] == fs[i] { }
    if SparesStored(fs) {
      forall j | 0 < j < |ds| && !ds[j].field.derived ensures ds[j].field.key != ds[0].field.key {
        assert ds[j] == fs[j - 1];
      }
    }
  }

  lemma LastShifts(tenant: string, fs: seq<Filter>, i: nat)
    requires i < |fs|
    ensures Last(Demands(tenant, fs), i + 1) <==> Last(fs, i)
  {
    var ds := Demands(tenant, fs);
    assert ds[i + 1] == fs[i];
    if Last(fs, i) {
      forall j | i + 1 < j < |ds| && !ds[j].field.derived ensures ds[j].field.key != ds[i + 1].field.key {
        assert ds[j] == fs[j - 1];
      }
    }
    if Last(ds, i + 1) {
      forall j | i < j < |fs| && !fs[j].field.derived ensures fs[j].field.key != fs[i].field.key {
        assert ds[j + 1] == fs[j];
      }
    }
  }

  /** Every last stored filter asks for the row's cell. */
  ghost predicate LastAsk(c: Conversions, fs: seq<Filter>, row: Row) {
    forall i: nat :: i < |fs| && Last(fs, i) ==> Asks(c, fs[i], Cell(row, fs[i].field.key))
  }

  lemma WhereAsks(c: Conversions, tenant: string, fs: seq<Filter>, row: Row)
    ensures Selected(WhereOf(c, tenant, fs), row) <==> LastAsk(c, Demands(tenant, fs), row)
  {
    var ds := Demands(tenant, fs);
    WhereMeans(c, tenant, fs, row);
    forall i: nat | i < |ds| ensures Holds(c, ds[i], row) <==> Asks(c, ds[i], Cell(row, ds[i].field.key)) {
      HoldsMeans(c, ds[i], row);
    }
  }

  /** The tenant's entry stands before all filters. */
  lemma DemandsAsk(c: Conversions, tenant: string, fs: seq<Filter>, row: Row)
    ensures LastAsk(c, Demands(tenant, fs), row)
            <==> (SparesStored(fs) ==> Cell(row, "tenantId") == Some(Str(tenant))) && LastAsk(c, fs, row)
  {
    var ds := Demands(tenant, fs);
    FirstLast(tenant, fs);
    assert Asks(c, ds[0], Cell(row, "tenantId")) <==> Cell(row, "tenantId") == Some(Str(tenant));
    if LastAsk(c, ds, row) {
      forall i: nat | i < |fs| && Last(fs, i) ensures Asks(c, fs[i], Cell(row, fs[i].field.key)) {
        LastShifts(tenant, fs, i);
        assert ds[i + 1] == fs[i];
      }
    }
    if LastAsk(c, fs, row) {
      forall i: nat | 0 < i < |ds| && Last(ds, i) ensures Asks(c, ds[i], Cell(row, ds[i].field.key)) {
        LastShifts(tenant, fs, i - 1);
        assert ds[i] == fs[i - 1];
      }
    }
  }

  /** Whatever the filters: a row is selected exactly when its cell is asked for by the last stored filter on
      every column, and, unless one is on the tenant's, it is the tenant's. */
  lemma SelectionMeansLast(c: Conversions, tenant: string, fs: seq<Filter>, row: Row)
    ensures Selected(WhereOf(c, tenant, fs), row)
            <==> (SparesStored(fs) ==> Cell(row, "tenantId") == Some(Str(tenant))) && LastAsk(c, fs, row)
  {
    WhereAsks(c, tenant, fs, row);
    DemandsAsk(c, tenant, fs, row);
  }

  // ---- what passes the compiler ------------------------------------------------------------------------

  /** The first field of the entity with this key. */
  ghost predicate FieldFor(fields: seq<Field>, key: string, f: Field) {
    exists i :: 0 <= i < |fields| && fields[i] == f && f.key == key && forall j :: 0 <= j < i ==> fields[j].key != key
  }

  lemma {:induction false} FindFieldIs(fields: seq<Field>, key: string, f: Field)
    ensures FindField(fields, key) == Some(f) <==> FieldFor(fields, key, f)
    ensures FindField(fields, key) == None <==> forall g :: g in fields ==> g.key != key
  {
    if fields == [] {
    } else if fields[0].key == key {
      if FindField(fields, key) == Some(f) { assert fields[0] == f; }
    } else {
      FindFieldIs(fields[1..], key, f);
      if FieldFor(fields[1..], key, f) {
        var i :| 0 <= i < |fields[1..]| && fields[1..][i] == f && f.key == key
                 && forall j :: 0 <= j < i ==> fields[1..][j].key != key;
        assert fields[i + 1] == f;
        forall j | 0 <= j < i + 1 ensures fields[j].key != key { if j > 0 { assert fields[1..][j - 1] == fields[j]; } }
      }
      if FieldFor(fields, key, f) {
        var i :| 0 <= i < |fields| && fields[i] == f && f.key == key
                 && forall j :: 0 <= j < i ==> fields[j].key != key;
        assert i > 0 && fields[1..][i - 1] == f;
        forall j | 0 <= j < i - 1 ensures fields[1..][j].key != key { assert fields[1..][j] == fields[j + 1]; }
      }
      forall g | g in fields[1..] ensures g in fields { }
      forall g | g in fields ensures g == fields[0] || g in fields[1..] { }
    }
  }

  /** The texts an enumeration is checked for: of every value of a list, of the one value, or of none. */
  predicate MembersListed(f: Field, v: Value, text: Atom -> string)
    requires f.values.Some?
  {
    match v
    case Missing => "undefined" in f.values.value
    case One(a) => text(a) in f.values.value
    case Many(vs) => forall a :: a in vs ==> text(a) in f.values.value
  }

  lemma MembersAre(f: Field, v: Value, text: Atom -> string)
    requires f.values.Some?
    ensures (exists m :: m in Members(v, text) && m !in f.values.value) <==> !MembersListed(f, v, text)
  {
    var ms := Members(v, text);
    if !MembersListed(f, v, text) && v.Many? {
      var a :| a in v.atoms && text(a) !in f.values.value;
      var i :| 0 <= i < |v.atoms| && v.atoms[i] == a;
      assert ms[i] == text(a);
    }
    if v.Missing? { assert ms[0] == "undefined"; }
    if v.One? { assert ms[0] == text(v.atom); }
  }

  /** A filter compiles exactly for a field of the entity, an operator the field allows, listed values where the
      field is an enumeration (unless the test is for null), an array where one is needed, and two bounds for a
      range; it is stored as sent. */
  lemma FilterCompilesExactly(e: Entity, f: RawFilter, at: nat, text: Atom -> string, field: Field)
    requires f.field.Some? && FieldFor(e.fields, f.field.value, field)
    ensures CompileFilter(e, f, at, text).Ok?
            <==> && f.operator.Some? && f.operator.value in field.operators
                 && (field.kind == Enum && field.values.Some? && f.operator.value != IsNull
                     ==> MembersListed(field, f.value, text))
                 && (f.operator.value == In || f.operator.value == NotIn ==> f.value.Many?)
                 && (f.operator.value == Between ==> f.value.Many? && |f.value.atoms| == 2)
    ensures CompileFilter(e, f, at, text).Ok? ==>
              CompileFilter(e, f, at, text).value == Filter(field, f.operator.value, f.value)
  {
    FindFieldIs(e.fields, f.field.value, field);
    if field.values.Some? { MembersAre(field, f.value, text); }
  }

  lemma UnknownFieldRefused(e: Entity, f: RawFilter, at: nat, text: Atom -> string)
    requires f.field.None? || forall g :: g in e.fields ==> g.key != f.field.value
    ensures CompileFilter(e, f, at, text).Err?
  {
    if f.field.Some? && FindField(e.fields, f.field.value).Some? {
      FindFieldIs(e.fields, f.field.value, FindField(e.fields, f.field.value).value);
    }
  }

  lemma {:induction false} FiltersCompile(e: Entity, fs: seq<RawFilter>, text: Atom -> string)
    ensures CompileFilters(e, fs, text).Ok? <==> forall i: nat :: i < |fs| ==> CompileFilter(e, fs[i], i, text).Ok?
    ensures CompileFilters(e, fs, text).Ok? ==>
              |CompileFilters(e, fs, text).value| == |fs|
              && forall i: nat :: i < |fs| ==>
                   CompileFilters(e, fs, text).value[i] == CompileFilter(e, fs[i], i, text).value
  {
    if fs == [] {
    } else {
      var n := |fs| - 1;
      FiltersCompile(e, fs[..n], text);
      assert forall i: nat :: i < n ==> fs[..n][i] == fs[i];
      if forall i: nat :: i < |fs| ==> CompileFilter(e, fs[i], i, text).Ok? {
        forall i: nat | i < n ensures CompileFilter(e, fs[..n][i], i, text).Ok? { }
      }
      if CompileFilters(e, fs, text).Ok? {
        forall i: nat | i < |fs| ensures CompileFilter(e, fs[i], i, text).Ok? {
          if i < n { assert CompileFilter(e, fs[..n][i], i, text).Ok?; }
        }
      }
    }
  }

  /** A query compiles exactly with at most twenty filters that all do, a window that is one, and at most one
      group, of the entity's; without a group it is by organisation unit, without a window live. */
  lemma QueryCompilesExactly(e: Entity, q: RawQuery, text: Atom -> string)
    ensures var groups := if q.groupBy == [] then ["orgUnitId"] else q.groupBy;
            CompileQuery(e, q, text).Ok?
            <==> && |q.filters| <= 20 && CompileFilters(e, q.filters, text).Ok? && q.window != Some(None)
                 && (forall g :: g in groups ==> g in e.groupBy) && |groups| == 1
    ensures CompileQuery(e, q, text).Ok? ==>
              CompileQuery(e, q, text).value
              == Query(CompileFilters(e, q.filters, text).value,
                       if q.window.Some? then q.window.value.value else Live,
                       if q.groupBy == [] then ["orgUnitId"] else q.groupBy)
  {
  }
}
