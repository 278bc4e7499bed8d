/**
 * The governed data layer: definitions are compiled against a catalogue entity, turned into a database
 * condition, and their rows folded into groups.
 */
module DataLayer {
  import opened Common

  datatype FieldType = Text | Number | Date | Enum

  datatype Operator = Eq | Ne | In | NotIn | Gt | Gte | Lt | Lte | Between | IsNull

  datatype AggOp = Count | Sum | Avg | Percentile | DistinctCount

  datatype Field = Field(key: string, kind: FieldType, operators: set<Operator>, values: Option<set<string>>,
                         derived: bool, measure: bool)

  datatype Entity = Entity(entityKey: string, fields: seq<Field>, aggregations: set<AggOp>, groupBy: set<string>)

  /** Values a stored cell or a filter can hold. */
  datatype Atom = Str(s: string) | Num(n: real) | Bool(b: bool) | Time(t: int)

  /** A filter's value: one, nothing, or an array of values. */
  datatype Value = Missing | One(atom: Atom) | Many(atoms: seq<Atom>)

  /** A filter as sent: the field if it is a string, the operator if it is one. */
  datatype RawFilter = RawFilter(field: Option<string>, operator: Option<Operator>, value: Value)

  datatype Window = Live | Today | Last7d | Last30d

  /** A query as sent or stored; a window that was given but is none is Some(None). */
  datatype RawQuery = RawQuery(filters: seq<RawFilter>, window: Option<Option<Window>>, groupBy: seq<string>)

  datatype Filter = Filter(field: Field, operator: Operator, value: Value)

  datatype Query = Query(filters: seq<Filter>, window: Window, groupBy: seq<string>)

  datatype Error =
    | TooManyFilters | FieldRequired(at: nat) | UnknownField(at: nat) | BadOperator(at: nat) | BadMember(at: nat)
    | NeedsArray(at: nat) | NeedsPair(at: nat) | BadWindow | BadGroup | TooManyGroups
    | BadAggregation | AggregationField | UnknownAggregationField | NotAMeasure

  const MAX_FILTERS := 20

  // ---- compilation ---------------------------------------------------------------------------------

  function FindField(fields: seq<Field>, key: string): Option<Field> {
    if fields == [] then None else if fields[0].key == key then Some(fields[0]) else FindField(fields[1..], key)
  }

  lemma {:induction false} FoundKey(fields: seq<Field>, key: string)
    ensures FindField(fields, key).Some? ==> FindField(fields, key).value.key == key
  {
    if fields == [] {
    } else {
      FoundKey(fields[1..], key);
    }
  }

  function AtomsOf(v: Value): seq<Atom> { match v case Missing => [] case One(a) => [a] case Many(vs) => vs }

  /** A value that is missing is looked up as the text "undefined", which no catalogue lists. */
  function Members(v: Value, text: Atom -> string): seq<string> {
    match v
    case Missing => ["undefined"]
    case One(a) => [text(a)]
    case Many(vs) => seq(|vs|, i requires 0 <= i < |vs| => text(vs[i]))
  }

  /** text is the host's conversion of a value to a string. */
  function CompileFilter(e: Entity, f: RawFilter, at: nat, text: Atom -> string): Result<Filter, Error> {
    if f.field.None? then Err(FieldRequired(at)) else
      var field := FindField(e.fields, f.field.value);
      if field.None? then Err(UnknownField(at))
      else if f.operator.None? || f.operator.value !in field.value.operators then Err(BadOperator(at))
      else
        var op := f.operator.value;
        if field.value.kind == Enum && field.value.values.Some? && op != IsNull
           && exists m :: m in Members(f.value, text) && m !in field.value.values.value then Err(BadMember(at))
        else if (op == In || op == NotIn) && !f.value.Many? then Err(NeedsArray(at))
        else if op == Between && !(f.value.Many? && |f.value.atoms| == 2) then Err(NeedsPair(at))
        else Ok(Filter(field.value, op, f.value))
  }

  function CompileFilters(e: Entity, fs: seq<RawFilter>, text: Atom -> string): Result<seq<Filter>, Error> {
    if fs == [] then Ok([]) else
      match CompileFilters(e, fs[..|fs| - 1], text)
      case Err(x) => Err(x)
      case Ok(done) =>
        match CompileFilter(e, fs[|fs| - 1], |fs| - 1, text)
        case Err(x) => Err(x)
        case Ok(f) => Ok(done + [f])
  }

  const DEFAULT_GROUP := ["orgUnitId"]

  function CompileQuery(e: Entity, q: RawQuery, text: Atom -> string): Result<Query, Error> {
    if |q.filters| > MAX_FILTERS then Err(TooManyFilters) else
      match CompileFilters(e, q.filters, text)
      case Err(x) => Err(x)
      case Ok(filters) =>
        if q.window == Some(None) then Err(BadWindow)
        else
          var window := if q.window.Some? then q.window.value.value else Live;
          var groupBy := if q.groupBy != [] then q.groupBy else DEFAULT_GROUP;
          if exists g :: g in groupBy && g !in e.groupBy then Err(BadGroup)
          else if |groupBy| > 1 then Err(TooManyGroups)
          else Ok(Query(filters, window, groupBy))
  }

  datatype RawAggregation = RawAggregation(op: Option<Option<AggOp>>, field: Option<string>)
  datatype Aggregation = Aggregation(op: AggOp, field: Option<Field>)

  function CompileAggregation(e: Entity, a: RawAggregation): Result<Aggregation, Error> {
    var op := if a.op.Some? then a.op.value else Some(Count);
    if op.None? || op.value !in e.aggregations then Err(BadAggregation)
    else if op.value == Count then Ok(Aggregation(Count, None))
    else if a.field.None? || a.field.value == "" then Err(AggregationField)
    else
      var field := FindField(e.fields, a.field.value);
      if field.None? then Err(UnknownAggregationField)
      else if op.value != DistinctCount && !field.value.measure then Err(NotAMeasure)
      else Ok(Aggregation(op.value, field))
  }

  // ---- what is stored compiles back ----------------------------------------------------------------

  function StoredFilter(f: Filter): RawFilter { RawFilter(Some(f.field.key), Some(f.operator), f.value) }

  function StoredFilters(fs: seq<Filter>): (r: seq<RawFilter>)
    ensures |r| == |fs| && forall i :: 0 <= i < |fs| ==> r[i] == StoredFilter(fs[i])
  {
    seq(|fs|, i requires 0 <= i < |fs| => StoredFilter(fs[i]))
  }

  function StoredQuery(q: Query): RawQuery { RawQuery(StoredFilters(q.filters), Some(Some(q.window)), q.groupBy) }

  function StoredAggregation(a: Aggregation): RawAggregation {
    RawAggregation(Some(Some(a.op)), match a.field case None => None case Some(f) => Some(f.key))
  }

  lemma FilterRecompiles(e: Entity, f: RawFilter, at: nat, text: Atom -> string)
    requires CompileFilter(e, f, at, text).Ok?
    ensures CompileFilter(e, StoredFilter(CompileFilter(e, f, at, text).value), at, text)
            == CompileFilter(e, f, at, text)
  {
    FoundKey(e.fields, f.field.value);
  }

  lemma {:induction false} FiltersRecompile(e: Entity, fs: seq<RawFilter>, text: Atom -> string)
    requires CompileFilters(e, fs, text).Ok?
    ensures var out := CompileFilters(e, fs, text).value;
            |out| == |fs| && CompileFilters(e, StoredFilters(out), text) == Ok(out)
  {
    if fs == [] {
    } else {
      var n := |fs| - 1;
      FiltersRecompile(e, fs[..n], text);
      FilterRecompiles(e, fs[n], n, text);
      var out := CompileFilters(e, fs, text).value;
      assert StoredFilters(out)[..n] == StoredFilters(out[..n]);
      assert out[..n] == CompileFilters(e, fs[..n], text).value;
    }
  }

  /** A stored definition compiles to the very query that was validated when it was created. */
  lemma QueryRecompiles(e: Entity, q: RawQuery, text: Atom -> string)
    requires CompileQuery(e, q, text).Ok?
    ensures CompileQuery(e, StoredQuery(CompileQuery(e, q, text).value), text) == CompileQuery(e, q, text)
  {
    FiltersRecompile(e, q.filters, text);
  }

  lemma AggregationRecompiles(e: Entity, a: RawAggregation)
    requires CompileAggregation(e, a).Ok? && forall f :: f in e.fields ==> f.key != ""
    ensures CompileAggregation(e, StoredAggregation(CompileAggregation(e, a).value)) == CompileAggregation(e, a)
  {
    if a.field.Some? { FoundKey(e.fields, a.field.value); }
  }

  // ---- the database condition ----------------------------------------------------------------------

  /** What the database is asked of one column; it refuses tests of the wrong type. */
  datatype Condition =
    | Equals(v: Atom) | Not(v: Atom) | InList(vs: seq<Atom>) | NotInList(vs: seq<Atom>)
    | Above(v: Atom, orEqual: bool) | Below(v: Atom, orEqual: bool) | Within(low: Atom, high: Atom)
    | Null | NotNull | Anything | Refused

  type Where = map<string, Condition>

  /** How the database orders values of one kind; values of different kinds are not ordered. */
  predicate Less(a: Atom, b: Atom) {
    match (a, b)
    case (Num(x), Num(y)) => x < y
    case (Time(x), Time(y)) => x < y
    case _ => false
  }

  predicate AtMost(a: Atom, b: Atom) { a == b || Less(a, b) }

  /** What the database accepts; a null cell passes only a test for null. */
  predicate Accepts(c: Condition, cell: Option<Atom>) {
    match c
    case Anything => true
    case Refused => false
    case Null => cell.None?
    case NotNull => cell.Some?
    case Equals(v) => cell == Some(v)
    case Not(v) => cell.Some? && cell.value != v
    case InList(vs) => cell.Some? && cell.value in vs
    case NotInList(vs) => cell.Some? && cell.value !in vs
    case Above(v, orEqual) => cell.Some? && (Less(v, cell.value) || (orEqual && v == cell.value))
    case Below(v, orEqual) => cell.Some? && (Less(cell.value, v) || (orEqual && v == cell.value))
    case Within(low, high) => cell.Some? && AtMost(low, cell.value) && AtMost(cell.value, high)
  }

  /** The host's reading of a value as a date, which may fail, and as a text. */
  datatype Conversions = Conversions(date: Atom -> Option<Atom>, text: Atom -> string)

  /** A yes-or-no column is filtered by its name. */
  predicate YesNo(f: Field) { f.kind == Enum && f.values.Some? && "true" in f.values.value }

  /** The host's text of a list: its texts with commas between. */
  function Joined(c: Conversions, atoms: seq<Atom>): string {
    if atoms == [] then ""
    else if |atoms| == 1 then c.text(atoms[0])
    else c.text(atoms[0]) + "," + Joined(c, atoms[1..])
  }

  function TextOf(c: Conversions, v: Value): string {
    match v case Missing => "undefined" case One(a) => c.text(a) case Many(atoms) => Joined(c, atoms)
  }

  /** Dates in filters are texts; a list is read as the date its own text names. */
  function Bound(c: Conversions, f: Field, v: Value): Option<Atom> {
    match v
    case One(a) => if f.kind == Date then c.date(a) else Some(a)
    case Many(atoms) => if f.kind == Date then c.date(Str(Joined(c, atoms))) else None
    case Missing => None
  }

  function Compare(c: Conversions, f: Filter, use: Atom -> Condition): Condition {
    if f.value.Missing? && f.field.kind != Date then Anything else
      match Bound(c, f.field, f.value) case None => Refused case Some(a) => use(a)
  }

  function Exact(f: Filter, use: Atom -> Condition): Condition {
    match f.value case One(a) => use(a) case Missing => Anything case Many(_) => Refused
  }

  function Range(c: Conversions, f: Field, low: Atom, high: Atom): Condition {
    match (Bound(c, f, One(low)), Bound(c, f, One(high)))
    case (Some(a), Some(b)) => Within(a, b)
    case _ => Refused
  }

  /** The condition one filter puts on its column; a missing value puts none, and a yes-or-no column knows
      only equality and null. */
  function ConditionOf(c: Conversions, f: Filter): Condition {
    if f.operator == IsNull then (if f.value == One(Bool(false)) then NotNull else Null)
    else if YesNo(f.field) then
      (if f.operator == Eq then Equals(Bool(TextOf(c, f.value) == "true")) else Refused)
    else
      match f.operator
      case Eq => Exact(f, a => Equals(a))
      case Ne => Exact(f, a => Not(a))
      case In => InList(AtomsOf(f.value))
      case NotIn => NotInList(AtomsOf(f.value))
      case Gt => Compare(c, f, a => Above(a, false))
      case Gte => Compare(c, f, a => Above(a, true))
      case Lt => Compare(c, f, a => Below(a, false))
      case Lte => Compare(c, f, a => Below(a, true))
      case Between =>
        if |AtomsOf(f.value)| == 2 then Range(c, f.field, AtomsOf(f.value)[0], AtomsOf(f.value)[1]) else Refused
      case IsNull => Null
  }

  type Row = map<string, Atom>

  function Cell(row: Row, key: string): Option<Atom> { if key in row then Some(row[key]) else None }

  /** What one filter says of a row. */
  predicate Holds(c: Conversions, f: Filter, row: Row) { Accepts(ConditionOf(c, f), Cell(row, f.field.key)) }

  /** Equality, inequality and null split the rows three ways: a row whose cell is null passes neither of the
      first two. */
  lemma ThreeWays(c: Conversions, field: Field, a: Atom, row: Row)
    requires !YesNo(field)
    ensures var eq, ne, isNull := Filter(field, Eq, One(a)), Filter(field, Ne, One(a)), Filter(field, IsNull, Missing);
            (if Holds(c, eq, row) then 1 else 0) + (if Holds(c, ne, row) then 1 else 0)
            + (if Holds(c, isNull, row) then 1 else 0) == 1
  {
  }

  /** A range is its two halves. */
  lemma BetweenIsBoth(c: Conversions, field: Field, a: Atom, b: Atom, row: Row)
    requires !YesNo(field)
    ensures Holds(c, Filter(field, Between, Many([a, b])), row)
            <==> Holds(c, Filter(field, Gte, One(a)), row) && Holds(c, Filter(field, Lte, One(b)), row)
  {
  }

  /** The where object: the tenant's entry, then each stored filter writes its column's entry, over any
      earlier one. */
  function WhereOf(c: Conversions, tenant: string, fs: seq<Filter>): Where {
    if fs == [] then map["tenantId" := Equals(Str(tenant))] else
      var f := fs[|fs| - 1];
      var rest := WhereOf(c, tenant, fs[..|fs| - 1]);
      if f.field.derived then rest else rest[f.field.key := ConditionOf(c, f)]
  }

  predicate Selected(w: Where, row: Row) { forall k :: k in w ==> Accepts(w[k], Cell(row, k)) }

  method ToPrismaWhere(c: Conversions, tenant: string, fs: seq<Filter>) returns (w: Where)
    ensures w == WhereOf(c, tenant, fs)
  {
    w := map["tenantId" := Equals(Str(tenant))];
    for i := 0 to |fs|
      invariant w == WhereOf(c, tenant, fs[..i])
    {
      assert fs[..i + 1][..i] == fs[..i];
      var f := fs[i];
      if f.field.derived { continue; }
      w := w[f.field.key := ConditionOf(c, f)];
    }
    assert fs[..|fs|] == fs;
  }

  /** What is asked for in all: the tenant's own rows, and the filters. */
  function Demands(tenant: string, fs: seq<Filter>): seq<Filter> {
    [Filter(Field("tenantId", Text, {Eq}, None, false, false), Eq, One(Str(tenant)))] + fs
  }

  function Written(c: Conversions, fs: seq<Filter>): Where {
    if fs == [] then map[] else
      var f := fs[|fs| - 1];
      var rest := Written(c, fs[..|fs| - 1]);
      if f.field.derived then rest else rest[f.field.key := ConditionOf(c, f)]
  }

  /** The tenant's entry is there as if the first filter had written it. */
  lemma {:induction false} TenantFirst(c: Conversions, tenant: string, fs: seq<Filter>)
    ensures WhereOf(c, tenant, fs) == Written(c, Demands(tenant, fs))
  {
    if fs == [] {
      assert Demands(tenant, fs)[..0] == [];
    } else {
      TenantFirst(c, tenant, fs[..|fs| - 1]);
      assert Demands(tenant, fs)[..|fs|] == Demands(tenant, fs[..|fs| - 1]);
    }
  }

  /** No later stored filter is on the same column. */
  predicate Last(fs: seq<Filter>, i: nat)
    requires i < |fs|
  {
    !fs[i].field.derived && forall j :: i < j < |fs| && !fs[j].field.derived ==> fs[j].field.key != fs[i].field.key
  }

  lemma {:induction false} WrittenAt(c: Conversions, fs: seq<Filter>, k: string) returns (i: nat)
    requires k in Written(c, fs)
    ensures i < |fs| && Last(fs, i) && fs[i].field.key == k && Written(c, fs)[k] == ConditionOf(c, fs[i])
  {
    var n := |fs| - 1;
    if !fs[n].field.derived && fs[n].field.key == k {
      i := n;
    } else {
      i := WrittenAt(c, fs[..n], k);
      assert fs[..n][i] == fs[i];
      forall j | i < j < |fs| && !fs[j].field.derived ensures fs[j].field.key != fs[i].field.key {
        if j < n { assert fs[..n][j] == fs[j]; }
      }
    }
  }

  lemma {:induction false} LastWritten(c: Conversions, fs: seq<Filter>, i: nat)
    requires i < |fs| && Last(fs, i)
    ensures fs[i].field.key in Written(c, fs) && Written(c, fs)[fs[i].field.key] == ConditionOf(c, fs[i])
  {
    var n := |fs| - 1;
    if i == n {
    } else {
      assert fs[..n][i] == fs[i];
      assert forall j :: i < j < n ==> fs[..n][j] == fs[j];
      LastWritten(c, fs[..n], i);
    }
  }

  /** The rows selected by what a list of filters wrote. */
  lemma WrittenMeans(c: Conversions, fs: seq<Filter>, row: Row)
    ensures Selected(Written(c, fs), row) <==> forall i: nat :: i < |fs| && Last(fs, i) ==> Holds(c, fs[i], row)
  {
    var w := Written(c, fs);
    if Selected(w, row) {
      forall i: nat | i < |fs| && Last(fs, i) ensures Holds(c, fs[i], row) { LastWritten(c, fs, i); }
    }
    if forall i: nat :: i < |fs| && Last(fs, i) ==> Holds(c, fs[i], row) {
      forall k | k in w ensures Accepts(w[k], Cell(row, k)) { var i := WrittenAt(c, fs, k); }
    }
  }

  /** The rows selected are exactly those that satisfy the last stored filter of every column, the tenant's
      counting as the first of all. */
  lemma WhereMeans(c: Conversions, tenant: string, fs: seq<Filter>, row: Row)
    ensures var ds := Demands(tenant, fs);
            Selected(WhereOf(c, tenant, fs), row) <==> forall i: nat :: i < |ds| && Last(ds, i) ==> Holds(c, ds[i], row)
  {
    TenantFirst(c, tenant, fs);
    WrittenMeans(c, Demands(tenant, fs), row);
  }

  predicate OwnedBy(row: Row, tenant: string) { Cell(row, "tenantId") == Some(Str(tenant)) }

  /** No filter is on the column that holds the tenant. */
  predicate SparesTenant(fs: seq<Filter>) { forall i :: 0 <= i < |fs| ==> fs[i].field.key != "tenantId" }

  /** Then every row selected is the tenant's. */
  lemma TenantOnly(c: Conversions, tenant: string, fs: seq<Filter>, row: Row)
    requires SparesTenant(fs) && Selected(WhereOf(c, tenant, fs), row)
    ensures OwnedBy(row, tenant)
  {
    TenantEntry(c, tenant, fs);
  }

  /** No field of the entity is the column that holds the tenant, as in every entity of the catalogue. */
  predicate NoTenantField(e: Entity) { forall f :: f in e.fields ==> f.key != "tenantId" }

  lemma {:induction false} FoundListed(fields: seq<Field>, key: string)
    ensures FindField(fields, key).Some? ==> FindField(fields, key).value in fields
  {
    if fields == [] {
    } else {
      FoundListed(fields[1..], key);
    }
  }

  lemma {:induction false} CompiledSpare(e: Entity, fs: seq<RawFilter>, text: Atom -> string)
    requires NoTenantField(e) && CompileFilters(e, fs, text).Ok?
    ensures SparesTenant(CompileFilters(e, fs, text).value)
  {
    if fs == [] {
    } else {
      CompiledSpare(e, fs[..|fs| - 1], text);
      FoundListed(e.fields, fs[|fs| - 1].field.value);
    }
  }

  /** So every query that passes the compiler selects rows of the tenant alone, whatever its time window. */
  lemma CompiledTenantOnly(c: Conversions, e: Entity, q: RawQuery, text: Atom -> string, tenant: string, column: string,
                           since: Option<int>, row: Row)
    requires NoTenantField(e) && column != "tenantId" && CompileQuery(e, q, text).Ok?
    requires Selected(Windowed(WhereOf(c, tenant, CompileQuery(e, q, text).value.filters), column, since), row)
    ensures OwnedBy(row, tenant)
  {
    CompiledSpare(e, q.filters, text);
    TenantEntry(c, tenant, CompileQuery(e, q, text).value.filters);
    assert Accepts(Equals(Str(tenant)), Cell(row, "tenantId"));
  }

  lemma {:induction false} TenantEntry(c: Conversions, tenant: string, fs: seq<Filter>)
    requires SparesTenant(fs)
    ensures "tenantId" in WhereOf(c, tenant, fs) && WhereOf(c, tenant, fs)["tenantId"] == Equals(Str(tenant))
  {
    if fs == [] {
    } else {
      TenantEntry(c, tenant, fs[..|fs| - 1]);
    }
  }

  /** That rests on the catalogue: under one with such a field, which the code's has not, a filter on it would
      take the tenant's entry away. */
  lemma TenantOverwritten(c: Conversions, tenant: string, other: string)
    requires tenant != other
    ensures var field := Field("tenantId", Text, {Ne}, None, false, false);
            var row := map["tenantId" := Str(other)];
            Selected(WhereOf(c, tenant, [Filter(field, Ne, One(Str(tenant)))]), row) && !OwnedBy(row, tenant)
  {
    var fs := [Filter(Field("tenantId", Text, {Ne}, None, false, false), Ne, One(Str(tenant)))];
    assert fs[..0] == [];
    assert WhereOf(c, tenant, fs) == map["tenantId" := Not(Str(tenant))];
  }

  /** All filters count: none is computed, and none shares its column with another. */
  predicate AllCount(fs: seq<Filter>) { forall i: nat :: i < |fs| ==> Last(fs, i) }

  lemma DemandsCount(tenant: string, fs: seq<Filter>)
    requires AllCount(fs) && SparesTenant(fs)
    ensures AllCount(Demands(tenant, fs))
  {
    var ds := Demands(tenant, fs);
    forall i: nat | i < |ds| ensures Last(ds, i) {
      if i > 0 { assert ds[i] == fs[i - 1] && Last(fs, i - 1); }
      forall j | i < j < |ds| && !ds[j].field.derived ensures ds[j].field.key != ds[i].field.key {
        var m := j - 1;
        assert ds[j] == fs[m] && fs[m].field.key != "tenantId";
      }
    }
  }

  /** When all filters count the selection is their conjunction on the tenant's rows. */
  lemma WhereIsConjunction(c: Conversions, tenant: string, fs: seq<Filter>, row: Row)
    requires AllCount(fs) && SparesTenant(fs)
    ensures Selected(WhereOf(c, tenant, fs), row) <==> OwnedBy(row, tenant) && forall f :: f in fs ==> Holds(c, f, row)
  {
    var ds := Demands(tenant, fs);
    WhereMeans(c, tenant, fs, row);
    DemandsCount(tenant, fs);
    assert Holds(c, ds[0], row) <==> OwnedBy(row, tenant);
    if Selected(WhereOf(c, tenant, fs), row) {
      forall f | f in fs ensures Holds(c, f, row) {
        var i :| 0 <= i < |fs| && fs[i] == f;
        assert ds[i + 1] == f;
      }
    }
    if OwnedBy(row, tenant) && forall f :: f in fs ==> Holds(c, f, row) {
      forall i: nat | i < |ds| ensures Holds(c, ds[i], row) {
        if i > 0 { assert ds[i] == fs[i - 1] && fs[i - 1] in fs; }
      }
    }
  }

  // ---- when the selection is the conjunction ---------------------------------------------------------

  /** The condition that rules a column: that of its last stored filter, or none. */
  function Ruling(c: Conversions, fs: seq<Filter>, k: string): Condition {
    if fs == [] then Anything else
      var f := fs[|fs| - 1];
      if !f.field.derived && f.field.key == k then ConditionOf(c, f) else Ruling(c, fs[..|fs| - 1], k)
  }

  lemma {:induction false} RulingWritten(c: Conversions, fs: seq<Filter>, k: string)
    ensures Ruling(c, fs, k) == if k in Written(c, fs) then Written(c, fs)[k] else Anything
  {
    if fs == [] {
    } else {
      RulingWritten(c, fs[..|fs| - 1], k);
    }
  }

  ghost predicate AcceptsNothing(cond: Condition) { forall cell: Option<Atom> :: !Accepts(cond, cell) }

  /** Some column is ruled by a condition that no cell meets. */
  ghost predicate Contradictory(c: Conversions, fs: seq<Filter>) {
    exists i: nat :: i < |fs| && !fs[i].field.derived && AcceptsNothing(Ruling(c, fs, fs[i].field.key))
  }

  /** Every cell the condition in force accepts passes this filter too. */
  ghost predicate Implied(c: Conversions, fs: seq<Filter>, f: Filter) {
    forall cell: Option<Atom> :: Accepts(Ruling(c, fs, f.field.key), cell) ==> Accepts(ConditionOf(c, f), cell)
  }

  ghost predicate AllHold(c: Conversions, fs: seq<Filter>, row: Row) {
    forall i: nat :: i < |fs| ==> Holds(c, fs[i], row)
  }

  /** A row with the given cell, and cells every other condition accepts. */
  lemma RowWith(w: Where, k: string, cell: Option<Atom>) returns (row: Row)
    requires forall j :: j in w ==> !AcceptsNothing(w[j])
    requires k in w ==> Accepts(w[k], cell)
    ensures Selected(w, row) && Cell(row, k) == cell
  {
    var some := map j | j in w :: Accepted(w[j]);
    var base: Row := map j | j in some && some[j].Some? :: some[j].value;
    row := match cell case None => base - {k} case Some(a) => base[k := a];
    forall j | j in w ensures Accepts(w[j], Cell(row, j)) {
      if j != k { assert Cell(row, j) == some[j]; }
    }
  }

  ghost function Accepted(cond: Condition): (cell: Option<Atom>)
    requires !AcceptsNothing(cond)
    ensures Accepts(cond, cell)
  {
    var cell: Option<Atom> :| Accepts(cond, cell);
    cell
  }

  lemma NoContradiction(c: Conversions, fs: seq<Filter>)
    ensures Contradictory(c, fs) <==> exists k :: k in Written(c, fs) && AcceptsNothing(Written(c, fs)[k])
  {
    if Contradictory(c, fs) {
      var i: nat :| i < |fs| && !fs[i].field.derived && AcceptsNothing(Ruling(c, fs, fs[i].field.key));
      RulingWritten(c, fs, fs[i].field.key);
      assert !Accepts(Ruling(c, fs, fs[i].field.key), None);
    }
    if k :| k in Written(c, fs) && AcceptsNothing(Written(c, fs)[k]) {
      var i := WrittenAt(c, fs, k);
      RulingWritten(c, fs, k);
    }
  }

  /** A list of filters selects the rows that meet them all exactly when it selects none, some column being
      ruled by a condition that no cell meets, or when each filter is implied by the one that rules its
      column (by none at all if it is on a computed field alone). */
  lemma WrittenExactly(c: Conversions, fs: seq<Filter>)
    ensures (forall row :: Selected(Written(c, fs), row) <==> AllHold(c, fs, row))
            <==> Contradictory(c, fs) || forall i: nat :: i < |fs| ==> Implied(c, fs, fs[i])
  {
    NoContradiction(c, fs);
    if Contradictory(c, fs) {
      forall row ensures !Selected(Written(c, fs), row) && !AllHold(c, fs, row) { NoneSelected(c, fs, row); }
    } else if forall i: nat :: i < |fs| ==> Implied(c, fs, fs[i]) {
      forall row ensures Selected(Written(c, fs), row) <==> AllHold(c, fs, row) { ImpliedHold(c, fs, row); }
    } else {
      var i: nat :| i < |fs| && !Implied(c, fs, fs[i]);
      var row := UnmetRow(c, fs, i);
    }
  }

  lemma NoneSelected(c: Conversions, fs: seq<Filter>, row: Row)
    requires Contradictory(c, fs)
    ensures !Selected(Written(c, fs), row) && !AllHold(c, fs, row)
  {
    NoContradiction(c, fs);
    WrittenMeans(c, fs, row);
    var k :| k in Written(c, fs) && AcceptsNothing(Written(c, fs)[k]);
    assert !Accepts(Written(c, fs)[k], Cell(row, k));
  }

  lemma ImpliedHold(c: Conversions, fs: seq<Filter>, row: Row)
    requires forall i: nat :: i < |fs| ==> Implied(c, fs, fs[i])
    ensures Selected(Written(c, fs), row) <==> AllHold(c, fs, row)
  {
    WrittenMeans(c, fs, row);
    if Selected(Written(c, fs), row) {
      forall i: nat | i < |fs| ensures Holds(c, fs[i], row) { RulingWritten(c, fs, fs[i].field.key); }
    }
  }

  /** A row that is selected although it fails a filter that is not implied. */
  lemma UnmetRow(c: Conversions, fs: seq<Filter>, i: nat) returns (row: Row)
    requires !Contradictory(c, fs) && i < |fs| && !Implied(c, fs, fs[i])
    ensures Selected(Written(c, fs), row) && !AllHold(c, fs, row)
  {
    var k := fs[i].field.key;
    var cell: Option<Atom> :| Accepts(Ruling(c, fs, k), cell) && !Accepts(ConditionOf(c, fs[i]), cell);
    RulingWritten(c, fs, k);
    NoContradiction(c, fs);
    row := RowWith(Written(c, fs), k, cell);
    assert !Holds(c, fs[i], row);
  }

  /** For any filters: all of them, on the tenant's rows, decide the selection exactly then. */
  lemma IgnoredFilters(c: Conversions, tenant: string, fs: seq<Filter>)
    ensures var ds := Demands(tenant, fs);
            (forall row :: Selected(WhereOf(c, tenant, fs), row) <==> AllHold(c, ds, row))
            <==> Contradictory(c, ds) || forall i: nat :: i < |ds| ==> Implied(c, ds, ds[i])
  {
    TenantFirst(c, tenant, fs);
    WrittenExactly(c, Demands(tenant, fs));
  }

  /** The conditions no cell meets. */
  predicate Empty(cond: Condition) {
    match cond
    case Refused => true
    case InList(vs) => vs == []
    case Above(v, orEqual) => !orEqual && (v.Str? || v.Bool?)
    case Below(v, orEqual) => !orEqual && (v.Str? || v.Bool?)
    case Within(low, high) => !AtMost(low, high)
    case _ => false
  }

  lemma EmptyExactly(cond: Condition)
    ensures AcceptsNothing(cond) <==> Empty(cond)
  {
    if Empty(cond) {
      forall cell: Option<Atom> ensures !Accepts(cond, cell) { }
    } else {
      var cell := Met(cond);
      assert Accepts(cond, cell);
    }
  }

  function Met(cond: Condition): (cell: Option<Atom>)
    requires !Empty(cond)
    ensures Accepts(cond, cell)
  {
    match cond
    case Anything => None
    case Null => None
    case NotNull => Some(Bool(true))
    case Equals(v) => Some(v)
    case Not(v) => Some(if v == Bool(true) then Bool(false) else Bool(true))
    case InList(vs) => Some(vs[0])
    case NotInList(vs) => Some(Longer(vs))
    case Above(v, orEqual) =>
      if orEqual then Some(v) else Some(match v case Num(x) => Num(x + 1.0) case Time(t) => Time(t + 1) case _ => v)
    case Below(v, orEqual) =>
      if orEqual then Some(v) else Some(match v case Num(x) => Num(x - 1.0) case Time(t) => Time(t - 1) case _ => v)
    case Within(low, high) => Some(low)
    case Refused => None
  }

  /** A value beyond every number of a list. */
  function Longer(vs: seq<Atom>): (a: Atom)
    ensures a.Time? && a !in vs && forall v :: v in vs && v.Time? ==> v.t < a.t
  {
    if vs == [] then Time(0) else
      var rest := Longer(vs[1..]);
      assert vs == [vs[0]] + vs[1..];
      if vs[0].Time? && vs[0].t >= rest.t then Time(vs[0].t + 1) else rest
  }

  /** Two bounds on one column: the first is dropped, and the row selected fails it. */
  lemma SecondFilterWins(c: Conversions, tenant: string)
    ensures var field := Field("weight", Number, {Gte, Lte}, None, false, true);
            var fs := [Filter(field, Gte, One(Num(5.0))), Filter(field, Lte, One(Num(9.0)))];
            var row := map["tenantId" := Str(tenant), "weight" := Num(1.0)];
            Selected(WhereOf(c, tenant, fs), row) && !Holds(c, fs[0], row)
  {
    var field := Field("weight", Number, {Gte, Lte}, None, false, true);
    var fs := [Filter(field, Gte, One(Num(5.0))), Filter(field, Lte, One(Num(9.0)))];
    assert fs[..1] == [fs[0]] && fs[..1][..0] == [] && "weight"[0] != "tenantId"[0];
    assert ConditionOf(c, fs[0]) == Above(Num(5.0), true) && ConditionOf(c, fs[1]) == Below(Num(9.0), true);
    var first: Where := map["tenantId" := Equals(Str(tenant))];
    assert WhereOf(c, tenant, fs[..1]) == first["weight" := Above(Num(5.0), true)];
    assert WhereOf(c, tenant, fs) == WhereOf(c, tenant, fs[..1])["weight" := Below(Num(9.0), true)];
  }

  /** The time window writes its column's entry last of all. */
  function Windowed(w: Where, column: string, since: Option<int>): Where {
    match since case None => w case Some(t) => w[column := Above(Time(t), true)]
  }

  /** So with a window, filters on its own column are lost and all others still count. */
  lemma WindowMeans(c: Conversions, tenant: string, asked: seq<Filter>, column: string, since: int, row: Row)
    ensures var fs := Demands(tenant, asked);
            Selected(Windowed(WhereOf(c, tenant, asked), column, Some(since)), row)
            <==> Accepts(Above(Time(since), true), Cell(row, column))
                 && forall i: nat :: i < |fs| && Last(fs, i) && fs[i].field.key != column ==> Holds(c, fs[i], row)
  {
    var fs := Demands(tenant, asked);
    TenantFirst(c, tenant, asked);
    var w := Written(c, fs);
    var w' := Windowed(w, column, Some(since));
    if Selected(w', row) {
      assert Accepts(w'[column], Cell(row, column));
      forall i: nat | i < |fs| && Last(fs, i) && fs[i].field.key != column ensures Holds(c, fs[i], row) {
        LastWritten(c, fs, i);
        assert w'[fs[i].field.key] == w[fs[i].field.key];
      }
    }
    if Accepts(Above(Time(since), true), Cell(row, column))
       && forall i: nat :: i < |fs| && Last(fs, i) && fs[i].field.key != column ==> Holds(c, fs[i], row) {
      forall k | k in w' ensures Accepts(w'[k], Cell(row, k)) { if k != column { var i := WrittenAt(c, fs, k); } }
    }
  }

  // ---- folding rows into groups ---------------------------------------------------------------------

  /** An item of the selection: its group, its measure and whom it counts for. */
  datatype Item = Item(group: string, measure: real, who: string)

  datatype Bucket = Bucket(values: seq<real>, ids: set<string>)

  function MeasuresOf(items: seq<Item>, group: string): seq<real> {
    if items == [] then [] else
      var it := items[|items| - 1];
      if it.group == group then MeasuresOf(items[..|items| - 1], group) + [it.measure]
      else MeasuresOf(items[..|items| - 1], group)
  }

  ghost function WhoIn(items: seq<Item>, group: string): set<string> {
    set it | it in items && it.group == group :: it.who
  }

  ghost function Groups(items: seq<Item>): set<string> { set it | it in items :: it.group }

  ghost predicate Folded(items: seq<Item>, buckets: map<string, Bucket>) {
    buckets.Keys == Groups(items)
    && forall g :: g in buckets ==> buckets[g] == Bucket(MeasuresOf(items, g), WhoIn(items, g))
  }

  lemma {:induction false} NoMeasures(items: seq<Item>, group: string)
    requires group !in Groups(items)
    ensures MeasuresOf(items, group) == [] && WhoIn(items, group) == {}
  {
    if items == [] {
    } else {
      var n := |items| - 1;
      assert items[n] in items;
      assert forall it :: it in items[..n] ==> it in items;
      NoMeasures(items[..n], group);
    }
  }

  lemma FoldNext(items: seq<Item>, i: nat, g: string)
    requires i < |items|
    ensures Groups(items[..i + 1]) == Groups(items[..i]) + {items[i].group}
    ensures MeasuresOf(items[..i + 1], g) == if items[i].group == g then MeasuresOf(items[..i], g) + [items[i].measure]
            else MeasuresOf(items[..i], g)
    ensures WhoIn(items[..i + 1], g) == if items[i].group == g then WhoIn(items[..i], g) + {items[i].who}
            else WhoIn(items[..i], g)
  {
    assert items[..i + 1] == items[..i] + [items[i]];
    assert items[..i + 1][..i] == items[..i];
  }

  /** One pass over the items: each goes into its group's bucket. */
  method FoldBuckets(items: seq<Item>) returns (buckets: map<string, Bucket>)
    ensures Folded(items, buckets)
  {
    buckets := map[];
    for i := 0 to |items|
      invariant Folded(items[..i], buckets)
    {
      var it := items[i];
      ghost var before := buckets;
      if it.group !in buckets { NoMeasures(items[..i], it.group); }
      var b := if it.group in buckets then buckets[it.group] else Bucket([], {});
      FoldNext(items, i, it.group);
      buckets := buckets[it.group := Bucket(b.values + [it.measure], b.ids + {it.who})];
      forall g | g in before && g != it.group
        ensures buckets[g] == Bucket(MeasuresOf(items[..i + 1], g), WhoIn(items[..i + 1], g))
      {
        FoldNext(items, i, g);
      }
    }
    assert items[..|items|] == items;
  }

  function Total(values: seq<real>): real {
    if values == [] then 0.0 else Total(values[..|values| - 1]) + values[|values| - 1]
  }

  function AllMeasures(items: seq<Item>): seq<real> {
    if items == [] then [] else AllMeasures(items[..|items| - 1]) + [items[|items| - 1].measure]
  }

  function BucketSum(): Bucket -> real { (b: Bucket) => Total(b.values) }

  function BucketCount(): Bucket -> real { (b: Bucket) => |b.values| as real }

  lemma TotalAppend(values: seq<real>, v: real)
    ensures Total(values + [v]) == Total(values) + v
  {
    assert (values + [v])[..|values|] == values;
  }

  ghost function FoldOf(items: seq<Item>): (buckets: map<string, Bucket>)
    ensures Folded(items, buckets)
  {
    map g | g in Groups(items) :: Bucket(MeasuresOf(items, g), WhoIn(items, g))
  }

  /** The buckets before the last item. */
  lemma UnfoldLast(items: seq<Item>, buckets: map<string, Bucket>) returns (before: map<string, Bucket>)
    requires items != [] && Folded(items, buckets)
    ensures var it, rest := items[|items| - 1], items[..|items| - 1];
            && Folded(rest, before) && it.group in buckets && buckets == before[it.group := buckets[it.group]]
            && (it.group in before ==> buckets[it.group].values == before[it.group].values + [it.measure])
            && (it.group !in before ==> buckets[it.group].values == [it.measure])
  {
    var n := |items| - 1;
    var it, rest := items[n], items[..n];
    assert items[..n + 1] == items;
    before := FoldOf(rest);
    FoldNext(items, n, it.group);
    if it.group !in before { NoMeasures(rest, it.group); }
    forall g | g in before && g != it.group ensures buckets[g] == before[g] { FoldNext(items, n, g); }
    assert buckets.Keys == before.Keys + {it.group};
  }

  /** No item is lost or counted twice: over the groups, the counts add up to the number of items and the
      sums to the sum of all measures. */
  lemma {:induction false} FoldConserves(items: seq<Item>, buckets: map<string, Bucket>)
    requires Folded(items, buckets)
    ensures SumOver(buckets, BucketSum()) == Total(AllMeasures(items))
    ensures SumOver(buckets, BucketCount()) == |items| as real
  {
    if items == [] {
      assert buckets == map[];
    } else {
      var it, rest := items[|items| - 1], items[..|items| - 1];
      var before := UnfoldLast(items, buckets);
      FoldConserves(rest, before);
      TotalAppend(AllMeasures(rest), it.measure);
      ConserveLast(before, it, buckets[it.group]);
    }
  }

  lemma ConserveLast(before: map<string, Bucket>, it: Item, b: Bucket)
    requires b.values == if it.group in before then before[it.group].values + [it.measure] else [it.measure]
    ensures SumOver(before[it.group := b], BucketSum()) == SumOver(before, BucketSum()) + it.measure
    ensures SumOver(before[it.group := b], BucketCount()) == SumOver(before, BucketCount()) + 1.0
  {
    if it.group in before {
      TotalAppend(before[it.group].values, it.measure);
      SumUpdate(before, it.group, b, BucketSum());
      SumUpdate(before, it.group, b, BucketCount());
    } else {
      TotalAppend([], it.measure);
      SumInsert(before, it.group, b, BucketSum());
      SumInsert(before, it.group, b, BucketCount());
    }
  }

  // ---- which unit a person counts for ----------------------------------------------------------------

  datatype Seat = Seat(holder: Option<string>, orgUnitId: string, isHead: bool)

  predicate Holding(seats: seq<Seat>, person: string, i: nat) {
    i < |seats| && seats[i].holder == Some(person) && person != ""
  }

  ghost predicate Seated(seats: seq<Seat>, person: string) { exists i: nat :: Holding(seats, person, i) }

  /** The seat that decides: the person's last listed head seat, or without one the first seat. */
  ghost predicate Decides(seats: seq<Seat>, person: string, i: nat) {
    && Holding(seats, person, i)
    && if seats[i].isHead then forall j: nat :: Holding(seats, person, j) && seats[j].isHead ==> j <= i
       else forall j: nat :: Holding(seats, person, j) ==> !seats[j].isHead && i <= j
  }

  ghost predicate Chosen(seats: seq<Seat>, person: string, unitId: string) {
    exists i: nat :: Decides(seats, person, i) && seats[i].orgUnitId == unitId
  }

  /** Two seats never both decide. */
  lemma OneDecides(seats: seq<Seat>, person: string, i: nat, j: nat)
    requires Decides(seats, person, i) && Decides(seats, person, j)
    ensures i == j
  {
  }

  /** One pass over the seats; a head seat overwrites what was there. */
  method PersonOrgMap(seats: seq<Seat>) returns (units: map<string, string>)
    ensures forall p :: p in units <==> Seated(seats, p)
    ensures forall p :: p in units ==> Chosen(seats, p, units[p])
  {
    units := map[];
    for n := 0 to |seats|
      invariant forall p :: p in units <==> Seated(seats[..n], p)
      invariant forall p :: p in units ==> Chosen(seats[..n], p, units[p])
    {
      var s := seats[n];
      ghost var before := units;
      ghost var less, more := seats[..n], seats[..n + 1];
      assert more == less + [s];
      if s.holder.Some? && s.holder.value != "" && (s.holder.value !in units || s.isHead) {
        units := units[s.holder.value := s.orgUnitId];
      }
      forall p ensures p in units <==> Seated(more, p) { SeatedNext(less, s, p); }
      forall p | p in units ensures Chosen(more, p, units[p]) {
        if p in before { ChosenNext(less, s, p, before[p]); } else { ChosenFirst(less, s, p); }
      }
    }
    assert seats[..|seats|] == seats;
  }

  lemma SeatedNext(less: seq<Seat>, s: Seat, p: string)
    ensures Seated(less + [s], p) <==> Seated(less, p) || (s.holder == Some(p) && p != "")
  {
    var more := less + [s];
    if Seated(less, p) {
      var i: nat :| Holding(less, p, i);
      assert Holding(more, p, i);
    }
    if s.holder == Some(p) && p != "" { assert Holding(more, p, |less|); }
    if Seated(more, p) {
      var i: nat :| Holding(more, p, i);
      assert i < |less| ==> Holding(less, p, i);
    }
  }

  lemma ChosenFirst(less: seq<Seat>, s: Seat, p: string)
    requires s.holder == Some(p) && p != "" && !Seated(less, p)
    ensures Chosen(less + [s], p, s.orgUnitId)
  {
    var more := less + [s];
    forall j: nat | Holding(more, p, j) ensures j == |less| { assert j < |less| ==> Holding(less, p, j); }
    assert Decides(more, p, |less|);
  }

  lemma ChosenNext(less: seq<Seat>, s: Seat, p: string, unitId: string)
    requires Chosen(less, p, unitId)
    ensures Chosen(less + [s], p, if s.holder == Some(p) && s.isHead then s.orgUnitId else unitId)
  {
    var more := less + [s];
    var i: nat :| Decides(less, p, i) && less[i].orgUnitId == unitId;
    forall j: nat | Holding(more, p, j) && j < |less| ensures Holding(less, p, j) { }
    if s.holder == Some(p) && s.isHead {
      assert Holding(more, p, |less|);
      assert Decides(more, p, |less|);
    } else {
      assert Decides(more, p, i);
    }
  }
}
