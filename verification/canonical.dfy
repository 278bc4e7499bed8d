/**
 * Canonical JSON text: an object is copied key by key in key order, which loses a key named __proto__;
 * two values share their canonical text exactly when they agree on all the rest, the order of keys
 * aside (and dates having become strings).
 */
module Canonical {
  import opened Common
  import opened Json
  import opened KeyOrder

  // ---- what a value means, key order aside (section 4 of RFC 8259: names are unordered) -----------

  datatype Meaning =
    | MNull | MBool(b: bool) | MNum(n: Numeral) | MStr(s: string)
    | MArr(items: seq<Meaning>) | MObj(fields: map<string, Meaning>)

  function MeaningOf(v: Value): Meaning
    decreases v
  {
    match v
    case JNull => MNull
    case JBool(b) => MBool(b)
    case JNum(n) => MNum(n)
    case JStr(s) => MStr(s)
    case JDate(iso) => MStr(iso)
    case JArr(items) => MArr(MeaningOfItems(items))
    case JObj(fs) => MObj(MeaningOfFields(fs))
  }

  function MeaningOfItems(items: seq<Value>): (r: seq<Meaning>)
    ensures |r| == |items| && forall i :: 0 <= i < |items| ==> r[i] == MeaningOf(items[i])
    decreases items
  {
    if items == [] then [] else [MeaningOf(items[0])] + MeaningOfItems(items[1..])
  }

  function MeaningOfFields(fs: seq<Field>): map<string, Meaning>
    decreases fs
  {
    if fs == [] then map[] else MeaningOfFields(fs[1..])[fs[0].key := MeaningOf(fs[0].value)]
  }

  ghost function KeySet(fs: seq<Field>): set<string> { set f | f in fs :: f.key }

  lemma {:induction false} FieldKeys(fs: seq<Field>)
    requires DistinctKeys(fs)
    ensures MeaningOfFields(fs).Keys == KeySet(fs)
  {
    if fs == [] {
    } else {
      FieldKeys(fs[1..]);
      KeySetTail(fs);
      assert fs[0].key in KeySet(fs);
    }
  }

  lemma {:induction false} FieldMeaning(fs: seq<Field>)
    requires DistinctKeys(fs)
    ensures MeaningOfFields(fs).Keys == KeySet(fs)
    ensures forall f :: f in fs ==> MeaningOfFields(fs)[f.key] == MeaningOf(f.value)
  {
    FieldKeys(fs);
    if fs == [] {
    } else {
      FieldMeaning(fs[1..]);
      KeySetTail(fs);
      forall f | f in fs ensures MeaningOfFields(fs)[f.key] == MeaningOf(f.value) {
        if f != fs[0] {
          assert f in fs[1..];
          assert f.key in KeySet(fs[1..]);
        }
      }
    }
  }

  /** Lists of fields with the same distinct keys and equal meanings under each key mean the same. */
  lemma FieldsMeanTheSame(fs: seq<Field>, gs: seq<Field>)
    requires DistinctKeys(fs) && DistinctKeys(gs) && KeySet(fs) == KeySet(gs)
    requires forall f, g :: f in fs && g in gs && f.key == g.key ==> MeaningOf(f.value) == MeaningOf(g.value)
    ensures MeaningOfFields(fs) == MeaningOfFields(gs)
  {
    FieldMeaning(fs);
    FieldMeaning(gs);
    var m, n := MeaningOfFields(fs), MeaningOfFields(gs);
    forall k | k in m ensures n[k] == m[k] {
      assert k in KeySet(fs) && k in KeySet(gs);
      var f :| f in fs && f.key == k;
      var g :| g in gs && g.key == k;
    }
  }

  // ---- sorting ------------------------------------------------------------------------------------

  function Insert(f: Field, s: seq<Field>): seq<Field> {
    if s == [] || KeyLess(f.key, s[0].key) then [f] + s else [s[0]] + Insert(f, s[1..])
  }

  function Sorted(fs: seq<Field>): seq<Field> {
    if fs == [] then [] else Insert(fs[0], Sorted(fs[1..]))
  }

  /** The value with the keys of every object in enumeration order. */
  function Ordered(v: Value): Value
    decreases v
  {
    match v
    case JArr(items) => JArr(OrderedItems(items))
    case JObj(fs) => JObj(Sorted(OrderedFields(fs)))
    case _ => v
  }

  function OrderedItems(items: seq<Value>): (r: seq<Value>)
    ensures |r| == |items| && forall i :: 0 <= i < |items| ==> r[i] == Ordered(items[i])
    decreases items
  {
    if items == [] then [] else [Ordered(items[0])] + OrderedItems(items[1..])
  }

  function OrderedFields(fs: seq<Field>): (r: seq<Field>)
    ensures |r| == |fs| && forall i :: 0 <= i < |fs| ==> r[i] == Field(fs[i].key, Ordered(fs[i].value))
    decreases fs
  {
    if fs == [] then [] else [Field(fs[0].key, Ordered(fs[0].value))] + OrderedFields(fs[1..])
  }

  predicate Ascending(s: seq<Field>) {
    forall i, j :: 0 <= i < j < |s| ==> KeyLess(s[i].key, s[j].key)
  }

  lemma {:induction false} InsertSorts(f: Field, s: seq<Field>)
    requires Ascending(s) && forall i :: 0 <= i < |s| ==> s[i].key != f.key
    ensures Ascending(Insert(f, s)) && multiset(Insert(f, s)) == multiset{f} + multiset(s)
  {
    if s == [] {
    } else if KeyLess(f.key, s[0].key) {
      forall j | 0 < j < |s| ensures KeyLess(f.key, s[j].key) { KeyOrderTransitive(f.key, s[0].key, s[j].key); }
    } else {
      InsertSorts(f, s[1..]);
      KeyOrderTotal(f.key, s[0].key);
      var rest := Insert(f, s[1..]);
      assert s == [s[0]] + s[1..];
      forall j | 0 <= j < |rest| ensures KeyLess(s[0].key, rest[j].key) {
        assert rest[j] in multiset{f} + multiset(s[1..]);
        if rest[j] != f {
          assert rest[j] in s[1..];
        }
      }
    }
  }

  lemma {:induction false} SortedSorts(fs: seq<Field>)
    requires DistinctKeys(fs)
    ensures Ascending(Sorted(fs)) && DistinctKeys(Sorted(fs)) && multiset(Sorted(fs)) == multiset(fs)
  {
    if fs == [] {
    } else {
      var rest := Sorted(fs[1..]);
      SortedSorts(fs[1..]);
      assert fs == [fs[0]] + fs[1..];
      forall i | 0 <= i < |rest| ensures rest[i].key != fs[0].key {
        assert rest[i] in multiset(fs[1..]);
        var j :| 0 <= j < |fs[1..]| && fs[1..][j] == rest[i];
        assert fs[j + 1].key != fs[0].key;
      }
      InsertSorts(fs[0], rest);
    }
    AscendingDistinct(Sorted(fs));
  }

  lemma AscendingDistinct(s: seq<Field>)
    requires Ascending(s)
    ensures DistinctKeys(s)
  {
    forall i, j | 0 <= i < j < |s| ensures s[i].key != s[j].key { KeyOrderTotal(s[i].key, s[j].key); }
  }

  lemma SortedMembers(fs: seq<Field>)
    requires DistinctKeys(fs)
    ensures forall f :: f in Sorted(fs) <==> f in fs
    ensures KeySet(Sorted(fs)) == KeySet(fs)
  {
    SortedSorts(fs);
    forall f ensures f in Sorted(fs) <==> f in fs {
      assert f in multiset(Sorted(fs)) <==> f in multiset(fs);
    }
  }

  lemma KeySetEmpty(s: seq<Field>)
    ensures KeySet(s) == {} <==> s == []
  {
    if s != [] { assert s[0].key in KeySet(s); }
  }

  lemma KeySetTail(s: seq<Field>)
    requires s != [] && DistinctKeys(s)
    ensures KeySet(s[1..]) == KeySet(s) - {s[0].key}
  {
    assert s == [s[0]] + s[1..];
    forall f | f in s[1..] ensures f.key != s[0].key {
      var i :| 0 <= i < |s[1..]| && s[1..][i] == f;
      assert s[i + 1].key != s[0].key;
    }
    forall k | k in KeySet(s) - {s[0].key} ensures k in KeySet(s[1..]) {
      var f :| f in s && f.key == k;
      assert f in s[1..];
    }
  }

  lemma FirstIsLeast(s: seq<Field>, f: Field)
    requires Ascending(s) && f in s
    ensures s[0].key == f.key || KeyLess(s[0].key, f.key)
  {
  }

  /** Ascending lists over the same keys list them in the same places. */
  lemma {:induction false} AscendingUnique(s: seq<Field>, t: seq<Field>)
    requires Ascending(s) && Ascending(t) && KeySet(s) == KeySet(t)
    ensures |s| == |t| && forall i :: 0 <= i < |s| ==> s[i].key == t[i].key
  {
    AscendingDistinct(s);
    AscendingDistinct(t);
    KeySetEmpty(s);
    KeySetEmpty(t);
    if s == [] {
    } else {
      assert s[0].key in KeySet(t);
      var g :| g in t && g.key == s[0].key;
      assert t[0].key in KeySet(s);
      var f :| f in s && f.key == t[0].key;
      FirstIsLeast(s, f);
      FirstIsLeast(t, g);
      KeyOrderTotal(s[0].key, t[0].key);
      KeySetTail(s);
      KeySetTail(t);
      AscendingUnique(s[1..], t[1..]);
      forall i | 0 < i < |s| ensures s[i].key == t[i].key {
        assert s[i] == s[1..][i - 1] && t[i] == t[1..][i - 1];
      }
    }
  }

  lemma OrderedFieldsMembers(fs: seq<Field>)
    requires DistinctKeys(fs)
    ensures DistinctKeys(OrderedFields(fs)) && KeySet(OrderedFields(fs)) == KeySet(fs)
    ensures forall f, g :: f in OrderedFields(fs) && g in fs && f.key == g.key ==> f.value == Ordered(g.value)
  {
    var d := OrderedFields(fs);
    forall k | k in KeySet(fs) ensures k in KeySet(d) {
      var i :| 0 <= i < |fs| && fs[i].key == k;
      assert d[i] in d;
    }
    forall k | k in KeySet(d) ensures k in KeySet(fs) {
      var i :| 0 <= i < |d| && d[i].key == k;
      assert fs[i] in fs;
    }
  }

  // ---- sorting keeps the meaning and fixes the text ---------------------------------------------------

  lemma {:induction false} OrderedMeaning(v: Value)
    requires WellFormed(v)
    ensures MeaningOf(Ordered(v)) == MeaningOf(v)
    decreases v
  {
    match v
    case JArr(items) =>
      forall i | 0 <= i < |items| ensures MeaningOf(Ordered(items[i])) == MeaningOf(items[i]) {
        OrderedMeaning(items[i]);
      }
    case JObj(fs) =>
      forall g | g in fs ensures MeaningOf(Ordered(g.value)) == MeaningOf(g.value) { OrderedMeaning(g.value); }
      SortedFieldsMeaning(fs);
    case _ =>
  }

  lemma SortedFieldsMeaning(fs: seq<Field>)
    requires DistinctKeys(fs) && forall g :: g in fs ==> MeaningOf(Ordered(g.value)) == MeaningOf(g.value)
    ensures MeaningOfFields(Sorted(OrderedFields(fs))) == MeaningOfFields(fs)
  {
    OrderedFieldsMembers(fs);
    SortedSorts(OrderedFields(fs));
    SortedMembers(OrderedFields(fs));
    FieldsMeanTheSame(Sorted(OrderedFields(fs)), fs);
  }

  lemma {:induction false} PlainMeaning(v: Value)
    ensures MeaningOf(Plain(v)) == MeaningOf(v)
    decreases v, 0
  {
    match v
    case JArr(items) => PlainItemsMeaning(items);
    case JObj(fs) => PlainFieldsMeaning(fs);
    case _ =>
  }

  lemma {:induction false} PlainItemsMeaning(items: seq<Value>)
    ensures MeaningOfItems(PlainItems(items)) == MeaningOfItems(items)
    decreases items, 0
  {
    if items == [] {
    } else {
      PlainMeaning(items[0]);
      PlainItemsMeaning(items[1..]);
      assert PlainItems(items)[1..] == PlainItems(items[1..]);
    }
  }

  lemma {:induction false} PlainFieldsMeaning(fs: seq<Field>)
    ensures MeaningOfFields(PlainFields(fs)) == MeaningOfFields(fs)
    decreases fs, 0
  {
    if fs == [] {
    } else {
      PlainMeaning(fs[0].value);
      PlainFieldsMeaning(fs[1..]);
      assert PlainFields(fs)[1..] == PlainFields(fs[1..]);
    }
  }

  lemma {:induction false} PlainText(v: Value)
    ensures Print(Plain(v)) == Print(v)
    decreases v, 0
  {
    match v
    case JArr(items) => if items != [] { PlainItemsText(items); }
    case JObj(fs) => if fs != [] { PlainFieldsText(fs); }
    case _ =>
  }

  lemma {:induction false} PlainItemsText(items: seq<Value>)
    requires items != []
    ensures PlainItems(items) != [] && ItemsText(PlainItems(items)) == ItemsText(items)
    decreases items, 0
  {
    PlainText(items[0]);
    assert PlainItems(items)[1..] == PlainItems(items[1..]);
    if |items| <= 1 {
    } else {
      PlainItemsText(items[1..]);
    }
  }

  lemma {:induction false} PlainFieldsText(fs: seq<Field>)
    requires fs != []
    ensures PlainFields(fs) != [] && FieldsText(PlainFields(fs)) == FieldsText(fs)
    decreases fs, 0
  {
    PlainText(fs[0].value);
    assert PlainFields(fs)[1..] == PlainFields(fs[1..]);
    if |fs| <= 1 {
    } else {
      PlainFieldsText(fs[1..]);
    }
  }

  lemma {:induction false} PlainFieldsAt(fs: seq<Field>)
    ensures |PlainFields(fs)| == |fs|
    ensures forall i :: 0 <= i < |fs| ==> PlainFields(fs)[i] == Field(fs[i].key, Plain(fs[i].value))
  {
    if fs == [] {
    } else {
      PlainFieldsAt(fs[1..]);
    }
  }

  lemma {:induction false} PlainItemsAt(items: seq<Value>)
    ensures |PlainItems(items)| == |items|
    ensures forall i :: 0 <= i < |items| ==> PlainItems(items)[i] == Plain(items[i])
  {
    if items == [] {
    } else {
      PlainItemsAt(items[1..]);
    }
  }

  /** Values that mean the same sort to the same thing. */
  lemma {:induction false} OrderedUnique(v: Value, w: Value)
    requires WellFormed(v) && WellFormed(w) && MeaningOf(v) == MeaningOf(w)
    ensures Plain(Ordered(v)) == Plain(Ordered(w))
    decreases v
  {
    if v.JArr? {
      forall i | 0 <= i < |v.items| ensures Plain(Ordered(v.items[i])) == Plain(Ordered(w.items[i])) {
        assert MeaningOfItems(v.items)[i] == MeaningOfItems(w.items)[i];
        OrderedUnique(v.items[i], w.items[i]);
      }
      PlainItemsAt(OrderedItems(v.items));
      PlainItemsAt(OrderedItems(w.items));
    } else if v.JObj? {
      FieldMeaning(v.fields);
      FieldMeaning(w.fields);
      forall f, g | f in v.fields && g in w.fields && f.key == g.key
        ensures Plain(Ordered(f.value)) == Plain(Ordered(g.value))
      {
        OrderedUnique(f.value, g.value);
      }
      SortedFieldsUnique(v.fields, w.fields);
    }
  }

  lemma SortedFieldsUnique(fs: seq<Field>, gs: seq<Field>)
    requires DistinctKeys(fs) && DistinctKeys(gs) && KeySet(fs) == KeySet(gs)
    requires forall f, g :: f in fs && g in gs && f.key == g.key ==> Plain(Ordered(f.value)) == Plain(Ordered(g.value))
    ensures PlainFields(Sorted(OrderedFields(fs))) == PlainFields(Sorted(OrderedFields(gs)))
  {
    var s, t := Sorted(OrderedFields(fs)), Sorted(OrderedFields(gs));
    OrderedFieldsMembers(fs);
    OrderedFieldsMembers(gs);
    SortedSorts(OrderedFields(fs));
    SortedSorts(OrderedFields(gs));
    SortedMembers(OrderedFields(fs));
    SortedMembers(OrderedFields(gs));
    AscendingUnique(s, t);
    PlainFieldsAt(s);
    PlainFieldsAt(t);
    forall i | 0 <= i < |s| ensures PlainFields(s)[i] == PlainFields(t)[i] {
      assert s[i] in s && t[i] in t;
      assert s[i].key in KeySet(fs) && t[i].key in KeySet(gs);
      var f :| f in fs && f.key == s[i].key;
      var g :| g in gs && g.key == t[i].key;
    }
  }

  // ---- what the text shows ----------------------------------------------------------------------------

  /** Assigning this key to a fresh object sets its prototype and adds no property
      (section B.2.2.1 of ECMA-262), so a copy made key by key goes without it. */
  const PROTO := "__proto__"

  /** What is left of a meaning without the fields named __proto__, at every depth. */
  function Visible(m: Meaning): Meaning
    decreases m
  {
    match m
    case MArr(items) => MArr(seq(|items|, i requires 0 <= i < |items| => Visible(items[i])))
    case MObj(fields) => MObj(map k | k in fields && k != PROTO :: Visible(fields[k]))
    case _ => m
  }

  /** Wherever both values have an object in the same place, their fields named __proto__ mean the same
      or are both absent. */
  ghost predicate HiddenAlike(m: Meaning, n: Meaning)
    decreases m
  {
    match (m, n)
    case (MArr(xs), MArr(ys)) => forall i :: 0 <= i < |xs| && i < |ys| ==> HiddenAlike(xs[i], ys[i])
    case (MObj(fs), MObj(gs)) =>
      && (PROTO in fs <==> PROTO in gs)
      && (PROTO in fs && PROTO in gs ==> fs[PROTO] == gs[PROTO])
      && forall k :: k in fs && k in gs && k != PROTO ==> HiddenAlike(fs[k], gs[k])
    case _ => true
  }

  lemma ShownItems(xs: seq<Meaning>, ys: seq<Meaning>)
    requires |xs| == |ys|
    requires forall i :: 0 <= i < |xs| ==>
             (xs[i] == ys[i] <==> Visible(xs[i]) == Visible(ys[i]) && HiddenAlike(xs[i], ys[i]))
    ensures xs == ys <==> Visible(MArr(xs)) == Visible(MArr(ys)) && HiddenAlike(MArr(xs), MArr(ys))
  {
    var vs, ws := Visible(MArr(xs)).items, Visible(MArr(ys)).items;
    if vs == ws && HiddenAlike(MArr(xs), MArr(ys)) {
      forall i | 0 <= i < |xs| ensures xs[i] == ys[i] { assert vs[i] == ws[i]; }
    }
  }

  lemma ShownFields(fs: map<string, Meaning>, gs: map<string, Meaning>)
    requires forall k :: k in fs && k in gs ==>
             (fs[k] == gs[k] <==> Visible(fs[k]) == Visible(gs[k]) && HiddenAlike(fs[k], gs[k]))
    ensures fs == gs <==> Visible(MObj(fs)) == Visible(MObj(gs)) && HiddenAlike(MObj(fs), MObj(gs))
  {
    var vs, ws := Visible(MObj(fs)).fields, Visible(MObj(gs)).fields;
    if vs == ws && HiddenAlike(MObj(fs), MObj(gs)) {
      forall k | k in fs ensures k in gs && fs[k] == gs[k] {
        if k != PROTO { assert k in vs && k in ws && vs[k] == ws[k]; }
      }
      forall k | k in gs ensures k in fs {
        if k != PROTO { assert k in ws && k in vs; }
      }
      assert fs == gs;
    }
  }

  /** Meanings are equal exactly when what shows and what is hidden agree. */
  lemma {:induction false} ShownAndHidden(m: Meaning, n: Meaning)
    ensures m == n <==> Visible(m) == Visible(n) && HiddenAlike(m, n)
    decreases m
  {
    match (m, n)
    case (MArr(xs), MArr(ys)) =>
      if |xs| == |ys| {
        forall i | 0 <= i < |xs|
          ensures xs[i] == ys[i] <==> Visible(xs[i]) == Visible(ys[i]) && HiddenAlike(xs[i], ys[i])
        {
          ShownAndHidden(xs[i], ys[i]);
        }
        ShownItems(xs, ys);
      } else {
        assert |Visible(m).items| != |Visible(n).items|;
      }
    case (MObj(fs), MObj(gs)) =>
      forall k | k in fs && k in gs
        ensures fs[k] == gs[k] <==> Visible(fs[k]) == Visible(gs[k]) && HiddenAlike(fs[k], gs[k])
      {
        ShownAndHidden(fs[k], gs[k]);
      }
      ShownFields(fs, gs);
    case _ =>
  }

  /** The value without the fields named __proto__, at every depth. */
  function Strip(v: Value): Value
    decreases v
  {
    match v
    case JArr(items) => JArr(StripItems(items))
    case JObj(fs) => JObj(StripFields(fs))
    case _ => v
  }

  function StripItems(items: seq<Value>): (r: seq<Value>)
    ensures |r| == |items| && forall i :: 0 <= i < |items| ==> r[i] == Strip(items[i])
    decreases items
  {
    if items == [] then [] else [Strip(items[0])] + StripItems(items[1..])
  }

  function StripFields(fs: seq<Field>): seq<Field>
    decreases fs
  {
    if fs == [] then []
    else if fs[0].key == PROTO then StripFields(fs[1..])
    else [Field(fs[0].key, Strip(fs[0].value))] + StripFields(fs[1..])
  }

  lemma {:induction false} StripKeySet(fs: seq<Field>)
    ensures KeySet(StripFields(fs)) == KeySet(fs) - {PROTO}
    decreases fs
  {
    if fs == [] {
    } else {
      StripKeySet(fs[1..]);
      KeySetCons(fs[0], fs[1..]);
      assert fs == [fs[0]] + fs[1..];
      if fs[0].key != PROTO { KeySetCons(Field(fs[0].key, Strip(fs[0].value)), StripFields(fs[1..])); }
    }
  }

  lemma {:induction false} StripDistinct(fs: seq<Field>)
    requires DistinctKeys(fs)
    ensures DistinctKeys(StripFields(fs))
    decreases fs
  {
    if fs == [] {
    } else {
      var rest := StripFields(fs[1..]);
      StripDistinct(fs[1..]);
      StripKeySet(fs[1..]);
      KeySetTail(fs);
      forall i | 0 <= i < |rest| ensures rest[i].key != fs[0].key { assert rest[i].key in KeySet(rest); }
    }
  }

  lemma KeySetCons(f: Field, s: seq<Field>)
    ensures KeySet([f] + s) == {f.key} + KeySet(s)
  {
    forall k | k in KeySet(s) ensures k in KeySet([f] + s) {
      var g :| g in s && g.key == k;
      assert g in [f] + s;
    }
    assert f in [f] + s;
  }

  lemma {:induction false} StripWellFormed(v: Value)
    requires WellFormed(v)
    ensures WellFormed(Strip(v))
    decreases v, 0
  {
    match v
    case JArr(items) => forall i | 0 <= i < |items| ensures WellFormed(Strip(items[i])) { StripWellFormed(items[i]); }
    case JObj(fs) =>
      StripDistinct(fs);
      StripFieldsWellFormed(fs);
    case _ =>
  }

  lemma {:induction false} StripFieldsWellFormed(fs: seq<Field>)
    requires forall i :: 0 <= i < |fs| ==> WellFormed(fs[i].value)
    ensures forall i :: 0 <= i < |StripFields(fs)| ==> WellFormed(StripFields(fs)[i].value)
    decreases fs, 0
  {
    if fs == [] {
    } else {
      StripWellFormed(fs[0].value);
      StripFieldsWellFormed(fs[1..]);
    }
  }

  lemma {:induction false} StripMeaning(v: Value)
    ensures MeaningOf(Strip(v)) == Visible(MeaningOf(v))
    decreases v, 0
  {
    match v
    case JArr(items) =>
      forall i | 0 <= i < |items| ensures MeaningOf(Strip(items[i])) == Visible(MeaningOf(items[i])) {
        StripMeaning(items[i]);
      }
    case JObj(fs) => StripFieldsMeaning(fs);
    case _ =>
  }

  lemma {:induction false} StripFieldsMeaning(fs: seq<Field>)
    ensures MObj(MeaningOfFields(StripFields(fs))) == Visible(MObj(MeaningOfFields(fs)))
    decreases fs, 0
  {
    if fs == [] {
    } else {
      StripMeaning(fs[0].value);
      StripFieldsMeaning(fs[1..]);
      VisibleUpdate(MeaningOfFields(fs[1..]), fs[0].key, MeaningOf(fs[0].value));
    }
  }

  lemma VisibleUpdate(m: map<string, Meaning>, k: string, x: Meaning)
    ensures Visible(MObj(m[k := x])).fields
            == if k == PROTO then Visible(MObj(m)).fields else Visible(MObj(m)).fields[k := Visible(x)]
  {
  }

  // ---- canonical text ---------------------------------------------------------------------------------

  /** The copy whose objects were filled key by key, in key order. */
  function SortDeep(v: Value): Value { Ordered(Strip(v)) }

  function Canonicalize(v: Value): string { Print(SortDeep(v)) }

  lemma OrderedText(v: Value, w: Value)
    requires WellFormed(v) && WellFormed(w)
    ensures Print(Ordered(v)) == Print(Ordered(w)) <==> MeaningOf(v) == MeaningOf(w)
  {
    if Print(Ordered(v)) == Print(Ordered(w)) {
      PrintInjective(Ordered(v), Ordered(w));
      PlainMeaning(Ordered(v));
      PlainMeaning(Ordered(w));
      OrderedMeaning(v);
      OrderedMeaning(w);
    }
    if MeaningOf(v) == MeaningOf(w) {
      OrderedUnique(v, w);
      PlainText(Ordered(v));
      PlainText(Ordered(w));
    }
  }

  /** The canonical text is one text per visible meaning. */
  lemma CanonicalizeIsMeaning(v: Value, w: Value)
    requires WellFormed(v) && WellFormed(w)
    ensures Canonicalize(v) == Canonicalize(w) <==> Visible(MeaningOf(v)) == Visible(MeaningOf(w))
  {
    StripWellFormed(v);
    StripWellFormed(w);
    OrderedText(Strip(v), Strip(w));
    StripMeaning(v);
    StripMeaning(w);
  }

  /** Values are equal up to the order of keys exactly when they share their text and agree on what it
      hides: equal texts mean equal values for just those pairs. */
  lemma EqualUpToOrder(v: Value, w: Value)
    requires WellFormed(v) && WellFormed(w)
    ensures MeaningOf(v) == MeaningOf(w)
            <==> Canonicalize(v) == Canonicalize(w) && HiddenAlike(MeaningOf(v), MeaningOf(w))
  {
    CanonicalizeIsMeaning(v, w);
    ShownAndHidden(MeaningOf(v), MeaningOf(w));
  }

  /** No object of the value, at any depth, has a field named __proto__. */
  ghost predicate NoProto(m: Meaning)
    decreases m
  {
    match m
    case MArr(items) => forall i :: 0 <= i < |items| ==> NoProto(items[i])
    case MObj(fields) => PROTO !in fields && forall k :: k in fields ==> NoProto(fields[k])
    case _ => true
  }

  /** The values whose text hides nothing. */
  lemma {:induction false} VisibleWhole(m: Meaning)
    ensures Visible(m) == m <==> NoProto(m)
    decreases m
  {
    match m
    case MArr(items) =>
      forall i | 0 <= i < |items| ensures Visible(items[i]) == items[i] <==> NoProto(items[i]) {
        VisibleWhole(items[i]);
      }
      if Visible(m) == m {
        forall i | 0 <= i < |items| ensures Visible(items[i]) == items[i] { assert Visible(m).items[i] == items[i]; }
      }
    case MObj(fields) =>
      forall k | k in fields ensures Visible(fields[k]) == fields[k] <==> NoProto(fields[k]) {
        VisibleWhole(fields[k]);
      }
      if Visible(m) == m {
        assert PROTO !in Visible(m).fields;
        forall k | k in fields ensures Visible(fields[k]) == fields[k] { assert Visible(m).fields[k] == fields[k]; }
      }
    case _ =>
  }

  /** Where neither value uses that key, equal texts mean equal values. */
  lemma CanonicalizeOfPlainKeys(v: Value, w: Value)
    requires WellFormed(v) && WellFormed(w) && NoProto(MeaningOf(v)) && NoProto(MeaningOf(w))
    ensures Canonicalize(v) == Canonicalize(w) <==> MeaningOf(v) == MeaningOf(w)
  {
    CanonicalizeIsMeaning(v, w);
    VisibleWhole(MeaningOf(v));
    VisibleWhole(MeaningOf(w));
  }

  /** Any object can be given such a field, whatever its value, without its text changing. */
  lemma HiddenFieldKeepsText(fs: seq<Field>, x: Value)
    requires WellFormed(JObj(fs)) && WellFormed(x) && "__proto__" !in KeySet(fs)
    ensures var more := JObj([Field("__proto__", x)] + fs);
            WellFormed(more) && Canonicalize(more) == Canonicalize(JObj(fs)) && MeaningOf(more) != MeaningOf(JObj(fs))
  {
    var gs := [Field(PROTO, x)] + fs;
    assert gs[1..] == fs;
    forall i | 0 <= i < |fs| ensures fs[i].key != PROTO { assert fs[i] in fs && fs[i].key in KeySet(fs); }
    FieldKeys(fs);
    assert StripFields(gs) == StripFields(fs);
  }

  /** An empty object and one that only has such a field share their text. */
  lemma EmptyObjects()
    ensures var empty := JObj([]);
            var hidden := JObj([Field("__proto__", JObj([]))]);
            Canonicalize(hidden) == Canonicalize(empty) == "{}" && MeaningOf(hidden) != MeaningOf(empty)
  {
    HiddenFieldKeepsText([], JObj([]));
    assert [Field(PROTO, JObj([]))] + [] == [Field(PROTO, JObj([]))];
  }

  lemma {:induction false} PlainWellFormed(v: Value)
    requires WellFormed(v)
    ensures WellFormed(Plain(v))
    decreases v
  {
    match v
    case JArr(items) =>
      PlainItemsAt(items);
      forall i | 0 <= i < |items| ensures WellFormed(Plain(items[i])) { PlainWellFormed(items[i]); }
    case JObj(fs) =>
      PlainFieldsAt(fs);
      forall i | 0 <= i < |fs| ensures WellFormed(Plain(fs[i].value)) { PlainWellFormed(fs[i].value); }
    case _ =>
  }

  lemma PlainCanonical(v: Value)
    requires WellFormed(v)
    ensures WellFormed(Plain(v)) && Canonicalize(Plain(v)) == Canonicalize(v)
  {
    PlainWellFormed(v);
    PlainMeaning(v);
    CanonicalizeIsMeaning(Plain(v), v);
  }

  /** Writing a value out and reading it back keeps its canonical text, dates included. */
  lemma CanonicalizeAfterParse(v: Value)
    requires WellFormed(v)
    ensures Parse(Print(v)).Some? && WellFormed(Parse(Print(v)).value)
    ensures Canonicalize(Parse(Print(v)).value) == Canonicalize(v)
  {
    ParsePrint(v);
    PlainCanonical(v);
  }

  // ---- the sorting loop -------------------------------------------------------------------------------

  lemma {:induction false} InsertCommutes(f: Field, s: seq<Field>)
    ensures OrderedFields(Insert(f, s)) == Insert(Field(f.key, Ordered(f.value)), OrderedFields(s))
  {
    if s == [] || KeyLess(f.key, s[0].key) {
    } else {
      InsertCommutes(f, s[1..]);
      assert OrderedFields(s)[1..] == OrderedFields(s[1..]);
    }
  }

  lemma {:induction false} SortCommutes(fs: seq<Field>)
    ensures OrderedFields(Sorted(fs)) == Sorted(OrderedFields(fs))
  {
    if fs == [] {
    } else {
      SortCommutes(fs[1..]);
      InsertCommutes(fs[0], Sorted(fs[1..]));
      assert OrderedFields(fs)[1..] == OrderedFields(fs[1..]);
    }
  }

  /** Dropping the field before or after inserting another makes no difference in a sorted list. */
  lemma {:induction false} StripInsert(f: Field, s: seq<Field>)
    requires Ascending(s) && forall i :: 0 <= i < |s| ==> s[i].key != f.key
    ensures StripFields(Insert(f, s))
            == if f.key == PROTO then StripFields(s) else Insert(Field(f.key, Strip(f.value)), StripFields(s))
  {
    if s == [] {
    } else if KeyLess(f.key, s[0].key) {
      assert ([f] + s)[1..] == s;
      if s[0].key == PROTO && |s| > 1 {
        KeyOrderTransitive(f.key, s[0].key, s[1].key);
        KeyOrderTotal(s[0].key, s[1].key);
      }
    } else {
      StripInsert(f, s[1..]);
      assert ([s[0]] + Insert(f, s[1..]))[1..] == Insert(f, s[1..]);
      if s[0].key != PROTO {
        var t := StripFields(s);
        assert t[1..] == StripFields(s[1..]) && t[0].key == s[0].key;
      }
    }
  }

  lemma {:induction false} StripCommutes(fs: seq<Field>)
    requires DistinctKeys(fs)
    ensures StripFields(Sorted(fs)) == Sorted(StripFields(fs))
  {
    if fs == [] {
    } else {
      var rest := Sorted(fs[1..]);
      StripCommutes(fs[1..]);
      SortedSorts(fs[1..]);
      SortedMembers(fs[1..]);
      KeySetTail(fs);
      forall i | 0 <= i < |rest| ensures rest[i].key != fs[0].key {
        assert rest[i] in rest && rest[i].key in KeySet(fs[1..]);
      }
      StripInsert(fs[0], rest);
    }
  }

  /** Fills the output object key by key, in key order. */
  method SortDeepLoop(v: Value) returns (r: Value)
    requires WellFormed(v)
    ensures r == SortDeep(v)
    decreases v, 1
  {
    match v
    case JArr(items) =>
      var out: seq<Value> := [];
      for i := 0 to |items|
        invariant |out| == i && forall j :: 0 <= j < i ==> out[j] == SortDeep(items[j])
      {
        var x := SortDeepLoop(items[i]);
        out := out + [x];
      }
      assert out == OrderedItems(StripItems(items));
      r := JArr(out);
    case JObj(fs) =>
      var out := SortFieldsLoop(v, Sorted(fs));
      CopiedIs(Sorted(fs));
      StripCommutes(fs);
      SortCommutes(StripFields(fs));
      r := JObj(out);
    case _ => r := v;
  }

  /** What copying keys in this order writes: each key becomes a property unless it is __proto__. */
  function Copied(keys: seq<Field>): seq<Field> {
    if keys == [] then [] else
      var f := keys[|keys| - 1];
      Copied(keys[..|keys| - 1]) + if f.key == PROTO then [] else [Field(f.key, SortDeep(f.value))]
  }

  lemma {:induction false} StripSnoc(s: seq<Field>, f: Field)
    ensures StripFields(s + [f]) == StripFields(s) + if f.key == PROTO then [] else [Field(f.key, Strip(f.value))]
  {
    if s == [] {
      assert s + [f] == [f];
    } else {
      StripSnoc(s[1..], f);
      assert (s + [f])[1..] == s[1..] + [f];
    }
  }

  lemma {:induction false} OrderedSnoc(s: seq<Field>, f: Field)
    ensures OrderedFields(s + [f]) == OrderedFields(s) + [Field(f.key, Ordered(f.value))]
  {
    if s == [] {
      assert s + [f] == [f];
    } else {
      OrderedSnoc(s[1..], f);
      assert (s + [f])[1..] == s[1..] + [f];
    }
  }

  lemma {:induction false} CopiedIs(keys: seq<Field>)
    ensures Copied(keys) == OrderedFields(StripFields(keys))
  {
    if keys == [] {
    } else {
      var rest, f := keys[..|keys| - 1], keys[|keys| - 1];
      CopiedIs(rest);
      StripSnoc(rest, f);
      assert keys == rest + [f];
      if f.key != PROTO { OrderedSnoc(StripFields(rest), Field(f.key, Strip(f.value))); }
    }
  }

  method SortFieldsLoop(v: Value, keys: seq<Field>) returns (out: seq<Field>)
    requires WellFormed(v) && v.JObj? && keys == Sorted(v.fields)
    ensures out == Copied(keys)
    decreases v, 0
  {
    SortedMembers(v.fields);
    out := [];
    for i := 0 to |keys|
      invariant out == Copied(keys[..i])
    {
      assert keys[i] in v.fields && keys[..i + 1][..i] == keys[..i];
      var x := SortDeepLoop(keys[i].value);
      if keys[i].key != PROTO {
        out := out + [Field(keys[i].key, x)];
      }
    }
    assert keys[..|keys|] == keys;
  }
}
