/** The scan for field names that must not leave the system. */
module SecretScan {
  import opened Common
  import opened Json

  const SECRET_WORDS := ["password", "secret", "token", "apikey", "api_key", "api-key",
                         "credential", "privatekey", "private_key", "private-key"]

  function Lower(s: string): (r: string)
    ensures |r| == |s|
  {
    seq(|s|, i requires 0 <= i < |s| => if 'A' <= s[i] <= 'Z' then (s[i] as int + 32) as char else s[i])
  }

  predicate OccursAt(s: string, w: string, i: int) { 0 <= i <= |s| - |w| && s[i..i + |w|] == w }

  predicate Contains(s: string, w: string) { exists i :: 0 <= i <= |s| - |w| && OccursAt(s, w, i) }

  predicate SecretName(key: string) {
    var s := Lower(key);
    exists w :: w in SECRET_WORDS && Contains(s, w)
  }

  /** The same letter, big or small; the word's is small. */
  predicate SameLetter(c: char, small: char) { c == small || ('A' <= c <= 'Z' && c as int + 32 == small as int) }

  /** The word stands in the key at this place, in any mix of big and small letters. */
  predicate Stands(key: string, word: string, at: int) {
    0 <= at <= |key| - |word| && forall j :: 0 <= j < |word| ==> SameLetter(key[at + j], word[j])
  }

  const FORBIDDEN := {"password", "secret", "token", "apikey", "api_key", "api-key", "credential", "privatekey",
                      "private_key", "private-key"}

  lemma WordsListed(w: string)
    ensures w in SECRET_WORDS <==> w in FORBIDDEN
    ensures w in FORBIDDEN ==> forall j :: 0 <= j < |w| ==> !('A' <= w[j] <= 'Z')
  {
  }

  lemma OccursStands(key: string, w: string, i: int)
    requires forall j :: 0 <= j < |w| ==> !('A' <= w[j] <= 'Z')
    ensures OccursAt(Lower(key), w, i) <==> Stands(key, w, i)
  {
    if 0 <= i <= |key| - |w| {
      var s := Lower(key)[i..i + |w|];
      assert forall j :: 0 <= j < |w| ==> s[j] == Lower(key)[i + j];
      if Stands(key, w, i) {
        forall j | 0 <= j < |w| ensures s[j] == w[j] { assert SameLetter(key[i + j], w[j]); }
        assert s == w;
      }
    }
  }

  /** A key must not leak exactly when one of the forbidden words stands in it. */
  lemma SecretExactly(key: string)
    ensures SecretName(key) <==> exists w, i :: w in FORBIDDEN && Stands(key, w, i)
  {
    if SecretName(key) {
      var w :| w in SECRET_WORDS && Contains(Lower(key), w);
      var i :| 0 <= i <= |Lower(key)| - |w| && OccursAt(Lower(key), w, i);
      WordsListed(w);
      OccursStands(key, w, i);
    }
    if exists w, i :: w in FORBIDDEN && Stands(key, w, i) {
      var w, i :| w in FORBIDDEN && Stands(key, w, i);
      WordsListed(w);
      OccursStands(key, w, i);
    }
  }

  /** The key occurs in some object of v, at any depth. */
  ghost predicate Mentions(v: Value, key: string)
    decreases v
  {
    match v
    case JArr(items) => exists i :: 0 <= i < |items| && Mentions(items[i], key)
    case JObj(fs) => exists i :: 0 <= i < |fs| && (fs[i].key == key || Mentions(fs[i].value, key))
    case _ => false
  }

  ghost function KeyCount(v: Value): nat
    decreases v
  {
    match v
    case JArr(items) => ItemsKeyCount(items)
    case JObj(fs) => FieldsKeyCount(fs)
    case _ => 0
  }

  ghost function ItemsKeyCount(items: seq<Value>): nat
    decreases items
  {
    if items == [] then 0 else ItemsKeyCount(items[..|items| - 1]) + KeyCount(items[|items| - 1])
  }

  ghost function FieldsKeyCount(fs: seq<Field>): nat
    decreases fs
  {
    if fs == [] then 0 else FieldsKeyCount(fs[..|fs| - 1]) + 1 + KeyCount(fs[|fs| - 1].value)
  }

  /** All keys of all objects in a value, at any depth. */
  ghost function KeysIn(v: Value): seq<string>
    decreases v
  {
    match v
    case JArr(items) => KeysInItems(items)
    case JObj(fs) => KeysInFields(fs)
    case _ => []
  }

  ghost function KeysInItems(items: seq<Value>): seq<string>
    decreases items
  {
    if items == [] then [] else KeysInItems(items[..|items| - 1]) + KeysIn(items[|items| - 1])
  }

  ghost function KeysInFields(fs: seq<Field>): seq<string>
    decreases fs
  {
    if fs == [] then []
    else KeysInFields(fs[..|fs| - 1]) + [fs[|fs| - 1].key] + KeysIn(fs[|fs| - 1].value)
  }

  /** The count of keys is that of all keys at any depth. */
  lemma {:induction false} KeysCounted(v: Value)
    ensures KeyCount(v) == |KeysIn(v)|
    decreases v
  {
    match v
    case JArr(items) => ItemKeysCounted(items);
    case JObj(fs) => FieldKeysCounted(fs);
    case _ =>
  }

  lemma {:induction false} ItemKeysCounted(items: seq<Value>)
    ensures ItemsKeyCount(items) == |KeysInItems(items)|
    decreases items
  {
    if items == [] {
    } else {
      ItemKeysCounted(items[..|items| - 1]);
      KeysCounted(items[|items| - 1]);
    }
  }

  lemma {:induction false} FieldKeysCounted(fs: seq<Field>)
    ensures FieldsKeyCount(fs) == |KeysInFields(fs)|
    decreases fs
  {
    if fs == [] {
    } else {
      FieldKeysCounted(fs[..|fs| - 1]);
      KeysCounted(fs[|fs| - 1].value);
    }
  }

  /** No object in v, at any depth, has a key that must not leak. */
  ghost predicate Clean(v: Value) { forall key :: Mentions(v, key) ==> !SecretName(key) }

  lemma CleanItems(items: seq<Value>)
    ensures Clean(JArr(items)) <==> forall i :: 0 <= i < |items| ==> Clean(items[i])
  {
    if Clean(JArr(items)) {
      forall i, key | 0 <= i < |items| && Mentions(items[i], key) ensures !SecretName(key) {
        assert Mentions(JArr(items), key);
      }
    }
  }

  ghost predicate CleanField(f: Field) { !SecretName(f.key) && Clean(f.value) }

  lemma CleanFields(fs: seq<Field>)
    ensures Clean(JObj(fs)) <==> forall i :: 0 <= i < |fs| ==> CleanField(fs[i])
  {
    if Clean(JObj(fs)) {
      forall i | 0 <= i < |fs| ensures CleanField(fs[i]) {
        assert Mentions(JObj(fs), fs[i].key);
        forall key | Mentions(fs[i].value, key) ensures !SecretName(key) { assert Mentions(JObj(fs), key); }
      }
    }
  }

  lemma SecretField(fs: seq<Field>, i: nat, key: string)
    requires i < |fs| && (fs[i].key == key || Mentions(fs[i].value, key)) && SecretName(key)
    ensures Mentions(JObj(fs), key) && !CleanField(fs[i])
  {
  }

  /** The scan counts every key, or stops at a key that must not leak; it lets a value through exactly
      when no object in it, at any depth, has such a key. */
  method AssertNoSecretFields(v: Value) returns (r: Result<nat, string>)
    ensures r.Ok? <==> Clean(v)
    ensures r.Ok? ==> r.value == KeyCount(v)
    ensures r.Err? ==> Mentions(v, r.error) && SecretName(r.error)
    decreases v
  {
    match v
    case JArr(items) => r := ScanItems(items);
    case JObj(fs) => r := ScanFields(fs);
    case _ => r := Ok(0);
  }

  method ScanItems(items: seq<Value>) returns (r: Result<nat, string>)
    ensures r.Ok? <==> Clean(JArr(items))
    ensures r.Ok? ==> r.value == ItemsKeyCount(items)
    ensures r.Err? ==> Mentions(JArr(items), r.error) && SecretName(r.error)
    decreases items
  {
    var scanned := 0;
    CleanItems(items);
    for i := 0 to |items|
      invariant scanned == ItemsKeyCount(items[..i])
      invariant forall j :: 0 <= j < i ==> Clean(items[j])
    {
      assert items[..i + 1][..i] == items[..i];
      var n := AssertNoSecretFields(items[i]);
      if n.Err? { return n; }
      scanned := scanned + n.value;
    }
    assert items[..|items|] == items;
    r := Ok(scanned);
  }

  method ScanFields(fs: seq<Field>) returns (r: Result<nat, string>)
    ensures r.Ok? <==> Clean(JObj(fs))
    ensures r.Ok? ==> r.value == FieldsKeyCount(fs)
    ensures r.Err? ==> Mentions(JObj(fs), r.error) && SecretName(r.error)
    decreases fs
  {
    var scanned := 0;
    CleanFields(fs);
    for i := 0 to |fs|
      invariant scanned == FieldsKeyCount(fs[..i])
      invariant forall j :: 0 <= j < i ==> CleanField(fs[j])
    {
      assert fs[..i + 1][..i] == fs[..i];
      if SecretName(fs[i].key) {
        SecretField(fs, i, fs[i].key);
        return Err(fs[i].key);
      }
      var n := AssertNoSecretFields(fs[i].value);
      if n.Err? {
        SecretField(fs, i, n.error);
        return n;
      }
      scanned := scanned + 1 + n.value;
    }
    assert fs[..|fs|] == fs;
    r := Ok(scanned);
  }
}
