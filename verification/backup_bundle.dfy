/**
 * The backup bundle: a manifest with the checksum of the data, and the data, written as one JSON text.
 * Encryption and the file system hand the text back unchanged; hash stands for SHA-256.
 */
module BackupBundle {
  import opened Common
  import opened Json
  import opened Canonical
  import opened SecretScan

  datatype Error = SecretField(key: string)

  /** The rows of each table, in catalogue order; table names are distinct. */
  datatype Table = Table(name: string, rows: Value)

  function DataOf(tables: seq<Table>): Value { JObj(FieldsOf(tables)) }

  function FieldsOf(tables: seq<Table>): (fs: seq<Field>)
    ensures |fs| == |tables| && forall i :: 0 <= i < |tables| ==> fs[i] == Field(tables[i].name, tables[i].rows)
  {
    seq(|tables|, i requires 0 <= i < |tables| => Field(tables[i].name, tables[i].rows))
  }

  function Get(v: Value, key: string): Option<Value> { if v.JObj? then Lookup(v.fields, key) else None }

  function Lookup(fs: seq<Field>, key: string): Option<Value> {
    if fs == [] then None else if fs[0].key == key then Some(fs[0].value) else Lookup(fs[1..], key)
  }

  function Checksum(hash: string -> string, v: Value): string { hash(Canonicalize(v)) }

  /** The bundle of some data; details are the manifest's other entries. */
  function Payload(hash: string -> string, details: seq<Field>, data: Value): Value {
    JObj([Field("manifest", JObj([Field("checksum", JStr(Checksum(hash, data)))] + details)), Field("data", data)])
  }

  datatype Bundle = Bundle(checksum: string, text: string, fieldsScanned: nat)

  /** Scans every table for forbidden names, then writes the bundle. */
  method CreateBackup(hash: string -> string, details: seq<Field>, tables: seq<Table>)
    returns (r: Result<Bundle, Error>)
    ensures r.Ok? <==> forall i :: 0 <= i < |tables| ==> Clean(tables[i].rows)
    ensures r.Ok? ==> r.value.checksum == Checksum(hash, DataOf(tables))
                      && r.value.text == Print(Payload(hash, details, DataOf(tables)))
                      && r.value.fieldsScanned == Scanned(tables)
    ensures r.Err? ==> SecretName(r.error.key) && exists i :: 0 <= i < |tables| && Mentions(tables[i].rows, r.error.key)
  {
    var scanned := 0;
    for i := 0 to |tables|
      invariant scanned == Scanned(tables[..i])
      invariant forall j :: 0 <= j < i ==> Clean(tables[j].rows)
    {
      assert tables[..i + 1][..i] == tables[..i];
      var n := AssertNoSecretFields(tables[i].rows);
      if n.Err? { return Err(SecretField(n.error)); }
      scanned := scanned + n.value;
    }
    assert tables[..|tables|] == tables;
    var data := DataOf(tables);
    r := Ok(Bundle(Checksum(hash, data), Print(Payload(hash, details, data)), scanned));
  }

  ghost function Scanned(tables: seq<Table>): nat {
    if tables == [] then 0 else Scanned(tables[..|tables| - 1]) + KeyCount(tables[|tables| - 1].rows)
  }

  /** The keys of all tables, one table after the other. */
  ghost function KeysOfTables(tables: seq<Table>): seq<string> {
    if tables == [] then [] else KeysOfTables(tables[..|tables| - 1]) + KeysIn(tables[|tables| - 1].rows)
  }

  /** The bundle's count of scanned fields is the number of keys in its tables, at any depth. */
  lemma {:induction false} ScannedKeys(tables: seq<Table>)
    ensures Scanned(tables) == |KeysOfTables(tables)|
  {
    if tables == [] {
    } else {
      ScannedKeys(tables[..|tables| - 1]);
      KeysCounted(tables[|tables| - 1].rows);
    }
  }

  /** The verdict of a verification; a text that is no bundle has none. */
  function Verify(hash: string -> string, jobChecksum: string, text: string): Option<bool> {
    match Parse(text)
    case None => None
    case Some(payload) =>
      if !Readable(payload) then None else
        var actual := Checksum(hash, Get(payload, "data").value);
        var expected := match Get(Get(payload, "manifest").value, "checksum")
                        case None => JStr(jobChecksum)
                        case Some(c) => if c == JNull then JStr(jobChecksum) else c;
        Some(expected == JStr(actual) && actual == jobChecksum)
  }

  /** There is data to take the checksum of, and a manifest to look into. */
  predicate Readable(payload: Value) {
    Get(payload, "data").Some? && Get(payload, "manifest").Some? && Get(payload, "manifest").value != JNull
  }

  /** The manifest carries this checksum, or none at all. */
  predicate ManifestAllows(payload: Value, sum: string)
    requires Readable(payload)
  {
    match Get(Get(payload, "manifest").value, "checksum")
    case None => true
    case Some(c) => c == JNull || Plain(c) == JStr(sum)
  }

  lemma PlainPayload(hash: string -> string, details: seq<Field>, data: Value)
    ensures var p := Plain(Payload(hash, details, data));
            Get(p, "data") == Some(Plain(data)) && Get(p, "manifest").Some?
            && Get(Get(p, "manifest").value, "checksum") == Some(JStr(Checksum(hash, data)))
  {
    var manifest := [Field("checksum", JStr(Checksum(hash, data)))] + details;
    var fs := [Field("manifest", JObj(manifest)), Field("data", data)];
    assert "manifest"[0] != "data"[0];
    assert fs[1..] == [Field("data", data)];
    assert Lookup(fs[1..], "data") == Some(data);
    PlainGet(JObj(fs), "data");
    PlainGet(JObj(fs), "manifest");
    PlainGet(JObj(manifest), "checksum");
  }

  /** An untouched bundle verifies, whatever dates its rows held. */
  lemma UntouchedVerifies(hash: string -> string, details: seq<Field>, data: Value)
    requires WellFormed(data)
    ensures Verify(hash, Checksum(hash, data), Print(Payload(hash, details, data))) == Some(true)
  {
    ParsePrint(Payload(hash, details, data));
    PlainPayload(hash, details, data);
    PlainCanonical(data);
  }

  /** With a hash that never collides, a bundle text, whatever was done to it, verifies exactly when its
      manifest carries the checksum of the export or none, and its data shows what was exported: reordered
      keys and fields named __proto__ pass, any other change of the data is caught. */
  lemma VerifyDetectsChange(hash: string -> string, data: Value, payload: Value)
    requires forall s, t :: hash(s) == hash(t) ==> s == t
    requires WellFormed(data) && WellFormed(payload)
    ensures Verify(hash, Checksum(hash, data), Print(payload)).Some? <==> Readable(payload)
    ensures Readable(payload) ==>
              (Verify(hash, Checksum(hash, data), Print(payload)).value
               <==> ManifestAllows(payload, Checksum(hash, data))
                    && Visible(MeaningOf(Get(payload, "data").value)) == Visible(MeaningOf(data)))
  {
    ParsePrint(payload);
    PlainGet(payload, "data");
    PlainGet(payload, "manifest");
    if Readable(payload) {
      var stored := Get(payload, "data").value;
      PlainGet(Get(payload, "manifest").value, "checksum");
      LookupWellFormed(payload.fields, "data");
      PlainWellFormed(stored);
      PlainMeaning(stored);
      CanonicalizeIsMeaning(Plain(stored), data);
    }
  }

  /** A field named __proto__ slipped into the data of any bundle goes unnoticed. */
  lemma HiddenFieldVerifies(hash: string -> string, details: seq<Field>, fs: seq<Field>, x: Value)
    requires WellFormed(JObj(fs)) && WellFormed(x) && PROTO !in KeySet(fs)
    ensures var sum, more := Checksum(hash, JObj(fs)), JObj([Field(PROTO, x)] + fs);
            var manifest := JObj([Field("checksum", JStr(sum))] + details);
            Verify(hash, sum, Print(JObj([Field("manifest", manifest), Field("data", more)]))) == Some(true)
            && MeaningOf(more) != MeaningOf(JObj(fs))
  {
    HiddenFieldKeepsText(fs, x);
    UntouchedVerifies(hash, details, JObj([Field(PROTO, x)] + fs));
  }

  lemma PlainGet(v: Value, key: string)
    ensures Get(Plain(v), key) == match Get(v, key) case None => None case Some(x) => Some(Plain(x))
  {
    if v.JObj? { PlainLookup(v.fields, key); }
  }

  lemma {:induction false} PlainLookup(fs: seq<Field>, key: string)
    ensures Lookup(PlainFields(fs), key)
            == match Lookup(fs, key) case None => None case Some(v) => Some(Plain(v))
  {
    if fs == [] {
    } else {
      PlainLookup(fs[1..], key);
      assert PlainFields(fs)[1..] == PlainFields(fs[1..]);
    }
  }

  lemma {:induction false} LookupWellFormed(fs: seq<Field>, key: string)
    requires forall i :: 0 <= i < |fs| ==> WellFormed(fs[i].value)
    ensures Lookup(fs, key).Some? ==> WellFormed(Lookup(fs, key).value)
  {
    if fs == [] {
    } else {
      LookupWellFormed(fs[1..], key);
    }
  }
}
