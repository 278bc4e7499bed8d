/**
 * JSON values, the text JSON.stringify writes for them, and a reader for that text. The reader
 * recovers the value, so no two values share a text.
 */
module Json {
  import opened Common

  /** Characters of a number token. */
  predicate NumChar(c: char) { '0' <= c <= '9' || c == '-' || c == '+' || c == '.' || c == 'e' }

  predicate IsNumeral(s: string) {
    s != "" && ('0' <= s[0] <= '9' || s[0] == '-') && forall i :: 0 <= i < |s| ==> NumChar(s[i])
  }

  /** A finite number, as the token the host prints for it. */
  type Numeral = s: string | IsNumeral(s) witness "0"

  /** A value in memory. Fields are listed in enumeration order; a date prints as its ISO string. */
  datatype Value =
    | JNull
    | JBool(b: bool)
    | JNum(n: Numeral)
    | JStr(s: string)
    | JDate(iso: string)
    | JArr(items: seq<Value>)
    | JObj(fields: seq<Field>)

  datatype Field = Field(key: string, value: Value)

  predicate DistinctKeys(fs: seq<Field>) {
    forall i, j :: 0 <= i < j < |fs| ==> fs[i].key != fs[j].key
  }

  /** Objects have no key twice, at any depth. */
  predicate WellFormed(v: Value) {
    match v
    case JArr(items) => forall i :: 0 <= i < |items| ==> WellFormed(items[i])
    case JObj(fs) => DistinctKeys(fs) && forall i :: 0 <= i < |fs| ==> WellFormed(fs[i].value)
    case _ => true
  }

  /** What is left of a value once it went through text: dates have become strings. */
  function Plain(v: Value): Value
    decreases v
  {
    match v
    case JDate(iso) => JStr(iso)
    case JArr(items) => JArr(PlainItems(items))
    case JObj(fs) => JObj(PlainFields(fs))
    case _ => v
  }

  function PlainItems(items: seq<Value>): seq<Value>
    decreases items
  {
    if items == [] then [] else [Plain(items[0])] + PlainItems(items[1..])
  }

  function PlainFields(fs: seq<Field>): seq<Field>
    decreases fs
  {
    if fs == [] then [] else [Field(fs[0].key, Plain(fs[0].value))] + PlainFields(fs[1..])
  }

  // ---- writing ---------------------------------------------------------------------------------

  function Hex(d: int): char
    requires 0 <= d < 16
  {
    "0123456789abcdef"[d]
  }

  function Escape(c: char): string {
    if c == '\"' then "\\\""
    else if c == '\\' then "\\\\"
    else if c == '\n' then "\\n"
    else if c == '\r' then "\\r"
    else if c == '\t' then "\\t"
    else if c as int == 8 then "\\b"
    else if c as int == 12 then "\\f"
    else if c as int < 32 then "\\u00" + [Hex(c as int / 16), Hex(c as int % 16)]
    else [c]
  }

  /** The characters of s and the closing quote. */
  function Chars(s: string): string {
    if s == "" then "\"" else Escape(s[0]) + Chars(s[1..])
  }

  function Quote(s: string): string { "\"" + Chars(s) }

  function Print(v: Value): string
    decreases v
  {
    match v
    case JNull => "null"
    case JBool(b) => if b then "true" else "false"
    case JNum(n) => n
    case JStr(s) => Quote(s)
    case JDate(iso) => Quote(iso)
    case JArr(items) => if items == [] then "[]" else "[" + ItemsText(items)
    case JObj(fs) => if fs == [] then "{}" else "{" + FieldsText(fs)
  }

  /** One or more items and the closing bracket. */
  function ItemsText(items: seq<Value>): string
    requires items != []
    decreases items
  {
    Print(items[0]) + (if |items| == 1 then "]" else "," + ItemsText(items[1..]))
  }

  /** One or more fields and the closing brace. */
  function FieldsText(fs: seq<Field>): string
    requires fs != []
    decreases fs
  {
    var f := fs[0];
    Quote(f.key) + (":" + (Print(f.value) + (if |fs| == 1 then "}" else "," + FieldsText(fs[1..]))))
  }

  // ---- reading ---------------------------------------------------------------------------------

  function HexValue(c: char): Option<int> {
    if '0' <= c <= '9' then Some(c as int - '0' as int)
    else if 'a' <= c <= 'f' then Some(c as int - 'a' as int + 10)
    else None
  }

  /** The character an escape stands for, and how many characters follow the backslash. */
  function Unescape(t: string): Option<(char, nat)> {
    if t == "" then None
    else if t[0] == '\"' then Some(('\"', 1))
    else if t[0] == '\\' then Some(('\\', 1))
    else if t[0] == 'n' then Some(('\n', 1))
    else if t[0] == 'r' then Some(('\r', 1))
    else if t[0] == 't' then Some(('\t', 1))
    else if t[0] == 'b' then Some((8 as char, 1))
    else if t[0] == 'f' then Some((12 as char, 1))
    else if |t| >= 5 && t[..3] == "u00" && HexValue(t[3]).Some? && HexValue(t[4]).Some? then
      Some(((16 * HexValue(t[3]).value + HexValue(t[4]).value) as char, 5))
    else None
  }

  /** Reads up to the closing quote. */
  function ReadString(t: string): (r: Option<(string, string)>)
    ensures r.Some? ==> |r.value.1| < |t|
    decreases |t|
  {
    if t == "" then None
    else if t[0] == '\"' then Some(("", t[1..]))
    else if t[0] == '\\' then
      match Unescape(t[1..])
      case None => None
      case Some(e) =>
        if e.1 > |t| - 1 then None else
          match ReadString(t[1 + e.1..])
          case None => None
          case Some(r) => Some(([e.0] + r.0, r.1))
    else
      match ReadString(t[1..])
      case None => None
      case Some(r) => Some(([t[0]] + r.0, r.1))
  }

  /** The length of the number token at the start of t. */
  function NumeralLength(t: string): (n: nat)
    ensures n <= |t| && forall i :: 0 <= i < n ==> NumChar(t[i])
  {
    if t == "" || !NumChar(t[0]) then 0 else 1 + NumeralLength(t[1..])
  }

  function ReadWord(t: string, word: string, v: Value): (r: Option<(Value, string)>)
    requires word != ""
    ensures r.Some? ==> |r.value.1| < |t|
  {
    if |word| <= |t| && t[..|word|] == word then Some((v, t[|word|..])) else None
  }

  function ReadNumeral(t: string): (r: Option<(Value, string)>)
    ensures r.Some? ==> |r.value.1| < |t|
  {
    var n := NumeralLength(t);
    if n > 0 && IsNumeral(t[..n]) then Some((JNum(t[..n]), t[n..])) else None
  }

  function Read(t: string): (r: Option<(Value, string)>)
    ensures r.Some? ==> |r.value.1| < |t|
    decreases |t|, 0
  {
    if t == "" then None
    else if t[0] == 'n' then ReadWord(t, "null", JNull)
    else if t[0] == 't' then ReadWord(t, "true", JBool(true))
    else if t[0] == 'f' then ReadWord(t, "false", JBool(false))
    else if t[0] == '\"' then
      match ReadString(t[1..])
      case None => None
      case Some(r) => Some((JStr(r.0), r.1))
    else if t[0] == '[' then
      if |t| > 1 && t[1] == ']' then Some((JArr([]), t[2..])) else
        match ReadItems(t[1..])
        case None => None
        case Some(r) => Some((JArr(r.0), r.1))
    else if t[0] == '{' then
      if |t| > 1 && t[1] == '}' then Some((JObj([]), t[2..])) else
        match ReadFields(t[1..])
        case None => None
        case Some(r) => Some((JObj(r.0), r.1))
    else ReadNumeral(t)
  }

  /** Reads one or more values and the closing bracket. */
  function ReadItems(t: string): (r: Option<(seq<Value>, string)>)
    ensures r.Some? ==> |r.value.1| < |t|
    decreases |t|, 1
  {
    match Read(t)
    case None => None
    case Some(v) =>
      if v.1 == "" then None
      else if v.1[0] == ']' then Some(([v.0], v.1[1..]))
      else if v.1[0] == ',' then
        match ReadItems(v.1[1..])
        case None => None
        case Some(r) => Some(([v.0] + r.0, r.1))
      else None
  }

  /** Reads one or more fields and the closing brace. */
  function ReadFields(t: string): (r: Option<(seq<Field>, string)>)
    ensures r.Some? ==> |r.value.1| < |t|
    decreases |t|, 1
  {
    if t == "" || t[0] != '\"' then None else
      match ReadString(t[1..])
      case None => None
      case Some(k) =>
        if k.1 == "" || k.1[0] != ':' then None else
          match Read(k.1[1..])
          case None => None
          case Some(v) =>
            if v.1 == "" then None
            else if v.1[0] == '}' then Some(([Field(k.0, v.0)], v.1[1..]))
            else if v.1[0] == ',' then
              match ReadFields(v.1[1..])
              case None => None
              case Some(r) => Some(([Field(k.0, v.0)] + r.0, r.1))
            else None
  }

  /** The whole text is one value. */
  function Parse(t: string): Option<Value> {
    match Read(t)
    case None => None
    case Some(r) => if r.1 == "" then Some(r.0) else None
  }

  // ---- reading undoes writing --------------------------------------------------------------------

  /** What may follow a value. */
  predicate Ends(t: string) { t == "" || t[0] == ',' || t[0] == ']' || t[0] == '}' }

  lemma HexRoundTrip(d: int)
    requires 0 <= d < 16
    ensures HexValue(Hex(d)) == Some(d)
  {
  }

  lemma EscapeRoundTrip(c: char, t: string)
    ensures Escape(c) != "" && Escape(c)[0] != '\"'
    ensures if Escape(c)[0] == '\\' then Unescape(Escape(c)[1..] + t) == Some((c, |Escape(c)| - 1))
            else Escape(c) == [c]
  {
    if c as int < 32 {
      HexRoundTrip(c as int / 16);
      HexRoundTrip(c as int % 16);
    }
  }

  lemma Assoc(a: string, b: string, c: string)
    ensures (a + b) + c == a + (b + c)
  {
  }

  lemma Drop(a: string, b: string)
    ensures (a + b)[|a|..] == b
    ensures a != "" ==> (a + b)[1..] == a[1..] + b
  {
  }

  lemma {:induction false} StringRoundTrip(s: string, t: string)
    ensures ReadString(Chars(s) + t) == Some((s, t))
  {
    if s == "" {
      Drop("\"", t);
    } else {
      var e, rest := Escape(s[0]), Chars(s[1..]) + t;
      StringRoundTrip(s[1..], t);
      Assoc(e, Chars(s[1..]), t);
      ReadStringStep(s[0], rest, s[1..], t);
      assert [s[0]] + s[1..] == s;
    }
  }

  lemma ReadStringStep(c: char, rest: string, s: string, t: string)
    requires ReadString(rest) == Some((s, t))
    ensures ReadString(Escape(c) + rest) == Some(([c] + s, t))
  {
    var e := Escape(c);
    EscapeRoundTrip(c, rest);
    Drop(e, rest);
    if e[0] == '\\' {
      assert 1 + (|e| - 1) == |e|;
    }
  }

  lemma {:induction false} NumeralRoundTrip(n: string, t: string)
    requires (forall i :: 0 <= i < |n| ==> NumChar(n[i])) && (t == "" || !NumChar(t[0]))
    ensures NumeralLength(n + t) == |n|
  {
    if n == "" {
      assert n + t == t;
    } else {
      NumeralRoundTrip(n[1..], t);
      assert (n + t)[1..] == n[1..] + t;
    }
  }

  lemma FirstChar(v: Value)
    ensures Print(v) != "" && Print(v)[0] !in {',', ']', '}', ':'}
  {
  }

  lemma ReadPrintString(s: string, t: string)
    ensures Read(Quote(s) + t) == Some((JStr(s), t))
  {
    StringRoundTrip(s, t);
    Drop("\"", Chars(s) + t);
    Assoc("\"", Chars(s), t);
  }

  lemma ReadPrintNumeral(n: Numeral, t: string)
    requires Ends(t)
    ensures Read(n + t) == Some((JNum(n), t))
  {
    NumeralRoundTrip(n, t);
    assert (n + t)[..|n|] == n && (n + t)[|n|..] == t;
  }

  lemma ReadPrintWord(word: string, v: Value, t: string)
    requires word != ""
    ensures ReadWord(word + t, word, v) == Some((v, t))
  {
    assert (word + t)[..|word|] == word && (word + t)[|word|..] == t;
  }

  lemma {:induction false} ReadPrint(v: Value, t: string)
    requires Ends(t)
    ensures Read(Print(v) + t) == Some((Plain(v), t))
    decreases v, 0
  {
    match v
    case JNull => ReadPrintWord("null", v, t);
    case JBool(b) => ReadPrintWord(Print(v), v, t);
    case JNum(n) => ReadPrintNumeral(n, t);
    case JStr(s) => ReadPrintString(s, t);
    case JDate(s) => ReadPrintString(s, t);
    case JArr(items) =>
      if items == [] {
        Drop("[]", t);
      } else {
        ReadPrintItems(items, t);
        FirstChar(items[0]);
        ReadOpened('[', ItemsText(items), t);
      }
    case JObj(fs) =>
      if fs == [] {
        Drop("{}", t);
      } else {
        ReadPrintFields(fs, t);
        ReadOpened('{', FieldsText(fs), t);
      }
  }

  lemma ReadOpened(open: char, body: string, t: string)
    requires open == '[' || open == '{'
    requires body != "" && body[0] != ']' && body[0] != '}'
    ensures Read(([open] + body) + t)
            == if open == '[' then (match ReadItems(body + t) case None => None case Some(r) => Some((JArr(r.0), r.1)))
               else match ReadFields(body + t) case None => None case Some(r) => Some((JObj(r.0), r.1))
  {
    Assoc([open], body, t);
    Drop([open], body + t);
  }

  lemma {:induction false} ReadPrintItems(items: seq<Value>, t: string)
    requires items != []
    ensures ReadItems(ItemsText(items) + t) == Some((PlainItems(items), t))
    decreases items, 0
  {
    var head, tail := Print(items[0]), if |items| == 1 then "]" else "," + ItemsText(items[1..]);
    Assoc(head, tail, t);
    ReadPrint(items[0], tail + t);
    if |items| == 1 {
      Drop("]", t);
      assert PlainItems(items) == [Plain(items[0])] + PlainItems([]) == [Plain(items[0])];
    } else {
      Assoc(",", ItemsText(items[1..]), t);
      Drop(",", ItemsText(items[1..]) + t);
      ReadPrintItems(items[1..], t);
    }
  }

  lemma {:induction false} ReadPrintFields(fs: seq<Field>, t: string)
    requires fs != []
    ensures ReadFields(FieldsText(fs) + t) == Some((PlainFields(fs), t))
    decreases fs, 0
  {
    var f := fs[0];
    var value, tail := Print(f.value), if |fs| == 1 then "}" else "," + FieldsText(fs[1..]);
    Assoc(Quote(f.key), ":" + (value + tail), t);
    Assoc(":", value + tail, t);
    Assoc(value, tail, t);
    ReadPrintKey(f.key, value + (tail + t));
    ReadPrint(f.value, tail + t);
    if |fs| == 1 {
      Drop("}", t);
      assert PlainFields(fs) == [Field(f.key, Plain(f.value))] + PlainFields([]) == [Field(f.key, Plain(f.value))];
    } else {
      Assoc(",", FieldsText(fs[1..]), t);
      Drop(",", FieldsText(fs[1..]) + t);
      ReadPrintFields(fs[1..], t);
    }
  }

  lemma ReadPrintKey(key: string, value: string)
    ensures var text := Quote(key) + (":" + value);
            text != "" && text[0] == '\"' && ReadString(text[1..]) == Some((key, ":" + value))
                && (":" + value)[1..] == value
  {
    StringRoundTrip(key, ":" + value);
    Drop(":", value);
    Assoc("\"", Chars(key), ":" + value);
    Drop("\"", Chars(key) + (":" + value));
  }

  /** Reading back what was written gives the value, its dates as strings. */
  lemma ParsePrint(v: Value)
    ensures Parse(Print(v)) == Some(Plain(v))
  {
    ReadPrint(v, "");
    assert Print(v) + "" == Print(v);
  }

  /** Two values with one text differ at most in having a date where the other has its ISO string. */
  lemma PrintInjective(v: Value, w: Value)
    requires Print(v) == Print(w)
    ensures Plain(v) == Plain(w)
  {
    ParsePrint(v);
    ParsePrint(w);
  }
}
