/** The text that is written for a value: the grammar of RFC 8259 without white space, and its escapes. */
module JsonText {
  import opened Common
  import opened Json

  /** Texts with commas between. */
  function Commas(ts: seq<string>): string {
    if ts == [] then "" else if |ts| == 1 then ts[0] else Commas(ts[..|ts| - 1]) + "," + ts[|ts| - 1]
  }

  lemma {:induction false} CommasFirst(ts: seq<string>)
    requires |ts| >= 2
    ensures Commas(ts) == ts[0] + "," + Commas(ts[1..])
    decreases |ts|
  {
    var n := |ts| - 1;
    if n > 1 {
      CommasFirst(ts[..n]);
      assert ts[..n][1..] == ts[1..][..n - 1];
    }
  }

  function Texts(items: seq<Value>): (ts: seq<string>)
    ensures |ts| == |items| && forall i :: 0 <= i < |items| ==> ts[i] == Print(items[i])
  {
    seq(|items|, i requires 0 <= i < |items| => Print(items[i]))
  }

  function FieldText(f: Field): string { Quote(f.key) + ":" + Print(f.value) }

  function FieldTexts(fs: seq<Field>): (ts: seq<string>)
    ensures |ts| == |fs| && forall i :: 0 <= i < |fs| ==> ts[i] == FieldText(fs[i])
  {
    seq(|fs|, i requires 0 <= i < |fs| => FieldText(fs[i]))
  }

  lemma {:induction false} ItemsJoined(items: seq<Value>)
    requires items != []
    ensures ItemsText(items) == Commas(Texts(items)) + "]"
    decreases |items|
  {
    if |items| > 1 {
      ItemsJoined(items[1..]);
      CommasFirst(Texts(items));
      assert Texts(items)[1..] == Texts(items[1..]);
    }
  }

  lemma Regroup(a: string, b: string, c: string, d: string)
    ensures a + (b + (c + d)) == a + b + c + d
  {
  }

  lemma FieldStep(fs: seq<Field>)
    requires fs != []
    ensures FieldsText(fs) == FieldText(fs[0]) + if |fs| == 1 then "}" else "," + FieldsText(fs[1..])
  {
    var key, value, tail := Quote(fs[0].key), Print(fs[0].value), if |fs| == 1 then "}" else "," + FieldsText(fs[1..]);
    Regroup(key, ":", value, tail);
  }

  lemma {:induction false} FieldsJoined(fs: seq<Field>)
    requires fs != []
    ensures FieldsText(fs) == Commas(FieldTexts(fs)) + "}"
    decreases |fs|
  {
    FieldStep(fs);
    if |fs| > 1 {
      FieldsJoined(fs[1..]);
      CommasFirst(FieldTexts(fs));
      assert FieldTexts(fs)[1..] == FieldTexts(fs[1..]);
      CommaMoves(FieldText(fs[0]), Commas(FieldTexts(fs[1..])));
    }
  }

  lemma CommaMoves(a: string, b: string)
    ensures a + ("," + (b + "}")) == (a + "," + b) + "}"
  {
  }

  /** How each kind of value is written. */
  lemma WritesExactly(v: Value)
    ensures v.JNull? ==> Print(v) == "null"
    ensures v.JBool? ==> Print(v) == if v.b then "true" else "false"
    ensures v.JNum? ==> Print(v) == v.n
    ensures v.JStr? ==> Print(v) == Quote(v.s)
    ensures v.JDate? ==> Print(v) == Quote(v.iso)
    ensures v.JArr? ==> Print(v) == "[" + Commas(Texts(v.items)) + "]"
    ensures v.JObj? ==> Print(v) == "{" + Commas(FieldTexts(v.fields)) + "}"
  {
    if v.JArr? && v.items != [] { ItemsJoined(v.items); }
    if v.JObj? && v.fields != [] { FieldsJoined(v.fields); }
  }

  const NUMBER_CHARS := {'0', '1', '2', '3', '4', '5', '6', '7', '8', '9', '-', '+', '.', 'e'}

  lemma NumberChar(c: char)
    ensures NumChar(c) <==> c in NUMBER_CHARS
    ensures '0' <= c <= '9' <==> c in NUMBER_CHARS && c !in {'-', '+', '.', 'e'}
  {
  }

  /** Texts of numbers start with a digit or a minus and go on with digits, signs, a point and an exponent. */
  lemma NumeralsExactly(s: string)
    ensures IsNumeral(s)
            <==> && s != "" && s[0] in NUMBER_CHARS && s[0] !in {'+', '.', 'e'}
                 && forall c :: c in s ==> c in NUMBER_CHARS
  {
    forall i | 0 <= i < |s| ensures NumChar(s[i]) <==> s[i] in NUMBER_CHARS { NumberChar(s[i]); }
    if s != "" { NumberChar(s[0]); }
  }

  /** The hexadecimal digit of a number below sixteen. */
  predicate HexDigit(c: char, d: int) {
    (d < 10 && c as int == '0' as int + d) || (d >= 10 && c as int == 'a' as int + d - 10)
  }

  /** Quotes and backslashes are written behind a backslash, the common control characters by their letters, the
      other ones by four hexadecimal digits, and all else as it is. */
  lemma EscapesExactly(c: char)
    ensures c == '\"' || c == '\\' ==> Escape(c) == ['\\', c]
    ensures c as int == 8 ==> Escape(c) == ['\\', 'b']
    ensures c as int == 9 ==> Escape(c) == ['\\', 't']
    ensures c as int == 10 ==> Escape(c) == ['\\', 'n']
    ensures c as int == 12 ==> Escape(c) == ['\\', 'f']
    ensures c as int == 13 ==> Escape(c) == ['\\', 'r']
    ensures c as int < 32 && c as int !in {8, 9, 10, 12, 13} ==>
              && |Escape(c)| == 6 && Escape(c)[..4] == ['\\', 'u', '0', '0']
              && HexDigit(Escape(c)[4], c as int / 16) && HexDigit(Escape(c)[5], c as int % 16)
    ensures c as int >= 32 && c != '\"' && c != '\\' ==> Escape(c) == [c]
  {
  }

  /** A text is written between quotes, character by character. */
  lemma QuotesExactly(c: char, s: string)
    ensures Quote("") == "\"\"" && Quote([c] + s) == "\"" + Escape(c) + Quote(s)[1..]
  {
    assert ([c] + s)[1..] == s && Quote(s)[1..] == Chars(s);
  }
}
