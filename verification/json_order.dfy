/**
 * The order in which a JavaScript object built from sorted keys enumerates them: array-index keys
 * first, by value, then the other keys by UTF-16 code units (section 10.1.11.1 of ECMA-262).
 */
module KeyOrder {
  import opened Common

  /** Where a character sorts among UTF-16 code units: characters outside the basic plane start with a
      surrogate and so come before U+E000..U+FFFF. */
  function Weight(c: char): int {
    if 0xE000 <= c as int < 0x10000 then c as int + 0x110000 else c as int
  }

  predicate TextLess(a: string, b: string)
    decreases |a|
  {
    if b == "" then false
    else if a == "" then true
    else if a[0] == b[0] then TextLess(a[1..], b[1..])
    else Weight(a[0]) < Weight(b[0])
  }

  /** A canonical decimal below 2^32 - 1. */
  predicate IsIndex(s: string) {
    && s != "" && Digits(s, 0, |s|) && (s[0] == '0' ==> |s| == 1)
    && (|s| < 10 || (|s| == 10 && !TextLess("4294967294", s)))
  }

  predicate KeyLess(a: string, b: string) {
    if IsIndex(a) != IsIndex(b) then IsIndex(a)
    else if IsIndex(a) && |a| != |b| then |a| < |b|
    else TextLess(a, b)
  }

  lemma {:induction false} TextLessTransitive(a: string, b: string, c: string)
    requires TextLess(a, b) && TextLess(b, c)
    ensures TextLess(a, c)
    decreases |a|
  {
    if a == "" || a[0] != b[0] || b[0] != c[0] {
    } else {
      TextLessTransitive(a[1..], b[1..], c[1..]);
    }
  }

  lemma {:induction false} TextLessTotal(a: string, b: string)
    ensures a == b || TextLess(a, b) || TextLess(b, a)
    ensures !(TextLess(a, b) && TextLess(b, a)) && !TextLess(a, a)
    decreases |a|
  {
    if a == "" {
    } else {
      TextLessTotal(a[1..], a[1..]);
      if b != "" && a[0] == b[0] {
        TextLessTotal(a[1..], b[1..]);
        assert a == [a[0]] + a[1..] && b == [b[0]] + b[1..];
      }
    }
  }

  /** Keys are strictly and totally ordered. */
  lemma KeyOrderTotal(a: string, b: string)
    ensures a == b || KeyLess(a, b) || KeyLess(b, a)
    ensures !(KeyLess(a, b) && KeyLess(b, a)) && !KeyLess(a, a)
  {
    TextLessTotal(a, b);
    TextLessTotal(a, a);
  }

  lemma KeyOrderTransitive(a: string, b: string, c: string)
    requires KeyLess(a, b) && KeyLess(b, c)
    ensures KeyLess(a, c)
  {
    if TextLess(a, b) && TextLess(b, c) { TextLessTransitive(a, b, c); }
  }
}
