/**
 * What the order of keys means: texts by their UTF-16 code units, array indices by their value and before all
 * other keys.
 */
module KeyMeaning {
  import opened Common
  import opened KeyOrder

  // ---- texts -------------------------------------------------------------------------------------------

  /** The code units of a character: one in the basic plane, a surrogate pair beyond it. */
  function CharUnits(c: char): seq<int> {
    var n := c as int;
    if n < 0x10000 then [n] else [0xD800 + (n - 0x10000) / 0x400, 0xDC00 + (n - 0x10000) % 0x400]
  }

  function Units(s: string): seq<int> { if s == "" then [] else CharUnits(s[0]) + Units(s[1..]) }

  /** Units compared one by one; a prefix comes first. */
  predicate UnitsLess(a: seq<int>, b: seq<int>) {
    b != [] && (a == [] || a[0] < b[0] || (a[0] == b[0] && UnitsLess(a[1..], b[1..])))
  }

  lemma SamePrefix(p: seq<int>, x: seq<int>, y: seq<int>)
    requires 1 <= |p| <= 2
    ensures UnitsLess(p + x, p + y) <==> UnitsLess(x, y)
  {
    assert (p + x)[1..] == p[1..] + x && (p + y)[1..] == p[1..] + y;
    if |p| == 1 {
      assert p[1..] + x == x && p[1..] + y == y;
    } else {
      var q := p[1..];
      assert (q + x)[1..] == x && (q + y)[1..] == y;
    }
  }

  /** Different characters are told apart by their units, whatever follows. */
  lemma CharsApart(c: char, d: char, x: seq<int>, y: seq<int>)
    requires c != d
    ensures UnitsLess(CharUnits(c) + x, CharUnits(d) + y) <==> Weight(c) < Weight(d)
  {
    var a, b := CharUnits(c) + x, CharUnits(d) + y;
    if a[0] == b[0] {
      assert a[1..][0] == CharUnits(c)[1] && b[1..][0] == CharUnits(d)[1];
    }
  }

  /** Texts are ordered by their code units. */
  lemma {:induction false} TextOrder(a: string, b: string)
    ensures TextLess(a, b) <==> UnitsLess(Units(a), Units(b))
    decreases |a|
  {
    if a == "" || b == "" {
    } else if a[0] == b[0] {
      TextOrder(a[1..], b[1..]);
      SamePrefix(CharUnits(a[0]), Units(a[1..]), Units(b[1..]));
    } else {
      CharsApart(a[0], b[0], Units(a[1..]), Units(b[1..]));
    }
  }

  // ---- array indices -----------------------------------------------------------------------------------

  function Power(n: nat): nat { if n == 0 then 1 else 10 * Power(n - 1) }

  /** The number a text of digits writes. */
  function NumberOf(s: string): nat
    requires Digits(s, 0, |s|)
  {
    if s == "" then 0 else (s[0] as int - '0' as int) * Power(|s| - 1) + NumberOf(s[1..])
  }

  lemma RestDigits(s: string)
    requires s != "" && Digits(s, 0, |s|)
    ensures Digits(s[1..], 0, |s| - 1) && Digit(s[0])
  {
  }

  lemma {:induction false} Times(n: nat, p: nat)
    ensures n >= 1 ==> n * p >= p
  {
    if n <= 1 {
    } else {
      Times(n - 1, p);
      assert n * p == (n - 1) * p + p;
    }
  }

  lemma Scaled(d: int, e: int, p: nat, x: int, y: int)
    requires 0 <= x < p && 0 <= y < p && d < e
    ensures d * p + x < e * p + y
  {
    Times(e - d, p);
    assert e * p == d * p + (e - d) * p;
  }

  lemma {:induction false} NumberBound(s: string)
    requires Digits(s, 0, |s|)
    ensures NumberOf(s) < Power(|s|)
    decreases |s|
  {
    if s == "" {
    } else {
      RestDigits(s);
      NumberBound(s[1..]);
      Scaled(s[0] as int - '0' as int, 10, Power(|s| - 1), NumberOf(s[1..]), 0);
    }
  }

  /** Texts of as many digits are ordered as the numbers they write. */
  lemma {:induction false} SameLength(a: string, b: string)
    requires Digits(a, 0, |a|) && Digits(b, 0, |b|) && |a| == |b|
    ensures TextLess(a, b) <==> NumberOf(a) < NumberOf(b)
    decreases |a|
  {
    if a == "" {
    } else {
      RestDigits(a);
      RestDigits(b);
      NumberBound(a[1..]);
      NumberBound(b[1..]);
      var p, c, d := Power(|a| - 1), a[0] as int - '0' as int, b[0] as int - '0' as int;
      if a[0] == b[0] {
        SameLength(a[1..], b[1..]);
      } else {
        var x, y := NumberOf(a[1..]), NumberOf(b[1..]);
        if c < d { Scaled(c, d, p, x, y); } else { Scaled(d, c, p, y, x); }
      }
    }
  }

  lemma {:induction false} PowerAscends(m: nat, n: nat)
    requires m <= n
    ensures Power(m) <= Power(n)
    decreases n
  {
    if m == n {
    } else {
      PowerAscends(m, n - 1);
    }
  }

  /** Without a leading zero, fewer digits write a smaller number. */
  lemma Shorter(a: string, b: string)
    requires Digits(a, 0, |a|) && Digits(b, 0, |b|) && |a| < |b| && b[0] != '0'
    ensures NumberOf(a) < NumberOf(b)
  {
    NumberBound(a);
    PowerAscends(|a|, |b| - 1);
    RestDigits(b);
    Times(b[0] as int - '0' as int, Power(|b| - 1));
  }

  lemma Powers()
    ensures Power(1) == 10 && Power(2) == 100 && Power(3) == 1000 && Power(4) == 10_000 && Power(5) == 100_000
    ensures Power(6) == 1_000_000 && Power(7) == 10_000_000 && Power(8) == 100_000_000 && Power(9) == 1_000_000_000
    ensures Power(10) == 10_000_000_000
  {
    assert Power(1) == 10 && Power(2) == 100 && Power(3) == 1000 && Power(4) == 10_000 && Power(5) == 100_000;
    assert Power(6) == 1_000_000 && Power(7) == 10_000_000 && Power(8) == 100_000_000 && Power(9) == 1_000_000_000;
  }

  lemma OneMoreDigit(d: char, rest: string)
    requires Digit(d) && Digits(rest, 0, |rest|)
    ensures Digits([d] + rest, 0, |rest| + 1)
    ensures NumberOf([d] + rest) == (d as int - '0' as int) * Power(|rest|) + NumberOf(rest)
  {
    assert ([d] + rest)[1..] == rest;
  }

  lemma LowDigits()
    ensures Digits("67294", 0, 5) && NumberOf("67294") == 67_294
  {
    Powers();
    assert "4"[1..] == "" && "7294" == ['7'] + "294" && "294" == ['2'] + "94" && "94" == ['9'] + "4";
    OneMoreDigit('9', "4");
    OneMoreDigit('2', "94");
    OneMoreDigit('7', "294");
    OneMoreDigit('6', "7294");
    assert "67294" == ['6'] + "7294";
  }

  lemma LargestIndex()
    ensures Digits("4294967294", 0, 10) && NumberOf("4294967294") == 4_294_967_294
  {
    Powers();
    LowDigits();
    OneMoreDigit('9', "67294");
    assert ['9'] + "67294" == "967294";
    OneMoreDigit('4', "967294");
    assert ['4'] + "967294" == "4967294";
    OneMoreDigit('9', "4967294");
    assert ['9'] + "4967294" == "94967294";
    OneMoreDigit('2', "94967294");
    assert ['2'] + "94967294" == "294967294";
    OneMoreDigit('4', "294967294");
    assert ['4'] + "294967294" == "4294967294";
  }

  /** A key is an index exactly when it writes a number below 2^32 - 1 without leading zeros. */
  lemma IndexExactly(s: string)
    ensures IsIndex(s)
            <==> s != "" && Digits(s, 0, |s|) && (s[0] == '0' ==> |s| == 1) && NumberOf(s) < 4_294_967_295
  {
    if s != "" && Digits(s, 0, |s|) && (s[0] == '0' ==> |s| == 1) {
      LargestIndex();
      if |s| == 10 {
        SameLength("4294967294", s);
      } else if |s| < 10 {
        Shorter(s, "4294967294");
      } else {
        Shorter("4294967294", s);
        TenthMore(s);
      }
    }
  }

  lemma TenthMore(s: string)
    requires |s| > 10 && Digits(s, 0, |s|) && s[0] != '0'
    ensures NumberOf(s) >= 10_000_000_000
  {
    Powers();
    PowerAscends(10, |s| - 1);
    RestDigits(s);
    NumberBound(s[1..]);
    Times(s[0] as int - '0' as int, Power(|s| - 1));
  }

  /** Indices come before all other keys and among themselves by their numbers; other keys by their code units. */
  lemma KeyOrderExactly(a: string, b: string)
    ensures IsIndex(a) && IsIndex(b) ==> (KeyLess(a, b) <==> NumberOf(a) < NumberOf(b))
    ensures IsIndex(a) != IsIndex(b) ==> (KeyLess(a, b) <==> IsIndex(a))
    ensures !IsIndex(a) && !IsIndex(b) ==> (KeyLess(a, b) <==> UnitsLess(Units(a), Units(b)))
  {
    TextOrder(a, b);
    if IsIndex(a) && IsIndex(b) {
      if |a| == |b| {
        SameLength(a, b);
      } else if |a| < |b| {
        Shorter(a, b);
      } else {
        Shorter(b, a);
      }
    }
  }
}
