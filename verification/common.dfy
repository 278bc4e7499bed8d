/** Small shared vocabulary: optional values, results, and sums over finite maps. */
module Common {
  datatype Option<+T> = None | Some(value: T)

  datatype Result<+T, +E> = Ok(value: T) | Err(error: E)

  function Or<T>(o: Option<T>, default: T): T { match o case None => default case Some(v) => v }

  ghost predicate NoDuplicates<T>(s: seq<T>) { forall i, j :: 0 <= i < j < |s| ==> s[i] != s[j] }

  predicate Digit(c: char) { '0' <= c <= '9' }

  predicate Digits(s: string, from: nat, to: nat)
    requires from <= to <= |s|
  {
    forall i :: from <= i < to ==> Digit(s[i])
  }

  lemma Pick<T>(s: set<T>) returns (x: T)
    requires s != {}
    ensures x in s
  {
    x :| x in s;
  }

  lemma TakeOut<T>(s: set<T>, rest: set<T>, x: T)
    requires x in rest && rest <= s
    ensures s - (rest - {x}) == (s - rest) + {x} && |rest - {x}| < |rest| && rest - {x} <= s
  {
    assert rest == (rest - {x}) + {x};
  }

  method Any<T(==)>(s: set<T>) returns (x: T)
    requires s != {}
    ensures x in s
  {
    x :| x in s;
  }

  /** The sum of f over the values of a finite map, whatever order they are visited in. */
  ghost function SumOver<K, V>(m: map<K, V>, f: V -> real): real
    decreases m.Keys
  {
    if m == map[] then 0.0 else
      var k :| k in m;
      f(m[k]) + SumOver(m - {k}, f)
  }

  /** Any key may be taken out first. */
  lemma {:induction false} SumPick<K, V>(m: map<K, V>, k: K, f: V -> real)
    requires k in m
    ensures SumOver(m, f) == f(m[k]) + SumOver(m - {k}, f)
    decreases m.Keys
  {
    var j :| j in m && SumOver(m, f) == f(m[j]) + SumOver(m - {j}, f);
    if j == k {
    } else {
      SumPick(m - {j}, k, f);
      SumPick(m - {k}, j, f);
      assert (m - {j}) - {k} == (m - {k}) - {j};
    }
  }

  lemma SumUpdate<K, V>(m: map<K, V>, k: K, v: V, f: V -> real)
    requires k in m
    ensures SumOver(m[k := v], f) == SumOver(m, f) - f(m[k]) + f(v)
  {
    SumPick(m, k, f);
    SumPick(m[k := v], k, f);
    assert m[k := v] - {k} == m - {k};
  }

  lemma SumInsert<K, V>(m: map<K, V>, k: K, v: V, f: V -> real)
    requires k !in m
    ensures SumOver(m[k := v], f) == SumOver(m, f) + f(v)
  {
    SumPick(m[k := v], k, f);
    assert m[k := v] - {k} == m;
  }

  // ---- sums of equal amounts ------------------------------------------------------------------------

  function Repeated(n: nat, x: real): real { if n == 0 then 0.0 else Repeated(n - 1, x) + x }

  lemma {:induction false} RepeatedIs(n: nat, x: real)
    ensures Repeated(n, x) == n as real * x
  {
    if n == 0 {
    } else {
      RepeatedIs(n - 1, x);
    }
  }

  lemma OneLess<K, V>(m: map<K, V>, k: K)
    requires k in m
    ensures |m| == |m - {k}| + 1
  {
    assert (m - {k}).Keys == m.Keys - {k};
    assert |m.Keys| == |m| && |(m - {k}).Keys| == |m - {k}|;
  }

  lemma {:induction false} SumOfAlike<K, V>(m: map<K, V>, f: V -> real, a: real)
    requires forall k :: k in m ==> f(m[k]) == a
    ensures SumOver(m, f) == Repeated(|m|, a)
    decreases m.Keys
  {
    if m == map[] {
    } else {
      var k :| k in m;
      SumPick(m, k, f);
      OneLess(m, k);
      SumOfAlike(m - {k}, f, a);
    }
  }

  // ---- properties of every row of a table ----------------------------------------------------------

  ghost predicate Every<K, V>(m: map<K, V>, p: (K, V) -> bool) { forall k :: k in m ==> p(k, m[k]) }

  lemma EveryUpdate<K, V>(m: map<K, V>, k: K, v: V, p: (K, V) -> bool)
    requires Every(m, p) && p(k, v)
    ensures Every(m[k := v], p)
  {
  }

  /** Every row of one table is in the other, as the relation allows. */
  ghost predicate Kept<K, V>(before: map<K, V>, after: map<K, V>, r: (V, V) -> bool) {
    forall k :: k in before ==> k in after && r(before[k], after[k])
  }

  lemma KeptUpdate<K, V(!new)>(m: map<K, V>, k: K, v: V, r: (V, V) -> bool)
    requires (forall x :: r(x, x)) && (k in m ==> r(m[k], v))
    ensures Kept(m, m[k := v], r)
  {
  }

  lemma KeptTwice<K, V(!new)>(a: map<K, V>, b: map<K, V>, c: map<K, V>, r: (V, V) -> bool)
    requires Kept(a, b, r) && Kept(b, c, r)
    requires forall x, y, z :: r(x, y) && r(y, z) ==> r(x, z)
    ensures Kept(a, c, r)
  {
  }
}
