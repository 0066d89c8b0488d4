/** Sums over sequences and totals over tables: what adding, changing or taking out one term does to
    them, how they compare term by term, and when a sum without positive terms is zero. A total does
    not depend on the order in which the keys of a table are taken. */
module Sums {

  function Sum<T>(s: seq<T>, f: T -> int): int {
    if s == [] then 0 else Sum(s[..|s| - 1], f) + f(s[|s| - 1])
  }

  lemma {:induction false} SumAppend<T>(a: seq<T>, b: seq<T>, f: T -> int)
    ensures Sum(a + b, f) == Sum(a, f) + Sum(b, f)
    decreases |b|
  {
    if b == [] {
      assert a + b == a;
    } else {
      assert (a + b)[..|a + b| - 1] == a + b[..|b| - 1];
      SumAppend(a, b[..|b| - 1], f);
    }
  }

  lemma SumOne<T>(x: T, f: T -> int)
    ensures Sum([x], f) == f(x)
  {
    assert [x][..0] == [];
  }

  lemma SumPair<T>(x: T, y: T, f: T -> int)
    ensures Sum([x] + [y], f) == f(x) + f(y)
  {
    SumAppend([x], [y], f);
    SumOne(x, f);
    SumOne(y, f);
  }

  lemma {:induction false} SumUpdate<T>(s: seq<T>, i: nat, x: T, f: T -> int)
    requires i < |s|
    ensures Sum(s[i := x], f) == Sum(s, f) - f(s[i]) + f(x)
    decreases |s|
  {
    var n := |s| - 1;
    if i == n {
      assert s[i := x][..n] == s[..n];
    } else {
      assert s[i := x][..n] == s[..n][i := x];
      SumUpdate(s[..n], i, x, f);
    }
  }

  lemma {:induction false} SumAtMost<T>(s: seq<T>, f: T -> int, g: T -> int)
    requires forall i :: 0 <= i < |s| ==> f(s[i]) <= g(s[i])
    ensures Sum(s, f) <= Sum(s, g)
    decreases |s|
  {
    if s != [] { SumAtMost(s[..|s| - 1], f, g); }
  }

  lemma {:induction false} SumNonNegative<T>(s: seq<T>, f: T -> int)
    requires forall i :: 0 <= i < |s| ==> f(s[i]) >= 0
    ensures Sum(s, f) >= 0
    decreases |s|
  {
    if s != [] { SumNonNegative(s[..|s| - 1], f); }
  }

  /** A sum without positive terms is zero exactly when every term is. */
  lemma {:induction false} SumNonPositive<T>(s: seq<T>, f: T -> int)
    requires forall i :: 0 <= i < |s| ==> f(s[i]) <= 0
    ensures Sum(s, f) <= 0 && (Sum(s, f) == 0 <==> forall i :: 0 <= i < |s| ==> f(s[i]) == 0)
    decreases |s|
  {
    if s != [] { SumNonPositive(s[..|s| - 1], f); }
  }

  lemma {:induction false} AllZero<T>(s: seq<T>, f: T -> int)
    requires forall k :: 0 <= k < |s| ==> f(s[k]) == 0
    ensures Sum(s, f) == 0
    decreases |s|
  {
    if s != [] { AllZero(s[..|s| - 1], f); }
  }

  lemma {:induction false} SumOfSum<T>(s: seq<T>, f: T -> int, g: T -> int, h: T -> int)
    requires forall i :: 0 <= i < |s| ==> h(s[i]) == f(s[i]) + g(s[i])
    ensures Sum(s, h) == Sum(s, f) + Sum(s, g)
    decreases |s|
  {
    if s != [] { SumOfSum(s[..|s| - 1], f, g, h); }
  }

  ghost function Total<K(!new)>(m: map<K, int>): int
    decreases |m|
  {
    if m == map[] then 0
    else
      var k := SomeKey(m);
      m[k] + Total(m - {k})
  }

  ghost function SomeKey<K(!new)>(m: map<K, int>): (k: K)
    requires m != map[]
    ensures k in m
  {
    HasSomeKey(m);
    var k :| k in m;
    k
  }

  lemma HasSomeKey<K(!new)>(m: map<K, int>)
    ensures m == map[] <==> forall k :: k !in m
  {
    if forall k :: k !in m { assert m == map[]; }
  }

  lemma {:induction false} TotalSplit<K(!new)>(m: map<K, int>, k: K)
    requires k in m
    ensures Total(m) == m[k] + Total(m - {k})
    decreases |m|
  {
    var key := SomeKey(m);
    if key != k {
      TotalSplit(m - {key}, k);
      TotalSplit(m - {k}, key);
      assert m - {key} - {k} == m - {k} - {key};
    }
  }

  lemma {:induction false} TotalPositive<K(!new)>(m: map<K, int>)
    requires forall k :: k in m ==> m[k] > 0
    ensures Total(m) >= |m| && (|m| == 0 ==> Total(m) == 0)
    decreases |m|
  {
    if m != map[] { TotalPositive(m - {SomeKey(m)}); }
  }

  /** What one key adds to the total. */
  lemma WithOne<K(!new)>(m: map<K, int>, k: K)
    ensures Total(m) == Total(m - {k}) + (if k in m then m[k] else 0)
    ensures |m| == |m - {k}| + (if k in m then 1 else 0)
  {
    if k in m {
      TotalSplit(m, k);
      assert (m - {k}).Keys == m.Keys - {k};
    } else {
      assert m - {k} == m;
    }
  }
}
