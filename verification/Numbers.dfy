/** The machine integers the engine counts in, and sums over finite maps. */
module Numbers {

  const MAX_INT64: int := 0x7fff_ffff_ffff_ffff
  const MIN_INT64: int := -0x8000_0000_0000_0000
  const TWO_64: int := 0x1_0000_0000_0000_0000

  /** Two's-complement reduction: what an int64 variable holds after `x` is stored in it. */
  function Wrap64(x: int): (r: int)
    ensures MIN_INT64 <= r <= MAX_INT64
    ensures MIN_INT64 <= x <= MAX_INT64 ==> r == x
    ensures (r - x) % TWO_64 == 0
  {
    (x - MIN_INT64) % TWO_64 + MIN_INT64
  }

  function Min(a: int, b: int): int {
    if a <= b then a else b
  }

  function Max(a: int, b: int): int {
    if a >= b then a else b
  }

  /** Reading a missing entry of a Go map of numbers yields zero. */
  function Get<K>(m: map<K, int>, k: K): int {
    if k in m then m[k] else 0
  }

  /**
   The sum of a map's values. The definition goes through two intermediate functions so that
   the verifier does not unfold it unasked; `SumPeel` is the way to take an entry out.
   */
  ghost function Sum<K>(m: map<K, int>): int
    decreases |m|, 2
  {
    SumVia(m)
  }

  ghost function SumVia<K>(m: map<K, int>): int
    decreases |m|, 1
  {
    SumByChoice(m)
  }

  ghost function SumByChoice<K>(m: map<K, int>): int
    decreases |m|, 0
  {
    if m == map[] then 0 else
      var k :| k in m;
      m[k] + Sum(m - {k})
  }

  lemma SumEmpty<K>(m: map<K, int>)
    requires m == map[]
    ensures Sum(m) == 0
  {
    assert SumVia(m) == SumByChoice(m);
  }

  /** The sum does not depend on the key it is peeled by. */
  lemma {:induction false} SumPeel<K>(m: map<K, int>, k: K)
    requires k in m
    ensures Sum(m) == m[k] + Sum(m - {k})
    decreases |m|
  {
    assert SumVia(m) == SumByChoice(m);
    var j :| j in m && SumByChoice(m) == m[j] + Sum(m - {j});
    if j != k {
      SumPeel(m - {j}, k);
      SumPeel(m - {k}, j);
      assert m - {j} - {k} == m - {k} - {j};
    }
  }

  lemma SumUpdate<K>(m: map<K, int>, k: K, v: int)
    ensures Sum(m[k := v]) == Sum(m) - Get(m, k) + v
  {
    SumPeel(m[k := v], k);
    if k in m {
      SumPeel(m, k);
      assert m[k := v] - {k} == m - {k};
    } else {
      assert m[k := v] - {k} == m;
    }
  }

  lemma {:induction false} SumOfZeros<K>(m: map<K, int>)
    requires forall k :: k in m ==> m[k] == 0
    ensures Sum(m) == 0
    decreases |m|
  {
    if k :| k in m {
      SumPeel(m, k);
      SumOfZeros(m - {k});
    } else {
      SumEmpty(m);
    }
  }

  /** Pointwise order carries over to sums, strictly so when it is strict somewhere. */
  lemma {:induction false} SumMonotone<K>(a: map<K, int>, b: map<K, int>)
    requires a.Keys == b.Keys
    requires forall k :: k in a ==> a[k] <= b[k]
    ensures Sum(a) <= Sum(b)
    decreases |a|
  {
    if k :| k in a {
      SumPeel(a, k);
      SumPeel(b, k);
      SumMonotone(a - {k}, b - {k});
    } else {
      assert a == b;
    }
  }

  /** Ordered maps with equal sums are equal. */
  lemma EqualSumsEqualMaps<K>(a: map<K, int>, b: map<K, int>, k: K)
    requires a.Keys == b.Keys && k in a
    requires forall j :: j in a ==> a[j] <= b[j]
    requires Sum(a) == Sum(b)
    ensures a[k] == b[k]
  {
    SumPeel(a, k);
    SumPeel(b, k);
    SumMonotone(a - {k}, b - {k});
  }

  ghost function Plus<K>(a: map<K, int>, b: map<K, int>): map<K, int> {
    map k | k in a.Keys + b.Keys :: Get(a, k) + Get(b, k)
  }

  lemma PlusPeel<K>(a: map<K, int>, b: map<K, int>, k: K)
    requires k in b
    ensures Plus(a, b) == Plus(a, b - {k})[k := Get(a, k) + b[k]]
    ensures Get(Plus(a, b - {k}), k) == Get(a, k)
  {
  }

  lemma SumPlusStep<K>(a: map<K, int>, b: map<K, int>, k: K)
    requires k in b
    ensures Sum(Plus(a, b)) == Sum(Plus(a, b - {k})) + b[k]
  {
    PlusPeel(a, b, k);
    SumUpdate(Plus(a, b - {k}), k, Get(a, k) + b[k]);
  }

  lemma {:induction false} SumPlus<K>(a: map<K, int>, b: map<K, int>)
    ensures Sum(Plus(a, b)) == Sum(a) + Sum(b)
    decreases |b|
  {
    if k :| k in b {
      SumPlus(a, b - {k});
      SumPeel(b, k);
      SumPlusStep(a, b, k);
    } else {
      assert Plus(a, b) == a;
      SumEmpty(b);
    }
  }

  /** A transfer: everyone gains, one pays for all. */
  lemma SumTransfer<K>(a: map<K, int>, gains: map<K, int>, k: K)
    ensures Sum(Plus(a, gains)[k := Get(Plus(a, gains), k) - Sum(gains)]) == Sum(a)
  {
    SumPlus(a, gains);
    SumUpdate(Plus(a, gains), k, Get(Plus(a, gains), k) - Sum(gains));
  }

  /** The same transfer between maps over one set of keys, stated pointwise. */
  lemma SumShift<K>(x: map<K, int>, gains: map<K, int>, total: int, k: K, y: map<K, int>)
    requires x.Keys == gains.Keys == y.Keys && k in x
    requires forall j :: j in x ==> y[j] == x[j] + gains[j] - (if j == k then total else 0)
    ensures Sum(y) == Sum(x) + Sum(gains) - total
  {
    var p := Plus(x, gains);
    SumPlus(x, gains);
    SumUpdate(p, k, y[k]);
    assert p[k := y[k]] == y;
  }

  lemma Times(n: int, c: int)
    ensures 0 * c == 0 && (n + 1) * c == n * c + c
  {
  }

  lemma {:induction false} SumOfConstant<K>(m: map<K, int>, n: nat, c: int)
    requires n == |m| && forall k :: k in m ==> m[k] == c
    ensures Sum(m) == n * c
  {
    Times(n - 1, c);
    if k :| k in m {
      SumPeel(m, k);
      SumOfConstant(m - {k}, n - 1, c);
    } else {
      SumEmpty(m);
    }
  }
}
