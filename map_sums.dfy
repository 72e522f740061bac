/**
  Order-independent sums over the entries of a map, the counterpart of the
  stream `reduce` calls that the word matrix and its test perform over Java
  hash maps.  Each sum is defined by removing an arbitrary key; the removal
  lemmas show that the choice of key does not matter, and the methods compute
  the same sums with loops.
*/
module MapSums {

  /** Sum of the integer values of `m`. */
  ghost function SumInt<K>(m: map<K, int>): int
    decreases |m|
  {
    if m == map[] then 0
    else
      var k :| k in m;
      m[k] + SumInt(m - {k})
  }

  /** Any key may be taken out first. */
  lemma {:induction false} SumIntRemove<K>(m: map<K, int>, k: K)
    requires k in m
    ensures SumInt(m) == m[k] + SumInt(m - {k})
    decreases |m|
  {
    var j :| j in m && SumInt(m) == m[j] + SumInt(m - {j});
    if j != k {
      assert (m - {j}) - {k} == (m - {k}) - {j};
      SumIntRemove(m - {j}, k);
      SumIntRemove(m - {k}, j);
    }
  }

  /** Overwriting (or adding) one entry changes the sum by the difference. */
  lemma SumIntUpdate<K>(m: map<K, int>, k: K, v: int)
    ensures SumInt(m[k := v]) == SumInt(m) - (if k in m then m[k] else 0) + v
  {
    var m' := m[k := v];
    SumIntRemove(m', k);
    assert m' - {k} == m - {k};
    if k in m {
      SumIntRemove(m, k);
    } else {
      assert m - {k} == m;
    }
  }

  /** A map of positive values sums to at least the values of any two of its keys. */
  lemma SumIntAtLeastTwo<K>(m: map<K, int>, a: K, b: K)
    requires forall k :: k in m ==> m[k] > 0
    requires a in m && b in m && a != b
    ensures SumInt(m) >= m[a] + m[b]
  {
    SumIntRemove(m, a);
    SumIntRemove(m - {a}, b);
    SumIntNonNegative((m - {a}) - {b});
  }

  lemma {:induction false} SumIntNonNegative<K>(m: map<K, int>)
    requires forall k :: k in m ==> m[k] >= 0
    ensures SumInt(m) >= 0
    decreases |m|
  {
    if m != map[] {
      var k :| k in m;
      SumIntRemove(m, k);
      SumIntNonNegative(m - {k});
    }
  }

  /** The `reduce(0L, Long::sum)` over the values of a map. */
  method SumValues<K>(m: map<K, int>) returns (sum: int)
    ensures sum == SumInt(m)
  {
    sum := 0;
    var rest := m;
    while rest != map[]
      invariant sum + SumInt(rest) == SumInt(m)
      decreases |rest|
    {
      var k :| k in rest;
      SumIntRemove(rest, k);
      sum := sum + rest[k];
      rest := rest - {k};
    }
  }

  /** Sum of `g(key, value)` over the entries of `m`. */
  ghost function MapFold<K, V>(m: map<K, V>, g: (K, V) -> real): real
    decreases |m|
  {
    if m == map[] then 0.0
    else
      var k :| k in m;
      g(k, m[k]) + MapFold(m - {k}, g)
  }

  lemma {:induction false} MapFoldRemove<K, V>(m: map<K, V>, g: (K, V) -> real, k: K)
    requires k in m
    ensures MapFold(m, g) == g(k, m[k]) + MapFold(m - {k}, g)
    decreases |m|
  {
    var j :| j in m && MapFold(m, g) == g(j, m[j]) + MapFold(m - {j}, g);
    if j != k {
      assert (m - {j}) - {k} == (m - {k}) - {j};
      MapFoldRemove(m - {j}, g, k);
      MapFoldRemove(m - {k}, g, j);
    }
  }

  /** `n` copies of `y` added up: a count times a real, written so that the
      inductive proofs below stay linear. */
  function Times(n: nat, y: real): real
  {
    if n == 0 then 0.0 else y + Times(n - 1, y)
  }

  lemma {:induction false} TimesAdd(a: nat, b: nat, y: real)
    ensures Times(a, y) + Times(b, y) == Times(a + b, y)
    decreases a
  {
    if a > 0 {
      TimesAdd(a - 1, b, y);
    }
  }

  lemma {:induction false} TimesIsProduct(n: nat, y: real)
    ensures Times(n, y) == n as real * y
    decreases n
  {
    if n > 0 {
      TimesIsProduct(n - 1, y);
      ProductStep(n - 1, y);
    }
  }

  lemma ProductStep(n: nat, y: real)
    ensures y + n as real * y == (n + 1) as real * y
  {
  }

  /** Folding a term that is the same constant on every entry. */
  lemma {:induction false} MapFoldConstant<K, V>(m: map<K, V>, g: (K, V) -> real, c: real)
    requires forall k :: k in m ==> g(k, m[k]) == c
    ensures MapFold(m, g) == Times(|m|, c)
    decreases |m|
  {
    if m != map[] {
      var k :| k in m;
      MapFoldRemove(m, g, k);
      MapFoldConstant(m - {k}, g, c);
      assert |m - {k}| == |m| - 1;
      assert Times(|m|, c) == c + Times(|m - {k}|, c);
    }
  }

  /** Folding terms that are each `n` copies of `y`, beside the fold of the
      counts `n` themselves: the first is `total` copies of `y` where `total`
      is the second. */
  lemma {:induction false} MapFoldCounted<K, V>(m: map<K, V>, g: (K, V) -> real, h: (K, V) -> real,
                                                n: (K, V) -> nat, y: real)
    returns (total: nat)
    requires forall k :: k in m ==> g(k, m[k]) == Times(n(k, m[k]), y) && h(k, m[k]) == n(k, m[k]) as real
    ensures MapFold(m, g) == Times(total, y) && MapFold(m, h) == total as real
    decreases |m|
  {
    if m == map[] {
      total := 0;
    } else {
      var k :| k in m;
      MapFoldRemove(m, g, k);
      MapFoldRemove(m, h, k);
      var rest := MapFoldCounted(m - {k}, g, h, n, y);
      TimesAdd(n(k, m[k]), rest, y);
      total := n(k, m[k]) + rest;
    }
  }

  /** The fold computed by a loop over the entries. */
  method Fold<K, V>(m: map<K, V>, g: (K, V) -> real) returns (sum: real)
    ensures sum == MapFold(m, g)
  {
    sum := 0.0;
    var rest := m;
    while rest != map[]
      invariant sum + MapFold(rest, g) == MapFold(m, g)
      decreases |rest|
    {
      var k :| k in rest;
      MapFoldRemove(rest, g, k);
      sum := sum + g(k, rest[k]);
      rest := rest - {k};
    }
  }
}
