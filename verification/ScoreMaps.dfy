/** Dictionaries of scores that read as 0 where they have no entry, and their sums. */
module ScoreMaps {
  import CD = ContestData

  function At<K>(m: map<K, real>, k: K): real {
    if k in m then m[k] else 0.0
  }

  ghost function Sum<K>(m: map<K, real>): real
    decreases |m|
  {
    if m == map[] then 0.0
    else
      var k :| k in m;
      m[k] + Sum(m - {k})
  }

  lemma {:induction false} SumPick<K>(m: map<K, real>, k: K)
    requires k in m
    ensures Sum(m) == m[k] + Sum(m - {k})
    decreases |m|
  {
    var c :| c in m && Sum(m) == m[c] + Sum(m - {c});
    if c != k {
      SumPick(m - {c}, k);
      SumPick(m - {k}, c);
      assert m - {c} - {k} == m - {k} - {c};
    }
  }

  lemma SumSplit<K>(m: map<K, real>, k: K)
    ensures Sum(m) == At(m, k) + Sum(m - {k})
  {
    if k in m {
      SumPick(m, k);
    } else {
      assert m - {k} == m;
    }
  }

  /** Entrywise larger dictionaries have larger sums; missing entries count as 0. */
  lemma {:induction false} SumMonotone<K(!new)>(a: map<K, real>, b: map<K, real>)
    requires forall k :: At(a, k) <= At(b, k)
    ensures Sum(a) <= Sum(b)
    decreases |a| + |b|
  {
    if a != map[] || b != map[] {
      var k: K;
      if a != map[] {
        k :| k in a;
      } else {
        k :| k in b;
      }
      SumSplit(a, k);
      SumSplit(b, k);
      var a', b' := a - {k}, b - {k};
      assert |a'| + |b'| < |a| + |b|;
      forall x
        ensures At(a', x) <= At(b', x)
      {
        assert At(a, x) <= At(b, x);
      }
      SumMonotone(a', b');
    }
  }

  /** Entrywise sums of dictionaries with the same keys add up. */
  lemma {:induction false} SumAdd<K>(a: map<K, real>, b: map<K, real>, c: map<K, real>)
    requires a.Keys == b.Keys == c.Keys
    requires forall k <- a :: a[k] + b[k] == c[k]
    ensures Sum(a) + Sum(b) == Sum(c)
    decreases |c|
  {
    if c == map[] {
      assert a == b == map[];
    } else {
      var k :| k in c;
      SumPick(a, k);
      SumPick(b, k);
      SumPick(c, k);
      SumAdd(a - {k}, b - {k}, c - {k});
    }
  }

  lemma SumEqual<K(!new)>(a: map<K, real>, b: map<K, real>)
    requires forall k :: At(a, k) == At(b, k)
    ensures Sum(a) == Sum(b)
  {
    SumMonotone(a, b);
    SumMonotone(b, a);
  }

  lemma {:induction false} SumNonnegative<K(!new)>(m: map<K, real>)
    requires forall k :: 0.0 <= At(m, k)
    ensures 0.0 <= Sum(m)
  {
    SumMonotone(map[], m);
  }

  ghost predicate IsKey<T, K(!new)>(items: seq<T>, key: T -> K, k: K) {
    exists i :: 0 <= i < |items| && key(items[i]) == k
  }

  /** A dictionary filled from items with distinct keys sums to the sum over the items. */
  lemma {:induction false} SumOfItems<T, K(!new)>(items: seq<T>, key: T -> K, value: T -> real, m: map<K, real>)
    requires forall i, j :: 0 <= i < j < |items| ==> key(items[i]) != key(items[j])
    requires forall i :: 0 <= i < |items| ==> At(m, key(items[i])) == value(items[i])
    requires forall k :: At(m, k) == 0.0 || IsKey(items, key, k)
    ensures Sum(m) == CD.Sum(items, value)
  {
    if items == [] {
      var none: map<K, real> := map[];
      forall k
        ensures At(m, k) == At(none, k)
      {
        assert At(m, k) == 0.0 || IsKey(items, key, k);
      }
      SumEqual(m, none);
    } else {
      var k0, rest := key(items[0]), m - {key(items[0])};
      SumSplit(m, k0);
      forall k
        ensures At(rest, k) == 0.0 || IsKey(items[1..], key, k)
      {
        if k != k0 && At(m, k) != 0.0 {
          var i :| 0 <= i < |items| && key(items[i]) == k;
          assert items[1..][i - 1] == items[i];
        }
      }
      SumOfItems(items[1..], key, value, rest);
    }
  }

  predicate Adds(f: real -> real, x: real, y: real) { f(x + y) == f(x) + f(y) }

  ghost predicate Additive(f: real -> real) {
    f(0.0) == 0.0 && forall x, y :: Adds(f, x, y)
  }

  lemma MappedStep(f: real -> real, x: real, y: real)
    requires Additive(f)
    ensures f(x + y) == f(x) + f(y)
  {
    assert Adds(f, x, y);
  }

  /** What respects addition may be done to the entries or to their sum. */
  lemma {:induction false} SumMapped<K>(a: map<K, real>, b: map<K, real>, f: real -> real)
    requires Additive(f)
    requires a.Keys == b.Keys && forall k <- a :: b[k] == f(a[k])
    ensures Sum(b) == f(Sum(a))
    decreases |a|
  {
    if a == map[] {
      assert b == map[];
    } else {
      var k :| k in a;
      var a', b' := a - {k}, b - {k};
      SumMapped(a', b', f);
      SumPick(a, k);
      SumPick(b, k);
      MappedStep(f, a[k], Sum(a'));
    }
  }

  method SumValues<K(==)>(m: map<K, real>) returns (s: real)
    ensures s == Sum(m)
  {
    s := 0.0;
    var rest := m;
    while rest.Keys != {}
      invariant rest.Keys <= m.Keys
      invariant s + Sum(rest) == Sum(m)
      decreases |rest|
    {
      var k :| k in rest.Keys;
      SumPick(rest, k);
      s := s + rest[k];
      rest := rest - {k};
    }
    assert rest == map[];
  }
}
