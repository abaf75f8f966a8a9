/** Sums over finitely many entries of a map, taken in any order. */
module Sums {

  lemma Pick<K>(keys: set<K>) returns (k: K)
    requires keys != {}
    ensures k in keys
  {
    k :| k in keys;
  }

  ghost function Sum<K>(values: map<K, real>, keys: set<K>): real
    requires keys <= values.Keys
  {
    if keys == {} then 0.0
    else
      var k :| k in keys;
      values[k] + Sum(values, keys - {k})
  }

  ghost predicate NonNegative<K>(values: map<K, real>) { forall k | k in values :: values[k] >= 0.0 }

  lemma {:induction false} SumTake<K>(values: map<K, real>, keys: set<K>, k: K)
    requires keys <= values.Keys && k in keys
    ensures Sum(values, keys) == values[k] + Sum(values, keys - {k})
    decreases keys
  {
    var chosen :| chosen in keys && Sum(values, keys) == values[chosen] + Sum(values, keys - {chosen});
    if chosen != k {
      SumTake(values, keys - {chosen}, k);
      SumTake(values, keys - {k}, chosen);
      assert keys - {chosen} - {k} == keys - {k} - {chosen};
    }
  }

  lemma SumPut<K>(values: map<K, real>, keys: set<K>, k: K)
    requires keys <= values.Keys && k in values && k !in keys
    ensures Sum(values, keys + {k}) == Sum(values, keys) + values[k]
  {
    SumTake(values, keys + {k}, k);
    assert keys + {k} - {k} == keys;
  }

  lemma {:induction false} SumElsewhere<K>(values: map<K, real>, other: map<K, real>, keys: set<K>)
    requires keys <= values.Keys && keys <= other.Keys && forall k | k in keys :: values[k] == other[k]
    ensures Sum(values, keys) == Sum(other, keys)
    decreases keys
  {
    if keys != {} {
      var k := Pick(keys);
      SumTake(values, keys, k);
      SumTake(other, keys, k);
      SumElsewhere(values, other, keys - {k});
    }
  }

  lemma {:induction false} SumNonNegative<K>(values: map<K, real>, keys: set<K>)
    requires keys <= values.Keys && NonNegative(values)
    ensures Sum(values, keys) >= 0.0
    decreases keys
  {
    if keys != {} {
      var k := Pick(keys);
      SumTake(values, keys, k);
      SumNonNegative(values, keys - {k});
    }
  }

  lemma {:induction false} SumSplit<K>(values: map<K, real>, a: set<K>, b: set<K>)
    requires a <= values.Keys && b <= values.Keys && a !! b
    ensures Sum(values, a + b) == Sum(values, a) + Sum(values, b)
    decreases b
  {
    if b == {} {
      assert a + b == a;
    } else {
      var k := Pick(b);
      SumTake(values, b, k);
      SumSplit(values, a, b - {k});
      SumPut(values, a + (b - {k}), k);
      assert a + (b - {k}) + {k} == a + b;
    }
  }

  lemma SumSubset<K>(values: map<K, real>, small: set<K>, large: set<K>)
    requires small <= large <= values.Keys && NonNegative(values)
    ensures Sum(values, small) <= Sum(values, large)
  {
    SumSplit(values, small, large - small);
    SumNonNegative(values, large - small);
    assert small + (large - small) == large;
  }
}
