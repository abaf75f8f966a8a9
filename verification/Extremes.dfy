/** The largest and the smallest key of a map. */
module Extremes {

  lemma Inhabited<V>(m: map<real, V>)
    requires m != map[]
    ensures exists k :: k in m
  {
    var item :| item in m.Items;
    var (k, v) := item;
    assert m[k] == v;
  }

  ghost predicate IsMax(keys: set<real>, k: real) { k in keys && forall other | other in keys :: other <= k }

  lemma MaxExists(keys: set<real>, seed: real)
    requires seed in keys
    ensures exists k :: IsMax(keys, k)
    decreases keys
  {
    if !IsMax(keys, seed) {
      var higher := set k | k in keys && k > seed;
      assert seed !in higher;
      var next :| next in keys && next > seed;
      MaxExists(higher, next);
      var k :| IsMax(higher, k);
      forall other | other in keys ensures other <= k { assert next <= k && (other in higher || other <= seed); }
      assert IsMax(keys, k);
    }
  }

  function MaxKey<V>(m: map<real, V>): (k: real)
    requires m != map[]
    ensures IsMax(m.Keys, k)
  {
    assert exists k :: IsMax(m.Keys, k) by {
      Inhabited(m);
      var seed :| seed in m;
      MaxExists(m.Keys, seed);
    }
    var k :| k in m.Keys && forall other | other in m.Keys :: other <= k;
    k
  }

  ghost predicate IsMin(keys: set<real>, k: real) { k in keys && forall other | other in keys :: other >= k }

  lemma MinExists(keys: set<real>, seed: real)
    requires seed in keys
    ensures exists k :: IsMin(keys, k)
    decreases keys
  {
    if !IsMin(keys, seed) {
      var lower := set k | k in keys && k < seed;
      assert seed !in lower;
      var next :| next in keys && next < seed;
      MinExists(lower, next);
      var k :| IsMin(lower, k);
      forall other | other in keys ensures other >= k { assert next >= k && (other in lower || other >= seed); }
      assert IsMin(keys, k);
    }
  }

  function MinKey<V>(m: map<real, V>): (k: real)
    requires m != map[]
    ensures IsMin(m.Keys, k)
  {
    assert exists k :: IsMin(m.Keys, k) by {
      Inhabited(m);
      var seed :| seed in m;
      MinExists(m.Keys, seed);
    }
    var k :| k in m.Keys && forall other | other in m.Keys :: other >= k;
    k
  }
}
