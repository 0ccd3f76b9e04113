/**
  Listing the values of a map, as `new ArrayList<>(map.values())` and
  `map.values().stream().filter(...)` do. A `HashMap` iterates in an
  unspecified order, so the keys are visited in an arbitrary order and the
  result is described by how often each value occurs in it.
 */
module Enumeration {

  /** The keys of `m` whose value `keep` accepts. */
  ghost function MatchingKeys<K, V>(m: map<K, V>, keep: V -> bool): set<K> {
    set k | k in m && keep(m[k])
  }

  /** The keys under which `m` stores `v`. */
  ghost function KeysHolding<K, V>(m: map<K, V>, v: V): set<K> {
    set k | k in m && m[k] == v
  }

  lemma MatchingKeysAdd<K, V>(m: map<K, V>, keep: V -> bool, k: K, v: V)
    requires k !in m
    ensures MatchingKeys(m[k := v], keep)
         == if keep(v) then MatchingKeys(m, keep) + {k} else MatchingKeys(m, keep)
  {
  }

  lemma KeysHoldingAdd<K, V>(m: map<K, V>, k: K, v: V, w: V)
    requires k !in m
    ensures KeysHolding(m[k := v], w)
         == if v == w then KeysHolding(m, w) + {k} else KeysHolding(m, w)
  {
  }

  /** A value is stored under some key exactly when it is one of the map's values. */
  lemma KeysHoldingNonEmpty<K, V>(m: map<K, V>, v: V)
    ensures |KeysHolding(m, v)| > 0 <==> v in m.Values
  {
    if v in m.Values {
      var k :| k in m && m[k] == v;
      assert k in KeysHolding(m, v);
    }
  }

  /** In a map whose values carry their own key, a value is stored at most once. */
  lemma KeysHoldingOfKeyedMap<K, V>(m: map<K, V>, keyOf: V -> K, v: V)
    requires forall k :: k in m ==> keyOf(m[k]) == k
    ensures |KeysHolding(m, v)| <= 1
  {
    var h := KeysHolding(m, v);
    if h != {} {
      assert h == {keyOf(v)} by {
        forall k | k in h
          ensures k == keyOf(v)
        {
          assert m[k] == v;
        }
      }
    }
  }

  /**
    The values of `m` that `keep` accepts, in some order: each such value
    occurs once per key that holds it, and no other value occurs.
   */
  method FilterValues<K, V>(m: map<K, V>, keep: V -> bool) returns (vs: seq<V>)
    ensures |vs| == |MatchingKeys(m, keep)|
    ensures forall v :: multiset(vs)[v] == if keep(v) then |KeysHolding(m, v)| else 0
  {
    vs := [];
    var todo := m.Keys;
    ghost var done: map<K, V> := map[];
    while todo != {}
      invariant todo <= m.Keys
      invariant done.Keys == m.Keys - todo
      invariant forall j :: j in done ==> done[j] == m[j]
      invariant |vs| == |MatchingKeys(done, keep)|
      invariant forall v :: multiset(vs)[v] == if keep(v) then |KeysHolding(done, v)| else 0
      decreases todo
    {
      var k :| k in todo;
      var v := m[k];
      MatchingKeysAdd(done, keep, k, v);
      forall w
        ensures KeysHolding(done[k := v], w)
             == if v == w then KeysHolding(done, w) + {k} else KeysHolding(done, w)
      {
        KeysHoldingAdd(done, k, v, w);
      }
      if keep(v) {
        vs := vs + [v];
      }
      done := done[k := v];
      todo := todo - {k};
    }
    assert done == m;
  }
}
