/**
 * What the SQL statements mean, row by row over whole tables: the reference that the models of single
 * statements, which look rows up by their key, are compared with.
 */
module Sql {
  import opened Prelude

  /** The keys that `WHERE p` selects. */
  ghost function Where<K(!new), V>(m: map<K, V>, p: (K, V) -> bool): set<K> {
    set k | k in m && p(k, m[k])
  }

  /** `SELECT count(*) FROM m WHERE p`, and the rows affected by an update. */
  ghost function Count<K(!new), V>(m: map<K, V>, p: (K, V) -> bool): nat {
    |Where(m, p)|
  }

  /** `UPDATE m SET f WHERE p`. */
  ghost function Update<K(!new), V>(m: map<K, V>, p: (K, V) -> bool, f: V -> V): map<K, V> {
    map k | k in m :: if p(k, m[k]) then f(m[k]) else m[k]
  }

  ghost predicate Hit<K(!new), V>(m: map<K, V>, p: (K, V) -> bool, key: K) {
    key in m && p(key, m[key])
  }

  /** A condition that names the key selects that row or none. */
  lemma ByKey<K(!new), V(!new)>(m: map<K, V>, p: (K, V) -> bool, f: V -> V, key: K)
    requires forall k, v :: p(k, v) ==> k == key
    ensures Count(m, p) == (if Hit(m, p, key) then 1 else 0)
    ensures Update(m, p, f) == if Hit(m, p, key) then m[key := f(m[key])] else m
  {
    if Hit(m, p, key) {
      assert Where(m, p) == {key};
      assert Update(m, p, f) == m[key := f(m[key])];
    } else {
      assert Where(m, p) == {};
      assert Update(m, p, f) == m;
    }
  }

  lemma Nothing<K(!new), V>(m: map<K, V>, p: (K, V) -> bool)
    ensures Count(m, p) == 0 <==> forall k :: k in m ==> !p(k, m[k])
  {
    if Count(m, p) != 0 {
      var k :| k in Where(m, p);
    } else {
      assert forall k :: k in m && p(k, m[k]) ==> k in Where(m, p);
    }
  }
}
