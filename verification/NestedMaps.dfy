/** Maps of maps, as the grant store keeps them by title and then by key, and their flat reading by pairs. */
module NestedMaps {

  ghost predicate NoEmptyInner<T, K, V>(m: map<T, map<K, V>>) { forall t :: t in m ==> |m[t]| > 0 }

  ghost predicate Holds<T, K, V>(m: map<T, map<K, V>>, x: (T, K)) { x.0 in m && x.1 in m[x.0] }

  ghost function Flat<T(!new), K(!new), V>(m: map<T, map<K, V>>): map<(T, K), V> {
    map t, k | t in m && k in m[t] :: (t, k) := m[t][k]
  }

  lemma FlatHolds<T(!new), K(!new), V>(m: map<T, map<K, V>>)
    ensures forall x {:trigger x in Flat(m)} {:trigger Holds(m, x)} :: x in Flat(m) <==> Holds(m, x)
    ensures forall x {:trigger Flat(m)[x]} :: Holds(m, x) ==> Flat(m)[x] == m[x.0][x.1]
  {
    var f := Flat(m);
    forall x ensures x in f <==> Holds(m, x) { assert x == (x.0, x.1); }
    forall x | Holds(m, x) ensures f[x] == m[x.0][x.1] { assert x == (x.0, x.1); }
  }

  lemma FlatOfNothing<T(!new), K(!new), V>(m: map<T, map<K, V>>)
    requires m == map[]
    ensures Flat(m) == map[] && NoEmptyInner(m)
  {
  }

  /** `m[t][k] = v` */
  function Put<T, K, V>(m: map<T, map<K, V>>, t: T, k: K, v: V): map<T, map<K, V>> {
    m[t := (if t in m then m[t] else map[])[k := v]]
  }

  lemma PutFlat<T(!new), K(!new), V>(m: map<T, map<K, V>>, t: T, k: K, v: V)
    requires NoEmptyInner(m)
    ensures NoEmptyInner(Put(m, t, k, v)) && Flat(Put(m, t, k, v)) == Flat(m)[(t, k) := v]
  {
    hide Flat;
    FlatHolds(m);
    FlatHolds(Put(m, t, k, v));
    assert k in Put(m, t, k, v)[t];
    forall x: (T, K)
      ensures Holds(Put(m, t, k, v), x) <==> Holds(m, x) || x == (t, k)
    {
    }
  }

  /** `erase(k)` on a title's map, and with its last key the title goes. */
  ghost predicate Erased<T, K, V>(m: map<T, map<K, V>>, t: T, k: K, r: map<T, map<K, V>>) {
    if t !in m then r == m
    else if m[t] - {k} == map[] then r == m - {t}
    else r == m[t := m[t] - {k}]
  }

  lemma EraseFlat<T(!new), K(!new), V>(m: map<T, map<K, V>>, t: T, k: K, r: map<T, map<K, V>>)
    requires NoEmptyInner(m) && Erased(m, t, k, r)
    ensures NoEmptyInner(r) && Flat(r) == Flat(m) - {(t, k)}
  {
    ErasedNoEmpty(m, t, k, r);
    hide Flat, NoEmptyInner, Erased, Holds;
    forall x: (T, K)
      ensures x in Flat(r) <==> x in Flat(m) && x != (t, k)
      ensures x in Flat(r) ==> Flat(r)[x] == Flat(m)[x]
    {
      FlatHolds(m);
      FlatHolds(r);
      assert x == (x.0, x.1);
      ErasedKeys(m, t, k, r, x.0, x.1);
    }
    OneLess(Flat(m), (t, k), Flat(r));
  }

  lemma ErasedNoEmpty<T, K, V>(m: map<T, map<K, V>>, t: T, k: K, r: map<T, map<K, V>>)
    requires NoEmptyInner(m) && Erased(m, t, k, r)
    ensures NoEmptyInner(r)
  {
  }

  lemma OneLess<X(!new), V>(m: map<X, V>, x: X, r: map<X, V>)
    requires forall y :: y in r <==> y in m && y != x
    requires forall y :: y in r ==> r[y] == m[y]
    ensures r == m - {x}
  {
  }

  lemma ErasedKeys<T, K, V>(m: map<T, map<K, V>>, t: T, k: K, r: map<T, map<K, V>>, t': T, k': K)
    requires Erased(m, t, k, r)
    ensures Holds(r, (t', k')) <==> Holds(m, (t', k')) && (t' != t || k' != k)
    ensures Holds(r, (t', k')) ==> r[t'][k'] == m[t'][k']
  {
    if t in m && t' == t {
      assert k' in m[t] - {k} <==> k' in m[t] && k' != k;
    }
  }

  /** The two statements that erase a key and then the empty map, if it has become so. */
  lemma EraseSteps<T(!new), K(!new), V>(m: map<T, map<K, V>>, t: T, k: K)
    requires NoEmptyInner(m)
    ensures t !in m ==> Flat(m) == Flat(m) - {(t, k)}
    ensures t in m ==>
              var inner := m[t] - {k};
              var r := if |inner| == 0 then m[t := inner] - {t} else m[t := inner];
              NoEmptyInner(r) && Flat(r) == Flat(m) - {(t, k)}
  {
    if t !in m {
      EraseFlat(m, t, k, m);
    } else {
      var inner := m[t] - {k};
      assert m[t := inner] - {t} == m - {t};
      EraseFlat(m, t, k, if |inner| == 0 then m[t := inner] - {t} else m[t := inner]);
    }
  }

  /** Without empty inner maps, the flat reading says everything. */
  lemma FlatDetermines<T(!new), K(!new), V>(a: map<T, map<K, V>>, b: map<T, map<K, V>>)
    requires NoEmptyInner(a) && NoEmptyInner(b) && Flat(a) == Flat(b)
    ensures a == b
  {
    hide Flat, NoEmptyInner, Holds;
    forall t | t in a || t in b ensures t in a && t in b && a[t] == b[t] {
      SameTitle(a, b, t);
      SameTitle(b, a, t);
    }
  }

  lemma SameTitle<T(!new), K(!new), V>(a: map<T, map<K, V>>, b: map<T, map<K, V>>, t: T)
    requires NoEmptyInner(a) && Flat(a) == Flat(b)
    ensures t in a ==> t in b && forall k :: k in a[t] ==> k in b[t] && a[t][k] == b[t][k]
  {
    hide Flat;
    FlatHolds(a);
    FlatHolds(b);
    if t in a {
      assert a[t].Keys != {};
      var k :| k in a[t];
      assert Holds(a, (t, k)) && (t, k) in Flat(a);
      forall k | k in a[t] ensures k in b[t] && a[t][k] == b[t][k] { assert Holds(a, (t, k)) && (t, k) in Flat(a); }
    }
  }
}
