/** The loops over the grant store's maps and over the elements of a settings section, whatever their types. */
module GrantLoops {
  import opened Options
  import opened NestedMaps
  import opened XmlTree
  import opened GrantDocuments

  // ---------------------------------------------------------------------------------------
  // Walking unordered maps.
  // ---------------------------------------------------------------------------------------

  /** The keys of an unordered map in the order in which it happens to be walked. */
  method WalkOrder<K(!new, ==)>(keys: set<K>) returns (order: seq<K>)
    ensures Lists(order, keys)
  {
    var left := keys;
    order := [];
    while left != {}
      invariant left <= keys && Lists(order, keys - left)
    {
      var k :| k in left;
      order, left := order + [k], left - {k};
    }
  }

  /** The pairs met so far on a walk through a map of maps: those of the first `i` titles, and of the next title the
      first `j` keys. */
  ghost predicate Walked<T(!new), K(!new), V>(
      pairs: seq<(T, K)>, m: map<T, map<K, V>>, titles: seq<T>, i: nat, keys: seq<K>, j: nat)
    requires i <= |titles| && j <= |keys|
  {
    && (forall a, b :: 0 <= a < b < |pairs| ==> pairs[a] != pairs[b])
    && (forall x :: x in pairs <==>
          Holds(m, x) && (x.0 in titles[..i] || (i < |titles| && x.0 == titles[i] && x.1 in keys[..j])))
  }

  lemma NothingWalked<T(!new), K(!new), V>(m: map<T, map<K, V>>, titles: seq<T>)
    ensures Walked([], m, titles, 0, [], 0)
  {
  }

  lemma WalkTitle<T(!new), K(!new), V>(pairs: seq<(T, K)>, m: map<T, map<K, V>>, titles: seq<T>, i: nat, keys: seq<K>)
    requires i < |titles| && Walked(pairs, m, titles, i, [], 0)
    ensures Walked(pairs, m, titles, i, keys, 0)
  {
  }

  lemma WalkKey<T(!new), K(!new), V>(
      pairs: seq<(T, K)>, m: map<T, map<K, V>>, titles: seq<T>, i: nat, keys: seq<K>, j: nat)
    requires i < |titles| && j < |keys| && Walked(pairs, m, titles, i, keys, j)
    requires Lists(titles, m.Keys) && Lists(keys, m[titles[i]].Keys)
    ensures Walked(pairs + [(titles[i], keys[j])], m, titles, i, keys, j + 1)
  {
    var x := (titles[i], keys[j]);
    assert titles[i] in m && keys[j] in m[titles[i]];
    assert titles[i] !in titles[..i] && keys[j] !in keys[..j];
    assert x !in pairs;
    assert keys[..j + 1] == keys[..j] + [keys[j]];
  }

  lemma WalkedTitle<T(!new), K(!new), V>(pairs: seq<(T, K)>, m: map<T, map<K, V>>, titles: seq<T>, i: nat, keys: seq<K>)
    requires i < |titles| && titles[i] in m && Lists(keys, m[titles[i]].Keys)
    requires Walked(pairs, m, titles, i, keys, |keys|)
    ensures Walked(pairs, m, titles, i + 1, [], 0)
  {
    assert keys[..|keys|] == keys && titles[..i + 1] == titles[..i] + [titles[i]];
  }

  lemma AllWalked<T(!new), K(!new), V>(pairs: seq<(T, K)>, m: map<T, map<K, V>>, titles: seq<T>)
    requires Lists(titles, m.Keys) && Walked(pairs, m, titles, |titles|, [], 0)
    ensures Lists(pairs, Flat(m).Keys)
  {
    hide Flat;
    FlatHolds(m);
    assert titles[..|titles|] == titles;
  }

  /** A save that has got as far as that walk: the entries met, in order, are the elements made. */
  ghost predicate SavedSoFar<T(!new), K(!new), V(!new)>(
      nodes: seq<Element>, pairs: seq<(T, K)>, m: map<T, map<K, V>>, titles: seq<T>, i: nat, keys: seq<K>, j: nat,
      encode: ((T, K), V) -> Element)
    requires i <= |titles| && j <= |keys|
  {
    && Walked(pairs, m, titles, i, keys, j)
    && (forall a {:trigger pairs[a]} :: 0 <= a < |pairs| ==> pairs[a] in Flat(m))
    && nodes == Saved(pairs, Flat(m), encode)
  }

  lemma SaveStarts<T(!new), K(!new), V(!new)>(m: map<T, map<K, V>>, titles: seq<T>, encode: ((T, K), V) -> Element)
    ensures SavedSoFar([], [], m, titles, 0, [], 0, encode)
  {
    NothingWalked(m, titles);
    var none: seq<(T, K)> := [];
    assert Saved(none, Flat(m), encode) == [];
  }

  lemma SaveTitle<T(!new), K(!new), V(!new)>(
      nodes: seq<Element>, pairs: seq<(T, K)>, m: map<T, map<K, V>>, titles: seq<T>, i: nat, keys: seq<K>,
      encode: ((T, K), V) -> Element)
    requires i < |titles| && SavedSoFar(nodes, pairs, m, titles, i, [], 0, encode)
    ensures SavedSoFar(nodes, pairs, m, titles, i, keys, 0, encode)
  {
    WalkTitle(pairs, m, titles, i, keys);
  }

  lemma SaveKey<T(!new), K(!new), V(!new)>(
      nodes: seq<Element>, pairs: seq<(T, K)>, m: map<T, map<K, V>>, titles: seq<T>, i: nat, keys: seq<K>, j: nat,
      encode: ((T, K), V) -> Element)
    requires i < |titles| && j < |keys| && SavedSoFar(nodes, pairs, m, titles, i, keys, j, encode)
    requires Lists(titles, m.Keys) && titles[i] in m && Lists(keys, m[titles[i]].Keys) && keys[j] in m[titles[i]]
    ensures var x := (titles[i], keys[j]);
            SavedSoFar(nodes + [encode(x, m[x.0][x.1])], pairs + [x], m, titles, i, keys, j + 1, encode)
  {
    hide Flat, Walked, Saved, Lists;
    var x := (titles[i], keys[j]);
    FlatHolds(m);
    assert Holds(m, x) && x in Flat(m) && Flat(m)[x] == m[x.0][x.1];
    WalkKey(pairs, m, titles, i, keys, j);
    SavedOneMore(pairs, Flat(m), encode, x);
  }

  lemma SavedTitle<T(!new), K(!new), V(!new)>(
      nodes: seq<Element>, pairs: seq<(T, K)>, m: map<T, map<K, V>>, titles: seq<T>, i: nat, keys: seq<K>,
      encode: ((T, K), V) -> Element)
    requires i < |titles| && titles[i] in m && Lists(keys, m[titles[i]].Keys)
    requires SavedSoFar(nodes, pairs, m, titles, i, keys, |keys|, encode)
    ensures SavedSoFar(nodes, pairs, m, titles, i + 1, [], 0, encode)
  {
    WalkedTitle(pairs, m, titles, i, keys);
  }

  lemma AllSaved<T(!new), K(!new), V(!new)>(
      nodes: seq<Element>, pairs: seq<(T, K)>, m: map<T, map<K, V>>, titles: seq<T>, encode: ((T, K), V) -> Element)
    requires Lists(titles, m.Keys) && SavedSoFar(nodes, pairs, m, titles, |titles|, [], 0, encode)
    ensures Lists(pairs, Flat(m).Keys) && nodes == Saved(pairs, Flat(m), encode)
  {
    AllWalked(pairs, m, titles);
  }

  lemma ListedIn<K(!new)>(order: seq<K>, keys: set<K>, i: nat)
    requires Lists(order, keys) && i < |order|
    ensures order[i] in keys
  {
  }

  // ---------------------------------------------------------------------------------------
  // Walking the elements of one name.
  // ---------------------------------------------------------------------------------------

  /** How many siblings lie before the element a parser stands on. */
  function Place(p: Parser, section: seq<Element>): (n: nat)
    requires p.Valid()
  {
    if p.At? then p.i else |section|
  }

  predicate Within(p: Parser, section: seq<Element>) {
    p.Valid() && (p.At? ==> p.siblings == section)
  }

  /** Elements of other names are passed over. */
  lemma FoundNext<K(!new), V(!new)>(section: seq<Element>, from: nat, name: string, decode: Element -> Option<(K, V)>)
    requires from <= |section| && forall e: Element :: e.name != name ==> decode(e) == None
    ensures var p := Find(section, from, name);
            && Within(p, section) && from <= Place(p, section) <= |section|
            && Collect(section[..Place(p, section)], decode) == Collect(section[..from], decode)
  {
    CollectSkips(section, from, NextNamed(section, from, name), decode);
  }

  /** A parser on an element of that name in the section, or past them all. */
  predicate Standing(p: Parser, section: seq<Element>, name: string) {
    Within(p, section) && (p.At? ==> p.Get().name == name)
  }

  /** A load that has got as far as the element a parser stands on. */
  ghost predicate LoadedSoFar<T(!new), K(!new), V(!new)>(
      m: map<T, map<K, V>>, p: Parser, section: seq<Element>, decode: Element -> Option<((T, K), V)>)
  {
    Within(p, section) && NoEmptyInner(m) && Flat(m) == Collect(section[..Place(p, section)], decode)
  }

  lemma LoadStarts<T(!new), K(!new), V(!new)>(
      section: seq<Element>, name: string, decode: Element -> Option<((T, K), V)>)
    requires forall e: Element :: e.name != name ==> decode(e) == None
    ensures LoadedSoFar(map[], Find(section, 0, name), section, decode) && Standing(Find(section, 0, name), section, name)
  {
    FoundNext(section, 0, name, decode);
    var none: map<T, map<K, V>> := map[];
    assert Flat(none) == map[];
  }

  /** An element that decodes to an entry has been entered, one that does not has been left out. */
  lemma LoadGoesOn<T(!new), K(!new), V(!new)>(
      m: map<T, map<K, V>>, p: Parser, section: seq<Element>, name: string, decode: Element -> Option<((T, K), V)>,
      r: map<T, map<K, V>>)
    requires (forall e: Element :: e.name != name ==> decode(e) == None) && p.At? && LoadedSoFar(m, p, section, decode)
    requires match decode(p.Get()) case None => r == m case Some((x, v)) => r == Put(m, x.0, x.1, v)
    ensures LoadedSoFar(r, GetNext(p, name), section, decode) && Standing(GetNext(p, name), section, name)
    ensures Place(p, section) < Place(GetNext(p, name), section) <= |section|
  {
    CollectNext(section, p.i, decode);
    FoundNext(section, p.i + 1, name, decode);
    if decode(p.Get()).Some? {
      var (x, v) := decode(p.Get()).value;
      PutFlat(m, x.0, x.1, v);
    }
  }

  lemma AllLoaded<T(!new), K(!new), V(!new)>(
      m: map<T, map<K, V>>, section: seq<Element>, decode: Element -> Option<((T, K), V)>)
    requires LoadedSoFar(m, NoElement, section, decode)
    ensures NoEmptyInner(m) && Flat(m) == Collect(section, decode)
  {
    assert section[..|section|] == section;
  }
}
