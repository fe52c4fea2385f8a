/** XML documents as trees of named elements with attributes, and the way XMLConfigParser walks and reads them. */
module XmlTree {
  import opened Options
  import opened NumberText

  /** Names are those the program uses; values are C strings. */
  datatype Element = Element(name: string, attributes: map<string, text>, children: seq<Element>)

  /** The first element called `name` at or after place `from` among siblings. */
  function NextNamed(s: seq<Element>, from: nat, name: string): (i: nat)
    requires from <= |s|
    ensures from <= i <= |s| && (i < |s| ==> s[i].name == name)
    ensures forall j :: from <= j < i ==> s[j].name != name
    decreases |s| - from
  {
    if from == |s| || s[from].name == name then from else NextNamed(s, from + 1, name)
  }

  /** The element a parser stands on: one of some siblings, or none. */
  datatype Parser = NoElement | At(siblings: seq<Element>, i: nat) {
    predicate Valid() { At? ==> i < |siblings| }

    function Get(): Element
      requires Valid() && At?
    {
      siblings[i]
    }
  }

  function Find(s: seq<Element>, from: nat, name: string): (p: Parser)
    requires from <= |s|
    ensures p.Valid()
  {
    var i := NextNamed(s, from, name);
    if i < |s| then At(s, i) else NoElement
  }

  /** `parser.get(name)`: on no element, the document's own top-level elements are searched. */
  function GetChild(document: seq<Element>, p: Parser, name: string): (r: Parser)
    requires p.Valid()
    ensures r.Valid()
  {
    Find(Children(document, p), 0, name)
  }

  function Children(document: seq<Element>, p: Parser): seq<Element>
    requires p.Valid()
  {
    if p.At? then p.Get().children else document
  }

  /** `parser.get(name, p)`: the next sibling. */
  function GetNext(p: Parser, name: string): (r: Parser)
    requires p.Valid() && p.At?
    ensures r.Valid()
  {
    Find(p.siblings, p.i + 1, name)
  }

  // ---------------------------------------------------------------------------------------
  // Attributes; 0, "" or false when one is missing or does not parse.
  // ---------------------------------------------------------------------------------------

  function TextAttribute(e: Element, name: string): text {
    if name in e.attributes then e.attributes[name] else ""
  }

  function Uint64Attribute(e: Element, name: string): uint64 {
    if name !in e.attributes then 0
    else
      match ToInt64(e.attributes[name])
      case None => 0
      case Some(n) => AsUnsigned(n)
  }

  function Uint32Attribute(e: Element, name: string): uint32 {
    if name !in e.attributes then 0
    else
      match ToUnsigned(e.attributes[name])
      case None => 0
      case Some(n) => n
  }

  function BoolAttribute(e: Element, name: string): bool {
    if name !in e.attributes then false
    else
      match ToBool(e.attributes[name])
      case None => false
      case Some(b) => b
  }

  /** Attributes that are missing, or whose text is no number or flag, read as 0, "" and false; others as their text says,
      64-bit numbers through their signed form. */
  lemma AttributesRead(e: Element, name: string)
    ensures name !in e.attributes ==>
              TextAttribute(e, name) == "" && Uint64Attribute(e, name) == 0 && Uint32Attribute(e, name) == 0
              && !BoolAttribute(e, name)
    ensures name in e.attributes && ToInt64(e.attributes[name]) == None ==> Uint64Attribute(e, name) == 0
    ensures name in e.attributes && ToUnsigned(e.attributes[name]) == None ==> Uint32Attribute(e, name) == 0
    ensures name in e.attributes && ToBool(e.attributes[name]) == None ==> !BoolAttribute(e, name)
    ensures forall n :: name in e.attributes && ToInt64(e.attributes[name]) == Some(n) ==>
              (Uint64Attribute(e, name) - n) % 0x1_0000_0000_0000_0000 == 0
    ensures forall n :: name in e.attributes && ToUnsigned(e.attributes[name]) == Some(n) ==>
              Uint32Attribute(e, name) == n
    ensures name in e.attributes ==> TextAttribute(e, name) == e.attributes[name]
  {
  }

  // ---------------------------------------------------------------------------------------
  // Reading siblings into a map: those that `decode` accepts are entered in order, later ones over earlier ones.
  // ---------------------------------------------------------------------------------------

  ghost function Collect<K(!new), V(!new)>(s: seq<Element>, decode: Element -> Option<(K, V)>): map<K, V> {
    if s == [] then map[]
    else
      var m, last := Collect(s[..|s| - 1], decode), decode(s[|s| - 1]);
      if last.Some? then m[last.value.0 := last.value.1] else m
  }

  lemma {:induction false} CollectSkips<K(!new), V(!new)>(
      s: seq<Element>, from: nat, to: nat, decode: Element -> Option<(K, V)>)
    requires from <= to <= |s| && forall j :: from <= j < to ==> decode(s[j]) == None
    ensures Collect(s[..to], decode) == Collect(s[..from], decode)
  {
    if from < to {
      CollectSkips(s, from, to - 1, decode);
      assert s[..to][..to - 1] == s[..to - 1];
    }
  }

  lemma CollectNext<K(!new), V(!new)>(s: seq<Element>, i: nat, decode: Element -> Option<(K, V)>)
    requires i < |s|
    ensures var m, next := Collect(s[..i], decode), decode(s[i]);
            Collect(s[..i + 1], decode) == if next.Some? then m[next.value.0 := next.value.1] else m
  {
    assert s[..i + 1][..i] == s[..i];
  }

  /** Elements that decode to the entries `keys` of `m`, all of them, between elements that decode to nothing. */
  lemma {:induction false} CollectListing<K(!new), V(!new)>(
      s: seq<Element>, from: nat, keys: seq<K>, m: map<K, V>, decode: Element -> Option<(K, V)>)
    requires from + |keys| <= |s|
    requires forall j :: 0 <= j < |s| && !(from <= j < from + |keys|) ==> decode(s[j]) == None
    requires forall i {:trigger keys[i]} :: 0 <= i < |keys| ==>
               decode(s[from + i]) == if keys[i] in m then Some((keys[i], m[keys[i]])) else None
    requires forall k :: k in m ==> k in keys
    ensures Collect(s, decode) == m
  {
    CollectSkips(s, 0, from, decode);
    CollectKeys(s, from, keys, |keys|, m, decode);
    CollectSkips(s, from + |keys|, |s|, decode);
    assert s[..|s|] == s && keys[..|keys|] == keys && s[..0] == [];
    assert Collect(s, decode) == Restrict(m, keys);
  }

  ghost function Restrict<K(!new), V(!new)>(m: map<K, V>, keys: seq<K>): map<K, V> {
    map k | k in m && k in keys :: m[k]
  }

  lemma {:induction false} CollectKeys<K(!new), V(!new)>(
      s: seq<Element>, from: nat, keys: seq<K>, n: nat, m: map<K, V>, decode: Element -> Option<(K, V)>)
    requires from + |keys| <= |s| && n <= |keys|
    requires forall i {:trigger keys[i]} :: 0 <= i < |keys| ==>
               decode(s[from + i]) == if keys[i] in m then Some((keys[i], m[keys[i]])) else None
    requires Collect(s[..from], decode) == map[]
    ensures Collect(s[..from + n], decode) == Restrict(m, keys[..n])
  {
    if n > 0 {
      CollectKeys(s, from, keys, n - 1, m, decode);
      CollectNext(s, from + n - 1, decode);
      assert keys[..n] == keys[..n - 1] + [keys[n - 1]];
    }
  }
}
