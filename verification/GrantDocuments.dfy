/** The CemuExtend section of a settings document: what it holds for a grant store, and what a store loads from it. */
module GrantDocuments {
  import opened Options
  import opened NumberText
  import opened XmlTree
  import opened GrantRecords

  /** The four maps of a grant store, the nested ones read by pairs. */
  datatype State = State(grants: map<uint64, TitleGrant>, mods: map<Key, ModGrant>, trust: map<Key, TrustAnchor>,
                         approvals: map<Key, Approval>)

  // ---------------------------------------------------------------------------------------
  // Saving.
  // ---------------------------------------------------------------------------------------

  /** `order` has every key once. */
  ghost predicate Lists<K(!new)>(order: seq<K>, keys: set<K>) {
    && (forall i, j :: 0 <= i < j < |order| ==> order[i] != order[j])
    && (forall k :: k in order <==> k in keys)
  }

  /** The orders in which the unordered maps happened to be walked. */
  datatype Orders = Orders(grants: seq<uint64>, mods: seq<Key>, trust: seq<Key>, approvals: seq<Key>)

  ghost predicate OrdersOf(o: Orders, s: State) {
    Lists(o.grants, s.grants.Keys) && Lists(o.mods, s.mods.Keys) && Lists(o.trust, s.trust.Keys) &&
    Lists(o.approvals, s.approvals.Keys)
  }

  /** The saved form of the entries `order` of `m`. */
  ghost function Saved<K(!new), V(!new)>(order: seq<K>, m: map<K, V>, encode: (K, V) -> Element): (r: seq<Element>)
    requires forall i {:trigger order[i]} :: 0 <= i < |order| ==> order[i] in m
    ensures |r| == |order| && forall i {:trigger order[i]} :: 0 <= i < |r| ==> r[i] == encode(order[i], m[order[i]])
  {
    seq(|order|, i requires 0 <= i < |order| => encode(order[i], m[order[i]]))
  }

  lemma SavedOneMore<K(!new), V(!new)>(order: seq<K>, m: map<K, V>, encode: (K, V) -> Element, k: K)
    requires (forall i {:trigger order[i]} :: 0 <= i < |order| ==> order[i] in m) && k in m
    ensures Saved(order + [k], m, encode) == Saved(order, m, encode) + [encode(k, m[k])]
  {
  }

  /** The children of a saved CemuExtend element. */
  ghost function Section(s: State, o: Orders): seq<Element>
    requires OrdersOf(o, s)
  {
    Saved(o.grants, s.grants, TitleElement) + Saved(o.mods, s.mods, ModElement) +
    Saved(o.trust, s.trust, TrustElement) + Saved(o.approvals, s.approvals, ApprovalElement)
  }

  /** The whole document; `before` and `after` are the settings saved around the section. */
  ghost function Document(before: seq<Element>, section: seq<Element>, after: seq<Element>): seq<Element> {
    [Element("content", map[], before + [Element("CemuExtend", map[], section)] + after)]
  }

  /** What may be saved: every entry once, in whatever order the maps are walked. */
  ghost predicate IsSaved<K(!new), V(!new)>(nodes: seq<Element>, m: map<K, V>, encode: (K, V) -> Element) {
    exists order: seq<K> :: Lists(order, m.Keys) && nodes == Saved(order, m, encode)
  }

  ghost predicate IsSavedDocument(document: seq<Element>, s: State, before: seq<Element>, after: seq<Element>) {
    exists o: Orders :: OrdersOf(o, s) && document == Document(before, Section(s, o), after)
  }

  lemma SectionsTogether(s: State, grants: seq<Element>, mods: seq<Element>, trust: seq<Element>,
                         approvals: seq<Element>, before: seq<Element>, after: seq<Element>)
    requires IsSaved(grants, s.grants, TitleElement) && IsSaved(mods, s.mods, ModElement)
    requires IsSaved(trust, s.trust, TrustElement) && IsSaved(approvals, s.approvals, ApprovalElement)
    ensures IsSavedDocument(Document(before, grants + mods + trust + approvals, after), s, before, after)
  {
    var o0 :| Lists(o0, s.grants.Keys) && grants == Saved(o0, s.grants, TitleElement);
    var o1 :| Lists(o1, s.mods.Keys) && mods == Saved(o1, s.mods, ModElement);
    var o2 :| Lists(o2, s.trust.Keys) && trust == Saved(o2, s.trust, TrustElement);
    var o3 :| Lists(o3, s.approvals.Keys) && approvals == Saved(o3, s.approvals, ApprovalElement);
    hide Lists, Saved, Document, TitleElement, ModElement, TrustElement, ApprovalElement;
    var o := Orders(o0, o1, o2, o3);
    assert OrdersOf(o, s) && Section(s, o) == grants + mods + trust + approvals;
  }

  // ---------------------------------------------------------------------------------------
  // Loading.
  // ---------------------------------------------------------------------------------------

  /** The CemuExtend section of a document: it is looked for inside the content element, or, without one, at the top
      level. Where there is no section, the document's top level is read in its stead. */
  function SectionOf(document: seq<Element>): seq<Element> {
    Children(document, GetChild(document, Find(document, 0, "content"), "CemuExtend"))
  }

  /** Where the section is, spelled out: the first CemuExtend element of the first content element; without a content
      element, the first CemuExtend element at the top; and without that, the top level itself. */
  lemma SectionPlaces(document: seq<Element>, i: nat, j: nat)
    requires i < |document| && document[i].name == "content" && forall k :: 0 <= k < i ==> document[k].name != "content"
    ensures j < |document[i].children| && document[i].children[j].name == "CemuExtend"
            && (forall k :: 0 <= k < j ==> document[i].children[k].name != "CemuExtend") ==>
              SectionOf(document) == document[i].children[j].children
    ensures (forall k :: 0 <= k < |document[i].children| ==> document[i].children[k].name != "CemuExtend") ==>
              SectionOf(document) == document
  {
    assert NextNamed(document, 0, "content") == i;
  }

  lemma SectionPlacesAtTop(document: seq<Element>, j: nat)
    requires forall k :: 0 <= k < |document| ==> document[k].name != "content"
    ensures j < |document| && document[j].name == "CemuExtend"
            && (forall k :: 0 <= k < j ==> document[k].name != "CemuExtend") ==>
              SectionOf(document) == document[j].children
    ensures (forall k :: 0 <= k < |document| ==> document[k].name != "CemuExtend") ==> SectionOf(document) == document
  {
    assert NextNamed(document, 0, "content") == |document|;
  }

  ghost function LoadedSection(section: seq<Element>): State {
    State(Collect(section, DecodeTitle), Collect(section, DecodeMod), Collect(section, DecodeTrust),
          Collect(section, DecodeApproval))
  }

  ghost function Loaded(document: seq<Element>): State { LoadedSection(SectionOf(document)) }

  // ---------------------------------------------------------------------------------------
  // The round trip.
  // ---------------------------------------------------------------------------------------

  /** What a store is after a save and a load. */
  function Normal(s: State): State {
    State(map id | id in s.grants && id != 0 :: s.grants[id],
          map k | k in s.mods && ModKept(k) :: NormalMod(s.mods[k]),
          map k | k in s.trust && TrustKept(k) :: NormalTrust(s.trust[k]),
          map k | k in s.approvals && ApprovalKept(k, s.approvals[k]) :: s.approvals[k])
  }

  /** What Load lets in: titles that are not 0, keys and texts neither empty nor too long, masks of six bits. */
  predicate Storable(s: State) {
    && 0 !in s.grants
    && (forall k :: k in s.mods ==> ModKept(k) && s.mods[k].permissions < 64 && s.mods[k].approvedRequests < 64)
    && (forall k :: k in s.trust ==> TrustKept(k) && s.trust[k].permissions < 64 && s.trust[k].approvedRequests < 64)
    && (forall k :: k in s.approvals ==> ApprovalKept(k, s.approvals[k]))
  }

  ghost predicate Ignored<K(!new), V(!new)>(s: seq<Element>, decode: Element -> Option<(K, V)>) {
    forall i :: 0 <= i < |s| ==> decode(s[i]) == None
  }

  /** A saved map among elements of other kinds loads as its normal form. */
  lemma SavedLoads<K(!new), V(!new)>(before: seq<Element>, order: seq<K>, m: map<K, V>, after: seq<Element>,
                                     encode: (K, V) -> Element, decode: Element -> Option<(K, V)>, normal: map<K, V>)
    requires Lists(order, m.Keys) && Ignored(before, decode) && Ignored(after, decode)
    requires forall k :: k in m ==> decode(encode(k, m[k])) == if k in normal then Some((k, normal[k])) else None
    requires normal.Keys <= m.Keys
    ensures Collect(before + Saved(order, m, encode) + after, decode) == normal
  {
    hide Saved;
    var section := before + Saved(order, m, encode) + after;
    forall i {:trigger order[i]} | 0 <= i < |order|
      ensures decode(section[|before| + i]) == if order[i] in normal then Some((order[i], normal[order[i]])) else None
    {
      assert order[i] in m && section[|before| + i] == Saved(order, m, encode)[i];
    }
    forall j | 0 <= j < |section| && !(|before| <= j < |before| + |order|) ensures decode(section[j]) == None {
      assert section[j] == if j < |before| then before[j] else after[j - |before| - |order|];
    }
    CollectListing(section, |before|, order, normal, decode);
  }

  lemma SavedIgnored<K(!new), V(!new), K'(!new), V'(!new)>(
      order: seq<K>, m: map<K, V>, encode: (K, V) -> Element, decode: Element -> Option<(K', V')>)
    requires Lists(order, m.Keys) && forall k, v :: decode(encode(k, v)) == None
    ensures Ignored(Saved(order, m, encode), decode)
  {
  }

  lemma IgnoredTogether<K(!new), V(!new)>(a: seq<Element>, b: seq<Element>, decode: Element -> Option<(K, V)>)
    requires Ignored(a, decode) && Ignored(b, decode)
    ensures Ignored(a + b, decode)
  {
  }

  /** No kind of record loads an element of another kind. */
  lemma KindsDiffer()
    ensures forall k, v {:trigger TitleElement(k, v)} :: DecodeMod(TitleElement(k, v)) == None
    ensures forall k, v {:trigger TitleElement(k, v)} :: DecodeTrust(TitleElement(k, v)) == None
    ensures forall k, v {:trigger TitleElement(k, v)} :: DecodeApproval(TitleElement(k, v)) == None
    ensures forall k, v {:trigger ModElement(k, v)} :: DecodeTitle(ModElement(k, v)) == None
    ensures forall k, v {:trigger ModElement(k, v)} :: DecodeTrust(ModElement(k, v)) == None
    ensures forall k, v {:trigger ModElement(k, v)} :: DecodeApproval(ModElement(k, v)) == None
    ensures forall k, v {:trigger TrustElement(k, v)} :: DecodeTitle(TrustElement(k, v)) == None
    ensures forall k, v {:trigger TrustElement(k, v)} :: DecodeMod(TrustElement(k, v)) == None
    ensures forall k, v {:trigger TrustElement(k, v)} :: DecodeApproval(TrustElement(k, v)) == None
    ensures forall k, v {:trigger ApprovalElement(k, v)} :: DecodeTitle(ApprovalElement(k, v)) == None
    ensures forall k, v {:trigger ApprovalElement(k, v)} :: DecodeMod(ApprovalElement(k, v)) == None
    ensures forall k, v {:trigger ApprovalElement(k, v)} :: DecodeTrust(ApprovalElement(k, v)) == None
  {
    hide Uint64Attribute, Uint32Attribute, BoolAttribute, TextAttribute;
  }

  lemma GrantsLoad(s: State, o: Orders)
    requires OrdersOf(o, s)
    ensures Collect(Section(s, o), DecodeTitle) == Normal(s).grants
  {
    KindsDiffer();
    hide TitleElement, ModElement, TrustElement, ApprovalElement, DecodeTitle, DecodeMod, DecodeTrust, DecodeApproval;
    var a, b := Saved(o.grants, s.grants, TitleElement), Saved(o.mods, s.mods, ModElement);
    var c, d := Saved(o.trust, s.trust, TrustElement), Saved(o.approvals, s.approvals, ApprovalElement);
    SavedIgnored(o.mods, s.mods, ModElement, DecodeTitle);
    SavedIgnored(o.trust, s.trust, TrustElement, DecodeTitle);
    SavedIgnored(o.approvals, s.approvals, ApprovalElement, DecodeTitle);
    IgnoredTogether(b, c, DecodeTitle);
    IgnoredTogether(b + c, d, DecodeTitle);
    assert Section(s, o) == a + (b + c + d);
    GrantsFirst(s, o.grants, b + c + d);
  }

  lemma GrantsFirst(s: State, order: seq<uint64>, rest: seq<Element>)
    requires Lists(order, s.grants.Keys) && Ignored(rest, DecodeTitle)
    ensures Collect(Saved(order, s.grants, TitleElement) + rest, DecodeTitle) == Normal(s).grants
  {
    hide Saved, Normal, TitleElement, DecodeTitle;
    GrantEntries(s);
    var titles := Saved(order, s.grants, TitleElement);
    assert [] + titles + rest == titles + rest;
    SavedLoads([], order, s.grants, rest, TitleElement, DecodeTitle, Normal(s).grants);
  }

  lemma GrantEntries(s: State)
    ensures Normal(s).grants.Keys <= s.grants.Keys
    ensures forall k :: k in s.grants ==>
              DecodeTitle(TitleElement(k, s.grants[k])) ==
              if k in Normal(s).grants then Some((k, Normal(s).grants[k])) else None
  {
    hide TitleElement, DecodeTitle;
    forall k | k in s.grants
      ensures DecodeTitle(TitleElement(k, s.grants[k])) ==
              if k in Normal(s).grants then Some((k, Normal(s).grants[k])) else None
    {
      TitleSurvives(k, s.grants[k]);
    }
  }

  lemma ModsLoad(s: State, o: Orders)
    requires OrdersOf(o, s)
    ensures Collect(Section(s, o), DecodeMod) == Normal(s).mods
  {
    KindsDiffer();
    hide TitleElement, ModElement, TrustElement, ApprovalElement, DecodeTitle, DecodeMod, DecodeTrust, DecodeApproval;
    var a, b := Saved(o.grants, s.grants, TitleElement), Saved(o.mods, s.mods, ModElement);
    var c, d := Saved(o.trust, s.trust, TrustElement), Saved(o.approvals, s.approvals, ApprovalElement);
    SavedIgnored(o.grants, s.grants, TitleElement, DecodeMod);
    SavedIgnored(o.trust, s.trust, TrustElement, DecodeMod);
    SavedIgnored(o.approvals, s.approvals, ApprovalElement, DecodeMod);
    IgnoredTogether(c, d, DecodeMod);
    hide Saved, Ignored;
    forall k | k in s.mods
      ensures DecodeMod(ModElement(k, s.mods[k])) ==
              if k in Normal(s).mods then Some((k, Normal(s).mods[k])) else None
    {
      ModSurvives(k, s.mods[k]);
    }
    assert Section(s, o) == a + b + (c + d);
    SavedLoads(a, o.mods, s.mods, c + d, ModElement, DecodeMod, Normal(s).mods);
  }

  lemma TrustLoads(s: State, o: Orders)
    requires OrdersOf(o, s)
    ensures Collect(Section(s, o), DecodeTrust) == Normal(s).trust
  {
    KindsDiffer();
    hide TitleElement, ModElement, TrustElement, ApprovalElement, DecodeTitle, DecodeMod, DecodeTrust, DecodeApproval;
    var a, b := Saved(o.grants, s.grants, TitleElement), Saved(o.mods, s.mods, ModElement);
    var c, d := Saved(o.trust, s.trust, TrustElement), Saved(o.approvals, s.approvals, ApprovalElement);
    SavedIgnored(o.grants, s.grants, TitleElement, DecodeTrust);
    SavedIgnored(o.mods, s.mods, ModElement, DecodeTrust);
    SavedIgnored(o.approvals, s.approvals, ApprovalElement, DecodeTrust);
    IgnoredTogether(a, b, DecodeTrust);
    hide Saved, Ignored;
    forall k | k in s.trust
      ensures DecodeTrust(TrustElement(k, s.trust[k])) ==
              if k in Normal(s).trust then Some((k, Normal(s).trust[k])) else None
    {
      TrustSurvives(k, s.trust[k]);
    }
    assert Section(s, o) == (a + b) + c + d;
    SavedLoads(a + b, o.trust, s.trust, d, TrustElement, DecodeTrust, Normal(s).trust);
  }

  lemma ApprovalsLoad(s: State, o: Orders)
    requires OrdersOf(o, s)
    ensures Collect(Section(s, o), DecodeApproval) == Normal(s).approvals
  {
    KindsDiffer();
    hide TitleElement, ModElement, TrustElement, ApprovalElement, DecodeTitle, DecodeMod, DecodeTrust, DecodeApproval;
    var a, b := Saved(o.grants, s.grants, TitleElement), Saved(o.mods, s.mods, ModElement);
    var c, d := Saved(o.trust, s.trust, TrustElement), Saved(o.approvals, s.approvals, ApprovalElement);
    SavedIgnored(o.grants, s.grants, TitleElement, DecodeApproval);
    SavedIgnored(o.mods, s.mods, ModElement, DecodeApproval);
    SavedIgnored(o.trust, s.trust, TrustElement, DecodeApproval);
    IgnoredTogether(a, b, DecodeApproval);
    IgnoredTogether(a + b, c, DecodeApproval);
    assert Ignored([], DecodeApproval);
    hide Saved, Ignored;
    forall k | k in s.approvals
      ensures DecodeApproval(ApprovalElement(k, s.approvals[k])) ==
              if k in Normal(s).approvals then Some((k, Normal(s).approvals[k])) else None
    {
      ApprovalSurvives(k, s.approvals[k]);
    }
    assert Section(s, o) == (a + b + c) + d + [];
    SavedLoads(a + b + c, o.approvals, s.approvals, [], ApprovalElement, DecodeApproval, Normal(s).approvals);
  }

  /** The section is found again in the document it was saved to. */
  lemma SectionIsFound(before: seq<Element>, section: seq<Element>, after: seq<Element>)
    requires forall i :: 0 <= i < |before| ==> before[i].name != "CemuExtend"
    ensures SectionOf(Document(before, section, after)) == section
  {
    var document, bridge := Document(before, section, after), Element("CemuExtend", map[], section);
    var children := before + [bridge] + after;
    assert document[0].name == "content" && NextNamed(document, 0, "content") == 0;
    assert children[|before|] == bridge;
    assert NextNamed(children, 0, "CemuExtend") == |before|;
  }

  /** Load after Save: whatever order the maps were walked in, the four maps come back in normal form. */
  lemma LoadAfterSave(document: seq<Element>, s: State, before: seq<Element>, after: seq<Element>)
    requires IsSavedDocument(document, s, before, after)
    requires forall i :: 0 <= i < |before| ==> before[i].name != "CemuExtend"
    ensures Loaded(document) == Normal(s)
  {
    var o :| OrdersOf(o, s) && document == Document(before, Section(s, o), after);
    SectionIsFound(before, Section(s, o), after);
    hide Section, Document, SectionOf, Collect, Normal, OrdersOf;
    GrantsLoad(s, o);
    ModsLoad(s, o);
    TrustLoads(s, o);
    ApprovalsLoad(s, o);
  }

  /** Nothing is lost exactly when Load's own rules hold of every entry. */
  lemma LosslessIff(s: State)
    ensures Normal(s) == s <==> Storable(s)
  {
    var n := Normal(s);
    if n == s {
      assert 0 !in n.grants;
      forall k | k in s.mods ensures ModKept(k) && s.mods[k].permissions < 64 && s.mods[k].approvedRequests < 64 {
        assert k in n.mods;
      }
      forall k | k in s.trust ensures TrustKept(k) && s.trust[k].permissions < 64 && s.trust[k].approvedRequests < 64 {
        assert k in n.trust;
      }
      forall k | k in s.approvals ensures ApprovalKept(k, s.approvals[k]) {
        assert k in n.approvals;
      }
    }
    assert Storable(s) ==> n.grants == s.grants && n.mods == s.mods;
    assert Storable(s) ==> n.trust == s.trust && n.approvals == s.approvals;
  }

  lemma NormalIsStorable(s: State)
    ensures Storable(Normal(s))
  {
  }

  lemma {:induction false} CollectedEntry<K(!new), V(!new)>(s: seq<Element>, decode: Element -> Option<(K, V)>, k: K)
    returns (i: nat)
    requires k in Collect(s, decode)
    ensures i < |s| && decode(s[i]) == Some((k, Collect(s, decode)[k]))
  {
    var n := |s| - 1;
    if decode(s[n]).Some? && decode(s[n]).value.0 == k {
      i := n;
    } else {
      i := CollectedEntry(s[..n], decode, k);
    }
  }

  /** Whatever the document, foreign or damaged, what was loaded from it is storable. */
  lemma LoadedIsStorable(section: seq<Element>)
    ensures Storable(LoadedSection(section))
  {
    hide Collect, DecodeTitle, DecodeMod, DecodeTrust, DecodeApproval;
    var s := LoadedSection(section);
    if 0 in s.grants {
      var i := CollectedEntry(section, DecodeTitle, 0);
      DecodedIsKept(section[i]);
    }
    forall k | k in s.mods ensures ModKept(k) && s.mods[k].permissions < 64 && s.mods[k].approvedRequests < 64 {
      var i := CollectedEntry(section, DecodeMod, k);
      DecodedIsKept(section[i]);
    }
    forall k | k in s.trust ensures TrustKept(k) && s.trust[k].permissions < 64 && s.trust[k].approvedRequests < 64 {
      var i := CollectedEntry(section, DecodeTrust, k);
      DecodedIsKept(section[i]);
    }
    forall k | k in s.approvals ensures ApprovalKept(k, s.approvals[k]) {
      var i := CollectedEntry(section, DecodeApproval, k);
      DecodedIsKept(section[i]);
    }
  }

  lemma DecodedIsKept(e: Element)
    ensures DecodeTitle(e).Some? ==> DecodeTitle(e).value.0 != 0
    ensures DecodeMod(e).Some? ==>
              var (k, g) := DecodeMod(e).value; ModKept(k) && g.permissions < 64 && g.approvedRequests < 64
    ensures DecodeTrust(e).Some? ==>
              var (k, a) := DecodeTrust(e).value; TrustKept(k) && a.permissions < 64 && a.approvedRequests < 64
    ensures DecodeApproval(e).Some? ==> var (k, a) := DecodeApproval(e).value; ApprovalKept(k, a)
  {
    hide Uint64Attribute, Uint32Attribute, BoolAttribute, TextAttribute;
  }

  /** One load settles the settings: saving them and loading again, any number of times, changes nothing more. */
  lemma LoadSettles(document: seq<Element>, again: seq<Element>, before: seq<Element>, after: seq<Element>)
    requires IsSavedDocument(again, Loaded(document), before, after)
    requires forall i :: 0 <= i < |before| ==> before[i].name != "CemuExtend"
    ensures Loaded(again) == Loaded(document)
  {
    hide SectionOf, LoadedSection, Normal, IsSavedDocument, Storable;
    LoadAfterSave(again, Loaded(document), before, after);
    LoadedIsStorable(SectionOf(document));
    LosslessIff(Loaded(document));
  }
}
