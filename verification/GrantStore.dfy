/** CemuConfig's CemuExtend grants: four maps that the interface changes entry by entry, saves as a section of the
    settings document and loads back from it. */
module GrantStore {
  import opened Options
  import opened NumberText
  import opened NestedMaps
  import opened XmlTree
  import opened GrantRecords
  import opened GrantDocuments
  import opened GrantLoops

  class CemuConfig {
    var grants: map<uint64, TitleGrant>
    var modGrants: map<uint64, map<text, ModGrant>>
    var modTrust: map<uint64, map<text, TrustAnchor>>
    var approvals: map<uint64, map<text, Approval>>

    ghost function View(): State
      reads this
    {
      State(grants, Flat(modGrants), Flat(modTrust), Flat(approvals))
    }

    /** No title is left with an empty map. */
    ghost predicate Valid()
      reads this
    {
      NoEmptyInner(modGrants) && NoEmptyInner(modTrust) && NoEmptyInner(approvals)
    }

    constructor ()
      ensures Valid() && View() == State(map[], map[], map[], map[])
    {
      hide Flat, NoEmptyInner;
      grants, modGrants, modTrust, approvals := map[], map[], map[], map[];
      new;
      FlatOfNothing(modGrants);
      FlatOfNothing(modTrust);
      FlatOfNothing(approvals);
    }

    method GetGrant(titleId: uint64) returns (grant: Option<TitleGrant>)
      ensures grant == if titleId in View().grants then Some(View().grants[titleId]) else None
    {
      grant := if titleId in grants then Some(grants[titleId]) else None;
    }

    method SetGrant(titleId: uint64, grant: TitleGrant)
      requires Valid()
      modifies this
      ensures Valid() && View() == old(View()).(grants := old(View()).grants[titleId := grant])
    {
      hide Flat, NoEmptyInner;
      grants := grants[titleId := grant];
    }

    method RemoveGrant(titleId: uint64)
      requires Valid()
      modifies this
      ensures Valid() && View() == old(View()).(grants := old(View()).grants - {titleId})
    {
      hide Flat, NoEmptyInner;
      grants := grants - {titleId};
    }

    method GetModGrant(titleId: uint64, principal: text) returns (found: Option<ModGrant>)
      ensures found == if (titleId, principal) in View().mods then Some(View().mods[(titleId, principal)]) else None
    {
      hide Flat;
      FlatHolds(modGrants);
      assert Holds(modGrants, (titleId, principal)) == (titleId in modGrants && principal in modGrants[titleId]);
      if titleId !in modGrants {
        return None;
      }
      found := if principal in modGrants[titleId] then Some(modGrants[titleId][principal]) else None;
    }

    /** Title 0 and the empty principal are refused. */
    method SetModGrant(titleId: uint64, principal: text, entry: ModGrant)
      requires Valid()
      modifies this
      ensures Valid()
      ensures View() == if titleId == 0 || principal == "" then old(View())
                        else old(View()).(mods := old(View()).mods[(titleId, principal) := entry])
    {
      hide Flat, NoEmptyInner, Put;
      if titleId == 0 || principal == "" {
        return;
      }
      PutFlat(modGrants, titleId, principal, entry);
      modGrants := Put(modGrants, titleId, principal, entry);
    }

    method RemoveModGrant(titleId: uint64, principal: text)
      requires Valid()
      modifies this
      ensures Valid() && View() == old(View()).(mods := old(View()).mods - {(titleId, principal)})
    {
      hide Flat, NoEmptyInner;
      EraseSteps(modGrants, titleId, principal);
      if titleId !in modGrants {
        return;
      }
      modGrants := modGrants[titleId := modGrants[titleId] - {principal}];
      if |modGrants[titleId]| == 0 {
        modGrants := modGrants - {titleId};
      }
    }

    method GetTrustAnchor(titleId: uint64, modId: text) returns (found: Option<TrustAnchor>)
      ensures found == if (titleId, modId) in View().trust then Some(View().trust[(titleId, modId)]) else None
    {
      hide Flat;
      FlatHolds(modTrust);
      assert Holds(modTrust, (titleId, modId)) == (titleId in modTrust && modId in modTrust[titleId]);
      if titleId !in modTrust {
        return None;
      }
      found := if modId in modTrust[titleId] then Some(modTrust[titleId][modId]) else None;
    }

    /** Title 0 and the empty mod id are refused. */
    method SetTrustAnchor(titleId: uint64, modId: text, entry: TrustAnchor)
      requires Valid()
      modifies this
      ensures Valid()
      ensures View() == if titleId == 0 || modId == "" then old(View())
                        else old(View()).(trust := old(View()).trust[(titleId, modId) := entry])
    {
      hide Flat, NoEmptyInner, Put;
      if titleId == 0 || modId == "" {
        return;
      }
      PutFlat(modTrust, titleId, modId, entry);
      modTrust := Put(modTrust, titleId, modId, entry);
    }

    method RemoveTrustAnchor(titleId: uint64, modId: text)
      requires Valid()
      modifies this
      ensures Valid() && View() == old(View()).(trust := old(View()).trust - {(titleId, modId)})
    {
      hide Flat, NoEmptyInner;
      EraseSteps(modTrust, titleId, modId);
      if titleId !in modTrust {
        return;
      }
      modTrust := modTrust[titleId := modTrust[titleId] - {modId}];
      if |modTrust[titleId]| == 0 {
        modTrust := modTrust - {titleId};
      }
    }

    method GetApproval(titleId: uint64, key: text) returns (found: Option<Approval>)
      ensures found == if (titleId, key) in View().approvals then Some(View().approvals[(titleId, key)]) else None
    {
      hide Flat;
      FlatHolds(approvals);
      assert Holds(approvals, (titleId, key)) == (titleId in approvals && key in approvals[titleId]);
      if titleId !in approvals {
        return None;
      }
      found := if key in approvals[titleId] then Some(approvals[titleId][key]) else None;
    }

    /** Title 0, the empty key and approvals without digest or identity are refused. */
    method SetApproval(titleId: uint64, key: text, entry: Approval)
      requires Valid()
      modifies this
      ensures Valid()
      ensures View() == if titleId == 0 || key == "" || entry.packageDigest == "" || entry.modIdentity == ""
                        then old(View())
                        else old(View()).(approvals := old(View()).approvals[(titleId, key) := entry])
    {
      hide Flat, NoEmptyInner, Put;
      if titleId == 0 || key == "" || entry.packageDigest == "" || entry.modIdentity == "" {
        return;
      }
      PutFlat(approvals, titleId, key, entry);
      approvals := Put(approvals, titleId, key, entry);
    }

    method RemoveApproval(titleId: uint64, key: text)
      requires Valid()
      modifies this
      ensures Valid() && View() == old(View()).(approvals := old(View()).approvals - {(titleId, key)})
    {
      hide Flat, NoEmptyInner;
      EraseSteps(approvals, titleId, key);
      if titleId !in approvals {
        return;
      }
      approvals := approvals[titleId := approvals[titleId] - {key}];
      if |approvals[titleId]| == 0 {
        approvals := approvals - {titleId};
      }
    }

    // -------------------------------------------------------------------------------------
    // Load
    // -------------------------------------------------------------------------------------

    /** Whatever was in the store before is gone. */
    method Load(document: seq<Element>)
      modifies this
      ensures Valid() && View() == Loaded(document)
    {
      hide Flat, NoEmptyInner, Collect, DecodeTitle, DecodeMod, DecodeTrust, DecodeApproval, NextNamed;
      var parser := Find(document, 0, "content");
      var bridge := GetChild(document, parser, "CemuExtend");
      LoadGrants(document, bridge);
      LoadModGrants(document, bridge);
      LoadTrust(document, bridge);
      LoadApprovals(document, bridge);
    }

    method LoadGrants(document: seq<Element>, bridge: Parser)
      requires bridge.Valid()
      modifies this`grants
      ensures grants == Collect(Children(document, bridge), DecodeTitle)
    {
      ghost var section := Children(document, bridge);
      OtherNamesDecodeToNothing();
      hide Collect, DecodeTitle, NextNamed, Uint64Attribute, Uint32Attribute, Children;
      grants := map[];
      var title := GetChild(document, bridge, "Title");
      TitlesStart(section);
      while title.At?
        invariant TitlesLoaded(grants, title, section)
        decreases |section| - Place(title, section), title.At?
      {
        var e := title.Get();
        var titleId := Uint64Attribute(e, "id");
        ghost var before := grants;
        if titleId != 0 {
          grants := grants[titleId := TitleGrant(Uint32Attribute(e, "read"), Uint32Attribute(e, "write"),
                                                 Uint32Attribute(e, "inject"))];
        }
        TitlesGoOn(before, title, section);
        title := GetNext(title, "Title");
      }
      assert section[..|section|] == section;
    }

    method LoadModGrants(document: seq<Element>, bridge: Parser)
      requires bridge.Valid()
      modifies this`modGrants
      ensures NoEmptyInner(modGrants) && Flat(modGrants) == Collect(Children(document, bridge), DecodeMod)
    {
      ghost var section := Children(document, bridge);
      OtherNamesDecodeToNothing();
      hide LoadedSoFar, Flat, NoEmptyInner, Collect, Find, GetNext, Children, Put, DecodeMod;
      modGrants := map[];
      var node := GetChild(document, bridge, "Mod");
      LoadStarts(section, "Mod", DecodeMod);
      while node.At?
        invariant Standing(node, section, "Mod")
        invariant LoadedSoFar(modGrants, node, section, DecodeMod)
        decreases |section| - Place(node, section)
      {
        var e := node.Get();
        var titleId, principal := Uint64Attribute(e, "title"), TextAttribute(e, "principal");
        ghost var before := modGrants;
        if !(titleId == 0 || principal == "" || |principal| > 256) {
          modGrants := Put(modGrants, titleId, principal,
            ModGrant(SixBits(Uint32Attribute(e, "permissions")), SixBits(Uint32Attribute(e, "approved_requests")),
                     BoolAttribute(e, "approved")));
        }
        DecodeModOf(e);
        LoadGoesOn(before, node, section, "Mod", DecodeMod, modGrants);
        node := GetNext(node, "Mod");
      }
      AllLoaded(modGrants, section, DecodeMod);
    }

    method LoadTrust(document: seq<Element>, bridge: Parser)
      requires bridge.Valid()
      modifies this`modTrust
      ensures NoEmptyInner(modTrust) && Flat(modTrust) == Collect(Children(document, bridge), DecodeTrust)
    {
      ghost var section := Children(document, bridge);
      OtherNamesDecodeToNothing();
      hide LoadedSoFar, Flat, NoEmptyInner, Collect, Find, GetNext, Children, Put, DecodeTrust;
      modTrust := map[];
      var node := GetChild(document, bridge, "ModTrust");
      LoadStarts(section, "ModTrust", DecodeTrust);
      while node.At?
        invariant Standing(node, section, "ModTrust")
        invariant LoadedSoFar(modTrust, node, section, DecodeTrust)
        decreases |section| - Place(node, section)
      {
        var e := node.Get();
        var titleId, modId := Uint64Attribute(e, "title"), TextAttribute(e, "mod_id");
        ghost var before := modTrust;
        if !(titleId == 0 || modId == "" || |modId| > 128) {
          modTrust := Put(modTrust, titleId, modId,
            TrustAnchor(SixBits(Uint32Attribute(e, "permissions")),
                        SixBits(Uint32Attribute(e, "approved_requests"))));
        }
        DecodeTrustOf(e);
        LoadGoesOn(before, node, section, "ModTrust", DecodeTrust, modTrust);
        node := GetNext(node, "ModTrust");
      }
      AllLoaded(modTrust, section, DecodeTrust);
    }

    method LoadApprovals(document: seq<Element>, bridge: Parser)
      requires bridge.Valid()
      modifies this`approvals
      ensures NoEmptyInner(approvals) && Flat(approvals) == Collect(Children(document, bridge), DecodeApproval)
    {
      ghost var section := Children(document, bridge);
      OtherNamesDecodeToNothing();
      hide LoadedSoFar, Flat, NoEmptyInner, Collect, Find, GetNext, Children, Put, DecodeApproval;
      approvals := map[];
      var node := GetChild(document, bridge, "PermissionApproval");
      LoadStarts(section, "PermissionApproval", DecodeApproval);
      while node.At?
        invariant Standing(node, section, "PermissionApproval")
        invariant LoadedSoFar(approvals, node, section, DecodeApproval)
        decreases |section| - Place(node, section)
      {
        var e := node.Get();
        var titleId, key := Uint64Attribute(e, "title"), TextAttribute(e, "key");
        var digest, identity := TextAttribute(e, "package_digest"), TextAttribute(e, "mod_identity");
        ghost var before := approvals;
        if !(titleId == 0 || key == "" || digest == "" || identity == "" || |digest| > 128 || |identity| > 256 ||
             |key| > 512) {
          approvals := Put(approvals, titleId, key,
            Approval(digest, identity, Uint64Attribute(e, "requested"), Uint64Attribute(e, "granted"),
                     BoolAttribute(e, "approved"), BoolAttribute(e, "headless_denial")));
        }
        DecodeApprovalOf(e);
        LoadGoesOn(before, node, section, "PermissionApproval", DecodeApproval, approvals);
        node := GetNext(node, "PermissionApproval");
      }
      AllLoaded(approvals, section, DecodeApproval);
    }

    // -------------------------------------------------------------------------------------
    // Save
    // -------------------------------------------------------------------------------------

    /** `before` and `after` are the other settings, saved around the section. */
    method Save(before: seq<Element>, after: seq<Element>) returns (document: seq<Element>)
      requires Valid()
      ensures IsSavedDocument(document, View(), before, after)
    {
      hide Flat, NoEmptyInner, IsSaved, IsSavedDocument;
      var titles := SaveGrants();
      var mods := SaveModGrants();
      var trust := SaveTrust();
      var approved := SaveApprovals();
      var bridge := Element("CemuExtend", map[], titles + mods + trust + approved);
      document := [Element("content", map[], before + [bridge] + after)];
      SectionsTogether(View(), titles, mods, trust, approved, before, after);
    }

    method SaveGrants() returns (nodes: seq<Element>)
      ensures IsSaved(nodes, grants, TitleElement)
    {
      nodes := [];
      var titles := WalkOrder(grants.Keys);
      for i := 0 to |titles|
        invariant forall k {:trigger titles[k]} :: 0 <= k < |titles| ==> titles[k] in grants
        invariant nodes == Saved(titles[..i], grants, TitleElement)
      {
        var titleId := titles[i];
        var grant := grants[titleId];
        var title := Element("Title", map[], []);
        title := SetAttribute(title, "id", PrintInt(AsSigned(titleId)));
        title := SetAttribute(title, "read", PrintNat(grant.readMask));
        title := SetAttribute(title, "write", PrintNat(grant.writeMask));
        title := SetAttribute(title, "inject", PrintNat(grant.injectMask));
        assert title == TitleElement(titleId, grant);
        nodes := nodes + [title];
        SavedOneMore(titles[..i], grants, TitleElement, titleId);
        assert titles[..i + 1] == titles[..i] + [titleId];
      }
      assert titles[..|titles|] == titles;
    }

    method SaveModGrants() returns (nodes: seq<Element>)
      ensures IsSaved(nodes, Flat(modGrants), ModElement)
    {
      hide SavedSoFar, Flat, Lists, Saved, ModElement;
      nodes := [];
      ghost var order: seq<Key> := [];
      var titles := WalkOrder(modGrants.Keys);
      SaveStarts(modGrants, titles, ModElement);
      for i := 0 to |titles|
        invariant SavedSoFar(nodes, order, modGrants, titles, i, [], 0, ModElement)
      {
        ListedIn(titles, modGrants.Keys, i);
        var titleId := titles[i];
        var entries := modGrants[titleId];
        var keys := WalkOrder(entries.Keys);
        SaveTitle(nodes, order, modGrants, titles, i, keys, ModElement);
        for j := 0 to |keys|
          invariant SavedSoFar(nodes, order, modGrants, titles, i, keys, j, ModElement)
        {
          ListedIn(keys, entries.Keys, j);
          var node := ModNode(titleId, keys[j], entries[keys[j]]);
          SaveKey(nodes, order, modGrants, titles, i, keys, j, ModElement);
          nodes, order := nodes + [node], order + [(titleId, keys[j])];
        }
        SavedTitle(nodes, order, modGrants, titles, i, keys, ModElement);
      }
      AllSaved(nodes, order, modGrants, titles, ModElement);
    }

    method SaveTrust() returns (nodes: seq<Element>)
      ensures IsSaved(nodes, Flat(modTrust), TrustElement)
    {
      hide SavedSoFar, Flat, Lists, Saved, TrustElement;
      nodes := [];
      ghost var order: seq<Key> := [];
      var titles := WalkOrder(modTrust.Keys);
      SaveStarts(modTrust, titles, TrustElement);
      for i := 0 to |titles|
        invariant SavedSoFar(nodes, order, modTrust, titles, i, [], 0, TrustElement)
      {
        ListedIn(titles, modTrust.Keys, i);
        var titleId := titles[i];
        var entries := modTrust[titleId];
        var keys := WalkOrder(entries.Keys);
        SaveTitle(nodes, order, modTrust, titles, i, keys, TrustElement);
        for j := 0 to |keys|
          invariant SavedSoFar(nodes, order, modTrust, titles, i, keys, j, TrustElement)
        {
          ListedIn(keys, entries.Keys, j);
          var node := TrustNode(titleId, keys[j], entries[keys[j]]);
          SaveKey(nodes, order, modTrust, titles, i, keys, j, TrustElement);
          nodes, order := nodes + [node], order + [(titleId, keys[j])];
        }
        SavedTitle(nodes, order, modTrust, titles, i, keys, TrustElement);
      }
      AllSaved(nodes, order, modTrust, titles, TrustElement);
    }

    method SaveApprovals() returns (nodes: seq<Element>)
      ensures IsSaved(nodes, Flat(approvals), ApprovalElement)
    {
      hide SavedSoFar, Flat, Lists, Saved, ApprovalElement;
      nodes := [];
      ghost var order: seq<Key> := [];
      var titles := WalkOrder(approvals.Keys);
      SaveStarts(approvals, titles, ApprovalElement);
      for i := 0 to |titles|
        invariant SavedSoFar(nodes, order, approvals, titles, i, [], 0, ApprovalElement)
      {
        ListedIn(titles, approvals.Keys, i);
        var titleId := titles[i];
        var entries := approvals[titleId];
        var keys := WalkOrder(entries.Keys);
        SaveTitle(nodes, order, approvals, titles, i, keys, ApprovalElement);
        for j := 0 to |keys|
          invariant SavedSoFar(nodes, order, approvals, titles, i, keys, j, ApprovalElement)
        {
          ListedIn(keys, entries.Keys, j);
          var node := ApprovalNode(titleId, keys[j], entries[keys[j]]);
          SaveKey(nodes, order, approvals, titles, i, keys, j, ApprovalElement);
          nodes, order := nodes + [node], order + [(titleId, keys[j])];
        }
        SavedTitle(nodes, order, approvals, titles, i, keys, ApprovalElement);
      }
      AllSaved(nodes, order, approvals, titles, ApprovalElement);
    }
  }

  /** One program saves its settings, another loads them. Of a store that keeps Load's own rules, all four maps come back
      exactly as they were, key by key and title by title. */
  method SaveThenLoad(saved: CemuConfig, loaded: CemuConfig, before: seq<Element>, after: seq<Element>)
    requires saved.Valid() && saved != loaded && forall i :: 0 <= i < |before| ==> before[i].name != "CemuExtend"
    modifies loaded
    ensures loaded.Valid() && loaded.View() == Normal(saved.View())
    ensures Storable(saved.View()) ==>
              && loaded.grants == saved.grants && loaded.modGrants == saved.modGrants
              && loaded.modTrust == saved.modTrust && loaded.approvals == saved.approvals
  {
    hide Flat, NoEmptyInner, IsSavedDocument, Loaded, Normal, Storable;
    var document := saved.Save(before, after);
    loaded.Load(document);
    LoadAfterSave(document, saved.View(), before, after);
    LosslessIff(saved.View());
    if Storable(saved.View()) {
      FlatDetermines(loaded.modGrants, saved.modGrants);
      FlatDetermines(loaded.modTrust, saved.modTrust);
      FlatDetermines(loaded.approvals, saved.approvals);
    }
  }

  function SetAttribute(e: Element, name: string, value: text): Element { e.(attributes := e.attributes[name := value]) }

  method ModNode(titleId: uint64, principal: text, entry: ModGrant) returns (node: Element)
    ensures node == ModElement((titleId, principal), entry)
  {
    node := Element("Mod", map[], []);
    node := SetAttribute(node, "title", PrintInt(AsSigned(titleId)));
    node := SetAttribute(node, "principal", principal);
    node := SetAttribute(node, "permissions", PrintNat(SixBits(entry.permissions)));
    node := SetAttribute(node, "approved_requests", PrintNat(SixBits(entry.approvedRequests)));
    node := SetAttribute(node, "approved", PrintBool(entry.approved));
  }

  method TrustNode(titleId: uint64, modId: text, entry: TrustAnchor) returns (node: Element)
    ensures node == TrustElement((titleId, modId), entry)
  {
    node := Element("ModTrust", map[], []);
    node := SetAttribute(node, "title", PrintInt(AsSigned(titleId)));
    node := SetAttribute(node, "mod_id", modId);
    node := SetAttribute(node, "permissions", PrintNat(SixBits(entry.permissions)));
    node := SetAttribute(node, "approved_requests", PrintNat(SixBits(entry.approvedRequests)));
  }

  method ApprovalNode(titleId: uint64, key: text, entry: Approval) returns (node: Element)
    ensures node == ApprovalElement((titleId, key), entry)
  {
    node := Element("PermissionApproval", map[], []);
    node := SetAttribute(node, "title", PrintInt(AsSigned(titleId)));
    node := SetAttribute(node, "key", key);
    node := SetAttribute(node, "package_digest", entry.packageDigest);
    node := SetAttribute(node, "mod_identity", entry.modIdentity);
    node := SetAttribute(node, "requested", PrintInt(AsSigned(entry.requested)));
    node := SetAttribute(node, "granted", PrintInt(AsSigned(entry.granted)));
    node := SetAttribute(node, "approved", PrintBool(entry.approved));
    node := SetAttribute(node, "headless_denial", PrintBool(entry.headlessDenial));
  }

  lemma OtherNamesDecodeToNothing()
    ensures forall e: Element :: e.name != "Title" ==> DecodeTitle(e) == None
    ensures forall e: Element :: e.name != "Mod" ==> DecodeMod(e) == None
    ensures forall e: Element :: e.name != "ModTrust" ==> DecodeTrust(e) == None
    ensures forall e: Element :: e.name != "PermissionApproval" ==> DecodeApproval(e) == None
  {
  }

  lemma DecodeModOf(e: Element)
    requires e.name == "Mod"
    ensures var titleId, principal := Uint64Attribute(e, "title"), TextAttribute(e, "principal");
            DecodeMod(e) ==
            if titleId == 0 || principal == "" || |principal| > 256 then None
            else Some(((titleId, principal),
              ModGrant(SixBits(Uint32Attribute(e, "permissions")), SixBits(Uint32Attribute(e, "approved_requests")),
                       BoolAttribute(e, "approved"))))
  {
  }

  lemma DecodeTrustOf(e: Element)
    requires e.name == "ModTrust"
    ensures var titleId, modId := Uint64Attribute(e, "title"), TextAttribute(e, "mod_id");
            DecodeTrust(e) ==
            if titleId == 0 || modId == "" || |modId| > 128 then None
            else Some(((titleId, modId),
              TrustAnchor(SixBits(Uint32Attribute(e, "permissions")),
                          SixBits(Uint32Attribute(e, "approved_requests")))))
  {
  }

  lemma DecodeApprovalOf(e: Element)
    requires e.name == "PermissionApproval"
    ensures var titleId, key := Uint64Attribute(e, "title"), TextAttribute(e, "key");
            var digest, identity := TextAttribute(e, "package_digest"), TextAttribute(e, "mod_identity");
            DecodeApproval(e) ==
            if titleId == 0 || key == "" || digest == "" || identity == "" || |digest| > 128 || |identity| > 256 ||
               |key| > 512 then None
            else Some(((titleId, key),
              Approval(digest, identity, Uint64Attribute(e, "requested"), Uint64Attribute(e, "granted"),
                       BoolAttribute(e, "approved"), BoolAttribute(e, "headless_denial"))))
  {
  }

  /** The same for the one map that is not nested. */
  ghost predicate TitlesLoaded(m: map<uint64, TitleGrant>, p: Parser, section: seq<Element>) {
    && Within(p, section) && (p.At? ==> p.Get().name == "Title")
    && m == Collect(section[..Place(p, section)], DecodeTitle)
  }

  lemma TitlesStart(section: seq<Element>)
    ensures TitlesLoaded(map[], Find(section, 0, "Title"), section)
  {
    OtherNamesDecodeToNothing();
    FoundNext(section, 0, "Title", DecodeTitle);
  }

  lemma TitlesGoOn(m: map<uint64, TitleGrant>, p: Parser, section: seq<Element>)
    requires p.At? && TitlesLoaded(m, p, section)
    ensures var e, id, next := p.Get(), Uint64Attribute(p.Get(), "id"), GetNext(p, "Title");
            var grant := TitleGrant(Uint32Attribute(e, "read"), Uint32Attribute(e, "write"), Uint32Attribute(e, "inject"));
            && TitlesLoaded(if id == 0 then m else m[id := grant], next, section)
            && (next.At? ==> next.i > p.i)
  {
    hide Uint64Attribute, Uint32Attribute, Collect;
    OtherNamesDecodeToNothing();
    CollectNext(section, p.i, DecodeTitle);
    FoundNext(section, p.i + 1, "Title", DecodeTitle);
  }
}
