/** The four kinds of CemuExtend records, the elements they are saved as, and what loading makes of an element. */
module GrantRecords {
  import opened Options
  import opened NumberText
  import opened XmlTree

  datatype TitleGrant = TitleGrant(readMask: uint32, writeMask: uint32, injectMask: uint32)
  datatype ModGrant = ModGrant(permissions: uint32, approvedRequests: uint32, approved: bool)
  datatype TrustAnchor = TrustAnchor(permissions: uint32, approvedRequests: uint32)
  datatype Approval = Approval(packageDigest: text, modIdentity: text, requested: uint64, granted: uint64,
                               approved: bool, headlessDenial: bool)

  /** Title and principal, mod id or approval key. */
  type Key = (uint64, text)

  /** `& 0x3f` */
  function SixBits(mask: uint32): uint32 { mask % 64 }

  /** The six lowest bits stay as they are, the others go: the number changes by a multiple of 64, and fits six bits. */
  lemma SixBitsStay(mask: uint32)
    ensures 0 <= SixBits(mask) < 64 && (mask - SixBits(mask)) % 64 == 0
  {
  }

  function TitleElement(id: uint64, g: TitleGrant): Element {
    Element("Title", map["id" := PrintInt(AsSigned(id)), "read" := PrintNat(g.readMask),
                         "write" := PrintNat(g.writeMask), "inject" := PrintNat(g.injectMask)], [])
  }

  function ModElement(k: Key, g: ModGrant): Element {
    Element("Mod", map["title" := PrintInt(AsSigned(k.0)), "principal" := k.1,
                       "permissions" := PrintNat(SixBits(g.permissions)),
                       "approved_requests" := PrintNat(SixBits(g.approvedRequests)),
                       "approved" := PrintBool(g.approved)], [])
  }

  function TrustElement(k: Key, a: TrustAnchor): Element {
    Element("ModTrust", map["title" := PrintInt(AsSigned(k.0)), "mod_id" := k.1,
                            "permissions" := PrintNat(SixBits(a.permissions)),
                            "approved_requests" := PrintNat(SixBits(a.approvedRequests))], [])
  }

  function ApprovalElement(k: Key, a: Approval): Element {
    Element("PermissionApproval",
            map["title" := PrintInt(AsSigned(k.0)), "key" := k.1, "package_digest" := a.packageDigest,
                "mod_identity" := a.modIdentity, "requested" := PrintInt(AsSigned(a.requested)),
                "granted" := PrintInt(AsSigned(a.granted)), "approved" := PrintBool(a.approved),
                "headless_denial" := PrintBool(a.headlessDenial)], [])
  }

  function DecodeTitle(e: Element): Option<(uint64, TitleGrant)> {
    var id := Uint64Attribute(e, "id");
    if e.name != "Title" || id == 0 then None
    else Some((id, TitleGrant(Uint32Attribute(e, "read"), Uint32Attribute(e, "write"), Uint32Attribute(e, "inject"))))
  }

  function DecodeMod(e: Element): Option<(Key, ModGrant)> {
    var title, principal := Uint64Attribute(e, "title"), TextAttribute(e, "principal");
    if e.name != "Mod" || title == 0 || principal == "" || |principal| > 256 then None
    else Some(((title, principal),
               ModGrant(SixBits(Uint32Attribute(e, "permissions")), SixBits(Uint32Attribute(e, "approved_requests")),
                        BoolAttribute(e, "approved"))))
  }

  function DecodeTrust(e: Element): Option<(Key, TrustAnchor)> {
    var title, modId := Uint64Attribute(e, "title"), TextAttribute(e, "mod_id");
    if e.name != "ModTrust" || title == 0 || modId == "" || |modId| > 128 then None
    else Some(((title, modId), TrustAnchor(SixBits(Uint32Attribute(e, "permissions")),
                                           SixBits(Uint32Attribute(e, "approved_requests")))))
  }

  function DecodeApproval(e: Element): Option<(Key, Approval)> {
    var title, key := Uint64Attribute(e, "title"), TextAttribute(e, "key");
    var digest, identity := TextAttribute(e, "package_digest"), TextAttribute(e, "mod_identity");
    if e.name != "PermissionApproval" || title == 0 || key == "" || digest == "" || identity == "" ||
       |digest| > 128 || |identity| > 256 || |key| > 512 then None
    else Some(((title, key), Approval(digest, identity, Uint64Attribute(e, "requested"), Uint64Attribute(e, "granted"),
                                      BoolAttribute(e, "approved"), BoolAttribute(e, "headless_denial"))))
  }

  // ---------------------------------------------------------------------------------------
  // What survives a save and a load, and in which form.
  // ---------------------------------------------------------------------------------------

  predicate ModKept(k: Key) { k.0 != 0 && 0 < |k.1| <= 256 }

  predicate TrustKept(k: Key) { k.0 != 0 && 0 < |k.1| <= 128 }

  predicate ApprovalKept(k: Key, a: Approval) {
    k.0 != 0 && 0 < |k.1| <= 512 && 0 < |a.packageDigest| <= 128 && 0 < |a.modIdentity| <= 256
  }

  function NormalMod(g: ModGrant): ModGrant {
    g.(permissions := SixBits(g.permissions), approvedRequests := SixBits(g.approvedRequests))
  }

  function NormalTrust(a: TrustAnchor): TrustAnchor {
    TrustAnchor(SixBits(a.permissions), SixBits(a.approvedRequests))
  }

  lemma Uint64Survives(e: Element, name: string, n: uint64)
    requires name in e.attributes && e.attributes[name] == PrintInt(AsSigned(n))
    ensures Uint64Attribute(e, name) == n
  {
    SurvivesAsSigned(n);
  }

  lemma Uint32Survives(e: Element, name: string, n: uint32)
    requires name in e.attributes && e.attributes[name] == PrintNat(n)
    ensures Uint32Attribute(e, name) == n
  {
    SurvivesAsUnsigned(n);
  }

  lemma BoolSurvivesIn(e: Element, name: string, b: bool)
    requires name in e.attributes && e.attributes[name] == PrintBool(b)
    ensures BoolAttribute(e, name) == b
  {
    BoolSurvives(b);
  }

  lemma TitleSurvives(id: uint64, g: TitleGrant)
    ensures DecodeTitle(TitleElement(id, g)) == if id != 0 then Some((id, g)) else None
  {
    hide Uint64Attribute, Uint32Attribute, PrintInt, PrintNat, AsSigned;
    var e := TitleElement(id, g);
    Uint64Survives(e, "id", id);
    Uint32Survives(e, "read", g.readMask);
    Uint32Survives(e, "write", g.writeMask);
    Uint32Survives(e, "inject", g.injectMask);
  }

  lemma ModSurvives(k: Key, g: ModGrant)
    ensures DecodeMod(ModElement(k, g)) ==
            if k.0 != 0 && 0 < |k.1| <= 256
            then Some((k, ModGrant(g.permissions % 64, g.approvedRequests % 64, g.approved))) else None
  {
    hide Uint64Attribute, Uint32Attribute, BoolAttribute, PrintInt, PrintNat, PrintBool, AsSigned;
    var e := ModElement(k, g);
    Uint64Survives(e, "title", k.0);
    Uint32Survives(e, "permissions", SixBits(g.permissions));
    Uint32Survives(e, "approved_requests", SixBits(g.approvedRequests));
    BoolSurvivesIn(e, "approved", g.approved);
  }

  lemma TrustSurvives(k: Key, a: TrustAnchor)
    ensures DecodeTrust(TrustElement(k, a)) ==
            if k.0 != 0 && 0 < |k.1| <= 128
            then Some((k, TrustAnchor(a.permissions % 64, a.approvedRequests % 64))) else None
  {
    hide Uint64Attribute, Uint32Attribute, PrintInt, PrintNat, AsSigned;
    var e := TrustElement(k, a);
    Uint64Survives(e, "title", k.0);
    Uint32Survives(e, "permissions", SixBits(a.permissions));
    Uint32Survives(e, "approved_requests", SixBits(a.approvedRequests));
  }

  lemma ApprovalSurvives(k: Key, a: Approval)
    ensures DecodeApproval(ApprovalElement(k, a)) ==
            if k.0 != 0 && 0 < |k.1| <= 512 && 0 < |a.packageDigest| <= 128 && 0 < |a.modIdentity| <= 256
            then Some((k, a)) else None
  {
    hide Uint64Attribute, BoolAttribute, PrintInt, PrintBool, AsSigned;
    var e := ApprovalElement(k, a);
    Uint64Survives(e, "title", k.0);
    Uint64Survives(e, "requested", a.requested);
    Uint64Survives(e, "granted", a.granted);
    BoolSurvivesIn(e, "approved", a.approved);
    BoolSurvivesIn(e, "headless_denial", a.headlessDenial);
  }
}
