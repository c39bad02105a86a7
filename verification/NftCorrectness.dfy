/**
 The compiled chains do what the policy says, for every valid specification and every
 well-formed packet.
 */
module NftCorrectness {
  import opened Wrappers
  import opened Ordering
  import opened Net
  import opened Grammar
  import opened NftModel
  import opened NftProgram
  import opened NftGenerator
  import opened NftValidation
  import opened NftPolicy

  // ----- set contents -----

  lemma {:induction false} GroupAddressesMean(peers: seq<PeerSpec>, slug: string, f: Family, a: Address)
    ensures a in GroupAddresses(peers, slug, f)
       <==> exists p :: p in peers && p.state.Active? && slug in p.groupSlugs && p.AddressOf(f) == Some(AddressText(a))
  {
    if peers != [] {
      GroupAddressesMean(peers[1..], slug, f, a);
      assert peers == [peers[0]] + peers[1..];
    }
  }

  lemma {:induction false} ZoneAddressesMean(peers: seq<PeerSpec>, slug: string, f: Family, a: Address)
    ensures a in ZoneAddresses(peers, slug, f)
       <==> exists p :: p in peers && p.state.Active? && p.zoneSlug == Some(slug) && p.AddressOf(f) == Some(AddressText(a))
  {
    if peers != [] {
      ZoneAddressesMean(peers[1..], slug, f, a);
      assert peers == [peers[0]] + peers[1..];
    }
  }

  lemma {:induction false} ConfinedAddressesMean(peers: seq<PeerSpec>, f: Family, a: Address)
    ensures a in ConfinedAddresses(peers, f)
       <==> exists p :: p in peers && p.state.IsConfined() && p.AddressOf(f) == Some(AddressText(a))
  {
    if peers != [] {
      ConfinedAddressesMean(peers[1..], f, a);
      assert peers == [peers[0]] + peers[1..];
    }
  }

  lemma {:induction false} NetworksInMean(cidrs: seq<CidrText>, f: Family, n: Network)
    ensures n in NetworksIn(cidrs, f) <==> n.family == f && exists c :: c in cidrs && ParseCidr(c) == Some(n)
  {
    if cidrs != [] {
      NetworksInMean(cidrs[1..], f, n);
      assert cidrs == [cidrs[0]] + cidrs[1..];
    }
  }

  lemma HostsCover(addresses: seq<Address>, a: Address)
    ensures Covered(Hosts(addresses), a) <==> a in addresses
  {
    var es := Hosts(addresses);
    if a in addresses {
      var i :| 0 <= i < |addresses| && addresses[i] == a;
      assert es[i] == Host(a);
      assert es[i] in es && ElementCovers(es[i], a);
    }
  }

  lemma HostPrefixesCover(addresses: seq<Address>, a: Address)
    ensures Covered(HostPrefixes(addresses), a) <==> a in addresses
  {
    var es := HostPrefixes(addresses);
    if a in addresses {
      var i :| 0 <= i < |addresses| && addresses[i] == a;
      assert es[i] == Prefix(HostNetwork(a));
      assert es[i] in es && ElementCovers(es[i], a);
    }
  }

  lemma PrefixesCover(networks: seq<Network>, a: Address)
    ensures Covered(Prefixes(networks), a) <==> exists n :: n in networks && Contains(n, a)
  {
    var es := Prefixes(networks);
    if n :| n in networks && Contains(n, a) {
      var i :| 0 <= i < |networks| && networks[i] == n;
      assert es[i] == Prefix(n);
      assert es[i] in es && ElementCovers(es[i], a);
    }
    if Covered(es, a) {
      var e :| e in es && ElementCovers(e, a);
      assert e.network in networks;
    }
  }

  lemma NetworksCover(cidrs: seq<CidrText>, a: Address)
    ensures Covered(Prefixes(SortedSet(NetworksIn(cidrs, a.family), NetworkKey)), a)
       <==> exists c :: c in cidrs && CidrContains(c, a)
  {
    var found := NetworksIn(cidrs, a.family);
    var sorted := SortedSet(found, NetworkKey);
    PrefixesCover(sorted, a);
    if n :| n in sorted && Contains(n, a) {
      SortedSetMember(found, NetworkKey, n);
      NetworksInMean(cidrs, a.family, n);
      var c :| c in cidrs && ParseCidr(c) == Some(n);
      assert CidrContains(c, a);
    }
    if c :| c in cidrs && CidrContains(c, a) {
      var n := ParseCidr(c).value;
      NetworksInMean(cidrs, a.family, n);
      SortedSetMember(found, NetworkKey, n);
    }
  }

  lemma CoveredConcat(x: seq<Element>, y: seq<Element>, a: Address)
    ensures Covered(x + y, a) <==> Covered(x, a) || Covered(y, a)
  {
  }

  lemma GroupMembersMean(spec: RulesetSpec, slug: string, a: Address)
    ensures Covered(GroupMembers(spec, slug, a.family), a) <==> InGroup(spec, slug, a)
  {
    var found := GroupAddresses(spec.peers, slug, a.family);
    HostsCover(SortedSet(found, AddressKey), a);
    SortedSetMember(found, AddressKey, a);
    GroupAddressesMean(spec.peers, slug, a.family, a);
  }

  lemma ConfinedMembersMean(spec: RulesetSpec, a: Address)
    ensures Covered(ConfinedMembers(spec, a.family), a) <==> Confined(spec, a)
  {
    var found := ConfinedAddresses(spec.peers, a.family);
    HostsCover(SortedSet(found, AddressKey), a);
    SortedSetMember(found, AddressKey, a);
    ConfinedAddressesMean(spec.peers, a.family, a);
  }

  lemma ZoneMembersMean(spec: RulesetSpec, z: ZoneSpec, a: Address)
    ensures Covered(ZoneMembers(spec, z, a.family), a) <==> InZone(spec, z, a)
  {
    var found := ZoneAddresses(spec.peers, z.slug, a.family);
    var hosts := HostPrefixes(SortedSet(found, AddressKey));
    var routed := Prefixes(SortedSet(NetworksIn(RouteCidrs(z.routes), a.family), NetworkKey));
    CoveredConcat(hosts, routed, a);
    HostPrefixesCover(SortedSet(found, AddressKey), a);
    SortedSetMember(found, AddressKey, a);
    ZoneAddressesMean(spec.peers, z.slug, a.family, a);
    NetworksCover(RouteCidrs(z.routes), a);
    RouteCidrsMean(z.routes, a);
  }

  lemma RouteCidrsMean(routes: seq<RouteSpec>, a: Address)
    ensures (exists c :: c in RouteCidrs(routes) && CidrContains(c, a))
       <==> (exists r :: r in routes && CidrContains(r.cidr, a))
  {
    var cs := RouteCidrs(routes);
    if r :| r in routes && CidrContains(r.cidr, a) {
      var i :| 0 <= i < |routes| && routes[i] == r;
      assert cs[i] == r.cidr;
      assert cs[i] in cs;
    }
    if c :| c in cs && CidrContains(c, a) {
      var i :| 0 <= i < |cs| && cs[i] == c;
      assert routes[i] in routes && CidrContains(routes[i].cidr, a);
    }
  }

  // ----- names -----

  /** A set name splits back into its three parts. */
  lemma NameParts(p: string, m: string, f: Family, q: string, n: string, g: Family)
    requires |p| == 2 && |q| == 2
    requires p + m + Suffix(f) == q + n + Suffix(g)
    ensures p == q && m == n && f == g
  {
    var left, right := p + m + Suffix(f), q + n + Suffix(g);
    assert |m| == |n|;
    assert left[..2] == p && right[..2] == q;
    assert left[2..2 + |m|] == m && right[2..2 + |n|] == n;
    assert left[|left| - 1] == Suffix(f)[2] && right[|right| - 1] == Suffix(g)[2];
  }

  lemma FixedNames(f: Family)
    ensures QuarantineSetName(f) == "fg" + "_quarantine" + Suffix(f)
    ensures InternalSetName(f) == "fg" + "_internal" + Suffix(f)
  {
    assert "fg_quarantine" == "fg" + "_quarantine";
    assert "fg_internal" == "fg" + "_internal";
  }

  /** Who a declaration is for. */
  datatype Owner = InternalOwner | QuarantineOwner | GroupOwner(g: GroupSpec) | ZoneOwner(z: ZoneSpec)

  function DeclOf(spec: RulesetSpec, o: Owner, f: Family): SetDecl {
    match o
    case InternalOwner => InternalSet(spec, f)
    case QuarantineOwner => QuarantineSet(spec, f)
    case GroupOwner(g) => GroupSet(spec, g, f)
    case ZoneOwner(z) => ZoneSet(spec, z, f)
  }

  ghost predicate Owns(spec: RulesetSpec, o: Owner) {
    (o.GroupOwner? ==> o.g in spec.groups) && (o.ZoneOwner? ==> o.z in spec.zones)
  }

  lemma {:induction false} GroupSetsOwner(spec: RulesetSpec, groups: seq<GroupSpec>, d: SetDecl) returns (g: GroupSpec, f: Family)
    requires d in GroupSets(spec, groups)
    ensures g in groups && d == GroupSet(spec, g, f)
  {
    var rest := GroupSets(spec, groups[1..]);
    if d in rest {
      g, f := GroupSetsOwner(spec, groups[1..], d);
    } else {
      g, f := groups[0], if d == GroupSet(spec, groups[0], V4) then V4 else V6;
    }
  }

  lemma {:induction false} GroupSetDeclared(spec: RulesetSpec, groups: seq<GroupSpec>, g: GroupSpec, f: Family)
    requires g in groups
    ensures GroupSet(spec, g, f) in GroupSets(spec, groups)
  {
    if groups[0] != g {
      GroupSetDeclared(spec, groups[1..], g, f);
    } else {
      assert GroupSets(spec, groups)[if f == V4 then 0 else 1] == GroupSet(spec, g, f);
    }
  }

  lemma {:induction false} ZoneSetsOwner(spec: RulesetSpec, zones: seq<ZoneSpec>, d: SetDecl) returns (z: ZoneSpec, f: Family)
    requires d in ZoneSets(spec, zones)
    ensures z in zones && d == ZoneSet(spec, z, f)
  {
    var rest := ZoneSets(spec, zones[1..]);
    if d in rest {
      z, f := ZoneSetsOwner(spec, zones[1..], d);
    } else {
      z, f := zones[0], if d == ZoneSet(spec, zones[0], V4) then V4 else V6;
    }
  }

  lemma {:induction false} ZoneSetDeclared(spec: RulesetSpec, zones: seq<ZoneSpec>, z: ZoneSpec, f: Family)
    requires z in zones
    ensures ZoneSet(spec, z, f) in ZoneSets(spec, zones)
  {
    if zones[0] != z {
      ZoneSetDeclared(spec, zones[1..], z, f);
    } else {
      assert ZoneSets(spec, zones)[if f == V4 then 0 else 1] == ZoneSet(spec, z, f);
    }
  }

  lemma FixedHasOwner(spec: RulesetSpec, d: SetDecl) returns (o: Owner, f: Family)
    requires d in FixedSets(spec)
    ensures Owns(spec, o) && d == DeclOf(spec, o, f)
  {
    var i :| 0 <= i < 4 && FixedSets(spec)[i] == d;
    o := if i < 2 then InternalOwner else QuarantineOwner;
    f := if i % 2 == 0 then V4 else V6;
  }

  lemma GroupHasOwner(spec: RulesetSpec, d: SetDecl) returns (o: Owner, f: Family)
    requires d in GroupSets(spec, SortBy(spec.groups, GroupKey))
    ensures Owns(spec, o) && d == DeclOf(spec, o, f)
  {
    var g;
    g, f := GroupSetsOwner(spec, SortBy(spec.groups, GroupKey), d);
    SortByMember(spec.groups, GroupKey, g);
    o := GroupOwner(g);
  }

  lemma ZoneHasOwner(spec: RulesetSpec, d: SetDecl) returns (o: Owner, f: Family)
    requires d in ZoneSets(spec, SortBy(spec.zones, ZoneKey))
    ensures Owns(spec, o) && d == DeclOf(spec, o, f)
  {
    var z;
    z, f := ZoneSetsOwner(spec, SortBy(spec.zones, ZoneKey), d);
    SortByMember(spec.zones, ZoneKey, z);
    o := ZoneOwner(z);
  }

  lemma DeclaredHasOwner(spec: RulesetSpec, d: SetDecl) returns (o: Owner, f: Family)
    requires d in RenderSets(spec)
    ensures Owns(spec, o) && d == DeclOf(spec, o, f)
  {
    if d in GroupSets(spec, SortBy(spec.groups, GroupKey)) {
      o, f := GroupHasOwner(spec, d);
    } else if d in ZoneSets(spec, SortBy(spec.zones, ZoneKey)) {
      o, f := ZoneHasOwner(spec, d);
    } else {
      o, f := FixedHasOwner(spec, d);
    }
  }

  lemma OwnerIsDeclared(spec: RulesetSpec, o: Owner, f: Family)
    requires Owns(spec, o)
    ensures DeclOf(spec, o, f) in RenderSets(spec)
  {
    var d := DeclOf(spec, o, f);
    var groups, zones := SortBy(spec.groups, GroupKey), SortBy(spec.zones, ZoneKey);
    match o
    case GroupOwner(g) =>
      SortByMember(spec.groups, GroupKey, g);
      GroupSetDeclared(spec, groups, g, f);
    case ZoneOwner(z) =>
      SortByMember(spec.zones, ZoneKey, z);
      ZoneSetDeclared(spec, zones, z, f);
    case InternalOwner =>
      assert FixedSets(spec)[if f == V4 then 0 else 1] == d;
    case QuarantineOwner =>
      assert FixedSets(spec)[if f == V4 then 2 else 3] == d;
  }

  /** In a valid specification one name means one declaration. */
  lemma NameIsUnique(spec: RulesetSpec, o: Owner, f: Family, o': Owner, f': Family)
    requires Valid(spec) && Owns(spec, o) && Owns(spec, o')
    requires DeclOf(spec, o, f).name == DeclOf(spec, o', f').name
    ensures o == o' && f == f'
  {
    FixedNames(f);
    FixedNames(f');
    var p, m := NamePrefix(o), NameMiddle(o);
    var q, n := NamePrefix(o'), NameMiddle(o');
    NameParts(p, m, f, q, n, f');
    SameParts(o, o');
    if o.GroupOwner? {
      OneGroup(spec.gateway, spec.groups, o.g, o'.g);
    } else if o.ZoneOwner? {
      OneZone(spec.gateway, spec.zones, o.z, o'.z);
    }
  }

  lemma OneGroup(gw: GatewaySpec, groups: seq<GroupSpec>, g: GroupSpec, h: GroupSpec)
    requires GroupsOk(gw, groups, |groups|) && g in groups && h in groups && Underscored(g.slug) == Underscored(h.slug)
    ensures g == h
  {
    var i :| 0 <= i < |groups| && groups[i] == g;
    var j :| 0 <= j < |groups| && groups[j] == h;
    assert i == j;
  }

  lemma OneZone(gw: GatewaySpec, zones: seq<ZoneSpec>, y: ZoneSpec, z: ZoneSpec)
    requires ZonesOk(gw, zones, |zones|) && y in zones && z in zones && Underscored(y.slug) == Underscored(z.slug)
    ensures y == z
  {
    var i :| 0 <= i < |zones| && zones[i] == y;
    var j :| 0 <= j < |zones| && zones[j] == z;
    assert i == j;
  }

  /** Owners with the same name parts are of one kind. */
  lemma SameParts(o: Owner, o': Owner)
    requires NamePrefix(o) == NamePrefix(o') && NameMiddle(o) == NameMiddle(o')
    ensures o.GroupOwner? <==> o'.GroupOwner?
    ensures o.ZoneOwner? <==> o'.ZoneOwner?
    ensures o.InternalOwner? <==> o'.InternalOwner?
  {
    var p, q := NamePrefix(o), NamePrefix(o');
    assert p[0] == q[0];
    if !o.GroupOwner? && !o.ZoneOwner? {
      var m, n := NameMiddle(o), NameMiddle(o');
      assert m[1] == if o.InternalOwner? then 'i' else 'q';
      assert n[1] == m[1];
    }
  }

  function NamePrefix(o: Owner): string {
    match o
    case GroupOwner(_) => "g_"
    case ZoneOwner(_) => "z_"
    case _ => "fg"
  }

  function NameMiddle(o: Owner): string {
    match o
    case GroupOwner(g) => Underscored(g.slug)
    case ZoneOwner(z) => Underscored(z.slug)
    case InternalOwner => "_internal"
    case QuarantineOwner => "_quarantine"
  }

  /** Looking a set up by its emitted name finds that set's elements and no others. */
  lemma LookupByName(spec: RulesetSpec, o: Owner, f: Family, a: Address)
    requires Valid(spec) && Owns(spec, o)
    ensures Member(RenderSets(spec), DeclOf(spec, o, f).name, a) <==> Covered(DeclOf(spec, o, f).elements, a)
  {
    OwnerIsDeclared(spec, o, f);
    if Member(RenderSets(spec), DeclOf(spec, o, f).name, a) {
      var d :| d in RenderSets(spec) && d.name == DeclOf(spec, o, f).name && Covered(d.elements, a);
      var o', f' := DeclaredHasOwner(spec, d);
      NameIsUnique(spec, o, f, o', f');
    }
  }

  // ----- what the emitted set names mean -----

  lemma GroupNameMeans(spec: RulesetSpec, g: GroupSpec, a: Address)
    requires Valid(spec) && g in spec.groups
    ensures Member(RenderSets(spec), GroupSetName(g.slug, a.family), a) <==> InGroup(spec, g.slug, a)
  {
    LookupByName(spec, GroupOwner(g), a.family, a);
    GroupMembersMean(spec, g.slug, a);
  }

  lemma ZoneNameMeans(spec: RulesetSpec, z: ZoneSpec, a: Address)
    requires Valid(spec) && z in spec.zones
    ensures Member(RenderSets(spec), ZoneSetName(z.slug, a.family), a) <==> InZone(spec, z, a)
  {
    LookupByName(spec, ZoneOwner(z), a.family, a);
    ZoneDeclMeans(spec, z, a);
  }

  /** The zone's own declaration: its name, and the members it covers. */
  lemma ZoneDeclMeans(spec: RulesetSpec, z: ZoneSpec, a: Address)
    ensures var d := DeclOf(spec, ZoneOwner(z), a.family);
            d.name == ZoneSetName(z.slug, a.family) && (Covered(d.elements, a) <==> InZone(spec, z, a))
  {
    ZoneMembersMean(spec, z, a);
  }

  lemma QuarantineNameMeans(spec: RulesetSpec, a: Address)
    requires Valid(spec)
    ensures Member(RenderSets(spec), QuarantineSetName(a.family), a) <==> Confined(spec, a)
  {
    LookupByName(spec, QuarantineOwner, a.family, a);
    ConfinedMembersMean(spec, a);
  }

  lemma InternalNameMeans(spec: RulesetSpec, a: Address)
    requires Valid(spec)
    ensures Member(RenderSets(spec), InternalSetName(a.family), a) <==> Internal(spec, a)
  {
    LookupByName(spec, InternalOwner, a.family, a);
    NetworksCover(spec.gateway.internalCidrs, a);
  }

  // ----- the interface to the chains -----

  lemma GroupOf(spec: RulesetSpec, slug: string) returns (g: GroupSpec)
    requires slug in GroupSlugs(spec)
    ensures g in spec.groups && g.slug == slug
  {
    var i :| 0 <= i < |spec.groups| && SlugsOfGroups(spec.groups)[i] == slug;
    g := spec.groups[i];
  }

  lemma ZoneOf(spec: RulesetSpec, slug: string) returns (z: ZoneSpec)
    requires slug in ZoneSlugs(spec)
    ensures z in spec.zones && z.slug == slug
  {
    var i :| 0 <= i < |spec.zones| && SlugsOfZones(spec.zones)[i] == slug;
    z := spec.zones[i];
  }

  /** In a valid specification a slug names one zone. */
  lemma ZoneSlugIsUnique(spec: RulesetSpec, y: ZoneSpec, z: ZoneSpec)
    requires Valid(spec) && y in spec.zones && z in spec.zones && y.slug == z.slug
    ensures y == z
  {
    var i :| 0 <= i < |spec.zones| && spec.zones[i] == y;
    var j :| 0 <= j < |spec.zones| && spec.zones[j] == z;
    assert i == j;
  }

  lemma ZoneNamed(spec: RulesetSpec, z: ZoneSpec, a: Address)
    requires Valid(spec) && z in spec.zones
    ensures InZoneNamed(spec, z.slug, a) <==> InZone(spec, z, a)
  {
    if InZoneNamed(spec, z.slug, a) {
      var y :| y in spec.zones && y.slug == z.slug && InZone(spec, y, a);
      ZoneSlugIsUnique(spec, y, z);
    }
  }

  /** Looked up by name, the declared sets hold exactly the addresses the policy speaks of. */
  ghost predicate Represents(sets: seq<SetDecl>, spec: RulesetSpec) {
    && (forall s, a: Address :: s in GroupSlugs(spec) ==>
          (Member(sets, GroupSetName(s, a.family), a) <==> InGroup(spec, s, a)))
    && (forall s, a: Address :: s in ZoneSlugs(spec) ==>
          (Member(sets, ZoneSetName(s, a.family), a) <==> InZoneNamed(spec, s, a)))
    && (forall a: Address :: Member(sets, QuarantineSetName(a.family), a) <==> Confined(spec, a))
    && (forall a: Address :: Member(sets, InternalSetName(a.family), a) <==> Internal(spec, a))
  }

  lemma RenderedSetsRepresent(spec: RulesetSpec)
    requires Valid(spec)
    ensures Represents(RenderSets(spec), spec)
  {
    var sets := RenderSets(spec);
    forall s, a: Address | s in GroupSlugs(spec)
      ensures Member(sets, GroupSetName(s, a.family), a) <==> InGroup(spec, s, a)
    {
      var g := GroupOf(spec, s);
      GroupNameMeans(spec, g, a);
    }
    forall s, a: Address | s in ZoneSlugs(spec)
      ensures Member(sets, ZoneSetName(s, a.family), a) <==> InZoneNamed(spec, s, a)
    {
      var z := ZoneOf(spec, s);
      ZoneNameMeans(spec, z, a);
      ZoneNamed(spec, z, a);
    }
    forall a: Address
      ensures Member(sets, QuarantineSetName(a.family), a) <==> Confined(spec, a)
      ensures Member(sets, InternalSetName(a.family), a) <==> Internal(spec, a)
    {
      QuarantineNameMeans(spec, a);
      InternalNameMeans(spec, a);
    }
  }
}
