/**
 Byte stability: the program does not depend on the order in which groups, zones, routes,
 peers, rules, internal networks and portal addresses are listed.
 */
module NftStability {
  import opened Wrappers
  import opened Ordering
  import opened Net
  import opened NftModel
  import opened NftProgram
  import opened NftGenerator
  import opened NftValidation
  import opened NftCorrectness

  // ----- reordering -----

  ghost predicate SameZone(y: ZoneSpec, z: ZoneSpec) {
    y.(routes := []) == z.(routes := []) && multiset(y.routes) == multiset(z.routes)
  }

  /** Zone by zone the same, with the routes of each in any order. */
  ghost predicate RoutesReordered(y: seq<ZoneSpec>, z: seq<ZoneSpec>) {
    |y| == |z| && forall i :: 0 <= i < |y| ==> SameZone(y[i], z[i])
  }

  ghost predicate ZonesReordered(y: seq<ZoneSpec>, z: seq<ZoneSpec>) {
    exists middle :: RoutesReordered(y, middle) && multiset(middle) == multiset(z)
  }

  ghost predicate GatewayReordered(g: GatewaySpec, h: GatewaySpec) {
    && g.(internalCidrs := [], portalAddresses := []) == h.(internalCidrs := [], portalAddresses := [])
    && multiset(g.internalCidrs) == multiset(h.internalCidrs)
    && multiset(g.portalAddresses) == multiset(h.portalAddresses)
  }

  ghost predicate Reordered(a: RulesetSpec, b: RulesetSpec) {
    && GatewayReordered(a.gateway, b.gateway)
    && multiset(a.groups) == multiset(b.groups)
    && multiset(a.peers) == multiset(b.peers)
    && multiset(a.rules) == multiset(b.rules)
    && ZonesReordered(a.zones, b.zones)
  }

  /** Reordering everything but the routes inside a zone. */
  ghost predicate Shuffled(a: RulesetSpec, b: RulesetSpec) {
    && GatewayReordered(a.gateway, b.gateway)
    && multiset(a.groups) == multiset(b.groups)
    && multiset(a.peers) == multiset(b.peers)
    && multiset(a.rules) == multiset(b.rules)
    && multiset(a.zones) == multiset(b.zones)
  }

  // ----- set contents -----

  lemma SamePeers(a: seq<PeerSpec>, b: seq<PeerSpec>, p: PeerSpec)
    requires multiset(a) == multiset(b)
    ensures p in a <==> p in b
  {
    SameMembers(a, b, p);
  }

  lemma GroupMembersStable(a: RulesetSpec, b: RulesetSpec, slug: string, f: Family)
    requires multiset(a.peers) == multiset(b.peers)
    ensures GroupMembers(a, slug, f) == GroupMembers(b, slug, f)
  {
    var x, y := GroupAddresses(a.peers, slug, f), GroupAddresses(b.peers, slug, f);
    forall p
      ensures p in a.peers <==> p in b.peers
    {
      SamePeers(a.peers, b.peers, p);
    }
    forall q: Address
      ensures q in x <==> q in y
    {
      GroupAddressesMean(a.peers, slug, f, q);
      GroupAddressesMean(b.peers, slug, f, q);
    }
    assert Elements(x) == Elements(y);
    AddressKeyInjective(x);
    SortedSetCanonical(x, y, AddressKey);
  }

  lemma ConfinedMembersStable(a: RulesetSpec, b: RulesetSpec, f: Family)
    requires multiset(a.peers) == multiset(b.peers)
    ensures ConfinedMembers(a, f) == ConfinedMembers(b, f)
  {
    var x, y := ConfinedAddresses(a.peers, f), ConfinedAddresses(b.peers, f);
    forall p
      ensures p in a.peers <==> p in b.peers
    {
      SamePeers(a.peers, b.peers, p);
    }
    forall q: Address
      ensures q in x <==> q in y
    {
      ConfinedAddressesMean(a.peers, f, q);
      ConfinedAddressesMean(b.peers, f, q);
    }
    assert Elements(x) == Elements(y);
    AddressKeyInjective(x);
    SortedSetCanonical(x, y, AddressKey);
  }

  lemma ZoneHostsStable(a: RulesetSpec, b: RulesetSpec, slug: string, f: Family)
    requires multiset(a.peers) == multiset(b.peers)
    ensures SortedSet(ZoneAddresses(a.peers, slug, f), AddressKey) == SortedSet(ZoneAddresses(b.peers, slug, f), AddressKey)
  {
    var x, y := ZoneAddresses(a.peers, slug, f), ZoneAddresses(b.peers, slug, f);
    forall p
      ensures p in a.peers <==> p in b.peers
    {
      SamePeers(a.peers, b.peers, p);
    }
    forall q: Address
      ensures q in x <==> q in y
    {
      ZoneAddressesMean(a.peers, slug, f, q);
      ZoneAddressesMean(b.peers, slug, f, q);
    }
    assert Elements(x) == Elements(y);
    AddressKeyInjective(x);
    SortedSetCanonical(x, y, AddressKey);
  }

  lemma NetworksStable(a: seq<CidrText>, b: seq<CidrText>, f: Family)
    requires forall c :: c in a <==> c in b
    ensures SortedSet(NetworksIn(a, f), NetworkKey) == SortedSet(NetworksIn(b, f), NetworkKey)
  {
    var x, y := NetworksIn(a, f), NetworksIn(b, f);
    forall n: Network
      ensures n in x <==> n in y
    {
      NetworksInMean(a, f, n);
      NetworksInMean(b, f, n);
    }
    assert Elements(x) == Elements(y);
    NetworkKeyInjective(x);
    SortedSetCanonical(x, y, NetworkKey);
  }

  lemma RouteCidrsStable(a: seq<RouteSpec>, b: seq<RouteSpec>, c: CidrText)
    requires multiset(a) == multiset(b)
    ensures c in RouteCidrs(a) ==> c in RouteCidrs(b)
  {
    if c in RouteCidrs(a) {
      var i :| 0 <= i < |a| && RouteCidrs(a)[i] == c;
      SameMembers(a, b, a[i]);
      var j :| 0 <= j < |b| && b[j] == a[i];
      assert RouteCidrs(b)[j] == c;
    }
  }

  lemma ZoneSetStable(a: RulesetSpec, b: RulesetSpec, y: ZoneSpec, z: ZoneSpec, f: Family)
    requires multiset(a.peers) == multiset(b.peers) && SameZone(y, z)
    ensures ZoneSet(a, y, f) == ZoneSet(b, z, f)
  {
    assert y.slug == y.(routes := []).slug == z.slug;
    ZoneHostsStable(a, b, y.slug, f);
    forall c
      ensures c in RouteCidrs(y.routes) <==> c in RouteCidrs(z.routes)
    {
      RouteCidrsStable(y.routes, z.routes, c);
      RouteCidrsStable(z.routes, y.routes, c);
    }
    NetworksStable(RouteCidrs(y.routes), RouteCidrs(z.routes), f);
  }

  lemma FixedSetsStable(a: RulesetSpec, b: RulesetSpec)
    requires multiset(a.peers) == multiset(b.peers)
    requires multiset(a.gateway.internalCidrs) == multiset(b.gateway.internalCidrs)
    ensures FixedSets(a) == FixedSets(b)
  {
    forall c
      ensures c in a.gateway.internalCidrs <==> c in b.gateway.internalCidrs
    {
      SameMembers(a.gateway.internalCidrs, b.gateway.internalCidrs, c);
    }
    NetworksStable(a.gateway.internalCidrs, b.gateway.internalCidrs, V4);
    NetworksStable(a.gateway.internalCidrs, b.gateway.internalCidrs, V6);
    ConfinedMembersStable(a, b, V4);
    ConfinedMembersStable(a, b, V6);
  }

  lemma {:induction false} GroupSetsStable(a: RulesetSpec, b: RulesetSpec, groups: seq<GroupSpec>)
    requires multiset(a.peers) == multiset(b.peers)
    ensures GroupSets(a, groups) == GroupSets(b, groups)
  {
    if groups != [] {
      GroupSetsStable(a, b, groups[1..]);
      GroupMembersStable(a, b, groups[0].slug, V4);
      GroupMembersStable(a, b, groups[0].slug, V6);
    }
  }

  lemma {:induction false} ZoneSetsStable(a: RulesetSpec, b: RulesetSpec, y: seq<ZoneSpec>, z: seq<ZoneSpec>)
    requires multiset(a.peers) == multiset(b.peers) && RoutesReordered(y, z)
    ensures ZoneSets(a, y) == ZoneSets(b, z)
  {
    if y != [] {
      ZoneSetsStable(a, b, y[1..], z[1..]);
      ZoneSetStable(a, b, y[0], z[0], V4);
      ZoneSetStable(a, b, y[0], z[0], V6);
    }
  }

  // ----- sorted lists -----

  lemma GroupOrder(a: RulesetSpec, b: RulesetSpec)
    requires Valid(a) && multiset(a.groups) == multiset(b.groups)
    ensures SortBy(a.groups, GroupKey) == SortBy(b.groups, GroupKey)
  {
    forall g, h | g in a.groups && h in a.groups && GroupKey(g) == GroupKey(h)
      ensures g == h
    {
      TextKeyInjective(g.slug, h.slug);
      var i :| 0 <= i < |a.groups| && a.groups[i] == g;
      var j :| 0 <= j < |a.groups| && a.groups[j] == h;
      assert i == j;
    }
    SortByCanonical(a.groups, b.groups, GroupKey);
  }

  lemma ZoneOrder(a: RulesetSpec, b: RulesetSpec)
    requires Valid(a) && multiset(a.zones) == multiset(b.zones)
    ensures SortBy(a.zones, ZoneKey) == SortBy(b.zones, ZoneKey)
  {
    forall g, h | g in a.zones && h in a.zones && ZoneKey(g) == ZoneKey(h)
      ensures g == h
    {
      TextKeyInjective(g.slug, h.slug);
      var i :| 0 <= i < |a.zones| && a.zones[i] == g;
      var j :| 0 <= j < |a.zones| && a.zones[j] == h;
      assert i == j;
    }
    SortByCanonical(a.zones, b.zones, ZoneKey);
  }

  lemma RuleOrder(a: RulesetSpec, b: RulesetSpec)
    requires Valid(a) && multiset(a.rules) == multiset(b.rules)
    ensures SortBy(a.rules, RuleKey) == SortBy(b.rules, RuleKey)
  {
    forall q, r | q in a.rules && r in a.rules && RuleKey(q) == RuleKey(r)
      ensures q == r
    {
      assert RuleKey(q)[1..] == TextKey(q.id) && RuleKey(r)[1..] == TextKey(r.id);
      TextKeyInjective(q.id, r.id);
      var i :| 0 <= i < |a.rules| && a.rules[i] == q;
      var j :| 0 <= j < |a.rules| && a.rules[j] == r;
      assert i == j;
    }
    SortByCanonical(a.rules, b.rules, RuleKey);
  }

  lemma {:induction false} InsertReordered(y: ZoneSpec, z: ZoneSpec, s: seq<ZoneSpec>, t: seq<ZoneSpec>)
    requires SameZone(y, z) && RoutesReordered(s, t)
    ensures RoutesReordered(Insert(y, s, ZoneKey), Insert(z, t, ZoneKey))
  {
    assert y.slug == y.(routes := []).slug == z.slug;
    if s != [] {
      assert s[0].slug == s[0].(routes := []).slug == t[0].slug;
      if !LexLeq(ZoneKey(y), ZoneKey(s[0])) {
        InsertReordered(y, z, s[1..], t[1..]);
      }
    }
  }

  lemma {:induction false} SortReordered(s: seq<ZoneSpec>, t: seq<ZoneSpec>)
    requires RoutesReordered(s, t)
    ensures RoutesReordered(SortBy(s, ZoneKey), SortBy(t, ZoneKey))
  {
    if s != [] {
      SortReordered(s[1..], t[1..]);
      InsertReordered(s[0], t[0], SortBy(s[1..], ZoneKey), SortBy(t[1..], ZoneKey));
    }
  }

  lemma {:induction false} LinesStable(y: seq<ZoneSpec>, z: seq<ZoneSpec>)
    requires RoutesReordered(y, z)
    ensures IntraZoneLines(y) == IntraZoneLines(z) && ExitZones(y) == ExitZones(z)
  {
    if y != [] {
      LinesStable(y[1..], z[1..]);
      assert y[0].(routes := []) == z[0].(routes := []);
    }
  }

  // ----- chains -----

  lemma {:induction false} FirstOfStable(a: seq<AddressText>, f: Family, p: Address)
    requires AddressText(p) in a && p.family == f
    requires forall q: Address :: AddressText(q) in a && q.family == f ==> q == p
    ensures FirstOf(a, f) == Some(p)
  {
    if a[0] != AddressText(p) {
      assert a == [a[0]] + a[1..];
      FirstOfStable(a[1..], f, p);
    }
  }

  lemma {:induction false} FirstOfNone(a: seq<AddressText>, f: Family)
    requires forall q: Address :: AddressText(q) in a ==> q.family != f
    ensures FirstOf(a, f) == None
  {
    if a != [] {
      assert a[0] in a;
      FirstOfNone(a[1..], f);
    }
  }

  lemma PortalStable(a: GatewaySpec, b: GatewaySpec, f: Family)
    requires GatewayOk(a) && GatewayReordered(a, b)
    ensures PortalDestination(a.portalAddresses, f) == PortalDestination(b.portalAddresses, f)
    ensures a.portalAddresses == [] <==> b.portalAddresses == []
  {
    var x, y := a.portalAddresses, b.portalAddresses;
    assert |x| == |multiset(x)| == |multiset(y)| == |y|;
    forall t
      ensures t in x <==> t in y
    {
      SameMembers(x, y, t);
    }
    if p: Address :| AddressText(p) in x && p.family == f {
      var i :| 0 <= i < |x| && x[i] == AddressText(p);
      forall q: Address | AddressText(q) in x && q.family == f
        ensures q == p
      {
        var j :| 0 <= j < |x| && x[j] == AddressText(q);
        assert i == j;
      }
      FirstOfStable(x, f, p);
      FirstOfStable(y, f, p);
    } else {
      FirstOfNone(x, f);
      FirstOfNone(y, f);
    }
  }

  lemma InputStable(a: RulesetSpec, b: RulesetSpec)
    requires GatewayOk(a.gateway) && GatewayReordered(a.gateway, b.gateway)
    ensures InputChain(a) == InputChain(b)
  {
    var g, h := a.gateway, b.gateway;
    PortalStable(g, h, V4);
    PortalStable(g, h, V6);
    SameGatewayFields(g, h);
    assert QuarantineAllowed(g) == QuarantineAllowed(h);
    assert InputTail(g) == InputTail(h);
  }

  lemma SameGatewayFields(g: GatewaySpec, h: GatewaySpec)
    requires GatewayReordered(g, h)
    ensures g.wg == h.wg && g.wan == h.wan && g.table == h.table && g.portalPort == h.portalPort
    ensures g.allowDnsInQuarantine == h.allowDnsInQuarantine && g.allowIcmpToGateway == h.allowIcmpToGateway
    ensures g.inputPolicy == h.inputPolicy && g.logDropped == h.logDropped && g.proxyPorts == h.proxyPorts
  {
    var x, y := g.(internalCidrs := [], portalAddresses := []), h.(internalCidrs := [], portalAddresses := []);
    assert x == y;
    assert g.wg == x.wg && h.wg == y.wg;
  }

  lemma {:induction false} ExitLinesStable(g: GatewaySpec, h: GatewaySpec, sources: seq<ExitSource>)
    requires g.wan == h.wan
    ensures ExitLines(g, sources) == ExitLines(h, sources) && NatLines(g, sources) == NatLines(h, sources)
  {
    if sources != [] {
      ExitLinesStable(g, h, sources[1..]);
    }
  }

  // ----- the two steps and the theorem -----

  lemma ShuffledStable(a: RulesetSpec, b: RulesetSpec)
    requires Valid(a) && Shuffled(a, b)
    ensures Generate(a) == Generate(b)
  {
    GroupOrder(a, b);
    ZoneOrder(a, b);
    RuleOrder(a, b);
    var zones := SortBy(a.zones, ZoneKey);
    assert RoutesReordered(zones, zones);
    FixedSetsStable(a, b);
    GroupSetsStable(a, b, SortBy(a.groups, GroupKey));
    ZoneSetsStable(a, b, zones, zones);
    InputStable(a, b);
    SameGatewayFields(a.gateway, b.gateway);
    ExitLinesStable(a.gateway, b.gateway, ExitSources(a));
  }

  lemma RoutesStable(a: RulesetSpec, zones: seq<ZoneSpec>)
    requires RoutesReordered(a.zones, zones)
    ensures Generate(a) == Generate(a.(zones := zones))
  {
    var b := a.(zones := zones);
    SortReordered(a.zones, zones);
    LinesStable(SortBy(a.zones, ZoneKey), SortBy(zones, ZoneKey));
    ZoneSetsStable(a, b, SortBy(a.zones, ZoneKey), SortBy(zones, ZoneKey));
    FixedSetsStable(a, b);
    GroupSetsStable(a, b, SortBy(a.groups, GroupKey));
  }
}
