/**
 Validity does not depend on order either, so byte stability holds of every reordering of a
 valid specification.
 */
module NftReordering {
  import opened Wrappers
  import opened Ordering
  import opened Net
  import opened Grammar
  import opened NftModel
  import opened NftGenerator
  import opened NftValidation
  import opened NftStability

  ghost predicate OtherName(g: GroupSpec, h: GroupSpec) { Underscored(g.slug) != Underscored(h.slug) }

  ghost predicate OtherZone(y: ZoneSpec, z: ZoneSpec) { Underscored(y.slug) != Underscored(z.slug) }

  ghost predicate OtherRule(q: RuleSpec, r: RuleSpec) { q.id != r.id }

  ghost predicate OtherRoute(q: RouteSpec, r: RouteSpec) { ParseCidr(q.cidr) != ParseCidr(r.cidr) }

  ghost predicate OtherPeer(p: PeerSpec, q: PeerSpec) {
    p.id != q.id && forall a :: p.Holds(a) ==> !q.Holds(a)
  }

  ghost predicate OtherFamily(s: AddressText, t: AddressText) {
    s.AddressText? && t.AddressText? ==> s.address.family != t.address.family
  }

  lemma GroupsShuffled(gw: GatewaySpec, a: seq<GroupSpec>, b: seq<GroupSpec>)
    requires multiset(a) == multiset(b) && GroupsOk(gw, a, |a|)
    ensures GroupsOk(gw, b, |b|)
  {
    assert Pairwise(a, OtherName);
    PairwisePermutation(a, b, OtherName);
    forall i | 0 <= i < |b|
      ensures GroupOk(gw, b[i])
    {
      SameMembers(a, b, b[i]);
    }
    forall i, j | 0 <= i < j < |b|
      ensures Underscored(b[i].slug) != Underscored(b[j].slug)
    {
      assert OtherName(b[i], b[j]);
    }
  }

  lemma ZonesShuffled(gw: GatewaySpec, a: seq<ZoneSpec>, b: seq<ZoneSpec>)
    requires multiset(a) == multiset(b) && ZonesOk(gw, a, |a|)
    ensures ZonesOk(gw, b, |b|)
  {
    assert Pairwise(a, OtherZone);
    PairwisePermutation(a, b, OtherZone);
    forall i | 0 <= i < |b|
      ensures ZoneOk(gw, b[i])
    {
      SameMembers(a, b, b[i]);
    }
    forall i, j | 0 <= i < j < |b|
      ensures Underscored(b[i].slug) != Underscored(b[j].slug)
    {
      assert OtherZone(b[i], b[j]);
    }
  }

  lemma RoutesShuffled(a: seq<RouteSpec>, b: seq<RouteSpec>)
    requires multiset(a) == multiset(b) && RoutesOk(a, |a|)
    ensures RoutesOk(b, |b|)
  {
    assert Pairwise(a, OtherRoute);
    PairwisePermutation(a, b, OtherRoute);
    forall i | 0 <= i < |b|
      ensures ParseCidr(b[i].cidr).Some? && !IsDefault(ParseCidr(b[i].cidr).value)
    {
      SameMembers(a, b, b[i]);
    }
    forall i, j | 0 <= i < j < |b|
      ensures ParseCidr(b[i].cidr) != ParseCidr(b[j].cidr)
    {
      assert OtherRoute(b[i], b[j]);
    }
  }

  lemma PeersShuffled(groups: set<string>, zones: set<string>, a: seq<PeerSpec>, b: seq<PeerSpec>)
    requires multiset(a) == multiset(b) && PeersOk(groups, zones, a, |a|)
    ensures PeersOk(groups, zones, b, |b|)
  {
    forall i, j | 0 <= i < |a| && 0 <= j < |a| && i != j
      ensures OtherPeer(a[i], a[j])
    {
    }
    PairwisePermutation(a, b, OtherPeer);
    forall i | 0 <= i < |b|
      ensures PeerOk(groups, zones, b[i])
    {
      SameMembers(a, b, b[i]);
    }
    assert forall i, j :: 0 <= i < |b| && 0 <= j < |b| && i != j ==> OtherPeer(b[i], b[j]);
  }

  lemma RulesShuffled(groups: set<string>, zones: set<string>, a: seq<RuleSpec>, b: seq<RuleSpec>)
    requires multiset(a) == multiset(b) && RulesOk(groups, zones, a, |a|)
    ensures RulesOk(groups, zones, b, |b|)
  {
    assert Pairwise(a, OtherRule);
    PairwisePermutation(a, b, OtherRule);
    forall i | 0 <= i < |b|
      ensures RuleOk(groups, zones, b[i])
    {
      SameMembers(a, b, b[i]);
    }
    forall i, j | 0 <= i < j < |b|
      ensures b[i].id != b[j].id
    {
      assert OtherRule(b[i], b[j]);
    }
  }

  lemma GatewayShuffled(g: GatewaySpec, h: GatewaySpec)
    requires GatewayOk(g) && GatewayReordered(g, h)
    ensures GatewayOk(h)
  {
    SameGatewayFields(g, h);
    var x, y := g.portalAddresses, h.portalAddresses;
    assert Pairwise(x, OtherFamily);
    PairwisePermutation(x, y, OtherFamily);
    forall i | 0 <= i < |y|
      ensures y[i].AddressText?
    {
      SameMembers(x, y, y[i]);
    }
    forall i, j | 0 <= i < j < |y|
      ensures y[i].address.family != y[j].address.family
    {
      assert OtherFamily(y[i], y[j]);
    }
    forall c | c in h.internalCidrs
      ensures ParseCidr(c).Some?
    {
      SameMembers(g.internalCidrs, h.internalCidrs, c);
    }
  }

  // ----- who carries what -----

  ghost predicate RouteClaimsIt(r: RouteSpec, n: Network, p: string) {
    ParseCidr(r.cidr) == Some(n) && r.viaPeerId == Some(p)
  }

  lemma {:induction false} RouteClaimsMean(routes: seq<RouteSpec>, k: nat, n: Network, p: string)
    requires k <= |routes|
    ensures (n, p) in RouteClaims(routes, k) <==> exists i :: 0 <= i < k && RouteClaimsIt(routes[i], n, p)
  {
    if k != 0 {
      RouteClaimsMean(routes, k - 1, n, p);
      assert (n, p) in RouteClaims(routes, k) <==> (n, p) in RouteClaims(routes, k - 1) || RouteClaimsIt(routes[k - 1], n, p);
    }
  }

  ghost predicate ZoneClaimsIt(z: ZoneSpec, n: Network, p: string) {
    exists r :: r in z.routes && RouteClaimsIt(r, n, p)
  }

  lemma OneZoneClaims(z: ZoneSpec, n: Network, p: string)
    ensures (n, p) in RouteClaims(z.routes, |z.routes|) <==> ZoneClaimsIt(z, n, p)
  {
    RouteClaimsMean(z.routes, |z.routes|, n, p);
  }

  lemma {:induction false} ZoneClaimsMean(zones: seq<ZoneSpec>, k: nat, n: Network, p: string)
    requires k <= |zones|
    ensures (n, p) in ZoneClaims(zones, k)
       <==> exists i :: 0 <= i < k && ZoneClaimsIt(zones[i], n, p)
  {
    if k != 0 {
      ZoneClaimsMean(zones, k - 1, n, p);
      OneZoneClaims(zones[k - 1], n, p);
    }
  }

  lemma CarriesShuffled(a: seq<ZoneSpec>, b: seq<ZoneSpec>, n: Network, p: string)
    requires multiset(a) == multiset(b) && Carries(a, n, p)
    ensures Carries(b, n, p)
  {
    ZoneClaimsMean(a, |a|, n, p);
    ZoneClaimsMean(b, |b|, n, p);
    var i :| 0 <= i < |a| && ZoneClaimsIt(a[i], n, p);
    SameMembers(a, b, a[i]);
    var j :| 0 <= j < |b| && b[j] == a[i];
  }

  lemma CarriesReordered(a: seq<ZoneSpec>, b: seq<ZoneSpec>, n: Network, p: string)
    requires RoutesReordered(a, b) && Carries(a, n, p)
    ensures Carries(b, n, p)
  {
    ZoneClaimsMean(a, |a|, n, p);
    ZoneClaimsMean(b, |b|, n, p);
    var i :| 0 <= i < |a| && ZoneClaimsIt(a[i], n, p);
    var r :| r in a[i].routes && RouteClaimsIt(r, n, p);
    SameMembers(a[i].routes, b[i].routes, r);
  }

  lemma RoutesReorderedBack(a: seq<ZoneSpec>, b: seq<ZoneSpec>)
    requires RoutesReordered(a, b)
    ensures RoutesReordered(b, a)
  {
  }

  // ----- validity -----

  lemma SameSlugs(a: RulesetSpec, b: RulesetSpec)
    requires multiset(a.groups) == multiset(b.groups)
    requires multiset(a.zones) == multiset(b.zones) || RoutesReordered(a.zones, b.zones)
    ensures GroupSlugs(a) == GroupSlugs(b) && ZoneSlugs(a) == ZoneSlugs(b)
  {
    forall s
      ensures s in SlugsOfGroups(a.groups) <==> s in SlugsOfGroups(b.groups)
    {
      GroupSlugMoves(a.groups, b.groups, s);
      GroupSlugMoves(b.groups, a.groups, s);
    }
    forall s
      ensures s in SlugsOfZones(a.zones) <==> s in SlugsOfZones(b.zones)
    {
      ZoneSlugMoves(a.zones, b.zones, s);
      ZoneSlugMoves(b.zones, a.zones, s);
    }
  }

  lemma GroupSlugMoves(a: seq<GroupSpec>, b: seq<GroupSpec>, s: string)
    requires multiset(a) == multiset(b)
    ensures s in SlugsOfGroups(a) ==> s in SlugsOfGroups(b)
  {
    if s in SlugsOfGroups(a) {
      var i :| 0 <= i < |a| && SlugsOfGroups(a)[i] == s;
      SameMembers(a, b, a[i]);
      var j :| 0 <= j < |b| && b[j] == a[i];
      assert SlugsOfGroups(b)[j] == s;
    }
  }

  lemma ZoneSlugMoves(a: seq<ZoneSpec>, b: seq<ZoneSpec>, s: string)
    requires multiset(a) == multiset(b) || RoutesReordered(a, b) || RoutesReordered(b, a)
    ensures s in SlugsOfZones(a) ==> s in SlugsOfZones(b)
  {
    if s in SlugsOfZones(a) {
      var i :| 0 <= i < |a| && SlugsOfZones(a)[i] == s;
      if multiset(a) == multiset(b) {
        SameMembers(a, b, a[i]);
        var j :| 0 <= j < |b| && b[j] == a[i];
        assert SlugsOfZones(b)[j] == s;
      } else {
        assert a[i].(routes := []).slug == b[i].(routes := []).slug;
        assert SlugsOfZones(b)[i] == s;
      }
    }
  }

  lemma CarriersMove(a: RulesetSpec, b: RulesetSpec)
    requires CarriersOk(a.zones) && CarriersKnown(a.zones, a.peers)
    requires multiset(a.peers) == multiset(b.peers)
    requires forall n, p :: Carries(b.zones, n, p) ==> Carries(a.zones, n, p)
    ensures CarriersOk(b.zones) && CarriersKnown(b.zones, b.peers)
  {
    forall n, p | Carries(b.zones, n, p)
      ensures exists q :: q in b.peers && q.id == p
    {
      assert Carries(a.zones, n, p);
      var q :| q in a.peers && q.id == p;
      SameMembers(a.peers, b.peers, q);
    }
  }

  lemma ShuffledValid(a: RulesetSpec, b: RulesetSpec)
    requires Valid(a) && Shuffled(a, b)
    ensures Valid(b)
  {
    SameSlugs(a, b);
    GatewayShuffled(a.gateway, b.gateway);
    SameGatewayFields(a.gateway, b.gateway);
    assert forall g :: GroupOk(a.gateway, g) == GroupOk(b.gateway, g);
    assert forall z :: ZoneOk(a.gateway, z) == ZoneOk(b.gateway, z);
    GroupsShuffled(b.gateway, a.groups, b.groups);
    ZonesShuffled(b.gateway, a.zones, b.zones);
    PeersShuffled(GroupSlugs(a), ZoneSlugs(a), a.peers, b.peers);
    RulesShuffled(GroupSlugs(a), ZoneSlugs(a), a.rules, b.rules);
    forall n, p | Carries(b.zones, n, p)
      ensures Carries(a.zones, n, p)
    {
      CarriesShuffled(b.zones, a.zones, n, p);
    }
    CarriersMove(a, b);
  }

  lemma RoutesValid(a: RulesetSpec, zones: seq<ZoneSpec>)
    requires Valid(a) && RoutesReordered(a.zones, zones)
    ensures Valid(a.(zones := zones))
  {
    var b := a.(zones := zones);
    SameSlugs(a, b);
    forall i | 0 <= i < |zones|
      ensures ZoneOk(a.gateway, zones[i]) && zones[i].slug == a.zones[i].slug
    {
      assert a.zones[i].(routes := []) == zones[i].(routes := []);
      assert a.zones[i].slug == a.zones[i].(routes := []).slug;
      RoutesShuffled(a.zones[i].routes, zones[i].routes);
    }
    forall n, p | Carries(zones, n, p)
      ensures Carries(a.zones, n, p)
    {
      RoutesReorderedBack(a.zones, zones);
      CarriesReordered(zones, a.zones, n, p);
    }
    CarriersMove(a, b);
  }

  /**
   Byte stability: any reordering of a valid specification is valid and renders to the very
   same program.
   */
  lemma RenderingIsStable(a: RulesetSpec, b: RulesetSpec)
    requires Valid(a) && Reordered(a, b)
    ensures Valid(b)
    ensures Generate(a) == Generate(b)
  {
    var middle :| RoutesReordered(a.zones, middle) && multiset(middle) == multiset(b.zones);
    var c := a.(zones := middle);
    RoutesValid(a, middle);
    RoutesStable(a, middle);
    assert Shuffled(c, b);
    ShuffledValid(c, b);
    ShuffledStable(c, b);
  }
}
