/**
 `validate_spec`: what must hold before anything is emitted.

 `Valid` says it outright; `ValidateSpec` walks the specification as the generator does,
 collecting every problem, and finds none exactly when `Valid` holds.
 */
module NftValidation {
  import opened Wrappers
  import opened Net
  import opened Grammar
  import opened NftModel
  import opened NftGenerator

  datatype Problem =
    | BadTable | BadWg | BadWan | BadPortalPort | BadPortalAddress | TwoPortalAddresses(family: Family)
    | BadInternalCidr
    | BadSlug(slug: string) | DuplicateSlug(slug: string) | SetNameClash(slug: string, other: string)
    | ExitWithoutWan(slug: string)
    | BadRoute(zone: string) | DefaultRoute(zone: string) | DuplicateRoute(zone: string)
    | TwoCarriers(network: Network) | UnknownCarrier(network: Network)
    | GroupAndZone(slug: string)
    | DuplicatePeer(id: string) | UnknownGroup(slug: string) | UnknownZone(slug: string)
    | BadAddress(id: string) | WrongFamily(id: string) | AddressTaken(id: string, owner: string)
    | ActiveWithoutAddress(id: string)
    | BadRuleId(id: string) | DuplicateRule(id: string)
    | EndpointWithoutValue(id: string) | BadCidr(id: string)
    | PortsWithoutL4(id: string) | EndWithoutStart(id: string) | PortOutOfRange(id: string) | InvertedPorts(id: string)

  // ----- the requirement -----

  predicate HasWan(gw: GatewaySpec) {
    gw.wan.Some? && gw.wan.value != ""
  }

  predicate PortOk(p: int) { 1 <= p <= 65535 }

  ghost predicate PortalOk(addresses: seq<AddressText>, n: nat)
    requires n <= |addresses|
  {
    && (forall i :: 0 <= i < n ==> addresses[i].AddressText?)
    && (forall i, j :: 0 <= i < j < n ==> addresses[i].address.family != addresses[j].address.family)
  }

  ghost predicate GatewayOk(gw: GatewaySpec) {
    && MatchesTable(gw.table)
    && MatchesInterface(gw.wg)
    && (gw.wan.Some? ==> MatchesInterface(gw.wan.value))
    && 1 <= gw.portalPort <= 65535
    && PortalOk(gw.portalAddresses, |gw.portalAddresses|)
    && (forall c :: c in gw.internalCidrs ==> ParseCidr(c).Some?)
  }

  predicate GroupOk(gw: GatewaySpec, g: GroupSpec) {
    MatchesSlug(g.slug) && (g.internetExit ==> gw.wan.Some? && gw.wan.value != "")
  }

  ghost predicate GroupsOk(gw: GatewaySpec, groups: seq<GroupSpec>, n: nat)
    requires n <= |groups|
  {
    && (forall i :: 0 <= i < n ==> GroupOk(gw, groups[i]))
    && (forall i, j :: 0 <= i < j < n ==> Underscored(groups[i].slug) != Underscored(groups[j].slug))
  }

  ghost predicate RoutesOk(routes: seq<RouteSpec>, n: nat)
    requires n <= |routes|
  {
    && (forall i :: 0 <= i < n ==> ParseCidr(routes[i].cidr).Some? && !IsDefault(ParseCidr(routes[i].cidr).value))
    && (forall i, j :: 0 <= i < j < n ==> ParseCidr(routes[i].cidr) != ParseCidr(routes[j].cidr))
  }

  ghost predicate ZoneOk(gw: GatewaySpec, z: ZoneSpec) {
    MatchesSlug(z.slug) && (z.internetExit ==> gw.wan.Some? && gw.wan.value != "") && RoutesOk(z.routes, |z.routes|)
  }

  ghost predicate ZonesOk(gw: GatewaySpec, zones: seq<ZoneSpec>, n: nat)
    requires n <= |zones|
  {
    && (forall i :: 0 <= i < n ==> ZoneOk(gw, zones[i]))
    && (forall i, j :: 0 <= i < j < n ==> Underscored(zones[i].slug) != Underscored(zones[j].slug))
  }

  /** A network and the peer that carries it. */
  type Claim = (Network, string)

  function ClaimOf(r: RouteSpec): seq<Claim> {
    if r.viaPeerId.Some? && ParseCidr(r.cidr).Some? then [(ParseCidr(r.cidr).value, r.viaPeerId.value)] else []
  }

  function RouteClaims(routes: seq<RouteSpec>, n: nat): seq<Claim>
    requires n <= |routes|
  {
    if n == 0 then [] else RouteClaims(routes, n - 1) + ClaimOf(routes[n - 1])
  }

  function ZoneClaims(zones: seq<ZoneSpec>, n: nat): seq<Claim>
    requires n <= |zones|
  {
    if n == 0 then []
    else ZoneClaims(zones, n - 1) + RouteClaims(zones[n - 1].routes, |zones[n - 1].routes|)
  }

  /** Some zone routes `network` through `peer`. */
  ghost predicate Carries(zones: seq<ZoneSpec>, network: Network, peer: string) {
    (network, peer) in ZoneClaims(zones, |zones|)
  }

  ghost predicate CarriersOk(zones: seq<ZoneSpec>) {
    forall n, p, q :: Carries(zones, n, p) && Carries(zones, n, q) ==> p == q
  }

  ghost predicate AddressesOk(p: PeerSpec) {
    && (p.tunnelIp.Some? ==> p.tunnelIp.value.AddressText? && p.tunnelIp.value.address.family == V4)
    && (p.tunnelIp6.Some? ==> p.tunnelIp6.value.AddressText? && p.tunnelIp6.value.address.family == V6)
    && (p.state.Active? ==> p.tunnelIp.Some? || p.tunnelIp6.Some?)
  }

  ghost predicate PeerOk(groups: set<string>, zones: set<string>, p: PeerSpec) {
    && (forall s :: s in p.groupSlugs ==> s in groups)
    && (p.zoneSlug.Some? ==> p.zoneSlug.value in zones)
    && AddressesOk(p)
  }

  ghost predicate PeersOk(groups: set<string>, zones: set<string>, peers: seq<PeerSpec>, n: nat)
    requires n <= |peers|
  {
    && (forall i :: 0 <= i < n ==> PeerOk(groups, zones, peers[i]))
    && (forall i, j :: 0 <= i < j < n ==> peers[i].id != peers[j].id)
    && (forall i, j, a :: 0 <= i < n && 0 <= j < n && peers[i].Holds(a) && peers[j].Holds(a) ==> i == j)
  }

  predicate EndpointOk(groups: set<string>, zones: set<string>, e: Endpoint) {
    match e
    case AnyEndpoint => true
    case GroupEndpoint(s) => s.Some? && s.value != "" && s.value in groups
    case ZoneEndpoint(s) => s.Some? && s.value != "" && s.value in zones
    case CidrEndpoint(c) => c.Some? && ParseCidr(c.value).Some?
  }

  predicate PortsOk(r: RuleSpec) {
    || (r.portStart.None? && r.portEnd.None?)
    || (&& (r.protocol.Tcp? || r.protocol.Udp?)
        && r.portStart.Some? && 1 <= r.portStart.value <= 65535
        && (r.portEnd.Some? ==> r.portStart.value <= r.portEnd.value <= 65535))
  }

  predicate RuleOk(groups: set<string>, zones: set<string>, r: RuleSpec) {
    MatchesRuleId(r.id) && EndpointOk(groups, zones, r.src) && EndpointOk(groups, zones, r.dst) && PortsOk(r)
  }

  ghost predicate RulesOk(groups: set<string>, zones: set<string>, rules: seq<RuleSpec>, n: nat)
    requires n <= |rules|
  {
    && (forall i :: 0 <= i < n ==> RuleOk(groups, zones, rules[i]))
    && (forall i, j :: 0 <= i < j < n ==> rules[i].id != rules[j].id)
  }

  function SlugsOfGroups(groups: seq<GroupSpec>): (r: seq<string>)
    ensures |r| == |groups|
    ensures forall i :: 0 <= i < |r| ==> r[i] == groups[i].slug
  {
    seq(|groups|, i requires 0 <= i < |groups| => groups[i].slug)
  }

  function SlugsOfZones(zones: seq<ZoneSpec>): (r: seq<string>)
    ensures |r| == |zones|
    ensures forall i :: 0 <= i < |r| ==> r[i] == zones[i].slug
  {
    seq(|zones|, i requires 0 <= i < |zones| => zones[i].slug)
  }

  ghost function GroupSlugs(spec: RulesetSpec): set<string> {
    set s | s in SlugsOfGroups(spec.groups)
  }

  ghost function ZoneSlugs(spec: RulesetSpec): set<string> {
    set s | s in SlugsOfZones(spec.zones)
  }

  ghost predicate CarriersKnown(zones: seq<ZoneSpec>, peers: seq<PeerSpec>) {
    forall n, p :: Carries(zones, n, p) ==> exists q :: q in peers && q.id == p
  }

  ghost predicate Valid(spec: RulesetSpec) {
    && GatewayOk(spec.gateway)
    && GroupsOk(spec.gateway, spec.groups, |spec.groups|)
    && ZonesOk(spec.gateway, spec.zones, |spec.zones|)
    && CarriersOk(spec.zones)
    && GroupSlugs(spec) !! ZoneSlugs(spec)
    && PeersOk(GroupSlugs(spec), ZoneSlugs(spec), spec.peers, |spec.peers|)
    && CarriersKnown(spec.zones, spec.peers)
    && RulesOk(GroupSlugs(spec), ZoneSlugs(spec), spec.rules, |spec.rules|)
  }

  // ----- the walk -----

  method ValidatePortal(addresses: seq<AddressText>) returns (errors: seq<Problem>)
    ensures errors == [] <==> PortalOk(addresses, |addresses|)
  {
    errors := [];
    var seen: set<Family> := {};
    for i := 0 to |addresses|
      invariant forall f :: f in seen <==> exists k :: 0 <= k < i && addresses[k].AddressText? && addresses[k].address.family == f
      invariant errors == [] <==> PortalOk(addresses, i)
    {
      match addresses[i]
      case NotAnAddress =>
        errors := errors + [BadPortalAddress];
      case AddressText(a) =>
        if a.family in seen {
          errors := errors + [TwoPortalAddresses(a.family)];
        }
        seen := seen + {a.family};
    }
  }

  method ValidateCidrs(cidrs: seq<CidrText>) returns (errors: seq<Problem>)
    ensures errors == [] <==> forall c :: c in cidrs ==> ParseCidr(c).Some?
  {
    errors := [];
    for i := 0 to |cidrs|
      invariant errors == [] <==> forall k :: 0 <= k < i ==> ParseCidr(cidrs[k]).Some?
    {
      if ParseCidr(cidrs[i]).None? {
        errors := errors + [BadInternalCidr];
      }
    }
  }

  method ValidateGateway(gw: GatewaySpec) returns (errors: seq<Problem>)
    ensures errors == [] <==> GatewayOk(gw)
  {
    errors := [];
    if !MatchesTable(gw.table) { errors := errors + [BadTable]; }
    if !MatchesInterface(gw.wg) { errors := errors + [BadWg]; }
    if gw.wan.Some? && !MatchesInterface(gw.wan.value) { errors := errors + [BadWan]; }
    if !PortOk(gw.portalPort) { errors := errors + [BadPortalPort]; }
    var portal := ValidatePortal(gw.portalAddresses);
    var cidrs := ValidateCidrs(gw.internalCidrs);
    errors := errors + portal + cidrs;
  }

  /** What the walk remembers of the slugs it has passed: themselves, and who took which set name. */
  ghost predicate Remembers(slugs: seq<string>, seen: set<string>, setNames: map<string, string>) {
    && (forall s :: s in seen <==> s in slugs)
    && (forall s :: s in slugs ==> Underscored(s) in setNames)
    && (forall n :: n in setNames ==> setNames[n] in slugs && Underscored(setNames[n]) == n)
  }

  /** A slug is free when its set name is. */
  ghost predicate FreeName(slugs: seq<string>, slug: string) {
    forall s :: s in slugs ==> Underscored(s) != Underscored(slug)
  }

  method RegisterSlug(slug: string, seen: set<string>, setNames: map<string, string>, ghost slugs: seq<string>)
    returns (errors: seq<Problem>, seen': set<string>, setNames': map<string, string>)
    requires Remembers(slugs, seen, setNames)
    ensures Remembers(slugs + [slug], seen', setNames')
    ensures errors == [] <==> MatchesSlug(slug) && FreeName(slugs, slug)
  {
    errors := [];
    if !MatchesSlug(slug) { errors := errors + [BadSlug(slug)]; }
    if slug in seen { errors := errors + [DuplicateSlug(slug)]; }
    seen' := seen + {slug};
    var normalised := Underscored(slug);
    if normalised in setNames && setNames[normalised] != slug {
      errors := errors + [SetNameClash(slug, setNames[normalised])];
    }
    setNames' := setNames[normalised := slug];
  }

  lemma GroupsOkStep(gw: GatewaySpec, groups: seq<GroupSpec>, i: nat)
    requires i < |groups|
    ensures GroupsOk(gw, groups, i + 1)
       <==> GroupsOk(gw, groups, i) && GroupOk(gw, groups[i]) && FreeName(SlugsOfGroups(groups)[..i], groups[i].slug)
  {
    var before := SlugsOfGroups(groups)[..i];
    forall k | 0 <= k < i
      ensures groups[k].slug in before
    {
      assert before[k] == groups[k].slug;
    }
  }

  lemma ZonesOkStep(gw: GatewaySpec, zones: seq<ZoneSpec>, i: nat)
    requires i < |zones|
    ensures ZonesOk(gw, zones, i + 1)
       <==> ZonesOk(gw, zones, i) && ZoneOk(gw, zones[i]) && FreeName(SlugsOfZones(zones)[..i], zones[i].slug)
  {
    var before := SlugsOfZones(zones)[..i];
    forall k | 0 <= k < i
      ensures zones[k].slug in before
    {
      assert before[k] == zones[k].slug;
    }
  }

  method ValidateGroup(gw: GatewaySpec, g: GroupSpec, seen: set<string>, setNames: map<string, string>, ghost slugs: seq<string>)
    returns (errors: seq<Problem>, seen': set<string>, setNames': map<string, string>)
    requires Remembers(slugs, seen, setNames)
    ensures Remembers(slugs + [g.slug], seen', setNames')
    ensures errors == [] <==> GroupOk(gw, g) && FreeName(slugs, g.slug)
  {
    errors, seen', setNames' := RegisterSlug(g.slug, seen, setNames, slugs);
    if g.internetExit && !HasWan(gw) { errors := errors + [ExitWithoutWan(g.slug)]; }
  }

  method WalkGroup(gw: GatewaySpec, groups: seq<GroupSpec>, i: nat, errors: seq<Problem>, seen: set<string>, setNames: map<string, string>)
    returns (errors': seq<Problem>, seen': set<string>, setNames': map<string, string>)
    requires i < |groups| && Remembers(SlugsOfGroups(groups)[..i], seen, setNames)
    requires errors == [] <==> GroupsOk(gw, groups, i)
    ensures Remembers(SlugsOfGroups(groups)[..i + 1], seen', setNames')
    ensures errors' == [] <==> GroupsOk(gw, groups, i + 1)
  {
    ghost var slugs := SlugsOfGroups(groups);
    GroupsOkStep(gw, groups, i);
    assert slugs[..i] + [groups[i].slug] == slugs[..i + 1];
    errors', seen', setNames' := ValidateGroup(gw, groups[i], seen, setNames, slugs[..i]);
    errors' := errors + errors';
  }

  method ValidateGroups(gw: GatewaySpec, groups: seq<GroupSpec>) returns (errors: seq<Problem>, seen: set<string>)
    ensures forall s :: s in seen <==> s in SlugsOfGroups(groups)
    ensures errors == [] <==> GroupsOk(gw, groups, |groups|)
  {
    errors, seen := [], {};
    var setNames: map<string, string> := map[];
    for i := 0 to |groups|
      invariant Remembers(SlugsOfGroups(groups)[..i], seen, setNames)
      invariant errors == [] <==> GroupsOk(gw, groups, i)
    {
      errors, seen, setNames := WalkGroup(gw, groups, i, errors, seen, setNames);
    }
    assert SlugsOfGroups(groups)[..|groups|] == SlugsOfGroups(groups);
  }

  method ValidateRoutes(zone: string, routes: seq<RouteSpec>) returns (errors: seq<Problem>)
    ensures errors == [] <==> RoutesOk(routes, |routes|)
  {
    errors := [];
    var seen: set<Network> := {};
    for i := 0 to |routes|
      invariant forall n :: n in seen <==> exists k :: 0 <= k < i && ParseCidr(routes[k].cidr) == Some(n)
      invariant errors == [] <==> RoutesOk(routes, i)
    {
      match ParseCidr(routes[i].cidr)
      case None =>
        errors := errors + [BadRoute(zone)];
      case Some(n) =>
        if IsDefault(n) { errors := errors + [DefaultRoute(zone)]; }
        if n in seen { errors := errors + [DuplicateRoute(zone)]; }
        seen := seen + {n};
    }
  }

  /** A zone apart from its slug. */
  method ValidateZone(gw: GatewaySpec, z: ZoneSpec) returns (errors: seq<Problem>)
    ensures errors == [] <==> (z.internetExit ==> HasWan(gw)) && RoutesOk(z.routes, |z.routes|)
  {
    errors := if z.internetExit && !HasWan(gw) then [ExitWithoutWan(z.slug)] else [];
    var routes := ValidateRoutes(z.slug, z.routes);
    errors := errors + routes;
  }

  method ValidateZones(gw: GatewaySpec, zones: seq<ZoneSpec>) returns (errors: seq<Problem>, seen: set<string>)
    ensures forall s :: s in seen <==> s in SlugsOfZones(zones)
    ensures errors == [] <==> ZonesOk(gw, zones, |zones|)
  {
    errors, seen := [], {};
    var setNames: map<string, string> := map[];
    ghost var slugs := SlugsOfZones(zones);
    for i := 0 to |zones|
      invariant Remembers(slugs[..i], seen, setNames)
      invariant errors == [] <==> ZonesOk(gw, zones, i)
    {
      var problems;
      problems, seen, setNames := RegisterSlug(zones[i].slug, seen, setNames, slugs[..i]);
      assert slugs[..i] + [slugs[i]] == slugs[..i + 1];
      ZonesOkStep(gw, zones, i);
      var others := ValidateZone(gw, zones[i]);
      errors := errors + problems + others;
    }
    assert slugs[..|zones|] == slugs;
  }

  // The carriers: who routes which network, over every zone.

  /** `carriers` knows a carrier of every claimed network; no problem so far means each has one. */
  ghost predicate Tracks(claims: seq<Claim>, carriers: map<Network, string>, clean: bool) {
    && (forall n :: n in carriers ==> (n, carriers[n]) in claims)
    && (forall c :: c in claims ==> c.0 in carriers)
    && (clean <==> forall c :: c in claims ==> carriers[c.0] == c.1)
  }

  method RegisterCarrier(n: Network, peer: string, errors: seq<Problem>, carriers: map<Network, string>, ghost claims: seq<Claim>)
    returns (errors': seq<Problem>, carriers': map<Network, string>)
    requires Tracks(claims, carriers, errors == [])
    ensures Tracks(claims + [(n, peer)], carriers', errors' == [])
  {
    errors' := errors;
    if n in carriers && carriers[n] != peer {
      errors' := errors + [TwoCarriers(n)];
    }
    carriers' := carriers[n := peer];
  }

  /** One route more, one claim more, or none. */
  lemma ClaimsStep(routes: seq<RouteSpec>, j: nat, claims: seq<Claim>)
    requires j < |routes|
    ensures claims + RouteClaims(routes, j + 1) == (claims + RouteClaims(routes, j)) + ClaimOf(routes[j])
  {
    assert RouteClaims(routes, j + 1) == RouteClaims(routes, j) + ClaimOf(routes[j]);
  }

  method RegisterRoute(r: RouteSpec, errors: seq<Problem>, carriers: map<Network, string>, ghost claims: seq<Claim>)
    returns (errors': seq<Problem>, carriers': map<Network, string>)
    requires Tracks(claims, carriers, errors == [])
    ensures Tracks(claims + ClaimOf(r), carriers', errors' == [])
  {
    if r.viaPeerId.Some? && ParseCidr(r.cidr).Some? {
      errors', carriers' := RegisterCarrier(ParseCidr(r.cidr).value, r.viaPeerId.value, errors, carriers, claims);
    } else {
      errors', carriers' := errors, carriers;
      assert claims + ClaimOf(r) == claims;
    }
  }

  method RegisterCarriers(routes: seq<RouteSpec>, errors: seq<Problem>, carriers: map<Network, string>, ghost claims: seq<Claim>)
    returns (errors': seq<Problem>, carriers': map<Network, string>)
    requires Tracks(claims, carriers, errors == [])
    ensures Tracks(claims + RouteClaims(routes, |routes|), carriers', errors' == [])
  {
    errors', carriers' := errors, carriers;
    assert claims + RouteClaims(routes, 0) == claims;
    for j := 0 to |routes|
      invariant Tracks(claims + RouteClaims(routes, j), carriers', errors' == [])
    {
      ghost var before := claims + RouteClaims(routes, j);
      errors', carriers' := RegisterRoute(routes[j], errors', carriers', before);
      ClaimsStep(routes, j, claims);
    }
  }

  method ValidateCarriers(zones: seq<ZoneSpec>) returns (errors: seq<Problem>, carriers: map<Network, string>)
    ensures errors == [] <==> CarriersOk(zones)
    ensures forall n :: n in carriers ==> Carries(zones, n, carriers[n])
    ensures forall n, p :: Carries(zones, n, p) ==> n in carriers
  {
    errors, carriers := [], map[];
    for i := 0 to |zones|
      invariant Tracks(ZoneClaims(zones, i), carriers, errors == [])
    {
      errors, carriers := RegisterCarriers(zones[i].routes, errors, carriers, ZoneClaims(zones, i));
    }
    TrackedMeansOk(zones, carriers, errors == []);
  }

  lemma TrackedMeansOk(zones: seq<ZoneSpec>, carriers: map<Network, string>, clean: bool)
    requires Tracks(ZoneClaims(zones, |zones|), carriers, clean)
    ensures clean <==> CarriersOk(zones)
  {
    if !clean {
      var c :| c in ZoneClaims(zones, |zones|) && carriers[c.0] != c.1;
      assert Carries(zones, c.0, c.1) && Carries(zones, c.0, carriers[c.0]);
    }
  }

  // ----- peers and rules -----

  method ValidateAddress(id: string, text: Option<AddressText>, family: Family, seen: map<Address, string>)
    returns (errors: seq<Problem>, seen': map<Address, string>)
    ensures errors == [] <==> (text.Some? ==> && text.value.AddressText?
                                              && text.value.address.family == family
                                              && (text.value.address in seen ==> seen[text.value.address] == id))
    ensures seen' == EnterOne(seen, id, text, family)
  {
    errors, seen' := [], seen;
    match text
    case None =>
    case Some(NotAnAddress) =>
      errors := [BadAddress(id)];
    case Some(AddressText(a)) =>
      if a.family != family {
        errors := [WrongFamily(id)];
      } else {
        if a in seen && seen[a] != id {
          errors := [AddressTaken(id, seen[a])];
        }
        seen' := seen[a := id];
      }
  }

  ghost predicate Owned(peers: seq<PeerSpec>, n: nat, seen: map<Address, string>)
    requires n <= |peers|
  {
    && (forall a :: a in seen ==> exists k :: 0 <= k < n && peers[k].Holds(a) && peers[k].id == seen[a])
    && (forall k, a :: 0 <= k < n && peers[k].Holds(a) && AddressesOk(peers[k]) ==> a in seen)
  }

  method ValidateMembership(p: PeerSpec, groups: set<string>, zones: set<string>) returns (errors: seq<Problem>)
    ensures errors == [] <==> (forall s :: s in p.groupSlugs ==> s in groups) && (p.zoneSlug.Some? ==> p.zoneSlug.value in zones)
  {
    errors := [];
    for i := 0 to |p.groupSlugs|
      invariant errors == [] <==> forall k :: 0 <= k < i ==> p.groupSlugs[k] in groups
    {
      if p.groupSlugs[i] !in groups { errors := errors + [UnknownGroup(p.groupSlugs[i])]; }
    }
    if p.zoneSlug.Some? && p.zoneSlug.value !in zones { errors := errors + [UnknownZone(p.zoneSlug.value)]; }
  }

  /** No earlier peer holds an address of this one. */
  ghost predicate FreshAddresses(peers: seq<PeerSpec>, i: nat)
    requires i < |peers|
  {
    forall k, a :: 0 <= k < i && peers[k].Holds(a) ==> !peers[i].Holds(a)
  }

  lemma FreshMeans(peers: seq<PeerSpec>, i: nat, seen: map<Address, string>)
    requires i < |peers| && Owned(peers, i, seen)
    requires forall k :: 0 <= k < i ==> AddressesOk(peers[k]) && peers[k].id != peers[i].id
    ensures FreshAddresses(peers, i) <==> forall a :: peers[i].Holds(a) && a in seen ==> seen[a] == peers[i].id
  {
    if !FreshAddresses(peers, i) {
      var k, a :| 0 <= k < i && peers[k].Holds(a) && peers[i].Holds(a);
      assert a in seen && seen[a] != peers[i].id;
    }
  }

  /** `seen` after a peer's addresses of the right family were entered under its id. */
  function Enter(seen: map<Address, string>, p: PeerSpec): map<Address, string> {
    EnterOne(EnterOne(seen, p.id, p.tunnelIp, V4), p.id, p.tunnelIp6, V6)
  }

  function EnterOne(seen: map<Address, string>, id: string, text: Option<AddressText>, family: Family): map<Address, string> {
    if text.Some? && text.value.AddressText? && text.value.address.family == family
    then seen[text.value.address := id] else seen
  }

  lemma OwnedStep(peers: seq<PeerSpec>, i: nat, seen: map<Address, string>)
    requires i < |peers| && Owned(peers, i, seen)
    ensures Owned(peers, i + 1, Enter(seen, peers[i]))
  {
    var p := peers[i];
    var after := Enter(seen, p);
    forall a | a in after
      ensures exists k :: 0 <= k < i + 1 && peers[k].Holds(a) && peers[k].id == after[a]
    {
      if p.Holds(a) {
        assert after[a] == p.id;
      } else {
        assert a in seen && after[a] == seen[a];
      }
    }
  }

  method ValidateAddresses(p: PeerSpec, seen: map<Address, string>)
    returns (errors: seq<Problem>, seen': map<Address, string>)
    ensures seen' == Enter(seen, p)
    ensures errors == [] <==> AddressesOk(p) && forall a :: p.Holds(a) && a in seen ==> seen[a] == p.id
  {
    var v4, seen4 := ValidateAddress(p.id, p.tunnelIp, V4, seen);
    var v6, seen6 := ValidateAddress(p.id, p.tunnelIp6, V6, seen4);
    errors, seen' := v4 + v6, seen6;
    if p.state.Active? && p.tunnelIp.None? && p.tunnelIp6.None? { errors := errors + [ActiveWithoutAddress(p.id)]; }
  }

  lemma PeersOkStep(groups: set<string>, zones: set<string>, peers: seq<PeerSpec>, i: nat)
    requires i < |peers|
    ensures PeersOk(groups, zones, peers, i + 1)
       <==> && PeersOk(groups, zones, peers, i)
            && PeerOk(groups, zones, peers[i])
            && (forall k :: 0 <= k < i ==> peers[k].id != peers[i].id)
            && FreshAddresses(peers, i)
  {
  }

  method ValidatePeers(groups: set<string>, zones: set<string>, peers: seq<PeerSpec>) returns (errors: seq<Problem>, ids: set<string>)
    ensures forall s :: s in ids <==> exists p :: p in peers && p.id == s
    ensures errors == [] <==> PeersOk(groups, zones, peers, |peers|)
  {
    errors, ids := [], {};
    var seen: map<Address, string> := map[];
    for i := 0 to |peers|
      invariant forall s :: s in ids <==> exists k :: 0 <= k < i && peers[k].id == s
      invariant Owned(peers, i, seen)
      invariant errors == [] <==> PeersOk(groups, zones, peers, i)
    {
      var p := peers[i];
      PeersOkStep(groups, zones, peers, i);
      if p.id in ids { errors := errors + [DuplicatePeer(p.id)]; }
      ids := ids + {p.id};
      var membership := ValidateMembership(p, groups, zones);
      var addresses;
      OwnedStep(peers, i, seen);
      if forall k :: 0 <= k < i ==> AddressesOk(peers[k]) && peers[k].id != p.id {
        FreshMeans(peers, i, seen);
      }
      addresses, seen := ValidateAddresses(p, seen);
      errors := errors + membership + addresses;
    }
  }

  method ValidateEndpoint(id: string, e: Endpoint, groups: set<string>, zones: set<string>) returns (errors: seq<Problem>)
    ensures errors == [] <==> EndpointOk(groups, zones, e)
  {
    errors := [];
    match e
    case AnyEndpoint =>
    case GroupEndpoint(s) =>
      if s.None? || s.value == "" {
        errors := [EndpointWithoutValue(id)];
      } else if s.value !in groups {
        errors := [UnknownGroup(s.value)];
      }
    case ZoneEndpoint(s) =>
      if s.None? || s.value == "" {
        errors := [EndpointWithoutValue(id)];
      } else if s.value !in zones {
        errors := [UnknownZone(s.value)];
      }
    case CidrEndpoint(c) =>
      if c.None? {
        errors := [EndpointWithoutValue(id)];
      } else if ParseCidr(c.value).None? {
        errors := [BadCidr(id)];
      }
  }

  method ValidatePorts(r: RuleSpec) returns (errors: seq<Problem>)
    ensures errors == [] <==> PortsOk(r)
  {
    errors := [];
    if r.portStart.None? && r.portEnd.None? { return; }
    if !r.protocol.SupportsPorts() { return [PortsWithoutL4(r.id)]; }
    if r.portStart.None? { return [EndWithoutStart(r.id)]; }
    if !PortOk(r.portStart.value) { errors := errors + [PortOutOfRange(r.id)]; }
    if r.portEnd.Some? && !PortOk(r.portEnd.value) { errors := errors + [PortOutOfRange(r.id)]; }
    if r.portEnd.Some? && r.portStart.value > r.portEnd.value { errors := errors + [InvertedPorts(r.id)]; }
  }

  method ValidateRule(r: RuleSpec, groups: set<string>, zones: set<string>) returns (errors: seq<Problem>)
    ensures errors == [] <==> RuleOk(groups, zones, r)
  {
    errors := [];
    if !MatchesRuleId(r.id) { errors := errors + [BadRuleId(r.id)]; }
    var src := ValidateEndpoint(r.id, r.src, groups, zones);
    var dst := ValidateEndpoint(r.id, r.dst, groups, zones);
    var ports := ValidatePorts(r);
    errors := errors + src + dst + ports;
  }

  lemma RulesOkStep(groups: set<string>, zones: set<string>, rules: seq<RuleSpec>, i: nat)
    requires i < |rules|
    ensures RulesOk(groups, zones, rules, i + 1)
       <==> && RulesOk(groups, zones, rules, i)
            && RuleOk(groups, zones, rules[i])
            && forall k :: 0 <= k < i ==> rules[k].id != rules[i].id
  {
  }

  method ValidateRules(groups: set<string>, zones: set<string>, rules: seq<RuleSpec>) returns (errors: seq<Problem>)
    ensures errors == [] <==> RulesOk(groups, zones, rules, |rules|)
  {
    errors := [];
    var seen: set<string> := {};
    for i := 0 to |rules|
      invariant forall s :: s in seen <==> exists k :: 0 <= k < i && rules[k].id == s
      invariant errors == [] <==> RulesOk(groups, zones, rules, i)
    {
      RulesOkStep(groups, zones, rules, i);
      if rules[i].id in seen { errors := errors + [DuplicateRule(rules[i].id)]; }
      seen := seen + {rules[i].id};
      var problems := ValidateRule(rules[i], groups, zones);
      errors := errors + problems;
    }
  }

  method ValidateKnownCarriers(carriers: map<Network, string>, ids: set<string>) returns (errors: seq<Problem>)
    ensures errors == [] <==> forall n :: n in carriers ==> carriers[n] in ids
  {
    errors := [];
    var todo := carriers.Keys;
    while todo != {}
      invariant todo <= carriers.Keys
      invariant errors == [] <==> forall n :: n in carriers && n !in todo ==> carriers[n] in ids
    {
      var n :| n in todo;
      todo := todo - {n};
      if carriers[n] !in ids { errors := errors + [UnknownCarrier(n)]; }
    }
  }

  method ValidateDisjoint(groups: set<string>, zones: set<string>) returns (errors: seq<Problem>)
    ensures errors == [] <==> groups !! zones
  {
    errors := [];
    var todo := groups * zones;
    while todo != {}
      invariant todo <= groups * zones
      invariant errors == [] <==> todo == groups * zones
    {
      var s :| s in todo;
      todo := todo - {s};
      errors := errors + [GroupAndZone(s)];
    }
    if groups * zones == {} {
      forall x | x in groups
        ensures x !in zones
      {
        assert x !in groups * zones;
      }
    }
  }

  method ValidateSpec(spec: RulesetSpec) returns (errors: seq<Problem>)
    ensures errors == [] <==> Valid(spec)
  {
    var gateway := ValidateGateway(spec.gateway);
    var groups, knownGroups := ValidateGroups(spec.gateway, spec.groups);
    var zones, knownZones := ValidateZones(spec.gateway, spec.zones);
    var claims, carriers := ValidateCarriers(spec.zones);
    var shared := ValidateDisjoint(knownGroups, knownZones);
    var peers, ids := ValidatePeers(knownGroups, knownZones, spec.peers);
    var known := ValidateKnownCarriers(carriers, ids);
    var rules := ValidateRules(knownGroups, knownZones, spec.rules);
    assert knownGroups == GroupSlugs(spec) && knownZones == ZoneSlugs(spec);
    errors := gateway + groups + zones + claims + shared + peers + known + rules;
    if claims == [] {
      CarriersKnownByMap(spec, carriers, ids);
    }
  }

  lemma CarriersKnownByMap(spec: RulesetSpec, carriers: map<Network, string>, ids: set<string>)
    requires CarriersOk(spec.zones)
    requires forall n :: n in carriers ==> Carries(spec.zones, n, carriers[n])
    requires forall n, p :: Carries(spec.zones, n, p) ==> n in carriers
    requires forall s :: s in ids <==> exists p :: p in spec.peers && p.id == s
    ensures CarriersKnown(spec.zones, spec.peers) <==> forall n :: n in carriers ==> carriers[n] in ids
  {
    forall n, p | Carries(spec.zones, n, p)
      ensures carriers[n] == p
    {
      assert Carries(spec.zones, n, carriers[n]);
    }
  }
}
