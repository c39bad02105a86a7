/**
 `validate_spec` of the proxy: the first problem found, and that none is found exactly when
 the specification is `ValidProxy`.
 */
module HaproxyValidation {
  import opened Wrappers
  import opened Net
  import opened Grammar
  import opened HaproxyModel
  import opened HaproxyGenerator

  datatype Problem =
    | LongSocketPath | RelativeSocketPath | RelativeDirectory | BadDomain | BadOption(line: string)
    | BadBind | NoBind(door: Door)
    | BadDashboardName | DashboardIsSignIn | NoDashboardAddress | BadDashboardAddress | BadDashboardPort | DashboardLoops
    | BadSetName(name: string) | DuplicateSet(name: string) | BadSetMember(name: string)
    | BadSlug(slug: string) | DuplicateSlug(slug: string) | BadUpstream(slug: string) | BadUpstreamPort(slug: string)
    | NoHostname(slug: string, door: Door) | BadHostname(slug: string) | HostnameClaimed(slug: string, owner: string, door: Door)
    | NothingToRouteOn(slug: string) | BadListenPort(slug: string) | PortClaimed(slug: string, owner: string) | BadSni(slug: string)
    | PeerIdentityOutside(slug: string) | NeedsPlaintext(slug: string) | NotImplemented(slug: string)
    | NoSsoSecret(slug: string) | NoSsoHostname(slug: string) | DemandWithoutPerson(slug: string) | BadGroup(slug: string)
    | NoAccounts(slug: string) | NoTokens(slug: string)
    | EmptyFilter(slug: string) | BadCountry(slug: string) | BadFilterValue(slug: string) | IncompleteRate(slug: string)
    | UnknownSet(slug: string) | BadSource(slug: string) | BadAccount(slug: string) | BadToken(slug: string)
    | NoWayIn(slug: string, door: Door) | PublicAndGuarded(slug: string, door: Door)

  // ----- the requirement -----

  predicate PortOk(p: int) { 1 <= p <= 65535 }

  ghost predicate CidrsOk(cidrs: seq<CidrText>) {
    forall c :: c in cidrs ==> ParseCidr(c).Some?
  }

  ghost predicate SetsOk(sets: seq<SourceSet>, n: nat)
    requires n <= |sets|
  {
    && (forall i :: 0 <= i < n ==> MatchesSetName(sets[i].name) && CidrsOk(sets[i].members))
    && (forall i, j :: 0 <= i < j < n ==> sets[i].name != sets[j].name)
  }

  predicate DashboardOk(spec: ProxySpec) {
    spec.PublishesDashboard() ==>
      && MatchesHostname(spec.dashboardHostname.value)
      && (Truthy(spec.ssoHostname) ==> spec.dashboardHostname != spec.ssoHostname)
      && spec.dashboardAddress.Some? && spec.dashboardAddress.value.AddressText?
      && 1 <= spec.dashboardPort <= 65535
      && !(&& spec.dashboardAddress.value in spec.internalBinds
           && spec.dashboardPort in [spec.internalHttpsPort, spec.externalHttpsPort, spec.externalHttpPort])
  }

  /** A door the service is published on has a name; a name given is a host name. */
  ghost predicate HttpOk(s: Service) {
    forall d :: && (s.exposure.Has(d) ==> Truthy(s.Hostname(d)))
                && (Truthy(s.Hostname(d)) ==> MatchesHostname(s.Hostname(d).value))
  }

  predicate PassthroughOk(s: Service) {
    && ((s.listenPort.Some? && s.listenPort.value != 0) || Truthy(s.sniHostname))
    && (s.listenPort.Some? ==> 1 <= s.listenPort.value <= 65535)
    && (Truthy(s.sniHostname) ==> MatchesHostname(s.sniHostname.value))
  }

  ghost predicate AuthOk(spec: ProxySpec, s: Service, a: Authenticator) {
    && (a.kind.PeerIdentity? ==> a.scope.InternalScope?)
    && (s.kind.Passthrough? ==> !a.kind.Bearer? && !a.kind.Basic? && !a.kind.Sso?)
    && !a.kind.Mtls?
    && (a.kind.Sso? ==> spec.ssoSecret != "" && Truthy(spec.ssoHostname))
    && (!a.kind.Sso? ==> !a.Demands())
    && (forall g :: g in a.groups ==> SlugText(g, 24))
    && (a.kind.Basic? ==> s.accounts != [])
    && (a.kind.Bearer? ==> s.tokenHashes != [])
  }

  ghost predicate FilterOk(f: Filter) {
    && !f.kind.Waf? && !f.kind.Crowdsec?
    && (f.kind.GeoAllow? || f.kind.GeoDeny? ==> f.countries != [] && forall c :: c in f.countries ==> CountryCode(c))
    && (f.kind.IpAllow? || f.kind.IpDeny? ==> f.networks != [] && CidrsOk(f.networks))
    && (f.kind.RateLimit? ==> f.rate.Some? && f.rate.value != 0 && f.period.Some? && f.period.value != 0)
  }

  ghost predicate KnownSet(spec: ProxySpec, name: string) {
    name == PEER_SET || exists x :: x in spec.sourceSets && x.name == name
  }

  ghost predicate AccessOk(spec: ProxySpec, r: AccessRule) {
    match r.source
    case Anyone => true
    case FromSet(name) => name.Some? && KnownSet(spec, name.value)
    case FromNetwork(c) => ParseCidr(c).Some?
  }

  /** A door is described: somebody may come in, and "everybody" is not mixed with anything. */
  predicate DoorOk(s: Service, d: Door) {
    s.exposure.Has(d) ==>
      && s.AuthFor(d) != []
      && (HasKind(s.AuthFor(d), Public) ==> |s.AuthFor(d)| == 1)
  }

  ghost predicate PolicyOk(spec: ProxySpec, s: Service) {
    && (forall a :: a in s.authenticators ==> AuthOk(spec, s, a))
    && (forall f :: f in s.filters ==> FilterOk(f))
    && (forall r :: r in s.access ==> AccessOk(spec, r))
    && (forall x :: x in s.accounts ==> MatchesUsername(x.username) && x.hashOk)
    && (forall h :: h in s.tokenHashes ==> MatchesSha256(h))
    && DoorOk(s, InternalDoor) && DoorOk(s, ExternalDoor)
  }

  ghost predicate ServiceOk(spec: ProxySpec, s: Service) {
    && MatchesSlug(s.slug)
    && s.upstream.AddressText? && 1 <= s.upstreamPort <= 65535
    && (if s.kind.Http? then HttpOk(s) else PassthroughOk(s))
    && PolicyOk(spec, s)
  }

  /** On one door a host name leads to one service. */
  predicate SharesName(s: Service, t: Service, d: Door) {
    s.kind.Http? && t.kind.Http? && Truthy(s.Hostname(d)) && s.Hostname(d) == t.Hostname(d)
  }

  predicate TakesDashboardName(spec: ProxySpec, s: Service) {
    s.kind.Http? && spec.PublishesDashboard() && s.internalHostname == spec.dashboardHostname
  }

  predicate SharesPort(s: Service, t: Service) {
    s.kind.Passthrough? && t.kind.Passthrough? && s.listenPort.Some? && s.listenPort == t.listenPort
  }

  predicate Apart(s: Service, t: Service) {
    s.slug != t.slug && !SharesName(s, t, InternalDoor) && !SharesName(s, t, ExternalDoor) && !SharesPort(s, t)
  }

  ghost predicate ServicesOk(spec: ProxySpec, n: nat)
    requires n <= |spec.services|
  {
    && (forall i :: 0 <= i < n ==> ServiceOk(spec, spec.services[i]) && !TakesDashboardName(spec, spec.services[i]))
    && (forall i, j :: 0 <= i < j < n ==> Apart(spec.services[i], spec.services[j]))
  }

  ghost predicate BindsOk(spec: ProxySpec) {
    && (forall a :: a in spec.internalBinds || a in spec.externalBinds ==> a.AddressText?)
    && (spec.HasInternal() ==> spec.internalBinds != [])
    && (spec.HasExternal() ==> spec.externalBinds != [])
  }

  const MAX_SOCKET_PATH := 97

  predicate Absolute(path: string) { path != "" && path[0] == '/' }

  predicate PathsOk(spec: ProxySpec) {
    && |spec.runtimeSocket| <= 97
    && (spec.runtimeSocket != "" && spec.runtimeSocket[0] == '/')
    && (spec.certsDir != "" && spec.certsDir[0] == '/')
    && (spec.mapsDir != "" && spec.mapsDir[0] == '/')
  }

  /** One line, beginning with a keyword. */
  predicate OptionOk(line: string) {
    && line != "" && (Lower(line[0]) || Digit(line[0]))
    && forall i :: 0 <= i < |line| ==> line[i] != '\n' && line[i] != '\r'
  }

  ghost predicate ValidProxy(spec: ProxySpec) {
    && PathsOk(spec)
    && BindsOk(spec)
    && (spec.domain != "" ==> MatchesHostname(spec.domain))
    && (forall line :: line in spec.extraOptions ==> OptionOk(line))
    && SetsOk(spec.sourceSets, |spec.sourceSets|)
    && DashboardOk(spec)
    && ServicesOk(spec, |spec.services|)
  }

  // ----- the walk -----

  method ValidateCidrs(cidrs: seq<CidrText>, otherwise: Problem) returns (problem: Option<Problem>)
    ensures problem.None? <==> CidrsOk(cidrs)
  {
    for i := 0 to |cidrs|
      invariant forall k :: 0 <= k < i ==> ParseCidr(cidrs[k]).Some?
    {
      if ParseCidr(cidrs[i]).None? {
        assert cidrs[i] in cidrs;
        return Some(otherwise);
      }
    }
    return None;
  }

  method ValidateSourceSets(sets: seq<SourceSet>) returns (problem: Option<Problem>)
    ensures problem.None? <==> SetsOk(sets, |sets|)
  {
    var seen: set<string> := {};
    for i := 0 to |sets|
      invariant SetsOk(sets, i)
      invariant forall n :: n in seen <==> exists k :: 0 <= k < i && sets[k].name == n
    {
      var x := sets[i];
      if !MatchesSetName(x.name) {
        return Some(BadSetName(x.name));
      }
      if x.name in seen {
        return Some(DuplicateSet(x.name));
      }
      seen := seen + {x.name};
      problem := ValidateCidrs(x.members, BadSetMember(x.name));
      if problem.Some? {
        return;
      }
    }
    return None;
  }

  method ValidateDashboard(spec: ProxySpec) returns (problem: Option<Problem>)
    requires spec.PublishesDashboard()
    ensures problem.None? <==> DashboardOk(spec)
  {
    if !MatchesHostname(spec.dashboardHostname.value) {
      return Some(BadDashboardName);
    }
    if Truthy(spec.ssoHostname) && spec.dashboardHostname == spec.ssoHostname {
      return Some(DashboardIsSignIn);
    }
    if spec.dashboardAddress.None? {
      return Some(NoDashboardAddress);
    }
    if spec.dashboardAddress.value.NotAnAddress? {
      return Some(BadDashboardAddress);
    }
    if !PortOk(spec.dashboardPort) {
      return Some(BadDashboardPort);
    }
    if spec.dashboardAddress.value in spec.internalBinds
       && spec.dashboardPort in [spec.internalHttpsPort, spec.externalHttpsPort, spec.externalHttpPort]
    {
      return Some(DashboardLoops);
    }
    return None;
  }

  method ValidateAuthenticator(spec: ProxySpec, s: Service, a: Authenticator) returns (problem: Option<Problem>)
    ensures problem.None? <==> AuthOk(spec, s, a)
  {
    if a.kind.PeerIdentity? && !a.scope.InternalScope? {
      return Some(PeerIdentityOutside(s.slug));
    }
    if s.kind.Passthrough? && a.kind in {Bearer, Basic, Sso} {
      return Some(NeedsPlaintext(s.slug));
    }
    if a.kind.Mtls? {
      return Some(NotImplemented(s.slug));
    }
    if a.kind.Sso? && spec.ssoSecret == "" {
      return Some(NoSsoSecret(s.slug));
    }
    if a.kind.Sso? && !Truthy(spec.ssoHostname) {
      return Some(NoSsoHostname(s.slug));
    }
    if !a.kind.Sso? && a.Demands() {
      return Some(DemandWithoutPerson(s.slug));
    }
    for i := 0 to |a.groups|
      invariant forall k :: 0 <= k < i ==> SlugText(a.groups[k], 24)
    {
      if !SlugText(a.groups[i], 24) {
        assert a.groups[i] in a.groups;
        return Some(BadGroup(s.slug));
      }
    }
    if a.kind.Basic? && s.accounts == [] {
      return Some(NoAccounts(s.slug));
    }
    if a.kind.Bearer? && s.tokenHashes == [] {
      return Some(NoTokens(s.slug));
    }
    return None;
  }

  method ValidateFilter(s: Service, f: Filter) returns (problem: Option<Problem>)
    ensures problem.None? <==> FilterOk(f)
  {
    if f.kind.Waf? || f.kind.Crowdsec? {
      return Some(NotImplemented(s.slug));
    }
    if f.kind.IsGeo() {
      if f.countries == [] {
        return Some(EmptyFilter(s.slug));
      }
      for i := 0 to |f.countries|
        invariant forall k :: 0 <= k < i ==> CountryCode(f.countries[k])
      {
        if !CountryCode(f.countries[i]) {
          assert f.countries[i] in f.countries;
          return Some(BadCountry(s.slug));
        }
      }
    }
    if f.kind.IsIp() {
      if f.networks == [] {
        return Some(EmptyFilter(s.slug));
      }
      problem := ValidateCidrs(f.networks, BadFilterValue(s.slug));
      if problem.Some? {
        return;
      }
    }
    if f.kind.RateLimit? && (f.rate.None? || f.rate.value == 0 || f.period.None? || f.period.value == 0) {
      return Some(IncompleteRate(s.slug));
    }
    return None;
  }

  method ValidateAccess(spec: ProxySpec, s: Service, r: AccessRule) returns (problem: Option<Problem>)
    ensures problem.None? <==> AccessOk(spec, r)
  {
    match r.source {
      case Anyone => return None;
      case FromSet(name) =>
        if name.Some? && (name.value == PEER_SET || exists x :: x in spec.sourceSets && x.name == name.value) {
          return None;
        }
        return Some(UnknownSet(s.slug));
      case FromNetwork(c) =>
        return if ParseCidr(c).Some? then None else Some(BadSource(s.slug));
    }
  }

  method ValidateDoor(s: Service, d: Door) returns (problem: Option<Problem>)
    ensures problem.None? <==> DoorOk(s, d)
  {
    if !s.exposure.Has(d) {
      return None;
    }
    var auths := s.AuthFor(d);
    if auths == [] {
      return Some(NoWayIn(s.slug, d));
    }
    if HasKind(auths, Public) && |auths| > 1 {
      return Some(PublicAndGuarded(s.slug, d));
    }
    return None;
  }

  /** The lists of one service, each entry on its own. */
  ghost predicate EntriesOk(spec: ProxySpec, s: Service) {
    && (forall a :: a in s.authenticators ==> AuthOk(spec, s, a))
    && (forall f :: f in s.filters ==> FilterOk(f))
    && (forall r :: r in s.access ==> AccessOk(spec, r))
  }

  method ValidateEntries(spec: ProxySpec, s: Service) returns (problem: Option<Problem>)
    ensures problem.None? <==> EntriesOk(spec, s)
  {
    for i := 0 to |s.authenticators|
      invariant forall k :: 0 <= k < i ==> AuthOk(spec, s, s.authenticators[k])
    {
      problem := ValidateAuthenticator(spec, s, s.authenticators[i]);
      if problem.Some? {
        assert s.authenticators[i] in s.authenticators;
        return;
      }
    }
    for i := 0 to |s.filters|
      invariant forall k :: 0 <= k < i ==> FilterOk(s.filters[k])
    {
      problem := ValidateFilter(s, s.filters[i]);
      if problem.Some? {
        assert s.filters[i] in s.filters;
        return;
      }
    }
    for i := 0 to |s.access|
      invariant forall k :: 0 <= k < i ==> AccessOk(spec, s.access[k])
    {
      problem := ValidateAccess(spec, s, s.access[i]);
      if problem.Some? {
        assert s.access[i] in s.access;
        return;
      }
    }
    return None;
  }

  method ValidatePolicy(spec: ProxySpec, s: Service) returns (problem: Option<Problem>)
    ensures problem.None? <==> PolicyOk(spec, s)
  {
    problem := ValidateEntries(spec, s);
    if problem.Some? {
      return;
    }
    for i := 0 to |s.accounts|
      invariant forall k :: 0 <= k < i ==> MatchesUsername(s.accounts[k].username) && s.accounts[k].hashOk
    {
      if !MatchesUsername(s.accounts[i].username) || !s.accounts[i].hashOk {
        assert s.accounts[i] in s.accounts;
        return Some(BadAccount(s.slug));
      }
    }
    for i := 0 to |s.tokenHashes|
      invariant forall k :: 0 <= k < i ==> MatchesSha256(s.tokenHashes[k])
    {
      if !MatchesSha256(s.tokenHashes[i]) {
        assert s.tokenHashes[i] in s.tokenHashes;
        return Some(BadToken(s.slug));
      }
    }
    problem := ValidateDoor(s, InternalDoor);
    if problem.None? {
      problem := ValidateDoor(s, ExternalDoor);
    }
  }

  type Names = map<(Door, string), string>

  const DASHBOARD_OWNER := "the admin dashboard"

  ghost predicate NameOwner(spec: ProxySpec, n: nat, d: Door, name: string, owner: string)
    requires n <= |spec.services|
  {
    || (d == InternalDoor && spec.PublishesDashboard() && spec.dashboardHostname.value == name && owner == DASHBOARD_OWNER)
    || exists i :: 0 <= i < n && Claims(spec.services[i], d, name) && spec.services[i].slug == owner
  }

  predicate Claims(s: Service, d: Door, name: string) {
    s.kind.Http? && s.Hostname(d) == Some(name) && name != ""
  }

  /** `names` records who holds each name of the first `n` services and of the dashboard. */
  ghost predicate NamesRecorded(spec: ProxySpec, n: nat, names: Names)
    requires n <= |spec.services|
  {
    && (forall d, h :: (d, h) in names ==> NameOwner(spec, n, d, h, names[(d, h)]))
    && (forall i, d, h :: 0 <= i < n && Claims(spec.services[i], d, h) ==> (d, h) in names)
    && (spec.PublishesDashboard() ==> (InternalDoor, spec.dashboardHostname.value) in names)
  }

  method ValidateHostnames(s: Service) returns (problem: Option<Problem>)
    ensures problem.None? <==> HttpOk(s)
  {
    var doors := [InternalDoor, ExternalDoor];
    for i := 0 to 2
      invariant forall k :: 0 <= k < i ==>
        && (s.exposure.Has(doors[k]) ==> Truthy(s.Hostname(doors[k])))
        && (Truthy(s.Hostname(doors[k])) ==> MatchesHostname(s.Hostname(doors[k]).value))
    {
      if s.exposure.Has(doors[i]) && !Truthy(s.Hostname(doors[i])) {
        return Some(NoHostname(s.slug, doors[i]));
      }
      if Truthy(s.Hostname(doors[i])) && !MatchesHostname(s.Hostname(doors[i]).value) {
        return Some(BadHostname(s.slug));
      }
    }
    forall d
      ensures (s.exposure.Has(d) ==> Truthy(s.Hostname(d))) && (Truthy(s.Hostname(d)) ==> MatchesHostname(s.Hostname(d).value))
    {
      assert d == doors[0] || d == doors[1];
    }
    return None;
  }

  ghost predicate ClaimFree(spec: ProxySpec, n: nat, s: Service, d: Door)
    requires n <= |spec.services|
  {
    && (forall i :: 0 <= i < n ==> !SharesName(spec.services[i], s, d))
    && (d == InternalDoor ==> !TakesDashboardName(spec, s))
  }

  /** One door of one service: its name is free, or the service that holds it is named. */
  method ClaimName(spec: ProxySpec, n: nat, d: Door, names: Names) returns (problem: Option<Problem>, names': Names)
    requires n < |spec.services| && spec.services[n].kind.Http?
    requires forall i :: 0 <= i < n ==> spec.services[i].slug != spec.services[n].slug
    requires spec.services[n].slug != DASHBOARD_OWNER
    requires forall e, h :: (e, h) in names ==> NameOwner(spec, n, e, h, names[(e, h)]) || e != d
    requires forall i, h :: 0 <= i < n && Claims(spec.services[i], d, h) ==> (d, h) in names
    requires spec.PublishesDashboard() ==> (InternalDoor, spec.dashboardHostname.value) in names
    ensures problem.None? <==> ClaimFree(spec, n, spec.services[n], d)
    ensures problem.None? && Truthy(spec.services[n].Hostname(d)) ==>
      names' == names[(d, spec.services[n].Hostname(d).value) := spec.services[n].slug]
    ensures problem.None? && !Truthy(spec.services[n].Hostname(d)) ==> names' == names
  {
    var s := spec.services[n];
    names' := names;
    if !Truthy(s.Hostname(d)) {
      return None, names;
    }
    var key := (d, s.Hostname(d).value);
    if key in names && names[key] != s.slug {
      assert NameOwner(spec, n, d, key.1, names[key]);
      return Some(HostnameClaimed(s.slug, names[key], d)), names;
    }
    return None, names[key := s.slug];
  }

  type Ports = map<int, string>

  ghost predicate PortsRecorded(services: seq<Service>, n: nat, ports: Ports)
    requires n <= |services|
  {
    && (forall p :: p in ports ==> exists i :: 0 <= i < n && Listens(services[i], p) && services[i].slug == ports[p])
    && (forall i, p :: 0 <= i < n && Listens(services[i], p) ==> p in ports)
  }

  predicate Listens(s: Service, p: int) {
    s.kind.Passthrough? && s.listenPort == Some(p)
  }

  method ValidatePassthrough(services: seq<Service>, n: nat, ports: Ports) returns (problem: Option<Problem>, ports': Ports)
    requires n < |services| && services[n].kind.Passthrough?
    requires PortsRecorded(services, n, ports)
    requires forall i :: 0 <= i < n ==> services[i].slug != services[n].slug && services[i].slug != ""
    ensures problem.None? <==> PassthroughOk(services[n]) && forall i :: 0 <= i < n ==> !SharesPort(services[i], services[n])
    ensures problem.None? ==> PortsRecorded(services, n + 1, ports')
  {
    var s := services[n];
    ports' := ports;
    if (s.listenPort.None? || s.listenPort.value == 0) && !Truthy(s.sniHostname) {
      return Some(NothingToRouteOn(s.slug)), ports;
    }
    if s.listenPort.Some? {
      var p := s.listenPort.value;
      if !PortOk(p) {
        return Some(BadListenPort(s.slug)), ports;
      }
      if p in ports && ports[p] != "" && ports[p] != s.slug {
        return Some(PortClaimed(s.slug, ports[p])), ports;
      }
      ports' := ports[p := s.slug];
    }
    if Truthy(s.sniHostname) && !MatchesHostname(s.sniHostname.value) {
      return Some(BadSni(s.slug)), ports';
    }
    problem := None;
  }

  /** What the walk has seen of the first `n` services. */
  ghost predicate Recorded(spec: ProxySpec, n: nat, slugs: set<string>, names: Names, ports: Ports)
    requires n <= |spec.services|
  {
    && (forall s :: s in slugs <==> exists i :: 0 <= i < n && spec.services[i].slug == s)
    && NamesRecorded(spec, n, names)
    && PortsRecorded(spec.services, n, ports)
  }

  ghost predicate RoutingOk(spec: ProxySpec, n: nat)
    requires n < |spec.services|
  {
    var s := spec.services[n];
    if s.kind.Http? then HttpOk(s) && ClaimFree(spec, n, s, InternalDoor) && ClaimFree(spec, n, s, ExternalDoor)
    else PassthroughOk(s) && forall i :: 0 <= i < n ==> !SharesPort(spec.services[i], s)
  }

  /** The host names of one service, claimed on either door. */
  method ValidateNames(spec: ProxySpec, n: nat, names: Names) returns (problem: Option<Problem>, names': Names)
    requires n < |spec.services| && NamesRecorded(spec, n, names)
    requires spec.services[n].kind.Http?
    requires forall i :: 0 <= i < n ==> spec.services[i].slug != spec.services[n].slug && spec.services[i].slug != ""
    requires spec.services[n].slug != DASHBOARD_OWNER
    ensures problem.None? <==> RoutingOk(spec, n)
    ensures problem.None? ==> NamesRecorded(spec, n + 1, names')
  {
    names' := names;
    problem := ValidateHostnames(spec.services[n]);
    if problem.Some? {
      return;
    }
    problem, names' := ClaimName(spec, n, InternalDoor, names);
    if problem.Some? {
      return;
    }
    problem, names' := ClaimName(spec, n, ExternalDoor, names');
    if problem.None? {
      NamesStayRecorded(spec, n, names, names');
    }
  }

  method ValidateRouting(spec: ProxySpec, n: nat, names: Names, ports: Ports)
    returns (problem: Option<Problem>, names': Names, ports': Ports)
    requires n < |spec.services|
    requires NamesRecorded(spec, n, names) && PortsRecorded(spec.services, n, ports)
    requires forall i :: 0 <= i < n ==> spec.services[i].slug != spec.services[n].slug && spec.services[i].slug != ""
    requires spec.services[n].slug != DASHBOARD_OWNER
    ensures problem.None? <==> RoutingOk(spec, n)
    ensures problem.None? ==> NamesRecorded(spec, n + 1, names') && PortsRecorded(spec.services, n + 1, ports')
  {
    names', ports' := names, ports;
    if spec.services[n].kind.Passthrough? {
      problem, ports' := ValidatePassthrough(spec.services, n, ports);
      NamesUnclaimed(spec, n, names);
    } else {
      problem, names' := ValidateNames(spec, n, names);
      PortsUnclaimed(spec.services, n, ports);
    }
  }

  lemma NamesUnclaimed(spec: ProxySpec, n: nat, names: Names)
    requires n < |spec.services| && spec.services[n].kind.Passthrough? && NamesRecorded(spec, n, names)
    ensures NamesRecorded(spec, n + 1, names)
  {
    forall d, h | (d, h) in names
      ensures NameOwner(spec, n + 1, d, h, names[(d, h)])
    {
      assert NameOwner(spec, n, d, h, names[(d, h)]);
    }
  }

  lemma PortsUnclaimed(services: seq<Service>, n: nat, ports: Ports)
    requires n < |services| && services[n].kind.Http? && PortsRecorded(services, n, ports)
    ensures PortsRecorded(services, n + 1, ports)
  {
    forall p | p in ports
      ensures exists i :: 0 <= i < n + 1 && Listens(services[i], p) && services[i].slug == ports[p]
    {
      var i :| 0 <= i < n && Listens(services[i], p) && services[i].slug == ports[p];
    }
  }

  lemma NamesStayRecorded(spec: ProxySpec, n: nat, names: Names, names': Names)
    requires n < |spec.services| && NamesRecorded(spec, n, names)
    requires forall k :: k in names ==> k in names'
    requires forall k :: k in names' ==>
      || (k in names && names'[k] == names[k])
      || (Claims(spec.services[n], k.0, k.1) && names'[k] == spec.services[n].slug)
    requires forall d, h :: Claims(spec.services[n], d, h) ==> (d, h) in names'
    ensures NamesRecorded(spec, n + 1, names')
  {
    forall d, h | (d, h) in names'
      ensures NameOwner(spec, n + 1, d, h, names'[(d, h)])
    {
      if (d, h) in names && names'[(d, h)] == names[(d, h)] {
        assert NameOwner(spec, n, d, h, names[(d, h)]);
      }
    }
  }

  /** The service fits beside the `n` services before it. */
  ghost predicate Fits(spec: ProxySpec, n: nat)
    requires n < |spec.services|
  {
    && ServiceOk(spec, spec.services[n])
    && !TakesDashboardName(spec, spec.services[n])
    && forall i :: 0 <= i < n ==> Apart(spec.services[i], spec.services[n])
  }

  method ValidateService(spec: ProxySpec, n: nat, slugs: set<string>, names: Names, ports: Ports)
    returns (problem: Option<Problem>, slugs': set<string>, names': Names, ports': Ports)
    requires n < |spec.services| && Recorded(spec, n, slugs, names, ports)
    requires ServicesOk(spec, n)
    ensures problem.None? <==> Fits(spec, n)
    ensures problem.None? ==> Recorded(spec, n + 1, slugs', names', ports')
  {
    var s := spec.services[n];
    slugs', names', ports' := slugs, names, ports;
    if !MatchesSlug(s.slug) {
      problem := Some(BadSlug(s.slug));
      return;
    }
    if s.slug in slugs {
      problem := Some(DuplicateSlug(s.slug));
      return;
    }
    slugs' := slugs + {s.slug};
    if s.upstream.NotAnAddress? {
      problem := Some(BadUpstream(s.slug));
      return;
    }
    if !PortOk(s.upstreamPort) {
      problem := Some(BadUpstreamPort(s.slug));
      return;
    }
    SlugIsNotTheDashboard(s.slug);
    SlugsNotEmpty(spec, n);
    problem, names', ports' := ValidateRouting(spec, n, names, ports);
    RoutingMeans(spec, n);
    if problem.None? {
      problem := ValidatePolicy(spec, s);
    }
  }

  method ValidateServices(spec: ProxySpec) returns (problem: Option<Problem>)
    ensures problem.None? <==> ServicesOk(spec, |spec.services|)
  {
    var slugs: set<string> := {};
    var names: Names := if spec.PublishesDashboard() then map[(InternalDoor, spec.dashboardHostname.value) := DASHBOARD_OWNER] else map[];
    var ports: Ports := map[];
    for n := 0 to |spec.services|
      invariant ServicesOk(spec, n) && Recorded(spec, n, slugs, names, ports)
    {
      problem, slugs, names, ports := ValidateService(spec, n, slugs, names, ports);
      FitsIsNeeded(spec, n);
      if problem.Some? {
        return;
      }
    }
    return None;
  }

  lemma SlugsNotEmpty(spec: ProxySpec, n: nat)
    requires n <= |spec.services| && ServicesOk(spec, n)
    ensures forall i :: 0 <= i < n ==> spec.services[i].slug != ""
  {
    forall i | 0 <= i < n
      ensures spec.services[i].slug != ""
    {
      assert ServiceOk(spec, spec.services[i]);
    }
  }

  lemma FitsIsNeeded(spec: ProxySpec, n: nat)
    requires n < |spec.services| && ServicesOk(spec, n)
    ensures Fits(spec, n) <==> ServicesOk(spec, n + 1)
    ensures !Fits(spec, n) ==> !ServicesOk(spec, |spec.services|)
  {
  }

  lemma SlugIsNotTheDashboard(slug: string)
    requires MatchesSlug(slug)
    ensures slug != DASHBOARD_OWNER && slug != ""
  {
    assert !SlugChar(DASHBOARD_OWNER[3]) && Chomp(DASHBOARD_OWNER) == DASHBOARD_OWNER;
  }

  /** The routing checks on one service are its share of `ServicesOk`. */
  lemma RoutingMeans(spec: ProxySpec, n: nat)
    requires n < |spec.services|
    requires forall i :: 0 <= i < n ==> spec.services[i].slug != spec.services[n].slug
    ensures RoutingOk(spec, n)
       <==> && (if spec.services[n].kind.Http? then HttpOk(spec.services[n]) else PassthroughOk(spec.services[n]))
            && !TakesDashboardName(spec, spec.services[n])
            && forall i :: 0 <= i < n ==> Apart(spec.services[i], spec.services[n])
  {
  }

  method ValidatePaths(spec: ProxySpec) returns (problem: Option<Problem>)
    ensures problem.None? <==> PathsOk(spec)
  {
    if |spec.runtimeSocket| > MAX_SOCKET_PATH {
      return Some(LongSocketPath);
    }
    if !Absolute(spec.runtimeSocket) {
      return Some(RelativeSocketPath);
    }
    if !Absolute(spec.certsDir) || !Absolute(spec.mapsDir) {
      return Some(RelativeDirectory);
    }
    return None;
  }

  method ValidateBinds(binds: seq<AddressText>) returns (problem: Option<Problem>)
    ensures problem.None? <==> forall a :: a in binds ==> a.AddressText?
  {
    for i := 0 to |binds|
      invariant forall k :: 0 <= k < i ==> binds[k].AddressText?
    {
      if binds[i].NotAnAddress? {
        assert binds[i] in binds;
        return Some(BadBind);
      }
    }
    return None;
  }

  method ValidateOptions(options: seq<string>) returns (problem: Option<Problem>)
    ensures problem.None? <==> forall line :: line in options ==> OptionOk(line)
  {
    for i := 0 to |options|
      invariant forall k :: 0 <= k < i ==> OptionOk(options[k])
    {
      if !OptionOk(options[i]) {
        assert options[i] in options;
        return Some(BadOption(options[i]));
      }
    }
    return None;
  }

  /** `validate_spec`: a problem is returned exactly for what may not be rendered. */
  method ValidateSpec(spec: ProxySpec) returns (problem: Option<Problem>)
    ensures problem.None? <==> ValidProxy(spec)
  {
    problem := ValidatePaths(spec);
    if problem.Some? {
      return;
    }
    problem := ValidateBinds(spec.internalBinds + spec.externalBinds);
    if problem.Some? {
      return;
    }
    if spec.domain != "" && !MatchesHostname(spec.domain) {
      return Some(BadDomain);
    }
    problem := ValidateSourceSets(spec.sourceSets);
    if problem.Some? {
      return;
    }
    if spec.PublishesDashboard() {
      problem := ValidateDashboard(spec);
      if problem.Some? {
        return;
      }
    }
    problem := ValidateServices(spec);
    if problem.Some? {
      return;
    }
    if spec.HasInternal() && spec.internalBinds == [] {
      return Some(NoBind(InternalDoor));
    }
    if spec.HasExternal() && spec.externalBinds == [] {
      return Some(NoBind(ExternalDoor));
    }
    problem := ValidateOptions(spec.extraOptions);
  }
}
