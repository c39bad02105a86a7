/**
 What the proxy generator is given: published services, their filters, access rules and
 authenticators, and the lists of addresses they refer to.
 */
module HaproxyModel {
  import opened Wrappers
  import opened Net

  /** A listener: the tunnel side or the WAN side. */
  datatype Door = InternalDoor | ExternalDoor

  datatype Exposure = Internal | External | Both {
    predicate Has(d: Door) {
      match d
      case InternalDoor => Internal? || Both?
      case ExternalDoor => External? || Both?
    }
  }

  datatype Scope = InternalScope | ExternalScope | BothScopes {
    predicate Covers(d: Door) {
      match this
      case BothScopes => true
      case InternalScope => d == InternalDoor
      case ExternalScope => d == ExternalDoor
    }
  }

  datatype ServiceKind = Http | Passthrough

  datatype AuthKind = PeerIdentity | Bearer | Basic | Sso | Mtls | Public

  datatype Authenticator = Authenticator(kind: AuthKind, scope: Scope, realm: Option<string>, groups: seq<string>, requireAdmin: bool) {
    /** Being signed in is not enough: a group or an administrator account is asked for. */
    predicate Demands() { groups != [] || requireAdmin }
  }

  datatype FilterKind = IpAllow | IpDeny | GeoAllow | GeoDeny | RateLimit | Waf | Crowdsec {
    predicate IsIp() { IpAllow? || IpDeny? }
    predicate IsGeo() { GeoAllow? || GeoDeny? }
  }

  /** `networks` holds the values of an address filter, `countries` those of a geography filter. */
  datatype Filter = Filter(
    kind: FilterKind,
    scope: Scope,
    networks: seq<CidrText>,
    countries: seq<string>,
    rate: Option<int>,
    period: Option<int>)

  datatype AccessAction = Allow | Deny

  datatype AccessSource = Anyone | FromSet(name: Option<string>) | FromNetwork(cidr: CidrText)

  datatype AccessRule = AccessRule(action: AccessAction, source: AccessSource)

  datatype Account = Account(username: string, hashOk: bool)

  datatype Service = Service(
    slug: string,
    kind: ServiceKind,
    exposure: Exposure,
    upstream: AddressText,
    upstreamPort: int,
    internalHostname: Option<string>,
    externalHostname: Option<string>,
    listenPort: Option<int>,
    sniHostname: Option<string>,
    authenticators: seq<Authenticator>,
    filters: seq<Filter>,
    access: seq<AccessRule>,
    tokenHashes: seq<string>,
    accounts: seq<Account>)
  {
    function Hostname(d: Door): Option<string> {
      if d == InternalDoor then internalHostname else externalHostname
    }

    function AuthFor(d: Door): seq<Authenticator> {
      AuthCovering(authenticators, d)
    }

    /** Rules naming a set of tunnel addresses mean nothing on the WAN, and are dropped there. */
    function AccessFor(d: Door): seq<AccessRule> {
      if d == InternalDoor then access else WithoutSets(access)
    }
  }

  function AuthCovering(auths: seq<Authenticator>, d: Door): (r: seq<Authenticator>)
    ensures forall a :: a in r <==> a in auths && a.scope.Covers(d)
  {
    if auths == [] then []
    else (if auths[0].scope.Covers(d) then [auths[0]] else []) + AuthCovering(auths[1..], d)
  }

  lemma CoveringOne(a: Authenticator, d: Door)
    ensures AuthCovering([a], d) == if a.scope.Covers(d) then [a] else []
  {
    assert [a][1..] == [] && AuthCovering([], d) == [];
  }

  function WithoutSets(rules: seq<AccessRule>): (r: seq<AccessRule>)
    ensures forall a :: a in r <==> a in rules && !a.source.FromSet?
  {
    if rules == [] then []
    else (if rules[0].source.FromSet? then [] else [rules[0]]) + WithoutSets(rules[1..])
  }

  datatype SourceSet = SourceSet(name: string, members: seq<CidrText>)

  datatype PeerEntry = PeerEntry(address: Address, peerLabel: string, groups: seq<string>)

  datatype ProxySpec = ProxySpec(
    runtimeSocket: string,
    certsDir: string,
    mapsDir: string,
    domain: string,
    extraOptions: seq<string>,
    internalBinds: seq<AddressText>,
    externalBinds: seq<AddressText>,
    sendGroupHeader: bool,
    ssoSecret: string,
    ssoHostname: Option<string>,
    ssoRevoked: seq<string>,
    dashboardHostname: Option<string>,
    dashboardAddress: Option<AddressText>,
    dashboardPort: int,
    internalHttpsPort: int,
    externalHttpPort: int,
    externalHttpsPort: int,
    services: seq<Service>,
    sourceSets: seq<SourceSet>,
    peers: seq<PeerEntry>)
  {
    predicate PublishesDashboard() { Truthy(dashboardHostname) }

    predicate UsesSso() {
      exists s, a :: s in services && a in s.authenticators && a.kind.Sso?
    }

    predicate HasInternal() {
      PublishesDashboard() || exists s :: s in services && s.exposure.Has(InternalDoor)
    }

    predicate HasExternal() {
      exists s :: s in services && s.exposure.Has(ExternalDoor)
    }
  }

  /** A text that is neither absent nor empty. */
  predicate Truthy(s: Option<string>) {
    s.Some? && s.value != ""
  }
}
