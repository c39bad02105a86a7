/**
 What a published service asks of a caller, said directly: filters all pass, access rules
 deny first and then need one allow, and one authenticator is enough.
 */
module HaproxyPolicy {
  import opened Wrappers
  import opened Net
  import opened GroupClaim
  import opened HaproxyModel
  import opened HaproxyProgram
  import opened HaproxyGenerator

  ghost predicate SrcIn(cidrs: seq<CidrText>, a: Address) {
    exists c :: c in cidrs && ParseCidr(c).Some? && Contains(ParseCidr(c).value, a)
  }

  ghost predicate InSourceSet(spec: ProxySpec, name: string, a: Address) {
    exists x :: x in spec.sourceSets && x.name == name && SrcIn(x.members, a)
  }

  // ----- filters: all of them -----

  predicate CountryNamed(w: World, f: Filter, q: Request) {
    w.country(q.src).Some? && w.country(q.src).value in f.countries
  }

  /** A rate limit counts the requests of its own period. */
  ghost predicate FilterPasses(w: World, s: Service, f: Filter, q: Request) {
    match f.kind
    case IpDeny => !SrcIn(f.networks, q.src)
    case IpAllow => SrcIn(f.networks, q.src)
    case GeoDeny => !CountryNamed(w, f, q)
    case GeoAllow => CountryNamed(w, f, q)
    case RateLimit => f.rate.Some? && f.period.Some? ==> w.count(TableName(s.slug), f.period.value) <= f.rate.value
    case _ => true
  }

  function FilterReason(s: Service, f: Filter): Reason {
    if !s.kind.Http? then Rejected
    else if f.kind.RateLimit? && f.period.Some? then TooManyRequests(f.period.value)
    else Denied
  }

  ghost predicate FiltersPass(w: World, s: Service, d: Door, q: Request) {
    forall f :: f in s.filters && f.scope.Covers(d) ==> FilterPasses(w, s, f, q)
  }

  /** The reason of the first filter, in the order listed, that does not pass. */
  ghost function FilterRefusal(w: World, s: Service, d: Door, q: Request, index: nat): Option<Reason>
    decreases |s.filters| - index
  {
    if index >= |s.filters| then None
    else if s.filters[index].scope.Covers(d) && !FilterPasses(w, s, s.filters[index], q)
    then Some(FilterReason(s, s.filters[index]))
    else FilterRefusal(w, s, d, q, index + 1)
  }

  // ----- access rules: deny first, then any allow -----

  ghost predicate SourceMatches(spec: ProxySpec, r: AccessRule, a: Address) {
    match r.source
    case Anyone => true
    case FromSet(name) => name.Some? ==> InSourceSet(spec, name.value, a)
    case FromNetwork(c) => ParseCidr(c).Some? && Contains(ParseCidr(c).value, a)
  }

  /** A rule of the service is in force on a door; one for a set of tunnel addresses only inside. */
  predicate InForce(s: Service, r: AccessRule, d: Door) {
    r in s.access && (d.InternalDoor? || !r.source.FromSet?)
  }

  ghost predicate AccessGranted(spec: ProxySpec, s: Service, d: Door, q: Request) {
    && (forall r :: InForce(s, r, d) && r.action.Deny? ==> !SourceMatches(spec, r, q.src))
    && ((exists r :: InForce(s, r, d) && r.action.Allow?) ==>
          exists r :: InForce(s, r, d) && r.action.Allow? && SourceMatches(spec, r, q.src))
  }

  // ----- authenticators: one is enough -----

  /** Signed by us, not expired, not revoked. */
  predicate Session(spec: ProxySpec, q: Request) {
    && q.cookie.Some?
    && q.cookie.value.verdict == 1
    && q.cookie.value.exp.Some? && q.cookie.value.exp.value > q.now
    && !(q.cookie.value.jti.Some? && q.cookie.value.jti.value in spec.ssoRevoked)
  }

  /** In any required group, and an administrator if one is required. */
  ghost predicate Meets(a: Authenticator, c: Jwt) {
    && (a.groups != [] ==> c.groups.Some? && exists g :: g in a.groups && Occurs(Pattern(g), c.groups.value))
    && (a.requireAdmin ==> c.admin == Some(1))
  }

  ghost predicate Proves(spec: ProxySpec, s: Service, a: Authenticator, q: Request) {
    match a.kind
    case Sso => s.kind.Http? && Session(spec, q) && Meets(a, q.cookie.value)
    case PeerIdentity => InSourceSet(spec, PEER_SET, q.src)
    case Bearer => s.kind.Http? && q.bearer.Some? && q.bearer.value in s.tokenHashes
    case Basic => s.kind.Http? && UserlistName(s.slug) in q.passwords
    case _ => false
  }

  ghost predicate Admitted(spec: ProxySpec, s: Service, auths: seq<Authenticator>, q: Request) {
    exists a :: a in auths && Proves(spec, s, a, q)
  }

  // ----- the verdict -----

  /** Signed in, in order, and still not let in by what the first sign-on row demands. */
  ghost predicate SignedInButRefused(spec: ProxySpec, auths: seq<Authenticator>, q: Request) {
    && FirstSso(auths).Some? && FirstSso(auths).value.Demands()
    && Session(spec, q) && !Meets(FirstSso(auths).value, q.cookie.value)
  }

  ghost function AuthRefusal(spec: ProxySpec, s: Service, auths: seq<Authenticator>, q: Request): Reason {
    if !s.kind.Http? then Rejected
    else if SignedInButRefused(spec, auths, q) then NotAllowedHere
    else Challenge(s, auths)
  }

  /** Why a request to the service is stopped at the door, or nothing when it is let through. */
  ghost function Judge(spec: ProxySpec, w: World, s: Service, d: Door, q: Request): Option<Reason> {
    if FilterRefusal(w, s, d, q, 0).Some? then FilterRefusal(w, s, d, q, 0)
    else if !AccessGranted(spec, s, d, q) then Some(if s.kind.Http? then Denied else Rejected)
    else if HasKind(s.AuthFor(d), Public) || Admitted(spec, s, s.AuthFor(d), q) then None
    else Some(AuthRefusal(spec, s, s.AuthFor(d), q))
  }

  /** A request passes exactly when filters, access rules and authenticators all say so. */
  lemma JudgePasses(spec: ProxySpec, w: World, s: Service, d: Door, q: Request)
    ensures Judge(spec, w, s, d, q) == None
       <==> && FiltersPass(w, s, d, q) && AccessGranted(spec, s, d, q)
            && (HasKind(s.AuthFor(d), Public) || Admitted(spec, s, s.AuthFor(d), q))
  {
    FilterRefusalMeans(w, s, d, q, 0);
  }

  lemma {:induction false} FilterRefusalMeans(w: World, s: Service, d: Door, q: Request, index: nat)
    ensures FilterRefusal(w, s, d, q, index) == None
       <==> forall i :: index <= i < |s.filters| && s.filters[i].scope.Covers(d) ==> FilterPasses(w, s, s.filters[i], q)
    decreases |s.filters| - index
  {
    if index < |s.filters| {
      FilterRefusalMeans(w, s, d, q, index + 1);
    }
  }

  // ----- several sign-on rows -----

  /**
   What the emitted rules make of the sign-on rows: every row that demands something asks the
   one variable that was computed for the first row.
   */
  ghost predicate ProvesAsEmitted(spec: ProxySpec, s: Service, auths: seq<Authenticator>, a: Authenticator, q: Request) {
    if a.kind.Sso? && s.kind.Http? && a.Demands() then
      && FirstSso(auths).Some? && FirstSso(auths).value.Demands()
      && Session(spec, q) && Meets(FirstSso(auths).value, q.cookie.value)
    else Proves(spec, s, a, q)
  }

  ghost predicate AdmittedAsEmitted(spec: ProxySpec, s: Service, auths: seq<Authenticator>, q: Request) {
    exists a :: a in auths && ProvesAsEmitted(spec, s, auths, a, q)
  }
}
