/**
 The compiler from published services to frontend rules and pattern files.
 */
module HaproxyGenerator {
  import opened Wrappers
  import opened Net
  import opened Grammar
  import opened GroupClaim
  import opened HaproxyModel
  import opened HaproxyProgram

  // ----- names -----

  const PEER_SET := "fg_peers"
  const SSO_REVOKED_FILE := "sso_revoked.map"
  const PEERS_MAP_FILE := "peers.map"
  const GROUPS_MAP_FILE := "groups.map"
  const DEFAULT_ERROR_FILE := "err_default_503.http"

  function DigitChar(d: nat): char
    requires d < 10
  {
    ('0' as int + d) as char
  }

  function Decimal(n: nat): (s: string)
    ensures s != "" && forall i :: 0 <= i < |s| ==> Digit(s[i])
  {
    if n < 10 then [DigitChar(n)] else Decimal(n / 10) + [DigitChar(n % 10)]
  }

  function SetFile(name: string): string { "set_" + name + ".lst" }

  function TokenFile(slug: string): string { "tok_" + slug + ".map" }

  function FilterFile(slug: string, index: nat): string { "ipf_" + slug + "_" + Decimal(index) + ".lst" }

  function ErrorFile(slug: string): string { "err_" + slug + "_503.http" }

  function TableName(slug: string): string { "st_" + slug }

  function UserlistName(slug: string): string { "ul_" + slug }

  function BackendName(slug: string): string { "be_" + slug }

  function HostAcl(slug: string): string { "h_" + slug }

  /** A slug as part of a variable name. Two slugs may share it. */
  function Tag(s: Service): string { Underscored(s.slug) }

  // ----- stick tables -----

  /** The period of the first rate limit, whatever door it is for. */
  function CounterPeriod(filters: seq<Filter>): Option<int> {
    if filters == [] then None
    else if filters[0].kind.RateLimit? then filters[0].period
    else CounterPeriod(filters[1..])
  }

  /** One table a service with a rate limit, by the period it counts over. */
  function TablesOf(services: seq<Service>): map<string, int> {
    if services == [] then map[]
    else
      var p, rest := CounterPeriod(services[0].filters), TablesOf(services[1..]);
      if p.Some? then rest[TableName(services[0].slug) := p.value] else rest
  }

  // ----- filters -----

  function Yes(a: Atom): Term { Term(false, a) }

  function No(a: Atom): Term { Term(true, a) }

  /** `http-request deny` or, on a passthrough frontend, `tcp-request content reject`. */
  function Refuse(s: Service): Action {
    Stop(if s.kind.Http? then Denied else Rejected)
  }

  function FilterRules(s: Service, index: nat, f: Filter, guard: seq<Term>): seq<Rule> {
    match f.kind
    case IpDeny => [Rule(Refuse(s), guard + [Yes(SrcInFile(FilterFile(s.slug, index)))])]
    case IpAllow => [Rule(Refuse(s), guard + [No(SrcInFile(FilterFile(s.slug, index)))])]
    case GeoDeny => [Rule(Refuse(s), guard + [Yes(CountryIn(f.countries))])]
    case GeoAllow => [Rule(Refuse(s), guard + [No(CountryIn(f.countries))])]
    case RateLimit =>
      if s.kind.Http? && f.rate.Some? && f.period.Some? then
        [Rule(Track(TableName(s.slug)), guard),
         Rule(Stop(TooManyRequests(f.period.value)), guard + [Yes(RateAbove(f.rate.value))])]
      else []
    case _ => []
  }

  /** The filters from `index` on that cover the door, in the order they are listed. */
  function FiltersFrom(s: Service, d: Door, index: nat, guard: seq<Term>): seq<Rule>
    decreases |s.filters| - index
  {
    if index >= |s.filters| then []
    else
      (if s.filters[index].scope.Covers(d) then FilterRules(s, index, s.filters[index], guard) else [])
      + FiltersFrom(s, d, index + 1, guard)
  }

  // ----- access rules -----

  /** The condition selecting a source, or nothing for "any". */
  function SourceTerm(r: AccessRule): Option<Atom> {
    match r.source
    case Anyone => None
    case FromSet(name) => if name.Some? then Some(SrcInFile(SetFile(name.value))) else None
    case FromNetwork(c) =>
      match ParseCidr(c)
      case Some(n) => Some(SrcInNetwork(n))
      case None => None
  }

  function DenyRules(s: Service, rules: seq<AccessRule>, guard: seq<Term>): seq<Rule> {
    if rules == [] then []
    else
      (if rules[0].action.Deny? then
         [Rule(Refuse(s), guard + (if SourceTerm(rules[0]).Some? then [Yes(SourceTerm(rules[0]).value)] else []))]
       else [])
      + DenyRules(s, rules[1..], guard)
  }

  function Allows(rules: seq<AccessRule>): (r: seq<AccessRule>)
    ensures forall a :: a in r <==> a in rules && a.action.Allow?
  {
    if rules == [] then [] else (if rules[0].action.Allow? then [rules[0]] else []) + Allows(rules[1..])
  }

  predicate AllConditional(rules: seq<AccessRule>) {
    forall r :: r in rules ==> SourceTerm(r).Some?
  }

  function NoneOf(rules: seq<AccessRule>): seq<Term>
    requires AllConditional(rules)
  {
    seq(|rules|, i requires 0 <= i < |rules| => No(SourceTerm(rules[i]).value))
  }

  /** A disjunction of allow rules, as one refusal under the conjunction of their negations. */
  function AllowRules(s: Service, rules: seq<AccessRule>, guard: seq<Term>): seq<Rule> {
    if Allows(rules) != [] && AllConditional(Allows(rules)) then [Rule(Refuse(s), guard + NoneOf(Allows(rules)))] else []
  }

  // ----- single sign-on -----

  function FirstSso(auths: seq<Authenticator>): Option<Authenticator> {
    if auths == [] then None
    else if auths[0].kind.Sso? then Some(auths[0])
    else FirstSso(auths[1..])
  }

  function SsoSetup(tag: string, guard: seq<Term>): seq<Rule> {
    [Rule(SetVar(Var(AlgVar, tag), Algorithm), guard),
     Rule(SetVar(Var(JwtVar, tag), Cookie), guard),
     Rule(SetVar(Var(OkVar, tag), Verified(Var(JwtVar, tag), Var(AlgVar, tag))), guard),
     Rule(SetVar(Var(ExpVar, tag), ClaimExp(Var(JwtVar, tag))), guard),
     Rule(SetVar(Var(NowVar, tag), Date), guard),
     Rule(SetVar(Var(LeftVar, tag), Minus(Var(ExpVar, tag), Var(NowVar, tag))), guard),
     Rule(SetVar(Var(SubVar, tag), ClaimSub(Var(JwtVar, tag))), guard),
     Rule(SetVar(Var(JtiVar, tag), ClaimJti(Var(JwtVar, tag))), guard),
     Rule(SetVar(Var(RevVar, tag), LookUp(Var(JtiVar, tag), SSO_REVOKED_FILE)), guard)]
  }

  function Patterns(groups: seq<string>): seq<string> {
    seq(|groups|, i requires 0 <= i < |groups| => Pattern(groups[i]))
  }

  /** "May this person use this service", reduced to one integer so that its negation can be asked too. */
  function SsoAuthz(tag: string, a: Authenticator, guard: seq<Term>): seq<Rule> {
    if !a.Demands() then []
    else
      (if a.groups != [] then [Rule(SetVar(Var(GrpVar, tag), ClaimGroups(Var(JwtVar, tag))), guard)] else [])
      + (if a.requireAdmin then [Rule(SetVar(Var(AdmVar, tag), ClaimAdmin(Var(JwtVar, tag))), guard)] else [])
      + [Rule(SetVar(Var(AzVar, tag), IntConst(0)), guard),
         Rule(SetVar(Var(AzVar, tag), IntConst(1)), guard + AuthzTerms(tag, a))]
  }

  function AuthzTerms(tag: string, a: Authenticator): seq<Term> {
    (if a.groups != [] then [Yes(Contains_(Var(GrpVar, tag), Patterns(a.groups)))] else [])
    + (if a.requireAdmin then [Yes(IntIs(Var(AdmVar, tag), 1))] else [])
  }

  /** Signature, expiry and revocation. */
  function SessionTerms(tag: string): seq<Term> {
    [Yes(IntIs(Var(OkVar, tag), 1)), Yes(IntAbove(Var(LeftVar, tag), 0)), No(Found(Var(RevVar, tag)))]
  }

  // ----- authentication -----

  /** What must hold for one authenticator to admit; `None` for one that emits nothing here. */
  function AdmitTerms(s: Service, a: Authenticator): Option<seq<Term>> {
    var tag := Tag(s);
    match a.kind
    case Sso =>
      if s.kind.Http?
      then Some(SessionTerms(tag) + (if a.Demands() then [Yes(IntIs(Var(AzVar, tag), 1))] else []))
      else None
    case PeerIdentity => Some([Yes(SrcInFile(SetFile(PEER_SET)))])
    case Bearer => if s.kind.Http? then Some([Yes(Found(Var(TokVar, tag)))]) else None
    case Basic => if s.kind.Http? then Some([Yes(PasswordOk(UserlistName(s.slug)))]) else None
    case _ => None
  }

  function Conditions(s: Service, auths: seq<Authenticator>): seq<seq<Term>> {
    if auths == [] then []
    else (match AdmitTerms(s, auths[0]) case Some(t) => [t] case None => []) + Conditions(s, auths[1..])
  }

  const AUTH := Var(AuthVar, "")

  function AdmitRules(conditions: seq<seq<Term>>, guard: seq<Term>): seq<Rule> {
    if conditions == [] then []
    else [Rule(SetVar(AUTH, IntConst(1)), guard + conditions[0])] + AdmitRules(conditions[1..], guard)
  }

  predicate HasKind(auths: seq<Authenticator>, k: AuthKind) {
    exists a :: a in auths && a.kind == k
  }

  function FirstBasicRealm(s: Service, auths: seq<Authenticator>): string {
    if auths == [] then s.slug
    else if auths[0].kind.Basic? then (if Truthy(auths[0].realm) then auths[0].realm.value else s.slug)
    else FirstBasicRealm(s, auths[1..])
  }

  /** What a caller nobody admitted is told. */
  function Challenge(s: Service, auths: seq<Authenticator>): Reason {
    if FirstSso(auths).Some? then SignInFirst
    else if HasKind(auths, Basic) then PasswordRequired(FirstBasicRealm(s, auths))
    else if HasKind(auths, Bearer) then TokenRequired
    else Forbidden
  }

  function SetupRules(s: Service, auths: seq<Authenticator>, guard: seq<Term>): seq<Rule> {
    if FirstSso(auths).Some? && s.kind.Http?
    then SsoSetup(Tag(s), guard) + SsoAuthz(Tag(s), FirstSso(auths).value, guard)
    else []
  }

  function TokenRules(s: Service, auths: seq<Authenticator>, guard: seq<Term>): seq<Rule> {
    if HasKind(auths, Bearer) then [Rule(SetVar(Var(TokVar, Tag(s)), BearerLookup(TokenFile(s.slug))), guard)] else []
  }

  /** Signed in and not allowed here: said outright, before the redirect, which would only sign in again. */
  function NotAllowedRules(s: Service, auths: seq<Authenticator>, guard: seq<Term>): seq<Rule> {
    if FirstSso(auths).Some? && FirstSso(auths).value.Demands() then
      [Rule(Stop(NotAllowedHere),
            guard + [Yes(IntIs(AUTH, 0))] + SessionTerms(Tag(s)) + [Yes(IntIs(Var(AzVar, Tag(s)), 0))])]
    else []
  }

  function HeaderRules(spec: ProxySpec, s: Service, auths: seq<Authenticator>, d: Door, guard: seq<Term>): seq<Rule> {
    var sub := Var(SubVar, Tag(s));
    (if FirstSso(auths).Some? then [Rule(SetHeaderFromVar("X-Foxguard-User", sub), guard + [Yes(Found(sub))])] else [])
    + (if d == InternalDoor then
         [Rule(SetHeaderFromVar("X-Foxguard-Peer", Var(PeerVar, "")), guard + [Yes(Found(Var(PeerVar, "")))])]
         + (if spec.sendGroupHeader then
              [Rule(SetHeaderFromMap("X-Foxguard-Groups", GROUPS_MAP_FILE), guard + [Yes(SrcMapped(GROUPS_MAP_FILE))])]
            else [])
       else [])
  }

  function HttpAuthRules(spec: ProxySpec, s: Service, auths: seq<Authenticator>, d: Door, guard: seq<Term>): seq<Rule> {
    [Rule(SetVar(AUTH, IntConst(0)), guard)]
    + AdmitRules(Conditions(s, auths), guard)
    + NotAllowedRules(s, auths, guard)
    + [Rule(Stop(Challenge(s, auths)), guard + [Yes(IntIs(AUTH, 0))])]
    + HeaderRules(spec, s, auths, d, guard)
  }

  /** On a passthrough frontend each condition is one term, so none of them holding is one conjunction. */
  function NegateFirst(conditions: seq<seq<Term>>): seq<Term> {
    if conditions == [] then []
    else
      (if conditions[0] != [] then [Term(!conditions[0][0].negated, conditions[0][0].atom)] else [])
      + NegateFirst(conditions[1..])
  }

  function AuthRules(spec: ProxySpec, s: Service, d: Door, guard: seq<Term>): seq<Rule> {
    var auths := s.AuthFor(d);
    if auths == [] || HasKind(auths, Public) then []
    else
      SetupRules(s, auths, guard)
      + (if Conditions(s, auths) == [] then []
         else if s.kind.Http? then TokenRules(s, auths, guard) + HttpAuthRules(spec, s, auths, d, guard)
         else [Rule(Refuse(s), guard + NegateFirst(Conditions(s, auths)))])
  }

  function ServiceRules(spec: ProxySpec, s: Service, d: Door, guard: seq<Term>): seq<Rule> {
    FiltersFrom(s, d, 0, guard)
    + DenyRules(s, s.AccessFor(d), guard)
    + AllowRules(s, s.AccessFor(d), guard)
    + AuthRules(spec, s, d, guard)
  }
}
