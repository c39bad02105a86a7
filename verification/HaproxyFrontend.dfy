/**
 The shared frontend of a door: many services behind one rule list, told apart by an access
 list on the host name. A request gets the verdict and the backend of its own service, as if
 that service's rules were alone, even when two services share their variable names.
 */
module HaproxyFrontend {
  import opened Wrappers
  import opened Ordering
  import opened HaproxyModel
  import opened HaproxyProgram
  import opened HaproxyGenerator
  import opened HaproxyPolicy
  import opened HaproxyFiles
  import opened HaproxyValidation
  import opened HaproxyFilters
  import opened HaproxySignOn
  import opened HaproxyCorrectness
  import opened HaproxyRates
  import opened HaproxyRows

  // ----- the frontend -----

  const SSO_ACL := "h_fg_sso"
  const DASHBOARD_ACL := "h_fg_dashboard"
  const NO_SERVICE := "be_fg_no_service"

  function SlugKey(s: Service): Key { TextKey(s.slug) }

  function Ordered(spec: ProxySpec): seq<Service> {
    SortBy(spec.services, SlugKey)
  }

  predicate OnFrontend(s: Service, d: Door) {
    s.kind.Http? && s.exposure.Has(d)
  }

  predicate ServesSignIn(spec: ProxySpec) {
    spec.UsesSso() && Truthy(spec.ssoHostname)
  }

  predicate ServesDashboard(spec: ProxySpec, d: Door) {
    d == InternalDoor && spec.PublishesDashboard()
  }

  function Guard(s: Service): Term { Yes(NamedAcl(HostAcl(s.slug))) }

  function Block(spec: ProxySpec, s: Service, d: Door): seq<Rule> {
    if OnFrontend(s, d) then ServiceRules(spec, s, d, [Guard(s)]) else []
  }

  function Blocks(spec: ProxySpec, services: seq<Service>, d: Door): seq<Rule> {
    if services == [] then [] else Block(spec, services[0], d) + Blocks(spec, services[1..], d)
  }

  /** Identity headers are ours alone: deleted before any rule can set one. */
  function Preamble(d: Door): seq<Rule> {
    [Rule(DelHeader("X-Foxguard-Peer"), []), Rule(DelHeader("X-Foxguard-User"), []), Rule(DelHeader("X-Foxguard-Groups"), [])]
    + (if d == InternalDoor then [Rule(SetVar(Var(PeerVar, ""), SrcLookup(PEERS_MAP_FILE)), [])] else [])
  }

  function SignInRules(spec: ProxySpec): seq<Rule> {
    if ServesSignIn(spec) then
      [Rule(Stop(NotFound), [Yes(NamedAcl(SSO_ACL)), No(SignInPath)]),
       Rule(SetHeaderFromSource("X-Foxguard-Client-IP"), [Yes(NamedAcl(SSO_ACL))])]
    else []
  }

  function FrontendRules(spec: ProxySpec, d: Door): seq<Rule> {
    Preamble(d) + SignInRules(spec) + Blocks(spec, Ordered(spec), d)
  }

  function ServiceAcls(services: seq<Service>, d: Door): (acls: seq<Acl>)
    ensures forall a :: a in acls <==>
      exists s :: s in services && OnFrontend(s, d) && s.Hostname(d).Some? && a == Acl(HostAcl(s.slug), s.Hostname(d).value)
  {
    if services == [] then []
    else
      var s := services[0];
      assert services == [s] + services[1..];
      (if OnFrontend(s, d) && s.Hostname(d).Some? then [Acl(HostAcl(s.slug), s.Hostname(d).value)] else [])
      + ServiceAcls(services[1..], d)
  }

  function FrontendAcls(spec: ProxySpec, d: Door): seq<Acl> {
    (if ServesSignIn(spec) then [Acl(SSO_ACL, spec.ssoHostname.value)] else [])
    + (if ServesDashboard(spec, d) then [Acl(DASHBOARD_ACL, spec.dashboardHostname.value)] else [])
    + ServiceAcls(Ordered(spec), d)
  }

  /** `use_backend` lines: the first access list that holds decides. */
  datatype UseBackend = UseBackend(backend: string, acl: string)

  function ServiceUses(services: seq<Service>, d: Door): seq<UseBackend> {
    if services == [] then []
    else
      (if OnFrontend(services[0], d) then [UseBackend(BackendName(services[0].slug), HostAcl(services[0].slug))] else [])
      + ServiceUses(services[1..], d)
  }

  function Uses(spec: ProxySpec, d: Door): seq<UseBackend> {
    (if ServesSignIn(spec) then [UseBackend("be_fg_sso", SSO_ACL)] else [])
    + (if ServesDashboard(spec, d) then [UseBackend("be_fg_dashboard", DASHBOARD_ACL)] else [])
    + ServiceUses(Ordered(spec), d)
  }

  predicate Named(acls: seq<Acl>, q: Request, name: string) {
    exists a :: a in acls && a.name == name && a.host == q.host
  }

  function Routed(acls: seq<Acl>, q: Request, uses: seq<UseBackend>): string {
    if uses == [] then NO_SERVICE
    else if Named(acls, q, uses[0].acl) then uses[0].backend
    else Routed(acls, q, uses[1..])
  }

  function Arriving(q: Request): State { State(map[], None, q.headers) }

  ghost function RunFrontend(spec: ProxySpec, w: World, d: Door, q: Request): Outcome {
    Run(w, FrontendAcls(spec, d), q, FrontendRules(spec, d), Arriving(q))
  }

  function RoutedBackend(spec: ProxySpec, d: Door, q: Request): string {
    Routed(FrontendAcls(spec, d), q, Uses(spec, d))
  }

  // ----- every rule of a service waits for its guard -----

  ghost predicate Guarded(rules: seq<Rule>, g: Term) {
    forall r :: r in rules ==> g in r.cond
  }

  lemma {:induction false} FiltersGuarded(s: Service, d: Door, i: nat, g: Term)
    ensures Guarded(FiltersFrom(s, d, i, [g]), g)
    decreases |s.filters| - i
  {
    if i < |s.filters| {
      FiltersGuarded(s, d, i + 1, g);
      assert Guarded(FilterRules(s, i, s.filters[i], [g]), g);
    }
  }

  lemma {:induction false} DeniesGuarded(s: Service, rules: seq<AccessRule>, g: Term)
    ensures Guarded(DenyRules(s, rules, [g]), g)
  {
    if rules != [] {
      DeniesGuarded(s, rules[1..], g);
    }
  }

  lemma {:induction false} AdmitGuarded(conditions: seq<seq<Term>>, g: Term)
    ensures Guarded(AdmitRules(conditions, [g]), g)
  {
    if conditions != [] {
      AdmitGuarded(conditions[1..], g);
    }
  }

  lemma GuardedConcat(a: seq<Rule>, b: seq<Rule>, g: Term)
    requires Guarded(a, g) && Guarded(b, g)
    ensures Guarded(a + b, g)
  {
  }

  lemma SetupGuarded(s: Service, auths: seq<Authenticator>, g: Term)
    ensures Guarded(SetupRules(s, auths, [g]), g)
  {
    if FirstSso(auths).Some? && s.kind.Http? {
      var first := FirstSso(auths).value;
      assert Guarded(SsoSetup(Tag(s), [g]), g);
      assert Guarded(SsoAuthz(Tag(s), first, [g]), g);
      GuardedConcat(SsoSetup(Tag(s), [g]), SsoAuthz(Tag(s), first, [g]), g);
    }
  }

  lemma FlagGuarded(s: Service, auths: seq<Authenticator>, g: Term)
    ensures Guarded(FlagRules(s, auths, [g]), g)
  {
    AdmitGuarded(Conditions(s, auths), g);
    GuardedConcat([Rule(SetVar(AUTH, IntConst(0)), [g])], AdmitRules(Conditions(s, auths), [g]), g);
  }

  lemma RefusalGuarded(s: Service, auths: seq<Authenticator>, g: Term)
    ensures Guarded(RefusalRules(s, auths, [g]), g)
  {
    assert Guarded(NotAllowedRules(s, auths, [g]), g);
    GuardedConcat(NotAllowedRules(s, auths, [g]), [Rule(Stop(Challenge(s, auths)), [g] + [Yes(IntIs(AUTH, 0))])], g);
  }

  lemma HeadersGuarded(spec: ProxySpec, s: Service, auths: seq<Authenticator>, d: Door, g: Term)
    ensures Guarded(HeaderRules(spec, s, auths, d, [g]), g)
  {
  }

  lemma HttpAuthGuarded(spec: ProxySpec, s: Service, auths: seq<Authenticator>, d: Door, g: Term)
    ensures Guarded(HttpAuthRules(spec, s, auths, d, [g]), g)
  {
    var flag, refusal, headers := FlagRules(s, auths, [g]), RefusalRules(s, auths, [g]), HeaderRules(spec, s, auths, d, [g]);
    FlagGuarded(s, auths, g);
    RefusalGuarded(s, auths, g);
    HeadersGuarded(spec, s, auths, d, g);
    GuardedConcat(refusal, headers, g);
    GuardedConcat(flag, refusal + headers, g);
    assert HttpAuthRules(spec, s, auths, d, [g]) == flag + (refusal + headers);
  }

  lemma AuthGuarded(spec: ProxySpec, s: Service, d: Door, g: Term)
    ensures Guarded(AuthRules(spec, s, d, [g]), g)
  {
    var auths := s.AuthFor(d);
    SetupGuarded(s, auths, g);
    HttpAuthGuarded(spec, s, auths, d, g);
    assert Guarded(TokenRules(s, auths, [g]), g);
    GuardedConcat(TokenRules(s, auths, [g]), HttpAuthRules(spec, s, auths, d, [g]), g);
  }

  lemma BlockGuarded(spec: ProxySpec, s: Service, d: Door)
    ensures Guarded(Block(spec, s, d), Guard(s))
  {
    FiltersGuarded(s, d, 0, Guard(s));
    DeniesGuarded(s, s.AccessFor(d), Guard(s));
    AuthGuarded(spec, s, d, Guard(s));
  }

  // ----- one access list holds -----

  /** A slug whose backend the configuration declares for something of its own. */
  predicate Reserved(spec: ProxySpec, slug: string) {
    || (ServesSignIn(spec) && slug == "fg_sso")
    || (spec.PublishesDashboard() && slug == "fg_dashboard")
    || ((spec.HasInternal() || spec.HasExternal()) && slug == "fg_no_service")
  }

  /** The request is for this service, on this door, and the sign-in page is elsewhere. */
  predicate Addresses(spec: ProxySpec, s: Service, d: Door, q: Request) {
    && OnFrontend(s, d) && s.Hostname(d) == Some(q.host) && !Reserved(spec, s.slug)
    && (ServesSignIn(spec) ==> spec.ssoHostname != Some(q.host))
  }

  lemma HostAclInjective(a: string, b: string)
    requires HostAcl(a) == HostAcl(b)
    ensures a == b
  {
    assert HostAcl(a)[2..] == a && HostAcl(b)[2..] == b;
  }

  lemma OrderedMembers(spec: ProxySpec, s: Service)
    ensures s in Ordered(spec) <==> s in spec.services
  {
    SortByMember(spec.services, SlugKey, s);
  }

  lemma DistinctServices(spec: ProxySpec, s: Service, t: Service)
    requires ServicesOk(spec, |spec.services|) && s in spec.services && t in spec.services && s != t
    ensures Apart(s, t) || Apart(t, s)
  {
    var i :| 0 <= i < |spec.services| && spec.services[i] == s;
    var j :| 0 <= j < |spec.services| && spec.services[j] == t;
    if i < j {
      assert Apart(spec.services[i], spec.services[j]);
    } else {
      assert Apart(spec.services[j], spec.services[i]);
    }
  }

  /** The only access list of the request's host is the service's own. */
  lemma OneAcl(spec: ProxySpec, s: Service, d: Door, q: Request, a: Acl)
    requires ServicesOk(spec, |spec.services|) && s in spec.services && Addresses(spec, s, d, q) && q.host != ""
    requires ServesDashboard(spec, d) ==> spec.dashboardHostname != Some(q.host)
    requires a in FrontendAcls(spec, d) && a.host == q.host
    ensures a.name == HostAcl(s.slug)
  {
    assert a in ServiceAcls(Ordered(spec), d);
    var x :| x in Ordered(spec) && OnFrontend(x, d) && x.Hostname(d).Some? && a == Acl(HostAcl(x.slug), x.Hostname(d).value);
    OrderedMembers(spec, x);
    if x != s {
      DistinctServices(spec, s, x);
    }
  }

  /** No other service answers to the host, and the sign-in page does not either. */
  lemma OnlyItsOwnName(spec: ProxySpec, s: Service, t: Service, d: Door, q: Request)
    requires ServicesOk(spec, |spec.services|) && s in spec.services && t in spec.services && s != t
    requires Addresses(spec, s, d, q) && q.host != "" && OnFrontend(t, d)
    requires ServesDashboard(spec, d) ==> spec.dashboardHostname != Some(q.host)
    ensures !Named(FrontendAcls(spec, d), q, HostAcl(t.slug))
  {
    DistinctServices(spec, s, t);
    forall a | a in FrontendAcls(spec, d) && a.host == q.host
      ensures a.name != HostAcl(t.slug)
    {
      OneAcl(spec, s, d, q, a);
      if a.name == HostAcl(t.slug) {
        HostAclInjective(s.slug, t.slug);
      }
    }
  }

  lemma ItsOwnName(spec: ProxySpec, s: Service, d: Door, q: Request)
    requires s in spec.services && OnFrontend(s, d) && s.Hostname(d) == Some(q.host)
    ensures Named(FrontendAcls(spec, d), q, HostAcl(s.slug))
  {
    OrderedMembers(spec, s);
    var a := Acl(HostAcl(s.slug), q.host);
    assert a in ServiceAcls(Ordered(spec), d);
    assert a in FrontendAcls(spec, d);
  }

  lemma AclNames(slug: string)
    ensures HostAcl(slug) == SSO_ACL <==> slug == "fg_sso"
    ensures HostAcl(slug) == DASHBOARD_ACL <==> slug == "fg_dashboard"
  {
    assert SSO_ACL == HostAcl("fg_sso") && DASHBOARD_ACL == HostAcl("fg_dashboard");
    if HostAcl(slug) == SSO_ACL {
      HostAclInjective(slug, "fg_sso");
    }
    if HostAcl(slug) == DASHBOARD_ACL {
      HostAclInjective(slug, "fg_dashboard");
    }
  }

  /** Neither the sign-in page nor the dashboard takes the request. */
  lemma NotReserved(spec: ProxySpec, s: Service, d: Door, q: Request)
    requires ServicesOk(spec, |spec.services|) && s in spec.services && Addresses(spec, s, d, q) && q.host != ""
    requires ServesDashboard(spec, d) ==> spec.dashboardHostname != Some(q.host)
    ensures ServesSignIn(spec) ==> !Named(FrontendAcls(spec, d), q, SSO_ACL)
    ensures ServesDashboard(spec, d) ==> !Named(FrontendAcls(spec, d), q, DASHBOARD_ACL)
  {
    AclNames(s.slug);
    forall a | a in FrontendAcls(spec, d) && a.host == q.host
      ensures a.name == HostAcl(s.slug)
    {
      OneAcl(spec, s, d, q, a);
    }
  }

  // ----- the run -----

  lemma NotServed(spec: ProxySpec, s: Service, d: Door, q: Request)
    requires ServicesOk(spec, |spec.services|) && s in spec.services && Addresses(spec, s, d, q)
    ensures ServesDashboard(spec, d) ==> spec.dashboardHostname != Some(q.host)
    ensures q.host != ""
  {
    var i :| 0 <= i < |spec.services| && spec.services[i] == s;
    assert ServiceOk(spec, spec.services[i]) && !TakesDashboardName(spec, spec.services[i]);
    assert HttpOk(s);
  }

  /** The blocks of other services let the request by, whatever has been set. */
  lemma OtherBlockPasses(spec: ProxySpec, w: World, acls: seq<Acl>, q: Request, t: Service, d: Door, st: State)
    requires OnFrontend(t, d) ==> !Named(acls, q, HostAcl(t.slug))
    ensures Run(w, acls, q, Block(spec, t, d), st) == Passed(st)
  {
    if OnFrontend(t, d) {
      BlockGuarded(spec, t, d);
      GuardedOff(w, acls, q, Guard(t), Block(spec, t, d), st);
    }
  }

  lemma {:induction false} OtherBlocksPass(spec: ProxySpec, w: World, acls: seq<Acl>, q: Request, rest: seq<Service>, d: Door, st: State)
    requires forall t :: t in rest && OnFrontend(t, d) ==> !Named(acls, q, HostAcl(t.slug))
    ensures Run(w, acls, q, Blocks(spec, rest, d), st) == Passed(st)
  {
    if rest != [] {
      RunConcat(w, acls, q, Block(spec, rest[0], d), Blocks(spec, rest[1..], d), st);
      assert rest[0] in rest;
      OtherBlockPasses(spec, w, acls, q, rest[0], d, st);
      OtherBlocksPass(spec, w, acls, q, rest[1..], d, st);
    }
  }

  /** Of the blocks one is run: the one of the service the request is for. */
  lemma {:induction false} OneBlockRuns(spec: ProxySpec, w: World, acls: seq<Acl>, q: Request, services: seq<Service>, s: Service, d: Door, st: State)
    requires s in services && OnFrontend(s, d)
    requires forall t :: t in services && t != s && OnFrontend(t, d) ==> !Named(acls, q, HostAcl(t.slug))
    requires forall i, j :: 0 <= i < j < |services| ==> services[i] != services[j]
    ensures Run(w, acls, q, Blocks(spec, services, d), st) == Run(w, acls, q, ServiceRules(spec, s, d, [Guard(s)]), st)
  {
    var t, rest := services[0], services[1..];
    assert services == [t] + rest;
    RunConcat(w, acls, q, Block(spec, t, d), Blocks(spec, rest, d), st);
    if t == s {
      assert s !in rest;
      var o := Run(w, acls, q, Block(spec, t, d), st);
      if o.Passed? {
        OtherBlocksPass(spec, w, acls, q, rest, d, o.state);
      }
    } else {
      OtherBlockPasses(spec, w, acls, q, t, d, st);
      OneBlockRuns(spec, w, acls, q, rest, s, d, st);
    }
  }

  lemma OrderedDistinct(spec: ProxySpec)
    requires UniqueNames(spec)
    ensures forall i, j :: 0 <= i < j < |Ordered(spec)| ==> Ordered(spec)[i] != Ordered(spec)[j]
  {
    var differ := (a: Service, b: Service) => a != b;
    assert Pairwise(spec.services, differ);
    SortByPermutes(spec.services, SlugKey);
    PairwisePermutation(spec.services, Ordered(spec), differ);
    forall i, j | 0 <= i < j < |Ordered(spec)|
      ensures Ordered(spec)[i] != Ordered(spec)[j]
    {
      assert differ(Ordered(spec)[i], Ordered(spec)[j]);
    }
  }

  /** Caller's identity headers are gone, and the peer label is the one the tunnel proves. */
  function Entered(w: World, d: Door, q: Request): State {
    var st := State(map[], None, q.headers - {"X-Foxguard-Peer", "X-Foxguard-User", "X-Foxguard-Groups"});
    if d == InternalDoor then Assign(st, Var(PeerVar, ""), TextValueOf(PeerEntryOf(w, PEERS_MAP_FILE, q.src))) else st
  }

  lemma Unconditional(w: World, acls: seq<Acl>, q: Request, a: Action, st: State)
    requires !a.Stop?
    ensures Run(w, acls, q, [Rule(a, [])], st) == Passed(Effect(w, q, st, a))
  {
    RunOne(w, acls, q, Rule(a, []), st);
  }

  lemma PreambleRun(w: World, acls: seq<Acl>, q: Request, d: Door)
    ensures Run(w, acls, q, Preamble(d), Arriving(q)) == Passed(Entered(w, d, q))
  {
    var st := Arriving(q);
    var a, b, c := DelHeader("X-Foxguard-Peer"), DelHeader("X-Foxguard-User"), DelHeader("X-Foxguard-Groups");
    var tail := if d == InternalDoor then [Rule(SetVar(Var(PeerVar, ""), SrcLookup(PEERS_MAP_FILE)), [])] else [];
    assert Preamble(d) == [Rule(a, [])] + ([Rule(b, [])] + ([Rule(c, [])] + tail));
    RunConcat(w, acls, q, [Rule(a, [])], [Rule(b, [])] + ([Rule(c, [])] + tail), st);
    Unconditional(w, acls, q, a, st);
    var st1 := Effect(w, q, st, a);
    RunConcat(w, acls, q, [Rule(b, [])], [Rule(c, [])] + tail, st1);
    Unconditional(w, acls, q, b, st1);
    var st2 := Effect(w, q, st1, b);
    RunConcat(w, acls, q, [Rule(c, [])], tail, st2);
    Unconditional(w, acls, q, c, st2);
    var st3 := Effect(w, q, st2, c);
    assert st3.headers == q.headers - {"X-Foxguard-Peer", "X-Foxguard-User", "X-Foxguard-Groups"};
    if d == InternalDoor {
      Unconditional(w, acls, q, SetVar(Var(PeerVar, ""), SrcLookup(PEERS_MAP_FILE)), st3);
    }
  }

  lemma SignInPasses(spec: ProxySpec, w: World, acls: seq<Acl>, q: Request, st: State)
    requires ServesSignIn(spec) ==> !Named(acls, q, SSO_ACL)
    ensures Run(w, acls, q, SignInRules(spec), st) == Passed(st)
  {
    if ServesSignIn(spec) {
      GuardedOff(w, acls, q, Yes(NamedAcl(SSO_ACL)), SignInRules(spec), st);
    }
  }

  lemma NamesUnique(spec: ProxySpec)
    requires ValidProxy(spec)
    ensures UniqueNames(spec)
  {
    forall i, j | 0 <= i < j < |spec.services|
      ensures spec.services[i].slug != spec.services[j].slug
    {
      assert Apart(spec.services[i], spec.services[j]);
    }
  }

  /** On the shared frontend the request meets the rules of its own service and no others. */
  lemma FrontendIsolates(spec: ProxySpec, w: World, s: Service, d: Door, q: Request)
    requires ValidProxy(spec) && s in spec.services && Addresses(spec, s, d, q)
    ensures RunFrontend(spec, w, d, q)
         == Run(w, FrontendAcls(spec, d), q, ServiceRules(spec, s, d, [Guard(s)]), Entered(w, d, q))
  {
    var acls, st := FrontendAcls(spec, d), Entered(w, d, q);
    NamesUnique(spec);
    NotServed(spec, s, d, q);
    NotReserved(spec, s, d, q);
    var blocks := Blocks(spec, Ordered(spec), d);
    RunConcat(w, acls, q, Preamble(d) + SignInRules(spec), blocks, Arriving(q));
    RunConcat(w, acls, q, Preamble(d), SignInRules(spec), Arriving(q));
    PreambleRun(w, acls, q, d);
    SignInPasses(spec, w, acls, q, st);
    OrderedMembers(spec, s);
    OrderedDistinct(spec);
    forall t | t in Ordered(spec) && t != s && OnFrontend(t, d)
      ensures !Named(acls, q, HostAcl(t.slug))
    {
      OrderedMembers(spec, t);
      OnlyItsOwnName(spec, s, t, d, q);
    }
    OneBlockRuns(spec, w, acls, q, Ordered(spec), s, d, st);
  }

  // ----- the backend -----

  lemma {:induction false} ServiceUsesRoute(acls: seq<Acl>, q: Request, services: seq<Service>, s: Service, d: Door)
    requires s in services && OnFrontend(s, d) && Named(acls, q, HostAcl(s.slug))
    requires forall t :: t in services && t != s && OnFrontend(t, d) ==> !Named(acls, q, HostAcl(t.slug))
    ensures Routed(acls, q, ServiceUses(services, d)) == BackendName(s.slug)
  {
    var t, rest := services[0], services[1..];
    assert services == [t] + rest;
    var uses := ServiceUses(rest, d);
    if OnFrontend(t, d) {
      assert ([UseBackend(BackendName(t.slug), HostAcl(t.slug))] + uses)[1..] == uses;
    } else {
      assert ServiceUses(services, d) == uses;
    }
    if t != s {
      ServiceUsesRoute(acls, q, rest, s, d);
    }
  }

  lemma {:induction false} SkipsReserved(acls: seq<Acl>, q: Request, a: seq<UseBackend>, b: seq<UseBackend>)
    requires forall u :: u in a ==> !Named(acls, q, u.acl)
    ensures Routed(acls, q, a + b) == Routed(acls, q, b)
  {
    if a == [] {
      assert a + b == b;
    } else {
      assert a[0] in a && (a + b)[1..] == a[1..] + b;
      SkipsReserved(acls, q, a[1..], b);
    }
  }

  /** What passes goes to the backend of the service it was judged by. */
  lemma FrontendRoutes(spec: ProxySpec, s: Service, d: Door, q: Request)
    requires ValidProxy(spec) && s in spec.services && Addresses(spec, s, d, q)
    ensures RoutedBackend(spec, d, q) == BackendName(s.slug)
  {
    var acls := FrontendAcls(spec, d);
    NotServed(spec, s, d, q);
    NotReserved(spec, s, d, q);
    var reserved := (if ServesSignIn(spec) then [UseBackend("be_fg_sso", SSO_ACL)] else [])
                    + (if ServesDashboard(spec, d) then [UseBackend("be_fg_dashboard", DASHBOARD_ACL)] else []);
    SkipsReserved(acls, q, reserved, ServiceUses(Ordered(spec), d));
    OrderedMembers(spec, s);
    ItsOwnName(spec, s, d, q);
    forall t | t in Ordered(spec) && t != s && OnFrontend(t, d)
      ensures !Named(acls, q, HostAcl(t.slug))
    {
      OrderedMembers(spec, t);
      OnlyItsOwnName(spec, s, t, d, q);
    }
    ServiceUsesRoute(acls, q, Ordered(spec), s, d);
  }

  // ----- what a backend name stands for -----

  datatype Target = Upstream(service: Service) | SignInPage | Dashboard | Nobody

  datatype Backend = Backend(name: string, target: Target)

  function ServiceBackends(services: seq<Service>): (r: seq<Backend>)
    ensures forall b :: b in r <==> b.target.Upstream? && b.target.service in services && b.name == BackendName(b.target.service.slug)
  {
    if services == [] then []
    else
      assert services == [services[0]] + services[1..];
      [Backend(BackendName(services[0].slug), Upstream(services[0]))] + ServiceBackends(services[1..])
  }

  function Backends(spec: ProxySpec): seq<Backend> {
    ServiceBackends(Ordered(spec))
    + (if ServesSignIn(spec) then [Backend("be_fg_sso", SignInPage)] else [])
    + (if spec.PublishesDashboard() then [Backend("be_fg_dashboard", Dashboard)] else [])
    + (if spec.HasInternal() || spec.HasExternal() then [Backend(NO_SERVICE, Nobody)] else [])
  }

  lemma BackendNameInjective(a: string, b: string)
    requires BackendName(a) == BackendName(b)
    ensures a == b
  {
    assert BackendName(a)[3..] == a && BackendName(b)[3..] == b;
  }

  /** `name` leads to the upstream of this service and nowhere else. */
  ghost predicate LeadsOnlyTo(spec: ProxySpec, name: string, s: Service) {
    forall b :: b in Backends(spec) && b.name == name ==> b.target == Upstream(s)
  }

  lemma SlugIsOne(spec: ProxySpec, s: Service, t: Service)
    requires ServicesOk(spec, |spec.services|) && s in spec.services && t in spec.services && s.slug == t.slug
    ensures s == t
  {
    if s != t {
      DistinctServices(spec, s, t);
    }
  }

  lemma OwnNames()
    ensures BackendName("fg_sso") == "be_fg_sso" && BackendName("fg_dashboard") == "be_fg_dashboard"
    ensures BackendName("fg_no_service") == NO_SERVICE
  {
  }

  /** Every backend carries a slug in its name: its service's, or a reserved one. */
  lemma BackendSlug(spec: ProxySpec, b: Backend) returns (slug: string)
    requires b in Backends(spec)
    ensures b.name == BackendName(slug)
    ensures if b.target.Upstream? then b.target.service in spec.services && b.target.service.slug == slug else Reserved(spec, slug)
  {
    OwnNames();
    match b.target
    case Upstream(t) =>
      slug := t.slug;
      assert b in ServiceBackends(Ordered(spec));
      OrderedMembers(spec, t);
    case SignInPage => slug := "fg_sso";
    case Dashboard => slug := "fg_dashboard";
    case Nobody => slug := "fg_no_service";
  }

  lemma ReservedIsDeclared(spec: ProxySpec, slug: string) returns (b: Backend)
    requires Reserved(spec, slug)
    ensures b in Backends(spec) && b.name == BackendName(slug) && !b.target.Upstream?
  {
    OwnNames();
    if ServesSignIn(spec) && slug == "fg_sso" {
      b := Backend("be_fg_sso", SignInPage);
    } else if spec.PublishesDashboard() && slug == "fg_dashboard" {
      b := Backend("be_fg_dashboard", Dashboard);
    } else {
      b := Backend(NO_SERVICE, Nobody);
    }
  }

  /** The name of a service's backend is its own exactly when its slug is not reserved. */
  lemma OwnBackend(spec: ProxySpec, s: Service)
    requires ServicesOk(spec, |spec.services|) && s in spec.services
    ensures LeadsOnlyTo(spec, BackendName(s.slug), s) <==> !Reserved(spec, s.slug)
  {
    if Reserved(spec, s.slug) {
      var b := ReservedIsDeclared(spec, s.slug);
    } else {
      forall b | b in Backends(spec) && b.name == BackendName(s.slug)
        ensures b.target == Upstream(s)
      {
        var slug := BackendSlug(spec, b);
        BackendNameInjective(slug, s.slug);
        SlugIsOne(spec, s, b.target.service);
      }
    }
  }

  /** The request meets its own service's rules, and what passes them reaches its own upstream. */
  ghost predicate Isolated(spec: ProxySpec, w: World, s: Service, d: Door, q: Request) {
    && RunFrontend(spec, w, d, q) == Run(w, FrontendAcls(spec, d), q, ServiceRules(spec, s, d, [Guard(s)]), Entered(w, d, q))
    && RoutedBackend(spec, d, q) == BackendName(s.slug)
    && LeadsOnlyTo(spec, RoutedBackend(spec, d, q), s)
  }

  /** Services of a validated specification are isolated exactly when name and slug are not the frontend's own. */
  lemma IsolatedExactly(spec: ProxySpec, w: World, s: Service, d: Door, q: Request)
    requires ValidProxy(spec) && s in spec.services && OnFrontend(s, d) && s.Hostname(d) == Some(q.host)
    ensures Isolated(spec, w, s, d, q)
       <==> !Reserved(spec, s.slug) && (ServesSignIn(spec) ==> spec.ssoHostname != Some(q.host))
  {
    OwnBackend(spec, s);
    if Addresses(spec, s, d, q) {
      FrontendIsolates(spec, w, s, d, q);
      FrontendRoutes(spec, s, d, q);
    } else {
      NotIsolated(spec, w, s, d, q);
    }
  }

  lemma NotIsolated(spec: ProxySpec, w: World, s: Service, d: Door, q: Request)
    requires LeadsOnlyTo(spec, BackendName(s.slug), s) ==> !Reserved(spec, s.slug)
    requires Reserved(spec, s.slug) || (ServesSignIn(spec) && spec.ssoHostname == Some(q.host))
    ensures !Isolated(spec, w, s, d, q)
  {
    if !Reserved(spec, s.slug) {
      SignInTakesIt(spec, d, q);
      OwnNames();
      if RoutedBackend(spec, d, q) == BackendName(s.slug) {
        BackendNameInjective(s.slug, "fg_sso");
      }
    }
  }

  lemma SignInTakesIt(spec: ProxySpec, d: Door, q: Request)
    requires ServesSignIn(spec) && spec.ssoHostname == Some(q.host)
    ensures RoutedBackend(spec, d, q) == "be_fg_sso"
  {
    assert Acl(SSO_ACL, q.host) in FrontendAcls(spec, d);
    assert Uses(spec, d)[0] == UseBackend("be_fg_sso", SSO_ACL);
  }

  // ----- the whole door -----

  lemma EnteredIsUntouched(w: World, d: Door, q: Request)
    ensures Untouched(Entered(w, d, q)) && Entered(w, d, q).tracked == None
    ensures "X-Foxguard-User" !in Entered(w, d, q).headers && "X-Foxguard-Peer" !in Entered(w, d, q).headers
    ensures "X-Foxguard-Groups" !in Entered(w, d, q).headers
  {
  }

  lemma GuardOpens(spec: ProxySpec, s: Service, d: Door, q: Request)
    requires s in spec.services && Addresses(spec, s, d, q)
    ensures Open(FrontendAcls(spec, d), q, [Guard(s)])
  {
    ItsOwnName(spec, s, d, q);
  }

  lemma ValidServicePolicy(spec: ProxySpec, s: Service)
    requires ValidProxy(spec) && s in spec.services
    ensures PolicyOk(spec, s)
  {
    var i :| 0 <= i < |spec.services| && spec.services[i] == s;
    assert ServiceOk(spec, spec.services[i]);
  }

  /**
   A request for a published service gets that service's verdict, reason included, and is sent
   to that service's backend, whatever else is published on the door.
   */
  lemma FrontendJudges(spec: ProxySpec, w: World, s: Service, d: Door, q: Request)
    requires ValidProxy(spec) && HasPeerSet(spec) && Resolves(spec, w.files)
    requires s in spec.services && Addresses(spec, s, d, q)
    ensures Verdict(JudgeAsEmitted(spec, w, s, d, q), RunFrontend(spec, w, d, q))
    ensures Introduced(spec, w, s, d, q, Entered(w, d, q), RunFrontend(spec, w, d, q))
    ensures w.tables == TablesOf(spec.services) && Growing(w.count) && RowsAgree(s.AuthFor(d)) && LimitsInOrder(s, d) ==>
      Verdict(Judge(spec, w, s, d, q), RunFrontend(spec, w, d, q))
    ensures RoutedBackend(spec, d, q) == BackendName(s.slug)
  {
    FrontendIsolates(spec, w, s, d, q);
    FrontendRoutes(spec, s, d, q);
    NamesUnique(spec);
    GuardOpens(spec, s, d, q);
    ValidServicePolicy(spec, s);
    EnteredIsUntouched(w, d, q);
    ServiceRulesJudge(spec, w, FrontendAcls(spec, d), q, s, d, [Guard(s)], Entered(w, d, q));
    if w.tables == TablesOf(spec.services) && Growing(w.count) && RowsAgree(s.AuthFor(d)) && LimitsInOrder(s, d) {
      TablesMean(spec.services, s);
      InOrderJudgementsAgree(spec, w, s, d, q);
    }
  }
}
