/**
 A published service, from its rows alone: who gets in, by which door, and what anybody else is
 told, with doors, host names and authenticators spelled out.
 */
module HaproxyMeaning {
  import opened Wrappers
  import opened Net
  import opened Grammar
  import opened GrammarMeaning
  import opened HaproxyModel
  import opened HaproxyProgram
  import opened HaproxyGenerator
  import opened HaproxyPolicy
  import opened HaproxyFiles
  import opened HaproxyValidation
  import opened HaproxyFilters
  import opened HaproxyCorrectness
  import opened HaproxyRates
  import opened HaproxyRows
  import opened HaproxyFrontend

  // ----- doors -----

  predicate OnDoor(scope: Scope, d: Door) {
    match d
    case InternalDoor => !scope.ExternalScope?
    case ExternalDoor => !scope.InternalScope?
  }

  predicate Published(s: Service, d: Door) {
    match d
    case InternalDoor => !s.exposure.External?
    case ExternalDoor => !s.exposure.Internal?
  }

  function NameOn(s: Service, d: Door): Option<string> {
    match d
    case InternalDoor => s.internalHostname
    case ExternalDoor => s.externalHostname
  }

  lemma DoorsMean(s: Service, d: Door)
    ensures s.exposure.Has(d) <==> Published(s, d)
    ensures s.Hostname(d) == NameOn(s, d)
    ensures forall scope: Scope :: scope.Covers(d) <==> OnDoor(scope, d)
  {
  }

  /** An extra option is one line that begins with a small letter or a digit. */
  lemma OptionMeans(line: string)
    ensures OptionOk(line) <==>
            && line != "" && (line[0] in "abcdefghijklmnopqrstuvwxyz" || line[0] in "0123456789")
            && forall i :: 0 <= i < |line| ==> line[i] != '\n' && line[i] != '\r'
  {
    AllCharactersMean();
  }

  lemma BehindPrefix(p: string, a: string, b: string)
    requires p + a == p + b
    ensures a == b
  {
    assert (p + a)[|p|..] == a && (p + b)[|p|..] == b;
  }

  /** No two services share a counter, a list of accounts or a backend. */
  lemma NamesApart(a: string, b: string)
    ensures TableName(a) == TableName(b) <==> a == b
    ensures UserlistName(a) == UserlistName(b) <==> a == b
    ensures BackendName(a) == BackendName(b) <==> a == b
  {
    if TableName(a) == TableName(b) {
      BehindPrefix("st_", a, b);
    }
    if UserlistName(a) == UserlistName(b) {
      BehindPrefix("ul_", a, b);
    }
    if BackendName(a) == BackendName(b) {
      BehindPrefix("be_", a, b);
    }
  }

  // ----- who gets in -----

  /** Every filter of the door is met. */
  ghost predicate FiltersMet(w: World, s: Service, d: Door, q: Request) {
    forall f :: f in s.filters && OnDoor(f.scope, d) ==> FilterPasses(w, s, f, q)
  }

  /** Some authenticator of the door asks nobody, or knows the caller. */
  ghost predicate Known(spec: ProxySpec, s: Service, d: Door, q: Request) {
    exists a :: a in s.authenticators && OnDoor(a.scope, d) && (a.kind.Public? || Proves(spec, s, a, q))
  }

  /** A request is let in exactly when the filters of the door are met, access is granted, and the caller is known. */
  lemma JudgeMeans(spec: ProxySpec, w: World, s: Service, d: Door, q: Request)
    ensures Judge(spec, w, s, d, q) == None <==> FiltersMet(w, s, d, q) && AccessGranted(spec, s, d, q) && Known(spec, s, d, q)
  {
    JudgePasses(spec, w, s, d, q);
    DoorsMean(s, d);
    var auths := s.AuthFor(d);
    if HasKind(auths, Public) {
      var a :| a in auths && a.kind == Public;
    }
    if a :| a in s.authenticators && OnDoor(a.scope, d) && (a.kind.Public? || Proves(spec, s, a, q)) {
      assert a in auths;
    }
  }

  // ----- what anybody else is told -----

  /** The first authenticator of its kind among those of the door. */
  predicate FirstOn(auths: seq<Authenticator>, d: Door, k: AuthKind, i: int) {
    && 0 <= i < |auths| && auths[i].kind == k && OnDoor(auths[i].scope, d)
    && forall j :: 0 <= j < i ==> !(auths[j].kind == k && OnDoor(auths[j].scope, d))
  }

  predicate SomeOn(auths: seq<Authenticator>, d: Door, k: AuthKind) {
    exists a :: a in auths && a.kind == k && OnDoor(a.scope, d)
  }

  /** A password is asked for in the name the row gives, or the service's. */
  function RealmOf(s: Service, a: Authenticator): string {
    if a.realm.Some? && a.realm.value != "" then a.realm.value else s.slug
  }

  lemma FirstOnTail(auths: seq<Authenticator>, d: Door, k: AuthKind, i: int)
    requires FirstOn(auths, d, k, i) && i > 0
    ensures FirstOn(auths[1..], d, k, i - 1) && auths[1..][i - 1] == auths[i] && !(auths[0].kind == k && OnDoor(auths[0].scope, d))
  {
  }

  lemma CoveringStep(auths: seq<Authenticator>, d: Door)
    requires auths != []
    ensures AuthCovering(auths, d) == if OnDoor(auths[0].scope, d) then [auths[0]] + AuthCovering(auths[1..], d) else AuthCovering(auths[1..], d)
  {
  }

  lemma FirstSsoSkips(a: Authenticator, rest: seq<Authenticator>)
    ensures FirstSso([a] + rest) == if a.kind.Sso? then Some(a) else FirstSso(rest)
  {
    assert ([a] + rest)[1..] == rest;
  }

  lemma {:induction false} FirstSsoMeans(auths: seq<Authenticator>, d: Door, i: int)
    requires FirstOn(auths, d, Sso, i)
    ensures FirstSso(AuthCovering(auths, d)) == Some(auths[i])
  {
    CoveringStep(auths, d);
    FirstSsoSkips(auths[0], AuthCovering(auths[1..], d));
    if i > 0 {
      FirstOnTail(auths, d, Sso, i);
      FirstSsoMeans(auths[1..], d, i - 1);
    }
  }

  lemma {:induction false} NoSsoOn(auths: seq<Authenticator>)
    requires forall a :: a in auths ==> !a.kind.Sso?
    ensures FirstSso(auths).None?
  {
    if auths != [] {
      assert auths[0] in auths;
      NoSsoOn(auths[1..]);
    }
  }

  lemma RealmSkips(s: Service, a: Authenticator, rest: seq<Authenticator>)
    ensures FirstBasicRealm(s, [a] + rest)
         == if !a.kind.Basic? then FirstBasicRealm(s, rest) else RealmOf(s, a)
  {
    assert ([a] + rest)[1..] == rest;
  }

  lemma {:induction false} BasicRealmMeans(s: Service, auths: seq<Authenticator>, d: Door, i: int)
    requires FirstOn(auths, d, Basic, i)
    ensures FirstBasicRealm(s, AuthCovering(auths, d))
         == RealmOf(s, auths[i])
  {
    CoveringStep(auths, d);
    RealmSkips(s, auths[0], AuthCovering(auths[1..], d));
    if i > 0 {
      FirstOnTail(auths, d, Basic, i);
      BasicRealmMeans(s, auths[1..], d, i - 1);
    }
  }

  lemma KindOn(auths: seq<Authenticator>, d: Door, k: AuthKind)
    ensures HasKind(AuthCovering(auths, d), k) <==> SomeOn(auths, d, k)
  {
    if a :| a in AuthCovering(auths, d) && a.kind == k {
      assert a in auths && a.scope.Covers(d);
    }
    if a :| a in auths && a.kind == k && OnDoor(a.scope, d) {
      assert a in AuthCovering(auths, d);
    }
  }

  /** Signed in and turned away: the first sign-on row of the door asks for more than this person has. */
  ghost predicate TurnedAway(spec: ProxySpec, s: Service, d: Door, q: Request) {
    exists i :: FirstOn(s.authenticators, d, Sso, i) && Session(spec, q) && !Meets(s.authenticators[i], q.cookie.value)
  }

  /**
   What an HTTP caller nobody knows is told: that they may not, when they are signed in; to sign in,
   where there is a sign-on; else for a password, in the name of the first row that asks for one;
   else for a token; else nothing but no.
   */
  lemma RefusalMeans(spec: ProxySpec, s: Service, d: Door, q: Request)
    requires s.kind.Http?
    ensures var r, auths := AuthRefusal(spec, s, s.AuthFor(d), q), s.authenticators;
      && (r == NotAllowedHere <==> TurnedAway(spec, s, d, q))
      && (r == SignInFirst <==> SomeOn(auths, d, Sso) && !TurnedAway(spec, s, d, q))
      && (r.PasswordRequired? <==> !SomeOn(auths, d, Sso) && SomeOn(auths, d, Basic))
      && (forall i :: r.PasswordRequired? && FirstOn(auths, d, Basic, i) ==>
            r.realm == RealmOf(s, auths[i]))
      && (r == TokenRequired <==> !SomeOn(auths, d, Sso) && !SomeOn(auths, d, Basic) && SomeOn(auths, d, Bearer))
      && (r == Forbidden <==> !SomeOn(auths, d, Sso) && !SomeOn(auths, d, Basic) && !SomeOn(auths, d, Bearer))
  {
    var auths := s.authenticators;
    forall i | FirstOn(auths, d, Basic, i)
      ensures FirstBasicRealm(s, AuthCovering(auths, d))
           == RealmOf(s, auths[i])
    {
      BasicRealmMeans(s, auths, d, i);
    }
    KindOn(auths, d, Basic);
    KindOn(auths, d, Bearer);
    if SomeOn(auths, d, Sso) {
      var i := FirstExists(auths, d, Sso);
      FirstSsoMeans(auths, d, i);
      OneFirst(auths, d, Sso, i);
    } else {
      KindOn(auths, d, Sso);
      NoSsoOn(AuthCovering(auths, d));
    }
  }

  lemma OneFirst(auths: seq<Authenticator>, d: Door, k: AuthKind, i: int)
    requires FirstOn(auths, d, k, i)
    ensures forall j :: FirstOn(auths, d, k, j) ==> j == i
  {
  }

  lemma {:induction false} FirstExists(auths: seq<Authenticator>, d: Door, k: AuthKind) returns (i: int)
    requires SomeOn(auths, d, k)
    ensures FirstOn(auths, d, k, i)
  {
    if auths[0].kind == k && OnDoor(auths[0].scope, d) {
      i := 0;
    } else {
      assert auths == [auths[0]] + auths[1..];
      i := FirstExists(auths[1..], d, k);
      i := i + 1;
      forall j | 0 <= j < i
        ensures !(auths[j].kind == k && OnDoor(auths[j].scope, d))
      {
        if j > 0 {
          assert auths[j] == auths[1..][j - 1];
        }
      }
    }
  }

  // ----- what is accepted -----

  /** A door a service is published on has an authenticator, and one that asks nobody stands alone. */
  predicate Guarded(s: Service, d: Door) {
    Published(s, d) ==>
      && (exists i :: 0 <= i < |s.authenticators| && OnDoor(s.authenticators[i].scope, d))
      && forall i, j | 0 <= i < |s.authenticators| && 0 <= j < |s.authenticators| && i != j ::
           OnDoor(s.authenticators[i].scope, d) && OnDoor(s.authenticators[j].scope, d) ==> !s.authenticators[i].kind.Public?
  }

  lemma {:induction false} CoveringMany(auths: seq<Authenticator>, d: Door)
    ensures AuthCovering(auths, d) == [] <==> forall i :: 0 <= i < |auths| ==> !OnDoor(auths[i].scope, d)
    ensures |AuthCovering(auths, d)| <= 1
       <==> forall i, j :: 0 <= i < j < |auths| ==> !(OnDoor(auths[i].scope, d) && OnDoor(auths[j].scope, d))
  {
    if auths != [] {
      var a, rest := auths[0], auths[1..];
      CoveringMany(rest, d);
      assert AuthCovering(auths, d) == (if a.scope.Covers(d) then [a] else []) + AuthCovering(rest, d);
      assert forall i :: 0 < i < |auths| ==> auths[i] == rest[i - 1];
      assert forall i :: 0 <= i < |rest| ==> rest[i] == auths[i + 1];
    }
  }

  lemma DoorOkMeans(s: Service, d: Door)
    ensures DoorOk(s, d) <==> Guarded(s, d)
  {
    var auths := s.authenticators;
    DoorsMean(s, d);
    CoveringMany(auths, d);
    KindOn(auths, d, Public);
    if SomeOn(auths, d, Public) {
      var i := FirstExists(auths, d, Public);
      if Guarded(s, d) && Published(s, d) {
        forall j, k | 0 <= j < k < |auths|
          ensures !(OnDoor(auths[j].scope, d) && OnDoor(auths[k].scope, d))
        {
          assert auths[i].kind.Public?;
        }
      }
    } else {
      forall i | 0 <= i < |auths| && OnDoor(auths[i].scope, d)
        ensures !auths[i].kind.Public?
      {
        assert auths[i] in auths;
      }
    }
  }

  // ----- a request at the front -----

  /** The sign-in page is served: some service signs people on, and the page has a name. */
  predicate SignInServed(spec: ProxySpec) {
    && (exists s, a :: s in spec.services && a in s.authenticators && a.kind.Sso?)
    && spec.ssoHostname.Some? && spec.ssoHostname.value != ""
  }

  predicate DashboardServed(spec: ProxySpec) {
    spec.dashboardHostname.Some? && spec.dashboardHostname.value != ""
  }

  /** The slug is that of a backend the frontend declares for itself. */
  predicate TakenSlug(spec: ProxySpec, slug: string) {
    || (slug == "fg_sso" && SignInServed(spec))
    || (slug == "fg_dashboard" && DashboardServed(spec))
    || (slug == "fg_no_service" && (DashboardServed(spec) || spec.services != []))
  }

  lemma ServedMean(spec: ProxySpec)
    ensures spec.PublishesDashboard() <==> DashboardServed(spec)
    ensures ServesSignIn(spec) <==> SignInServed(spec)
    ensures spec.HasInternal() <==> DashboardServed(spec) || exists s :: s in spec.services && Published(s, InternalDoor)
    ensures spec.HasExternal() <==> exists s :: s in spec.services && Published(s, ExternalDoor)
  {
    forall s: Service, d: Door
      ensures s.exposure.Has(d) <==> Published(s, d)
    {
      DoorsMean(s, d);
    }
  }

  /** What the frontend keeps for itself. */
  lemma ReservedMeans(spec: ProxySpec, slug: string)
    ensures Reserved(spec, slug) <==> TakenSlug(spec, slug)
  {
    ServedMean(spec);
    if spec.services != [] {
      var s := spec.services[0];
      assert s in spec.services && (Published(s, InternalDoor) || Published(s, ExternalDoor));
    }
  }

  /**
   A request for the name of a published HTTP service, on a door where rate limits and sign-on rows
   agree, passes the whole frontend exactly when filters, access rules and authenticators of the
   service let it in, and goes to its backend.
   */
  lemma FrontendMeans(spec: ProxySpec, w: World, s: Service, d: Door, q: Request)
    requires ValidProxy(spec) && HasPeerSet(spec) && Resolves(spec, w.files) && w.tables == TablesOf(spec.services) && Growing(w.count)
    requires s in spec.services && s.kind.Http? && Published(s, d) && NameOn(s, d) == Some(q.host)
    requires !TakenSlug(spec, s.slug) && (SignInServed(spec) ==> spec.ssoHostname != Some(q.host))
    requires RowsAgree(s.AuthFor(d)) && LimitsAgree(s, d)
    ensures RunFrontend(spec, w, d, q).Passed? <==> FiltersMet(w, s, d, q) && AccessGranted(spec, s, d, q) && Known(spec, s, d, q)
    ensures RoutedBackend(spec, d, q) == "be_" + s.slug
  {
    FrontendAsEmitted(spec, w, s, d, q);
    TablesMean(spec.services, s);
    ValidServicePolicy(spec, s);
    PassesAlike(spec, w, s, d, q);
    JudgeMeans(spec, w, s, d, q);
  }

  lemma FrontendAsEmitted(spec: ProxySpec, w: World, s: Service, d: Door, q: Request)
    requires ValidProxy(spec) && HasPeerSet(spec) && Resolves(spec, w.files)
    requires s in spec.services && s.kind.Http? && Published(s, d) && NameOn(s, d) == Some(q.host)
    requires !TakenSlug(spec, s.slug) && (SignInServed(spec) ==> spec.ssoHostname != Some(q.host))
    ensures RunFrontend(spec, w, d, q).Passed? <==> JudgeAsEmitted(spec, w, s, d, q) == None
    ensures RoutedBackend(spec, d, q) == "be_" + s.slug
  {
    AddressedHere(spec, s, d, q);
    FrontendJudges(spec, w, s, d, q);
  }

  lemma AddressedHere(spec: ProxySpec, s: Service, d: Door, q: Request)
    requires s.kind.Http? && Published(s, d) && NameOn(s, d) == Some(q.host)
    requires !TakenSlug(spec, s.slug) && (SignInServed(spec) ==> spec.ssoHostname != Some(q.host))
    ensures Addresses(spec, s, d, q)
  {
    DoorsMean(s, d);
    ReservedMeans(spec, s.slug);
    ServedMean(spec);
  }

  lemma PassesAlike(spec: ProxySpec, w: World, s: Service, d: Door, q: Request)
    requires s.kind.Http? && PolicyOk(spec, s) && TableDeclared(w.tables, s) && Growing(w.count)
    requires RowsAgree(s.AuthFor(d)) && LimitsAgree(s, d)
    ensures Judge(spec, w, s, d, q) == None <==> JudgeAsEmitted(spec, w, s, d, q) == None
  {
    PolicyLimitsWhole(spec, s);
    AgreeSuffices(s, d, w.count);
    SamePassing(w, s, d, q);
    AdmittedWhenAgreeing(spec, s, s.AuthFor(d), q);
  }
}
