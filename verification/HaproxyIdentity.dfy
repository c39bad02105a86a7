/**
 The identity headers an upstream may rely on, and the host names the frontend keeps for
 itself: which requests never reach the service they name.
 */
module HaproxyIdentity {
  import opened Wrappers
  import opened Grammar
  import opened HaproxyModel
  import opened HaproxyProgram
  import opened HaproxyGenerator
  import opened HaproxyPolicy
  import opened HaproxyFiles
  import opened HaproxyValidation
  import opened HaproxyCorrectness
  import opened HaproxyFrontend

  // ----- headers -----

  predicate OnlySignOn(auths: seq<Authenticator>) {
    forall a :: a in auths ==> a.kind.Sso?
  }

  ghost predicate HonestHeaders(spec: ProxySpec, w: World, s: Service, d: Door, q: Request, h: map<string, string>) {
    && ("X-Foxguard-Peer" in h ==> d == InternalDoor && PeerEntryOf(w, PEERS_MAP_FILE, q.src) == Some(h["X-Foxguard-Peer"]))
    && ("X-Foxguard-Groups" in h ==>
          d == InternalDoor && spec.sendGroupHeader && PeerEntryOf(w, GROUPS_MAP_FILE, q.src) == Some(h["X-Foxguard-Groups"]))
    && ("X-Foxguard-User" in h ==> q.cookie.Some? && q.cookie.value.sub == Some(h["X-Foxguard-User"]))
  }

  lemma HeadersOnAreHonest(spec: ProxySpec, w: World, s: Service, auths: seq<Authenticator>, d: Door, q: Request, st: State)
    requires st.headers == Entered(w, d, q).headers && PeerLabel(st) == PeerLabel(Entered(w, d, q))
    requires FirstSso(auths).Some? ==> TextOf(st, Var(SubVar, Tag(s))) == if q.cookie.Some? then q.cookie.value.sub else None
    ensures var h := HeadersOn(spec, w, s, auths, d, q, st).headers;
            && HonestHeaders(spec, w, s, d, q, h)
            && (FirstSso(auths).Some? && q.cookie.Some? && q.cookie.value.sub.Some? ==> "X-Foxguard-User" in h)
  {
    EnteredIsUntouched(w, d, q);
    PeerLabelIsTheTunnels(w, d, q, st);
  }

  lemma PeerLabelIsTheTunnels(w: World, d: Door, q: Request, st: State)
    requires PeerLabel(st) == PeerLabel(Entered(w, d, q))
    ensures d == InternalDoor ==> TextOf(st, Var(PeerVar, "")) == PeerEntryOf(w, PEERS_MAP_FILE, q.src)
  {
    var entered := Entered(w, d, q);
    assert TextOf(st, Var(PeerVar, "")) == TextOf(entered, Var(PeerVar, ""));
  }

  /**
   Nobody forges an identity header: each one comes from the tunnel address or the session
   cookie. Where sign-on is the only way in, the cookie is a valid session.
   */
  lemma IdentityIsOurs(spec: ProxySpec, w: World, s: Service, d: Door, q: Request)
    requires ValidProxy(spec) && HasPeerSet(spec) && Resolves(spec, w.files)
    requires s in spec.services && Addresses(spec, s, d, q)
    requires RunFrontend(spec, w, d, q).Passed?
    ensures var h := RunFrontend(spec, w, d, q).state.headers;
            && HonestHeaders(spec, w, s, d, q, h)
            && (OnlySignOn(s.AuthFor(d)) ==>
                  && Session(spec, q)
                  && ("X-Foxguard-User" in h <==> q.cookie.value.sub.Some?))
  {
    FrontendJudges(spec, w, s, d, q);
    EnteredIsUntouched(w, d, q);
    IntroducedIsHonest(spec, w, s, d, q, RunFrontend(spec, w, d, q));
  }

  /** The same, from what is known of a run that passed. */
  lemma IntroducedIsHonest(spec: ProxySpec, w: World, s: Service, d: Door, q: Request, o: Outcome)
    requires o.Passed? && Introduced(spec, w, s, d, q, Entered(w, d, q), o)
    requires HasKind(s.AuthFor(d), Public) || AdmittedAsEmitted(spec, s, s.AuthFor(d), q)
    requires "X-Foxguard-User" !in Entered(w, d, q).headers && "X-Foxguard-Peer" !in Entered(w, d, q).headers
    requires "X-Foxguard-Groups" !in Entered(w, d, q).headers
    ensures HonestHeaders(spec, w, s, d, q, o.state.headers)
    ensures OnlySignOn(s.AuthFor(d)) ==>
      && Session(spec, q)
      && ("X-Foxguard-User" in o.state.headers <==> q.cookie.value.sub.Some?)
  {
    var auths := s.AuthFor(d);
    if !HasKind(auths, Public) {
      var st: State :| && st.headers == Entered(w, d, q).headers && PeerLabel(st) == PeerLabel(Entered(w, d, q))
                       && (FirstSso(auths).Some? ==> TextOf(st, Var(SubVar, Tag(s))) == if q.cookie.Some? then q.cookie.value.sub else None)
                       && o.state == HeadersOn(spec, w, s, auths, d, q, st);
      HeadersOnAreHonest(spec, w, s, auths, d, q, st);
      if OnlySignOn(auths) {
        var a :| a in auths && ProvesAsEmitted(spec, s, auths, a, q);
        FirstSsoFound(auths, a);
      }
    }
  }

  // ----- names the frontend keeps -----

  /** A host that selects the sign-in page is answered 404 off its path, whatever service has that name. */
  lemma SignInPageWins(spec: ProxySpec, w: World, d: Door, q: Request)
    requires ServesSignIn(spec) && Named(FrontendAcls(spec, d), q, SSO_ACL) && !q.signInPath
    ensures RunFrontend(spec, w, d, q) == Stopped(NotFound)
  {
    var acls, st := FrontendAcls(spec, d), Entered(w, d, q);
    var refuse := Rule(Stop(NotFound), [Yes(NamedAcl(SSO_ACL)), No(SignInPath)]);
    RunConcat(w, acls, q, Preamble(d) + SignInRules(spec), Blocks(spec, Ordered(spec), d), Arriving(q));
    RunConcat(w, acls, q, Preamble(d), SignInRules(spec), Arriving(q));
    PreambleRun(w, acls, q, d);
    CondConcat(w, acls, q, st, [Yes(NamedAcl(SSO_ACL))], [No(SignInPath)]);
    CondOne(w, acls, q, st, Yes(NamedAcl(SSO_ACL)));
    CondOne(w, acls, q, st, No(SignInPath));
    assert refuse.cond == [Yes(NamedAcl(SSO_ACL))] + [No(SignInPath)];
    assert SignInRules(spec)[0] == refuse;
  }

  /** So a service published under the host name of the sign-in page is never reached. */
  lemma SharedWithSignIn(spec: ProxySpec, w: World, d: Door, q: Request)
    requires ServesSignIn(spec) && spec.ssoHostname == Some(q.host) && !q.signInPath
    ensures RunFrontend(spec, w, d, q) == Stopped(NotFound)
  {
    assert Acl(SSO_ACL, q.host) in FrontendAcls(spec, d);
    SignInPageWins(spec, w, d, q);
  }

  lemma ReservedSlugsAccepted()
    ensures MatchesSlug("fg_sso") && MatchesSlug("fg_dashboard") && MatchesSlug("fg_no_service")
    ensures HostAcl("fg_sso") == SSO_ACL
  {
    assert Chomp("fg_sso") == "fg_sso" && Chomp("fg_dashboard") == "fg_dashboard" && Chomp("fg_no_service") == "fg_no_service";
  }

  /** And neither is a service whose slug is `fg_sso`, a slug validation accepts. */
  lemma SlugSharedWithSignIn(spec: ProxySpec, w: World, s: Service, d: Door, q: Request)
    requires ServesSignIn(spec) && s in spec.services && s.slug == "fg_sso"
    requires OnFrontend(s, d) && s.Hostname(d) == Some(q.host) && !q.signInPath
    ensures RunFrontend(spec, w, d, q) == Stopped(NotFound)
  {
    ReservedSlugsAccepted();
    ItsOwnName(spec, s, d, q);
    SignInPageWins(spec, w, d, q);
  }

  // ----- everything else -----

  lemma {:induction false} NowhereToGo(acls: seq<Acl>, q: Request, uses: seq<UseBackend>)
    requires forall a :: a in acls ==> a.host != q.host
    ensures Routed(acls, q, uses) == NO_SERVICE
  {
    if uses != [] {
      NowhereToGo(acls, q, uses[1..]);
    }
  }

  /** A host name nothing is published under meets no rule and leads to no service. */
  lemma UnknownHost(spec: ProxySpec, w: World, d: Door, q: Request)
    requires forall s :: s in spec.services && OnFrontend(s, d) ==> s.Hostname(d) != Some(q.host)
    requires ServesSignIn(spec) ==> spec.ssoHostname != Some(q.host)
    requires ServesDashboard(spec, d) ==> spec.dashboardHostname != Some(q.host)
    ensures RunFrontend(spec, w, d, q) == Passed(Entered(w, d, q))
    ensures RoutedBackend(spec, d, q) == NO_SERVICE
  {
    var acls, st := FrontendAcls(spec, d), Entered(w, d, q);
    forall a | a in acls
      ensures a.host != q.host
    {
      if a in ServiceAcls(Ordered(spec), d) {
        var s :| s in Ordered(spec) && OnFrontend(s, d) && s.Hostname(d).Some? && a == Acl(HostAcl(s.slug), s.Hostname(d).value);
        OrderedMembers(spec, s);
      }
    }
    NowhereToGo(acls, q, Uses(spec, d));
    var blocks := Blocks(spec, Ordered(spec), d);
    RunConcat(w, acls, q, Preamble(d) + SignInRules(spec), blocks, Arriving(q));
    RunConcat(w, acls, q, Preamble(d), SignInRules(spec), Arriving(q));
    PreambleRun(w, acls, q, d);
    SignInPasses(spec, w, acls, q, st);
    OtherBlocksPass(spec, w, acls, q, Ordered(spec), d, st);
  }
}
