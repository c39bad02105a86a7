/**
 The emitted rules of a service, run on any request, give the verdict of the policy.

 Filters and access rules are exact. For authenticators the rules are exact too, except that
 all sign-on rows of one door share one variable: `RowsAgree` is exactly when that does not
 matter.
 */
module HaproxyCorrectness {
  import opened Wrappers
  import opened HaproxyModel
  import opened HaproxyProgram
  import opened HaproxyGenerator
  import opened HaproxyPolicy
  import opened HaproxyFiles
  import opened HaproxyValidation
  import opened HaproxyFilters
  import opened HaproxySignOn

  // ----- what the authentication rules rely on -----

  predicate TokenKnown(s: Service, q: Request) {
    q.bearer.Some? && q.bearer.value in s.tokenHashes
  }

  ghost predicate SignOnReady(spec: ProxySpec, w: World, acls: seq<Acl>, q: Request, s: Service, first: Authenticator, st: State) {
    && (CondHolds(w, acls, q, st, SessionTerms(Tag(s))) <==> Session(spec, q))
    && IntOf(st, Var(AzVar, Tag(s))) == (if first.Demands() then Some(if MeetsHere(first, q) then 1 else 0) else None)
    && TextOf(st, Var(SubVar, Tag(s))) == (if q.cookie.Some? then q.cookie.value.sub else None)
    && (Var(SubVar, Tag(s)) in st.vars <==> TextOf(st, Var(SubVar, Tag(s))).Some?)
  }

  ghost predicate Ready(spec: ProxySpec, w: World, acls: seq<Acl>, q: Request, s: Service, auths: seq<Authenticator>, st: State) {
    && (FirstSso(auths).Some? ==> SignOnReady(spec, w, acls, q, s, FirstSso(auths).value, st))
    && (HasKind(auths, Bearer) ==> (Var(TokVar, Tag(s)) in st.vars <==> TokenKnown(s, q)))
  }

  /** `was` and `st` agree on the variables a sign-on condition reads. */
  predicate SameSession(tag: string, was: State, st: State) {
    forall k :: k in [OkVar, LeftVar, RevVar, SubVar] ==>
      && (Var(k, tag) in was.vars <==> Var(k, tag) in st.vars)
      && (Var(k, tag) in was.vars ==> st.vars[Var(k, tag)] == was.vars[Var(k, tag)])
  }

  lemma SessionFrame(w: World, acls: seq<Acl>, q: Request, tag: string, was: State, st: State)
    requires SameSession(tag, was, st)
    ensures CondHolds(w, acls, q, st, SessionTerms(tag)) <==> CondHolds(w, acls, q, was, SessionTerms(tag))
    ensures TextOf(st, Var(SubVar, tag)) == TextOf(was, Var(SubVar, tag))
  {
    var a, b, c := Yes(IntIs(Var(OkVar, tag), 1)), Yes(IntAbove(Var(LeftVar, tag), 0)), No(Found(Var(RevVar, tag)));
    var kinds := [OkVar, LeftVar, RevVar, SubVar];
    assert kinds[0] in kinds && kinds[1] in kinds && kinds[2] in kinds && kinds[3] in kinds;
    CondThree(w, acls, q, st, a, b, c);
    CondThree(w, acls, q, was, a, b, c);
  }

  lemma SetupTouchesLittle(tag: string, was: State, st: State)
    requires Untouched(was) && SameButSetup(was, st, tag, SETUP_LENGTH)
    ensures Var(GrpVar, tag) !in st.vars && Var(AdmVar, tag) !in st.vars && Var(AzVar, tag) !in st.vars && Var(TokVar, tag) !in st.vars
    ensures PeerLabel(st) == PeerLabel(was) && st.headers == was.headers
  {
  }

  lemma AfterSetup(spec: ProxySpec, w: World, acls: seq<Acl>, q: Request, tag: string, was: State, st: State)
    requires SetupDone(w, q, was, st, tag)
    requires SSO_REVOKED_FILE in w.files && w.files[SSO_REVOKED_FILE] == KeyFile(spec.ssoRevoked)
    ensures CondHolds(w, acls, q, st, SessionTerms(tag)) <==> Session(spec, q)
    ensures TextOf(st, Var(SubVar, tag)) == (if q.cookie.Some? then q.cookie.value.sub else None)
    ensures Var(SubVar, tag) in st.vars <==> TextOf(st, Var(SubVar, tag)).Some?
    ensures CookieIn(q, st, tag)
  {
    SessionTermsMean(spec, w, acls, q, was, st, tag);
    assert Holding(w, q, st, tag, JwtVar);
    assert Holding(w, q, st, tag, SubVar);
  }

  lemma AuthzTouchesLittle(tag: string, was: State, st: State)
    requires OnlyVars(tag, {GrpVar, AdmVar, AzVar}, was, st)
    ensures SameSession(tag, was, st) && PeerLabel(st) == PeerLabel(was) && st.headers == was.headers
    ensures Var(TokVar, tag) in st.vars <==> Var(TokVar, tag) in was.vars
  {
  }

  lemma AfterAuthz(spec: ProxySpec, w: World, acls: seq<Acl>, q: Request, s: Service, first: Authenticator, guard: seq<Term>, st: State)
    requires Open(acls, q, guard) && CookieIn(q, st, Tag(s))
    requires Var(GrpVar, Tag(s)) !in st.vars && Var(AdmVar, Tag(s)) !in st.vars && Var(AzVar, Tag(s)) !in st.vars
    requires CondHolds(w, acls, q, st, SessionTerms(Tag(s))) <==> Session(spec, q)
    requires TextOf(st, Var(SubVar, Tag(s))) == (if q.cookie.Some? then q.cookie.value.sub else None)
    requires Var(SubVar, Tag(s)) in st.vars <==> TextOf(st, Var(SubVar, Tag(s))).Some?
    ensures var o := Run(w, acls, q, SsoAuthz(Tag(s), first, guard), st);
            && o.Passed? && o.state.headers == st.headers && PeerLabel(o.state) == PeerLabel(st)
            && SignOnReady(spec, w, acls, q, s, first, o.state)
            && (Var(TokVar, Tag(s)) in o.state.vars <==> Var(TokVar, Tag(s)) in st.vars)
  {
    if first.Demands() {
      AuthzRun(w, acls, q, guard, Tag(s), first, st);
      var st1 := Run(w, acls, q, SsoAuthz(Tag(s), first, guard), st).state;
      AuthzTouchesLittle(Tag(s), st, st1);
      SessionFrame(w, acls, q, Tag(s), st, st1);
      assert Var(SubVar, Tag(s)) in st.vars <==> Var(SubVar, Tag(s)) in st1.vars;
      assert SignOnReady(spec, w, acls, q, s, first, st1);
    } else {
      assert Run(w, acls, q, SsoAuthz(Tag(s), first, guard), st) == Passed(st);
    }
  }

  lemma SetupRulesRun(spec: ProxySpec, w: World, acls: seq<Acl>, q: Request, s: Service, auths: seq<Authenticator>, guard: seq<Term>, st: State)
    requires LookupsFind(spec, w, s, q) && Untouched(st) && Open(acls, q, guard) && s.kind.Http?
    ensures var o := Run(w, acls, q, SetupRules(s, auths, guard), st);
            && o.Passed? && o.state.headers == st.headers && PeerLabel(o.state) == PeerLabel(st)
            && (FirstSso(auths).Some? ==> SignOnReady(spec, w, acls, q, s, FirstSso(auths).value, o.state))
            && Var(TokVar, Tag(s)) !in o.state.vars
  {
    if FirstSso(auths).Some? {
      var tag, first := Tag(s), FirstSso(auths).value;
      RunConcat(w, acls, q, SsoSetup(tag, guard), SsoAuthz(tag, first, guard), st);
      SetupRun(w, acls, q, guard, tag, st);
      var st1 := Run(w, acls, q, SsoSetup(tag, guard), st).state;
      AfterSetup(spec, w, acls, q, tag, st, st1);
      SetupTouchesLittle(tag, st, st1);
      AfterAuthz(spec, w, acls, q, s, first, guard, st1);
    }
  }

  function PeerLabel(st: State): Option<Value> {
    if Var(PeerVar, "") in st.vars then Some(st.vars[Var(PeerVar, "")]) else None
  }

  lemma TokenFound(w: World, q: Request, s: Service, st: State)
    requires s.tokenHashes != [] && TokenFile(s.slug) in w.files && w.files[TokenFile(s.slug)] == KeyFile(s.tokenHashes)
    requires Var(TokVar, Tag(s)) !in st.vars
    ensures var st1 := Assign(st, Var(TokVar, Tag(s)), Evaluate(w, q, st, BearerLookup(TokenFile(s.slug))));
      && (Var(TokVar, Tag(s)) in st1.vars <==> TokenKnown(s, q))
      && OnlyVars(Tag(s), {TokVar}, st, st1)
  {
    if q.bearer.Some? {
      KeyFileMeans(w, TokenFile(s.slug), s.tokenHashes, q.bearer.value);
    }
  }

  /** Setting the token variable touches nothing a sign-on reads. */
  lemma TokenKeepsSignOn(spec: ProxySpec, w: World, acls: seq<Acl>, q: Request, s: Service, first: Authenticator, st: State, st1: State)
    requires SignOnReady(spec, w, acls, q, s, first, st) && OnlyVars(Tag(s), {TokVar}, st, st1)
    ensures SignOnReady(spec, w, acls, q, s, first, st1) && PeerLabel(st1) == PeerLabel(st) && st1.headers == st.headers
  {
    SessionFrame(w, acls, q, Tag(s), st, st1);
  }

  lemma TokenKeepsLabel(s: Service, st: State, st1: State)
    requires OnlyVars(Tag(s), {TokVar}, st, st1)
    ensures PeerLabel(st1) == PeerLabel(st) && st1.headers == st.headers
  {
  }

  lemma TokenRulesRun(spec: ProxySpec, w: World, acls: seq<Acl>, q: Request, s: Service, auths: seq<Authenticator>, guard: seq<Term>, st: State)
    requires LookupsFind(spec, w, s, q) && Open(acls, q, guard) && s.kind.Http?
    requires HasKind(auths, Bearer) ==> s.tokenHashes != []
    requires FirstSso(auths).Some? ==> SignOnReady(spec, w, acls, q, s, FirstSso(auths).value, st)
    requires Var(TokVar, Tag(s)) !in st.vars
    ensures var o := Run(w, acls, q, TokenRules(s, auths, guard), st);
            o.Passed? && Ready(spec, w, acls, q, s, auths, o.state) && o.state.headers == st.headers
            && PeerLabel(o.state) == PeerLabel(st)
  {
    if HasKind(auths, Bearer) {
      SetOne(w, acls, q, guard, Var(TokVar, Tag(s)), BearerLookup(TokenFile(s.slug)), st);
      TokenFound(w, q, s, st);
      var st1 := Run(w, acls, q, TokenRules(s, auths, guard), st).state;
      TokenKeepsLabel(s, st, st1);
      if FirstSso(auths).Some? {
        TokenKeepsSignOn(spec, w, acls, q, s, FirstSso(auths).value, st, st1);
      }
    } else {
      assert Run(w, acls, q, TokenRules(s, auths, guard), st) == Passed(st);
    }
  }

  // ----- any authenticator is enough -----

  /** The common flag, and nothing else, may have changed. */
  ghost predicate OnlyFlag(was: State, st: State) {
    OnlyVars("", {AuthVar}, was, st)
  }

  lemma ReadyKept(spec: ProxySpec, w: World, acls: seq<Acl>, q: Request, s: Service, auths: seq<Authenticator>, was: State, st: State)
    requires Ready(spec, w, acls, q, s, auths, was) && OnlyFlag(was, st)
    ensures Ready(spec, w, acls, q, s, auths, st)
  {
    SessionFrame(w, acls, q, Tag(s), was, st);
  }

  lemma AdmitTermsMean(spec: ProxySpec, w: World, acls: seq<Acl>, q: Request, s: Service, auths: seq<Authenticator>, a: Authenticator, st: State)
    requires LookupsFind(spec, w, s, q)
    requires s.kind.Http? && a in auths && Ready(spec, w, acls, q, s, auths, st)
    ensures match AdmitTerms(s, a)
            case Some(t) => CondHolds(w, acls, q, st, t) <==> ProvesAsEmitted(spec, s, auths, a, q)
            case None => !ProvesAsEmitted(spec, s, auths, a, q)
  {
    var tag := Tag(s);
    match a.kind
    case Sso =>
      FirstSsoFound(auths, a);
      var az := Yes(IntIs(Var(AzVar, tag), 1));
      CondOne(w, acls, q, st, az);
      CondConcat(w, acls, q, st, SessionTerms(tag), if a.Demands() then [az] else []);
    case PeerIdentity =>
      CondOne(w, acls, q, st, Yes(SrcInFile(SetFile(PEER_SET))));
    case Bearer =>
      CondOne(w, acls, q, st, Yes(Found(Var(TokVar, tag))));
    case Basic =>
      CondOne(w, acls, q, st, Yes(PasswordOk(UserlistName(s.slug))));
    case _ =>
  }

  lemma {:induction false} FirstSsoFound(auths: seq<Authenticator>, a: Authenticator)
    requires a in auths && a.kind.Sso?
    ensures FirstSso(auths).Some? && FirstSso(auths).value in auths && FirstSso(auths).value.kind.Sso?
  {
    if !auths[0].kind.Sso? {
      FirstSsoFound(auths[1..], a);
    }
  }

  /** One assignment per authenticator: the flag ends at 1 when it was 1 or one of them proves. */
  lemma {:induction false} AdmitRulesRun(spec: ProxySpec, w: World, acls: seq<Acl>, q: Request, s: Service,
                                         auths: seq<Authenticator>, rest: seq<Authenticator>, guard: seq<Term>, st: State)
    requires LookupsFind(spec, w, s, q) && Open(acls, q, guard)
    requires s.kind.Http? && (forall a :: a in rest ==> a in auths) && Ready(spec, w, acls, q, s, auths, st)
    requires IntOf(st, AUTH) == Some(0) || IntOf(st, AUTH) == Some(1)
    ensures var o := Run(w, acls, q, AdmitRules(Conditions(s, rest), guard), st);
            && o.Passed? && OnlyFlag(st, o.state)
            && IntOf(o.state, AUTH) == Some(if IntOf(st, AUTH) == Some(1) || (exists a :: a in rest && ProvesAsEmitted(spec, s, auths, a, q)) then 1 else 0)
    decreases |rest|
  {
    if rest != [] {
      var a, tail := rest[0], rest[1..];
      assert rest == [a] + tail;
      AdmitTermsMean(spec, w, acls, q, s, auths, a, st);
      match AdmitTerms(s, a)
      case None =>
        assert Conditions(s, rest) == Conditions(s, tail);
        AdmitRulesRun(spec, w, acls, q, s, auths, tail, guard, st);
      case Some(t) =>
        assert Conditions(s, rest) == [t] + Conditions(s, tail);
        AdmitOne(w, acls, q, t, Conditions(s, tail), guard, st);
        var st1 := if CondHolds(w, acls, q, st, t) then Assign(st, AUTH, Some(IntValue(1))) else st;
        ReadyKept(spec, w, acls, q, s, auths, st, st1);
        AdmitRulesRun(spec, w, acls, q, s, auths, tail, guard, st1);
    }
  }

  lemma AdmitOne(w: World, acls: seq<Acl>, q: Request, t: seq<Term>, rest: seq<seq<Term>>, guard: seq<Term>, st: State)
    requires Open(acls, q, guard)
    ensures Run(w, acls, q, AdmitRules([t] + rest, guard), st)
         == Run(w, acls, q, AdmitRules(rest, guard), if CondHolds(w, acls, q, st, t) then Assign(st, AUTH, Some(IntValue(1))) else st)
  {
    var first := Rule(SetVar(AUTH, IntConst(1)), guard + t);
    assert ([t] + rest)[1..] == rest;
    assert AdmitRules([t] + rest, guard) == [first] + AdmitRules(rest, guard);
    RunConcat(w, acls, q, [first], AdmitRules(rest, guard), st);
    GuardDrops(w, acls, q, st, guard, t);
    RunOne(w, acls, q, first, st);
  }

  // ----- refusing the rest -----

  lemma NotAllowedRun(spec: ProxySpec, w: World, acls: seq<Acl>, q: Request, s: Service, auths: seq<Authenticator>, guard: seq<Term>, st: State)
    requires Open(acls, q, guard) && Ready(spec, w, acls, q, s, auths, st)
    ensures Run(w, acls, q, NotAllowedRules(s, auths, guard), st)
         == if IntOf(st, AUTH) == Some(0) && SignedInButRefused(spec, auths, q) then Stopped(NotAllowedHere) else Passed(st)
  {
    if FirstSso(auths).Some? && FirstSso(auths).value.Demands() {
      var failed, refused := Yes(IntIs(AUTH, 0)), Yes(IntIs(Var(AzVar, Tag(s)), 0));
      var session := SessionTerms(Tag(s));
      CondConcat(w, acls, q, st, guard + [failed] + session, [refused]);
      CondConcat(w, acls, q, st, guard + [failed], session);
      GuardDrops(w, acls, q, st, guard, [failed]);
      CondOne(w, acls, q, st, failed);
      CondOne(w, acls, q, st, refused);
      RunOne(w, acls, q, Rule(Stop(NotAllowedHere), guard + [failed] + session + [refused]), st);
    }
  }

  /** The headers a request that is let through carries on. */
  function HeadersOn(spec: ProxySpec, w: World, s: Service, auths: seq<Authenticator>, d: Door, q: Request, st: State): State {
    var st1 := if FirstSso(auths).Some? then SetHeader(st, "X-Foxguard-User", TextOf(st, Var(SubVar, Tag(s)))) else st;
    var st2 := if d == InternalDoor then SetHeader(st1, "X-Foxguard-Peer", TextOf(st1, Var(PeerVar, ""))) else st1;
    if d == InternalDoor && spec.sendGroupHeader then SetHeader(st2, "X-Foxguard-Groups", PeerEntryOf(w, GROUPS_MAP_FILE, q.src)) else st2
  }

  lemma HeaderOne(w: World, acls: seq<Acl>, q: Request, guard: seq<Term>, t: Term, a: Action, st: State)
    requires Open(acls, q, guard) && !a.Stop?
    requires !TermHolds(w, acls, q, st, t) ==> Effect(w, q, st, a) == st
    ensures Run(w, acls, q, [Rule(a, guard + [t])], st) == Passed(Effect(w, q, st, a))
  {
    GuardDrops(w, acls, q, st, guard, [t]);
    CondOne(w, acls, q, st, t);
    RunOne(w, acls, q, Rule(a, guard + [t]), st);
  }

  /** The headers only the tunnel side sets. */
  lemma TunnelHeadersRun(spec: ProxySpec, w: World, acls: seq<Acl>, q: Request, guard: seq<Term>, st: State)
    requires Open(acls, q, guard)
    ensures var peer := Var(PeerVar, "");
            var named := Rule(SetHeaderFromVar("X-Foxguard-Peer", peer), guard + [Yes(Found(peer))]);
            var groups := Rule(SetHeaderFromMap("X-Foxguard-Groups", GROUPS_MAP_FILE), guard + [Yes(SrcMapped(GROUPS_MAP_FILE))]);
            var st1 := SetHeader(st, "X-Foxguard-Peer", TextOf(st, peer));
            Run(w, acls, q, [named] + (if spec.sendGroupHeader then [groups] else []), st)
            == Passed(if spec.sendGroupHeader then SetHeader(st1, "X-Foxguard-Groups", PeerEntryOf(w, GROUPS_MAP_FILE, q.src)) else st1)
  {
    var peer := Var(PeerVar, "");
    var named := Rule(SetHeaderFromVar("X-Foxguard-Peer", peer), guard + [Yes(Found(peer))]);
    var groups := Rule(SetHeaderFromMap("X-Foxguard-Groups", GROUPS_MAP_FILE), guard + [Yes(SrcMapped(GROUPS_MAP_FILE))]);
    RunConcat(w, acls, q, [named], if spec.sendGroupHeader then [groups] else [], st);
    HeaderOne(w, acls, q, guard, Yes(Found(peer)), named.action, st);
    HeaderOne(w, acls, q, guard, Yes(SrcMapped(GROUPS_MAP_FILE)), groups.action, Effect(w, q, st, named.action));
  }

  lemma HeaderRulesRun(spec: ProxySpec, w: World, acls: seq<Acl>, q: Request, s: Service, auths: seq<Authenticator>, d: Door, guard: seq<Term>, st: State)
    requires Open(acls, q, guard)
    ensures Run(w, acls, q, HeaderRules(spec, s, auths, d, guard), st) == Passed(HeadersOn(spec, w, s, auths, d, q, st))
  {
    var sub := Var(SubVar, Tag(s));
    var user := Rule(SetHeaderFromVar("X-Foxguard-User", sub), guard + [Yes(Found(sub))]);
    var first := if FirstSso(auths).Some? then [user] else [];
    var tail := HeaderRules(spec, s, auths, d, guard)[|first|..];
    assert HeaderRules(spec, s, auths, d, guard) == first + tail;
    RunConcat(w, acls, q, first, tail, st);
    HeaderOne(w, acls, q, guard, Yes(Found(sub)), user.action, st);
    var st1 := if FirstSso(auths).Some? then Effect(w, q, st, user.action) else st;
    if d == InternalDoor {
      TunnelHeadersRun(spec, w, acls, q, guard, st1);
    }
  }

  // ----- one door -----

  /** The policy, with filters enforced and sign-on rows asked as they are emitted. */
  ghost function JudgeAsEmitted(spec: ProxySpec, w: World, s: Service, d: Door, q: Request): Option<Reason> {
    if EntryRefusal(spec, w, s, d, q).Some? then EntryRefusal(spec, w, s, d, q)
    else if HasKind(s.AuthFor(d), Public) || AdmittedAsEmitted(spec, s, s.AuthFor(d), q) then None
    else Some(AuthRefusal(spec, s, s.AuthFor(d), q))
  }

  ghost predicate Verdict(refusal: Option<Reason>, o: Outcome) {
    match refusal
    case Some(r) => o == Stopped(r)
    case None => o.Passed?
  }

  function FlagRules(s: Service, auths: seq<Authenticator>, guard: seq<Term>): seq<Rule> {
    [Rule(SetVar(AUTH, IntConst(0)), guard)] + AdmitRules(Conditions(s, auths), guard)
  }

  /** The common flag ends at 1 exactly when somebody proves the caller. */
  lemma FlagRun(spec: ProxySpec, w: World, acls: seq<Acl>, q: Request, s: Service, auths: seq<Authenticator>, guard: seq<Term>, st: State)
    requires LookupsFind(spec, w, s, q) && Open(acls, q, guard)
    requires s.kind.Http? && Ready(spec, w, acls, q, s, auths, st)
    ensures var o := Run(w, acls, q, FlagRules(s, auths, guard), st);
            && o.Passed? && OnlyFlag(st, o.state) && Ready(spec, w, acls, q, s, auths, o.state)
            && IntOf(o.state, AUTH) == Some(if AdmittedAsEmitted(spec, s, auths, q) then 1 else 0)
  {
    var zero := Rule(SetVar(AUTH, IntConst(0)), guard);
    var admit := AdmitRules(Conditions(s, auths), guard);
    RunConcat(w, acls, q, [zero], admit, st);
    SetOne(w, acls, q, guard, AUTH, IntConst(0), st);
    var st1 := Assign(st, AUTH, Some(IntValue(0)));
    ReadyKept(spec, w, acls, q, s, auths, st, st1);
    AdmitRulesRun(spec, w, acls, q, s, auths, auths, guard, st1);
    ReadyKept(spec, w, acls, q, s, auths, st1, Run(w, acls, q, admit, st1).state);
  }

  function RefusalRules(s: Service, auths: seq<Authenticator>, guard: seq<Term>): seq<Rule> {
    NotAllowedRules(s, auths, guard) + [Rule(Stop(Challenge(s, auths)), guard + [Yes(IntIs(AUTH, 0))])]
  }

  lemma RefusalRun(spec: ProxySpec, w: World, acls: seq<Acl>, q: Request, s: Service, auths: seq<Authenticator>, guard: seq<Term>, st: State)
    requires Open(acls, q, guard) && Ready(spec, w, acls, q, s, auths, st) && s.kind.Http?
    ensures Run(w, acls, q, RefusalRules(s, auths, guard), st)
         == if IntOf(st, AUTH) == Some(0) then Stopped(AuthRefusal(spec, s, auths, q)) else Passed(st)
  {
    var challenge := Rule(Stop(Challenge(s, auths)), guard + [Yes(IntIs(AUTH, 0))]);
    RunConcat(w, acls, q, NotAllowedRules(s, auths, guard), [challenge], st);
    NotAllowedRun(spec, w, acls, q, s, auths, guard, st);
    RefusesWhen(w, acls, q, st, guard, Challenge(s, auths), Yes(IntIs(AUTH, 0)));
  }

  lemma HttpAuthRun(spec: ProxySpec, w: World, acls: seq<Acl>, q: Request, s: Service, auths: seq<Authenticator>, d: Door, guard: seq<Term>, st: State)
    returns (st': State)
    requires LookupsFind(spec, w, s, q) && Open(acls, q, guard)
    requires s.kind.Http? && Ready(spec, w, acls, q, s, auths, st)
    ensures OnlyFlag(st, st') && Ready(spec, w, acls, q, s, auths, st')
    ensures Run(w, acls, q, HttpAuthRules(spec, s, auths, d, guard), st)
         == if AdmittedAsEmitted(spec, s, auths, q) then Passed(HeadersOn(spec, w, s, auths, d, q, st'))
            else Stopped(AuthRefusal(spec, s, auths, q))
  {
    var flag, refusal, headers := FlagRules(s, auths, guard), RefusalRules(s, auths, guard), HeaderRules(spec, s, auths, d, guard);
    assert HttpAuthRules(spec, s, auths, d, guard) == flag + (refusal + headers);
    RunConcat(w, acls, q, flag, refusal + headers, st);
    FlagRun(spec, w, acls, q, s, auths, guard, st);
    st' := Run(w, acls, q, flag, st).state;
    RunConcat(w, acls, q, refusal, headers, st');
    RefusalRun(spec, w, acls, q, s, auths, guard, st');
    HeaderRulesRun(spec, w, acls, q, s, auths, d, guard, st');
  }

  lemma {:induction false} SomeCondition(spec: ProxySpec, s: Service, auths: seq<Authenticator>)
    requires auths != [] && !HasKind(auths, Public)
    requires forall a :: a in auths ==> AuthOk(spec, s, a)
    ensures Conditions(s, auths) != []
  {
    var a := auths[0];
    assert a in auths && AuthOk(spec, s, a) && a.kind != Public;
    assert AdmitTerms(s, a).Some?;
  }

  /** The headers of a request that passes: none added on a public door, otherwise those of `HeadersOn`. */
  ghost predicate Introduced(spec: ProxySpec, w: World, s: Service, d: Door, q: Request, st: State, o: Outcome) {
    var auths := s.AuthFor(d);
    o.Passed? ==>
      if HasKind(auths, Public) then o.state.headers == st.headers
      else exists st': State :: && st'.headers == st.headers && PeerLabel(st') == PeerLabel(st)
                                && (FirstSso(auths).Some? ==> TextOf(st', Var(SubVar, Tag(s))) == if q.cookie.Some? then q.cookie.value.sub else None)
                                && o.state == HeadersOn(spec, w, s, auths, d, q, st')
  }

  lemma AuthRun(spec: ProxySpec, w: World, acls: seq<Acl>, q: Request, s: Service, d: Door, guard: seq<Term>, st: State)
    requires LookupsFind(spec, w, s, q) && Open(acls, q, guard)
    requires s.kind.Http? && s.AuthFor(d) != [] && (forall a :: a in s.AuthFor(d) ==> AuthOk(spec, s, a)) && Untouched(st)
    ensures var o := Run(w, acls, q, AuthRules(spec, s, d, guard), st);
            && Verdict(if HasKind(s.AuthFor(d), Public) || AdmittedAsEmitted(spec, s, s.AuthFor(d), q) then None
                       else Some(AuthRefusal(spec, s, s.AuthFor(d), q)), o)
            && Introduced(spec, w, s, d, q, st, o)
  {
    var auths := s.AuthFor(d);
    if !HasKind(auths, Public) {
      SomeCondition(spec, s, auths);
      GuardedAuthRun(spec, w, acls, q, s, d, guard, st);
    }
  }

  /** The variables and the token lookup, before anybody is asked. */
  lemma PrepareRun(spec: ProxySpec, w: World, acls: seq<Acl>, q: Request, s: Service, auths: seq<Authenticator>, guard: seq<Term>, st: State)
    returns (ready: State)
    requires LookupsFind(spec, w, s, q) && Open(acls, q, guard)
    requires s.kind.Http? && Untouched(st) && (HasKind(auths, Bearer) ==> s.tokenHashes != [])
    ensures Run(w, acls, q, SetupRules(s, auths, guard) + TokenRules(s, auths, guard), st) == Passed(ready)
    ensures Ready(spec, w, acls, q, s, auths, ready) && ready.headers == st.headers && PeerLabel(ready) == PeerLabel(st)
  {
    var setup, tokens := SetupRules(s, auths, guard), TokenRules(s, auths, guard);
    RunConcat(w, acls, q, setup, tokens, st);
    SetupRulesRun(spec, w, acls, q, s, auths, guard, st);
    var st1 := Run(w, acls, q, setup, st).state;
    TokenRulesRun(spec, w, acls, q, s, auths, guard, st1);
    ready := Run(w, acls, q, tokens, st1).state;
  }

  lemma FlagKeepsLabel(was: State, st: State)
    requires OnlyFlag(was, st)
    ensures st.headers == was.headers && PeerLabel(st) == PeerLabel(was)
  {
  }

  lemma GuardedAuthRun(spec: ProxySpec, w: World, acls: seq<Acl>, q: Request, s: Service, d: Door, guard: seq<Term>, st: State)
    requires LookupsFind(spec, w, s, q) && Open(acls, q, guard)
    requires s.kind.Http? && Untouched(st)
    requires var auths := s.AuthFor(d);
             auths != [] && !HasKind(auths, Public) && Conditions(s, auths) != [] && (HasKind(auths, Bearer) ==> s.tokenHashes != [])
    ensures var o := Run(w, acls, q, AuthRules(spec, s, d, guard), st);
            && Verdict(if AdmittedAsEmitted(spec, s, s.AuthFor(d), q) then None else Some(AuthRefusal(spec, s, s.AuthFor(d), q)), o)
            && Introduced(spec, w, s, d, q, st, o)
  {
    var auths := s.AuthFor(d);
    var prepare, rest := SetupRules(s, auths, guard) + TokenRules(s, auths, guard), HttpAuthRules(spec, s, auths, d, guard);
    AuthRulesAre(spec, s, d, guard);
    RunConcat(w, acls, q, prepare, rest, st);
    var ready := PrepareRun(spec, w, acls, q, s, auths, guard, st);
    var flagged := HttpAuthRun(spec, w, acls, q, s, auths, d, guard, ready);
    FlagKeepsLabel(ready, flagged);
    IntroducedBy(spec, w, s, d, q, st, flagged);
  }

  lemma Associates(a: seq<Rule>, b: seq<Rule>, c: seq<Rule>)
    ensures a + (b + c) == (a + b) + c
  {
  }

  lemma AuthRulesAre(spec: ProxySpec, s: Service, d: Door, guard: seq<Term>)
    requires var auths := s.AuthFor(d);
             s.kind.Http? && auths != [] && !HasKind(auths, Public) && Conditions(s, auths) != []
    ensures var auths := s.AuthFor(d);
            AuthRules(spec, s, d, guard)
            == (SetupRules(s, auths, guard) + TokenRules(s, auths, guard)) + HttpAuthRules(spec, s, auths, d, guard)
  {
    var auths := s.AuthFor(d);
    Associates(SetupRules(s, auths, guard), TokenRules(s, auths, guard), HttpAuthRules(spec, s, auths, d, guard));
  }

  lemma IntroducedBy(spec: ProxySpec, w: World, s: Service, d: Door, q: Request, st: State, st': State)
    requires !HasKind(s.AuthFor(d), Public) && st'.headers == st.headers && PeerLabel(st') == PeerLabel(st)
    requires FirstSso(s.AuthFor(d)).Some? ==> TextOf(st', Var(SubVar, Tag(s))) == if q.cookie.Some? then q.cookie.value.sub else None
    ensures Introduced(spec, w, s, d, q, st, Passed(HeadersOn(spec, w, s, s.AuthFor(d), d, q, st')))
    ensures forall r :: Introduced(spec, w, s, d, q, st, Stopped(r))
  {
  }

  lemma EntryThenAuth(spec: ProxySpec, w: World, acls: seq<Acl>, q: Request, s: Service, d: Door, guard: seq<Term>, st: State)
    requires LookupsFind(spec, w, s, q) && Open(acls, q, guard)
    requires s.kind.Http? && s.AuthFor(d) != [] && (forall a :: a in s.AuthFor(d) ==> AuthOk(spec, s, a)) && Untouched(st)
    requires EndsAs(s, st, EntryRefusal(spec, w, s, d, q), Run(w, acls, q, EntryRules(s, d, guard), st))
    ensures var o := Run(w, acls, q, ServiceRules(spec, s, d, guard), st);
            Verdict(JudgeAsEmitted(spec, w, s, d, q), o) && Introduced(spec, w, s, d, q, st, o)
  {
    var entry, auth := EntryRules(s, d, guard), AuthRules(spec, s, d, guard);
    assert ServiceRules(spec, s, d, guard) == entry + auth;
    RunConcat(w, acls, q, entry, auth, st);
    if EntryRefusal(spec, w, s, d, q).None? {
      AuthRun(spec, w, acls, q, s, d, guard, Run(w, acls, q, entry, st).state);
    }
  }

  /** One HTTP door: the emitted rules stop a request exactly as the policy says, reason included. */
  lemma ServiceRulesJudge(spec: ProxySpec, w: World, acls: seq<Acl>, q: Request, s: Service, d: Door, guard: seq<Term>, st: State)
    requires UniqueNames(spec) && Resolves(spec, w.files) && HasPeerSet(spec) && Open(acls, q, guard)
    requires s in spec.services && s.kind.Http? && PolicyOk(spec, s) && s.exposure.Has(d)
    requires Untouched(st) && CounterFree(s, st)
    ensures var o := Run(w, acls, q, ServiceRules(spec, s, d, guard), st);
            Verdict(JudgeAsEmitted(spec, w, s, d, q), o) && Introduced(spec, w, s, d, q, st, o)
  {
    EntryRun(spec, w, acls, q, s, d, guard, st);
    LookupsResolved(spec, w, s, q);
    assert forall a :: a in s.AuthFor(d) ==> AuthOk(spec, s, a);
    EntryThenAuth(spec, w, acls, q, s, d, guard, st);
  }
}
