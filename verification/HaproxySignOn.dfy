/**
 The variables a sign-on rule set computes, one assignment after another, and what the
 conditions built on them mean: a verified, unexpired, unrevoked session, in a required
 group and an administrator when asked for.
 */
module HaproxySignOn {
  import opened Wrappers
  import opened GroupClaim
  import opened HaproxyModel
  import opened HaproxyProgram
  import opened HaproxyGenerator
  import opened HaproxyPolicy
  import opened HaproxyFiles
  import opened HaproxyFilters

  /** No variable but the peer label of the frontend has been set. */
  predicate Untouched(st: State) {
    forall v :: v in st.vars ==> v.kind.PeerVar?
  }

  /** The rule at `k` assigns, and the run goes on behind it. */
  lemma SetStep(w: World, acls: seq<Acl>, q: Request, guard: seq<Term>, rules: seq<Rule>, k: nat, st: State)
    requires k < |rules| && rules[k].action.SetVar? && rules[k].cond == guard && Open(acls, q, guard)
    ensures Run(w, acls, q, rules[k..], st)
         == Run(w, acls, q, rules[k + 1..], Assign(st, rules[k].action.v, Evaluate(w, q, st, rules[k].action.expr)))
  {
    GuardDrops(w, acls, q, st, guard, []);
    assert rules[k..][0] == rules[k] && rules[k..][1..] == rules[k + 1..];
  }

  // ----- the session variables -----

  function Of(c: Option<Jwt>, claim: Jwt -> Option<Value>): Option<Value> {
    if c.Some? then claim(c.value) else None
  }

  /** Everything the cookie puts into variables, given directly. */
  function SessionValue(w: World, q: Request, kind: VarKind): Option<Value> {
    match kind
    case AlgVar => Some(TextValue("HS256"))
    case JwtVar => if q.cookie.Some? then Some(JwtValue(q.cookie.value)) else None
    case OkVar => Of(q.cookie, (c: Jwt) => Some(IntValue(c.verdict)))
    case ExpVar => Of(q.cookie, (c: Jwt) => IntValueOf(c.exp))
    case NowVar => Some(IntValue(q.now))
    case LeftVar => Of(q.cookie, (c: Jwt) => if c.exp.Some? then Some(IntValue(c.exp.value - q.now)) else None)
    case SubVar => Of(q.cookie, (c: Jwt) => TextValueOf(c.sub))
    case JtiVar => Of(q.cookie, (c: Jwt) => TextValueOf(c.jti))
    case RevVar => Of(q.cookie, (c: Jwt) => if c.jti.Some? then TextValueOf(Entry(w, SSO_REVOKED_FILE, c.jti.value)) else None)
    case _ => None
  }

  /** Variable `v` holds what the cookie says, or nothing. */
  predicate Holding(w: World, q: Request, st: State, tag: string, kind: VarKind) {
    match SessionValue(w, q, kind)
    case Some(x) => Var(kind, tag) in st.vars && st.vars[Var(kind, tag)] == x
    case None => Var(kind, tag) !in st.vars
  }

  /** The place of a variable in the setup; the ones of the authorisation come behind it. */
  function Order(kind: VarKind): nat {
    match kind
    case AlgVar => 0
    case JwtVar => 1
    case OkVar => 2
    case ExpVar => 3
    case NowVar => 4
    case LeftVar => 5
    case SubVar => 6
    case JtiVar => 7
    case RevVar => 8
    case _ => SETUP_LENGTH
  }

  const SETUP_LENGTH: nat := 9

  function SetupExpr(tag: string, kind: VarKind): Expr
    requires Order(kind) < SETUP_LENGTH
  {
    var jwt := Var(JwtVar, tag);
    match kind
    case AlgVar => Algorithm
    case JwtVar => Cookie
    case OkVar => Verified(jwt, Var(AlgVar, tag))
    case ExpVar => ClaimExp(jwt)
    case NowVar => Date
    case LeftVar => Minus(Var(ExpVar, tag), Var(NowVar, tag))
    case SubVar => ClaimSub(jwt)
    case JtiVar => ClaimJti(jwt)
    case RevVar => LookUp(Var(JtiVar, tag), SSO_REVOKED_FILE)
  }

  lemma SetupRuleAt(tag: string, guard: seq<Term>, kind: VarKind)
    requires Order(kind) < SETUP_LENGTH
    ensures |SsoSetup(tag, guard)| == SETUP_LENGTH
    ensures SsoSetup(tag, guard)[Order(kind)] == Rule(SetVar(Var(kind, tag), SetupExpr(tag, kind)), guard)
  {
  }

  lemma KindAt(n: nat) returns (kind: VarKind)
    requires n < SETUP_LENGTH
    ensures Order(kind) == n
  {
    kind := if n == 0 then AlgVar else if n == 1 then JwtVar else if n == 2 then OkVar else if n == 3 then ExpVar
            else if n == 4 then NowVar else if n == 5 then LeftVar else if n == 6 then SubVar else if n == 7 then JtiVar
            else RevVar;
  }

  ghost predicate Held(w: World, q: Request, st: State, tag: string, n: nat) {
    forall k: VarKind :: Order(k) < n && Order(k) < SETUP_LENGTH ==> Holding(w, q, st, tag, k)
  }

  /** Nothing but the setup variables of `tag` differs, and the ones from place `n` on are not set. */
  ghost predicate SameButSetup(was: State, st: State, tag: string, n: nat) {
    && (forall k: VarKind :: n <= Order(k) < SETUP_LENGTH ==> Var(k, tag) !in st.vars)
    && (forall v: Var :: v.tag != tag || Order(v.kind) == SETUP_LENGTH ==> (v in st.vars <==> v in was.vars))
    && (forall v: Var :: (v.tag != tag || Order(v.kind) == SETUP_LENGTH) && v in was.vars ==> st.vars[v] == was.vars[v])
    && st.headers == was.headers && st.tracked == was.tracked
  }

  lemma SetupValue(w: World, q: Request, st: State, tag: string, kind: VarKind)
    requires Order(kind) < SETUP_LENGTH && Held(w, q, st, tag, Order(kind))
    ensures Evaluate(w, q, st, SetupExpr(tag, kind)) == SessionValue(w, q, kind)
  {
    if Order(kind) >= 2 {
      assert Holding(w, q, st, tag, AlgVar);
      assert Holding(w, q, st, tag, JwtVar);
    }
    match kind
    case LeftVar =>
      assert Holding(w, q, st, tag, ExpVar);
      assert Holding(w, q, st, tag, NowVar);
    case RevVar => assert Holding(w, q, st, tag, JtiVar);
    case _ =>
  }

  lemma SetupStep(w: World, q: Request, was: State, st: State, tag: string, kind: VarKind)
    requires Order(kind) < SETUP_LENGTH && Held(w, q, st, tag, Order(kind)) && SameButSetup(was, st, tag, Order(kind))
    ensures var st' := Assign(st, Var(kind, tag), SessionValue(w, q, kind));
            Held(w, q, st', tag, Order(kind) + 1) && SameButSetup(was, st', tag, Order(kind) + 1)
  {
    var st' := Assign(st, Var(kind, tag), SessionValue(w, q, kind));
    forall k: VarKind | Order(k) < Order(kind) + 1
      ensures Holding(w, q, st', tag, k)
    {
      if Order(k) < Order(kind) {
        assert Holding(w, q, st, tag, k);
      } else {
        assert k == kind;
      }
    }
  }

  ghost predicate SetupDone(w: World, q: Request, was: State, st: State, tag: string) {
    Held(w, q, st, tag, SETUP_LENGTH) && SameButSetup(was, st, tag, SETUP_LENGTH)
  }

  lemma {:induction false} SetupFrom(w: World, acls: seq<Acl>, q: Request, guard: seq<Term>, was: State, st: State, tag: string, n: nat)
    requires n <= SETUP_LENGTH == |SsoSetup(tag, guard)|
    requires Held(w, q, st, tag, n) && SameButSetup(was, st, tag, n) && Open(acls, q, guard)
    ensures var o := Run(w, acls, q, SsoSetup(tag, guard)[n..], st);
            o.Passed? && SetupDone(w, q, was, o.state, tag)
    decreases SETUP_LENGTH - n
  {
    var rules := SsoSetup(tag, guard);
    if n < SETUP_LENGTH {
      var kind := KindAt(n);
      SetupRuleAt(tag, guard, kind);
      SetStep(w, acls, q, guard, rules, n, st);
      SetupValue(w, q, st, tag, kind);
      SetupStep(w, q, was, st, tag, kind);
      SetupFrom(w, acls, q, guard, was, Assign(st, Var(kind, tag), SessionValue(w, q, kind)), tag, n + 1);
    } else {
      assert rules[n..] == [];
    }
  }

  /** Running the setup from an untouched state leaves what the cookie says in the variables. */
  lemma SetupRun(w: World, acls: seq<Acl>, q: Request, guard: seq<Term>, tag: string, st: State)
    requires Untouched(st) && Open(acls, q, guard)
    ensures var o := Run(w, acls, q, SsoSetup(tag, guard), st);
            o.Passed? && SetupDone(w, q, st, o.state, tag)
  {
    SetupRuleAt(tag, guard, AlgVar);
    assert SsoSetup(tag, guard)[0..] == SsoSetup(tag, guard);
    SetupFrom(w, acls, q, guard, st, st, tag, 0);
  }

  // ----- what the conditions mean -----

  lemma CondThree(w: World, acls: seq<Acl>, q: Request, st: State, a: Term, b: Term, c: Term)
    ensures CondHolds(w, acls, q, st, [a, b, c])
       <==> TermHolds(w, acls, q, st, a) && TermHolds(w, acls, q, st, b) && TermHolds(w, acls, q, st, c)
  {
    var cond := [a, b, c];
    assert a in cond && b in cond && c in cond;
  }

  /** Signature, expiry and revocation are all read from the variables set up before. */
  lemma SessionTermsMean(spec: ProxySpec, w: World, acls: seq<Acl>, q: Request, was: State, st: State, tag: string)
    requires SetupDone(w, q, was, st, tag)
    requires SSO_REVOKED_FILE in w.files && w.files[SSO_REVOKED_FILE] == KeyFile(spec.ssoRevoked)
    ensures CondHolds(w, acls, q, st, SessionTerms(tag)) <==> Session(spec, q)
  {
    CondThree(w, acls, q, st, Yes(IntIs(Var(OkVar, tag), 1)), Yes(IntAbove(Var(LeftVar, tag), 0)), No(Found(Var(RevVar, tag))));
    assert Holding(w, q, st, tag, OkVar);
    assert Holding(w, q, st, tag, LeftVar);
    assert Holding(w, q, st, tag, RevVar);
    if q.cookie.Some? && q.cookie.value.jti.Some? {
      KeyFileMeans(w, SSO_REVOKED_FILE, spec.ssoRevoked, q.cookie.value.jti.value);
    }
  }

  // ----- authorisation, as one integer -----

  predicate CookieIn(q: Request, st: State, tag: string) {
    match q.cookie
    case Some(c) => Var(JwtVar, tag) in st.vars && st.vars[Var(JwtVar, tag)] == JwtValue(c)
    case None => Var(JwtVar, tag) !in st.vars
  }

  /** Only these variables of `tag` may differ. */
  ghost predicate OnlyVars(tag: string, kinds: set<VarKind>, was: State, st: State) {
    && (forall v: Var :: !(v.tag == tag && v.kind in kinds) ==> (v in st.vars <==> v in was.vars))
    && (forall v: Var :: !(v.tag == tag && v.kind in kinds) && v in was.vars ==> st.vars[v] == was.vars[v])
    && st.headers == was.headers && st.tracked == was.tracked
  }

  ghost predicate MeetsHere(a: Authenticator, q: Request) {
    q.cookie.Some? && Meets(a, q.cookie.value)
  }

  lemma SetOne(w: World, acls: seq<Acl>, q: Request, guard: seq<Term>, v: Var, e: Expr, st: State)
    requires Open(acls, q, guard)
    ensures Run(w, acls, q, [Rule(SetVar(v, e), guard)], st) == Passed(Assign(st, v, Evaluate(w, q, st, e)))
  {
    GuardDrops(w, acls, q, st, guard, []);
    RunOne(w, acls, q, Rule(SetVar(v, e), guard), st);
  }

  function GroupRules(tag: string, a: Authenticator, guard: seq<Term>): seq<Rule> {
    if a.groups != [] then [Rule(SetVar(Var(GrpVar, tag), ClaimGroups(Var(JwtVar, tag))), guard)] else []
  }

  function AdminRules(tag: string, a: Authenticator, guard: seq<Term>): seq<Rule> {
    if a.requireAdmin then [Rule(SetVar(Var(AdmVar, tag), ClaimAdmin(Var(JwtVar, tag))), guard)] else []
  }

  function VerdictRules(tag: string, a: Authenticator, guard: seq<Term>): seq<Rule> {
    [Rule(SetVar(Var(AzVar, tag), IntConst(0)), guard)]
    + [Rule(SetVar(Var(AzVar, tag), IntConst(1)), guard + AuthzTerms(tag, a))]
  }

  /** The claims an authenticator asks about are in their variables. */
  predicate ClaimsRead(a: Authenticator, q: Request, st: State, tag: string) {
    && (a.groups != [] ==>
          TextOf(st, Var(GrpVar, tag)) == if q.cookie.Some? then q.cookie.value.groups else None)
    && (a.requireAdmin ==>
          IntOf(st, Var(AdmVar, tag)) == if q.cookie.Some? then q.cookie.value.admin else None)
  }

  lemma ClaimsRun(w: World, acls: seq<Acl>, q: Request, guard: seq<Term>, tag: string, a: Authenticator, st: State)
    requires Open(acls, q, guard) && CookieIn(q, st, tag)
    requires Var(GrpVar, tag) !in st.vars && Var(AdmVar, tag) !in st.vars
    ensures var o := Run(w, acls, q, GroupRules(tag, a, guard) + AdminRules(tag, a, guard), st);
            o.Passed? && ClaimsRead(a, q, o.state, tag) && OnlyVars(tag, {GrpVar, AdmVar}, st, o.state)
  {
    var first, second := GroupRules(tag, a, guard), AdminRules(tag, a, guard);
    RunConcat(w, acls, q, first, second, st);
    SetOne(w, acls, q, guard, Var(GrpVar, tag), ClaimGroups(Var(JwtVar, tag)), st);
    var st1 := Run(w, acls, q, first, st).state;
    SetOne(w, acls, q, guard, Var(AdmVar, tag), ClaimAdmin(Var(JwtVar, tag)), st1);
  }

  lemma PatternsMean(groups: seq<string>, text: string)
    ensures (exists p :: p in Patterns(groups) && Occurs(p, text)) <==> exists g :: g in groups && Occurs(Pattern(g), text)
  {
    var ps := Patterns(groups);
    if p :| p in ps && Occurs(p, text) {
      var i :| 0 <= i < |ps| && ps[i] == p;
      assert groups[i] in groups;
    }
    if g :| g in groups && Occurs(Pattern(g), text) {
      var i :| 0 <= i < |groups| && groups[i] == g;
      assert ps[i] == Pattern(g);
    }
  }

  lemma AuthzTermsMean(w: World, acls: seq<Acl>, q: Request, tag: string, a: Authenticator, st: State)
    requires ClaimsRead(a, q, st, tag) && a.Demands()
    ensures CondHolds(w, acls, q, st, AuthzTerms(tag, a)) <==> MeetsHere(a, q)
  {
    var g := Yes(Contains_(Var(GrpVar, tag), Patterns(a.groups)));
    var m := Yes(IntIs(Var(AdmVar, tag), 1));
    CondConcat(w, acls, q, st, if a.groups != [] then [g] else [], if a.requireAdmin then [m] else []);
    CondOne(w, acls, q, st, g);
    CondOne(w, acls, q, st, m);
    if a.groups != [] && q.cookie.Some? && q.cookie.value.groups.Some? {
      PatternsMean(a.groups, q.cookie.value.groups.value);
    }
  }

  /** The verdict is 1 for a person the first sign-on row wants, and 0 for anybody else. */
  lemma VerdictRun(w: World, acls: seq<Acl>, q: Request, guard: seq<Term>, tag: string, a: Authenticator, st: State)
    requires Open(acls, q, guard) && ClaimsRead(a, q, st, tag) && a.Demands()
    ensures var o := Run(w, acls, q, VerdictRules(tag, a, guard), st);
            && o.Passed? && OnlyVars(tag, {AzVar}, st, o.state)
            && IntOf(o.state, Var(AzVar, tag)) == Some(if MeetsHere(a, q) then 1 else 0)
  {
    var zero := Rule(SetVar(Var(AzVar, tag), IntConst(0)), guard);
    var one := Rule(SetVar(Var(AzVar, tag), IntConst(1)), guard + AuthzTerms(tag, a));
    RunConcat(w, acls, q, [zero], [one], st);
    SetOne(w, acls, q, guard, Var(AzVar, tag), IntConst(0), st);
    var st1 := Run(w, acls, q, [zero], st).state;
    assert ClaimsRead(a, q, st1, tag);
    AuthzTermsMean(w, acls, q, tag, a, st1);
    GuardDrops(w, acls, q, st1, guard, AuthzTerms(tag, a));
    RunOne(w, acls, q, one, st1);
  }

  lemma AuthzRun(w: World, acls: seq<Acl>, q: Request, guard: seq<Term>, tag: string, a: Authenticator, st: State)
    requires Open(acls, q, guard) && CookieIn(q, st, tag) && a.Demands()
    requires Var(GrpVar, tag) !in st.vars && Var(AdmVar, tag) !in st.vars
    ensures var o := Run(w, acls, q, SsoAuthz(tag, a, guard), st);
            && o.Passed? && OnlyVars(tag, {GrpVar, AdmVar, AzVar}, st, o.state)
            && IntOf(o.state, Var(AzVar, tag)) == Some(if MeetsHere(a, q) then 1 else 0)
  {
    var claims := GroupRules(tag, a, guard) + AdminRules(tag, a, guard);
    assert SsoAuthz(tag, a, guard) == claims + VerdictRules(tag, a, guard);
    RunConcat(w, acls, q, claims, VerdictRules(tag, a, guard), st);
    ClaimsRun(w, acls, q, guard, tag, a, st);
    VerdictRun(w, acls, q, guard, tag, a, Run(w, acls, q, claims, st).state);
  }
}
