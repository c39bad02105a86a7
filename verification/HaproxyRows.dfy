/**
 Several sign-on rows on one door: exactly when the shared variable changes nothing, and a
 service for which it does.
 */
module HaproxyRows {
  import opened Wrappers
  import opened Net
  import opened Grammar
  import opened GroupClaim
  import opened HaproxyModel
  import opened HaproxyProgram
  import opened HaproxyGenerator
  import opened HaproxyPolicy
  import opened HaproxyFiles
  import opened HaproxyValidation
  import opened HaproxyFilters
  import opened HaproxyCorrectness
  import opened HaproxyRates

  predicate IsRow(auths: seq<Authenticator>, a: Authenticator) {
    a in auths && a.kind.Sso?
  }

  /** The row whose variables are set up; `a` when there is none. */
  function FirstRow(auths: seq<Authenticator>, a: Authenticator): Authenticator {
    if FirstSso(auths).Some? then FirstSso(auths).value else a
  }

  /** Some row would take a person with this cookie. */
  ghost predicate RowsTake(auths: seq<Authenticator>, c: Jwt) {
    exists a :: IsRow(auths, a) && Meets(a, c)
  }

  /** Some row takes the person once every demanding row asks what the first row asks. */
  ghost predicate RowsTakeAsEmitted(auths: seq<Authenticator>, c: Jwt) {
    exists a :: IsRow(auths, a) && (a.Demands() ==> FirstRow(auths, a).Demands() && Meets(FirstRow(auths, a), c))
  }

  /** Whatever satisfies `a` satisfies `b`: it asks for an administrator too, and for fewer groups. */
  predicate AsksAtLeast(a: Authenticator, b: Authenticator) {
    && (b.requireAdmin ==> a.requireAdmin)
    && (b.groups != [] ==> a.groups != [] && forall g :: g in a.groups ==> g in b.groups)
  }

  /** Some row asks nothing, or no row takes anybody the first one would not. */
  ghost predicate RowsAgree(auths: seq<Authenticator>) {
    || (exists a :: IsRow(auths, a) && !a.Demands())
    || (forall a :: IsRow(auths, a) ==> AsksAtLeast(a, FirstRow(auths, a)))
  }

  ghost predicate SlugsOk(auths: seq<Authenticator>) {
    forall a, g :: IsRow(auths, a) && g in a.groups ==> CommaFree(g)
  }

  /** A person `a` takes and `b` does not. */
  function Witness(a: Authenticator, b: Authenticator): Jwt {
    if b.requireAdmin && !a.requireAdmin then
      Jwt(1, None, None, None, if a.groups == [] then None else Some(Pattern(a.groups[0])), None)
    else if a.groups == [] then Jwt(1, None, None, None, None, Some(1))
    else
      Jwt(1, None, None, None, Some(Pattern(Outside(a.groups, b.groups))), Some(1))
  }

  /** A group of `gs` that is not in `hs`, or the last one. */
  function Outside(gs: seq<string>, hs: seq<string>): (g: string)
    requires gs != []
    ensures g in gs
    ensures (exists x :: x in gs && x !in hs) ==> g !in hs
  {
    if |gs| == 1 || gs[0] !in hs then gs[0] else Outside(gs[1..], hs)
  }

  lemma OnlyItself(g: string, h: string)
    requires CommaFree(g) && CommaFree(h)
    ensures Occurs(Pattern(h), Pattern(g)) <==> h == g
  {
    assert GroupClaim.GroupClaim([g]) == Pattern(g);
    PatternMeansMembership(h, [g]);
  }

  /** Validation lets no comma into a required group. */
  lemma ValidatedSlugs(spec: ProxySpec, s: Service, auths: seq<Authenticator>)
    requires forall a :: a in auths ==> AuthOk(spec, s, a)
    ensures SlugsOk(auths)
  {
    forall a, g | IsRow(auths, a) && g in a.groups
      ensures CommaFree(g)
    {
      assert SlugText(g, 24);
    }
  }

  /** A person issued the claim of the groups in `rows` satisfies a row exactly when one of them is required. */
  lemma MeetsMeansMembership(a: Authenticator, c: Jwt, rows: seq<GroupRow>)
    requires forall g :: g in a.groups ==> CommaFree(g)
    requires forall r :: r in rows ==> CommaFree(r.slug)
    requires c.groups == Some(GroupClaim.GroupClaim(MemberSlugs(rows)))
    ensures Meets(a, c)
       <==> && (a.groups != [] ==> exists g :: g in a.groups && GroupRow(g, false) in rows)
            && (a.requireAdmin ==> c.admin == Some(1))
  {
    forall g | g in a.groups
      ensures Occurs(Pattern(g), c.groups.value) <==> GroupRow(g, false) in rows
    {
      IssuedClaimMeansMembership(g, rows);
    }
  }

  lemma WitnessTellsApart(a: Authenticator, b: Authenticator)
    requires !AsksAtLeast(a, b)
    requires forall g :: g in a.groups || g in b.groups ==> CommaFree(g)
    ensures Meets(a, Witness(a, b)) && !Meets(b, Witness(a, b))
  {
    var c := Witness(a, b);
    if a.groups != [] {
      var g := if b.requireAdmin && !a.requireAdmin then a.groups[0] else Outside(a.groups, b.groups);
      OnlyItself(g, g);
      assert g in a.groups && c.groups == Some(Pattern(g));
      forall h | h in b.groups
        ensures Occurs(Pattern(h), Pattern(g)) <==> h == g
      {
        OnlyItself(g, h);
      }
    }
  }

  lemma AsksAtLeastMeans(a: Authenticator, b: Authenticator, c: Jwt)
    requires AsksAtLeast(a, b) && Meets(a, c)
    ensures Meets(b, c)
  {
  }

  /** The rows mean what they say for every person exactly when `RowsAgree`. */
  lemma RowsAgreeExactly(auths: seq<Authenticator>)
    requires SlugsOk(auths)
    ensures RowsAgree(auths) <==> forall c :: RowsTake(auths, c) <==> RowsTakeAsEmitted(auths, c)
  {
    if RowsAgree(auths) {
      forall c
        ensures RowsTake(auths, c) <==> RowsTakeAsEmitted(auths, c)
      {
        AgreeingRows(auths, c);
      }
    } else {
      var a :| IsRow(auths, a) && !AsksAtLeast(a, FirstRow(auths, a));
      DisagreeingRows(auths, a);
      var c := Witness(a, FirstRow(auths, a));
      assert RowsTake(auths, c) && !RowsTakeAsEmitted(auths, c);
    }
  }

  lemma AgreeingRows(auths: seq<Authenticator>, c: Jwt)
    requires RowsAgree(auths)
    ensures RowsTake(auths, c) <==> RowsTakeAsEmitted(auths, c)
  {
    if a :| IsRow(auths, a) {
      FirstSsoFound(auths, a);
      var first := FirstSso(auths).value;
      assert IsRow(auths, first);
      if b :| IsRow(auths, b) && !b.Demands() {
        assert Meets(b, c);
      } else {
        assert first.Demands();
        if RowsTake(auths, c) {
          var r :| IsRow(auths, r) && Meets(r, c);
          AsksAtLeastMeans(r, first, c);
        }
      }
    }
  }

  lemma DisagreeingRows(auths: seq<Authenticator>, a: Authenticator)
    requires SlugsOk(auths) && IsRow(auths, a)
    requires forall b :: IsRow(auths, b) ==> b.Demands()
    requires !AsksAtLeast(a, FirstRow(auths, a))
    ensures var c := Witness(a, FirstRow(auths, a)); RowsTake(auths, c) && !RowsTakeAsEmitted(auths, c)
  {
    FirstSsoFound(auths, a);
    var first := FirstSso(auths).value;
    assert IsRow(auths, first);
    WitnessTellsApart(a, first);
  }

  lemma TakingRow(auths: seq<Authenticator>, c: Jwt) returns (a: Authenticator)
    requires RowsTakeAsEmitted(auths, c)
    ensures IsRow(auths, a) && FirstSso(auths).Some?
    ensures a.Demands() ==> FirstSso(auths).value.Demands() && Meets(FirstSso(auths).value, c)
  {
    a :| IsRow(auths, a) && (a.Demands() ==> FirstRow(auths, a).Demands() && Meets(FirstRow(auths, a), c));
    FirstSsoFound(auths, a);
    assert FirstRow(auths, a) == FirstSso(auths).value;
  }

  /** With agreeing rows the emitted authenticators are the intended ones. */
  lemma AdmittedWhenAgreeing(spec: ProxySpec, s: Service, auths: seq<Authenticator>, q: Request)
    requires RowsAgree(auths)
    ensures Admitted(spec, s, auths, q) <==> AdmittedAsEmitted(spec, s, auths, q)
  {
    if s.kind.Http? && Session(spec, q) {
      var c := q.cookie.value;
      AgreeingRows(auths, c);
      if a :| a in auths && Proves(spec, s, a, q) {
        if a.kind.Sso? {
          assert IsRow(auths, a) && RowsTake(auths, c);
          var b := TakingRow(auths, c);
          assert ProvesAsEmitted(spec, s, auths, b, q);
        } else {
          assert ProvesAsEmitted(spec, s, auths, a, q);
        }
      }
      if a :| a in auths && ProvesAsEmitted(spec, s, auths, a, q) {
        if a.kind.Sso? {
          assert IsRow(auths, a) && RowsTakeAsEmitted(auths, c);
          var b :| IsRow(auths, b) && Meets(b, c);
          assert Proves(spec, s, b, q);
        } else {
          assert Proves(spec, s, a, q);
        }
      }
    } else {
      assert forall a :: Proves(spec, s, a, q) <==> ProvesAsEmitted(spec, s, auths, a, q);
    }
  }

  lemma JudgementsAgree(spec: ProxySpec, w: World, s: Service, d: Door, q: Request)
    requires RowsAgree(s.AuthFor(d)) && FilterRefusal(w, s, d, q, 0) == EnforcedRefusal(w, s, d, q, 0)
    ensures Judge(spec, w, s, d, q) == JudgeAsEmitted(spec, w, s, d, q)
  {
    AdmittedWhenAgreeing(spec, s, s.AuthFor(d), q);
  }

  /** With limits in order as well. */
  lemma InOrderJudgementsAgree(spec: ProxySpec, w: World, s: Service, d: Door, q: Request)
    requires s.kind.Http? && PolicyOk(spec, s) && TableDeclared(w.tables, s) && Growing(w.count)
    requires RowsAgree(s.AuthFor(d)) && LimitsInOrder(s, d)
    ensures Judge(spec, w, s, d, q) == JudgeAsEmitted(spec, w, s, d, q)
  {
    PolicyLimitsWhole(spec, s);
    InOrderSuffices(s, d, w.count);
    SameRefusal(w, s, d, q, 0);
    JudgementsAgree(spec, w, s, d, q);
  }

  /** The compiler is correct on a door whose sign-on rows agree and whose rate limits are in order. */
  lemma DoorJudgesAsIntended(spec: ProxySpec, w: World, acls: seq<Acl>, q: Request, s: Service, d: Door, guard: seq<Term>, st: State)
    requires UniqueNames(spec) && Resolves(spec, w.files) && HasPeerSet(spec) && Open(acls, q, guard)
    requires s in spec.services && s.kind.Http? && PolicyOk(spec, s) && s.exposure.Has(d)
    requires HaproxySignOn.Untouched(st) && CounterFree(s, st)
    requires TableDeclared(w.tables, s) && Growing(w.count)
    requires RowsAgree(s.AuthFor(d)) && LimitsInOrder(s, d)
    ensures Verdict(Judge(spec, w, s, d, q), Run(w, acls, q, ServiceRules(spec, s, d, guard), st))
  {
    ServiceRulesJudge(spec, w, acls, q, s, d, guard, st);
    InOrderJudgementsAgree(spec, w, s, d, q);
  }

  /** Where the limits only agree it lets in exactly whoever is meant to be. */
  lemma DoorPassesAsIntended(spec: ProxySpec, w: World, acls: seq<Acl>, q: Request, s: Service, d: Door, guard: seq<Term>, st: State)
    requires UniqueNames(spec) && Resolves(spec, w.files) && HasPeerSet(spec) && Open(acls, q, guard)
    requires s in spec.services && s.kind.Http? && PolicyOk(spec, s) && s.exposure.Has(d)
    requires HaproxySignOn.Untouched(st) && CounterFree(s, st)
    requires TableDeclared(w.tables, s) && Growing(w.count)
    requires RowsAgree(s.AuthFor(d)) && LimitsAgree(s, d)
    ensures Run(w, acls, q, ServiceRules(spec, s, d, guard), st).Passed? <==> Judge(spec, w, s, d, q) == None
  {
    ServiceRulesJudge(spec, w, acls, q, s, d, guard, st);
    PolicyLimitsWhole(spec, s);
    AgreeSuffices(s, d, w.count);
    SamePassing(w, s, d, q);
    AdmittedWhenAgreeing(spec, s, s.AuthFor(d), q);
  }

  // ----- rows that do not agree -----

  const ADMIN_ROW := Authenticator(Sso, BothScopes, None, [], true)
  const GROUP_ROW := Authenticator(Sso, BothScopes, None, ["ops"], false)

  lemma TwoRowsDisagree()
    ensures var auths := [ADMIN_ROW, GROUP_ROW];
            var member := Jwt(1, None, None, None, Some(",ops,"), None);
            SlugsOk(auths) && RowsTake(auths, member) && !RowsTakeAsEmitted(auths, member)
  {
    var auths := [ADMIN_ROW, GROUP_ROW];
    var member := Jwt(1, None, None, None, Some(",ops,"), None);
    assert GROUP_ROW.groups[0] == "ops";
    assert IsRow(auths, GROUP_ROW);
    OnlyItself("ops", "ops");
    assert Pattern("ops") == ",ops,";
    assert Meets(GROUP_ROW, member);
  }

  // ----- on the door -----

  /** The door lets the request in, as it is meant and as it is emitted, and nothing but a sign-on could admit it. */
  ghost predicate LeftToSignOn(spec: ProxySpec, w: World, s: Service, d: Door, q: Request) {
    && EntryRefusal(spec, w, s, d, q).None? && FilterRefusal(w, s, d, q, 0).None? && !HasKind(s.AuthFor(d), Public)
    && forall a :: a in s.AuthFor(d) && !a.kind.Sso? ==> !Proves(spec, s, a, q)
  }

  /** The same request with a session in order, of a person with these groups and this account. */
  function SignedInAs(q: Request, person: Jwt): Request {
    q.(cookie := Some(Jwt(1, Some(q.now + 1), person.sub, None, person.groups, person.admin)))
  }

  lemma {:induction false} FiltersIgnoreCookie(w: World, s: Service, d: Door, q: Request, person: Jwt, i: nat)
    ensures EnforcedRefusal(w, s, d, SignedInAs(q, person), i) == EnforcedRefusal(w, s, d, q, i)
    ensures FilterRefusal(w, s, d, SignedInAs(q, person), i) == FilterRefusal(w, s, d, q, i)
    decreases |s.filters| - i
  {
    if i < |s.filters| {
      FiltersIgnoreCookie(w, s, d, q, person, i + 1);
    }
  }

  lemma SignInChangesNothingElse(spec: ProxySpec, w: World, s: Service, d: Door, q: Request, person: Jwt)
    requires LeftToSignOn(spec, w, s, d, q)
    ensures LeftToSignOn(spec, w, s, d, SignedInAs(q, person)) && Session(spec, SignedInAs(q, person))
  {
    FiltersIgnoreCookie(w, s, d, q, person, 0);
    assert AccessGranted(spec, s, d, SignedInAs(q, person)) <==> AccessGranted(spec, s, d, q);
  }

  /** Left to sign-on, a signed-in person is meant to be let in, and is let in, by the rows alone. */
  lemma RowsDecide(spec: ProxySpec, w: World, s: Service, d: Door, q: Request)
    requires s.kind.Http? && LeftToSignOn(spec, w, s, d, q) && Session(spec, q)
    ensures Judge(spec, w, s, d, q) == None <==> RowsTake(s.AuthFor(d), q.cookie.value)
    ensures JudgeAsEmitted(spec, w, s, d, q) == None <==> RowsTakeAsEmitted(s.AuthFor(d), q.cookie.value)
  {
    var auths, c := s.AuthFor(d), q.cookie.value;
    if a :| IsRow(auths, a) && Meets(a, c) {
      assert Proves(spec, s, a, q);
    }
    if RowsTakeAsEmitted(auths, c) {
      var a := TakingRow(auths, c);
      assert ProvesAsEmitted(spec, s, auths, a, q);
    }
    if a :| a in auths && ProvesAsEmitted(spec, s, auths, a, q) {
      if a.kind.Sso? {
        FirstSsoFound(auths, a);
        assert IsRow(auths, a);
      }
    }
  }

  /** A person's groups and account are all a row looks at. */
  lemma SignedInMeets(q: Request, person: Jwt, auths: seq<Authenticator>)
    ensures var c := SignedInAs(q, person).cookie.value;
            (RowsTake(auths, c) <==> RowsTake(auths, person)) && (RowsTakeAsEmitted(auths, c) <==> RowsTakeAsEmitted(auths, person))
  {
    var c := SignedInAs(q, person).cookie.value;
    assert forall a :: Meets(a, c) <==> Meets(a, person);
  }

  /** The emitted rules give the intended verdict on every request that is left to sign-on. */
  ghost predicate DoorFaithful(spec: ProxySpec, w: World, acls: seq<Acl>, s: Service, d: Door, guard: seq<Term>, st: State) {
    forall q :: Open(acls, q, guard) && LeftToSignOn(spec, w, s, d, q) ==>
      Verdict(Judge(spec, w, s, d, q), Run(w, acls, q, ServiceRules(spec, s, d, guard), st))
  }

  /** On a door that any request reaches at all, that is so exactly when the sign-on rows agree. */
  lemma DoorFaithfulExactly(spec: ProxySpec, w: World, acls: seq<Acl>, q: Request, s: Service, d: Door, guard: seq<Term>, st: State)
    requires UniqueNames(spec) && Resolves(spec, w.files) && HasPeerSet(spec)
    requires s in spec.services && s.kind.Http? && PolicyOk(spec, s) && s.exposure.Has(d)
    requires HaproxySignOn.Untouched(st) && CounterFree(s, st)
    requires Open(acls, q, guard) && LeftToSignOn(spec, w, s, d, q)
    ensures DoorFaithful(spec, w, acls, s, d, guard, st) <==> RowsAgree(s.AuthFor(d))
  {
    if RowsAgree(s.AuthFor(d)) {
      forall p | Open(acls, p, guard) && LeftToSignOn(spec, w, s, d, p)
        ensures Verdict(Judge(spec, w, s, d, p), Run(w, acls, p, ServiceRules(spec, s, d, guard), st))
      {
        ServiceRulesJudge(spec, w, acls, p, s, d, guard, st);
        JudgementsAgree(spec, w, s, d, p);
      }
    } else {
      var person := Misjudged(spec, w, s, d, q);
      var p := SignedInAs(q, person);
      assert Open(acls, p, guard);
      ServiceRulesJudge(spec, w, acls, p, s, d, guard, st);
      assert !Verdict(Judge(spec, w, s, d, p), Run(w, acls, p, ServiceRules(spec, s, d, guard), st));
    }
  }

  /** Where the rows do not agree, a person who is meant to be let in and is not. */
  lemma Misjudged(spec: ProxySpec, w: World, s: Service, d: Door, q: Request) returns (person: Jwt)
    requires PolicyOk(spec, s) && s.kind.Http? && LeftToSignOn(spec, w, s, d, q) && !RowsAgree(s.AuthFor(d))
    ensures LeftToSignOn(spec, w, s, d, SignedInAs(q, person))
    ensures Judge(spec, w, s, d, SignedInAs(q, person)) == None
    ensures JudgeAsEmitted(spec, w, s, d, SignedInAs(q, person)).Some?
  {
    var auths := s.AuthFor(d);
    ValidatedSlugs(spec, s, auths);
    var a :| IsRow(auths, a) && !AsksAtLeast(a, FirstRow(auths, a));
    DisagreeingRows(auths, a);
    person := Witness(a, FirstRow(auths, a));
    SignInChangesNothingElse(spec, w, s, d, q, person);
    SignedInMeets(q, person, auths);
    RowsDecide(spec, w, s, d, SignedInAs(q, person));
  }

  /** A service with both rows, published to the WAN. */
  function TwoRows(): Service {
    Service("wiki", Http, External, AddressText(RawAddress(V4, seq(32, _ => false))), 8080, None, Some("wiki.z"), None, None,
            [ADMIN_ROW, GROUP_ROW], [], [], [], [])
  }

  lemma TwoRowsAccepted(spec: ProxySpec)
    requires spec.ssoSecret != "" && Truthy(spec.ssoHostname)
    ensures ServiceOk(spec, TwoRows()) && TwoRows().AuthFor(ExternalDoor) == [ADMIN_ROW, GROUP_ROW]
  {
    assert Chomp("wiki") == "wiki" && MatchesHostname("wiki.z");
    assert [ADMIN_ROW, GROUP_ROW][1..] == [GROUP_ROW];
    CoveringOne(GROUP_ROW, ExternalDoor);
    assert SlugText("ops", 24);
    assert AuthOk(spec, TwoRows(), ADMIN_ROW) && AuthOk(spec, TwoRows(), GROUP_ROW);
  }

  /**
   "An administrator, or anybody in ops", a service validation accepts: somebody in ops is meant
   to be let in, and the emitted rules say that they are not allowed here.
   */
  lemma TwoRowsTurnAMemberAway(spec: ProxySpec, w: World, acls: seq<Acl>, q: Request, guard: seq<Term>, st: State)
    requires UniqueNames(spec) && Resolves(spec, w.files) && HasPeerSet(spec) && Open(acls, q, guard)
    requires spec.ssoSecret != "" && Truthy(spec.ssoHostname) && TwoRows() in spec.services
    requires HaproxySignOn.Untouched(st) && CounterFree(TwoRows(), st)
    ensures var member := SignedInAs(q, Jwt(1, None, Some("ann"), None, Some(",ops,"), None));
      && ServiceOk(spec, TwoRows())
      && Judge(spec, w, TwoRows(), ExternalDoor, member) == None
      && Run(w, acls, member, ServiceRules(spec, TwoRows(), ExternalDoor, guard), st) == Stopped(NotAllowedHere)
  {
    var person := Jwt(1, None, Some("ann"), None, Some(",ops,"), None);
    var member := SignedInAs(q, person);
    TwoRowsAccepted(spec);
    TwoRowsDisagree();
    MemberLeftToSignOn(spec, w, q);
    SignInChangesNothingElse(spec, w, TwoRows(), ExternalDoor, q, person);
    OpsMember(q, person);
    RowsDecide(spec, w, TwoRows(), ExternalDoor, member);
    assert Open(acls, member, guard);
    ServiceRulesJudge(spec, w, acls, member, TwoRows(), ExternalDoor, guard, st);
    MemberIsRefused(spec, w, member);
  }

  lemma MemberLeftToSignOn(spec: ProxySpec, w: World, q: Request)
    requires TwoRows().AuthFor(ExternalDoor) == [ADMIN_ROW, GROUP_ROW]
    ensures LeftToSignOn(spec, w, TwoRows(), ExternalDoor, q)
  {
    assert TwoRows().AccessFor(ExternalDoor) == [];
    assert EnforcedRefusal(w, TwoRows(), ExternalDoor, q, 0) == None && FilterRefusal(w, TwoRows(), ExternalDoor, q, 0) == None;
  }

  lemma OpsMember(q: Request, person: Jwt)
    requires person == Jwt(1, None, Some("ann"), None, Some(",ops,"), None)
    ensures var c := SignedInAs(q, person).cookie.value;
            RowsTake([ADMIN_ROW, GROUP_ROW], c) && !RowsTakeAsEmitted([ADMIN_ROW, GROUP_ROW], c)
  {
    TwoRowsDisagree();
    var plain := Jwt(1, None, None, None, Some(",ops,"), None);
    var c := SignedInAs(q, person).cookie.value;
    assert forall a :: Meets(a, c) <==> Meets(a, plain);
  }

  lemma MemberIsRefused(spec: ProxySpec, w: World, q: Request)
    requires TwoRows().AuthFor(ExternalDoor) == [ADMIN_ROW, GROUP_ROW]
    requires Session(spec, q) && q.cookie.value.admin == None
    ensures AuthRefusal(spec, TwoRows(), TwoRows().AuthFor(ExternalDoor), q) == NotAllowedHere
  {
    assert FirstSso([ADMIN_ROW, GROUP_ROW]) == Some(ADMIN_ROW);
  }
}
