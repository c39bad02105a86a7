/**
 Passthrough services: one frontend for both doors, judged by one of them, and by nobody's rate limit.
 */
module HaproxyPassthrough {
  import opened Wrappers
  import opened Net
  import opened Grammar
  import opened HaproxyModel
  import opened HaproxyProgram
  import opened HaproxyGenerator
  import opened HaproxyPolicy
  import opened HaproxyFiles
  import opened HaproxyValidation
  import opened HaproxyFilters
  import opened HaproxyCorrectness

  /** The door whose rules a passthrough frontend carries, whatever listener a caller came by. */
  function FrontDoor(s: Service): Door {
    if s.exposure.Internal? then InternalDoor else ExternalDoor
  }

  function PassthroughRules(spec: ProxySpec, s: Service): seq<Rule> {
    ServiceRules(spec, s, FrontDoor(s), [])
  }

  lemma {:induction false} NegatedConditions(spec: ProxySpec, w: World, acls: seq<Acl>, q: Request, s: Service, auths: seq<Authenticator>, st: State)
    requires LookupsFind(spec, w, s, q)
    requires s.kind.Passthrough? && forall a :: a in auths ==> a.kind.PeerIdentity?
    ensures CondHolds(w, acls, q, st, NegateFirst(Conditions(s, auths))) <==> !Admitted(spec, s, auths, q)
  {
    if auths != [] {
      var a, rest := auths[0], auths[1..];
      assert auths == [a] + rest && a in auths;
      NegatedConditions(spec, w, acls, q, s, rest, st);
      var t := SrcInFile(SetFile(PEER_SET));
      var conditions := Conditions(s, rest);
      assert Conditions(s, auths) == [[Yes(t)]] + conditions;
      assert ([[Yes(t)]] + conditions)[1..] == conditions;
      assert NegateFirst(Conditions(s, auths)) == [No(t)] + NegateFirst(conditions);
      CondConcat(w, acls, q, st, [No(t)], NegateFirst(conditions));
      CondOne(w, acls, q, st, No(t));
    }
  }

  lemma PassthroughAuthRun(spec: ProxySpec, w: World, acls: seq<Acl>, q: Request, s: Service, d: Door, st: State)
    requires LookupsFind(spec, w, s, q)
    requires s.kind.Passthrough? && s.AuthFor(d) != [] && forall a :: a in s.AuthFor(d) ==> AuthOk(spec, s, a)
    ensures Run(w, acls, q, AuthRules(spec, s, d, []), st)
         == if HasKind(s.AuthFor(d), Public) || Admitted(spec, s, s.AuthFor(d), q) then Passed(st) else Stopped(Rejected)
  {
    var auths := s.AuthFor(d);
    if !HasKind(auths, Public) {
      forall a | a in auths
        ensures a.kind.PeerIdentity?
      {
        assert AuthOk(spec, s, a) && a.kind != Public;
      }
      SomeCondition(spec, s, auths);
      NoSignOn(auths);
      NegatedConditions(spec, w, acls, q, s, auths, st);
      var cond := NegateFirst(Conditions(s, auths));
      assert [] + cond == cond;
      assert AuthRules(spec, s, d, []) == [Rule(Stop(Rejected), cond)];
      RunOne(w, acls, q, Rule(Stop(Rejected), cond), st);
    }
  }

  lemma {:induction false} NoSignOn(auths: seq<Authenticator>)
    requires forall a :: a in auths ==> a.kind.PeerIdentity?
    ensures FirstSso(auths).None?
  {
    if auths != [] {
      assert auths[0] in auths;
      NoSignOn(auths[1..]);
    }
  }

  /** The frontend gives the verdict of its front door, as far as its filters are enforced. */
  lemma FrontendRuns(spec: ProxySpec, w: World, acls: seq<Acl>, q: Request, s: Service, st: State)
    requires UniqueNames(spec) && Resolves(spec, w.files) && HasPeerSet(spec)
    requires s in spec.services && s.kind.Passthrough? && PolicyOk(spec, s) && CounterFree(s, st)
    ensures Verdict(JudgeAsEmitted(spec, w, s, FrontDoor(s), q), Run(w, acls, q, PassthroughRules(spec, s), st))
  {
    var d := FrontDoor(s);
    EntryRun(spec, w, acls, q, s, d, [], st);
    LookupsResolved(spec, w, s, q);
    assert forall a :: a in s.AuthFor(d) ==> AuthOk(spec, s, a);
    PassthroughRun(spec, w, acls, q, s, d, st);
  }

  /** On a passthrough service an authenticator is emitted as it is meant. */
  lemma AdmittedAsMeant(spec: ProxySpec, s: Service, auths: seq<Authenticator>, q: Request)
    requires s.kind.Passthrough?
    ensures AdmittedAsEmitted(spec, s, auths, q) <==> Admitted(spec, s, auths, q)
  {
    assert forall a :: ProvesAsEmitted(spec, s, auths, a, q) <==> Proves(spec, s, a, q);
  }

  lemma PassthroughRun(spec: ProxySpec, w: World, acls: seq<Acl>, q: Request, s: Service, d: Door, st: State)
    requires LookupsFind(spec, w, s, q)
    requires s.kind.Passthrough? && s.AuthFor(d) != [] && forall a :: a in s.AuthFor(d) ==> AuthOk(spec, s, a)
    requires EndsAs(s, st, EntryRefusal(spec, w, s, d, q), Run(w, acls, q, EntryRules(s, d, []), st))
    ensures Verdict(JudgeAsEmitted(spec, w, s, d, q), Run(w, acls, q, ServiceRules(spec, s, d, []), st))
  {
    var entry, auth := EntryRules(s, d, []), AuthRules(spec, s, d, []);
    assert ServiceRules(spec, s, d, []) == entry + auth;
    RunConcat(w, acls, q, entry, auth, st);
    AdmittedAsMeant(spec, s, s.AuthFor(d), q);
    if EntryRefusal(spec, w, s, d, q).None? {
      PassthroughAuthRun(spec, w, acls, q, s, d, Run(w, acls, q, entry, st).state);
    }
  }

  // ----- rate limits -----

  /** Some rate limit of the door is exceeded. */
  ghost predicate OverRate(w: World, s: Service, d: Door, q: Request) {
    exists f :: f in s.filters && f.scope.Covers(d) && f.kind.RateLimit? && !FilterPasses(w, s, f, q)
  }

  /** Every refusal of a passthrough service is the same, so only whether there is one matters. */
  lemma {:induction false} PlainRefusal(w: World, s: Service, d: Door, q: Request, i: nat)
    requires s.kind.Passthrough?
    ensures FilterRefusal(w, s, d, q, i) in {None, Some(Rejected)} && EnforcedRefusal(w, s, d, q, i) in {None, Some(Rejected)}
    decreases |s.filters| - i
  {
    if i < |s.filters| {
      PlainRefusal(w, s, d, q, i + 1);
    }
  }

  lemma InForceMeans(spec: ProxySpec, w: World, s: Service, d: Door, q: Request)
    requires s.kind.Passthrough?
    ensures JudgeAsEmitted(spec, w, s, d, q) == None
       <==> && OthersPass(w, s, d, q) && AccessGranted(spec, s, d, q)
            && (HasKind(s.AuthFor(d), Public) || Admitted(spec, s, s.AuthFor(d), q))
    ensures JudgeAsEmitted(spec, w, s, d, q) in {None, Some(Rejected)} && Judge(spec, w, s, d, q) in {None, Some(Rejected)}
  {
    PlainRefusal(w, s, d, q, 0);
    EnforcedRefusalMeans(w, s, d, q, 0);
    AdmittedAsMeant(spec, s, s.AuthFor(d), q);
  }

  /** Refused by the policy and not in force: exactly where a rate limit alone would have refused. */
  lemma InForceAgrees(spec: ProxySpec, w: World, s: Service, d: Door, q: Request)
    requires s.kind.Passthrough?
    ensures JudgeAsEmitted(spec, w, s, d, q) == Judge(spec, w, s, d, q)
       <==> !(JudgeAsEmitted(spec, w, s, d, q) == None && OverRate(w, s, d, q))
  {
    InForceMeans(spec, w, s, d, q);
    JudgePasses(spec, w, s, d, q);
    assert FiltersPass(w, s, d, q) <==> OthersPass(w, s, d, q) && !OverRate(w, s, d, q);
  }

  /** A passthrough frontend gives the verdict of its front door exactly where it does not let a request past a rate limit it exceeds. */
  lemma PassthroughJudges(spec: ProxySpec, w: World, acls: seq<Acl>, q: Request, s: Service, st: State)
    requires UniqueNames(spec) && Resolves(spec, w.files) && HasPeerSet(spec)
    requires s in spec.services && s.kind.Passthrough? && PolicyOk(spec, s) && CounterFree(s, st)
    ensures var o := Run(w, acls, q, PassthroughRules(spec, s), st);
            Verdict(Judge(spec, w, s, FrontDoor(s), q), o) <==> !(o.Passed? && OverRate(w, s, FrontDoor(s), q))
  {
    FrontendRuns(spec, w, acls, q, s, st);
    InForceAgrees(spec, w, s, FrontDoor(s), q);
    InForceMeans(spec, w, s, FrontDoor(s), q);
  }

  /** What passes although a filter of the front door is not met is what passes over a rate limit. */
  lemma UnmetIsOverRate(spec: ProxySpec, w: World, acls: seq<Acl>, q: Request, s: Service, st: State)
    requires UniqueNames(spec) && Resolves(spec, w.files) && HasPeerSet(spec)
    requires s in spec.services && s.kind.Passthrough? && PolicyOk(spec, s) && CounterFree(s, st)
    ensures var passed := Run(w, acls, q, PassthroughRules(spec, s), st).Passed?;
            passed && !FiltersPass(w, s, FrontDoor(s), q) <==> passed && OverRate(w, s, FrontDoor(s), q)
  {
    FrontendRuns(spec, w, acls, q, s, st);
    InForceMeans(spec, w, s, FrontDoor(s), q);
  }

  lemma {:induction false} InForceIgnoresRates(w: World, s: Service, d: Door, q: Request, i: nat, count: Count)
    requires s.kind.Passthrough?
    ensures EnforcedRefusal(w, s, d, q, i) == EnforcedRefusal(w.(count := count), s, d, q, i)
    decreases |s.filters| - i
  {
    if i < |s.filters| {
      InForceIgnoresRates(w, s, d, q, i + 1, count);
    }
  }

  /** Request counters change nothing on a passthrough service, whatever rate limits it has. */
  lemma RatesIgnored(spec: ProxySpec, w: World, acls: seq<Acl>, q: Request, s: Service, st: State, count: Count)
    requires UniqueNames(spec) && Resolves(spec, w.files) && HasPeerSet(spec)
    requires s in spec.services && s.kind.Passthrough? && PolicyOk(spec, s) && CounterFree(s, st)
    ensures Run(w, acls, q, PassthroughRules(spec, s), st).Passed?
       <==> Run(w.(count := count), acls, q, PassthroughRules(spec, s), st).Passed?
  {
    FrontendRuns(spec, w, acls, q, s, st);
    FrontendRuns(spec, w.(count := count), acls, q, s, st);
    InForceIgnoresRates(w, s, FrontDoor(s), q, 0, count);
  }

  // ----- a service whose rate limit holds nobody -----

  const NOWHERE := AddressText(RawAddress(V4, seq(32, _ => false)))

  const LIMITED_SERVICE := Service("db", Passthrough, External, NOWHERE, 5432, None, None, Some(5432), None,
    [Authenticator(Public, ExternalScope, None, [], false)], [Filter(RateLimit, BothScopes, [], [], Some(10), Some(10))], [], [], [])

  lemma LimitedServiceAccepted(spec: ProxySpec)
    ensures ServiceOk(spec, LIMITED_SERVICE)
    ensures LIMITED_SERVICE.AuthFor(ExternalDoor) == LIMITED_SERVICE.authenticators
  {
    CoveringOne(LIMITED_SERVICE.authenticators[0], ExternalDoor);
    assert Chomp("db") == "db";
  }

  /** Accepted by validation; over its rate the policy turns a request away and the frontend lets it in. */
  lemma LimitHoldsNobody(spec: ProxySpec, w: World, acls: seq<Acl>, q: Request, st: State)
    requires UniqueNames(spec) && Resolves(spec, w.files) && HasPeerSet(spec)
    requires LIMITED_SERVICE in spec.services && CounterFree(LIMITED_SERVICE, st)
    requires w.count(TableName("db"), 10) > 10
    ensures ServiceOk(spec, LIMITED_SERVICE)
    ensures Judge(spec, w, LIMITED_SERVICE, ExternalDoor, q) == Some(Rejected)
    ensures Run(w, acls, q, PassthroughRules(spec, LIMITED_SERVICE), st).Passed?
  {
    var s := LIMITED_SERVICE;
    LimitedServiceAccepted(spec);
    assert s.filters[0] in s.filters && !FilterPasses(w, s, s.filters[0], q);
    FrontendRuns(spec, w, acls, q, s, st);
    InForceMeans(spec, w, s, ExternalDoor, q);
    JudgePasses(spec, w, s, ExternalDoor, q);
    assert s.AccessFor(ExternalDoor) == [];
  }

  // ----- both doors -----

  /** What is accepted for a service on both doors leaves only "public" for the WAN side. */
  lemma OutsideIsPublic(spec: ProxySpec, s: Service)
    requires s.kind.Passthrough? && s.exposure.Both? && PolicyOk(spec, s)
    ensures HasKind(s.AuthFor(ExternalDoor), Public)
  {
    var a := s.AuthFor(ExternalDoor)[0];
    assert a in s.AuthFor(ExternalDoor);
    assert AuthOk(spec, s, a) && a.scope.Covers(ExternalDoor);
    assert a.kind.Public?;
  }

  /**
   An accepted passthrough service on both doors asks nobody who they are, on either listener:
   only its external filters other than rate limits and its access rules decide.
   */
  lemma BothDoorsAskNobody(spec: ProxySpec, w: World, acls: seq<Acl>, q: Request, s: Service, st: State)
    requires UniqueNames(spec) && Resolves(spec, w.files) && HasPeerSet(spec)
    requires s in spec.services && s.kind.Passthrough? && s.exposure.Both? && PolicyOk(spec, s) && CounterFree(s, st)
    ensures Run(w, acls, q, PassthroughRules(spec, s), st).Passed?
       <==> OthersPass(w, s, ExternalDoor, q) && AccessGranted(spec, s, ExternalDoor, q)
  {
    FrontendRuns(spec, w, acls, q, s, st);
    OutsideIsPublic(spec, s);
    InForceMeans(spec, w, s, ExternalDoor, q);
  }

  // ----- when the tunnel side of a service is honoured -----

  /** Published on one door only, a service is judged by that door, rate limits apart. */
  lemma OneDoorIsHonoured(spec: ProxySpec, w: World, acls: seq<Acl>, q: Request, s: Service, d: Door, st: State)
    requires UniqueNames(spec) && Resolves(spec, w.files) && HasPeerSet(spec)
    requires s in spec.services && s.kind.Passthrough? && PolicyOk(spec, s) && CounterFree(s, st)
    requires s.exposure.Has(d) && !s.exposure.Both?
    ensures var o := Run(w, acls, q, PassthroughRules(spec, s), st);
            Verdict(Judge(spec, w, s, d, q), o) <==> !(o.Passed? && OverRate(w, s, d, q))
  {
    PassthroughJudges(spec, w, acls, q, s, st);
    assert FrontDoor(s) == d;
  }

  predicate IsPublic(s: Service, d: Door) { HasKind(s.AuthFor(d), Public) }

  /** On a passthrough door somebody is admitted exactly as a peer. */
  lemma AdmittedIsPeer(spec: ProxySpec, s: Service, d: Door, q: Request)
    requires s.kind.Passthrough? && PolicyOk(spec, s) && s.exposure.Has(d) && !IsPublic(s, d)
    ensures Admitted(spec, s, s.AuthFor(d), q) <==> InSourceSet(spec, PEER_SET, q.src)
  {
    var auths := s.AuthFor(d);
    forall a | a in auths
      ensures a.kind.PeerIdentity?
    {
      assert AuthOk(spec, s, a);
      if a.kind.Public? {
        PublicIsFound(auths, a);
      }
    }
    assert auths[0] in auths;
    assert Proves(spec, s, auths[0], q) <==> InSourceSet(spec, PEER_SET, q.src);
  }

  lemma {:induction false} PublicIsFound(auths: seq<Authenticator>, a: Authenticator)
    requires a in auths && a.kind.Public?
    ensures HasKind(auths, Public)
  {
    if auths[0] != a {
      PublicIsFound(auths[1..], a);
    }
  }

  /** The policy of the tunnel side, said directly. */
  ghost predicate MeantInside(spec: ProxySpec, w: World, s: Service, q: Request) {
    && FiltersPass(w, s, InternalDoor, q) && AccessGranted(spec, s, InternalDoor, q)
    && (IsPublic(s, InternalDoor) || InSourceSet(spec, PEER_SET, q.src))
  }

  lemma MeantInsideIsJudged(spec: ProxySpec, w: World, s: Service, q: Request)
    requires s.kind.Passthrough? && PolicyOk(spec, s) && s.exposure.Has(InternalDoor)
    ensures Judge(spec, w, s, InternalDoor, q) == None <==> MeantInside(spec, w, s, q)
  {
    JudgePasses(spec, w, s, InternalDoor, q);
    if !IsPublic(s, InternalDoor) {
      AdmittedIsPeer(spec, s, InternalDoor, q);
    }
  }

  /** On both doors: the frontend agrees with the tunnel-side policy exactly when the external filters and rules do. */
  lemma InsideHonouredExactly(spec: ProxySpec, w: World, acls: seq<Acl>, q: Request, s: Service, st: State)
    requires UniqueNames(spec) && Resolves(spec, w.files) && HasPeerSet(spec)
    requires s in spec.services && s.kind.Passthrough? && s.exposure.Both? && PolicyOk(spec, s) && CounterFree(s, st)
    ensures (Run(w, acls, q, PassthroughRules(spec, s), st).Passed? <==> Judge(spec, w, s, InternalDoor, q) == None)
       <==> ((OthersPass(w, s, ExternalDoor, q) && AccessGranted(spec, s, ExternalDoor, q)) <==> MeantInside(spec, w, s, q))
  {
    BothDoorsAskNobody(spec, w, acls, q, s, st);
    MeantInsideIsJudged(spec, w, s, q);
  }

  /** Filters and access rules are the same on both doors. */
  predicate Unscoped(s: Service) {
    (forall f :: f in s.filters ==> f.scope.BothScopes?) && (forall r :: r in s.access ==> !r.source.FromSet?)
  }

  lemma UnscopedSame(spec: ProxySpec, w: World, s: Service, q: Request)
    requires Unscoped(s)
    ensures OthersPass(w, s, InternalDoor, q) <==> OthersPass(w, s, ExternalDoor, q)
    ensures AccessGranted(spec, s, InternalDoor, q) <==> AccessGranted(spec, s, ExternalDoor, q)
  {
    assert forall r :: r in s.AccessFor(InternalDoor) <==> r in s.AccessFor(ExternalDoor);
  }

  /** With unscoped filters and rules, let in against the tunnel-side policy are exactly whoever is over its rate and, unless it is public, the strangers. */
  lemma StrangersLetInExactly(spec: ProxySpec, w: World, acls: seq<Acl>, q: Request, s: Service, st: State)
    requires UniqueNames(spec) && Resolves(spec, w.files) && HasPeerSet(spec)
    requires s in spec.services && s.kind.Passthrough? && s.exposure.Both? && PolicyOk(spec, s) && CounterFree(s, st)
    requires Unscoped(s)
    ensures Run(w, acls, q, PassthroughRules(spec, s), st).Passed? && Judge(spec, w, s, InternalDoor, q).Some?
       <==> && Run(w, acls, q, PassthroughRules(spec, s), st).Passed?
            && (OverRate(w, s, InternalDoor, q) || (!IsPublic(s, InternalDoor) && !InSourceSet(spec, PEER_SET, q.src)))
  {
    BothDoorsAskNobody(spec, w, acls, q, s, st);
    MeantInsideIsJudged(spec, w, s, q);
    UnscopedSame(spec, w, s, q);
    assert FiltersPass(w, s, InternalDoor, q) <==> OthersPass(w, s, InternalDoor, q) && !OverRate(w, s, InternalDoor, q);
  }

  // ----- a service that is open inside although it lists peer identity -----

  const SPLIT_SERVICE := Service("db", Passthrough, Both, NOWHERE, 5432, None, None, Some(5432), None,
    [Authenticator(PeerIdentity, InternalScope, None, [], false), Authenticator(Public, ExternalScope, None, [], false)],
    [], [], [], [])

  lemma SplitServiceDoors()
    ensures SPLIT_SERVICE.AuthFor(InternalDoor) == [SPLIT_SERVICE.authenticators[0]]
    ensures SPLIT_SERVICE.AuthFor(ExternalDoor) == [SPLIT_SERVICE.authenticators[1]]
  {
    var outside := SPLIT_SERVICE.authenticators[1];
    assert SPLIT_SERVICE.authenticators[1..] == [outside];
    CoveringOne(outside, InternalDoor);
    CoveringOne(outside, ExternalDoor);
  }

  lemma SplitServiceAccepted(spec: ProxySpec)
    ensures ServiceOk(spec, SPLIT_SERVICE)
  {
    SplitServiceDoors();
    assert Chomp("db") == "db";
  }

  /** Accepted by validation; inside, the policy turns a stranger away and the frontend lets it in. */
  lemma InsideIsOpenToo(spec: ProxySpec, w: World, acls: seq<Acl>, q: Request, st: State)
    requires UniqueNames(spec) && Resolves(spec, w.files) && HasPeerSet(spec)
    requires SPLIT_SERVICE in spec.services && CounterFree(SPLIT_SERVICE, st)
    requires !InSourceSet(spec, PEER_SET, q.src)
    ensures ServiceOk(spec, SPLIT_SERVICE)
    ensures Judge(spec, w, SPLIT_SERVICE, InternalDoor, q) == Some(Rejected)
    ensures Run(w, acls, q, PassthroughRules(spec, SPLIT_SERVICE), st).Passed?
  {
    SplitServiceAccepted(spec);
    BothDoorsAskNobody(spec, w, acls, q, SPLIT_SERVICE, st);
    StrangerInside(spec, w, q);
  }

  lemma StrangerInside(spec: ProxySpec, w: World, q: Request)
    requires !InSourceSet(spec, PEER_SET, q.src)
    ensures Judge(spec, w, SPLIT_SERVICE, InternalDoor, q) == Some(Rejected)
    ensures OthersPass(w, SPLIT_SERVICE, ExternalDoor, q) && AccessGranted(spec, SPLIT_SERVICE, ExternalDoor, q)
  {
    SplitServiceDoors();
    assert FilterRefusal(w, SPLIT_SERVICE, InternalDoor, q, 0) == None;
    assert AccessGranted(spec, SPLIT_SERVICE, InternalDoor, q);
  }
}
