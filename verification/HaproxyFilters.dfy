/**
 The emitted filter and access rules, run: they stop a request exactly when some filter, as it is
 enforced, does not pass or the access rules do not grant it, and for the reason the policy gives.
 Enforced as it is meant is every filter but the rate limits: those of an HTTP service all go by
 the one counter of the service, those of a passthrough service by none.
 */
module HaproxyFilters {
  import opened Wrappers
  import opened HaproxyModel
  import opened HaproxyProgram
  import opened HaproxyGenerator
  import opened HaproxyPolicy
  import opened HaproxyFiles
  import opened HaproxyValidation

  // ----- the guard of a service -----

  /** Every guard term is an access list that names the host of the request. */
  ghost predicate Open(acls: seq<Acl>, q: Request, guard: seq<Term>) {
    forall t :: t in guard ==>
      !t.negated && t.atom.NamedAcl? && exists a :: a in acls && a.name == t.atom.name && a.host == q.host
  }

  lemma GuardDrops(w: World, acls: seq<Acl>, q: Request, st: State, guard: seq<Term>, cond: seq<Term>)
    requires Open(acls, q, guard)
    ensures CondHolds(w, acls, q, st, guard)
    ensures CondHolds(w, acls, q, st, guard + cond) <==> CondHolds(w, acls, q, st, cond)
  {
    CondConcat(w, acls, q, st, guard, cond);
  }

  /** A guarded refusal under one more term. */
  lemma RefusesWhen(w: World, acls: seq<Acl>, q: Request, st: State, guard: seq<Term>, reason: Reason, t: Term)
    requires Open(acls, q, guard)
    ensures Run(w, acls, q, [Rule(Stop(reason), guard + [t])], st)
         == if TermHolds(w, acls, q, st, t) then Stopped(reason) else Passed(st)
  {
    GuardDrops(w, acls, q, st, guard, [t]);
    CondOne(w, acls, q, st, t);
    RunOne(w, acls, q, Rule(Stop(reason), guard + [t]), st);
  }

  function RefusalReason(s: Service): Reason {
    if s.kind.Http? then Denied else Rejected
  }

  // ----- filters -----

  /** Every rate limit of a service asks its one stick table; on a passthrough service it writes no rule at all. */
  ghost predicate LimitHolds(w: World, s: Service, f: Filter) {
    s.kind.Http? && f.rate.Some? && f.period.Some? ==> Shown(w, TableName(s.slug)) <= f.rate.value
  }

  ghost predicate EnforcedPasses(w: World, s: Service, f: Filter, q: Request) {
    if f.kind.RateLimit? then LimitHolds(w, s, f) else FilterPasses(w, s, f, q)
  }

  /** The filters of the door other than its rate limits all pass. */
  ghost predicate OthersPass(w: World, s: Service, d: Door, q: Request) {
    forall f :: f in s.filters && f.scope.Covers(d) && !f.kind.RateLimit? ==> FilterPasses(w, s, f, q)
  }

  /** The reason of the first filter, in the order listed, that does not pass as it is enforced. */
  ghost function EnforcedRefusal(w: World, s: Service, d: Door, q: Request, index: nat): Option<Reason>
    decreases |s.filters| - index
  {
    if index >= |s.filters| then None
    else if s.filters[index].scope.Covers(d) && !EnforcedPasses(w, s, s.filters[index], q)
    then Some(FilterReason(s, s.filters[index]))
    else EnforcedRefusal(w, s, d, q, index + 1)
  }

  lemma {:induction false} EnforcedRefusalMeans(w: World, s: Service, d: Door, q: Request, index: nat)
    ensures EnforcedRefusal(w, s, d, q, index) == None
       <==> forall i :: index <= i < |s.filters| && s.filters[i].scope.Covers(d) ==> EnforcedPasses(w, s, s.filters[i], q)
    decreases |s.filters| - index
  {
    if index < |s.filters| {
      EnforcedRefusalMeans(w, s, d, q, index + 1);
    }
  }

  /** Only the request counter may have been started, on the table of this service. */
  predicate OnlyTracked(s: Service, st: State, st': State) {
    && st'.vars == st.vars && st'.headers == st.headers
    && (st'.tracked == st.tracked || st'.tracked == Some(TableName(s.slug)))
  }

  predicate CounterFree(s: Service, st: State) {
    st.tracked == None || st.tracked == Some(TableName(s.slug))
  }

  ghost predicate EndsAs(s: Service, st: State, refusal: Option<Reason>, o: Outcome) {
    match refusal
    case Some(r) => o == Stopped(r)
    case None => o.Passed? && OnlyTracked(s, st, o.state)
  }

  lemma OneFilterRuns(w: World, acls: seq<Acl>, q: Request, s: Service, i: nat, guard: seq<Term>, st: State)
    requires i < |s.filters| && FilterOk(s.filters[i]) && ServiceResolves(s, w.files)
    requires Open(acls, q, guard) && CounterFree(s, st)
    ensures var f := s.filters[i];
            EndsAs(s, st, if EnforcedPasses(w, s, f, q) then None else Some(FilterReason(s, f)),
                   Run(w, acls, q, FilterRules(s, i, f, guard), st))
  {
    var f := s.filters[i];
    var file := FilterFile(s.slug, i);
    match f.kind
    case IpDeny =>
      AddressFileMeans(w, file, f.networks, q.src);
      RefusesWhen(w, acls, q, st, guard, RefusalReason(s), Yes(SrcInFile(file)));
    case IpAllow =>
      AddressFileMeans(w, file, f.networks, q.src);
      RefusesWhen(w, acls, q, st, guard, RefusalReason(s), No(SrcInFile(file)));
    case GeoDeny => RefusesWhen(w, acls, q, st, guard, RefusalReason(s), Yes(CountryIn(f.countries)));
    case GeoAllow => RefusesWhen(w, acls, q, st, guard, RefusalReason(s), No(CountryIn(f.countries)));
    case RateLimit => if s.kind.Http? { RateLimitRuns(w, acls, q, s, f, i, guard, st); }
    case _ =>
  }

  lemma RateLimitRuns(w: World, acls: seq<Acl>, q: Request, s: Service, f: Filter, i: nat, guard: seq<Term>, st: State)
    requires f.kind.RateLimit? && f.rate.Some? && f.period.Some? && s.kind.Http?
    requires Open(acls, q, guard) && CounterFree(s, st)
    ensures EndsAs(s, st, if LimitHolds(w, s, f) then None else Some(FilterReason(s, f)),
                   Run(w, acls, q, FilterRules(s, i, f, guard), st))
  {
    var first := Rule(Track(TableName(s.slug)), guard);
    var second := Rule(Stop(TooManyRequests(f.period.value)), guard + [Yes(RateAbove(f.rate.value))]);
    assert FilterRules(s, i, f, guard) == [first] + [second];
    RunConcat(w, acls, q, [first], [second], st);
    RunOne(w, acls, q, first, st);
    GuardDrops(w, acls, q, st, guard, []);
    var counted := Effect(w, q, st, first.action);
    assert counted.tracked == Some(TableName(s.slug));
    RefusesWhen(w, acls, q, counted, guard, TooManyRequests(f.period.value), Yes(RateAbove(f.rate.value)));
  }

  /** All filters pass as they are enforced, or the first that does not gives the reason. */
  lemma {:induction false} FiltersRun(w: World, acls: seq<Acl>, q: Request, s: Service, d: Door, i: nat, guard: seq<Term>, st: State)
    requires forall f :: f in s.filters ==> FilterOk(f)
    requires ServiceResolves(s, w.files) && Open(acls, q, guard) && CounterFree(s, st)
    ensures EndsAs(s, st, EnforcedRefusal(w, s, d, q, i), Run(w, acls, q, FiltersFrom(s, d, i, guard), st))
    decreases |s.filters| - i
  {
    if i < |s.filters| {
      var f := s.filters[i];
      assert f in s.filters;
      var rest := FiltersFrom(s, d, i + 1, guard);
      if f.scope.Covers(d) {
        var here := FilterRules(s, i, f, guard);
        RunConcat(w, acls, q, here, rest, st);
        OneFilterRuns(w, acls, q, s, i, guard, st);
        if Run(w, acls, q, here, st).Passed? {
          FiltersRun(w, acls, q, s, d, i + 1, guard, Run(w, acls, q, here, st).state);
        }
      } else {
        assert FiltersFrom(s, d, i, guard) == rest;
        FiltersRun(w, acls, q, s, d, i + 1, guard, st);
      }
    }
  }

  // ----- access rules -----

  ghost predicate SourcesMean(spec: ProxySpec, w: World, acls: seq<Acl>, q: Request, rules: seq<AccessRule>) {
    forall r, st :: r in rules ==> SourceMeans(spec, w, acls, q, r, st)
  }

  ghost predicate SourceMeans(spec: ProxySpec, w: World, acls: seq<Acl>, q: Request, r: AccessRule, st: State) {
    match SourceTerm(r)
    case None => SourceMatches(spec, r, q.src)
    case Some(t) => SourceMatches(spec, r, q.src) <==> AtomHolds(w, acls, q, st, t)
  }

  lemma SourceIsSound(spec: ProxySpec, w: World, acls: seq<Acl>, q: Request, r: AccessRule, st: State)
    requires UniqueNames(spec) && Resolves(spec, w.files) && AccessOk(spec, r)
    requires exists x :: x in spec.sourceSets && x.name == PEER_SET
    ensures SourceMeans(spec, w, acls, q, r, st)
  {
    match r.source
    case FromSet(name) => SetFileMeans(spec, w, name.value, q.src);
    case _ =>
  }

  lemma {:induction false} DenyRulesRun(spec: ProxySpec, w: World, acls: seq<Acl>, q: Request, s: Service,
                                        rules: seq<AccessRule>, guard: seq<Term>, st: State)
    requires SourcesMean(spec, w, acls, q, rules) && Open(acls, q, guard)
    ensures Run(w, acls, q, DenyRules(s, rules, guard), st)
         == if exists r :: r in rules && r.action.Deny? && SourceMatches(spec, r, q.src)
            then Stopped(RefusalReason(s)) else Passed(st)
  {
    if rules != [] {
      var r, rest := rules[0], rules[1..];
      assert rules == [r] + rest;
      assert SourceMeans(spec, w, acls, q, r, st);
      DenyRulesRun(spec, w, acls, q, s, rest, guard, st);
      if r.action.Deny? {
        var t := SourceTerm(r);
        var here := Rule(Refuse(s), guard + (if t.Some? then [Yes(t.value)] else []));
        RunConcat(w, acls, q, [here], DenyRules(s, rest, guard), st);
        if t.Some? {
          RefusesWhen(w, acls, q, st, guard, RefusalReason(s), Yes(t.value));
        } else {
          GuardDrops(w, acls, q, st, guard, []);
          RunOne(w, acls, q, here, st);
        }
      } else {
        assert DenyRules(s, rules, guard) == DenyRules(s, rest, guard);
      }
    }
  }

  lemma NoneOfMeans(spec: ProxySpec, w: World, acls: seq<Acl>, q: Request, rules: seq<AccessRule>, st: State)
    requires SourcesMean(spec, w, acls, q, rules) && AllConditional(rules)
    ensures CondHolds(w, acls, q, st, NoneOf(rules)) <==> !exists r :: r in rules && SourceMatches(spec, r, q.src)
  {
    var terms := NoneOf(rules);
    forall r | r in rules
      ensures No(SourceTerm(r).value) in terms
      ensures SourceMatches(spec, r, q.src) <==> !TermHolds(w, acls, q, st, No(SourceTerm(r).value))
    {
      var i :| 0 <= i < |rules| && rules[i] == r;
      assert terms[i] == No(SourceTerm(r).value);
      assert SourceMeans(spec, w, acls, q, r, st);
    }
  }

  /** The catch-all refusal: none of the allow rules matched, and none of them is for anyone. */
  lemma AllowRulesRun(spec: ProxySpec, w: World, acls: seq<Acl>, q: Request, s: Service,
                      rules: seq<AccessRule>, guard: seq<Term>, st: State)
    requires SourcesMean(spec, w, acls, q, rules) && Open(acls, q, guard)
    ensures Run(w, acls, q, AllowRules(s, rules, guard), st)
         == if (exists r :: r in rules && r.action.Allow?)
               && !(exists r :: r in rules && r.action.Allow? && SourceMatches(spec, r, q.src))
            then Stopped(RefusalReason(s)) else Passed(st)
  {
    var allows := Allows(rules);
    if allows == [] {
      assert forall r :: r in allows <==> r in rules && r.action.Allow?;
    } else {
      assert allows[0] in rules && allows[0].action.Allow?;
      if AllConditional(allows) {
        NoneOfMeans(spec, w, acls, q, allows, st);
        GuardDrops(w, acls, q, st, guard, NoneOf(allows));
        RunOne(w, acls, q, Rule(Refuse(s), guard + NoneOf(allows)), st);
      } else {
        var r :| r in allows && SourceTerm(r).None?;
        assert SourceMeans(spec, w, acls, q, r, st);
      }
    }
  }

  /** Filters and access rules of one door together. */
  ghost function EntryRefusal(spec: ProxySpec, w: World, s: Service, d: Door, q: Request): Option<Reason> {
    if EnforcedRefusal(w, s, d, q, 0).Some? then EnforcedRefusal(w, s, d, q, 0)
    else if !AccessGranted(spec, s, d, q) then Some(RefusalReason(s))
    else None
  }

  function EntryRules(s: Service, d: Door, guard: seq<Term>): seq<Rule> {
    FiltersFrom(s, d, 0, guard) + DenyRules(s, s.AccessFor(d), guard) + AllowRules(s, s.AccessFor(d), guard)
  }

  lemma SourcesAreSound(spec: ProxySpec, w: World, acls: seq<Acl>, q: Request, s: Service, d: Door)
    requires UniqueNames(spec) && Resolves(spec, w.files) && PolicyOk(spec, s)
    requires exists x :: x in spec.sourceSets && x.name == PEER_SET
    ensures SourcesMean(spec, w, acls, q, s.AccessFor(d))
  {
    forall r, x | r in s.AccessFor(d)
      ensures SourceMeans(spec, w, acls, q, r, x)
    {
      assert r in s.access;
      SourceIsSound(spec, w, acls, q, r, x);
    }
  }

  /** The rules emitted for a door are those in force on it. */
  lemma EmittedInForce(s: Service, d: Door, r: AccessRule)
    ensures r in s.AccessFor(d) <==> InForce(s, r, d)
  {
  }

  /** The access rules alone: they refuse exactly what is not granted, and change nothing. */
  lemma AccessRun(spec: ProxySpec, w: World, acls: seq<Acl>, q: Request, s: Service, d: Door, guard: seq<Term>, st: State)
    requires SourcesMean(spec, w, acls, q, s.AccessFor(d)) && Open(acls, q, guard)
    ensures Run(w, acls, q, DenyRules(s, s.AccessFor(d), guard) + AllowRules(s, s.AccessFor(d), guard), st)
         == if AccessGranted(spec, s, d, q) then Passed(st) else Stopped(RefusalReason(s))
  {
    var rules := s.AccessFor(d);
    RunConcat(w, acls, q, DenyRules(s, rules, guard), AllowRules(s, rules, guard), st);
    DenyRulesRun(spec, w, acls, q, s, rules, guard, st);
    AllowRulesRun(spec, w, acls, q, s, rules, guard, st);
    forall r
      ensures r in rules <==> InForce(s, r, d)
    {
      EmittedInForce(s, d, r);
    }
  }

  lemma EntryRun(spec: ProxySpec, w: World, acls: seq<Acl>, q: Request, s: Service, d: Door, guard: seq<Term>, st: State)
    requires UniqueNames(spec) && Resolves(spec, w.files) && s in spec.services && PolicyOk(spec, s)
    requires exists x :: x in spec.sourceSets && x.name == PEER_SET
    requires Open(acls, q, guard) && CounterFree(s, st)
    ensures EndsAs(s, st, EntryRefusal(spec, w, s, d, q), Run(w, acls, q, EntryRules(s, d, guard), st))
  {
    var filters, denies, allows := FiltersFrom(s, d, 0, guard), DenyRules(s, s.AccessFor(d), guard), AllowRules(s, s.AccessFor(d), guard);
    assert EntryRules(s, d, guard) == filters + (denies + allows);
    RunConcat(w, acls, q, filters, denies + allows, st);
    FiltersRun(w, acls, q, s, d, 0, guard, st);
    if EnforcedRefusal(w, s, d, q, 0).None? {
      SourcesAreSound(spec, w, acls, q, s, d);
      AccessRun(spec, w, acls, q, s, d, guard, Run(w, acls, q, filters, st).state);
    }
  }
}
