/**
 Rate limits of an HTTP service: each is meant over its own period, and all of them are emitted
 over the period of the first. Exactly when that makes no difference.
 */
module HaproxyRates {
  import opened Wrappers
  import opened Net
  import opened Grammar
  import opened HaproxyModel
  import opened HaproxyProgram
  import opened HaproxyGenerator
  import opened HaproxyPolicy
  import opened HaproxyFiles
  import opened HaproxyValidation
  import opened HaproxyFilters
  import opened HaproxySignOn
  import opened HaproxyCorrectness

  /** A longer look back counts no fewer requests. */
  ghost predicate Growing(count: Count) {
    forall t, p, q :: p <= q ==> count(t, p) <= count(t, q)
  }

  // ----- the declared tables -----

  /** The table of the service is declared, over the period of its first limit. */
  ghost predicate TableDeclared(tables: map<string, int>, s: Service) {
    CounterPeriod(s.filters).Some? ==> TableName(s.slug) in tables && tables[TableName(s.slug)] == CounterPeriod(s.filters).value
  }

  lemma TableNameInjective(a: string, b: string)
    requires TableName(a) == TableName(b)
    ensures a == b
  {
    assert TableName(a)[3..] == a && TableName(b)[3..] == b;
  }

  /** Every service finds the table that was declared for it. */
  lemma {:induction false} TablesMean(services: seq<Service>, s: Service)
    requires forall i, j :: 0 <= i < j < |services| ==> services[i].slug != services[j].slug
    requires s in services
    ensures TableDeclared(TablesOf(services), s)
  {
    var first, rest := services[0], services[1..];
    if s != first {
      assert services == [first] + rest;
      var k :| 0 <= k < |rest| && rest[k] == s;
      assert services[k + 1] == s;
      TablesMean(rest, s);
      if TableName(s.slug) == TableName(first.slug) {
        TableNameInjective(s.slug, first.slug);
      }
    }
  }

  // ----- limits over their own period, and over that of the first -----

  predicate IsLimit(s: Service, d: Door, i: nat) {
    && i < |s.filters| && s.filters[i].kind.RateLimit? && s.filters[i].scope.Covers(d)
    && s.filters[i].rate.Some? && s.filters[i].period.Some?
  }

  function Rate(s: Service, d: Door, i: nat): int
    requires IsLimit(s, d, i)
  {
    s.filters[i].rate.value
  }

  function Period(s: Service, d: Door, i: nat): int
    requires IsLimit(s, d, i)
  {
    s.filters[i].period.value
  }

  function TablePeriod(s: Service): int {
    if CounterPeriod(s.filters).Some? then CounterPeriod(s.filters).value else 0
  }

  /** The limit is exceeded, as it is meant. */
  ghost predicate OverOwn(s: Service, d: Door, count: Count, i: nat) {
    IsLimit(s, d, i) && count(TableName(s.slug), Period(s, d, i)) > Rate(s, d, i)
  }

  /** The limit is exceeded, by what the table shows. */
  ghost predicate OverShown(s: Service, d: Door, count: Count, i: nat) {
    IsLimit(s, d, i) && count(TableName(s.slug), TablePeriod(s)) > Rate(s, d, i)
  }

  /** Limit `j` has the period of the table and asks at least what `i` asks. */
  predicate Backs(s: Service, d: Door, j: nat, i: nat)
    requires IsLimit(s, d, i)
  {
    IsLimit(s, d, j) && Period(s, d, j) == TablePeriod(s) && Rate(s, d, j) <= Rate(s, d, i)
  }

  /** The limit's period is no longer than the table's, and some limit of the table's period backs it. */
  ghost predicate Backed(s: Service, d: Door, i: nat) {
    IsLimit(s, d, i) ==> Period(s, d, i) <= TablePeriod(s) && exists j :: Backs(s, d, j, i)
  }

  /** The same, by a limit that comes no later. */
  ghost predicate BackedInTime(s: Service, d: Door, i: nat) {
    IsLimit(s, d, i) ==> Period(s, d, i) <= TablePeriod(s) && exists j: nat :: j <= i && Backs(s, d, j, i)
  }

  ghost predicate LimitsAgree(s: Service, d: Door) { forall i :: Backed(s, d, i) }

  ghost predicate LimitsInOrder(s: Service, d: Door) { forall i :: BackedInTime(s, d, i) }

  ghost predicate SomeOwn(s: Service, d: Door, count: Count) { exists i :: OverOwn(s, d, count, i) }

  ghost predicate SomeShown(s: Service, d: Door, count: Count) { exists i :: OverShown(s, d, count, i) }

  /** Nothing before `i` is exceeded, either way. */
  ghost predicate Clear(s: Service, d: Door, count: Count, i: nat) {
    forall j: nat :: j < i ==> !OverOwn(s, d, count, j) && !OverShown(s, d, count, j)
  }

  /** The first limit exceeded is the same, either way. */
  ghost predicate SameFirst(s: Service, d: Door, count: Count) {
    forall i :: Clear(s, d, count, i) ==> (OverOwn(s, d, count, i) <==> OverShown(s, d, count, i))
  }

  lemma AgreeSuffices(s: Service, d: Door, count: Count)
    requires Growing(count) && LimitsAgree(s, d)
    ensures SomeOwn(s, d, count) <==> SomeShown(s, d, count)
  {
    if i :| OverShown(s, d, count, i) {
      assert Backed(s, d, i);
      var j :| Backs(s, d, j, i);
      assert OverOwn(s, d, count, j);
    }
    if i :| OverOwn(s, d, count, i) {
      assert Backed(s, d, i);
      assert OverShown(s, d, count, i);
    }
  }

  lemma InOrderSuffices(s: Service, d: Door, count: Count)
    requires Growing(count) && LimitsInOrder(s, d)
    ensures SameFirst(s, d, count)
  {
    forall i | Clear(s, d, count, i)
      ensures OverOwn(s, d, count, i) <==> OverShown(s, d, count, i)
    {
      assert BackedInTime(s, d, i);
      if OverShown(s, d, count, i) {
        var j: nat :| j <= i && Backs(s, d, j, i);
        assert OverOwn(s, d, count, j);
      }
    }
  }

  ghost predicate NonNegative(s: Service, d: Door) {
    forall i :: IsLimit(s, d, i) ==> Rate(s, d, i) >= 0
  }

  /** A burst of `n` requests, all of them more than so many seconds ago. */
  function Before(seconds: int, n: nat): Count {
    (t: string, p: int) => if p <= seconds then 0 else n
  }

  /** A burst no older than so many seconds. */
  function Within(seconds: int, n: nat): Count {
    (t: string, p: int) => if p < seconds then 0 else n
  }

  /** A limit over a longer period: exceeded by a burst the table no longer shows. */
  lemma LongerIsMissed(s: Service, d: Door, i: nat)
    requires NonNegative(s, d) && IsLimit(s, d, i) && Period(s, d, i) > TablePeriod(s)
    ensures var count := Before(TablePeriod(s), Rate(s, d, i) + 1);
            Growing(count) && OverOwn(s, d, count, i) && !SomeShown(s, d, count)
  {
  }

  /** A limit over a shorter period that nothing backs: a burst that is over for it still shows. */
  lemma ShorterIsKept(s: Service, d: Door, i: nat)
    requires NonNegative(s, d) && IsLimit(s, d, i)
    requires forall k :: IsLimit(s, d, k) ==> Period(s, d, k) <= TablePeriod(s)
    ensures var count := Within(TablePeriod(s), Rate(s, d, i) + 1);
            && Growing(count) && OverShown(s, d, count, i)
            && forall k :: OverOwn(s, d, count, k) ==> Period(s, d, k) == TablePeriod(s) && Backs(s, d, k, i)
  {
  }

  lemma AgreeNeeded(s: Service, d: Door) returns (count: Count)
    requires NonNegative(s, d) && !LimitsAgree(s, d)
    ensures Growing(count) && !(SomeOwn(s, d, count) <==> SomeShown(s, d, count))
  {
    if i :| IsLimit(s, d, i) && Period(s, d, i) > TablePeriod(s) {
      LongerIsMissed(s, d, i);
      count := Before(TablePeriod(s), Rate(s, d, i) + 1);
    } else {
      var i :| !Backed(s, d, i);
      ShorterIsKept(s, d, i);
      count := Within(TablePeriod(s), Rate(s, d, i) + 1);
    }
  }

  /** Of a limit that is exceeded one way or the other there is a first. */
  lemma {:induction false} FirstOver(s: Service, d: Door, count: Count, i: nat) returns (k: nat)
    requires OverOwn(s, d, count, i) || OverShown(s, d, count, i)
    ensures k <= i && Clear(s, d, count, k) && (OverOwn(s, d, count, k) || OverShown(s, d, count, k))
  {
    if Clear(s, d, count, i) {
      k := i;
    } else {
      var j: nat :| j < i && (OverOwn(s, d, count, j) || OverShown(s, d, count, j));
      k := FirstOver(s, d, count, j);
    }
  }

  /** Two ways for the verdicts to differ: only the policy refuses, or both do at limits of different periods. */
  ghost predicate Parts(s: Service, d: Door, count: Count, k: nat) {
    || (OverOwn(s, d, count, k) && !SomeShown(s, d, count))
    || (OverShown(s, d, count, k) && Clear(s, d, count, k)
        && forall m :: OverOwn(s, d, count, m) ==> Period(s, d, m) != Period(s, d, k))
  }

  lemma InOrderNeeded(s: Service, d: Door) returns (count: Count, k: nat)
    requires NonNegative(s, d) && !LimitsInOrder(s, d)
    ensures Growing(count) && Parts(s, d, count, k)
  {
    if i :| IsLimit(s, d, i) && Period(s, d, i) > TablePeriod(s) {
      LongerIsMissed(s, d, i);
      count, k := Before(TablePeriod(s), Rate(s, d, i) + 1), i;
    } else {
      var i :| !BackedInTime(s, d, i);
      ShorterIsKept(s, d, i);
      count := Within(TablePeriod(s), Rate(s, d, i) + 1);
      k := FirstOver(s, d, count, i);
      assert !OverOwn(s, d, count, k);
      assert Period(s, d, k) != TablePeriod(s);
    }
  }

  /** One limit, or several of one period, are in order. */
  lemma OnePeriodInOrder(s: Service, d: Door)
    requires forall i :: IsLimit(s, d, i) ==> Period(s, d, i) == TablePeriod(s)
    ensures LimitsInOrder(s, d) && LimitsAgree(s, d)
  {
    forall i
      ensures BackedInTime(s, d, i) && Backed(s, d, i)
    {
      assert IsLimit(s, d, i) ==> Backs(s, d, i, i);
    }
  }

  // ----- the filters of a door -----

  ghost predicate LimitsWhole(s: Service) {
    forall f :: f in s.filters && f.kind.RateLimit? ==> f.rate.Some? && f.period.Some?
  }

  lemma {:induction false} CounterDeclared(filters: seq<Filter>, f: Filter)
    requires f in filters && f.kind.RateLimit?
    requires forall g :: g in filters && g.kind.RateLimit? ==> g.period.Some?
    ensures CounterPeriod(filters).Some?
  {
    if !filters[0].kind.RateLimit? {
      CounterDeclared(filters[1..], f);
    } else {
      assert filters[0] in filters;
    }
  }

  /** A filter of the door as it is meant and as it is enforced, by what is exceeded. */
  lemma FilterByLimits(w: World, s: Service, d: Door, q: Request, i: nat)
    requires s.kind.Http? && LimitsWhole(s) && TableDeclared(w.tables, s) && i < |s.filters| && s.filters[i].scope.Covers(d)
    ensures s.filters[i].kind.RateLimit? ==>
      && (FilterPasses(w, s, s.filters[i], q) <==> !OverOwn(s, d, w.count, i))
      && (EnforcedPasses(w, s, s.filters[i], q) <==> !OverShown(s, d, w.count, i))
    ensures !s.filters[i].kind.RateLimit? ==>
      && (FilterPasses(w, s, s.filters[i], q) <==> EnforcedPasses(w, s, s.filters[i], q))
      && !OverOwn(s, d, w.count, i) && !OverShown(s, d, w.count, i)
  {
    assert s.filters[i] in s.filters;
    if s.filters[i].kind.RateLimit? {
      CounterDeclared(s.filters, s.filters[i]);
    }
  }

  /** Where the first limit exceeded is the same, so is the refusal. */
  lemma {:induction false} SameRefusal(w: World, s: Service, d: Door, q: Request, i: nat)
    requires s.kind.Http? && LimitsWhole(s) && TableDeclared(w.tables, s)
    requires SameFirst(s, d, w.count) && Clear(s, d, w.count, i)
    ensures FilterRefusal(w, s, d, q, i) == EnforcedRefusal(w, s, d, q, i)
    decreases |s.filters| - i
  {
    if i < |s.filters| {
      if s.filters[i].scope.Covers(d) {
        FilterByLimits(w, s, d, q, i);
      }
      if !OverOwn(s, d, w.count, i) {
        SameRefusal(w, s, d, q, i + 1);
      }
    }
  }

  /** Where some limit is exceeded both ways or neither, both refuse or neither. */
  lemma SamePassing(w: World, s: Service, d: Door, q: Request)
    requires s.kind.Http? && LimitsWhole(s) && TableDeclared(w.tables, s)
    requires SomeOwn(s, d, w.count) <==> SomeShown(s, d, w.count)
    ensures FilterRefusal(w, s, d, q, 0) == None <==> EnforcedRefusal(w, s, d, q, 0) == None
  {
    FilterRefusalMeans(w, s, d, q, 0);
    EnforcedRefusalMeans(w, s, d, q, 0);
    forall i | 0 <= i < |s.filters| && s.filters[i].scope.Covers(d)
      ensures s.filters[i].kind.RateLimit? ==>
        && (FilterPasses(w, s, s.filters[i], q) <==> !OverOwn(s, d, w.count, i))
        && (EnforcedPasses(w, s, s.filters[i], q) <==> !OverShown(s, d, w.count, i))
      ensures !s.filters[i].kind.RateLimit? ==> (FilterPasses(w, s, s.filters[i], q) <==> EnforcedPasses(w, s, s.filters[i], q))
    {
      FilterByLimits(w, s, d, q, i);
    }
  }

  /** Then the policy refuses exactly at an exceeded limit. */
  lemma {:induction false} OwnRefusal(w: World, s: Service, d: Door, q: Request, i: nat)
    requires s.kind.Http? && LimitsWhole(s) && TableDeclared(w.tables, s) && OthersPass(w, s, d, q)
    ensures FilterRefusal(w, s, d, q, i) == None <==> forall m: nat :: i <= m ==> !OverOwn(s, d, w.count, m)
    ensures FilterRefusal(w, s, d, q, i).Some? ==>
      exists m: nat :: OverOwn(s, d, w.count, m) && FilterRefusal(w, s, d, q, i) == Some(TooManyRequests(Period(s, d, m)))
    decreases |s.filters| - i
  {
    if i < |s.filters| {
      OwnRefusal(w, s, d, q, i + 1);
      if s.filters[i].scope.Covers(d) {
        FilterByLimits(w, s, d, q, i);
        assert s.filters[i] in s.filters;
      }
    }
  }

  lemma {:induction false} ShownRefusal(w: World, s: Service, d: Door, q: Request, i: nat)
    requires s.kind.Http? && LimitsWhole(s) && TableDeclared(w.tables, s) && OthersPass(w, s, d, q)
    ensures EnforcedRefusal(w, s, d, q, i) == None <==> forall m: nat :: i <= m ==> !OverShown(s, d, w.count, m)
    decreases |s.filters| - i
  {
    if i < |s.filters| {
      ShownRefusal(w, s, d, q, i + 1);
      if s.filters[i].scope.Covers(d) {
        FilterByLimits(w, s, d, q, i);
        assert s.filters[i] in s.filters;
      }
    }
  }

  /** And what is emitted refuses at the first limit the table shows exceeded. */
  lemma {:induction false} ShownRefusalAt(w: World, s: Service, d: Door, q: Request, i: nat, k: nat)
    requires s.kind.Http? && LimitsWhole(s) && TableDeclared(w.tables, s) && OthersPass(w, s, d, q)
    requires i <= k && OverShown(s, d, w.count, k) && Clear(s, d, w.count, k)
    ensures EnforcedRefusal(w, s, d, q, i) == Some(TooManyRequests(Period(s, d, k)))
    decreases k - i
  {
    if s.filters[i].scope.Covers(d) {
      FilterByLimits(w, s, d, q, i);
      assert s.filters[i] in s.filters;
    }
    if i < k {
      ShownRefusalAt(w, s, d, q, i + 1, k);
    }
  }

  // ----- one HTTP door -----

  lemma PolicyLimitsWhole(spec: ProxySpec, s: Service)
    requires PolicyOk(spec, s)
    ensures LimitsWhole(s)
  {
  }

  /** Let in, as it is meant and as it is emitted. */
  ghost predicate LetIn(spec: ProxySpec, w: World, s: Service, d: Door, q: Request) {
    Judge(spec, w, s, d, q) == None && JudgeAsEmitted(spec, w, s, d, q) == None
  }

  /** Whatever was requested before, the emitted rules let the request in exactly when it is meant to be. */
  ghost predicate KeepsPassing(spec: ProxySpec, w: World, acls: seq<Acl>, q: Request, s: Service, d: Door, guard: seq<Term>, st: State) {
    forall count :: Growing(count) ==>
      (Run(w.(count := count), acls, q, ServiceRules(spec, s, d, guard), st).Passed? <==> Judge(spec, w.(count := count), s, d, q) == None)
  }

  /** And refuse it for the reason meant. */
  ghost predicate KeepsVerdicts(spec: ProxySpec, w: World, acls: seq<Acl>, q: Request, s: Service, d: Door, guard: seq<Term>, st: State) {
    forall count :: Growing(count) ==>
      Verdict(Judge(spec, w.(count := count), s, d, q), Run(w.(count := count), acls, q, ServiceRules(spec, s, d, guard), st))
  }

  /** A request that is let in at some moment depends on nothing but its rate limits at any other. */
  lemma OnlyLimitsDecide(spec: ProxySpec, w: World, s: Service, d: Door, q: Request, count: Count)
    requires s.kind.Http? && LimitsWhole(s) && TableDeclared(w.tables, s) && LetIn(spec, w, s, d, q)
    ensures var v := w.(count := count);
      && OthersPass(v, s, d, q)
      && Judge(spec, v, s, d, q) == FilterRefusal(v, s, d, q, 0)
      && JudgeAsEmitted(spec, v, s, d, q) == EnforcedRefusal(v, s, d, q, 0)
      && (Judge(spec, v, s, d, q) == None <==> !SomeOwn(s, d, count))
      && (JudgeAsEmitted(spec, v, s, d, q) == None <==> !SomeShown(s, d, count))
  {
    var v := w.(count := count);
    JudgePasses(spec, w, s, d, q);
    assert OthersPass(w, s, d, q);
    forall f | f in s.filters && f.scope.Covers(d) && !f.kind.RateLimit?
      ensures FilterPasses(v, s, f, q)
    {
      assert FilterPasses(w, s, f, q);
    }
    OwnRefusal(v, s, d, q, 0);
    ShownRefusal(v, s, d, q, 0);
  }

  lemma LetInNonNegative(spec: ProxySpec, w: World, s: Service, d: Door, q: Request)
    requires s.kind.Http? && LimitsWhole(s) && TableDeclared(w.tables, s) && LetIn(spec, w, s, d, q)
    ensures NonNegative(s, d)
  {
    OnlyLimitsDecide(spec, w, s, d, q, w.count);
    forall i | IsLimit(s, d, i)
      ensures Rate(s, d, i) >= 0
    {
      assert !OverOwn(s, d, w.count, i);
    }
  }

  /** The verdicts part where `Parts` says. */
  lemma PartedVerdicts(spec: ProxySpec, w: World, s: Service, d: Door, q: Request, count: Count, k: nat)
    requires s.kind.Http? && LimitsWhole(s) && TableDeclared(w.tables, s) && LetIn(spec, w, s, d, q) && Parts(s, d, count, k)
    ensures Judge(spec, w.(count := count), s, d, q) != JudgeAsEmitted(spec, w.(count := count), s, d, q)
  {
    var v := w.(count := count);
    OnlyLimitsDecide(spec, w, s, d, q, count);
    if OverShown(s, d, count, k) && Clear(s, d, count, k) {
      ShownRefusalAt(v, s, d, q, 0, k);
      OwnRefusal(v, s, d, q, 0);
    }
  }

  /** The verdict of the rules settles the refusal they were judged by. */
  lemma VerdictIsOne(a: Option<Reason>, b: Option<Reason>, o: Outcome)
    requires Verdict(a, o)
    ensures Verdict(b, o) <==> a == b
    ensures o.Passed? <==> a == None
  {
  }

  /** On a door that lets some request in, the limits make no difference to who passes, and none to the answer, exactly under these conditions. */
  lemma LimitsExactly(spec: ProxySpec, w: World, acls: seq<Acl>, q: Request, s: Service, d: Door, guard: seq<Term>, st: State)
    requires UniqueNames(spec) && Resolves(spec, w.files) && HasPeerSet(spec) && Open(acls, q, guard)
    requires s in spec.services && s.kind.Http? && PolicyOk(spec, s) && s.exposure.Has(d)
    requires Untouched(st) && CounterFree(s, st)
    requires TableDeclared(w.tables, s) && LetIn(spec, w, s, d, q)
    ensures KeepsPassing(spec, w, acls, q, s, d, guard, st) <==> LimitsAgree(s, d)
    ensures KeepsVerdicts(spec, w, acls, q, s, d, guard, st) <==> LimitsInOrder(s, d)
  {
    PolicyLimitsWhole(spec, s);
    LetInNonNegative(spec, w, s, d, q);
    forall count
      ensures var v := w.(count := count); var o := Run(v, acls, q, ServiceRules(spec, s, d, guard), st);
        && (o.Passed? <==> !SomeShown(s, d, count))
        && (Judge(spec, v, s, d, q) == None <==> !SomeOwn(s, d, count))
        && (Verdict(Judge(spec, v, s, d, q), o) <==> Judge(spec, v, s, d, q) == JudgeAsEmitted(spec, v, s, d, q))
    {
      RunAtCount(spec, w, acls, q, s, d, guard, st, count);
    }
    PassingExactly(spec, w, acls, q, s, d, guard, st);
    VerdictsExactly(spec, w, acls, q, s, d, guard, st);
  }

  lemma RunAtCount(spec: ProxySpec, w: World, acls: seq<Acl>, q: Request, s: Service, d: Door, guard: seq<Term>, st: State, count: Count)
    requires UniqueNames(spec) && Resolves(spec, w.files) && HasPeerSet(spec) && Open(acls, q, guard)
    requires s in spec.services && s.kind.Http? && PolicyOk(spec, s) && s.exposure.Has(d)
    requires Untouched(st) && CounterFree(s, st)
    requires TableDeclared(w.tables, s) && LetIn(spec, w, s, d, q)
    ensures var v := w.(count := count); var o := Run(v, acls, q, ServiceRules(spec, s, d, guard), st);
      && (o.Passed? <==> !SomeShown(s, d, count))
      && (Judge(spec, v, s, d, q) == None <==> !SomeOwn(s, d, count))
      && (Verdict(Judge(spec, v, s, d, q), o) <==> Judge(spec, v, s, d, q) == JudgeAsEmitted(spec, v, s, d, q))
  {
    var v := w.(count := count);
    PolicyLimitsWhole(spec, s);
    OnlyLimitsDecide(spec, w, s, d, q, count);
    ServiceRulesJudge(spec, v, acls, q, s, d, guard, st);
    VerdictIsOne(JudgeAsEmitted(spec, v, s, d, q), Judge(spec, v, s, d, q), Run(v, acls, q, ServiceRules(spec, s, d, guard), st));
  }

  lemma PassingExactly(spec: ProxySpec, w: World, acls: seq<Acl>, q: Request, s: Service, d: Door, guard: seq<Term>, st: State)
    requires NonNegative(s, d)
    requires forall count :: var v := w.(count := count);
      && (Run(v, acls, q, ServiceRules(spec, s, d, guard), st).Passed? <==> !SomeShown(s, d, count))
      && (Judge(spec, v, s, d, q) == None <==> !SomeOwn(s, d, count))
    ensures KeepsPassing(spec, w, acls, q, s, d, guard, st) <==> LimitsAgree(s, d)
  {
    if LimitsAgree(s, d) {
      forall count | Growing(count)
        ensures SomeOwn(s, d, count) <==> SomeShown(s, d, count)
      {
        AgreeSuffices(s, d, count);
      }
    } else {
      var count := AgreeNeeded(s, d);
    }
  }

  lemma VerdictsExactly(spec: ProxySpec, w: World, acls: seq<Acl>, q: Request, s: Service, d: Door, guard: seq<Term>, st: State)
    requires NonNegative(s, d) && s.kind.Http? && LimitsWhole(s) && TableDeclared(w.tables, s) && LetIn(spec, w, s, d, q)
    requires forall count :: var v := w.(count := count);
      Verdict(Judge(spec, v, s, d, q), Run(v, acls, q, ServiceRules(spec, s, d, guard), st))
      <==> Judge(spec, v, s, d, q) == JudgeAsEmitted(spec, v, s, d, q)
    ensures KeepsVerdicts(spec, w, acls, q, s, d, guard, st) <==> LimitsInOrder(s, d)
  {
    if LimitsInOrder(s, d) {
      forall count | Growing(count)
        ensures Judge(spec, w.(count := count), s, d, q) == JudgeAsEmitted(spec, w.(count := count), s, d, q)
      {
        InOrderSuffices(s, d, count);
        SameRefusal(w.(count := count), s, d, q, 0);
        OnlyLimitsDecide(spec, w, s, d, q, count);
      }
    } else {
      var count, k := InOrderNeeded(s, d);
      PartedVerdicts(spec, w, s, d, q, count, k);
    }
  }

  // ----- a service with two periods -----

  const SLOW := Filter(RateLimit, ExternalScope, [], [], Some(10), Some(3600))
  const FAST := Filter(RateLimit, InternalScope, [], [], Some(100), Some(60))

  /** A hundred a minute inside, ten an hour outside. */
  const TWO_PERIODS := Service("wiki", Http, Both, AddressText(RawAddress(V4, seq(32, _ => false))), 8080, Some("wiki.z"), Some("wiki.z"), None, None,
    [Authenticator(Public, BothScopes, None, [], false)], [FAST, SLOW], [], [], [])

  lemma TwoPeriodsAccepted(spec: ProxySpec)
    ensures ServiceOk(spec, TWO_PERIODS)
    ensures TWO_PERIODS.AuthFor(ExternalDoor) == TWO_PERIODS.authenticators
  {
    CoveringOne(TWO_PERIODS.authenticators[0], ExternalDoor);
    CoveringOne(TWO_PERIODS.authenticators[0], InternalDoor);
    assert Chomp("wiki") == "wiki" && MatchesHostname("wiki.z");
  }

  lemma TwoPeriodsDisagree()
    ensures !LimitsAgree(TWO_PERIODS, ExternalDoor)
  {
    var s := TWO_PERIODS;
    assert IsLimit(s, ExternalDoor, 1) && Period(s, ExternalDoor, 1) > TablePeriod(s);
    assert !Backed(s, ExternalDoor, 1);
  }

  /** Accepted by validation; over ten in the hour and never in a minute, a caller is let in outside. */
  lemma SlowLimitHoldsNobody(spec: ProxySpec, w: World, acls: seq<Acl>, q: Request, guard: seq<Term>, st: State)
    requires UniqueNames(spec) && Resolves(spec, w.files) && HasPeerSet(spec) && Open(acls, q, guard)
    requires TWO_PERIODS in spec.services && TableDeclared(w.tables, TWO_PERIODS) && Untouched(st) && CounterFree(TWO_PERIODS, st)
    requires w.count(TableName("wiki"), 3600) > 10 && w.count(TableName("wiki"), 60) <= 10
    ensures ServiceOk(spec, TWO_PERIODS) && !LimitsAgree(TWO_PERIODS, ExternalDoor)
    ensures Judge(spec, w, TWO_PERIODS, ExternalDoor, q) == Some(TooManyRequests(3600))
    ensures Run(w, acls, q, ServiceRules(spec, TWO_PERIODS, ExternalDoor, guard), st).Passed?
  {
    var s := TWO_PERIODS;
    TwoPeriodsAccepted(spec);
    TwoPeriodsDisagree();
    ServiceRulesJudge(spec, w, acls, q, s, ExternalDoor, guard, st);
    assert s.filters[0] == FAST && s.filters[1] == SLOW;
    assert FilterRefusal(w, s, ExternalDoor, q, 1) == Some(TooManyRequests(3600));
    assert EnforcedRefusal(w, s, ExternalDoor, q, 1) == None;
    assert s.AccessFor(ExternalDoor) == [];
  }
}
