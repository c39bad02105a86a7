/**
 The forward chain: what peers may reach through the gateway.
 */
module NftForward {
  import opened Wrappers
  import opened Ordering
  import opened Net
  import opened NftModel
  import opened NftProgram
  import opened NftGenerator
  import opened NftValidation
  import opened NftPolicy
  import opened NftCorrectness

  // ----- one access rule -----

  ghost predicate KnownEndpoint(spec: RulesetSpec, e: Endpoint) {
    EndpointOk(GroupSlugs(spec), ZoneSlugs(spec), e)
  }

  lemma EndpointMatchMeans(sets: seq<SetDecl>, spec: RulesetSpec, e: Endpoint, d: Direction, f: Family, p: Packet)
    requires Represents(sets, spec) && KnownEndpoint(spec, e) && p.WellFormed()
    ensures match EndpointMatch(e, d, f)
      case None => p.Family() == f ==> !EndpointCovers(spec, e, p.Addr(d))
      case Some(tokens) =>
        && (tokens == [] <==> e.AnyEndpoint?)
        && (AllHold(sets, tokens, p)
            <==> (e.AnyEndpoint? || p.Family() == f) && EndpointCovers(spec, e, p.Addr(d)))
  {
    match EndpointMatch(e, d, f)
    case None =>
    case Some(tokens) =>
      if tokens != [] {
        assert tokens == [tokens[0]];
        AllHoldOne(sets, tokens[0], p);
      }
  }

  lemma ProtocolMatchMeans(sets: seq<SetDecl>, r: RuleSpec, f: Family, p: Packet)
    requires p.WellFormed()
    ensures AllHold(sets, ProtocolMatch(r, f), p) ==> ProtocolCovers(r, p.l4)
    ensures p.Family() == f && ProtocolCovers(r, p.l4) ==> AllHold(sets, ProtocolMatch(r, f), p)
  {
    var tokens := ProtocolMatch(r, f);
    if tokens != [] {
      assert tokens == [tokens[0]];
      AllHoldOne(sets, tokens[0], p);
    }
  }

  ghost predicate KnownRule(spec: RulesetSpec, r: RuleSpec) {
    KnownEndpoint(spec, r.src) && KnownEndpoint(spec, r.dst)
  }

  /** In the packet's own family the line decides exactly when the rule applies; in the other it adds nothing. */
  lemma AclLineMeans(sets: seq<SetDecl>, spec: RulesetSpec, r: RuleSpec, f: Family, p: Packet)
    requires Represents(sets, spec) && KnownRule(spec, r) && p.WellFormed()
    ensures var v := FirstVerdict(sets, AclLine(r, f), p);
      && (v == None || v == Some(r.action))
      && (v.Some? ==> Applies(spec, r, p))
      && (p.Family() == f && Applies(spec, r, p) ==> v.Some?)
  {
    EndpointMatchMeans(sets, spec, r.src, Source, f, p);
    EndpointMatchMeans(sets, spec, r.dst, Destination, f, p);
    ProtocolMatchMeans(sets, r, f, p);
    match (EndpointMatch(r.src, Source, f), EndpointMatch(r.dst, Destination, f))
    case (Some(src), Some(dst)) =>
      var tokens := src + dst + ProtocolMatch(r, f);
      AllHoldConcat(sets, src + dst, ProtocolMatch(r, f), p);
      AllHoldConcat(sets, src, dst, p);
      AllHoldOne(sets, FamilyIs(f), p);
      OneRule(sets, AclLine(r, f)[0], p);
    case _ =>
  }

  lemma AclPairMeans(sets: seq<SetDecl>, spec: RulesetSpec, r: RuleSpec, p: Packet)
    requires Represents(sets, spec) && KnownRule(spec, r) && p.WellFormed()
    ensures FirstVerdict(sets, AclLine(r, V4) + AclLine(r, V6), p)
         == if Applies(spec, r, p) then Some(r.action) else None
  {
    FirstVerdictConcat(sets, AclLine(r, V4), AclLine(r, V6), p);
    AclLineMeans(sets, spec, r, V4, p);
    AclLineMeans(sets, spec, r, V6, p);
  }

  // ----- the whole rule list -----

  ghost function FirstApplying(spec: RulesetSpec, rules: seq<RuleSpec>, p: Packet): Option<RuleSpec> {
    if rules == [] then None
    else if Applies(spec, rules[0], p) then Some(rules[0])
    else FirstApplying(spec, rules[1..], p)
  }

  lemma {:induction false} AclLinesMean(sets: seq<SetDecl>, spec: RulesetSpec, rules: seq<RuleSpec>, p: Packet)
    requires Represents(sets, spec) && p.WellFormed()
    requires forall r :: r in rules ==> KnownRule(spec, r)
    ensures FirstVerdict(sets, AclLines(rules), p)
         == match FirstApplying(spec, rules, p) case Some(r) => Some(r.action) case None => None
  {
    if rules != [] {
      AclPairMeans(sets, spec, rules[0], p);
      AclLinesMean(sets, spec, rules[1..], p);
      FirstVerdictConcat(sets, AclLine(rules[0], V4) + AclLine(rules[0], V6), AclLines(rules[1..]), p);
    }
  }

  /** The compiler sorts by exactly the order of the policy. */
  lemma RuleOrder(r: RuleSpec, q: RuleSpec)
    ensures LexLeq(RuleKey(r), RuleKey(q)) <==> ComesNoLater(r, q)
  {
    PriorityOrder(r.priority, r.id, q.priority, q.id);
  }

  /** In a list sorted by key, the first rule that applies comes no later than any that does. */
  lemma {:induction false} FirstIsLeast(spec: RulesetSpec, rules: seq<RuleSpec>, p: Packet)
    requires Sorted(rules, RuleKey)
    ensures match FirstApplying(spec, rules, p)
      case Some(r) =>
        && r in rules && Applies(spec, r, p)
        && forall q :: q in rules && Applies(spec, q, p) ==> ComesNoLater(r, q)
      case None => forall q :: q in rules ==> !Applies(spec, q, p)
  {
    if rules != [] {
      assert rules == [rules[0]] + rules[1..];
      if Applies(spec, rules[0], p) {
        forall q | q in rules
          ensures ComesNoLater(rules[0], q)
        {
          HeadLeast(rules, q, RuleKey);
          RuleOrder(rules[0], q);
        }
      } else {
        FirstIsLeast(spec, rules[1..], p);
      }
    }
  }

  lemma RuleKeyInjective(spec: RulesetSpec, q: RuleSpec, r: RuleSpec)
    requires Valid(spec) && q in spec.rules && r in spec.rules && RuleKey(q) == RuleKey(r)
    ensures q == r
  {
    assert RuleKey(q)[1..] == TextKey(q.id) && RuleKey(r)[1..] == TextKey(r.id);
    TextKeyInjective(q.id, r.id);
    var i :| 0 <= i < |spec.rules| && spec.rules[i] == q;
    var j :| 0 <= j < |spec.rules| && spec.rules[j] == r;
    assert i == j;
  }

  /** At most one rule decides. */
  lemma DecidesIsUnique(spec: RulesetSpec, q: RuleSpec, r: RuleSpec, p: Packet)
    requires Valid(spec) && Decides(spec, q, p) && Decides(spec, r, p)
    ensures q == r
  {
    RuleOrder(q, r);
    RuleOrder(r, q);
    LexAntisymmetric(RuleKey(q), RuleKey(r));
    RuleKeyInjective(spec, q, r);
  }

  lemma ValidRuleKnown(spec: RulesetSpec, r: RuleSpec)
    requires Valid(spec) && r in spec.rules
    ensures KnownRule(spec, r)
  {
    var i :| 0 <= i < |spec.rules| && spec.rules[i] == r;
  }

  lemma SortedRulesDecide(spec: RulesetSpec, p: Packet)
    requires Valid(spec)
    ensures match FirstApplying(spec, SortBy(spec.rules, RuleKey), p)
      case Some(least) => forall r :: Decides(spec, r, p) <==> r == least
      case None => forall r :: !Decides(spec, r, p)
  {
    var rules := SortBy(spec.rules, RuleKey);
    forall r
      ensures r in rules <==> r in spec.rules
    {
      SortByMember(spec.rules, RuleKey, r);
    }
    SortBySorted(spec.rules, RuleKey);
    FirstIsLeast(spec, rules, p);
    match FirstApplying(spec, rules, p)
    case None =>
    case Some(least) =>
      assert Decides(spec, least, p);
      forall r | Decides(spec, r, p)
        ensures r == least
      {
        DecidesIsUnique(spec, r, least, p);
      }
  }

  lemma AclSegment(sets: seq<SetDecl>, spec: RulesetSpec, p: Packet)
    requires Valid(spec) && Represents(sets, spec) && p.WellFormed()
    ensures FirstVerdict(sets, AclLines(SortBy(spec.rules, RuleKey)), p)
         == match FirstApplying(spec, SortBy(spec.rules, RuleKey), p) case Some(r) => Some(r.action) case None => None
  {
    var rules := SortBy(spec.rules, RuleKey);
    forall r | r in rules
      ensures KnownRule(spec, r)
    {
      SortByMember(spec.rules, RuleKey, r);
      ValidRuleKnown(spec, r);
    }
    AclLinesMean(sets, spec, rules, p);
  }

  // ----- intra-zone traffic and the internet exit -----

  lemma {:induction false} IntraZoneSegment(sets: seq<SetDecl>, spec: RulesetSpec, zones: seq<ZoneSpec>, p: Packet)
    requires Represents(sets, spec) && p.WellFormed()
    requires forall z :: z in zones ==> z.slug in ZoneSlugs(spec)
    ensures FirstVerdict(sets, IntraZoneLines(zones), p)
         == if exists z :: z in zones && z.intraZone && InZoneNamed(spec, z.slug, p.src) && InZoneNamed(spec, z.slug, p.dst)
            then Some(Accept) else None
  {
    if zones != [] {
      var z := zones[0];
      var first := if z.intraZone then [IntraZoneLine(z, V4), IntraZoneLine(z, V6)] else [];
      IntraZoneSegment(sets, spec, zones[1..], p);
      FirstVerdictConcat(sets, first, IntraZoneLines(zones[1..]), p);
      if z.intraZone {
        TwoRules(sets, IntraZoneLine(z, V4), IntraZoneLine(z, V6), Accept, p);
        IntraZoneLineMeans(sets, spec, z, V4, p);
        IntraZoneLineMeans(sets, spec, z, V6, p);
      }
      assert zones == [z] + zones[1..];
    }
  }

  lemma IntraZoneLineMeans(sets: seq<SetDecl>, spec: RulesetSpec, z: ZoneSpec, f: Family, p: Packet)
    requires Represents(sets, spec) && z.slug in ZoneSlugs(spec) && p.WellFormed()
    ensures AllHold(sets, IntraZoneLine(z, f).matches, p)
       <==> p.Family() == f && InZoneNamed(spec, z.slug, p.src) && InZoneNamed(spec, z.slug, p.dst)
  {
    var name := ZoneSetName(z.slug, f);
    AllHoldTwo(sets, InSet(f, Source, name), InSet(f, Destination, name), p);
  }

  /** The exit source names a declared set. */
  ghost predicate KnownSource(spec: RulesetSpec, s: ExitSource) {
    match s
    case ExitGroup(slug) => slug in GroupSlugs(spec)
    case ExitZone(slug) => slug in ZoneSlugs(spec)
  }

  ghost predicate InSource(spec: RulesetSpec, s: ExitSource, a: Address) {
    match s
    case ExitGroup(slug) => InGroup(spec, slug, a)
    case ExitZone(slug) => InZoneNamed(spec, slug, a)
  }

  lemma SourceNameMeans(sets: seq<SetDecl>, spec: RulesetSpec, s: ExitSource, a: Address)
    requires Represents(sets, spec) && KnownSource(spec, s)
    ensures Member(sets, s.SetName(a.family), a) <==> InSource(spec, s, a)
  {
  }

  lemma ExitLineMeans(sets: seq<SetDecl>, gw: GatewaySpec, s: ExitSource, f: Family, p: Packet)
    ensures AllHold(sets, ExitLine(gw, s, f).matches, p)
       <==> && p.Family() == f && p.oif == WanName(gw)
            && Member(sets, s.SetName(f), p.src) && !Member(sets, InternalSetName(f), p.dst)
  {
    AllHoldThree(sets, InSet(f, Source, s.SetName(f)), NotInSet(f, Destination, InternalSetName(f)), OifIs(WanName(gw)), p);
  }

  /** Both lines of one exit source, together. */
  lemma ExitPairMeans(sets: seq<SetDecl>, spec: RulesetSpec, s: ExitSource, p: Packet)
    requires Represents(sets, spec) && KnownSource(spec, s) && p.WellFormed()
    ensures FirstVerdict(sets, [ExitLine(spec.gateway, s, V4), ExitLine(spec.gateway, s, V6)], p)
         == if InSource(spec, s, p.src) && !Internal(spec, p.dst) && p.oif == WanName(spec.gateway) then Some(Accept) else None
  {
    TwoRules(sets, ExitLine(spec.gateway, s, V4), ExitLine(spec.gateway, s, V6), Accept, p);
    ExitLineMeans(sets, spec.gateway, s, V4, p);
    ExitLineMeans(sets, spec.gateway, s, V6, p);
    SourceNameMeans(sets, spec, s, p.src);
    assert Member(sets, InternalSetName(p.dst.family), p.dst) <==> Internal(spec, p.dst);
  }

  lemma {:induction false} ExitSegment(sets: seq<SetDecl>, spec: RulesetSpec, sources: seq<ExitSource>, p: Packet)
    requires Represents(sets, spec) && p.WellFormed()
    requires forall s :: s in sources ==> KnownSource(spec, s)
    ensures FirstVerdict(sets, ExitLines(spec.gateway, sources), p)
         == if (exists s :: s in sources && InSource(spec, s, p.src)) && !Internal(spec, p.dst) && p.oif == WanName(spec.gateway)
            then Some(Accept) else None
  {
    if sources != [] {
      var pair := [ExitLine(spec.gateway, sources[0], V4), ExitLine(spec.gateway, sources[0], V6)];
      ExitSegment(sets, spec, sources[1..], p);
      FirstVerdictConcat(sets, pair, ExitLines(spec.gateway, sources[1..]), p);
      ExitPairMeans(sets, spec, sources[0], p);
      assert sources == [sources[0]] + sources[1..];
    }
  }

  lemma {:induction false} ExitGroupsMean(groups: seq<GroupSpec>, s: ExitSource)
    ensures s in ExitGroups(groups) <==> s.ExitGroup? && exists g :: g in groups && g.internetExit && g.slug == s.slug
  {
    if groups != [] {
      ExitGroupsMean(groups[1..], s);
      assert groups == [groups[0]] + groups[1..];
    }
  }

  lemma {:induction false} ExitZonesMean(zones: seq<ZoneSpec>, s: ExitSource)
    ensures s in ExitZones(zones) <==> s.ExitZone? && exists z :: z in zones && z.internetExit && z.slug == s.slug
  {
    if zones != [] {
      ExitZonesMean(zones[1..], s);
      assert zones == [zones[0]] + zones[1..];
    }
  }

  /** The exit sources are the groups and zones that say so. */
  lemma ExitSourcesMean(spec: RulesetSpec, s: ExitSource)
    ensures s in ExitSources(spec)
       <==> || (s.ExitGroup? && exists g :: g in spec.groups && g.internetExit && g.slug == s.slug)
            || (s.ExitZone? && exists z :: z in spec.zones && z.internetExit && z.slug == s.slug)
  {
    ExitGroupsMean(SortBy(spec.groups, GroupKey), s);
    ExitZonesMean(SortBy(spec.zones, ZoneKey), s);
    forall g
      ensures g in SortBy(spec.groups, GroupKey) <==> g in spec.groups
    {
      SortByMember(spec.groups, GroupKey, g);
    }
    forall z
      ensures z in SortBy(spec.zones, ZoneKey) <==> z in spec.zones
    {
      SortByMember(spec.zones, ZoneKey, z);
    }
  }

  lemma GroupIsKnown(spec: RulesetSpec, g: GroupSpec)
    requires g in spec.groups
    ensures g.slug in GroupSlugs(spec)
  {
    var i :| 0 <= i < |spec.groups| && spec.groups[i] == g;
    assert SlugsOfGroups(spec.groups)[i] == g.slug;
  }

  lemma ZoneIsKnown(spec: RulesetSpec, z: ZoneSpec)
    requires z in spec.zones
    ensures z.slug in ZoneSlugs(spec)
  {
    var i :| 0 <= i < |spec.zones| && spec.zones[i] == z;
    assert SlugsOfZones(spec.zones)[i] == z.slug;
  }

  lemma ExitSourceKnown(spec: RulesetSpec, s: ExitSource)
    requires s in ExitSources(spec)
    ensures KnownSource(spec, s)
  {
    ExitSourcesMean(spec, s);
    if s.ExitGroup? {
      var g :| g in spec.groups && g.internetExit && g.slug == s.slug;
      GroupIsKnown(spec, g);
    } else {
      var z :| z in spec.zones && z.internetExit && z.slug == s.slug;
      ZoneIsKnown(spec, z);
    }
  }

  lemma ExitNeedsWan(spec: RulesetSpec, s: ExitSource)
    requires Valid(spec) && s in ExitSources(spec)
    ensures HasWan(spec.gateway)
  {
    ExitSourcesMean(spec, s);
    if s.ExitGroup? {
      var g :| g in spec.groups && g.internetExit && g.slug == s.slug;
      var i :| 0 <= i < |spec.groups| && spec.groups[i] == g;
    } else {
      var z :| z in spec.zones && z.internetExit && z.slug == s.slug;
      var i :| 0 <= i < |spec.zones| && spec.zones[i] == z;
    }
  }

  lemma MayExitMeans(spec: RulesetSpec, a: Address)
    requires Valid(spec)
    ensures MayExit(spec, a) <==> exists s :: s in ExitSources(spec) && InSource(spec, s, a)
  {
    if g :| g in spec.groups && g.internetExit && InGroup(spec, g.slug, a) {
      ExitSourcesMean(spec, ExitGroup(g.slug));
      assert InSource(spec, ExitGroup(g.slug), a);
    }
    if z :| z in spec.zones && z.internetExit && InZone(spec, z, a) {
      ExitSourcesMean(spec, ExitZone(z.slug));
      ZoneNamed(spec, z, a);
      assert InSource(spec, ExitZone(z.slug), a);
    }
    if s :| s in ExitSources(spec) && InSource(spec, s, a) {
      ExitSourcesMean(spec, s);
      if s.ExitZone? {
        var z :| z in spec.zones && z.internetExit && z.slug == s.slug;
        ZoneNamed(spec, z, a);
      }
    }
  }

  lemma ExitChain(sets: seq<SetDecl>, spec: RulesetSpec, p: Packet)
    requires Valid(spec) && Represents(sets, spec) && p.WellFormed()
    ensures FirstVerdict(sets, ExitLines(spec.gateway, ExitSources(spec)), p)
         == if Exits(spec, p) then Some(Accept) else None
  {
    var sources := ExitSources(spec);
    forall s | s in sources
      ensures KnownSource(spec, s) && HasWan(spec.gateway)
    {
      ExitSourceKnown(spec, s);
      ExitNeedsWan(spec, s);
    }
    ExitSegment(sets, spec, sources, p);
    MayExitMeans(spec, p.src);
  }

  lemma IntraZoneChain(sets: seq<SetDecl>, spec: RulesetSpec, p: Packet)
    requires Valid(spec) && Represents(sets, spec) && p.WellFormed()
    ensures FirstVerdict(sets, IntraZoneLines(SortBy(spec.zones, ZoneKey)), p)
         == if IntraZone(spec, p) then Some(Accept) else None
  {
    var zones := SortBy(spec.zones, ZoneKey);
    forall z
      ensures z in zones <==> z in spec.zones
    {
      SortByMember(spec.zones, ZoneKey, z);
    }
    forall z | z in spec.zones
      ensures z.slug in ZoneSlugs(spec)
      ensures InZoneNamed(spec, z.slug, p.src) <==> InZone(spec, z, p.src)
      ensures InZoneNamed(spec, z.slug, p.dst) <==> InZone(spec, z, p.dst)
    {
      ZoneIsKnown(spec, z);
      ZoneNamed(spec, z, p.src);
      ZoneNamed(spec, z, p.dst);
    }
    IntraZoneSegment(sets, spec, zones, p);
  }

  // ----- the fixed parts -----

  lemma ForwardHeadMeans(sets: seq<SetDecl>, gw: GatewaySpec, p: Packet)
    ensures FirstVerdict(sets, ForwardHead(gw), p)
         == if p.iif != gw.wg && p.oif != gw.wg then Some(Accept) else if p.ct.Invalid? then Some(Drop) else None
  {
    var rules := ForwardHead(gw);
    assert rules == [rules[0]] + [rules[1]];
    FirstVerdictConcat(sets, [rules[0]], [rules[1]], p);
    OneRule(sets, rules[0], p);
    OneRule(sets, rules[1], p);
    AllHoldTwo(sets, IifIsNot(gw.wg), OifIsNot(gw.wg), p);
    AllHoldOne(sets, CtInvalid, p);
  }

  lemma QuarantineFamilyMeans(sets: seq<SetDecl>, f: Family, p: Packet)
    ensures FirstVerdict(sets, QuarantineForward(f), p)
         == if p.Family() == f && (Member(sets, QuarantineSetName(f), p.src) || Member(sets, QuarantineSetName(f), p.dst))
            then Some(Drop) else None
  {
    var rules := QuarantineForward(f);
    TwoRules(sets, rules[0], rules[1], Drop, p);
    AllHoldOne(sets, InSet(f, Source, QuarantineSetName(f)), p);
    AllHoldOne(sets, InSet(f, Destination, QuarantineSetName(f)), p);
  }

  lemma QuarantineForwardMeans(sets: seq<SetDecl>, spec: RulesetSpec, p: Packet)
    requires Represents(sets, spec) && p.WellFormed()
    ensures FirstVerdict(sets, QuarantineForward(V4) + QuarantineForward(V6), p)
         == if Confined(spec, p.src) || Confined(spec, p.dst) then Some(Drop) else None
  {
    FirstVerdictConcat(sets, QuarantineForward(V4), QuarantineForward(V6), p);
    QuarantineFamilyMeans(sets, V4, p);
    QuarantineFamilyMeans(sets, V6, p);
    assert Member(sets, QuarantineSetName(p.src.family), p.src) <==> Confined(spec, p.src);
    assert Member(sets, QuarantineSetName(p.dst.family), p.dst) <==> Confined(spec, p.dst);
  }

  lemma ConntrackMeans(sets: seq<SetDecl>, comment: string, p: Packet)
    ensures FirstVerdict(sets, Conntrack(comment), p)
         == if Ongoing(p) || PathMtuError(p) then Some(Accept) else None
  {
    var rules := Conntrack(comment);
    assert rules == [rules[0]] + [rules[1], rules[2]];
    FirstVerdictConcat(sets, [rules[0]], [rules[1], rules[2]], p);
    OneRule(sets, rules[0], p);
    TwoRules(sets, rules[1], rules[2], Accept, p);
    AllHoldOne(sets, CtEstablished, p);
    AllHoldOne(sets, IcmpError(V4), p);
    AllHoldOne(sets, IcmpError(V6), p);
  }

  /** The log line in front of the drop decides nothing, whatever its rate limiter says. */
  lemma ForwardTailMeans(sets: seq<SetDecl>, gw: GatewaySpec, p: Packet)
    ensures FirstVerdict(sets, ForwardTail(gw), p) == Some(Drop)
  {
    var logging := if gw.logDropped then [Rule([UnderRate], Log, "fg-drop ")] else [];
    var drop := Rule([], Verdict(Drop), "fg:default-deny");
    FirstVerdictConcat(sets, logging, [drop], p);
    NobodyDecides(sets, logging, p);
    OneRule(sets, drop, p);
  }

  // ----- the theorem -----

  lemma RuleVerdictIs(spec: RulesetSpec, p: Packet, first: Option<RuleSpec>)
    requires match first
      case Some(least) => forall r :: Decides(spec, r, p) <==> r == least
      case None => forall r :: !Decides(spec, r, p)
    ensures RuleVerdict(spec, p) == match first case Some(r) => Some(r.action) case None => None
  {
    if first.Some? {
      assert Decides(spec, first.value, p);
    }
  }

  lemma RuleListMeans(sets: seq<SetDecl>, spec: RulesetSpec, p: Packet)
    requires Valid(spec) && Represents(sets, spec) && p.WellFormed()
    ensures FirstVerdict(sets, AclLines(SortBy(spec.rules, RuleKey)), p) == RuleVerdict(spec, p)
  {
    AclSegment(sets, spec, p);
    SortedRulesDecide(spec, p);
    RuleVerdictIs(spec, p, FirstApplying(spec, SortBy(spec.rules, RuleKey), p));
  }

  lemma ForwardVerdict(sets: seq<SetDecl>, spec: RulesetSpec, p: Packet)
    requires Valid(spec) && Represents(sets, spec) && p.WellFormed()
    ensures FirstVerdict(sets, ForwardChain(spec), p) == Some(ForwardPolicy(spec, p))
  {
    ForwardHeadMeans(sets, spec.gateway, p);
    QuarantineForwardMeans(sets, spec, p);
    ConntrackMeans(sets, "fg:no-reset-on-reload", p);
    RuleListMeans(sets, spec, p);
    IntraZoneChain(sets, spec, p);
    ExitChain(sets, spec, p);
    ForwardTailMeans(sets, spec.gateway, p);
    SevenParts(sets, ForwardHead(spec.gateway), QuarantineForward(V4) + QuarantineForward(V6),
               Conntrack("fg:no-reset-on-reload"), AclLines(SortBy(spec.rules, RuleKey)),
               IntraZoneLines(SortBy(spec.zones, ZoneKey)), ExitLines(spec.gateway, ExitSources(spec)),
               ForwardTail(spec.gateway), p);
    CombineParts(spec, p);
  }

  lemma CombineParts(spec: RulesetSpec, p: Packet)
    ensures OrElse(if p.iif != spec.gateway.wg && p.oif != spec.gateway.wg then Some(Accept)
                   else if p.ct.Invalid? then Some(Drop) else None,
            OrElse(if Confined(spec, p.src) || Confined(spec, p.dst) then Some(Drop) else None,
            OrElse(if Ongoing(p) || PathMtuError(p) then Some(Accept) else None,
            OrElse(RuleVerdict(spec, p),
            OrElse(if IntraZone(spec, p) then Some(Accept) else None,
            OrElse(if Exits(spec, p) then Some(Accept) else None, Some(Drop)))))))
         == Some(ForwardPolicy(spec, p))
  {
  }

  /**
   Compiler correctness: on every well-formed packet the emitted forward chain, with its sets
   resolved by name, gives the verdict of the policy.
   */
  lemma ForwardChainCorrect(spec: RulesetSpec, p: Packet)
    requires Valid(spec) && p.WellFormed()
    ensures Eval(Generate(spec).sets, Generate(spec).forward, p) == ForwardPolicy(spec, p)
  {
    RenderedSetsRepresent(spec);
    ForwardVerdict(RenderSets(spec), spec, p);
  }
}
