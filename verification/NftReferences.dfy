/**
 Every set a chain names is declared, and no name is declared twice.
 */
module NftReferences {
  import opened Ordering
  import opened Net
  import opened NftModel
  import opened NftProgram
  import opened NftGenerator
  import opened NftValidation
  import opened NftCorrectness
  import opened NftForward

  ghost predicate Declared(sets: seq<SetDecl>, name: string, f: Family) {
    exists d :: d in sets && d.name == name && d.family == f
  }

  /** The names the chains may use are declared. */
  ghost predicate Declares(sets: seq<SetDecl>, spec: RulesetSpec) {
    && (forall f :: Declared(sets, QuarantineSetName(f), f) && Declared(sets, InternalSetName(f), f))
    && (forall s, f :: s in GroupSlugs(spec) ==> Declared(sets, GroupSetName(s, f), f))
    && (forall s, f :: s in ZoneSlugs(spec) ==> Declared(sets, ZoneSetName(s, f), f))
  }

  lemma RenderedSetsDeclare(spec: RulesetSpec)
    ensures Declares(RenderSets(spec), spec)
  {
    var sets := RenderSets(spec);
    forall f
      ensures Declared(sets, QuarantineSetName(f), f) && Declared(sets, InternalSetName(f), f)
    {
      OwnerIsDeclared(spec, QuarantineOwner, f);
      OwnerIsDeclared(spec, InternalOwner, f);
    }
    forall s, f | s in GroupSlugs(spec)
      ensures Declared(sets, GroupSetName(s, f), f)
    {
      var g := GroupOf(spec, s);
      OwnerIsDeclared(spec, GroupOwner(g), f);
    }
    forall s, f | s in ZoneSlugs(spec)
      ensures Declared(sets, ZoneSetName(s, f), f)
    {
      var z := ZoneOf(spec, s);
      OwnerIsDeclared(spec, ZoneOwner(z), f);
    }
  }

  ghost predicate MatchResolves(sets: seq<SetDecl>, m: Match) {
    m.InSet? || m.NotInSet? ==> Declared(sets, m.set_, m.family)
  }

  ghost predicate RuleResolves(sets: seq<SetDecl>, r: Rule) {
    forall m :: m in r.matches ==> MatchResolves(sets, m)
  }

  ghost predicate AllResolve(sets: seq<SetDecl>, rules: seq<Rule>) {
    forall r :: r in rules ==> RuleResolves(sets, r)
  }

  lemma ResolveConcat(sets: seq<SetDecl>, a: seq<Rule>, b: seq<Rule>)
    requires AllResolve(sets, a) && AllResolve(sets, b)
    ensures AllResolve(sets, a + b)
  {
  }

  lemma ResolvePair(sets: seq<SetDecl>, r: Rule, s: Rule)
    requires RuleResolves(sets, r) && RuleResolves(sets, s)
    ensures AllResolve(sets, [r, s])
  {
  }

  ghost predicate TokensResolve(sets: seq<SetDecl>, tokens: seq<Match>) {
    forall m :: m in tokens ==> MatchResolves(sets, m)
  }

  lemma EndpointResolves(sets: seq<SetDecl>, spec: RulesetSpec, e: Endpoint, d: Direction, f: Family)
    requires Declares(sets, spec) && KnownEndpoint(spec, e)
    ensures EndpointMatch(e, d, f).Some? ==> TokensResolve(sets, EndpointMatch(e, d, f).value)
  {
  }

  lemma ProtocolResolves(sets: seq<SetDecl>, r: RuleSpec, f: Family)
    ensures TokensResolve(sets, ProtocolMatch(r, f))
  {
  }

  lemma AclRuleResolves(sets: seq<SetDecl>, src: seq<Match>, dst: seq<Match>, proto: seq<Match>, f: Family, rule: Rule)
    requires TokensResolve(sets, src) && TokensResolve(sets, dst) && TokensResolve(sets, proto)
    requires rule.matches == if src + dst + proto == [] then [FamilyIs(f)] else src + dst + proto
    ensures RuleResolves(sets, rule)
  {
  }

  lemma AclLineResolves(sets: seq<SetDecl>, spec: RulesetSpec, r: RuleSpec, f: Family)
    requires Declares(sets, spec) && KnownRule(spec, r)
    ensures AllResolve(sets, AclLine(r, f))
  {
    var src, dst := EndpointMatch(r.src, Source, f), EndpointMatch(r.dst, Destination, f);
    EndpointResolves(sets, spec, r.src, Source, f);
    EndpointResolves(sets, spec, r.dst, Destination, f);
    ProtocolResolves(sets, r, f);
    if src.Some? && dst.Some? {
      AclRuleResolves(sets, src.value, dst.value, ProtocolMatch(r, f), f, AclLine(r, f)[0]);
    }
  }

  lemma {:induction false} AclLinesResolve(sets: seq<SetDecl>, spec: RulesetSpec, rules: seq<RuleSpec>)
    requires Declares(sets, spec)
    requires forall r :: r in rules ==> KnownRule(spec, r)
    ensures AllResolve(sets, AclLines(rules))
  {
    if rules != [] {
      AclLineResolves(sets, spec, rules[0], V4);
      AclLineResolves(sets, spec, rules[0], V6);
      AclLinesResolve(sets, spec, rules[1..]);
      ResolveConcat(sets, AclLine(rules[0], V4), AclLine(rules[0], V6));
      ResolveConcat(sets, AclLine(rules[0], V4) + AclLine(rules[0], V6), AclLines(rules[1..]));
    }
  }

  lemma {:induction false} IntraZoneLinesResolve(sets: seq<SetDecl>, spec: RulesetSpec, zones: seq<ZoneSpec>)
    requires Declares(sets, spec)
    requires forall z :: z in zones ==> z.slug in ZoneSlugs(spec)
    ensures AllResolve(sets, IntraZoneLines(zones))
  {
    if zones != [] {
      IntraZoneLinesResolve(sets, spec, zones[1..]);
      var v4, v6 := IntraZoneLine(zones[0], V4), IntraZoneLine(zones[0], V6);
      ResolvePair(sets, v4, v6);
      ResolveConcat(sets, if zones[0].intraZone then [v4, v6] else [], IntraZoneLines(zones[1..]));
    }
  }

  lemma {:induction false} ExitLinesResolve(sets: seq<SetDecl>, spec: RulesetSpec, gw: GatewaySpec, sources: seq<ExitSource>)
    requires Declares(sets, spec)
    requires forall s :: s in sources ==> KnownSource(spec, s)
    ensures AllResolve(sets, ExitLines(gw, sources)) && AllResolve(sets, NatLines(gw, sources))
  {
    if sources != [] {
      var s := sources[0];
      ExitLinesResolve(sets, spec, gw, sources[1..]);
      SourceDeclared(sets, spec, s);
      ResolvePair(sets, ExitLine(gw, s, V4), ExitLine(gw, s, V6));
      ResolvePair(sets, NatLine(gw, s, V4), NatLine(gw, s, V6));
      ResolveConcat(sets, [ExitLine(gw, s, V4), ExitLine(gw, s, V6)], ExitLines(gw, sources[1..]));
      ResolveConcat(sets, [NatLine(gw, s, V4), NatLine(gw, s, V6)], NatLines(gw, sources[1..]));
    }
  }

  lemma SourceDeclared(sets: seq<SetDecl>, spec: RulesetSpec, s: ExitSource)
    requires Declares(sets, spec) && KnownSource(spec, s)
    ensures forall f :: Declared(sets, s.SetName(f), f)
  {
  }

  lemma ForwardResolves(sets: seq<SetDecl>, spec: RulesetSpec)
    requires Valid(spec) && Declares(sets, spec)
    ensures AllResolve(sets, ForwardChain(spec)) && AllResolve(sets, NatChain(spec))
  {
    var rules, zones := SortBy(spec.rules, RuleKey), SortBy(spec.zones, ZoneKey);
    forall r | r in rules
      ensures KnownRule(spec, r)
    {
      SortByMember(spec.rules, RuleKey, r);
      ValidRuleKnown(spec, r);
    }
    forall z | z in zones
      ensures z.slug in ZoneSlugs(spec)
    {
      SortByMember(spec.zones, ZoneKey, z);
      ZoneIsKnown(spec, z);
    }
    forall s | s in ExitSources(spec)
      ensures KnownSource(spec, s)
    {
      ExitSourceKnown(spec, s);
    }
    AclLinesResolve(sets, spec, rules);
    IntraZoneLinesResolve(sets, spec, zones);
    ExitLinesResolve(sets, spec, spec.gateway, ExitSources(spec));
    ForwardFrame(sets, spec, AclLines(rules), IntraZoneLines(zones), ExitLines(spec.gateway, ExitSources(spec)));
  }

  lemma ForwardFrame(sets: seq<SetDecl>, spec: RulesetSpec, acl: seq<Rule>, intra: seq<Rule>, exits: seq<Rule>)
    requires Declares(sets, spec)
    requires AllResolve(sets, acl) && AllResolve(sets, intra) && AllResolve(sets, exits)
    ensures AllResolve(sets, ForwardHead(spec.gateway) + (QuarantineForward(V4) + QuarantineForward(V6))
                             + Conntrack("fg:no-reset-on-reload") + acl + intra + exits + ForwardTail(spec.gateway))
  {
    var head, conntrack := ForwardHead(spec.gateway), Conntrack("fg:no-reset-on-reload");
    var quarantine := QuarantineForward(V4) + QuarantineForward(V6);
    FixedPartsResolve(sets, spec);
    ResolveConcat(sets, head, quarantine);
    ResolveConcat(sets, head + quarantine, conntrack);
    ResolveConcat(sets, head + quarantine + conntrack, acl);
    ResolveConcat(sets, head + quarantine + conntrack + acl, intra);
    ResolveConcat(sets, head + quarantine + conntrack + acl + intra, exits);
    ResolveConcat(sets, head + quarantine + conntrack + acl + intra + exits, ForwardTail(spec.gateway));
  }

  lemma FixedPartsResolve(sets: seq<SetDecl>, spec: RulesetSpec)
    requires Declares(sets, spec)
    ensures AllResolve(sets, ForwardHead(spec.gateway)) && AllResolve(sets, ForwardTail(spec.gateway))
    ensures AllResolve(sets, QuarantineForward(V4) + QuarantineForward(V6))
    ensures forall comment :: AllResolve(sets, Conntrack(comment))
    ensures AllResolve(sets, QUARANTINE_DENY)
  {
    ResolvePair(sets, QuarantineForward(V4)[0], QuarantineForward(V4)[1]);
    ResolvePair(sets, QuarantineForward(V6)[0], QuarantineForward(V6)[1]);
    ResolveConcat(sets, QuarantineForward(V4), QuarantineForward(V6));
    ResolvePair(sets, QUARANTINE_DENY[0], QUARANTINE_DENY[1]);
  }

  lemma QuarantinePortalResolves(sets: seq<SetDecl>, gw: GatewaySpec, f: Family)
    requires Declared(sets, QuarantineSetName(f), f)
    ensures AllResolve(sets, QuarantinePortal(gw, f))
  {
    forall r | r in QuarantinePortal(gw, f)
      ensures RuleResolves(sets, r)
    {
    }
  }

  lemma QuarantineServicesResolve(sets: seq<SetDecl>, f: Family)
    requires Declared(sets, QuarantineSetName(f), f)
    ensures AllResolve(sets, QuarantineDns(f)) && RuleResolves(sets, QuarantinePing(f))
  {
    ResolvePair(sets, QuarantineDns(f)[0], QuarantineDns(f)[1]);
  }

  lemma QuarantineAllowedResolves(sets: seq<SetDecl>, spec: RulesetSpec, gw: GatewaySpec)
    requires Declares(sets, spec)
    ensures AllResolve(sets, QuarantineAllowed(gw))
  {
    QuarantinePortalResolves(sets, gw, V4);
    QuarantinePortalResolves(sets, gw, V6);
    QuarantineServicesResolve(sets, V4);
    QuarantineServicesResolve(sets, V6);
    var portal := QuarantinePortal(gw, V4) + QuarantinePortal(gw, V6);
    var dns := if gw.allowDnsInQuarantine then QuarantineDns(V4) + QuarantineDns(V6) else [];
    var ping := if gw.allowIcmpToGateway then [QuarantinePing(V4), QuarantinePing(V6)] else [];
    ResolveConcat(sets, QuarantineDns(V4), QuarantineDns(V6));
    ResolvePair(sets, QuarantinePing(V4), QuarantinePing(V6));
    ResolveConcat(sets, QuarantinePortal(gw, V4), QuarantinePortal(gw, V6));
    ResolveConcat(sets, portal, dns);
    ResolveConcat(sets, portal + dns, ping);
  }

  lemma InputTailResolves(sets: seq<SetDecl>, gw: GatewaySpec)
    ensures AllResolve(sets, InputHead(gw)) && AllResolve(sets, InputTail(gw))
  {
    forall r | r in InputTail(gw)
      ensures RuleResolves(sets, r)
    {
      forall m | m in r.matches
        ensures MatchResolves(sets, m)
      {
        assert !m.InSet? && !m.NotInSet?;
      }
    }
  }

  lemma InputResolves(sets: seq<SetDecl>, spec: RulesetSpec)
    requires Declares(sets, spec)
    ensures AllResolve(sets, InputChain(spec))
  {
    var gw := spec.gateway;
    FixedPartsResolve(sets, spec);
    InputTailResolves(sets, gw);
    QuarantineAllowedResolves(sets, spec, gw);
    ResolveConcat(sets, InputHead(gw), QuarantineAllowed(gw));
    ResolveConcat(sets, InputHead(gw) + QuarantineAllowed(gw), QUARANTINE_DENY);
    ResolveConcat(sets, InputHead(gw) + QuarantineAllowed(gw) + QUARANTINE_DENY, Conntrack(""));
    ResolveConcat(sets, InputHead(gw) + QuarantineAllowed(gw) + QUARANTINE_DENY + Conntrack(""), InputTail(gw));
  }

  lemma NamesAreUnique(spec: RulesetSpec, c: SetDecl, d: SetDecl)
    requires Valid(spec) && c in RenderSets(spec) && d in RenderSets(spec) && c.name == d.name
    ensures c == d
  {
    var o, f := DeclaredHasOwner(spec, c);
    var o', f' := DeclaredHasOwner(spec, d);
    NameIsUnique(spec, o, f, o', f');
  }

  lemma EachResolves(sets: seq<SetDecl>, rules: seq<Rule>)
    requires AllResolve(sets, rules)
    ensures Resolves(sets, rules)
  {
    forall r, m | r in rules && m in r.matches && (m.InSet? || m.NotInSet?)
      ensures exists d :: d in sets && d.name == m.set_ && d.family == m.family
    {
      assert RuleResolves(sets, r) && MatchResolves(sets, m);
      assert Declared(sets, m.set_, m.family);
    }
  }

  /** A valid specification renders to a program whose every reference resolves, each to one declaration. */
  lemma ReferencesResolve(spec: RulesetSpec)
    requires Valid(spec)
    ensures Resolves(Generate(spec).sets, Generate(spec).input)
    ensures Resolves(Generate(spec).sets, Generate(spec).forward)
    ensures Resolves(Generate(spec).sets, Generate(spec).postrouting)
    ensures forall c, d :: c in Generate(spec).sets && d in Generate(spec).sets && c.name == d.name ==> c == d
  {
    var sets := RenderSets(spec);
    RenderedSetsDeclare(spec);
    ForwardResolves(sets, spec);
    InputResolves(sets, spec);
    EachResolves(sets, InputChain(spec));
    EachResolves(sets, ForwardChain(spec));
    EachResolves(sets, NatChain(spec));
    forall c, d | c in sets && d in sets && c.name == d.name
      ensures c == d
    {
      NamesAreUnique(spec, c, d);
    }
  }
}
