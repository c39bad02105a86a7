/**
 Lockdown at the firewall alone. Taking every peer to disabled empties the group sets, but it
 empties the quarantine set too and takes peers out of the rules that refused them; this is
 exactly which packets the chains accept only afterwards.
 */
module NftLockdown {
  import opened Wrappers
  import opened Net
  import opened Ordering
  import opened Grammar
  import opened NftModel
  import opened NftProgram
  import opened NftGenerator
  import opened NftValidation
  import opened NftPolicy
  import opened NftForward
  import opened NftInput
  import opened NftNarrowing
  import opened Lifecycle

  function LockPeer(p: PeerSpec): PeerSpec {
    if LockdownMode.Hits(p.state) then p.(state := Disabled) else p
  }

  function Lockdown(spec: RulesetSpec): RulesetSpec {
    spec.(peers := seq(|spec.peers|, i requires 0 <= i < |spec.peers| => LockPeer(spec.peers[i])))
  }

  lemma NobodyLeft(spec: RulesetSpec, p: PeerSpec)
    requires p in Lockdown(spec).peers
    ensures !p.state.IsConfined() && !p.state.Active?
  {
    var after := Lockdown(spec).peers;
    var i :| 0 <= i < |after| && after[i] == p;
    assert p == LockPeer(spec.peers[i]);
  }

  lemma NobodyConfined(spec: RulesetSpec, a: Address)
    ensures !Confined(Lockdown(spec), a)
  {
    forall p | p in Lockdown(spec).peers
      ensures !p.state.IsConfined()
    {
      NobodyLeft(spec, p);
    }
  }

  lemma LockdownValid(spec: RulesetSpec)
    requires Valid(spec)
    ensures Valid(Lockdown(spec))
  {
    var after := Lockdown(spec);
    assert GroupSlugs(after) == GroupSlugs(spec) && ZoneSlugs(after) == ZoneSlugs(spec);
    forall i, j, a | 0 <= i < |after.peers| && 0 <= j < |after.peers| && after.peers[i].Holds(a) && after.peers[j].Holds(a)
      ensures i == j
    {
      assert spec.peers[i].Holds(a) && spec.peers[j].Holds(a);
    }
    forall n, p | Carries(after.zones, n, p)
      ensures exists q :: q in after.peers && q.id == p
    {
      assert Carries(spec.zones, n, p);
      var q :| q in spec.peers && q.id == p;
      var i :| 0 <= i < |spec.peers| && spec.peers[i] == q;
      assert after.peers[i] in after.peers;
    }
  }

  // ----- what the rules say of addresses no peer holds -----

  predicate RoutedIn(z: ZoneSpec, a: Address) {
    exists r :: r in z.routes && CidrContains(r.cidr, a)
  }

  /** The endpoint covers the address whoever holds it: by a network, not by a peer. */
  ghost predicate NetworkCovers(spec: RulesetSpec, e: Endpoint, a: Address) {
    match e
    case AnyEndpoint => true
    case GroupEndpoint(_) => false
    case ZoneEndpoint(s) => s.Some? && exists z :: z in spec.zones && z.slug == s.value && RoutedIn(z, a)
    case CidrEndpoint(c) => c.Some? && CidrContains(c.value, a)
  }

  ghost predicate AppliesByNetwork(spec: RulesetSpec, r: RuleSpec, p: Packet) {
    NetworkCovers(spec, r.src, p.src) && NetworkCovers(spec, r.dst, p.dst) && ProtocolCovers(r, p.l4)
  }

  ghost predicate DecidesByNetwork(spec: RulesetSpec, r: RuleSpec, p: Packet) {
    && r in spec.rules
    && AppliesByNetwork(spec, r, p)
    && forall q :: q in spec.rules && AppliesByNetwork(spec, q, p) ==> ComesNoLater(r, q)
  }

  ghost predicate IntraZoneByNetwork(spec: RulesetSpec, p: Packet) {
    exists z :: z in spec.zones && z.intraZone && RoutedIn(z, p.src) && RoutedIn(z, p.dst)
  }

  ghost predicate ExitsByNetwork(spec: RulesetSpec, p: Packet) {
    && FromWan(spec.gateway, p) && !Internal(spec, p.dst)
    && exists z :: z in spec.zones && z.internetExit && RoutedIn(z, p.src)
  }

  /** The rules and zones would accept the packet if none of its addresses were a peer's. */
  ghost predicate NetworkAccepts(spec: RulesetSpec, p: Packet) {
    || (exists r :: DecidesByNetwork(spec, r, p) && r.action.Accept?)
    || ((forall r :: r in spec.rules ==> !AppliesByNetwork(spec, r, p)) && (IntraZoneByNetwork(spec, p) || ExitsByNetwork(spec, p)))
  }

  /** The rule that decides today drops or rejects. */
  ghost predicate RefusedByRule(spec: RulesetSpec, p: Packet) {
    exists r :: Decides(spec, r, p) && !r.action.Accept?
  }

  // ----- after lockdown the networks are all that is left -----

  lemma InZoneLocked(spec: RulesetSpec, z: ZoneSpec, a: Address)
    ensures InZone(Lockdown(spec), z, a) <==> RoutedIn(z, a)
  {
    forall p | p in Lockdown(spec).peers
      ensures !p.state.Active?
    {
      NobodyLeft(spec, p);
    }
  }

  lemma InGroupLocked(spec: RulesetSpec, slug: string, a: Address)
    ensures !InGroup(Lockdown(spec), slug, a)
  {
    forall p | p in Lockdown(spec).peers
      ensures !p.state.Active?
    {
      NobodyLeft(spec, p);
    }
  }

  lemma EndpointLocked(spec: RulesetSpec, e: Endpoint, a: Address)
    ensures EndpointCovers(Lockdown(spec), e, a) <==> NetworkCovers(spec, e, a)
  {
    match e
    case GroupEndpoint(s) =>
      if s.Some? {
        InGroupLocked(spec, s.value, a);
      }
    case ZoneEndpoint(s) =>
      forall z
        ensures InZone(Lockdown(spec), z, a) <==> RoutedIn(z, a)
      {
        InZoneLocked(spec, z, a);
      }
    case _ =>
  }

  lemma AppliesLocked(spec: RulesetSpec, r: RuleSpec, p: Packet)
    ensures Applies(Lockdown(spec), r, p) <==> AppliesByNetwork(spec, r, p)
  {
    EndpointLocked(spec, r.src, p.src);
    EndpointLocked(spec, r.dst, p.dst);
  }

  lemma DecidesLocked(spec: RulesetSpec, r: RuleSpec, p: Packet)
    ensures Decides(Lockdown(spec), r, p) <==> DecidesByNetwork(spec, r, p)
  {
    forall q
      ensures Applies(Lockdown(spec), q, p) <==> AppliesByNetwork(spec, q, p)
    {
      AppliesLocked(spec, q, p);
    }
  }

  lemma ZonesLocked(spec: RulesetSpec, p: Packet)
    ensures IntraZone(Lockdown(spec), p) <==> IntraZoneByNetwork(spec, p)
    ensures Exits(Lockdown(spec), p) <==> ExitsByNetwork(spec, p)
  {
    forall z, a
      ensures InZone(Lockdown(spec), z, a) <==> RoutedIn(z, a)
    {
      InZoneLocked(spec, z, a);
    }
    forall slug
      ensures !InGroup(Lockdown(spec), slug, p.src)
    {
      InGroupLocked(spec, slug, p.src);
    }
    assert Internal(Lockdown(spec), p.dst) <==> Internal(spec, p.dst);
  }

  /** The verdict of the rule list: of the one rule that decides, and none exactly when no rule applies. */
  lemma RuleVerdictMeans(spec: RulesetSpec, p: Packet)
    requires Valid(spec)
    ensures forall r :: Decides(spec, r, p) ==> RuleVerdict(spec, p) == Some(r.action)
    ensures RuleVerdict(spec, p).Some? ==> exists r :: Decides(spec, r, p) && RuleVerdict(spec, p) == Some(r.action)
    ensures RuleVerdict(spec, p).None? <==> forall r :: r in spec.rules ==> !Applies(spec, r, p)
  {
    forall q, r | Decides(spec, q, p) && Decides(spec, r, p)
      ensures q == r
    {
      DecidesIsUnique(spec, q, r, p);
    }
    var rules := SortBy(spec.rules, RuleKey);
    SortBySorted(spec.rules, RuleKey);
    FirstIsLeast(spec, rules, p);
    SortedRulesDecide(spec, p);
    forall r
      ensures r in rules <==> r in spec.rules
    {
      SortByMember(spec.rules, RuleKey, r);
    }
  }

  /** Away from established traffic, the forward chain after lockdown accepts what the networks alone accept. */
  lemma LockedAccepts(spec: RulesetSpec, p: Packet)
    requires Valid(spec) && UsesTunnel(spec.gateway, p) && !p.ct.Invalid? && !Ongoing(p) && !PathMtuError(p)
    ensures ForwardPolicy(Lockdown(spec), p) == Accept <==> NetworkAccepts(spec, p)
  {
    LockdownValid(spec);
    NobodyConfined(spec, p.src);
    NobodyConfined(spec, p.dst);
    RuleVerdictMeans(Lockdown(spec), p);
    ZonesLocked(spec, p);
    forall r
      ensures Decides(Lockdown(spec), r, p) <==> DecidesByNetwork(spec, r, p)
      ensures Applies(Lockdown(spec), r, p) <==> AppliesByNetwork(spec, r, p)
    {
      DecidesLocked(spec, r, p);
      AppliesLocked(spec, r, p);
    }
  }

  /** What covers an address by network covers it before lockdown too. */
  lemma NetworkIsPart(spec: RulesetSpec, p: Packet)
    ensures forall r :: AppliesByNetwork(spec, r, p) ==> Applies(spec, r, p)
    ensures IntraZoneByNetwork(spec, p) ==> IntraZone(spec, p)
    ensures ExitsByNetwork(spec, p) ==> Exits(spec, p)
  {
    forall z, a | RoutedIn(z, a)
      ensures InZone(spec, z, a)
    {
    }
  }

  /** A packet the networks accept is refused today by confinement or by a rule, and by nothing else. */
  lemma RefusedToday(spec: RulesetSpec, p: Packet)
    requires Valid(spec) && UsesTunnel(spec.gateway, p) && !p.ct.Invalid? && !Ongoing(p) && !PathMtuError(p)
    requires NetworkAccepts(spec, p)
    ensures ForwardPolicy(spec, p) != Accept <==> Confined(spec, p.src) || Confined(spec, p.dst) || RefusedByRule(spec, p)
  {
    RuleVerdictMeans(spec, p);
    NetworkIsPart(spec, p);
  }

  /** The forward chain accepts the packet after lockdown and not before. */
  ghost predicate Widened(spec: RulesetSpec, p: Packet) {
    var before, after := Generate(spec), Generate(Lockdown(spec));
    Eval(before.sets, before.forward, p) != Accept && Eval(after.sets, after.forward, p) == Accept
  }

  /**
   Exactly when lockdown lets a packet through the forward chain that was refused before: a tunnel
   packet that is not invalid and, if it is established, related or a path error, has a confined
   end; if it is new, is acceptable by networks alone and was refused by confinement or by a rule.
   */
  ghost predicate WidenedBy(spec: RulesetSpec, p: Packet) {
    && UsesTunnel(spec.gateway, p) && !p.ct.Invalid?
    && if Ongoing(p) || PathMtuError(p) then Confined(spec, p.src) || Confined(spec, p.dst)
       else NetworkAccepts(spec, p) && (Confined(spec, p.src) || Confined(spec, p.dst) || RefusedByRule(spec, p))
  }

  lemma PolicyWidensExactly(spec: RulesetSpec, p: Packet)
    requires Valid(spec)
    ensures ForwardPolicy(spec, p) != Accept && ForwardPolicy(Lockdown(spec), p) == Accept <==> WidenedBy(spec, p)
  {
    if UsesTunnel(spec.gateway, p) && !p.ct.Invalid? {
      if Ongoing(p) || PathMtuError(p) {
        OngoingLocked(spec, p);
      } else {
        LockedAccepts(spec, p);
        if NetworkAccepts(spec, p) {
          RefusedToday(spec, p);
        }
      }
    }
  }

  lemma OngoingLocked(spec: RulesetSpec, p: Packet)
    requires UsesTunnel(spec.gateway, p) && !p.ct.Invalid? && (Ongoing(p) || PathMtuError(p))
    ensures ForwardPolicy(spec, p) == if Confined(spec, p.src) || Confined(spec, p.dst) then Drop else Accept
    ensures ForwardPolicy(Lockdown(spec), p) == Accept
  {
    NobodyConfined(spec, p.src);
    NobodyConfined(spec, p.dst);
  }

  lemma LockdownWidensExactly(spec: RulesetSpec, p: Packet)
    requires Valid(spec) && p.WellFormed()
    ensures Widened(spec, p) <==> WidenedBy(spec, p)
  {
    LockdownValid(spec);
    ForwardChainCorrect(spec, p);
    ForwardChainCorrect(Lockdown(spec), p);
    PolicyWidensExactly(spec, p);
  }

  /** In particular an open connection of a confined peer, dropped today, passes. */
  lemma LockdownWidensTheFirewall(spec: RulesetSpec, p: Packet)
    requires Valid(spec) && p.WellFormed() && UsesTunnel(spec.gateway, p)
    requires p.ct.Established? && Confined(spec, p.src)
    ensures var before, after := Generate(spec), Generate(Lockdown(spec));
            Eval(before.sets, before.forward, p) == Drop && Eval(after.sets, after.forward, p) == Accept
  {
    LockdownValid(spec);
    ForwardChainCorrect(spec, p);
    ForwardChainCorrect(Lockdown(spec), p);
    OngoingLocked(spec, p);
  }

  /** The input chain: what a confined source may not reach today and anybody else may. */
  lemma LockdownWidensInputExactly(spec: RulesetSpec, p: Packet)
    requires Valid(spec) && p.WellFormed()
    ensures var before, after := Generate(spec), Generate(Lockdown(spec));
      Eval(before.sets, before.input, p) != Accept && Eval(after.sets, after.input, p) == Accept
      <==> && p.iif == spec.gateway.wg && !p.ct.Invalid? && Confined(spec, p.src) && !Essential(spec.gateway, p)
           && (Ongoing(p) || PathMtuError(p) || spec.gateway.inputPolicy.Open? || ProxyPort(spec.gateway, p))
  {
    LockdownValid(spec);
    InputChainCorrect(spec, p);
    InputChainCorrect(Lockdown(spec), p);
    NobodyConfined(spec, p.src);
  }

  // ----- a new connection of a peer that was never confined -----

  function Uniform(bit: bool): Address { RawAddress(V4, seq(32, _ => bit)) }

  /** An active peer of a group. */
  function Member(): PeerSpec {
    PeerSpec("p", Active, Some(AddressText(Uniform(true))), None, ["ops"], None)
  }

  function DenyOps(): RuleSpec {
    RuleSpec("deny", 1, Drop, GroupEndpoint(Some("ops")), AnyEndpoint, AnyProtocol, None, None, "")
  }

  function AllowRest(): RuleSpec {
    RuleSpec("allow", 2, Accept, AnyEndpoint, AnyEndpoint, AnyProtocol, None, None, "")
  }

  function SmallGateway(): GatewaySpec {
    GatewaySpec("wg", None, "fg", 443, [], false, false, Restricted, false, [], [])
  }

  /** The group is refused, and a later rule accepts. */
  function OpsRefused(): RulesetSpec {
    RulesetSpec(SmallGateway(), [GroupSpec("ops", false)], [], [Member()], [DenyOps(), AllowRest()])
  }

  function Knock(): Packet {
    Packet("wg", "lan", Uniform(true), Uniform(false), New, TcpTo(22), true)
  }

  lemma SmallNamesOk()
    ensures GatewayOk(SmallGateway())
    ensures MatchesSlug("ops") && MatchesRuleId("deny") && MatchesRuleId("allow")
  {
    assert Chomp("fg") == "fg" && Chomp("wg") == "wg" && Chomp("ops") == "ops";
    assert Chomp("deny") == "deny" && Chomp("allow") == "allow";
  }

  lemma MemberOk(groups: set<string>, zones: set<string>)
    requires "ops" in groups
    ensures PeersOk(groups, zones, [Member()], 1)
  {
    assert PeerOk(groups, zones, Member());
  }

  lemma TwoRulesOk(groups: set<string>, zones: set<string>)
    requires "ops" in groups
    ensures RulesOk(groups, zones, [DenyOps(), AllowRest()], 2)
  {
    SmallNamesOk();
    assert RuleOk(groups, zones, DenyOps()) && RuleOk(groups, zones, AllowRest());
    assert |DenyOps().id| == 4 && |AllowRest().id| == 5;
  }

  lemma OpsRefusedValid()
    ensures Valid(OpsRefused())
  {
    var spec := OpsRefused();
    SmallNamesOk();
    assert "ops" == SlugsOfGroups(spec.groups)[0];
    assert "ops" in GroupSlugs(spec);
    assert ZoneSlugs(spec) == {};
    MemberOk(GroupSlugs(spec), ZoneSlugs(spec));
    TwoRulesOk(GroupSlugs(spec), ZoneSlugs(spec));
    assert GroupsOk(spec.gateway, spec.groups, 1);
    assert ZoneClaims(spec.zones, 0) == [];
    assert CarriersOk(spec.zones) && CarriersKnown(spec.zones, spec.peers);
  }

  lemma DenyFirst()
    ensures ComesNoLater(DenyOps(), AllowRest())
    ensures ComesNoLater(DenyOps(), DenyOps()) && ComesNoLater(AllowRest(), AllowRest())
  {
    assert DenyOps().id == DenyOps().id[..|DenyOps().id|] && AllowRest().id == AllowRest().id[..|AllowRest().id|];
  }

  lemma DeniedToday()
    ensures RefusedByRule(OpsRefused(), Knock())
  {
    var spec := OpsRefused();
    DenyFirst();
    assert Member() == spec.peers[0] && Member().Holds(Knock().src);
    assert DenyOps() == spec.rules[0];
    assert Decides(spec, DenyOps(), Knock());
  }

  lemma AcceptedByNetwork()
    ensures NetworkAccepts(OpsRefused(), Knock())
  {
    var spec := OpsRefused();
    DenyFirst();
    assert AllowRest() == spec.rules[1];
    assert !AppliesByNetwork(spec, DenyOps(), Knock());
    assert DecidesByNetwork(spec, AllowRest(), Knock());
  }

  lemma KnockIsNew()
    ensures UsesTunnel(SmallGateway(), Knock()) && !Knock().ct.Invalid? && !Ongoing(Knock()) && !PathMtuError(Knock())
  {
  }

  lemma KnockFits()
    ensures WidenedBy(OpsRefused(), Knock())
  {
    KnockIsNew();
    DeniedToday();
    AcceptedByNetwork();
  }

  lemma NobodyIsConfined(a: Address)
    ensures !Confined(OpsRefused(), a)
  {
    assert OpsRefused().peers == [Member()];
  }

  lemma WidenedWhere(spec: RulesetSpec, p: Packet)
    requires Valid(spec) && p.WellFormed() && WidenedBy(spec, p)
    ensures Widened(spec, p)
  {
    LockdownWidensExactly(spec, p);
  }

  /** Refused by its group today; disabled, the peer is in no group, and the later rule accepts. */
  lemma NewConnectionWidened() returns (spec: RulesetSpec, p: Packet)
    ensures Valid(spec) && p.WellFormed() && p.ct.New?
    ensures !Confined(spec, p.src) && !Confined(spec, p.dst)
    ensures Widened(spec, p)
  {
    OpsRefusedValid();
    KnockFits();
    spec, p := OpsRefused(), Knock();
    NobodyIsConfined(p.src);
    NobodyIsConfined(p.dst);
    WidenedWhere(spec, p);
  }
}
