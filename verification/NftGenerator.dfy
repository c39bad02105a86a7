/**
 The compiler from a specification to an nftables program.
 */
module NftGenerator {
  import opened Wrappers
  import opened Ordering
  import opened Net
  import opened Grammar
  import opened NftModel
  import opened NftProgram

  // ----- naming -----

  function Suffix(family: Family): (s: string)
    ensures |s| == 3
  {
    match family
    case V4 => "_v4"
    case V6 => "_v6"
  }

  function GroupSetName(slug: string, family: Family): string {
    "g_" + Underscored(slug) + Suffix(family)
  }

  function ZoneSetName(slug: string, family: Family): string {
    "z_" + Underscored(slug) + Suffix(family)
  }

  function QuarantineSetName(family: Family): string {
    "fg_quarantine" + Suffix(family)
  }

  function InternalSetName(family: Family): string {
    "fg_internal" + Suffix(family)
  }

  // ----- set contents -----

  function AddressIn(p: PeerSpec, family: Family): seq<Address> {
    match p.AddressOf(family)
    case Some(AddressText(a)) => [a]
    case _ => []
  }

  function GroupAddresses(peers: seq<PeerSpec>, slug: string, family: Family): seq<Address> {
    if peers == [] then []
    else
      (if peers[0].state.Active? && slug in peers[0].groupSlugs then AddressIn(peers[0], family) else [])
      + GroupAddresses(peers[1..], slug, family)
  }

  function ZoneAddresses(peers: seq<PeerSpec>, slug: string, family: Family): seq<Address> {
    if peers == [] then []
    else
      (if peers[0].state.Active? && peers[0].zoneSlug == Some(slug) then AddressIn(peers[0], family) else [])
      + ZoneAddresses(peers[1..], slug, family)
  }

  function ConfinedAddresses(peers: seq<PeerSpec>, family: Family): seq<Address> {
    if peers == [] then []
    else
      (if peers[0].state.IsConfined() then AddressIn(peers[0], family) else [])
      + ConfinedAddresses(peers[1..], family)
  }

  function NetworksIn(cidrs: seq<CidrText>, family: Family): seq<Network> {
    if cidrs == [] then []
    else
      (match ParseCidr(cidrs[0])
       case Some(n) => if n.family == family then [n] else []
       case None => [])
      + NetworksIn(cidrs[1..], family)
  }

  function RouteCidrs(routes: seq<RouteSpec>): seq<CidrText> {
    seq(|routes|, i requires 0 <= i < |routes| => routes[i].cidr)
  }

  function Hosts(addresses: seq<Address>): seq<Element> {
    seq(|addresses|, i requires 0 <= i < |addresses| => Host(addresses[i]))
  }

  function HostPrefixes(addresses: seq<Address>): seq<Element> {
    seq(|addresses|, i requires 0 <= i < |addresses| => Prefix(HostNetwork(addresses[i])))
  }

  function Prefixes(networks: seq<Network>): seq<Element> {
    seq(|networks|, i requires 0 <= i < |networks| => Prefix(networks[i]))
  }

  function GroupMembers(spec: RulesetSpec, slug: string, family: Family): seq<Element> {
    Hosts(SortedSet(GroupAddresses(spec.peers, slug, family), AddressKey))
  }

  function ZoneMembers(spec: RulesetSpec, zone: ZoneSpec, family: Family): seq<Element> {
    HostPrefixes(SortedSet(ZoneAddresses(spec.peers, zone.slug, family), AddressKey))
    + Prefixes(SortedSet(NetworksIn(RouteCidrs(zone.routes), family), NetworkKey))
  }

  function ConfinedMembers(spec: RulesetSpec, family: Family): seq<Element> {
    Hosts(SortedSet(ConfinedAddresses(spec.peers, family), AddressKey))
  }

  function InternalMembers(spec: RulesetSpec, family: Family): seq<Element> {
    Prefixes(SortedSet(NetworksIn(spec.gateway.internalCidrs, family), NetworkKey))
  }

  // ----- sets -----

  function InternalSet(spec: RulesetSpec, f: Family): SetDecl {
    SetDecl(InternalSetName(f), f, true, InternalMembers(spec, f), "networks considered internal")
  }

  function QuarantineSet(spec: RulesetSpec, f: Family): SetDecl {
    SetDecl(QuarantineSetName(f), f, false, ConfinedMembers(spec, f), "portal access only")
  }

  function GroupSet(spec: RulesetSpec, g: GroupSpec, f: Family): SetDecl {
    SetDecl(GroupSetName(g.slug, f), f, false, GroupMembers(spec, g.slug, f), "members of group " + g.slug)
  }

  function ZoneSet(spec: RulesetSpec, z: ZoneSpec, f: Family): SetDecl {
    SetDecl(ZoneSetName(z.slug, f), f, true, ZoneMembers(spec, z, f), "zone " + z.slug)
  }

  function GroupSets(spec: RulesetSpec, groups: seq<GroupSpec>): seq<SetDecl> {
    if groups == [] then []
    else [GroupSet(spec, groups[0], V4), GroupSet(spec, groups[0], V6)] + GroupSets(spec, groups[1..])
  }

  function ZoneSets(spec: RulesetSpec, zones: seq<ZoneSpec>): seq<SetDecl> {
    if zones == [] then []
    else [ZoneSet(spec, zones[0], V4), ZoneSet(spec, zones[0], V6)] + ZoneSets(spec, zones[1..])
  }

  function GroupKey(g: GroupSpec): Key { TextKey(g.slug) }

  function ZoneKey(z: ZoneSpec): Key { TextKey(z.slug) }

  /** Ascending priority, ties broken by rule id. */
  function RuleKey(r: RuleSpec): Key { [r.priority] + TextKey(r.id) }

  function FixedSets(spec: RulesetSpec): seq<SetDecl> {
    [InternalSet(spec, V4), InternalSet(spec, V6), QuarantineSet(spec, V4), QuarantineSet(spec, V6)]
  }

  function RenderSets(spec: RulesetSpec): seq<SetDecl> {
    FixedSets(spec)
    + GroupSets(spec, SortBy(spec.groups, GroupKey))
    + ZoneSets(spec, SortBy(spec.zones, ZoneKey))
  }

  // ----- access rules -----

  /** The tokens of one endpoint, or `None` when it excludes the family. */
  function EndpointMatch(e: Endpoint, d: Direction, f: Family): Option<seq<Match>> {
    match e
    case AnyEndpoint => Some([])
    case GroupEndpoint(Some(slug)) => Some([InSet(f, d, GroupSetName(slug, f))])
    case ZoneEndpoint(Some(slug)) => Some([InSet(f, d, ZoneSetName(slug, f))])
    case CidrEndpoint(Some(c)) =>
      (match ParseCidr(c)
       case Some(n) => if n.family == f then Some([InNetwork(f, d, n)]) else None
       case None => None)
    case _ => None
  }

  function ProtocolMatch(r: RuleSpec, f: Family): seq<Match> {
    match r.protocol
    case AnyProtocol => []
    case Icmp => [ProtocolIs(if f == V4 then L4Icmp else L4Icmp6)]
    case _ =>
      var l4 := if r.protocol.Tcp? then L4Tcp else L4Udp;
      match r.portStart
      case None => [ProtocolIs(l4)]
      case Some(low) => [PortIn(l4, low, if r.portEnd.None? then low else r.portEnd.value)]
  }

  function AclLine(r: RuleSpec, f: Family): seq<Rule> {
    match (EndpointMatch(r.src, Source, f), EndpointMatch(r.dst, Destination, f))
    case (Some(src), Some(dst)) =>
      var tokens := src + dst + ProtocolMatch(r, f);
      [Rule(if tokens == [] then [FamilyIs(f)] else tokens, Verdict(r.action), "fg:" + r.id + ":" + r.comment)]
    case _ => []
  }

  function AclLines(rules: seq<RuleSpec>): seq<Rule> {
    if rules == [] then []
    else AclLine(rules[0], V4) + AclLine(rules[0], V6) + AclLines(rules[1..])
  }

  // ----- chains -----

  function IntraZoneLine(z: ZoneSpec, f: Family): Rule {
    var name := ZoneSetName(z.slug, f);
    Rule([InSet(f, Source, name), InSet(f, Destination, name)], Verdict(Accept), "fg:intra-zone:" + z.slug)
  }

  function IntraZoneLines(zones: seq<ZoneSpec>): seq<Rule> {
    if zones == [] then []
    else
      (if zones[0].intraZone then [IntraZoneLine(zones[0], V4), IntraZoneLine(zones[0], V6)] else [])
      + IntraZoneLines(zones[1..])
  }

  /** A group or a zone whose members may leave through the WAN interface. */
  datatype ExitSource = ExitGroup(slug: string) | ExitZone(slug: string) {
    function SetName(f: Family): string {
      if ExitGroup? then GroupSetName(slug, f) else ZoneSetName(slug, f)
    }
  }

  function ExitGroups(groups: seq<GroupSpec>): seq<ExitSource> {
    if groups == [] then []
    else (if groups[0].internetExit then [ExitGroup(groups[0].slug)] else []) + ExitGroups(groups[1..])
  }

  function ExitZones(zones: seq<ZoneSpec>): seq<ExitSource> {
    if zones == [] then []
    else (if zones[0].internetExit then [ExitZone(zones[0].slug)] else []) + ExitZones(zones[1..])
  }

  function ExitSources(spec: RulesetSpec): seq<ExitSource> {
    ExitGroups(SortBy(spec.groups, GroupKey)) + ExitZones(SortBy(spec.zones, ZoneKey))
  }

  /** The interface the text names; validation refuses an exit without one. */
  function WanName(gw: GatewaySpec): string {
    if gw.wan.Some? then gw.wan.value else "None"
  }

  function ExitLine(gw: GatewaySpec, s: ExitSource, f: Family): Rule {
    Rule([InSet(f, Source, s.SetName(f)), NotInSet(f, Destination, InternalSetName(f)), OifIs(WanName(gw))],
         Verdict(Accept), "fg:internet-exit:" + s.slug)
  }

  function ExitLines(gw: GatewaySpec, sources: seq<ExitSource>): seq<Rule> {
    if sources == [] then []
    else [ExitLine(gw, sources[0], V4), ExitLine(gw, sources[0], V6)] + ExitLines(gw, sources[1..])
  }

  function QuarantineForward(f: Family): seq<Rule> {
    [Rule([InSet(f, Source, QuarantineSetName(f))], Verdict(Drop), "fg:quarantine-no-forward"),
     Rule([InSet(f, Destination, QuarantineSetName(f))], Verdict(Drop), "fg:quarantine-unreachable")]
  }

  function Conntrack(comment: string): seq<Rule> {
    [Rule([CtEstablished], Verdict(Accept), comment),
     Rule([IcmpError(V4)], Verdict(Accept), ""),
     Rule([IcmpError(V6)], Verdict(Accept), "")]
  }

  function ForwardHead(gw: GatewaySpec): seq<Rule> {
    [Rule([IifIsNot(gw.wg), OifIsNot(gw.wg)], Verdict(Accept), "fg:foreign-traffic"),
     Rule([CtInvalid], Verdict(Drop), "")]
  }

  function ForwardTail(gw: GatewaySpec): seq<Rule> {
    (if gw.logDropped then [Rule([UnderRate], Log, "fg-drop ")] else [])
    + [Rule([], Verdict(Drop), "fg:default-deny")]
  }

  function ForwardChain(spec: RulesetSpec): seq<Rule> {
    ForwardHead(spec.gateway)
    + (QuarantineForward(V4) + QuarantineForward(V6))
    + Conntrack("fg:no-reset-on-reload")
    + AclLines(SortBy(spec.rules, RuleKey))
    + IntraZoneLines(SortBy(spec.zones, ZoneKey))
    + ExitLines(spec.gateway, ExitSources(spec))
    + ForwardTail(spec.gateway)
  }

  /** The destination clause of a portal rule: `None` when the portal has addresses and none here. */
  function PortalDestination(addresses: seq<AddressText>, f: Family): Option<seq<Match>> {
    if addresses == [] then Some([])
    else
      match FirstOf(addresses, f)
      case Some(a) => Some([IsAddress(f, Destination, a)])
      case None => None
  }

  function FirstOf(addresses: seq<AddressText>, f: Family): Option<Address> {
    if addresses == [] then None
    else if addresses[0].AddressText? && addresses[0].address.family == f then Some(addresses[0].address)
    else FirstOf(addresses[1..], f)
  }

  function QuarantinePortal(gw: GatewaySpec, f: Family): seq<Rule> {
    match PortalDestination(gw.portalAddresses, f)
    case None => []
    case Some(to) =>
      [Rule([InSet(f, Source, QuarantineSetName(f))] + to + [PortIn(L4Tcp, gw.portalPort, gw.portalPort)],
            Verdict(Accept), "fg:quarantine-portal")]
  }

  function QuarantineDns(f: Family): seq<Rule> {
    [Rule([InSet(f, Source, QuarantineSetName(f)), PortIn(L4Udp, 53, 53)], Verdict(Accept), "fg:quarantine-dns"),
     Rule([InSet(f, Source, QuarantineSetName(f)), PortIn(L4Tcp, 53, 53)], Verdict(Accept), "fg:quarantine-dns")]
  }

  function QuarantinePing(f: Family): Rule {
    Rule([InSet(f, Source, QuarantineSetName(f)), EchoRequest(f)], Verdict(Accept), "fg:quarantine-ping")
  }

  /** Everything a confined peer may still reach on the gateway. */
  function QuarantineAllowed(gw: GatewaySpec): seq<Rule> {
    QuarantinePortal(gw, V4) + QuarantinePortal(gw, V6)
    + (if gw.allowDnsInQuarantine then QuarantineDns(V4) + QuarantineDns(V6) else [])
    + (if gw.allowIcmpToGateway then [QuarantinePing(V4), QuarantinePing(V6)] else [])
  }

  const QUARANTINE_DENY: seq<Rule> := [
    Rule([InSet(V4, Source, QuarantineSetName(V4))], Verdict(Drop), "fg:quarantine-deny"),
    Rule([InSet(V6, Source, QuarantineSetName(V6))], Verdict(Drop), "fg:quarantine-deny")]

  function PortalLine(gw: GatewaySpec, f: Family): seq<Rule> {
    match PortalDestination(gw.portalAddresses, f)
    case None => []
    case Some(to) => [Rule(to + [PortIn(L4Tcp, gw.portalPort, gw.portalPort)], Verdict(Accept), "fg:portal")]
  }

  function ProxyLines(ports: seq<int>): seq<Rule> {
    seq(|ports|, i requires 0 <= i < |ports| => Rule([PortIn(L4Tcp, ports[i], ports[i])], Verdict(Accept), "fg:proxy"))
  }

  /** What an active peer may reach on the gateway under the restricted policy. */
  function RestrictedAllowed(gw: GatewaySpec): seq<Rule> {
    (if gw.portalAddresses != [] then PortalLine(gw, V4) + PortalLine(gw, V6)
     else [Rule([PortIn(L4Tcp, gw.portalPort, gw.portalPort)], Verdict(Accept), "fg:portal")])
    + (if gw.allowDnsInQuarantine then
         [Rule([PortIn(L4Udp, 53, 53)], Verdict(Accept), "fg:dns"),
          Rule([PortIn(L4Tcp, 53, 53)], Verdict(Accept), "fg:dns")] else [])
    + (if gw.allowIcmpToGateway then
         [Rule([EchoRequest(V4)], Verdict(Accept), "fg:ping"),
          Rule([EchoRequest(V6)], Verdict(Accept), "fg:ping")] else [])
    + ProxyLines(gw.proxyPorts)
  }

  function InputTail(gw: GatewaySpec): seq<Rule> {
    match gw.inputPolicy
    case Restricted => RestrictedAllowed(gw) + [Rule([], Verdict(Drop), "fg:gateway-input-deny")]
    case Open => [Rule([], Verdict(Accept), "fg:gateway-input-open")]
  }

  function InputHead(gw: GatewaySpec): seq<Rule> {
    [Rule([IifIsNot(gw.wg)], Verdict(Accept), ""), Rule([CtInvalid], Verdict(Drop), "")]
  }

  function InputChain(spec: RulesetSpec): seq<Rule> {
    InputHead(spec.gateway)
    + QuarantineAllowed(spec.gateway)
    + QUARANTINE_DENY
    + Conntrack("")
    + InputTail(spec.gateway)
  }

  function NatLine(gw: GatewaySpec, s: ExitSource, f: Family): Rule {
    Rule([InSet(f, Source, s.SetName(f)), OifIs(WanName(gw))], Masquerade, "fg:nat:" + s.slug)
  }

  function NatLines(gw: GatewaySpec, sources: seq<ExitSource>): seq<Rule> {
    if sources == [] then []
    else [NatLine(gw, sources[0], V4), NatLine(gw, sources[0], V6)] + NatLines(gw, sources[1..])
  }

  function NatChain(spec: RulesetSpec): seq<Rule> {
    if spec.gateway.wan in {None, Some("")} then [] else NatLines(spec.gateway, ExitSources(spec))
  }

  function Generate(spec: RulesetSpec): Ruleset {
    Ruleset(spec.gateway.table, RenderSets(spec), InputChain(spec), ForwardChain(spec), NatChain(spec))
  }
}
