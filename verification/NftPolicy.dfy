/**
 What the gateway is meant to do with a packet, said directly over peers, groups, zones and
 rules: no set names, no rule order, no rendering per family.
 */
module NftPolicy {
  import opened Wrappers
  import opened Ordering
  import opened Net
  import opened NftModel
  import opened NftProgram

  ghost predicate InGroup(spec: RulesetSpec, slug: string, a: Address) {
    exists p :: p in spec.peers && p.state.Active? && slug in p.groupSlugs && p.Holds(a)
  }

  /** A zone holds its active peers and every network routed in it. */
  ghost predicate InZone(spec: RulesetSpec, z: ZoneSpec, a: Address) {
    || (exists p :: p in spec.peers && p.state.Active? && p.zoneSlug == Some(z.slug) && p.Holds(a))
    || (exists r :: r in z.routes && CidrContains(r.cidr, a))
  }

  /** A zone named by its slug. */
  ghost predicate InZoneNamed(spec: RulesetSpec, slug: string, a: Address) {
    exists z :: z in spec.zones && z.slug == slug && InZone(spec, z, a)
  }

  predicate CidrContains(c: CidrText, a: Address) {
    ParseCidr(c).Some? && Contains(ParseCidr(c).value, a)
  }

  /** The address belongs to a peer that may reach the portal and nothing else. */
  ghost predicate Confined(spec: RulesetSpec, a: Address) {
    exists p :: p in spec.peers && (p.state.Staging? || p.state.Quarantined?) && p.Holds(a)
  }

  ghost predicate Internal(spec: RulesetSpec, a: Address) {
    exists c :: c in spec.gateway.internalCidrs && CidrContains(c, a)
  }

  ghost predicate EndpointCovers(spec: RulesetSpec, e: Endpoint, a: Address) {
    match e
    case AnyEndpoint => true
    case GroupEndpoint(s) => s.Some? && InGroup(spec, s.value, a)
    case ZoneEndpoint(s) => s.Some? && InZoneNamed(spec, s.value, a)
    case CidrEndpoint(c) => c.Some? && CidrContains(c.value, a)
  }

  predicate ProtocolCovers(r: RuleSpec, t: Transport) {
    match r.protocol
    case AnyProtocol => true
    case Icmp => t.IcmpV4? || t.IcmpV6?
    case Tcp => t.TcpTo? && PortCovered(r, t.port)
    case Udp => t.UdpTo? && PortCovered(r, t.port)
  }

  predicate PortCovered(r: RuleSpec, port: int) {
    || r.portStart.None?
    || (r.portStart.value <= port <= if r.portEnd.Some? then r.portEnd.value else r.portStart.value)
  }

  ghost predicate Applies(spec: RulesetSpec, r: RuleSpec, p: Packet) {
    EndpointCovers(spec, r.src, p.src) && EndpointCovers(spec, r.dst, p.dst) && ProtocolCovers(r, p.l4)
  }

  /** By priority, and by id in code point order where priorities are equal. */
  predicate ComesNoLater(r: RuleSpec, q: RuleSpec) {
    r.priority < q.priority || (r.priority == q.priority && TextLeq(r.id, q.id))
  }

  /** `r` applies, and no rule that applies comes before it. */
  ghost predicate Decides(spec: RulesetSpec, r: RuleSpec, p: Packet) {
    && r in spec.rules
    && Applies(spec, r, p)
    && forall q :: q in spec.rules && Applies(spec, q, p) ==> ComesNoLater(r, q)
  }

  /** The action of the rule that decides, if one does. */
  ghost function RuleVerdict(spec: RulesetSpec, p: Packet): Option<Action> {
    if exists r :: Decides(spec, r, p) then (var r :| Decides(spec, r, p); Some(r.action)) else None
  }

  /** Two addresses inside one zone that talks to itself. */
  ghost predicate IntraZone(spec: RulesetSpec, p: Packet) {
    exists z :: z in spec.zones && z.intraZone && InZone(spec, z, p.src) && InZone(spec, z, p.dst)
  }

  /** The address may leave through the WAN: a group or a zone it is in says so. */
  ghost predicate MayExit(spec: RulesetSpec, a: Address) {
    || (exists g :: g in spec.groups && g.internetExit && InGroup(spec, g.slug, a))
    || (exists z :: z in spec.zones && z.internetExit && InZone(spec, z, a))
  }

  predicate FromWan(gw: GatewaySpec, p: Packet) {
    gw.wan == Some(p.oif)
  }

  ghost predicate Exits(spec: RulesetSpec, p: Packet) {
    FromWan(spec.gateway, p) && MayExit(spec, p.src) && !Internal(spec, p.dst)
  }

  predicate PathMtuError(p: Packet) {
    || (p.l4.IcmpV4? && p.l4.kind in {Unreachable, TimeExceeded, ParameterProblem})
    || (p.l4.IcmpV6? && p.l4.kind in {Unreachable, TimeExceeded, ParameterProblem, TooBig})
  }

  predicate Ongoing(p: Packet) {
    p.ct.Established? || p.ct.Related?
  }

  ghost function ForwardPolicy(spec: RulesetSpec, p: Packet): Action {
    if p.iif != spec.gateway.wg && p.oif != spec.gateway.wg then Accept
    else if p.ct.Invalid? then Drop
    else if Confined(spec, p.src) || Confined(spec, p.dst) then Drop
    else if Ongoing(p) || PathMtuError(p) then Accept
    else if RuleVerdict(spec, p).Some? then RuleVerdict(spec, p).value
    else if IntraZone(spec, p) || Exits(spec, p) then Accept
    else Drop
  }

  /** The destination is an address the portal answers on; any, when it has none of its own. */
  predicate PortalAddress(gw: GatewaySpec, a: Address) {
    gw.portalAddresses == [] || AddressText(a) in gw.portalAddresses
  }

  /** Portal, and resolver and ping where the gateway offers them. */
  predicate Essential(gw: GatewaySpec, p: Packet) {
    || (p.l4 == TcpTo(gw.portalPort) && PortalAddress(gw, p.dst))
    || (gw.allowDnsInQuarantine && (p.l4 == UdpTo(53) || p.l4 == TcpTo(53)))
    || (gw.allowIcmpToGateway && (p.l4 == IcmpV4(Echo) || p.l4 == IcmpV6(Echo)))
  }

  predicate ProxyPort(gw: GatewaySpec, p: Packet) {
    p.l4.TcpTo? && p.l4.port in gw.proxyPorts
  }

  /** Traffic to the gateway itself. */
  ghost function InputVerdict(spec: RulesetSpec, p: Packet): Action {
    if p.iif != spec.gateway.wg then Accept
    else if p.ct.Invalid? then Drop
    else if Confined(spec, p.src) then (if Essential(spec.gateway, p) then Accept else Drop)
    else if Ongoing(p) || PathMtuError(p) || spec.gateway.inputPolicy.Open? then Accept
    else if Essential(spec.gateway, p) || ProxyPort(spec.gateway, p) then Accept
    else Drop
  }
}
