/**
 What the firewall generator is given: a frozen description of the gateway, its peers,
 groups, zones and access rules.
 */
module NftModel {
  import opened Wrappers
  import opened Net

  datatype PeerState = Staging | Quarantined | Active | Disabled | Revoked {
    /** The peer may reach the portal and nothing else. */
    predicate IsConfined() { Staging? || Quarantined? }
  }

  datatype Action = Accept | Drop | Reject

  datatype Protocol = AnyProtocol | Tcp | Udp | Icmp {
    predicate SupportsPorts() { Tcp? || Udp? }
  }

  datatype Endpoint =
    | AnyEndpoint
    | GroupEndpoint(groupSlug: Option<string>)
    | ZoneEndpoint(zoneSlug: Option<string>)
    | CidrEndpoint(cidr: Option<CidrText>)

  datatype GroupSpec = GroupSpec(slug: string, internetExit: bool)

  datatype RouteSpec = RouteSpec(cidr: CidrText, viaPeerId: Option<string>)

  datatype ZoneSpec = ZoneSpec(slug: string, intraZone: bool, internetExit: bool, routes: seq<RouteSpec>)

  datatype PeerSpec = PeerSpec(
    id: string,
    state: PeerState,
    tunnelIp: Option<AddressText>,
    tunnelIp6: Option<AddressText>,
    groupSlugs: seq<string>,
    zoneSlug: Option<string>)
  {
    function AddressOf(family: Family): Option<AddressText> {
      if family == V4 then tunnelIp else tunnelIp6
    }

    /** The peer sends from, and is reached at, this address. */
    predicate Holds(a: Address) {
      (if a.family.V4? then tunnelIp else tunnelIp6) == Some(AddressText(a))
    }
  }

  datatype RuleSpec = RuleSpec(
    id: string,
    priority: int,
    action: Action,
    src: Endpoint,
    dst: Endpoint,
    protocol: Protocol,
    portStart: Option<int>,
    portEnd: Option<int>,
    comment: string)

  datatype InputPolicy = Open | Restricted

  datatype GatewaySpec = GatewaySpec(
    wg: string,
    wan: Option<string>,
    table: string,
    portalPort: int,
    internalCidrs: seq<CidrText>,
    allowDnsInQuarantine: bool,
    allowIcmpToGateway: bool,
    inputPolicy: InputPolicy,
    logDropped: bool,
    proxyPorts: seq<int>,
    portalAddresses: seq<AddressText>)

  datatype RulesetSpec = RulesetSpec(
    gateway: GatewaySpec,
    groups: seq<GroupSpec>,
    zones: seq<ZoneSpec>,
    peers: seq<PeerSpec>,
    rules: seq<RuleSpec>)
}
