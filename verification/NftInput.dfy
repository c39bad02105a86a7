/**
 The input chain: what peers may reach on the gateway itself; and the address rewriting
 of what leaves through the WAN.
 */
module NftInput {
  import opened Wrappers
  import opened Net
  import opened NftModel
  import opened NftProgram
  import opened NftGenerator
  import opened NftValidation
  import opened NftPolicy
  import opened NftCorrectness
  import opened NftForward

  // ----- the portal's addresses -----

  lemma {:induction false} FirstOfMeans(addresses: seq<AddressText>, f: Family)
    ensures match FirstOf(addresses, f)
      case Some(a) => a.family == f && AddressText(a) in addresses
      case None => forall a: Address :: AddressText(a) in addresses ==> a.family != f
  {
    if addresses != [] {
      FirstOfMeans(addresses[1..], f);
      assert addresses == [addresses[0]] + addresses[1..];
    }
  }

  /** Validation leaves one portal address per family, so picking the first picks the only one. */
  lemma PortalIsUnique(gw: GatewaySpec, a: Address, b: Address)
    requires GatewayOk(gw)
    requires AddressText(a) in gw.portalAddresses && AddressText(b) in gw.portalAddresses && a.family == b.family
    ensures a == b
  {
    var i :| 0 <= i < |gw.portalAddresses| && gw.portalAddresses[i] == AddressText(a);
    var j :| 0 <= j < |gw.portalAddresses| && gw.portalAddresses[j] == AddressText(b);
    assert i == j;
  }

  lemma PortalDestinationMeans(sets: seq<SetDecl>, gw: GatewaySpec, f: Family, p: Packet)
    requires GatewayOk(gw) && p.WellFormed()
    ensures match PortalDestination(gw.portalAddresses, f)
      case None => p.Family() == f ==> !PortalAddress(gw, p.dst)
      case Some(to) =>
        && (AllHold(sets, to, p) ==> PortalAddress(gw, p.dst))
        && (p.Family() == f && PortalAddress(gw, p.dst) ==> AllHold(sets, to, p))
  {
    FirstOfMeans(gw.portalAddresses, f);
    match PortalDestination(gw.portalAddresses, f)
    case None =>
    case Some(to) =>
      if to != [] {
        var a := FirstOf(gw.portalAddresses, f).value;
        AllHoldOne(sets, IsAddress(f, Destination, a), p);
        if p.Family() == f && PortalAddress(gw, p.dst) {
          PortalIsUnique(gw, a, p.dst);
        }
      }
  }

  predicate PortalPacket(gw: GatewaySpec, p: Packet) {
    p.l4 == TcpTo(gw.portalPort) && PortalAddress(gw, p.dst)
  }

  /** The source is in the quarantine set of family `f`, which must be the packet's. */
  ghost predicate InQuarantineSet(sets: seq<SetDecl>, f: Family, p: Packet) {
    p.Family() == f && Member(sets, QuarantineSetName(f), p.src)
  }

  // ----- confined peers -----

  lemma QuarantinePortalMeans(sets: seq<SetDecl>, gw: GatewaySpec, f: Family, p: Packet)
    requires GatewayOk(gw) && p.WellFormed()
    ensures FirstVerdict(sets, QuarantinePortal(gw, f), p)
         == if InQuarantineSet(sets, f, p) && PortalPacket(gw, p) then Some(Accept) else None
  {
    PortalDestinationMeans(sets, gw, f, p);
    match PortalDestination(gw.portalAddresses, f)
    case None =>
    case Some(to) =>
      var who, port := InSet(f, Source, QuarantineSetName(f)), PortIn(L4Tcp, gw.portalPort, gw.portalPort);
      OneRule(sets, QuarantinePortal(gw, f)[0], p);
      AllHoldConcat(sets, [who] + to, [port], p);
      AllHoldConcat(sets, [who], to, p);
      AllHoldOne(sets, who, p);
      AllHoldOne(sets, port, p);
  }

  lemma QuarantineDnsMeans(sets: seq<SetDecl>, f: Family, p: Packet)
    ensures FirstVerdict(sets, QuarantineDns(f), p)
         == if InQuarantineSet(sets, f, p) && (p.l4 == UdpTo(53) || p.l4 == TcpTo(53)) then Some(Accept) else None
  {
    var rules, who := QuarantineDns(f), InSet(f, Source, QuarantineSetName(f));
    TwoRules(sets, rules[0], rules[1], Accept, p);
    AllHoldTwo(sets, who, PortIn(L4Udp, 53, 53), p);
    AllHoldTwo(sets, who, PortIn(L4Tcp, 53, 53), p);
  }

  lemma QuarantinePingMeans(sets: seq<SetDecl>, p: Packet)
    requires p.WellFormed()
    ensures FirstVerdict(sets, [QuarantinePing(V4), QuarantinePing(V6)], p)
         == if (InQuarantineSet(sets, V4, p) || InQuarantineSet(sets, V6, p)) && (p.l4 == IcmpV4(Echo) || p.l4 == IcmpV6(Echo))
            then Some(Accept) else None
  {
    TwoRules(sets, QuarantinePing(V4), QuarantinePing(V6), Accept, p);
    AllHoldTwo(sets, InSet(V4, Source, QuarantineSetName(V4)), EchoRequest(V4), p);
    AllHoldTwo(sets, InSet(V6, Source, QuarantineSetName(V6)), EchoRequest(V6), p);
  }

  lemma QuarantineAllowedMeans(sets: seq<SetDecl>, gw: GatewaySpec, p: Packet)
    requires GatewayOk(gw) && p.WellFormed()
    ensures FirstVerdict(sets, QuarantineAllowed(gw), p)
         == if (InQuarantineSet(sets, V4, p) || InQuarantineSet(sets, V6, p)) && Essential(gw, p) then Some(Accept) else None
  {
    var portal := QuarantinePortal(gw, V4) + QuarantinePortal(gw, V6);
    var dns := if gw.allowDnsInQuarantine then QuarantineDns(V4) + QuarantineDns(V6) else [];
    var ping := if gw.allowIcmpToGateway then [QuarantinePing(V4), QuarantinePing(V6)] else [];
    FirstVerdictConcat(sets, QuarantinePortal(gw, V4), QuarantinePortal(gw, V6), p);
    FirstVerdictConcat(sets, QuarantineDns(V4), QuarantineDns(V6), p);
    FirstVerdictConcat(sets, portal, dns, p);
    FirstVerdictConcat(sets, portal + dns, ping, p);
    QuarantinePortalMeans(sets, gw, V4, p);
    QuarantinePortalMeans(sets, gw, V6, p);
    QuarantineDnsMeans(sets, V4, p);
    QuarantineDnsMeans(sets, V6, p);
    QuarantinePingMeans(sets, p);
  }

  lemma QuarantineDenyMeans(sets: seq<SetDecl>, p: Packet)
    ensures FirstVerdict(sets, QUARANTINE_DENY, p)
         == if InQuarantineSet(sets, V4, p) || InQuarantineSet(sets, V6, p) then Some(Drop) else None
  {
    TwoRules(sets, QUARANTINE_DENY[0], QUARANTINE_DENY[1], Drop, p);
    AllHoldOne(sets, InSet(V4, Source, QuarantineSetName(V4)), p);
    AllHoldOne(sets, InSet(V6, Source, QuarantineSetName(V6)), p);
  }

  // ----- everybody else -----

  lemma PortalLineMeans(sets: seq<SetDecl>, gw: GatewaySpec, f: Family, p: Packet)
    requires GatewayOk(gw) && p.WellFormed()
    ensures var v := FirstVerdict(sets, PortalLine(gw, f), p);
      && (v == None || v == Some(Accept))
      && (v.Some? ==> PortalPacket(gw, p))
      && (p.Family() == f && PortalPacket(gw, p) ==> v.Some?)
  {
    PortalDestinationMeans(sets, gw, f, p);
    match PortalDestination(gw.portalAddresses, f)
    case None =>
    case Some(to) =>
      var port := PortIn(L4Tcp, gw.portalPort, gw.portalPort);
      OneRule(sets, PortalLine(gw, f)[0], p);
      AllHoldConcat(sets, to, [port], p);
      AllHoldOne(sets, port, p);
  }

  lemma ProxyLinesMean(sets: seq<SetDecl>, ports: seq<int>, p: Packet)
    ensures FirstVerdict(sets, ProxyLines(ports), p)
         == if p.l4.TcpTo? && p.l4.port in ports then Some(Accept) else None
  {
    var rules := ProxyLines(ports);
    UniformVerdict(sets, rules, Accept, p);
    forall i | 0 <= i < |ports|
      ensures AllHold(sets, rules[i].matches, p) <==> p.l4 == TcpTo(ports[i])
    {
      AllHoldOne(sets, PortIn(L4Tcp, ports[i], ports[i]), p);
    }
    if p.l4.TcpTo? && p.l4.port in ports {
      var i :| 0 <= i < |ports| && ports[i] == p.l4.port;
      assert rules[i] in rules;
    }
  }

  lemma RestrictedPortalMeans(sets: seq<SetDecl>, gw: GatewaySpec, p: Packet)
    requires GatewayOk(gw) && p.WellFormed()
    ensures FirstVerdict(sets,
              if gw.portalAddresses != [] then PortalLine(gw, V4) + PortalLine(gw, V6)
              else [Rule([PortIn(L4Tcp, gw.portalPort, gw.portalPort)], Verdict(Accept), "fg:portal")], p)
         == if PortalPacket(gw, p) then Some(Accept) else None
  {
    if gw.portalAddresses != [] {
      FirstVerdictConcat(sets, PortalLine(gw, V4), PortalLine(gw, V6), p);
      PortalLineMeans(sets, gw, V4, p);
      PortalLineMeans(sets, gw, V6, p);
    } else {
      var port := PortIn(L4Tcp, gw.portalPort, gw.portalPort);
      OneRule(sets, Rule([port], Verdict(Accept), "fg:portal"), p);
      AllHoldOne(sets, port, p);
    }
  }

  const DNS_LINES: seq<Rule> := [
    Rule([PortIn(L4Udp, 53, 53)], Verdict(Accept), "fg:dns"), Rule([PortIn(L4Tcp, 53, 53)], Verdict(Accept), "fg:dns")]

  const PING_LINES: seq<Rule> := [
    Rule([EchoRequest(V4)], Verdict(Accept), "fg:ping"), Rule([EchoRequest(V6)], Verdict(Accept), "fg:ping")]

  lemma DnsAndPingMean(sets: seq<SetDecl>, p: Packet)
    requires p.WellFormed()
    ensures FirstVerdict(sets, DNS_LINES, p) == if p.l4 == UdpTo(53) || p.l4 == TcpTo(53) then Some(Accept) else None
    ensures FirstVerdict(sets, PING_LINES, p) == if p.l4 == IcmpV4(Echo) || p.l4 == IcmpV6(Echo) then Some(Accept) else None
  {
    TwoRules(sets, DNS_LINES[0], DNS_LINES[1], Accept, p);
    TwoRules(sets, PING_LINES[0], PING_LINES[1], Accept, p);
    AllHoldOne(sets, PortIn(L4Udp, 53, 53), p);
    AllHoldOne(sets, PortIn(L4Tcp, 53, 53), p);
    AllHoldOne(sets, EchoRequest(V4), p);
    AllHoldOne(sets, EchoRequest(V6), p);
  }

  lemma RestrictedAllowedMeans(sets: seq<SetDecl>, gw: GatewaySpec, p: Packet)
    requires GatewayOk(gw) && p.WellFormed()
    ensures FirstVerdict(sets, RestrictedAllowed(gw), p)
         == if Essential(gw, p) || ProxyPort(gw, p) then Some(Accept) else None
  {
    var portal := if gw.portalAddresses != [] then PortalLine(gw, V4) + PortalLine(gw, V6)
                  else [Rule([PortIn(L4Tcp, gw.portalPort, gw.portalPort)], Verdict(Accept), "fg:portal")];
    var dns, ping := if gw.allowDnsInQuarantine then DNS_LINES else [], if gw.allowIcmpToGateway then PING_LINES else [];
    RestrictedPortalMeans(sets, gw, p);
    DnsAndPingMean(sets, p);
    ProxyLinesMean(sets, gw.proxyPorts, p);
    FourParts(sets, portal, dns, ping, ProxyLines(gw.proxyPorts), p);
    assert RestrictedAllowed(gw) == portal + dns + ping + ProxyLines(gw.proxyPorts);
  }

  lemma InputTailMeans(sets: seq<SetDecl>, gw: GatewaySpec, p: Packet)
    requires GatewayOk(gw) && p.WellFormed()
    ensures FirstVerdict(sets, InputTail(gw), p)
         == Some(if gw.inputPolicy.Open? || Essential(gw, p) || ProxyPort(gw, p) then Accept else Drop)
  {
    match gw.inputPolicy
    case Open =>
      OneRule(sets, InputTail(gw)[0], p);
    case Restricted =>
      var deny := Rule([], Verdict(Drop), "fg:gateway-input-deny");
      FirstVerdictConcat(sets, RestrictedAllowed(gw), [deny], p);
      RestrictedAllowedMeans(sets, gw, p);
      OneRule(sets, deny, p);
  }

  lemma InputHeadMeans(sets: seq<SetDecl>, gw: GatewaySpec, p: Packet)
    ensures FirstVerdict(sets, InputHead(gw), p)
         == if p.iif != gw.wg then Some(Accept) else if p.ct.Invalid? then Some(Drop) else None
  {
    var rules := InputHead(gw);
    assert rules == [rules[0]] + [rules[1]];
    FirstVerdictConcat(sets, [rules[0]], [rules[1]], p);
    OneRule(sets, rules[0], p);
    OneRule(sets, rules[1], p);
    AllHoldOne(sets, IifIsNot(gw.wg), p);
    AllHoldOne(sets, CtInvalid, p);
  }

  /** On every well-formed packet the emitted input chain gives the verdict of the policy. */
  lemma InputChainCorrect(spec: RulesetSpec, p: Packet)
    requires Valid(spec) && p.WellFormed()
    ensures Eval(Generate(spec).sets, Generate(spec).input, p) == InputVerdict(spec, p)
  {
    var sets, gw := RenderSets(spec), spec.gateway;
    RenderedSetsRepresent(spec);
    assert Member(sets, QuarantineSetName(p.src.family), p.src) <==> Confined(spec, p.src);
    InputParts(sets, gw, p);
  }

  lemma InputParts(sets: seq<SetDecl>, gw: GatewaySpec, p: Packet)
    requires GatewayOk(gw) && p.WellFormed()
    ensures FirstVerdict(sets, InputHead(gw) + QuarantineAllowed(gw) + QUARANTINE_DENY + Conntrack("") + InputTail(gw), p)
         == Some(if p.iif != gw.wg then Accept
                 else if p.ct.Invalid? then Drop
                 else if Member(sets, QuarantineSetName(p.src.family), p.src) then (if Essential(gw, p) then Accept else Drop)
                 else if Ongoing(p) || PathMtuError(p) then Accept
                 else if gw.inputPolicy.Open? || Essential(gw, p) || ProxyPort(gw, p) then Accept else Drop)
  {
    var a, b, c, d := InputHead(gw), QuarantineAllowed(gw), QUARANTINE_DENY, Conntrack("");
    InputHeadMeans(sets, gw, p);
    QuarantineAllowedMeans(sets, gw, p);
    QuarantineDenyMeans(sets, p);
    ConntrackMeans(sets, "", p);
    InputTailMeans(sets, gw, p);
    FirstVerdictConcat(sets, a, b, p);
    FirstVerdictConcat(sets, a + b, c, p);
    FirstVerdictConcat(sets, a + b + c, d, p);
    FirstVerdictConcat(sets, a + b + c + d, InputTail(gw), p);
  }

  // ----- address rewriting -----

  lemma {:induction false} NatLinesMean(sets: seq<SetDecl>, spec: RulesetSpec, sources: seq<ExitSource>, p: Packet)
    requires Represents(sets, spec) && p.WellFormed()
    requires forall s :: s in sources ==> KnownSource(spec, s)
    ensures Masquerades(sets, NatLines(spec.gateway, sources), p)
       <==> p.oif == WanName(spec.gateway) && exists s :: s in sources && InSource(spec, s, p.src)
  {
    if sources != [] {
      var s, rest := sources[0], NatLines(spec.gateway, sources[1..]);
      var v4, v6 := NatLine(spec.gateway, s, V4), NatLine(spec.gateway, s, V6);
      NatLinesMean(sets, spec, sources[1..], p);
      NatLineMeans(sets, spec.gateway, s, V4, p);
      NatLineMeans(sets, spec.gateway, s, V6, p);
      SourceNameMeans(sets, spec, s, p.src);
      assert NatLines(spec.gateway, sources) == [v4, v6] + rest;
      MasqueradesPair(sets, v4, v6, rest, p);
      assert sources == [s] + sources[1..];
    }
  }

  lemma MasqueradesPair(sets: seq<SetDecl>, v4: Rule, v6: Rule, rest: seq<Rule>, p: Packet)
    requires v4.statement.Masquerade? && v6.statement.Masquerade?
    ensures Masquerades(sets, [v4, v6] + rest, p)
       <==> AllHold(sets, v4.matches, p) || AllHold(sets, v6.matches, p) || Masquerades(sets, rest, p)
  {
    assert ([v4, v6] + rest)[0] == v4 && ([v4, v6] + rest)[1] == v6;
  }

  lemma NatLineMeans(sets: seq<SetDecl>, gw: GatewaySpec, s: ExitSource, f: Family, p: Packet)
    ensures AllHold(sets, NatLine(gw, s, f).matches, p)
       <==> p.Family() == f && Member(sets, s.SetName(f), p.src) && p.oif == WanName(gw)
  {
    AllHoldTwo(sets, InSet(f, Source, s.SetName(f)), OifIs(WanName(gw)), p);
  }

  /** Rewriting hits exactly the traffic of exit members that leaves through the WAN. */
  lemma NatChainCorrect(spec: RulesetSpec, p: Packet)
    requires Valid(spec) && p.WellFormed()
    ensures Masquerades(Generate(spec).sets, Generate(spec).postrouting, p)
       <==> FromWan(spec.gateway, p) && MayExit(spec, p.src)
  {
    var sources := ExitSources(spec);
    RenderedSetsRepresent(spec);
    forall s | s in sources
      ensures KnownSource(spec, s) && HasWan(spec.gateway)
    {
      ExitSourceKnown(spec, s);
      ExitNeedsWan(spec, s);
    }
    NatLinesMean(RenderSets(spec), spec, sources, p);
    MayExitMeans(spec, p.src);
  }
}
