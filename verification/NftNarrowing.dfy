/**
 Quarantining peers only narrows: the exact change to every verdict when any set of active
 peers is moved to quarantine, as the kill switch, a logout and an expired session do.
 */
module NftNarrowing {
  import opened Net
  import opened NftModel
  import opened NftProgram
  import opened NftGenerator
  import opened NftValidation
  import opened NftPolicy
  import opened NftForward
  import opened NftInput

  function Confine(p: PeerSpec, ids: set<string>): PeerSpec {
    if p.state.Active? && p.id in ids then p.(state := Quarantined) else p
  }

  function Quarantine(spec: RulesetSpec, ids: set<string>): RulesetSpec {
    spec.(peers := seq(|spec.peers|, i requires 0 <= i < |spec.peers| => Confine(spec.peers[i], ids)))
  }

  /** The address belongs to an active peer that is moved. */
  ghost predicate Touched(spec: RulesetSpec, ids: set<string>, a: Address) {
    exists p :: p in spec.peers && p.state.Active? && p.id in ids && p.Holds(a)
  }

  lemma QuarantineMembers(spec: RulesetSpec, ids: set<string>, q: PeerSpec)
    ensures q in Quarantine(spec, ids).peers <==> exists p :: p in spec.peers && q == Confine(p, ids)
  {
    var after := Quarantine(spec, ids).peers;
    if q in after {
      var i :| 0 <= i < |after| && after[i] == q;
      assert spec.peers[i] in spec.peers && q == Confine(spec.peers[i], ids);
    }
    if p :| p in spec.peers && q == Confine(p, ids) {
      var i :| 0 <= i < |spec.peers| && spec.peers[i] == p;
      assert after[i] == q;
    }
  }

  lemma ConfinedAfter(spec: RulesetSpec, ids: set<string>, a: Address)
    ensures Confined(Quarantine(spec, ids), a) <==> Confined(spec, a) || Touched(spec, ids, a)
  {
    var after := Quarantine(spec, ids);
    if q :| q in after.peers && q.state.IsConfined() && q.Holds(a) {
      QuarantineMembers(spec, ids, q);
      var p :| p in spec.peers && q == Confine(p, ids);
      assert p.Holds(a);
    }
    if p :| p in spec.peers && p.Holds(a) && (p.state.IsConfined() || (p.state.Active? && p.id in ids)) {
      QuarantineMembers(spec, ids, Confine(p, ids));
      assert Confine(p, ids).Holds(a);
    }
  }

  /** A moved peer keeps its address, its groups and its zone. */
  lemma ActiveAfter(spec: RulesetSpec, ids: set<string>, a: Address, q: PeerSpec)
    requires !Touched(spec, ids, a) && q.Holds(a) && q.state.Active?
    ensures q in Quarantine(spec, ids).peers <==> q in spec.peers
  {
    QuarantineMembers(spec, ids, q);
    if q in spec.peers {
      assert q == Confine(q, ids);
    }
  }

  lemma GroupAfter(spec: RulesetSpec, ids: set<string>, slug: string, a: Address)
    requires !Touched(spec, ids, a)
    ensures InGroup(Quarantine(spec, ids), slug, a) <==> InGroup(spec, slug, a)
  {
    forall q: PeerSpec | q.Holds(a) && q.state.Active?
      ensures q in Quarantine(spec, ids).peers <==> q in spec.peers
    {
      ActiveAfter(spec, ids, a, q);
    }
  }

  lemma ZoneAfter(spec: RulesetSpec, ids: set<string>, z: ZoneSpec, a: Address)
    requires !Touched(spec, ids, a)
    ensures InZone(Quarantine(spec, ids), z, a) <==> InZone(spec, z, a)
  {
    forall q: PeerSpec | q.Holds(a) && q.state.Active?
      ensures q in Quarantine(spec, ids).peers <==> q in spec.peers
    {
      ActiveAfter(spec, ids, a, q);
    }
  }

  lemma EndpointAfter(spec: RulesetSpec, ids: set<string>, e: Endpoint, a: Address)
    requires !Touched(spec, ids, a)
    ensures EndpointCovers(Quarantine(spec, ids), e, a) <==> EndpointCovers(spec, e, a)
  {
    match e
    case GroupEndpoint(s) =>
      if s.Some? {
        GroupAfter(spec, ids, s.value, a);
      }
    case ZoneEndpoint(s) =>
      forall z
        ensures InZone(Quarantine(spec, ids), z, a) <==> InZone(spec, z, a)
      {
        ZoneAfter(spec, ids, z, a);
      }
    case _ =>
  }

  lemma ValidAfter(spec: RulesetSpec, ids: set<string>)
    requires Valid(spec)
    ensures Valid(Quarantine(spec, ids))
  {
    var after := Quarantine(spec, ids);
    assert GroupSlugs(after) == GroupSlugs(spec) && ZoneSlugs(after) == ZoneSlugs(spec);
    forall n, p | Carries(after.zones, n, p)
      ensures exists q :: q in after.peers && q.id == p
    {
      assert Carries(spec.zones, n, p);
      var q :| q in spec.peers && q.id == p;
      QuarantineMembers(spec, ids, Confine(q, ids));
    }
    PeersAfter(spec, ids);
  }

  lemma PeersAfter(spec: RulesetSpec, ids: set<string>)
    requires PeersOk(GroupSlugs(spec), ZoneSlugs(spec), spec.peers, |spec.peers|)
    ensures PeersOk(GroupSlugs(spec), ZoneSlugs(spec), Quarantine(spec, ids).peers, |spec.peers|)
  {
    var after := Quarantine(spec, ids).peers;
    forall i, j, a | 0 <= i < |after| && 0 <= j < |after| && after[i].Holds(a) && after[j].Holds(a)
      ensures i == j
    {
      assert spec.peers[i].Holds(a) && spec.peers[j].Holds(a);
    }
  }

  lemma RuleAfter(spec: RulesetSpec, ids: set<string>, p: Packet)
    requires Valid(spec) && !Touched(spec, ids, p.src) && !Touched(spec, ids, p.dst)
    ensures RuleVerdict(Quarantine(spec, ids), p) == RuleVerdict(spec, p)
  {
    var after := Quarantine(spec, ids);
    forall r
      ensures Applies(after, r, p) <==> Applies(spec, r, p)
    {
      EndpointAfter(spec, ids, r.src, p.src);
      EndpointAfter(spec, ids, r.dst, p.dst);
    }
    forall r
      ensures Decides(after, r, p) <==> Decides(spec, r, p)
    {
    }
    forall q, r | Decides(spec, q, p) && Decides(spec, r, p)
      ensures q == r
    {
      DecidesIsUnique(spec, q, r, p);
    }
  }

  lemma ZonesAfter(spec: RulesetSpec, ids: set<string>, p: Packet)
    requires !Touched(spec, ids, p.src) && !Touched(spec, ids, p.dst)
    ensures IntraZone(Quarantine(spec, ids), p) <==> IntraZone(spec, p)
    ensures Exits(Quarantine(spec, ids), p) <==> Exits(spec, p)
  {
    forall z
      ensures InZone(Quarantine(spec, ids), z, p.src) <==> InZone(spec, z, p.src)
      ensures InZone(Quarantine(spec, ids), z, p.dst) <==> InZone(spec, z, p.dst)
    {
      ZoneAfter(spec, ids, z, p.src);
      ZoneAfter(spec, ids, z, p.dst);
    }
    forall s
      ensures InGroup(Quarantine(spec, ids), s, p.src) <==> InGroup(spec, s, p.src)
    {
      GroupAfter(spec, ids, s, p.src);
    }
  }

  predicate UsesTunnel(gw: GatewaySpec, p: Packet) {
    p.iif == gw.wg || p.oif == gw.wg
  }

  lemma ForwardPolicyAfter(spec: RulesetSpec, ids: set<string>, p: Packet)
    requires Valid(spec)
    ensures ForwardPolicy(Quarantine(spec, ids), p)
         == if UsesTunnel(spec.gateway, p) && (Touched(spec, ids, p.src) || Touched(spec, ids, p.dst)) then Drop
            else ForwardPolicy(spec, p)
  {
    ConfinedAfter(spec, ids, p.src);
    ConfinedAfter(spec, ids, p.dst);
    if !Touched(spec, ids, p.src) && !Touched(spec, ids, p.dst) {
      RuleAfter(spec, ids, p);
      ZonesAfter(spec, ids, p);
      assert Quarantine(spec, ids).gateway == spec.gateway;
    }
  }

  /**
   Forwarding after any set of active peers is quarantined: every tunnel packet to or from a
   moved address is dropped, open connections included, whatever the rules; every other
   packet gets the verdict it got before.
   */
  lemma ForwardNarrows(spec: RulesetSpec, ids: set<string>, p: Packet)
    requires Valid(spec) && p.WellFormed()
    ensures var before, after := Generate(spec), Generate(Quarantine(spec, ids));
      Eval(after.sets, after.forward, p)
      == if UsesTunnel(spec.gateway, p) && (Touched(spec, ids, p.src) || Touched(spec, ids, p.dst)) then Drop
         else Eval(before.sets, before.forward, p)
  {
    ValidAfter(spec, ids);
    ForwardChainCorrect(spec, p);
    ForwardChainCorrect(Quarantine(spec, ids), p);
    ForwardPolicyAfter(spec, ids, p);
  }

  /**
   The gateway itself after the same move: a moved peer keeps the portal, and the resolver and
   ping where they are offered, and loses the rest; nobody gains anything.
   */
  lemma InputNarrows(spec: RulesetSpec, ids: set<string>, p: Packet)
    requires Valid(spec) && p.WellFormed()
    ensures var before, after := Generate(spec), Generate(Quarantine(spec, ids));
      && Eval(after.sets, after.input, p)
         == (if p.iif == spec.gateway.wg && Touched(spec, ids, p.src) && !Essential(spec.gateway, p) then Drop
             else Eval(before.sets, before.input, p))
      && (Eval(after.sets, after.input, p) == Accept ==> Eval(before.sets, before.input, p) == Accept)
  {
    ValidAfter(spec, ids);
    InputChainCorrect(spec, p);
    InputChainCorrect(Quarantine(spec, ids), p);
    ConfinedAfter(spec, ids, p.src);
  }
}
