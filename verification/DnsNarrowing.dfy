/**
 Peers losing their place never costs the rest of the fleet its names: a zone that validates
 goes on validating. And what a validated zone answers: one address per name and family, an
 alias one hop from a host name.
 */
module DnsNarrowing {
  import opened Wrappers
  import opened Net
  import opened Grammar
  import opened Text
  import opened NftModel
  import opened DnsZone

  // ----- what a built zone holds -----

  ghost predicate Listed(hosts: seq<HostEntry>, a: AddressText, name: string) {
    exists h :: h in hosts && h.address == a && name in h.names
  }

  ghost predicate AddressesDistinct(hosts: seq<HostEntry>) {
    forall i, j :: 0 <= i < j < |hosts| ==> hosts[i].address != hosts[j].address
  }

  ghost predicate NoneEmpty(hosts: seq<HostEntry>) {
    forall h :: h in hosts ==> h.names != []
  }

  lemma {:induction false} AddToAddresses(hosts: seq<HostEntry>, a: Addition, x: AddressText)
    ensures (exists h :: h in AddTo(hosts, a) && h.address == x) <==> x == a.address || exists h :: h in hosts && h.address == x
  {
    if hosts == [] {
      assert AddTo(hosts, a)[0] in AddTo(hosts, a);
    } else {
      assert hosts == [hosts[0]] + hosts[1..];
      assert hosts[0] in hosts && AddTo(hosts, a)[0] in AddTo(hosts, a);
      if hosts[0].address == a.address {
        assert forall h :: h in AddTo(hosts, a) <==> h == AddTo(hosts, a)[0] || h in hosts[1..];
      } else {
        AddToAddresses(hosts[1..], a, x);
        assert forall h :: h in AddTo(hosts, a) <==> h == hosts[0] || h in AddTo(hosts[1..], a);
      }
    }
  }

  lemma {:induction false} AddToDistinct(hosts: seq<HostEntry>, a: Addition)
    requires AddressesDistinct(hosts) && NoneEmpty(hosts)
    ensures AddressesDistinct(AddTo(hosts, a)) && NoneEmpty(AddTo(hosts, a))
  {
    if hosts != [] && hosts[0].address != a.address {
      var rest := AddTo(hosts[1..], a);
      AddToDistinct(hosts[1..], a);
      AddToAddresses(hosts[1..], a, hosts[0].address);
      forall j | 0 <= j < |rest|
        ensures rest[j].address != hosts[0].address
      {
        assert rest[j] in rest;
      }
    }
  }

  lemma {:induction false} AddToListed(hosts: seq<HostEntry>, a: Addition, x: AddressText, name: string)
    ensures Listed(AddTo(hosts, a), x, name) <==> Listed(hosts, x, name) || a == Addition(x, name)
  {
    if hosts == [] {
      assert AddTo(hosts, a)[0] in AddTo(hosts, a);
    } else {
      assert hosts == [hosts[0]] + hosts[1..];
      if hosts[0].address == a.address {
        var h := AddTo(hosts, a)[0];
        assert forall g :: g in AddTo(hosts, a) <==> g == h || g in hosts[1..];
        assert hosts[0] in hosts && h in AddTo(hosts, a);
      } else {
        AddToListed(hosts[1..], a, x, name);
        assert forall h :: h in AddTo(hosts, a) <==> h == hosts[0] || h in AddTo(hosts[1..], a);
      }
    }
  }

  lemma {:induction false} GroupedMeans(additions: seq<Addition>, x: AddressText, name: string)
    ensures Listed(Grouped(additions), x, name) <==> Addition(x, name) in additions
    ensures AddressesDistinct(Grouped(additions)) && NoneEmpty(Grouped(additions))
    decreases |additions|
  {
    if additions != [] {
      var n := |additions| - 1;
      GroupedMeans(additions[..n], x, name);
      AddToListed(Grouped(additions[..n]), additions[n], x, name);
      AddToDistinct(Grouped(additions[..n]), additions[n]);
      assert additions == additions[..n] + [additions[n]];
    }
  }

  lemma KnownMeans(additions: seq<Addition>, name: string)
    ensures name in KnownNames(Grouped(additions)) <==> exists x :: Addition(x, name) in additions
  {
    var hosts := Grouped(additions);
    KnownNamesMean(hosts, name);
    if name in KnownNames(hosts) {
      var h :| h in hosts && name in h.names;
      GroupedMeans(additions, h.address, name);
      assert Listed(hosts, h.address, name);
    }
    if x :| Addition(x, name) in additions {
      GroupedMeans(additions, x, name);
    }
  }

  // ----- validity, over the additions -----

  /** One name, asked for in one family. */
  predicate SameQuestion(a: Addition, b: Addition) {
    && a.name == b.name && a.address.AddressText? && b.address.AddressText?
    && a.address.address.family == b.address.address.family
  }

  /** Every name is fit to be served, and leads to one address of a family. */
  ghost predicate AdditionsOk(zone: string, external: set<string>, additions: seq<Addition>) {
    && (forall a :: a in additions ==>
          a.address.AddressText? && MatchesHostname(a.name) && (a.name in external || InZone(a.name, zone)))
    && (forall a, b :: a in additions && b in additions && SameQuestion(a, b) ==> a.address == b.address)
  }

  lemma HostsOkMeans(spec: DnsSpec, additions: seq<Addition>)
    requires spec.hosts == Grouped(additions)
    ensures HostsOk(spec, |spec.hosts|) <==> AdditionsOk(spec.zone, spec.external, additions)
  {
    if HostsOk(spec, |spec.hosts|) {
      HostsGiveAdditions(spec, additions);
    }
    if AdditionsOk(spec.zone, spec.external, additions) {
      AdditionsGiveHosts(spec, additions);
    }
  }

  lemma Place(spec: DnsSpec, additions: seq<Addition>, a: Addition) returns (i: nat)
    requires spec.hosts == Grouped(additions) && a in additions
    ensures i < |spec.hosts| && spec.hosts[i].address == a.address && a.name in spec.hosts[i].names
  {
    GroupedMeans(additions, a.address, a.name);
    var h :| h in spec.hosts && h.address == a.address && a.name in h.names;
    i :| 0 <= i < |spec.hosts| && spec.hosts[i] == h;
  }

  lemma ApartEitherWay(spec: DnsSpec, i: nat, j: nat)
    requires HostsOk(spec, |spec.hosts|) && i < |spec.hosts| && j < |spec.hosts| && i != j
    ensures HostsApart(spec.hosts[i], spec.hosts[j]) || HostsApart(spec.hosts[j], spec.hosts[i])
  {
    if i < j {
      assert HostsApart(spec.hosts[i], spec.hosts[j]);
    } else {
      assert HostsApart(spec.hosts[j], spec.hosts[i]);
    }
  }

  lemma HostsGiveAdditions(spec: DnsSpec, additions: seq<Addition>)
    requires spec.hosts == Grouped(additions) && HostsOk(spec, |spec.hosts|)
    ensures AdditionsOk(spec.zone, spec.external, additions)
  {
    forall a | a in additions
      ensures a.address.AddressText? && MatchesHostname(a.name) && (a.name in spec.external || InZone(a.name, spec.zone))
    {
      var i := Place(spec, additions, a);
      assert HostOk(spec, spec.hosts[i]);
      assert NameOk(spec, a.name);
    }
    forall a, b | a in additions && b in additions && SameQuestion(a, b)
      ensures a.address == b.address
    {
      var i := Place(spec, additions, a);
      var j := Place(spec, additions, b);
      if i != j {
        ApartEitherWay(spec, i, j);
      }
    }
  }

  lemma HostNames(spec: DnsSpec, additions: seq<Addition>, i: nat, n: string)
    requires spec.hosts == Grouped(additions) && i < |spec.hosts| && n in spec.hosts[i].names
    ensures Addition(spec.hosts[i].address, n) in additions
  {
    GroupedMeans(additions, spec.hosts[i].address, n);
    assert spec.hosts[i] in spec.hosts;
  }

  lemma OneHostOk(spec: DnsSpec, additions: seq<Addition>, i: nat)
    requires spec.hosts == Grouped(additions) && AdditionsOk(spec.zone, spec.external, additions) && i < |spec.hosts|
    ensures HostOk(spec, spec.hosts[i])
  {
    GroupedMeans(additions, NotAnAddress, "");
    assert spec.hosts[i] in spec.hosts;
    HostNames(spec, additions, i, spec.hosts[i].names[0]);
    forall n | n in spec.hosts[i].names
      ensures NameOk(spec, n)
    {
      HostNames(spec, additions, i, n);
      assert Addition(spec.hosts[i].address, n).name == n;
    }
  }

  lemma TwoHostsApart(spec: DnsSpec, additions: seq<Addition>, i: nat, j: nat)
    requires spec.hosts == Grouped(additions) && AdditionsOk(spec.zone, spec.external, additions) && i < j < |spec.hosts|
    ensures HostsApart(spec.hosts[i], spec.hosts[j])
  {
    var h, k := spec.hosts[i], spec.hosts[j];
    GroupedMeans(additions, NotAnAddress, "");
    forall n | n in h.names && h.address.AddressText? && k.address.AddressText? && h.address.address.family == k.address.address.family
      ensures n !in k.names
    {
      if n in k.names {
        HostNames(spec, additions, i, n);
        HostNames(spec, additions, j, n);
        assert SameQuestion(Addition(h.address, n), Addition(k.address, n));
      }
    }
  }

  lemma AdditionsGiveHosts(spec: DnsSpec, additions: seq<Addition>)
    requires spec.hosts == Grouped(additions) && AdditionsOk(spec.zone, spec.external, additions)
    ensures HostsOk(spec, |spec.hosts|)
  {
    forall i | 0 <= i < |spec.hosts|
      ensures HostOk(spec, spec.hosts[i])
    {
      OneHostOk(spec, additions, i);
    }
    forall i, j | 0 <= i < j < |spec.hosts|
      ensures HostsApart(spec.hosts[i], spec.hosts[j])
    {
      TwoHostsApart(spec, additions, i, j);
    }
  }

  // ----- every name built is in the zone or declared -----

  ghost predicate Covered(db: Source, a: Addition) {
    a.name in ExternalNames(db) || InZone(a.name, db.zone)
  }

  lemma {:induction false} PeersCovered(db: Source, peers: seq<PeerRow>)
    ensures forall a :: a in PeerAdditions(db, peers) ==> Covered(db, a)
  {
    if peers != [] {
      PeersCovered(db, peers[1..]);
      if peers[0].label_.Some? {
        QualifiedInZone(peers[0].label_.value, db.zone);
      }
    }
  }

  lemma {:induction false} RecordsCovered(db: Source, records: seq<RecordRow>)
    ensures forall a :: a in RecordAdditions(db, records) ==> Covered(db, a)
  {
    if records != [] {
      RecordsCovered(db, records[1..]);
      QualifiedInZone(records[0].name, db.zone);
    }
  }

  lemma {:induction false} PortalCovered(db: Source, addresses: seq<AddressText>)
    requires PortalNamed(db)
    ensures forall a :: a in PortalAdditions(addresses, Lowercase(db.portalName)) ==> Covered(db, a)
  {
    if addresses != [] {
      PortalCovered(db, addresses[1..]);
    }
  }

  lemma {:induction false} PublishedCovered(db: Source, names: seq<string>)
    requires forall n :: n in names ==> n in PublishedNames(db)
    ensures forall a :: a in PublishedAdditions(db, names) ==> Covered(db, a)
  {
    if names != [] {
      assert names == [names[0]] + names[1..];
      PublishedCovered(db, names[1..]);
    }
  }

  lemma AllCovered(db: Source)
    ensures forall a :: a in Additions(db) ==> Covered(db, a)
  {
    QualifiedInZone(db.gatewayLabel, db.zone);
    PeersCovered(db, db.peers);
    RecordsCovered(db, db.records);
    if PortalNamed(db) {
      PortalCovered(db, db.portalAddresses);
    }
    PublishedCovered(db, PublishedNames(db));
  }

  // ----- operations that only take away -----

  /** Only states differ; no peer gains a name, and none starts to serve. */
  ghost predicate Narrower(before: Source, after: Source) {
    && after == before.(states := after.states)
    && forall p :: p in after.states ==>
         && (IsNamed(after.states[p]) ==> p in before.states && IsNamed(before.states[p]))
         && (after.states[p].Active? ==> p in before.states && before.states[p].Active?)
  }

  lemma {:induction false} PeersNarrower(before: Source, after: Source, peers: seq<PeerRow>)
    requires Narrower(before, after)
    ensures forall a :: a in PeerAdditions(after, peers) ==> a in PeerAdditions(before, peers)
  {
    if peers != [] {
      PeersNarrower(before, after, peers[1..]);
    }
  }

  lemma {:induction false} NamesNarrower(before: Source, after: Source, services: seq<ServiceRow>)
    requires Narrower(before, after)
    ensures forall n :: n in ServiceNames(after, services) ==> n in ServiceNames(before, services)
  {
    if services != [] {
      NamesNarrower(before, after, services[1..]);
      assert ServedInside(services[0], after) ==> ServedInside(services[0], before);
    }
  }

  lemma {:induction false} PublishedMeans(db: Source, names: seq<string>, a: Addition)
    ensures a in PublishedAdditions(db, names) <==> a.address == db.gatewayIp && a.name in names
  {
    if names != [] {
      PublishedMeans(db, names[1..], a);
      assert names == [names[0]] + names[1..];
    }
  }

  lemma {:induction false} RecordsSame(before: Source, after: Source, records: seq<RecordRow>)
    requires before.zone == after.zone
    ensures RecordAdditions(after, records) == RecordAdditions(before, records)
    ensures Aliases(after, records) == Aliases(before, records)
  {
    if records != [] {
      RecordsSame(before, after, records[1..]);
    }
  }

  lemma FewerAdditions(before: Source, after: Source, a: Addition)
    requires Narrower(before, after) && a in Additions(after)
    ensures a in Additions(before)
  {
    PeersNarrower(before, after, before.peers);
    NamesNarrower(before, after, before.services);
    PublishedMeans(after, PublishedNames(after), a);
    PublishedMeans(before, PublishedNames(before), a);
    RecordsSame(before, after, before.records);
  }

  lemma {:induction false} LivingTwice(aliases: seq<Cname>, known: set<string>, fewer: set<string>)
    requires fewer <= known
    ensures Living(aliases, fewer) == Living(Living(aliases, known), fewer)
  {
    if aliases != [] {
      LivingTwice(aliases[1..], known, fewer);
      var rest := Living(aliases[1..], known);
      if aliases[0].target in known {
        assert ([aliases[0]] + rest)[1..] == rest;
      } else {
        assert Living(aliases, known) == rest;
      }
    }
  }

  ghost predicate AliasesDistinct(cnames: seq<Cname>) {
    forall i, j :: 0 <= i < j < |cnames| ==> cnames[i].alias_ != cnames[j].alias_
  }

  lemma {:induction false} LivingMember(aliases: seq<Cname>, known: set<string>, c: Cname)
    ensures c in Living(aliases, known) <==> c in aliases && c.target in known
  {
    if aliases != [] {
      LivingMember(aliases[1..], known, c);
      assert aliases == [aliases[0]] + aliases[1..];
    }
  }

  lemma {:induction false} LivingDistinct(aliases: seq<Cname>, known: set<string>)
    requires AliasesDistinct(aliases)
    ensures AliasesDistinct(Living(aliases, known))
  {
    if aliases != [] {
      LivingDistinct(aliases[1..], known);
      var rest := Living(aliases[1..], known);
      forall j | 0 <= j < |rest|
        ensures rest[j].alias_ != aliases[0].alias_
      {
        LivingMember(aliases[1..], known, rest[j]);
        var k :| 0 <= k < |aliases[1..]| && aliases[1..][k] == rest[j];
        assert aliases[k + 1] == rest[j];
      }
    }
  }

  lemma CnamesNarrower(before: DnsSpec, after: DnsSpec)
    requires CnamesOk(before, |before.cnames|) && before.zone == after.zone
    requires KnownNames(after.hosts) <= KnownNames(before.hosts)
    requires after.cnames == Living(before.cnames, KnownNames(after.hosts))
    ensures CnamesOk(after, |after.cnames|)
  {
    var known := KnownNames(after.hosts);
    LivingDistinct(before.cnames, known);
    forall i | 0 <= i < |after.cnames|
      ensures CnameOk(after, after.cnames[i])
    {
      LivingMember(before.cnames, known, after.cnames[i]);
      assert after.cnames[i] in after.cnames;
      var k :| 0 <= k < |before.cnames| && before.cnames[k] == after.cnames[i];
      assert CnameOk(before, before.cnames[k]);
    }
  }

  /** A zone that validates survives any peers being taken down: quarantined, disabled, revoked, or deleted from the states. */
  lemma ZoneSurvives(before: Source, after: Source)
    requires Narrower(before, after) && ValidZone(Build(before))
    ensures ValidZone(Build(after))
  {
    var b, a := Build(before), Build(after);
    HostsOkMeans(b, Additions(before));
    AllCovered(after);
    forall x | x in Additions(after)
      ensures x in Additions(before)
    {
      FewerAdditions(before, after, x);
    }
    assert AdditionsOk(a.zone, a.external, Additions(after));
    HostsOkMeans(a, Additions(after));
    forall n | n in KnownNames(a.hosts)
      ensures n in KnownNames(b.hosts)
    {
      KnownMeans(Additions(after), n);
      KnownMeans(Additions(before), n);
    }
    RecordsSame(before, after, before.records);
    LivingTwice(Aliases(before, before.records), KnownNames(b.hosts), KnownNames(a.hosts));
    CnamesNarrower(b, a);
  }

  /** The states after a set of peers is moved. */
  function Moved(db: Source, ids: set<string>, target: PeerState): Source {
    db.(states := map p | p in db.states :: if p in ids then target else db.states[p])
  }

  /** Moving peers that have a name to any state but active, or any peers to a state without one, only takes away. */
  lemma MoveNarrows(db: Source, ids: set<string>, target: PeerState)
    requires !target.Active?
    requires IsNamed(target) ==> forall p :: p in ids && p in db.states ==> IsNamed(db.states[p])
    ensures Narrower(db, Moved(db, ids, target))
  {
  }

  /** So the zone survives the kill switch in either mode, and any quarantine, disabling or revocation of named peers. */
  lemma ZoneSurvivesMove(db: Source, ids: set<string>, target: PeerState)
    requires ValidZone(Build(db)) && !target.Active?
    requires IsNamed(target) ==> forall p :: p in ids && p in db.states ==> IsNamed(db.states[p])
    ensures ValidZone(Build(Moved(db, ids, target)))
  {
    MoveNarrows(db, ids, target);
    ZoneSurvives(db, Moved(db, ids, target));
  }

  // ----- a move that gives a name back -----

  function Uniform(bit: bool): Address { RawAddress(V4, seq(32, _ => bit)) }

  function PrinterA(): AddressText { AddressText(Uniform(false)) }

  function PrinterB(): AddressText { AddressText(Uniform(true)) }

  function Gateway(): AddressText { AddressText(RawAddress(V4, [true] + seq(31, _ => false))) }

  /** One peer and one address record, both called "a". */
  function Clash(state: PeerState): Source {
    Source("z", Gateway(), "gw", "", [], false, false, false, "",
           [], [PeerRow("p", Some("a"), Some(PrinterA()), None)], [AddressRecord("a", PrinterB())], map["p" := state])
  }

  lemma ClashNames()
    ensures Qualify("a", "z") == "a.z" && Qualify("gw", "z") == "gw.z"
  {
    assert Stripped("a") == "a" && WithoutDots("a") == "a" && Lowercase("a") == "a";
    assert Stripped("gw") == "gw" && WithoutDots("gw") == "gw" && Lowercase("gw") == "gw";
  }

  lemma ClashPeer(state: PeerState)
    ensures var db := Clash(state);
            PeerAdditions(db, db.peers) == if IsNamed(state) then [Addition(PrinterA(), "a.z")] else []
  {
    ClashNames();
    assert Clash(state).peers[1..] == [];
  }

  lemma ClashRecord(state: PeerState)
    ensures var db := Clash(state); RecordAdditions(db, db.records) == [Addition(PrinterB(), "a.z")] && Aliases(db, db.records) == []
  {
    ClashNames();
    assert Clash(state).records[1..] == [];
  }

  lemma ClashPublishes(state: PeerState)
    ensures var db := Clash(state); PublishedAdditions(db, PublishedNames(db)) == [] && !PortalNamed(db)
  {
  }

  lemma NothingPublished(db: Source)
    requires !PortalNamed(db) && PublishedAdditions(db, PublishedNames(db)) == []
    ensures Additions(db)
         == [Addition(db.gatewayIp, Qualify(db.gatewayLabel, db.zone))] + PeerAdditions(db, db.peers) + RecordAdditions(db, db.records)
  {
  }

  lemma ClashGateway(state: PeerState)
    ensures var db := Clash(state); Addition(db.gatewayIp, Qualify(db.gatewayLabel, db.zone)) == Addition(Gateway(), "gw.z")
  {
    ClashNames();
  }

  lemma ClashAdditions(state: PeerState)
    ensures Additions(Clash(state))
         == [Addition(Gateway(), "gw.z")] + (if IsNamed(state) then [Addition(PrinterA(), "a.z")] else []) + [Addition(PrinterB(), "a.z")]
  {
    ClashPublishes(state);
    NothingPublished(Clash(state));
    ClashGateway(state);
    ClashPeer(state);
    ClashRecord(state);
  }

  lemma ClashHostnames()
    ensures MatchesHostname("z") && MatchesHostname("a.z") && MatchesHostname("gw.z")
    ensures InZone("a.z", "z") && InZone("gw.z", "z")
  {
    assert "a.z"[1..] == "." + "z" && "gw.z"[2..] == "." + "z";
  }

  lemma ClashMoved()
    ensures Moved(Clash(Disabled), {"p"}, Quarantined) == Clash(Quarantined)
  {
    assert Moved(Clash(Disabled), {"p"}, Quarantined).states == Clash(Quarantined).states;
  }

  /** While a peer is disabled its name can be given to a record; quarantining the peer then breaks the zone. */
  lemma QuarantiningDisabledCanBreak()
    ensures Moved(Clash(Disabled), {"p"}, Quarantined) == Clash(Quarantined)
    ensures ValidZone(Build(Clash(Disabled)))
    ensures !ValidZone(Build(Clash(Quarantined)))
  {
    ClashMoved();
    ClashIsFineWhileDisabled();
    ClashIsWrongWhileQuarantined();
  }

  lemma TwoAdditionsOk(zone: string, a: Addition, b: Addition)
    requires a.address.AddressText? && b.address.AddressText? && a.name != b.name
    requires MatchesHostname(a.name) && MatchesHostname(b.name) && InZone(a.name, zone) && InZone(b.name, zone)
    ensures forall external :: AdditionsOk(zone, external, [a, b])
  {
  }

  /** Two names in the zone, and no alias. */
  lemma TwoNameZone(spec: DnsSpec, a: Addition, b: Addition)
    requires spec.hosts == Grouped([a, b]) && spec.cnames == [] && MatchesHostname(spec.zone)
    requires a.address.AddressText? && b.address.AddressText? && a.name != b.name
    requires MatchesHostname(a.name) && MatchesHostname(b.name) && InZone(a.name, spec.zone) && InZone(b.name, spec.zone)
    ensures ValidZone(spec)
  {
    TwoAdditionsOk(spec.zone, a, b);
    HostsOkMeans(spec, [a, b]);
  }

  lemma ClashIsFineWhileDisabled()
    ensures ValidZone(Build(Clash(Disabled)))
  {
    ClashAdditions(Disabled);
    ClashRecord(Disabled);
    ClashHostnames();
    var gw, printer := Addition(Gateway(), "gw.z"), Addition(PrinterB(), "a.z");
    assert Additions(Clash(Disabled)) == [gw, printer];
    TwoNameZone(Build(Clash(Disabled)), gw, printer);
  }

  lemma ClashIsWrongWhileQuarantined()
    ensures !ValidZone(Build(Clash(Quarantined)))
  {
    var db := Clash(Quarantined);
    ClashAdditions(Quarantined);
    var x, y := Addition(PrinterA(), "a.z"), Addition(PrinterB(), "a.z");
    assert Additions(db)[1] == x && Additions(db)[2] == y;
    assert PrinterA().address.bits[0] != PrinterB().address.bits[0];
    assert SameQuestion(x, y);
    HostsOkMeans(Build(db), Additions(db));
  }

  // ----- answers -----

  /** In a validated zone a name has one address of each family. */
  lemma OneAddressEach(spec: DnsSpec, i: nat, j: nat, name: string)
    requires ValidZone(spec) && i < |spec.hosts| && j < |spec.hosts|
    requires name in spec.hosts[i].names && name in spec.hosts[j].names
    requires spec.hosts[i].address.AddressText? && spec.hosts[j].address.AddressText?
    requires spec.hosts[i].address.address.family == spec.hosts[j].address.address.family
    ensures i == j
  {
    if i != j {
      ApartEitherWay(spec, i, j);
    }
  }

  /** An alias leads to a host name, which is no alias itself. */
  lemma OneHop(spec: DnsSpec, i: nat)
    requires ValidZone(spec) && i < |spec.cnames|
    ensures spec.cnames[i].target in KnownNames(spec.hosts)
    ensures forall j :: 0 <= j < |spec.cnames| ==> spec.cnames[j].alias_ != spec.cnames[i].target
    ensures forall j :: 0 <= j < |spec.cnames| && spec.cnames[j].alias_ == spec.cnames[i].alias_ ==> j == i
  {
    assert CnameOk(spec, spec.cnames[i]);
    forall j | 0 <= j < |spec.cnames|
      ensures spec.cnames[j].alias_ != spec.cnames[i].target
    {
      assert CnameOk(spec, spec.cnames[j]);
    }
  }
}
