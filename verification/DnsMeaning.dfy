/**
 What the DNS zone of a database says, read from the settings and rows alone.
 */
module DnsMeaning {
  import opened Wrappers
  import opened Net
  import opened Text
  import opened NftModel
  import opened HaproxyModel
  import opened DnsZone
  import opened DnsNarrowing
  import opened DnsRegain

  // ----- names -----

  /** A plain label gets the zone behind it, a name of the zone is left alone, and blanks, dots behind and capitals do not count. */
  lemma QualifyMeans(name: string, zone: string)
    ensures var bare := Lowercase(WithoutDots(Stripped(name)));
            Qualify(name, zone)
            == if bare == zone || exists label_ :: bare == label_ + "." + zone then bare else bare + "." + zone
  {
    SuffixMeans(Lowercase(WithoutDots(Stripped(name))), zone);
  }

  // ----- addresses -----

  predicate HasName(s: PeerState) { !s.Disabled? && !s.Revoked? }

  predicate IsActive(db: Source, id: string) { id in db.states && db.states[id].Active? }

  /** A service answers inside when it is enabled and published there, and its peer is up or does not matter. */
  predicate AnswersInside(db: Source, s: ServiceRow) {
    && db.proxyEnabled && s.enabled && !s.exposure.External? && s.internalHostname != ""
    && (s.upstream.None? || IsActive(db, s.upstream.value) || !db.stopsInternal)
  }

  /** The name leads to the address: the gateway's, a peer's, the portal's, a published service's, the dashboard's or a record's. */
  predicate Leads(db: Source, a: Addition) {
    || a == Addition(db.gatewayIp, Qualify(db.gatewayLabel, db.zone))
    || (exists p :: p in db.peers && p.id in db.states && HasName(db.states[p.id]) && p.label_.Some?
                    && a.name == Qualify(p.label_.value, db.zone) && (p.tunnelIp == Some(a.address) || p.tunnelIp6 == Some(a.address)))
    || (db.portalName != "" && a.address in db.portalAddresses && a.name == Lowercase(db.portalName))
    || (exists s :: s in db.services && AnswersInside(db, s) && a == Addition(db.gatewayIp, Lowercase(s.internalHostname)))
    || (db.proxyEnabled && db.dashboardHost != "" && a == Addition(db.gatewayIp, Lowercase(db.dashboardHost)))
    || (exists r :: r in db.records && r.AddressRecord? && a == Addition(r.address, Qualify(r.name, db.zone)))
  }

  lemma {:induction false} PortalMeans(addresses: seq<AddressText>, name: string, a: Addition)
    ensures a in PortalAdditions(addresses, name) <==> a.address in addresses && a.name == name
  {
    if addresses != [] {
      PortalMeans(addresses[1..], name, a);
      assert addresses == [addresses[0]] + addresses[1..];
    }
  }

  lemma {:induction false} RecordsMean(db: Source, records: seq<RecordRow>, a: Addition)
    ensures a in RecordAdditions(db, records)
       <==> exists r :: r in records && r.AddressRecord? && a == Addition(r.address, Qualify(r.name, db.zone))
  {
    if records != [] {
      RecordsMean(db, records[1..], a);
      assert records == [records[0]] + records[1..];
    }
  }

  lemma InsideMeans(db: Source, s: ServiceRow)
    requires db.proxyEnabled
    ensures ServedInside(s, db) <==> AnswersInside(db, s)
  {
  }

  lemma PublishedNameMeans(db: Source, n: string)
    ensures n in PublishedNames(db)
       <==> || (exists s :: s in db.services && AnswersInside(db, s) && n == Lowercase(s.internalHostname))
            || (db.proxyEnabled && db.dashboardHost != "" && n == Lowercase(db.dashboardHost))
  {
    if db.proxyEnabled {
      ServiceNamesMean(db, db.services, n);
      forall s
        ensures ServedInside(s, db) <==> AnswersInside(db, s)
      {
        InsideMeans(db, s);
      }
    }
  }

  lemma PeersMean(db: Source, a: Addition)
    ensures a in PeerAdditions(db, db.peers)
       <==> exists p :: p in db.peers && p.id in db.states && HasName(db.states[p.id]) && p.label_.Some?
                        && a.name == Qualify(p.label_.value, db.zone) && (p.tunnelIp == Some(a.address) || p.tunnelIp6 == Some(a.address))
  {
    PeerAdditionsMean(db, db.peers, a);
  }

  lemma AdditionsMean(db: Source, a: Addition)
    ensures a in Additions(db) <==> Leads(db, a)
  {
    AdditionsSplit(db, a);
    PeersMean(db, a);
    PortalMeans(db.portalAddresses, Lowercase(db.portalName), a);
    PublishedMeans(db, PublishedNames(db), a);
    PublishedNameMeans(db, a.name);
    RecordsMean(db, db.records, a);
  }

  /** The zone lists a name under an address exactly where the rows lead it there. */
  lemma ZoneMeans(db: Source, x: AddressText, name: string)
    ensures (exists h :: h in Build(db).hosts && h.address == x && name in h.names) <==> Leads(db, Addition(x, name))
  {
    GroupedMeans(Additions(db), x, name);
    AdditionsMean(db, Addition(x, name));
    assert Listed(Build(db).hosts, x, name) <==> exists h :: h in Build(db).hosts && h.address == x && name in h.names;
  }

  // ----- aliases -----

  lemma {:induction false} AliasRowsMean(db: Source, records: seq<RecordRow>, c: Cname)
    ensures c in Aliases(db, records)
       <==> exists r :: r in records && r.AliasRecord? && c.alias_ == Qualify(r.name, db.zone) && c.target == Qualify(r.target, db.zone)
  {
    if records != [] {
      AliasRowsMean(db, records[1..], c);
      assert records == [records[0]] + records[1..];
    }
  }

  /** An alias is in the zone exactly when a record makes its name one of a name the zone leads somewhere. */
  lemma AliasesMean(db: Source, c: Cname)
    ensures c in Build(db).cnames
       <==> && (exists r :: r in db.records && r.AliasRecord? && c.alias_ == Qualify(r.name, db.zone) && c.target == Qualify(r.target, db.zone))
            && exists x :: Leads(db, Addition(x, c.target))
  {
    LivingMember(Aliases(db, db.records), KnownNames(Build(db).hosts), c);
    AliasRowsMean(db, db.records, c);
    KnownMeans(Additions(db), c.target);
    forall x
      ensures Addition(x, c.target) in Additions(db) <==> Leads(db, Addition(x, c.target))
    {
      AdditionsMean(db, Addition(x, c.target));
    }
  }

  // ----- names outside the zone -----

  /** Excused from being in the zone are exactly the portal and what is published, where they are outside it. */
  lemma ExternalMeans(db: Source, n: string)
    ensures n in Build(db).external
       <==> && !(exists label_ :: n == label_ + "." + db.zone)
            && (|| (db.portalName != "" && db.portalAddresses != [] && n == Lowercase(db.portalName))
                || (exists s :: s in db.services && AnswersInside(db, s) && n == Lowercase(s.internalHostname))
                || (db.proxyEnabled && db.dashboardHost != "" && n == Lowercase(db.dashboardHost)))
  {
    PublishedNameMeans(db, n);
    SuffixMeans(n, db.zone);
    if PortalNamed(db) {
      SuffixMeans(Lowercase(db.portalName), db.zone);
    }
  }

  lemma SuffixMeans(n: string, zone: string)
    ensures EndsWith(n, "." + zone) <==> exists label_ :: n == label_ + "." + zone
  {
    if EndsWith(n, "." + zone) {
      var k := |n| - |"." + zone|;
      assert n == n[..k] + ("." + zone);
      assert n == n[..k] + "." + zone;
    }
    if label_ :| n == label_ + "." + zone {
      assert n == label_ + ("." + zone);
      assert n[|n| - |"." + zone|..] == "." + zone;
    }
  }

  // ----- the name an address answers to -----

  /** The first addition of an address. */
  predicate FirstOf(additions: seq<Addition>, k: nat) {
    k < |additions| && forall i :: 0 <= i < k ==> additions[i].address != additions[k].address
  }

  predicate Answers(hosts: seq<HostEntry>, x: AddressText, name: string) {
    exists h :: h in hosts && h.address == x && h.names != [] && h.names[0] == name
  }

  lemma {:induction false} AddToKeepsFirst(hosts: seq<HostEntry>, a: Addition, x: AddressText, name: string)
    requires NoneEmpty(hosts)
    ensures Answers(hosts, x, name) ==> Answers(AddTo(hosts, a), x, name)
    ensures (forall h :: h in hosts ==> h.address != a.address) ==> Answers(AddTo(hosts, a), a.address, a.name)
  {
    if hosts == [] {
      assert AddTo(hosts, a)[0] in AddTo(hosts, a);
    } else {
      assert hosts == [hosts[0]] + hosts[1..];
      if hosts[0].address == a.address {
        var first := AddTo(hosts, a)[0];
        assert forall g :: g in AddTo(hosts, a) <==> g == first || g in hosts[1..];
        assert hosts[0] in hosts && first in AddTo(hosts, a);
      } else {
        AddToKeepsFirst(hosts[1..], a, x, name);
        assert forall h :: h in AddTo(hosts, a) <==> h == hosts[0] || h in AddTo(hosts[1..], a);
      }
    }
  }

  /** A host entry comes from an addition for its address. */
  lemma HostWasAdded(additions: seq<Addition>, h: HostEntry)
    requires h in Grouped(additions)
    ensures exists a :: a in additions && a.address == h.address
  {
    GroupedMeans(additions, h.address, "");
    var name := h.names[0];
    assert name in h.names;
    GroupedMeans(additions, h.address, name);
    assert Listed(Grouped(additions), h.address, name);
    assert Addition(h.address, name) in additions;
  }

  lemma AnswersStay(additions: seq<Addition>, a: Addition, x: AddressText, name: string)
    requires Answers(Grouped(additions), x, name)
    ensures Answers(AddTo(Grouped(additions), a), x, name)
  {
    GroupedMeans(additions, x, name);
    AddToKeepsFirst(Grouped(additions), a, x, name);
  }

  lemma NewAddressAnswers(additions: seq<Addition>, a: Addition)
    requires forall b :: b in additions ==> b.address != a.address
    ensures Answers(AddTo(Grouped(additions), a), a.address, a.name)
  {
    var hosts := Grouped(additions);
    forall h | h in hosts
      ensures h.address != a.address
    {
      HostWasAdded(additions, h);
    }
    GroupedMeans(additions, a.address, a.name);
    AddToKeepsFirst(hosts, a, a.address, a.name);
  }

  /** What dnsmasq answers for an address is the name it got first. */
  lemma {:induction false} FirstNameAnswers(additions: seq<Addition>, k: nat)
    requires FirstOf(additions, k)
    ensures Answers(Grouped(additions), additions[k].address, additions[k].name)
    decreases |additions|
  {
    var n := |additions| - 1;
    var before, last := additions[..n], additions[n];
    if k < n {
      assert FirstOf(before, k);
      FirstNameAnswers(before, k);
      AnswersStay(before, last, additions[k].address, additions[k].name);
    } else {
      NewAddressAnswers(before, last);
    }
  }

  /** The gateway's address answers to the gateway's name, whatever else is published on it. */
  lemma GatewayAnswers(db: Source)
    ensures Answers(Build(db).hosts, db.gatewayIp, Qualify(db.gatewayLabel, db.zone))
  {
    assert Additions(db)[0] == Addition(db.gatewayIp, Qualify(db.gatewayLabel, db.zone));
    FirstNameAnswers(Additions(db), 0);
  }

  lemma BehindOne(first: Addition, middle: seq<Addition>, rest: seq<Addition>, k: nat)
    requires FirstOf(middle, k) && middle[k].address != first.address
    ensures var all := [first] + middle + rest; FirstOf(all, k + 1) && all[k + 1] == middle[k]
  {
    var all := [first] + middle + rest;
    forall i | 0 <= i < k + 1
      ensures all[i].address != middle[k].address
    {
      if i > 0 {
        assert all[i] == middle[i - 1];
      }
    }
  }

  lemma GatewayThenPeers(db: Source) returns (rest: seq<Addition>)
    ensures Additions(db) == [Addition(db.gatewayIp, Qualify(db.gatewayLabel, db.zone))] + PeerAdditions(db, db.peers) + rest
  {
    var portal := if PortalNamed(db) then PortalAdditions(db.portalAddresses, Lowercase(db.portalName)) else [];
    rest := portal + PublishedAdditions(db, PublishedNames(db)) + RecordAdditions(db, db.records);
    Regroup([Addition(db.gatewayIp, Qualify(db.gatewayLabel, db.zone))] + PeerAdditions(db, db.peers), portal,
            PublishedAdditions(db, PublishedNames(db)), RecordAdditions(db, db.records));
  }

  lemma Regroup(a: seq<Addition>, b: seq<Addition>, c: seq<Addition>, d: seq<Addition>)
    ensures a + b + c + d == a + (b + c + d)
  {
  }

  /** A tunnel address answers to the name of a peer that has it, whatever portal, service or record names it too. */
  lemma PeerAnswers(db: Source, a: Addition)
    requires a in PeerAdditions(db, db.peers) && a.address != db.gatewayIp
    ensures exists b :: b in PeerAdditions(db, db.peers) && b.address == a.address && Answers(Build(db).hosts, a.address, b.name)
  {
    var gateway, peers := Addition(db.gatewayIp, Qualify(db.gatewayLabel, db.zone)), PeerAdditions(db, db.peers);
    var j :| 0 <= j < |peers| && peers[j] == a;
    var k := Earliest(peers, j);
    var rest := GatewayThenPeers(db);
    BehindOne(gateway, peers, rest, k);
    FirstNameAnswers([gateway] + peers + rest, k + 1);
    assert peers[k] in peers;
  }

  lemma {:induction false} Earliest(additions: seq<Addition>, j: nat) returns (k: nat)
    requires j < |additions|
    ensures k <= j && FirstOf(additions, k) && additions[k].address == additions[j].address
  {
    if FirstOf(additions, j) {
      k := j;
    } else {
      var i :| 0 <= i < j && additions[i].address == additions[j].address;
      k := Earliest(additions, i);
    }
  }
}
