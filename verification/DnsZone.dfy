/**
 The DNS zone of the tunnel: built from the database, validated before it is rendered.
 */
module DnsZone {
  import opened Wrappers
  import opened Net
  import opened Grammar
  import opened Text
  import opened NftModel
  import opened HaproxyModel

  // ----- names -----

  /** A zone-relative name, fully qualified. */
  function Qualify(name: string, zone: string): string {
    var trimmed := Lowercase(WithoutDots(Stripped(name)));
    if trimmed == zone || EndsWith(trimmed, "." + zone) then trimmed else trimmed + "." + zone
  }

  predicate InZone(name: string, zone: string) {
    name == zone || EndsWith(name, "." + zone)
  }

  lemma QualifiedInZone(name: string, zone: string)
    ensures InZone(Qualify(name, zone), zone)
  {
    var trimmed := Lowercase(WithoutDots(Stripped(name)));
    assert trimmed + "." + zone == trimmed + ("." + zone);
  }

  predicate Plain(zone: string) {
    && zone != ""
    && !Blank(zone[0]) && !Blank(zone[|zone| - 1]) && zone[|zone| - 1] != '.'
    && Lowercase(zone) == zone
  }

  lemma LowercaseTwice(s: string)
    ensures Lowercase(Lowercase(s)) == Lowercase(s)
  {
  }

  lemma LowercaseConcat(s: string, t: string)
    ensures Lowercase(s + t) == Lowercase(s) + Lowercase(t)
  {
  }

  /** A qualified name has no blank at either end and no dot behind. */
  lemma QualifiedEdges(name: string, zone: string)
    requires Plain(zone)
    ensures var r := Qualify(name, zone); r != "" && !Blank(r[0]) && !Blank(r[|r| - 1]) && r[|r| - 1] != '.'
  {
    var core := WithoutDots(Stripped(name));
    var trimmed, r := Lowercase(core), Qualify(name, zone);
    QualifiedInZone(name, zone);
    StrippedEdges(name);
    WithoutDotsPrefix(Stripped(name));
    assert r[|r| - 1] == zone[|zone| - 1];
    if trimmed != "" {
      assert r[0] == trimmed[0] == LowerChar(core[0]) && core[0] == Stripped(name)[0];
    }
  }

  lemma QualifiedLower(name: string, zone: string)
    requires Plain(zone)
    ensures Lowercase(Qualify(name, zone)) == Qualify(name, zone)
  {
    var core := WithoutDots(Stripped(name));
    LowercaseTwice(core);
    LowercaseConcat(Lowercase(core) + ".", zone);
    LowercaseConcat(Lowercase(core), ".");
    assert Lowercase(".") == ".";
  }

  /** Qualifying a qualified name changes nothing. */
  lemma QualifyTwice(name: string, zone: string)
    requires Plain(zone)
    ensures Qualify(Qualify(name, zone), zone) == Qualify(name, zone)
  {
    var r := Qualify(name, zone);
    QualifiedInZone(name, zone);
    QualifiedEdges(name, zone);
    QualifiedLower(name, zone);
    StrippedNothing(r);
    assert WithoutDots(r) == r;
  }

  // ----- the database -----

  datatype PeerRow = PeerRow(id: string, label_: Option<string>, tunnelIp: Option<AddressText>, tunnelIp6: Option<AddressText>)

  datatype ServiceRow = ServiceRow(enabled: bool, exposure: Exposure, internalHostname: string, upstream: Option<string>)

  datatype RecordRow = AddressRecord(name: string, address: AddressText) | AliasRecord(name: string, target: string)

  /** Settings and rows; the peers' states are kept apart, they are what operations change. */
  datatype Source = Source(
    zone: string,
    gatewayIp: AddressText,
    gatewayLabel: string,
    portalName: string,
    portalAddresses: seq<AddressText>,
    proxyEnabled: bool,
    stopsInternal: bool,
    stopsExternal: bool,
    dashboardHost: string,
    services: seq<ServiceRow>,
    peers: seq<PeerRow>,
    records: seq<RecordRow>,
    states: map<string, PeerState>)

  predicate IsNamed(s: PeerState) { s.Staging? || s.Quarantined? || s.Active? }

  /** `doors_for`: a service whose upstream is down loses the doors the settings say it loses. */
  function DoorsFor(s: ServiceRow, db: Source): Option<Exposure> {
    if !s.enabled then None
    else if s.upstream.None? || (s.upstream.value in db.states && db.states[s.upstream.value].Active?) then Some(s.exposure)
    else
      var keepInternal := s.exposure.Has(InternalDoor) && !db.stopsInternal;
      var keepExternal := s.exposure.Has(ExternalDoor) && !db.stopsExternal;
      if keepInternal && keepExternal then Some(Both)
      else if keepInternal then Some(Internal)
      else if keepExternal then Some(External)
      else None
  }

  predicate ServedInside(s: ServiceRow, db: Source) {
    DoorsFor(s, db).Some? && DoorsFor(s, db).value.Has(InternalDoor) && s.internalHostname != ""
  }

  // ----- the spec -----

  /** One address under one name. */
  datatype Addition = Addition(address: AddressText, name: string)

  datatype HostEntry = HostEntry(address: AddressText, names: seq<string>)

  datatype Cname = Cname(alias_: string, target: string)

  datatype DnsSpec = DnsSpec(zone: string, hosts: seq<HostEntry>, cnames: seq<Cname>, external: set<string>)

  function PeerAdditions(db: Source, peers: seq<PeerRow>): seq<Addition> {
    if peers == [] then []
    else
      var p, name := peers[0], if peers[0].label_.Some? then Qualify(peers[0].label_.value, db.zone) else "";
      (if p.label_.Some? && p.id in db.states && IsNamed(db.states[p.id])
       then (if p.tunnelIp.Some? then [Addition(p.tunnelIp.value, name)] else [])
            + (if p.tunnelIp6.Some? then [Addition(p.tunnelIp6.value, name)] else [])
       else [])
      + PeerAdditions(db, peers[1..])
  }

  function PortalAdditions(addresses: seq<AddressText>, name: string): seq<Addition> {
    if addresses == [] then [] else [Addition(addresses[0], name)] + PortalAdditions(addresses[1..], name)
  }

  function ServiceNames(db: Source, services: seq<ServiceRow>): seq<string> {
    if services == [] then []
    else
      (if ServedInside(services[0], db) then [Lowercase(services[0].internalHostname)] else []) + ServiceNames(db, services[1..])
  }

  function PublishedNames(db: Source): seq<string> {
    if !db.proxyEnabled then []
    else ServiceNames(db, db.services) + (if db.dashboardHost != "" then [Lowercase(db.dashboardHost)] else [])
  }

  function PublishedAdditions(db: Source, names: seq<string>): seq<Addition> {
    if names == [] then [] else [Addition(db.gatewayIp, names[0])] + PublishedAdditions(db, names[1..])
  }

  function RecordAdditions(db: Source, records: seq<RecordRow>): seq<Addition> {
    if records == [] then []
    else
      (if records[0].AddressRecord? then [Addition(records[0].address, Qualify(records[0].name, db.zone))] else [])
      + RecordAdditions(db, records[1..])
  }

  /** The portal has a name of its own once it has addresses of its own. */
  predicate PortalNamed(db: Source) { db.portalName != "" && db.portalAddresses != [] }

  /** Every address and name, in the order they are added. */
  function Additions(db: Source): seq<Addition> {
    [Addition(db.gatewayIp, Qualify(db.gatewayLabel, db.zone))]
    + PeerAdditions(db, db.peers)
    + (if PortalNamed(db) then PortalAdditions(db.portalAddresses, Lowercase(db.portalName)) else [])
    + PublishedAdditions(db, PublishedNames(db))
    + RecordAdditions(db, db.records)
  }

  /** Names answered although they lie outside the zone. */
  function ExternalNames(db: Source): set<string> {
    (if PortalNamed(db) && !EndsWith(Lowercase(db.portalName), "." + db.zone) then {Lowercase(db.portalName)} else {})
    + (set n | n in PublishedNames(db) && !EndsWith(n, "." + db.zone))
  }

  function Aliases(db: Source, records: seq<RecordRow>): seq<Cname> {
    if records == [] then []
    else
      (if records[0].AliasRecord? then [Cname(Qualify(records[0].name, db.zone), Qualify(records[0].target, db.zone))] else [])
      + Aliases(db, records[1..])
  }

  function AddTo(hosts: seq<HostEntry>, a: Addition): seq<HostEntry> {
    if hosts == [] then [HostEntry(a.address, [a.name])]
    else if hosts[0].address == a.address then
      [HostEntry(a.address, if a.name in hosts[0].names then hosts[0].names else hosts[0].names + [a.name])] + hosts[1..]
    else [hosts[0]] + AddTo(hosts[1..], a)
  }

  /** Grouped by address; the first name an address gets stays its first. */
  function Grouped(additions: seq<Addition>): seq<HostEntry>
    decreases |additions|
  {
    if additions == [] then []
    else AddTo(Grouped(additions[..|additions| - 1]), additions[|additions| - 1])
  }

  function KnownNames(hosts: seq<HostEntry>): set<string> {
    if hosts == [] then {} else (set n | n in hosts[0].names) + KnownNames(hosts[1..])
  }

  lemma {:induction false} KnownNamesMean(hosts: seq<HostEntry>, name: string)
    ensures name in KnownNames(hosts) <==> exists h :: h in hosts && name in h.names
  {
    if hosts != [] {
      KnownNamesMean(hosts[1..], name);
      assert hosts == [hosts[0]] + hosts[1..];
    }
  }

  /** Aliases whose target is gone are dropped: an ordinary operation must not break the zone. */
  function Living(aliases: seq<Cname>, known: set<string>): seq<Cname> {
    if aliases == [] then [] else (if aliases[0].target in known then [aliases[0]] else []) + Living(aliases[1..], known)
  }

  function Build(db: Source): DnsSpec {
    var hosts := Grouped(Additions(db));
    DnsSpec(db.zone, hosts, Living(Aliases(db, db.records), KnownNames(hosts)), ExternalNames(db))
  }

  method GroupAll(additions: seq<Addition>) returns (hosts: seq<HostEntry>)
    ensures hosts == Grouped(additions)
  {
    hosts := [];
    for i := 0 to |additions|
      invariant hosts == Grouped(additions[..i])
    {
      hosts := AddTo(hosts, additions[i]);
      assert additions[..i + 1][..i] == additions[..i];
    }
    assert additions[..|additions|] == additions;
  }

  method KeepLiving(aliases: seq<Cname>, known: set<string>) returns (cnames: seq<Cname>)
    ensures cnames == Living(aliases, known)
  {
    cnames := [];
    for i := 0 to |aliases|
      invariant cnames + Living(aliases[i..], known) == Living(aliases, known)
    {
      assert aliases[i..][1..] == aliases[i + 1..];
      if aliases[i].target in known {
        cnames := cnames + [aliases[i]];
      }
    }
  }

  /** `build_spec`: the additions in order, grouped as they come, then the aliases that still lead somewhere. */
  method BuildSpec(db: Source) returns (spec: DnsSpec)
    ensures spec == Build(db)
  {
    var hosts := GroupAll(Additions(db));
    var cnames := KeepLiving(Aliases(db, db.records), KnownNames(hosts));
    spec := DnsSpec(db.zone, hosts, cnames, ExternalNames(db));
  }

  // ----- validation -----

  datatype Problem =
    | BadZone | NotAnIp(i: nat) | DuplicateAddress(i: nat) | NoNames(i: nat) | BadName(name: string)
    | OutsideZone(name: string) | NameTaken(name: string)
    | BadAlias(name: string) | ShadowsHost(name: string) | DuplicateAlias(name: string) | PointsAtItself(name: string)
    | UnknownTarget(name: string)
    | BadPort | NegativeCache | RelativePath | BrokenPath | BadListener | BadPool | BadUpstream | BadOption

  predicate NameOk(spec: DnsSpec, name: string) {
    MatchesHostname(name) && (name in spec.external || InZone(name, spec.zone))
  }

  predicate HostOk(spec: DnsSpec, h: HostEntry) {
    h.address.AddressText? && h.names != [] && forall n :: n in h.names ==> NameOk(spec, n)
  }

  /** Two hosts of one family share no name. */
  predicate HostsApart(h: HostEntry, k: HostEntry) {
    && h.address != k.address
    && (h.address.AddressText? && k.address.AddressText? && h.address.address.family == k.address.address.family ==>
          forall n :: n in h.names ==> n !in k.names)
  }

  ghost predicate HostsOk(spec: DnsSpec, n: nat)
    requires n <= |spec.hosts|
  {
    && (forall i :: 0 <= i < n ==> HostOk(spec, spec.hosts[i]))
    && (forall i, j :: 0 <= i < j < n ==> HostsApart(spec.hosts[i], spec.hosts[j]))
  }

  predicate CnameOk(spec: DnsSpec, c: Cname) {
    var known := KnownNames(spec.hosts);
    && MatchesHostname(c.alias_) && InZone(c.alias_, spec.zone) && c.alias_ !in known
    && MatchesHostname(c.target) && c.target != c.alias_ && c.target in known
  }

  ghost predicate DistinctAliases(cnames: seq<Cname>, n: nat)
    requires n <= |cnames|
  {
    forall i, j :: 0 <= i < j < n ==> cnames[i].alias_ != cnames[j].alias_
  }

  ghost predicate CnamesOk(spec: DnsSpec, n: nat)
    requires n <= |spec.cnames|
  {
    (forall i :: 0 <= i < n ==> CnameOk(spec, spec.cnames[i])) && DistinctAliases(spec.cnames, n)
  }

  ghost predicate ValidZone(spec: DnsSpec) {
    MatchesHostname(spec.zone) && HostsOk(spec, |spec.hosts|) && CnamesOk(spec, |spec.cnames|)
  }

  type Owners = map<(string, Family), AddressText>

  function Claimed(owners: Owners, h: HostEntry, n: nat): Owners
    requires n <= |h.names| && h.address.AddressText?
  {
    if n == 0 then owners
    else Claimed(owners, h, n - 1)[(h.names[n - 1], h.address.address.family) := h.address]
  }

  lemma {:induction false} ClaimedMeans(owners: Owners, h: HostEntry, n: nat, name: string, f: Family)
    requires n <= |h.names| && h.address.AddressText?
    ensures (name, f) in Claimed(owners, h, n) <==> (name, f) in owners || (f == h.address.address.family && name in h.names[..n])
    ensures (name, f) in Claimed(owners, h, n) ==>
      Claimed(owners, h, n)[(name, f)] == if f == h.address.address.family && name in h.names[..n] then h.address else owners[(name, f)]
  {
    if n > 0 {
      ClaimedMeans(owners, h, n - 1, name, f);
      assert h.names[..n] == h.names[..n - 1] + [h.names[n - 1]];
    }
  }

  /** No owner of a name of this family is the host itself: it comes after the hosts recorded. */
  predicate Foreign(owners: Owners, h: HostEntry) {
    forall x :: x in owners ==> owners[x] != h.address
  }

  predicate NameFree(spec: DnsSpec, owners: Owners, h: HostEntry, name: string)
    requires h.address.AddressText?
  {
    NameOk(spec, name) && (name, h.address.address.family) !in owners
  }

  /** The names of one host, against those of the hosts before it. */
  method ValidateNames(spec: DnsSpec, h: HostEntry, owners: Owners) returns (errors: seq<Problem>, owners': Owners)
    requires h.address.AddressText?
    ensures Foreign(owners, h) ==> (errors == [] <==> AllFree(spec, owners, h, |h.names|))
    ensures errors == [] ==> owners' == Claimed(owners, h, |h.names|)
  {
    errors, owners' := [], owners;
    for i := 0 to |h.names|
      invariant Foreign(owners, h) ==> (errors == [] <==> AllFree(spec, owners, h, i))
      invariant errors == [] ==> owners' == Claimed(owners, h, i)
    {
      var found;
      found, owners' := ClaimName(spec, h, owners, i, owners');
      errors := errors + found;
    }
  }

  predicate AllFree(spec: DnsSpec, owners: Owners, h: HostEntry, n: nat)
    requires n <= |h.names| && h.address.AddressText?
  {
    forall j :: 0 <= j < n ==> NameFree(spec, owners, h, h.names[j])
  }

  method ClaimName(spec: DnsSpec, h: HostEntry, owners: Owners, i: nat, claimed: Owners)
    returns (errors: seq<Problem>, claimed': Owners)
    requires h.address.AddressText? && i < |h.names|
    ensures Foreign(owners, h) && claimed == Claimed(owners, h, i) && AllFree(spec, owners, h, i) ==>
      (errors == [] <==> NameFree(spec, owners, h, h.names[i]))
    ensures claimed == Claimed(owners, h, i) && errors == [] ==> claimed' == Claimed(owners, h, i + 1)
  {
    errors := ValidateName(spec, h, h.names[i], claimed);
    ClaimedMeans(owners, h, i, h.names[i], h.address.address.family);
    claimed' := if MatchesHostname(h.names[i]) then claimed[(h.names[i], h.address.address.family) := h.address] else claimed;
  }

  method ValidateName(spec: DnsSpec, h: HostEntry, name: string, owners: Owners) returns (errors: seq<Problem>)
    requires h.address.AddressText?
    ensures errors == [] <==>
      NameOk(spec, name) && ((name, h.address.address.family) in owners ==> owners[(name, h.address.address.family)] == h.address)
  {
    errors := [];
    if !MatchesHostname(name) {
      return [BadName(name)];
    }
    if name !in spec.external && !InZone(name, spec.zone) {
      errors := errors + [OutsideZone(name)];
    }
    var key := (name, h.address.address.family);
    if key in owners && owners[key] != h.address {
      errors := errors + [NameTaken(name)];
    }
  }

  ghost predicate AllAddressed(hosts: seq<HostEntry>, k: nat)
    requires k <= |hosts|
  {
    forall i :: 0 <= i < k ==> hosts[i].address.AddressText?
  }

  ghost function AllOwners(hosts: seq<HostEntry>, k: nat): Owners
    requires k <= |hosts| && AllAddressed(hosts, k)
  {
    if k == 0 then map[] else Claimed(AllOwners(hosts, k - 1), hosts[k - 1], |hosts[k - 1].names|)
  }

  ghost predicate NamedBy(h: HostEntry, name: string, f: Family) {
    h.address.AddressText? && h.address.address.family == f && name in h.names
  }

  lemma {:induction false} AllOwnersMean(hosts: seq<HostEntry>, k: nat, name: string, f: Family)
    requires k <= |hosts| && AllAddressed(hosts, k)
    ensures (name, f) in AllOwners(hosts, k) <==> exists i :: 0 <= i < k && NamedBy(hosts[i], name, f)
    ensures (name, f) in AllOwners(hosts, k) ==> exists i :: 0 <= i < k && AllOwners(hosts, k)[(name, f)] == hosts[i].address
  {
    if k > 0 {
      var h := hosts[k - 1];
      AllOwnersMean(hosts, k - 1, name, f);
      ClaimedMeans(AllOwners(hosts, k - 1), h, |h.names|, name, f);
      assert h.names[..|h.names|] == h.names;
    }
  }

  ghost predicate Fits(spec: DnsSpec, k: nat)
    requires k < |spec.hosts|
  {
    HostOk(spec, spec.hosts[k]) && forall i :: 0 <= i < k ==> HostsApart(spec.hosts[i], spec.hosts[k])
  }

  /** The checks on one host are its share of `HostsOk`. */
  lemma HostFits(spec: DnsSpec, k: nat)
    requires k < |spec.hosts| && AllAddressed(spec.hosts, k) && spec.hosts[k].address.AddressText?
    requires forall i :: 0 <= i < k ==> spec.hosts[i].address != spec.hosts[k].address
    ensures Foreign(AllOwners(spec.hosts, k), spec.hosts[k])
    ensures Fits(spec, k) <==>
      && spec.hosts[k].names != []
      && forall j :: 0 <= j < |spec.hosts[k].names| ==> NameFree(spec, AllOwners(spec.hosts, k), spec.hosts[k], spec.hosts[k].names[j])
  {
    var h, owners := spec.hosts[k], AllOwners(spec.hosts, k);
    var f := h.address.address.family;
    forall x | x in owners
      ensures owners[x] != h.address
    {
      AllOwnersMean(spec.hosts, k, x.0, x.1);
    }
    forall j | 0 <= j < |h.names|
      ensures (h.names[j], f) in owners <==> exists i :: 0 <= i < k && NamedBy(spec.hosts[i], h.names[j], f)
    {
      AllOwnersMean(spec.hosts, k, h.names[j], f);
    }
    NamesFreeMeans(spec, k, owners);
  }

  lemma NamesFreeMeans(spec: DnsSpec, k: nat, owners: Owners)
    requires k < |spec.hosts| && AllAddressed(spec.hosts, k) && spec.hosts[k].address.AddressText?
    requires forall i :: 0 <= i < k ==> spec.hosts[i].address != spec.hosts[k].address
    requires var h := spec.hosts[k];
             forall j :: 0 <= j < |h.names| ==>
               ((h.names[j], h.address.address.family) in owners
                <==> exists i :: 0 <= i < k && NamedBy(spec.hosts[i], h.names[j], h.address.address.family))
    ensures Fits(spec, k) <==>
      && spec.hosts[k].names != []
      && forall j :: 0 <= j < |spec.hosts[k].names| ==> NameFree(spec, owners, spec.hosts[k], spec.hosts[k].names[j])
  {
    var h := spec.hosts[k];
    var f := h.address.address.family;
    if Fits(spec, k) {
      forall j | 0 <= j < |h.names|
        ensures (h.names[j], f) !in owners
      {
        forall i | 0 <= i < k
          ensures !NamedBy(spec.hosts[i], h.names[j], f)
        {
          assert HostsApart(spec.hosts[i], h) && h.names[j] in h.names;
        }
      }
    }
    if h.names != [] && forall j :: 0 <= j < |h.names| ==> NameFree(spec, owners, h, h.names[j]) {
      forall n | n in h.names
        ensures NameOk(spec, n) && forall i :: 0 <= i < k ==> !NamedBy(spec.hosts[i], n, f)
      {
        var j :| 0 <= j < |h.names| && h.names[j] == n;
        assert NameFree(spec, owners, h, h.names[j]);
      }
      forall i | 0 <= i < k
        ensures HostsApart(spec.hosts[i], h)
      {
        forall n | n in spec.hosts[i].names && spec.hosts[i].address.address.family == f
          ensures n !in h.names
        {
          assert NamedBy(spec.hosts[i], n, f);
        }
      }
    }
  }

  /** What is remembered of the hosts before `k`, as long as none of them was wrong. */
  ghost predicate Accounted(spec: DnsSpec, k: nat, seen: set<AddressText>, owners: Owners)
    requires k <= |spec.hosts|
  {
    && AllAddressed(spec.hosts, k) && owners == AllOwners(spec.hosts, k)
    && forall a :: a in seen <==> exists i :: 0 <= i < k && spec.hosts[i].address == a
  }

  method ValidateHost(spec: DnsSpec, k: nat, seen: set<AddressText>, owners: Owners)
    returns (errors: seq<Problem>, seen': set<AddressText>, owners': Owners)
    requires k < |spec.hosts|
    ensures Accounted(spec, k, seen, owners) ==> (errors == [] <==> Fits(spec, k))
    ensures Accounted(spec, k, seen, owners) && errors == [] ==> Accounted(spec, k + 1, seen', owners')
  {
    var h := spec.hosts[k];
    if h.address.NotAnAddress? {
      return [NotAnIp(k)], seen, owners;
    }
    errors := (if h.address in seen then [DuplicateAddress(k)] else []) + (if h.names == [] then [NoNames(k)] else []);
    seen' := seen + {h.address};
    var found;
    found, owners' := ValidateNames(spec, h, owners);
    if Accounted(spec, k, seen, owners) && h.address !in seen {
      HostFits(spec, k);
    }
    errors := errors + found;
  }

  /** The hosts, one after the other, however many of them are wrong. */
  method ValidateHosts(spec: DnsSpec) returns (errors: seq<Problem>)
    ensures errors == [] <==> HostsOk(spec, |spec.hosts|)
  {
    var seen: set<AddressText>, owners: Owners := {}, map[];
    errors := [];
    for k := 0 to |spec.hosts|
      invariant errors == [] <==> HostsOk(spec, k)
      invariant errors == [] ==> Accounted(spec, k, seen, owners)
    {
      var found;
      found, seen, owners := ValidateHost(spec, k, seen, owners);
      FitsIsNeeded(spec, k);
      errors := errors + found;
    }
  }

  lemma FitsIsNeeded(spec: DnsSpec, k: nat)
    requires k < |spec.hosts|
    ensures HostsOk(spec, k + 1) <==> HostsOk(spec, k) && Fits(spec, k)
  {
  }

  method ValidateCname(spec: DnsSpec, c: Cname, seen: set<string>) returns (errors: seq<Problem>)
    ensures errors == [] <==> CnameOk(spec, c) && c.alias_ !in seen
  {
    var known := KnownNames(spec.hosts);
    errors := [];
    if !MatchesHostname(c.alias_) {
      errors := errors + [BadAlias(c.alias_)];
    } else {
      if !InZone(c.alias_, spec.zone) {
        errors := errors + [OutsideZone(c.alias_)];
      }
      if c.alias_ in known {
        errors := errors + [ShadowsHost(c.alias_)];
      }
      if c.alias_ in seen {
        errors := errors + [DuplicateAlias(c.alias_)];
      }
    }
    if !MatchesHostname(c.target) {
      errors := errors + [BadName(c.target)];
    } else if c.target == c.alias_ {
      errors := errors + [PointsAtItself(c.alias_)];
    } else if c.target !in known {
      errors := errors + [UnknownTarget(c.target)];
    }
  }

  function AliasNames(cnames: seq<Cname>, n: nat): set<string>
    requires n <= |cnames|
  {
    if n == 0 then {} else AliasNames(cnames, n - 1) + {cnames[n - 1].alias_}
  }

  lemma {:induction false} AliasNamesMean(cnames: seq<Cname>, n: nat, name: string)
    requires n <= |cnames|
    ensures name in AliasNames(cnames, n) <==> exists j :: 0 <= j < n && cnames[j].alias_ == name
  {
    if n > 0 {
      AliasNamesMean(cnames, n - 1, name);
    }
  }

  lemma DistinctStep(cnames: seq<Cname>, i: nat)
    requires i < |cnames|
    ensures DistinctAliases(cnames, i + 1) <==> DistinctAliases(cnames, i) && cnames[i].alias_ !in AliasNames(cnames, i)
  {
    AliasNamesMean(cnames, i, cnames[i].alias_);
  }

  method ValidateCnames(spec: DnsSpec) returns (errors: seq<Problem>)
    ensures errors == [] <==> CnamesOk(spec, |spec.cnames|)
  {
    var seen: set<string> := {};
    errors := [];
    for i := 0 to |spec.cnames|
      invariant errors == [] <==> CnamesOk(spec, i)
      invariant seen == AliasNames(spec.cnames, i)
    {
      var found := ValidateCname(spec, spec.cnames[i], seen);
      DistinctStep(spec.cnames, i);
      errors := errors + found;
      seen := seen + {spec.cnames[i].alias_};
    }
  }

  // ----- the resolver's own settings -----

  /** An upstream, `address` or `address#port`, or a text that is neither. */
  datatype Upstream = NotAnUpstream | Upstream(address: AddressText, port: Option<nat>)

  datatype Settings = Settings(
    port: int, cacheSize: int, hostsPath: string, listen: seq<AddressText>, pools: seq<CidrText>,
    upstreams: seq<Upstream>, options: seq<string>)

  predicate OneLine(s: string) {
    forall i :: 0 <= i < |s| ==> s[i] != '\n' && s[i] != '\r'
  }

  /** `[a-z0-9-]+` and, behind a `=`, anything on one line. */
  predicate OptionText(s: string) {
    exists k :: 1 <= k <= |s| && OptionName(s[..k]) && (k == |s| || (s[k] == '=' && OneLine(s[k + 1..])))
  }

  predicate OptionName(s: string) {
    forall i :: 0 <= i < |s| ==> Lower(s[i]) || Digit(s[i]) || s[i] == '-'
  }

  predicate PortInRange(p: int) { 1 <= p <= 65535 }

  predicate UpstreamOk(u: Upstream) {
    u.Upstream? && u.address.AddressText? && (u.port.Some? ==> PortInRange(u.port.value))
  }

  ghost predicate SettingsOk(s: Settings) {
    && PortInRange(s.port) && s.cacheSize >= 0
    && s.hostsPath != "" && s.hostsPath[0] == '/' && OneLine(s.hostsPath)
    && (forall a :: a in s.listen ==> a.AddressText?)
    && (forall c :: c in s.pools ==> ParseCidr(c).Some?)
    && (forall u :: u in s.upstreams ==> UpstreamOk(u))
    && (forall o :: o in s.options ==> OptionText(Chomp(o)))
  }

  method CheckEach<T>(items: seq<T>, ok: T -> bool, problem: Problem) returns (errors: seq<Problem>)
    ensures errors == [] <==> forall x :: x in items ==> ok(x)
  {
    errors := [];
    for i := 0 to |items|
      invariant errors == [] <==> forall k :: 0 <= k < i ==> ok(items[k])
    {
      if !ok(items[i]) {
        errors := errors + [problem];
      }
    }
  }

  method ValidateSettings(s: Settings) returns (errors: seq<Problem>)
    ensures errors == [] <==> SettingsOk(s)
  {
    var port := if PortInRange(s.port) then [] else [BadPort];
    var cache := if s.cacheSize < 0 then [NegativeCache] else [];
    var absolute := if s.hostsPath != "" && s.hostsPath[0] == '/' then [] else [RelativePath];
    var line := if OneLine(s.hostsPath) then [] else [BrokenPath];
    var listen := CheckEach(s.listen, (a: AddressText) => a.AddressText?, BadListener);
    var pools := CheckEach(s.pools, (c: CidrText) => ParseCidr(c).Some?, BadPool);
    var upstreams := CheckEach(s.upstreams, u => UpstreamOk(u), BadUpstream);
    var options := CheckEach(s.options, o => OptionText(Chomp(o)), BadOption);
    errors := port + cache + absolute + line + listen + pools + upstreams + options;
  }

  /** `validate_spec`: the settings, and then the zone, whatever was wrong before. */
  method ValidateSpec(spec: DnsSpec, settings: Settings) returns (errors: seq<Problem>)
    ensures errors == [] <==> SettingsOk(settings) && ValidZone(spec)
  {
    var zone := if MatchesHostname(spec.zone) then [] else [BadZone];
    var own := ValidateSettings(settings);
    var hosts := ValidateHosts(spec);
    var cnames := ValidateCnames(spec);
    errors := zone + own + hosts + cnames;
  }
}
