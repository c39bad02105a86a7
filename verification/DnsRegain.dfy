/**
 A move that gives names back. A disabled or revoked peer has no name, and the services of a peer
 that is not active may not be served; those names, or the addresses behind them, may have been
 given to something else. This is exactly when moving peers to staging, quarantine or active
 leaves a valid zone valid.
 */
module DnsRegain {
  import opened Wrappers
  import opened Grammar
  import opened Text
  import opened NftModel
  import opened HaproxyModel
  import opened DnsZone
  import opened DnsNarrowing

  // ----- the zone after the move, read from the rows before it -----

  /** The addition of one address of the peer. */
  predicate NameOf(zone: string, p: PeerRow, a: Addition) {
    && p.label_.Some? && a.name == Qualify(p.label_.value, zone)
    && (p.tunnelIp == Some(a.address) || p.tunnelIp6 == Some(a.address))
  }

  /** A moved peer without a name today gets this one. */
  predicate NameRegained(db: Source, ids: set<string>, a: Addition) {
    exists p :: p in db.peers && p.id in ids && p.id in db.states && !IsNamed(db.states[p.id]) && NameOf(db.zone, p, a)
  }

  /** A service that is closed inside while its peer is not active, and open again once it is. */
  predicate Reopened(db: Source, ids: set<string>, s: ServiceRow) {
    && db.proxyEnabled && db.stopsInternal
    && s.enabled && s.exposure.Has(InternalDoor) && s.internalHostname != ""
    && s.upstream.Some? && s.upstream.value in ids && s.upstream.value in db.states && !db.states[s.upstream.value].Active?
  }

  predicate ServiceRegained(db: Source, ids: set<string>, a: Addition) {
    exists s :: s in db.services && Reopened(db, ids, s) && a == Addition(db.gatewayIp, Lowercase(s.internalHostname))
  }

  /** What a move to this state gives back: names, and to active peers the services behind them. */
  predicate Regained(db: Source, ids: set<string>, target: PeerState, a: Addition) {
    NameRegained(db, ids, a) || (target.Active? && ServiceRegained(db, ids, a))
  }

  /** The database without the moved peers: nothing they serve, nothing they are called. */
  function Without(db: Source, ids: set<string>): Source {
    db.(states := db.states - ids)
  }

  /** Added today by what does not hang on the moved peers, or as the name one of them keeps. */
  predicate Kept(db: Source, ids: set<string>, a: Addition) {
    || a in Additions(Without(db, ids))
    || exists p :: p in db.peers && p.id in ids && p.id in db.states && IsNamed(db.states[p.id]) && NameOf(db.zone, p, a)
  }

  /** Added today and still added afterwards: a move to active takes nothing away. */
  predicate Standing(db: Source, ids: set<string>, target: PeerState, a: Addition) {
    if target.Active? then a in Additions(db) else Kept(db, ids, a)
  }

  ghost predicate KnownAfter(db: Source, ids: set<string>, target: PeerState, name: string) {
    exists x :: Standing(db, ids, target, Addition(x, name)) || Regained(db, ids, target, Addition(x, name))
  }

  /** An alias that led nowhere and leads somewhere again. */
  ghost predicate Revived(db: Source, ids: set<string>, target: PeerState, c: Cname) {
    KnownAfter(db, ids, target, c.target) && c.target !in KnownNames(Build(db).hosts)
  }

  // ----- the condition -----

  /** Each regained name is fit to be served. */
  ghost predicate RegainedFit(db: Source, ids: set<string>, target: PeerState) {
    forall a :: Regained(db, ids, target, a) ==> a.address.AddressText? && MatchesHostname(a.name)
  }

  /** Nothing else answers a regained name in the same family with another address. */
  ghost predicate RegainedFree(db: Source, ids: set<string>, target: PeerState) {
    forall a, b :: Regained(db, ids, target, a) && (Regained(db, ids, target, b) || Standing(db, ids, target, b)) && SameQuestion(a, b) ==>
      a.address == b.address
  }

  /** No alias in use carries a regained name. */
  ghost predicate NoAliasTaken(db: Source, ids: set<string>, target: PeerState) {
    forall c, x :: c in Aliases(db, db.records) && KnownAfter(db, ids, target, c.target) ==> !Regained(db, ids, target, Addition(x, c.alias_))
  }

  /** A revived alias is acceptable: a name of its own that no host and no other alias in use has. */
  ghost predicate RevivedFit(db: Source, ids: set<string>, target: PeerState) {
    var aliases := Aliases(db, db.records);
    && (forall c :: c in aliases && Revived(db, ids, target, c) ==>
          MatchesHostname(c.alias_) && c.alias_ != c.target && !KnownAfter(db, ids, target, c.alias_))
    && (forall i, j | 0 <= i < |aliases| && 0 <= j < |aliases| && i != j ::
          Revived(db, ids, target, aliases[i]) && KnownAfter(db, ids, target, aliases[j].target) ==> aliases[i].alias_ != aliases[j].alias_)
  }

  ghost predicate MayRegain(db: Source, ids: set<string>, target: PeerState) {
    RegainedFit(db, ids, target) && RegainedFree(db, ids, target) && NoAliasTaken(db, ids, target) && RevivedFit(db, ids, target)
  }

  // ----- the additions -----

  lemma {:induction false} PeerAdditionsMean(db: Source, peers: seq<PeerRow>, a: Addition)
    ensures a in PeerAdditions(db, peers)
       <==> exists p :: p in peers && p.id in db.states && IsNamed(db.states[p.id]) && NameOf(db.zone, p, a)
  {
    if peers != [] {
      PeerAdditionsMean(db, peers[1..], a);
      assert peers == [peers[0]] + peers[1..];
    }
  }

  lemma {:induction false} SameServices(db: Source, ids: set<string>, target: PeerState, services: seq<ServiceRow>)
    requires !target.Active?
    ensures ServiceNames(Moved(db, ids, target), services) == ServiceNames(Without(db, ids), services)
  {
    if services != [] {
      SameServices(db, ids, target, services[1..]);
      assert DoorsFor(services[0], Moved(db, ids, target)) == DoorsFor(services[0], Without(db, ids));
    }
  }

  /** Of the parts of a zone the move touches the peers' names and the services. */
  lemma AdditionsSplit(db: Source, a: Addition)
    ensures a in Additions(db) <==> a in PeerAdditions(db, db.peers) || a in RestAdditions(db)
  {
  }

  function RestAdditions(db: Source): seq<Addition> {
    [Addition(db.gatewayIp, Qualify(db.gatewayLabel, db.zone))]
    + (if PortalNamed(db) then PortalAdditions(db.portalAddresses, Lowercase(db.portalName)) else [])
    + PublishedAdditions(db, PublishedNames(db))
    + RecordAdditions(db, db.records)
  }

  lemma {:induction false} PublishedSame(one: Source, other: Source, names: seq<string>)
    requires one.gatewayIp == other.gatewayIp
    ensures PublishedAdditions(one, names) == PublishedAdditions(other, names)
  {
    if names != [] {
      PublishedSame(one, other, names[1..]);
    }
  }

  lemma RestSame(db: Source, ids: set<string>, target: PeerState)
    requires !target.Active?
    ensures RestAdditions(Moved(db, ids, target)) == RestAdditions(Without(db, ids))
  {
    var after, without := Moved(db, ids, target), Without(db, ids);
    SameServices(db, ids, target, db.services);
    assert PublishedNames(after) == PublishedNames(without);
    PublishedSame(after, without, PublishedNames(after));
    RecordsSame(without, after, db.records);
  }

  lemma {:induction false} ServiceNamesMean(db: Source, services: seq<ServiceRow>, n: string)
    ensures n in ServiceNames(db, services) <==> exists s :: s in services && ServedInside(s, db) && n == Lowercase(s.internalHostname)
  {
    if services != [] {
      ServiceNamesMean(db, services[1..], n);
      assert services == [services[0]] + services[1..];
    }
  }

  /** With its peers active a service is served inside exactly when it is today, or reopens. */
  lemma ServedAfter(db: Source, ids: set<string>, s: ServiceRow)
    requires db.proxyEnabled
    ensures ServedInside(s, Moved(db, ids, Active)) <==> ServedInside(s, db) || Reopened(db, ids, s)
  {
  }

  lemma PublishedAfter(db: Source, ids: set<string>, a: Addition)
    ensures var after := Moved(db, ids, Active);
            a in PublishedAdditions(after, PublishedNames(after))
            <==> a in PublishedAdditions(db, PublishedNames(db)) || ServiceRegained(db, ids, a)
  {
    var after := Moved(db, ids, Active);
    PublishedMeans(after, PublishedNames(after), a);
    PublishedMeans(db, PublishedNames(db), a);
    if db.proxyEnabled {
      ServiceNamesMean(after, db.services, a.name);
      ServiceNamesMean(db, db.services, a.name);
      forall s
        ensures ServedInside(s, after) <==> ServedInside(s, db) || Reopened(db, ids, s)
      {
        ServedAfter(db, ids, s);
      }
    }
  }

  /** A move to active adds what is regained and takes nothing away. */
  lemma ActiveAdditions(db: Source, ids: set<string>, a: Addition)
    ensures a in Additions(Moved(db, ids, Active)) <==> a in Additions(db) || NameRegained(db, ids, a) || ServiceRegained(db, ids, a)
  {
    var after := Moved(db, ids, Active);
    PublishedAfter(db, ids, a);
    RecordsSame(db, after, db.records);
    PeerAdditionsMean(after, db.peers, a);
    PeerAdditionsMean(db, db.peers, a);
  }

  /** What is added after the move: what stands, and what is regained. */
  lemma MovedAdditions(db: Source, ids: set<string>, target: PeerState, a: Addition)
    requires IsNamed(target)
    ensures a in Additions(Moved(db, ids, target)) <==> Standing(db, ids, target, a) || Regained(db, ids, target, a)
  {
    if target.Active? {
      ActiveAdditions(db, ids, a);
    } else {
      var after, without := Moved(db, ids, target), Without(db, ids);
      AdditionsSplit(after, a);
      AdditionsSplit(without, a);
      RestSame(db, ids, target);
      PeerAdditionsMean(after, db.peers, a);
      PeerAdditionsMean(without, db.peers, a);
    }
  }

  /** What stands was there before. */
  lemma StandingIsOld(db: Source, ids: set<string>, target: PeerState, a: Addition)
    requires Standing(db, ids, target, a)
    ensures a in Additions(db)
  {
    if !target.Active? {
      if a in Additions(Without(db, ids)) {
        FewerAdditions(db, Without(db, ids), a);
      } else {
        PeerAdditionsMean(db, db.peers, a);
      }
    }
  }

  // ----- the hosts -----

  lemma HostsAfter(db: Source, ids: set<string>, target: PeerState)
    requires IsNamed(target)
    requires AdditionsOk(db.zone, ExternalNames(db), Additions(db))
    ensures var after := Moved(db, ids, target);
            AdditionsOk(db.zone, ExternalNames(after), Additions(after)) <==> RegainedFit(db, ids, target) && RegainedFree(db, ids, target)
  {
    var after := Moved(db, ids, target);
    AllCovered(after);
    forall a
      ensures a in Additions(after) <==> Standing(db, ids, target, a) || Regained(db, ids, target, a)
      ensures Standing(db, ids, target, a) ==> a in Additions(db)
    {
      MovedAdditions(db, ids, target, a);
      if Standing(db, ids, target, a) {
        StandingIsOld(db, ids, target, a);
      }
    }
    HostsSplit(db, ids, target, after);
  }

  /** The same, from what the additions are. */
  lemma HostsSplit(db: Source, ids: set<string>, target: PeerState, after: Source)
    requires after.zone == db.zone && AdditionsOk(db.zone, ExternalNames(db), Additions(db))
    requires forall a :: a in Additions(after) ==> Covered(after, a)
    requires forall a :: a in Additions(after) <==> Standing(db, ids, target, a) || Regained(db, ids, target, a)
    requires forall a :: Standing(db, ids, target, a) ==> a in Additions(db)
    ensures AdditionsOk(db.zone, ExternalNames(after), Additions(after)) <==> RegainedFit(db, ids, target) && RegainedFree(db, ids, target)
  {
    if RegainedFit(db, ids, target) && RegainedFree(db, ids, target) {
      forall a, b | a in Additions(after) && b in Additions(after) && SameQuestion(a, b)
        ensures a.address == b.address
      {
        assert SameQuestion(b, a);
      }
    }
  }

  lemma KnownAfterMeans(db: Source, ids: set<string>, target: PeerState, name: string)
    requires IsNamed(target)
    ensures name in KnownNames(Build(Moved(db, ids, target)).hosts) <==> KnownAfter(db, ids, target, name)
  {
    KnownMeans(Additions(Moved(db, ids, target)), name);
    forall x
      ensures Addition(x, name) in Additions(Moved(db, ids, target))
         <==> Standing(db, ids, target, Addition(x, name)) || Regained(db, ids, target, Addition(x, name))
    {
      MovedAdditions(db, ids, target, Addition(x, name));
    }
  }

  // ----- the aliases -----

  /** Those in use are distinct exactly when no two rows in use share a name. */
  lemma {:induction false} LivingDistinctExactly(aliases: seq<Cname>, known: set<string>)
    ensures AliasesDistinct(Living(aliases, known))
       <==> RowsDistinct(aliases, known)
  {
    if aliases != [] {
      var c, tail := aliases[0], aliases[1..];
      var rest := Living(tail, known);
      LivingDistinctExactly(tail, known);
      if c.target in known {
        forall d
          ensures d in rest <==> d in tail && d.target in known
        {
          LivingMember(tail, known, d);
        }
        ConsDistinct(c, rest);
        TailDistinct(aliases, known);
      } else {
        assert Living(aliases, known) == rest;
        TailIndexes(aliases, known);
      }
    }
  }

  lemma ConsDistinct(c: Cname, rest: seq<Cname>)
    ensures AliasesDistinct([c] + rest) <==> AliasesDistinct(rest) && forall d :: d in rest ==> d.alias_ != c.alias_
  {
    var all := [c] + rest;
    if AliasesDistinct(all) {
      forall i, j | 0 <= i < j < |rest|
        ensures rest[i].alias_ != rest[j].alias_
      {
        assert all[i + 1] == rest[i] && all[j + 1] == rest[j];
      }
      forall d | d in rest
        ensures d.alias_ != c.alias_
      {
        var j :| 0 <= j < |rest| && rest[j] == d;
        assert all[j + 1] == d && all[0] == c;
      }
    }
  }

  ghost predicate RowsDistinct(aliases: seq<Cname>, known: set<string>) {
    forall i, j :: 0 <= i < j < |aliases| && aliases[i].target in known && aliases[j].target in known ==>
      aliases[i].alias_ != aliases[j].alias_
  }

  lemma TailDistinct(aliases: seq<Cname>, known: set<string>)
    requires aliases != [] && aliases[0].target in known
    ensures RowsDistinct(aliases, known)
       <==> RowsDistinct(aliases[1..], known)
            && forall d :: d in aliases[1..] && d.target in known ==> d.alias_ != aliases[0].alias_
  {
    var tail := aliases[1..];
    if RowsDistinct(aliases, known) {
      forall i, j | 0 <= i < j < |tail| && tail[i].target in known && tail[j].target in known
        ensures tail[i].alias_ != tail[j].alias_
      {
        assert aliases[i + 1] == tail[i] && aliases[j + 1] == tail[j];
      }
      forall d | d in tail && d.target in known
        ensures d.alias_ != aliases[0].alias_
      {
        var j :| 0 <= j < |tail| && tail[j] == d;
        assert aliases[j + 1] == d;
      }
    } else {
      var i, j :| 0 <= i < j < |aliases| && aliases[i].target in known && aliases[j].target in known
                  && aliases[i].alias_ == aliases[j].alias_;
      assert aliases[j] == tail[j - 1];
      if i > 0 {
        assert aliases[i] == tail[i - 1];
      }
    }
  }

  lemma TailIndexes(aliases: seq<Cname>, known: set<string>)
    requires aliases != [] && aliases[0].target !in known
    ensures RowsDistinct(aliases, known) <==> RowsDistinct(aliases[1..], known)
  {
    var tail := aliases[1..];
    if RowsDistinct(aliases, known) {
      forall i, j | 0 <= i < j < |tail| && tail[i].target in known && tail[j].target in known
        ensures tail[i].alias_ != tail[j].alias_
      {
        assert aliases[i + 1] == tail[i] && aliases[j + 1] == tail[j];
      }
    } else {
      var i, j :| 0 <= i < j < |aliases| && aliases[i].target in known && aliases[j].target in known
                  && aliases[i].alias_ == aliases[j].alias_;
      assert aliases[i] == tail[i - 1] && aliases[j] == tail[j - 1];
    }
  }

  lemma {:induction false} AliasesInZone(db: Source, records: seq<RecordRow>)
    ensures forall c :: c in Aliases(db, records) ==> InZone(c.alias_, db.zone)
  {
    if records != [] {
      AliasesInZone(db, records[1..]);
      if records[0].AliasRecord? {
        QualifiedInZone(records[0].name, db.zone);
      }
    }
  }

  /** The aliases of a built zone validate exactly when each row in use is fit and no two share a name. */
  lemma CnamesMean(spec: DnsSpec, aliases: seq<Cname>)
    requires spec.cnames == Living(aliases, KnownNames(spec.hosts))
    ensures CnamesOk(spec, |spec.cnames|)
       <==> && (forall c :: c in aliases && c.target in KnownNames(spec.hosts) ==> CnameOk(spec, c))
            && RowsDistinct(aliases, KnownNames(spec.hosts))
  {
    LivingDistinctExactly(aliases, KnownNames(spec.hosts));
    forall c
      ensures c in spec.cnames <==> c in aliases && c.target in KnownNames(spec.hosts)
    {
      LivingMember(aliases, KnownNames(spec.hosts), c);
    }
    InRange(spec, |spec.cnames|);
  }

  lemma InRange(spec: DnsSpec, n: nat)
    requires n == |spec.cnames|
    ensures CnamesOk(spec, n) <==> (forall c :: c in spec.cnames ==> CnameOk(spec, c)) && AliasesDistinct(spec.cnames)
  {
    if CnamesOk(spec, n) {
      forall c | c in spec.cnames
        ensures CnameOk(spec, c)
      {
        var i :| 0 <= i < n && spec.cnames[i] == c;
      }
    }
  }

  /** The names known before and after, as the rows give them. */
  ghost predicate KnownAre(db: Source, ids: set<string>, target: PeerState, before: set<string>, after: set<string>) {
    && before == KnownNames(Build(db).hosts)
    && (forall n :: n in after <==> KnownAfter(db, ids, target, n))
    && forall a :: Standing(db, ids, target, a) ==> a.name in before
  }

  lemma KnownNow(db: Source, ids: set<string>, target: PeerState)
    requires IsNamed(target)
    ensures KnownAre(db, ids, target, KnownNames(Build(db).hosts), KnownNames(Build(Moved(db, ids, target)).hosts))
  {
    forall n
      ensures n in KnownNames(Build(Moved(db, ids, target)).hosts) <==> KnownAfter(db, ids, target, n)
    {
      KnownAfterMeans(db, ids, target, n);
    }
    forall a | Standing(db, ids, target, a)
      ensures a.name in KnownNames(Build(db).hosts)
    {
      StandingIsOld(db, ids, target, a);
      KnownMeans(Additions(db), a.name);
      assert a == Addition(a.address, a.name);
    }
  }

  /** What one row must be: the part of `CnameOk` that names and targets do not give by themselves. */
  predicate RowOk(known: set<string>, c: Cname) {
    MatchesHostname(c.alias_) && c.alias_ !in known && c.target != c.alias_
  }

  ghost predicate RowsOk(aliases: seq<Cname>, known: set<string>) {
    (forall c :: c in aliases && c.target in known ==> RowOk(known, c)) && RowsDistinct(aliases, known)
  }

  /** With the rows in use fit before, they are fit after exactly when none is shadowed and the revived ones are acceptable. */
  lemma RowsAfter(db: Source, ids: set<string>, target: PeerState, before: set<string>, after: set<string>)
    requires KnownAre(db, ids, target, before, after) && RowsOk(Aliases(db, db.records), before)
    ensures RowsOk(Aliases(db, db.records), after) <==> NoAliasTaken(db, ids, target) && RevivedFit(db, ids, target)
  {
    if RowsOk(Aliases(db, db.records), after) {
      RowsGiveCondition(db, ids, target, before, after);
    }
    if NoAliasTaken(db, ids, target) && RevivedFit(db, ids, target) {
      ConditionGivesRows(db, ids, target, before, after);
    }
  }

  lemma RowsGiveCondition(db: Source, ids: set<string>, target: PeerState, before: set<string>, after: set<string>)
    requires KnownAre(db, ids, target, before, after) && RowsOk(Aliases(db, db.records), after)
    ensures NoAliasTaken(db, ids, target) && RevivedFit(db, ids, target)
  {
    var aliases := Aliases(db, db.records);
    forall i, j | 0 <= i < |aliases| && 0 <= j < |aliases| && i != j
                  && Revived(db, ids, target, aliases[i]) && KnownAfter(db, ids, target, aliases[j].target)
      ensures aliases[i].alias_ != aliases[j].alias_
    {
      var low, high := if i < j then i else j, if i < j then j else i;
      assert aliases[low].target in after && aliases[high].target in after;
    }
    forall c, x | c in aliases && KnownAfter(db, ids, target, c.target)
      ensures !Regained(db, ids, target, Addition(x, c.alias_))
    {
      assert RowOk(after, c) && !KnownAfter(db, ids, target, c.alias_);
    }
  }

  lemma ConditionGivesRows(db: Source, ids: set<string>, target: PeerState, before: set<string>, after: set<string>)
    requires KnownAre(db, ids, target, before, after) && RowsOk(Aliases(db, db.records), before)
    requires NoAliasTaken(db, ids, target) && RevivedFit(db, ids, target)
    ensures RowsOk(Aliases(db, db.records), after)
  {
    var aliases := Aliases(db, db.records);
    forall c | c in aliases && c.target in after
      ensures RowOk(after, c)
    {
      assert KnownAfter(db, ids, target, c.target);
      assert c.target !in before ==> Revived(db, ids, target, c);
    }
    forall i, j | 0 <= i < j < |aliases| && aliases[i].target in after && aliases[j].target in after
      ensures aliases[i].alias_ != aliases[j].alias_
    {
      assert KnownAfter(db, ids, target, aliases[i].target) && KnownAfter(db, ids, target, aliases[j].target);
      if aliases[i].target in before && aliases[j].target in before {
      } else if aliases[i].target !in before {
        assert Revived(db, ids, target, aliases[i]);
      } else {
        assert Revived(db, ids, target, aliases[j]);
      }
    }
  }

  /** In a zone whose hosts validate, the aliases do exactly when the rows in use are fit. */
  lemma CnamesAreRows(db: Source)
    requires AdditionsOk(db.zone, ExternalNames(db), Additions(db))
    ensures CnamesOk(Build(db), |Build(db).cnames|) <==> RowsOk(Aliases(db, db.records), KnownNames(Build(db).hosts))
  {
    var spec, aliases := Build(db), Aliases(db, db.records);
    CnamesMean(spec, aliases);
    AliasesInZone(db, db.records);
    forall c | c in aliases && c.target in KnownNames(spec.hosts)
      ensures CnameOk(spec, c) <==> RowOk(KnownNames(spec.hosts), c)
    {
      KnownMeans(Additions(db), c.target);
      var x :| Addition(x, c.target) in Additions(db);
      assert MatchesHostname(Addition(x, c.target).name);
    }
  }

  lemma ZoneIsParts(db: Source)
    ensures ValidZone(Build(db))
       <==> && MatchesHostname(db.zone) && AdditionsOk(db.zone, ExternalNames(db), Additions(db))
            && RowsOk(Aliases(db, db.records), KnownNames(Build(db).hosts))
  {
    HostsOkMeans(Build(db), Additions(db));
    if AdditionsOk(db.zone, ExternalNames(db), Additions(db)) {
      CnamesAreRows(db);
    }
  }

  /**
   Exactly when a valid zone survives moving peers, with or without a name today, to staging,
   quarantine or active: what they regain is fit, free, no alias's, and revives only acceptable
   aliases. A sign-in and an enrolment are moves of one peer to active.
   */
  lemma ZoneSurvivesRegaining(db: Source, ids: set<string>, target: PeerState)
    requires ValidZone(Build(db)) && IsNamed(target)
    ensures ValidZone(Build(Moved(db, ids, target))) <==> MayRegain(db, ids, target)
  {
    var after := Moved(db, ids, target);
    ZoneIsParts(db);
    ZoneIsParts(after);
    HostsAfter(db, ids, target);
    KnownNow(db, ids, target);
    RecordsSame(db, after, db.records);
    RowsAfter(db, ids, target, KnownNames(Build(db).hosts), KnownNames(Build(after).hosts));
  }

  // ----- a sign-in that breaks the zone -----

  /** A service behind a peer, closed while that peer is not active, and an address record of its name. */
  function Taken(state: PeerState): Source {
    Source("z", Gateway(), "gw", "", [], true, true, false, "",
           [ServiceRow(true, Internal, "a.z", Some("p"))], [PeerRow("p", None, None, None)], [AddressRecord("a", PrinterB())], map["p" := state])
  }

  lemma TakenRecord()
    ensures var db := Taken(Staging); RecordAdditions(db, db.records) == [Addition(PrinterB(), "a.z")] && Aliases(db, db.records) == []
  {
    ClashNames();
    assert Taken(Staging).records[1..] == [];
  }

  lemma TakenIsClosed()
    ensures var db := Taken(Staging);
            PublishedAdditions(db, PublishedNames(db)) == [] && PeerAdditions(db, db.peers) == [] && !PortalNamed(db)
  {
    var db := Taken(Staging);
    assert db.services[1..] == [] && db.peers[1..] == [];
    assert ServiceNames(db, []) == [] && PeerAdditions(db, []) == [];
  }

  lemma TakenIsValid()
    ensures ValidZone(Build(Taken(Staging)))
    ensures Addition(PrinterB(), "a.z") in Additions(Taken(Staging))
  {
    var db, gw, printer := Taken(Staging), Addition(Gateway(), "gw.z"), Addition(PrinterB(), "a.z");
    TakenRecord();
    TakenIsClosed();
    NothingPublished(db);
    assert Qualify(db.gatewayLabel, db.zone) == "gw.z" by { ClashNames(); }
    assert Additions(db) == [gw, printer];
    ClashHostnames();
    TwoNameZone(Build(db), gw, printer);
  }

  lemma TakenReopens()
    ensures ServiceRegained(Taken(Staging), {"p"}, Addition(Gateway(), "a.z"))
  {
    var db := Taken(Staging);
    assert Lowercase("a.z") == "a.z";
    assert db.services[0] in db.services && Reopened(db, {"p"}, db.services[0]);
  }

  lemma TakenMoved()
    ensures Moved(Taken(Staging), {"p"}, Active) == Taken(Active)
  {
    assert Moved(Taken(Staging), {"p"}, Active).states == Taken(Active).states;
  }

  lemma TwoAddresses(name: string)
    ensures SameQuestion(Addition(Gateway(), name), Addition(PrinterB(), name)) && Gateway() != PrinterB()
  {
    assert Gateway().address.bits[1] != PrinterB().address.bits[1];
  }

  /** A regained name that something else answers with another address keeps the zone from surviving. */
  lemma NotFree(db: Source, ids: set<string>, target: PeerState, a: Addition, b: Addition)
    requires Regained(db, ids, target, a) && Standing(db, ids, target, b) && SameQuestion(a, b) && a.address != b.address
    ensures !MayRegain(db, ids, target)
  {
    assert !RegainedFree(db, ids, target);
  }

  /** While its peer is not active a service's name can be given to a record; signing in then breaks the zone. */
  lemma SigningInCanBreak()
    ensures ValidZone(Build(Taken(Staging)))
    ensures Moved(Taken(Staging), {"p"}, Active) == Taken(Active)
    ensures !ValidZone(Build(Taken(Active)))
  {
    TakenIsValid();
    TakenReopens();
    TwoAddresses("a.z");
    NotFree(Taken(Staging), {"p"}, Active, Addition(Gateway(), "a.z"), Addition(PrinterB(), "a.z"));
    ZoneSurvivesRegaining(Taken(Staging), {"p"}, Active);
    TakenMoved();
  }
}
