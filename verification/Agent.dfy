/**
 One poll of the agent, and many: three artefacts, each with its own digest, each retried
 until it is applied.

 Digests are injective, so a digest is the artefact itself. The ruleset is the exception: its
 parts are installed by programs outside this model, and its digest stands for itself.
 */
module Agent {
  import opened Wrappers
  import Dns = DnsApplier
  import Geo
  import Proxy = ProxyApplier

  type Digest = string

  datatype Artefact = Artefact(conf: string, files: Proxy.Files)

  /** The desired state: what one fetch from the control plane brings. */
  datatype Desired = Desired(ruleset: Digest, dns: Option<Dns.Zone>, proxy: Option<Artefact>, countries: seq<string>)

  datatype Applied = Applied(ruleset: Option<Digest>, dns: Option<Dns.Zone>, proxy: Option<Artefact>)

  /** The answers of nft, WireGuard and the route table; `None` where nothing is to be asked. */
  datatype RulesetReplies = RulesetReplies(nft: bool, wireguard: Option<bool>, routes: Option<bool>)

  datatype Replies = Replies(ruleset: RulesetReplies, dns: Dns.Replies, proxy: Proxy.Replies)

  datatype Report = Report(ruleset: Digest, success: bool, dnsFailed: bool, proxyFailed: bool)

  // ----- the ruleset -----

  predicate Complete(r: RulesetReplies) {
    r.nft && r.wireguard != Some(false) && r.routes != Some(false)
  }

  /** The digest the agent remembers, and the ruleset nftables holds. */
  datatype Ruleset = Ruleset(applied: Option<Digest>, live: Option<Digest>)

  function RulesetStep(r: Ruleset, wanted: Digest, replies: RulesetReplies): Ruleset {
    if r.applied == Some(wanted) then r
    else
      Ruleset(if Complete(replies) then Some(wanted) else r.applied,
              if replies.nft then Some(wanted) else r.live)
  }

  /** What the agent remembers of the ruleset is what nftables holds. */
  predicate Truthful(r: Ruleset) {
    r.applied.Some? ==> r.applied == r.live
  }

  /** The poll hands its ruleset to nftables, which takes it. */
  predicate Takes(r: Ruleset, wanted: Digest, replies: RulesetReplies) {
    r.applied != Some(wanted) && replies.nft
  }

  /** A poll that puts nothing into nftables leaves things as they were; one that does is told of, or lies about what was remembered. */
  lemma TruthfulAfter(r: Ruleset, wanted: Digest, replies: RulesetReplies)
    ensures Truthful(RulesetStep(r, wanted, replies))
       <==> if Takes(r, wanted, replies) then Complete(replies) || r.applied.None? else Truthful(r)
    ensures !Takes(r, wanted, replies) ==> RulesetStep(r, wanted, replies) == r
  {
  }

  /** Forward, half of it, and back: the digest is the first ruleset, the box has the second. */
  lemma DigestCanLie(first: Digest, second: Digest)
    requires first != second
    ensures var works := RulesetReplies(true, Some(true), None);
            var failsBehind := RulesetReplies(true, Some(false), None);
            var r := RulesetStep(RulesetStep(RulesetStep(Ruleset(None, None), first, works), second, failsBehind), first, works);
            r == Ruleset(Some(first), Some(second))
  {
  }

  function RulesetAfter(r: Ruleset, desired: seq<Desired>, replies: seq<RulesetReplies>): Ruleset
    requires |desired| == |replies|
    decreases |desired|
  {
    if desired == [] then r
    else
      var n := |desired| - 1;
      RulesetStep(RulesetAfter(r, desired[..n], replies[..n]), desired[n].ruleset, replies[n])
  }

  lemma RulesetOneMore(r: Ruleset, desired: seq<Desired>, replies: seq<RulesetReplies>, i: nat)
    requires |desired| == |replies| && i < |desired|
    ensures RulesetAfter(r, desired[..i + 1], replies[..i + 1])
         == RulesetStep(RulesetAfter(r, desired[..i], replies[..i]), desired[i].ruleset, replies[i])
  {
    assert desired[..i + 1][..i] == desired[..i] && replies[..i + 1][..i] == replies[..i];
  }

  predicate TakenAt(r: Ruleset, desired: seq<Desired>, replies: seq<RulesetReplies>, k: nat)
    requires |desired| == |replies| && k < |desired|
  {
    Takes(RulesetAfter(r, desired[..k], replies[..k]), desired[k].ruleset, replies[k])
  }

  /** The last poll whose ruleset went into nftables. */
  function LastTaken(r: Ruleset, desired: seq<Desired>, replies: seq<RulesetReplies>): (last: Option<nat>)
    requires |desired| == |replies|
    ensures last.Some? ==> last.value < |desired| && TakenAt(r, desired, replies, last.value)
    ensures forall k :: (if last.Some? then last.value < k else 0 <= k) && k < |desired| ==> !TakenAt(r, desired, replies, k)
    decreases |desired|
  {
    if desired == [] then None
    else
      var n := |desired| - 1;
      assert forall k :: 0 <= k < n ==> desired[..n][..k] == desired[..k] && replies[..n][..k] == replies[..k];
      if TakenAt(r, desired, replies, n) then Some(n)
      else
        assert forall k :: 0 <= k < n ==> TakenAt(r, desired[..n], replies[..n], k) == TakenAt(r, desired, replies, k);
        LastTaken(r, desired[..n], replies[..n])
  }

  /** The last ruleset nftables took went through, or nothing was remembered before it; and if there was none, all is as it was. */
  predicate EndsTruthful(r: Ruleset, desired: seq<Desired>, replies: seq<RulesetReplies>)
    requires |desired| == |replies|
  {
    match LastTaken(r, desired, replies)
    case None => Truthful(r)
    case Some(k) => Complete(replies[k]) || RulesetAfter(r, desired[..k], replies[..k]).applied.None?
  }

  /** After any polls the digest remembered is what nftables holds exactly then: a lie lasts until the next ruleset that goes through. */
  lemma {:induction false} TruthfulExactly(r: Ruleset, desired: seq<Desired>, replies: seq<RulesetReplies>)
    requires |desired| == |replies|
    ensures Truthful(RulesetAfter(r, desired, replies)) <==> EndsTruthful(r, desired, replies)
    decreases |desired|
  {
    if desired != [] {
      var n := |desired| - 1;
      TruthfulExactly(r, desired[..n], replies[..n]);
      TruthfulAfter(RulesetAfter(r, desired[..n], replies[..n]), desired[n].ruleset, replies[n]);
      if !TakenAt(r, desired, replies, n) {
        var last := LastTaken(r, desired[..n], replies[..n]);
        if last.Some? {
          assert desired[..n][..last.value] == desired[..last.value] && replies[..n][..last.value] == replies[..last.value];
        }
      }
    }
  }

  function RulesetReplyOf(replies: seq<Replies>): (r: seq<RulesetReplies>)
    ensures |r| == |replies|
  {
    seq(|replies|, i requires 0 <= i < |replies| => replies[i].ruleset)
  }

  // ----- what a remembered digest promises -----

  predicate ZoneInPlace(applied: Option<Dns.Zone>, disk: Dns.Disk) {
    applied.Some? ==> disk == Dns.Holding(applied.value)
  }

  /** Configuration and managed files are those of the artefact, and no file of it is missing. */
  ghost predicate ArtefactInPlace(applied: Option<Artefact>, disk: Proxy.Disk) {
    applied.Some? ==>
      && disk.conf == Some(applied.value.conf)
      && forall n :: n in applied.value.files || Proxy.IsManaged(n) ==>
           (n in disk.maps <==> n in applied.value.files) && (n in disk.maps ==> disk.maps[n] == applied.value.files[n])
  }

  /** What no refusal can take: the configuration, and the managed files to the last one. */
  ghost predicate ManagedInPlace(applied: Option<Artefact>, disk: Proxy.Disk) {
    applied.Some? ==>
      && disk.conf == Some(applied.value.conf)
      && forall n :: Proxy.IsManaged(n) ==>
           (n in disk.maps <==> n in applied.value.files) && (n in disk.maps ==> disk.maps[n] == applied.value.files[n])
  }

  /** Of the unmanaged files, those `lost` names are gone and the others are as they were installed. */
  ghost predicate UnmanagedInPlace(applied: Option<Artefact>, disk: Proxy.Disk, lost: set<string>) {
    applied.Some? ==> forall n :: n in applied.value.files && !Proxy.IsManaged(n) ==>
      if n in lost then n !in disk.maps else n in disk.maps && disk.maps[n] == applied.value.files[n]
  }

  /** The artefact is in place when nothing unmanaged of it is lost, and only then. */
  lemma InPlaceExactly(applied: Option<Artefact>, disk: Proxy.Disk, lost: set<string>)
    requires ManagedInPlace(applied, disk) && UnmanagedInPlace(applied, disk, lost)
    ensures ArtefactInPlace(applied, disk)
       <==> (applied.Some? ==> forall n :: n in applied.value.files && n in lost ==> Proxy.IsManaged(n))
  {
    if applied.Some? && ArtefactInPlace(applied, disk) {
      forall n | n in applied.value.files && n in lost
        ensures Proxy.IsManaged(n)
      {
        assert n in disk.maps;
      }
    }
  }

  lemma InstalledInPlace(a: Artefact, maps: Proxy.Files)
    ensures var disk := Proxy.Disk(Some(a.conf), Proxy.Installed(maps, a.files));
            ManagedInPlace(Some(a), disk) && UnmanagedInPlace(Some(a), disk, {})
  {
    var installed := Proxy.Installed(maps, a.files);
    forall n
      ensures n in a.files ==> n in installed && installed[n] == a.files[n]
      ensures n !in a.files && Proxy.IsManaged(n) ==> n !in installed
    {
      Proxy.InstalledMeans(maps, a.files, n);
    }
  }

  /** A refusal loses the unmanaged files it names, and nothing else of the remembered artefact. */
  lemma RefusalLoses(applied: Option<Artefact>, disk: Proxy.Disk, lost: set<string>, refused: Proxy.Files)
    requires ManagedInPlace(applied, disk) && UnmanagedInPlace(applied, disk, lost)
    ensures var after := Proxy.Disk(disk.conf, Proxy.RolledBack(disk.maps, refused));
            ManagedInPlace(applied, after) && UnmanagedInPlace(applied, after, lost + refused.Keys)
  {
    var after := Proxy.RolledBack(disk.maps, refused);
    assert forall n :: n in after <==> n in disk.maps && (Proxy.IsManaged(n) || n !in refused);
  }

  /** What a poll did to the proxy: nothing, an install, or a refusal of the files named. */
  datatype ProxyPoll = Idle | Installed | Refused(names: set<string>)

  /** The names refused since the last install. */
  function LostSince(log: seq<ProxyPoll>): set<string>
    decreases |log|
  {
    if log == [] then {}
    else
      match log[|log| - 1]
      case Idle => LostSince(log[..|log| - 1])
      case Installed => {}
      case Refused(names) => LostSince(log[..|log| - 1]) + names
  }

  lemma LostStep(log: seq<ProxyPoll>, poll: ProxyPoll)
    ensures LostSince(log + [poll])
         == match poll case Idle => LostSince(log) case Installed => {} case Refused(names) => LostSince(log) + names
  {
    assert (log + [poll])[..|log|] == log;
  }

  /**
   After a refused artefact the remembered one is still in place exactly when the two share no
   unmanaged file. The next poll that wants the remembered one back finds its digest and does nothing.
   */
  lemma InPlaceAfterRefusal(remembered: Artefact, refused: Artefact, disk: Proxy.Disk)
    requires ArtefactInPlace(Some(remembered), disk)
    ensures ArtefactInPlace(Some(remembered), Proxy.Disk(disk.conf, Proxy.RolledBack(disk.maps, refused.files)))
       <==> forall n :: n in remembered.files && n in refused.files ==> Proxy.IsManaged(n)
  {
    var after := Proxy.RolledBack(disk.maps, refused.files);
    assert forall n :: n in after <==> n in disk.maps && (Proxy.IsManaged(n) || n !in refused.files);
    if ArtefactInPlace(Some(remembered), Proxy.Disk(disk.conf, after)) {
      forall n | n in remembered.files && n in refused.files
        ensures Proxy.IsManaged(n)
      {
        assert n in after;
      }
    }
  }

  lemma RefusalForgetsRevocations(remembered: Artefact, refused: Artefact, disk: Proxy.Disk)
    requires ArtefactInPlace(Some(remembered), disk)
    requires "sso_revoked.map" in remembered.files && "sso_revoked.map" in refused.files
    ensures !ArtefactInPlace(Some(remembered), Proxy.Disk(disk.conf, Proxy.RolledBack(disk.maps, refused.files)))
  {
    InPlaceAfterRefusal(remembered, refused, disk);
    Proxy.RevokedIsUnmanaged();
  }

  /** A configuration was refused and none was installed since. */
  predicate RefusedLast(log: seq<ProxyPoll>)
    decreases |log|
  {
    log != [] && (log[|log| - 1].Refused? || (log[|log| - 1].Idle? && RefusedLast(log[..|log| - 1])))
  }

  /** Every rendered artefact carries the revocation list, so it is lost exactly from a refusal to the next install. */
  lemma {:induction false} RevocationsLost(log: seq<ProxyPoll>)
    requires forall p :: p in log && p.Refused? ==> "sso_revoked.map" in p.names
    ensures "sso_revoked.map" in LostSince(log) <==> RefusedLast(log)
    decreases |log|
  {
    if log != [] {
      RevocationsLost(log[..|log| - 1]);
    }
  }

  /** What is kept of the remembered artefact whatever was refused since. */
  ghost predicate ProxyKept(applied: Option<Artefact>, disk: Proxy.Disk, lost: set<string>) {
    ManagedInPlace(applied, disk) && UnmanagedInPlace(applied, disk, lost)
  }

  /** One entry a poll; a refusal names the files of what that poll wanted. */
  ghost predicate Logged(before: seq<ProxyPoll>, log: seq<ProxyPoll>, desired: seq<Desired>) {
    && |log| == |before| + |desired| && log[..|before|] == before
    && forall i :: 0 <= i < |desired| ==> log[|before| + i] == Idle || EntryFits(log[|before| + i], desired[i])
  }

  predicate EntryFits(poll: ProxyPoll, d: Desired) {
    d.proxy.Some? && (poll.Refused? ==> poll.names == d.proxy.value.files.Keys)
  }

  lemma LoggedStep(before: seq<ProxyPoll>, log: seq<ProxyPoll>, desired: seq<Desired>, i: nat, after: seq<ProxyPoll>)
    requires i < |desired| && Logged(before, log, desired[..i])
    requires |after| == |log| + 1 && after[..|log|] == log
    requires after[|log|] == Idle || EntryFits(after[|log|], desired[i])
    ensures Logged(before, after, desired[..i + 1])
  {
    forall k | 0 <= k < i + 1
      ensures after[|before| + k] == Idle || EntryFits(after[|before| + k], desired[k])
    {
      if k < i {
        assert after[|before| + k] == log[|before| + k] && desired[..i][k] == desired[k];
      }
    }
    assert after[..|before|] == log[..|before|];
  }

  // ----- the agent -----

  /** What `ensure_geo` answers. */
  datatype GeoOutcome = Skipped | Failed | Done(built: Geo.Built)

  class Agent {
    var applied: Applied
    var live: Option<Digest>
    /** What each poll did to the proxy. */
    ghost var proxyLog: seq<ProxyPoll>
    const dryRun: bool
    const dns: Option<Dns.Applier>
    const proxy: Option<Proxy.Applier>
    const geo: Option<Geo.Builder>

    constructor (dryRun: bool, live: Option<Digest>, dns: Option<Dns.Applier>, proxy: Option<Proxy.Applier>, geo: Option<Geo.Builder>)
      requires geo.Some? ==> geo.value.Honest()
      ensures this.dryRun == dryRun && this.live == live && this.dns == dns && this.proxy == proxy && this.geo == geo
      ensures applied == Applied(None, None, None) && proxyLog == [] && Valid()
    {
      this.dryRun, this.live, this.dns, this.proxy, this.geo := dryRun, live, dns, proxy, geo;
      applied := Applied(None, None, None);
      proxyLog := [];
    }

    function DnsPart(): set<object> {
      if dns.Some? then {dns.value} else {}
    }

    function ProxyPart(): set<object> {
      if proxy.Some? then {proxy.value} else {}
    }

    function GeoPart(): set<object> {
      if geo.Some? then {geo.value} else {}
    }

    function Parts(): set<object> {
      DnsPart() + ProxyPart() + GeoPart()
    }

    function RulesetNow(): Ruleset
      reads this
    {
      Ruleset(applied.ruleset, live)
    }

    /** The daemon of each part serves what is on disk, or nothing. */
    ghost predicate DnsFaithful()
      reads DnsPart()
    {
      dns.Some? ==> Dns.Faithful(dns.value.OnDisk(), dns.value.daemon)
    }

    ghost predicate ProxyFaithful()
      reads ProxyPart()
    {
      proxy.Some? ==> Proxy.Faithful(proxy.value.OnDisk(), proxy.value.daemon)
    }

    /** What every poll keeps: the remembered digests are what is on disk, less what refusals took since. */
    ghost predicate Valid()
      reads this, Parts()
    {
      && (!dryRun && dns.Some? ==> ZoneInPlace(applied.dns, dns.value.OnDisk()))
      && (dns.None? ==> applied.dns.None?)
      && (!dryRun && proxy.Some? ==> ProxyKept(applied.proxy, proxy.value.OnDisk(), LostSince(proxyLog)))
      && (geo.Some? ==> geo.value.Honest())
    }

    ghost predicate ProxyInPlace()
      reads this, Parts()
    {
      !dryRun && proxy.Some? ==> ArtefactInPlace(applied.proxy, proxy.value.OnDisk())
    }

    predicate RulesetDue(d: Desired)
      reads this`applied
    {
      applied.ruleset != Some(d.ruleset)
    }

    /** In a dry run WireGuard is not asked. */
    predicate RulesetFails(d: Desired, replies: Replies)
      reads this`applied
    {
      RulesetDue(d) && if dryRun then !replies.ruleset.nft || replies.ruleset.routes == Some(false) else !Complete(replies.ruleset)
    }

    predicate DnsDue(d: Desired)
      reads this`applied
    {
      dns.Some? && d.dns.Some? && d.dns != applied.dns
    }

    predicate DnsFails(d: Desired, replies: Replies)
      reads this`applied, DnsPart()
    {
      DnsDue(d) && if dryRun then !replies.dns.accepted
                   else Dns.Answer(dns.value.OnDisk(), dns.value.daemon, d.dns.value, replies.dns).Err?
    }

    predicate ProxyDue(d: Desired)
      reads this`applied
    {
      proxy.Some? && d.proxy.Some? && d.proxy != applied.proxy
    }

    predicate ProxyFails(d: Desired, replies: Replies)
      reads this`applied, ProxyPart()
    {
      ProxyDue(d) && if dryRun then !replies.proxy.accepted
                     else Proxy.Answer(proxy.value.OnDisk(), proxy.value.daemon, proxy.value.hasSocket,
                                       d.proxy.value.conf, d.proxy.value.files, replies.proxy).Err?
    }

    /** What the poll does to the proxy. */
    function ProxyOutcome(d: Desired, replies: Replies): ProxyPoll
      reads this`applied, ProxyPart()
    {
      if dryRun || !ProxyDue(d) then Idle
      else if ProxyFails(d, replies) then Refused(d.proxy.value.files.Keys)
      else Installed
    }

    /** `reconcile_dns`; a dry run only has the zone checked. */
    method ReconcileDns(z: Dns.Zone, replies: Replies) returns (failed: bool)
      requires dns.Some?
      modifies dns.value
      ensures old(DnsFaithful()) ==> DnsFaithful()
      ensures dryRun ==> dns.value.OnDisk() == old(dns.value.OnDisk()) && dns.value.daemon == old(dns.value.daemon)
      ensures failed == if dryRun then !replies.dns.accepted
                        else Dns.Answer(old(dns.value.OnDisk()), old(dns.value.daemon), z, replies.dns).Err?
      ensures !dryRun && failed ==> dns.value.OnDisk() == old(dns.value.OnDisk())
      ensures !dryRun && !failed ==> dns.value.OnDisk() == Dns.Holding(z)
    {
      if dryRun {
        return !replies.dns.accepted;
      }
      var r := dns.value.Apply(z, replies.dns);
      return r.Err?;
    }

    /** The map on disk is the one for the countries asked for, or none are asked for and there is none. */
    predicate MapFits(countries: seq<string>)
      reads GeoPart()
    {
      if geo.None? then countries == []
      else
        && Geo.Normalise(countries).Ok?
        && var wanted := Geo.Normalise(countries).value;
           if wanted == [] then geo.value.mapFile.None? else geo.value.CurrentCountries() == Some(wanted)
    }

    /** The country map and its stamp are left alone by a poll that asks for these countries. */
    predicate MapSettled(countries: seq<string>)
      reads GeoPart()
    {
      geo.Some? ==> geo.value.Settled(countries)
    }

    function GeoFiles(): Option<(Option<seq<Geo.MapEntry>>, Option<string>)>
      reads GeoPart()
    {
      if geo.Some? then Some((geo.value.mapFile, geo.value.stamp)) else None
    }

    /** The countries are codes, and the map can be made for them. */
    predicate Mappable(countries: seq<string>)
      reads GeoPart()
    {
      geo.Some? && Geo.Normalise(countries).Ok? &&
        (Geo.Normalise(countries).value == [] || geo.value.HasDataset() || geo.value.CurrentCountries() == Some(Geo.Normalise(countries).value))
    }

    /**
     `ensure_geo`: before anything is checked, a dry run included. It never fails the configuration.
     It warns exactly when the map on disk is then not the one asked for; and it leaves map and stamp
     alone exactly when they were settled, whether this is a dry run or not.
     */
    method EnsureGeo(countries: seq<string>) returns (outcome: GeoOutcome, warned: bool)
      requires geo.Some? ==> geo.value.Honest()
      modifies GeoPart()
      ensures geo.Some? ==> geo.value.Honest() && geo.value.dataset == old(geo.value.dataset)
      ensures outcome == if geo.None? then Skipped
                         else if Geo.Normalise(countries).Err? then Failed
                         else Done(old(geo.value.Answer(Geo.Normalise(countries).value)))
      ensures warned <==> !MapFits(countries)
      ensures geo.Some? ==> (warned <==> old(!Mappable(countries)))
      ensures GeoFiles() == old(GeoFiles()) <==> old(MapSettled(countries))
      ensures outcome == Done(Geo.Empty) ==> geo.value.mapFile == Some([])
    {
      if geo.None? {
        return Skipped, countries != [];
      }
      var r := geo.value.Build(countries, 3);
      if r.Err? {
        return Failed, true;
      }
      return Done(r.value), r.value == Geo.Empty;
    }

    /** `reconcile_proxy`: the country map, then the configuration. */
    method ReconcileProxy(a: Artefact, countries: seq<string>, replies: Replies) returns (failed: bool, warned: bool)
      requires proxy.Some? && (geo.Some? ==> geo.value.Honest())
      modifies proxy.value, GeoPart()
      ensures geo.Some? ==> geo.value.Honest() && geo.value.dataset == old(geo.value.dataset)
      ensures warned <==> !MapFits(countries)
      ensures geo.Some? ==> (warned <==> old(!Mappable(countries)))
      // in a dry run too
      ensures GeoFiles() == old(GeoFiles()) <==> old(MapSettled(countries))
      ensures old(ProxyFaithful()) ==> ProxyFaithful()
      ensures dryRun ==> proxy.value.OnDisk() == old(proxy.value.OnDisk()) && proxy.value.daemon == old(proxy.value.daemon)
      ensures failed == if dryRun then !replies.proxy.accepted
                        else Proxy.Answer(old(proxy.value.OnDisk()), old(proxy.value.daemon), proxy.value.hasSocket,
                                          a.conf, a.files, replies.proxy).Err?
      ensures !dryRun && failed ==>
        proxy.value.OnDisk() == Proxy.Disk(old(proxy.value.conf), Proxy.RolledBack(old(proxy.value.maps), a.files))
      ensures !dryRun && !failed ==>
        proxy.value.OnDisk() == Proxy.Disk(Some(a.conf), Proxy.Installed(old(proxy.value.maps), a.files))
    {
      var outcome;
      outcome, warned := EnsureGeo(countries);
      if dryRun {
        return !replies.proxy.accepted, warned;
      }
      var r := Proxy.ApplyFaithfully(proxy.value, a.conf, a.files, replies.proxy);
      return r.Err?, warned;
    }

    /** `reconcile`: nftables, then WireGuard, then routes, up to the first that fails. */
    method PollRuleset(desired: Desired, replies: Replies) returns (due: bool, failed: bool, ruleset: Option<Digest>)
      modifies this`live
      ensures due == RulesetDue(desired) && failed == RulesetFails(desired, replies)
      ensures ruleset == if due && !failed then Some(desired.ruleset) else applied.ruleset
      ensures live == if due && !dryRun && replies.ruleset.nft then Some(desired.ruleset) else old(live)
    {
      due := applied.ruleset != Some(desired.ruleset);
      failed, ruleset := false, applied.ruleset;
      if due {
        if dryRun {
          failed := !replies.ruleset.nft || replies.ruleset.routes == Some(false);
        } else {
          failed := !Complete(replies.ruleset);
          if replies.ruleset.nft {
            live := Some(desired.ruleset);
          }
        }
        ruleset := if failed then applied.ruleset else Some(desired.ruleset);
      }
    }

    /** The DNS part of a poll: what is remembered afterwards is on disk. */
    method PollDns(desired: Desired, replies: Replies) returns (due: bool, failed: bool, zone: Option<Dns.Zone>)
      requires !dryRun && dns.Some? ==> ZoneInPlace(applied.dns, dns.value.OnDisk())
      modifies DnsPart()
      ensures due == old(DnsDue(desired)) && failed == old(DnsFails(desired, replies))
      ensures zone == if due && !failed then desired.dns else applied.dns
      ensures old(DnsFaithful()) ==> DnsFaithful()
      ensures !dryRun && dns.Some? ==> ZoneInPlace(zone, dns.value.OnDisk())
      ensures !due ==> unchanged(DnsPart())
    {
      due := dns.Some? && desired.dns.Some? && desired.dns != applied.dns;
      failed, zone := false, applied.dns;
      if due {
        failed := ReconcileDns(desired.dns.value, replies);
        zone := if failed then applied.dns else desired.dns;
      }
    }

    /** The proxy part: what is remembered afterwards is on disk, less what refusals took since its install. */
    method PollProxy(desired: Desired, replies: Replies)
      returns (due: bool, failed: bool, artefact: Option<Artefact>, ghost poll: ProxyPoll)
      requires geo.Some? ==> geo.value.Honest()
      requires !dryRun && proxy.Some? ==> ProxyKept(applied.proxy, proxy.value.OnDisk(), LostSince(proxyLog))
      modifies ProxyPart(), GeoPart()
      ensures geo.Some? ==> geo.value.Honest()
      ensures due == old(ProxyDue(desired)) && failed == old(ProxyFails(desired, replies))
      ensures poll == old(ProxyOutcome(desired, replies))
      ensures artefact == if due && !failed then desired.proxy else applied.proxy
      ensures old(ProxyFaithful()) ==> ProxyFaithful()
      ensures due && old(Mappable(desired.countries)) ==> MapFits(desired.countries)
      ensures GeoFiles() == old(GeoFiles()) <==> !due || old(MapSettled(desired.countries))
      ensures !dryRun && proxy.Some? ==> ProxyKept(artefact, proxy.value.OnDisk(), LostSince(proxyLog + [poll]))
      ensures !due ==> unchanged(ProxyPart())
    {
      due := proxy.Some? && desired.proxy.Some? && desired.proxy != applied.proxy;
      failed, artefact := false, applied.proxy;
      poll := ProxyOutcome(desired, replies);
      LostStep(proxyLog, poll);
      if due {
        ghost var was := proxy.value.OnDisk();
        var warned;
        failed, warned := ReconcileProxy(desired.proxy.value, desired.countries, replies);
        artefact := if failed then applied.proxy else desired.proxy;
        if !dryRun {
          if failed {
            RefusalLoses(applied.proxy, was, LostSince(proxyLog), desired.proxy.value.files);
          } else {
            InstalledInPlace(desired.proxy.value, was.maps);
          }
        }
      }
    }

    /** The zone, then the proxy: neither sees the other. */
    method PollParts(desired: Desired, replies: Replies)
      returns (changed: bool, dnsFailed: bool, proxyFailed: bool, zone: Option<Dns.Zone>, artefact: Option<Artefact>, ghost poll: ProxyPoll)
      requires Valid()
      modifies Parts()
      ensures geo.Some? ==> geo.value.Honest()
      ensures changed == old(DnsDue(desired) || ProxyDue(desired))
      ensures dnsFailed == old(DnsFails(desired, replies)) && proxyFailed == old(ProxyFails(desired, replies))
      ensures zone == if old(DnsDue(desired)) && !dnsFailed then desired.dns else applied.dns
      ensures artefact == if old(ProxyDue(desired)) && !proxyFailed then desired.proxy else applied.proxy
      ensures poll == old(ProxyOutcome(desired, replies))
      ensures (old(DnsFaithful()) ==> DnsFaithful()) && (old(ProxyFaithful()) ==> ProxyFaithful())
      ensures !dryRun && dns.Some? ==> ZoneInPlace(zone, dns.value.OnDisk())
      ensures !dryRun && proxy.Some? ==> ProxyKept(artefact, proxy.value.OnDisk(), LostSince(proxyLog + [poll]))
      ensures !old(DnsDue(desired)) ==> unchanged(DnsPart())
      ensures !old(ProxyDue(desired)) ==> unchanged(ProxyPart())
      ensures GeoFiles() == old(GeoFiles()) <==> !old(ProxyDue(desired)) || old(MapSettled(desired.countries))
    {
      var dnsChanged, proxyChanged;
      dnsChanged, dnsFailed, zone := PollDns(desired, replies);
      proxyChanged, proxyFailed, artefact, poll := PollProxy(desired, replies);
      changed := dnsChanged || proxyChanged;
    }

    /** `run_once`: one poll. Each digest moves on its own, and only on success. */
    method RunOnce(desired: Desired, replies: Replies) returns (report: Option<Report>)
      requires Valid()
      modifies this`applied, this`live, this`proxyLog, Parts()
      ensures Valid()
      ensures old(DnsFaithful()) ==> DnsFaithful()
      ensures old(ProxyFaithful()) ==> ProxyFaithful()
      ensures proxyLog == old(proxyLog) + [old(ProxyOutcome(desired, replies))]
      // the ruleset, whatever DNS and proxy do
      ensures !dryRun ==> RulesetNow() == RulesetStep(old(RulesetNow()), desired.ruleset, replies.ruleset)
      ensures dryRun ==> live == old(live)
      // each digest moves to what is desired exactly when its own part was due and did not fail
      ensures applied == Applied(
        if old(RulesetDue(desired) && !RulesetFails(desired, replies)) then Some(desired.ruleset) else old(applied.ruleset),
        if old(DnsDue(desired) && !DnsFails(desired, replies)) then desired.dns else old(applied.dns),
        if old(ProxyDue(desired) && !ProxyFails(desired, replies)) then desired.proxy else old(applied.proxy))
      // what was not due is not touched
      ensures !old(DnsDue(desired)) ==> unchanged(DnsPart())
      ensures !old(ProxyDue(desired)) ==> unchanged(ProxyPart())
      // the country map, in a dry run too
      ensures GeoFiles() == old(GeoFiles()) <==> !old(ProxyDue(desired)) || old(MapSettled(desired.countries))
      // a report exactly when something was due, and it tells what failed
      ensures report ==
        if old(RulesetDue(desired) || DnsDue(desired) || ProxyDue(desired))
        then Some(Report(desired.ruleset, !old(RulesetFails(desired, replies)), old(DnsFails(desired, replies)), old(ProxyFails(desired, replies))))
        else None
    {
      var rulesetChanged, failed, ruleset := PollRuleset(desired, replies);
      ghost var poll;
      var changed, dnsFailed, proxyFailed, zone, artefact;
      changed, dnsFailed, proxyFailed, zone, artefact, poll := PollParts(desired, replies);
      applied := Applied(ruleset, zone, artefact);
      proxyLog := proxyLog + [poll];
      report := if rulesetChanged || changed
                then Some(Report(desired.ruleset, !failed, dnsFailed, proxyFailed)) else None;
    }

    /**
     The poll loop. Over any desired states and any answers the DNS digest is what is on disk, the
     ruleset digest is the one the ruleset answers alone would give and the truth exactly when the
     last ruleset nftables took went through, and of the proxy's artefact configuration and managed
     files are on disk always, the whole exactly while no refused artefact named an unmanaged file of it.
     */
    method Polls(desired: seq<Desired>, replies: seq<Replies>)
      requires |desired| == |replies| && Valid() && !dryRun
      modifies this`applied, this`live, this`proxyLog, Parts()
      ensures Valid()
      ensures dns.Some? ==> ZoneInPlace(applied.dns, dns.value.OnDisk())
      ensures RulesetNow() == RulesetAfter(old(RulesetNow()), desired, RulesetReplyOf(replies))
      ensures Truthful(RulesetNow()) <==> EndsTruthful(old(RulesetNow()), desired, RulesetReplyOf(replies))
      ensures proxy.Some? ==> ManagedInPlace(applied.proxy, proxy.value.OnDisk())
      ensures proxy.Some? && applied.proxy.Some? ==>
        (ProxyInPlace() <==> forall n :: n in applied.proxy.value.files && n in LostSince(proxyLog) ==> Proxy.IsManaged(n))
      ensures Logged(old(proxyLog), proxyLog, desired)
      ensures (old(DnsFaithful()) ==> DnsFaithful()) && (old(ProxyFaithful()) ==> ProxyFaithful())
    {
      ghost var start := RulesetNow();
      ghost var answers := RulesetReplyOf(replies);
      for i := 0 to |desired|
        invariant Valid()
        invariant RulesetNow() == RulesetAfter(start, desired[..i], answers[..i])
        invariant Logged(old(proxyLog), proxyLog, desired[..i])
        invariant (old(DnsFaithful()) ==> DnsFaithful()) && (old(ProxyFaithful()) ==> ProxyFaithful())
      {
        ghost var log := proxyLog;
        var report := RunOnce(desired[i], replies[i]);
        RulesetOneMore(start, desired, answers, i);
        LoggedStep(old(proxyLog), log, desired, i, proxyLog);
      }
      assert desired[..|desired|] == desired && answers[..|desired|] == answers;
      TruthfulExactly(start, desired, answers);
      if proxy.Some? {
        InPlaceExactly(applied.proxy, proxy.value.OnDisk(), LostSince(proxyLog));
      }
    }
  }

  /** A dry run that builds: no map before, one afterwards. */
  method DryRunBuilds(a: Artefact, files: Proxy.Applier, rows: seq<Geo.Row>, summarize: Geo.Summary, replies: Replies)
    returns (before: Option<seq<Geo.MapEntry>>, builder: Geo.Builder, agent: Agent)
    modifies files
    ensures agent.dryRun && agent.geo == Some(builder)
    ensures before.None? && builder.mapFile.Some? && builder.CurrentCountries() == Some(["FR"])
    ensures files.OnDisk() == old(files.OnDisk())
  {
    builder := new Geo.Builder(Some(rows), summarize);
    before := builder.mapFile;
    agent := new Agent(true, None, None, Some(files), Some(builder));
    Geo.OneCountry("FR");
    var failed, warned := agent.ReconcileProxy(a, ["FR"], replies);
  }
}
