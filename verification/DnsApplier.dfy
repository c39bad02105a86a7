/**
 Installing a DNS zone: hosts file, configuration, resolver; the previous pair is put back
 when the checker or the daemon refuses.
 */
module DnsApplier {
  import opened Wrappers

  datatype Zone = Zone(hosts: string, conf: string)

  datatype Disk = Disk(hosts: Option<string>, conf: Option<string>)

  /** The running resolver: the zone it answers from. */
  datatype Daemon = Down | Serving(zone: Zone)

  datatype Action = Unchanged | Started | Reloaded | Restarted

  datatype Failure = Rejected | NotReloaded | NotStarted

  datatype Replies = Replies(active: bool, accepted: bool, reloaded: bool, restarted: bool, restartedAfterRestore: bool)

  function Holding(z: Zone): Disk {
    Disk(Some(z.hosts), Some(z.conf))
  }

  predicate Faithful(disk: Disk, daemon: Daemon) {
    daemon.Serving? ==> disk == Holding(daemon.zone)
  }

  /** What a call answers: a changed configuration restarts the resolver, changed names alone only reload it. */
  function Answer(before: Disk, daemon: Daemon, z: Zone, replies: Replies): Result<Action, Failure> {
    if before == Holding(z) then
      if replies.active then Ok(Unchanged) else if replies.restarted then Ok(Started) else Err(NotStarted)
    else if !replies.accepted then Err(Rejected)
    else if before.conf != Some(z.conf) then
      if replies.restarted then Ok(Restarted) else Err(NotReloaded)
    else if replies.reloaded && daemon.Serving? then Ok(Reloaded) else Err(NotReloaded)
  }

  class Applier {
    var hosts: Option<string>
    var conf: Option<string>
    var daemon: Daemon

    constructor (hosts: Option<string>, conf: Option<string>, daemon: Daemon)
      ensures this.hosts == hosts && this.conf == conf && this.daemon == daemon
    {
      this.hosts, this.conf, this.daemon := hosts, conf, daemon;
    }

    function OnDisk(): Disk
      reads this
    {
      Disk(hosts, conf)
    }

    method Restore(hosts: Option<string>, conf: Option<string>)
      modifies this`hosts, this`conf
      ensures OnDisk() == Disk(hosts, conf)
    {
      this.hosts := hosts;
      this.conf := conf;
    }

    method Restart(ok: bool)
      modifies this`daemon
      ensures daemon == if ok && hosts.Some? && conf.Some? then Serving(Zone(hosts.value, conf.value)) else Down
    {
      daemon := if ok && hosts.Some? && conf.Some? then Serving(Zone(hosts.value, conf.value)) else Down;
    }

    /** A hang-up re-reads the hosts file and nothing else; a daemon that is down cannot be told to. */
    method Reload(reply: bool) returns (ok: bool)
      requires hosts.Some?
      modifies this`daemon
      ensures ok == (reply && old(daemon).Serving?)
      ensures daemon == if ok then Serving(Zone(hosts.value, old(daemon).zone.conf)) else old(daemon)
    {
      ok := reply && daemon.Serving?;
      if ok {
        daemon := Serving(Zone(hosts.value, daemon.zone.conf));
      }
    }

    /** `apply`. */
    method Apply(z: Zone, replies: Replies) returns (r: Result<Action, Failure>)
      modifies this
      ensures r.Ok? ==> OnDisk() == Holding(z)
      ensures r == Ok(Started) || r == Ok(Restarted) ==> daemon == Serving(z)
      ensures r == Ok(Reloaded) ==> old(daemon).Serving? && daemon == Serving(Zone(z.hosts, old(daemon).zone.conf))
      ensures r == Ok(Unchanged) || r == Err(Rejected) ==> daemon == old(daemon)
      ensures r.Err? ==> OnDisk() == old(OnDisk())
      ensures r == Answer(old(OnDisk()), old(daemon), z, replies)
      // a resolver that served what was on disk serves what is on disk now
      ensures old(Faithful(OnDisk(), daemon)) ==> Faithful(OnDisk(), daemon)
      ensures old(Faithful(OnDisk(), daemon)) && r.Ok? && r != Ok(Unchanged) ==> daemon == Serving(z)
    {
      var previousHosts, previousConf := hosts, conf;
      var hostsChanged, confChanged := hosts != Some(z.hosts), conf != Some(z.conf);
      if !hostsChanged && !confChanged {
        if replies.active {
          return Ok(Unchanged);
        }
        Restart(replies.restarted);
        return if daemon.Serving? then Ok(Started) else Err(NotStarted);
      }

      if confChanged {
        conf := Some(z.conf);
      }
      if hostsChanged {
        hosts := Some(z.hosts);
      }

      if !replies.accepted {
        Restore(previousHosts, previousConf);
        return Err(Rejected);
      }

      var ok: bool;
      if confChanged {
        Restart(replies.restarted);
        ok := replies.restarted;
      } else {
        ok := Reload(replies.reloaded);
      }
      if !ok {
        Restore(previousHosts, previousConf);
        Restart(replies.restartedAfterRestore);
        return Err(NotReloaded);
      }
      return Ok(if confChanged then Restarted else Reloaded);
    }
  }
}
