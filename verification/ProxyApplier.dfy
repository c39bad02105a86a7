/**
 Installing a proxy configuration on the gateway: pattern files first, then the configuration,
 then the daemon, with everything put back when the daemon or its checker refuses.

 What commands answer is a parameter, so every statement is about all answers they can give.
 */
module ProxyApplier {
  import opened Wrappers
  import opened Text

  /** File name to contents: the maps directory, or a set of files to install. */
  type Files = map<string, string>

  /** The running proxy: the configuration and the files it has in memory. */
  datatype Daemon = Down | Serving(conf: string, memory: Files)

  datatype Disk = Disk(conf: Option<string>, maps: Files)

  datatype Action = Unchanged | Started | Reloaded | Synced

  datatype Failure = Rejected | NotReloaded | NotStarted

  datatype Step = ClearStep | AddStep

  datatype Reply = Done | Complaint | Broken

  /** The answers of `systemctl`, `haproxy -c` and the runtime socket during one call. */
  datatype Replies = Replies(
    active: bool,
    accepted: bool,
    reloaded: bool,
    restarted: bool,
    restartedAfterRestore: bool,
    runtime: (string, Step) -> Reply)

  const MANAGED_PREFIXES := ["set_", "tok_", "ipf_", "err_", "peers.map", "groups.map"]

  predicate IsManaged(name: string) {
    exists p :: p in MANAGED_PREFIXES && p <= name
  }

  predicate Pushable(name: string) {
    EndsWith(name, ".map") || EndsWith(name, ".lst")
  }

  // ----- the outcomes, as functions of what was there -----

  function ManagedOf(maps: Files): Files {
    map n | n in maps && IsManaged(n) :: maps[n]
  }

  function Changed(previous: Files, files: Files): Files {
    map n | n in files && !(n in previous && previous[n] == files[n]) :: files[n]
  }

  function Stale(previous: Files, files: Files): set<string> {
    previous.Keys - files.Keys
  }

  /** What was asked for, beside the files that are none of ours. */
  function Installed(maps: Files, files: Files): Files {
    (maps - Stale(ManagedOf(maps), files)) + files
  }

  /** What a failed install leaves: everything as it was, less the unmanaged files it had tried to write. */
  function RolledBack(maps: Files, files: Files): Files {
    map n | n in maps && (IsManaged(n) || n !in files) :: maps[n]
  }

  predicate IsCurrent(disk: Disk, conf: string, files: Files) {
    var previous := ManagedOf(disk.maps);
    disk.conf == Some(conf) && Changed(previous, files) == map[] && Stale(previous, files) == {}
  }

  /** The daemon serves what is on disk, or serves nothing. */
  predicate Faithful(disk: Disk, daemon: Daemon) {
    match daemon
    case Down => true
    case Serving(conf, memory) =>
      disk.conf == Some(conf) && forall n :: n in disk.maps ==> n in memory && memory[n] == disk.maps[n]
  }

  predicate PushedOver(name: string, replies: Replies) {
    replies.runtime(name, ClearStep) == Done && replies.runtime(name, AddStep) == Done
  }

  /** Every change is a pattern file, and the daemon takes each over the runtime socket. */
  predicate Syncable(hasSocket: bool, daemon: Daemon, changed: Files, replies: Replies) {
    && hasSocket && daemon.Serving? && changed != map[]
    && forall n :: n in changed ==> Pushable(n) && PushedOver(n, replies)
  }

  /** What a call answers. */
  function Answer(before: Disk, daemon: Daemon, hasSocket: bool, conf: string, files: Files, replies: Replies): Result<Action, Failure> {
    if IsCurrent(before, conf, files) then
      if replies.active then Ok(Unchanged) else if replies.restarted then Ok(Started) else Err(NotStarted)
    else if !replies.accepted then Err(Rejected)
    else if before.conf == Some(conf) && replies.active
         && Syncable(hasSocket, daemon, Changed(ManagedOf(before.maps), files), replies) then Ok(Synced)
    else if replies.reloaded then Ok(Reloaded)
    else if replies.restarted then Ok(Started)
    else Err(NotReloaded)
  }

  /** All changes but the ones still to do are in memory. */
  function Pushed(memory: Files, changed: Files, todo: set<string>): Files {
    memory + (map n | n in changed && n !in todo :: changed[n])
  }

  lemma OnePushed(memory: Files, changed: Files, todo: set<string>, name: string)
    requires name in todo && todo <= changed.Keys
    ensures Pushed(memory, changed, todo - {name}) == Pushed(memory, changed, todo)[name := changed[name]]
  {
  }

  lemma AllPushed(memory: Files, changed: Files)
    ensures Pushed(memory, changed, {}) == memory + changed
    ensures Pushed(memory, changed, changed.Keys) == memory
  {
  }

  lemma SomePushed(changed: Files)
    requires changed != map[]
    ensures changed.Keys != {}
  {
    assert changed.Keys == {} ==> changed == map[];
  }

  /** The names in `done` are as they were before: written back, or gone. */
  function PutBack(maps: Files, previous: Files, done: set<string>): Files {
    (maps - done) + (map n | n in previous && n in done :: previous[n])
  }

  lemma OnePutBack(maps: Files, previous: Files, done: set<string>, name: string)
    requires name !in done
    ensures PutBack(maps, previous, done + {name})
         == if name in previous then PutBack(maps, previous, done)[name := previous[name]] else PutBack(maps, previous, done) - {name}
  {
  }

  lemma NothingPutBack(maps: Files, previous: Files)
    ensures PutBack(maps, previous, {}) == maps
  {
  }

  lemma AllPutBack(maps: Files, previous: Files, done: set<string>)
    ensures PutBack(maps, previous, done) + (map n | n in previous && n !in done :: previous[n]) == (maps - done) + previous
  {
  }

  // ----- the applier -----

  class Applier {
    var conf: Option<string>
    var maps: Files
    var daemon: Daemon
    const hasSocket: bool

    constructor (conf: Option<string>, maps: Files, daemon: Daemon, hasSocket: bool)
      ensures this.conf == conf && this.maps == maps && this.daemon == daemon && this.hasSocket == hasSocket
    {
      this.conf, this.maps, this.daemon, this.hasSocket := conf, maps, daemon, hasSocket;
    }

    function OnDisk(): Disk
      reads this
    {
      Disk(conf, maps)
    }

    /** `_current_files`: the maps directory, as far as it is managed. */
    method CurrentFiles() returns (current: Files)
      ensures current == ManagedOf(maps)
    {
      current := map[];
      var todo := maps.Keys;
      while todo != {}
        invariant todo <= maps.Keys
        invariant current == map n | n in maps && n !in todo && IsManaged(n) :: maps[n]
        decreases |todo|
      {
        var name :| name in todo;
        todo := todo - {name};
        if IsManaged(name) {
          current := current[name := maps[name]];
        }
      }
    }

    /** Each file is written whole, one after the other. */
    method WriteAll(files: Files)
      modifies this`maps
      ensures maps == old(maps) + files
    {
      var todo := files.Keys;
      while todo != {}
        invariant todo <= files.Keys
        invariant maps == old(maps) + (map n | n in files && n !in todo :: files[n])
        decreases |todo|
      {
        var name :| name in todo;
        todo := todo - {name};
        maps := maps[name := files[name]];
      }
      assert (map n | n in files && n !in todo :: files[n]) == files;
    }

    method RemoveAll(names: set<string>)
      modifies this`maps
      ensures maps == old(maps) - names
    {
      var todo := names;
      while todo != {}
        invariant todo <= names
        invariant maps == old(maps) - (names - todo)
        decreases |todo|
      {
        var name :| name in todo;
        todo := todo - {name};
        maps := maps - {name};
      }
    }

    method PutOneBack(previous: Files, name: string)
      modifies this`maps
      ensures maps == if name in previous then old(maps)[name := previous[name]] else old(maps) - {name}
    {
      maps := if name in previous then maps[name := previous[name]] else maps - {name};
    }

    method PutAllBack(previous: Files, names: set<string>)
      modifies this`maps
      ensures maps == PutBack(old(maps), previous, names)
    {
      var todo := names;
      ghost var done: set<string> := {};
      NothingPutBack(maps, previous);
      while todo != {}
        invariant done + todo == names && done !! todo
        invariant maps == PutBack(old(maps), previous, done)
        decreases |todo|
      {
        var name :| name in todo;
        OnePutBack(old(maps), previous, done, name);
        PutOneBack(previous, name);
        todo, done := todo - {name}, done + {name};
      }
      assert done == names;
    }

    /** `_restore`: the files that were there are written back, the ones that were not are removed. */
    method Restore(conf: Option<string>, previous: Files, attempted: Files)
      modifies this`conf, this`maps
      ensures this.conf == conf
      ensures maps == (old(maps) - attempted.Keys) + previous
    {
      PutAllBack(previous, attempted.Keys);
      var rest := map n | n in previous && n !in attempted :: previous[n];
      AllPutBack(old(maps), previous, attempted.Keys);
      WriteAll(rest);
      this.conf := conf;
    }

    /** The daemon starts afresh on what is on disk, or does not start. */
    method Restart(ok: bool)
      modifies this`daemon
      ensures daemon == if ok && conf.Some? then Serving(conf.value, maps) else Down
    {
      daemon := if ok && conf.Some? then Serving(conf.value, maps) else Down;
    }

    /** `_sync_maps`: every change pushed, or a reload is needed. */
    method SyncMaps(changed: Files, replies: Replies) returns (synced: bool)
      modifies this`daemon
      ensures daemon.Down? <==> old(daemon).Down?
      ensures synced <==> Syncable(hasSocket, old(daemon), changed, replies)
      ensures synced ==>
        && daemon.Serving? && daemon.conf == old(daemon).conf && changed != map[]
        && daemon.memory == old(daemon).memory + changed
    {
      if !hasSocket || changed == map[] {
        return false;
      }
      if exists n :: n in changed && !Pushable(n) {
        return false;
      }
      ghost var before := daemon;
      if daemon.Serving? {
        AllPushed(daemon.memory, changed);
      }
      var todo := changed.Keys;
      while todo != {}
        invariant todo <= changed.Keys
        invariant daemon.Down? <==> before.Down?
        invariant daemon.Serving? ==> daemon.conf == before.conf && daemon.memory == Pushed(before.memory, changed, todo)
        invariant daemon.Down? ==> todo == changed.Keys
        invariant forall n :: n in changed && n !in todo ==> PushedOver(n, replies)
        decreases |todo|
      {
        var name :| name in todo;
        var pushed := PushOne(name, changed[name], replies);
        if !pushed {
          return false;
        }
        OnePushed(before.memory, changed, todo, name);
        todo := todo - {name};
      }
      AllPushed(before.memory, changed);
      SomePushed(changed);
      return true;
    }

    /** Clear the file in memory, then add its lines. Nobody answers for a daemon that is down. */
    method PushOne(name: string, body: string, replies: Replies) returns (pushed: bool)
      modifies this`daemon
      ensures daemon.Down? <==> old(daemon).Down?
      ensures daemon.Serving? ==> daemon.conf == old(daemon).conf
      ensures pushed <==> old(daemon).Serving? && PushedOver(name, replies)
      ensures pushed ==> daemon.Serving? && daemon.memory == old(daemon).memory[name := body]
    {
      if daemon.Down? || replies.runtime(name, ClearStep) != Done {
        return false;
      }
      daemon := Serving(daemon.conf, daemon.memory[name := ""]);
      if replies.runtime(name, AddStep) != Done {
        return false;
      }
      assert "" + body == body;
      daemon := Serving(daemon.conf, daemon.memory[name := daemon.memory[name] + body]);
      return true;
    }

    /** `apply`. */
    method Apply(conf: string, files: Files, replies: Replies) returns (r: Result<Action, Failure>)
      modifies this`conf, this`maps, this`daemon
      // a return: the disk holds what was asked for, and the daemon serves it
      ensures r.Ok? ==> this.conf == Some(conf) && maps == Installed(old(maps), files)
      ensures r.Ok? && (r.value.Reloaded? || r.value.Started?) ==> daemon == Serving(conf, maps)
      ensures r == Ok(Synced) ==>
        && daemon.Serving? && old(daemon).Serving? && daemon.conf == old(daemon).conf
        && var changed := Changed(ManagedOf(old(maps)), files);
           daemon.memory == old(daemon).memory + changed && old(this.conf) == Some(conf)
      ensures r == Ok(Unchanged) ==> daemon == old(daemon)
      // a failure: the disk is what it was, unmanaged files of the request excepted
      ensures r == Err(NotStarted) ==> OnDisk() == old(OnDisk())
      ensures r == Err(Rejected) || r == Err(NotReloaded) ==>
        this.conf == old(this.conf) && maps == RolledBack(old(maps), files)
      ensures r == Err(Rejected) ==> daemon == old(daemon)
      ensures r == Err(NotStarted) ==> daemon.Down?
      ensures r == Err(NotReloaded) ==>
        daemon == if replies.restartedAfterRestore && this.conf.Some? then Serving(this.conf.value, maps) else Down
      // which of them
      ensures r == Answer(old(OnDisk()), old(daemon), hasSocket, conf, files, replies)
    {
      ghost var was := OnDisk();
      var previousConf := this.conf;
      var previous := CurrentFiles();
      var confChanged := previousConf != Some(conf);
      var changed := Changed(previous, files);
      var stale := Stale(previous, files);

      if !confChanged && changed == map[] && stale == {} {
        NothingToInstall(maps, files);
        if replies.active {
          return Ok(Unchanged);
        }
        Restart(replies.restarted);
        if daemon.Down? {
          return Err(NotStarted);
        }
        return Ok(Started);
      }

      WriteAll(changed);
      RemoveAll(stale);
      if confChanged {
        this.conf := Some(conf);
      }
      WrittenIsInstalled(was.maps, files);

      if !replies.accepted {
        Restore(previousConf, previous, files);
        RestoredIsRolledBack(was.maps, files);
        return Err(Rejected);
      }

      if !confChanged && replies.active {
        var synced := SyncMaps(changed, replies);
        if synced {
          return Ok(Synced);
        }
      }

      if replies.reloaded {
        Restart(true);
        return Ok(Reloaded);
      }
      Restart(replies.restarted);
      if daemon.Down? {
        Restore(previousConf, previous, files);
        RestoredIsRolledBack(was.maps, files);
        Restart(replies.restartedAfterRestore);
        return Err(NotReloaded);
      }
      return Ok(Started);
    }
  }

  lemma NothingToInstall(maps: Files, files: Files)
    requires Changed(ManagedOf(maps), files) == map[] && Stale(ManagedOf(maps), files) == {}
    ensures Installed(maps, files) == maps
  {
    var previous := ManagedOf(maps);
    assert forall n :: n in Changed(previous, files) <==> n in files && !(n in previous && previous[n] == files[n]);
  }

  /** Writing the changes and removing what is stale is installing. */
  lemma WrittenIsInstalled(maps: Files, files: Files)
    ensures (maps + Changed(ManagedOf(maps), files)) - Stale(ManagedOf(maps), files) == Installed(maps, files)
  {
  }

  lemma RestoredIsRolledBack(maps: Files, files: Files)
    ensures (Installed(maps, files) - files.Keys) + ManagedOf(maps) == RolledBack(maps, files)
  {
  }

  // ----- what the outcomes are worth -----

  /** A managed file is on disk exactly as requested; a file that is not ours and not asked for is untouched. */
  lemma InstalledMeans(maps: Files, files: Files, name: string)
    ensures name in files ==> name in Installed(maps, files) && Installed(maps, files)[name] == files[name]
    ensures name !in files && IsManaged(name) ==> name !in Installed(maps, files)
    ensures name !in files && !IsManaged(name) ==>
      (name in Installed(maps, files) <==> name in maps) && (name in maps ==> Installed(maps, files)[name] == maps[name])
  {
  }

  /** The rollback is complete exactly when the request named no unmanaged file that was already there. */
  lemma RollbackIsExact(maps: Files, files: Files)
    ensures RolledBack(maps, files) == maps <==> forall n :: n in files && n in maps ==> IsManaged(n)
  {
    if RolledBack(maps, files) == maps {
      forall n | n in files && n in maps
        ensures IsManaged(n)
      {
        assert n in RolledBack(maps, files);
      }
    }
  }

  lemma RevokedIsUnmanaged()
    ensures !IsManaged("sso_revoked.map")
  {
    forall p | p in MANAGED_PREFIXES
      ensures !(p <= "sso_revoked.map")
    {
      assert |p| >= 4 && (p[0] != 's' || p[1] != 's');
    }
  }

  /** The revocation list is such a file: a refused configuration takes it off the disk. */
  lemma RollbackLosesRevocations(maps: Files, files: Files)
    requires "sso_revoked.map" in files && "sso_revoked.map" in maps
    ensures "sso_revoked.map" !in RolledBack(maps, files)
    ensures RolledBack(maps, files) != maps
  {
    RevokedIsUnmanaged();
  }

  /** And a request that carries it is never found to be current. */
  lemma RevocationsAreNeverCurrent(disk: Disk, conf: string, files: Files)
    requires "sso_revoked.map" in files
    ensures !IsCurrent(disk, conf, files)
  {
    RevokedIsUnmanaged();
    assert "sso_revoked.map" in Changed(ManagedOf(disk.maps), files);
  }

  /** Installed, a request has nothing left to install exactly when all its names are managed. */
  lemma InstalledIsCurrent(maps: Files, conf: string, files: Files)
    ensures IsCurrent(Disk(Some(conf), Installed(maps, files)), conf, files) <==> forall n :: n in files ==> IsManaged(n)
  {
    LeftToInstall(maps, files);
    var left := Changed(ManagedOf(Installed(maps, files)), files);
    if n :| n in files && !IsManaged(n) {
      assert n in left;
    }
    if forall n :: n in files ==> IsManaged(n) {
      assert left == map[];
    }
  }

  /** What a second call of the same request would install again: its unmanaged files, and nothing else. */
  lemma LeftToInstall(maps: Files, files: Files)
    ensures Changed(ManagedOf(Installed(maps, files)), files) == map n | n in files && !IsManaged(n) :: files[n]
    ensures Stale(ManagedOf(Installed(maps, files)), files) == {}
  {
    var previous := ManagedOf(Installed(maps, files));
    assert forall n :: n in previous <==> n in files && IsManaged(n);
  }

  /** Pushing the changes over the runtime socket keeps memory and disk together. */
  lemma SyncKeepsFaith(disk: Disk, daemon: Daemon, files: Files)
    requires Faithful(disk, daemon) && daemon.Serving?
    ensures Faithful(Disk(disk.conf, Installed(disk.maps, files)),
                     Serving(daemon.conf, daemon.memory + Changed(ManagedOf(disk.maps), files)))
  {
  }

  lemma RolledBackIsPart(disk: Disk, daemon: Daemon, files: Files)
    requires Faithful(disk, daemon)
    ensures Faithful(Disk(disk.conf, RolledBack(disk.maps, files)), daemon)
  {
  }

  /** Every failure leaves the disk rolled back; and a daemon that serves the disk goes on serving the disk. */
  method ApplyFaithfully(a: Applier, conf: string, files: Files, replies: Replies) returns (r: Result<Action, Failure>)
    modifies a
    ensures old(Faithful(a.OnDisk(), a.daemon)) ==> Faithful(a.OnDisk(), a.daemon)
    ensures r == Answer(old(a.OnDisk()), old(a.daemon), a.hasSocket, conf, files, replies)
    ensures r.Ok? ==> a.OnDisk() == Disk(Some(conf), Installed(old(a.maps), files))
    ensures r.Err? ==> a.OnDisk() == Disk(old(a.conf), RolledBack(old(a.maps), files))
  {
    ghost var was, served := a.OnDisk(), a.daemon;
    r := a.Apply(conf, files, replies);
    if r.Err? {
      if Faithful(was, served) {
        RolledBackIsPart(was, served, files);
      }
      match r.error
      case Rejected =>
      case NotReloaded =>
      case NotStarted => CurrentIsManaged(was, conf, files);
    } else if r == Ok(Synced) {
      if Faithful(was, served) {
        SyncKeepsFaith(was, served, files);
      }
    } else if r == Ok(Unchanged) {
      NothingToInstall(was.maps, files);
    }
  }

  /** A request that is current names managed files only, so rolling it back would take nothing. */
  lemma CurrentIsManaged(disk: Disk, conf: string, files: Files)
    requires IsCurrent(disk, conf, files)
    ensures RolledBack(disk.maps, files) == disk.maps
  {
    var changed := Changed(ManagedOf(disk.maps), files);
    assert forall n :: n in changed <==> n in files && !(n in ManagedOf(disk.maps) && disk.maps[n] == files[n]);
  }
}
