/**
 The requests and jobs that move peers, step by step on the rows they change, each proved to
 be the step of `Lifecycle` it is meant to be. A transaction that cannot commit is rolled back.
 */
module ControlPlane {
  import opened Wrappers
  import opened NftModel
  import opened Lifecycle

  datatype Denied = NoSuchPeer | WrongKind | NotEligible | BadCredentials | RolledBack | AlreadyThere

  class Database {
    var peers: map<PeerId, Peer>
    var sessions: seq<Session>
    var lifetimes: map<string, int>
    const defaultLifetime: int

    constructor (lifetimes: map<string, int>, defaultLifetime: int)
      ensures Now() == Fleet(map[], [], lifetimes, defaultLifetime)
    {
      this.lifetimes, this.defaultLifetime := lifetimes, defaultLifetime;
      peers, sessions := map[], [];
    }

    function Now(): Fleet
      reads this
    {
      Fleet(peers, sessions, lifetimes, defaultLifetime)
    }

    method Rollback(f: Fleet)
      requires f.lifetimes == lifetimes && f.defaultLifetime == defaultLifetime
      modifies this`peers, this`sessions
      ensures Now() == f
    {
      peers, sessions := f.peers, f.sessions;
    }

    method SetState(id: PeerId, s: PeerState)
      requires id in peers
      modifies this`peers
      ensures Now() == WithState(old(Now()), id, s)
    {
      peers := peers[id := peers[id].(state := s)];
    }

    /** `revoke_sessions`. */
    method RevokeSessions(id: PeerId, now: int)
      modifies this`sessions
      ensures sessions == EndSessionsOf(old(sessions), id, now)
    {
      for i := 0 to |sessions|
        invariant |sessions| == |old(sessions)|
        invariant forall k :: 0 <= k < i ==> sessions[k] == EndSessionsOf(old(sessions), id, now)[k]
        invariant forall k :: i <= k < |sessions| ==> sessions[k] == old(sessions)[k]
      {
        if sessions[i].peer == id && sessions[i].status.Live? {
          sessions := sessions[i := End(sessions[i], now)];
        }
      }
    }

    /** `open_session`. */
    method Open(id: PeerId, now: int)
      requires id in peers
      modifies this`peers, this`sessions
      ensures Now() == OpenSession(old(Now()), id, now)
    {
      var lifetime := Lifetime(peers[id], Now());
      RevokeSessions(id, now);
      sessions := sessions + [Session(id, Live, now, Some(now + lifetime), None)];
      peers := peers[id := peers[id].(lastAuth := Some(now))];
    }

    /** `create_peer`: a registered key alone grants nothing. */
    method CreatePeer(id: PeerId, kind: PeerKind, groups: seq<string>, commits: bool) returns (r: Result<(), Denied>)
      modifies this`peers, this`sessions
      ensures Now() == Next(old(Now()), Create(id, kind, groups, commits))
      ensures r.Ok? <==> commits && id !in old(peers)
      ensures r.Ok? ==> peers == old(peers)[id := Peer(kind, Staging, groups, None, None, false)] && sessions == old(sessions)
      ensures r.Err? ==> peers == old(peers) && sessions == old(sessions)
    {
      if id in peers {
        return Err(AlreadyThere);
      }
      var before := Now();
      peers := peers[id := Peer(kind, Staging, groups, None, None, false)];
      if !commits {
        Rollback(before);
        return Err(RolledBack);
      }
      return Ok(());
    }

    /** No proof of one's own makes a disabled or revoked peer active. */
    static predicate Barred(p: Peer) {
      p.state.Disabled? || p.state.Revoked?
    }

    /** `enroll`: a server presents its key. */
    method EnrollPeer(id: PeerId, keyMatches: bool, commits: bool, now: int) returns (r: Result<(), Denied>)
      modifies this`peers, this`sessions
      ensures Now() == Next(old(Now()), Enroll(id, keyMatches, commits, now))
      ensures r.Ok? <==> commits && keyMatches && id in old(peers) && old(peers)[id].kind.Server? && old(peers)[id].hasKey && !Barred(old(peers)[id])
      ensures r.Ok? ==> peers == old(peers)[id := old(peers)[id].(state := Active, enrolledAt := Some(now))] && sessions == old(sessions)
      ensures r.Err? ==> peers == old(peers) && sessions == old(sessions)
    {
      if id !in peers {
        return Err(NoSuchPeer);
      }
      if !peers[id].kind.Server? {
        return Err(WrongKind);
      }
      if !peers[id].hasKey || !keyMatches {
        return Err(BadCredentials);
      }
      if !SelfServiceMay(peers[id].state, Active) {
        return Err(NotEligible);
      }
      var before := Now();
      SetState(id, Active);
      peers := peers[id := peers[id].(enrolledAt := Some(now))];
      if !commits {
        Rollback(before);
        return Err(RolledBack);
      }
      return Ok(());
    }

    /** `login` and `oidc_callback`: a person proves to be there. */
    method SignIn(id: PeerId, credentialsOk: bool, commits: bool, now: int) returns (r: Result<(), Denied>)
      modifies this`peers, this`sessions
      ensures Now() == Next(old(Now()), Login(id, credentialsOk, commits, now))
      ensures r.Ok? <==> commits && credentialsOk && id in old(peers) && old(peers)[id].kind.User? && !Barred(old(peers)[id])
      ensures r.Ok? ==>
        var was := old(peers)[id];
        && peers == old(peers)[id := was.(state := Active, lastAuth := Some(now))]
        && sessions == EndSessionsOf(old(sessions), id, now) + [Session(id, Live, now, Some(now + old(Lifetime(peers[id], Now()))), None)]
      ensures r.Err? ==> peers == old(peers) && sessions == old(sessions)
    {
      if id !in peers {
        return Err(NoSuchPeer);
      }
      if !peers[id].kind.User? {
        return Err(WrongKind);
      }
      if !credentialsOk {
        return Err(BadCredentials);
      }
      if !SelfServiceMay(peers[id].state, Active) {
        return Err(NotEligible);
      }
      var before := Now();
      Open(id, now);
      SetState(id, Active);
      if !commits {
        Rollback(before);
        return Err(RolledBack);
      }
      return Ok(());
    }

    /** `logout`: back to quarantine, now. */
    method SignOut(id: PeerId, commits: bool, now: int) returns (r: Result<(), Denied>)
      modifies this`peers, this`sessions
      ensures Now() == Next(old(Now()), Logout(id, commits, now))
      ensures r.Ok? <==> commits && id in old(peers) && old(peers)[id].kind.User?
      ensures r.Ok? ==>
        && peers == (if old(peers)[id].state.Active? then old(peers)[id := old(peers)[id].(state := Quarantined)] else old(peers))
        && sessions == EndSessionsOf(old(sessions), id, now)
      ensures r.Err? ==> peers == old(peers) && sessions == old(sessions)
    {
      if id !in peers {
        return Err(NoSuchPeer);
      }
      if !peers[id].kind.User? {
        return Err(WrongKind);
      }
      var before := Now();
      RevokeSessions(id, now);
      if peers[id].state.Active? {
        SetState(id, Quarantined);
      }
      if !commits {
        Rollback(before);
        return Err(RolledBack);
      }
      return Ok(());
    }

    /** Anywhere from any state but revoked, except that nobody but the person makes a person's device active. */
    static predicate MovableTo(p: Peer, target: PeerState) {
      p.state == target || (!p.state.Revoked? && !(target.Active? && p.kind.User?))
    }

    /** `update_peer`. */
    method UpdatePeer(id: PeerId, target: Option<PeerState>, groups: Option<seq<string>>, commits: bool, now: int)
      returns (r: Result<(), Denied>)
      modifies this`peers, this`sessions
      ensures Now() == Next(old(Now()), Patch(id, target, groups, commits, now))
      // accepted unless the peer is revoked for good, or a person would be made active
      ensures r.Ok? <==> commits && id in old(peers) && (target.Some? ==> MovableTo(old(peers)[id], target.value))
      ensures r.Err? ==> peers == old(peers) && sessions == old(sessions)
      // the peer is where and in what it was asked to be, and whoever leaves the active state is signed out
      ensures r.Ok? ==>
        var was := old(peers)[id];
        && peers == old(peers)[id := was.(state := if target.Some? then target.value else was.state,
                                          groups := if groups.Some? then groups.value else was.groups)]
        && sessions == if was.state.Active? && target.Some? && !target.value.Active? then EndSessionsOf(old(sessions), id, now) else old(sessions)
    {
      if id in peers && target.Some? {
        AdminTable(peers[id].state, target.value);
      }
      if id !in peers {
        return Err(NoSuchPeer);
      }
      var previous := peers[id].state;
      if target.Some? {
        if !AdminMay(previous, target.value) {
          return Err(NotEligible);
        }
        if target.value.Active? && !previous.Active? && peers[id].kind.User? {
          return Err(NotEligible);
        }
      }
      var before := Now();
      if groups.Some? {
        peers := peers[id := peers[id].(groups := groups.value)];
      }
      if target.Some? {
        SetState(id, target.value);
      }
      if previous.Active? && !peers[id].state.Active? {
        RevokeSessions(id, now);
      }
      if !commits {
        Rollback(before);
        return Err(RolledBack);
      }
      return Ok(());
    }

    /** `create_enrollment_key`. */
    method CreateKey(id: PeerId) returns (r: Result<(), Denied>)
      modifies this`peers
      ensures Now() == Next(old(Now()), IssueKey(id))
      ensures r.Ok? <==> id in old(peers) && old(peers)[id].kind.Server?
      ensures peers == if r.Ok? then old(peers)[id := old(peers)[id].(hasKey := true)] else old(peers)
    {
      if id !in peers {
        return Err(NoSuchPeer);
      }
      if !peers[id].kind.Server? {
        return Err(WrongKind);
      }
      peers := peers[id := peers[id].(hasKey := true)];
      return Ok(());
    }

    /** `revoke_enrollment_key`. */
    method RevokeEnrollmentKey(id: PeerId, quarantine: bool, commits: bool) returns (r: Result<(), Denied>)
      modifies this`peers, this`sessions
      ensures Now() == Next(old(Now()), RevokeKey(id, quarantine, commits))
      ensures r.Ok? <==> commits && id in old(peers)
      ensures r.Ok? ==>
        var was := old(peers)[id];
        && peers == old(peers)[id := was.(hasKey := false, state := if quarantine && !was.state.Revoked? then Quarantined else was.state)]
        && sessions == old(sessions)
      ensures r.Err? ==> peers == old(peers) && sessions == old(sessions)
    {
      if id !in peers {
        return Err(NoSuchPeer);
      }
      var before := Now();
      peers := peers[id := peers[id].(hasKey := false)];
      if quarantine && !peers[id].state.Revoked? {
        SetState(id, Quarantined);
      }
      if !commits {
        Rollback(before);
        return Err(RolledBack);
      }
      return Ok(());
    }

    // ----- the kill switch -----

    static function Struck(mode: Mode, p: Peer): Peer {
      match mode
      case QuarantineMode => if p.state.Active? then p.(state := Quarantined) else p
      case LockdownMode => if p.state.Revoked? || p.state.Disabled? then p else p.(state := Disabled)
    }

    /** `assert_admin_transition` and the move behind it: callers must not run into the guard. */
    method MoveAsAdmin(id: PeerId, s: PeerState)
      requires id in peers && AdminMay(peers[id].state, s)
      modifies this`peers
      ensures Now() == WithState(old(Now()), id, s)
    {
      SetState(id, s);
    }

    method EndAll(now: int) returns (ended: nat)
      modifies this`sessions
      ensures sessions == EndAllSessions(old(sessions), now)
      ensures ended == 0 <==> forall i :: 0 <= i < |old(sessions)| ==> !old(sessions)[i].status.Live?
    {
      ended := 0;
      for i := 0 to |sessions|
        invariant |sessions| == |old(sessions)|
        invariant forall k :: 0 <= k < i ==> sessions[k] == EndAllSessions(old(sessions), now)[k]
        invariant forall k :: i <= k < |sessions| ==> sessions[k] == old(sessions)[k]
        invariant ended == 0 <==> forall k :: 0 <= k < i ==> !old(sessions)[k].status.Live?
      {
        if sessions[i].status.Live? {
          sessions := sessions[i := End(sessions[i], now)];
          ended := ended + 1;
        }
      }
    }

    /** `trigger`: every peer the mode acts on, and every live session. */
    method Trigger(mode: Mode, commits: bool, now: int) returns (affected: set<PeerId>)
      modifies this`peers, this`sessions
      ensures Now() == Next(old(Now()), Kill(mode, commits, now))
      ensures affected == set id | id in old(peers) && mode.Hits(old(peers)[id].state)
      ensures peers.Keys == old(peers).Keys && |sessions| == |old(sessions)|
      // quarantine takes the active; lockdown disables all but the revoked
      ensures commits ==>
        && (forall id :: id in peers ==> peers[id] == Struck(mode, old(peers)[id]))
        && (forall i :: 0 <= i < |sessions| ==> !sessions[i].status.Live?)
    {
      var before := Now();
      affected := set id | id in peers && mode.Hits(peers[id].state);
      var todo := affected;
      NoneKilled(before, mode, affected);
      while todo != {}
        invariant todo <= affected && sessions == before.sessions
        invariant peers == KilledBut(before, mode, todo)
        decreases |todo|
      {
        var id :| id in todo;
        NeverRefused(mode, peers[id].state);
        KillOne(before, mode, todo, id);
        MoveAsAdmin(id, mode.Target());
        todo := todo - {id};
      }
      var ended := EndAll(now);
      AllKilled(before, mode, now);
      assert Now() == AfterKill(before, mode, now);
      if !commits {
        Rollback(before);
      }
    }

    // ----- expiry -----

    /** The live session of each candidate, in one pass over the rows. */
    method LiveSessions(candidates: set<PeerId>) returns (live: map<PeerId, nat>)
      ensures forall id :: id in candidates ==> LiveRow(sessions, id, |sessions|) == if id in live then Some(live[id]) else None
      ensures live.Keys <= candidates
    {
      live := map[];
      for i := 0 to |sessions|
        invariant live.Keys <= candidates
        invariant forall id :: id in candidates ==> LiveRow(sessions, id, i) == if id in live then Some(live[id]) else None
      {
        var row := sessions[i];
        if row.peer in candidates && row.status.Live? {
          if row.peer !in live || row.lastAuth > sessions[live[row.peer]].lastAuth {
            live := live[row.peer := i];
          }
        }
      }
    }

    /** `find_expired`: the active user peers no longer entitled to be active, and their sessions. */
    method FindExpired(now: int) returns (found: set<PeerId>, live: map<PeerId, nat>)
      ensures found == set id | id in peers && IsExpired(Now(), id, now)
      ensures forall id :: id in found ==> LiveRow(sessions, id, |sessions|) == if id in live then Some(live[id]) else None
    {
      var candidates := set id | id in peers && peers[id].kind.User? && peers[id].state.Active?;
      live := LiveSessions(candidates);
      found := {};
      var todo := candidates;
      while todo != {}
        invariant todo <= candidates
        invariant forall id :: id in found <==> id in candidates && id !in todo && IsExpired(Now(), id, now)
        decreases |todo|
      {
        var id :| id in todo;
        todo := todo - {id};
        var overdue := Overdue(id, if id in live then Some(live[id]) else None, now);
        if overdue {
          found := found + {id};
        }
      }
    }

    /** One candidate: never authenticated, or past its deadline. */
    method Overdue(id: PeerId, row: Option<nat>, now: int) returns (overdue: bool)
      requires id in peers && peers[id].kind.User? && peers[id].state.Active?
      requires row == LiveRow(sessions, id, |sessions|)
      ensures overdue == IsExpired(Now(), id, now)
    {
      var session := if row.Some? then Some(sessions[row.value]) else None;
      var deadline := Deadline(peers[id], session, Now());
      return deadline.None? || deadline.value <= now;
    }

    /** `sweep`. */
    method SweepExpired(commits: bool, now: int) returns (expired: set<PeerId>)
      modifies this`peers, this`sessions
      ensures Now() == Next(old(Now()), Sweep(commits, now))
      ensures expired == set id | id in old(peers) && IsExpired(old(Now()), id, now)
    {
      var before := Now();
      var live;
      expired, live := FindExpired(now);
      var todo := expired;
      NoneSwept(before, now, expired);
      while todo != {}
        invariant todo <= expired
        invariant Now() == SweptBut(before, now, todo)
        decreases |todo|
      {
        var id :| id in todo;
        SweepOne(before, now, todo, id);
        SetState(id, Quarantined);
        if id in live {
          sessions := sessions[live[id] := ExpiredRow(sessions[live[id]], now)];
        }
        todo := todo - {id};
      }
      AllSwept(before, now);
      if !commits {
        Rollback(before);
      }
    }
  }

  /** The peers while the switch still has `todo` to do. */
  function KilledBut(f: Fleet, mode: Mode, todo: set<PeerId>): map<PeerId, Peer> {
    map id | id in f.peers ::
      if mode.Hits(f.peers[id].state) && id !in todo then f.peers[id].(state := mode.Target()) else f.peers[id]
  }

  lemma NoneKilled(f: Fleet, mode: Mode, affected: set<PeerId>)
    requires forall id :: id in f.peers && mode.Hits(f.peers[id].state) ==> id in affected
    ensures KilledBut(f, mode, affected) == f.peers
  {
  }

  lemma KillOne(f: Fleet, mode: Mode, todo: set<PeerId>, id: PeerId)
    requires id in todo && id in f.peers && mode.Hits(f.peers[id].state)
    ensures var was := KilledBut(f, mode, todo);
            id in was && KilledBut(f, mode, todo - {id}) == was[id := was[id].(state := mode.Target())]
  {
  }

  lemma AllKilled(f: Fleet, mode: Mode, now: int)
    ensures KilledBut(f, mode, {}) == AfterKill(f, mode, now).peers
  {
  }

  /** A sweep that still has the peers of `todo` to do. */
  function SweptBut(f: Fleet, now: int, todo: set<PeerId>): Fleet {
    f.(peers := map id | id in f.peers ::
         if IsExpired(f, id, now) && id !in todo then f.peers[id].(state := Quarantined) else f.peers[id],
       sessions := seq(|f.sessions|, i requires 0 <= i < |f.sessions| =>
         if RowExpires(f, i, now) && f.sessions[i].peer !in todo then ExpiredRow(f.sessions[i], now) else f.sessions[i]))
  }

  lemma NoneSwept(f: Fleet, now: int, expired: set<PeerId>)
    requires forall id :: id in f.peers && IsExpired(f, id, now) ==> id in expired
    ensures SweptBut(f, now, expired) == f
  {
    var g := SweptBut(f, now, expired);
    assert g.peers == f.peers;
    assert g.sessions == f.sessions;
  }

  lemma AllSwept(f: Fleet, now: int)
    ensures SweptBut(f, now, {}) == AfterSweep(f, now)
  {
    assert SweptBut(f, now, {}).peers == AfterSweep(f, now).peers;
    assert SweptBut(f, now, {}).sessions == AfterSweep(f, now).sessions;
  }

  /** One more peer: its state, and the one row its deadline was read from. */
  lemma SweepOne(f: Fleet, now: int, todo: set<PeerId>, id: PeerId)
    requires id in todo && id in f.peers && IsExpired(f, id, now)
    ensures var was, after, row := SweptBut(f, now, todo), SweptBut(f, now, todo - {id}), LiveRow(f.sessions, id, |f.sessions|);
      && id in was.peers && after.peers == was.peers[id := was.peers[id].(state := Quarantined)]
      && |was.sessions| == |f.sessions|
      && after.sessions == if row.Some? then was.sessions[row.value := ExpiredRow(was.sessions[row.value], now)] else was.sessions
  {
    var was, after, row := SweptBut(f, now, todo), SweptBut(f, now, todo - {id}), LiveRow(f.sessions, id, |f.sessions|);
    assert after.peers == was.peers[id := was.peers[id].(state := Quarantined)];
    forall i | 0 <= i < |f.sessions|
      ensures after.sessions[i] == if row == Some(i) then ExpiredRow(was.sessions[i], now) else was.sessions[i]
    {
      if f.sessions[i].peer == id {
        assert RowExpires(f, i, now) <==> row == Some(i);
      }
    }
  }
}
