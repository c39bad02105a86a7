/**
 What every run of steps keeps: revocation is final, only administrators undo a disabled
 peer, and an active user peer stands on exactly one session, the one its clock runs by.
 */
module LifecycleSafety {
  import opened Wrappers
  import opened NftModel
  import opened Lifecycle

  // ----- the invariant -----

  ghost predicate SessionsOfUsers(f: Fleet) {
    forall i :: 0 <= i < |f.sessions| ==> f.sessions[i].peer in f.peers && f.peers[f.sessions[i].peer].kind.User?
  }

  /** At most one live session per peer, and it carries the peer's own authentication time. */
  ghost predicate OneLiveEach(f: Fleet) {
    && (forall i, j :: 0 <= i < j < |f.sessions| && f.sessions[i].status.Live? && f.sessions[j].status.Live?
          ==> f.sessions[i].peer != f.sessions[j].peer)
    && (forall i :: 0 <= i < |f.sessions| && f.sessions[i].status.Live? ==>
          && f.sessions[i].peer in f.peers
          && f.peers[f.sessions[i].peer].lastAuth == Some(f.sessions[i].lastAuth)
          && f.sessions[i].expiresAt.Some?)
  }

  ghost predicate HasLive(rows: seq<Session>, id: PeerId) {
    exists i :: 0 <= i < |rows| && rows[i].peer == id && rows[i].status.Live?
  }

  ghost predicate ActiveUsersSignedIn(f: Fleet) {
    forall id :: id in f.peers && f.peers[id].kind.User? && f.peers[id].state.Active? ==> HasLive(f.sessions, id)
  }

  ghost predicate Sound(f: Fleet) {
    SessionsOfUsers(f) && OneLiveEach(f) && ActiveUsersSignedIn(f)
  }

  // ----- each step keeps it -----

  lemma LiveKept(before: seq<Session>, after: seq<Session>, id: PeerId)
    requires |before| <= |after| && HasLive(before, id)
    requires forall i :: 0 <= i < |before| && before[i].peer == id ==> after[i] == before[i]
    ensures HasLive(after, id)
  {
    var i :| 0 <= i < |before| && before[i].peer == id && before[i].status.Live?;
    assert after[i].peer == id;
  }

  lemma LoginSound(f: Fleet, id: PeerId, now: int)
    requires Sound(f) && id in f.peers && f.peers[id].kind.User?
    ensures Sound(WithState(OpenSession(f, id, now), id, Active))
  {
    var g := WithState(OpenSession(f, id, now), id, Active);
    var ended := EndSessionsOf(f.sessions, id, now);
    assert g.sessions[|f.sessions|].peer == id && g.sessions[|f.sessions|].status.Live?;
    forall k | k in g.peers && g.peers[k].kind.User? && g.peers[k].state.Active?
      ensures HasLive(g.sessions, k)
    {
      if k != id {
        LiveKept(f.sessions, g.sessions, k);
      }
    }
  }

  lemma EndedSound(f: Fleet, id: PeerId, p: Peer, now: int)
    requires Sound(f) && id in f.peers && !p.state.Active? && p.kind == f.peers[id].kind && p.lastAuth == f.peers[id].lastAuth
    ensures Sound(f.(peers := f.peers[id := p], sessions := EndSessionsOf(f.sessions, id, now)))
  {
    var g := f.(peers := f.peers[id := p], sessions := EndSessionsOf(f.sessions, id, now));
    forall k | k in g.peers && g.peers[k].kind.User? && g.peers[k].state.Active?
      ensures HasLive(g.sessions, k)
    {
      LiveKept(f.sessions, g.sessions, k);
    }
  }

  /** A peer may change in any way that leaves its kind and clock alone and does not make a user active. */
  lemma PeerChangeSound(f: Fleet, id: PeerId, p: Peer)
    requires Sound(f) && id in f.peers && p.kind == f.peers[id].kind && p.lastAuth == f.peers[id].lastAuth
    requires p.kind.User? && p.state.Active? ==> f.peers[id].state.Active?
    ensures Sound(f.(peers := f.peers[id := p]))
  {
    var g := f.(peers := f.peers[id := p]);
    forall k | k in g.peers && g.peers[k].kind.User? && g.peers[k].state.Active?
      ensures HasLive(g.sessions, k)
    {
      assert f.peers[k].kind.User? && f.peers[k].state.Active?;
    }
  }

  lemma KillSound(f: Fleet, mode: Mode, now: int)
    requires Sound(f)
    ensures Sound(AfterKill(f, mode, now))
  {
    var g := AfterKill(f, mode, now);
    assert forall id :: id in g.peers ==> !g.peers[id].state.Active?;
  }

  lemma SweepSound(f: Fleet, now: int)
    requires Sound(f)
    ensures Sound(AfterSweep(f, now))
  {
    var g := AfterSweep(f, now);
    forall id | id in g.peers && g.peers[id].kind.User? && g.peers[id].state.Active?
      ensures HasLive(g.sessions, id)
    {
      assert !IsExpired(f, id, now);
      LiveKept(f.sessions, g.sessions, id);
    }
  }

  lemma {:induction false} WithoutPeerMember(rows: seq<Session>, id: PeerId, row: Session)
    ensures row in WithoutPeer(rows, id) <==> row in rows && row.peer != id
  {
    if rows != [] {
      WithoutPeerMember(rows[1..], id, row);
      assert rows == [rows[0]] + rows[1..];
    }
  }

  ghost predicate LiveDistinct(rows: seq<Session>) {
    forall i, j :: 0 <= i < j < |rows| && rows[i].status.Live? && rows[j].status.Live? ==> rows[i].peer != rows[j].peer
  }

  lemma {:induction false} WithoutPeerDistinct(rows: seq<Session>, id: PeerId)
    requires LiveDistinct(rows)
    ensures LiveDistinct(WithoutPeer(rows, id))
  {
    if rows != [] {
      var rest := WithoutPeer(rows[1..], id);
      WithoutPeerDistinct(rows[1..], id);
      if rows[0].peer != id && rows[0].status.Live? {
        forall j | 0 <= j < |rest| && rest[j].status.Live?
          ensures rest[j].peer != rows[0].peer
        {
          WithoutPeerMember(rows[1..], id, rest[j]);
          var k :| 0 <= k < |rows[1..]| && rows[1..][k] == rest[j];
          assert rows[k + 1] == rest[j];
        }
      }
    }
  }

  lemma DeleteSound(f: Fleet, id: PeerId)
    requires Sound(f)
    ensures Sound(f.(peers := f.peers - {id}, sessions := WithoutPeer(f.sessions, id)))
  {
    var g := f.(peers := f.peers - {id}, sessions := WithoutPeer(f.sessions, id));
    WithoutPeerDistinct(f.sessions, id);
    forall i | 0 <= i < |g.sessions|
      ensures g.sessions[i] in f.sessions && g.sessions[i].peer != id
    {
      WithoutPeerMember(f.sessions, id, g.sessions[i]);
    }
    forall k | k in g.peers && g.peers[k].kind.User? && g.peers[k].state.Active?
      ensures HasLive(g.sessions, k)
    {
      var i :| 0 <= i < |f.sessions| && f.sessions[i].peer == k && f.sessions[i].status.Live?;
      WithoutPeerMember(f.sessions, id, f.sessions[i]);
    }
  }

  lemma CreateSound(f: Fleet, id: PeerId, p: Peer)
    requires Sound(f) && id !in f.peers && !p.state.Active?
    ensures Sound(f.(peers := f.peers[id := p]))
  {
  }

  /** Every step keeps the invariant. */
  lemma NextSound(f: Fleet, e: Event)
    requires Sound(f)
    ensures Sound(Next(f, e))
  {
    match e
    case Create(id, kind, groups, commits) =>
      if id !in f.peers { CreateSound(f, id, Peer(kind, Staging, groups, None, None, false)); }
    case Enroll(id, _, _, now) =>
      if id in f.peers && f.peers[id].kind.Server? {
        PeerChangeSound(f, id, f.peers[id].(state := Active, enrolledAt := Some(now)));
      }
    case Login(id, _, _, now) =>
      if id in f.peers && f.peers[id].kind.User? { LoginSound(f, id, now); }
    case Logout(id, _, now) =>
      if id in f.peers { LogoutSound(f, id, now); }
    case Patch(_, _, _, _, _) => PatchSound(f, e);
    case IssueKey(id) =>
      if id in f.peers { PeerChangeSound(f, id, f.peers[id].(hasKey := true)); }
    case RevokeKey(id, quarantine, _) =>
      if id in f.peers {
        var p := f.peers[id].(hasKey := false);
        PeerChangeSound(f, id, p);
        PeerChangeSound(f, id, p.(state := Quarantined));
      }
    case Kill(mode, _, now) => KillSound(f, mode, now);
    case Sweep(_, now) => SweepSound(f, now);
    case EditGroup(_, _) =>
    case Delete(id, _) => DeleteSound(f, id);
  }

  lemma LogoutSound(f: Fleet, id: PeerId, now: int)
    requires Sound(f) && id in f.peers
    ensures Sound(Next(f, Logout(id, true, now)))
  {
    if f.peers[id].kind.User? {
      var p := f.peers[id];
      EndedSound(f, id, if p.state.Active? then p.(state := Quarantined) else p, now);
      assert f.peers[id := p] == f.peers;
    }
  }

  lemma PatchSound(f: Fleet, e: Event)
    requires Sound(f) && e.Patch?
    ensures Sound(AfterPatch(f, e))
  {
    if e.id in f.peers && PatchAllowed(f.peers[e.id], e.target) {
      var p := Patched(f.peers[e.id], e.target, e.patchedGroups);
      if f.peers[e.id].state.Active? && !p.state.Active? {
        EndedSound(f, e.id, p, e.now);
      } else {
        PeerChangeSound(f, e.id, p);
      }
    }
  }

  lemma {:induction false} RunSound(f: Fleet, events: seq<Event>)
    requires Sound(f)
    ensures Sound(Run(f, events))
    decreases |events|
  {
    if events != [] {
      NextSound(f, events[0]);
      RunSound(Next(f, events[0]), events[1..]);
    }
  }

  lemma EmptyIsSound(lifetimes: map<string, int>, defaultLifetime: int)
    ensures Sound(Fleet(map[], [], lifetimes, defaultLifetime))
  {
  }

  ghost predicate TheLiveSession(f: Fleet, id: PeerId, i: nat) {
    i < |f.sessions| && f.sessions[i].peer == id && f.sessions[i].status.Live?
  }

  /** From an empty database, over any run: an active user peer has exactly one live session, with the peer's own clock. */
  lemma ExactlyOneSession(lifetimes: map<string, int>, defaultLifetime: int, events: seq<Event>, id: PeerId)
    requires var f := Run(Fleet(map[], [], lifetimes, defaultLifetime), events);
             id in f.peers && f.peers[id].kind.User? && f.peers[id].state.Active?
    ensures var f := Run(Fleet(map[], [], lifetimes, defaultLifetime), events);
            exists i: nat ::
              && TheLiveSession(f, id, i)
              && f.peers[id].lastAuth == Some(f.sessions[i].lastAuth)
              && forall j: nat :: TheLiveSession(f, id, j) ==> j == i
  {
    var start := Fleet(map[], [], lifetimes, defaultLifetime);
    EmptyIsSound(lifetimes, defaultLifetime);
    RunSound(start, events);
    var f := Run(start, events);
    var i :| 0 <= i < |f.sessions| && f.sessions[i].peer == id && f.sessions[i].status.Live?;
    assert TheLiveSession(f, id, i);
  }

  /** Server peers never own a session, live or not. */
  lemma ServersOwnNoSession(lifetimes: map<string, int>, defaultLifetime: int, events: seq<Event>, i: nat)
    requires i < |Run(Fleet(map[], [], lifetimes, defaultLifetime), events).sessions|
    ensures var f := Run(Fleet(map[], [], lifetimes, defaultLifetime), events);
            f.sessions[i].peer in f.peers && f.peers[f.sessions[i].peer].kind.User?
  {
    EmptyIsSound(lifetimes, defaultLifetime);
    RunSound(Fleet(map[], [], lifetimes, defaultLifetime), events);
  }

  // ----- states that hold -----

  predicate Deletes(e: Event, id: PeerId) { e.Delete? && e.id == id && e.commits }

  /** An administrator asked for it: a patch, or revoking the key, of this very peer. */
  predicate AdminStep(e: Event, id: PeerId) {
    || (e.Patch? && e.id == id && e.target.Some?)
    || (e.RevokeKey? && e.id == id && e.quarantine)
    || (e.Delete? && e.id == id)
  }

  /** The one step that makes a peer active is its own: a server's key, a person's sign-in, or an administrator for a server. */
  predicate Activates(e: Event, id: PeerId, kind: PeerKind) {
    || (e.Enroll? && e.id == id && kind.Server? && e.keyMatches)
    || (e.Login? && e.id == id && kind.User? && e.credentialsOk)
    || (e.Patch? && e.id == id && kind.Server? && e.target == Some(Active))
  }

  /** Where one step can take one peer. */
  lemma StepOfPeer(f: Fleet, e: Event, id: PeerId)
    requires id in f.peers
    ensures id in Next(f, e).peers <==> !Deletes(e, id)
    ensures id in Next(f, e).peers ==>
      var was, now := f.peers[id], Next(f, e).peers[id];
      && now.kind == was.kind
      && (was.state.Revoked? ==> now.state.Revoked?)
      && (was.state.Disabled? && !now.state.Disabled? ==> AdminStep(e, id))
      && (!was.state.Active? && now.state.Active? ==> Activates(e, id, was.kind))
  {
  }

  /** Once revoked, revoked for good: until the peer is deleted, no run brings it back. */
  lemma {:induction false} RevokedIsFinal(f: Fleet, events: seq<Event>, id: PeerId)
    requires id in f.peers && f.peers[id].state.Revoked?
    requires forall i :: 0 <= i < |events| ==> !Deletes(events[i], id)
    ensures id in Run(f, events).peers && Run(f, events).peers[id].state.Revoked?
    decreases |events|
  {
    if events != [] {
      StepOfPeer(f, events[0], id);
      RevokedIsFinal(Next(f, events[0]), events[1..], id);
    }
  }

  /** A disabled peer stays disabled through any run without an administrator's step on it. */
  lemma {:induction false} DisabledHolds(f: Fleet, events: seq<Event>, id: PeerId)
    requires id in f.peers && f.peers[id].state.Disabled?
    requires forall i :: 0 <= i < |events| ==> !AdminStep(events[i], id)
    ensures id in Run(f, events).peers && Run(f, events).peers[id].state.Disabled?
    decreases |events|
  {
    if events != [] {
      assert !AdminStep(events[0], id);
      StepOfPeer(f, events[0], id);
      DisabledHolds(Next(f, events[0]), events[1..], id);
    }
  }

  /** A revoked key opens nothing: until a new one is issued a server peer cannot enroll. */
  lemma {:induction false} RevokedKeyIsUseless(f: Fleet, events: seq<Event>, id: PeerId)
    requires id in f.peers && f.peers[id].kind.Server? && !f.peers[id].hasKey && !f.peers[id].state.Active?
    requires forall i :: 0 <= i < |events| ==>
      !Deletes(events[i], id) && events[i] != IssueKey(id) && !(events[i].Patch? && events[i].id == id)
    ensures id in Run(f, events).peers && !Run(f, events).peers[id].state.Active?
    decreases |events|
  {
    if events != [] {
      var e := events[0];
      StepOfPeer(f, e, id);
      assert !Next(f, e).peers[id].hasKey && !Next(f, e).peers[id].state.Active?;
      RevokedKeyIsUseless(Next(f, e), events[1..], id);
    }
  }
}
