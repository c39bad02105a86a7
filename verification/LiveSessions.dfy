/**
 Exactly which steps leave a live session behind a peer that is not active, and exactly when
 dropping a person's sessions leaves an active device without one.
 */
module LiveSessions {
  import opened Lifecycle
  import opened LifecycleSafety
  import opened Expiry

  /** Whoever has a live session is active. */
  ghost predicate LiveAreActive(f: Fleet) {
    forall i :: 0 <= i < |f.sessions| && f.sessions[i].status.Live? ==>
      f.sessions[i].peer in f.peers && f.peers[f.sessions[i].peer].state.Active?
  }

  /** An administrator revokes the key of a signed-in person's device and quarantines it. */
  predicate Orphans(f: Fleet, e: Event) {
    && e.RevokeKey? && e.quarantine && e.commits
    && e.id in f.peers && f.peers[e.id].kind.User? && f.peers[e.id].state.Active?
  }

  // ----- step by step -----

  /** The one such step: the peer is quarantined, and its session goes on. */
  lemma KeyRevocationLeavesSession(f: Fleet, id: PeerId)
    requires Sound(f) && id in f.peers && f.peers[id].kind.User? && f.peers[id].state.Active?
    ensures var g := Next(f, RevokeKey(id, true, true));
            g.peers[id].state.Quarantined? && HasLive(g.sessions, id)
  {
  }

  lemma RevokeKeyKeeps(f: Fleet, e: Event)
    requires Sound(f) && LiveAreActive(f) && e.RevokeKey?
    ensures LiveAreActive(Next(f, e)) <==> !Orphans(f, e)
  {
    if Orphans(f, e) {
      KeyRevocationLeavesSession(f, e.id);
    }
  }

  lemma SweepKeeps(f: Fleet, now: int)
    requires Sound(f) && LiveAreActive(f)
    ensures LiveAreActive(AfterSweep(f, now))
  {
    var g := AfterSweep(f, now);
    forall i | 0 <= i < |g.sessions| && g.sessions[i].status.Live?
      ensures g.sessions[i].peer in g.peers && g.peers[g.sessions[i].peer].state.Active?
    {
      SweptRowsAreExpired(f, now, i);
    }
  }

  lemma DeleteKeeps(f: Fleet, id: PeerId)
    requires LiveAreActive(f)
    ensures LiveAreActive(f.(peers := f.peers - {id}, sessions := WithoutPeer(f.sessions, id)))
  {
    var rows := WithoutPeer(f.sessions, id);
    forall i | 0 <= i < |rows| && rows[i].status.Live?
      ensures rows[i].peer in f.peers - {id} && f.peers[rows[i].peer].state.Active?
    {
      WithoutPeerMember(f.sessions, id, rows[i]);
      var k :| 0 <= k < |f.sessions| && f.sessions[k] == rows[i];
    }
  }

  /** A step keeps live sessions with active peers exactly when it does not orphan one. */
  lemma StepKeepsExactly(f: Fleet, e: Event)
    requires Sound(f) && LiveAreActive(f)
    ensures LiveAreActive(Next(f, e)) <==> !Orphans(f, e)
  {
    match e
    case RevokeKey(_, _, _) => RevokeKeyKeeps(f, e);
    case Sweep(_, now) => SweepKeeps(f, now);
    case Delete(id, _) => DeleteKeeps(f, id);
    case _ =>
  }

  // ----- over runs -----

  ghost predicate AlwaysActive(f: Fleet, events: seq<Event>)
    decreases |events|
  {
    LiveAreActive(f) && (events == [] || AlwaysActive(Next(f, events[0]), events[1..]))
  }

  predicate NeverOrphans(f: Fleet, events: seq<Event>)
    decreases |events|
  {
    events == [] || (!Orphans(f, events[0]) && NeverOrphans(Next(f, events[0]), events[1..]))
  }

  lemma {:induction false} RunKeepsExactly(f: Fleet, events: seq<Event>)
    requires Sound(f) && LiveAreActive(f)
    ensures AlwaysActive(f, events) <==> NeverOrphans(f, events)
    decreases |events|
  {
    if events != [] {
      StepKeepsExactly(f, events[0]);
      NextSound(f, events[0]);
      if !Orphans(f, events[0]) {
        RunKeepsExactly(Next(f, events[0]), events[1..]);
      }
    }
  }

  /** From an empty database: live sessions belong to active peers throughout a run exactly when no step orphans one. */
  lemma LiveSessionsExactly(lifetimes: map<string, int>, defaultLifetime: int, events: seq<Event>)
    ensures var start := Fleet(map[], [], lifetimes, defaultLifetime);
            AlwaysActive(start, events) <==> NeverOrphans(start, events)
  {
    var start := Fleet(map[], [], lifetimes, defaultLifetime);
    EmptyIsSound(lifetimes, defaultLifetime);
    RunKeepsExactly(start, events);
  }

  // ----- deleting an account -----

  /** The rows left when the sessions of a person's devices go with the account. */
  function WithoutPeers(rows: seq<Session>, ids: set<PeerId>): seq<Session> {
    if rows == [] then [] else (if rows[0].peer in ids then [] else [rows[0]]) + WithoutPeers(rows[1..], ids)
  }

  lemma {:induction false} WithoutPeersMember(rows: seq<Session>, ids: set<PeerId>, row: Session)
    ensures row in WithoutPeers(rows, ids) <==> row in rows && row.peer !in ids
  {
    if rows != [] {
      WithoutPeersMember(rows[1..], ids, row);
      assert rows == [rows[0]] + rows[1..];
    }
  }

  lemma {:induction false} WithoutPeersDistinct(rows: seq<Session>, ids: set<PeerId>)
    requires LiveDistinct(rows)
    ensures LiveDistinct(WithoutPeers(rows, ids))
  {
    if rows != [] {
      var rest := WithoutPeers(rows[1..], ids);
      WithoutPeersDistinct(rows[1..], ids);
      if rows[0].peer !in ids && rows[0].status.Live? {
        forall j | 0 <= j < |rest| && rest[j].status.Live?
          ensures rest[j].peer != rows[0].peer
        {
          WithoutPeersMember(rows[1..], ids, rest[j]);
          var k :| 0 <= k < |rows[1..]| && rows[1..][k] == rest[j];
          assert rows[k + 1] == rest[j];
        }
      }
    }
  }

  /** The cascade leaves the devices and takes their sessions. */
  function AccountDeleted(f: Fleet, ids: set<PeerId>): Fleet {
    f.(sessions := WithoutPeers(f.sessions, ids))
  }

  /** Whatever the fleet was, an active device without its session breaks the invariant. */
  lemma AccountDeletionBreaksIt(f: Fleet, ids: set<PeerId>, id: PeerId)
    requires id in ids && id in f.peers && f.peers[id].kind.User? && f.peers[id].state.Active?
    ensures !Sound(AccountDeleted(f, ids))
  {
    var g := AccountDeleted(f, ids);
    forall i | 0 <= i < |g.sessions|
      ensures g.sessions[i].peer != id
    {
      WithoutPeersMember(f.sessions, ids, g.sessions[i]);
    }
  }

  /** Account deletion is no step of a run: it keeps the invariant exactly when no device of the person is active. */
  lemma AccountDeletionExactly(f: Fleet, ids: set<PeerId>)
    requires Sound(f)
    ensures Sound(AccountDeleted(f, ids))
       <==> !exists id :: id in ids && id in f.peers && f.peers[id].kind.User? && f.peers[id].state.Active?
  {
    var g := AccountDeleted(f, ids);
    if id :| id in ids && id in f.peers && f.peers[id].kind.User? && f.peers[id].state.Active? {
      AccountDeletionBreaksIt(f, ids, id);
    }
    WithoutPeersDistinct(f.sessions, ids);
    forall i | 0 <= i < |g.sessions|
      ensures g.sessions[i] in f.sessions && g.sessions[i].peer !in ids
    {
      WithoutPeersMember(f.sessions, ids, g.sessions[i]);
    }
    forall k | k in g.peers && k !in ids && HasLive(f.sessions, k)
      ensures HasLive(g.sessions, k)
    {
      var i :| 0 <= i < |f.sessions| && f.sessions[i].peer == k && f.sessions[i].status.Live?;
      WithoutPeersMember(f.sessions, ids, f.sessions[i]);
    }
  }
}
