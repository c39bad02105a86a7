/**
 Session expiry: whose time is up, and that one sweep settles it.
 */
module Expiry {
  import opened Wrappers
  import opened NftModel
  import opened Lifecycle
  import opened LifecycleSafety

  // ----- lifetimes -----

  lemma {:induction false} OverridesMean(groups: seq<string>, lifetimes: map<string, int>, seconds: int)
    ensures seconds in Overrides(groups, lifetimes)
       <==> exists g :: g in groups && g in lifetimes && lifetimes[g] == seconds && seconds != 0
  {
    if groups != [] {
      OverridesMean(groups[1..], lifetimes, seconds);
      assert groups == [groups[0]] + groups[1..];
    }
  }

  /** The shortest lifetime of the peer's groups; the default only when no group has its own. */
  lemma LifetimeIsShortest(p: Peer, f: Fleet)
    ensures forall g :: g in p.groups && g in f.lifetimes && f.lifetimes[g] != 0 ==> Lifetime(p, f) <= f.lifetimes[g]
    ensures (exists g :: g in p.groups && g in f.lifetimes && f.lifetimes[g] != 0 && Lifetime(p, f) == f.lifetimes[g])
         || ((forall g :: g in p.groups && g in f.lifetimes ==> f.lifetimes[g] == 0) && Lifetime(p, f) == f.defaultLifetime)
  {
    var overrides := Overrides(p.groups, f.lifetimes);
    forall g | g in p.groups && g in f.lifetimes && f.lifetimes[g] != 0
      ensures f.lifetimes[g] in overrides
    {
      OverridesMean(p.groups, f.lifetimes, f.lifetimes[g]);
    }
    if overrides != [] {
      OverridesMean(p.groups, f.lifetimes, Least(overrides));
    }
  }

  /** One more group never lengthens a lifetime that some group already limits. */
  lemma JoiningNeverLengthens(p: Peer, f: Fleet, group: string)
    requires exists g :: g in p.groups && g in f.lifetimes && f.lifetimes[g] != 0
    ensures Lifetime(p.(groups := p.groups + [group]), f) <= Lifetime(p, f)
  {
    LifetimeIsShortest(p, f);
    LifetimeIsShortest(p.(groups := p.groups + [group]), f);
    var g :| g in p.groups && g in f.lifetimes && f.lifetimes[g] != 0 && Lifetime(p, f) == f.lifetimes[g];
    assert g in p.groups + [group];
  }

  // ----- the deadline -----

  lemma {:induction false} LiveRowFinds(rows: seq<Session>, id: PeerId, n: nat, i: nat)
    requires n <= |rows| && i < n && rows[i].peer == id && rows[i].status.Live?
    ensures LiveRow(rows, id, n).Some?
  {
    if i < n - 1 {
      LiveRowFinds(rows, id, n - 1, i);
    }
  }

  /** For a signed-in person the deadline is the earlier of what was stored and what the groups say now. */
  lemma DeadlineOfSession(f: Fleet, id: PeerId, i: nat)
    requires Sound(f) && id in f.peers && TheLiveSession(f, id, i)
    ensures f.sessions[i].expiresAt.Some?
    ensures LiveRow(f.sessions, id, |f.sessions|) == Some(i)
    ensures Deadline(f.peers[id], LiveSession(f, id), f).Some?
    ensures var stored, recomputed := f.sessions[i].expiresAt.value, f.sessions[i].lastAuth + Lifetime(f.peers[id], f);
            Deadline(f.peers[id], LiveSession(f, id), f).value == if stored < recomputed then stored else recomputed
  {
    LiveRowFinds(f.sessions, id, |f.sessions|, i);
    var k := LiveRow(f.sessions, id, |f.sessions|).value;
    assert k == i;
  }

  /** What was stored at sign-in is never rewritten, nor is whose session it is. */
  lemma StoredExpiryIsFrozen(f: Fleet, e: Event, i: nat)
    requires i < |f.sessions| && !e.Delete?
    ensures i < |Next(f, e).sessions|
    ensures Next(f, e).sessions[i].expiresAt == f.sessions[i].expiresAt
    ensures Next(f, e).sessions[i].peer == f.sessions[i].peer && Next(f, e).sessions[i].lastAuth == f.sessions[i].lastAuth
    ensures Next(f, e).sessions[i].status.Live? ==> f.sessions[i].status.Live?
  {
  }

  // ----- the sweep -----

  /** Exactly the expired are quarantined; everybody else, servers included, stays as they were. */
  lemma SweepIsExact(f: Fleet, now: int, id: PeerId)
    requires Sound(f) && id in f.peers
    ensures var p, swept := f.peers[id], AfterSweep(f, now).peers[id];
            var up := p.kind.User? && p.state.Active? && exists i: nat ::
              TheLiveSession(f, id, i) && (f.sessions[i].expiresAt.value <= now || f.sessions[i].lastAuth + Lifetime(p, f) <= now);
            swept == if up then p.(state := Quarantined) else p
  {
    var p := f.peers[id];
    if p.kind.User? && p.state.Active? {
      var i :| 0 <= i < |f.sessions| && f.sessions[i].peer == id && f.sessions[i].status.Live?;
      assert TheLiveSession(f, id, i);
      DeadlineOfSession(f, id, i);
      forall j: nat | TheLiveSession(f, id, j)
        ensures j == i
      {
      }
    }
  }

  /** After a sweep nobody is active past the expiry stored at sign-in, whatever was done to the groups since. */
  lemma NobodyOutlivesTheirSession(f: Fleet, now: int, id: PeerId)
    requires Sound(f) && id in AfterSweep(f, now).peers
    requires var p := AfterSweep(f, now).peers[id]; p.kind.User? && p.state.Active?
    ensures exists i: nat ::
      && TheLiveSession(AfterSweep(f, now), id, i)
      && AfterSweep(f, now).sessions[i].expiresAt.Some?
      && AfterSweep(f, now).sessions[i].expiresAt.value > now
      && AfterSweep(f, now).sessions[i].lastAuth + Lifetime(f.peers[id], f) > now
  {
    var g := AfterSweep(f, now);
    assert !IsExpired(f, id, now) && f.peers[id].state.Active?;
    var i :| 0 <= i < |f.sessions| && f.sessions[i].peer == id && f.sessions[i].status.Live?;
    assert TheLiveSession(f, id, i);
    DeadlineOfSession(f, id, i);
    assert g.sessions[i] == f.sessions[i];
    assert TheLiveSession(g, id, i);
  }

  lemma {:induction false} LiveRowKept(a: seq<Session>, b: seq<Session>, id: PeerId, n: nat)
    requires n <= |a| == |b|
    requires forall i :: 0 <= i < |a| ==> b[i].peer == a[i].peer && (a[i].peer == id ==> b[i] == a[i])
    ensures LiveRow(b, id, n) == LiveRow(a, id, n)
  {
    if n > 0 {
      LiveRowKept(a, b, id, n - 1);
    }
  }

  lemma UnexpiredStays(f: Fleet, now: int, id: PeerId)
    requires id in f.peers && !IsExpired(f, id, now)
    ensures !IsExpired(AfterSweep(f, now), id, now)
  {
    var g := AfterSweep(f, now);
    LiveRowKept(f.sessions, g.sessions, id, |f.sessions|);
    assert LiveSession(g, id) == LiveSession(f, id);
    assert g.peers[id] == f.peers[id];
    assert Lifetime(g.peers[id], g) == Lifetime(f.peers[id], f);
  }

  /** A second sweep at the same moment finds nothing to do. */
  lemma SweepTwice(f: Fleet, now: int)
    ensures AfterSweep(AfterSweep(f, now), now) == AfterSweep(f, now)
  {
    var g := AfterSweep(f, now);
    forall id | id in g.peers
      ensures !IsExpired(g, id, now)
    {
      if !IsExpired(f, id, now) {
        UnexpiredStays(f, now, id);
      }
    }
    var h := AfterSweep(g, now);
    assert h.peers == g.peers;
    assert h.sessions == g.sessions;
  }

  /** A session that ends in a sweep ends as expired, together with its peer. */
  lemma SweptRowsAreExpired(f: Fleet, now: int, i: nat)
    requires Sound(f) && i < |f.sessions|
    ensures |AfterSweep(f, now).sessions| == |f.sessions|
    ensures var row, g := f.sessions[i], AfterSweep(f, now);
      g.sessions[i] == if row.status.Live? && f.peers[row.peer].state.Active? && g.peers[row.peer].state.Quarantined?
                       then Session(row.peer, Expired, row.lastAuth, row.expiresAt, Some(now)) else row
  {
    var id := f.sessions[i].peer;
    if f.sessions[i].status.Live? {
      assert TheLiveSession(f, id, i);
      DeadlineOfSession(f, id, i);
    }
  }

  // ----- from a sign-in, over any run, to a sweep -----

  /** Whatever session of the peer is live, it is stored to end at `t`. */
  ghost predicate StandsOn(f: Fleet, id: PeerId, t: int) {
    id in f.peers && forall i :: 0 <= i < |f.sessions| && f.sessions[i].peer == id && f.sessions[i].status.Live? ==> f.sessions[i].expiresAt == Some(t)
  }

  predicate SignsIn(e: Event, id: PeerId) { e.Login? && e.id == id }

  lemma StandsOnKept(f: Fleet, e: Event, id: PeerId, t: int)
    requires StandsOn(f, id, t) && !SignsIn(e, id) && !Deletes(e, id)
    ensures StandsOn(Next(f, e), id, t)
  {
    var g := Next(f, e);
    StepOfPeer(f, e, id);
    forall i | 0 <= i < |g.sessions| && g.sessions[i].peer == id && g.sessions[i].status.Live?
      ensures g.sessions[i].expiresAt == Some(t)
    {
      if e.Delete? {
        if e.id in f.peers && e.commits {
          WithoutPeerMember(f.sessions, e.id, g.sessions[i]);
        }
        var k :| 0 <= k < |f.sessions| && f.sessions[k] == g.sessions[i];
      } else if i < |f.sessions| {
        StoredExpiryIsFrozen(f, e, i);
      }
    }
  }

  lemma {:induction false} RunStandsOn(f: Fleet, events: seq<Event>, id: PeerId, t: int)
    requires StandsOn(f, id, t)
    requires forall i :: 0 <= i < |events| ==> !SignsIn(events[i], id) && !Deletes(events[i], id)
    ensures StandsOn(Run(f, events), id, t)
    decreases |events|
  {
    if events != [] {
      StandsOnKept(f, events[0], id, t);
      RunStandsOn(Next(f, events[0]), events[1..], id, t);
    }
  }

  lemma LoginStandsOn(f: Fleet, id: PeerId, now: int)
    requires Sound(f) && id in f.peers && f.peers[id].kind.User? && SelfServiceMay(f.peers[id].state, Active)
    ensures StandsOn(Next(f, Login(id, true, true, now)), id, now + Lifetime(f.peers[id], f))
  {
    var g := OpenSession(f, id, now);
    assert |g.sessions| == |f.sessions| + 1;
    assert forall i :: 0 <= i < |f.sessions| && g.sessions[i].peer == id ==> !g.sessions[i].status.Live?;
  }

  /**
   A person signs in; then anything happens to groups, lifetimes, keys and other peers; then a
   sweep. Without a new sign-in the peer is not active past the expiry computed at the first.
   */
  lemma NobodyOutlivesTheirSignIn(f: Fleet, id: PeerId, signedIn: int, after: Fleet, events: seq<Event>, now: int)
    requires Sound(f) && id in f.peers && f.peers[id].kind.User? && SelfServiceMay(f.peers[id].state, Active)
    requires after == Next(f, Login(id, true, true, signedIn))
    requires forall i :: 0 <= i < |events| ==> !SignsIn(events[i], id) && !Deletes(events[i], id)
    ensures id in AfterSweep(Run(after, events), now).peers
    ensures AfterSweep(Run(after, events), now).peers[id].state.Active? ==> now < signedIn + Lifetime(f.peers[id], f)
  {
    SignedIn(f, id, signedIn, after);
    FromThereOn(after, events, id, signedIn + Lifetime(f.peers[id], f), now);
  }

  lemma SignedIn(f: Fleet, id: PeerId, now: int, after: Fleet)
    requires Sound(f) && id in f.peers && f.peers[id].kind.User? && SelfServiceMay(f.peers[id].state, Active)
    requires after == Next(f, Login(id, true, true, now))
    ensures Sound(after) && StandsOn(after, id, now + Lifetime(f.peers[id], f)) && after.peers[id].kind.User?
  {
    LoginStandsOn(f, id, now);
    LoginSound(f, id, now);
    assert after == WithState(OpenSession(f, id, now), id, Active);
  }

  lemma FromThereOn(f: Fleet, events: seq<Event>, id: PeerId, t: int, now: int)
    requires Sound(f) && StandsOn(f, id, t) && f.peers[id].kind.User?
    requires forall i :: 0 <= i < |events| ==> !SignsIn(events[i], id) && !Deletes(events[i], id)
    ensures id in AfterSweep(Run(f, events), now).peers
    ensures AfterSweep(Run(f, events), now).peers[id].state.Active? ==> now < t
  {
    RunStandsOn(f, events, id, t);
    RunSound(f, events);
    KindKept(f, events, id);
    SweptInTime(Run(f, events), id, t, now);
  }

  lemma SweptInTime(f: Fleet, id: PeerId, t: int, now: int)
    requires Sound(f) && StandsOn(f, id, t) && f.peers[id].kind.User?
    ensures id in AfterSweep(f, now).peers && (AfterSweep(f, now).peers[id].state.Active? ==> now < t)
  {
    if AfterSweep(f, now).peers[id].state.Active? {
      StandsOnKept(f, Sweep(true, now), id, t);
      NobodyOutlivesTheirSession(f, now, id);
    }
  }

  lemma {:induction false} KindKept(f: Fleet, events: seq<Event>, id: PeerId)
    requires id in f.peers
    requires forall i :: 0 <= i < |events| ==> !Deletes(events[i], id)
    ensures id in Run(f, events).peers && Run(f, events).peers[id].kind == f.peers[id].kind
    decreases |events|
  {
    if events != [] {
      StepOfPeer(f, events[0], id);
      KindKept(Next(f, events[0]), events[1..], id);
    }
  }
}
