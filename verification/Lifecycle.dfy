/**
 Peers and their portal sessions: every step that changes a peer's state, as a function from
 one state of the database to the next.

 A request either commits or is rolled back as a whole; `commits` says which, where it
 depends on more than is modelled here (the ruleset that must still render, a unique label).
 */
module Lifecycle {
  import opened Wrappers
  import opened NftModel

  type PeerId = string

  datatype PeerKind = User | Server

  datatype Peer = Peer(
    kind: PeerKind,
    state: PeerState,
    groups: seq<string>,
    lastAuth: Option<int>,
    enrolledAt: Option<int>,
    hasKey: bool)

  datatype SessionStatus = Live | Expired | Ended

  datatype Session = Session(peer: PeerId, status: SessionStatus, lastAuth: int, expiresAt: Option<int>, endedAt: Option<int>)

  /** `lifetimes` holds the groups' own session lifetimes in seconds; 0 is "none of its own". */
  datatype Fleet = Fleet(peers: map<PeerId, Peer>, sessions: seq<Session>, lifetimes: map<string, int>, defaultLifetime: int)

  // ----- transition tables -----

  function AdminTargets(s: PeerState): set<PeerState> {
    match s
    case Staging => {Active, Quarantined, Disabled, Revoked}
    case Quarantined => {Active, Staging, Disabled, Revoked}
    case Active => {Quarantined, Staging, Disabled, Revoked}
    case Disabled => {Staging, Quarantined, Active, Revoked}
    case Revoked => {}
  }

  function SelfServiceTargets(s: PeerState): set<PeerState> {
    match s
    case Staging => {Active}
    case Quarantined => {Active}
    case Active => {Active}
    case Disabled => {}
    case Revoked => {}
  }

  predicate AdminMay(current: PeerState, target: PeerState) {
    current == target || target in AdminTargets(current)
  }

  predicate SelfServiceMay(current: PeerState, target: PeerState) {
    current == target || target in SelfServiceTargets(current)
  }

  /** An administrator may move a peer anywhere unless it is revoked; that is final. */
  lemma AdminTable(current: PeerState, target: PeerState)
    ensures AdminMay(current, target) <==> current == target || !current.Revoked?
  {
  }

  /** A peer may only make itself active, and only from where the portal lets it. */
  lemma SelfServiceTable(current: PeerState, target: PeerState)
    ensures SelfServiceMay(current, target) <==> current == target || (target.Active? && (current.Staging? || current.Quarantined?))
  {
  }

  // ----- session lifetimes -----

  function Overrides(groups: seq<string>, lifetimes: map<string, int>): seq<int> {
    if groups == [] then []
    else
      (if groups[0] in lifetimes && lifetimes[groups[0]] != 0 then [lifetimes[groups[0]]] else [])
      + Overrides(groups[1..], lifetimes)
  }

  function Least(s: seq<int>): (m: int)
    requires s != []
    ensures m in s && forall x :: x in s ==> m <= x
  {
    if |s| == 1 then s[0]
    else
      var rest := Least(s[1..]);
      assert s == [s[0]] + s[1..];
      if s[0] <= rest then s[0] else rest
  }

  function Lifetime(p: Peer, f: Fleet): int {
    var overrides := Overrides(p.groups, f.lifetimes);
    if overrides != [] then Least(overrides) else f.defaultLifetime
  }

  function Deadline(p: Peer, row: Option<Session>, f: Fleet): Option<int> {
    if p.lastAuth.None? then None
    else
      var recomputed := p.lastAuth.value + Lifetime(p, f);
      if row.Some? && row.value.expiresAt.Some? && row.value.expiresAt.value < recomputed
      then row.value.expiresAt else Some(recomputed)
  }

  /** Among the first `n` rows, the live one of the peer with the latest authentication. */
  function LiveRow(rows: seq<Session>, id: PeerId, n: nat): (r: Option<nat>)
    requires n <= |rows|
    ensures r.Some? ==> r.value < n && rows[r.value].peer == id && rows[r.value].status.Live?
  {
    if n == 0 then None
    else
      var before := LiveRow(rows, id, n - 1);
      if rows[n - 1].peer == id && rows[n - 1].status.Live?
         && (before.None? || rows[n - 1].lastAuth > rows[before.value].lastAuth)
      then Some(n - 1) else before
  }

  function LiveSession(f: Fleet, id: PeerId): Option<Session> {
    var i := LiveRow(f.sessions, id, |f.sessions|);
    if i.Some? then Some(f.sessions[i.value]) else None
  }

  /** An active user peer whose time is up, or that nobody ever authenticated. */
  predicate IsExpired(f: Fleet, id: PeerId, now: int)
    requires id in f.peers
  {
    var p := f.peers[id];
    p.kind.User? && p.state.Active?
    && var d := Deadline(p, LiveSession(f, id), f); d.None? || d.value <= now
  }

  // ----- steps -----

  datatype Mode = QuarantineMode | LockdownMode {
    function Target(): PeerState { if QuarantineMode? then Quarantined else Disabled }
    predicate Hits(s: PeerState) { if QuarantineMode? then s.Active? else s.Active? || s.Staging? || s.Quarantined? }
  }

  /** Every state a mode acts on may move to its target. */
  lemma NeverRefused(mode: Mode, s: PeerState)
    requires mode.Hits(s)
    ensures AdminMay(s, mode.Target()) && s != mode.Target()
  {
  }

  /** `patched` fields are absent when the request leaves them alone. */
  datatype Event =
    | Create(id: PeerId, kind: PeerKind, groups: seq<string>, commits: bool)
    | Enroll(id: PeerId, keyMatches: bool, commits: bool, now: int)
    | Login(id: PeerId, credentialsOk: bool, commits: bool, now: int)
    | Logout(id: PeerId, commits: bool, now: int)
    | Patch(id: PeerId, target: Option<PeerState>, patchedGroups: Option<seq<string>>, commits: bool, now: int)
    | IssueKey(id: PeerId)
    | RevokeKey(id: PeerId, quarantine: bool, commits: bool)
    | Kill(mode: Mode, commits: bool, now: int)
    | Sweep(commits: bool, now: int)
    | EditGroup(slug: string, seconds: int)
    | Delete(id: PeerId, commits: bool)

  function End(row: Session, now: int): Session {
    row.(status := Ended, endedAt := Some(now))
  }

  function EndSessionsOf(rows: seq<Session>, id: PeerId, now: int): (r: seq<Session>)
    ensures |r| == |rows|
    ensures forall i :: 0 <= i < |r| ==>
      r[i] == if rows[i].peer == id && rows[i].status.Live? then Session(id, Ended, rows[i].lastAuth, rows[i].expiresAt, Some(now)) else rows[i]
  {
    seq(|rows|, i requires 0 <= i < |rows| => if rows[i].peer == id && rows[i].status.Live? then End(rows[i], now) else rows[i])
  }

  function EndAllSessions(rows: seq<Session>, now: int): (r: seq<Session>)
    ensures |r| == |rows|
    ensures forall i :: 0 <= i < |r| ==>
      r[i] == if rows[i].status.Live? then Session(rows[i].peer, Ended, rows[i].lastAuth, rows[i].expiresAt, Some(now)) else rows[i]
  {
    seq(|rows|, i requires 0 <= i < |rows| => if rows[i].status.Live? then End(rows[i], now) else rows[i])
  }

  /** `open_session`: the previous session ends, and the peer remembers when. */
  function OpenSession(f: Fleet, id: PeerId, now: int): Fleet
    requires id in f.peers
  {
    var row := Session(id, Live, now, Some(now + Lifetime(f.peers[id], f)), None);
    f.(sessions := EndSessionsOf(f.sessions, id, now) + [row],
       peers := f.peers[id := f.peers[id].(lastAuth := Some(now))])
  }

  function WithState(f: Fleet, id: PeerId, s: PeerState): Fleet
    requires id in f.peers
  {
    f.(peers := f.peers[id := f.peers[id].(state := s)])
  }

  predicate PatchAllowed(p: Peer, target: Option<PeerState>) {
    target.Some? ==>
      AdminMay(p.state, target.value) && !(target.value.Active? && !p.state.Active? && p.kind.User?)
  }

  function Patched(p: Peer, target: Option<PeerState>, groups: Option<seq<string>>): Peer {
    p.(state := if target.Some? then target.value else p.state,
       groups := if groups.Some? then groups.value else p.groups)
  }

  function AfterPatch(f: Fleet, e: Event): Fleet
    requires e.Patch?
  {
    if e.id !in f.peers || !e.commits || !PatchAllowed(f.peers[e.id], e.target) then f
    else
      var p := Patched(f.peers[e.id], e.target, e.patchedGroups);
      f.(peers := f.peers[e.id := p],
         sessions := if f.peers[e.id].state.Active? && !p.state.Active? then EndSessionsOf(f.sessions, e.id, e.now) else f.sessions)
  }

  function AfterKill(f: Fleet, mode: Mode, now: int): Fleet {
    f.(peers := map id | id in f.peers ::
         if mode.Hits(f.peers[id].state) then f.peers[id].(state := mode.Target()) else f.peers[id],
       sessions := EndAllSessions(f.sessions, now))
  }

  /** The row ends with its peer: it is the one the peer's deadline was read from. */
  predicate RowExpires(f: Fleet, i: nat, now: int)
    requires i < |f.sessions|
  {
    var id := f.sessions[i].peer;
    id in f.peers && IsExpired(f, id, now) && LiveRow(f.sessions, id, |f.sessions|) == Some(i)
  }

  function ExpiredRow(row: Session, now: int): Session {
    row.(status := Expired, endedAt := Some(now))
  }

  function AfterSweep(f: Fleet, now: int): Fleet {
    f.(peers := map id | id in f.peers :: if IsExpired(f, id, now) then f.peers[id].(state := Quarantined) else f.peers[id],
       sessions := seq(|f.sessions|, i requires 0 <= i < |f.sessions| =>
         if RowExpires(f, i, now) then ExpiredRow(f.sessions[i], now) else f.sessions[i]))
  }

  function WithoutPeer(rows: seq<Session>, id: PeerId): seq<Session> {
    if rows == [] then [] else (if rows[0].peer == id then [] else [rows[0]]) + WithoutPeer(rows[1..], id)
  }

  function Next(f: Fleet, e: Event): Fleet {
    match e
    case Create(id, kind, groups, commits) =>
      if id in f.peers || !commits then f
      else f.(peers := f.peers[id := Peer(kind, Staging, groups, None, None, false)])
    case Enroll(id, keyMatches, commits, now) =>
      if id in f.peers && f.peers[id].kind.Server? && f.peers[id].hasKey && keyMatches
         && SelfServiceMay(f.peers[id].state, Active) && commits
      then f.(peers := f.peers[id := f.peers[id].(state := Active, enrolledAt := Some(now))])
      else f
    case Login(id, credentialsOk, commits, now) =>
      if id in f.peers && f.peers[id].kind.User? && credentialsOk && SelfServiceMay(f.peers[id].state, Active) && commits
      then WithState(OpenSession(f, id, now), id, Active)
      else f
    case Logout(id, commits, now) =>
      if id !in f.peers || f.peers[id].kind.Server? || !commits then f
      else
        var g := f.(sessions := EndSessionsOf(f.sessions, id, now));
        if f.peers[id].state.Active? then WithState(g, id, Quarantined) else g
    case Patch(_, _, _, _, _) => AfterPatch(f, e)
    case IssueKey(id) =>
      if id in f.peers && f.peers[id].kind.Server? then f.(peers := f.peers[id := f.peers[id].(hasKey := true)]) else f
    case RevokeKey(id, quarantine, commits) =>
      if id !in f.peers || !commits then f
      else
        var p := f.peers[id].(hasKey := false);
        f.(peers := f.peers[id := if quarantine && !p.state.Revoked? then p.(state := Quarantined) else p])
    case Kill(mode, commits, now) => if commits then AfterKill(f, mode, now) else f
    case Sweep(commits, now) => if commits then AfterSweep(f, now) else f
    case EditGroup(slug, seconds) => f.(lifetimes := f.lifetimes[slug := seconds])
    case Delete(id, commits) =>
      if id !in f.peers || !commits then f
      else f.(peers := f.peers - {id}, sessions := WithoutPeer(f.sessions, id))
  }

  function Run(f: Fleet, events: seq<Event>): Fleet
    decreases |events|
  {
    if events == [] then f else Run(Next(f, events[0]), events[1..])
  }
}
