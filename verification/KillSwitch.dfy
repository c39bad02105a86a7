/**
 The kill switch: nobody's access grows, nobody stays active, and what the gateway makes of it.
 */
module KillSwitch {
  import opened Net
  import opened NftModel
  import opened NftProgram
  import opened NftGenerator
  import opened NftValidation
  import opened NftPolicy
  import opened NftForward
  import opened NftNarrowing
  import opened Lifecycle
  import opened LifecycleSafety

  /** How much of the network a state gives: nothing, the portal, the rules. */
  function Access(s: PeerState): nat {
    match s
    case Active => 2
    case Staging => 1
    case Quarantined => 1
    case Disabled => 0
    case Revoked => 0
  }

  /** No peer gains access, revoked stays revoked, and nobody is left above the target. */
  lemma KillNarrows(f: Fleet, mode: Mode, now: int, id: PeerId)
    requires id in f.peers
    ensures id in AfterKill(f, mode, now).peers
    ensures var was, after := f.peers[id].state, AfterKill(f, mode, now).peers[id].state;
      && Access(after) <= Access(was)
      && Access(after) <= Access(mode.Target())
      && (was.Revoked? ==> after.Revoked?)
      && (was.Disabled? ==> after.Disabled?)
  {
  }

  lemma KillEndsEverySession(f: Fleet, mode: Mode, now: int, i: nat)
    requires i < |f.sessions|
    ensures |AfterKill(f, mode, now).sessions| == |f.sessions|
    ensures !AfterKill(f, mode, now).sessions[i].status.Live?
  {
  }

  /** The states whose peers the agent keeps on the WireGuard interface. */
  predicate OnInterface(s: PeerState) { s.Staging? || s.Quarantined? || s.Active? }

  /** There, without access, off the interface, and without a live session. */
  ghost predicate Dark(f: Fleet, id: PeerId) {
    && id in f.peers && Access(f.peers[id].state) == 0 && !OnInterface(f.peers[id].state)
    && !HasLive(f.sessions, id)
  }

  lemma DeletionAddsNoSession(rows: seq<Session>, gone: PeerId, id: PeerId)
    requires !HasLive(rows, id)
    ensures !HasLive(WithoutPeer(rows, gone), id)
  {
    if HasLive(WithoutPeer(rows, gone), id) {
      var i :| 0 <= i < |WithoutPeer(rows, gone)| && WithoutPeer(rows, gone)[i].peer == id && WithoutPeer(rows, gone)[i].status.Live?;
      WithoutPeerMember(rows, gone, WithoutPeer(rows, gone)[i]);
      assert false;
    }
  }

  /** A step that is no administrator's leaves a dark peer dark. */
  lemma DarkStep(f: Fleet, e: Event, id: PeerId)
    requires Dark(f, id) && !AdminStep(e, id)
    ensures Dark(Next(f, e), id)
  {
    StepOfPeer(f, e, id);
    if e.Delete? {
      DeletionAddsNoSession(f.sessions, e.id, id);
    }
  }

  lemma {:induction false} DarkRun(f: Fleet, events: seq<Event>, id: PeerId)
    requires Dark(f, id)
    requires forall i :: 0 <= i < |events| ==> !AdminStep(events[i], id)
    ensures Dark(Run(f, events), id)
    decreases |events|
  {
    if events != [] {
      assert !AdminStep(events[0], id);
      DarkStep(f, events[0], id);
      DarkRun(Next(f, events[0]), events[1..], id);
    }
  }

  /**
   After a lockdown no credential brings a peer back: over any run without an administrator's step
   on it, it has no access, no place on the interface and no session.
   */
  lemma LockdownHolds(f: Fleet, now: int, events: seq<Event>, id: PeerId)
    requires id in f.peers
    requires forall i :: 0 <= i < |events| ==> !AdminStep(events[i], id)
    ensures Dark(Run(AfterKill(f, LockdownMode, now), events), id)
  {
    var g := AfterKill(f, LockdownMode, now);
    KillNarrows(f, LockdownMode, now, id);
    forall i | 0 <= i < |g.sessions|
      ensures !g.sessions[i].status.Live?
    {
      KillEndsEverySession(f, LockdownMode, now, i);
    }
    DarkRun(g, events, id);
  }

  /** A step that is no administrator's and makes the peer active. */
  ghost predicate BringsBack(f: Fleet, e: Event, id: PeerId) {
    !AdminStep(e, id) && id in Next(f, e).peers && Next(f, e).peers[id].state.Active?
  }

  /** Quarantine mode buys less: one step brings back everybody but the disabled, the revoked and the servers without a key. */
  lemma QuarantineBuysLittle(f: Fleet, now: int, id: PeerId)
    requires id in f.peers
    ensures (exists e :: BringsBack(AfterKill(f, QuarantineMode, now), e, id))
       <==> Access(f.peers[id].state) > 0 && (f.peers[id].kind.Server? ==> f.peers[id].hasKey)
  {
    var g := AfterKill(f, QuarantineMode, now);
    KillNarrows(f, QuarantineMode, now, id);
    forall e | BringsBack(g, e, id)
      ensures Access(g.peers[id].state) > 0 && (g.peers[id].kind.Server? ==> g.peers[id].hasKey)
    {
      StepOfPeer(g, e, id);
    }
    if Access(f.peers[id].state) > 0 && (f.peers[id].kind.Server? ==> f.peers[id].hasKey) {
      assert BringsBack(g, if f.peers[id].kind.Server? then Enroll(id, true, true, now) else Login(id, true, true, now), id);
    }
  }

  // ----- the firewall after it -----

  /** The specification's peers carry the states of the database. */
  ghost predicate Mirrors(spec: RulesetSpec, f: Fleet) {
    forall p :: p in spec.peers ==> p.id in f.peers && f.peers[p.id].state == p.state
  }

  ghost function ActiveIds(spec: RulesetSpec): set<string> {
    set p | p in spec.peers && p.state.Active? :: p.id
  }

  /** Quarantine mode on the database is quarantining every active peer of the specification. */
  lemma QuarantineMirrors(spec: RulesetSpec, f: Fleet, now: int)
    requires Mirrors(spec, f)
    ensures Mirrors(Quarantine(spec, ActiveIds(spec)), AfterKill(f, QuarantineMode, now))
  {
    var after := Quarantine(spec, ActiveIds(spec));
    forall q | q in after.peers
      ensures q.id in f.peers && AfterKill(f, QuarantineMode, now).peers[q.id].state == q.state
    {
      QuarantineMembers(spec, ActiveIds(spec), q);
      var p :| p in spec.peers && q == Confine(p, ActiveIds(spec));
    }
  }

  ghost predicate PeerAddress(spec: RulesetSpec, a: Address) {
    exists p :: p in spec.peers && p.Holds(a) && (p.state.Active? || p.state.IsConfined())
  }

  /** So with it no tunnel packet from or to a peer is forwarded any more, open connections included. */
  lemma QuarantineSilences(spec: RulesetSpec, f: Fleet, now: int, p: Packet)
    requires Mirrors(spec, f)
    requires Valid(spec) && p.WellFormed() && UsesTunnel(spec.gateway, p)
    requires PeerAddress(spec, p.src) || PeerAddress(spec, p.dst)
    ensures var after := Quarantine(spec, ActiveIds(spec));
            && Mirrors(after, AfterKill(f, QuarantineMode, now))
            && Eval(Generate(after).sets, Generate(after).forward, p) == Drop
  {
    QuarantineMirrors(spec, f, now);
    ForwardNarrows(spec, ActiveIds(spec), p);
    ForwardChainCorrect(spec, p);
    PeerIsTouchedOrConfined(spec, p.src);
    PeerIsTouchedOrConfined(spec, p.dst);
    ConfinedIsDropped(spec, p);
  }

  lemma PeerIsTouchedOrConfined(spec: RulesetSpec, a: Address)
    ensures PeerAddress(spec, a) ==> Touched(spec, ActiveIds(spec), a) || Confined(spec, a)
  {
    if q :| q in spec.peers && q.Holds(a) && (q.state.Active? || q.state.IsConfined()) {
      if q.state.Active? {
        assert q.id in ActiveIds(spec);
      }
    }
  }

  lemma ConfinedIsDropped(spec: RulesetSpec, p: Packet)
    requires UsesTunnel(spec.gateway, p)
    ensures Confined(spec, p.src) || Confined(spec, p.dst) ==> ForwardPolicy(spec, p) == Drop
  {
  }
}
