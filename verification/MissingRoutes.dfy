/**
 Routes somebody else removed. The agent adds what it has no record of; what it has recorded it
 takes to be there, so a recorded route that is gone stays gone until a poll stops wanting it.
 */
module MissingRoutes {
  import opened Wrappers
  import opened Net
  import opened Routes

  /** The network is routed into the tunnel. */
  predicate Tunnelled(k: Kernel, interface: string, n: Network) {
    n in k.table && k.table[n] == interface
  }

  /** Nobody routes it, it is not recorded, and `ip` does not fail on it. */
  predicate Installable(k: Kernel, n: Network, replies: Replies) {
    n !in k.table && n !in k.record && replies.add(n)
  }

  /** What a call does about a wanted network: it is not withdrawn, and it is added exactly when it can be. */
  lemma WantedOutcome(r: Outcome, interface: string, desired: seq<CidrText>, guarded: seq<AddressText>, replies: Replies,
                      before: Kernel, after: Kernel, n: Network)
    requires Reconciled(r, interface, desired, guarded, replies, before, after) && n in Wanted(desired, guarded)
    ensures n !in r.removed
    ensures n in r.added <==> Installable(before, n, replies)
  {
  }

  /** A network nobody withdraws is routed into the tunnel afterwards exactly when it was, or was added. */
  lemma TableAfter(table: Table, removed: set<Network>, added: set<Network>, interface: string, replies: Replies, n: Network)
    requires n !in removed && (n in added ==> n !in table)
    ensures var after := (table - Withdrawable(table, removed, interface, replies)) + Pointing(added, interface);
            n in after && after[n] == interface <==> (n in table && table[n] == interface) || n in added
  {
    if n !in added {
      assert n !in Pointing(added, interface);
    }
  }

  /** A wanted network is routed into the tunnel after a call exactly when it was, or could be installed. */
  lemma TunnelledExactly(r: Outcome, interface: string, desired: seq<CidrText>, guarded: seq<AddressText>, replies: Replies,
                         before: Kernel, after: Kernel, n: Network)
    requires Reconciled(r, interface, desired, guarded, replies, before, after) && n in Wanted(desired, guarded)
    ensures Tunnelled(after, interface, n) <==> Tunnelled(before, interface, n) || Installable(before, n, replies)
  {
    WantedOutcome(r, interface, desired, guarded, replies, before, after, n);
    TableAfter(before.table, r.removed, r.added, interface, replies, n);
  }

  /** With nothing in the way everything wanted is routed afterwards exactly when nothing recorded of it was missing. */
  lemma AllTunnelledExactly(r: Outcome, interface: string, desired: seq<CidrText>, guarded: seq<AddressText>, replies: Replies,
                            before: Kernel, after: Kernel)
    requires Reconciled(r, interface, desired, guarded, replies, before, after)
    requires Unhindered(desired, guarded, replies, before)
    ensures (forall n :: n in Wanted(desired, guarded) ==> Tunnelled(after, interface, n))
       <==> (forall n :: n in Wanted(desired, guarded) && n in before.record ==> Tunnelled(before, interface, n))
  {
    forall n | n in Wanted(desired, guarded)
      ensures Tunnelled(after, interface, n) <==> Tunnelled(before, interface, n) || Installable(before, n, replies)
    {
      TunnelledExactly(r, interface, desired, guarded, replies, before, after, n);
    }
  }

  // ----- over a trace -----

  /** Recorded, and gone from the table. */
  predicate Missing(k: Kernel, n: Network) {
    n in k.record && n !in k.table
  }

  /** A poll that knows the local addresses and does not want the network drops it from the record. */
  predicate LetsGo(guarded: seq<AddressText>, e: Event, n: Network) {
    e.Poll? && e.replies.local.Some? && n !in Wanted(e.desired, guarded + e.replies.local.value)
  }

  predicate PutsBack(e: Event, n: Network) {
    e.Elsewhere? && n in e.table
  }

  predicate Disturbs(guarded: seq<AddressText>, e: Event, n: Network) {
    LetsGo(guarded, e, n) || PutsBack(e, n)
  }

  /** A call leaves a missing route missing exactly when it wants it; otherwise it strikes it off the record. */
  lemma MissingCall(r: Outcome, interface: string, desired: seq<CidrText>, guarded: seq<AddressText>, replies: Replies,
                    before: Kernel, after: Kernel, n: Network)
    requires Reconciled(r, interface, desired, guarded, replies, before, after) && Missing(before, n)
    ensures n !in after.table
    ensures n in after.record <==> n in Wanted(desired, guarded)
  {
    assert n !in r.added;
  }

  /** A missing route stops being missing exactly when a poll no longer wants it, or somebody else puts it back. */
  lemma MissingStep(interface: string, guarded: seq<AddressText>, e: Event, before: Kernel, after: Kernel, outcome: Option<Outcome>, n: Network)
    requires Step(interface, guarded, e, before, after, outcome) && Missing(before, n)
    ensures Missing(after, n) <==> !Disturbs(guarded, e, n)
  {
    if e.Poll? && e.replies.local.Some? {
      MissingCall(outcome.value, interface, e.desired, guarded + e.replies.local.value, e.replies, before, after, n);
    }
  }

  ghost predicate MissingFor(states: seq<Kernel>, n: Network, k: nat)
    requires k < |states|
  {
    forall i :: 0 <= i <= k ==> Missing(states[i], n)
  }

  ghost predicate Undisturbed(guarded: seq<AddressText>, events: seq<Event>, n: Network, k: nat)
    requires k <= |events|
  {
    forall i :: 0 <= i < k ==> !Disturbs(guarded, events[i], n)
  }

  lemma OneMore(states: seq<Kernel>, guarded: seq<AddressText>, events: seq<Event>, n: Network, k: nat)
    requires 0 < k < |states| && k <= |events|
    ensures MissingFor(states, n, k) <==> MissingFor(states, n, k - 1) && Missing(states[k], n)
    ensures Undisturbed(guarded, events, n, k) <==> Undisturbed(guarded, events, n, k - 1) && !Disturbs(guarded, events[k - 1], n)
  {
  }

  /** So it is missing throughout a life exactly when neither ever happens. */
  lemma {:induction false} MissingThroughout(interface: string, guarded: seq<AddressText>, events: seq<Event>,
                                             states: seq<Kernel>, outcomes: seq<Option<Outcome>>, n: Network, k: nat)
    requires Trace(interface, guarded, events, states, outcomes) && Missing(states[0], n) && k <= |events|
    ensures MissingFor(states, n, k) <==> Undisturbed(guarded, events, n, k)
  {
    if k > 0 {
      MissingThroughout(interface, guarded, events, states, outcomes, n, k - 1);
      OneMore(states, guarded, events, n, k);
      if MissingFor(states, n, k - 1) {
        assert Missing(states[k - 1], n);
        StepOf(interface, guarded, events, states, outcomes, k - 1);
        MissingStep(interface, guarded, events[k - 1], states[k - 1], states[k], outcomes[k - 1], n);
      }
    }
  }

  lemma StepOf(interface: string, guarded: seq<AddressText>, events: seq<Event>, states: seq<Kernel>, outcomes: seq<Option<Outcome>>, i: nat)
    requires Trace(interface, guarded, events, states, outcomes) && i < |events|
    ensures Step(interface, guarded, events[i], states[i], states[i + 1], outcomes[i])
  {
  }

  // ----- gone, and back -----

  lemma WantedAlone(c: CidrText, guarded: seq<AddressText>)
    requires Acceptable(c, guarded)
    ensures Wanted([c], guarded) == [ParseCidr(c).value] && Wanted([], guarded) == []
  {
    assert [c][1..] == [];
  }

  /** A recorded route somebody else removed: still gone after a poll that wants it, back after one that does not and one that does. */
  method GoneAndBack(router: Router, c: CidrText, replies: Replies) returns (between: Kernel)
    requires router.Valid() && replies.local.Some? && Acceptable(c, router.Guarded(replies))
    requires Missing(Kernel(router.table, router.record), ParseCidr(c).value) && replies.add(ParseCidr(c).value)
    modifies router
    ensures router.Valid()
    ensures Missing(between, ParseCidr(c).value)
    ensures Tunnelled(Kernel(router.table, router.record), router.interface, ParseCidr(c).value)
  {
    var n, guarded, interface := ParseCidr(c).value, router.Guarded(replies), router.interface;
    WantedAlone(c, guarded);
    var first := PollOnce(router, [c], replies, n);
    between := Kernel(router.table, router.record);
    var second := PollOnce(router, [], replies, n);
    ghost var was := Kernel(router.table, router.record);
    var third := router.Apply([c], replies);
    TunnelledExactly(third.value, interface, [c], guarded, replies, was, Kernel(router.table, router.record), n);
  }

  /** A poll over a missing route. */
  method PollOnce(router: Router, desired: seq<CidrText>, replies: Replies, n: Network) returns (r: Result<Outcome, Refused>)
    requires router.Valid() && replies.local.Some? && Missing(Kernel(router.table, router.record), n)
    modifies router
    ensures router.Valid() && n !in router.table
    ensures n in router.record <==> n in Wanted(desired, router.Guarded(replies))
  {
    ghost var was := Kernel(router.table, router.record);
    r := router.Apply(desired, replies);
    MissingCall(r.value, router.interface, desired, router.Guarded(replies), replies, was, Kernel(router.table, router.record), n);
  }
}
