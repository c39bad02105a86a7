/**
 Kernel routes into the tunnel, reconciled by an agent that owns only what it has recorded.
 */
module Routes {
  import opened Wrappers
  import opened Net

  /** Network to device, as `ip route show exact` sees it. */
  type Table = map<Network, string>

  /** The answers of `ip` during one call; `local` is missing when the addresses cannot be read. */
  datatype Replies = Replies(
    local: Option<seq<AddressText>>,
    show: Network -> bool,
    add: Network -> bool,
    del: Network -> bool)

  datatype Outcome = Outcome(added: set<Network>, removed: set<Network>, problems: nat)

  datatype Refused = Refused

  /** `_refusal` finds nothing: a network, no default route, and none of our addresses inside. */
  predicate Acceptable(c: CidrText, guarded: seq<AddressText>) {
    && ParseCidr(c).Some?
    && !IsDefault(ParseCidr(c).value)
    && forall a :: a in guarded && a.AddressText? ==> !Contains(ParseCidr(c).value, a.address)
  }

  /** The networks to be routed, in the order they are asked for. */
  function Wanted(desired: seq<CidrText>, guarded: seq<AddressText>): seq<Network> {
    if desired == [] then []
    else
      (if Acceptable(desired[0], guarded) then [ParseCidr(desired[0]).value] else []) + Wanted(desired[1..], guarded)
  }

  /** Safe to route: never default, and over none of our addresses. */
  ghost predicate Safe(n: Network, guarded: seq<AddressText>) {
    n.prefix != [] && forall a: Address :: AddressText(a) in guarded ==> !(n.family == a.family && n.prefix <= a.bits)
  }

  lemma AcceptableMeans(c: CidrText, guarded: seq<AddressText>)
    ensures Acceptable(c, guarded) <==> ParseCidr(c).Some? && Safe(ParseCidr(c).value, guarded)
  {
    if ParseCidr(c).Some? && Safe(ParseCidr(c).value, guarded) {
      forall a | a in guarded && a.AddressText?
        ensures !Contains(ParseCidr(c).value, a.address)
      {
        assert AddressText(a.address) in guarded;
      }
    }
  }

  /** Exactly the networks of the request that parse and are safe. */
  lemma {:induction false} WantedMeans(desired: seq<CidrText>, guarded: seq<AddressText>, n: Network)
    ensures n in Wanted(desired, guarded) <==> Safe(n, guarded) && exists c :: c in desired && ParseCidr(c) == Some(n)
  {
    if desired != [] {
      WantedMeans(desired[1..], guarded, n);
      AcceptableMeans(desired[0], guarded);
      assert desired == [desired[0]] + desired[1..];
    }
  }

  function RefusedCount(desired: seq<CidrText>, guarded: seq<AddressText>): nat {
    if desired == [] then 0
    else (if Acceptable(desired[0], guarded) then 0 else 1) + RefusedCount(desired[1..], guarded)
  }

  function ToAdd(wanted: seq<Network>, known: set<Network>): (r: seq<Network>)
    ensures forall n :: n in r <==> n in wanted && n !in known
    ensures |r| <= |wanted|
  {
    if wanted == [] then []
    else
      assert wanted == [wanted[0]] + wanted[1..];
      (if wanted[0] in known then [] else [wanted[0]]) + ToAdd(wanted[1..], known)
  }

  ghost predicate Distinct(s: seq<Network>) {
    forall i, j :: 0 <= i < j < |s| ==> s[i] != s[j]
  }

  lemma {:induction false} ToAddDistinct(wanted: seq<Network>, known: set<Network>)
    requires Distinct(wanted)
    ensures Distinct(ToAdd(wanted, known))
  {
    if wanted != [] {
      assert wanted == [wanted[0]] + wanted[1..];
      assert Distinct(wanted[1..]);
      assert wanted[0] !in wanted[1..];
      ToAddDistinct(wanted[1..], known);
    }
  }

  lemma NothingToAdd(wanted: seq<Network>, known: set<Network>)
    requires forall n :: n in wanted ==> n in known
    ensures ToAdd(wanted, known) == []
  {
    if ToAdd(wanted, known) != [] {
      assert ToAdd(wanted, known)[0] in ToAdd(wanted, known);
      assert false;
    }
  }

  lemma WantedIsSafe(desired: seq<CidrText>, guarded: seq<AddressText>, n: Network)
    requires n in Wanted(desired, guarded)
    ensures Safe(n, guarded)
  {
    WantedMeans(desired, guarded, n);
  }

  /** What a plan adds is safe and stays distinct; where everything wanted is known, and no more, it does nothing. */
  lemma PlanIsSafe(desired: seq<CidrText>, guarded: seq<AddressText>, known: set<Network>)
    ensures var wanted := Wanted(desired, guarded);
      && (forall n :: n in ToAdd(wanted, known) ==> Safe(n, guarded))
      && (Distinct(wanted) ==> Distinct(ToAdd(wanted, known)))
      && ((forall n :: n in known <==> n in wanted) ==> ToAdd(wanted, known) == [] && (set n | n in known && n !in wanted) == {})
  {
    var wanted := Wanted(desired, guarded);
    forall n | n in ToAdd(wanted, known)
      ensures Safe(n, guarded)
    {
      WantedIsSafe(desired, guarded, n);
    }
    if Distinct(wanted) {
      ToAddDistinct(wanted, known);
    }
    if forall n :: n in known <==> n in wanted {
      NothingToAdd(wanted, known);
    }
  }

  /** The loop of `plan`: what is acceptable is wanted, the rest is refused. */
  method Sift(desired: seq<CidrText>, guarded: seq<AddressText>) returns (wanted: seq<Network>, refused: nat)
    ensures wanted == Wanted(desired, guarded) && refused == RefusedCount(desired, guarded)
  {
    wanted, refused := [], 0;
    for i := 0 to |desired|
      invariant wanted + Wanted(desired[i..], guarded) == Wanted(desired, guarded)
      invariant refused + RefusedCount(desired[i..], guarded) == RefusedCount(desired, guarded)
    {
      SiftStep(desired, i, guarded, wanted);
      if Acceptable(desired[i], guarded) {
        wanted := wanted + [ParseCidr(desired[i]).value];
      } else {
        refused := refused + 1;
      }
    }
    assert desired[|desired|..] == [] && Wanted([], guarded) == [];
  }

  lemma SiftStep(desired: seq<CidrText>, i: nat, guarded: seq<AddressText>, wanted: seq<Network>)
    requires i < |desired|
    ensures wanted + Wanted(desired[i..], guarded)
         == if Acceptable(desired[i], guarded) then (wanted + [ParseCidr(desired[i]).value]) + Wanted(desired[i + 1..], guarded)
            else wanted + Wanted(desired[i + 1..], guarded)
    ensures RefusedCount(desired[i..], guarded)
         == (if Acceptable(desired[i], guarded) then 0 else 1) + RefusedCount(desired[i + 1..], guarded)
  {
    var rest := Wanted(desired[i + 1..], guarded);
    assert desired[i..][0] == desired[i] && desired[i..][1..] == desired[i + 1..];
    if Acceptable(desired[i], guarded) {
      assert wanted + ([ParseCidr(desired[i]).value] + rest) == (wanted + [ParseCidr(desired[i]).value]) + rest;
    } else {
      assert [] + rest == rest;
    }
  }

  // ----- the table after a call -----

  /** The routes a withdrawal takes away: into the tunnel, and `ip` does not fail on them. */
  function Withdrawable(table: Table, networks: set<Network>, interface: string, replies: Replies): set<Network> {
    set n | n in networks && n in table && table[n] == interface && replies.del(n)
  }

  /** The networks that can be added: nobody routes them, and `ip` does not fail on them. */
  function Addable(table: Table, networks: seq<Network>, replies: Replies): set<Network> {
    set n | n in networks && n !in table && replies.add(n)
  }

  function Pointing(networks: set<Network>, interface: string): Table {
    map n | n in networks :: interface
  }

  lemma AddableStep(table: Table, networks: seq<Network>, i: nat, replies: Replies)
    requires i < |networks|
    ensures var n := networks[i];
            Addable(table, networks[..i + 1], replies)
            == Addable(table, networks[..i], replies) + (if n !in table && replies.add(n) then {n} else {})
  {
    assert networks[..i + 1] == networks[..i] + [networks[i]];
  }

  /** One more network: added and pointed into the tunnel, or nothing. */
  lemma InstallStep(was: Table, toAdd: seq<Network>, i: nat, interface: string, replies: Replies)
    requires i < |toAdd|
    ensures var n, added, more := toAdd[i], Addable(was, toAdd[..i], replies), Addable(was, toAdd[..i + 1], replies);
            if n !in was + Pointing(added, interface) && replies.add(n)
            then n !in added && more == added + {n}
                 && was + Pointing(more, interface) == (was + Pointing(added, interface))[n := interface]
            else more == added
  {
    AddableStep(was, toAdd, i, replies);
  }

  lemma NothingMoves(table: Table, interface: string, replies: Replies)
    ensures (table - Withdrawable(table, {}, interface, replies)) + Pointing({}, interface) == table
  {
  }

  datatype Kernel = Kernel(table: Table, record: set<Network>)

  /** What a call makes of the table and the record, to the last route. */
  ghost predicate Reconciled(r: Outcome, interface: string, desired: seq<CidrText>, guarded: seq<AddressText>, replies: Replies,
                             before: Kernel, after: Kernel)
  {
    var wanted := Wanted(desired, guarded);
    && r.removed == (set n | n in before.record && n !in wanted)
    && r.added == Addable(before.table, ToAdd(wanted, before.record), replies)
    && r.problems + |r.added| == RefusedCount(desired, guarded) + |ToAdd(wanted, before.record)|
    && after.table == (before.table - Withdrawable(before.table, r.removed, interface, replies)) + Pointing(r.added, interface)
    && after.record == (before.record - r.removed) + r.added
  }

  /** A route that goes was recorded and pointed into the tunnel; any other stays as it was. */
  lemma OnlyOwnRoutesGo(r: Outcome, interface: string, desired: seq<CidrText>, guarded: seq<AddressText>, replies: Replies,
                        before: Kernel, after: Kernel, n: Network)
    requires Reconciled(r, interface, desired, guarded, replies, before, after) && n in before.table
    ensures n !in after.table ==> n in before.record && before.table[n] == interface && n !in Wanted(desired, guarded)
    ensures n in after.table ==> after.table[n] == before.table[n]
  {
  }

  /** A route that comes was asked for, is safe, replaces nothing, and is recorded. */
  lemma OnlySafeRoutesCome(r: Outcome, interface: string, desired: seq<CidrText>, guarded: seq<AddressText>, replies: Replies,
                           before: Kernel, after: Kernel)
    requires Reconciled(r, interface, desired, guarded, replies, before, after)
    ensures forall n :: n in after.table && n !in before.table <==> n in r.added
    ensures forall n :: n in r.added ==>
      n in Wanted(desired, guarded) && Safe(n, guarded) && after.table[n] == interface && n in after.record
  {
    PlanIsSafe(desired, guarded, before.record);
  }

  /** Everything wanted is recorded, and nothing else: nothing happens, whatever `ip` would answer. */
  lemma SettledIsStill(r: Outcome, interface: string, desired: seq<CidrText>, guarded: seq<AddressText>, replies: Replies,
                       before: Kernel, after: Kernel)
    requires Reconciled(r, interface, desired, guarded, replies, before, after)
    requires forall n :: n in before.record <==> n in Wanted(desired, guarded)
    ensures r == Outcome({}, {}, RefusedCount(desired, guarded)) && after == before
  {
    NothingToAdd(Wanted(desired, guarded), before.record);
    assert r.removed == {} && r.added == {};
    NothingMoves(before.table, interface, replies);
  }

  /** The unrecorded networks are free, and no `add` fails. */
  ghost predicate Unhindered(desired: seq<CidrText>, guarded: seq<AddressText>, replies: Replies, before: Kernel) {
    forall n :: n in Wanted(desired, guarded) && n !in before.record ==> n !in before.table && replies.add(n)
  }

  /** With nothing in the way the record is what was wanted. */
  lemma UnhinderedSettles(r: Outcome, interface: string, desired: seq<CidrText>, guarded: seq<AddressText>, replies: Replies,
                          before: Kernel, after: Kernel)
    requires Reconciled(r, interface, desired, guarded, replies, before, after)
    requires Unhindered(desired, guarded, replies, before)
    ensures forall n :: n in after.record <==> n in Wanted(desired, guarded)
  {
  }

  /** And then every problem is a refused entry exactly when no new network is asked for twice. */
  lemma UnhinderedProblems(r: Outcome, interface: string, desired: seq<CidrText>, guarded: seq<AddressText>, replies: Replies,
                           before: Kernel, after: Kernel)
    requires Reconciled(r, interface, desired, guarded, replies, before, after)
    requires Unhindered(desired, guarded, replies, before)
    ensures r.problems == RefusedCount(desired, guarded) <==> Distinct(ToAdd(Wanted(desired, guarded), before.record))
    ensures Distinct(Wanted(desired, guarded)) ==> r.problems == RefusedCount(desired, guarded)
  {
    var wanted := Wanted(desired, guarded);
    AllAdded(before.table, ToAdd(wanted, before.record), replies);
    if Distinct(wanted) {
      ToAddDistinct(wanted, before.record);
    }
  }

  /** What somebody else did to the table, or a poll of ours. */
  datatype Event = Elsewhere(table: Table) | Poll(desired: seq<CidrText>, replies: Replies)

  class Router {
    var table: Table
    /** The state file. */
    var record: set<Network>
    /** Every network this agent ever put into the table. */
    ghost var everAdded: set<Network>
    const interface: string
    const guardedAddresses: seq<AddressText>

    constructor (table: Table, interface: string, guardedAddresses: seq<AddressText>)
      ensures Valid() && record == {} && this.table == table
      ensures this.interface == interface && this.guardedAddresses == guardedAddresses
    {
      this.table, this.interface, this.guardedAddresses := table, interface, guardedAddresses;
      record, everAdded := {}, {};
    }

    /** The record names only routes this agent added. */
    ghost predicate Valid()
      reads this
    {
      record <= everAdded
    }

    function Guarded(replies: Replies): seq<AddressText>
      requires replies.local.Some?
    {
      guardedAddresses + replies.local.value
    }

    /** `plan`: nothing is touched; not knowing our own addresses refuses everything. */
    method Plan(desired: seq<CidrText>, replies: Replies)
      returns (r: Result<(seq<Network>, set<Network>, nat), Refused>)
      ensures r.Err? <==> replies.local.None?
      ensures r.Ok? ==>
        && r.value.0 == ToAdd(Wanted(desired, guardedAddresses + replies.local.value), record)
        && r.value.1 == (set n | n in record && n !in Wanted(desired, guardedAddresses + replies.local.value))
        && r.value.2 == RefusedCount(desired, guardedAddresses + replies.local.value)
    {
      if replies.local.None? {
        return Err(Refused);
      }
      var wanted, refused := Sift(desired, Guarded(replies));
      return Ok((ToAdd(wanted, record), (set n | n in record && n !in wanted), refused));
    }

    /** `ip route del <network> dev <interface>`. */
    method Delete(n: Network, reply: bool) returns (ok: bool)
      modifies this`table
      ensures ok <==> reply && n in old(table) && old(table)[n] == interface
      ensures table == if ok then old(table) - {n} else old(table)
    {
      ok := reply && n in table && table[n] == interface;
      if ok {
        table := table - {n};
      }
    }

    /** `ip route add`: the kernel refuses a network that is already routed. */
    method Add(n: Network, reply: bool) returns (ok: bool)
      modifies this`table
      ensures ok == (reply && n !in old(table))
      ensures table == if ok then old(table)[n := interface] else old(table)
    {
      ok := reply && n !in table;
      if ok {
        table := table[n := interface];
      }
    }

    /** A withdrawal that fails is not a problem: the route is no longer ours either way. */
    method Withdraw(toRemove: set<Network>, replies: Replies)
      modifies this`table
      ensures table == old(table) - Withdrawable(old(table), toRemove, interface, replies)
    {
      var todo := toRemove;
      while todo != {}
        invariant todo <= toRemove
        invariant table == old(table) - Withdrawable(old(table), toRemove - todo, interface, replies)
        decreases |todo|
      {
        var n :| n in todo;
        assert toRemove - (todo - {n}) == (toRemove - todo) + {n};
        todo := todo - {n};
        var ok := Delete(n, replies.del(n));
      }
      assert toRemove - todo == toRemove;
    }

    /** A network somebody else routes is left alone. */
    method InstallOne(n: Network, replies: Replies) returns (ok: bool)
      modifies this`table, this`everAdded
      ensures ok <==> n !in old(table) && replies.add(n)
      ensures table == if ok then old(table)[n := interface] else old(table)
      ensures everAdded == if ok then old(everAdded) + {n} else old(everAdded)
    {
      if replies.show(n) && n in table {
        return false;
      }
      ok := Add(n, replies.add(n));
      if ok {
        everAdded := everAdded + {n};
      }
    }

    /** What is not added is reported. */
    method Install(toAdd: seq<Network>, replies: Replies) returns (added: set<Network>, problems: nat)
      modifies this`table, this`everAdded
      ensures added == Addable(old(table), toAdd, replies)
      ensures table == old(table) + Pointing(added, interface)
      ensures everAdded == old(everAdded) + added
      ensures problems + |added| == |toAdd|
    {
      added, problems := {}, 0;
      ghost var was := table;
      for i := 0 to |toAdd|
        invariant added == Addable(was, toAdd[..i], replies)
        invariant table == was + Pointing(added, interface)
        invariant everAdded == old(everAdded) + added
        invariant problems + |added| == i
      {
        InstallStep(was, toAdd, i, interface, replies);
        var ok := InstallOne(toAdd[i], replies);
        if ok {
          added := added + {toAdd[i]};
        } else {
          problems := problems + 1;
        }
      }
      assert toAdd[..|toAdd|] == toAdd;
    }

    /** The plan, carried out: withdraw, then install, then write the record if anything changed. */
    method CarryOut(toAdd: seq<Network>, toRemove: set<Network>, replies: Replies) returns (added: set<Network>, problems: nat)
      requires Valid() && toRemove <= record && forall n :: n in toAdd ==> n !in record
      modifies this`table, this`record, this`everAdded
      ensures Valid()
      ensures added == Addable(old(table), toAdd, replies) && problems + |added| == |toAdd|
      ensures table == (old(table) - Withdrawable(old(table), toRemove, interface, replies)) + Pointing(added, interface)
      ensures record == (old(record) - toRemove) + added && everAdded == old(everAdded) + added
    {
      Withdraw(toRemove, replies);
      // an added network was not recorded, so it was not withdrawn either
      assert forall n :: n in toAdd ==> (n in table <==> n in old(table));
      added, problems := Install(toAdd, replies);
      if added != {} || toRemove != {} {
        record := (record - toRemove) + added;
      }
    }

    /** `apply`. */
    method Apply(desired: seq<CidrText>, replies: Replies) returns (r: Result<Outcome, Refused>)
      requires Valid()
      modifies this`table, this`record, this`everAdded
      ensures Valid()
      // our own addresses unknown: nothing is changed
      ensures r.Err? <==> replies.local.None?
      ensures r.Err? ==> table == old(table) && record == old(record) && everAdded == old(everAdded)
      ensures r.Ok? ==>
        && Reconciled(r.value, interface, desired, guardedAddresses + replies.local.value, replies, Kernel(old(table), old(record)), Kernel(table, record))
        && everAdded == old(everAdded) + r.value.added
    {
      var plan := Plan(desired, replies);
      if plan.Err? {
        return Err(Refused);
      }
      var (toAdd, toRemove, problems) := plan.value;
      PlanIsSafe(desired, Guarded(replies), record);
      var added, failed := CarryOut(toAdd, toRemove, replies);
      return Ok(Outcome(added, toRemove, problems + failed));
    }

    /** Once reconciled, reconciling again does nothing, even to routes somebody else changed in between. */
    method ApplyTwice(desired: seq<CidrText>, first: Replies, elsewhere: Table, second: Replies)
      requires Valid() && first.local.Some? && second.local == first.local
      requires Unhindered(desired, Guarded(first), first, Kernel(table, record))
      modifies this
      ensures Valid() && table == elsewhere
      ensures forall n :: n in record <==> n in Wanted(desired, Guarded(first))
    {
      ghost var was := Kernel(table, record);
      var r := Apply(desired, first);
      UnhinderedSettles(r.value, interface, desired, Guarded(first), first, was, Kernel(table, record));
      table := elsewhere;
      was := Kernel(table, record);
      r := Apply(desired, second);
      SettledIsStill(r.value, interface, desired, Guarded(first), second, was, Kernel(table, record));
    }

    /** One event: a poll of the agent's, or somebody else's change. */
    method Undergo(e: Event) returns (outcome: Option<Outcome>)
      requires Valid()
      modifies this
      ensures Valid()
      ensures Step(interface, guardedAddresses, e, old(Kernel(table, record)), Kernel(table, record), outcome)
      ensures everAdded == old(everAdded) + (if outcome.Some? then outcome.value.added else {})
    {
      outcome := None;
      match e {
        case Elsewhere(t) => table := t;
        case Poll(desired, replies) =>
          var r := Apply(desired, replies);
          outcome := if r.Ok? then Some(r.value) else None;
      }
    }

    /**
     The whole life of an agent, polls with changes by others in between, and the trace of it.
     Whatever the agent ever added was wanted by the poll that added it and safe by the addresses
     of that poll; whatever a poll of its took away was recorded then and added by an earlier one.
     */
    method Live(events: seq<Event>) returns (ghost states: seq<Kernel>, ghost outcomes: seq<Option<Outcome>>)
      requires Valid() && record == {} && everAdded == {}
      modifies this
      ensures Valid()
      ensures Trace(interface, guardedAddresses, events, states, outcomes)
      ensures states[0] == old(Kernel(table, record)) && states[|events|] == Kernel(table, record)
      ensures forall n :: n in everAdded <==> AddedBefore(outcomes, |events|, n)
      ensures SafeTrace(interface, guardedAddresses, events, states, outcomes)
    {
      states, outcomes := [Kernel(table, record)], [];
      for i := 0 to |events|
        invariant Valid()
        invariant |states| == i + 1 && |outcomes| == i
        invariant states[0] == old(Kernel(table, record)) && states[i] == Kernel(table, record)
        invariant Trace(interface, guardedAddresses, events[..i], states, outcomes)
        invariant everAdded == AddedOver(outcomes)
      {
        var outcome := Undergo(events[i]);
        AddedMore(outcomes, outcome);
        TraceMore(interface, guardedAddresses, events, i, states, outcomes, Kernel(table, record), outcome);
        states, outcomes := states + [Kernel(table, record)], outcomes + [outcome];
      }
      assert events[..|events|] == events;
      forall n
        ensures n in AddedOver(outcomes) <==> AddedBefore(outcomes, |outcomes|, n)
      {
        AddedOverMeans(outcomes, n);
      }
      TraceIsSafe(interface, guardedAddresses, events, states, outcomes);
    }
  }

  // ----- a whole life -----

  /** What one event makes of table and record. */
  ghost predicate Step(interface: string, guarded: seq<AddressText>, e: Event, before: Kernel, after: Kernel, outcome: Option<Outcome>) {
    match e
    case Elsewhere(t) => outcome.None? && after == Kernel(t, before.record)
    case Poll(desired, replies) =>
      if replies.local.None? then outcome.None? && after == before
      else outcome.Some? && Reconciled(outcome.value, interface, desired, guarded + replies.local.value, replies, before, after)
  }

  ghost predicate Trace(interface: string, guarded: seq<AddressText>, events: seq<Event>, states: seq<Kernel>, outcomes: seq<Option<Outcome>>) {
    && |states| == |events| + 1 && |outcomes| == |events|
    && forall i :: 0 <= i < |events| ==> Step(interface, guarded, events[i], states[i], states[i + 1], outcomes[i])
  }

  lemma TraceMore(interface: string, guarded: seq<AddressText>, events: seq<Event>, i: nat, states: seq<Kernel>,
                  outcomes: seq<Option<Outcome>>, after: Kernel, outcome: Option<Outcome>)
    requires i < |events| && Trace(interface, guarded, events[..i], states, outcomes)
    requires Step(interface, guarded, events[i], states[i], after, outcome)
    ensures Trace(interface, guarded, events[..i + 1], states + [after], outcomes + [outcome])
  {
    var all, more, now := states + [after], outcomes + [outcome], events[..i + 1];
    forall k | 0 <= k < i + 1
      ensures Step(interface, guarded, now[k], all[k], all[k + 1], more[k])
    {
      if k < i {
        assert now[k] == events[..i][k] && all[k] == states[k] && all[k + 1] == states[k + 1] && more[k] == outcomes[k];
      }
    }
  }

  ghost predicate AddedBefore(outcomes: seq<Option<Outcome>>, i: nat, n: Network)
    requires i <= |outcomes|
  {
    exists j :: 0 <= j < i && AddedIn(outcomes[j], n)
  }

  predicate AddedIn(outcome: Option<Outcome>, n: Network) {
    outcome.Some? && n in outcome.value.added
  }

  /** Everything added in the course of a trace. */
  function AddedOver(outcomes: seq<Option<Outcome>>): set<Network>
    decreases |outcomes|
  {
    if outcomes == [] then {}
    else
      var last := outcomes[|outcomes| - 1];
      AddedOver(outcomes[..|outcomes| - 1]) + (if last.Some? then last.value.added else {})
  }

  lemma AddedMore(outcomes: seq<Option<Outcome>>, outcome: Option<Outcome>)
    ensures AddedOver(outcomes + [outcome]) == AddedOver(outcomes) + (if outcome.Some? then outcome.value.added else {})
  {
    assert (outcomes + [outcome])[..|outcomes|] == outcomes;
  }

  /** That is, added by some poll of it. */
  lemma {:induction false} AddedOverMeans(outcomes: seq<Option<Outcome>>, n: Network)
    ensures n in AddedOver(outcomes) <==> AddedBefore(outcomes, |outcomes|, n)
    decreases |outcomes|
  {
    if outcomes != [] {
      var k := |outcomes| - 1;
      AddedOverMeans(outcomes[..k], n);
      if AddedBefore(outcomes[..k], k, n) {
        var j :| 0 <= j < k && AddedIn(outcomes[..k][j], n);
        assert AddedIn(outcomes[j], n);
      }
      if AddedBefore(outcomes, |outcomes|, n) && !AddedIn(outcomes[k], n) {
        var j :| 0 <= j < |outcomes| && AddedIn(outcomes[j], n);
        assert outcomes[..k][j] == outcomes[j];
      }
    }
  }

  /** A route a poll brought into being: asked for by this poll, safe by its addresses, and recorded. */
  ghost predicate AddsOnlyWanted(guarded: seq<AddressText>, e: Event, before: Kernel, after: Kernel, outcome: Option<Outcome>) {
    e.Poll? ==> forall n :: (n in after.table && n !in before.table) || AddedIn(outcome, n) ==>
      && e.replies.local.Some? && AddedIn(outcome, n)
      && n in Wanted(e.desired, guarded + e.replies.local.value) && Safe(n, guarded + e.replies.local.value)
      && n in after.record
  }

  /** A route a poll took away: recorded at that moment, pointing into the tunnel, and added by an earlier poll. */
  ghost predicate TakesOnlyOwn(interface: string, e: Event, before: Kernel, after: Kernel, outcomes: seq<Option<Outcome>>, i: nat)
    requires i < |outcomes|
  {
    e.Poll? ==> forall n :: n in before.table && n !in after.table ==>
      n in before.record && before.table[n] == interface && AddedBefore(outcomes, i, n)
  }

  /** Whatever is recorded was added by an earlier poll. */
  lemma {:induction false} RecordedWereAdded(interface: string, guarded: seq<AddressText>, events: seq<Event>,
                                             states: seq<Kernel>, outcomes: seq<Option<Outcome>>, i: nat)
    requires Trace(interface, guarded, events, states, outcomes) && states[0].record == {} && i <= |events|
    ensures forall n :: n in states[i].record ==> AddedBefore(outcomes, i, n)
  {
    if i > 0 {
      RecordedWereAdded(interface, guarded, events, states, outcomes, i - 1);
      assert Step(interface, guarded, events[i - 1], states[i - 1], states[i], outcomes[i - 1]);
      forall n | n in states[i].record
        ensures AddedBefore(outcomes, i, n)
      {
        if n in states[i - 1].record {
          var j :| 0 <= j < i - 1 && AddedIn(outcomes[j], n);
        } else {
          assert AddedIn(outcomes[i - 1], n);
        }
      }
    }
  }

  lemma StepIsSafe(interface: string, guarded: seq<AddressText>, e: Event, before: Kernel, after: Kernel, outcomes: seq<Option<Outcome>>, i: nat)
    requires i < |outcomes| && Step(interface, guarded, e, before, after, outcomes[i])
    requires forall n :: n in before.record ==> AddedBefore(outcomes, i, n)
    ensures AddsOnlyWanted(guarded, e, before, after, outcomes[i])
    ensures TakesOnlyOwn(interface, e, before, after, outcomes, i)
  {
    if e.Poll? && e.replies.local.Some? {
      var all := guarded + e.replies.local.value;
      OnlySafeRoutesCome(outcomes[i].value, interface, e.desired, all, e.replies, before, after);
      forall n | n in before.table && n !in after.table
        ensures n in before.record && before.table[n] == interface
      {
        OnlyOwnRoutesGo(outcomes[i].value, interface, e.desired, all, e.replies, before, after, n);
      }
    }
  }

  /** Every poll of the trace adds only what it wanted and takes only what the agent had added. */
  ghost predicate SafeTrace(interface: string, guarded: seq<AddressText>, events: seq<Event>, states: seq<Kernel>, outcomes: seq<Option<Outcome>>)
    requires |states| == |events| + 1 && |outcomes| == |events|
  {
    forall i :: 0 <= i < |events| ==>
      && AddsOnlyWanted(guarded, events[i], states[i], states[i + 1], outcomes[i])
      && TakesOnlyOwn(interface, events[i], states[i], states[i + 1], outcomes, i)
  }

  lemma TraceIsSafe(interface: string, guarded: seq<AddressText>, events: seq<Event>, states: seq<Kernel>, outcomes: seq<Option<Outcome>>)
    requires Trace(interface, guarded, events, states, outcomes) && states[0].record == {}
    ensures SafeTrace(interface, guarded, events, states, outcomes)
  {
    forall i | 0 <= i < |events|
      ensures AddsOnlyWanted(guarded, events[i], states[i], states[i + 1], outcomes[i])
      ensures TakesOnlyOwn(interface, events[i], states[i], states[i + 1], outcomes, i)
    {
      RecordedWereAdded(interface, guarded, events, states, outcomes, i);
      StepIsSafe(interface, guarded, events[i], states[i], states[i + 1], outcomes, i);
    }
  }

  // ----- networks asked for twice -----

  /** The members of a list are as many as its entries exactly when none is repeated. */
  lemma {:induction false} CountDistinct(s: seq<Network>)
    ensures |set n | n in s| <= |s|
    ensures |set n | n in s| == |s| <==> Distinct(s)
  {
    if s != [] {
      var n, rest := s[0], s[1..];
      CountDistinct(rest);
      DistinctHead(n, rest);
      MembersHead(n, rest);
      assert s == [n] + rest;
    }
  }

  lemma MembersHead(n: Network, rest: seq<Network>)
    ensures |set x | x in [n] + rest| == |set x | x in rest| + (if n in rest then 0 else 1)
  {
    var members := set x | x in rest;
    assert (set x | x in [n] + rest) == members + {n};
    if n in rest {
      assert members + {n} == members;
    }
  }

  lemma DistinctHead(n: Network, rest: seq<Network>)
    ensures Distinct([n] + rest) <==> n !in rest && Distinct(rest)
  {
    var all := [n] + rest;
    assert forall j :: 0 <= j < |rest| ==> all[j + 1] == rest[j];
    if n in rest {
      var j :| 0 <= j < |rest| && rest[j] == n;
      assert all[0] == all[j + 1];
    }
    if Distinct(all) {
      forall i, j | 0 <= i < j < |rest|
        ensures rest[i] != rest[j]
      {
        assert all[i + 1] != all[j + 1];
      }
    }
  }

  /** Networks that are all addable leave no problem behind exactly when none is repeated. */
  lemma AllAdded(table: Table, toAdd: seq<Network>, replies: Replies)
    requires forall n :: n in toAdd ==> n !in table && replies.add(n)
    ensures |Addable(table, toAdd, replies)| == |toAdd| <==> Distinct(toAdd)
  {
    CountDistinct(toAdd);
    assert Addable(table, toAdd, replies) == set n | n in toAdd;
  }

  /** A free network asked for twice is added once, and then reported as somebody else's. */
  lemma AskedForTwice(r: Outcome, interface: string, c: CidrText, guarded: seq<AddressText>, replies: Replies, before: Kernel, after: Kernel)
    requires Reconciled(r, interface, [c, c], guarded, replies, before, after) && Acceptable(c, guarded)
    requires var n := ParseCidr(c).value; n !in before.record && n !in before.table && replies.add(n)
    ensures r.added == {ParseCidr(c).value} && r.problems == 1
  {
    WantedTwice(c, guarded, before.record);
    AddableTwice(before.table, ParseCidr(c).value, replies);
  }

  lemma WantedTwice(c: CidrText, guarded: seq<AddressText>, record: set<Network>)
    requires Acceptable(c, guarded) && ParseCidr(c).value !in record
    ensures RefusedCount([c, c], guarded) == 0
    ensures ToAdd(Wanted([c, c], guarded), record) == [ParseCidr(c).value, ParseCidr(c).value]
  {
    var n := ParseCidr(c).value;
    assert [c, c][1..] == [c] && [c][1..] == [];
    assert Wanted([], guarded) == [] && RefusedCount([], guarded) == 0;
    assert Wanted([c], guarded) == [n] && RefusedCount([c], guarded) == 0;
    assert Wanted([c, c], guarded) == [n, n];
    assert [n, n][1..] == [n] && [n][1..] == [];
    assert ToAdd([n], record) == [n];
  }

  lemma AddableTwice(table: Table, n: Network, replies: Replies)
    requires n !in table && replies.add(n)
    ensures Addable(table, [n, n], replies) == {n}
  {
  }
}
