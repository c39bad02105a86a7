/**
 The sliding-log limiter behind sign-in and enrollment, against the full history of failures.
 */
module RateLimit {
  import opened Wrappers

  type Times = seq<real>

  /** The times strictly after `cutoff`. */
  function Recent(times: Times, cutoff: real): (r: Times)
    ensures |r| <= |times|
  {
    if times == [] then []
    else (if times[0] > cutoff then [times[0]] else []) + Recent(times[1..], cutoff)
  }

  ghost predicate Ordered(times: Times) {
    forall i, j :: 0 <= i < j < |times| ==> times[i] <= times[j]
  }

  lemma {:induction false} RecentConcat(a: Times, b: Times, cutoff: real)
    ensures Recent(a + b, cutoff) == Recent(a, cutoff) + Recent(b, cutoff)
  {
    if a == [] {
      assert a + b == b;
    } else {
      assert (a + b)[0] == a[0] && (a + b)[1..] == a[1..] + b;
      RecentConcat(a[1..], b, cutoff);
    }
  }

  /** What has left a window does not come back to a later one. */
  lemma {:induction false} RecentOfRecent(times: Times, earlier: real, later: real)
    requires earlier <= later
    ensures Recent(Recent(times, earlier), later) == Recent(times, later)
  {
    if times != [] {
      RecentOfRecent(times[1..], earlier, later);
      RecentConcat(if times[0] > earlier then [times[0]] else [], Recent(times[1..], earlier), later);
      assert Recent([times[0]], later) == if times[0] > later then [times[0]] else [];
    }
  }

  lemma {:induction false} AllRecent(times: Times, cutoff: real)
    requires forall i :: 0 <= i < |times| ==> times[i] > cutoff
    ensures Recent(times, cutoff) == times
  {
    if times != [] {
      AllRecent(times[1..], cutoff);
    }
  }

  lemma {:induction false} NoneRecent(times: Times, cutoff: real)
    requires forall i :: 0 <= i < |times| ==> times[i] <= cutoff
    ensures Recent(times, cutoff) == []
  {
    if times != [] {
      NoneRecent(times[1..], cutoff);
    }
  }

  const MAX_KEYS: nat := 4096

  function Log(hits: map<string, Times>, key: string): Times {
    if key in hits then hits[key] else []
  }

  /** The log of a key is ordered and, as far as any later window reaches, complete. */
  ghost predicate Kept(log: Times, full: Times, last: real, window: real) {
    && Ordered(log)
    && (forall i :: 0 <= i < |log| ==> log[i] <= last)
    && Recent(log, last - window) == Recent(full, last - window)
  }

  ghost predicate AllKept(hits: map<string, Times>, history: map<string, Times>, last: real, window: real) {
    forall key :: Kept(Log(hits, key), Log(history, key), last, window)
  }

  lemma KeyKept(hits: map<string, Times>, history: map<string, Times>, key: string, last: real, window: real)
    requires AllKept(hits, history, last, window)
    ensures Ordered(Log(hits, key))
    ensures Recent(Log(hits, key), last - window) == Recent(Log(history, key), last - window)
  {
    assert Kept(Log(hits, key), Log(history, key), last, window);
  }

  lemma PrunedAllKept(hits: map<string, Times>, history: map<string, Times>, key: string, log: Times, now: real, window: real)
    requires AllKept(hits, history, now, window) && log == Recent(Log(hits, key), now - window) && Ordered(log)
    ensures AllKept(hits[key := log], history, now, window)
  {
    forall k
      ensures Kept(Log(hits[key := log], k), Log(history, k), now, window)
    {
      assert Kept(Log(hits, k), Log(history, k), now, window);
      if k == key {
        PrunedKept(Log(hits, key), log, Log(history, key), now, window);
      }
    }
  }

  lemma IdleKept(log: Times, full: Times, now: real, window: real)
    requires Kept(log, full, now, window) && Idle(log, now - window)
    ensures Kept([], full, now, window)
  {
    NoneRecent(log, now - window);
  }

  lemma CollectedAllKept(hits: map<string, Times>, history: map<string, Times>, gone: set<string>, now: real, window: real)
    requires AllKept(hits, history, now, window)
    requires forall k :: k in gone ==> k in hits && Idle(hits[k], now - window)
    ensures AllKept(hits - gone, history, now, window)
  {
    forall k
      ensures Kept(Log(hits - gone, k), Log(history, k), now, window)
    {
      assert Kept(Log(hits, k), Log(history, k), now, window);
      if k in gone {
        IdleKept(hits[k], Log(history, k), now, window);
      }
    }
  }

  /** The log is empty, or its last entry has aged out. */
  predicate Idle(log: Times, cutoff: real) {
    log == [] || log[|log| - 1] <= cutoff
  }

  lemma RecordedAllKept(hits: map<string, Times>, history: map<string, Times>, key: string, now: real, window: real)
    requires AllKept(hits, history, now, window) && key in hits
    ensures AllKept(hits[key := hits[key] + [now]], history[key := Log(history, key) + [now]], now, window)
  {
    var after, all := hits[key := hits[key] + [now]], history[key := Log(history, key) + [now]];
    forall k
      ensures Kept(Log(after, k), Log(all, k), now, window)
    {
      assert Kept(Log(hits, k), Log(history, k), now, window);
      if k == key {
        AddedKept(hits[key], Log(history, key), now, window);
      }
    }
  }

  lemma KeptLater(log: Times, full: Times, last: real, now: real, window: real)
    requires Kept(log, full, last, window) && now >= last
    ensures Kept(log, full, now, window)
  {
    RecentOfRecent(log, last - window, now - window);
    RecentOfRecent(full, last - window, now - window);
  }

  lemma PrunedKept(log: Times, pruned: Times, full: Times, now: real, window: real)
    requires Kept(log, full, now, window) && pruned == Recent(log, now - window) && Ordered(pruned)
    ensures Kept(pruned, full, now, window)
  {
    var cutoff := now - window;
    assert Recent(pruned, cutoff) == Recent(full, cutoff) by {
      RecentOfRecent(log, cutoff, cutoff);
    }
    assert forall i :: 0 <= i < |pruned| ==> pruned[i] <= now by {
      RecentBounded(log, cutoff, now);
    }
  }

  lemma {:induction false} RecentBounded(times: Times, cutoff: real, bound: real)
    requires forall i :: 0 <= i < |times| ==> times[i] <= bound
    ensures forall i :: 0 <= i < |Recent(times, cutoff)| ==> Recent(times, cutoff)[i] <= bound
  {
    if times != [] {
      RecentBounded(times[1..], cutoff, bound);
    }
  }

  lemma AddedKept(log: Times, full: Times, now: real, window: real)
    requires Kept(log, full, now, window)
    ensures Kept(log + [now], full + [now], now, window)
  {
    var cutoff := now - window;
    assert Recent(log + [now], cutoff) == Recent(full + [now], cutoff) by {
      RecentConcat(log, [now], cutoff);
      RecentConcat(full, [now], cutoff);
    }
    OrderedMore(log, now);
  }

  lemma OrderedMore(log: Times, now: real)
    requires Ordered(log) && forall i :: 0 <= i < |log| ==> log[i] <= now
    ensures Ordered(log + [now]) && forall i :: 0 <= i < |log + [now]| ==> (log + [now])[i] <= now
  {
  }

  method DropOld(times: Times, cutoff: real) returns (log: Times)
    requires Ordered(times)
    ensures log == Recent(times, cutoff) && Ordered(log)
  {
    log := times;
    while log != [] && log[0] <= cutoff
      invariant Ordered(log)
      invariant Recent(log, cutoff) == Recent(times, cutoff)
      decreases |log|
    {
      log := log[1..];
    }
    AllRecent(log, cutoff);
  }

  class RateLimiter {
    const maxAttempts: nat
    const window: real
    var hits: map<string, Times>
    /** Every failure of a key since its last reset. */
    ghost var history: map<string, Times>
    /** The last reading of the clock, which never goes back. */
    ghost var last: real

    constructor (maxAttempts: nat, window: real)
      requires maxAttempts >= 1 && window > 0.0
      ensures Valid() && history == map[] && this.maxAttempts == maxAttempts && this.window == window
    {
      this.maxAttempts, this.window := maxAttempts, window;
      hits, history, last := map[], map[], 0.0;
    }

    ghost predicate Valid()
      reads this
    {
      && maxAttempts >= 1 && window > 0.0
      && AllKept(hits, history, last, window)
    }

    /** The failures of a key that count at `now`. */
    ghost function Counted(key: string, now: real): Times
      reads this
    {
      Recent(Log(history, key), now - window)
    }

    /** Time passing keeps the log valid. */
    ghost method Tick(now: real)
      requires Valid() && now >= last
      modifies this`last
      ensures Valid() && last == now
    {
      forall key
        ensures Kept(Log(hits, key), Log(history, key), now, window)
      {
        KeptLater(Log(hits, key), Log(history, key), last, now, window);
      }
      last := now;
    }

    /** `_prune`: drop from the front what has aged out. */
    method Prune(key: string, now: real) returns (log: Times)
      requires Valid() && last == now
      modifies this`hits
      ensures Valid()
      ensures log == Counted(key, now) && hits == old(hits)[key := log]
    {
      KeyKept(hits, history, key, last, window);
      log := DropOld(Log(hits, key), now - window);
      PrunedAllKept(hits, history, key, log, now, window);
      hits := hits[key := log];
    }

    /** `_collect`: above a bound, drop the keys that can no longer block anybody. No answer changes. */
    method Collect(now: real)
      requires Valid() && last == now
      modifies this`hits
      ensures Valid()
    {
      if |hits| <= MAX_KEYS {
        return;
      }
      var cutoff := now - window;
      var gone := set k | k in hits && Idle(hits[k], cutoff);
      CollectedAllKept(hits, history, gone, now, window);
      hits := hits - gone;
    }

    /** `check`: refused exactly when the budget of the window ending now is spent. */
    method Check(key: string, now: real) returns (r: Result<(), int>)
      requires Valid() && now >= last
      modifies this`hits, this`last
      ensures Valid() && last == now
      ensures r.Err? <==> |Counted(key, now)| >= maxAttempts
      // told to wait until the oldest counted failure leaves the window, in whole seconds
      ensures r.Err? ==> r.error >= 1 && Counted(key, now)[0] + window - now < r.error as real <= Counted(key, now)[0] + window - now + 1.0
    {
      Tick(now);
      var log := Prune(key, now);
      if |log| >= maxAttempts {
        AfterCutoff(Log(history, key), now - window);
        var wait := (log[0] + window - now).Floor + 1;
        return Err(if wait > 1 then wait else 1);
      }
      return Ok(());
    }

    /** A check, by its answer alone. */
    method Passes(key: string, now: real) returns (passed: bool)
      requires Valid() && now >= last
      modifies this`hits, this`last
      ensures Valid() && last == now
      ensures passed <==> |Counted(key, now)| < maxAttempts
    {
      var r := Check(key, now);
      passed := r.Ok?;
    }

    method RecordFailure(key: string, now: real)
      requires Valid() && now >= last
      modifies this`hits, this`history, this`last
      ensures Valid() && last == now
      ensures history == old(history)[key := Log(old(history), key) + [now]]
    {
      Tick(now);
      var log := Prune(key, now);
      RecordedAllKept(hits, history, key, now, window);
      hits := hits[key := log + [now]];
      history := history[key := Log(history, key) + [now]];
      Collect(now);
    }

    /** `reset`, after a successful sign-in. */
    method Reset(key: string)
      requires Valid()
      modifies this`hits, this`history
      ensures Valid()
      ensures history == old(history) - {key}
    {
      ghost var hitsBefore, before := hits, history;
      hits, history := hits - {key}, history - {key};
      forall k
        ensures Kept(Log(hits, k), Log(history, k), last, window)
      {
        assert Kept(Log(hitsBefore, k), Log(before, k), last, window);
      }
    }

    method Remaining(key: string, now: real) returns (n: nat)
      requires Valid() && now >= last
      modifies this`hits, this`last
      ensures Valid() && last == now
      ensures n == if |Counted(key, now)| >= maxAttempts then 0 else maxAttempts - |Counted(key, now)|
    {
      Tick(now);
      var log := Prune(key, now);
      n := if |log| >= maxAttempts then 0 else maxAttempts - |log|;
    }
  }

  lemma {:induction false} AfterCutoff(times: Times, cutoff: real)
    ensures forall i :: 0 <= i < |Recent(times, cutoff)| ==> Recent(times, cutoff)[i] > cutoff
  {
    if times != [] {
      AfterCutoff(times[1..], cutoff);
    }
  }

  /** Waiting as long as told is enough, when the budget was spent exactly and nothing more failed. */
  lemma WaitingIsEnough(times: Times, window: real, now: real, wait: int, later: real, maxAttempts: nat)
    requires |Recent(times, now - window)| == maxAttempts >= 1
    requires Recent(times, now - window)[0] + window - now < wait as real && later >= now + wait as real && wait >= 1
    ensures |Recent(times, later - window)| < maxAttempts
  {
    var counted := Recent(times, now - window);
    RecentOfRecent(times, now - window, later - window);
    assert Recent(counted, later - window) == Recent(counted[1..], later - window);
  }

  // ----- concurrent attempts on one key -----

  /** Passed checks whose outcome is still open are in flight. */
  datatype Ledger = Ledger(failures: Times, inFlight: nat, clock: real)

  datatype Event = Passed(now: real) | Failed(now: real) | Succeeded(now: real)

  predicate Possible(l: Ledger, e: Event, window: real, maxAttempts: nat, threads: nat) {
    && e.now >= l.clock
    && match e
       case Passed(now) => |Recent(l.failures, now - window)| < maxAttempts && l.inFlight < threads
       case _ => l.inFlight > 0
  }

  function After(l: Ledger, e: Event): Ledger
    requires e.Passed? || l.inFlight > 0
  {
    match e
    case Passed(now) => Ledger(l.failures, l.inFlight + 1, now)
    case Failed(now) => Ledger(l.failures + [now], l.inFlight - 1, now)
    case Succeeded(now) => Ledger([], l.inFlight - 1, now)
  }

  ghost predicate Bounded(l: Ledger, window: real, maxAttempts: nat, threads: nat) {
    && l.inFlight <= threads
    && |Recent(l.failures, l.clock - window)| + l.inFlight <= maxAttempts - 1 + threads
    && forall i :: 0 <= i < |l.failures| ==> l.failures[i] <= l.clock
  }

  lemma {:induction false} FewerLater(times: Times, earlier: real, later: real)
    requires earlier <= later
    ensures |Recent(times, later)| <= |Recent(times, earlier)|
  {
    if times != [] {
      FewerLater(times[1..], earlier, later);
    }
  }

  ghost predicate PossibleRun(l: Ledger, events: seq<Event>, window: real, maxAttempts: nat, threads: nat)
    decreases |events|
  {
    events == [] || (Possible(l, events[0], window, maxAttempts, threads)
                     && PossibleRun(After(l, events[0]), events[1..], window, maxAttempts, threads))
  }

  ghost function RunLedger(l: Ledger, events: seq<Event>, window: real, maxAttempts: nat, threads: nat): Ledger
    requires PossibleRun(l, events, window, maxAttempts, threads)
    decreases |events|
  {
    if events == [] then l else RunLedger(After(l, events[0]), events[1..], window, maxAttempts, threads)
  }

  /** Events come in any order from `threads` concurrent attempts. */
  lemma {:induction false} RunBounded(l: Ledger, events: seq<Event>, window: real, maxAttempts: nat, threads: nat)
    requires window > 0.0 && maxAttempts >= 1 && Bounded(l, window, maxAttempts, threads)
    requires PossibleRun(l, events, window, maxAttempts, threads)
    ensures Bounded(RunLedger(l, events, window, maxAttempts, threads), window, maxAttempts, threads)
    decreases |events|
  {
    if events != [] {
      var e := events[0];
      FewerLater(l.failures, l.clock - window, e.now - window);
      RecentConcat(l.failures, [e.now], e.now - window);
      RunBounded(After(l, e), events[1..], window, maxAttempts, threads);
    }
  }

  /**
   If every failure follows a check that passed, the window ending now never holds more than the
   budget and the other attempts that were under way; one at a time, never more than the budget.
   */
  lemma NeverOverBudget(events: seq<Event>, window: real, maxAttempts: nat, threads: nat)
    requires window > 0.0 && maxAttempts >= 1 && threads >= 1
    requires PossibleRun(Ledger([], 0, 0.0), events, window, maxAttempts, threads)
    ensures var l := RunLedger(Ledger([], 0, 0.0), events, window, maxAttempts, threads);
            |Recent(l.failures, l.clock - window)| <= maxAttempts - 1 + threads
  {
    RunBounded(Ledger([], 0, 0.0), events, window, maxAttempts, threads);
  }

  // ----- the same, of the limiter itself -----

  /** What an attempt asks of the limiter: before, and after it failed or succeeded. */
  datatype Call = Ask(now: real) | Fail(now: real) | Succeed(now: real)

  /** Calls of at most `threads` attempts at once on one key, each failure after a check that passed. */
  method Attempts(limiter: RateLimiter, key: string, calls: seq<Call>, threads: nat) returns (inFlight: nat)
    requires limiter.Valid() && |limiter.Counted(key, limiter.last)| <= limiter.maxAttempts - 1 + threads
    requires forall i, j :: 0 <= i < j < |calls| ==> calls[i].now <= calls[j].now
    requires calls != [] ==> limiter.last <= calls[0].now
    modifies limiter
    ensures limiter.Valid() && inFlight <= threads
    ensures |limiter.Counted(key, limiter.last)| + inFlight <= limiter.maxAttempts - 1 + threads
  {
    inFlight := 0;
    for i := 0 to |calls|
      invariant limiter.Valid() && inFlight <= threads
      invariant i < |calls| ==> limiter.last <= calls[i].now
      invariant |limiter.Counted(key, limiter.last)| + inFlight <= limiter.maxAttempts - 1 + threads
    {
      inFlight := Serve(limiter, key, calls[i], inFlight, threads);
    }
  }

  method Serve(limiter: RateLimiter, key: string, call: Call, inFlight: nat, threads: nat) returns (after: nat)
    requires limiter.Valid() && inFlight <= threads && limiter.last <= call.now
    requires |limiter.Counted(key, limiter.last)| + inFlight <= limiter.maxAttempts - 1 + threads
    modifies limiter
    ensures limiter.Valid() && after <= threads && limiter.last <= call.now
    ensures |limiter.Counted(key, limiter.last)| + after <= limiter.maxAttempts - 1 + threads
  {
    after := inFlight;
    ghost var log, cutoff := Log(limiter.history, key), call.now - limiter.window;
    FewerLater(log, limiter.last - limiter.window, cutoff);
    match call {
      case Ask(now) =>
        if inFlight < threads {
          var r := limiter.Check(key, now);
          after := if r.Ok? then inFlight + 1 else inFlight;
        }
      case Fail(now) =>
        if inFlight > 0 {
          limiter.RecordFailure(key, now);
          RecentConcat(log, [now], cutoff);
          after := inFlight - 1;
        }
      case Succeed(_) =>
        if inFlight > 0 {
          limiter.Reset(key);
          after := inFlight - 1;
        }
    }
  }

  /** `n` failures at one moment, each after a check that passed. */
  method FailInTurn(limiter: RateLimiter, key: string, n: nat, now: real) returns (passed: bool)
    requires limiter.Valid() && limiter.last <= now && Log(limiter.history, key) == [] && n < limiter.maxAttempts
    modifies limiter
    ensures limiter.Valid() && limiter.last <= now && passed && AllAt(Log(limiter.history, key), n, now)
  {
    passed := true;
    for i := 0 to n
      invariant limiter.Valid() && limiter.last <= now && passed && AllAt(Log(limiter.history, key), i, now)
    {
      AllCount(Log(limiter.history, key), i, now, limiter.window);
      passed := limiter.Passes(key, now);
      limiter.RecordFailure(key, now);
    }
  }

  method AskInTurn(limiter: RateLimiter, key: string, n: nat, threads: nat, now: real) returns (passed: bool)
    requires limiter.Valid() && limiter.last <= now && n < limiter.maxAttempts && AllAt(Log(limiter.history, key), n, now)
    modifies limiter
    ensures limiter.Valid() && limiter.last <= now && passed && AllAt(Log(limiter.history, key), n, now)
  {
    passed := true;
    AllCount(Log(limiter.history, key), n, now, limiter.window);
    for i := 0 to threads
      invariant limiter.Valid() && limiter.last <= now && passed && AllAt(Log(limiter.history, key), n, now)
      invariant |limiter.Counted(key, now)| == n
    {
      passed := limiter.Passes(key, now);
    }
  }

  method FailAll(limiter: RateLimiter, key: string, n: nat, threads: nat, now: real)
    requires limiter.Valid() && limiter.last <= now && AllAt(Log(limiter.history, key), n, now) && threads >= 1
    modifies limiter
    ensures limiter.Valid() && limiter.last == now && AllAt(Log(limiter.history, key), n + threads, now)
  {
    for i := 0 to threads
      invariant limiter.Valid() && limiter.last <= now && (i > 0 ==> limiter.last == now)
      invariant AllAt(Log(limiter.history, key), n + i, now)
    {
      limiter.RecordFailure(key, now);
    }
  }

  /** The bound is reached for every budget and every number of attempts at once: every check of these passes. */
  method Overrun(limiter: RateLimiter, key: string, threads: nat, now: real) returns (passed: bool)
    requires limiter.Valid() && limiter.last <= now && Log(limiter.history, key) == [] && threads >= 1
    modifies limiter
    ensures limiter.Valid() && limiter.last == now && passed
    ensures |limiter.Counted(key, now)| == limiter.maxAttempts - 1 + threads
  {
    var n := limiter.maxAttempts - 1;
    var first := FailInTurn(limiter, key, n, now);
    var second := AskInTurn(limiter, key, n, threads, now);
    FailAll(limiter, key, n, threads, now);
    AllCount(Log(limiter.history, key), n + threads, now, limiter.window);
    passed := first && second;
  }

  ghost predicate AllAt(times: Times, n: nat, now: real) {
    |times| == n && forall i :: 0 <= i < n ==> times[i] == now
  }

  lemma AllCount(times: Times, n: nat, now: real, window: real)
    requires AllAt(times, n, now) && window > 0.0
    ensures |Recent(times, now - window)| == n
  {
    AllRecent(times, now - window);
  }
}
