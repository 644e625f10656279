/** The v1 circuit breaker. Each public method holds the lock from start to end, so a concurrent
    run is a sequence of public calls; `Call` is `Allow`, the protected function, and one of the
    two recordings. */
module BreakerV1 {
  import opened Backoff
  import opened CircuitState

  datatype Config = Config(
    maxFailures: int,
    halfOpenSuccesses: int,
    initialBackoff: int,
    maxBackoff: int,
    multiplier: int)

  predicate Usable(c: Config) {
    c.halfOpenSuccesses >= 1 && c.initialBackoff >= 1 && c.maxBackoff >= 1 && c.multiplier >= 1
  }

  /** The settings that `NewBreaker` derives: half the reset timeout, but at least five seconds. */
  function Settings(maxFailures: int, resetTimeout: int): (c: Config)
    ensures Usable(c) && c.initialBackoff >= 5 * SECOND
  {
    var half := resetTimeout / 2;
    Config(maxFailures, 3, if half < 5 * SECOND then 5 * SECOND else half, 600 * SECOND, 2)
  }

  lemma {:induction false} SettingsInNumbers(maxFailures: int, resetTimeout: int)
    ensures var c := Settings(maxFailures, resetTimeout);
            && c.maxFailures == maxFailures && c.halfOpenSuccesses == 3 && c.multiplier == 2
            && c.initialBackoff == (if resetTimeout < 10_000_000_000 then 5_000_000_000 else resetTimeout / 2)
            && c.maxBackoff == 600_000_000_000
  {
  }

  function Wait(c: Config, k: nat): nat
    requires Usable(c)
  {
    After(c.initialBackoff, c.multiplier, c.maxBackoff, k)
  }

  datatype Breaker = Breaker(
    state: State,
    failures: int,
    successes: int,
    currentBackoff: int,
    lastFailTime: int,
    lastStateTime: int)

  function New(c: Config, now: int): Breaker {
    Breaker(Closed, 0, 0, c.initialBackoff, 0, now)
  }

  predicate Admits(b: Breaker, now: int) {
    b.state.Open? ==> now - b.lastFailTime > b.currentBackoff
  }

  function Set(b: Breaker, s: State, now: int): Breaker {
    if b.state == s then b else b.(state := s, lastStateTime := now)
  }

  function Allowed(b: Breaker, now: int): Breaker {
    if b.state.Open? && Admits(b, now) then Set(b, HalfOpen, now) else b
  }

  function Succeeded(c: Config, b: Breaker, now: int): Breaker {
    var b1 := b.(successes := b.successes + 1);
    match b.state
    case Closed => b1.(failures := 0, currentBackoff := c.initialBackoff)
    case Open => b1
    case HalfOpen =>
      if b1.successes >= c.halfOpenSuccesses then
        Set(b1, Closed, now).(failures := 0, successes := 0, currentBackoff := c.initialBackoff)
      else b1
  }

  function Increased(c: Config, b: Breaker): Breaker {
    b.(currentBackoff := Min(b.currentBackoff * c.multiplier, c.maxBackoff))
  }

  function Failed(c: Config, b: Breaker, now: int): Breaker {
    var b1 := b.(failures := b.failures + 1, lastFailTime := now, successes := 0);
    match b.state
    case Closed => if b1.failures >= c.maxFailures then Increased(c, Set(b1, Open, now)) else b1
    case Open => b1
    case HalfOpen => Increased(c, Set(b1, Open, now))
  }

  /** A manual reset. It leaves the backoff as it was. */
  function Cleared(b: Breaker, now: int): Breaker {
    b.(state := Closed, failures := 0, successes := 0, lastStateTime := now)
  }

  function Called(c: Config, b: Breaker, t0: int, t1: int, ok: bool): Breaker {
    if !Admits(b, t0) then b
    else if ok then Succeeded(c, Allowed(b, t0), t1) else Failed(c, Allowed(b, t0), t1)
  }

  // ----- runs of public calls -----

  datatype Event = Allow(now: int) | RecordSuccess(now: int) | RecordFailure(now: int) | Reset(now: int)

  function Step(c: Config, b: Breaker, e: Event): Breaker {
    match e
    case Allow(now) => Allowed(b, now)
    case RecordSuccess(now) => Succeeded(c, b, now)
    case RecordFailure(now) => Failed(c, b, now)
    case Reset(now) => Cleared(b, now)
  }

  function Run(c: Config, now: int, events: seq<Event>): Breaker {
    if events == [] then New(c, now)
    else Step(c, Run(c, now, events[..|events| - 1]), events[|events| - 1])
  }

  /** How often the circuit opened since a success last found or left it closed. A manual reset
      does not start the count again. */
  function Openings(c: Config, now: int, events: seq<Event>): nat {
    if events == [] then 0
    else
      var before := Run(c, now, events[..|events| - 1]);
      var after := Run(c, now, events);
      if events[|events| - 1].RecordSuccess? && after.state.Closed? then 0
      else if after.state.Open? && before.state != after.state then
        Openings(c, now, events[..|events| - 1]) + 1
      else Openings(c, now, events[..|events| - 1])
  }

  /** The backoff in every reachable state, resets included, is the one that the openings above lead
      to. Without a reset, closed means that there were none. */
  lemma {:induction false} BackoffFollowsOpenings(c: Config, now: int, events: seq<Event>)
    requires Usable(c)
    ensures Run(c, now, events).currentBackoff == Wait(c, Openings(c, now, events))
    ensures (forall e :: e in events ==> !e.Reset?) ==>
              (Run(c, now, events).state.Closed? <==> Openings(c, now, events) == 0)
  {
    if events != [] {
      var before := events[..|events| - 1];
      BackoffFollowsOpenings(c, now, before);
    }
  }

  /** The same as a formula. */
  lemma {:induction false} BackoffClosedForm(c: Config, now: int, events: seq<Event>)
    requires Usable(c)
    ensures var k := Openings(c, now, events);
            Run(c, now, events).currentBackoff ==
            if k == 0 then c.initialBackoff else Min(c.initialBackoff * Pow(c.multiplier, k), c.maxBackoff)
  {
    BackoffFollowsOpenings(c, now, events);
    var k := Openings(c, now, events);
    if k > 0 {
      ClosedForm(c.initialBackoff, c.multiplier, c.maxBackoff, k);
    }
  }

  /** Waiting after `k` openings is no longer than at the start exactly if there were none, or if the
      settings never change the wait. */
  lemma {:induction false} InitialAgain(c: Config, k: nat)
    requires Usable(c)
    ensures Wait(c, k) == c.initialBackoff <==>
            || k == 0
            || c.initialBackoff == c.maxBackoff
            || (c.multiplier == 1 && c.initialBackoff <= c.maxBackoff)
  {
    if k > 0 {
      ClosedForm(c.initialBackoff, c.multiplier, c.maxBackoff, k);
      PowerOf(c.multiplier, k);
      Product(c.initialBackoff, Pow(c.multiplier, k));
    }
  }

  lemma {:induction false} PowerOf(m: nat, k: nat)
    requires m >= 1 && k >= 1
    ensures if m == 1 then Pow(m, k) == 1 else Pow(m, k) >= 2
  {
    if k == 1 {
      assert Pow(m, 1) == m * Pow(m, 0);
    } else {
      PowerOf(m, k - 1);
      Grows(Pow(m, k - 1), m);
    }
  }

  lemma {:induction false} Product(x: nat, p: nat)
    requires x >= 1 && p >= 1
    ensures if p == 1 then x * p == x else x * p > x
  {
    if p > 1 {
      Grows(x, p - 1);
      assert x * p == x * (p - 1) + x;
    }
  }

  /** A reset returns to CLOSED, but the wait of the outage survives it: the backoff is the initial one
      exactly if the circuit has not opened since a success last found or left it closed, or if
      the settings never change the wait. */
  lemma {:induction false} ResetKeepsStaleBackoff(c: Config, now: int, events: seq<Event>, t: int)
    requires Usable(c)
    ensures var b := Run(c, now, events + [Reset(t)]);
            && b.state.Closed?
            && (b.currentBackoff == c.initialBackoff <==>
                  || Openings(c, now, events) == 0
                  || c.initialBackoff == c.maxBackoff
                  || (c.multiplier == 1 && c.initialBackoff <= c.maxBackoff))
  {
    BackoffFollowsOpenings(c, now, events);
    assert (events + [Reset(t)])[..|events|] == events;
    InitialAgain(c, Openings(c, now, events));
  }

  /** Failures of a new breaker, one after the other, up to the one that opens it. */
  lemma {:induction false} FailuresOpen(c: Config, now: int, n: nat)
    requires n >= 1 && (n > 1 ==> n <= c.maxFailures)
    ensures var events := seq(n, _ => RecordFailure(now));
            && Run(c, now, events).failures == n
            && Run(c, now, events).state == (if n >= c.maxFailures then Open else Closed)
            && Openings(c, now, events) == if n >= c.maxFailures then 1 else 0
  {
    var events := seq(n, _ => RecordFailure(now));
    if n == 1 {
      assert events[..0] == [];
      assert Run(c, now, []) == New(c, now) && Openings(c, now, []) == 0;
    } else {
      FailuresOpen(c, now, n - 1);
      assert events[..n - 1] == seq(n - 1, _ => RecordFailure(now));
    }
  }

  /** A breaker as it is made can be closed by a reset with a stale wait, whatever its limit of
      failures, exactly if it was not made to wait ten minutes from the start. */
  lemma {:induction false} StaleBackoffIsReachable(maxFailures: int, resetTimeout: int, now: int)
    ensures var c := Settings(maxFailures, resetTimeout);
            (exists events, t :: Run(c, now, events + [Reset(t)]).currentBackoff != c.initialBackoff) <==>
            c.initialBackoff != 600 * SECOND
  {
    var c := Settings(maxFailures, resetTimeout);
    var n := if maxFailures <= 1 then 1 else maxFailures;
    var events := seq(n, _ => RecordFailure(now));
    FailuresOpen(c, now, n);
    ResetKeepsStaleBackoff(c, now, events, now);
    forall events, t
      ensures c.initialBackoff == 600 * SECOND ==>
                Run(c, now, events + [Reset(t)]).currentBackoff == c.initialBackoff
    {
      ResetKeepsStaleBackoff(c, now, events, t);
    }
    assert c.initialBackoff != 600 * SECOND ==>
        Run(c, now, events + [Reset(now)]).currentBackoff != c.initialBackoff;
  }

  /** A breaker as it is made, after it opened for the first time, admits a call exactly if more time has
      passed since the last failure than twice half the reset timeout, but at least ten seconds
      and at most ten minutes. */
  lemma {:induction false} FirstWait(maxFailures: int, resetTimeout: int, now: int, events: seq<Event>, t: int)
    requires var c := Settings(maxFailures, resetTimeout);
             Run(c, now, events).state.Open? && Openings(c, now, events) == 1
    ensures var b := Run(Settings(maxFailures, resetTimeout), now, events);
            var half := if resetTimeout < 10_000_000_000 then 5_000_000_000 else resetTimeout / 2;
            Admits(b, t) <==>
            t - b.lastFailTime > if 2 * half > 600_000_000_000 then 600_000_000_000 else 2 * half
  {
    var c := Settings(maxFailures, resetTimeout);
    BackoffFollowsOpenings(c, now, events);
    assert Wait(c, 0) == c.initialBackoff;
    assert Wait(c, 1) == Min(c.initialBackoff * 2, c.maxBackoff);
  }

  /** Failures in a row do open it for the first time. */
  lemma {:induction false} FirstOpening(maxFailures: int, resetTimeout: int, now: int)
    ensures var c := Settings(maxFailures, resetTimeout);
            exists events :: Run(c, now, events).state.Open? && Openings(c, now, events) == 1
  {
    var c := Settings(maxFailures, resetTimeout);
    var n := if maxFailures <= 1 then 1 else maxFailures;
    FailuresOpen(c, now, n);
    var events := seq(n, _ => RecordFailure(now));
    assert Run(c, now, events).state.Open?;
  }

  /** Whatever reset timeout a breaker is made with, an open circuit refuses every call for ten
      seconds after the last failure: the wait starts at five seconds or more, and is doubled
      before it is first used. */
  lemma {:induction false} OpenForTenSeconds(maxFailures: int, resetTimeout: int, now: int, events: seq<Event>, t: int)
    ensures var b := Run(Settings(maxFailures, resetTimeout), now, events);
            && b.currentBackoff >= 5 * SECOND
            && (b.state.Open? ==> b.currentBackoff >= 10 * SECOND)
            && (b.state.Open? && t <= b.lastFailTime + 10 * SECOND ==> !Admits(b, t))
  {
    if events != [] {
      OpenForTenSeconds(maxFailures, resetTimeout, now, events[..|events| - 1], t);
    }
  }

  // ----- the same breaker read off its history -----

  /** When the last failure was recorded. */
  function LastFailureOf(events: seq<Event>): int {
    if events == [] then 0
    else if events[|events| - 1].RecordFailure? then events[|events| - 1].now
    else LastFailureOf(events[..|events| - 1])
  }

  /** Failures since the last success in CLOSED, the last close, or the last reset. */
  function FailuresOf(c: Config, events: seq<Event>): nat
    requires Usable(c)
    decreases |events|, 2
  {
    if events == [] then 0
    else
      var before := events[..|events| - 1];
      match events[|events| - 1]
      case Allow(_) => FailuresOf(c, before)
      case RecordFailure(_) => FailuresOf(c, before) + 1
      case RecordSuccess(_) => if StateOf(c, events).Closed? then 0 else FailuresOf(c, before)
      case Reset(_) => 0
  }

  /** Successes, in whatever state, since the last failure, close or reset. */
  function SuccessesOf(c: Config, events: seq<Event>): nat
    requires Usable(c)
    decreases |events|, 0
  {
    if events == [] then 0
    else
      var before := events[..|events| - 1];
      match events[|events| - 1]
      case Allow(_) => SuccessesOf(c, before)
      case RecordFailure(_) => 0
      case RecordSuccess(_) => if Closes(c, before) then 0 else SuccessesOf(c, before) + 1
      case Reset(_) => 0
  }

  /** A success would now close the circuit. */
  predicate Closes(c: Config, events: seq<Event>)
    requires Usable(c)
    decreases |events|, 2
  {
    StateOf(c, events).HalfOpen? && SuccessesOf(c, events) + 1 >= c.halfOpenSuccesses
  }

  function OpeningsOf(c: Config, events: seq<Event>): nat
    requires Usable(c)
    decreases |events|, 3
  {
    if events == [] then 0
    else
      var before := events[..|events| - 1];
      if events[|events| - 1].RecordSuccess? && StateOf(c, events).Closed? then 0
      else OpeningsOf(c, before) + if StateOf(c, events).Open? && !StateOf(c, before).Open? then 1 else 0
  }

  function StateOf(c: Config, events: seq<Event>): State
    requires Usable(c)
    decreases |events|, 1
  {
    if events == [] then Closed
    else
      var before := events[..|events| - 1];
      match events[|events| - 1]
      case Allow(now) =>
        if StateOf(c, before).Open? && now - LastFailureOf(before) > Wait(c, OpeningsOf(c, before)) then HalfOpen
        else StateOf(c, before)
      case RecordFailure(_) =>
        if StateOf(c, before).HalfOpen? || FailuresOf(c, before) + 1 >= c.maxFailures then Open
        else StateOf(c, before)
      case RecordSuccess(_) => if Closes(c, before) then Closed else StateOf(c, before)
      case Reset(_) => Closed
  }

  function LastChangeOf(c: Config, now: int, events: seq<Event>): int
    requires Usable(c)
  {
    if events == [] then now
    else
      var before := events[..|events| - 1];
      if events[|events| - 1].Reset? || StateOf(c, events) != StateOf(c, before) then events[|events| - 1].now
      else LastChangeOf(c, now, before)
  }

  /** In every run, every field of the breaker is what the history says. */
  lemma {:induction false} HistoryDecides(c: Config, now: int, events: seq<Event>)
    requires Usable(c)
    ensures var b := Run(c, now, events);
            && b.state == StateOf(c, events)
            && b.failures == FailuresOf(c, events)
            && b.successes == SuccessesOf(c, events)
            && b.lastFailTime == LastFailureOf(events)
            && b.lastStateTime == LastChangeOf(c, now, events)
            && Openings(c, now, events) == OpeningsOf(c, events)
            && b.currentBackoff == Wait(c, OpeningsOf(c, events))
  {
    BackoffFollowsOpenings(c, now, events);
    if events != [] {
      var before := events[..|events| - 1];
      HistoryDecides(c, now, before);
      BackoffFollowsOpenings(c, now, before);
    }
  }

  function Successes(c: Config, b: Breaker, n: nat, now: int): Breaker {
    if n == 0 then b else Succeeded(c, Successes(c, b, n - 1, now), now)
  }

  lemma {:induction false} SuccessesWhileOpen(c: Config, b: Breaker, n: nat, now: int)
    requires b.state.Open?
    ensures Successes(c, b, n, now) == b.(successes := b.successes + n)
  {
    if n > 0 {
      SuccessesWhileOpen(c, b, n - 1, now);
    }
  }

  /** Calls that end well after the circuit opened still count: n such late successes, a probe
      after the wait, and one success close the circuit exactly when n + 1 reaches the required
      number. So under interleaving a single probe can close it, where `Call` used sequentially
      needs `halfOpenSuccesses` of them. */
  lemma {:induction false} LateSuccessesCount(c: Config, b: Breaker, n: nat, t: int, probe: int)
    requires Usable(c) && b.state.HalfOpen?
    requires probe - t > Failed(c, b, t).currentBackoff
    ensures var open := Failed(c, b, t);
            var tried := Succeeded(c, Allowed(Successes(c, open, n, t), probe), probe);
            open.state.Open? && (tried.state.Closed? <==> n + 1 >= c.halfOpenSuccesses)
  {
    SuccessesWhileOpen(c, Failed(c, b, t), n, t);
  }

  class CircuitBreaker {
    const config: Config
    var state: State
    var failures: int
    var successes: int
    var currentBackoff: int
    var lastFailTime: int
    var lastStateTime: int

    function View(): Breaker
      reads this
    {
      Breaker(state, failures, successes, currentBackoff, lastFailTime, lastStateTime)
    }

    constructor (maxFailures: int, resetTimeout: int, now: int)
      ensures config == Settings(maxFailures, resetTimeout)
      ensures config.maxFailures == maxFailures && config.halfOpenSuccesses == 3 && config.multiplier == 2
      ensures config.initialBackoff == if resetTimeout < 10_000_000_000 then 5_000_000_000 else resetTimeout / 2
      ensures config.maxBackoff == 600_000_000_000
      ensures View() == New(config, now)
    {
      var initialBackoff := resetTimeout / 2;
      if initialBackoff < 5 * SECOND {
        initialBackoff := 5 * SECOND;
      }
      config := Config(maxFailures, 3, initialBackoff, 600 * SECOND, 2);
      state, failures, successes := Closed, 0, 0;
      currentBackoff, lastFailTime, lastStateTime := initialBackoff, 0, now;
    }

    method Call(t0: int, t1: int, ok: bool) returns (ran: bool)
      modifies this
      ensures ran <==> Admits(old(View()), t0)
      ensures View() == Called(config, old(View()), t0, t1, ok)
    {
      ran := Allow(t0);
      if !ran {
        return;
      }
      if !ok {
        RecordFailure(t1);
        return;
      }
      RecordSuccess(t1);
    }

    method Allow(now: int) returns (allowed: bool)
      modifies this
      ensures allowed <==> Admits(old(View()), now)
      ensures View() == Allowed(old(View()), now)
    {
      match state {
        case Closed =>
          return true;
        case Open =>
          if now - lastFailTime > currentBackoff {
            SetState(HalfOpen, now);
            return true;
          }
          return false;
        case HalfOpen =>
          return true;
      }
    }

    method RecordSuccess(now: int)
      modifies this
      ensures View() == Succeeded(config, old(View()), now)
    {
      successes := successes + 1;
      match state {
        case Closed =>
          failures := 0;
          currentBackoff := config.initialBackoff;
        case HalfOpen =>
          if successes >= config.halfOpenSuccesses {
            SetState(Closed, now);
            failures := 0;
            successes := 0;
            currentBackoff := config.initialBackoff;
          }
        case Open =>
      }
    }

    method RecordFailure(now: int)
      modifies this
      ensures View() == Failed(config, old(View()), now)
    {
      failures := failures + 1;
      lastFailTime := now;
      successes := 0;
      match state {
        case Closed =>
          if failures >= config.maxFailures {
            SetState(Open, now);
            currentBackoff := currentBackoff * config.multiplier;
            if currentBackoff > config.maxBackoff {
              currentBackoff := config.maxBackoff;
            }
          }
        case HalfOpen =>
          SetState(Open, now);
          currentBackoff := currentBackoff * config.multiplier;
          if currentBackoff > config.maxBackoff {
            currentBackoff := config.maxBackoff;
          }
        case Open =>
      }
    }

    method SetState(newState: State, now: int)
      modifies this
      ensures View() == Set(old(View()), newState, now)
    {
      if state != newState {
        state := newState;
        lastStateTime := now;
      }
    }

    method Reset(now: int)
      modifies this
      ensures View() == Cleared(old(View()), now)
    {
      state := Closed;
      failures := 0;
      successes := 0;
      lastStateTime := now;
    }
  }
}
