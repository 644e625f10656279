/** The v2 circuit breaker: one value function for each region of code that runs under the
    breaker's lock, and the class whose methods are those regions. */
module BreakerV2 {
  import opened Backoff
  import opened CircuitState

  datatype Config = Config(
    enabled: bool,
    maxFailures: int,
    halfOpenSuccesses: int,
    initialBackoff: int,
    maxBackoff: int,
    multiplier: int)

  /** Fills in the defaults for the settings that were left at zero. */
  function WithDefaults(c: Config): Config {
    c.(initialBackoff := if c.initialBackoff == 0 then 5 * SECOND else c.initialBackoff,
       maxBackoff := if c.maxBackoff == 0 then 300 * SECOND else c.maxBackoff,
       multiplier := if c.multiplier == 0 then 2 else c.multiplier,
       halfOpenSuccesses := if c.halfOpenSuccesses == 0 then 3 else c.halfOpenSuccesses)
  }

  /** Settings after defaulting: no negative durations or counts were configured. */
  predicate Usable(c: Config) {
    c.halfOpenSuccesses >= 1 && c.initialBackoff >= 1 && c.maxBackoff >= 1 && c.multiplier >= 1
  }

  function Wait(c: Config, k: nat): nat
    requires Usable(c)
  {
    After(c.initialBackoff, c.multiplier, c.maxBackoff, k)
  }

  datatype Breaker = Breaker(
    state: State,
    failures: int,
    consecutiveSuccesses: int,
    lastFailureTime: int,
    lastStateChange: int,
    currentBackoff: int,
    totalCalls: nat,
    totalFailures: nat,
    totalSuccesses: nat,
    totalRejected: nat,
    stateChanges: nat)

  function New(c: Config, now: int): Breaker {
    Breaker(Closed, 0, 0, 0, now, c.initialBackoff, 0, 0, 0, 0, 0)
  }

  // ----- the regions that run under the lock -----

  /** What the read-locked part of `allowRequest` decides. `Upgrade` means that the backoff has
      elapsed and the caller goes on to the write-locked double check. */
  datatype Decision = Admit | Upgrade | Refuse

  function Decide(b: Breaker, now: int): Decision {
    match b.state
    case Closed => Admit
    case HalfOpen => Admit
    case Open => if now - b.lastFailureTime >= b.currentBackoff then Upgrade else Refuse
  }

  function Transition(b: Breaker, s: State, now: int): Breaker {
    if b.state == s then b
    else b.(state := s, lastStateChange := now, stateChanges := b.stateChanges + 1)
  }

  function Upgraded(b: Breaker, now: int): Breaker {
    if b.state.Open? then Transition(b, HalfOpen, now) else b
  }

  function Counted(b: Breaker): Breaker {
    b.(totalCalls := b.totalCalls + 1)
  }

  function Rejected(b: Breaker): Breaker {
    b.(totalRejected := b.totalRejected + 1)
  }

  function Increased(c: Config, b: Breaker): Breaker {
    b.(currentBackoff := Min(b.currentBackoff * c.multiplier, c.maxBackoff))
  }

  function Succeeded(c: Config, b: Breaker, now: int): Breaker {
    var b1 := b.(totalSuccesses := b.totalSuccesses + 1);
    match b.state
    case Closed => b1.(failures := 0, consecutiveSuccesses := b.consecutiveSuccesses + 1)
    case Open => b1
    case HalfOpen =>
      var b2 := b1.(failures := 0, consecutiveSuccesses := b.consecutiveSuccesses + 1);
      if b2.consecutiveSuccesses >= c.halfOpenSuccesses then
        Transition(b2, Closed, now).(consecutiveSuccesses := 0, currentBackoff := c.initialBackoff)
      else b2
  }

  function Failed(c: Config, b: Breaker, now: int): Breaker {
    var b1 := b.(totalFailures := b.totalFailures + 1, failures := b.failures + 1,
                 consecutiveSuccesses := 0, lastFailureTime := now);
    match b.state
    case Closed => if b1.failures >= c.maxFailures then Increased(c, Transition(b1, Open, now)) else b1
    case Open => b1
    case HalfOpen => Increased(c, Transition(b1, Open, now))
  }

  function Cleared(c: Config, b: Breaker, now: int): Breaker {
    b.(state := Closed, failures := 0, consecutiveSuccesses := 0,
       currentBackoff := c.initialBackoff, lastStateChange := now)
  }

  // ----- sequential use -----

  /** The call as its caller sees it. */
  datatype Outcome = Ran(ok: bool) | Refused

  predicate Admits(c: Config, b: Breaker, now: int) {
    !c.enabled || Decide(b, now) != Refuse
  }

  /** A breaker that is switched off runs every call and never changes. */
  lemma {:induction false} SwitchedOff(c: Config, b: Breaker, t0: int, t1: int, ok: bool)
    requires !c.enabled
    ensures Admits(c, b, t0) && Executed(c, b, t0, t1, ok) == b
  {
  }

  /** One `Execute` with nobody else about: the admission reads the clock at `t0`, the function
      ends at `t1`. */
  function Executed(c: Config, b: Breaker, t0: int, t1: int, ok: bool): Breaker {
    if !c.enabled then b
    else if !Admits(c, b, t0) then Rejected(b)
    else
      var b1 := Counted(Upgraded(b, t0));
      if ok then Succeeded(c, b1, t1) else Failed(c, b1, t1)
  }

  class CircuitBreaker {
    const config: Config
    var state: State
    var failures: int
    var consecutiveSuccesses: int
    var lastFailureTime: int
    var lastStateChange: int
    var currentBackoff: int
    var totalCalls: nat
    var totalFailures: nat
    var totalSuccesses: nat
    var totalRejected: nat
    var stateChanges: nat

    function View(): Breaker
      reads this
    {
      Breaker(state, failures, consecutiveSuccesses, lastFailureTime, lastStateChange, currentBackoff,
              totalCalls, totalFailures, totalSuccesses, totalRejected, stateChanges)
    }

    constructor (config: Config, now: int)
      ensures this.config == WithDefaults(config)
      ensures this.config.enabled == config.enabled && this.config.maxFailures == config.maxFailures
      ensures this.config.initialBackoff == if config.initialBackoff == 0 then 5_000_000_000 else config.initialBackoff
      ensures this.config.maxBackoff == if config.maxBackoff == 0 then 300_000_000_000 else config.maxBackoff
      ensures this.config.multiplier == if config.multiplier == 0 then 2 else config.multiplier
      ensures this.config.halfOpenSuccesses == if config.halfOpenSuccesses == 0 then 3 else config.halfOpenSuccesses
      ensures View() == New(this.config, now)
      ensures state == Closed && currentBackoff == this.config.initialBackoff && lastStateChange == now
    {
      var c := WithDefaults(config);
      this.config := c;
      state := Closed;
      failures, consecutiveSuccesses, lastFailureTime := 0, 0, 0;
      lastStateChange := now;
      currentBackoff := c.initialBackoff;
      totalCalls, totalFailures, totalSuccesses, totalRejected, stateChanges := 0, 0, 0, 0, 0;
    }

    method Execute(t0: int, t1: int, ok: bool) returns (r: Outcome)
      modifies this
      ensures View() == Executed(config, old(View()), t0, t1, ok)
      ensures r == if Admits(config, old(View()), t0) then Ran(ok) else Refused
      ensures !config.enabled ==> r == Ran(ok) && View() == old(View())
      ensures r.Refused? <==> config.enabled && old(state).Open? && t0 - old(lastFailureTime) < old(currentBackoff)
    {
      if !config.enabled {
        return Ran(ok);
      }
      var allowed := AllowRequest(t0);
      if !allowed {
        totalRejected := totalRejected + 1;
        return Refused;
      }
      totalCalls := totalCalls + 1;
      if !ok {
        OnFailure(t1);
        return Ran(false);
      }
      OnSuccess(t1);
      return Ran(true);
    }

    method AllowRequest(now: int) returns (allowed: bool)
      modifies this
      ensures allowed <==> Decide(old(View()), now) != Refuse
      ensures View() == if Decide(old(View()), now).Upgrade? then Upgraded(old(View()), now) else old(View())
    {
      match state {
        case Closed =>
          return true;
        case Open =>
          if now - lastFailureTime >= currentBackoff {
            if state == Open {
              TransitionTo(HalfOpen, now);
            }
            return true;
          }
          return false;
        case HalfOpen =>
          return true;
      }
    }

    method OnSuccess(now: int)
      modifies this
      ensures View() == Succeeded(config, old(View()), now)
    {
      totalSuccesses := totalSuccesses + 1;
      match state {
        case Closed =>
          failures := 0;
          consecutiveSuccesses := consecutiveSuccesses + 1;
        case HalfOpen =>
          consecutiveSuccesses := consecutiveSuccesses + 1;
          failures := 0;
          if consecutiveSuccesses >= config.halfOpenSuccesses {
            TransitionTo(Closed, now);
            consecutiveSuccesses := 0;
            currentBackoff := config.initialBackoff;
          }
        case Open =>
      }
    }

    method OnFailure(now: int)
      modifies this
      ensures View() == Failed(config, old(View()), now)
    {
      totalFailures := totalFailures + 1;
      failures := failures + 1;
      consecutiveSuccesses := 0;
      lastFailureTime := now;
      match state {
        case Closed =>
          if failures >= config.maxFailures {
            TransitionTo(Open, now);
            IncreaseBackoff();
          }
        case HalfOpen =>
          TransitionTo(Open, now);
          IncreaseBackoff();
        case Open =>
      }
    }

    method TransitionTo(newState: State, now: int)
      modifies this
      ensures View() == Transition(old(View()), newState, now)
    {
      if state == newState {
        return;
      }
      state := newState;
      lastStateChange := now;
      stateChanges := stateChanges + 1;
    }

    method IncreaseBackoff()
      modifies this
      ensures View() == Increased(config, old(View()))
      ensures currentBackoff == if old(currentBackoff) * config.multiplier > config.maxBackoff then config.maxBackoff
                                else old(currentBackoff) * config.multiplier
    {
      currentBackoff := currentBackoff * config.multiplier;
      if currentBackoff > config.maxBackoff {
        currentBackoff := config.maxBackoff;
      }
    }

    /** How long a caller of an open circuit has to wait: from then on, and not before, it is let
        through. Nobody has to wait for a circuit that is not open. */
    method RemainingWait(now: int) returns (remaining: int)
      ensures remaining >= 0
      ensures !state.Open? ==> remaining == 0
      ensures state.Open? ==> forall t :: t >= now ==> (Decide(View(), t).Upgrade? <==> t >= now + remaining)
    {
      if state != Open {
        return 0;
      }
      var elapsed := now - lastFailureTime;
      remaining := currentBackoff - elapsed;
      if remaining < 0 {
        return 0;
      }
    }

    method Reset(now: int)
      modifies this
      ensures View() == Cleared(config, old(View()), now)
    {
      state := Closed;
      failures := 0;
      consecutiveSuccesses := 0;
      currentBackoff := config.initialBackoff;
      lastStateChange := now;
    }
  }
}
