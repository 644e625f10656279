/** The v2 breaker under any number of concurrent callers. `Execute` is not atomic: it is a
    read-locked check, perhaps a write-locked double check, a locked count, the protected call
    itself, and a locked recording of its outcome. An event below is one of those regions, run by
    one of the callers that are waiting at that point; callers are told apart only by where they
    are, so they are counted. An event for which nobody is waiting changes nothing, so every
    sequence of events is a run. */
module BreakerInterleaving {
  import opened Backoff
  import opened BreakerV2
  import opened CircuitState

  datatype Event =
    | Check(now: int)
    | DoubleCheck(now: int)
    | CountCall
    | Succeed(now: int)
    | Fail(now: int)
    | CountRejection
    | Reset(now: int)

  /** What happened to the state: a counted change, or a manual reset. */
  datatype Change = Edge(from: State, to: State) | Jump(from: State)

  datatype System = System(
    b: Breaker,
    upgrading: nat,   // past the check of an open circuit, before its double check
    admitted: nat,    // allowed, not yet counted
    inFlight: nat,    // counted, outcome not yet recorded
    refused: nat,     // refused, not yet counted
    history: seq<Change>)

  function Start(c: Config, now: int): System {
    System(New(c, now), 0, 0, 0, 0, [])
  }

  function Changed(s: System, b: Breaker): System {
    s.(b := b, history := if s.b.state == b.state then s.history else s.history + [Edge(s.b.state, b.state)])
  }

  function Step(c: Config, s: System, e: Event): System {
    match e
    case Check(now) => (
      match Decide(s.b, now)
      case Admit => s.(admitted := s.admitted + 1)
      case Upgrade => s.(upgrading := s.upgrading + 1)
      case Refuse => s.(refused := s.refused + 1))
    case DoubleCheck(now) =>
      if s.upgrading == 0 then s
      else Changed(s.(upgrading := s.upgrading - 1, admitted := s.admitted + 1), Upgraded(s.b, now))
    case CountCall =>
      if s.admitted == 0 then s
      else Changed(s.(admitted := s.admitted - 1, inFlight := s.inFlight + 1), Counted(s.b))
    case Succeed(now) =>
      if s.inFlight == 0 then s
      else Changed(s.(inFlight := s.inFlight - 1), Succeeded(c, s.b, now))
    case Fail(now) =>
      if s.inFlight == 0 then s
      else Changed(s.(inFlight := s.inFlight - 1), Failed(c, s.b, now))
    case CountRejection =>
      if s.refused == 0 then s
      else Changed(s.(refused := s.refused - 1), Rejected(s.b))
    case Reset(now) =>
      s.(b := Cleared(c, s.b, now), history := s.history + [Jump(s.b.state)])
  }

  function Run(c: Config, now: int, events: seq<Event>): System {
    if events == [] then Start(c, now)
    else Step(c, Run(c, now, events[..|events| - 1]), events[|events| - 1])
  }

  // ----- reading the history -----

  predicate LegalEdge(e: Change) {
    e in {Edge(Closed, Open), Edge(Open, HalfOpen), Edge(HalfOpen, Open), Edge(HalfOpen, Closed)}
  }

  function Target(x: Change): State {
    if x.Edge? then x.to else Closed
  }

  function StateAfter(h: seq<Change>): State {
    if h == [] then Closed else Target(h[|h| - 1])
  }

  /** Every change starts where the one before it ended, and only the four edges of the state
      diagram are taken. */
  predicate Legal(h: seq<Change>) {
    h == [] || (
      var x := h[|h| - 1];
      Legal(h[..|h| - 1]) && x.from == StateAfter(h[..|h| - 1]) && (x.Edge? ==> LegalEdge(x)))
  }

  function Edges(h: seq<Change>): nat {
    if h == [] then 0 else Edges(h[..|h| - 1]) + if h[|h| - 1].Edge? then 1 else 0
  }

  /** How often the circuit opened since it last closed or was reset. */
  function Openings(h: seq<Change>): nat {
    if h == [] then 0
    else match Target(h[|h| - 1])
         case Closed => 0
         case Open => Openings(h[..|h| - 1]) + 1
         case HalfOpen => Openings(h[..|h| - 1])
  }

  // ----- what holds in every reachable state -----

  predicate CountersBalance(s: System) {
    s.b.totalCalls == s.b.totalSuccesses + s.b.totalFailures + s.inFlight
  }

  predicate StateBounds(c: Config, b: Breaker) {
    && 0 <= b.failures <= b.totalFailures
    && 0 <= b.consecutiveSuccesses <= b.totalSuccesses
    && (b.state.Closed? ==> b.failures == 0 || b.failures < c.maxFailures)
    && (b.state.Open? ==> b.consecutiveSuccesses == 0 && b.failures >= 1)
    && (b.state.HalfOpen? ==> b.consecutiveSuccesses < c.halfOpenSuccesses)
  }

  predicate HistoryMatches(s: System) {
    Legal(s.history) && StateAfter(s.history) == s.b.state && s.b.stateChanges == Edges(s.history)
  }

  predicate BackoffMatches(c: Config, s: System)
    requires Usable(c)
  {
    && s.b.currentBackoff == Wait(c, Openings(s.history))
    && (s.b.state.Closed? <==> Openings(s.history) == 0)
  }

  lemma {:induction false} HistoryExtended(h: seq<Change>, x: Change)
    ensures (h + [x])[..|h|] == h
    ensures Openings(h + [x]) == match Target(x)
                                 case Closed => 0
                                 case Open => Openings(h) + 1
                                 case HalfOpen => Openings(h)
    ensures Edges(h + [x]) == Edges(h) + if x.Edge? then 1 else 0
    ensures Legal(h + [x]) <==> Legal(h) && x.from == StateAfter(h) && (x.Edge? ==> LegalEdge(x))
    ensures StateAfter(h + [x]) == Target(x)
  {
    assert (h + [x])[..|h|] == h;
  }

  lemma {:induction false} StepKeepsCounters(c: Config, s: System, e: Event)
    requires Usable(c) && CountersBalance(s) && StateBounds(c, s.b)
    ensures CountersBalance(Step(c, s, e)) && StateBounds(c, Step(c, s, e).b)
  {
  }

  /** What a step that is not a reset can do to the state: nothing, or one counted edge, which moves
      the backoff as that edge should. */
  predicate Moves(c: Config, s: System, s': System) {
    if s'.b.state == s.b.state then
      s'.history == s.history && s'.b.stateChanges == s.b.stateChanges && s'.b.currentBackoff == s.b.currentBackoff
    else
      && s'.history == s.history + [Edge(s.b.state, s'.b.state)]
      && s'.b.stateChanges == s.b.stateChanges + 1
      && LegalEdge(Edge(s.b.state, s'.b.state))
      && s'.b.currentBackoff == match s'.b.state
                                case Closed => c.initialBackoff
                                case Open => Min(s.b.currentBackoff * c.multiplier, c.maxBackoff)
                                case HalfOpen => s.b.currentBackoff
  }

  lemma {:induction false} StepMoves(c: Config, s: System, e: Event)
    requires !e.Reset?
    ensures Moves(c, s, Step(c, s, e))
  {
  }

  lemma {:induction false} StepKeepsHistory(c: Config, s: System, e: Event)
    requires HistoryMatches(s)
    ensures HistoryMatches(Step(c, s, e))
  {
    var s' := Step(c, s, e);
    if e.Reset? {
      HistoryExtended(s.history, Jump(s.b.state));
    } else {
      StepMoves(c, s, e);
      HistoryExtended(s.history, Edge(s.b.state, s'.b.state));
    }
  }

  lemma {:induction false} EdgeKeepsBackoff(c: Config, h: seq<Change>, b: Breaker, b': Breaker)
    requires Usable(c) && LegalEdge(Edge(b.state, b'.state))
    requires b.currentBackoff == Wait(c, Openings(h))
    requires b'.currentBackoff == match b'.state
                                  case Closed => c.initialBackoff
                                  case Open => Min(b.currentBackoff * c.multiplier, c.maxBackoff)
                                  case HalfOpen => b.currentBackoff
    requires b.state.Closed? <==> Openings(h) == 0
    ensures b'.currentBackoff == Wait(c, Openings(h + [Edge(b.state, b'.state)]))
    ensures b'.state.Closed? <==> Openings(h + [Edge(b.state, b'.state)]) == 0
  {
    HistoryExtended(h, Edge(b.state, b'.state));
  }

  lemma {:induction false} StepKeepsBackoff(c: Config, s: System, e: Event)
    requires Usable(c) && BackoffMatches(c, s)
    ensures BackoffMatches(c, Step(c, s, e))
  {
    var s' := Step(c, s, e);
    if e.Reset? {
      HistoryExtended(s.history, Jump(s.b.state));
    } else {
      StepMoves(c, s, e);
      if s'.b.state != s.b.state {
        EdgeKeepsBackoff(c, s.history, s.b, s'.b);
      }
    }
  }

  /** In every run, with any interleaving and any resets: calls are successes plus failures plus
      calls in flight; the counters respect the bounds of the current state; the counted changes
      are exactly a path through the four edges; and the backoff is the one that k
      openings lead to, where k counts the openings since the last close or reset. */
  lemma {:induction false} AlwaysInvariant(c: Config, now: int, events: seq<Event>)
    requires Usable(c)
    ensures var s := Run(c, now, events);
            CountersBalance(s) && StateBounds(c, s.b) && HistoryMatches(s) && BackoffMatches(c, s)
  {
    if events != [] {
      var before := events[..|events| - 1];
      AlwaysInvariant(c, now, before);
      StepKeepsCounters(c, Run(c, now, before), events[|events| - 1]);
      StepKeepsHistory(c, Run(c, now, before), events[|events| - 1]);
      StepKeepsBackoff(c, Run(c, now, before), events[|events| - 1]);
    }
  }

  /** The backoff in every reachable state as a formula. */
  lemma {:induction false} BackoffClosedForm(c: Config, now: int, events: seq<Event>)
    requires Usable(c)
    ensures var s := Run(c, now, events);
            var k := Openings(s.history);
            && (s.b.state.Closed? ==> k == 0)
            && s.b.currentBackoff == if k == 0 then c.initialBackoff
                                     else Min(c.initialBackoff * Pow(c.multiplier, k), c.maxBackoff)
  {
    AlwaysInvariant(c, now, events);
    var k := Openings(Run(c, now, events).history);
    if k > 0 {
      ClosedForm(c.initialBackoff, c.multiplier, c.maxBackoff, k);
    }
  }

  // ----- the same breaker read off its history -----

  /** Somebody is waiting to take this step. */
  predicate Taken(s: System, e: Event) {
    match e
    case Check(_) => true
    case DoubleCheck(_) => s.upgrading > 0
    case CountCall => s.admitted > 0
    case Succeed(_) => s.inFlight > 0
    case Fail(_) => s.inFlight > 0
    case CountRejection => s.refused > 0
    case Reset(_) => true
  }

  predicate TakenIn(c: Config, now: int, events: seq<Event>)
    requires events != []
  {
    Taken(Run(c, now, events[..|events| - 1]), events[|events| - 1])
  }

  datatype Kind = Calls | Successes | Failures | Rejections

  predicate Is(e: Event, kind: Kind) {
    match kind
    case Calls => e.CountCall?
    case Successes => e.Succeed?
    case Failures => e.Fail?
    case Rejections => e.CountRejection?
  }

  /** How often a step of some kind was taken. */
  function Count(c: Config, now: int, events: seq<Event>, kind: Kind): nat {
    if events == [] then 0
    else Count(c, now, events[..|events| - 1], kind)
         + if Is(events[|events| - 1], kind) && TakenIn(c, now, events) then 1 else 0
  }

  /** When the last failure was recorded, whatever the state was then. */
  function LastFailureOf(c: Config, now: int, events: seq<Event>): int {
    if events == [] then 0
    else if events[|events| - 1].Fail? && TakenIn(c, now, events) then events[|events| - 1].now
    else LastFailureOf(c, now, events[..|events| - 1])
  }

  /** Failures since the last reset and the last success that did not come while open. */
  function FailuresOf(c: Config, now: int, events: seq<Event>): nat
    decreases |events|, 0
  {
    if events == [] then 0
    else
      var before := events[..|events| - 1];
      match events[|events| - 1]
      case Reset(_) => 0
      case Fail(_) => FailuresOf(c, now, before) + if TakenIn(c, now, events) then 1 else 0
      case Succeed(_) =>
        if TakenIn(c, now, events) && !StateOf(c, now, before).Open? then 0 else FailuresOf(c, now, before)
      case _ => FailuresOf(c, now, before)
  }

  /** Successes that did not come while open, since the last failure, reset or close. */
  function SuccessesOf(c: Config, now: int, events: seq<Event>): nat
    decreases |events|, 0
  {
    if events == [] then 0
    else
      var before := events[..|events| - 1];
      match events[|events| - 1]
      case Reset(_) => 0
      case Fail(_) => if TakenIn(c, now, events) then 0 else SuccessesOf(c, now, before)
      case Succeed(_) =>
        if !TakenIn(c, now, events) || StateOf(c, now, before).Open? then SuccessesOf(c, now, before)
        else if Closes(c, now, before) then 0
        else SuccessesOf(c, now, before) + 1
      case _ => SuccessesOf(c, now, before)
  }

  predicate Closes(c: Config, now: int, events: seq<Event>)
    decreases |events|, 2
  {
    StateOf(c, now, events).HalfOpen? && SuccessesOf(c, now, events) + 1 >= c.halfOpenSuccesses
  }

  function StateOf(c: Config, now: int, events: seq<Event>): State
    decreases |events|, 1
  {
    if events == [] then Closed
    else
      var before := events[..|events| - 1];
      var was := StateOf(c, now, before);
      match events[|events| - 1]
      case Reset(_) => Closed
      case DoubleCheck(_) => if TakenIn(c, now, events) && was.Open? then HalfOpen else was
      case Fail(_) =>
        if TakenIn(c, now, events) &&
           (was.HalfOpen? || (was.Closed? && FailuresOf(c, now, before) + 1 >= c.maxFailures))
        then Open else was
      case Succeed(_) => if TakenIn(c, now, events) && Closes(c, now, before) then Closed else was
      case _ => was
  }

  function LastChangeOf(c: Config, now: int, events: seq<Event>): int {
    if events == [] then now
    else
      var before, e := events[..|events| - 1], events[|events| - 1];
      if e.Reset? then e.now
      else if e.CountCall? || e.CountRejection? || StateOf(c, now, events) == StateOf(c, now, before) then
        LastChangeOf(c, now, before)
      else e.now
  }

  /** What a step makes of the fields that the readings are about. */
  lemma {:induction false} StepFields(c: Config, s: System, e: Event)
    ensures var b, b', taken := s.b, Step(c, s, e).b, Taken(s, e);
            && b'.failures == (if e.Reset? then 0
                               else if e.Fail? && taken then b.failures + 1
                               else if e.Succeed? && taken && !b.state.Open? then 0
                               else b.failures)
            && b'.lastFailureTime == (if e.Fail? && taken then e.now else b.lastFailureTime)
            && b'.lastStateChange == (if e.Reset? || b'.state != b.state then e.now else b.lastStateChange)
            && (e.CountCall? || e.CountRejection? ==> b'.state == b.state)
  {
  }

  lemma {:induction false} StepState(c: Config, s: System, e: Event)
    ensures var b, b', taken := s.b, Step(c, s, e).b, Taken(s, e);
            var closes := b.state.HalfOpen? && b.consecutiveSuccesses + 1 >= c.halfOpenSuccesses;
            && b'.consecutiveSuccesses == (if e.Reset? || (e.Fail? && taken) then 0
                                           else if e.Succeed? && taken && !b.state.Open? then
                                             if closes then 0 else b.consecutiveSuccesses + 1
                                           else b.consecutiveSuccesses)
            && b'.state == (if e.Reset? || (e.Succeed? && taken && closes) then Closed
                            else if e.DoubleCheck? && taken && b.state.Open? then HalfOpen
                            else if e.Fail? && taken &&
                                    (b.state.HalfOpen? || (b.state.Closed? && b.failures + 1 >= c.maxFailures))
                            then Open
                            else b.state)
  {
  }

  /** In every run the breaker's state, counters and times are what the history says. */
  lemma {:induction false} HistoryDecides(c: Config, now: int, events: seq<Event>)
    ensures var b := Run(c, now, events).b;
            && b.state == StateOf(c, now, events)
            && b.failures == FailuresOf(c, now, events)
            && b.consecutiveSuccesses == SuccessesOf(c, now, events)
            && b.lastFailureTime == LastFailureOf(c, now, events)
            && b.lastStateChange == LastChangeOf(c, now, events)
  {
    if events != [] {
      var before := events[..|events| - 1];
      HistoryDecides(c, now, before);
      StepFields(c, Run(c, now, before), events[|events| - 1]);
      StepState(c, Run(c, now, before), events[|events| - 1]);
    }
  }

  lemma {:induction false} StepTotals(c: Config, s: System, e: Event)
    ensures var b, b', one := s.b, Step(c, s, e).b, if Taken(s, e) then 1 else 0;
            && b'.totalCalls == b.totalCalls + (if e.CountCall? then one else 0)
            && b'.totalSuccesses == b.totalSuccesses + (if e.Succeed? then one else 0)
            && b'.totalFailures == b.totalFailures + (if e.Fail? then one else 0)
            && b'.totalRejected == b.totalRejected + (if e.CountRejection? then one else 0)
  {
  }

  /** In every run the totals are the numbers of steps taken. */
  lemma {:induction false} TotalsCount(c: Config, now: int, events: seq<Event>)
    ensures var b := Run(c, now, events).b;
            && b.totalCalls == Count(c, now, events, Calls)
            && b.totalSuccesses == Count(c, now, events, Successes)
            && b.totalFailures == Count(c, now, events, Failures)
            && b.totalRejected == Count(c, now, events, Rejections)
  {
    if events != [] {
      var before := events[..|events| - 1];
      TotalsCount(c, now, before);
      StepTotals(c, Run(c, now, before), events[|events| - 1]);
    }
  }

  // ----- one caller at a time -----

  /** The steps of one `Execute` that nobody interrupts. */
  function Alone(b: Breaker, t0: int, t1: int, ok: bool): seq<Event> {
    match Decide(b, t0)
    case Refuse => [Check(t0)] + [CountRejection]
    case Admit => [Check(t0)] + [CountCall] + [if ok then Succeed(t1) else Fail(t1)]
    case Upgrade => [Check(t0)] + [DoubleCheck(t0)] + [CountCall] + [if ok then Succeed(t1) else Fail(t1)]
  }

  function StepAll(c: Config, s: System, events: seq<Event>): System
    decreases |events|
  {
    if events == [] then s else StepAll(c, Step(c, s, events[0]), events[1..])
  }

  /** They do what `Execute` does as a whole, and leave nobody behind. */
  lemma {:induction false} AloneIsExecuted(c: Config, s: System, t0: int, t1: int, ok: bool)
    requires c.enabled && s.upgrading == s.admitted == s.inFlight == s.refused == 0
    ensures var s' := StepAll(c, s, Alone(s.b, t0, t1, ok));
            && s'.b == Executed(c, s.b, t0, t1, ok)
            && s'.upgrading == s'.admitted == s'.inFlight == s'.refused == 0
  {
    var last := if ok then Succeed(t1) else Fail(t1);
    match Decide(s.b, t0)
    case Refuse => StepTwo(c, s, Check(t0), CountRejection);
    case Admit =>
      StepTwo(c, s, Check(t0), CountCall);
      StepMore(c, s, [Check(t0)] + [CountCall], last);
    case Upgrade =>
      StepTwo(c, s, Check(t0), DoubleCheck(t0));
      StepMore(c, s, [Check(t0)] + [DoubleCheck(t0)], CountCall);
      StepMore(c, s, [Check(t0)] + [DoubleCheck(t0)] + [CountCall], last);
  }

  lemma {:induction false} StepTwo(c: Config, s: System, x: Event, y: Event)
    ensures StepAll(c, s, [x] + [y]) == Step(c, Step(c, s, x), y)
  {
    StepMore(c, s, [], x);
    assert [] + [x] == [x];
    StepMore(c, s, [x], y);
  }

  lemma {:induction false} StepMore(c: Config, s: System, events: seq<Event>, e: Event)
    ensures StepAll(c, s, events + [e]) == Step(c, StepAll(c, s, events), e)
    decreases |events|
  {
    if events == [] {
      assert [] + [e] == [e] && [e][1..] == [];
    } else {
      StepMore(c, Step(c, s, events[0]), events[1..], e);
      assert (events + [e])[1..] == events[1..] + [e];
    }
  }
}
