/** The two circuit breakers side by side, each used by one caller at a time. */
module BreakerTwins {
  import V1 = BreakerV1
  import V2 = BreakerV2
  import opened BreakerTrips
  import opened CircuitState

  predicate SameConstants(c1: V1.Config, c2: V2.Config) {
    && c2.enabled
    && c1.maxFailures == c2.maxFailures
    && c1.halfOpenSuccesses == c2.halfOpenSuccesses
    && c1.initialBackoff == c2.initialBackoff
    && c1.maxBackoff == c2.maxBackoff
    && c1.multiplier == c2.multiplier
  }

  function RunV1(c: V1.Config, now: int, calls: seq<Call>): V1.Breaker {
    if calls == [] then V1.New(c, now)
    else
      var x := calls[|calls| - 1];
      V1.Called(c, RunV1(c, now, calls[..|calls| - 1]), x.t0, x.t1, x.ok)
  }

  function RunV2(c: V2.Config, now: int, calls: seq<Call>): V2.Breaker {
    RunFrom(c, V2.New(c, now), calls)
  }

  /** What the two breakers agree on. Their `failures` agree only while closed: v2 also zeroes the
      counter on a success in HALF_OPEN. */
  predicate Related(b1: V1.Breaker, b2: V2.Breaker) {
    && b1.state == b2.state
    && b1.currentBackoff == b2.currentBackoff
    && b1.lastFailTime == b2.lastFailureTime
    && b1.lastStateTime == b2.lastStateChange
    && b1.successes == b2.consecutiveSuccesses
    && (b1.state.Closed? ==> b1.failures == b2.failures)
  }

  predicate InitialWhileClosed(c: V2.Config, b: V2.Breaker) {
    b.state.Closed? ==> b.currentBackoff == c.initialBackoff
  }

  /** A call that arrives at an open breaker at the very instant at which the backoff ends. */
  predicate AtTheInstant(b: V2.Breaker, now: int) {
    b.state.Open? && now - b.lastFailureTime == b.currentBackoff
  }

  predicate NeverAtTheInstant(c: V2.Config, now: int, calls: seq<Call>) {
    forall i :: 0 <= i < |calls| ==> !AtTheInstant(RunV2(c, now, calls[..i]), calls[i].t0)
  }

  predicate SameDecision(c1: V1.Config, c2: V2.Config, now: int, calls: seq<Call>, i: nat)
    requires i < |calls|
  {
    V1.Admits(RunV1(c1, now, calls[..i]), calls[i].t0) <==> V2.Admits(c2, RunV2(c2, now, calls[..i]), calls[i].t0)
  }

  lemma {:induction false} OneCall(c1: V1.Config, c2: V2.Config, b1: V1.Breaker, b2: V2.Breaker, x: Call)
    requires SameConstants(c1, c2) && Related(b1, b2) && InitialWhileClosed(c2, b2)
    ensures (V1.Admits(b1, x.t0) <==> V2.Admits(c2, b2, x.t0)) <==> !AtTheInstant(b2, x.t0)
    ensures !AtTheInstant(b2, x.t0) ==>
              Related(V1.Called(c1, b1, x.t0, x.t1, x.ok), V2.Executed(c2, b2, x.t0, x.t1, x.ok))
    ensures InitialWhileClosed(c2, V2.Executed(c2, b2, x.t0, x.t1, x.ok))
  {
  }

  ghost predicate SameDecisions(c1: V1.Config, c2: V2.Config, now: int, calls: seq<Call>) {
    forall i :: 0 <= i < |calls| ==> SameDecision(c1, c2, now, calls, i)
  }

  lemma {:induction false} OneMoreInstant(c2: V2.Config, now: int, calls: seq<Call>, x: Call)
    ensures NeverAtTheInstant(c2, now, calls + [x]) <==>
            NeverAtTheInstant(c2, now, calls) && !AtTheInstant(RunV2(c2, now, calls), x.t0)
  {
    var n, all := |calls|, calls + [x];
    assert forall i :: 0 <= i <= n ==> all[..i] == calls[..i];
    assert calls[..n] == calls;
    assert forall i :: 0 <= i < n ==> all[i] == calls[i];
    if NeverAtTheInstant(c2, now, all) {
      assert !AtTheInstant(RunV2(c2, now, all[..n]), all[n].t0);
    }
  }

  lemma {:induction false} OneMoreDecision(c1: V1.Config, c2: V2.Config, now: int, calls: seq<Call>, x: Call)
    ensures SameDecisions(c1, c2, now, calls + [x]) <==>
            SameDecisions(c1, c2, now, calls) &&
            (V1.Admits(RunV1(c1, now, calls), x.t0) <==> V2.Admits(c2, RunV2(c2, now, calls), x.t0))
  {
    var n, all := |calls|, calls + [x];
    assert forall i :: 0 <= i <= n ==> all[..i] == calls[..i];
    assert calls[..n] == calls;
    assert forall i :: 0 <= i < n ==> SameDecision(c1, c2, now, all, i) == SameDecision(c1, c2, now, calls, i);
    if SameDecisions(c1, c2, now, all) {
      assert SameDecision(c1, c2, now, all, n);
    }
  }

  /** Bisimilarity: the two breakers take the same decision at every call of a trace exactly when
      no call arrives at the instant at which a backoff ends, and on such a trace they agree on
      state, backoff, times and success counter after every call. */
  lemma {:induction false} Twins(c1: V1.Config, c2: V2.Config, now: int, calls: seq<Call>)
    requires SameConstants(c1, c2)
    ensures SameDecisions(c1, c2, now, calls) <==> NeverAtTheInstant(c2, now, calls)
    ensures NeverAtTheInstant(c2, now, calls) ==> Related(RunV1(c1, now, calls), RunV2(c2, now, calls))
    ensures InitialWhileClosed(c2, RunV2(c2, now, calls))
  {
    if calls != [] {
      var before, x := calls[..|calls| - 1], calls[|calls| - 1];
      Twins(c1, c2, now, before);
      assert calls == before + [x];
      OneMoreInstant(c2, now, before, x);
      OneMoreDecision(c1, c2, now, before, x);
      ClosedKeepsInitial(c2, RunV2(c2, now, before), x);
      if NeverAtTheInstant(c2, now, before) {
        OneCall(c1, c2, RunV1(c1, now, before), RunV2(c2, now, before), x);
      }
    }
  }

  lemma {:induction false} ClosedKeepsInitial(c: V2.Config, b: V2.Breaker, x: Call)
    requires InitialWhileClosed(c, b)
    ensures InitialWhileClosed(c, V2.Executed(c, b, x.t0, x.t1, x.ok))
  {
  }

  /** Used by one caller at a time, an open v1 circuit has counted no successes, and a half-open one
      fewer than it needs. */
  lemma {:induction false} SequentialSuccesses(c: V1.Config, now: int, calls: seq<Call>)
    requires V1.Usable(c)
    ensures var b := RunV1(c, now, calls);
            && (b.state.Open? ==> b.successes == 0)
            && (b.state.HalfOpen? ==> 0 < b.successes < c.halfOpenSuccesses)
  {
    if calls != [] {
      SequentialSuccesses(c, now, calls[..|calls| - 1]);
    }
  }

  /** An open v1 circuit, with any settings that `NewBreaker` derives: the first good probe that is let through
      leaves it half open, so does the second, and the third closes it with the initial backoff. */
  lemma {:induction false} ThirdProbeCloses(maxFailures: int, resetTimeout: int, now: int, calls: seq<Call>,
                                            p: Call, q: Call, r: Call)
    requires var b := RunV1(V1.Settings(maxFailures, resetTimeout), now, calls); b.state.Open? && V1.Admits(b, p.t0)
    requires p.ok && q.ok && r.ok
    ensures var c := V1.Settings(maxFailures, resetTimeout);
            && RunV1(c, now, calls + [p]).state.HalfOpen?
            && RunV1(c, now, calls + [p] + [q]).state.HalfOpen?
            && RunV1(c, now, calls + [p] + [q] + [r]).state.Closed?
            && RunV1(c, now, calls + [p] + [q] + [r]).currentBackoff == c.initialBackoff
            && RunV1(c, now, calls + [p] + [q] + [r]).failures == 0
  {
    var c := V1.Settings(maxFailures, resetTimeout);
    SequentialSuccesses(c, now, calls);
    assert (calls + [p])[..|calls|] == calls;
    assert (calls + [p] + [q])[..|calls| + 1] == calls + [p];
    assert (calls + [p] + [q] + [r])[..|calls| + 2] == calls + [p] + [q];
  }

  /** A manual reset keeps the twins together exactly when the backoff is the initial one; otherwise
      only v2 puts it back. */
  lemma {:induction false} ResetSeparatesTwins(c: V2.Config, b1: V1.Breaker, b2: V2.Breaker, now: int)
    requires Related(b1, b2)
    ensures Related(V1.Cleared(b1, now), V2.Cleared(c, b2, now)) <==> b2.currentBackoff == c.initialBackoff
  {
  }

  /** A probe has succeeded since the circuit last closed. */
  predicate ProbedWell(c: V2.Config, now: int, calls: seq<Call>) {
    calls != [] && !RunV2(c, now, calls).state.Closed? && (
      var before, x := calls[..|calls| - 1], calls[|calls| - 1];
      var b := RunV2(c, now, before);
      ProbedWell(c, now, before) || (x.ok && !b.state.Closed? && V2.Admits(c, b, x.t0)))
  }

  /** How the failure counters compare: v1's is ahead after a good probe, and equal otherwise. */
  predicate CountersCompare(b1: V1.Breaker, b2: V2.Breaker, probedWell: bool) {
    && (if probedWell then b1.failures > b2.failures >= 0 else b1.failures == b2.failures >= 0)
    && (!b1.state.Closed? ==> b1.failures >= 1)
    && (probedWell ==> !b1.state.Closed?)
  }

  lemma {:induction false} OneCallCounts(c1: V1.Config, c2: V2.Config, b1: V1.Breaker, b2: V2.Breaker, x: Call,
                                         probedWell: bool)
    requires SameConstants(c1, c2) && Related(b1, b2) && CountersCompare(b1, b2, probedWell)
    requires !AtTheInstant(b2, x.t0)
    ensures var b2' := V2.Executed(c2, b2, x.t0, x.t1, x.ok);
            CountersCompare(V1.Called(c1, b1, x.t0, x.t1, x.ok), b2',
                            !b2'.state.Closed? &&
                            (probedWell || (x.ok && !b2.state.Closed? && V2.Admits(c2, b2, x.t0))))
  {
  }

  /** On a trace on which the two decide alike, their failure counters agree exactly when no probe has
      succeeded since the circuit last closed. */
  lemma {:induction false} FailureCountersAgree(c1: V1.Config, c2: V2.Config, now: int, calls: seq<Call>)
    requires SameConstants(c1, c2) && NeverAtTheInstant(c2, now, calls)
    ensures RunV1(c1, now, calls).failures == RunV2(c2, now, calls).failures <==> !ProbedWell(c2, now, calls)
    ensures CountersCompare(RunV1(c1, now, calls), RunV2(c2, now, calls), ProbedWell(c2, now, calls))
  {
    if calls != [] {
      var before, x := calls[..|calls| - 1], calls[|calls| - 1];
      assert calls == before + [x];
      OneMoreInstant(c2, now, before, x);
      FailureCountersAgree(c1, c2, now, before);
      Twins(c1, c2, now, before);
      OneCallCounts(c1, c2, RunV1(c1, now, before), RunV2(c2, now, before), x, ProbedWell(c2, now, before));
    }
  }

  /** So they do part: after one failure that opens the circuit, and one good probe,
      v1 still shows the failure and v2 does not. */
  lemma {:induction false} FailureCountersDiffer(c1: V1.Config, c2: V2.Config)
    requires SameConstants(c1, c2) && V2.Usable(c2) && c2.maxFailures <= 1 && c2.halfOpenSuccesses >= 2
    ensures exists calls: seq<Call> ::
              && NeverAtTheInstant(c2, 0, calls)
              && RunV1(c1, 0, calls).failures == 1 && RunV2(c2, 0, calls).failures == 0
              && RunV2(c2, 0, calls).state.HalfOpen?
  {
    var t := c2.maxBackoff + 1;
    var calls := [Call(0, 0, false), Call(t, t, true)];
    assert calls[..1] == [Call(0, 0, false)] && calls[..0] == [];
    assert RunV1(c1, 0, calls[..0]) == V1.New(c1, 0) && RunV2(c2, 0, calls[..0]) == V2.New(c2, 0);
    assert RunV2(c2, 0, calls[..1]).currentBackoff <= c2.maxBackoff;
    assert NeverAtTheInstant(c2, 0, calls);
    assert RunV1(c1, 0, calls).failures == 1;
  }
}
