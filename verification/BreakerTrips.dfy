/** When the v2 breaker opens and closes, said without its counters: what counts are outcomes in a
    row. Sequential use. */
module BreakerTrips {
  import opened BreakerV2
  import opened CircuitState

  /** One protected call: asked for at `t0`, finished at `t1`, well or badly. */
  datatype Call = Call(t0: int, t1: int, ok: bool)

  function RunFrom(c: Config, b: Breaker, calls: seq<Call>): Breaker {
    if calls == [] then b
    else
      var x := calls[|calls| - 1];
      Executed(c, RunFrom(c, b, calls[..|calls| - 1]), x.t0, x.t1, x.ok)
  }

  /** How many of the last calls failed in a row. */
  function FailuresInARow(calls: seq<Call>): nat {
    if calls == [] || calls[|calls| - 1].ok then 0 else FailuresInARow(calls[..|calls| - 1]) + 1
  }

  ghost predicate NeverInARow(calls: seq<Call>, n: int) {
    forall k :: 0 <= k <= |calls| ==> FailuresInARow(calls[..k]) < n
  }

  predicate AlwaysClosed(c: Config, b: Breaker, calls: seq<Call>) {
    forall k :: 0 <= k <= |calls| ==> RunFrom(c, b, calls[..k]).state.Closed?
  }

  /** The state after a call, if all calls before it found the circuit closed. */
  lemma {:induction false} OneMore(c: Config, b: Breaker, calls: seq<Call>, x: Call)
    requires c.enabled && RunFrom(c, b, calls).state.Closed? && RunFrom(c, b, calls).failures == FailuresInARow(calls)
    ensures var after := RunFrom(c, b, calls + [x]);
            var n := FailuresInARow(calls + [x]);
            && after.failures == n
            && after.state == if !x.ok && n >= c.maxFailures then Open else Closed
  {
    assert (calls + [x])[..|calls|] == calls;
  }

  lemma {:induction false} PrefixesOf(calls: seq<Call>, x: Call)
    ensures calls[..|calls|] == calls && (calls + [x])[..|calls| + 1] == calls + [x]
    ensures forall k :: 0 <= k <= |calls| ==> (calls + [x])[..k] == calls[..k]
  {
  }

  lemma {:induction false} StillClosed(c: Config, b: Breaker, calls: seq<Call>, x: Call)
    ensures AlwaysClosed(c, b, calls + [x]) <==> AlwaysClosed(c, b, calls) && RunFrom(c, b, calls + [x]).state.Closed?
    ensures AlwaysClosed(c, b, calls) ==> RunFrom(c, b, calls).state.Closed?
  {
    PrefixesOf(calls, x);
  }

  lemma {:induction false} StillNever(calls: seq<Call>, x: Call, n: int)
    ensures NeverInARow(calls + [x], n) <==> NeverInARow(calls, n) && FailuresInARow(calls + [x]) < n
  {
    PrefixesOf(calls, x);
  }

  /** A new circuit stays closed exactly as long as there are no MaxFailures failures in a row; while it
      does, the failure counter is the number of failures in a row. */
  lemma {:induction false} OpensAtTheThreshold(c: Config, now: int, calls: seq<Call>)
    requires c.enabled && c.maxFailures >= 1
    ensures AlwaysClosed(c, New(c, now), calls) <==> NeverInARow(calls, c.maxFailures)
    ensures AlwaysClosed(c, New(c, now), calls) ==> RunFrom(c, New(c, now), calls).failures == FailuresInARow(calls)
  {
    var b := New(c, now);
    if calls == [] {
      assert forall k :: 0 <= k <= 0 ==> calls[..k] == [];
    } else {
      var before, x := calls[..|calls| - 1], calls[|calls| - 1];
      OpensAtTheThreshold(c, now, before);
      assert before + [x] == calls;
      StillClosed(c, b, before, x);
      StillNever(before, x, c.maxFailures);
      if AlwaysClosed(c, b, before) {
        OneMore(c, b, before, x);
      }
    }
  }

  predicate AllGood(calls: seq<Call>) {
    forall i :: 0 <= i < |calls| ==> calls[i].ok
  }

  /** Probes of a circuit that has just become half open, up to the first failure or the required
      number: only that many good ones in a row close it, and then everything is as it was at the
      start; one bad one opens it again with a longer wait, counted from that failure. */
  lemma {:induction false} ClosesAfterGoodProbes(c: Config, b: Breaker, probes: seq<Call>)
    requires c.enabled && Usable(c) && b.state.HalfOpen? && b.consecutiveSuccesses == 0
    requires 1 <= |probes| <= c.halfOpenSuccesses && AllGood(probes[..|probes| - 1])
    ensures var after, last := RunFrom(c, b, probes), probes[|probes| - 1];
            if !last.ok then
              && after.state.Open? && after.lastFailureTime == last.t1
              && after.currentBackoff == Increased(c, b).currentBackoff
            else if |probes| == c.halfOpenSuccesses then
              && after.state.Closed? && after.failures == 0 && after.consecutiveSuccesses == 0
              && after.currentBackoff == c.initialBackoff
            else
              && after.state.HalfOpen? && after.consecutiveSuccesses == |probes|
              && after.currentBackoff == b.currentBackoff
  {
    var before := probes[..|probes| - 1];
    if before != [] {
      ClosesAfterGoodProbes(c, b, before);
    }
  }
}
