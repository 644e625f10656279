/** How long an outage keeps the v2 breaker from probing: sequential use of a function that always
    fails. */
module BreakerWaits {
  import opened Backoff
  import opened BreakerV2
  import opened CircuitState

  /** A failing call: asked for at `t0`, failed at `t1`. */
  datatype Attempt = Attempt(t0: int, t1: int)

  /** The breaker, when it first opened, and when each half-open probe started. */
  datatype Outage = Outage(b: Breaker, openedAt: int, probes: seq<int>)

  predicate Probes(b: Breaker, now: int) {
    Decide(b, now).Upgrade?
  }

  function Suffer(c: Config, attempts: seq<Attempt>): Outage {
    if attempts == [] then Outage(New(c, 0), 0, [])
    else
      var o := Suffer(c, attempts[..|attempts| - 1]);
      var x := attempts[|attempts| - 1];
      var b := Executed(c, o.b, x.t0, x.t1, false);
      Outage(b,
             if o.b.state.Closed? then x.t1 else o.openedAt,
             if Probes(o.b, x.t0) then o.probes + [x.t0] else o.probes)
  }

  predicate Forward(attempts: seq<Attempt>) {
    forall i :: 0 <= i < |attempts| ==> attempts[i].t0 <= attempts[i].t1
  }

  function Total(c: Config, n: nat): nat
    requires Usable(c)
  {
    TotalWait(c.initialBackoff, c.multiplier, c.maxBackoff, n)
  }

  /** A breaker that only sees failures is never left in HALF_OPEN; once open it has opened once
      more than it has been probed; and its last failure is late enough. */
  predicate Consistent(c: Config, o: Outage)
    requires Usable(c)
  {
    && !o.b.state.HalfOpen?
    && (o.b.state.Closed? ==> o.probes == [] && o.b.currentBackoff == Wait(c, 0))
    && (o.b.state.Open? ==>
          && o.b.currentBackoff == Wait(c, |o.probes| + 1)
          && o.b.lastFailureTime >= o.openedAt + Total(c, |o.probes|))
    && (forall n :: 0 <= n < |o.probes| ==> o.probes[n] >= o.openedAt + Total(c, n + 1))
  }

  /** The n-th probe (counting from one) starts no earlier than the first opening plus the sum of
      min(initial * m^i, max) for i = 1..n. The sum starts with i = 1 because the backoff is
      multiplied before the first wait. */
  lemma {:induction false} ProbesWait(c: Config, attempts: seq<Attempt>)
    requires Usable(c) && c.enabled && Forward(attempts)
    ensures Consistent(c, Suffer(c, attempts))
  {
    if attempts != [] {
      var before := attempts[..|attempts| - 1];
      ProbesWait(c, before);
      var o := Suffer(c, before);
      ClosedForm(c.initialBackoff, c.multiplier, c.maxBackoff, |o.probes| + 1);
    }
  }

  /** The bound is tight: `n` probes can be made at exactly these times. */
  lemma {:induction false} ProbesCanBePunctual(c: Config, n: nat) returns (attempts: seq<Attempt>)
    requires Usable(c) && c.enabled
    ensures Forward(attempts)
    ensures var o := Suffer(c, attempts);
            && o.b.state.Open? && |o.probes| == n && o.openedAt == 0
            && o.b.lastFailureTime == Total(c, n)
            && forall i :: 0 <= i < n ==> o.probes[i] == Total(c, i + 1)
  {
    if n == 0 {
      var m := if c.maxFailures <= 1 then 1 else c.maxFailures;
      attempts := seq(m, _ => Attempt(0, 0));
      FailAtOnce(c, m);
    } else {
      var before := ProbesCanBePunctual(c, n - 1);
      ProbesWait(c, before);
      ClosedForm(c.initialBackoff, c.multiplier, c.maxBackoff, n);
      attempts := before + [Attempt(Total(c, n), Total(c, n))];
      assert attempts[..|before|] == before;
    }
  }

  lemma {:induction false} FailAtOnce(c: Config, m: nat)
    requires Usable(c) && c.enabled && m >= 1 && (m > 1 ==> m <= c.maxFailures)
    ensures var o := Suffer(c, seq(m, _ => Attempt(0, 0)));
            && o.b.failures == m && o.openedAt == 0 && o.probes == []
            && o.b.lastFailureTime == 0
            && o.b.state == if m >= c.maxFailures then Open else Closed
  {
    var attempts := seq(m, _ => Attempt(0, 0));
    if m == 1 {
      assert attempts[..0] == [];
    } else {
      FailAtOnce(c, m - 1);
      assert attempts[..m - 1] == seq(m - 1, _ => Attempt(0, 0));
    }
  }
}
