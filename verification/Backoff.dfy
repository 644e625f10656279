/** The three states that both circuit breakers move through. */
module CircuitState {
  datatype State = Closed | Open | HalfOpen
}

/** Exponential backoff with a ceiling, the arithmetic that both circuit breakers share.
    Durations are whole nanoseconds; the multiplier is a whole number of at least 1. */
module Backoff {

  const SECOND := 1_000_000_000

  function Min(a: int, b: int): int {
    if a <= b then a else b
  }

  function Pow(m: nat, k: nat): nat {
    if k == 0 then 1 else m * Pow(m, k - 1)
  }

  /** The wait in force once the circuit has opened `k` times since it last closed: each opening
      multiplies the wait and clamps it. */
  function After(initial: nat, m: nat, max: nat, k: nat): nat {
    if k == 0 then initial else Min(After(initial, m, max, k - 1) * m, max)
  }

  function Clamped(initial: nat, m: nat, max: nat, k: nat): nat {
    Min(initial * Pow(m, k), max)
  }

  /** The sum of initial * m^i, clamped, for i = 1, 2, ..., n. */
  function TotalWait(initial: nat, m: nat, max: nat, n: nat): nat {
    if n == 0 then 0 else TotalWait(initial, m, max, n - 1) + Clamped(initial, m, max, n)
  }

  /** Clamping at every opening is the same as clamping once at the end. */
  lemma {:induction false} ClosedForm(initial: nat, m: nat, max: nat, k: nat)
    requires m >= 1 && k >= 1
    ensures After(initial, m, max, k) == Clamped(initial, m, max, k)
  {
    var p := Pow(m, k - 1);
    assert initial * (m * p) == (initial * p) * m;
    if k == 1 {
      assert initial * (m * 1) == initial * m;
    } else {
      ClosedForm(initial, m, max, k - 1);
      if initial * p > max {
        Grows(initial * p, m);
        Grows(max, m);
      }
    }
  }

  lemma {:induction false} Grows(x: nat, m: nat)
    requires m >= 1
    ensures x * m >= x
  {
    assert x * m == x * (m - 1) + x;
  }
}
