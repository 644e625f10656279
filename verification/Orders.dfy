/** Strictly increasing sequences of frame numbers. */
module Orders {

  predicate Increasing(xs: seq<nat>) {
    forall i, j :: 0 <= i < j < |xs| ==> xs[i] < xs[j]
  }

  predicate Below(xs: seq<nat>, n: nat) {
    forall i :: 0 <= i < |xs| ==> xs[i] < n
  }

  lemma {:induction false} Without(xs: seq<nat>, k: nat, n: nat)
    requires k < |xs| && Increasing(xs) && Below(xs, n)
    ensures var ys := xs[..k] + xs[k + 1..]; Increasing(ys) && Below(ys, n)
  {
    var ys := xs[..k] + xs[k + 1..];
    assert forall i :: 0 <= i < |ys| ==> ys[i] == xs[if i < k then i else i + 1];
  }
}
