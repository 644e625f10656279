/** A bounded channel seen by a sender that never blocks: a value is sent if there is room, and is
    dropped otherwise. */
module BoundedChannel {

  function Offer<T>(queue: seq<T>, capacity: nat, x: T): seq<T> {
    if |queue| < capacity then queue + [x] else queue
  }

  function OfferAll<T>(queue: seq<T>, capacity: nat, xs: seq<T>): seq<T> {
    if xs == [] then queue
    else Offer(OfferAll(queue, capacity, xs[..|xs| - 1]), capacity, xs[|xs| - 1])
  }

  /** With nobody receiving, the values that get through are the first ones. */
  lemma {:induction false} FirstComeFirstKept<T>(queue: seq<T>, capacity: nat, xs: seq<T>)
    requires |queue| <= capacity
    ensures var room := capacity - |queue|;
            OfferAll(queue, capacity, xs) == queue + if |xs| <= room then xs else xs[..room]
  {
    if xs != [] {
      FirstComeFirstKept(queue, capacity, xs[..|xs| - 1]);
    }
  }

  lemma {:induction false} OfferAllAppend<T>(queue: seq<T>, capacity: nat, xs: seq<T>, x: T)
    ensures OfferAll(queue, capacity, xs + [x]) == Offer(OfferAll(queue, capacity, xs), capacity, x)
  {
    assert (xs + [x])[..|xs|] == xs;
  }
}
