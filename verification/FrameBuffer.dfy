/** The drop-oldest buffer between the v1 capture loop and its dispatcher, used by one caller. */
module FrameBuffer {

  /** The last `n` values. */
  function Newest<T>(xs: seq<T>, n: nat): seq<T> {
    if |xs| <= n then xs else xs[|xs| - n..]
  }

  /** How a push ends for its caller. */
  datatype Pushed = Stored | Replaced | Blocked

  class Buffer<T> {
    const capacity: nat
    var buffer: seq<T>
    var droppedFrames: nat
    var totalFrames: nat

    predicate Valid()
      reads this
    {
      |buffer| <= capacity
    }

    constructor (capacity: nat)
      ensures Valid() && this.capacity == capacity
      ensures buffer == [] && droppedFrames == totalFrames == 0
    {
      this.capacity := capacity;
      buffer, droppedFrames, totalFrames := [], 0, 0;
    }

    /** Adds a frame. If the buffer is full, the oldest frame is taken out and released first. A buffer
        of capacity 0 stores nothing: with no consumer waiting, the push blocks at its second send. */
    method Push(frame: T) returns (result: Pushed, released: seq<T>)
      requires Valid()
      modifies this
      ensures Valid()
      ensures result.Blocked? <==> capacity == 0
      ensures buffer == Newest(old(buffer) + [frame], capacity)
      ensures result.Blocked? ==> released == []
      ensures !result.Blocked? ==> released + buffer == old(buffer) + [frame]
      ensures result.Replaced? <==> released != []
      ensures totalFrames == old(totalFrames) + 1
      ensures droppedFrames == old(droppedFrames) + |released|
    {
      totalFrames := totalFrames + 1;
      if |buffer| < capacity {
        buffer := buffer + [frame];
        return Stored, [];
      }
      released := [];
      if buffer != [] {
        released := [buffer[0]];
        buffer := buffer[1..];
      }
      if |buffer| >= capacity {
        return Blocked, released;
      }
      buffer := buffer + [frame];
      droppedFrames := droppedFrames + 1;
      return Replaced, released;
    }

    method Pop() returns (frame: seq<T>, ok: bool)
      requires Valid()
      modifies this
      ensures Valid()
      ensures ok <==> old(buffer) != []
      ensures frame + buffer == old(buffer) && |frame| == if ok then 1 else 0
      ensures totalFrames == old(totalFrames) && droppedFrames == old(droppedFrames)
    {
      if buffer == [] {
        return [], false;
      }
      frame, ok := [buffer[0]], true;
      buffer := buffer[1..];
    }
  }

  lemma {:induction false} OneMore<T>(gone: seq<T>, queue: seq<T>, r: seq<T>, queue': seq<T>, frames: seq<T>, i: nat)
    requires i < |frames| && gone + queue == frames[..i] && r + queue' == queue + [frames[i]]
    ensures (gone + r) + queue' == frames[..i + 1]
  {
    assert (gone + r) + queue' == gone + (r + queue');
    assert gone + (queue + [frames[i]]) == (gone + queue) + [frames[i]];
  }

  /** Pushing any number of frames into a fresh buffer leaves the newest ones, in order, and releases
      all the others, each once, oldest first. */
  method PushAll<T>(capacity: nat, frames: seq<T>) returns (b: Buffer<T>, released: seq<T>)
    requires capacity >= 1
    ensures fresh(b) && b.Valid() && b.capacity == capacity
    ensures b.buffer == Newest(frames, capacity)
    ensures released + b.buffer == frames
    ensures b.totalFrames == |frames|
    ensures b.droppedFrames == if |frames| <= capacity then 0 else |frames| - capacity
  {
    b := new Buffer(capacity);
    released := [];
    for i := 0 to |frames|
      invariant fresh(b) && b.Valid() && b.capacity == capacity
      invariant released + b.buffer == frames[..i]
      invariant |released| == if i <= capacity then 0 else i - capacity
      invariant b.totalFrames == i && b.droppedFrames == |released|
    {
      ghost var queue := b.buffer;
      var _, r := b.Push(frames[i]);
      OneMore(released, queue, r, b.buffer, frames, i);
      released := released + r;
    }
    assert frames[..|frames|] == frames;
    assert (released + b.buffer)[|released|..] == b.buffer;
  }
}
