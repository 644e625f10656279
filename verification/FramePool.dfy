/** The global frame pool of v1 with its buffers as arrays on the heap: what makes one frame safe
    from the next is that a buffer in the pool is held by nobody. */
module FramePool {
  import opened JpegStream
  import FrameStore

  class Pool {
    var free: seq<array<Byte>>

    predicate Valid()
      reads this
    {
      && (forall i, j :: 0 <= i < j < |free| ==> free[i] != free[j])
      && (forall i :: 0 <= i < |free| ==> free[i].Length <= FrameStore.MAX_POOLED)
    }

    constructor ()
      ensures Valid() && free == []
    {
      free := [];
    }

    /** The pool has a buffer at `pick` and it will do. */
    static predicate Reuses(size: nat, free: seq<array<Byte>>, pick: nat) {
      0 < size <= 2_097_152_000 && pick < |free| && size <= free[pick].Length
    }

    /** A buffer for `size` bytes. The pool may come up with any buffer it has, the one at `pick`, or
        with none of them, so that a new one is made; a buffer that is too small is forgotten. */
    method GetFrameBuffer(size: nat, pick: nat) returns (buf: array?<Byte>)
      requires Valid()
      modifies this
      ensures Valid()
      ensures size == 0 <==> buf == null
      ensures buf != null ==> size <= buf.Length && buf !in free
      ensures buf != null && !Reuses(size, old(free), pick) ==>
                buf.Length == if size <= 2_097_152_000 && pick >= |old(free)| then 2_097_152_000 else size
      ensures if Reuses(size, old(free), pick) then buf == old(free)[pick] else buf == null || fresh(buf)
      ensures free == if 0 < size <= 2_097_152_000 && pick < |old(free)|
                      then old(free)[..pick] + old(free)[pick + 1..] else old(free)
    {
      if size == 0 {
        return null;
      }
      if size > FrameStore.MAX_POOLED {
        return new Byte[size];
      }
      if pick >= |free| {
        return new Byte[FrameStore.MAX_POOLED];
      }
      var found := free[pick];
      free := free[..pick] + free[pick + 1..];
      if found.Length < size {
        return new Byte[size];
      }
      return found;
    }

    method ReleaseFrameBuffer(buf: array?<Byte>)
      requires Valid() && (buf != null ==> buf !in free)
      modifies this
      ensures Valid()
      ensures free == if buf == null || buf.Length > 2_097_152_000 then old(free) else old(free) + [buf]
    {
      if buf == null || buf.Length > FrameStore.MAX_POOLED {
        return;
      }
      free := free + [buf];
    }

    /** A frame is copied into a buffer of its own. Of all buffers only that one changes, and it was in
        the pool or is new; so the frames that others hold are left alone. */
    method Enqueue(frameData: Bytes, pick: nat) returns (data: array?<Byte>)
      requires Valid()
      modifies this, if pick < |free| then {free[pick]} else {}
      ensures Valid()
      ensures frameData == [] <==> data == null
      ensures data != null ==> |frameData| <= data.Length && data[..|frameData|] == frameData && data !in free
      ensures data != null ==> (data.Length <= 2_097_152_000 <==> |frameData| <= 2_097_152_000)
      ensures if Reuses(|frameData|, old(free), pick) then data == old(free)[pick] else data == null || fresh(data)
      ensures forall b :: b in free ==> b in old(free)
    {
      data := GetFrameBuffer(|frameData|, pick);
      if data == null {
        return;
      }
      for i := 0 to |frameData|
        invariant data[..i] == frameData[..i]
        modifies data
      {
        data[i] := frameData[i];
      }
    }
  }

  /** Every frame is in a buffer of its own and shows the bytes it was made of. */
  predicate Genuine(held: seq<array<Byte>>, frames: seq<Bytes>)
    requires |held| == |frames|
    reads held
  {
    && (forall i :: 0 <= i < |held| ==> |frames[i]| <= held[i].Length && held[i][..|frames[i]|] == frames[i])
    && (forall i, j :: 0 <= i < j < |held| ==> held[i] != held[j])
  }

  ghost predicate Disjoint(pool: Pool, held: seq<array<Byte>>)
    reads pool
  {
    forall i :: 0 <= i < |held| ==> held[i] !in pool.free
  }

  /** Frames may be taken one after the other, with the pool coming up with whatever it likes: as long
      as none is released, no later frame changes an earlier one. */
  method EnqueueAll(pool: Pool, frames: seq<Bytes>, picks: seq<nat>) returns (held: seq<array<Byte>>)
    requires pool.Valid() && |picks| == |frames| && forall f :: f in frames ==> f != []
    modifies pool, pool.free
    ensures pool.Valid() && |held| == |frames|
    ensures Genuine(held, frames) && Disjoint(pool, held)
    ensures forall b :: b in pool.free ==> b in old(pool.free)
  {
    held := [];
    for k := 0 to |frames|
      invariant pool.Valid() && |held| == k
      invariant Genuine(held, frames[..k]) && Disjoint(pool, held)
      invariant forall b :: b in pool.free ==> b in old(pool.free)
      invariant forall i :: 0 <= i < k ==> fresh(held[i]) || held[i] in old(pool.free)
    {
      assert frames[k] in frames;
      assert picks[k] < |pool.free| ==> pool.free[picks[k]] in pool.free;
      var data := pool.Enqueue(frames[k], picks[k]);
      held := held + [data];
    }
    assert frames[..|frames|] == frames;
  }

  /** One early release is enough for one camera's frame to show another camera's bytes: the buffer
      that was released is the one the pool comes up with. */
  method ReleasedTooEarly(pool: Pool, mine: Bytes, theirs: Bytes) returns (data: array<Byte>)
    requires pool.Valid() && mine != [] && |theirs| == |mine| <= 2_097_152_000
    modifies pool, pool.free
    ensures |mine| <= data.Length && data[..|mine|] == theirs
  {
    data := pool.Enqueue(mine, |pool.free|);
    pool.ReleaseFrameBuffer(data);
    var other := pool.Enqueue(theirs, |pool.free| - 1);
    assert other == data;
  }
}
