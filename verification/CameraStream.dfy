/** The v2 camera: the reader that cuts ffmpeg's output into frames, its private buffers, and one
    turn of the publishing loop. */
module CameraStream {
  import opened JpegStream
  import opened BoundedChannel
  import opened Options

  const CHANNEL_CAPACITY := 5
  const POOL_CAPACITY := 10

  class Camera {
    var bufferPool: seq<nat>      // the lengths of the pooled buffers
    var frameChan: seq<Bytes>
    var frameCount: nat
    var framesReceived: nat
    var framesDropped: nat

    predicate Valid()
      reads this
    {
      && |frameChan| <= CHANNEL_CAPACITY
      && |bufferPool| <= POOL_CAPACITY
      && forall i :: 0 <= i < |bufferPool| ==> bufferPool[i] == MAX_FRAME_V2
    }

    constructor ()
      ensures Valid()
      ensures |bufferPool| == 10 && frameChan == []
      ensures frameCount == framesReceived == framesDropped == 0
    {
      bufferPool := seq(POOL_CAPACITY, _ => MAX_FRAME_V2);
      frameChan := [];
      frameCount, framesReceived, framesDropped := 0, 0, 0;
    }

    method GetBuffer() returns (size: nat)
      requires Valid()
      modifies this`bufferPool
      ensures Valid() && size == 2_097_152
      ensures |bufferPool| == if old(bufferPool) == [] then 0 else |old(bufferPool)| - 1
    {
      if bufferPool == [] {
        return MAX_FRAME_V2;
      }
      size := bufferPool[0];
      bufferPool := bufferPool[1..];
    }

    method PutBuffer(size: nat)
      requires Valid() && size == MAX_FRAME_V2
      modifies this`bufferPool
      ensures Valid()
      ensures |bufferPool| == if |old(bufferPool)| < POOL_CAPACITY then |old(bufferPool)| + 1 else |old(bufferPool)|
    {
      if |bufferPool| < POOL_CAPACITY {
        bufferPool := bufferPool + [size];
      }
    }

    /** Counts a frame and sends it without blocking. */
    method Deliver(frame: Bytes)
      requires Valid()
      modifies this`frameChan, this`framesReceived, this`framesDropped
      ensures Valid()
      ensures frameChan == Offer(old(frameChan), CHANNEL_CAPACITY, frame)
      ensures framesReceived == old(framesReceived) + 1
      ensures framesDropped == old(framesDropped) + if |old(frameChan)| < CHANNEL_CAPACITY then 0 else 1
    {
      framesReceived := framesReceived + 1;
      if |frameChan| < CHANNEL_CAPACITY {
        frameChan := frameChan + [frame];
      } else {
        framesDropped := framesDropped + 1;
      }
    }

    /** What the reader does at the end of a segment: it borrows a buffer to learn its size, and offers
        a copy of the segment if it fits and starts with SOI. */
    method FinishSegment(segment: Bytes) returns (offered: bool)
      requires Valid()
      modifies this`bufferPool, this`frameChan, this`framesReceived, this`framesDropped
      ensures Valid() && (old(bufferPool) != [] ==> |bufferPool| == |old(bufferPool)|)
      ensures offered <==> StartsWithSoi(segment) && |segment| <= MAX_FRAME_V2
      ensures frameChan == if offered then Offer(old(frameChan), CHANNEL_CAPACITY, segment) else old(frameChan)
      ensures framesReceived == old(framesReceived) + if offered then 1 else 0
      ensures framesReceived - framesDropped - |frameChan| == old(framesReceived - framesDropped - |frameChan|)
    {
      var size := GetBuffer();
      if |segment| > size {
        PutBuffer(size);
        return false;
      }
      var frameCopy := segment;
      PutBuffer(size);
      offered := StartsWithSoi(frameCopy);
      if offered {
        Deliver(frameCopy);
      }
    }

    /** Reads bytes until the stream ends. The frames offered to the channel are those of the
        declarative reading; those that find it full are dropped and counted; no buffer is lost. */
    method ReadFrames(input: Bytes) returns (unfinished: Bytes)
      requires Valid()
      modifies this
      ensures Valid() && frameCount == old(frameCount)
      ensures unfinished == Split(input).residue
      ensures frameChan == OfferAll(old(frameChan), CHANNEL_CAPACITY, EmitV2(Split(input).segments))
      ensures framesReceived == old(framesReceived) + |EmitV2(Split(input).segments)|
      ensures framesReceived - framesDropped - |frameChan| == old(framesReceived - framesDropped - |frameChan|)
      ensures old(bufferPool) != [] ==> |bufferPool| == |old(bufferPool)|
    {
      var frameBuffer: Bytes := [];
      ghost var queue := frameChan;
      for i := 0 to |input|
        invariant Valid() && frameCount == old(frameCount)
        invariant Split(input[..i]).residue == frameBuffer
        invariant frameChan == OfferAll(queue, CHANNEL_CAPACITY, Offered(input[..i]))
        invariant framesReceived == old(framesReceived) + |Offered(input[..i])|
        invariant framesReceived - framesDropped - |frameChan| == old(framesReceived - framesDropped - |frameChan|)
        invariant old(bufferPool) != [] ==> |bufferPool| == |old(bufferPool)|
      {
        OneByteOffered(queue, input, i);
        frameBuffer := frameBuffer + [input[i]];
        if EndsWithEoi(frameBuffer) {
          var _ := FinishSegment(frameBuffer);
          frameBuffer := [];
        }
      }
      unfinished := frameBuffer;
      assert input[..|input|] == input;
    }

    /** One turn of the publishing loop: takes what is queued, keeps the newest. */
    method PublishNewest() returns (frame: Option<Bytes>)
      requires Valid()
      modifies this
      ensures Valid() && frameChan == []
      ensures bufferPool == old(bufferPool)
      ensures framesReceived == old(framesReceived) && framesDropped == old(framesDropped)
      ensures old(frameChan) == [] ==> frame == None && frameCount == old(frameCount)
      ensures old(frameChan) != [] ==>
                frame == Some(old(frameChan)[|old(frameChan)| - 1]) && frameCount == old(frameCount) + 1
    {
      if frameChan == [] {
        return None;
      }
      var newest := frameChan[0];
      frameChan := frameChan[1..];
      ghost var flushed: nat := 0;
      while |frameChan| > 0
        invariant Valid() && bufferPool == old(bufferPool) && frameCount == old(frameCount)
        invariant framesReceived == old(framesReceived) && framesDropped == old(framesDropped)
        invariant flushed + 1 + |frameChan| == |old(frameChan)|
        invariant newest == old(frameChan)[flushed] && frameChan == old(frameChan)[flushed + 1..]
      {
        newest := frameChan[0];
        frameChan := frameChan[1..];
        flushed := flushed + 1;
      }
      frameCount := frameCount + 1;
      frame := Some(newest);
    }
  }

  /** Reading one stretch of bytes that ends with its only FF D9. A JPEG of at most 2097152 bytes is
      queued if fewer than five frames wait; nothing else is queued, and nothing is left over. */
  method ReadOne(c: Camera, f: Bytes) returns (unfinished: Bytes)
    requires c.Valid() && EndsOnce(f)
    modifies c
    ensures c.Valid() && unfinished == []
    ensures c.frameChan == old(c.frameChan) +
            if f[0] == 0xFF && f[1] == 0xD8 && |f| <= 2_097_152 && |old(c.frameChan)| < 5 then [f] else []
  {
    ReadInBytes(f);
    unfinished := c.ReadFrames(f);
    OneOffered(old(c.frameChan), f);
  }

  lemma {:induction false} OneOffered(queue: seq<Bytes>, f: Bytes)
    ensures OfferAll(queue, CHANNEL_CAPACITY, [f]) == if |queue| < CHANNEL_CAPACITY then queue + [f] else queue
    ensures OfferAll(queue, CHANNEL_CAPACITY, []) == queue + []
  {
    assert [f][..0] == [];
    assert OfferAll(queue, CHANNEL_CAPACITY, [f][..0]) == queue;
  }

  ghost function Offered(input: Bytes): seq<Bytes> {
    EmitV2(Split(input).segments)
  }

  /** What one more byte does to the residue and to a channel that is offered all frames. */
  lemma {:induction false} OneByteOffered(queue: seq<Bytes>, input: Bytes, i: nat)
    requires i < |input|
    ensures var r := Split(input[..i]).residue + [input[i]];
            var before, after := Offered(input[..i]), Offered(input[..i + 1]);
            && Split(input[..i + 1]).residue == (if EndsWithEoi(r) then [] else r)
            && if EndsWithEoi(r) && StartsWithSoi(r) && |r| <= MAX_FRAME_V2 then
                 && |after| == |before| + 1
                 && OfferAll(queue, CHANNEL_CAPACITY, after) ==
                    Offer(OfferAll(queue, CHANNEL_CAPACITY, before), CHANNEL_CAPACITY, r)
               else after == before
  {
    OneByte(input, i);
    OfferAllAppend(queue, CHANNEL_CAPACITY, Offered(input[..i]), Split(input[..i]).residue + [input[i]]);
  }

  /** Reading good frames behind some noise: all of them but perhaps the first are offered, so the
      last one offered is the last one of the stream. */
  lemma {:induction false} LastOffered(noise: Bytes, fs: seq<Bytes>)
    requires |fs| >= 2 && forall f :: f in fs ==> WellFormed(f) && |f| <= MAX_FRAME_V2
    ensures |Offered(noise + Flatten(fs))| >= |fs| - 1
    ensures Offered(noise + Flatten(fs))[|Offered(noise + Flatten(fs))| - 1] == fs[|fs| - 1]
  {
    var first, rest := fs[0], fs[1..];
    assert fs == [first] + rest;
    EmitsTheRest(noise, first, rest);
    var input := noise + Flatten(fs);
    var some :| Offered(input) == some + rest;
    assert (some + rest)[|some + rest| - 1] == rest[|rest| - 1];
  }

  /** What an empty channel holds after these frames were offered. */
  lemma {:induction false} FirstFrames(offered: seq<Bytes>)
    ensures OfferAll([], CHANNEL_CAPACITY, offered) ==
            if |offered| <= CHANNEL_CAPACITY then offered else offered[..CHANNEL_CAPACITY]
  {
    FirstComeFirstKept([], CHANNEL_CAPACITY, offered);
  }

  lemma {:induction false} OfferedWithoutNoise(fs: seq<Bytes>)
    requires forall f :: f in fs ==> WellFormed(f) && |f| <= MAX_FRAME_V2
    ensures Offered([] + Flatten(fs)) == fs
  {
    RoundTrip(fs);
    assert [] + Flatten(fs) == Flatten(fs);
  }

  lemma {:induction false} FirstOf(fs: seq<Bytes>, offered: seq<Bytes>, kept: seq<Bytes>)
    requires |fs| >= 2 && |offered| >= |fs| - 1 && offered[|offered| - 1] == fs[|fs| - 1]
    requires kept == if |offered| <= CHANNEL_CAPACITY then offered else offered[..CHANNEL_CAPACITY]
    ensures 1 <= |kept| <= |offered| && (|offered| > CHANNEL_CAPACITY ==> |kept| < |offered|)
    ensures |kept| == |offered| ==> kept[|kept| - 1] == fs[|fs| - 1]
    ensures offered == fs ==>
              kept[|kept| - 1] == fs[if |fs| <= CHANNEL_CAPACITY then |fs| - 1 else CHANNEL_CAPACITY - 1]
  {
  }

  lemma {:induction false} KeptFrames(noise: Bytes, fs: seq<Bytes>, offered: seq<Bytes>, kept: seq<Bytes>)
    requires |fs| >= 2 && forall f :: f in fs ==> WellFormed(f) && |f| <= MAX_FRAME_V2
    requires offered == Offered(noise + Flatten(fs)) && kept == OfferAll([], CHANNEL_CAPACITY, offered)
    ensures |offered| >= |fs| - 1
    ensures 1 <= |kept| <= |offered| && (|offered| > CHANNEL_CAPACITY ==> |kept| < |offered|)
    ensures |kept| == |offered| ==> kept[|kept| - 1] == fs[|fs| - 1]
    ensures noise == [] ==> kept[|kept| - 1] == fs[if |fs| <= CHANNEL_CAPACITY then |fs| - 1 else CHANNEL_CAPACITY - 1]
  {
    LastOffered(noise, fs);
    FirstFrames(offered);
    FirstOf(fs, offered, kept);
    if noise == [] {
      OfferedWithoutNoise(fs);
    }
  }

  /** A camera that reads such a stream and then publishes. What it publishes is the newest frame of
      the channel; that is the newest frame received as long as nothing was dropped, because a
      full channel turns the newest frames away. */
  method ReadThenPublish(noise: Bytes, fs: seq<Bytes>) returns (frame: Option<Bytes>, dropped: nat)
    requires |fs| >= 2 && forall f :: f in fs ==> WellFormed(f) && |f| <= MAX_FRAME_V2
    ensures frame.Some?
    ensures dropped == 0 ==> frame.value == fs[|fs| - 1]
    ensures |fs| > CHANNEL_CAPACITY + 1 ==> dropped > 0
    ensures noise == [] ==> frame.value == fs[if |fs| <= CHANNEL_CAPACITY then |fs| - 1 else CHANNEL_CAPACITY - 1]
  {
    var stream := noise + Flatten(fs);
    var c := new Camera();
    var _ := c.ReadFrames(stream);
    dropped := c.framesDropped;
    ghost var offered, kept := Offered(stream), c.frameChan;
    assert dropped == |offered| - |kept|;
    KeptFrames(noise, fs, offered, kept);
    frame := c.PublishNewest();
  }
}
