/** The v1 reader and the flush at the head of each tick of the v1 capture loop. The pooled buffers
    that carry the frames are the subject of `FramePool` and `FramePipeline`. */
module PersistentCapture {
  import opened JpegStream
  import opened BoundedChannel

  class Capture {
    const bufferSize: nat
    var frameBuffer: seq<Bytes>

    constructor (size: int)
      ensures frameBuffer == [] && bufferSize == if size <= 0 then 50 else size
    {
      bufferSize := if size <= 0 then 50 else size;
      frameBuffer := [];
    }

    /** Reads bytes until the stream ends. */
    method ReadFrames(input: Bytes) returns (unfinished: Bytes, released: nat)
      requires |frameBuffer| <= bufferSize
      modifies this
      ensures |frameBuffer| <= bufferSize
      ensures unfinished == Split(input).residue
      ensures frameBuffer == OfferAll(old(frameBuffer), bufferSize, EmitV1(Split(input).segments))
      ensures |frameBuffer| + released == |old(frameBuffer)| + |EmitV1(Split(input).segments)|
    {
      var frame: Bytes := [];
      released := 0;
      ghost var offered := [];
      for i := 0 to |input|
        invariant |frameBuffer| <= bufferSize
        invariant Split(input[..i]).residue == frame
        invariant offered == EmitV1(Split(input[..i]).segments)
        invariant frameBuffer == OfferAll(old(frameBuffer), bufferSize, offered)
        invariant |frameBuffer| + released == |old(frameBuffer)| + |offered|
      {
        OneByte(input, i);
        frame := frame + [input[i]];
        if EndsWithEoi(frame) {
          if StartsWithSoi(frame) {
            OfferAllAppend(old(frameBuffer), bufferSize, offered, frame);
            offered := offered + [frame];
            if |frameBuffer| < bufferSize {
              frameBuffer := frameBuffer + [frame];
            } else {
              released := released + 1;
            }
          }
          frame := [];
        }
      }
      unfinished := frame;
      assert input[..|input|] == input;
    }

    method GetFrameNonBlocking() returns (frame: Bytes, ok: bool)
      modifies this
      ensures ok <==> old(frameBuffer) != []
      ensures if ok then [frame] + frameBuffer == old(frameBuffer) else frame == [] && frameBuffer == []
    {
      if frameBuffer == [] {
        return [], false;
      }
      frame, ok := frameBuffer[0], true;
      frameBuffer := frameBuffer[1..];
    }

    /** Takes the newest frame and gives back every older one, each once, in order. */
    method TakeNewest() returns (frame: Bytes, ok: bool, released: seq<Bytes>)
      modifies this
      ensures frameBuffer == []
      ensures ok <==> old(frameBuffer) != []
      ensures ok ==> released + [frame] == old(frameBuffer)
      ensures !ok ==> released == []
    {
      released := [];
      frame, ok := GetFrameNonBlocking();
      if !ok {
        return;
      }
      var hasMore := true;
      while hasMore
        invariant released + [frame] + frameBuffer == old(frameBuffer)
        invariant !hasMore ==> frameBuffer == []
        decreases |frameBuffer|, hasMore
      {
        ghost var queue, have := frameBuffer, released + [frame];
        var next;
        next, hasMore := GetFrameNonBlocking();
        if hasMore {
          assert have + queue == have + [next] + frameBuffer;
          released := released + [frame];
          frame := next;
        }
      }
    }
  }

  /** Reading one stretch of bytes that ends with its only FF D9. A JPEG of any size is queued if there is
      room and released if not; nothing else is queued, and nothing is left over. */
  method ReadOne(c: Capture, f: Bytes) returns (unfinished: Bytes, released: nat)
    requires |c.frameBuffer| <= c.bufferSize && EndsOnce(f)
    modifies c
    ensures unfinished == []
    ensures var jpeg := f[0] == 0xFF && f[1] == 0xD8;
            var room := |old(c.frameBuffer)| < c.bufferSize;
            && c.frameBuffer == old(c.frameBuffer) + (if jpeg && room then [f] else [])
            && released == if jpeg && !room then 1 else 0
  {
    ReadInBytes(f);
    unfinished, released := c.ReadFrames(f);
    assert [f][..0] == [];
    assert OfferAll(old(c.frameBuffer), c.bufferSize, [f][..0]) == old(c.frameBuffer);
  }
}
