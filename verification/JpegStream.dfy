/** Cutting a byte stream into JPEG frames. A frame runs from SOI (FF D8) to EOI (FF D9), the codes of
    Table B.1 in section B.1.1.3 of ITU-T T.81; byte stuffing (section B.1.1.5) keeps FF D9 out of
    entropy-coded data. */
module JpegStream {

  newtype Byte = b: int | 0 <= b < 256

  type Bytes = seq<Byte>

  /** v2 reads into buffers of two mebibytes. */
  const MAX_FRAME_V2 := 2 * 1024 * 1024

  // ----- the declarative reading of a stream -----

  predicate EoiAt(s: Bytes, i: int) {
    0 <= i < |s| - 1 && s[i] == 0xFF && s[i + 1] == 0xD9
  }

  predicate EndsWithEoi(s: Bytes) {
    EoiAt(s, |s| - 2)
  }

  predicate StartsWithSoi(s: Bytes) {
    |s| >= 2 && s[0] == 0xFF && s[1] == 0xD8
  }

  ghost predicate NoEoi(s: Bytes) {
    forall i :: !EoiAt(s, i)
  }

  /** A stretch that ends in its first EOI. */
  ghost predicate IsSegment(s: Bytes) {
    EndsWithEoi(s) && forall i :: i < |s| - 2 ==> !EoiAt(s, i)
  }

  /** A frame that an encoder writes: SOI, EOI, and no EOI in between. */
  ghost predicate WellFormed(s: Bytes) {
    StartsWithSoi(s) && IsSegment(s)
  }

  function Flatten(segments: seq<Bytes>): Bytes {
    if segments == [] then [] else Flatten(segments[..|segments| - 1]) + segments[|segments| - 1]
  }

  /** The stream is these segments followed by a residue without EOI. */
  ghost predicate IsFactorisation(input: Bytes, segments: seq<Bytes>, residue: Bytes) {
    && input == Flatten(segments) + residue
    && (forall s :: s in segments ==> IsSegment(s))
    && NoEoi(residue)
  }

  // ----- one byte at a time -----

  datatype Parts = Parts(segments: seq<Bytes>, residue: Bytes)

  function Feed(p: Parts, b: Byte): Parts {
    var r := p.residue + [b];
    if EndsWithEoi(r) then Parts(p.segments + [r], []) else Parts(p.segments, r)
  }

  function Split(input: Bytes): Parts {
    if input == [] then Parts([], []) else Feed(Split(input[..|input| - 1]), input[|input| - 1])
  }

  function EmitV1(segments: seq<Bytes>): seq<Bytes> {
    if segments == [] then []
    else
      var s := segments[|segments| - 1];
      EmitV1(segments[..|segments| - 1]) + if StartsWithSoi(s) then [s] else []
  }

  function EmitV2(segments: seq<Bytes>): seq<Bytes> {
    if segments == [] then []
    else
      var s := segments[|segments| - 1];
      EmitV2(segments[..|segments| - 1]) + if StartsWithSoi(s) && |s| <= MAX_FRAME_V2 then [s] else []
  }

  lemma {:induction false} SplitNext(input: Bytes, i: nat)
    requires i < |input|
    ensures Split(input[..i + 1]) == Feed(Split(input[..i]), input[i])
  {
    assert input[..i + 1][..i] == input[..i];
  }

  lemma {:induction false} EmitNext(segments: seq<Bytes>, s: Bytes)
    ensures EmitV1(segments + [s]) == EmitV1(segments) + if StartsWithSoi(s) then [s] else []
    ensures EmitV2(segments + [s]) == EmitV2(segments) + if StartsWithSoi(s) && |s| <= MAX_FRAME_V2 then [s] else []
  {
    assert (segments + [s])[..|segments|] == segments;
  }

  /** What one more byte does to the residue and to what is emitted. */
  lemma {:induction false} OneByte(input: Bytes, i: nat)
    requires i < |input|
    ensures var p, q, r := Split(input[..i]), Split(input[..i + 1]), Split(input[..i]).residue + [input[i]];
            if EndsWithEoi(r) then
              && q.residue == []
              && EmitV1(q.segments) == EmitV1(p.segments) + (if StartsWithSoi(r) then [r] else [])
              && EmitV2(q.segments) ==
                 EmitV2(p.segments) + (if StartsWithSoi(r) && |r| <= MAX_FRAME_V2 then [r] else [])
            else q.residue == r && EmitV1(q.segments) == EmitV1(p.segments) && EmitV2(q.segments) == EmitV2(p.segments)
  {
    SplitNext(input, i);
    EmitNext(Split(input[..i]).segments, Split(input[..i]).residue + [input[i]]);
  }

  lemma {:induction false} FlattenAppend(segments: seq<Bytes>, s: Bytes)
    ensures Flatten(segments + [s]) == Flatten(segments) + s
  {
    assert (segments + [s])[..|segments|] == segments;
  }

  lemma {:induction false} FeedKeepsFactorisation(input: Bytes, p: Parts, b: Byte)
    requires IsFactorisation(input, p.segments, p.residue)
    ensures IsFactorisation(input + [b], Feed(p, b).segments, Feed(p, b).residue)
  {
    var r := p.residue + [b];
    FlattenAppend(p.segments, r);
    forall i | i < |r| - 2
      ensures !EoiAt(r, i)
    {
      assert EoiAt(r, i) ==> EoiAt(p.residue, i);
    }
    assert Flatten(p.segments) + p.residue + [b] == Flatten(p.segments) + r;
  }

  lemma {:induction false} SplitFactorises(input: Bytes)
    ensures IsFactorisation(input, Split(input).segments, Split(input).residue)
  {
    if input != [] {
      var before := input[..|input| - 1];
      SplitFactorises(before);
      FeedKeepsFactorisation(before, Split(before), input[|input| - 1]);
      assert before + [input[|input| - 1]] == input;
    }
  }

  lemma {:induction false} LastByteUnfinished(input: Bytes, segments: seq<Bytes>, residue: Bytes)
    requires IsFactorisation(input, segments, residue) && residue != []
    ensures var n := |residue| - 1;
            && input != []
            && IsFactorisation(input[..|input| - 1], segments, residue[..n])
            && Feed(Parts(segments, residue[..n]), input[|input| - 1]) == Parts(segments, residue)
  {
    var n := |residue| - 1;
    assert input[..|input| - 1] == Flatten(segments) + residue[..n];
    assert forall i :: EoiAt(residue[..n], i) ==> EoiAt(residue, i);
    assert residue[..n] + [residue[n]] == residue;
  }

  lemma {:induction false} LastByteCompletes(input: Bytes, segments: seq<Bytes>)
    requires IsFactorisation(input, segments, []) && segments != []
    ensures var m := |segments| - 1;
            var s := segments[m];
            && input != [] && s != []
            && IsFactorisation(input[..|input| - 1], segments[..m], s[..|s| - 1])
            && Feed(Parts(segments[..m], s[..|s| - 1]), input[|input| - 1]) == Parts(segments, [])
  {
    var m := |segments| - 1;
    var s := segments[m];
    assert s in segments;
    var n := |s| - 1;
    assert input[..|input| - 1] == Flatten(segments[..m]) + s[..n];
    assert forall i :: EoiAt(s[..n], i) ==> EoiAt(s, i);
    assert s[..n] + [s[n]] == s;
    assert segments[..m] + [s] == segments;
  }

  lemma {:induction false} OnlyFactorisation(input: Bytes, segments: seq<Bytes>, residue: Bytes)
    requires IsFactorisation(input, segments, residue)
    ensures Split(input) == Parts(segments, residue)
    decreases |input|
  {
    if residue != [] {
      LastByteUnfinished(input, segments, residue);
      OnlyFactorisation(input[..|input| - 1], segments, residue[..|residue| - 1]);
    } else if segments != [] {
      var m := |segments| - 1;
      LastByteCompletes(input, segments);
      OnlyFactorisation(input[..|input| - 1], segments[..m], segments[m][..|segments[m]| - 1]);
    }
  }

  /** Reading byte by byte computes a factorisation, and there is no other one. */
  lemma {:induction false} SplitIsTheFactorisation(input: Bytes, segments: seq<Bytes>, residue: Bytes)
    ensures IsFactorisation(input, segments, residue) <==> Split(input) == Parts(segments, residue)
  {
    SplitFactorises(input);
    if IsFactorisation(input, segments, residue) {
      OnlyFactorisation(input, segments, residue);
    }
  }

  // ----- in bytes -----

  /** A stretch of bytes that ends with FF D9, its only FF D9. */
  predicate EndsOnce(f: Bytes) {
    && |f| >= 2 && f[|f| - 2] == 0xFF && f[|f| - 1] == 0xD9
    && forall i :: 0 <= i < |f| - 2 ==> !(f[i] == 0xFF && f[i + 1] == 0xD9)
  }

  lemma {:induction false} OneSegment(f: Bytes)
    requires IsSegment(f)
    ensures Split(f) == Parts([f], [])
  {
    FlattenOne(f);
    assert f + [] == f;
    SplitIsTheFactorisation(f, [f], []);
  }

  lemma {:induction false} EmitOne(f: Bytes)
    ensures EmitV1([f]) == if |f| >= 2 && f[0] == 0xFF && f[1] == 0xD8 then [f] else []
    ensures EmitV2([f]) == if |f| >= 2 && f[0] == 0xFF && f[1] == 0xD8 && |f| <= 2_097_152 then [f] else []
  {
    assert [f][..0] == [];
    assert EmitV1([f][..0]) == [] && EmitV2([f][..0]) == [];
  }

  /** Such a stretch is read as one segment, and emitted exactly if it starts with FF D8 and, in v2, has at
      most 2097152 bytes. */
  lemma {:induction false} ReadInBytes(f: Bytes)
    requires EndsOnce(f)
    ensures Split(f).segments == [f] && Split(f).residue == []
    ensures EmitV1(Split(f).segments) == if f[0] == 0xFF && f[1] == 0xD8 then [f] else []
    ensures EmitV2(Split(f).segments) == if f[0] == 0xFF && f[1] == 0xD8 && |f| <= 2_097_152 then [f] else []
  {
    OneSegment(f);
    EmitOne(f);
  }

  /** Without FF D9 nothing is ever complete. */
  lemma {:induction false} UnfinishedInBytes(input: Bytes)
    requires forall i :: 0 <= i < |input| - 1 ==> !(input[i] == 0xFF && input[i + 1] == 0xD9)
    ensures Split(input).segments == [] && Split(input).residue == input
  {
    assert [] + input == input;
    assert Flatten([]) == [];
    SplitIsTheFactorisation(input, [], input);
  }

  // ----- round trip and self-synchronisation -----

  lemma {:induction false} FlattenConcat(a: seq<Bytes>, b: seq<Bytes>)
    ensures Flatten(a + b) == Flatten(a) + Flatten(b)
  {
    if b == [] {
      assert a + b == a;
    } else {
      FlattenConcat(a, b[..|b| - 1]);
      assert (a + b)[..|a + b| - 1] == a + b[..|b| - 1];
    }
  }

  lemma {:induction false} EmitConcat(a: seq<Bytes>, b: seq<Bytes>)
    ensures EmitV1(a + b) == EmitV1(a) + EmitV1(b)
    ensures EmitV2(a + b) == EmitV2(a) + EmitV2(b)
  {
    if b == [] {
      assert a + b == a;
    } else {
      EmitConcat(a, b[..|b| - 1]);
      assert (a + b)[..|a + b| - 1] == a + b[..|b| - 1];
    }
  }

  lemma {:induction false} EmitAll(fs: seq<Bytes>)
    requires forall f :: f in fs ==> StartsWithSoi(f)
    ensures EmitV1(fs) == fs
    ensures (forall f :: f in fs ==> |f| <= MAX_FRAME_V2) ==> EmitV2(fs) == fs
  {
    if fs != [] {
      EmitAll(fs[..|fs| - 1]);
      assert fs[..|fs| - 1] + [fs[|fs| - 1]] == fs;
    }
  }

  /** Frames written back to back are read back, all of them and nothing else. */
  lemma {:induction false} RoundTrip(fs: seq<Bytes>)
    requires forall f :: f in fs ==> WellFormed(f)
    ensures Split(Flatten(fs)) == Parts(fs, [])
    ensures EmitV1(Split(Flatten(fs)).segments) == fs
    ensures (forall f :: f in fs ==> |f| <= MAX_FRAME_V2) ==> EmitV2(Split(Flatten(fs)).segments) == fs
  {
    SplitIsTheFactorisation(Flatten(fs), fs, []);
    EmitAll(fs);
  }

  /** A stretch without EOI in front of a frame does not hide the end of that frame, nor does the
      seam make a new EOI: the frame begins with FF. */
  lemma {:induction false} JoinedIsSegment(residue: Bytes, frame: Bytes)
    requires NoEoi(residue) && WellFormed(frame)
    ensures IsSegment(residue + frame)
  {
    var joined := residue + frame;
    forall i | i < |joined| - 2
      ensures !EoiAt(joined, i)
    {
      if i < |residue| - 1 {
        assert EoiAt(joined, i) ==> EoiAt(residue, i);
      } else if i >= |residue| {
        assert EoiAt(joined, i) ==> EoiAt(frame, i - |residue|);
      }
    }
    assert EoiAt(frame, |frame| - 2);
  }

  lemma {:induction false} FlattenOne(s: Bytes)
    ensures Flatten([s]) == s
  {
    FlattenAppend([], s);
    assert [] + [s] == [s];
  }

  lemma {:induction false} FlattenJoined(segments: seq<Bytes>, residue: Bytes, first: Bytes, rest: seq<Bytes>)
    ensures Flatten(segments + [residue + first] + rest) == Flatten(segments) + residue + Flatten([first] + rest)
  {
    var joined := residue + first;
    FlattenConcat(segments + [joined], rest);
    FlattenAppend(segments, joined);
    FlattenConcat([first], rest);
    FlattenOne(first);
    Reassociate(Flatten(segments), residue, first, Flatten(rest));
  }

  lemma {:induction false} Reassociate(a: Bytes, b: Bytes, c: Bytes, d: Bytes)
    ensures a + (b + c) + d == a + b + (c + d)
  {
  }

  lemma {:induction false} JoinedFactorisation(noise: Bytes, p: Parts, first: Bytes, rest: seq<Bytes>)
    requires IsFactorisation(noise, p.segments, p.residue)
    requires WellFormed(first) && forall f :: f in rest ==> WellFormed(f)
    ensures IsFactorisation(noise + Flatten([first] + rest), p.segments + [p.residue + first] + rest, [])
  {
    JoinedIsSegment(p.residue, first);
    FlattenJoined(p.segments, p.residue, first, rest);
    var segments := p.segments + [p.residue + first] + rest;
    var all := Flatten(segments);
    assert all + [] == all;
  }

  /** What noise in front of a frame does: whatever the noise left unfinished is joined to that
      frame, and the cut after it falls where it should. */
  lemma {:induction false} NoiseThenFrames(noise: Bytes, fs: seq<Bytes>)
    requires fs != [] && forall f :: f in fs ==> WellFormed(f)
    ensures Split(noise + Flatten(fs)) ==
            Parts(Split(noise).segments + [Split(noise).residue + fs[0]] + fs[1..], [])
  {
    var p, first, rest := Split(noise), fs[0], fs[1..];
    SplitFactorises(noise);
    assert first in fs && fs == [first] + rest;
    JoinedFactorisation(noise, p, first, rest);
    SplitIsTheFactorisation(noise + Flatten(fs), p.segments + [p.residue + first] + rest, []);
  }

  lemma {:induction false} FactorisationAppended(before: seq<Bytes>, noise: Bytes, p: Parts)
    requires IsFactorisation(noise, p.segments, p.residue) && forall f :: f in before ==> WellFormed(f)
    ensures IsFactorisation(Flatten(before) + noise, before + p.segments, p.residue)
  {
    FlattenConcat(before, p.segments);
    var f, g := Flatten(before), Flatten(p.segments);
    assert f + (g + p.residue) == (f + g) + p.residue;
  }

  lemma {:induction false} FramesThenNoise(before: seq<Bytes>, noise: Bytes)
    requires forall f :: f in before ==> WellFormed(f)
    ensures Split(Flatten(before) + noise) == Parts(before + Split(noise).segments, Split(noise).residue)
  {
    var p := Split(noise);
    SplitFactorises(noise);
    FactorisationAppended(before, noise, p);
    SplitIsTheFactorisation(Flatten(before) + noise, before + p.segments, p.residue);
  }

  ghost predicate Frames(fs: seq<Bytes>) {
    forall f :: f in fs ==> WellFormed(f)
  }

  predicate Small(fs: seq<Bytes>) {
    forall f :: f in fs ==> |f| <= MAX_FRAME_V2
  }

  lemma {:induction false} CutsAround(before: seq<Bytes>, noise: Bytes, after: seq<Bytes>)
    requires Frames(before) && Frames(after) && after != []
    ensures Split(Flatten(before) + noise + Flatten(after)) ==
            Parts(before + Split(noise).segments + [Split(noise).residue + after[0]] + after[1..], [])
  {
    FramesThenNoise(before, noise);
    NoiseThenFrames(Flatten(before) + noise, after);
  }

  /** Self-synchronisation. Good frames, any noise, good frames: everything before the noise and
      everything after the first frame behind it comes out verbatim and in order. What comes out
      in between is what the noise itself contains plus at most one joined frame, and the first
      frame behind the noise is intact exactly when the noise left nothing unfinished. In v1 this
      holds for frames of any size, in v2 for frames that fit its buffers. */
  lemma {:induction false} SelfSynchronising(before: seq<Bytes>, noise: Bytes, after: seq<Bytes>)
    requires Frames(before) && Frames(after) && after != []
    ensures var p := Split(noise);
            var all := Split(Flatten(before) + noise + Flatten(after));
            var joined := [p.residue + after[0]];
            && all.residue == []
            && EmitV1(all.segments) == before + EmitV1(p.segments) + EmitV1(joined) + after[1..]
            && |EmitV1(joined)| <= 1
            && (EmitV1(joined) == [after[0]] <==> p.residue == [])
            && (Small(before) && Small(after) ==>
                  && EmitV2(all.segments) == before + EmitV2(p.segments) + EmitV2(joined) + after[1..]
                  && |EmitV2(joined)| <= 1
                  && (EmitV2(joined) == [after[0]] <==> p.residue == []))
  {
    var p, rest := Split(noise), after[1..];
    CutsAround(before, noise, after);
    assert Frames(rest) by {
      assert forall f :: f in rest ==> f in after;
    }
    assert Small(after) ==> Small(rest);
    EmittedAround(before, p.segments, p.residue + after[0], rest);
    assert after[0] in after;
    EmittedJoined(p.residue, after[0]);
  }

  lemma {:induction false} EmittedJoined(residue: Bytes, frame: Bytes)
    requires StartsWithSoi(frame)
    ensures var joined := [residue + frame];
            && |EmitV1(joined)| <= 1 && |EmitV2(joined)| <= 1
            && (EmitV1(joined) == [frame] <==> residue == [])
            && (|frame| <= MAX_FRAME_V2 ==> (EmitV2(joined) == [frame] <==> residue == []))
  {
    EmitNext([], residue + frame);
    assert [] + [residue + frame] == [residue + frame];
    assert residue == [] ==> residue + frame == frame;
    assert |residue + frame| == |residue| + |frame|;
  }

  lemma {:induction false} EmittedAround(before: seq<Bytes>, middle: seq<Bytes>, joined: Bytes, after: seq<Bytes>)
    requires Frames(before) && Frames(after)
    ensures var all := before + middle + [joined] + after;
            && EmitV1(all) == before + EmitV1(middle) + EmitV1([joined]) + after
            && (Small(before) && Small(after) ==>
                  EmitV2(all) == before + EmitV2(middle) + EmitV2([joined]) + after)
  {
    EmitConcat(before + middle + [joined], after);
    EmitConcat(before + middle, [joined]);
    EmitConcat(before, middle);
    EmitAll(before);
    EmitAll(after);
  }

  /** v2 behind noise: every frame after the first comes out. */
  lemma {:induction false} EmitsTheRest(noise: Bytes, first: Bytes, rest: seq<Bytes>)
    requires forall f :: f in [first] + rest ==> WellFormed(f) && |f| <= MAX_FRAME_V2
    ensures exists some: seq<Bytes> :: EmitV2(Split(noise + Flatten([first] + rest)).segments) == some + rest
  {
    var fs := [first] + rest;
    var p := Split(noise);
    assert first in fs && fs[1..] == rest && forall f :: f in rest ==> f in fs;
    NoiseThenFrames(noise, fs);
    var joined := p.segments + [p.residue + first];
    EmitConcat(joined, rest);
    EmitAll(rest);
    var some := EmitV2(joined);
    assert EmitV2(joined + rest) == some + rest;
  }

  // ----- what is emitted -----

  predicate FitsV2(s: Bytes) {
    StartsWithSoi(s) ==> |s| <= MAX_FRAME_V2
  }

  lemma {:induction false} SegmentWithSoi(s: Bytes)
    requires IsSegment(s)
    ensures StartsWithSoi(s) <==> WellFormed(s)
    ensures StartsWithSoi(s) ==> |s| >= 4
  {
    assert EoiAt(s, |s| - 2);
  }

  lemma {:induction false} EmittedByV1(segments: seq<Bytes>)
    requires forall s :: s in segments ==> IsSegment(s)
    ensures forall f :: f in EmitV1(segments) <==> f in segments && WellFormed(f)
    ensures forall f :: f in EmitV1(segments) ==> |f| >= 4
  {
    if segments != [] {
      var n := |segments| - 1;
      EmittedByV1(segments[..n]);
      SegmentWithSoi(segments[n]);
      assert segments == segments[..n] + [segments[n]];
    }
  }

  lemma {:induction false} EmittedByV2(segments: seq<Bytes>)
    requires forall s :: s in segments ==> IsSegment(s)
    ensures forall f :: f in EmitV2(segments) <==> f in segments && WellFormed(f) && |f| <= MAX_FRAME_V2
  {
    if segments != [] {
      var n := |segments| - 1;
      EmittedByV2(segments[..n]);
      SegmentWithSoi(segments[n]);
      assert segments == segments[..n] + [segments[n]];
    }
  }

  lemma {:induction false} EmittedAlike(segments: seq<Bytes>)
    ensures |EmitV2(segments)| <= |EmitV1(segments)|
    ensures EmitV1(segments) == EmitV2(segments) <==> forall s :: s in segments ==> FitsV2(s)
  {
    if segments != [] {
      var n := |segments| - 1;
      EmittedAlike(segments[..n]);
      EmitAgreeStep(EmitV1(segments[..n]), EmitV2(segments[..n]), segments[n]);
      assert segments == segments[..n] + [segments[n]];
    }
  }

  /** Both versions emit only complete frames of at least four bytes, each a segment of the
      stream; v2 drops exactly the oversized ones, so the two agree exactly when no segment that
      starts with SOI is larger than the v2 buffer. */
  lemma {:induction false} Emitted(segments: seq<Bytes>)
    requires forall s :: s in segments ==> IsSegment(s)
    ensures forall f :: f in EmitV1(segments) <==> f in segments && WellFormed(f)
    ensures forall f :: f in EmitV2(segments) <==> f in segments && WellFormed(f) && |f| <= MAX_FRAME_V2
    ensures forall f :: f in EmitV1(segments) ==> |f| >= 4
    ensures |EmitV2(segments)| <= |EmitV1(segments)|
    ensures EmitV1(segments) == EmitV2(segments) <==> forall s :: s in segments ==> FitsV2(s)
  {
    EmittedByV1(segments);
    EmittedByV2(segments);
    EmittedAlike(segments);
  }

  lemma {:induction false} EmitAgreeStep(e1: seq<Bytes>, e2: seq<Bytes>, s: Bytes)
    requires |e2| <= |e1|
    ensures var e1' := e1 + if StartsWithSoi(s) then [s] else [];
            var e2' := e2 + if StartsWithSoi(s) && |s| <= MAX_FRAME_V2 then [s] else [];
            e1' == e2' <==> e1 == e2 && FitsV2(s)
  {
    if StartsWithSoi(s) && |s| <= MAX_FRAME_V2 {
      assert (e1 + [s])[..|e1|] == e1 && (e2 + [s])[..|e2|] == e2;
    } else if StartsWithSoi(s) {
      assert |e1 + [s]| > |e2 + []|;
    } else {
      assert e1 + [] == e1 && e2 + [] == e2;
    }
  }
}
