/** The v1 pipeline with any number of cameras and workers over one global buffer pool: readers,
    capture loops, dispatchers and workers take their steps in any order. A camera either has a
    persistent reader or captures single images. A step that is not enabled changes nothing, so
    every sequence of steps is a run. */
module FramePipeline {
  import opened JpegStream
  import opened FrameStore

  datatype Config = Config(
    persistent: set<nat>,   // the cameras with a persistent reader
    channel: nat,           // capacity of the channel from reader to capture loop
    buffer: nat,            // capacity of the frame buffer
    jobs: nat)              // capacity of the queue of the worker pool

  /** Where a capture loop stands. */
  datatype Loop =
    | Idle
    | Flushing   // has a frame, looks for newer ones
    | Pushing    // in Push, before the first select
    | Evicting   // the frame buffer was full
    | Sending    // made room, before the second send

  /** What a camera keeps besides slices. */
  datatype Local = Local(
    input: Bytes,   // what its reader has read so far
    frame: Bytes,   // the reader's bytes.Buffer; without a reader, the image just captured
    loop: Loop,
    busy: bool)     // its dispatcher runs a job itself

  datatype System = System(st: Store, cams: map<nat, Local>)

  datatype Step =
    | ReadByte(cam: nat, b: Byte)                   // the reader reads on
    | TakeBuffer(cam: nat, found: Found)            // a segment is complete: get a buffer
    | CopyFrame(cam: nat)                           // copy the segment into it
    | SendFrame(cam: nat)                           // it starts with SOI and the channel has room
    | DropFrame(cam: nat)                           // it starts with SOI, the channel is full
    | IgnoreFrame(cam: nat)                         // it does not start with SOI
    | Tick(cam: nat)                                // the capture loop takes a frame
    | FlushNext(cam: nat)                           // finds a newer one
    | FlushRelease(cam: nat)                        // releases the older one
    | FlushAdopt(cam: nat)                          // goes on with the newer one
    | FlushEnd(cam: nat)                            // finds no newer one
    | Capture(cam: nat, data: Bytes, found: Found)  // without a reader: an image, and a buffer for it
    | CopyCapture(cam: nat)                         // copy the image into it
    | TryPush(cam: nat)                             // Push: send if there is room
    | Evict(cam: nat)                               // Push: take the oldest frame out, if any is left
    | ReleaseEvicted(cam: nat)                      // Push: release it
    | SendPush(cam: nat)                            // Push: the second send
    | Dispatch(cam: nat)                            // the dispatcher pops a frame
    | Submit(cam: nat)                              // submits it; if the queue is full, keeps it
    | TakeJob(worker: nat)                          // a worker takes a job
    | PublishJob(place: Place, ok: bool)            // Process: publish
    | SaveJob(place: Place)                         // Process: save the frame
    | FinishJob(place: Place)                       // Process: the deferred release
    | CollectBuffer(buf: nat)                       // the pool drops a buffer

  function LocalOf(s: System, cam: nat): Local {
    if cam in s.cams then s.cams[cam] else Local([], [], Idle, false)
  }

  function Frame(s: System, cam: nat): Bytes {
    LocalOf(s, cam).frame
  }

  function LoopOf(s: System, cam: nat): Loop {
    LocalOf(s, cam).loop
  }

  const START := System(Store(multiset{}, 0, map[], map[], map[], [], [], []), map[])

  /** Whoever holds a job to run: a worker, or a dispatcher that found the queue full. */
  predicate Works(s: System, p: Place) {
    p.Worker? || (p.Dispatcher? && LocalOf(s, p.cam).busy)
  }

  /** When a step can be taken. */
  predicate Enabled(c: Config, s: System, step: Step) {
    match step
    case ReadByte(cam, b) => cam in c.persistent && !EndsWithEoi(Frame(s, cam))
    case TakeBuffer(cam, found) =>
      cam in c.persistent && EndsWithEoi(Frame(s, cam)) && Held(s.st, Reader(cam)) == [] && CanGet(s.st, found)
    case CopyFrame(cam) => FirstIs(s.st, Reader(cam), Raw)
    case SendFrame(cam) =>
      FirstIs(s.st, Reader(cam), Ready) && StartsWithSoi(Frame(s, cam)) && |Held(s.st, Channel(cam))| < c.channel
    case DropFrame(cam) =>
      FirstIs(s.st, Reader(cam), Ready) && StartsWithSoi(Frame(s, cam)) && |Held(s.st, Channel(cam))| >= c.channel
    case IgnoreFrame(cam) => FirstIs(s.st, Reader(cam), Ready) && !StartsWithSoi(Frame(s, cam))
    case Tick(cam) => LoopOf(s, cam).Idle? && Held(s.st, Channel(cam)) != []
    case FlushNext(cam) => LoopOf(s, cam).Flushing? && Held(s.st, Next(cam)) == [] && Held(s.st, Channel(cam)) != []
    case FlushRelease(cam) => LoopOf(s, cam).Flushing? && Held(s.st, Next(cam)) != [] && Held(s.st, Hand(cam)) != []
    case FlushAdopt(cam) => LoopOf(s, cam).Flushing? && Held(s.st, Next(cam)) != [] && Held(s.st, Hand(cam)) == []
    case FlushEnd(cam) => LoopOf(s, cam).Flushing? && Held(s.st, Next(cam)) == [] && Held(s.st, Channel(cam)) == []
    case Capture(cam, data, found) =>
      cam !in c.persistent && LoopOf(s, cam).Idle? && Held(s.st, Hand(cam)) == [] && data != [] && CanGet(s.st, found)
    case CopyCapture(cam) => FirstIs(s.st, Hand(cam), Raw)
    case TryPush(cam) => LoopOf(s, cam).Pushing? && Held(s.st, Hand(cam)) != []
    case Evict(cam) => LoopOf(s, cam).Evicting? && Held(s.st, Evicted(cam)) == []
    case ReleaseEvicted(cam) => LoopOf(s, cam).Evicting? && Held(s.st, Evicted(cam)) != []
    case SendPush(cam) =>
      LoopOf(s, cam).Sending? && Held(s.st, Hand(cam)) != [] && |Held(s.st, Buffer(cam))| < c.buffer
    case Dispatch(cam) => Held(s.st, Dispatcher(cam)) == [] && Held(s.st, Buffer(cam)) != []
    case Submit(cam) => Held(s.st, Dispatcher(cam)) != [] && !LocalOf(s, cam).busy
    case TakeJob(worker) => Held(s.st, Worker(worker)) == [] && Held(s.st, Jobs) != []
    case PublishJob(p, ok) => Works(s, p) && FirstIs(s.st, p, Ready)
    case SaveJob(p) => Works(s, p) && FirstIs(s.st, p, Published)
    case FinishJob(p) => Works(s, p) && (FirstIs(s.st, p, Published) || FirstIs(s.st, p, Done))
    case CollectBuffer(buf) => true
  }

  /** What a step does with slices. */
  function OpOf(c: Config, s: System, step: Step): Op {
    match step
    case ReadByte(_, _) => Nop
    case TakeBuffer(cam, found) => GetOp(Reader(cam), cam, Frame(s, cam), found)
    case CopyFrame(cam) => CopyOp(Reader(cam), Frame(s, cam))
    case SendFrame(cam) => MoveOp(Reader(cam), Channel(cam))
    case DropFrame(cam) => ReleaseOp(Reader(cam))
    case IgnoreFrame(cam) => AbandonOp(Reader(cam))
    case Tick(cam) => MoveOp(Channel(cam), Hand(cam))
    case FlushNext(cam) => MoveOp(Channel(cam), Next(cam))
    case FlushRelease(cam) => ReleaseOp(Hand(cam))
    case FlushAdopt(cam) => MoveOp(Next(cam), Hand(cam))
    case FlushEnd(_) => Nop
    case Capture(cam, data, found) => GetOp(Hand(cam), cam, data, found)
    case CopyCapture(cam) => CopyOp(Hand(cam), Frame(s, cam))
    case TryPush(cam) => if |Held(s.st, Buffer(cam))| < c.buffer then MoveOp(Hand(cam), Buffer(cam)) else Nop
    case Evict(cam) => if Held(s.st, Buffer(cam)) == [] then Nop else MoveOp(Buffer(cam), Evicted(cam))
    case ReleaseEvicted(cam) => ReleaseOp(Evicted(cam))
    case SendPush(cam) => MoveOp(Hand(cam), Buffer(cam))
    case Dispatch(cam) => MoveOp(Buffer(cam), Dispatcher(cam))
    case Submit(cam) => if |Held(s.st, Jobs)| < c.jobs then MoveOp(Dispatcher(cam), Jobs) else Nop
    case TakeJob(worker) => MoveOp(Jobs, Worker(worker))
    case PublishJob(p, ok) => PublishOp(p, ok)
    case SaveJob(p) => SaveOp(p)
    case FinishJob(p) => ReleaseOp(p)
    case CollectBuffer(buf) => CollectOp(buf)
  }

  /** What a step does to the camera whose goroutines take it, besides. */
  function LocalAfter(c: Config, s: System, step: Step, l: Local): Local {
    match step
    case ReadByte(_, b) => l.(input := l.input + [b], frame := l.frame + [b])
    case SendFrame(_) => l.(frame := [])
    case DropFrame(_) => l.(frame := [])
    case IgnoreFrame(_) => l.(frame := [])
    case Tick(_) => l.(loop := Flushing)
    case FlushEnd(_) => l.(loop := Pushing)
    case Capture(_, data, _) => l.(frame := data)
    case CopyCapture(_) => l.(loop := Pushing)
    case TryPush(cam) => l.(loop := if |Held(s.st, Buffer(cam))| < c.buffer then Idle else Evicting)
    case Evict(cam) => if Held(s.st, Buffer(cam)) == [] then l.(loop := Sending) else l
    case ReleaseEvicted(_) => l.(loop := Sending)
    case SendPush(_) => l.(loop := Idle)
    case Submit(cam) => if |Held(s.st, Jobs)| < c.jobs then l else l.(busy := true)
    case FinishJob(_) => l.(busy := false)
    case _ => l
  }

  /** Steps of a worker or of the pool. */
  predicate OfNoCamera(step: Step) {
    match step
    case TakeJob(_) => true
    case CollectBuffer(_) => true
    case PublishJob(p, _) => !p.Dispatcher?
    case SaveJob(p) => !p.Dispatcher?
    case FinishJob(p) => !p.Dispatcher?
    case _ => false
  }

  function CameraOf(step: Step): nat
    requires !OfNoCamera(step)
  {
    match step
    case PublishJob(p, _) => p.cam
    case SaveJob(p) => p.cam
    case FinishJob(p) => p.cam
    case _ => step.cam
  }

  predicate Touches(step: Step, cam: nat) {
    !OfNoCamera(step) && CameraOf(step) == cam
  }

  function Do(c: Config, s: System, step: Step): System {
    if !Enabled(c, s, step) then s
    else
      var st := Apply(s.st, OpOf(c, s, step));
      if OfNoCamera(step) then s.(st := st)
      else
        var cam := CameraOf(step);
        System(st, s.cams[cam := LocalAfter(c, s, step, LocalOf(s, cam))])
  }

  function Run(c: Config, steps: seq<Step>): System {
    if steps == [] then START
    else Do(c, Run(c, steps[..|steps| - 1]), steps[|steps| - 1])
  }

  // ----- what always holds: where slices are -----

  predicate IsJpeg(c: Config, made: seq<Bytes>, h: Slice) {
    h.index < |made| && (h.cam in c.persistent ==> StartsWithSoi(made[h.index]))
  }

  /** The capture loop of the slice's own camera has put it into its frame buffer. */
  predicate IsOwned(h: Slice) {
    h.owner == h.cam
  }

  /** Which slices may be where. `made` are the frames of the slice's camera. */
  predicate Fits(c: Config, made: seq<Bytes>, p: Place, h: Slice) {
    match p
    case Reader(cam) => h.cam == cam && cam in c.persistent && h.stage in {Raw, Ready}
    case Channel(cam) => h.cam == cam && cam in c.persistent && h.stage.Ready? && IsJpeg(c, made, h)
    case Next(cam) => h.cam == cam && cam in c.persistent && h.stage.Ready? && IsJpeg(c, made, h)
    case Hand(cam) => h.cam == cam && (h.stage.Ready? || (h.stage.Raw? && cam !in c.persistent)) && IsJpeg(c, made, h)
    case Evicted(cam) => h.cam == cam && h.stage.Ready? && IsOwned(h) && IsJpeg(c, made, h)
    case Buffer(cam) => h.cam == cam && h.stage.Ready? && IsOwned(h) && IsJpeg(c, made, h)
    case Dispatcher(cam) => h.cam == cam && !h.stage.Raw? && IsOwned(h) && IsJpeg(c, made, h)
    case Jobs => h.stage.Ready? && IsOwned(h) && IsJpeg(c, made, h)
    case Worker(_) => !h.stage.Raw? && IsOwned(h) && IsJpeg(c, made, h)
  }

  predicate FitsAt(c: Config, st: Store, p: Place, i: int)
    requires At(st, p, i)
  {
    Fits(c, Made(st, Held(st, p)[i].cam), p, Held(st, p)[i])
  }

  ghost predicate Places(c: Config, st: Store) {
    forall p, i :: At(st, p, i) ==> FitsAt(c, st, p, i)
  }

  predicate JpegOutput(c: Config, st: Store, o: Output) {
    o.cam in c.persistent ==> o.index < |Made(st, o.cam)| && StartsWithSoi(Made(st, o.cam)[o.index])
  }

  ghost predicate OutputsAreJpeg(c: Config, st: Store) {
    && (forall n :: 0 <= n < |st.published| ==> JpegOutput(c, st, st.published[n]))
    && (forall n :: 0 <= n < |st.stored| ==> JpegOutput(c, st, st.stored[n]))
  }

  // ----- what always holds: one camera -----

  /** Everything that belongs to one camera. */
  datatype View = View(
    local: Local, made: seq<Bytes>,
    reader: seq<Slice>, channel: seq<Slice>, hand: seq<Slice>, next: seq<Slice>,
    evicted: seq<Slice>, buffer: seq<Slice>, dispatcher: seq<Slice>)

  function ViewOf(s: System, cam: nat): View {
    View(LocalOf(s, cam), Made(s.st, cam),
         Held(s.st, Reader(cam)), Held(s.st, Channel(cam)), Held(s.st, Hand(cam)), Held(s.st, Next(cam)),
         Held(s.st, Evicted(cam)), Held(s.st, Buffer(cam)), Held(s.st, Dispatcher(cam)))
  }

  predicate LastMade(v: View, h: Slice) {
    |v.made| == h.index + 1 && v.made[h.index] == v.local.frame
  }

  /** What a reader has made so far are the segments of what it has read; while a complete segment is
      still in its bytes.Buffer, it is the last one. */
  predicate StreamOk(v: View) {
    var p := Split(v.local.input);
    (v.hand != [] ==> v.hand[0].stage.Ready?) &&
    if EndsWithEoi(v.local.frame) then
      && p.residue == []
      && p.segments == (if v.reader == [] then v.made + [v.local.frame] else v.made)
      && (v.reader != [] ==> LastMade(v, v.reader[0]))
    else v.reader == [] && p.segments == v.made && p.residue == v.local.frame
  }

  /** The image a camera without a reader is copying is the last one it made. */
  predicate PictureOk(v: View) {
    && v.reader == [] && v.channel == [] && v.next == []
    && (v.hand != [] && v.hand[0].stage.Raw? ==> LastMade(v, v.hand[0]))
  }

  predicate IsReady(hs: seq<Slice>) {
    |hs| == 1 && hs[0].stage.Ready?
  }

  /** How many slices each goroutine holds, by where the capture loop stands. In particular the second
      send of `Push` always finds room. */
  predicate LoopOk(c: Config, v: View) {
    var room := c.buffer >= 1 ==> |v.buffer| < c.buffer;
    match v.local.loop
    case Idle => v.next == [] && v.evicted == [] && (v.hand == [] || (|v.hand| == 1 && v.hand[0].stage.Raw?))
    case Flushing => v.evicted == [] && ((v.hand == [] && |v.next| == 1) || (IsReady(v.hand) && |v.next| <= 1))
    case Pushing => IsReady(v.hand) && v.next == [] && v.evicted == []
    case Evicting => IsReady(v.hand) && v.next == [] && (v.evicted == [] || (|v.evicted| == 1 && room))
    case Sending => IsReady(v.hand) && v.next == [] && v.evicted == [] && room
  }

  predicate BoundsOk(c: Config, v: View) {
    && |v.buffer| <= c.buffer && |v.channel| <= c.channel && |v.reader| <= 1 && |v.dispatcher| <= 1
    && (v.dispatcher == [] ==> !v.local.busy)
    && (v.dispatcher != [] && !v.local.busy ==> v.dispatcher[0].stage.Ready?)
  }

  predicate CameraOk(c: Config, cam: nat, v: View) {
    (if cam in c.persistent then StreamOk(v) else PictureOk(v)) && LoopOk(c, v) && BoundsOk(c, v)
  }

  ghost predicate Cameras(c: Config, s: System) {
    forall cam :: CameraOk(c, cam, ViewOf(s, cam))
  }

  ghost predicate Invariant(c: Config, s: System) {
    Sound(s.st) && Places(c, s.st) && Cameras(c, s) && OutputsAreJpeg(c, s.st)
  }

  // ----- one step, seen from one camera -----

  /** The first slice that the step takes, if it takes one, is where it fits. */
  predicate FirstFits(c: Config, s: System, step: Step) {
    var op := OpOf(c, s, step);
    op.CopyOp? || op.MoveOp? || op.ReleaseOp? || op.AbandonOp? || op.PublishOp? || op.SaveOp? ==>
      At(s.st, op.p, 0) && FitsAt(c, s.st, op.p, 0)
  }

  /** The view of a camera after a step. */
  function ViewAfter(c: Config, s: System, step: Step, cam: nat): View
    requires Enabled(c, s, step)
  {
    var l := LocalOf(s, cam);
    ViewWith(s, OpOf(c, s, step), if Touches(step, cam) then LocalAfter(c, s, step, l) else l, cam)
  }

  function ViewWith(s: System, op: Op, l: Local, cam: nat): View
    requires Possible(s.st, op)
  {
    View(l, MadeAfter(s.st, op, cam),
         HeldAfter(s.st, op, Reader(cam)), HeldAfter(s.st, op, Channel(cam)), HeldAfter(s.st, op, Hand(cam)),
         HeldAfter(s.st, op, Next(cam)), HeldAfter(s.st, op, Evicted(cam)), HeldAfter(s.st, op, Buffer(cam)),
         HeldAfter(s.st, op, Dispatcher(cam)))
  }

  lemma {:induction false} ViewOfApplied(s: System, s': System, op: Op, cam: nat)
    requires Possible(s.st, op) && s'.st == Apply(s.st, op)
    ensures ViewOf(s', cam) == ViewWith(s, op, LocalOf(s', cam), cam)
  {
    ApplyMade(s.st, op, cam);
    ApplyHeld(s.st, op, Reader(cam));
    ApplyHeld(s.st, op, Channel(cam));
    ApplyHeld(s.st, op, Hand(cam));
    ApplyHeld(s.st, op, Next(cam));
    ApplyHeld(s.st, op, Evicted(cam));
    ApplyHeld(s.st, op, Buffer(cam));
    ApplyHeld(s.st, op, Dispatcher(cam));
  }

  lemma {:induction false} ReaderOrPushIsPossible(c: Config, s: System, step: Step)
    requires Enabled(c, s, step) && ReaderOrPush(step)
    ensures Possible(s.st, OpOf(c, s, step))
  {
  }

  lemma {:induction false} FlushOrWorkIsPossible(c: Config, s: System, step: Step)
    requires Enabled(c, s, step) && !ReaderOrPush(step)
    ensures Possible(s.st, OpOf(c, s, step))
  {
  }

  lemma {:induction false} StepIsPossible(c: Config, s: System, step: Step)
    requires Enabled(c, s, step)
    ensures Possible(s.st, OpOf(c, s, step))
  {
    if ReaderOrPush(step) {
      ReaderOrPushIsPossible(c, s, step);
    } else {
      FlushOrWorkIsPossible(c, s, step);
    }
  }

  lemma {:induction false} LocalAfterStep(c: Config, s: System, step: Step, cam: nat)
    requires Enabled(c, s, step) && Possible(s.st, OpOf(c, s, step))
    ensures LocalOf(Do(c, s, step), cam) ==
            if Touches(step, cam) then LocalAfter(c, s, step, LocalOf(s, cam)) else LocalOf(s, cam)
    ensures Do(c, s, step).st == Apply(s.st, OpOf(c, s, step))
  {
  }

  lemma {:induction false} ViewAfterStep(c: Config, s: System, step: Step, cam: nat)
    requires Enabled(c, s, step)
    ensures ViewOf(Do(c, s, step), cam) == ViewAfter(c, s, step, cam)
  {
    StepIsPossible(c, s, step);
    LocalAfterStep(c, s, step, cam);
    ViewOfApplied(s, Do(c, s, step), OpOf(c, s, step), cam);
  }

  // Cameras that a step does not touch.

  predicate OfCamera(p: Place, cam: nat) {
    match p
    case Jobs => false
    case Worker(_) => false
    case _ => p.cam == cam
  }

  predicate Elsewhere(op: Op, cam: nat) {
    match op
    case Nop => true
    case GetOp(p, k, _, _) => !OfCamera(p, cam) && k != cam
    case MoveOp(p, q) => !OfCamera(p, cam) && !OfCamera(q, cam)
    case CollectOp(_) => true
    case _ => !OfCamera(op.p, cam)
  }

  lemma {:induction false} OpElsewhere(c: Config, s: System, step: Step, cam: nat)
    requires Enabled(c, s, step) && !Touches(step, cam)
    ensures Elsewhere(OpOf(c, s, step), cam)
  {
  }

  lemma {:induction false} ElsewhereView(s: System, op: Op, cam: nat)
    requires Possible(s.st, op) && Elsewhere(op, cam)
    ensures ViewWith(s, op, LocalOf(s, cam), cam) == ViewOf(s, cam)
  {
  }

  lemma {:induction false} OtherCamera(c: Config, s: System, step: Step, cam: nat)
    requires Enabled(c, s, step) && !Touches(step, cam)
    ensures ViewAfter(c, s, step, cam) == ViewOf(s, cam)
  {
    OpElsewhere(c, s, step, cam);
    ElsewhereView(s, OpOf(c, s, step), cam);
  }

  // The camera that it touches.

  lemma {:induction false} ReadByteOk(c: Config, s: System, cam: nat, b: Byte)
    requires Enabled(c, s, ReadByte(cam, b)) && CameraOk(c, cam, ViewOf(s, cam))
    ensures CameraOk(c, cam, ViewAfter(c, s, ReadByte(cam, b), cam))
  {
    var v := ViewOf(s, cam);
    var v' := v.(local := v.local.(input := v.local.input + [b], frame := v.local.frame + [b]));
    assert ViewAfter(c, s, ReadByte(cam, b), cam) == v';
    assert v'.local.input[..|v.local.input|] == v.local.input;
    assert Split(v'.local.input) == Feed(Split(v.local.input), b);
  }

  lemma {:induction false} TakeBufferOk(c: Config, s: System, cam: nat, found: Found)
    requires Enabled(c, s, TakeBuffer(cam, found)) && CameraOk(c, cam, ViewOf(s, cam))
    ensures CameraOk(c, cam, ViewAfter(c, s, TakeBuffer(cam, found), cam))
  {
    var v, step := ViewOf(s, cam), TakeBuffer(cam, found);
    assert ViewAfter(c, s, step, cam) ==
           v.(made := v.made + [v.local.frame],
           reader := HeldAfter(s.st, OpOf(c, s, step), Reader(cam)));
  }

  lemma {:induction false} CopyFrameOk(c: Config, s: System, cam: nat)
    requires Enabled(c, s, CopyFrame(cam)) && CameraOk(c, cam, ViewOf(s, cam))
    ensures CameraOk(c, cam, ViewAfter(c, s, CopyFrame(cam), cam))
  {
    var v, step := ViewOf(s, cam), CopyFrame(cam);
    assert ViewAfter(c, s, step, cam) ==
           v.(reader := Restaged(v.reader, Ready));
  }

  lemma {:induction false} SendFrameOk(c: Config, s: System, cam: nat)
    requires Enabled(c, s, SendFrame(cam)) && CameraOk(c, cam, ViewOf(s, cam))
    ensures CameraOk(c, cam, ViewAfter(c, s, SendFrame(cam), cam))
  {
    var v, step := ViewOf(s, cam), SendFrame(cam);
    assert ViewAfter(c, s, step, cam) ==
           v.(local := v.local.(frame := []), reader := v.reader[1..],
           channel := v.channel + [v.reader[0]]);
  }

  lemma {:induction false} DropFrameOk(c: Config, s: System, cam: nat)
    requires Enabled(c, s, DropFrame(cam)) && CameraOk(c, cam, ViewOf(s, cam))
    ensures CameraOk(c, cam, ViewAfter(c, s, DropFrame(cam), cam))
  {
    var v, step := ViewOf(s, cam), DropFrame(cam);
    assert ViewAfter(c, s, step, cam) ==
           v.(local := v.local.(frame := []), reader := v.reader[1..]);
  }

  lemma {:induction false} IgnoreFrameOk(c: Config, s: System, cam: nat)
    requires Enabled(c, s, IgnoreFrame(cam)) && CameraOk(c, cam, ViewOf(s, cam))
    ensures CameraOk(c, cam, ViewAfter(c, s, IgnoreFrame(cam), cam))
  {
    var v, step := ViewOf(s, cam), IgnoreFrame(cam);
    assert ViewAfter(c, s, step, cam) ==
           v.(local := v.local.(frame := []), reader := v.reader[1..]);
  }

  lemma {:induction false} TickOk(c: Config, s: System, cam: nat)
    requires Enabled(c, s, Tick(cam)) && CameraOk(c, cam, ViewOf(s, cam))
    requires FirstFits(c, s, Tick(cam))
    ensures CameraOk(c, cam, ViewAfter(c, s, Tick(cam), cam))
  {
    var v, step := ViewOf(s, cam), Tick(cam);
    assert ViewAfter(c, s, step, cam) ==
           v.(local := v.local.(loop := Flushing), channel := v.channel[1..],
           hand := v.hand + [v.channel[0]]);
  }

  lemma {:induction false} FlushNextOk(c: Config, s: System, cam: nat)
    requires Enabled(c, s, FlushNext(cam)) && CameraOk(c, cam, ViewOf(s, cam))
    ensures CameraOk(c, cam, ViewAfter(c, s, FlushNext(cam), cam))
  {
    var v, step := ViewOf(s, cam), FlushNext(cam);
    assert ViewAfter(c, s, step, cam) ==
           v.(channel := v.channel[1..], next := v.next + [v.channel[0]]);
  }

  lemma {:induction false} FlushReleaseOk(c: Config, s: System, cam: nat)
    requires Enabled(c, s, FlushRelease(cam)) && CameraOk(c, cam, ViewOf(s, cam))
    ensures CameraOk(c, cam, ViewAfter(c, s, FlushRelease(cam), cam))
  {
    var v, step := ViewOf(s, cam), FlushRelease(cam);
    assert ViewAfter(c, s, step, cam) ==
           v.(hand := v.hand[1..]);
  }

  lemma {:induction false} FlushAdoptOk(c: Config, s: System, cam: nat)
    requires Enabled(c, s, FlushAdopt(cam)) && CameraOk(c, cam, ViewOf(s, cam))
    requires FirstFits(c, s, FlushAdopt(cam))
    ensures CameraOk(c, cam, ViewAfter(c, s, FlushAdopt(cam), cam))
  {
    var v, step := ViewOf(s, cam), FlushAdopt(cam);
    assert ViewAfter(c, s, step, cam) ==
           v.(next := v.next[1..], hand := v.hand + [v.next[0]]);
  }

  lemma {:induction false} FlushEndOk(c: Config, s: System, cam: nat)
    requires Enabled(c, s, FlushEnd(cam)) && CameraOk(c, cam, ViewOf(s, cam))
    ensures CameraOk(c, cam, ViewAfter(c, s, FlushEnd(cam), cam))
  {
    var v, step := ViewOf(s, cam), FlushEnd(cam);
    assert ViewAfter(c, s, step, cam) ==
           v.(local := v.local.(loop := Pushing));
  }

  lemma {:induction false} CaptureOk(c: Config, s: System, cam: nat, data: Bytes, found: Found)
    requires Enabled(c, s, Capture(cam, data, found)) && CameraOk(c, cam, ViewOf(s, cam))
    ensures CameraOk(c, cam, ViewAfter(c, s, Capture(cam, data, found), cam))
  {
    var v, step := ViewOf(s, cam), Capture(cam, data, found);
    assert ViewAfter(c, s, step, cam) ==
           v.(local := v.local.(frame := data), made := v.made + [data],
           hand := HeldAfter(s.st, OpOf(c, s, step), Hand(cam)));
  }

  lemma {:induction false} CopyCaptureOk(c: Config, s: System, cam: nat)
    requires Enabled(c, s, CopyCapture(cam)) && CameraOk(c, cam, ViewOf(s, cam))
    requires FirstFits(c, s, CopyCapture(cam))
    ensures CameraOk(c, cam, ViewAfter(c, s, CopyCapture(cam), cam))
  {
    var v, step := ViewOf(s, cam), CopyCapture(cam);
    assert ViewAfter(c, s, step, cam) ==
           v.(local := v.local.(loop := Pushing), hand := Restaged(v.hand, Ready));
  }

  lemma {:induction false} TryPushOk(c: Config, s: System, cam: nat)
    requires Enabled(c, s, TryPush(cam)) && CameraOk(c, cam, ViewOf(s, cam))
    ensures CameraOk(c, cam, ViewAfter(c, s, TryPush(cam), cam))
  {
    var v, step := ViewOf(s, cam), TryPush(cam);
    assert ViewAfter(c, s, step, cam) ==
           if |v.buffer| < c.buffer then
             v.(local := v.local.(loop := Idle), hand := v.hand[1..],
             buffer := v.buffer + [Signed(v.hand[0], Buffer(cam))])
           else v.(local := v.local.(loop := Evicting));
  }

  lemma {:induction false} EvictOk(c: Config, s: System, cam: nat)
    requires Enabled(c, s, Evict(cam)) && CameraOk(c, cam, ViewOf(s, cam))
    ensures CameraOk(c, cam, ViewAfter(c, s, Evict(cam), cam))
  {
    var v, step := ViewOf(s, cam), Evict(cam);
    assert ViewAfter(c, s, step, cam) ==
           if v.buffer == [] then v.(local := v.local.(loop := Sending))
           else v.(buffer := v.buffer[1..], evicted := v.evicted + [v.buffer[0]]);
  }

  lemma {:induction false} ReleaseEvictedOk(c: Config, s: System, cam: nat)
    requires Enabled(c, s, ReleaseEvicted(cam)) && CameraOk(c, cam, ViewOf(s, cam))
    ensures CameraOk(c, cam, ViewAfter(c, s, ReleaseEvicted(cam), cam))
  {
    var v, step := ViewOf(s, cam), ReleaseEvicted(cam);
    assert ViewAfter(c, s, step, cam) ==
           v.(local := v.local.(loop := Sending), evicted := v.evicted[1..]);
  }

  lemma {:induction false} SendPushOk(c: Config, s: System, cam: nat)
    requires Enabled(c, s, SendPush(cam)) && CameraOk(c, cam, ViewOf(s, cam))
    ensures CameraOk(c, cam, ViewAfter(c, s, SendPush(cam), cam))
  {
    var v, step := ViewOf(s, cam), SendPush(cam);
    assert ViewAfter(c, s, step, cam) ==
           v.(local := v.local.(loop := Idle), hand := v.hand[1..],
           buffer := v.buffer + [Signed(v.hand[0], Buffer(cam))]);
  }

  lemma {:induction false} DispatchOk(c: Config, s: System, cam: nat)
    requires Enabled(c, s, Dispatch(cam)) && CameraOk(c, cam, ViewOf(s, cam))
    requires FirstFits(c, s, Dispatch(cam))
    ensures CameraOk(c, cam, ViewAfter(c, s, Dispatch(cam), cam))
  {
    var v, step := ViewOf(s, cam), Dispatch(cam);
    assert ViewAfter(c, s, step, cam) ==
           v.(buffer := v.buffer[1..], dispatcher := v.dispatcher + [v.buffer[0]]);
  }

  lemma {:induction false} SubmitOk(c: Config, s: System, cam: nat)
    requires Enabled(c, s, Submit(cam)) && CameraOk(c, cam, ViewOf(s, cam))
    ensures CameraOk(c, cam, ViewAfter(c, s, Submit(cam), cam))
  {
    var v, step := ViewOf(s, cam), Submit(cam);
    assert ViewAfter(c, s, step, cam) ==
           if |Held(s.st, Jobs)| < c.jobs then v.(dispatcher := v.dispatcher[1..])
           else v.(local := v.local.(busy := true));
  }

  lemma {:induction false} JobOk(c: Config, s: System, step: Step, cam: nat)
    requires step in {PublishJob(Dispatcher(cam), true), PublishJob(Dispatcher(cam), false),
                      SaveJob(Dispatcher(cam)), FinishJob(Dispatcher(cam))}
    requires Enabled(c, s, step) && CameraOk(c, cam, ViewOf(s, cam))
    ensures CameraOk(c, cam, ViewAfter(c, s, step, cam))
  {
    var v := ViewOf(s, cam);
    assert ViewAfter(c, s, step, cam) ==
           if step.FinishJob? then v.(local := v.local.(busy := false), dispatcher := v.dispatcher[1..])
           else v.(dispatcher := HeldAfter(s.st, OpOf(c, s, step), Dispatcher(cam)));
  }

  // ----- slices stay where they fit -----

  /** The slice that an operation puts somewhere fits there. */
  predicate FitsAfter(c: Config, st: Store, op: Op)
    requires Possible(st, op)
  {
    match op
    case GetOp(p, cam, data, _) =>
      (p == Reader(cam) && cam in c.persistent) || (p == Hand(cam) && cam !in c.persistent)
    case MoveOp(p, q) => var h := Held(st, p)[0]; Fits(c, Made(st, h.cam), q, Signed(h, q))
    case CopyOp(p, _) => var h := Held(st, p)[0]; Fits(c, Made(st, h.cam), p, h.(stage := Ready))
    case PublishOp(p, ok) =>
      var h := Held(st, p)[0]; Fits(c, Made(st, h.cam), p, h.(stage := if ok then Published else Done))
    case SaveOp(p) => var h := Held(st, p)[0]; Fits(c, Made(st, h.cam), p, h.(stage := Done))
    case _ => true
  }

  lemma {:induction false} FitsStill(c: Config, made: seq<Bytes>, data: Bytes, p: Place, h: Slice)
    requires Fits(c, made, p, h)
    ensures Fits(c, made + [data], p, h)
  {
  }

  lemma {:induction false} PlaceKept(c: Config, st: Store, op: Op, r: Place, i: int)
    requires Places(c, st) && Possible(st, op) && FitsAfter(c, st, op) && !op.GetOp?
    requires 0 <= i < |HeldAfter(st, op, r)|
    ensures Fits(c, Made(st, HeldAfter(st, op, r)[i].cam), r, HeldAfter(st, op, r)[i])
  {
    assert At(st, r, i) ==> FitsAt(c, st, r, i);
    assert At(st, r, i + 1) ==> FitsAt(c, st, r, i + 1);
  }

  lemma {:induction false} PlaceKeptByGet(c: Config, st: Store, op: Op, r: Place, i: int)
    requires Places(c, st) && Possible(st, op) && FitsAfter(c, st, op) && op.GetOp?
    requires 0 <= i < |HeldAfter(st, op, r)|
    ensures Fits(c, MadeAfter(st, op, HeldAfter(st, op, r)[i].cam), r, HeldAfter(st, op, r)[i])
  {
    if At(st, r, i) {
      assert FitsAt(c, st, r, i);
      FitsStill(c, Made(st, Held(st, r)[i].cam), op.data, r, Held(st, r)[i]);
    }
  }

  lemma {:induction false} PlacesKept(c: Config, st: Store, op: Op)
    requires Places(c, st) && Possible(st, op) && FitsAfter(c, st, op)
    ensures Places(c, Apply(st, op))
  {
    var st' := Apply(st, op);
    forall r, i | At(st', r, i)
      ensures FitsAt(c, st', r, i)
    {
      ApplyHeld(st, op, r);
      ApplyMade(st, op, Held(st', r)[i].cam);
      if op.GetOp? {
        PlaceKeptByGet(c, st, op, r, i);
      } else {
        PlaceKept(c, st, op, r, i);
      }
    }
  }

  /** What a step does with slices is what the goroutine that takes it may do, and puts them where they
      fit. */
  lemma {:induction false} StepIsAllowed(c: Config, s: System, step: Step)
    requires Enabled(c, s, step) && Possible(s.st, OpOf(c, s, step)) && FirstFits(c, s, step)
    requires !OfNoCamera(step) ==> CameraOk(c, CameraOf(step), ViewOf(s, CameraOf(step)))
    ensures Allowed(s.st, OpOf(c, s, step)) && FitsAfter(c, s.st, OpOf(c, s, step))
  {
  }

  // ----- every step keeps everything -----

  lemma {:induction false} FirstFitsByPlaces(c: Config, s: System, step: Step)
    requires Places(c, s.st) && Enabled(c, s, step)
    ensures FirstFits(c, s, step)
  {
    var op := OpOf(c, s, step);
    if op.CopyOp? || op.MoveOp? || op.ReleaseOp? || op.AbandonOp? || op.PublishOp? || op.SaveOp? {
      assert Possible(s.st, op);
      assert At(s.st, op.p, 0);
    }
  }

  predicate ReaderOrPush(step: Step) {
    step.ReadByte? || step.TakeBuffer? || step.CopyFrame? || step.SendFrame? || step.DropFrame? || step.IgnoreFrame?
    || step.TryPush? || step.Evict? || step.ReleaseEvicted? || step.SendPush?
  }

  lemma {:induction false} ReaderOrPushOk(c: Config, s: System, step: Step)
    requires Enabled(c, s, step) && ReaderOrPush(step)
    requires CameraOk(c, CameraOf(step), ViewOf(s, CameraOf(step)))
    ensures CameraOk(c, CameraOf(step), ViewAfter(c, s, step, CameraOf(step)))
  {
    match step
    case ReadByte(cam, b) => ReadByteOk(c, s, cam, b);
    case TakeBuffer(cam, found) => TakeBufferOk(c, s, cam, found);
    case CopyFrame(cam) => CopyFrameOk(c, s, cam);
    case SendFrame(cam) => SendFrameOk(c, s, cam);
    case DropFrame(cam) => DropFrameOk(c, s, cam);
    case IgnoreFrame(cam) => IgnoreFrameOk(c, s, cam);
    case TryPush(cam) => TryPushOk(c, s, cam);
    case Evict(cam) => EvictOk(c, s, cam);
    case ReleaseEvicted(cam) => ReleaseEvictedOk(c, s, cam);
    case SendPush(cam) => SendPushOk(c, s, cam);
  }

  lemma {:induction false} FlushOrWorkOk(c: Config, s: System, step: Step)
    requires Enabled(c, s, step) && FirstFits(c, s, step) && !OfNoCamera(step) && !ReaderOrPush(step)
    requires CameraOk(c, CameraOf(step), ViewOf(s, CameraOf(step)))
    ensures CameraOk(c, CameraOf(step), ViewAfter(c, s, step, CameraOf(step)))
  {
    match step
    case Tick(cam) => TickOk(c, s, cam);
    case FlushNext(cam) => FlushNextOk(c, s, cam);
    case FlushRelease(cam) => FlushReleaseOk(c, s, cam);
    case FlushAdopt(cam) => FlushAdoptOk(c, s, cam);
    case FlushEnd(cam) => FlushEndOk(c, s, cam);
    case Capture(cam, data, found) => CaptureOk(c, s, cam, data, found);
    case CopyCapture(cam) => CopyCaptureOk(c, s, cam);
    case Dispatch(cam) => DispatchOk(c, s, cam);
    case Submit(cam) => SubmitOk(c, s, cam);
    case PublishJob(p, _) => JobOk(c, s, step, p.cam);
    case SaveJob(p) => JobOk(c, s, step, p.cam);
    case FinishJob(p) => JobOk(c, s, step, p.cam);
  }

  lemma {:induction false} CamerasKept(c: Config, s: System, step: Step)
    requires Cameras(c, s) && Enabled(c, s, step) && FirstFits(c, s, step)
    ensures Cameras(c, Do(c, s, step))
  {
    forall cam: nat
      ensures CameraOk(c, cam, ViewOf(Do(c, s, step), cam))
    {
      assert CameraOk(c, cam, ViewOf(s, cam));
      ViewAfterStep(c, s, step, cam);
      if !Touches(step, cam) {
        OtherCamera(c, s, step, cam);
      } else if ReaderOrPush(step) {
        ReaderOrPushOk(c, s, step);
      } else {
        FlushOrWorkOk(c, s, step);
      }
    }
  }

  lemma {:induction false} OutputStays(c: Config, st: Store, op: Op, o: Output)
    requires Possible(st, op) && JpegOutput(c, st, o)
    ensures JpegOutput(c, Apply(st, op), o)
  {
    ApplyMade(st, op, o.cam);
  }

  lemma {:induction false} NewOutputIsJpeg(c: Config, st: Store, op: Op)
    requires (op.PublishOp? || op.SaveOp?) && (op.p.Worker? || op.p.Dispatcher?)
    requires Possible(st, op) && FitsAfter(c, st, op)
    ensures var h := Held(st, op.p)[0];
            JpegOutput(c, Apply(st, op), Output(h.owner, h.index, Bytes0(st, op.p), op.SaveOp? || op.ok))
  {
    ApplyMade(st, op, Held(st, op.p)[0].cam);
  }

  lemma {:induction false} OutputsAfter(st: Store, op: Op)
    requires Possible(st, op)
    ensures var st' := Apply(st, op);
            && (!op.PublishOp? ==> st'.published == st.published)
            && (!op.SaveOp? ==> st'.stored == st.stored)
            && (op.PublishOp? || op.SaveOp? ==>
                  var h := Held(st, op.p)[0];
                  var o := Output(h.owner, h.index, Bytes0(st, op.p), op.SaveOp? || op.ok);
                  && (op.PublishOp? ==> st'.published == st.published + [o])
                  && (op.SaveOp? ==> st'.stored == st.stored + [o]))
  {
  }

  lemma {:induction false} OutputsKept(c: Config, st: Store, op: Op)
    requires OutputsAreJpeg(c, st) && Possible(st, op) && FitsAfter(c, st, op)
    requires op.PublishOp? || op.SaveOp? ==> op.p.Worker? || op.p.Dispatcher?
    ensures OutputsAreJpeg(c, Apply(st, op))
  {
    var st' := Apply(st, op);
    OutputsAfter(st, op);
    if op.PublishOp? || op.SaveOp? {
      NewOutputIsJpeg(c, st, op);
    }
    forall n | 0 <= n < |st.published|
      ensures JpegOutput(c, st', st.published[n])
    {
      OutputStays(c, st, op, st.published[n]);
    }
    forall n | 0 <= n < |st.stored|
      ensures JpegOutput(c, st', st.stored[n])
    {
      OutputStays(c, st, op, st.stored[n]);
    }
  }

  lemma {:induction false} OpKeepsStore(c: Config, st: Store, op: Op)
    requires Sound(st) && Places(c, st) && OutputsAreJpeg(c, st)
    requires Possible(st, op) && Allowed(st, op) && FitsAfter(c, st, op)
    requires op.PublishOp? || op.SaveOp? ==> op.p.Worker? || op.p.Dispatcher?
    ensures var st' := Apply(st, op); Sound(st') && Places(c, st') && OutputsAreJpeg(c, st')
  {
    ApplyKeeps(st, op);
    PlacesKept(c, st, op);
    OutputsKept(c, st, op);
  }

  lemma {:induction false} StepKeepsStore(c: Config, s: System, step: Step)
    requires Invariant(c, s) && Enabled(c, s, step) && Possible(s.st, OpOf(c, s, step))
    ensures var st := Apply(s.st, OpOf(c, s, step)); Sound(st) && Places(c, st) && OutputsAreJpeg(c, st)
  {
    FirstFitsByPlaces(c, s, step);
    CameraByCameras(c, s, step);
    StepIsAllowed(c, s, step);
    OpKeepsStore(c, s.st, OpOf(c, s, step));
  }

  lemma {:induction false} StepKeeps(c: Config, s: System, step: Step)
    requires Invariant(c, s)
    ensures Invariant(c, Do(c, s, step))
  {
    if Enabled(c, s, step) {
      StepIsPossible(c, s, step);
      FirstFitsByPlaces(c, s, step);
      CamerasKept(c, s, step);
      StepKeepsStore(c, s, step);
    }
  }

  lemma {:induction false} CameraByCameras(c: Config, s: System, step: Step)
    requires Cameras(c, s)
    ensures !OfNoCamera(step) ==> CameraOk(c, CameraOf(step), ViewOf(s, CameraOf(step)))
  {
  }

  lemma {:induction false} StartIsSound()
    ensures Sound(START.st)
  {
    assert forall p :: Held(START.st, p) == [];
  }

  lemma {:induction false} StartCameras(c: Config)
    ensures Cameras(c, START) && Places(c, START.st) && OutputsAreJpeg(c, START.st)
  {
    forall cam: nat
      ensures CameraOk(c, cam, ViewOf(START, cam))
    {
      assert ViewOf(START, cam) == View(Local([], [], Idle, false), [], [], [], [], [], [], [], []);
    }
  }

  lemma {:induction false} Always(c: Config, steps: seq<Step>)
    ensures Invariant(c, Run(c, steps))
  {
    if steps == [] {
      StartIsSound();
      StartCameras(c);
    } else {
      Always(c, steps[..|steps| - 1]);
      StepKeeps(c, Run(c, steps[..|steps| - 1]), steps[|steps| - 1]);
    }
  }

  // ----- what this means -----

  /** No contamination. In every run, whatever leaves the pipeline for a camera with a reader is, byte
      for byte, one of the segments of what that camera's reader has read, and a complete JPEG. */
  lemma {:induction false} PublishedFramesAreGenuine(c: Config, steps: seq<Step>, o: Output)
    requires var s := Run(c, steps); (o in s.st.published || o in s.st.stored) && o.cam in c.persistent
    ensures var read := Split(LocalOf(Run(c, steps), o.cam).input).segments;
            o.index < |read| && o.bytes == read[o.index] && WellFormed(o.bytes)
  {
    Always(c, steps);
    var s := Run(c, steps);
    assert GenuineOutput(s.st, o) && JpegOutput(c, s.st, o);
    assert CameraOk(c, o.cam, ViewOf(s, o.cam));
    SplitFactorises(LocalOf(s, o.cam).input);
  }

  /** The same for every camera: what leaves the pipeline under its id is one of the frames it made; for a
      camera without a reader, one of the images it captured. */
  lemma {:induction false} PublishedCapturesAreGenuine(c: Config, steps: seq<Step>, o: Output)
    requires var s := Run(c, steps); o in s.st.published || o in s.st.stored
    ensures o.index < |Made(Run(c, steps).st, o.cam)| && o.bytes == Made(Run(c, steps).st, o.cam)[o.index]
  {
    Always(c, steps);
    assert GenuineOutput(Run(c, steps).st, o);
  }

  /** No frame is published twice or saved twice. */
  lemma {:induction false} PublishedOnce(c: Config, steps: seq<Step>, i: nat, j: nat)
    ensures var st := Run(c, steps).st;
            && (i < j < |st.published| ==> !SameFrame(st.published[i], st.published[j].cam, st.published[j].index))
            && (i < j < |st.stored| ==> !SameFrame(st.stored[i], st.stored[j].cam, st.stored[j].index))
  {
    Always(c, steps);
  }

  /** No frame is released twice, and no frame that is still somewhere was released. */
  lemma {:induction false} ReleasedOnce(c: Config, steps: seq<Step>, i: nat, j: nat, p: Place, k: int)
    ensures var st := Run(c, steps).st;
            && (i < j < |st.released| ==> st.released[i].frame != st.released[j].frame)
            && (At(st, p, k) ==> WasNotReleased(st, FrameOf(Held(st, p)[k])))
  {
    Always(c, steps);
  }

  /** Single ownership: a buffer is in the pool once, or at one place once, or nowhere. So two live
      frames never share storage, and a buffer is not in the pool while somebody holds it. */
  lemma {:induction false} SingleOwner(c: Config, steps: seq<Step>, p: Place, i: int, q: Place, j: int)
    requires var st := Run(c, steps).st; At(st, p, i) && At(st, q, j)
    ensures var st := Run(c, steps).st;
            && (Held(st, p)[i].buf == Held(st, q)[j].buf ==> p == q && i == j)
            && Held(st, p)[i].buf !in st.free
            && forall b :: st.free[b] <= 1
  {
    Always(c, steps);
  }

  /** The second send of `Push` never blocks, whatever the dispatcher does meanwhile. */
  lemma {:induction false} PushNeverBlocks(c: Config, steps: seq<Step>, cam: nat)
    requires c.buffer >= 1 && LoopOf(Run(c, steps), cam).Sending?
    ensures Enabled(c, Run(c, steps), SendPush(cam))
  {
    Always(c, steps);
    assert CameraOk(c, cam, ViewOf(Run(c, steps), cam));
  }
}
