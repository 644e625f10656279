/** What becomes of every frame of the v1 pipeline: where it ends, and what had happened to it by then. */
module FrameFates {
  import opened JpegStream
  import opened FrameStore
  import opened FramePipeline

  ghost predicate IsPublished(st: Store, f: FrameId) {
    exists n :: 0 <= n < |st.published| && SameFrame(st.published[n], f.cam, f.index)
  }

  /** The broker took it. */
  ghost predicate IsTaken(st: Store, f: FrameId) {
    exists n :: 0 <= n < |st.published| && SameFrame(st.published[n], f.cam, f.index) && st.published[n].ok
  }

  ghost predicate IsStored(st: Store, f: FrameId) {
    exists n :: 0 <= n < |st.stored| && SameFrame(st.stored[n], f.cam, f.index)
  }

  ghost predicate IsReleased(st: Store, f: FrameId) {
    exists n :: 0 <= n < |st.released| && st.released[n].frame == f
  }

  ghost predicate IsSomewhere(st: Store, f: FrameId) {
    exists p, i :: At(st, p, i) && FrameOf(Held(st, p)[i]) == f
  }

  /** Where a job runs. */
  predicate Processes(p: Place) {
    p.Worker? || p.Dispatcher?
  }

  // ----- where slices come from and go to -----

  lemma {:induction false} LogsAfter(st: Store, op: Op)
    requires Possible(st, op)
    ensures var st' := Apply(st, op);
            && st'.published == (if op.PublishOp? then
                 var h := Held(st, op.p)[0]; st.published + [Output(h.owner, h.index, Bytes0(st, op.p), op.ok)]
               else st.published)
            && st'.stored == (if op.SaveOp? then
                 var h := Held(st, op.p)[0]; st.stored + [Output(h.owner, h.index, Bytes0(st, op.p), true)]
               else st.stored)
            && st'.released == (if op.ReleaseOp? then st.released + [Return(FrameOf(Held(st, op.p)[0]), op.p)]
                                else st.released)
  {
    OutputsAfter(st, op);
  }

  predicate TakesOut(op: Op) {
    op.MoveOp? || op.ReleaseOp? || op.AbandonOp?
  }

  /** Whether a slice after an operation is one that was just taken from the pool. */
  predicate IsNew(st: Store, op: Op, r: Place, i: int) {
    op.GetOp? && r == op.p && i == |Held(st, r)|
  }

  /** Where a slice was before an operation. */
  function Origin(st: Store, op: Op, r: Place, i: int): (Place, int) {
    if TakesOut(op) && r == op.p then (r, i + 1)
    else if op.MoveOp? && r == op.q && i == |Held(st, r)| then (op.p, 0)
    else (r, i)
  }

  function StageAfter(op: Op, first: bool, stage: Stage): Stage {
    if !first then stage
    else match op
         case CopyOp(_, _) => Ready
         case PublishOp(_, ok) => if ok then Published else Done
         case SaveOp(_) => Done
         case _ => stage
  }

  predicate IsFirst(op: Op, r: Place, i: int) {
    (op.CopyOp? || op.PublishOp? || op.SaveOp?) && r == op.p && i == 0
  }

  lemma {:induction false} ComesFrom(st: Store, op: Op, r: Place, i: int)
    requires Possible(st, op) && At(Apply(st, op), r, i) && !IsNew(st, op, r, i)
    ensures var (r0, j) := Origin(st, op, r, i);
            && At(st, r0, j)
            && FrameOf(Held(Apply(st, op), r)[i]) == FrameOf(Held(st, r0)[j])
            && Held(Apply(st, op), r)[i].stage == StageAfter(op, IsFirst(op, r, i), Held(st, r0)[j].stage)
  {
    ApplyHeld(st, op, r);
  }

  lemma {:induction false} NewSliceIsRaw(st: Store, op: Op, r: Place, i: int)
    requires Possible(st, op) && At(Apply(st, op), r, i) && IsNew(st, op, r, i)
    ensures var h := Held(Apply(st, op), r)[i];
            h.stage.Raw? && FrameOf(h) == FrameId(op.cam, |Made(st, op.cam)|)
  {
    ApplyHeld(st, op, r);
  }

  /** A slice stays, is handed on, or is the one that is released or forgotten. */
  lemma {:induction false} GoesTo(st: Store, op: Op, p: Place, i: int)
    requires Possible(st, op) && At(st, p, i)
    ensures var gone := (op.ReleaseOp? || op.AbandonOp?) && p == op.p && i == 0;
            !gone ==> IsSomewhere(Apply(st, op), FrameOf(Held(st, p)[i]))
  {
    var st' := Apply(st, op);
    ApplyHeld(st, op, p);
    if TakesOut(op) && p == op.p {
      if i > 0 {
        assert At(st', p, i - 1) && FrameOf(Held(st', p)[i - 1]) == FrameOf(Held(st, p)[i]);
      } else if op.MoveOp? {
        ApplyHeld(st, op, op.q);
        var n := |Held(st, op.q)|;
        assert At(st', op.q, n) && FrameOf(Held(st', op.q)[n]) == FrameOf(Held(st, p)[i]);
      }
    } else {
      assert At(st', p, i) && FrameOf(Held(st', p)[i]) == FrameOf(Held(st, p)[i]);
    }
  }

  // ----- what a slice's stage says -----

  /** A slice is past publication exactly if its frame was published; it says Published only if the broker took
      the frame and it is not saved; and it says Done for a frame that the broker took only once it is. */
  ghost predicate StageTells(st: Store, f: FrameId, stage: Stage) {
    && (stage.Published? || stage.Done? <==> IsPublished(st, f))
    && (stage.Published? ==> IsTaken(st, f) && !IsStored(st, f))
    && (stage.Done? ==> (IsTaken(st, f) <==> IsStored(st, f)))
  }

  ghost predicate Settled(st: Store) {
    && (forall p, i :: At(st, p, i) ==> StageTells(st, FrameOf(Held(st, p)[i]), Held(st, p)[i].stage))
    && (forall n :: 0 <= n < |st.released| ==>
          (IsPublished(st, st.released[n].frame) <==> Processes(st.released[n].from)))
    && (forall n :: 0 <= n < |st.stored| ==> IsTaken(st, FrameId(st.stored[n].cam, st.stored[n].index)))
  }

  lemma {:induction false} PublishedMore(st: Store, st': Store, o: Output)
    requires st'.published == st.published + [o] && st'.stored == st.stored
    ensures forall f :: IsPublished(st', f) <==> IsPublished(st, f) || f == FrameId(o.cam, o.index)
    ensures forall f :: IsTaken(st', f) <==> IsTaken(st, f) || (o.ok && f == FrameId(o.cam, o.index))
    ensures forall f :: IsStored(st', f) <==> IsStored(st, f)
  {
    var n := |st.published|;
    assert st'.published[n] == o;
    assert forall k :: 0 <= k < n ==> st'.published[k] == st.published[k];
  }

  lemma {:induction false} StoredMore(st: Store, st': Store, o: Output)
    requires st'.stored == st.stored + [o] && st'.published == st.published
    ensures forall f :: IsStored(st', f) <==> IsStored(st, f) || f == FrameId(o.cam, o.index)
    ensures forall f :: IsPublished(st', f) <==> IsPublished(st, f)
    ensures forall f :: IsTaken(st', f) <==> IsTaken(st, f)
  {
    var n := |st.stored|;
    assert st'.stored[n] == o;
    assert forall k :: 0 <= k < n ==> st'.stored[k] == st.stored[k];
  }

  lemma {:induction false} SameLogs(st: Store, st': Store)
    requires st'.published == st.published && st'.stored == st.stored
    ensures forall f :: IsPublished(st', f) <==> IsPublished(st, f)
    ensures forall f :: IsTaken(st', f) <==> IsTaken(st, f)
    ensures forall f :: IsStored(st', f) <==> IsStored(st, f)
  {
  }

  /** Operations that neither publish nor save. */
  lemma {:induction false} OthersKeepStages(st: Store, op: Op, r: Place, i: int)
    requires Sound(st) && Settled(st) && Possible(st, op) && Allowed(st, op) && !op.PublishOp? && !op.SaveOp?
    requires At(Apply(st, op), r, i)
    ensures StageTells(Apply(st, op), FrameOf(Held(Apply(st, op), r)[i]), Held(Apply(st, op), r)[i].stage)
  {
    LogsAfter(st, op);
    SameLogs(st, Apply(st, op));
    if IsNew(st, op, r, i) {
      NewSliceIsRaw(st, op, r, i);
      NewFrame(st, op.cam);
    } else {
      ComesFrom(st, op, r, i);
      var (r0, j) := Origin(st, op, r, i);
      assert StageTells(st, FrameOf(Held(st, r0)[j]), Held(st, r0)[j].stage);
    }
  }

  lemma {:induction false} OnlyOne(st: Store, op: Op, r: Place, i: int)
    requires Apart(st) && Possible(st, op) && (op.PublishOp? || op.SaveOp?) && At(Apply(st, op), r, i)
    requires !IsFirst(op, r, i)
    ensures FrameOf(Held(Apply(st, op), r)[i]) != FrameOf(Held(st, op.p)[0])
  {
    ComesFrom(st, op, r, i);
    assert At(st, op.p, 0);
  }

  lemma {:induction false} PublishingKeepsStages(st: Store, op: Op, r: Place, i: int)
    requires Sound(st) && Settled(st) && Possible(st, op) && Allowed(st, op) && op.PublishOp?
    requires At(Apply(st, op), r, i)
    ensures StageTells(Apply(st, op), FrameOf(Held(Apply(st, op), r)[i]), Held(Apply(st, op), r)[i].stage)
  {
    var h := Held(st, op.p)[0];
    LogsAfter(st, op);
    PublishedMore(st, Apply(st, op), Output(h.owner, h.index, Bytes0(st, op.p), op.ok));
    ComesFrom(st, op, r, i);
    var (r0, j) := Origin(st, op, r, i);
    assert StageTells(st, FrameOf(Held(st, r0)[j]), Held(st, r0)[j].stage);
    if IsFirst(op, r, i) {
      assert !IsStored(st, FrameOf(h));
    } else {
      OnlyOne(st, op, r, i);
    }
  }

  lemma {:induction false} SavingKeepsStages(st: Store, op: Op, r: Place, i: int)
    requires Sound(st) && Settled(st) && Possible(st, op) && Allowed(st, op) && op.SaveOp?
    requires At(Apply(st, op), r, i)
    ensures StageTells(Apply(st, op), FrameOf(Held(Apply(st, op), r)[i]), Held(Apply(st, op), r)[i].stage)
  {
    var h := Held(st, op.p)[0];
    LogsAfter(st, op);
    StoredMore(st, Apply(st, op), Output(h.owner, h.index, Bytes0(st, op.p), true));
    ComesFrom(st, op, r, i);
    var (r0, j) := Origin(st, op, r, i);
    assert StageTells(st, FrameOf(Held(st, r0)[j]), Held(st, r0)[j].stage);
    if !IsFirst(op, r, i) {
      OnlyOne(st, op, r, i);
    }
  }

  /** Release is called at the end of a job exactly if the frame was published. */
  predicate ReleasedInTime(st: Store, op: Op)
    requires Possible(st, op)
  {
    op.ReleaseOp? ==> (Processes(op.p) <==> Held(st, op.p)[0].stage.Published? || Held(st, op.p)[0].stage.Done?)
  }

  lemma {:induction false} KeepsReturns(st: Store, op: Op, n: int)
    requires Sound(st) && Settled(st) && Possible(st, op) && Allowed(st, op) && ReleasedInTime(st, op)
    requires 0 <= n < |Apply(st, op).released|
    ensures var r := Apply(st, op).released[n]; IsPublished(Apply(st, op), r.frame) <==> Processes(r.from)
  {
    var st' := Apply(st, op);
    LogsAfter(st, op);
    if op.PublishOp? {
      var h := Held(st, op.p)[0];
      PublishedMore(st, st', Output(h.owner, h.index, Bytes0(st, op.p), op.ok));
      assert At(st, op.p, 0);
    } else if op.SaveOp? {
      var h := Held(st, op.p)[0];
      StoredMore(st, st', Output(h.owner, h.index, Bytes0(st, op.p), true));
    } else {
      SameLogs(st, st');
      if op.ReleaseOp? && n == |st.released| {
        assert At(st, op.p, 0);
        assert StageTells(st, FrameOf(Held(st, op.p)[0]), Held(st, op.p)[0].stage);
      }
    }
  }

  lemma {:induction false} KeepsStored(st: Store, op: Op, n: int)
    requires Sound(st) && Settled(st) && Possible(st, op) && Allowed(st, op)
    requires 0 <= n < |Apply(st, op).stored|
    ensures var o := Apply(st, op).stored[n]; IsTaken(Apply(st, op), FrameId(o.cam, o.index))
  {
    var st' := Apply(st, op);
    LogsAfter(st, op);
    if op.PublishOp? {
      var h := Held(st, op.p)[0];
      PublishedMore(st, st', Output(h.owner, h.index, Bytes0(st, op.p), op.ok));
    } else if op.SaveOp? {
      var h := Held(st, op.p)[0];
      StoredMore(st, st', Output(h.owner, h.index, Bytes0(st, op.p), true));
      assert At(st, op.p, 0);
      assert StageTells(st, FrameOf(h), h.stage);
    } else {
      SameLogs(st, st');
    }
  }

  lemma {:induction false} OpKeepsSettled(st: Store, op: Op)
    requires Sound(st) && Settled(st) && Possible(st, op) && Allowed(st, op) && ReleasedInTime(st, op)
    ensures Settled(Apply(st, op))
  {
    var st' := Apply(st, op);
    forall r, i | At(st', r, i)
      ensures StageTells(st', FrameOf(Held(st', r)[i]), Held(st', r)[i].stage)
    {
      if op.PublishOp? {
        PublishingKeepsStages(st, op, r, i);
      } else if op.SaveOp? {
        SavingKeepsStages(st, op, r, i);
      } else {
        OthersKeepStages(st, op, r, i);
      }
    }
    forall n | 0 <= n < |st'.released|
      ensures IsPublished(st', st'.released[n].frame) <==> Processes(st'.released[n].from)
    {
      KeepsReturns(st, op, n);
    }
    forall n | 0 <= n < |st'.stored|
      ensures IsTaken(st', FrameId(st'.stored[n].cam, st'.stored[n].index))
    {
      KeepsStored(st, op, n);
    }
  }

  // ----- no frame is forgotten -----

  /** What a persistent reader throws away: a segment that is not a JPEG. */
  predicate IsIgnored(c: Config, st: Store, f: FrameId) {
    f.cam in c.persistent && f.index < |Made(st, f.cam)| && !StartsWithSoi(Made(st, f.cam)[f.index])
  }

  /** Every frame that a camera made is somewhere, was released, or is such a segment; and such a segment was
      not released. */
  ghost predicate Accounted(c: Config, st: Store) {
    && (forall f: FrameId :: f.index < |Made(st, f.cam)| ==>
          IsSomewhere(st, f) || IsReleased(st, f) || IsIgnored(c, st, f))
    && (forall n :: 0 <= n < |st.released| ==> !IsIgnored(c, st, st.released[n].frame))
  }

  /** What is released is not such a segment, and what is forgotten is. */
  ghost predicate RightlyGone(c: Config, st: Store, op: Op)
    requires Possible(st, op)
  {
    && (op.ReleaseOp? ==> !IsIgnored(c, st, FrameOf(Held(st, op.p)[0])))
    && (op.AbandonOp? ==> IsIgnored(c, st, FrameOf(Held(st, op.p)[0])))
  }

  lemma {:induction false} IgnoredStill(c: Config, st: Store, op: Op, f: FrameId)
    requires Possible(st, op) && f.index < |Made(st, f.cam)|
    ensures IsIgnored(c, Apply(st, op), f) <==> IsIgnored(c, st, f)
  {
    ApplyMade(st, op, f.cam);
  }

  lemma {:induction false} ReleasedStill(st: Store, op: Op, f: FrameId)
    requires Possible(st, op)
    ensures IsReleased(st, f) ==> IsReleased(Apply(st, op), f)
    ensures op.ReleaseOp? ==> IsReleased(Apply(st, op), FrameOf(Held(st, op.p)[0]))
  {
    var st' := Apply(st, op);
    LogsAfter(st, op);
    if op.ReleaseOp? {
      assert st'.released[|st.released|].frame == FrameOf(Held(st, op.p)[0]);
    }
    if n :| 0 <= n < |st.released| && st.released[n].frame == f {
      assert st'.released[n].frame == f;
    }
  }

  lemma {:induction false} OneIsAccounted(c: Config, st: Store, op: Op, f: FrameId)
    requires Accounted(c, st) && Possible(st, op) && RightlyGone(c, st, op) && f.index < |Made(Apply(st, op), f.cam)|
    ensures var st' := Apply(st, op); IsSomewhere(st', f) || IsReleased(st', f) || IsIgnored(c, st', f)
  {
    var st' := Apply(st, op);
    ApplyMade(st, op, f.cam);
    if f.index < |Made(st, f.cam)| {
      IgnoredStill(c, st, op, f);
      ReleasedStill(st, op, f);
      if IsSomewhere(st, f) {
        var p, i :| At(st, p, i) && FrameOf(Held(st, p)[i]) == f;
        GoesTo(st, op, p, i);
      }
    } else {
      ApplyHeld(st, op, op.p);
      var n := |Held(st, op.p)|;
      assert At(st', op.p, n) && IsNew(st, op, op.p, n);
      NewSliceIsRaw(st, op, op.p, n);
      assert FrameOf(Held(st', op.p)[n]) == f;
    }
  }

  lemma {:induction false} OpKeepsAccounted(c: Config, st: Store, op: Op)
    requires Sound(st) && Accounted(c, st) && Possible(st, op) && RightlyGone(c, st, op)
    ensures Accounted(c, Apply(st, op))
  {
    var st' := Apply(st, op);
    forall f: FrameId | f.index < |Made(st', f.cam)|
      ensures IsSomewhere(st', f) || IsReleased(st', f) || IsIgnored(c, st', f)
    {
      OneIsAccounted(c, st, op, f);
    }
    LogsAfter(st, op);
    forall n | 0 <= n < |st'.released|
      ensures !IsIgnored(c, st', st'.released[n].frame)
    {
      if n == |st.released| {
        assert At(st, op.p, 0) && Genuine(st, Held(st, op.p)[0]);
      }
      IgnoredStill(c, st, op, st'.released[n].frame);
    }
  }

  // ----- every step -----

  lemma {:induction false} ForgetsRightly(c: Config, s: System, cam: nat)
    requires Enabled(c, s, IgnoreFrame(cam)) && FirstFits(c, s, IgnoreFrame(cam)) && CameraOk(c, cam, ViewOf(s, cam))
    ensures IsIgnored(c, s.st, FrameOf(Held(s.st, Reader(cam))[0]))
  {
    var v := ViewOf(s, cam);
    assert OpOf(c, s, IgnoreFrame(cam)) == AbandonOp(Reader(cam));
    assert StreamOk(v) && LastMade(v, v.reader[0]);
  }

  lemma {:induction false} DropsRightly(c: Config, s: System, cam: nat)
    requires Enabled(c, s, DropFrame(cam)) && FirstFits(c, s, DropFrame(cam)) && CameraOk(c, cam, ViewOf(s, cam))
    ensures !IsIgnored(c, s.st, FrameOf(Held(s.st, Reader(cam))[0]))
  {
    var v := ViewOf(s, cam);
    assert OpOf(c, s, DropFrame(cam)) == ReleaseOp(Reader(cam));
    assert StreamOk(v) && LastMade(v, v.reader[0]);
  }

  lemma {:induction false} ReleasesInTime(c: Config, s: System, step: Step)
    requires Enabled(c, s, step) && OpOf(c, s, step).ReleaseOp? && FirstFits(c, s, step)
    ensures Possible(s.st, OpOf(c, s, step)) && ReleasedInTime(s.st, OpOf(c, s, step))
    ensures !step.DropFrame? ==> !IsIgnored(c, s.st, FrameOf(Held(s.st, OpOf(c, s, step).p)[0]))
  {
  }

  /** A goroutine releases only frames whose turn it is, and forgets only what is no JPEG. */
  lemma {:induction false} StepIsFair(c: Config, s: System, step: Step)
    requires Enabled(c, s, step) && Possible(s.st, OpOf(c, s, step)) && FirstFits(c, s, step)
    requires !OfNoCamera(step) ==> CameraOk(c, CameraOf(step), ViewOf(s, CameraOf(step)))
    ensures ReleasedInTime(s.st, OpOf(c, s, step)) && RightlyGone(c, s.st, OpOf(c, s, step))
  {
    if step.IgnoreFrame? {
      ForgetsRightly(c, s, step.cam);
    } else if OpOf(c, s, step).ReleaseOp? {
      ReleasesInTime(c, s, step);
      if step.DropFrame? {
        DropsRightly(c, s, step.cam);
      }
    }
  }

  lemma {:induction false} StepKeepsFates(c: Config, s: System, step: Step)
    requires Invariant(c, s) && Settled(s.st) && Accounted(c, s.st)
    ensures Settled(Do(c, s, step).st) && Accounted(c, Do(c, s, step).st)
  {
    if Enabled(c, s, step) {
      StepIsPossible(c, s, step);
      FirstFitsByPlaces(c, s, step);
      CameraByCameras(c, s, step);
      StepIsAllowed(c, s, step);
      StepIsFair(c, s, step);
      OpKeepsSettled(s.st, OpOf(c, s, step));
      OpKeepsAccounted(c, s.st, OpOf(c, s, step));
      LocalAfterStep(c, s, step, 0);
    }
  }

  lemma {:induction false} AlwaysFates(c: Config, steps: seq<Step>)
    ensures Settled(Run(c, steps).st) && Accounted(c, Run(c, steps).st)
  {
    if steps == [] {
      assert forall p :: Held(START.st, p) == [];
    } else {
      Always(c, steps[..|steps| - 1]);
      AlwaysFates(c, steps[..|steps| - 1]);
      StepKeepsFates(c, Run(c, steps[..|steps| - 1]), steps[|steps| - 1]);
    }
  }

  // ----- what this means -----

  /** In every run, every frame that a camera made, other than the segments that its reader throws away, is
      either still somewhere or was released, and not both; the segments thrown away never are
      released. With `ReleasedOnce`: each is released exactly once, or still under way. */
  lemma {:induction false} EveryFrameEnds(c: Config, steps: seq<Step>, f: FrameId)
    requires f.index < |Made(Run(c, steps).st, f.cam)|
    ensures var st := Run(c, steps).st;
            if IsIgnored(c, st, f) then !IsReleased(st, f) else IsSomewhere(st, f) <==> !IsReleased(st, f)
  {
    Always(c, steps);
    AlwaysFates(c, steps);
  }

  /** A frame is released at the end of a job exactly if it was published; all others were dropped, flushed or
      evicted without being published. What is saved was taken by the broker. */
  lemma {:induction false} ProcessedMeansPublished(c: Config, steps: seq<Step>, n: nat, m: nat)
    ensures var st := Run(c, steps).st;
            && (n < |st.released| ==> (IsPublished(st, st.released[n].frame) <==> Processes(st.released[n].from)))
            && (m < |st.stored| ==> IsTaken(st, FrameId(st.stored[m].cam, st.stored[m].index)))
  {
    AlwaysFates(c, steps);
  }
}
