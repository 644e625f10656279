/** The order of the frames of one camera in the v1 pipeline, from its reader to the workers, and why a
    frame is given up on the way. */
module FrameOrder {
  import opened JpegStream
  import opened FrameStore
  import opened FramePipeline
  import opened Orders

  function Indices(hs: seq<Slice>): seq<nat> {
    seq(|hs|, i requires 0 <= i < |hs| => hs[i].index)
  }

  /** The jobs of one camera. */
  function Mine(jobs: seq<Slice>, cam: nat): seq<nat> {
    if jobs == [] then []
    else Mine(jobs[..|jobs| - 1], cam) + if jobs[|jobs| - 1].cam == cam then [jobs[|jobs| - 1].index] else []
  }

  /** All frames of a camera that wait for a worker or for somebody before that, in the order of the places. */
  function LineIn(st: Store, cam: nat): seq<nat> {
    Mine(Held(st, Jobs), cam)
    + (Indices(Held(st, Dispatcher(cam)))
       + (Indices(Held(st, Buffer(cam)))
          + (Indices(Held(st, Hand(cam)))
             + (Indices(Held(st, Next(cam))) + (Indices(Held(st, Channel(cam))) + Indices(Held(st, Reader(cam))))))))
  }

  function LineAfter(st: Store, op: Op, cam: nat): seq<nat>
    requires Possible(st, op)
  {
    Mine(HeldAfter(st, op, Jobs), cam)
    + (Indices(HeldAfter(st, op, Dispatcher(cam)))
       + (Indices(HeldAfter(st, op, Buffer(cam)))
          + (Indices(HeldAfter(st, op, Hand(cam)))
             + (Indices(HeldAfter(st, op, Next(cam)))
                + (Indices(HeldAfter(st, op, Channel(cam))) + Indices(HeldAfter(st, op, Reader(cam))))))))
  }

  /** Frames wait in the order in which the camera made them. */
  predicate InOrder(st: Store, cam: nat) {
    Increasing(LineIn(st, cam)) && Below(LineIn(st, cam), |Made(st, cam)|)
  }

  /** What a step may do to such a line: nothing, a new frame at the end, or one frame less. */
  ghost predicate Follows(line: seq<nat>, n: nat, line': seq<nat>, n': nat) {
    || (line' == line && n' >= n)
    || (line' == line + [n] && n' == n + 1)
    || (n' >= n && exists k :: LessOne(line, line', k))
  }

  predicate LessOne(line: seq<nat>, line': seq<nat>, k: int) {
    0 <= k < |line| && line' == line[..k] + line[k + 1..]
  }

  lemma {:induction false} FollowsKeepsOrder(line: seq<nat>, n: nat, line': seq<nat>, n': nat)
    requires Follows(line, n, line', n') && Increasing(line) && Below(line, n)
    ensures Increasing(line') && Below(line', n')
  {
    if line' != line && !(line' == line + [n] && n' == n + 1) {
      var k :| LessOne(line, line', k);
      Without(line, k, n);
    }
  }

  lemma {:induction false} MineMore(jobs: seq<Slice>, h: Slice, cam: nat)
    ensures Mine(jobs + [h], cam) == Mine(jobs, cam) + if h.cam == cam then [h.index] else []
  {
    assert (jobs + [h])[..|jobs|] == jobs;
  }

  lemma {:induction false} MineLess(jobs: seq<Slice>, cam: nat)
    requires jobs != []
    ensures Mine(jobs, cam) == (if jobs[0].cam == cam then [jobs[0].index] else []) + Mine(jobs[1..], cam)
  {
    if |jobs| == 1 {
      assert jobs[..0] == [] && jobs[1..] == [];
    } else {
      var n := |jobs| - 1;
      MineLess(jobs[..n], cam);
      assert jobs[..n][1..] == jobs[1..][..n - 1];
    }
  }

  lemma {:induction false} IndicesMove(a: seq<Slice>, b: seq<Slice>, h: Slice)
    requires b != [] && h.index == b[0].index
    ensures Indices(a + [h]) + Indices(b[1..]) == Indices(a) + Indices(b)
    ensures Indices(b) == [b[0].index] + Indices(b[1..])
  {
  }

  lemma {:induction false} IndicesMore(a: seq<Slice>, h: Slice)
    ensures Indices(a + [h]) == Indices(a) + [h.index]
  {
  }

  lemma {:induction false} IndicesRestaged(hs: seq<Slice>, stage: Stage)
    requires hs != []
    ensures Indices(Restaged(hs, stage)) == Indices(hs)
  {
  }

  // ----- what each operation does to the line -----

  /** A slice goes one place on, or leaves the line. */
  predicate MovesAlong(st: Store, op: Op, cam: nat)
    requires Possible(st, op)
  {
    match op
    case GetOp(p, k, _, _) =>
      if k != cam then !OfCamera(p, cam) && p != Jobs
      else p == Reader(cam) ||
           (p == Hand(cam) && Held(st, Next(cam)) == [] && Held(st, Channel(cam)) == [] && Held(st, Reader(cam)) == [])
    case MoveOp(p, q) =>
      if p == Reader(cam) then q == Channel(cam)
      else if p == Channel(cam) then q == Next(cam) || (q == Hand(cam) && Held(st, Next(cam)) == [])
      else if p == Next(cam) then q == Hand(cam)
      else if p == Hand(cam) then q == Buffer(cam)
      else if p == Buffer(cam) then q == Dispatcher(cam) || q == Evicted(cam)
      else if p == Dispatcher(cam) then q == Jobs && Held(st, p)[0].cam == cam
      else if p == Jobs then q.Worker?
      else !OfCamera(q, cam) && (q == Jobs ==> Held(st, p)[0].cam != cam)
    case ReleaseOp(p) => p != Jobs
    case AbandonOp(p) => p != Jobs
    case _ => true
  }

  lemma {:induction false} SameIndices(st: Store, op: Op, p: Place)
    requires Possible(st, op) && (op.CopyOp? || op.PublishOp? || op.SaveOp?)
    ensures Indices(HeldAfter(st, op, p)) == Indices(Held(st, p))
  {
    if p == op.p {
      IndicesRestaged(Held(st, p), Ready);
      IndicesRestaged(Held(st, p), Published);
      IndicesRestaged(Held(st, p), Done);
    }
  }

  lemma {:induction false} MineRestaged(jobs: seq<Slice>, stage: Stage, cam: nat)
    requires jobs != []
    ensures Mine(Restaged(jobs, stage), cam) == Mine(jobs, cam)
  {
    MineLess(jobs, cam);
    MineLess(Restaged(jobs, stage), cam);
    assert Restaged(jobs, stage)[1..] == jobs[1..];
  }

  lemma {:induction false} RestagingStays(st: Store, op: Op, cam: nat)
    requires Possible(st, op) && (op.CopyOp? || op.PublishOp? || op.SaveOp?)
    ensures LineAfter(st, op, cam) == LineIn(st, cam)
  {
    SameIndices(st, op, Reader(cam));
    SameIndices(st, op, Channel(cam));
    SameIndices(st, op, Hand(cam));
    SameIndices(st, op, Next(cam));
    SameIndices(st, op, Buffer(cam));
    SameIndices(st, op, Dispatcher(cam));
    if op.p == Jobs {
      MineRestaged(Held(st, Jobs), Ready, cam);
      MineRestaged(Held(st, Jobs), Published, cam);
      MineRestaged(Held(st, Jobs), Done, cam);
    }
  }

  lemma {:induction false} Nested(a: seq<nat>, b: seq<nat>, rest: seq<nat>, a': seq<nat>, b': seq<nat>)
    requires a' + b' == a + b
    ensures a' + (b' + rest) == a + (b + rest)
  {
    assert a' + (b' + rest) == (a' + b') + rest;
    assert a + (b + rest) == (a + b) + rest;
  }

  lemma {:induction false} MoveStays(st: Store, op: Op, cam: nat)
    requires Possible(st, op) && op.MoveOp? && MovesAlong(st, op, cam) && OfCamera(op.p, cam)
    requires op.p != Dispatcher(cam) && !op.q.Evicted? && !op.p.Evicted?
    ensures LineAfter(st, op, cam) == LineIn(st, cam)
  {
    var p, q := op.p, op.q;
    var h := Signed(Held(st, p)[0], q);
    IndicesMove(Held(st, q), Held(st, p), h);
    var c, r, b, n := Indices(Held(st, Channel(cam))), Indices(Held(st, Reader(cam))), Indices(Held(st, Buffer(cam))),
                      Indices(Held(st, Next(cam)));
    var a', b' := Indices(HeldAfter(st, op, q)), Indices(HeldAfter(st, op, p));
    var hand := Indices(Held(st, Hand(cam)));
    var d := Indices(Held(st, Dispatcher(cam)));
    assert a' + b' == Indices(Held(st, q)) + Indices(Held(st, p));
    match p
    case Reader(_) =>
    case Channel(_) =>
      if q == Next(cam) {
        Nested(n, c, r, a', b');
      } else {
        assert n == [];
        assert [] + (b' + r) == b' + r && [] + (c + r) == c + r;
        Nested(hand, c, r, a', b');
      }
    case Next(_) => Nested(hand, n, c + r, a', b');
    case Hand(_) => Nested(b, hand, n + (c + r), a', b');
    case Buffer(_) => Nested(d, b, hand + (n + (c + r)), a', b');
  }

  lemma {:induction false} SubmitStays(st: Store, op: Op, cam: nat)
    requires Possible(st, op) && op == MoveOp(Dispatcher(cam), Jobs) && MovesAlong(st, op, cam)
    ensures LineAfter(st, op, cam) == LineIn(st, cam)
  {
    var jobs, ds := Held(st, Jobs), Held(st, Dispatcher(cam));
    MineMore(jobs, ds[0], cam);
    IndicesMove([], ds, ds[0]);
    assert HeldAfter(st, op, Jobs) == jobs + [ds[0]];
    Nested(Mine(jobs, cam), Indices(ds),
           Indices(Held(st, Buffer(cam)))
           + (Indices(Held(st, Hand(cam)))
              + (Indices(Held(st, Next(cam))) + (Indices(Held(st, Channel(cam))) + Indices(Held(st, Reader(cam)))))),
           Mine(HeldAfter(st, op, Jobs), cam), Indices(ds[1..]));
  }

  lemma {:induction false} LessInside(a: seq<nat>, x: seq<nat>, rest: seq<nat>)
    requires x != []
    ensures LessOne(a + (x + rest), a + (x[1..] + rest), |a|)
  {
  }

  lemma {:induction false} IndicesLess(hs: seq<Slice>)
    requires hs != []
    ensures Indices(hs[1..]) == Indices(hs)[1..] && Indices(hs) != []
  {
  }

  lemma {:induction false} EarlyLess(m: seq<nat>, d: seq<nat>, b: seq<nat>, h: seq<nat>, z: seq<nat>)
    ensures d != [] ==> LessOne(m + (d + (b + (h + z))), m + (d[1..] + (b + (h + z))), |m|)
    ensures b != [] ==> LessOne(m + (d + (b + (h + z))), m + (d + (b[1..] + (h + z))), |m + d|)
    ensures h != [] ==> LessOne(m + (d + (b + (h + z))), m + (d + (b + (h[1..] + z))), |m + d + b|)
  {
    if d != [] {
      LessInside(m, d, b + (h + z));
    }
    if b != [] {
      LessInside(m + d, b, h + z);
      Flat2(m, d, b + (h + z));
      Flat2(m, d, b[1..] + (h + z));
    }
    if h != [] {
      LessInside(m + d + b, h, z);
      Flat3(m, d, b, h + z);
      Flat3(m, d, b, h[1..] + z);
    }
  }

  lemma {:induction false} LateLess(x: seq<nat>, n: seq<nat>, c: seq<nat>, r: seq<nat>)
    ensures n != [] ==> LessOne(x + (n + (c + r)), x + (n[1..] + (c + r)), |x|)
    ensures c != [] ==> LessOne(x + (n + (c + r)), x + (n + (c[1..] + r)), |x + n|)
    ensures r != [] ==> LessOne(x + (n + (c + r)), x + (n + (c + r[1..])), |x + n + c|)
  {
    EarlyLess(x, n, c, r, []);
    assert r + [] == r;
    if r != [] {
      assert r[1..] + [] == r[1..];
    }
  }

  function Nest(m: seq<nat>, d: seq<nat>, b: seq<nat>, h: seq<nat>, n: seq<nat>, c: seq<nat>, r: seq<nat>): seq<nat> {
    m + (d + (b + (h + (n + (c + r)))))
  }

  function Tail(xs: seq<nat>, cut: bool): seq<nat>
    requires cut ==> xs != []
  {
    if cut then xs[1..] else xs
  }

  lemma {:induction false} NestLess(m: seq<nat>, d: seq<nat>, b: seq<nat>, h: seq<nat>,
                                    n: seq<nat>, c: seq<nat>, r: seq<nat>)
    ensures d != [] ==> LessOne(Nest(m, d, b, h, n, c, r), Nest(m, d[1..], b, h, n, c, r), |m|)
    ensures b != [] ==> LessOne(Nest(m, d, b, h, n, c, r), Nest(m, d, b[1..], h, n, c, r), |m + d|)
    ensures h != [] ==> LessOne(Nest(m, d, b, h, n, c, r), Nest(m, d, b, h[1..], n, c, r), |m + d + b|)
    ensures n != [] ==> LessOne(Nest(m, d, b, h, n, c, r), Nest(m, d, b, h, n[1..], c, r), |m + d + b + h|)
    ensures c != [] ==> LessOne(Nest(m, d, b, h, n, c, r), Nest(m, d, b, h, n, c[1..], r), |m + d + b + h + n|)
    ensures r != [] ==> LessOne(Nest(m, d, b, h, n, c, r), Nest(m, d, b, h, n, c, r[1..]), |m + d + b + h + n + c|)
  {
    EarlyLess(m, d, b, h, n + (c + r));
    LateLess(m + d + b + h, n, c, r);
    Flat4(m, d, b, h, n + (c + r));
    if n != [] {
      Flat4(m, d, b, h, n[1..] + (c + r));
    }
    if c != [] {
      Flat4(m, d, b, h, n + (c[1..] + r));
    }
    if r != [] {
      Flat4(m, d, b, h, n + (c + r[1..]));
    }
  }

  /** The first slice of a station leaves the line. */
  lemma {:induction false} FirstLeaves(st: Store, op: Op, cam: nat)
    requires op.ReleaseOp? || op.AbandonOp? || (op.MoveOp? && op.q == Evicted(cam))
    requires Possible(st, op) && OfCamera(op.p, cam) && !op.p.Evicted?
    ensures exists k :: LessOne(LineIn(st, cam), LineAfter(st, op, cam), k)
  {
    var m, d := Mine(Held(st, Jobs), cam), Indices(Held(st, Dispatcher(cam)));
    var b, h := Indices(Held(st, Buffer(cam))), Indices(Held(st, Hand(cam)));
    var n, c, r := Indices(Held(st, Next(cam))), Indices(Held(st, Channel(cam))), Indices(Held(st, Reader(cam)));
    IndicesLess(Held(st, op.p));
    NestLess(m, d, b, h, n, c, r);
    AfterFirst(st, op, cam);
  }

  lemma {:induction false} AfterFirst(st: Store, op: Op, cam: nat)
    requires op.ReleaseOp? || op.AbandonOp? || (op.MoveOp? && op.q == Evicted(cam))
    requires Possible(st, op) && OfCamera(op.p, cam) && !op.p.Evicted?
    requires Indices(Held(st, op.p)) != [] && Indices(Held(st, op.p)[1..]) == Indices(Held(st, op.p))[1..]
    ensures LineIn(st, cam) ==
            Nest(Mine(Held(st, Jobs), cam), Indices(Held(st, Dispatcher(cam))), Indices(Held(st, Buffer(cam))),
                 Indices(Held(st, Hand(cam))), Indices(Held(st, Next(cam))), Indices(Held(st, Channel(cam))),
                 Indices(Held(st, Reader(cam))))
    ensures LineAfter(st, op, cam) ==
            Nest(Mine(Held(st, Jobs), cam),
                 Tail(Indices(Held(st, Dispatcher(cam))), op.p.Dispatcher?),
                 Tail(Indices(Held(st, Buffer(cam))), op.p.Buffer?),
                 Tail(Indices(Held(st, Hand(cam))), op.p.Hand?),
                 Tail(Indices(Held(st, Next(cam))), op.p.Next?),
                 Tail(Indices(Held(st, Channel(cam))), op.p.Channel?),
                 Tail(Indices(Held(st, Reader(cam))), op.p.Reader?))
  {
  }

  lemma {:induction false} Flat2(a: seq<nat>, b: seq<nat>, z: seq<nat>)
    ensures a + (b + z) == a + b + z
  {
  }

  lemma {:induction false} Flat3(a: seq<nat>, b: seq<nat>, c: seq<nat>, z: seq<nat>)
    ensures a + (b + (c + z)) == a + b + c + z
  {
  }

  lemma {:induction false} Flat4(a: seq<nat>, b: seq<nat>, c: seq<nat>, d: seq<nat>, z: seq<nat>)
    ensures a + (b + (c + (d + z))) == a + b + c + d + z
  {
    Flat3(b, c, d, z);
    Flat2(a, b + c + d, z);
  }

  lemma {:induction false} Flat5(a: seq<nat>, b: seq<nat>, c: seq<nat>, d: seq<nat>, e: seq<nat>, z: seq<nat>)
    ensures a + (b + (c + (d + (e + z)))) == a + b + c + d + e + z
  {
    Flat4(a, b, c, d, e + z);
    Flat2(a + b + c + d, e, z);
  }

  /** A worker takes the oldest job; if it is this camera's, the line loses its first frame. */
  lemma {:induction false} JobLeaves(st: Store, op: Op, cam: nat)
    requires Possible(st, op) && op.MoveOp? && op.p == Jobs && op.q.Worker?
    ensures LineAfter(st, op, cam) == LineIn(st, cam) || LessOne(LineIn(st, cam), LineAfter(st, op, cam), 0)
  {
    var jobs := Held(st, Jobs);
    var rest := Indices(Held(st, Dispatcher(cam)))
                + (Indices(Held(st, Buffer(cam)))
                   + (Indices(Held(st, Hand(cam)))
                      + (Indices(Held(st, Next(cam)))
                         + (Indices(Held(st, Channel(cam))) + Indices(Held(st, Reader(cam)))))));
    MineLess(jobs, cam);
    assert LineIn(st, cam) == Mine(jobs, cam) + rest;
    assert LineAfter(st, op, cam) == Mine(jobs[1..], cam) + rest;
    var first := if jobs[0].cam == cam then [jobs[0].index] else [];
    FirstOff(first, Mine(jobs[1..], cam), rest);
  }

  lemma {:induction false} FirstOff(first: seq<nat>, a: seq<nat>, rest: seq<nat>)
    requires |first| <= 1
    ensures first == [] ==> (first + a) + rest == a + rest
    ensures first != [] ==> LessOne((first + a) + rest, a + rest, 0)
  {
  }

  /** A new frame joins the end of its camera's line. */
  lemma {:induction false} NewJoins(st: Store, op: Op, cam: nat)
    requires Possible(st, op) && op.GetOp? && op.cam == cam && MovesAlong(st, op, cam)
    ensures LineAfter(st, op, cam) == LineIn(st, cam) + [|Made(st, cam)|]
  {
    var m, d := Mine(Held(st, Jobs), cam), Indices(Held(st, Dispatcher(cam)));
    var b, h := Indices(Held(st, Buffer(cam))), Indices(Held(st, Hand(cam)));
    var n, c, r := Indices(Held(st, Next(cam))), Indices(Held(st, Channel(cam))), Indices(Held(st, Reader(cam)));
    var x := [|Made(st, cam)|];
    IndicesMore(Held(st, op.p), NewSlice(st, cam, op.data, op.found));
    Flat5(m, d, b, h, n, c + r);
    if op.p == Reader(cam) {
      Flat5(m, d, b, h, n, c + (r + x));
      Flat2(c, r, x);
      Flat2(m + d + b + h + n, c + r, x);
    } else {
      assert n == [] && c == [] && r == [];
      Flat3(m, d, b, h + ([] + ([] + [])));
      Flat3(m, d, b, (h + x) + ([] + ([] + [])));
      assert h + ([] + ([] + [])) == h && (h + x) + ([] + ([] + [])) == h + x;
      Flat2(m + d + b, h, x);
    }
  }

  /** Operations on other cameras. */
  lemma {:induction false} OthersStay(st: Store, op: Op, cam: nat)
    requires Possible(st, op) && MovesAlong(st, op, cam)
    requires op.Nop? || op.CollectOp? || (op.GetOp? && op.cam != cam) ||
             ((op.MoveOp? || op.ReleaseOp? || op.AbandonOp?) && (!OfCamera(op.p, cam) || op.p.Evicted?) && op.p != Jobs)
    ensures LineAfter(st, op, cam) == LineIn(st, cam)
  {
    OtherJobsStay(st, op, cam);
    StationStays(st, op, cam, Dispatcher(cam));
    StationStays(st, op, cam, Buffer(cam));
    StationStays(st, op, cam, Hand(cam));
    StationStays(st, op, cam, Next(cam));
    StationStays(st, op, cam, Channel(cam));
    StationStays(st, op, cam, Reader(cam));
  }

  lemma {:induction false} StationStays(st: Store, op: Op, cam: nat, p: Place)
    requires Possible(st, op) && MovesAlong(st, op, cam) && OfCamera(p, cam) && !p.Evicted?
    requires op.Nop? || op.CollectOp? || (op.GetOp? && op.cam != cam) ||
             ((op.MoveOp? || op.ReleaseOp? || op.AbandonOp?) && (!OfCamera(op.p, cam) || op.p.Evicted?) && op.p != Jobs)
    ensures HeldAfter(st, op, p) == Held(st, p)
  {
  }

  lemma {:induction false} OtherJobsStay(st: Store, op: Op, cam: nat)
    requires Possible(st, op) && MovesAlong(st, op, cam)
    requires op.Nop? || op.CollectOp? || (op.GetOp? && op.cam != cam) ||
             ((op.MoveOp? || op.ReleaseOp? || op.AbandonOp?) && (!OfCamera(op.p, cam) || op.p.Evicted?) && op.p != Jobs)
    ensures Mine(HeldAfter(st, op, Jobs), cam) == Mine(Held(st, Jobs), cam)
  {
    if op.MoveOp? && op.q == Jobs {
      MineMore(Held(st, Jobs), Held(st, op.p)[0], cam);
      assert HeldAfter(st, op, Jobs) == Held(st, Jobs) + [Held(st, op.p)[0]];
    }
  }

  lemma {:induction false} OpFollows(st: Store, op: Op, cam: nat)
    requires Possible(st, op) && MovesAlong(st, op, cam)
    ensures Follows(LineIn(st, cam), |Made(st, cam)|, LineAfter(st, op, cam), |MadeAfter(st, op, cam)|)
  {
    if op.CopyOp? || op.PublishOp? || op.SaveOp? {
      RestagingStays(st, op, cam);
    } else if op.GetOp? && op.cam == cam {
      NewJoins(st, op, cam);
    } else if op.Nop? || op.CollectOp? || op.GetOp? {
      OthersStay(st, op, cam);
    } else if op.p == Jobs {
      JobLeaves(st, op, cam);
    } else if !OfCamera(op.p, cam) || op.p.Evicted? {
      OthersStay(st, op, cam);
    } else if !op.MoveOp? || op.q == Evicted(cam) {
      FirstLeaves(st, op, cam);
    } else if op.p == Dispatcher(cam) {
      SubmitStays(st, op, cam);
    } else {
      MoveStays(st, op, cam);
    }
  }

  lemma {:induction false} OpKeepsOrder(st: Store, op: Op, cam: nat)
    requires Possible(st, op) && MovesAlong(st, op, cam) && InOrder(st, cam)
    ensures InOrder(Apply(st, op), cam)
  {
    OpFollows(st, op, cam);
    FollowsKeepsOrder(LineIn(st, cam), |Made(st, cam)|, LineAfter(st, op, cam), |MadeAfter(st, op, cam)|);
    ApplyMade(st, op, cam);
    ApplyHeld(st, op, Jobs);
    ApplyHeld(st, op, Dispatcher(cam));
    ApplyHeld(st, op, Buffer(cam));
    ApplyHeld(st, op, Hand(cam));
    ApplyHeld(st, op, Next(cam));
    ApplyHeld(st, op, Channel(cam));
    ApplyHeld(st, op, Reader(cam));
  }

  // ----- every run -----

  lemma {:induction false} ReaderOrPushMovesAlong(c: Config, s: System, step: Step, cam: nat)
    requires Enabled(c, s, step) && Possible(s.st, OpOf(c, s, step)) && FirstFits(c, s, step)
    requires Touches(step, cam) && CameraOk(c, cam, ViewOf(s, cam)) && ReaderOrPush(step)
    ensures MovesAlong(s.st, OpOf(c, s, step), cam)
  {
  }

  lemma {:induction false} FlushOrWorkMovesAlong(c: Config, s: System, step: Step, cam: nat)
    requires Enabled(c, s, step) && Possible(s.st, OpOf(c, s, step)) && FirstFits(c, s, step)
    requires Touches(step, cam) && CameraOk(c, cam, ViewOf(s, cam)) && !ReaderOrPush(step)
    ensures MovesAlong(s.st, OpOf(c, s, step), cam)
  {
  }

  lemma {:induction false} UntouchedMovesAlong(c: Config, s: System, step: Step, cam: nat)
    requires Enabled(c, s, step) && Possible(s.st, OpOf(c, s, step)) && FirstFits(c, s, step)
    requires !Touches(step, cam)
    ensures MovesAlong(s.st, OpOf(c, s, step), cam)
  {
  }

  lemma {:induction false} StepKeepsOrder(c: Config, s: System, step: Step, cam: nat)
    requires Invariant(c, s) && InOrder(s.st, cam)
    ensures InOrder(Do(c, s, step).st, cam)
  {
    if Enabled(c, s, step) {
      StepIsPossible(c, s, step);
      FirstFitsByPlaces(c, s, step);
      assert CameraOk(c, cam, ViewOf(s, cam));
      if Touches(step, cam) {
        if ReaderOrPush(step) {
          ReaderOrPushMovesAlong(c, s, step, cam);
        } else {
          FlushOrWorkMovesAlong(c, s, step, cam);
        }
      } else {
        UntouchedMovesAlong(c, s, step, cam);
      }
      OpKeepsOrder(s.st, OpOf(c, s, step), cam);
      LocalAfterStep(c, s, step, cam);
    }
  }

  /** In every run, the frames of a camera wait in the order in which it made them: those at the reader are newer
      than those in the channel, those in the channel newer than the one that the capture loop looks at,
      and so on to the queue of the workers. */
  lemma {:induction false} AlwaysInOrder(c: Config, steps: seq<Step>, cam: nat)
    ensures InOrder(Run(c, steps).st, cam)
  {
    if steps == [] {
      assert forall p :: Held(START.st, p) == [];
      assert LineIn(START.st, cam) == [];
    } else {
      Always(c, steps[..|steps| - 1]);
      AlwaysInOrder(c, steps[..|steps| - 1], cam);
      StepKeepsOrder(c, Run(c, steps[..|steps| - 1]), steps[|steps| - 1], cam);
    }
  }

  // ----- why frames are given up -----

  lemma {:induction false} NestOrders(m: seq<nat>, d: seq<nat>, b: seq<nat>, h: seq<nat>,
                                      n: seq<nat>, c: seq<nat>, r: seq<nat>)
    requires Increasing(Nest(m, d, b, h, n, c, r))
    ensures forall i, j :: 0 <= i < |b| && 0 <= j < |h| ==> b[i] < h[j]
    ensures forall i, j :: 0 <= i < |h| && 0 <= j < |n| ==> h[i] < n[j]
    ensures forall i, j :: 0 <= i < |d| && 0 <= j < |h| ==> d[i] < h[j]
    ensures forall i, j :: 0 <= i < |m| && 0 <= j < |h| ==> m[i] < h[j]
  {
    var line := Nest(m, d, b, h, n, c, r);
    var k := |m| + |d| + |b|;
    assert forall i :: 0 <= i < |m| ==> line[i] == m[i];
    assert forall i :: 0 <= i < |d| ==> line[|m| + i] == d[i];
    assert forall i :: 0 <= i < |b| ==> line[|m| + |d| + i] == b[i];
    assert forall i :: 0 <= i < |h| ==> line[k + i] == h[i];
    assert forall i :: 0 <= i < |n| ==> line[k + |h| + i] == n[i];
  }

  /** In every run the frame in the capture loop's hand is newer than all of its camera that wait in the frame
      buffer, at the dispatcher or for a worker, and older than the one that the loop has found besides. */
  lemma {:induction false} HandIsBetween(c: Config, steps: seq<Step>, cam: nat)
    requires Held(Run(c, steps).st, Hand(cam)) != []
    ensures var st := Run(c, steps).st;
            var hand := Held(st, Hand(cam))[0].index;
            && (forall i :: 0 <= i < |Held(st, Buffer(cam))| ==> Held(st, Buffer(cam))[i].index < hand)
            && (forall i :: 0 <= i < |Held(st, Dispatcher(cam))| ==> Held(st, Dispatcher(cam))[i].index < hand)
            && (forall i :: 0 <= i < |Mine(Held(st, Jobs), cam)| ==> Mine(Held(st, Jobs), cam)[i] < hand)
            && (forall i :: 0 <= i < |Held(st, Next(cam))| ==> hand < Held(st, Next(cam))[i].index)
  {
    var st := Run(c, steps).st;
    AlwaysInOrder(c, steps, cam);
    var d, b := Indices(Held(st, Dispatcher(cam))), Indices(Held(st, Buffer(cam)));
    var h, n := Indices(Held(st, Hand(cam))), Indices(Held(st, Next(cam)));
    NestOrders(Mine(Held(st, Jobs), cam), d, b, h, n, Indices(Held(st, Channel(cam))), Indices(Held(st, Reader(cam))));
    assert h[0] == Held(st, Hand(cam))[0].index;
    assert forall i :: 0 <= i < |Held(st, Buffer(cam))| ==> Held(st, Buffer(cam))[i].index == b[i];
    assert forall i :: 0 <= i < |Held(st, Dispatcher(cam))| ==> Held(st, Dispatcher(cam))[i].index == d[i];
    assert forall i :: 0 <= i < |Held(st, Next(cam))| ==> Held(st, Next(cam))[i].index == n[i];
  }

  /** In every run a frame is released only by its reader when the channel is full, by the flush when it
      has found a newer frame of the same camera, after `Push` took it out of the buffer, or after it
      was published. */
  lemma {:induction false} ReleasedForAReason(c: Config, steps: seq<Step>, step: Step)
    requires var s := Run(c, steps); Enabled(c, s, step) && OpOf(c, s, step).ReleaseOp?
    ensures var s := Run(c, steps);
            var p := OpOf(c, s, step).p;
            match p
            case Reader(cam) => |Held(s.st, Channel(cam))| == c.channel
            case Hand(cam) =>
              && Held(s.st, Hand(cam)) != [] && Held(s.st, Next(cam)) != []
              && Held(s.st, Hand(cam))[0].index < Held(s.st, Next(cam))[0].index
            case Evicted(cam) => LoopOf(s, cam).Evicting?
            case Dispatcher(_) => Held(s.st, p) != [] && Held(s.st, p)[0].stage in {Published, Done}
            case Worker(_) => Held(s.st, p) != [] && Held(s.st, p)[0].stage in {Published, Done}
            case _ => false
  {
    Always(c, steps);
    var s := Run(c, steps);
    match step
    case DropFrame(cam) => assert CameraOk(c, cam, ViewOf(s, cam));
    case FlushRelease(cam) => HandIsBetween(c, steps, cam);
    case _ =>
  }

  lemma {:induction false} EvictingMeansFull(c: Config, s: System, cam: nat)
    requires BoundsOk(c, ViewOf(s, cam)) && !LoopOf(s, cam).Evicting?
    requires LoopOf(Do(c, s, TryPush(cam)), cam).Evicting?
    ensures |Held(s.st, Buffer(cam))| == c.buffer
  {
    assert Enabled(c, s, TryPush(cam));
    assert LocalOf(Do(c, s, TryPush(cam)), cam) == LocalAfter(c, s, TryPush(cam), LocalOf(s, cam));
  }

  /** `Push` makes room only if the buffer was full when it looked. */
  lemma {:induction false} EvictsOnlyIfFull(c: Config, steps: seq<Step>, cam: nat)
    requires var s := Run(c, steps);
             LoopOf(Do(c, s, TryPush(cam)), cam).Evicting? && !LoopOf(s, cam).Evicting?
    ensures |Held(Run(c, steps).st, Buffer(cam))| == c.buffer
  {
    var s := Run(c, steps);
    BoundsAlways(c, steps, cam);
    EvictingMeansFull(c, s, cam);
  }

  lemma {:induction false} BoundsAlways(c: Config, steps: seq<Step>, cam: nat)
    ensures BoundsOk(c, ViewOf(Run(c, steps), cam)) && LoopOk(c, ViewOf(Run(c, steps), cam))
  {
    Always(c, steps);
    assert CameraOk(c, cam, ViewOf(Run(c, steps), cam));
  }

  /** A dispatcher runs a job itself only if the queue of the workers is full. */
  lemma {:induction false} WorksOnlyIfFull(c: Config, steps: seq<Step>, cam: nat)
    requires var s := Run(c, steps);
             LocalOf(Do(c, s, Submit(cam)), cam).busy && !LocalOf(s, cam).busy
    ensures |Held(Run(c, steps).st, Jobs)| >= c.jobs
  {
  }

  lemma {:induction false} PushingMeansEmpty(c: Config, s: System, cam: nat)
    requires LoopOk(c, ViewOf(s, cam)) && !LoopOf(s, cam).Pushing?
    requires LoopOf(Do(c, s, FlushEnd(cam)), cam).Pushing?
    ensures Held(s.st, Channel(cam)) == [] && Held(s.st, Next(cam)) == [] && |Held(s.st, Hand(cam))| == 1
  {
    assert Enabled(c, s, FlushEnd(cam));
  }

  /** A flush ends only when the channel is empty and nothing newer is in hand. */
  lemma {:induction false} EndsOnlyIfEmpty(c: Config, steps: seq<Step>, cam: nat)
    requires var s := Run(c, steps);
             LoopOf(Do(c, s, FlushEnd(cam)), cam).Pushing? && !LoopOf(s, cam).Pushing?
    ensures var st := Run(c, steps).st;
            Held(st, Channel(cam)) == [] && Held(st, Next(cam)) == [] && |Held(st, Hand(cam))| == 1
  {
    BoundsAlways(c, steps, cam);
    PushingMeansEmpty(c, Run(c, steps), cam);
  }

  // ----- nobody is stuck -----

  /** What a capture loop can do next. */
  function LoopStep(s: System, cam: nat): Step {
    match LoopOf(s, cam)
    case Idle => if Held(s.st, Hand(cam)) != [] then CopyCapture(cam) else Tick(cam)
    case Flushing =>
      if Held(s.st, Next(cam)) == [] then if Held(s.st, Channel(cam)) == [] then FlushEnd(cam) else FlushNext(cam)
      else if Held(s.st, Hand(cam)) == [] then FlushAdopt(cam) else FlushRelease(cam)
    case Pushing => TryPush(cam)
    case Evicting => if Held(s.st, Evicted(cam)) == [] then Evict(cam) else ReleaseEvicted(cam)
    case Sending => SendPush(cam)
  }

  function JobStep(s: System, p: Place): Step {
    if FirstIs(s.st, p, Ready) then PublishJob(p, true) else FinishJob(p)
  }

  function DispatcherStep(s: System, cam: nat): Step {
    if Held(s.st, Dispatcher(cam)) == [] then Dispatch(cam)
    else if LocalOf(s, cam).busy then JobStep(s, Dispatcher(cam))
    else Submit(cam)
  }

  /** A step of the goroutine that a frame at a place waits for. */
  function NextStep(c: Config, s: System, p: Place): Step {
    match p
    case Reader(cam) =>
      if FirstIs(s.st, p, Raw) then CopyFrame(cam)
      else if !StartsWithSoi(Frame(s, cam)) then IgnoreFrame(cam)
      else if |Held(s.st, Channel(cam))| < c.channel then SendFrame(cam) else DropFrame(cam)
    case Channel(cam) => LoopStep(s, cam)
    case Hand(cam) => LoopStep(s, cam)
    case Next(cam) => LoopStep(s, cam)
    case Evicted(cam) => LoopStep(s, cam)
    case Buffer(cam) => DispatcherStep(s, cam)
    case Dispatcher(cam) => DispatcherStep(s, cam)
    case Jobs => if Held(s.st, Worker(0)) == [] then TakeJob(0) else JobStep(s, Worker(0))
    case Worker(_) => JobStep(s, p)
  }

  lemma {:induction false} ReaderGoesOn(c: Config, s: System, cam: nat)
    requires Places(c, s.st) && Held(s.st, Reader(cam)) != []
    ensures Enabled(c, s, NextStep(c, s, Reader(cam)))
  {
    assert At(s.st, Reader(cam), 0) && FitsAt(c, s.st, Reader(cam), 0);
  }

  lemma {:induction false} LoopGoesOn(c: Config, s: System, cam: nat)
    requires CameraOk(c, cam, ViewOf(s, cam)) && c.buffer >= 1
    requires Held(s.st, Channel(cam)) != [] || Held(s.st, Hand(cam)) != [] || Held(s.st, Next(cam)) != [] ||
             Held(s.st, Evicted(cam)) != []
    ensures Enabled(c, s, LoopStep(s, cam))
  {
  }

  lemma {:induction false} DispatcherGoesOn(c: Config, s: System, cam: nat)
    requires CameraOk(c, cam, ViewOf(s, cam)) && Places(c, s.st)
    requires Held(s.st, Buffer(cam)) != [] || Held(s.st, Dispatcher(cam)) != []
    ensures Enabled(c, s, DispatcherStep(s, cam))
  {
    if Held(s.st, Dispatcher(cam)) != [] {
      assert At(s.st, Dispatcher(cam), 0) && FitsAt(c, s.st, Dispatcher(cam), 0);
    }
  }

  lemma {:induction false} WorkerGoesOn(c: Config, s: System, id: nat)
    requires Places(c, s.st) && Held(s.st, Worker(id)) != []
    ensures Enabled(c, s, JobStep(s, Worker(id)))
  {
    assert At(s.st, Worker(id), 0) && FitsAt(c, s.st, Worker(id), 0);
  }

  lemma {:induction false} JobsGoOn(c: Config, s: System, p: Place)
    requires Places(c, s.st) && Held(s.st, p) != [] && (p.Worker? || p == Jobs)
    ensures Enabled(c, s, NextStep(c, s, p))
  {
    if p.Worker? {
      WorkerGoesOn(c, s, p.id);
    } else if Held(s.st, Worker(0)) != [] {
      WorkerGoesOn(c, s, 0);
    }
  }

  lemma {:induction false} StationGoesOn(c: Config, s: System, p: Place, cam: nat)
    requires CameraOk(c, cam, ViewOf(s, cam)) && Places(c, s.st) && c.buffer >= 1
    requires Held(s.st, p) != [] && OfCamera(p, cam)
    ensures Enabled(c, s, NextStep(c, s, p))
  {
    match p
    case Reader(_) => ReaderGoesOn(c, s, cam);
    case Buffer(_) => DispatcherGoesOn(c, s, cam);
    case Dispatcher(_) => DispatcherGoesOn(c, s, cam);
    case _ => LoopGoesOn(c, s, cam);
  }

  /** In every run, for every frame that is somewhere, the goroutine that it waits for can take a step: nobody
      waits for somebody who waits. */
  lemma {:induction false} NobodyIsStuck(c: Config, steps: seq<Step>, p: Place)
    requires c.buffer >= 1 && Held(Run(c, steps).st, p) != []
    ensures Enabled(c, Run(c, steps), NextStep(c, Run(c, steps), p))
  {
    Always(c, steps);
    if p.Worker? || p == Jobs {
      JobsGoOn(c, Run(c, steps), p);
    } else {
      assert CameraOk(c, p.cam, ViewOf(Run(c, steps), p.cam));
      StationGoesOn(c, Run(c, steps), p, p.cam);
    }
  }
}
