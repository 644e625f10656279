/** The same buffer with one producer and one consumer, each channel operation a step of its own.
    Frames are numbered in the order in which `Push` was called. A step that cannot be taken
    (nothing to pop, a send into a full channel) leaves the state as it is, so every sequence of
    steps is a run. */
module FrameBufferRace {
  import opened FrameBuffer
  import opened Orders

  /** Where the producer stands inside `Push`. */
  datatype Producer =
    | Idle
    | Trying(frame: nat)                      // counted, before the first select
    | Full(frame: nat, poppedThen: nat)       // the first select found the channel full
    | Evicted(frame: nat, oldest: nat)        // took the oldest frame, has not released it yet
    | Sending(frame: nat)                     // before the second, blocking send
    | Sent                                    // after it, before counting the drop

  datatype Step = Push | TrySend | Evict | ReleaseEvicted | Send | CountDrop | Pop

  datatype State = State(
    queue: seq<nat>,
    producer: Producer,
    totalFrames: nat,
    droppedFrames: nat,
    popped: seq<nat>,
    evicted: seq<nat>,     // frames taken out by the producer
    released: seq<nat>,    // frames whose Release the producer called
    missed: nat)           // times the producer found nothing left to take out

  const START := State([], Idle, 0, 0, [], [], [], 0)

  function Do(capacity: nat, s: State, step: Step): State {
    match step
    case Push =>
      if !s.producer.Idle? then s
      else s.(producer := Trying(s.totalFrames), totalFrames := s.totalFrames + 1)
    case TrySend =>
      if !s.producer.Trying? then s
      else if |s.queue| < capacity then s.(producer := Idle, queue := s.queue + [s.producer.frame])
      else s.(producer := Full(s.producer.frame, |s.popped|))
    case Evict =>
      if !s.producer.Full? then s
      else if s.queue == [] then s.(producer := Sending(s.producer.frame), missed := s.missed + 1)
      else s.(producer := Evicted(s.producer.frame, s.queue[0]),
              queue := s.queue[1..], evicted := s.evicted + [s.queue[0]])
    case ReleaseEvicted =>
      if !s.producer.Evicted? then s
      else s.(producer := Sending(s.producer.frame), released := s.released + [s.producer.oldest])
    case Send =>
      if !s.producer.Sending? || |s.queue| >= capacity then s
      else s.(producer := Sent, queue := s.queue + [s.producer.frame])
    case CountDrop =>
      if !s.producer.Sent? then s
      else s.(producer := Idle, droppedFrames := s.droppedFrames + 1)
    case Pop =>
      if s.queue == [] then s
      else s.(queue := s.queue[1..], popped := s.popped + [s.queue[0]])
  }

  function Run(capacity: nat, steps: seq<Step>): State {
    if steps == [] then START
    else Do(capacity, Run(capacity, steps[..|steps| - 1]), steps[|steps| - 1])
  }

  function InHand(p: Producer): seq<nat> {
    if p.Idle? || p.Sent? then [] else [p.frame]
  }

  /** The frames that were popped, are queued, or are in the producer's hand, oldest first. */
  function Line(s: State): seq<nat> {
    s.popped + s.queue + InHand(s.producer)
  }

  /** The blocking send never blocks. */
  predicate NeverBlocks(capacity: nat, s: State) {
    |s.queue| <= capacity && (s.producer.Evicted? || s.producer.Sending? ==> |s.queue| < capacity)
  }

  /** Frames come out in the order in which they went in; what is evicted is older than all that
      stays. */
  predicate InOrder(s: State) {
    && Increasing(Line(s)) && Below(Line(s), s.totalFrames)
    && Increasing(s.evicted) && Below(s.evicted, s.totalFrames)
    && (forall i, j :: 0 <= i < |s.evicted| && |s.popped| <= j < |Line(s)| ==> s.evicted[i] < Line(s)[j])
  }

  /** Every pushed frame is in exactly one place. */
  predicate Conserved(s: State) {
    && s.totalFrames == |s.popped| + |s.evicted| + |s.queue| + |InHand(s.producer)|
    && (forall x :: 0 <= x < s.totalFrames ==>
          x in s.popped || x in s.evicted || x in s.queue || x in InHand(s.producer))
  }

  /** The drop counter counts evictions and misses; every miss cost the consumer a full buffer;
      evicted frames are released once each. */
  predicate DropsCounted(capacity: nat, s: State) {
    && s.droppedFrames + (if s.producer.Evicted? || s.producer.Sending? || s.producer.Sent? then 1 else 0)
       == |s.evicted| + s.missed
    && s.missed * capacity <= |s.popped|
    && (s.producer.Full? ==>
          s.missed * capacity <= s.producer.poppedThen && |s.queue| + |s.popped| == capacity + s.producer.poppedThen)
    && s.evicted == s.released + if s.producer.Evicted? then [s.producer.oldest] else []
  }

  predicate Invariant(capacity: nat, s: State) {
    NeverBlocks(capacity, s) && InOrder(s) && Conserved(s) && DropsCounted(capacity, s)
  }

  lemma {:induction false} KeepsCounts(capacity: nat, s: State, step: Step)
    requires capacity >= 1 && NeverBlocks(capacity, s) && DropsCounted(capacity, s)
    ensures NeverBlocks(capacity, Do(capacity, s, step)) && DropsCounted(capacity, Do(capacity, s, step))
  {
    assert (s.missed + 1) * capacity == s.missed * capacity + capacity;
  }

  /** Nothing moves in the line, or a new frame joins its end. */
  lemma {:induction false} LineAfter(capacity: nat, s: State, step: Step)
    requires !(step.Evict? && s.producer.Full? && s.queue != [])
    ensures var s' := Do(capacity, s, step);
            && s'.evicted == s.evicted
            && |s'.popped| >= |s.popped|
            && if step.Push? && s.producer.Idle? then
                 Line(s') == Line(s) + [s.totalFrames] && s'.totalFrames == s.totalFrames + 1
               else Line(s') == Line(s) && s'.totalFrames == s.totalFrames
  {
  }

  lemma {:induction false} EvictKeepsOrder(s: State, s': State)
    requires InOrder(s) && s.producer.Full? && s.queue != []
    requires Line(s') == Line(s)[..|s.popped|] + Line(s)[|s.popped| + 1..]
    requires s'.evicted == s.evicted + [Line(s)[|s.popped|]]
    requires s'.popped == s.popped && s'.totalFrames == s.totalFrames
    ensures InOrder(s')
  {
    Without(Line(s), |s.popped|, s.totalFrames);
  }

  lemma {:induction false} KeepsOrder(capacity: nat, s: State, step: Step)
    requires InOrder(s)
    ensures InOrder(Do(capacity, s, step))
  {
    var s' := Do(capacity, s, step);
    if step.Evict? && s.producer.Full? && s.queue != [] {
      assert Line(s') == Line(s)[..|s.popped|] + Line(s)[|s.popped| + 1..];
      assert s.queue[0] == Line(s)[|s.popped|];
      EvictKeepsOrder(s, s');
    } else {
      LineAfter(capacity, s, step);
    }
  }

  lemma {:induction false} KeepsConservation(capacity: nat, s: State, step: Step)
    requires Conserved(s)
    ensures Conserved(Do(capacity, s, step))
  {
    var s' := Do(capacity, s, step);
    if s.queue != [] {
      assert forall x :: x in s.queue ==> x == s.queue[0] || x in s.queue[1..];
    }
    assert forall xs: seq<nat>, y, x :: x in xs || x == y ==> x in xs + [y];
  }

  /** In every run with one producer and one consumer: `Push` never blocks on its second send, frames
      leave in the order of pushing, none is lost or duplicated, and the drop counter is exactly
      evictions plus the times the consumer emptied the buffer first, whenever no `Push` is under
      way. */
  lemma {:induction false} Always(capacity: nat, steps: seq<Step>)
    requires capacity >= 1
    ensures Invariant(capacity, Run(capacity, steps))
    ensures Run(capacity, steps).producer.Idle? ==>
              Run(capacity, steps).droppedFrames == |Run(capacity, steps).evicted| + Run(capacity, steps).missed
  {
    if steps != [] {
      var before, last := steps[..|steps| - 1], steps[|steps| - 1];
      Always(capacity, before);
      KeepsCounts(capacity, Run(capacity, before), last);
      KeepsOrder(capacity, Run(capacity, before), last);
      KeepsConservation(capacity, Run(capacity, before), last);
    }
  }

  /** A miss counts a drop although no frame is dropped. */
  lemma {:induction false} CountedDropWithoutLoss()
    ensures exists steps: seq<Step> ::
              var s := Run(1, steps);
              s.producer.Idle? && s.droppedFrames == 1 && s.evicted == [] && s.popped == [0] && s.queue == [1]
  {
    var steps := [Push, TrySend, Push, TrySend, Pop, Evict, Send, CountDrop];
    var s1 := Do(1, Do(1, START, Push), TrySend);
    var s2 := Do(1, Do(1, s1, Push), TrySend);
    var s3 := Do(1, Do(1, s2, Pop), Evict);
    var s4 := Do(1, Do(1, s3, Send), CountDrop);
    assert steps[..8][..7] == steps[..7] && steps[..7][..6] == steps[..6] && steps[..6][..5] == steps[..5]
        && steps[..5][..4] == steps[..4] && steps[..4][..3] == steps[..3] && steps[..3][..2] == steps[..2]
        && steps[..2][..1] == steps[..1] && steps[..1][..0] == [] && steps[..8] == steps;
    assert Run(1, []) == START && Run(1, steps[..1]) == Do(1, START, Push) && Run(1, steps[..2]) == s1;
    assert Run(1, steps[..3]) == Do(1, s1, Push) && Run(1, steps[..4]) == s2;
    assert Run(1, steps[..5]) == Do(1, s2, Pop) && Run(1, steps[..6]) == s3;
    assert Run(1, steps[..7]) == Do(1, s3, Send) && Run(1, steps[..8]) == s4;
  }

  // ----- one at a time -----

  function StepAll(capacity: nat, s: State, steps: seq<Step>): State
    decreases |steps|
  {
    if steps == [] then s else StepAll(capacity, Do(capacity, s, steps[0]), steps[1..])
  }

  const WHOLE_PUSH: seq<Step> :=
    [Push] + ([TrySend] + ([Evict] + ([ReleaseEvicted] + ([Send] + ([CountDrop] + [])))))

  lemma {:induction false} StepFirst(capacity: nat, s: State, x: Step, steps: seq<Step>)
    ensures StepAll(capacity, s, [x] + steps) == StepAll(capacity, Do(capacity, s, x), steps)
  {
    assert ([x] + steps)[1..] == steps;
  }

  /** A push that nobody interrupts is the push of the buffer used by one caller: the newest frames
      stay, and what does not fit is the oldest, is released, and is counted. */
  lemma {:induction false} PushAlone(capacity: nat, s: State)
    requires capacity >= 1 && s.producer.Idle? && |s.queue| <= capacity
    ensures var s' := StepAll(capacity, s, WHOLE_PUSH);
            && s'.producer.Idle? && s'.popped == s.popped && s'.missed == s.missed
            && s'.queue == Newest(s.queue + [s.totalFrames], capacity)
            && s'.released + s'.queue == s.released + s.queue + [s.totalFrames]
            && s'.totalFrames == s.totalFrames + 1
            && s'.droppedFrames == s.droppedFrames + |s'.released| - |s.released|
  {
    var s1 := Do(capacity, s, Push);
    var s2 := Do(capacity, s1, TrySend);
    var s3 := Do(capacity, s2, Evict);
    var s4 := Do(capacity, s3, ReleaseEvicted);
    var s5 := Do(capacity, s4, Send);
    StepFirst(capacity, s, Push, [TrySend] + ([Evict] + ([ReleaseEvicted] + ([Send] + ([CountDrop] + [])))));
    StepFirst(capacity, s1, TrySend, [Evict] + ([ReleaseEvicted] + ([Send] + ([CountDrop] + []))));
    StepFirst(capacity, s2, Evict, [ReleaseEvicted] + ([Send] + ([CountDrop] + [])));
    StepFirst(capacity, s3, ReleaseEvicted, [Send] + ([CountDrop] + []));
    StepFirst(capacity, s4, Send, [CountDrop] + []);
    StepFirst(capacity, s5, CountDrop, []);
  }
}
