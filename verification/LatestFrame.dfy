/** The v2 latest-frame policy with the reader and the publishing loop interleaved, one channel
    operation or locked update at a time. Frames are numbered in the order in which the reader
    completes them. A step that cannot be taken changes nothing, so every sequence is a run. */
module LatestFrame {
  import opened BoundedChannel
  import opened Orders

  datatype Reader =
    | Reading
    | Counted(frame: nat)     // framesReceived is up to date, the frame is about to be sent
    | Dropping                // the channel was full, framesDropped is about to be counted

  datatype Publisher =
    | Waiting
    | Holding(frame: nat)     // about to look at the length of the channel
    | Flushing(frame: nat)    // saw frames, about to receive one
    | Chosen(frame: nat)      // saw none, about to count and publish

  datatype Step = Receive | Send | CountDrop | Take | Look | Flush | Publish

  datatype State = State(
    queue: seq<nat>,
    reader: Reader,
    publisher: Publisher,
    framesReceived: nat,
    framesDropped: nat,
    frameCount: nat,
    flushed: nat,
    newest: int,                 // the frame sent last, or -1
    sinceSent: nat,              // frames dropped after it
    chosen: seq<nat>,            // the frames chosen so far
    newestWhenChosen: seq<int>)  // for each of them, the frame that had been sent last by then

  const START := State([], Reading, Waiting, 0, 0, 0, 0, -1, 0, [], [])

  function Do(capacity: nat, s: State, step: Step): State {
    match step
    case Receive =>
      if !s.reader.Reading? then s
      else s.(reader := Counted(s.framesReceived), framesReceived := s.framesReceived + 1)
    case Send =>
      if !s.reader.Counted? then s
      else if |s.queue| < capacity then
        s.(reader := Reading, queue := s.queue + [s.reader.frame], newest := s.reader.frame, sinceSent := 0)
      else s.(reader := Dropping)
    case CountDrop =>
      if !s.reader.Dropping? then s
      else s.(reader := Reading, framesDropped := s.framesDropped + 1, sinceSent := s.sinceSent + 1)
    case Take =>
      if !s.publisher.Waiting? || s.queue == [] then s
      else s.(publisher := Holding(s.queue[0]), queue := s.queue[1..])
    case Look =>
      if !s.publisher.Holding? then s
      else if s.queue != [] then s.(publisher := Flushing(s.publisher.frame))
      else s.(publisher := Chosen(s.publisher.frame),
              chosen := s.chosen + [s.publisher.frame], newestWhenChosen := s.newestWhenChosen + [s.newest])
    case Flush =>
      if !s.publisher.Flushing? || s.queue == [] then s
      else s.(publisher := Holding(s.queue[0]), queue := s.queue[1..], flushed := s.flushed + 1)
    case Publish =>
      if !s.publisher.Chosen? then s
      else s.(publisher := Waiting, frameCount := s.frameCount + 1)
  }

  function Run(capacity: nat, steps: seq<Step>): State {
    if steps == [] then START
    else Do(capacity, Run(capacity, steps[..|steps| - 1]), steps[|steps| - 1])
  }

  function Held(p: Publisher): seq<nat> {
    if p.Holding? || p.Flushing? then [p.frame] else []
  }

  /** All frames that were chosen, are in hand, queued, or about to be sent, oldest first. */
  function Line(s: State): seq<nat> {
    s.chosen + Held(s.publisher) + s.queue + if s.reader.Counted? then [s.reader.frame] else []
  }

  predicate Balanced(s: State) {
    s.framesReceived == s.frameCount + s.framesDropped + s.flushed + |s.queue|
                        + (if s.reader.Reading? then 0 else 1) + (if s.publisher.Waiting? then 0 else 1)
  }

  /** The receive that flushes always finds a frame. */
  predicate FlushFinds(capacity: nat, s: State) {
    |s.queue| <= capacity && (s.publisher.Flushing? ==> s.queue != [])
  }

  predicate InOrder(s: State) {
    Increasing(Line(s)) && Below(Line(s), s.framesReceived)
  }

  /** Every choice is the frame sent last, as of the moment at which the channel was seen empty. */
  predicate ChoosesNewest(s: State) {
    && s.chosen == s.newestWhenChosen
    && (s.queue != [] ==> s.newest == s.queue[|s.queue| - 1])
    && (s.queue == [] && Held(s.publisher) != [] ==> s.newest == s.publisher.frame)
  }

  /** The frame sent last is the frame received last exactly when the reader is between frames and
      has dropped none since: a full channel keeps its old frames and turns new ones away. */
  predicate LagExplained(s: State) {
    && s.framesReceived == s.newest + 1 + s.sinceSent + (if s.reader.Reading? then 0 else 1)
    && (s.reader.Counted? ==> s.reader.frame == s.framesReceived - 1)
    && (s.newest == s.framesReceived - 1 <==> s.reader.Reading? && s.sinceSent == 0)
  }

  predicate Invariant(capacity: nat, s: State) {
    Balanced(s) && FlushFinds(capacity, s) && InOrder(s) && ChoosesNewest(s) && LagExplained(s)
  }

  lemma {:induction false} KeepsCounts(capacity: nat, s: State, step: Step)
    requires Balanced(s) && FlushFinds(capacity, s) && ChoosesNewest(s) && LagExplained(s)
    ensures var s' := Do(capacity, s, step);
            Balanced(s') && FlushFinds(capacity, s') && ChoosesNewest(s') && LagExplained(s')
  {
  }

  lemma {:induction false} KeepsOrder(capacity: nat, s: State, step: Step)
    requires InOrder(s) && FlushFinds(capacity, s)
    ensures InOrder(Do(capacity, s, step))
  {
    var s' := Do(capacity, s, step);
    if step.Receive? {
      assert s.reader.Reading? ==> Line(s') == Line(s) + [s.framesReceived];
    } else if step.Flush? && s' != s {
      var k := |s.chosen|;
      Without(Line(s), k, s.framesReceived);
      assert Line(s') == Line(s)[..k] + Line(s)[k + 1..];
    } else if step.Send? && s'.reader.Dropping? && s' != s {
      var k := |Line(s)| - 1;
      Without(Line(s), k, s.framesReceived);
      assert Line(s') == Line(s)[..k] + Line(s)[k + 1..];
    } else {
      assert Line(s') == Line(s);
    }
  }

  /** In every run: received frames are published, dropped, flushed, queued or in hand; the flush
      never blocks; chosen frames are a strictly increasing subsequence of the received ones; and
      each is newer than every other frame that had been sent when the flush saw the channel
      empty, which is the newest one received unless the reader has dropped or is about to send
      another. */
  lemma {:induction false} Always(capacity: nat, steps: seq<Step>)
    ensures Invariant(capacity, Run(capacity, steps))
  {
    if steps != [] {
      var before, last := steps[..|steps| - 1], steps[|steps| - 1];
      Always(capacity, before);
      KeepsCounts(capacity, Run(capacity, before), last);
      KeepsOrder(capacity, Run(capacity, before), last);
    }
  }

  // ----- drops -----

  /** How often the reader came to a full channel. */
  function FullSends(capacity: nat, steps: seq<Step>): nat {
    if steps == [] then 0
    else
      var s := Run(capacity, steps[..|steps| - 1]);
      FullSends(capacity, steps[..|steps| - 1])
      + if steps[|steps| - 1].Send? && s.reader.Counted? && |s.queue| >= capacity then 1 else 0
  }

  /** In every run a frame is dropped exactly when it comes to a full channel. */
  lemma {:induction false} DropsMeanFull(capacity: nat, steps: seq<Step>)
    ensures var s := Run(capacity, steps);
            FullSends(capacity, steps) == s.framesDropped + if s.reader.Dropping? then 1 else 0
  {
    if steps != [] {
      DropsMeanFull(capacity, steps[..|steps| - 1]);
    }
  }

  // ----- one at a time -----

  function StepAll(capacity: nat, s: State, steps: seq<Step>): State
    decreases |steps|
  {
    if steps == [] then s else StepAll(capacity, Do(capacity, s, steps[0]), steps[1..])
  }

  /** A reader that nobody interrupts offers its frame to the channel. */
  lemma {:induction false} ReceiveIsOffer(capacity: nat, s: State)
    requires s.reader.Reading?
    ensures var s' := StepAll(capacity, s, [Receive, Send, CountDrop]);
            && s'.reader.Reading? && s'.publisher == s.publisher
            && s'.queue == Offer(s.queue, capacity, s.framesReceived)
            && s'.framesReceived == s.framesReceived + 1
            && s'.framesDropped == s.framesDropped + if |s.queue| < capacity then 0 else 1
  {
    var s1 := Do(capacity, s, Receive);
    var s2 := Do(capacity, s1, Send);
    assert [Receive, Send, CountDrop][1..] == [Send, CountDrop] && [Send, CountDrop][1..] == [CountDrop];
    assert [CountDrop][1..] == [];
    assert StepAll(capacity, s2, [CountDrop]) == StepAll(capacity, Do(capacity, s2, CountDrop), []);
    assert StepAll(capacity, s1, [Send, CountDrop]) == StepAll(capacity, s2, [CountDrop]);
  }

  /** What is left of a turn when the publisher holds a frame and `n` more are queued. */
  function RestOfTurn(n: nat): seq<Step> {
    if n == 0 then [Look, Publish] else [Look, Flush] + RestOfTurn(n - 1)
  }

  lemma {:induction false} RestIsNewest(capacity: nat, s: State)
    requires s.publisher.Holding?
    ensures StepAll(capacity, s, RestOfTurn(|s.queue|)) ==
            var frame := if s.queue == [] then s.publisher.frame else s.queue[|s.queue| - 1];
            s.(publisher := Waiting, queue := [], flushed := s.flushed + |s.queue|, frameCount := s.frameCount + 1,
               chosen := s.chosen + [frame], newestWhenChosen := s.newestWhenChosen + [s.newest])
    decreases |s.queue|
  {
    var s1 := Do(capacity, s, Look);
    if s.queue == [] {
      assert [Look, Publish][1..] == [Publish] && [Publish][1..] == [];
      assert StepAll(capacity, s1, [Publish]) == StepAll(capacity, Do(capacity, s1, Publish), []);
    } else {
      var rest := RestOfTurn(|s.queue| - 1);
      var s2 := Do(capacity, s1, Flush);
      assert ([Look, Flush] + rest)[1..] == [Flush] + rest && ([Flush] + rest)[1..] == rest;
      assert StepAll(capacity, s1, [Flush] + rest) == StepAll(capacity, s2, rest);
      RestIsNewest(capacity, s2);
    }
  }

  /** A publisher that nobody interrupts takes the newest queued frame and flushes all others. */
  lemma {:induction false} TurnIsNewest(capacity: nat, s: State)
    requires s.publisher.Waiting? && s.queue != []
    ensures StepAll(capacity, s, [Take] + RestOfTurn(|s.queue| - 1)) ==
            s.(queue := [], flushed := s.flushed + |s.queue| - 1, frameCount := s.frameCount + 1,
               chosen := s.chosen + [s.queue[|s.queue| - 1]], newestWhenChosen := s.newestWhenChosen + [s.newest])
  {
    var rest := RestOfTurn(|s.queue| - 1);
    assert ([Take] + rest)[1..] == rest;
    RestIsNewest(capacity, Do(capacity, s, Take));
  }
}
