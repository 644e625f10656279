/** The lock of the v2 breaker. `Stats` holds it for reading and asks `timeUntilRetry`, which takes it
    for reading again. Go's RWMutex lets no new reader in once a writer waits, so that the second
    read lock may wait for a writer that waits for the first. Goroutines that stand at the same point
    are counted; a step that cannot be taken changes nothing, so every sequence of steps is a run. */
module StatsLock {

  datatype Writer = Absent | Waiting | Writing

  datatype Step =
    | ReadLock        // any other reader: State, IsOpen, allowRequest, timeUntilRetry
    | ReadUnlock
    | WriteLock       // Execute and its parts, Reset: the writer announces itself
    | WriteAdmitted   // no reader is left, the writer goes on
    | WriteUnlock
    | OuterLock       // Stats
    | InnerLock       // timeUntilRetry, called by Stats
    | InnerUnlock
    | OuterUnlock

  datatype Lock = Lock(
    readers: nat,    // plain readers that hold the lock
    outer: nat,      // Stats calls that hold it once and are about to take it again
    inner: nat,      // Stats calls that hold it twice
    leaving: nat,    // Stats calls that hold it once and are about to give it back
    writer: Writer)  // the one writer at the lock; other writers wait for it elsewhere

  const START := Lock(0, 0, 0, 0, Absent)

  predicate NoReaders(s: Lock) {
    s.readers == 0 && s.outer == 0 && s.inner == 0 && s.leaving == 0
  }

  predicate Enabled(s: Lock, step: Step) {
    match step
    case ReadLock => s.writer.Absent?
    case ReadUnlock => s.readers > 0
    case WriteLock => s.writer.Absent?
    case WriteAdmitted => s.writer.Waiting? && NoReaders(s)
    case WriteUnlock => s.writer.Writing?
    case OuterLock => s.writer.Absent?
    case InnerLock => s.outer > 0 && s.writer.Absent?
    case InnerUnlock => s.inner > 0
    case OuterUnlock => s.leaving > 0
  }

  function Do(s: Lock, step: Step): Lock {
    if !Enabled(s, step) then s
    else
      match step
      case ReadLock => s.(readers := s.readers + 1)
      case ReadUnlock => s.(readers := s.readers - 1)
      case WriteLock => s.(writer := Waiting)
      case WriteAdmitted => s.(writer := Writing)
      case WriteUnlock => s.(writer := Absent)
      case OuterLock => s.(outer := s.outer + 1)
      case InnerLock => s.(outer := s.outer - 1, inner := s.inner + 1)
      case InnerUnlock => s.(inner := s.inner - 1, leaving := s.leaving + 1)
      case OuterUnlock => s.(leaving := s.leaving - 1)
  }

  function RunFrom(s: Lock, steps: seq<Step>): Lock {
    if steps == [] then s else Do(RunFrom(s, steps[..|steps| - 1]), steps[|steps| - 1])
  }

  /** A writer waits for a Stats call that waits for it. */
  predicate Stuck(s: Lock) {
    s.writer.Waiting? && s.outer > 0
  }

  /** Once stuck, always stuck: neither that Stats call nor any writer ever gets on. */
  lemma {:induction false} StuckForGood(s: Lock, steps: seq<Step>)
    requires Stuck(s)
    ensures var s' := RunFrom(s, steps); Stuck(s') && s'.outer == s.outer
  {
    if steps != [] {
      StuckForGood(s, steps[..|steps| - 1]);
    }
  }

  /** At some point of the run a writer came between the two read locks of a Stats call. */
  predicate CameBetween(steps: seq<Step>) {
    steps != [] && (
      var before := steps[..|steps| - 1];
      var s := RunFrom(START, before);
      CameBetween(before) || (steps[|steps| - 1].WriteLock? && s.writer.Absent? && s.outer > 0))
  }

  /** Writing excludes all readers. */
  predicate Exclusive(s: Lock) {
    s.writer.Writing? ==> NoReaders(s)
  }

  /** The lock is stuck exactly in the runs in which that happened. */
  lemma {:induction false} StuckExactly(steps: seq<Step>)
    ensures Stuck(RunFrom(START, steps)) <==> CameBetween(steps)
    ensures Exclusive(RunFrom(START, steps))
  {
    if steps != [] {
      StuckExactly(steps[..|steps| - 1]);
    }
  }

  /** Such runs exist. */
  lemma {:induction false} StuckIsReachable()
    ensures exists steps :: Stuck(RunFrom(START, steps))
  {
    var steps := [OuterLock, WriteLock];
    assert steps[..1] == [OuterLock] && steps[..1][..0] == [];
    assert RunFrom(START, []) == START;
    assert RunFrom(START, steps[..1]) == Do(START, OuterLock);
    assert Stuck(RunFrom(START, steps));
  }

  predicate Arrives(x: Step) {
    x.ReadLock? || x.WriteLock? || x.OuterLock?
  }

  predicate NobodyArrives(steps: seq<Step>) {
    forall i :: 0 <= i < |steps| ==> !Arrives(steps[i])
  }

  lemma {:induction false} WriterGetsOut(s: Lock) returns (steps: seq<Step>)
    requires NoReaders(s)
    ensures NobodyArrives(steps) && RunFrom(s, steps) == START
  {
    match s.writer
    case Absent =>
      steps := [];
    case Writing =>
      steps := [WriteUnlock];
      RunFirst(s, WriteUnlock, []);
    case Waiting =>
      steps := [WriteAdmitted] + [WriteUnlock];
      RunFirst(Do(s, WriteAdmitted), WriteUnlock, []);
      RunFirst(s, WriteAdmitted, [WriteUnlock]);
  }

  /** The reader that goes next. */
  function NextReader(s: Lock): Step {
    if s.readers > 0 then ReadUnlock
    else if s.leaving > 0 then OuterUnlock
    else if s.inner > 0 then InnerUnlock
    else InnerLock
  }

  /** A lock that is not stuck can always be left by everybody who is at it, without anybody new. */
  lemma {:induction false} OthersGetOut(s: Lock) returns (steps: seq<Step>)
    requires !Stuck(s) && Exclusive(s)
    ensures NobodyArrives(steps) && RunFrom(s, steps) == START
    decreases s.outer, s.inner, s.leaving, s.readers
  {
    if NoReaders(s) {
      steps := WriterGetsOut(s);
    } else {
      var rest := OthersGetOut(Do(s, NextReader(s)));
      steps := [NextReader(s)] + rest;
      RunFirst(s, NextReader(s), rest);
    }
  }

  lemma {:induction false} RunFirst(s: Lock, x: Step, rest: seq<Step>)
    ensures RunFrom(s, [x] + rest) == RunFrom(Do(s, x), rest)
  {
    var steps := [x] + rest;
    if rest == [] {
      assert steps == [x] && steps[..0] == [];
    } else {
      RunFirst(s, x, rest[..|rest| - 1]);
      assert steps[..|steps| - 1] == [x] + rest[..|rest| - 1];
    }
  }
}
