/** Who may run ffmpeg for one v2 camera: the goroutines that start it and read from it, the retry
    goroutine, the `retrying` flag, and the circuit breaker between them. Goroutines that stand at
    the same point are interchangeable, so the state counts them. A step for which nobody stands
    ready changes nothing, so every sequence of steps is a run, under every interleaving. */
module RetryProtocol {
  import opened BreakerV2
  import opened CircuitState

  datatype Step =
    | Start                   // Start() on the camera; only the first one counts
    | Cancel                  // Stop()
    | PipeError               // ffmpeg could not be set up: the goroutine just returns
    | StartFails              // ffmpeg did not start
    | StartWorks              // ffmpeg runs, its output is being read
    | ReadFails               // a read error; after Stop() the goroutine just returns
    | Check(now: int)         // Execute: the read-locked admission
    | DoubleCheck(now: int)   // Execute: the write-locked upgrade
    | Count                   // Execute: the call is counted
    | Record(now: int)        // Execute: the failure is recorded
    | CountRejection          // Execute: the refusal is counted
    | TestFlag                // sets retrying and goes on to spawn, or returns if it was set
    | Spawn                   // go retryFFmpegWithBackoff()
    | Poll                    // one turn of the retry loop
    | Launch                  // go startFFmpeg()
    | ClearFlag               // the deferred retrying = false

  datatype System = System(
    b: Breaker,
    started: bool,
    cancelled: bool,
    retrying: bool,
    // goroutines running startFFmpeg, by where they are
    launching: nat,
    reading: nat,
    checking: nat,
    upgrading: nat,
    counting: nat,
    recording: nat,
    refused: nat,
    testing: nat,
    // retry goroutines, from the decision to spawn one to its end
    spawning: nat,
    polling: nat,
    relaunching: nat,
    clearing: nat,
    // history
    launches: nat,     // goroutines that ran startFFmpeg so far
    gaveUp: nat,       // of these and of the retriers, those that ended without a successor
    gaveUpEarly: nat)  // of these, those that recorded no failure

  function Init(c: Config): System {
    System(New(c, 0), false, false, false, 0, 0, 0, 0, 0, 0, 0, 0, 0, 0, 0, 0, 0, 0, 0)
  }

  function Do(c: Config, s: System, step: Step): System {
    match step
    case Start =>
      if s.started then s else s.(started := true, launching := s.launching + 1, launches := s.launches + 1)
    case Cancel =>
      s.(cancelled := true)
    case PipeError =>
      if s.launching == 0 then s
      else s.(launching := s.launching - 1, gaveUp := s.gaveUp + 1, gaveUpEarly := s.gaveUpEarly + 1)
    case StartFails =>
      if s.launching == 0 then s else s.(launching := s.launching - 1, checking := s.checking + 1)
    case StartWorks =>
      if s.launching == 0 then s else s.(launching := s.launching - 1, reading := s.reading + 1)
    case ReadFails =>
      if s.reading == 0 then s
      else if s.cancelled then
        s.(reading := s.reading - 1, gaveUp := s.gaveUp + 1, gaveUpEarly := s.gaveUpEarly + 1)
      else s.(reading := s.reading - 1, checking := s.checking + 1)
    case Check(now) => (
      if s.checking == 0 then s
      else if !c.enabled then s.(checking := s.checking - 1, testing := s.testing + 1)
      else match Decide(s.b, now)
           case Admit => s.(checking := s.checking - 1, counting := s.counting + 1)
           case Upgrade => s.(checking := s.checking - 1, upgrading := s.upgrading + 1)
           case Refuse => s.(checking := s.checking - 1, refused := s.refused + 1))
    case DoubleCheck(now) =>
      if s.upgrading == 0 then s
      else s.(upgrading := s.upgrading - 1, counting := s.counting + 1, b := Upgraded(s.b, now))
    case Count =>
      if s.counting == 0 then s
      else s.(counting := s.counting - 1, recording := s.recording + 1, b := Counted(s.b))
    case Record(now) =>
      if s.recording == 0 then s
      else s.(recording := s.recording - 1, testing := s.testing + 1, b := Failed(c, s.b, now))
    case CountRejection =>
      if s.refused == 0 then s
      else s.(refused := s.refused - 1, testing := s.testing + 1, b := Rejected(s.b))
    case TestFlag =>
      if s.testing == 0 then s
      else if s.retrying then s.(testing := s.testing - 1, gaveUp := s.gaveUp + 1)
      else s.(testing := s.testing - 1, spawning := s.spawning + 1, retrying := true)
    case Spawn =>
      if s.spawning == 0 then s else s.(spawning := s.spawning - 1, polling := s.polling + 1)
    case Poll =>
      if s.polling == 0 then s
      else if s.cancelled then s.(polling := s.polling - 1, clearing := s.clearing + 1, gaveUp := s.gaveUp + 1)
      else if s.b.state.Open? then s
      else s.(polling := s.polling - 1, relaunching := s.relaunching + 1)
    case Launch =>
      if s.relaunching == 0 then s
      else s.(relaunching := s.relaunching - 1, clearing := s.clearing + 1,
              launching := s.launching + 1, launches := s.launches + 1)
    case ClearFlag =>
      if s.clearing == 0 then s else s.(clearing := s.clearing - 1, retrying := false)
  }

  function RunFrom(c: Config, s: System, steps: seq<Step>): System {
    if steps == [] then s
    else Do(c, RunFrom(c, s, steps[..|steps| - 1]), steps[|steps| - 1])
  }

  function Run(c: Config, steps: seq<Step>): System {
    RunFrom(c, Init(c), steps)
  }

  /** startFFmpeg goroutines that have not recorded a failure yet. */
  function Unrecorded(s: System): nat {
    s.launching + s.reading + s.checking + s.upgrading + s.counting + s.recording
  }

  /** All startFFmpeg goroutines. */
  function Active(s: System): nat {
    Unrecorded(s) + s.refused + s.testing
  }

  function Retriers(s: System): nat {
    s.spawning + s.polling + s.relaunching + s.clearing
  }

  // ----- the protocol, with or without a breaker -----

  /** One token goes round: whoever holds it runs ffmpeg, or will launch it next, or has given up. */
  predicate OneToken(s: System) {
    && Active(s) + s.spawning + s.polling + s.relaunching + s.gaveUp == (if s.started then 1 else 0)
    && (s.launches > 0 ==> s.started)
  }

  predicate FlagMatches(s: System) {
    Retriers(s) == if s.retrying then 1 else 0
  }

  lemma {:induction false} KeepsProtocol(c: Config, s: System, step: Step)
    requires OneToken(s) && FlagMatches(s)
    ensures OneToken(Do(c, s, step)) && FlagMatches(Do(c, s, step))
  {
  }

  /** In every run there is at most one retry goroutine, `retrying` holds exactly while there is one,
      and at most one ffmpeg is running, being started, or about to be started again. Once nobody
      holds the token, nobody ever will: a camera whose failure finds the flag still set is lost. */
  lemma {:induction false} Protocol(c: Config, steps: seq<Step>)
    ensures var s := Run(c, steps);
            && OneToken(s) && FlagMatches(s)
            && Retriers(s) <= 1
            && (s.retrying <==> Retriers(s) == 1)
            && Active(s) + s.spawning + s.polling + s.relaunching <= 1
  {
    if steps != [] {
      Protocol(c, steps[..|steps| - 1]);
      KeepsProtocol(c, Run(c, steps[..|steps| - 1]), steps[|steps| - 1]);
    }
  }

  lemma {:induction false} LostForGood(c: Config, s: System, steps: seq<Step>)
    requires OneToken(s) && FlagMatches(s) && s.gaveUp == 1
    ensures var s' := RunFrom(c, s, steps);
            OneToken(s') && FlagMatches(s') && s'.gaveUp == 1 && s'.launches == s.launches && Active(s') == 0
  {
    if steps != [] {
      LostForGood(c, s, steps[..|steps| - 1]);
      KeepsProtocol(c, RunFrom(c, s, steps[..|steps| - 1]), steps[|steps| - 1]);
    }
  }

  /** The losing moments, in every run: a camera gives up exactly when ffmpeg cannot be set up, when its
      reader or its retry goroutine sees that it was cancelled, or when a failure looks at the flag
      while the retry goroutine that launched this ffmpeg is still about to clear it. */
  lemma {:induction false} GivesUpExactly(c: Config, steps: seq<Step>, step: Step)
    ensures var s := Run(c, steps);
            Do(c, s, step).gaveUp > s.gaveUp <==>
            || (step.PipeError? && s.launching == 1)
            || (step.ReadFails? && s.reading == 1 && s.cancelled)
            || (step.Poll? && s.polling == 1 && s.cancelled)
            || (step.TestFlag? && s.testing == 1 && s.clearing == 1)
  {
    Protocol(c, steps);
  }

  /** Nobody stopped the camera, and ffmpeg could always be set up. */
  predicate Undisturbed(steps: seq<Step>) {
    Cancel !in steps && PipeError !in steps
  }

  /** An undisturbed camera can be lost exactly when it may fail twice: when the breaker is off, or
      allows at least two failures. Otherwise the first failure opens the circuit, and the retry
      goroutine waits for good. */
  lemma {:induction false} LostExactly(c: Config)
    ensures (exists steps :: Undisturbed(steps) && Run(c, steps).gaveUp == 1) <==>
            (c.enabled ==> c.maxFailures >= 2)
  {
    if c.enabled ==> c.maxFailures >= 2 {
      var steps := CameraCanBeLost(c);
    } else {
      forall steps | Undisturbed(steps)
        ensures Run(c, steps).gaveUp == 0
      {
        NeverLost(c, steps);
      }
    }
  }

  /** One failure, and then nothing but waiting. */
  predicate OneRound(s: System) {
    && OneToken(s) && FlagMatches(s)
    && s.gaveUp == 0 && !s.cancelled && !s.b.state.HalfOpen?
    && (s.b.state.Closed? ==> s.b.failures == 0 && Retriers(s) == 0 && s.testing == 0)
    && (s.b.state.Open? ==> s.started && Unrecorded(s) + s.relaunching + s.clearing == 0)
    && s.upgrading == 0 && s.refused == 0
    && (s.testing > 0 ==> !s.retrying)
  }

  lemma {:induction false} KeepsOneRound(c: Config, s: System, step: Step)
    requires c.enabled && c.maxFailures <= 1 && step != Cancel && step != PipeError && OneRound(s)
    ensures OneRound(Do(c, s, step))
  {
    KeepsProtocol(c, s, step);
  }

  lemma {:induction false} NeverLost(c: Config, steps: seq<Step>)
    requires c.enabled && c.maxFailures <= 1 && Undisturbed(steps)
    ensures OneRound(Run(c, steps))
  {
    if steps != [] {
      var before := steps[..|steps| - 1];
      NeverLost(c, before);
      KeepsOneRound(c, Run(c, before), steps[|steps| - 1]);
    }
  }

  /** A reader that fails before the retry goroutine has cleared the flag is lost: nobody cancelled it
      and ffmpeg could always be set up, but it never comes back. */
  lemma {:induction false} CameraCanBeLost(c: Config) returns (steps: seq<Step>)
    requires c.enabled ==> c.maxFailures >= 2
    ensures Undisturbed(steps)
    ensures Run(c, steps).gaveUp == 1 && !Run(c, steps).cancelled
  {
    steps := [Start] + (FAILURE + RETURN + (FAILURE + [TestFlag]));
    RunOne(c, Init(c), Start);
    RunConcat(c, Init(c), [Start], FAILURE + RETURN + (FAILURE + [TestFlag]));
    FailsTwice(c, Do(c, Init(c), Start));
  }

  lemma {:induction false} FailsTwice(c: Config, s: System)
    requires Relaunched(c, s, 1) && (c.enabled ==> c.maxFailures >= 2)
    ensures var s' := RunFrom(c, s, FAILURE + RETURN + (FAILURE + [TestFlag])); s'.gaveUp == 1 && !s'.cancelled
  {
    var s1 := RunFrom(c, s, FAILURE);
    OneFailure(c, s, 1);
    LaunchedTooEarly(c, s1);
    FailsBeforeClear(c, RunFrom(c, s1, RETURN));
    RunConcat(c, s, FAILURE, RETURN);
    RunConcat(c, s, FAILURE + RETURN, FAILURE + [TestFlag]);
  }

  /** ffmpeg runs again, and the retry goroutine has not cleared the flag yet. */
  predicate NotCleared(s: System) {
    && s.retrying && !s.cancelled && s.gaveUp == 0 && s.clearing == 1 && Retriers(s) == 1
    && s.launching == 1 && Active(s) == 1 && s.b.state.Closed?
  }

  lemma {:induction false} LaunchedTooEarly(c: Config, s: System)
    requires FailureSeen(c, s, 1) && s.b.state.Closed?
    ensures NotCleared(RunFrom(c, s, RETURN))
  {
    RunFour(c, s, TestFlag, Spawn, Poll, Launch);
  }

  lemma {:induction false} FailsBeforeClear(c: Config, s: System)
    requires NotCleared(s)
    ensures var s' := RunFrom(c, s, FAILURE + [TestFlag]); s'.gaveUp == 1 && !s'.cancelled
  {
    RunFive(c, s, StartFails, Check(0), Count, Record(0), TestFlag);
  }

  // ----- what happened to every launch -----

  datatype Kind = Launched | NotSetUp | BadStart | GoodStart | BadRead | StoppedRead | Tested

  /** A step of some kind that somebody stands ready to take. */
  predicate Happens(s: System, step: Step, kind: Kind) {
    match kind
    case Launched => (step.Start? && !s.started) || (step.Launch? && s.relaunching > 0)
    case NotSetUp => step.PipeError? && s.launching > 0
    case BadStart => step.StartFails? && s.launching > 0
    case GoodStart => step.StartWorks? && s.launching > 0
    case BadRead => step.ReadFails? && s.reading > 0 && !s.cancelled
    case StoppedRead => step.ReadFails? && s.reading > 0 && s.cancelled
    case Tested => step.TestFlag? && s.testing > 0
  }

  function HowOften(c: Config, steps: seq<Step>, kind: Kind): nat {
    if steps == [] then 0
    else
      var before := steps[..|steps| - 1];
      HowOften(c, before, kind) + if Happens(Run(c, before), steps[|steps| - 1], kind) then 1 else 0
  }

  /** ffmpeg that did not start, or that was not stopped and ended. */
  function Failures(c: Config, steps: seq<Step>): nat {
    HowOften(c, steps, BadStart) + HowOften(c, steps, BadRead)
  }

  lemma {:induction false} AccountsNext(c: Config, steps: seq<Step>)
    requires steps != []
    ensures var before, step := steps[..|steps| - 1], steps[|steps| - 1];
            && Run(c, steps) == Do(c, Run(c, before), step)
            && forall kind :: HowOften(c, steps, kind) == HowOften(c, before, kind) + One(Run(c, before), step, kind)
  {
  }

  /** On the way from a failure to its record. */
  function Unsettled(s: System): nat {
    s.checking + s.upgrading + s.counting + s.recording + s.refused
  }

  function One(s: System, step: Step, kind: Kind): nat {
    if Happens(s, step, kind) then 1 else 0
  }

  lemma {:induction false} StepLaunches(c: Config, s: System, step: Step)
    ensures var s' := Do(c, s, step);
            && s'.launches == s.launches + One(s, step, Launched)
            && s'.launching + One(s, step, NotSetUp) + One(s, step, BadStart) + One(s, step, GoodStart) ==
               s.launching + One(s, step, Launched)
  {
  }

  lemma {:induction false} StepReads(c: Config, s: System, step: Step)
    ensures var s' := Do(c, s, step);
            s'.reading + One(s, step, BadRead) + One(s, step, StoppedRead) == s.reading + One(s, step, GoodStart)
  {
  }

  /** The steps of one `Execute`. */
  predicate InExecute(step: Step) {
    step.Check? || step.DoubleCheck? || step.Count? || step.Record? || step.CountRejection?
  }

  lemma {:induction false} InsideExecute(c: Config, s: System, step: Step)
    requires InExecute(step)
    ensures var s' := Do(c, s, step); Unsettled(s') + s'.testing == Unsettled(s) + s.testing
  {
  }

  lemma {:induction false} ExecuteRecords(c: Config, s: System, step: Step)
    requires InExecute(step) && c.enabled
    ensures var s' := Do(c, s, step);
            Unsettled(s') + s'.b.totalFailures + s'.b.totalRejected ==
            Unsettled(s) + s.b.totalFailures + s.b.totalRejected
  {
  }

  lemma {:induction false} OutsideExecute(c: Config, s: System, step: Step)
    requires !InExecute(step)
    ensures var s' := Do(c, s, step);
            && s'.b == s.b
            && Unsettled(s') == Unsettled(s) + One(s, step, BadStart) + One(s, step, BadRead)
            && s'.testing + One(s, step, Tested) == s.testing
  {
  }

  lemma {:induction false} StepSettles(c: Config, s: System, step: Step)
    ensures var s', failed := Do(c, s, step), One(s, step, BadStart) + One(s, step, BadRead);
            && Unsettled(s') + s'.testing + One(s, step, Tested) == Unsettled(s) + s.testing + failed
            && (c.enabled ==> Unsettled(s') + s'.b.totalFailures + s'.b.totalRejected ==
                              Unsettled(s) + s.b.totalFailures + s.b.totalRejected + failed)
  {
    if InExecute(step) {
      InsideExecute(c, s, step);
      if c.enabled {
        ExecuteRecords(c, s, step);
      }
    } else {
      OutsideExecute(c, s, step);
    }
  }

  predicate Untouched(c: Config, s: System) {
    s.b == New(c, 0) && s.upgrading + s.counting + s.recording + s.refused == 0
  }

  lemma {:induction false} StepUntouched(c: Config, s: System, step: Step)
    requires Untouched(c, s) && (c.enabled ==> s.checking == 0)
    ensures Untouched(c, Do(c, s, step))
  {
  }

  /** In every run: every launch is under way, could not be set up, did not start, or started; every
      ffmpeg that started is being read, was stopped, or ended by itself; and every failure, but
      nothing else, is recorded, refused, or on its way to that, and then looks at the flag. A breaker
      that is switched off stays as new. */
  lemma {:induction false} Accounts(c: Config, steps: seq<Step>)
    ensures var s := Run(c, steps);
            && s.launches == HowOften(c, steps, Launched)
            && s.launches == s.launching + HowOften(c, steps, NotSetUp)
                             + HowOften(c, steps, BadStart) + HowOften(c, steps, GoodStart)
            && HowOften(c, steps, GoodStart) ==
               s.reading + HowOften(c, steps, BadRead) + HowOften(c, steps, StoppedRead)
            && Failures(c, steps) == Unsettled(s) + s.testing + HowOften(c, steps, Tested)
            && (c.enabled ==> Failures(c, steps) == Unsettled(s) + s.b.totalFailures + s.b.totalRejected)
            && (!c.enabled ==> Untouched(c, s))
  {
    if steps != [] {
      var before, step := steps[..|steps| - 1], steps[|steps| - 1];
      Accounts(c, before);
      AccountsNext(c, steps);
      StepLaunches(c, Run(c, before), step);
      StepReads(c, Run(c, before), step);
      StepSettles(c, Run(c, before), step);
      if !c.enabled {
        StepUntouched(c, Run(c, before), step);
      }
    }
  }

  /** So while ffmpeg works, the breaker is as new, and nobody thinks of a retry. */
  lemma {:induction false} NothingFailed(c: Config, steps: seq<Step>)
    requires Failures(c, steps) == 0
    ensures var s := Run(c, steps);
            && s.b == New(c, 0) && !s.retrying && Retriers(s) == 0 && s.launches <= 1
            && Unsettled(s) + s.testing == 0
  {
    Accounts(c, steps);
    if steps != [] {
      var before, step := steps[..|steps| - 1], steps[|steps| - 1];
      AccountsNext(c, steps);
      NothingFailed(c, before);
      Protocol(c, before);
      StepUntouched(c, Run(c, before), step);
      KeepsQuiet(c, Run(c, before), step);
    }
  }

  lemma {:induction false} KeepsQuiet(c: Config, s: System, step: Step)
    requires !s.retrying && Retriers(s) == 0 && s.testing == 0 && (s.launches > 0 ==> s.started) && s.launches <= 1
    ensures var s' := Do(c, s, step);
            !s'.retrying && Retriers(s') == 0 && s'.launches <= 1
  {
  }

  /** A camera whose ffmpeg starts is read by one goroutine, and nobody else is about. */
  lemma {:induction false} StartedIsRead(c: Config)
    ensures var s := Run(c, [Start, StartWorks]); s.reading == 1 && Active(s) == 1 && s.b == New(c, 0)
  {
    RunTwo(c, Init(c), Start, StartWorks);
  }

  /** The steps of a failure that nobody interrupts are one `Execute` of a call that fails. */
  function FailureAlone(c: Config, b: Breaker, t0: int, t1: int): seq<Step> {
    if !c.enabled then [Check(t0)]
    else match Decide(b, t0)
         case Refuse => [Check(t0), CountRejection]
         case Admit => [Check(t0)] + [Count, Record(t1)]
         case Upgrade => [Check(t0), DoubleCheck(t0)] + [Count, Record(t1)]
  }

  lemma {:induction false} CheckAlone(c: Config, s: System, t0: int)
    requires Unsettled(s) == s.checking == 1
    ensures var s' := Do(c, s, Check(t0));
            if !c.enabled then s' == s.(checking := 0, testing := s.testing + 1)
            else match Decide(s.b, t0)
                 case Refuse => s' == s.(checking := 0, refused := 1)
                 case Admit => s' == s.(checking := 0, counting := 1)
                 case Upgrade => s' == s.(checking := 0, upgrading := 1)
  {
  }

  lemma {:induction false} RecordAlone(c: Config, s: System, t1: int)
    requires s.counting == 1 && s.recording == 0
    ensures RunFrom(c, s, [Count, Record(t1)]) ==
            s.(counting := 0, testing := s.testing + 1, b := Failed(c, Counted(s.b), t1))
  {
    RunTwo(c, s, Count, Record(t1));
  }

  lemma {:induction false} UpgradeAlone(c: Config, s: System, t0: int, t1: int)
    requires c.enabled && Unsettled(s) == s.checking == 1 && Decide(s.b, t0).Upgrade?
    ensures RunFrom(c, s, [Check(t0), DoubleCheck(t0)] + [Count, Record(t1)]) ==
            s.(checking := 0, testing := s.testing + 1, b := Failed(c, Counted(Upgraded(s.b, t0)), t1))
  {
    var s1 := Do(c, s, Check(t0));
    CheckAlone(c, s, t0);
    RunTwo(c, s, Check(t0), DoubleCheck(t0));
    RunConcat(c, s, [Check(t0), DoubleCheck(t0)], [Count, Record(t1)]);
    RecordAlone(c, Do(c, s1, DoubleCheck(t0)), t1);
  }

  lemma {:induction false} FailureIsExecuted(c: Config, s: System, t0: int, t1: int)
    requires Unsettled(s) == s.checking == 1
    ensures RunFrom(c, s, FailureAlone(c, s.b, t0, t1)) ==
            s.(checking := 0, testing := s.testing + 1, b := Executed(c, s.b, t0, t1, false))
  {
    var s1 := Do(c, s, Check(t0));
    CheckAlone(c, s, t0);
    RunOne(c, s, Check(t0));
    if c.enabled {
      match Decide(s.b, t0)
      case Refuse => RunTwo(c, s, Check(t0), CountRejection);
      case Admit =>
        RunConcat(c, s, [Check(t0)], [Count, Record(t1)]);
        RecordAlone(c, s1, t1);
      case Upgrade => UpgradeAlone(c, s, t0, t1);
    }
  }

  // ----- the protocol with the breaker enabled -----

  predicate Guarded(c: Config) {
    c.enabled && c.maxFailures >= 1
  }

  /** The breaker as this camera drives it: it only ever counts failures up, and once it is open
      nobody is left to call it. */
  predicate OneWay(c: Config, s: System) {
    && !s.b.state.HalfOpen?
    && s.b.failures == s.b.totalFailures
    && s.b.totalSuccesses == 0 && s.b.totalRejected == 0
    && s.b.totalCalls == s.b.totalFailures + s.recording
    && s.upgrading == 0 && s.refused == 0
    && (s.b.state.Closed? ==> s.b.failures < c.maxFailures)
    && (s.b.state.Open? ==> s.b.failures == c.maxFailures && Unrecorded(s) + s.relaunching == 0)
    && s.launches == s.b.totalFailures + Unrecorded(s) + s.gaveUpEarly
    && s.gaveUpEarly <= s.gaveUp
  }

  lemma {:induction false} KeepsOneWay(c: Config, s: System, step: Step)
    requires Guarded(c) && OneToken(s) && FlagMatches(s) && OneWay(c, s)
    ensures OneWay(c, Do(c, s, step))
  {
  }

  /** As wired, HALF_OPEN is unreachable, no call is ever refused, every failure that was ever seen
      still counts, ffmpeg is not launched while the circuit is open, and a camera launches ffmpeg
      at most MaxFailures times. This is what the code does; its documentation promises recovery. */
  lemma {:induction false} NeverHalfOpen(c: Config, steps: seq<Step>)
    requires Guarded(c)
    ensures var s := Run(c, steps);
            && OneWay(c, s)
            && s.launches <= c.maxFailures
  {
    Protocol(c, steps);
    if steps != [] {
      var before := steps[..|steps| - 1];
      NeverHalfOpen(c, before);
      Protocol(c, before);
      KeepsOneWay(c, Run(c, before), steps[|steps| - 1]);
    }
  }

  lemma {:induction false} StepWhileOpen(c: Config, s: System, step: Step)
    requires Guarded(c) && OneToken(s) && FlagMatches(s) && OneWay(c, s) && s.b.state.Open?
    ensures var s' := Do(c, s, step);
            && OneToken(s') && FlagMatches(s') && OneWay(c, s')
            && s'.b == s.b && s'.launches == s.launches
  {
    KeepsProtocol(c, s, step);
    KeepsOneWay(c, s, step);
  }

  /** Once the circuit is open it stays open, whatever happens and however long one waits, and
      ffmpeg is not launched again. */
  lemma {:induction false} OpenForGood(c: Config, s: System, more: seq<Step>)
    requires Guarded(c) && OneToken(s) && FlagMatches(s) && OneWay(c, s) && s.b.state.Open?
    ensures var s' := RunFrom(c, s, more);
            && OneToken(s') && FlagMatches(s') && OneWay(c, s')
            && s'.b == s.b && s'.launches == s.launches
  {
    if more != [] {
      var s1 := RunFrom(c, s, more[..|more| - 1]);
      OpenForGood(c, s, more[..|more| - 1]);
      StepWhileOpen(c, s1, more[|more| - 1]);
    }
  }

  // ----- both bounds are met -----

  /** The n-th launch is under way and nobody else is about. */
  predicate Relaunched(c: Config, s: System, n: nat) {
    && s.started && !s.cancelled && !s.retrying
    && s.launching == 1 && Active(s) == 1 && Retriers(s) == 0
    && s.launches == n && s.b.state.Closed? && s.gaveUp == 0
    && (c.enabled ==> s.b.failures == n - 1)
  }

  /** The n-th launch has failed and its goroutine is about to look at the flag. */
  predicate FailureSeen(c: Config, s: System, n: nat) {
    && s.started && !s.cancelled && !s.retrying
    && s.testing == 1 && Active(s) == 1 && Retriers(s) == 0
    && s.launches == n && s.gaveUp == 0
    && (!c.enabled ==> s.b.state.Closed?)
    && (c.enabled ==> s.b.failures == n && s.b.state == if n >= c.maxFailures then Open else Closed)
  }

  const FAILURE: seq<Step> := [StartFails, Check(0)] + [Count, Record(0)]
  const RETURN: seq<Step> := [TestFlag, Spawn] + [Poll, Launch]
  const COMEBACK: seq<Step> := RETURN + [ClearFlag]

  lemma {:induction false} RunConcat(c: Config, s: System, a: seq<Step>, b: seq<Step>)
    ensures RunFrom(c, s, a + b) == RunFrom(c, RunFrom(c, s, a), b)
  {
    if b == [] {
      assert a + b == a;
    } else {
      RunConcat(c, s, a, b[..|b| - 1]);
      assert (a + b)[..|a + b| - 1] == a + b[..|b| - 1];
    }
  }

  lemma {:induction false} RunOne(c: Config, s: System, x: Step)
    ensures RunFrom(c, s, [x]) == Do(c, s, x)
  {
    assert [x][..0] == [];
  }

  lemma {:induction false} RunTwo(c: Config, s: System, x: Step, y: Step)
    ensures RunFrom(c, s, [x, y]) == Do(c, Do(c, s, x), y)
  {
    assert [x, y] == [x] + [y];
    RunConcat(c, s, [x], [y]);
    RunOne(c, s, x);
    RunOne(c, Do(c, s, x), y);
  }

  lemma {:induction false} RunFour(c: Config, s: System, x: Step, y: Step, z: Step, u: Step)
    ensures RunFrom(c, s, [x, y] + [z, u]) == Do(c, Do(c, Do(c, Do(c, s, x), y), z), u)
  {
    RunTwo(c, s, x, y);
    RunTwo(c, Do(c, Do(c, s, x), y), z, u);
    RunConcat(c, s, [x, y], [z, u]);
  }

  lemma {:induction false} RunFive(c: Config, s: System, x: Step, y: Step, z: Step, u: Step, v: Step)
    ensures RunFrom(c, s, [x, y] + [z, u] + [v]) == Do(c, Do(c, Do(c, Do(c, Do(c, s, x), y), z), u), v)
  {
    RunFour(c, s, x, y, z, u);
    RunOne(c, RunFrom(c, s, [x, y] + [z, u]), v);
    RunConcat(c, s, [x, y] + [z, u], [v]);
  }

  lemma {:induction false} OneFailure(c: Config, s: System, n: nat)
    requires Relaunched(c, s, n)
    ensures FailureSeen(c, RunFrom(c, s, FAILURE), n)
  {
    RunFour(c, s, StartFails, Check(0), Count, Record(0));
  }

  lemma {:induction false} OneComeback(c: Config, s: System, n: nat)
    requires FailureSeen(c, s, n) && s.b.state.Closed?
    ensures Relaunched(c, RunFrom(c, s, COMEBACK), n + 1)
  {
    RunFive(c, s, TestFlag, Spawn, Poll, Launch, ClearFlag);
  }

  /** Failing rounds: with the breaker disabled there can be any number of launches, with no wait
      between them; with it enabled, up to MaxFailures. */
  lemma {:induction false} Launches(c: Config, n: nat) returns (steps: seq<Step>)
    requires n >= 1 && (c.enabled ==> n <= c.maxFailures)
    ensures Relaunched(c, Run(c, steps), n)
  {
    if n == 1 {
      steps := [Start];
      RunOne(c, Init(c), Start);
    } else {
      var before := Launches(c, n - 1);
      steps := before + FAILURE + COMEBACK;
      RunConcat(c, Init(c), before, FAILURE);
      RunConcat(c, Init(c), before + FAILURE, COMEBACK);
      OneFailure(c, Run(c, before), n - 1);
      OneComeback(c, Run(c, before + FAILURE), n - 1);
    }
  }

  /** MaxFailures failures in a row do open the circuit, so the bound is met and the state from which
      there is no way back is reachable. */
  lemma {:induction false} OpenIsReachable(c: Config) returns (steps: seq<Step>)
    requires Guarded(c)
    ensures Run(c, steps).b.state.Open? && Run(c, steps).launches == c.maxFailures
  {
    var before := Launches(c, c.maxFailures);
    steps := before + FAILURE;
    RunConcat(c, Init(c), before, FAILURE);
    OneFailure(c, Run(c, before), c.maxFailures);
  }
}
