/** The v1 worker pool with any number of submitters and a fixed number of workers, one channel
    operation or counter update at a time. Jobs are numbered in the order in which the queue
    accepted them. A step that cannot be taken changes nothing, so every sequence is a run. */
module WorkerPool {

  /** Where a worker stands. */
  datatype Phase =
    | Idle
    | Took(job: nat)                   // received, `processing` not yet increased
    | Running(job: nat)                // `processing` increased, in Process
    | Returned(job: nat, error: bool)  // Process is over, `processing` not yet decreased
    | Left(job: nat, error: bool)      // decreased, not yet counted
    | Counted(error: bool)             // counted in totalProcessed, an error not yet in totalErrors

  datatype Step =
    | Submit
    | Take(worker: nat)
    | Enter(worker: nat)
    | Return(worker: nat, error: bool)
    | Leave(worker: nat)
    | CountJob(worker: nat)
    | CountError(worker: nat)

  datatype Pool = Pool(
    queue: seq<nat>,
    phases: map<nat, Phase>,
    processing: int,
    totalProcessed: nat,
    totalErrors: nat,
    accepted: nat,
    refused: nat,
    processed: seq<nat>,  // the jobs whose Process was called, in that order
    succeeded: nat)       // jobs counted in totalProcessed that returned no error

  const START := Pool([], map[], 0, 0, 0, 0, 0, [], 0)

  function PhaseOf(p: Pool, w: nat): Phase {
    if w in p.phases then p.phases[w] else Idle
  }

  function Set(p: Pool, w: nat, phase: Phase): Pool {
    p.(phases := p.phases[w := phase])
  }

  function Do(capacity: nat, workers: nat, p: Pool, step: Step): Pool {
    match step
    case Submit =>
      if |p.queue| < capacity then p.(queue := p.queue + [p.accepted], accepted := p.accepted + 1)
      else p.(refused := p.refused + 1)
    case Take(w) =>
      if w >= workers || !PhaseOf(p, w).Idle? || p.queue == [] then p
      else Set(p.(queue := p.queue[1..]), w, Took(p.queue[0]))
    case Enter(w) =>
      if !PhaseOf(p, w).Took? then p
      else
        var job := PhaseOf(p, w).job;
        Set(p.(processing := p.processing + 1, processed := p.processed + [job]), w, Running(job))
    case Return(w, error) =>
      if !PhaseOf(p, w).Running? then p else Set(p, w, Returned(PhaseOf(p, w).job, error))
    case Leave(w) =>
      if !PhaseOf(p, w).Returned? then p
      else Set(p.(processing := p.processing - 1), w, Left(PhaseOf(p, w).job, PhaseOf(p, w).error))
    case CountJob(w) =>
      if !PhaseOf(p, w).Left? then p
      else
        var error := PhaseOf(p, w).error;
        Set(p.(totalProcessed := p.totalProcessed + 1, succeeded := p.succeeded + if error then 0 else 1),
            w, Counted(error))
    case CountError(w) =>
      if !PhaseOf(p, w).Counted? then p
      else Set(p.(totalErrors := p.totalErrors + if PhaseOf(p, w).error then 1 else 0), w, Idle)
  }

  function Run(capacity: nat, workers: nat, steps: seq<Step>): Pool {
    if steps == [] then START
    else Do(capacity, workers, Run(capacity, workers, steps[..|steps| - 1]), steps[|steps| - 1])
  }

  // ----- sums over the workers -----

  function Sum(p: Pool, n: nat, f: Phase -> nat): nat {
    if n == 0 then 0 else Sum(p, n - 1, f) + f(PhaseOf(p, n - 1))
  }

  function InProcess(ph: Phase): nat {
    if ph.Running? || ph.Returned? then 1 else 0
  }

  function HoldsJob(ph: Phase): nat {
    if ph.Idle? || ph.Counted? then 0 else 1
  }

  function OwesError(ph: Phase): nat {
    if ph.Counted? && ph.error then 1 else 0
  }

  lemma {:induction false} SumSet(p: Pool, w: nat, phase: Phase, n: nat, f: Phase -> nat)
    ensures Sum(Set(p, w, phase), n, f) == Sum(p, n, f) + if w < n then f(phase) - f(PhaseOf(p, w)) else 0
  {
    if n > 0 {
      SumSet(p, w, phase, n - 1, f);
    }
  }

  lemma {:induction false} SumSame(p: Pool, q: Pool, n: nat, f: Phase -> nat)
    requires p.phases == q.phases
    ensures Sum(p, n, f) == Sum(q, n, f)
  {
    if n > 0 {
      SumSame(p, q, n - 1, f);
    }
  }

  lemma {:induction false} SumBound(p: Pool, n: nat, f: Phase -> nat)
    requires forall ph :: f(ph) <= 1
    ensures Sum(p, n, f) <= n
  {
    if n > 0 {
      SumBound(p, n - 1, f);
    }
  }

  // ----- what always holds -----

  predicate Counters(capacity: nat, workers: nat, p: Pool) {
    && |p.queue| <= capacity
    && p.processing == Sum(p, workers, InProcess)
    && p.accepted == |p.queue| + Sum(p, workers, HoldsJob) + p.totalProcessed
    && p.totalProcessed == p.totalErrors + Sum(p, workers, OwesError) + p.succeeded
    && (forall w :: w in p.phases && !p.phases[w].Idle? ==> w < workers)
  }

  predicate HasJob(ph: Phase) {
    ph.Took? || ph.Running? || ph.Returned? || ph.Left?
  }

  /** Jobs wait in the order of acceptance, and Process was called at most once for each that is not
      waiting. */
  predicate ProcessedOnce(p: Pool) {
    && |p.queue| <= p.accepted
    && (forall i :: 0 <= i < |p.queue| ==> p.queue[i] == p.accepted - |p.queue| + i)
    && (forall i :: 0 <= i < |p.processed| ==> p.processed[i] < p.accepted - |p.queue|)
    && (forall i, j :: 0 <= i < j < |p.processed| ==> p.processed[i] != p.processed[j])
  }

  /** A job that a worker has just received was not processed. */
  predicate TookFresh(p: Pool) {
    forall w :: w in p.phases && p.phases[w].Took? ==> Fresh(p, p.phases[w].job)
  }

  /** From its receipt until it is counted, a job is with one worker only. */
  predicate WorkersApart(p: Pool) {
    && (forall w :: w in p.phases && HasJob(p.phases[w]) ==> p.phases[w].job < p.accepted - |p.queue|)
    && (forall v, w :: v in p.phases && w in p.phases && v != w && HasJob(p.phases[v]) && HasJob(p.phases[w]) ==>
          p.phases[v].job != p.phases[w].job)
  }

  predicate JobsOnce(p: Pool) {
    ProcessedOnce(p) && TookFresh(p) && WorkersApart(p)
  }

  predicate Fresh(p: Pool, job: nat) {
    job < p.accepted - |p.queue| && forall i :: 0 <= i < |p.processed| ==> p.processed[i] != job
  }

  lemma {:induction false} CountersKept(capacity: nat, workers: nat, p: Pool, step: Step)
    requires Counters(capacity, workers, p)
    ensures Counters(capacity, workers, Do(capacity, workers, p, step))
  {
    var p' := Do(capacity, workers, p, step);
    if step.Submit? {
      SumSame(p, p', workers, InProcess);
      SumSame(p, p', workers, HoldsJob);
      SumSame(p, p', workers, OwesError);
    } else if p' != p {
      var w := step.worker;
      var q := Set(p, w, PhaseOf(p', w));
      SumSet(p, w, PhaseOf(p', w), workers, InProcess);
      SumSet(p, w, PhaseOf(p', w), workers, HoldsJob);
      SumSet(p, w, PhaseOf(p', w), workers, OwesError);
      SumSame(q, p', workers, InProcess);
      SumSame(q, p', workers, HoldsJob);
      SumSame(q, p', workers, OwesError);
    }
  }

  lemma {:induction false} WorkersStayApart(capacity: nat, workers: nat, p: Pool, step: Step)
    requires JobsOnce(p)
    ensures WorkersApart(Do(capacity, workers, p, step))
  {
    assert p.queue != [] ==> p.queue[0] == p.accepted - |p.queue|;
  }

  lemma {:induction false} TookStaysFresh(capacity: nat, workers: nat, p: Pool, step: Step)
    requires JobsOnce(p)
    ensures TookFresh(Do(capacity, workers, p, step))
  {
    assert p.queue != [] ==> p.queue[0] == p.accepted - |p.queue|;
  }

  lemma {:induction false} JobsOnceKept(capacity: nat, workers: nat, p: Pool, step: Step)
    requires JobsOnce(p)
    ensures JobsOnce(Do(capacity, workers, p, step))
  {
    WorkersStayApart(capacity, workers, p, step);
    TookStaysFresh(capacity, workers, p, step);
  }

  /** In every run: accepted jobs are queued, with a worker, or counted; no job is processed twice;
      `processing` is the number of workers in Process and lies between 0 and the number of workers;
      the queue stays within its capacity; errors never outnumber processed jobs, and when all workers
      are idle the counters account for every job taken. */
  lemma {:induction false} Always(capacity: nat, workers: nat, steps: seq<Step>)
    ensures var p := Run(capacity, workers, steps);
            && Counters(capacity, workers, p) && JobsOnce(p)
            && 0 <= p.processing <= workers
            && p.totalErrors <= p.totalProcessed <= p.accepted
  {
    if steps == [] {
      SumIdle(workers, InProcess);
      SumIdle(workers, HoldsJob);
      SumIdle(workers, OwesError);
    } else {
      var before := steps[..|steps| - 1];
      Always(capacity, workers, before);
      CountersKept(capacity, workers, Run(capacity, workers, before), steps[|steps| - 1]);
      JobsOnceKept(capacity, workers, Run(capacity, workers, before), steps[|steps| - 1]);
    }
    SumBound(Run(capacity, workers, steps), workers, InProcess);
  }

  lemma {:induction false} SumIdle(n: nat, f: Phase -> nat)
    requires f(Idle) == 0
    ensures Sum(START, n, f) == 0
  {
    if n > 0 {
      SumIdle(n - 1, f);
    }
  }

  // ----- what the steps of a run add up to -----

  datatype Kind = Accepted | Refused | Entered | GoodReturn | BadReturn

  predicate Happens(capacity: nat, p: Pool, step: Step, kind: Kind) {
    match kind
    case Accepted => step.Submit? && |p.queue| < capacity
    case Refused => step.Submit? && |p.queue| >= capacity
    case Entered => step.Enter? && PhaseOf(p, step.worker).Took?
    case GoodReturn => step.Return? && PhaseOf(p, step.worker).Running? && !step.error
    case BadReturn => step.Return? && PhaseOf(p, step.worker).Running? && step.error
  }

  function HowOften(capacity: nat, workers: nat, steps: seq<Step>, kind: Kind): nat {
    if steps == [] then 0
    else
      var before := steps[..|steps| - 1];
      HowOften(capacity, workers, before, kind)
      + if Happens(capacity, Run(capacity, workers, before), steps[|steps| - 1], kind) then 1 else 0
  }

  /** Process was called, and the job is not counted yet. */
  function Uncounted(ph: Phase): nat {
    if ph.Running? || ph.Returned? || ph.Left? then 1 else 0
  }

  /** Process returned an error that is not counted yet. */
  function PendingError(ph: Phase): nat {
    if (ph.Returned? || ph.Left? || ph.Counted?) && ph.error then 1 else 0
  }

  /** Process returned none, and the job is not counted yet. */
  function PendingSuccess(ph: Phase): nat {
    if (ph.Returned? || ph.Left?) && !ph.error then 1 else 0
  }

  lemma {:induction false} StepSums(capacity: nat, workers: nat, p: Pool, step: Step, f: Phase -> nat)
    requires Counters(capacity, workers, p)
    ensures var p' := Do(capacity, workers, p, step);
            Sum(p', workers, f) == Sum(p, workers, f)
                                   + if step.Submit? then 0
                                     else f(PhaseOf(p', step.worker)) - f(PhaseOf(p, step.worker))
  {
    var p' := Do(capacity, workers, p, step);
    if p' == p || step.Submit? {
      SumSame(p, p', workers, f);
    } else {
      var q := Set(p, step.worker, PhaseOf(p', step.worker));
      SumSet(p, step.worker, PhaseOf(p', step.worker), workers, f);
      SumSame(q, p', workers, f);
    }
  }

  function One(capacity: nat, p: Pool, step: Step, kind: Kind): nat {
    if Happens(capacity, p, step, kind) then 1 else 0
  }

  lemma {:induction false} StepSubmits(capacity: nat, workers: nat, p: Pool, step: Step)
    ensures var p' := Do(capacity, workers, p, step);
            && p'.accepted == p.accepted + One(capacity, p, step, Accepted)
            && p'.refused == p.refused + One(capacity, p, step, Refused)
            && |p'.processed| == |p.processed| + One(capacity, p, step, Entered)
  {
  }

  lemma {:induction false} StepCounts(capacity: nat, workers: nat, p: Pool, step: Step)
    requires Counters(capacity, workers, p)
    ensures var p' := Do(capacity, workers, p, step);
            && p'.totalProcessed + Sum(p', workers, Uncounted) ==
               p.totalProcessed + Sum(p, workers, Uncounted) + One(capacity, p, step, Entered)
            && p'.totalErrors + Sum(p', workers, PendingError) ==
               p.totalErrors + Sum(p, workers, PendingError) + One(capacity, p, step, BadReturn)
            && p'.succeeded + Sum(p', workers, PendingSuccess) ==
               p.succeeded + Sum(p, workers, PendingSuccess) + One(capacity, p, step, GoodReturn)
  {
    StepSums(capacity, workers, p, step, Uncounted);
    StepSums(capacity, workers, p, step, PendingError);
    StepSums(capacity, workers, p, step, PendingSuccess);
  }

  /** In every run: a job was refused exactly when it came to a full queue; every job that Process was called
      for is counted or about to be; and so is every error that Process returned, and nothing else. */
  lemma {:induction false} Tallies(capacity: nat, workers: nat, steps: seq<Step>)
    ensures var p := Run(capacity, workers, steps);
            && p.accepted == HowOften(capacity, workers, steps, Accepted)
            && p.refused == HowOften(capacity, workers, steps, Refused)
            && |p.processed| == HowOften(capacity, workers, steps, Entered)
            && |p.processed| == p.totalProcessed + Sum(p, workers, Uncounted)
            && HowOften(capacity, workers, steps, BadReturn) == p.totalErrors + Sum(p, workers, PendingError)
            && HowOften(capacity, workers, steps, GoodReturn) == p.succeeded + Sum(p, workers, PendingSuccess)
  {
    if steps == [] {
      SumIdle(workers, Uncounted);
      SumIdle(workers, PendingError);
      SumIdle(workers, PendingSuccess);
    } else {
      var before := steps[..|steps| - 1];
      Tallies(capacity, workers, before);
      Always(capacity, workers, before);
      StepSubmits(capacity, workers, Run(capacity, workers, before), steps[|steps| - 1]);
      StepCounts(capacity, workers, Run(capacity, workers, before), steps[|steps| - 1]);
    }
  }

  lemma {:induction false} SumOfIdle(p: Pool, n: nat, f: Phase -> nat)
    requires f(Idle) == 0 && forall w: nat :: w < n ==> PhaseOf(p, w).Idle?
    ensures Sum(p, n, f) == 0
  {
    if n > 0 {
      SumOfIdle(p, n - 1, f);
    }
  }

  /** When all workers are idle, every job that left the queue was processed once and is counted, and the
      errors are the times that Process returned one. */
  lemma {:induction false} AtRest(capacity: nat, workers: nat, steps: seq<Step>)
    requires forall w: nat :: w < workers ==> PhaseOf(Run(capacity, workers, steps), w).Idle?
    ensures var p := Run(capacity, workers, steps);
            && p.processing == 0
            && p.totalProcessed == |p.processed| == p.accepted - |p.queue|
            && p.totalErrors == HowOften(capacity, workers, steps, BadReturn)
            && p.totalProcessed - p.totalErrors == HowOften(capacity, workers, steps, GoodReturn)
  {
    var p := Run(capacity, workers, steps);
    Tallies(capacity, workers, steps);
    Always(capacity, workers, steps);
    SumOfIdle(p, workers, InProcess);
    SumOfIdle(p, workers, HoldsJob);
    SumOfIdle(p, workers, OwesError);
    SumOfIdle(p, workers, Uncounted);
    SumOfIdle(p, workers, PendingError);
    SumOfIdle(p, workers, PendingSuccess);
  }
}
