/**
 The worker pool of src/server/worker_pool.cpp as a transition system: any number of threads inside
 `TrySubmitBatch`, one worker per queue inside `WorkerLoop`, and any number of threads inside
 `CloseSubmissions` / `DrainAndJoin`.  Atomic operations, mutex acquisitions and releases, and
 condition-variable waits and notifications are separate, sequentially consistent steps.
 */
module WorkerPool {
  import opened Arith
  import opened Common
  import opened Sums

  /** A job is represented by its number of logical RPCs, at least one. */
  type Job = nat

  /** Who may hold a queue mutex. */
  datatype Holder = BySubmitter(t: nat) | ByWorker | ByCloser(c: nat)

  /** A thread inside `TrySubmitBatch`; the queue's mutex is held from Rechecking on. */
  datatype Submitter =
    | Outside
    | AtGate(n: Job)
    | Loading(n: Job)
    | Reserving(n: Job, seen: int)
    | Selecting(n: Job)
    | Locking(n: Job, q: nat)
    | Rechecking(n: Job, q: nat)
    | RollingBack(n: Job, q: nat)
    | Leaving(q: nat)
    | Admitting(n: Job, q: nat)
    | Counting(n: Job, q: nat)
    | Unlocking(n: Job, q: nat)
    | Notifying(q: nat)

  /** The worker of one queue inside `WorkerLoop`. */
  datatype Worker =
    | Starting
    | Deciding
    | SawNoDrain
    | Asleep
    | Woken
    | Taking
    | Running(n: Job)
    | Ran(n: Job)
    | Uncounted(n: Job)
    | Exited

  /** A thread inside `CloseSubmissions` (up to Closed) and then `DrainAndJoin`. */
  datatype Closer =
    | Away
    | Storing
    | Barrier(i: nat)
    | BarrierHeld(i: nat)
    | Closed
    | Superseded
    | Waking(i: nat)
    | WakingHeld(i: nat)
    | Joining(i: nat)
    | Joined

  /** Where a job was admitted, and which call admitted it: the `k`-th of thread `t`. */
  datatype Place = Place(q: nat, index: nat)

  datatype Author = Author(t: nat, k: nat)

  /** One call of `TrySubmitBatch`: what its loads of `accepting_submissions_` returned, the pending
      count its last attempt to reserve read, where its job went, and what it returned. */
  datatype Call = Call(
    n: Job,
    gate: Option<bool>,
    read: Option<int>,
    recheck: Option<bool>,
    place: Option<Place>,
    answer: Option<bool>)

  /** One `WorkerQueue` with its worker.  `admitted` logs every pushed job, `authors` whose it is, and
      `started` counts the jobs the worker has taken; all three are history. */
  datatype Queue = Queue(
    lock: Option<Holder>,
    jobs: seq<Job>,
    pendingLogical: int,
    queuedLogical: int,
    worker: Worker,
    admitted: seq<Job>,
    authors: seq<Author>,
    started: nat)

  datatype State = State(
    max: nat,
    pending: int,
    accepting: bool,
    drain: bool,
    queues: seq<Queue>,
    submitters: map<nat, Submitter>,
    closers: map<nat, Closer>,
    winner: Option<nat>,            // the closer whose exchange set `drain`
    calls: map<nat, seq<Call>>)     // each submitter's calls in order, the last perhaps unfinished

  /** Steps of a submitter. */
  datatype SubmitStep =
    | Begin(n: Job) | Gate | Load | Refuse | Cas | CasFail | Select(q: nat) | Lock | Recheck | Rollback | Leave
    | Push | Count | Unlock | Notify

  /** Steps of a worker; a spurious wakeup is one of them. */
  datatype WorkStep = Acquire | Spurious | LoadDrain | CheckEmpty | Take | Finish | Uncount | Release

  /** Steps of a closing or draining thread. */
  datatype CloseStep =
    | BeginClose | Store | LockBarrier | UnlockBarrier | ReturnClosed
    | Exchange | LockWaking | NotifyWaking | AllWoken | Join | Done

  datatype Step =
    | Submitting(t: nat, submit: SubmitStep)
    | Working(q: nat, work: WorkStep)
    | Closing(c: nat, close: CloseStep)

  function Init(workers: nat, max: nat, submitters: set<nat>, closers: set<nat>): State {
    State(max, 0, true, false, seq(workers, i => Queue(None, [], 0, 0, Starting, [], [], 0)),
          map t | t in submitters :: Outside, map c | c in closers :: Away, None,
          map t | t in submitters :: [])
  }

  /** The admission test of `TryReservePendingJobs`. */
  predicate Fits(s: State, n: Job, seen: int) {
    !(seen > s.max || n > s.max - seen)
  }

  predicate Free(s: State, q: nat) {
    q < |s.queues| && s.queues[q].lock.None?
  }

  // ----- Submitters

  predicate CanSubmit(s: State, t: nat, step: SubmitStep) {
    && t in s.submitters
    && var pc := s.submitters[t];
       match step
       case Begin(n) => pc.Outside? && 0 < n
       case Gate => pc.AtGate?
       case Load => pc.Loading?
       case Refuse => pc.Reserving? && !Fits(s, pc.n, pc.seen)
       case Cas => pc.Reserving? && Fits(s, pc.n, pc.seen) && s.pending == pc.seen
       case CasFail => pc.Reserving? && Fits(s, pc.n, pc.seen)   // a weak compare-exchange may fail spuriously
       case Select(q) => pc.Selecting? && q < |s.queues|
       case Lock => pc.Locking? && Free(s, pc.q)
       case Recheck => pc.Rechecking?
       case Rollback => pc.RollingBack?
       case Leave => pc.Leaving? && pc.q < |s.queues|
       case Push => pc.Admitting? && pc.q < |s.queues|
       case Count => pc.Counting? && pc.q < |s.queues|
       case Unlock => pc.Unlocking? && pc.q < |s.queues|
       case Notify => pc.Notifying? && pc.q < |s.queues|
  }

  /** Where the step takes the submitter itself. */
  function NextSubmitter(s: State, t: nat, step: SubmitStep): Submitter
    requires CanSubmit(s, t, step)
  {
    var pc := s.submitters[t];
    match step
    case Begin(n) => AtGate(n)
    case Gate => if s.accepting then Loading(pc.n) else Outside
    case Load => Reserving(pc.n, s.pending)
    case Refuse => Outside
    case Cas => Selecting(pc.n)
    case CasFail => Reserving(pc.n, s.pending)
    case Select(q) => Locking(pc.n, q)
    case Lock => Rechecking(pc.n, pc.q)
    case Recheck => if s.accepting then Admitting(pc.n, pc.q) else RollingBack(pc.n, pc.q)
    case Rollback => Leaving(pc.q)
    case Leave => Outside
    case Push => Counting(pc.n, pc.q)
    case Count => Unlocking(pc.n, pc.q)
    case Unlock => Notifying(pc.q)
    case Notify => Outside
  }

  /** The queue record the step changes, if any. */
  function SubmitTouches(s: State, t: nat, step: SubmitStep): (touched: Option<nat>)
    requires CanSubmit(s, t, step)
    ensures touched.Some? ==> touched.value < |s.queues|
  {
    if step.Lock? || step.Leave? || step.Push? || step.Count? || step.Unlock? || step.Notify?
    then Some(s.submitters[t].q)
    else None
  }

  /** `notify_one` on the queue's condition variable: at most its one worker waits there. */
  function Notified(w: Worker): Worker {
    if w.Asleep? then Woken else w
  }

  function SubmitQueue(s: State, t: nat, step: SubmitStep): Queue
    requires CanSubmit(s, t, step) && SubmitTouches(s, t, step).Some?
  {
    var pc := s.submitters[t];
    var queue := s.queues[pc.q];
    match step
    case Lock => queue.(lock := Some(BySubmitter(t)))
    case Leave => queue.(lock := None)
    case Push =>
      queue.(jobs := queue.jobs + [pc.n], admitted := queue.admitted + [pc.n],
             authors := queue.authors + [Author(t, Current(CallsOf(s, t)))])
    case Count => queue.(pendingLogical := queue.pendingLogical + pc.n)
    case Unlock => queue.(lock := None, queuedLogical := queue.queuedLogical + pc.n)
    case Notify => queue.(worker := Notified(queue.worker))
  }

  function CallsOf(s: State, t: nat): seq<Call> {
    if t in s.calls then s.calls[t] else []
  }

  /** The call the thread is in, or its last one. */
  function Recent(calls: seq<Call>): Call {
    if calls == [] then Call(0, None, None, None, None, None) else calls[|calls| - 1]
  }

  function Current(calls: seq<Call>): nat {
    if calls == [] then 0 else |calls| - 1
  }

  function Renewed(calls: seq<Call>, call: Call): seq<Call> {
    if calls == [] then [call] else calls[|calls| - 1 := call]
  }

  /** What the step adds to the record of the call: what it reads, where it pushes, what it returns. */
  function SubmitCalls(s: State, t: nat, step: SubmitStep): seq<Call>
    requires CanSubmit(s, t, step)
  {
    var calls := CallsOf(s, t);
    var call := Recent(calls);
    match step
    case Begin(n) => calls + [Call(n, None, None, None, None, None)]
    case Gate =>
      Renewed(calls, call.(gate := Some(s.accepting), answer := if s.accepting then None else Some(false)))
    case Load => Renewed(calls, call.(read := Some(s.pending)))
    case CasFail => Renewed(calls, call.(read := Some(s.pending)))
    case Refuse => Renewed(calls, call.(answer := Some(false)))
    case Recheck => Renewed(calls, call.(recheck := Some(s.accepting)))
    case Leave => Renewed(calls, call.(answer := Some(false)))
    case Push =>
      var q := s.submitters[t].q;
      Renewed(calls, call.(place := Some(Place(q, |s.queues[q].admitted|))))
    case Notify => Renewed(calls, call.(answer := Some(true)))
    case _ => calls
  }

  /** The global counter after the step: reserved by the exchange, given back by the rollback. */
  function SubmitPending(s: State, t: nat, step: SubmitStep): int
    requires CanSubmit(s, t, step)
  {
    if step.Cas? then s.pending + s.submitters[t].n
    else if step.Rollback? then s.pending - s.submitters[t].n
    else s.pending
  }

  function ApplySubmit(s: State, t: nat, step: SubmitStep): State
    requires CanSubmit(s, t, step)
  {
    var touched := SubmitTouches(s, t, step);
    s.(pending := SubmitPending(s, t, step),
       submitters := s.submitters[t := NextSubmitter(s, t, step)],
       calls := s.calls[t := SubmitCalls(s, t, step)],
       queues := if touched.None? then s.queues else s.queues[touched.value := SubmitQueue(s, t, step)])
  }

  // ----- Workers

  predicate CanWork(s: State, q: nat, step: WorkStep) {
    && q < |s.queues|
    && var w := s.queues[q].worker;
       match step
       case Acquire => Free(s, q) && (w.Starting? || w.Woken?)
       case Spurious => w.Asleep?
       case LoadDrain => w.Deciding?
       case CheckEmpty => w.SawNoDrain?
       case Take => w.Taking? && (s.drain || s.queues[q].jobs != [])
       case Finish => w.Running?
       case Uncount => w.Ran?
       case Release => w.Uncounted?
  }

  function WorkQueue(s: State, q: nat, step: WorkStep): Queue
    requires CanWork(s, q, step)
  {
    var queue := s.queues[q];
    match step
    case Acquire => queue.(lock := Some(ByWorker), worker := Deciding)
    case Spurious => queue.(worker := Woken)
    case LoadDrain => queue.(worker := if s.drain then Taking else SawNoDrain)
    case CheckEmpty => if queue.jobs == [] then queue.(lock := None, worker := Asleep) else queue.(worker := Taking)
    case Take =>
      if s.drain && queue.jobs == [] then queue.(lock := None, worker := Exited)
      else
        var n := queue.jobs[0];
        queue.(lock := None, jobs := queue.jobs[1..], queuedLogical := queue.queuedLogical - n,
               worker := Running(n), started := queue.started + 1)
    case Finish => queue.(worker := Ran(queue.worker.n))
    case Uncount => queue.(pendingLogical := queue.pendingLogical - queue.worker.n, worker := Uncounted(queue.worker.n))
    case Release => queue.(worker := Starting)
  }

  function ApplyWork(s: State, q: nat, step: WorkStep): State
    requires CanWork(s, q, step)
  {
    s.(pending := if step.Release? then s.pending - s.queues[q].worker.n else s.pending,
       queues := s.queues[q := WorkQueue(s, q, step)])
  }

  // ----- Closing and draining threads

  predicate CanClose(s: State, c: nat, step: CloseStep) {
    && c in s.closers
    && var pc := s.closers[c];
       match step
       case BeginClose => pc.Away?
       case Store => pc.Storing?
       case LockBarrier => pc.Barrier? && Free(s, pc.i)
       case UnlockBarrier => pc.BarrierHeld? && pc.i < |s.queues|
       case ReturnClosed => pc.Barrier? && pc.i == |s.queues|
       case Exchange => pc.Closed?
       case LockWaking => pc.Waking? && Free(s, pc.i)
       case NotifyWaking => pc.WakingHeld? && pc.i < |s.queues|
       case AllWoken => pc.Waking? && pc.i == |s.queues|
       case Join => pc.Joining? && pc.i < |s.queues| && s.queues[pc.i].worker.Exited?
       case Done => pc.Joining? && pc.i == |s.queues|
  }

  function NextCloser(s: State, c: nat, step: CloseStep): Closer
    requires CanClose(s, c, step)
  {
    var pc := s.closers[c];
    match step
    case BeginClose => Storing
    case Store => Barrier(0)
    case LockBarrier => BarrierHeld(pc.i)
    case UnlockBarrier => Barrier(pc.i + 1)
    case ReturnClosed => Closed
    case Exchange => if s.drain then Superseded else Waking(0)
    case LockWaking => WakingHeld(pc.i)
    case NotifyWaking => Waking(pc.i + 1)
    case AllWoken => Joining(0)
    case Join => Joining(pc.i + 1)
    case Done => Joined
  }

  function CloseTouches(s: State, c: nat, step: CloseStep): (touched: Option<nat>)
    requires CanClose(s, c, step)
    ensures touched.Some? ==> touched.value < |s.queues|
  {
    if step.LockBarrier? || step.UnlockBarrier? || step.LockWaking? || step.NotifyWaking?
    then Some(s.closers[c].i)
    else None
  }

  function CloseQueue(s: State, c: nat, step: CloseStep): Queue
    requires CanClose(s, c, step) && CloseTouches(s, c, step).Some?
  {
    var queue := s.queues[s.closers[c].i];
    match step
    case LockBarrier => queue.(lock := Some(ByCloser(c)))
    case UnlockBarrier => queue.(lock := None)
    case LockWaking => queue.(lock := Some(ByCloser(c)))
    case NotifyWaking => queue.(lock := None, worker := Notified(queue.worker))
  }

  function ApplyClose(s: State, c: nat, step: CloseStep): State
    requires CanClose(s, c, step)
  {
    var touched := CloseTouches(s, c, step);
    s.(accepting := s.accepting && !step.Store?,
       drain := s.drain || step.Exchange?,
       winner := if step.Exchange? && !s.drain then Some(c) else s.winner,
       closers := s.closers[c := NextCloser(s, c, step)],
       queues := if touched.None? then s.queues else s.queues[touched.value := CloseQueue(s, c, step)])
  }

  // ----- Runs

  predicate Enabled(s: State, step: Step) {
    match step
    case Submitting(t, submit) => CanSubmit(s, t, submit)
    case Working(q, work) => CanWork(s, q, work)
    case Closing(c, close) => CanClose(s, c, close)
  }

  function Apply(s: State, step: Step): (s': State)
    requires Enabled(s, step)
    ensures |s'.queues| == |s.queues| && s'.submitters.Keys == s.submitters.Keys && s'.closers.Keys == s.closers.Keys
  {
    match step
    case Submitting(t, submit) => ApplySubmit(s, t, submit)
    case Working(q, work) => ApplyWork(s, q, work)
    case Closing(c, close) => ApplyClose(s, c, close)
  }

  predicate ValidRun(s: State, steps: seq<Step>)
    decreases |steps|
  {
    steps == [] || (Enabled(s, steps[0]) && ValidRun(Apply(s, steps[0]), steps[1..]))
  }

  function Exec(s: State, steps: seq<Step>): State
    requires ValidRun(s, steps)
    decreases |steps|
  {
    if steps == [] then s else Exec(Apply(s, steps[0]), steps[1..])
  }

  // ----- Mutexes

  predicate SubmitterHolds(pc: Submitter, q: nat) {
    && (pc.Rechecking? || pc.RollingBack? || pc.Leaving? || pc.Admitting? || pc.Counting? || pc.Unlocking?)
    && pc.q == q
  }

  predicate WorkerHolds(w: Worker) {
    w.Deciding? || w.SawNoDrain? || w.Taking?
  }

  predicate CloserHolds(pc: Closer, q: nat) {
    (pc.BarrierHeld? || pc.WakingHeld?) && pc.i == q
  }

  ghost predicate SubmitterLockOk(s: State, q: nat)
    requires q < |s.queues|
  {
    HoldersAgree(s.submitters, q, s.queues[q].lock)
  }

  ghost predicate HoldersAgree(submitters: map<nat, Submitter>, q: nat, lock: Option<Holder>) {
    && (forall t :: t in submitters ==> (SubmitterHolds(submitters[t], q) <==> lock == Some(BySubmitter(t))))
    && (lock.Some? && lock.value.BySubmitter? ==> lock.value.t in submitters)
  }

  /** One submitter moves, and with it the mutex. */
  lemma {:induction false} HoldersAgreeAfter(submitters: map<nat, Submitter>, t: nat, pc: Submitter, q: nat,
      lock: Option<Holder>, lock': Option<Holder>)
    requires HoldersAgree(submitters, q, lock) && t in submitters && LockMove(lock, lock', BySubmitter(t))
    requires SubmitterHolds(pc, q) <==> lock' == Some(BySubmitter(t))
    ensures HoldersAgree(submitters[t := pc], q, lock')
  {
    hide SubmitterHolds;
  }

  ghost predicate WorkerLockOk(queue: Queue) {
    WorkerHolds(queue.worker) <==> queue.lock == Some(ByWorker)
  }

  ghost predicate CloserLockOk(s: State, q: nat)
    requires q < |s.queues|
  {
    var lock := s.queues[q].lock;
    && (forall c :: c in s.closers ==> (CloserHolds(s.closers[c], q) <==> lock == Some(ByCloser(c))))
    && (lock.Some? && lock.value.ByCloser? ==> lock.value.c in s.closers)
  }

  /** Every mutex is held by exactly the thread whose position is inside the critical section. */
  ghost predicate LockOk(s: State, q: nat)
    requires q < |s.queues|
  {
    SubmitterLockOk(s, q) && WorkerLockOk(s.queues[q]) && CloserLockOk(s, q)
  }

  predicate SubmitterInRange(n: nat, pc: Submitter) {
    match pc
    case Locking(_, q) => q < n
    case Rechecking(_, q) => q < n
    case RollingBack(_, q) => q < n
    case Leaving(q) => q < n
    case Admitting(_, q) => q < n
    case Counting(_, q) => q < n
    case Unlocking(_, q) => q < n
    case Notifying(q) => q < n
    case _ => true
  }

  predicate CloserInRange(n: nat, pc: Closer) {
    match pc
    case Barrier(i) => i <= n
    case BarrierHeld(i) => i < n
    case Waking(i) => i <= n
    case WakingHeld(i) => i < n
    case Joining(i) => i <= n
    case _ => true
  }

  ghost predicate PositionsOk(s: State) {
    && (forall t :: t in s.submitters ==> SubmitterInRange(|s.queues|, s.submitters[t]))
    && (forall c :: c in s.closers ==> CloserInRange(|s.queues|, s.closers[c]))
  }

  ghost predicate Locks(s: State) {
    PositionsOk(s) && forall q :: 0 <= q < |s.queues| ==> LockOk(s, q)
  }

  lemma {:induction false} SubmitterStaysInRange(s: State, t: nat, step: SubmitStep)
    requires CanSubmit(s, t, step) && SubmitterInRange(|s.queues|, s.submitters[t])
    ensures SubmitterInRange(|s.queues|, NextSubmitter(s, t, step))
  {
  }

  lemma {:induction false} CloserStaysInRange(s: State, c: nat, step: CloseStep)
    requires CanClose(s, c, step) && CloserInRange(|s.queues|, s.closers[c])
    ensures CloserInRange(|s.queues|, NextCloser(s, c, step))
  {
  }

  lemma {:induction false} PositionsStep(s: State, step: Step)
    requires PositionsOk(s) && Enabled(s, step)
    ensures PositionsOk(Apply(s, step))
  {
    hide NextSubmitter, NextCloser, SubmitQueue, WorkQueue, CloseQueue, SubmitterInRange, CloserInRange;
    match step
    case Submitting(t, submit) => SubmitterStaysInRange(s, t, submit);
    case Working(_, _) =>
    case Closing(c, close) => CloserStaysInRange(s, c, close);
  }

  /** A mutex is taken when free and released by its holder. */
  predicate LockMove(before: Option<Holder>, after: Option<Holder>, who: Holder) {
    after == before || (before.None? && after == Some(who)) || (before == Some(who) && after.None?)
  }

  /** A submitter moves mutexes as it enters and leaves its section, and leaves the worker in or out. */
  lemma {:induction false} SubmitterMovesLock(s: State, t: nat, step: SubmitStep)
    requires CanSubmit(s, t, step) && SubmitTouches(s, t, step).Some?
    requires SubmitterLockOk(s, SubmitTouches(s, t, step).value)
    ensures
      var queue, queue' := s.queues[SubmitTouches(s, t, step).value], SubmitQueue(s, t, step);
      LockMove(queue.lock, queue'.lock, BySubmitter(t)) && (WorkerHolds(queue'.worker) <==> WorkerHolds(queue.worker))
  {
    var q := SubmitTouches(s, t, step).value;
    assert SubmitterHolds(s.submitters[t], q) <==> s.queues[q].lock == Some(BySubmitter(t));
  }

  lemma {:induction false} SubmitterHoldsAfter(s: State, t: nat, step: SubmitStep, q: nat)
    requires CanSubmit(s, t, step) && q < |s.queues|
    requires SubmitterHolds(s.submitters[t], q) <==> s.queues[q].lock == Some(BySubmitter(t))
    ensures
      var lock := if SubmitTouches(s, t, step) == Some(q) then SubmitQueue(s, t, step).lock else s.queues[q].lock;
      SubmitterHolds(NextSubmitter(s, t, step), q) <==> lock == Some(BySubmitter(t))
  {
  }

  lemma {:induction false} SubmitLocks(s: State, t: nat, step: SubmitStep, q: nat)
    requires CanSubmit(s, t, step) && q < |s.queues| && LockOk(s, q)
    ensures LockOk(ApplySubmit(s, t, step), q)
  {
    hide NextSubmitter, SubmitTouches, SubmitQueue, SubmitterHolds, WorkerHolds, CloserHolds, CanSubmit;
    SubmitterKnown(s, t, step);
    SubmitSubmitterLocks(s, t, step, q);
    hide SubmitterLockOk;
    if SubmitTouches(s, t, step) == Some(q) { SubmitterMovesLock(s, t, step); }
  }

  lemma {:induction false} SubmitSubmitterLocks(s: State, t: nat, step: SubmitStep, q: nat)
    requires CanSubmit(s, t, step) && q < |s.queues| && SubmitterLockOk(s, q)
    ensures SubmitterLockOk(ApplySubmit(s, t, step), q)
  {
    hide NextSubmitter, SubmitTouches, SubmitQueue, SubmitCalls, SubmitPending, SubmitterHolds, CanSubmit;
    SubmitterKnown(s, t, step);
    assert SubmitterHolds(s.submitters[t], q) <==> s.queues[q].lock == Some(BySubmitter(t));
    SubmitterHoldsAfter(s, t, step, q);
    hide HoldersAgree;
    if SubmitTouches(s, t, step) == Some(q) { SubmitterMovesLock(s, t, step); }
    var s' := ApplySubmit(s, t, step);
    HoldersAgreeAfter(s.submitters, t, NextSubmitter(s, t, step), q, s.queues[q].lock, s'.queues[q].lock);
  }

  lemma {:induction false} SubmitterKnown(s: State, t: nat, step: SubmitStep)
    requires CanSubmit(s, t, step)
    ensures t in s.submitters
  {
  }

  lemma {:induction false} WorkerMovesLock(s: State, q: nat, step: WorkStep)
    requires CanWork(s, q, step) && WorkerLockOk(s.queues[q])
    ensures LockMove(s.queues[q].lock, WorkQueue(s, q, step).lock, ByWorker) && WorkerLockOk(WorkQueue(s, q, step))
  {
  }

  lemma {:induction false} WorkLocks(s: State, q: nat, step: WorkStep, p: nat)
    requires CanWork(s, q, step) && p < |s.queues| && LockOk(s, p)
    ensures LockOk(ApplyWork(s, q, step), p)
  {
    hide WorkQueue, CanWork, WorkerLockOk, SubmitterHolds, CloserHolds;
    if p == q { WorkerMovesLock(s, q, step); }
  }

  lemma {:induction false} CloserMovesLock(s: State, c: nat, step: CloseStep)
    requires CanClose(s, c, step) && CloseTouches(s, c, step).Some? && CloserLockOk(s, CloseTouches(s, c, step).value)
    ensures
      var queue, queue' := s.queues[CloseTouches(s, c, step).value], CloseQueue(s, c, step);
      LockMove(queue.lock, queue'.lock, ByCloser(c)) && (WorkerHolds(queue'.worker) <==> WorkerHolds(queue.worker))
  {
    var q := CloseTouches(s, c, step).value;
    assert CloserHolds(s.closers[c], q) <==> s.queues[q].lock == Some(ByCloser(c));
  }

  lemma {:induction false} CloserHoldsAfter(s: State, c: nat, step: CloseStep, q: nat)
    requires CanClose(s, c, step) && q < |s.queues|
    requires CloserHolds(s.closers[c], q) <==> s.queues[q].lock == Some(ByCloser(c))
    ensures
      var lock := if CloseTouches(s, c, step) == Some(q) then CloseQueue(s, c, step).lock else s.queues[q].lock;
      CloserHolds(NextCloser(s, c, step), q) <==> lock == Some(ByCloser(c))
  {
  }

  lemma {:induction false} CloseLocks(s: State, c: nat, step: CloseStep, q: nat)
    requires CanClose(s, c, step) && q < |s.queues| && LockOk(s, q)
    ensures LockOk(ApplyClose(s, c, step), q)
  {
    hide CanClose, NextCloser, CloseTouches, CloseQueue, SubmitterHolds, WorkerHolds, CloserHolds;
    assert c in s.closers by { CloserKnown(s, c, step); }
    CloseCloserLocks(s, c, step, q);
    hide CloserLockOk;
    if CloseTouches(s, c, step) == Some(q) { CloserMovesLock(s, c, step); }
  }

  lemma {:induction false} CloseCloserLocks(s: State, c: nat, step: CloseStep, q: nat)
    requires CanClose(s, c, step) && q < |s.queues| && CloserLockOk(s, q)
    ensures CloserLockOk(ApplyClose(s, c, step), q)
  {
    hide CanClose, NextCloser, CloseTouches, CloseQueue, CloserHolds;
    assert c in s.closers by { CloserKnown(s, c, step); }
    CloserHoldsAfter(s, c, step, q);
    if CloseTouches(s, c, step) == Some(q) { CloserMovesLock(s, c, step); }
  }

  lemma {:induction false} CloserKnown(s: State, c: nat, step: CloseStep)
    requires CanClose(s, c, step)
    ensures c in s.closers
  {
  }

  lemma {:induction false} LocksStep(s: State, step: Step)
    requires Locks(s) && Enabled(s, step)
    ensures Locks(Apply(s, step))
  {
    hide ApplySubmit, ApplyWork, ApplyClose, PositionsOk, LockOk;
    PositionsStep(s, step);
    forall q | 0 <= q < |Apply(s, step).queues| ensures LockOk(Apply(s, step), q) {
      assert LockOk(s, q);
      match step
      case Submitting(t, submit) => SubmitLocks(s, t, submit, q);
      case Working(p, work) => WorkLocks(s, p, work, q);
      case Closing(c, close) => CloseLocks(s, c, close, q);
    }
  }

  // ----- The close barrier

  /** Nobody who passed the recheck of one of the first `n` queues has yet to push. */
  ghost predicate NoneAdmitting(s: State, n: nat) {
    forall t :: t in s.submitters && s.submitters[t].Admitting? ==> n <= s.submitters[t].q
  }

  predicate PastStore(pc: Closer) {
    !pc.Away? && !pc.Storing?
  }

  /** How many of `n` queues this closer's barrier has passed. */
  function Passed(n: nat, pc: Closer): nat {
    match pc
    case Away => 0
    case Storing => 0
    case Barrier(i) => i
    case BarrierHeld(i) => i
    case _ => n
  }

  ghost predicate BarrierOk(s: State) {
    forall c :: c in s.closers && PastStore(s.closers[c]) ==>
      !s.accepting && NoneAdmitting(s, Passed(|s.queues|, s.closers[c]))
  }

  lemma {:induction false} BarrierStep(s: State, step: Step)
    requires Locks(s) && BarrierOk(s) && Enabled(s, step)
    ensures BarrierOk(Apply(s, step))
  {
    hide NextSubmitter, NextCloser, SubmitQueue, WorkQueue, CloseQueue, CanWork;
    match step
    case Submitting(t, submit) => AdmittingOnlyIfAccepting(s, t, submit);
    case Working(_, _) =>
    case Closing(c, close) =>
      BarrierMoves(s, c, close);
      if close.UnlockBarrier? { assert LockOk(s, s.closers[c].i); }
  }

  lemma {:induction false} AdmittingOnlyIfAccepting(s: State, t: nat, step: SubmitStep)
    requires CanSubmit(s, t, step)
    ensures NextSubmitter(s, t, step).Admitting? ==> s.accepting
  {
  }

  /** A closer advances past queue `i` only by releasing its mutex. */
  lemma {:induction false} BarrierMoves(s: State, c: nat, step: CloseStep)
    requires CanClose(s, c, step)
    ensures
      var pc, pc' := s.closers[c], NextCloser(s, c, step);
      && (PastStore(pc') ==> step.Store? || PastStore(pc))
      && (step.UnlockBarrier? ==> CloserHolds(pc, pc.i) && Passed(|s.queues|, pc) == pc.i)
      && Passed(|s.queues|, pc') == if step.UnlockBarrier? then Passed(|s.queues|, pc) + 1 else Passed(|s.queues|, pc)
  {
  }

  // ----- Admission conservation

  /** Logical jobs a submitter has reserved and not yet turned into a queued job or given back. */
  function Reservation(pc: Submitter): nat {
    match pc
    case Selecting(n) => n
    case Locking(n, _) => n
    case Rechecking(n, _) => n
    case RollingBack(n, _) => n
    case Admitting(n, _) => n
    case _ => 0
  }

  function Executing(w: Worker): nat {
    match w
    case Running(n) => n
    case Ran(n) => n
    case Uncounted(n) => n
    case _ => 0
  }

  function Reservations(submitters: map<nat, Submitter>): map<nat, nat> {
    map t | t in submitters :: Reservation(submitters[t])
  }

  /** Queued or executing logical jobs of one queue. */
  function LoadOf(queue: Queue): nat {
    Sum(queue.jobs) + Executing(queue.worker)
  }

  function Loads(queues: seq<Queue>): seq<nat> {
    seq(|queues|, i requires 0 <= i < |queues| => LoadOf(queues[i]))
  }

  ghost predicate PendingOk(s: State) {
    && s.pending == SumMap(Reservations(s.submitters)) + Sum(Loads(s.queues))
    && s.pending <= s.max
  }

  lemma {:induction false} ReservationSet(submitters: map<nat, Submitter>, t: nat, pc: Submitter)
    requires t in submitters
    ensures SumMap(Reservations(submitters[t := pc])) ==
            SumMap(Reservations(submitters)) - Reservation(submitters[t]) + Reservation(pc)
  {
    assert Reservations(submitters[t := pc]) == Reservations(submitters)[t := Reservation(pc)];
    SumMapSet(Reservations(submitters), t, Reservation(pc));
  }

  lemma {:induction false} LoadSet(queues: seq<Queue>, q: nat, queue: Queue)
    requires q < |queues|
    ensures Sum(Loads(queues[q := queue])) == Sum(Loads(queues)) - LoadOf(queues[q]) + LoadOf(queue)
  {
    assert Loads(queues[q := queue]) == Loads(queues)[q := LoadOf(queue)];
    SumSet(Loads(queues), q, LoadOf(queue));
  }

  /** What a submitter's step adds to the global counter is what it adds to reservations and loads. */
  lemma {:induction false} SubmitBalances(s: State, t: nat, step: SubmitStep)
    requires CanSubmit(s, t, step)
    ensures
      var reserved := Reservation(NextSubmitter(s, t, step)) - Reservation(s.submitters[t]);
      var touched := SubmitTouches(s, t, step);
      var loaded := if touched.None? then 0 else LoadOf(SubmitQueue(s, t, step)) - LoadOf(s.queues[touched.value]);
      SubmitPending(s, t, step) - s.pending == reserved + loaded
  {
    if step.Push? { SumConcat(s.queues[s.submitters[t].q].jobs, [s.submitters[t].n]); }
  }

  lemma {:induction false} WorkBalances(s: State, q: nat, step: WorkStep)
    requires CanWork(s, q, step)
    ensures ApplyWork(s, q, step).pending - s.pending == LoadOf(WorkQueue(s, q, step)) - LoadOf(s.queues[q])
  {
  }

  lemma {:induction false} CloseBalances(s: State, c: nat, step: CloseStep)
    requires CanClose(s, c, step) && CloseTouches(s, c, step).Some?
    ensures LoadOf(CloseQueue(s, c, step)) == LoadOf(s.queues[CloseTouches(s, c, step).value])
  {
  }

  lemma {:induction false} PendingStep(s: State, step: Step)
    requires PendingOk(s) && Enabled(s, step)
    ensures PendingOk(Apply(s, step))
  {
    hide NextSubmitter, NextCloser, SubmitQueue, WorkQueue, CloseQueue;
    hide SubmitTouches, CloseTouches, LoadOf, Loads, Reservations;
    match step
    case Submitting(t, submit) =>
      ReservationSet(s.submitters, t, NextSubmitter(s, t, submit));
      SubmitBalances(s, t, submit);
      var touched := SubmitTouches(s, t, submit);
      if touched.Some? { LoadSet(s.queues, touched.value, SubmitQueue(s, t, submit)); }
    case Working(q, work) =>
      LoadSet(s.queues, q, WorkQueue(s, q, work));
      WorkBalances(s, q, work);
    case Closing(c, close) =>
      var touched := CloseTouches(s, c, close);
      if touched.Some? {
        LoadSet(s.queues, touched.value, CloseQueue(s, c, close));
        CloseBalances(s, c, close);
      }
  }

  // ----- One queue's books

  /** What the submitter inside queue `q` has pushed and not yet added to the given counter. */
  function Unadded(s: State, q: nat, unlocking: bool): nat
    requires q < |s.queues|
  {
    var lock := s.queues[q].lock;
    if lock.Some? && lock.value.BySubmitter? && lock.value.t in s.submitters
    then UnaddedBy(s.submitters[lock.value.t], unlocking)
    else 0
  }

  function UnaddedBy(pc: Submitter, unlocking: bool): nat {
    if pc.Counting? then pc.n else if unlocking && pc.Unlocking? then pc.n else 0
  }

  function Uncounting(w: Worker): nat {
    match w
    case Running(n) => n
    case Ran(n) => n
    case _ => 0
  }

  /** The queue holds exactly the admitted jobs that were not started, in order, and the worker is
      busy with the one it started last. */
  ghost predicate LogOk(queue: Queue) {
    && queue.started <= |queue.admitted|
    && queue.jobs == queue.admitted[queue.started..]
    && (queue.worker.Running? || queue.worker.Ran? || queue.worker.Uncounted? ==>
          0 < queue.started && queue.worker.n == queue.admitted[queue.started - 1])
  }

  /** Both counters equal what they describe, up to what the submitter inside is just adding to them;
      that submitter still sees its job at the back. */
  ghost predicate CountersOk(queue: Queue, uncounted: nat, unqueued: nat) {
    && queue.pendingLogical == Sum(queue.jobs) + Uncounting(queue.worker) - uncounted
    && queue.queuedLogical == Sum(queue.jobs) - unqueued
    && (unqueued > 0 ==> queue.jobs != [] && queue.jobs[|queue.jobs| - 1] == unqueued)
  }

  ghost predicate BooksOk(s: State, q: nat)
    requires q < |s.queues|
  {
    LogOk(s.queues[q]) && CountersOk(s.queues[q], Unadded(s, q, false), Unadded(s, q, true))
  }

  lemma {:induction false} SubmitLog(s: State, t: nat, step: SubmitStep)
    requires CanSubmit(s, t, step) && SubmitTouches(s, t, step).Some?
    requires LogOk(s.queues[SubmitTouches(s, t, step).value])
    ensures LogOk(SubmitQueue(s, t, step))
  {
  }

  /** The queue a submitter touches, with what that submitter has yet to add before and after. */
  lemma {:induction false} SubmitCounters(s: State, t: nat, step: SubmitStep)
    requires CanSubmit(s, t, step) && SubmitTouches(s, t, step).Some?
    requires !step.Notify?
    requires
      var pc := s.submitters[t];
      CountersOk(s.queues[SubmitTouches(s, t, step).value], UnaddedBy(pc, false), UnaddedBy(pc, true))
    ensures
      var pc := NextSubmitter(s, t, step);
      CountersOk(SubmitQueue(s, t, step), UnaddedBy(pc, false), UnaddedBy(pc, true))
  {
    if step.Push? { SumConcat(s.queues[s.submitters[t].q].jobs, [s.submitters[t].n]); }
  }

  lemma {:induction false} NotifyCounters(s: State, t: nat, uncounted: nat, unqueued: nat)
    requires CanSubmit(s, t, Notify) && CountersOk(s.queues[s.submitters[t].q], uncounted, unqueued)
    ensures CountersOk(SubmitQueue(s, t, Notify), uncounted, unqueued)
    ensures SubmitQueue(s, t, Notify).lock == s.queues[s.submitters[t].q].lock
  {
  }

  /** Outside the critical section, and before its push, a submitter owes the counters nothing. */
  lemma {:induction false} OwesNothing(s: State, t: nat, step: SubmitStep, unlocking: bool)
    requires CanSubmit(s, t, step)
    ensures SubmitTouches(s, t, step).None? || step.Notify? ==>
              UnaddedBy(NextSubmitter(s, t, step), unlocking) == 0 == UnaddedBy(s.submitters[t], unlocking)
    ensures step.Lock? ==> UnaddedBy(s.submitters[t], unlocking) == 0
    ensures step.Leave? || step.Unlock? ==> UnaddedBy(NextSubmitter(s, t, step), unlocking) == 0
  {
  }

  lemma {:induction false} SubmitBooks(s: State, t: nat, step: SubmitStep, q: nat)
    requires CanSubmit(s, t, step) && q < |s.queues| && LockOk(s, q) && BooksOk(s, q)
    ensures BooksOk(ApplySubmit(s, t, step), q)
  {
    hide NextSubmitter, SubmitQueue, SubmitCalls, LogOk, CountersOk, UnaddedBy;
    OwesNothing(s, t, step, false);
    OwesNothing(s, t, step, true);
    assert SubmitterHolds(s.submitters[t], q) <==> s.queues[q].lock == Some(BySubmitter(t));
    if SubmitTouches(s, t, step) == Some(q) {
      SubmitLog(s, t, step);
      if step.Notify? {
        NotifyCounters(s, t, Unadded(s, q, false), Unadded(s, q, true));
      } else {
        SubmitCounters(s, t, step);
        SubmitterLockAfter(s, t, step);
      }
    }
  }

  lemma {:induction false} SubmitterLockAfter(s: State, t: nat, step: SubmitStep)
    requires CanSubmit(s, t, step) && SubmitTouches(s, t, step).Some? && !step.Notify?
    requires step.Lock? || s.queues[s.submitters[t].q].lock == Some(BySubmitter(t))
    ensures SubmitQueue(s, t, step).lock == if step.Leave? || step.Unlock? then None else Some(BySubmitter(t))
  {
  }

  lemma {:induction false} WorkBooks(s: State, q: nat, step: WorkStep)
    requires CanWork(s, q, step) && LockOk(s, q) && BooksOk(s, q)
    ensures BooksOk(ApplyWork(s, q, step), q)
  {
    hide SubmitterHolds, CloserHolds;
  }

  lemma {:induction false} CloseKeepsBooks(s: State, c: nat, step: CloseStep, uncounted: nat, unqueued: nat)
    requires CanClose(s, c, step) && CloseTouches(s, c, step).Some?
    requires LogOk(s.queues[CloseTouches(s, c, step).value])
    requires CountersOk(s.queues[CloseTouches(s, c, step).value], uncounted, unqueued)
    ensures LogOk(CloseQueue(s, c, step)) && CountersOk(CloseQueue(s, c, step), uncounted, unqueued)
  {
  }

  lemma {:induction false} CloseBooks(s: State, c: nat, step: CloseStep, q: nat)
    requires CanClose(s, c, step) && q < |s.queues| && LockOk(s, q) && BooksOk(s, q)
    ensures BooksOk(ApplyClose(s, c, step), q)
  {
    hide NextCloser, CloseQueue, LogOk, CountersOk, UnaddedBy, CanClose;
    if CloseTouches(s, c, step) == Some(q) {
      CloserMovesLock(s, c, step);
      CloserTakesOrFrees(s, c, step);
      CloseKeepsBooks(s, c, step, Unadded(s, q, false), Unadded(s, q, true));
    }
  }

  lemma {:induction false} CloserTakesOrFrees(s: State, c: nat, step: CloseStep)
    requires CanClose(s, c, step) && CloseTouches(s, c, step).Some?
    ensures CloseQueue(s, c, step).lock != s.queues[CloseTouches(s, c, step).value].lock
              || CloseQueue(s, c, step).lock.None?
  {
  }

  lemma {:induction false} BooksStep(s: State, step: Step, q: nat)
    requires Locks(s) && q < |s.queues| && BooksOk(s, q) && Enabled(s, step)
    ensures BooksOk(Apply(s, step), q)
  {
    hide NextSubmitter, NextCloser, SubmitQueue, WorkQueue, CloseQueue, LogOk, CountersOk, CanWork, CanSubmit, CanClose;
    assert LockOk(s, q);
    match step
    case Submitting(t, submit) => SubmitBooks(s, t, submit, q);
    case Working(p, work) => if p == q { WorkBooks(s, q, work); }
    case Closing(c, close) => CloseBooks(s, c, close, q);
  }

  // ----- Draining

  predicate InDrain(pc: Closer) {
    pc.Waking? || pc.WakingHeld? || pc.Joining? || pc.Joined?
  }

  ghost predicate DrainOk(s: State) {
    && s.drain == s.winner.Some?
    && (s.winner.Some? ==> s.winner.value in s.closers && InDrain(s.closers[s.winner.value]))
    && (forall c :: c in s.closers && InDrain(s.closers[c]) ==> s.winner == Some(c))
  }

  /** Only the winner of the exchange is in the drain phase. */
  lemma {:induction false} DrainMoves(s: State, c: nat, step: CloseStep)
    requires CanClose(s, c, step)
    ensures InDrain(NextCloser(s, c, step)) <==> InDrain(s.closers[c]) || (step.Exchange? && !s.drain)
  {
  }

  lemma {:induction false} DrainStep(s: State, step: Step)
    requires DrainOk(s) && Enabled(s, step)
    ensures DrainOk(Apply(s, step))
  {
    hide NextSubmitter, NextCloser, SubmitQueue, WorkQueue, CloseQueue, CanWork, CanSubmit;
    if step.Closing? { DrainMoves(s, step.c, step.close); }
  }

  /** The draining thread has not yet notified queue `q`. */
  predicate WakeupComing(s: State, q: nat) {
    && s.winner.Some? && s.winner.value in s.closers
    && var pc := s.closers[s.winner.value];
       (pc.Waking? || pc.WakingHeld?) && pc.i <= q
  }

  /** Submitter `t` has pushed to queue `q` and will still notify it. */
  predicate NotifyComing(s: State, t: nat, q: nat) {
    && t in s.submitters
    && (s.submitters[t].Counting? || s.submitters[t].Unlocking? || s.submitters[t].Notifying?)
    && s.submitters[t].q == q
  }

  /** A sleeping worker misses nothing, and a worker that left had nothing left to run. */
  ghost predicate WorkerOk(s: State, q: nat)
    requires q < |s.queues|
  {
    var queue := s.queues[q];
    match queue.worker
    case Asleep =>
      && (queue.jobs == [] || exists t :: NotifyComing(s, t, q))
      && (s.drain ==> WakeupComing(s, q))
    case SawNoDrain => s.drain ==> WakeupComing(s, q)
    case Taking => s.drain || queue.jobs != []
    case Exited => s.drain && queue.jobs == []
    case _ => true
  }

  lemma {:induction false} NotifyMoves(s: State, t: nat, step: SubmitStep, q: nat)
    requires CanSubmit(s, t, step) && NotifyComing(s, t, q)
    ensures NotifyComing(ApplySubmit(s, t, step), t, q) || (step.Notify? && SubmitTouches(s, t, step) == Some(q))
  {
  }

  lemma {:induction false} PushNotifies(s: State, t: nat, step: SubmitStep)
    requires CanSubmit(s, t, step) && step.Push?
    ensures NotifyComing(ApplySubmit(s, t, step), t, s.submitters[t].q)
  {
  }

  predicate SameLog(queue: Queue, queue': Queue) {
    queue'.admitted == queue.admitted && queue'.authors == queue.authors
  }

  /** Jobs are added only by a push, and a worker changes only by being notified. */
  lemma {:induction false} SubmitterAndWorker(s: State, t: nat, step: SubmitStep)
    requires CanSubmit(s, t, step) && SubmitTouches(s, t, step).Some?
    ensures
      var queue, queue' := s.queues[SubmitTouches(s, t, step).value], SubmitQueue(s, t, step);
      && queue'.worker == (if step.Notify? then Notified(queue.worker) else queue.worker)
      && (if step.Push? then queue'.jobs != [] else queue'.jobs == queue.jobs && SameLog(queue, queue'))
      && queue'.started == queue.started && queue.admitted <= queue'.admitted
  {
  }

  lemma {:induction false} SubmitWorkerOk(s: State, t: nat, step: SubmitStep, q: nat)
    requires BarrierOk(s) && DrainOk(s) && CanSubmit(s, t, step) && q < |s.queues| && WorkerOk(s, q)
    ensures WorkerOk(ApplySubmit(s, t, step), q)
  {
    hide NextSubmitter, SubmitQueue;
    var s' := ApplySubmit(s, t, step);
    if SubmitTouches(s, t, step) == Some(q) { SubmitterAndWorker(s, t, step); }
    if s.queues[q].worker.Exited? { assert s.winner.Some? && NoneAdmitting(s, |s.queues|); }
    if s'.queues[q].worker.Asleep? && s'.queues[q].jobs != [] {
      if step.Push? && s.submitters[t].q == q {
        PushNotifies(s, t, step);
      } else {
        var u :| NotifyComing(s, u, q);
        if u == t { NotifyMoves(s, t, step, q); } else { assert NotifyComing(s', u, q); }
      }
    }
  }

  lemma {:induction false} WorkWorkerOk(s: State, q: nat, step: WorkStep)
    requires DrainOk(s) && CanWork(s, q, step) && WorkerOk(s, q)
    ensures WorkerOk(ApplyWork(s, q, step), q)
  {
  }

  lemma {:induction false} WakingMoves(s: State, c: nat, step: CloseStep, q: nat)
    requires CanClose(s, c, step) && q < |s.queues|
    requires (s.closers[c].Waking? || s.closers[c].WakingHeld?) && s.closers[c].i <= q
    ensures
      var pc, pc' := s.closers[c], NextCloser(s, c, step);
      ((pc'.Waking? || pc'.WakingHeld?) && pc'.i <= q) || (step.NotifyWaking? && pc.i == q)
  {
  }

  lemma {:induction false} CloserAndWorker(s: State, c: nat, step: CloseStep)
    requires CanClose(s, c, step) && CloseTouches(s, c, step).Some?
    ensures
      var queue, queue' := s.queues[CloseTouches(s, c, step).value], CloseQueue(s, c, step);
      && queue'.worker == (if step.NotifyWaking? then Notified(queue.worker) else queue.worker)
      && queue'.jobs == queue.jobs && SameLog(queue, queue')
  {
  }

  lemma {:induction false} CloseWorkerOk(s: State, c: nat, step: CloseStep, q: nat)
    requires Locks(s) && DrainOk(s) && CanClose(s, c, step) && q < |s.queues| && WorkerOk(s, q)
    ensures WorkerOk(ApplyClose(s, c, step), q)
  {
    hide NextCloser, CloseQueue;
    var s' := ApplyClose(s, c, step);
    assert LockOk(s, q);
    if CloseTouches(s, c, step) == Some(q) { CloserAndWorker(s, c, step); }
    if step.Exchange? && !s.drain { assert NextCloser(s, c, step) == Waking(0) by { ExchangeStartsWaking(s, c); } }
    if s.winner == Some(c) && WakeupComing(s, q) { WakingMoves(s, c, step, q); }
    if s.queues[q].worker.Asleep? && s.queues[q].jobs != [] {
      var u :| NotifyComing(s, u, q);
      assert NotifyComing(s', u, q);
    }
  }

  lemma {:induction false} ExchangeStartsWaking(s: State, c: nat)
    requires CanClose(s, c, Exchange) && !s.drain
    ensures NextCloser(s, c, Exchange) == Waking(0)
  {
  }

  lemma {:induction false} WorkerOkStep(s: State, step: Step, q: nat)
    requires Locks(s) && BarrierOk(s) && DrainOk(s) && q < |s.queues| && WorkerOk(s, q) && Enabled(s, step)
    ensures WorkerOk(Apply(s, step), q)
  {
    match step
    case Submitting(t, submit) => hide *; SubmitWorkerOk(s, t, submit, q);
    case Working(p, work) => if p == q { WorkWorkerOk(s, q, work); } else { OtherWorkerOk(s, p, work, q); }
    case Closing(c, close) => hide *; CloseWorkerOk(s, c, close, q);
  }

  lemma {:induction false} OtherWorkerOk(s: State, p: nat, step: WorkStep, q: nat)
    requires CanWork(s, p, step) && q < |s.queues| && p != q && WorkerOk(s, q)
    ensures WorkerOk(ApplyWork(s, p, step), q)
  {
    hide WorkQueue;
    if s.queues[q].worker.Asleep? && s.queues[q].jobs != [] {
      var u :| NotifyComing(s, u, q);
      assert NotifyComing(ApplyWork(s, p, step), u, q);
    }
  }

  predicate HasJoined(pc: Closer, q: int) {
    pc.Joined? || (pc.Joining? && q < pc.i)
  }

  ghost predicate JoinsOk(s: State) {
    forall c, q :: c in s.closers && 0 <= q < |s.queues| && HasJoined(s.closers[c], q) ==> s.queues[q].worker.Exited?
  }

  /** A join returns only for a worker that has exited. */
  lemma {:induction false} JoinMoves(s: State, c: nat, step: CloseStep, q: nat)
    requires CanClose(s, c, step) && q < |s.queues| && HasJoined(NextCloser(s, c, step), q)
    ensures HasJoined(s.closers[c], q) || s.queues[q].worker.Exited?
  {
  }

  lemma {:induction false} ExitedStays(s: State, step: Step, q: nat)
    requires Enabled(s, step) && q < |s.queues| && s.queues[q].worker.Exited?
    ensures Apply(s, step).queues[q].worker.Exited?
  {
    hide NextSubmitter, NextCloser, SubmitQueue, CloseQueue;
    match step
    case Submitting(t, submit) => if SubmitTouches(s, t, submit) == Some(q) { SubmitterAndWorker(s, t, submit); }
    case Working(_, _) =>
    case Closing(c, close) => if CloseTouches(s, c, close) == Some(q) { CloserAndWorker(s, c, close); }
  }

  lemma {:induction false} JoinsStep(s: State, step: Step)
    requires JoinsOk(s) && Enabled(s, step)
    ensures JoinsOk(Apply(s, step))
  {
    hide NextSubmitter, NextCloser, SubmitQueue, CloseQueue, WorkQueue, HasJoined, CanSubmit, CanWork, CanClose;
    var s' := Apply(s, step);
    forall c, q | c in s'.closers && 0 <= q < |s'.queues| && HasJoined(s'.closers[c], q)
      ensures s'.queues[q].worker.Exited?
    {
      if step.Closing? && step.c == c { JoinMoves(s, c, step.close, q); }
      assert c in s.closers && s.queues[q].worker.Exited?;
      ExitedStays(s, step, q);
    }
  }

  // ----- What a submission answers

  /** Why a call was refused: the pool was closed at its gate or at its recheck, or the pending count it
      read left no room. */
  predicate Refused(max: nat, call: Call) {
    || call.gate == Some(false)
    || (call.gate == Some(true) && call.read.Some? && call.read.value + call.n > max)
    || (call.gate == Some(true) && call.recheck == Some(false))
  }

  predicate Accepted(max: nat, call: Call) {
    call.gate == Some(true) && call.recheck == Some(true) && call.read.Some? && call.read.value + call.n <= max
  }

  /** A finished call: true exactly with a place in a queue, and each answer for its reason. */
  predicate Settled(max: nat, call: Call) {
    && call.answer == Some(call.place.Some?)
    && if call.place.Some? then Accepted(max, call) else Refused(max, call)
  }

  /** What an unfinished call has seen so far. */
  predicate InProgress(max: nat, pc: Submitter, call: Call) {
    match pc
    case Outside => true
    case AtGate(n) => call == Call(n, None, None, None, None, None)
    case Loading(n) => call == Call(n, Some(true), None, None, None, None)
    case Reserving(n, seen) => call == Call(n, Some(true), Some(seen), None, None, None)
    case Selecting(n) => Seen(max, n, call, None) && call.place.None?
    case Locking(n, _) => Seen(max, n, call, None) && call.place.None?
    case Rechecking(n, _) => Seen(max, n, call, None) && call.place.None?
    case RollingBack(n, _) => Seen(max, n, call, Some(false)) && call.place.None?
    case Leaving(_) => Seen(max, call.n, call, Some(false)) && call.place.None?
    case Admitting(n, _) => Seen(max, n, call, Some(true)) && call.place.None?
    case Counting(n, q) => Seen(max, n, call, Some(true)) && call.place.Some? && call.place.value.q == q
    case Unlocking(n, q) => Seen(max, n, call, Some(true)) && call.place.Some? && call.place.value.q == q
    case Notifying(q) => Seen(max, call.n, call, Some(true)) && call.place.Some? && call.place.value.q == q
  }

  predicate Seen(max: nat, n: Job, call: Call, recheck: Option<bool>) {
    && call.n == n && call.gate == Some(true) && call.read.Some? && call.read.value + n <= max
    && call.recheck == recheck && call.answer.None?
  }

  ghost predicate ThreadCallsOk(max: nat, pc: Submitter, calls: seq<Call>) {
    && (!pc.Outside? ==> calls != [] && InProgress(max, pc, Recent(calls)))
    && (forall k :: 0 <= k < |calls| && (pc.Outside? || k < |calls| - 1) ==> Settled(max, calls[k]))
  }

  ghost predicate CallsOk(s: State) {
    && s.calls.Keys == s.submitters.Keys
    && (forall t :: t in s.submitters ==> ThreadCallsOk(s.max, s.submitters[t], s.calls[t]))
  }

  /** The record of the current call follows the step. */
  lemma {:induction false} RecordStep(s: State, t: nat, step: SubmitStep)
    requires CanSubmit(s, t, step) && t in s.calls && !step.Begin? && s.calls[t] != []
    requires InProgress(s.max, s.submitters[t], Recent(s.calls[t]))
    ensures
      var pc, call := NextSubmitter(s, t, step), Recent(SubmitCalls(s, t, step));
      if pc.Outside? then Settled(s.max, call) else InProgress(s.max, pc, call)
  {
  }

  /** A step records in the current call only; `Begin` opens a new one. */
  lemma {:induction false} RecordFrame(s: State, t: nat, step: SubmitStep)
    requires CanSubmit(s, t, step) && t in s.calls && (step.Begin? || s.calls[t] != [])
    ensures
      var calls, calls' := s.calls[t], SubmitCalls(s, t, step);
      if step.Begin?
      then calls' == calls + [Call(step.n, None, None, None, None, None)] && NextSubmitter(s, t, step) == AtGate(step.n)
      else |calls'| == |calls| && forall k :: 0 <= k < |calls| - 1 ==> calls'[k] == calls[k]
  {
  }

  lemma {:induction false} CallsStep(s: State, step: Step)
    requires CallsOk(s) && Enabled(s, step)
    ensures CallsOk(Apply(s, step))
  {
    hide NextSubmitter, NextCloser, SubmitQueue, WorkQueue, CloseQueue, SubmitCalls;
    hide CanWork, CanClose, InProgress, Settled;
    if step.Submitting? {
      var t, submit := step.t, step.submit;
      assert ThreadCallsOk(s.max, s.submitters[t], s.calls[t]);
      OnlyBeginFromOutside(s, t, submit);
      RecordFrame(s, t, submit);
      if submit.Begin? { FirstRecord(s.max, submit.n); } else { RecordStep(s, t, submit); }
    }
  }

  lemma {:induction false} OnlyBeginFromOutside(s: State, t: nat, step: SubmitStep)
    requires CanSubmit(s, t, step)
    ensures step.Begin? <==> s.submitters[t].Outside?
  {
  }

  lemma {:induction false} FirstRecord(max: nat, n: Job)
    ensures InProgress(max, AtGate(n), Call(n, None, None, None, None, None))
  {
  }

  /** The `k`-th call of `t` is the author of the job at its place. */
  predicate PlacedAt(s: State, place: Place, t: nat, k: nat) {
    && place.q < |s.queues| && place.index < |s.queues[place.q].authors|
    && s.queues[place.q].authors[place.index] == Author(t, k)
  }

  predicate AuthoredBy(s: State, q: nat, i: nat, a: Author)
    requires q < |s.queues| && i < |s.queues[q].admitted|
  {
    && a.t in s.calls && a.k < |s.calls[a.t]| && s.calls[a.t][a.k].place == Some(Place(q, i))
    && s.calls[a.t][a.k].n == s.queues[q].admitted[i]
  }

  /** Calls with a place and admitted jobs correspond one to one. */
  ghost predicate PlacesOk(s: State) {
    && (forall q :: 0 <= q < |s.queues| ==> |s.queues[q].authors| == |s.queues[q].admitted|)
    && (forall q: nat, i: nat :: q < |s.queues| && i < |s.queues[q].admitted| ==>
          AuthoredBy(s, q, i, s.queues[q].authors[i]))
    && (forall t, k: nat :: t in s.calls && k < |s.calls[t]| && s.calls[t][k].place.Some? ==>
          PlacedAt(s, s.calls[t][k].place.value, t, k))
  }

  /** Apart from a push, steps change no log and no place. */
  lemma {:induction false} PlacesUntouched(s: State, step: Step)
    requires Enabled(s, step) && CallsOk(s) && !(step.Submitting? && step.submit.Push?)
    ensures
      var s' := Apply(s, step);
      && (forall q :: 0 <= q < |s.queues| ==>
            s'.queues[q].authors == s.queues[q].authors && s'.queues[q].admitted == s.queues[q].admitted)
      && s'.calls.Keys == s.calls.Keys
      && (forall t, k: nat :: t in s.calls && k < |s.calls[t]| ==>
            && k < |s'.calls[t]| && s'.calls[t][k].place == s.calls[t][k].place && s'.calls[t][k].n == s.calls[t][k].n)
      && (forall t, k: nat :: t in s.calls && |s.calls[t]| <= k < |s'.calls[t]| ==> s'.calls[t][k].place.None?)
  {
    hide SubmitQueue, SubmitCalls, NextSubmitter, NextCloser, CloseQueue;
    match step
    case Submitting(t, submit) =>
      assert ThreadCallsOk(s.max, s.submitters[t], s.calls[t]);
      hide ThreadCallsOk;
      OnlyBeginFromOutside(s, t, submit);
      RecordKeepsPlaces(s, t, submit);
      if SubmitTouches(s, t, submit).Some? { SubmitterAndWorker(s, t, submit); }
      hide SubmitTouches, SubmitPending, CanSubmit;
    case Working(_, _) =>
    case Closing(c, close) => if CloseTouches(s, c, close).Some? { CloserAndWorker(s, c, close); }
  }

  lemma {:induction false} RecordKeepsPlaces(s: State, t: nat, step: SubmitStep)
    requires CanSubmit(s, t, step) && !step.Push? && t in s.calls && (step.Begin? || s.calls[t] != [])
    ensures
      var calls, calls' := s.calls[t], SubmitCalls(s, t, step);
      && |calls| <= |calls'|
      && (forall k :: 0 <= k < |calls| ==> calls'[k].place == calls[k].place && calls'[k].n == calls[k].n)
      && (forall k :: |calls| <= k < |calls'| ==> calls'[k].place.None?)
  {
  }

  lemma {:induction false} PlacesStep(s: State, step: Step)
    requires CallsOk(s) && PlacesOk(s) && Enabled(s, step)
    ensures PlacesOk(Apply(s, step))
  {
    if step.Submitting? && step.submit.Push? {
      PushPlaces(s, step.t);
    } else {
      PlacesUntouched(s, step);
      hide Enabled, Apply, CallsOk;
      var s' := Apply(s, step);
      forall q: nat, i: nat | q < |s'.queues| && i < |s'.queues[q].admitted|
        ensures AuthoredBy(s', q, i, s'.queues[q].authors[i])
      {
        assert AuthoredBy(s, q, i, s.queues[q].authors[i]);
      }
      forall t, k: nat | t in s'.calls && k < |s'.calls[t]| && s'.calls[t][k].place.Some?
        ensures PlacedAt(s', s'.calls[t][k].place.value, t, k)
      {
        assert k < |s.calls[t]| && PlacedAt(s, s.calls[t][k].place.value, t, k);
      }
    }
  }

  lemma {:induction false} PushPlaces(s: State, t: nat)
    requires CallsOk(s) && PlacesOk(s) && CanSubmit(s, t, Push)
    ensures PlacesOk(ApplySubmit(s, t, Push))
  {
    var s' := ApplySubmit(s, t, Push);
    var q, now := s.submitters[t].q, |s.calls[t]| - 1;
    assert ThreadCallsOk(s.max, s.submitters[t], s.calls[t]);
    var call := s.calls[t][now].(place := Some(Place(q, |s.queues[q].admitted|)));
    assert s'.calls == s.calls[t := s.calls[t][now := call]];
    hide Settled, ThreadCallsOk, CallsOk;
    forall p: nat, i: nat | p < |s'.queues| && i < |s'.queues[p].admitted|
      ensures AuthoredBy(s', p, i, s'.queues[p].authors[i])
    {
      if p != q || i < |s.queues[q].admitted| { assert AuthoredBy(s, p, i, s.queues[p].authors[i]); }
    }
    forall u, k: nat | u in s'.calls && k < |s'.calls[u]| && s'.calls[u][k].place.Some?
      ensures PlacedAt(s', s'.calls[u][k].place.value, u, k)
    {
      if u != t || k != now { assert PlacedAt(s, s.calls[u][k].place.value, u, k); }
    }
  }

  // ----- Main results

  ghost predicate Inv(s: State) {
    && Locks(s)
    && BarrierOk(s)
    && PendingOk(s)
    && (forall q :: 0 <= q < |s.queues| ==> BooksOk(s, q))
    && DrainOk(s)
    && (forall q :: 0 <= q < |s.queues| ==> WorkerOk(s, q))
    && JoinsOk(s)
    && CallsOk(s)
    && PlacesOk(s)
  }

  lemma {:induction false} InitInv(workers: nat, max: nat, submitters: set<nat>, closers: set<nat>)
    ensures Inv(Init(workers, max, submitters, closers))
  {
    InitPending(workers, max, submitters, closers);
    hide PendingOk;
    var s := Init(workers, max, submitters, closers);
    assert forall q :: 0 <= q < |s.queues| ==> s.queues[q] == Queue(None, [], 0, 0, Starting, [], [], 0);
    assert Locks(s) && BarrierOk(s) && DrainOk(s) && JoinsOk(s) && CallsOk(s) && PlacesOk(s);
  }

  lemma {:induction false} InitPending(workers: nat, max: nat, submitters: set<nat>, closers: set<nat>)
    ensures PendingOk(Init(workers, max, submitters, closers))
  {
    var s := Init(workers, max, submitters, closers);
    SumMapZero(Reservations(s.submitters));
    forall i | 0 <= i < |Loads(s.queues)| ensures Loads(s.queues)[i] == 0 { assert s.queues[i].jobs == []; }
    SumZero(Loads(s.queues));
  }

  lemma {:induction false} StepInv(s: State, step: Step)
    requires Inv(s) && Enabled(s, step)
    ensures Inv(Apply(s, step))
  {
    hide Locks, BarrierOk, PendingOk, BooksOk, DrainOk, WorkerOk, JoinsOk, CallsOk, PlacesOk;
    hide Enabled, ApplySubmit, ApplyWork, ApplyClose;
    LocksStep(s, step);
    BarrierStep(s, step);
    PendingStep(s, step);
    DrainStep(s, step);
    JoinsStep(s, step);
    CallsStep(s, step);
    PlacesStep(s, step);
    forall q | 0 <= q < |Apply(s, step).queues| ensures BooksOk(Apply(s, step), q) { BooksStep(s, step, q); }
    forall q | 0 <= q < |Apply(s, step).queues| ensures WorkerOk(Apply(s, step), q) { WorkerOkStep(s, step, q); }
  }

  lemma {:induction false} RunInv(s: State, steps: seq<Step>)
    requires Inv(s) && ValidRun(s, steps)
    ensures Inv(Exec(s, steps))
    decreases |steps|
  {
    hide Inv, Enabled, Apply;
    if steps != [] {
      StepInv(s, steps[0]);
      RunInv(Apply(s, steps[0]), steps[1..]);
    }
  }

  /** `CloseSubmissions` has returned to this thread. */
  predicate ReturnedFromClose(pc: Closer) {
    pc.Closed? || pc.Superseded? || InDrain(pc)
  }

  lemma {:induction false} ClosedMoves(s: State, c: nat, step: CloseStep)
    requires CanClose(s, c, step) && ReturnedFromClose(s.closers[c])
    ensures ReturnedFromClose(NextCloser(s, c, step))
  {
  }

  lemma {:induction false} NoPushAfterClose(s: State, step: Step, c: nat)
    requires BarrierOk(s) && c in s.closers && ReturnedFromClose(s.closers[c]) && Enabled(s, step)
    ensures ReturnedFromClose(Apply(s, step).closers[c])
    ensures forall q :: 0 <= q < |s.queues| ==> Apply(s, step).queues[q].admitted == s.queues[q].admitted
  {
    hide NextSubmitter, NextCloser, SubmitQueue, CloseQueue;
    assert NoneAdmitting(s, |s.queues|);
    match step
    case Submitting(t, submit) => if SubmitTouches(s, t, submit).Some? { SubmitterAndWorker(s, t, submit); }
    case Working(_, _) =>
    case Closing(d, close) =>
      if c == d { ClosedMoves(s, c, close); }
      if CloseTouches(s, d, close).Some? { CloserAndWorker(s, d, close); }
  }

  /** Close barrier: once `CloseSubmissions` has returned to any thread, no continuation, however it
      interleaves, admits another job to any queue. */
  lemma {:induction false} NothingAdmittedAfterClose(s: State, c: nat, steps: seq<Step>)
    requires Inv(s) && c in s.closers && ReturnedFromClose(s.closers[c]) && ValidRun(s, steps)
    ensures |Exec(s, steps).queues| == |s.queues| && !Exec(s, steps).accepting
    ensures forall q :: 0 <= q < |s.queues| ==> Exec(s, steps).queues[q].admitted == s.queues[q].admitted
    decreases |steps|
  {
    hide Enabled, Apply;
    if steps != [] {
      StepInv(s, steps[0]);
      NoPushAfterClose(s, steps[0], c);
      NothingAdmittedAfterClose(Apply(s, steps[0]), c, steps[1..]);
    }
  }

  /** Admission conservation, for every run: the global counter is the reservations of submitters in
      progress plus everything queued or executing; no counter leaves its range. */
  lemma {:induction false} CountersConserved(workers: nat, max: nat, submitters: set<nat>, closers: set<nat>,
      steps: seq<Step>)
    requires ValidRun(Init(workers, max, submitters, closers), steps)
    ensures
      var s := Exec(Init(workers, max, submitters, closers), steps);
      && s.pending == SumMap(Reservations(s.submitters)) + Sum(Loads(s.queues))
      && 0 <= s.pending <= s.max
      && (forall q :: 0 <= q < |s.queues| ==> 0 <= s.queues[q].pendingLogical && 0 <= s.queues[q].queuedLogical)
  {
    hide Init, ValidRun, Exec;
    InitInv(workers, max, submitters, closers);
    RunInv(Init(workers, max, submitters, closers), steps);
    var s := Exec(Init(workers, max, submitters, closers), steps);
    forall q | 0 <= q < |s.queues| ensures 0 <= s.queues[q].pendingLogical && 0 <= s.queues[q].queuedLogical {
      assert BooksOk(s, q);
      if Unadded(s, q, true) > 0 { SumAtLeast(s.queues[q].jobs, |s.queues[q].jobs| - 1); }
    }
  }

  /** Drain completeness: when `DrainAndJoin` finishes, every admitted job of every queue was taken
      exactly once and in order, the queues are empty, their counters are zero, and the global
      counter is zero exactly when no submitter is still between its reservation and its rollback. */
  lemma {:induction false} JoinedMeansDrained(s: State, c: nat)
    requires Inv(s) && c in s.closers && s.closers[c].Joined?
    ensures forall q :: 0 <= q < |s.queues| ==>
      && s.queues[q].worker.Exited? && s.queues[q].jobs == [] && s.queues[q].started == |s.queues[q].admitted|
      && s.queues[q].pendingLogical == 0 && s.queues[q].queuedLogical == 0
    ensures s.pending == SumMap(Reservations(s.submitters))
    ensures s.pending == 0 <==> forall t :: t in s.submitters ==> Reservation(s.submitters[t]) == 0
  {
    forall q | 0 <= q < |s.queues|
      ensures s.queues[q].worker.Exited? && s.queues[q].jobs == [] && s.queues[q].started == |s.queues[q].admitted|
      ensures s.queues[q].pendingLogical == 0 && s.queues[q].queuedLogical == 0
    {
      assert HasJoined(s.closers[c], q) && WorkerOk(s, q) && BooksOk(s, q);
    }
    SumZero(Loads(s.queues));
    var reservations := Reservations(s.submitters);
    SumMapZero(reservations);
    assert (forall t :: t in reservations ==> reservations[t] == 0) <==>
           (forall t :: t in s.submitters ==> Reservation(s.submitters[t]) == 0) by {
      assert forall t :: t in s.submitters ==> t in reservations && reservations[t] == Reservation(s.submitters[t]);
    }
  }

  // ----- Mutexes are released

  /** Steps until the holder of queue `q`'s mutex releases it. */
  function HolderSteps(s: State, q: nat): nat
    requires q < |s.queues|
  {
    match s.queues[q].lock
    case None => 0
    case Some(BySubmitter(t)) => if t in s.submitters then SubmitterSteps(s.submitters[t]) else 0
    case Some(ByWorker) => WorkerSteps(s.queues[q].worker)
    case Some(ByCloser(_)) => 1
  }

  function SubmitterSteps(pc: Submitter): nat {
    if pc.Rechecking? then 4
    else if pc.Admitting? then 3
    else if pc.RollingBack? || pc.Counting? then 2
    else 1
  }

  function WorkerSteps(w: Worker): nat {
    if w.Deciding? then 3 else if w.SawNoDrain? then 2 else 1
  }

  /** Steps inside a critical section. */
  predicate Inside(step: Step) {
    match step
    case Submitting(_, submit) =>
      submit.Recheck? || submit.Rollback? || submit.Leave? || submit.Push? || submit.Count? || submit.Unlock?
    case Working(_, work) => work.LoadDrain? || work.CheckEmpty? || work.Take?
    case Closing(_, close) => close.UnlockBarrier? || close.NotifyWaking?
  }

  lemma {:induction false} ReleaseStep(s: State, q: nat, t: nat) returns (submit: SubmitStep)
    requires t in s.submitters && q < |s.queues| && SubmitterHolds(s.submitters[t], q)
    ensures CanSubmit(s, t, submit) && Inside(Submitting(t, submit)) && !submit.Notify? && !submit.Lock?
    ensures SubmitTouches(s, t, submit).None? || (SubmitTouches(s, t, submit) == Some(q) && s.submitters[t].q == q)
    ensures submit.Push? ==> s.submitters[t].Admitting?
    ensures 0 < SubmitterSteps(s.submitters[t])
    ensures if submit.Leave? || submit.Unlock? then SubmitTouches(s, t, submit).Some?
            else SubmitterSteps(NextSubmitter(s, t, submit)) < SubmitterSteps(s.submitters[t])
    ensures submit.Push? ==> SubmitTouches(s, t, submit).Some?
  {
    submit := match s.submitters[t]
      case Rechecking(_, _) => Recheck
      case RollingBack(_, _) => Rollback
      case Leaving(_) => Leave
      case Admitting(_, _) => Push
      case Counting(_, _) => Count
      case _ => Unlock;
  }

  lemma {:induction false} SubmitterReleases(s: State, q: nat, t: nat) returns (step: Step)
    requires Locks(s) && q < |s.queues| && s.queues[q].lock == Some(BySubmitter(t))
    ensures Enabled(s, step) && Inside(step) && step.Submitting? && step.t == t
    ensures HolderSteps(Apply(s, step), q) < HolderSteps(s, q)
    ensures
      var queue, queue' := s.queues[q], Apply(s, step).queues[q];
      && queue'.worker == queue.worker && queue'.started == queue.started && queue.admitted <= queue'.admitted
      && (if step.submit.Push? then s.submitters[t].Admitting? && queue'.jobs != [] else queue'.jobs == queue.jobs)
  {
    assert LockOk(s, q) && SubmitterHolds(s.submitters[t], q);
    hide Locks, LockOk, SubmitCalls, SubmitQueue, NextSubmitter, CanSubmit;
    hide SubmitterSteps, SubmitterHolds, SubmitTouches;
    var submit := ReleaseStep(s, q, t);
    step := Submitting(t, submit);
    if SubmitTouches(s, t, submit).Some? {
      SubmitterAndWorker(s, t, submit);
      SubmitterLockAfter(s, t, submit);
    }
  }

  lemma {:induction false} CloserReleases(s: State, q: nat, d: nat) returns (step: Step)
    requires Locks(s) && q < |s.queues| && s.queues[q].lock == Some(ByCloser(d))
    ensures Enabled(s, step) && Inside(step) && step.Closing? && step.c == d
    ensures step.close.NotifyWaking? ==> InDrain(s.closers[d])
    ensures HolderSteps(Apply(s, step), q) < HolderSteps(s, q)
    ensures
      var queue, queue' := s.queues[q], Apply(s, step).queues[q];
      && queue'.worker == (if step.close.NotifyWaking? then Notified(queue.worker) else queue.worker)
      && queue'.started == queue.started && queue'.jobs == queue.jobs && queue'.admitted == queue.admitted
  {
    assert LockOk(s, q) && CloserHolds(s.closers[d], q);
    hide Locks, LockOk;
    step := Closing(d, if s.closers[d].BarrierHeld? then UnlockBarrier else NotifyWaking);
  }

  lemma {:induction false} WorkerReleases(s: State, q: nat) returns (step: Step)
    requires Locks(s) && q < |s.queues| && WorkerOk(s, q) && s.queues[q].lock == Some(ByWorker)
    ensures Enabled(s, step) && Inside(step) && step.Working?
    ensures HolderSteps(Apply(s, step), q) < HolderSteps(s, q)
  {
    assert LockOk(s, q) && WorkerHolds(s.queues[q].worker);
    hide Locks, LockOk;
    var work := match s.queues[q].worker
      case Deciding => LoadDrain
      case SawNoDrain => CheckEmpty
      case _ => Take;
    step := Working(q, work);
  }

  /** Nobody blocks inside a critical section: the holder of a mutex can step towards its release. */
  lemma {:induction false} HolderReleases(s: State, q: nat) returns (step: Step)
    requires Locks(s) && q < |s.queues| && WorkerOk(s, q) && s.queues[q].lock.Some?
    ensures Enabled(s, step) && Inside(step) && HolderSteps(Apply(s, step), q) < HolderSteps(s, q)
    ensures step.Submitting? ==> s.queues[q].lock == Some(BySubmitter(step.t))
  {
    match s.queues[q].lock
    case Some(BySubmitter(t)) => step := SubmitterReleases(s, q, t);
    case Some(ByWorker) => step := WorkerReleases(s, q);
    case Some(ByCloser(d)) => step := CloserReleases(s, q, d);
  }

  // ----- Submissions are answered

  /** The answer the current call of `t` gets if nobody else reserves, releases or closes. */
  predicate WillAdmit(s: State, t: nat)
    requires t in s.submitters
  {
    match s.submitters[t]
    case Outside => false
    case AtGate(n) => s.accepting && s.pending + n <= s.max
    case Loading(n) => s.accepting && s.pending + n <= s.max
    case Reserving(n, seen) => s.accepting && seen + n <= s.max && s.pending + n <= s.max
    case Selecting(_) => s.accepting
    case Locking(_, _) => s.accepting
    case Rechecking(_, _) => s.accepting
    case RollingBack(_, _) => false
    case Leaving(_) => false
    case _ => true
  }

  /** Own steps left until the return. */
  function SubmitRank(s: State, t: nat): nat
    requires t in s.submitters
  {
    match s.submitters[t]
    case Outside => 0
    case AtGate(_) => 11
    case Loading(_) => 10
    case Reserving(_, seen) => if seen == s.pending then 8 else 9
    case Selecting(_) => 7
    case Locking(_, _) => 6
    case Rechecking(_, _) => 5
    case Admitting(_, _) => 4
    case Counting(_, _) => 3
    case Unlocking(_, _) => 2
    case Notifying(_) => 1
    case RollingBack(_, _) => 2
    case Leaving(_) => 1
  }

  /** The queue the thread works on, `q` if it has yet to select one. */
  function Target(pc: Submitter, q: nat): nat {
    match pc
    case Locking(_, p) => p
    case Rechecking(_, p) => p
    case RollingBack(_, p) => p
    case Leaving(p) => p
    case Admitting(_, p) => p
    case Counting(_, p) => p
    case Unlocking(_, p) => p
    case Notifying(p) => p
    case _ => q
  }

  /** Before it has locked its queue. */
  predicate Early(pc: Submitter) {
    pc.AtGate? || pc.Loading? || pc.Reserving? || pc.Selecting? || pc.Locking?
  }

  function NextSubmitStep(s: State, t: nat, q: nat): SubmitStep
    requires t in s.submitters && !s.submitters[t].Outside?
  {
    match s.submitters[t]
    case AtGate(_) => Gate
    case Loading(_) => Load
    case Reserving(n, seen) => if !Fits(s, n, seen) then Refuse else if seen == s.pending then Cas else CasFail
    case Selecting(_) => Select(q)
    case Locking(_, _) => Lock
    case Rechecking(_, _) => Recheck
    case RollingBack(_, _) => Rollback
    case Leaving(_) => Leave
    case Admitting(_, _) => Push
    case Counting(_, _) => Count
    case Unlocking(_, _) => Unlock
    case Notifying(_) => Notify
  }

  /** What the rest of the call appends to the log of its queue. */
  function ToAdmit(s: State, t: nat): seq<Job>
    requires t in s.submitters
  {
    var pc := s.submitters[t];
    if WillAdmit(s, t) && (Early(pc) || pc.Rechecking? || pc.Admitting?) then [pc.n] else []
  }

  /** A call waits only for the mutex of its queue, and each own step brings its return nearer. */
  lemma {:induction false} SubmitProgress(s: State, t: nat, q: nat)
    requires t in s.submitters && !s.submitters[t].Outside? && SubmitterInRange(|s.queues|, s.submitters[t])
    requires q < |s.queues| && (s.submitters[t].Locking? ==> Free(s, s.submitters[t].q))
    ensures
      var step := NextSubmitStep(s, t, q);
      && CanSubmit(s, t, step) && !step.Begin?
      && SubmitRank(ApplySubmit(s, t, step), t) < SubmitRank(s, t)
  {
    hide SubmitCalls, SubmitQueue, SubmitTouches;
  }

  /** That step changes neither the answer nor the queue. */
  lemma {:induction false} SubmitGoesOn(s: State, t: nat, q: nat)
    requires t in s.submitters && !s.submitters[t].Outside? && CanSubmit(s, t, NextSubmitStep(s, t, q))
    ensures
      var step := NextSubmitStep(s, t, q);
      var s' := ApplySubmit(s, t, step);
      s'.submitters[t].Outside? ||
      (WillAdmit(s', t) == WillAdmit(s, t) && Target(s'.submitters[t], q) == Target(s.submitters[t], q))
  {
    hide SubmitCalls, SubmitQueue, SubmitTouches;
  }

  lemma {:induction false} SubmitProgressQueue(s: State, t: nat, q: nat)
    requires t in s.submitters && !s.submitters[t].Outside? && SubmitterInRange(|s.queues|, s.submitters[t])
    requires q < |s.queues| && CanSubmit(s, t, NextSubmitStep(s, t, q))
    ensures
      var s' := ApplySubmit(s, t, NextSubmitStep(s, t, q));
      var p := Target(s.submitters[t], q);
      s'.queues[p].admitted + ToAdmit(s', t) == s.queues[p].admitted + ToAdmit(s, t)
  {
  }

  /** What the last step returns. */
  lemma {:induction false} FinalAnswer(s: State, t: nat, q: nat)
    requires CallsOk(s) && t in s.submitters && !s.submitters[t].Outside?
    requires q < |s.queues| && CanSubmit(s, t, NextSubmitStep(s, t, q))
    requires NextSubmitter(s, t, NextSubmitStep(s, t, q)).Outside?
    ensures
      var s' := ApplySubmit(s, t, NextSubmitStep(s, t, q));
      var call := Recent(s'.calls[t]);
      && t in s'.calls && call.answer == Some(WillAdmit(s, t))
      && (WillAdmit(s, t) ==> call.place.Some? && call.place.value.q == Target(s.submitters[t], q))
  {
    assert ThreadCallsOk(s.max, s.submitters[t], s.calls[t]);
  }

  /** Own steps of `t` and, while it waits for a mutex, steps of threads inside critical sections. */
  predicate HelpsSubmit(step: Step, t: nat) {
    (step.Submitting? && step.t == t) || Inside(step)
  }

  /** The call goes on: same answer, same queue, same record. */
  ghost predicate GoesOn(s: State, s': State, t: nat, q: nat)
    requires t in s.submitters
  {
    && t in s'.submitters && !s'.submitters[t].Outside? && WillAdmit(s', t) == WillAdmit(s, t)
    && Target(s'.submitters[t], q) == Target(s.submitters[t], q)
    && t in s.calls && t in s'.calls && |s'.calls[t]| == |s.calls[t]| && |s'.queues| == |s.queues|
  }

  /** The call has returned with the given answer; if true, its job is in queue `p`. */
  ghost predicate Answers(s: State, s': State, t: nat, answer: bool, p: nat) {
    && t in s'.submitters && s'.submitters[t].Outside?
    && t in s.calls && t in s'.calls && |s'.calls[t]| == |s.calls[t]| && |s'.queues| == |s.queues|
    && Recent(s'.calls[t]).answer == Some(answer)
    && (answer ==> Recent(s'.calls[t]).place.Some? && Recent(s'.calls[t]).place.value.q == p)
  }

  function LockWait(s: State, t: nat): nat
    requires t in s.submitters
  {
    var pc := s.submitters[t];
    if pc.Locking? && pc.q < |s.queues| then HolderSteps(s, pc.q) else 0
  }

  lemma {:induction false} CallerKnown(s: State, t: nat)
    requires Inv(s) && t in s.submitters
    ensures t in s.calls && SubmitterInRange(|s.queues|, s.submitters[t])
    ensures !s.submitters[t].Outside? ==> s.calls[t] != []
  {
    assert ThreadCallsOk(s.max, s.submitters[t], s.calls[t]);
  }

  /** One own step of a call that does not have to wait. */
  lemma {:induction false} OwnSubmitStep(s: State, t: nat, q: nat) returns (step: Step)
    requires Inv(s) && t in s.submitters && !s.submitters[t].Outside? && q < |s.queues|
    requires s.submitters[t].Locking? ==> Free(s, s.submitters[t].q)
    ensures step.Submitting? && step.t == t && step.submit == NextSubmitStep(s, t, q) && Enabled(s, step)
    ensures
      var s' := Apply(s, step);
      && t in s'.submitters && SubmitRank(s', t) < SubmitRank(s, t)
      && if s'.submitters[t].Outside? then Answers(s, s', t, WillAdmit(s, t), Target(s.submitters[t], q))
         else GoesOn(s, s', t, q)
  {
    CallerKnown(s, t);
    SubmitProgress(s, t, q);
    SubmitGoesOn(s, t, q);
    step := Submitting(t, NextSubmitStep(s, t, q));
    RecordFrame(s, t, step.submit);
    if NextSubmitter(s, t, step.submit).Outside? { FinalAnswer(s, t, q); }
    hide Inv, NextSubmitStep, NextSubmitter, SubmitCalls, SubmitQueue, WillAdmit, Target, SubmitRank, Recent;
  }

  /** One step of whoever holds the mutex the call waits for. */
  lemma {:induction false} LockWaitStep(s: State, t: nat, q: nat) returns (step: Step)
    requires Inv(s) && t in s.submitters && s.submitters[t].Locking? && !Free(s, s.submitters[t].q)
    ensures Enabled(s, step) && Inside(step) && GoesOn(s, Apply(s, step), t, q)
    ensures SubmitRank(Apply(s, step), t) == SubmitRank(s, t) && LockWait(Apply(s, step), t) < LockWait(s, t)
  {
    CallerKnown(s, t);
    var p := s.submitters[t].q;
    assert LockOk(s, p) && WorkerOk(s, p);
    step := HolderReleases(s, p);
    assert !(step.Submitting? && step.t == t);
    hide Inv;
    InsideKeepsCaller(s, t, step);
    hide Apply, Enabled, HolderSteps;
  }

  lemma {:induction false} InsideKeepsCaller(s: State, t: nat, step: Step)
    requires t in s.submitters && t in s.calls && Enabled(s, step) && Inside(step)
    requires !(step.Submitting? && step.t == t)
    ensures
      var s' := Apply(s, step);
      && t in s'.submitters && s'.submitters[t] == s.submitters[t] && s'.accepting == s.accepting
      && t in s'.calls && s'.calls[t] == s.calls[t] && |s'.queues| == |s.queues|
  {
    hide NextSubmitter, SubmitQueue, SubmitCalls, WorkQueue, CloseQueue, NextCloser, CanWork, CanClose;
  }

  /** From every reachable state, a call of `TrySubmitBatch` returns, waiting for nobody but threads
      inside critical sections, with the answer `WillAdmit` tells. */
  lemma {:induction false} SubmitFinishes(s: State, t: nat, q: nat) returns (steps: seq<Step>)
    requires Inv(s) && t in s.submitters && !s.submitters[t].Outside? && q < |s.queues|
    ensures ValidRun(s, steps) && forall i :: 0 <= i < |steps| ==> HelpsSubmit(steps[i], t)
    ensures Inv(Exec(s, steps))
    ensures Answers(s, Exec(s, steps), t, WillAdmit(s, t), Target(s.submitters[t], q))
    decreases SubmitRank(s, t), LockWait(s, t)
  {
    hide Inv, Enabled, Apply, WillAdmit, Target, SubmitRank, LockWait, Recent, Free, Inside;
    var step;
    if s.submitters[t].Locking? && !Free(s, s.submitters[t].q) {
      step := LockWaitStep(s, t, q);
    } else {
      step := OwnSubmitStep(s, t, q);
    }
    StepInv(s, step);
    steps := [step];
    if !Apply(s, step).submitters[t].Outside? {
      var rest := SubmitFinishes(Apply(s, step), t, q);
      steps := [step] + rest;
    }
    assert [step] + steps[1..] == steps;
  }

  /** Queue `p` got exactly `more` added to its log. */
  ghost predicate Appended(s: State, s': State, p: nat, more: seq<Job>) {
    p < |s.queues| && p < |s'.queues| && s'.queues[p].admitted == s.queues[p].admitted + more
  }

  /** One own step of a call that finds its mutex free, with what is appended from then on. */
  lemma {:induction false} AloneStep(s: State, t: nat, q: nat, step: Step, s'': State)
    requires t in s.submitters && !s.submitters[t].Outside? && SubmitterInRange(|s.queues|, s.submitters[t])
    requires q < |s.queues| && step == Submitting(t, NextSubmitStep(s, t, q)) && Enabled(s, step)
    ensures
      var s' := Apply(s, step);
      var p := Target(s.submitters[t], q);
      && t in s'.submitters
      && (s'.submitters[t].Outside? && s'' == s' ==> Appended(s, s'', p, ToAdmit(s, t)))
      && (Appended(s', s'', p, ToAdmit(s', t)) ==> Appended(s, s'', p, ToAdmit(s, t)))
  {
    SubmitProgressQueue(s, t, q);
    var s' := Apply(s, step);
    hide SubmitCalls, SubmitQueue, SubmitTouches;
    if s'.submitters[t].Outside? {
      var admitted := s'.queues[Target(s.submitters[t], q)].admitted;
      assert admitted + [] == admitted;
    }
  }

  lemma {:induction false} StillFree(s: State, t: nat, q: nat, step: Step)
    requires t in s.submitters && !s.submitters[t].Outside? && SubmitterInRange(|s.queues|, s.submitters[t])
    requires q < |s.queues| && step == Submitting(t, NextSubmitStep(s, t, q)) && Enabled(s, step)
    requires Early(s.submitters[t]) ==> Free(s, Target(s.submitters[t], q))
    ensures
      var s' := Apply(s, step);
      t in s'.submitters && (Early(s'.submitters[t]) ==> Free(s', Target(s'.submitters[t], q)))
  {
    hide SubmitCalls, SubmitQueue;
  }

  /** The thread is inside a call and does not have to wait for its mutex. */
  ghost predicate Unhindered(s: State, t: nat, q: nat) {
    && Inv(s) && t in s.submitters && !s.submitters[t].Outside? && q < |s.queues|
    && (Early(s.submitters[t]) ==> Free(s, Target(s.submitters[t], q)))
  }

  /** The call has returned, with the answer it had to expect and its job as the only addition. */
  ghost predicate ReturnsFrom(s: State, s': State, t: nat, q: nat)
    requires t in s.submitters
  {
    && Inv(s') && Answers(s, s', t, WillAdmit(s, t), Target(s.submitters[t], q))
    && Appended(s, s', Target(s.submitters[t], q), ToAdmit(s, t))
  }

  lemma {:induction false} UnhinderedStep(s: State, t: nat, q: nat) returns (step: Step)
    requires Unhindered(s, t, q)
    ensures step.Submitting? && step.t == t && step.submit == NextSubmitStep(s, t, q) && Enabled(s, step)
    ensures
      var s' := Apply(s, step);
      && Inv(s') && t in s'.submitters && SubmitRank(s', t) < SubmitRank(s, t)
      && if s'.submitters[t].Outside? then ReturnsFrom(s, s', t, q) else Unhindered(s', t, q) && GoesOn(s, s', t, q)
  {
    hide Inv;
    CallerKnown(s, t);
    assert s.submitters[t].Locking? ==> Early(s.submitters[t]) && Target(s.submitters[t], q) == s.submitters[t].q;
    hide Enabled, Apply, WillAdmit, ToAdmit, SubmitRank, Recent, Free, SubmitterInRange, Target, Early;
    hide NextSubmitStep, Appended, Answers;
    step := OwnSubmitStep(s, t, q);
    StepInv(s, step);
    StillFree(s, t, q, step);
    AloneStep(s, t, q, step, Apply(s, step));
  }

  lemma {:induction false} ReturnsLater(s: State, t: nat, q: nat, step: Step, s'': State)
    requires Unhindered(s, t, q) && step == Submitting(t, NextSubmitStep(s, t, q)) && Enabled(s, step)
    requires GoesOn(s, Apply(s, step), t, q) && ReturnsFrom(Apply(s, step), s'', t, q)
    ensures ReturnsFrom(s, s'', t, q)
  {
    hide Inv, Enabled, Apply, WillAdmit, ToAdmit, Recent, Free;
    hide SubmitterInRange, Target, Early, NextSubmitStep, Appended;
    CallerKnown(s, t);
    AloneStep(s, t, q, step, s'');
  }

  /** If the mutex is free, its own steps do it and append exactly its job. */
  lemma {:induction false} SubmitAlone(s: State, t: nat, q: nat) returns (steps: seq<Step>)
    requires Unhindered(s, t, q)
    ensures ValidRun(s, steps) && forall i :: 0 <= i < |steps| ==> steps[i].Submitting? && steps[i].t == t
    ensures t in s.submitters && ReturnsFrom(s, Exec(s, steps), t, q)
    decreases if t in s.submitters then SubmitRank(s, t) else 0
  {
    hide Inv, ReturnsFrom, Enabled, Apply, NextSubmitStep, SubmitRank, ValidRun, Exec, Free, Target, Early;
    assert t in s.submitters;
    hide Unhindered, GoesOn;
    var step := UnhinderedStep(s, t, q);
    var s' := Apply(s, step);
    var rest;
    if s'.submitters[t].Outside? {
      rest := Stay(s');
    } else {
      rest := SubmitAlone(s', t, q);
      ReturnsLater(s, t, q, step, Exec(s', rest));
    }
    steps := Chain(s, step, s', rest);
  }

  lemma {:induction false} BeginsAtGate(s: State, t: nat, n: Job, q: nat)
    requires t in s.submitters && s.submitters[t].Outside? && t in s.calls && 0 < n && Free(s, q)
    ensures
      var begin := Submitting(t, Begin(n));
      && Enabled(s, begin)
      && var s' := Apply(s, begin);
         var admit := s.accepting && s.pending + n <= s.max;
         && t in s'.submitters && !s'.submitters[t].Outside? && s'.queues == s.queues && q < |s.queues| && Free(s', q)
         && t in s'.calls && |s'.calls[t]| == |s.calls[t]| + 1
         && WillAdmit(s', t) == admit && ToAdmit(s', t) == (if admit then [n] else [])
         && Target(s'.submitters[t], q) == q
  {
  }

  /** `TrySubmitBatch` undisturbed: it returns true iff the pool accepts and there is room for the whole
      batch, and then exactly this batch is added to the selected queue. */
  lemma {:induction false} TrySubmitAnswers(s: State, t: nat, n: Job, q: nat) returns (steps: seq<Step>)
    requires Inv(s) && t in s.submitters && s.submitters[t].Outside? && t in s.calls && 0 < n && Free(s, q)
    ensures ValidRun(s, steps) && forall i :: 0 <= i < |steps| ==> steps[i].Submitting? && steps[i].t == t
    ensures
      var s' := Exec(s, steps);
      var admit := s.accepting && s.pending + n <= s.max;
      && Inv(s') && t in s'.submitters && s'.submitters[t].Outside? && q < |s'.queues|
      && t in s'.calls && |s'.calls[t]| == |s.calls[t]| + 1 && Recent(s'.calls[t]).answer == Some(admit)
      && s'.queues[q].admitted == s.queues[q].admitted + if admit then [n] else []
  {
    hide Inv, Enabled, Apply, WillAdmit, ToAdmit, Target, Free, Recent;
    var begin := Submitting(t, Begin(n));
    BeginsAtGate(s, t, n, q);
    StepInv(s, begin);
    var rest := SubmitAlone(Apply(s, begin), t, q);
    steps := Chain(s, begin, Apply(s, begin), rest);
  }

  /** In every run, every finished call: it returned true iff its job is in the log of a queue, exactly
      once; it returned false only because the pool was closed at its gate or its recheck, or the
      pending count it read left no room; and every logged job belongs to one call. */
  lemma {:induction false} EveryCallIsAnswered(workers: nat, max: nat, submitters: set<nat>, closers: set<nat>,
      steps: seq<Step>, t: nat, k: nat)
    requires ValidRun(Init(workers, max, submitters, closers), steps)
    requires
      var s := Exec(Init(workers, max, submitters, closers), steps);
      t in s.submitters && t in s.calls && k < |s.calls[t]| && (s.submitters[t].Outside? || k < |s.calls[t]| - 1)
    ensures
      var s := Exec(Init(workers, max, submitters, closers), steps);
      var call := s.calls[t][k];
      && call.answer.Some?
      && (call.answer.value <==> exists q: nat, i: nat :: IsLogged(s, q, i, t, k))
      && (call.answer.value ==>
            call.gate == Some(true) == call.recheck && call.read.Some? && call.read.value + call.n <= s.max)
      && (!call.answer.value ==>
            || call.gate == Some(false) || call.recheck == Some(false)
            || (call.read.Some? && call.read.value + call.n > s.max))
      && (forall q: nat, i: nat :: IsLogged(s, q, i, t, k) ==>
            call.place == Some(Place(q, i)) && s.queues[q].admitted[i] == call.n)
  {
    hide Init, ValidRun, Exec;
    InitInv(workers, max, submitters, closers);
    RunInv(Init(workers, max, submitters, closers), steps);
    var s := Exec(Init(workers, max, submitters, closers), steps);
    assert ThreadCallsOk(s.max, s.submitters[t], s.calls[t]);
    forall q: nat, i: nat | IsLogged(s, q, i, t, k)
      ensures s.calls[t][k].place == Some(Place(q, i)) && s.queues[q].admitted[i] == s.calls[t][k].n
    {
      assert AuthoredBy(s, q, i, s.queues[q].authors[i]);
    }
    if s.calls[t][k].place.Some? {
      var place := s.calls[t][k].place.value;
      assert PlacedAt(s, place, t, k);
      assert IsLogged(s, place.q, place.index, t, k);
    }
  }

  /** The job at index `i` of queue `q` is that of the `k`-th call of `t`. */
  predicate IsLogged(s: State, q: nat, i: nat, t: nat, k: nat) {
    q < |s.queues| && i < |s.queues[q].admitted| == |s.queues[q].authors| && s.queues[q].authors[i] == Author(t, k)
  }

  // ----- Admitted jobs are run

  /** Steps of the worker, of notifying submitters and of threads inside critical sections. */
  predicate HelpsRun(step: Step, q: nat) {
    || (step.Working? && step.q == q)
    || (step.Submitting? && (step.submit.Count? || step.submit.Unlock? || step.submit.Notify?))
    || Inside(step)
  }

  /** Steps until the worker of a nonempty queue takes its next job, once it is awake. */
  function TakeRank(s: State, q: nat): nat
    requires q < |s.queues|
  {
    match s.queues[q].worker
    case Taking => 1
    case SawNoDrain => 2
    case Deciding => 3
    case Uncounted(_) => 10
    case Ran(_) => 11
    case Running(_) => 12
    case _ => 4 + HolderSteps(s, q)
  }

  /** The log has not shrunk, and the next job is taken or still there. */
  ghost predicate JobsKept(s: State, s': State, q: nat) {
    && q < |s.queues| && |s'.queues| == |s.queues| && |s.queues[q].admitted| <= |s'.queues[q].admitted|
    && s'.queues[q].started == s.queues[q].started && s'.queues[q].jobs != []
  }

  lemma {:induction false} HolderStepsBounded(s: State, q: nat)
    requires q < |s.queues|
    ensures HolderSteps(s, q) <= 4
  {
  }

  /** An awake worker takes its next job or comes nearer to it. */
  lemma {:induction false} NextTakeStep(s: State, q: nat) returns (step: Step)
    requires Inv(s) && q < |s.queues| && s.queues[q].jobs != [] && !s.queues[q].worker.Asleep?
    ensures Enabled(s, step) && HelpsRun(step, q)
    ensures
      var s' := Apply(s, step);
      if step == Working(q, Take)
      then s'.queues[q].started == s.queues[q].started + 1 && s'.queues[q].admitted == s.queues[q].admitted
      else JobsKept(s, s', q) && !s'.queues[q].worker.Asleep? && TakeRank(s', q) < TakeRank(s, q)
  {
    assert LockOk(s, q) && WorkerOk(s, q) && Locks(s);
    hide Inv, Locks, LockOk;
    var w := s.queues[q].worker;
    if (w.Starting? || w.Woken?) && s.queues[q].lock.Some? {
      step := AwaitMutex(s, q);
    } else {
      assert !w.Exited?;
      hide WorkerOk, HolderSteps, CanWork, ApplyWork;
      var work := OwnTakeStep(s, q);
      step := Working(q, work);
    }
  }

  lemma {:induction false} OwnTakeStep(s: State, q: nat) returns (work: WorkStep)
    requires q < |s.queues| && s.queues[q].jobs != []
    requires
      var w := s.queues[q].worker;
      !w.Asleep? && !w.Exited? && (w.Starting? || w.Woken? ==> s.queues[q].lock.None?)
    ensures CanWork(s, q, work)
    ensures
      var s' := ApplyWork(s, q, work);
      if work.Take?
      then s'.queues[q].started == s.queues[q].started + 1 && s'.queues[q].admitted == s.queues[q].admitted
      else JobsKept(s, s', q) && !s'.queues[q].worker.Asleep? && TakeRank(s', q) < TakeRank(s, q)
  {
    hide HolderSteps;
    work := match s.queues[q].worker
      case Deciding => LoadDrain
      case SawNoDrain => CheckEmpty
      case Taking => Take
      case Running(_) => Finish
      case Ran(_) => Uncount
      case Uncounted(_) => Release
      case _ => Acquire;
    HolderStepsBounded(ApplyWork(s, q, work), q);
  }

  lemma {:induction false} AwaitMutex(s: State, q: nat) returns (step: Step)
    requires Locks(s) && q < |s.queues| && s.queues[q].lock.Some? && s.queues[q].jobs != []
    requires s.queues[q].worker.Starting? || s.queues[q].worker.Woken?
    ensures Enabled(s, step) && Inside(step) && !step.Working? && JobsKept(s, Apply(s, step), q)
    ensures Apply(s, step).queues[q].worker == s.queues[q].worker && TakeRank(Apply(s, step), q) < TakeRank(s, q)
  {
    assert LockOk(s, q);
    hide Locks, LockOk, ApplySubmit, ApplyClose;
    match s.queues[q].lock
    case Some(BySubmitter(t)) => step := SubmitterReleases(s, q, t);
    case Some(ByCloser(d)) => step := CloserReleases(s, q, d);
  }

  /** A worker asleep at a nonempty queue is about to be notified. */
  lemma {:induction false} WakeSleeper(s: State, q: nat, t: nat) returns (steps: seq<Step>)
    requires Inv(s) && q < |s.queues| && s.queues[q].jobs != [] && s.queues[q].worker.Asleep?
    requires t in s.submitters && NotifyComing(s, t, q)
    ensures ValidRun(s, steps) && forall i :: 0 <= i < |steps| ==> HelpsRun(steps[i], q)
    ensures Inv(Exec(s, steps)) && JobsKept(s, Exec(s, steps), q) && Exec(s, steps).queues[q].worker.Woken?
    decreases SubmitRank(s, t)
  {
    hide Inv, Enabled, Apply, NotifyComing, SubmitRank, HelpsRun, ValidRun, Exec;
    var step := NotifyStep(s, q, t);
    StepInv(s, step);
    var rest;
    if step.submit.Notify? { rest := Stay(Apply(s, step)); } else { rest := WakeSleeper(Apply(s, step), q, t); }
    steps := Chain(s, step, Apply(s, step), rest);
  }

  lemma {:induction false} NotifyStep(s: State, q: nat, t: nat) returns (step: Step)
    requires q < |s.queues| && s.queues[q].jobs != [] && s.queues[q].worker.Asleep? && NotifyComing(s, t, q)
    ensures Enabled(s, step) && HelpsRun(step, q) && step.Submitting? && JobsKept(s, Apply(s, step), q)
    ensures
      var s' := Apply(s, step);
      if step.submit.Notify? then s'.queues[q].worker.Woken?
      else s'.queues[q].worker.Asleep? && NotifyComing(s', t, q) && SubmitRank(s', t) < SubmitRank(s, t)
  {
    hide SubmitCalls;
    var submit := if s.submitters[t].Counting? then Count else if s.submitters[t].Unlocking? then Unlock else Notify;
    step := Submitting(t, submit);
  }

  lemma {:induction false} TakeAwake(s: State, q: nat) returns (steps: seq<Step>)
    requires Inv(s) && q < |s.queues| && s.queues[q].jobs != [] && !s.queues[q].worker.Asleep?
    ensures ValidRun(s, steps) && forall i :: 0 <= i < |steps| ==> HelpsRun(steps[i], q)
    ensures Inv(Exec(s, steps)) && Taken(s, Exec(s, steps), q)
    decreases TakeRank(s, q)
  {
    hide Inv, Enabled, Apply, TakeRank, HelpsRun, ValidRun, Exec;
    var step := NextTakeStep(s, q);
    StepInv(s, step);
    var rest;
    if step == Working(q, Take) { rest := Stay(Apply(s, step)); } else { rest := TakeAwake(Apply(s, step), q); }
    steps := Chain(s, step, Apply(s, step), rest);
  }

  /** Exactly the next job was taken. */
  ghost predicate Taken(s: State, s': State, q: nat) {
    && q < |s.queues| && |s'.queues| == |s.queues| && |s.queues[q].admitted| <= |s'.queues[q].admitted|
    && s'.queues[q].started == s.queues[q].started + 1
  }

  /** No job waits for a lost wakeup: from every reachable state, the worker of a nonempty queue takes its
      next job, helped only by pending notifications and by threads that leave critical sections. */
  lemma {:induction false} NextJobIsTaken(s: State, q: nat) returns (steps: seq<Step>)
    requires Inv(s) && q < |s.queues| && s.queues[q].jobs != []
    ensures ValidRun(s, steps) && forall i :: 0 <= i < |steps| ==> HelpsRun(steps[i], q)
    ensures Inv(Exec(s, steps)) && Taken(s, Exec(s, steps), q)
  {
    if s.queues[q].worker.Asleep? {
      assert WorkerOk(s, q);
      var t :| NotifyComing(s, t, q);
      var first := WakeSleeper(s, q, t);
      hide Inv, HelpsRun, ValidRun, Exec;
      var rest := TakeAwake(Exec(s, first), q);
      RunsJoin(s, first, rest);
      steps := first + rest;
    } else {
      steps := TakeAwake(s, q);
    }
  }

  /** Every admitted job gets its turn: from every reachable state, with or without a drain, a run leads to
      its start. */
  lemma {:induction false} AdmittedJobRuns(s: State, q: nat, i: nat) returns (steps: seq<Step>)
    requires Inv(s) && q < |s.queues| && i < |s.queues[q].admitted|
    ensures ValidRun(s, steps) && forall k :: 0 <= k < |steps| ==> HelpsRun(steps[k], q)
    ensures Inv(Exec(s, steps)) && |Exec(s, steps).queues| == |s.queues| && i < Exec(s, steps).queues[q].started
    decreases i - s.queues[q].started
  {
    if i < s.queues[q].started {
      steps := Stay(s);
    } else {
      assert BooksOk(s, q);
      var first := NextJobIsTaken(s, q);
      hide Inv, HelpsRun, ValidRun, Exec;
      var rest := AdmittedJobRuns(Exec(s, first), q, i);
      RunsJoin(s, first, rest);
      steps := first + rest;
    }
  }

  // ----- Closing finishes

  predicate InClose(pc: Closer) {
    pc.Storing? || pc.Barrier? || pc.BarrierHeld?
  }

  function CloseLeft(n: nat, pc: Closer): int {
    match pc
    case Storing => 2 * n + 3
    case Barrier(i) => 2 * (n - i) + 2
    case BarrierHeld(i) => 2 * (n - i) + 1
    case _ => 0
  }

  function BarrierWait(s: State, c: nat): nat
    requires c in s.closers
  {
    var pc := s.closers[c];
    if pc.Barrier? && pc.i < |s.queues| then HolderSteps(s, pc.i) else 0
  }

  lemma {:induction false} NextCloseStep(s: State, c: nat) returns (step: Step)
    requires Inv(s) && c in s.closers && InClose(s.closers[c])
    ensures Enabled(s, step) && ((step.Closing? && step.c == c) || Inside(step))
    ensures
      var s' := Apply(s, step);
      && c in s'.closers && |s'.queues| == |s.queues| && 0 <= CloseLeft(|s.queues|, s.closers[c])
      && (InClose(s'.closers[c]) || s'.closers[c].Closed?)
      && (|| CloseLeft(|s.queues|, s'.closers[c]) < CloseLeft(|s.queues|, s.closers[c])
          || (s'.closers[c] == s.closers[c] && BarrierWait(s', c) < BarrierWait(s, c)))
  {
    var pc := s.closers[c];
    assert CloserInRange(|s.queues|, pc) && Locks(s);
    if pc.Barrier? && pc.i < |s.queues| && s.queues[pc.i].lock.Some? {
      assert WorkerOk(s, pc.i) && LockOk(s, pc.i);
      hide Inv, Locks, LockOk;
      step := HolderReleases(s, pc.i);
      hide HolderSteps;
      InsideKeepsCloser(s, c, step);
    } else {
      hide Inv, Locks, HolderSteps, CloseQueue;
      step := Closing(c, if pc.Storing? then Store
                         else if pc.BarrierHeld? then UnlockBarrier
                         else if pc.i == |s.queues| then ReturnClosed
                         else LockBarrier);
    }
  }

  lemma {:induction false} InsideKeepsCloser(s: State, c: nat, step: Step)
    requires c in s.closers && s.closers[c].Barrier? && Enabled(s, step) && Inside(step)
    ensures c in Apply(s, step).closers && Apply(s, step).closers[c] == s.closers[c]
  {
    hide NextSubmitter, SubmitQueue, SubmitCalls, WorkQueue, CloseQueue, CanWork;
  }

  /** `CloseSubmissions` returns from every reachable state, waiting for nobody but threads inside
      critical sections. */
  lemma {:induction false} CloseFinishes(s: State, c: nat) returns (steps: seq<Step>)
    requires Inv(s) && c in s.closers && InClose(s.closers[c])
    ensures ValidRun(s, steps)
    ensures forall i :: 0 <= i < |steps| ==> (steps[i].Closing? && steps[i].c == c) || Inside(steps[i])
    ensures Inv(Exec(s, steps)) && c in Exec(s, steps).closers && Exec(s, steps).closers[c].Closed?
    decreases CloseLeft(|s.queues|, s.closers[c]), BarrierWait(s, c)
  {
    hide Inv, Enabled, Apply, ValidRun, Exec, CloseLeft, BarrierWait, Inside;
    var step := NextCloseStep(s, c);
    StepInv(s, step);
    var s' := Apply(s, step);
    var rest;
    if s'.closers[c].Closed? { rest := Stay(s'); } else { rest := CloseFinishes(s', c); }
    steps := Chain(s, step, s', rest);
  }

  // ----- A drain finishes

  /** Work left for the worker of a queue until it exits, once the drain was requested. */
  function WorkLeft(s: State, q: nat): nat
    requires q < |s.queues|
  {
    var jobs := 10 * |s.queues[q].jobs|;
    match s.queues[q].worker
    case Deciding => jobs + 4
    case Taking => jobs + 3
    case Running(_) => jobs + 12
    case Ran(_) => jobs + 11
    case Uncounted(_) => jobs + 10
    case Exited => 0
    case _ => jobs + 5 + HolderSteps(s, q)
  }

  /** How far the draining thread is from the end. */
  function DrainLeft(n: nat, pc: Closer): int {
    match pc
    case Waking(i) => 2 * (n - i) + n + 3
    case WakingHeld(i) => 2 * (n - i) + n + 2
    case Joining(i) => n - i + 1
    case _ => 0
  }

  /** What the draining thread waits for at its current queue. */
  function WaitLeft(s: State, c: nat): nat
    requires c in s.closers
  {
    match s.closers[c]
    case Waking(i) => if i < |s.queues| then HolderSteps(s, i) else 0
    case Joining(i) => if i < |s.queues| then WorkLeft(s, i) else 0
    case _ => 0
  }

  /** Steps of the draining thread itself, of workers, and of threads inside a critical section. */
  predicate HelpsDrain(step: Step, c: nat) {
    match step
    case Submitting(_, submit) =>
      submit.Recheck? || submit.Rollback? || submit.Leave? || submit.Count? || submit.Unlock?
    case Working(_, _) => true
    case Closing(d, close) => d == c || close.UnlockBarrier?
  }

  ghost predicate Draining(s: State, c: nat) {
    Inv(s) && c in s.closers && InDrain(s.closers[c])
  }

  /** What every thread knows once a thread is in the drain phase. */
  lemma {:induction false} DrainingMeans(s: State, c: nat)
    requires Draining(s, c)
    ensures s.drain && s.winner == Some(c) && !s.accepting && NoneAdmitting(s, |s.queues|)
    ensures CloserInRange(|s.queues|, s.closers[c])
    ensures forall q :: 0 <= q < |s.queues| ==> LockOk(s, q) && WorkerOk(s, q)
  {
    assert PastStore(s.closers[c]);
  }

  /** No lost wakeup and progress: while a thread waits in its joins, the worker it waits for is not
      asleep, and that worker, or the thread inside its queue's critical section, can take a step
      that leaves less to be done before the worker exits. */
  lemma {:induction false} JoinIsNeverStuck(s: State, c: nat) returns (step: Step)
    requires Inv(s) && c in s.closers && s.closers[c].Joining? && s.closers[c].i < |s.queues|
    requires !s.queues[s.closers[c].i].worker.Exited?
    ensures !s.queues[s.closers[c].i].worker.Asleep?
    ensures Enabled(s, step) && HelpsDrain(step, c) && Apply(s, step).closers[c] == s.closers[c]
    ensures WorkLeft(Apply(s, step), s.closers[c].i) < WorkLeft(s, s.closers[c].i)
  {
    var q := s.closers[c].i;
    DrainingMeans(s, c);
    assert LockOk(s, q) && WorkerOk(s, q) && !WakeupComing(s, q);
    if s.queues[q].worker.Starting? || s.queues[q].worker.Woken? {
      step := LockWaitEnds(s, c, q);
    } else {
      hide Inv, LockOk;
      var work := match s.queues[q].worker
        case Deciding => LoadDrain
        case Taking => Take
        case Running(_) => Finish
        case Ran(_) => Uncount
        case _ => Release;
      step := Working(q, work);
      ReleaseLeavesLess(s, c, q, work);
    }
  }

  lemma {:induction false} ReleaseLeavesLess(s: State, c: nat, q: nat, work: WorkStep)
    requires Draining(s, c) && q < |s.queues| && CanWork(s, q, work) && !work.Acquire?
    requires !work.Spurious? && !work.CheckEmpty?
    ensures WorkLeft(ApplyWork(s, q, work), q) < WorkLeft(s, q)
  {
    DrainingMeans(s, c);
    hide Inv, LockOk, WorkerOk;
  }

  /** During a drain, whoever else holds a mutex can step towards its release and adds no job. */
  lemma {:induction false} OtherReleases(s: State, c: nat, q: nat) returns (step: Step)
    requires Draining(s, c) && q < |s.queues| && s.queues[q].lock.Some?
    requires s.queues[q].lock != Some(ByWorker) && s.queues[q].lock != Some(ByCloser(c))
    ensures Enabled(s, step) && HelpsDrain(step, c) && HolderSteps(Apply(s, step), q) < HolderSteps(s, q)
    ensures Apply(s, step).queues[q].jobs == s.queues[q].jobs && Apply(s, step).queues[q].worker == s.queues[q].worker
    ensures Apply(s, step).closers[c] == s.closers[c]
  {
    DrainingMeans(s, c);
    match s.queues[q].lock
    case Some(BySubmitter(t)) =>
      step := SubmitterReleases(s, q, t);
      assert LockOk(s, q) && SubmitterHolds(s.submitters[t], q);
    case Some(ByCloser(d)) =>
      step := CloserReleases(s, q, d);
  }

  lemma {:induction false} LockWaitEnds(s: State, c: nat, q: nat) returns (step: Step)
    requires Draining(s, c) && s.closers[c].Joining? && q < |s.queues|
    requires s.queues[q].worker.Starting? || s.queues[q].worker.Woken?
    ensures Enabled(s, step) && HelpsDrain(step, c) && Apply(s, step).closers[c] == s.closers[c]
    ensures WorkLeft(Apply(s, step), q) < WorkLeft(s, q)
  {
    DrainingMeans(s, c);
    assert LockOk(s, q);
    hide Inv, WorkerOk;
    if s.queues[q].lock.None? { step := Working(q, Acquire); } else { step := OtherReleases(s, c, q); }
  }

  lemma {:induction false} WakeLockWaitEnds(s: State, c: nat) returns (step: Step)
    requires Draining(s, c) && s.closers[c].Waking? && s.closers[c].i < |s.queues|
    requires s.queues[s.closers[c].i].lock.Some?
    ensures Enabled(s, step) && HelpsDrain(step, c) && Apply(s, step).closers[c] == s.closers[c]
    ensures HolderSteps(Apply(s, step), s.closers[c].i) < HolderSteps(s, s.closers[c].i)
  {
    var q := s.closers[c].i;
    DrainingMeans(s, c);
    assert LockOk(s, q);
    if s.queues[q].lock == Some(ByWorker) { step := WorkerReleases(s, q); } else { step := OtherReleases(s, c, q); }
  }

  lemma {:induction false} NextDrainStep(s: State, c: nat) returns (step: Step)
    requires Draining(s, c) && !s.closers[c].Joined?
    ensures Enabled(s, step) && HelpsDrain(step, c)
    ensures 0 <= DrainLeft(|s.queues|, s.closers[c]) && InDrain(Apply(s, step).closers[c])
    ensures
      var s' := Apply(s, step);
      || DrainLeft(|s.queues|, s'.closers[c]) < DrainLeft(|s.queues|, s.closers[c])
      || (s'.closers[c] == s.closers[c] && WaitLeft(s', c) < WaitLeft(s, c))
  {
    DrainingMeans(s, c);
    hide LockOk, WorkerOk, Inv, CloseQueue, HolderSteps, WorkLeft;
    var n := |s.queues|;
    match s.closers[c]
    case WakingHeld(i) => step := Closing(c, NotifyWaking);
    case Waking(i) =>
      if i == n {
        step := Closing(c, AllWoken);
      } else if s.queues[i].lock.None? {
        step := Closing(c, LockWaking);
      } else {
        step := WakeLockWaitEnds(s, c);
      }
    case Joining(i) =>
      if i == n {
        step := Closing(c, Done);
      } else if s.queues[i].worker.Exited? {
        step := Closing(c, Join);
      } else {
        step := JoinIsNeverStuck(s, c);
      }
  }

  /** From any reachable state in which a thread is draining, that thread, the workers and the threads
      inside critical sections alone bring `DrainAndJoin` to its end. */
  lemma {:induction false} DrainFinishes(s: State, c: nat) returns (steps: seq<Step>)
    requires Draining(s, c)
    ensures ValidRun(s, steps) && (forall i :: 0 <= i < |steps| ==> HelpsDrain(steps[i], c))
    ensures c in Exec(s, steps).closers && Exec(s, steps).closers[c].Joined? && Inv(Exec(s, steps))
    decreases DrainLeft(|s.queues|, s.closers[c]), WaitLeft(s, c)
  {
    hide Inv, Enabled, HelpsDrain, DrainLeft, WaitLeft, ApplySubmit, ApplyWork, ApplyClose;
    if s.closers[c].Joined? { return []; }
    var step := NextDrainStep(s, c);
    StepInv(s, step);
    var rest := DrainFinishes(Apply(s, step), c);
    steps := [step] + rest;
    assert steps[1..] == rest;
  }

  // ----- The global counter after a drain

  lemma {:induction false} SelectingStays(s: State, steps: seq<Step>, c: nat, t: nat)
    requires ValidRun(s, steps) && (forall i :: 0 <= i < |steps| ==> HelpsDrain(steps[i], c))
    requires t in s.submitters && s.submitters[t].Selecting?
    ensures t in Exec(s, steps).submitters && Exec(s, steps).submitters[t] == s.submitters[t]
    decreases |steps|
  {
    hide NextSubmitter, SubmitQueue, WorkQueue, CloseQueue, NextCloser, CanWork, CanClose;
    if steps != [] {
      assert HelpsDrain(steps[0], c);
      SelectingStays(Apply(s, steps[0]), steps[1..], c, t);
    }
  }

  /** After `DrainAndJoin` the global counter may be positive: a submitter that has reserved and not yet
      looked at its queue is still to roll back. */
  lemma {:induction false} PendingAfterJoin(max: nat) returns (steps: seq<Step>)
    requires 1 <= max
    ensures ValidRun(Init(1, max, {0}, {0}), steps)
    ensures
      var s := Exec(Init(1, max, {0}, {0}), steps);
      0 in s.closers && s.closers[0].Joined? && s.pending > 0
  {
    var start := Init(1, max, {0}, {0});
    var first, s := ReserveThenDrain(max);
    InitInv(1, max, {0}, {0});
    RunInv(start, first);
    var rest := DrainFinishes(s, 0);
    SelectingStays(s, rest, 0, 0);
    hide Inv, Enabled, Apply, HelpsDrain, Init;
    RunsJoin(start, first, rest);
    steps := first + rest;
    JoinedMeansDrained(Exec(s, rest), 0);
  }

  lemma {:induction false} ReserveThenDrain(max: nat) returns (steps: seq<Step>, s: State)
    requires 1 <= max
    ensures ValidRun(Init(1, max, {0}, {0}), steps) && Exec(Init(1, max, {0}, {0}), steps) == s
    ensures 0 in s.closers && s.closers[0] == Waking(0) && 0 in s.submitters && s.submitters[0] == Selecting(1)
  {
    var start := Init(1, max, {0}, {0});
    var first, middle := ReserveOne(start, 0);
    var last;
    last, s := CloseThenExchange(middle, 0);
    steps := first + last;
    hide Enabled, Apply, Init;
    RunsJoin(start, first, last);
  }

  lemma {:induction false} ReserveOne(s: State, t: nat) returns (steps: seq<Step>, s': State)
    requires t in s.submitters && s.submitters[t].Outside? && s.accepting && s.pending < s.max
    ensures ValidRun(s, steps) && Exec(s, steps) == s'
    ensures s' == s.(pending := s.pending + 1, submitters := s'.submitters, calls := s'.calls)
    ensures t in s'.submitters && s'.submitters[t] == Selecting(1)
  {
    hide ValidRun, Exec, SubmitCalls;
    var s1 := Apply(s, Submitting(t, Begin(1)));
    var s2 := Apply(s1, Submitting(t, Gate));
    steps, s' := LoadThenCas(s2, t);
    steps := Chain(s1, Submitting(t, Gate), s2, steps);
    steps := Chain(s, Submitting(t, Begin(1)), s1, steps);
  }

  lemma {:induction false} LoadThenCas(s: State, t: nat) returns (steps: seq<Step>, s': State)
    requires t in s.submitters && s.submitters[t] == Loading(1) && s.pending < s.max
    ensures ValidRun(s, steps) && Exec(s, steps) == s'
    ensures s' == s.(pending := s.pending + 1, submitters := s'.submitters, calls := s'.calls)
    ensures t in s'.submitters && s'.submitters[t] == Selecting(1)
  {
    hide ValidRun, Exec, SubmitCalls;
    var s1 := Apply(s, Submitting(t, Load));
    s' := Apply(s1, Submitting(t, Cas));
    steps := Stay(s');
    steps := Chain(s1, Submitting(t, Cas), s', steps);
    steps := Chain(s, Submitting(t, Load), s1, steps);
  }

  lemma {:induction false} CloseThenExchange(s: State, c: nat) returns (steps: seq<Step>, s': State)
    requires c in s.closers && s.closers[c].Away? && !s.drain && |s.queues| == 1 && s.queues[0].lock.None?
    ensures ValidRun(s, steps) && Exec(s, steps) == s'
    ensures s'.submitters == s.submitters && c in s'.closers && s'.closers[c] == Waking(0)
  {
    hide ValidRun, Exec;
    var s1 := s.(closers := s.closers[c := Storing]);
    var s2 := s1.(accepting := false, closers := s1.closers[c := Barrier(0)]);
    steps, s' := PassOnlyQueue(s2, c);
    steps := Chain(s1, Closing(c, Store), s2, steps);
    steps := Chain(s, Closing(c, BeginClose), s1, steps);
  }

  lemma {:induction false} PassOnlyQueue(s: State, c: nat) returns (steps: seq<Step>, s': State)
    requires c in s.closers && s.closers[c] == Barrier(0) && !s.drain && |s.queues| == 1 && s.queues[0].lock.None?
    ensures ValidRun(s, steps) && Exec(s, steps) == s'
    ensures s'.submitters == s.submitters && c in s'.closers && s'.closers[c] == Waking(0)
  {
    hide ValidRun, Exec;
    var held := s.queues[0].(lock := Some(ByCloser(c)));
    var s1 := s.(closers := s.closers[c := BarrierHeld(0)], queues := s.queues[0 := held]);
    var s2 := s1.(closers := s1.closers[c := Barrier(1)], queues := s1.queues[0 := held.(lock := None)]);
    var s3 := s2.(closers := s2.closers[c := Closed]);
    s' := s3.(closers := s3.closers[c := Waking(0)], drain := true, winner := Some(c));
    steps := Stay(s');
    steps := Chain(s3, Closing(c, Exchange), s', steps);
    steps := Chain(s2, Closing(c, ReturnClosed), s3, steps);
    steps := Chain(s1, Closing(c, UnlockBarrier), s2, steps);
    steps := Chain(s, Closing(c, LockBarrier), s1, steps);
  }

  lemma {:induction false} Stay(s: State) returns (steps: seq<Step>)
    ensures steps == [] && ValidRun(s, steps) && Exec(s, steps) == s
  {
    steps := [];
  }

  lemma {:induction false} Chain(s: State, step: Step, s': State, rest: seq<Step>) returns (steps: seq<Step>)
    requires Enabled(s, step) && Apply(s, step) == s' && ValidRun(s', rest)
    ensures steps == [step] + rest && ValidRun(s, steps) && Exec(s, steps) == Exec(s', rest)
  {
    steps := [step] + rest;
    assert steps[1..] == rest;
  }

  lemma {:induction false} RunsJoin(s: State, a: seq<Step>, b: seq<Step>)
    requires ValidRun(s, a) && ValidRun(Exec(s, a), b)
    ensures ValidRun(s, a + b) && Exec(s, a + b) == Exec(Exec(s, a), b)
    decreases |a|
  {
    hide Enabled, Apply;
    if a == [] {
      assert a + b == b;
    } else {
      assert (a + b)[1..] == a[1..] + b;
      RunsJoin(Apply(s, a[0]), a[1..], b);
    }
  }

  // ----- Worker selection

  /** `SelectWorkerQueue`: `loads[i]` is what the probe of queue `i` reads from its pending counter.
      The choice is a least-loaded queue, the first such in round-robin order from `ticket`. */
  method SelectWorkerQueue(loads: seq<nat>, ticket: nat) returns (selected: nat)
    requires |loads| > 0
    ensures selected < |loads|
    ensures forall i :: 0 <= i < |loads| ==> loads[selected] <= loads[i]
    ensures forall k: nat :: k < |loads| && Cyclic(ticket, |loads|, k) == selected ==>
      forall j: nat :: j < k ==> loads[selected] < loads[Cyclic(ticket, |loads|, j)]
  {
    var count := |loads|;
    selected := Cyclic(ticket, count, 0);
    var pending := loads[selected];
    var offset := 1;
    ghost var best := 0;
    while offset < count && pending > 0
      invariant 1 <= offset <= count && 0 <= best < offset
      invariant selected < count && selected == Cyclic(ticket, count, best) && pending == loads[selected]
      invariant forall o: nat :: o < offset ==> pending <= loads[Cyclic(ticket, count, o)]
      invariant forall o: nat :: o < best ==> pending < loads[Cyclic(ticket, count, o)]
    {
      var candidate := Cyclic(ticket, count, offset);
      if loads[candidate] < pending {
        selected, pending, best := candidate, loads[candidate], offset;
      }
      offset := offset + 1;
    }
    forall i | 0 <= i < count ensures pending <= loads[i] {
      var k := CyclicReaches(ticket, count, i);
    }
    forall k: nat | k < count && Cyclic(ticket, count, k) == selected ensures k == best {
      CyclicDistinct(ticket, count, k, best);
    }
  }
}
