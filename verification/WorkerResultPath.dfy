/**
 The return path of worker results, src/server/connection_io_loop.cpp lines 190-244: any number of
 workers run `PostWorkerResult`, the I/O thread runs posted callbacks in order, and the "drain
 scheduled" flag decides who posts a drain.  The queue steps are those of module MpscQueue.

 A result is named by its token, the number of results posted before it.  Steps are sequentially
 consistent, so the clear of the flag takes effect before the re-check reads the queue.
 */
module WorkerResultPath {
  import Q = MpscQueue

  const MAX_WORKER_RESULTS_PER_DRAIN: nat := 256

  /** A callback posted to the I/O thread; `Control` stands for every other kind. */
  datatype Callback = Drain | Overflow(k: nat) | Control

  /** A worker inside `PostWorkerResult` / `ScheduleWorkerResultDrain`. */
  datatype Producer =
    | Idle
    | Pushing(k: nat)
    | Exchanging
    | PostingDrain
    | PostingOverflow(k: nat)

  /** The I/O thread; all but the first two are positions inside `DrainWorkerResults`. */
  datatype Io =
    | Waiting
    | HandlingOverflow(k: nat)
    | Inner(drained: nat)
    | InnerPop(drained: nat)
    | InnerHandle(drained: nat, k: nat)
    | AfterInner(drained: nat)
    | Recheck
    | RecheckPop
    | Reclaiming(k: nat)
    | Rehandling(k: nat)

  datatype State = State(
    q: Q.System<nat>,
    flag: bool,
    callbacks: seq<Callback>,
    producers: map<nat, Producer>,
    io: Io,
    author: seq<nat>,        // author[k] is the worker that posted token k
    overflowed: seq<nat>,    // tokens posted as overflow callbacks, in posting order
    viaQueue: seq<nat>,      // tokens handled from the queue, in handling order
    viaOverflow: seq<nat>,   // tokens handled from overflow callbacks, in handling order
    scheduled: nat,          // how often a worker undertook to post a drain
    cleared: nat)            // how often the flag was cleared

  datatype Step =
    | Queue(step: Q.Step<nat>)
    | PostBegin(t: nat)
    | PushDone(t: nat)
    | Exchange(t: nat)
    | PostDrain(t: nat)
    | PostOverflow(t: nat)
    | PostControl
    | IoTake
    | IoHandleOverflow
    | IoInner
    | IoPopped
    | IoHandle
    | IoAfter
    | IoRecheck
    | IoRechecked
    | IoReclaim
    | IoRehandle

  function Init(capacity: nat, workers: set<nat>): State {
    State(Q.Init(capacity, workers, 0), false, [], map t | t in workers :: Idle, Waiting, [], [], [], [], 0, 0)
  }

  /** Queue steps that happen strictly inside a TryPush or TryPop call. */
  predicate Internal(step: Q.Step<nat>) {
    !step.PushBegin? && !step.PushReturn? && !step.PopBegin? && !step.PopReturn?
  }

  predicate Enabled(s: State, step: Step) {
    match step
    case Queue(qs) => Internal(qs) && Q.Enabled(s.q, qs)
    case PostBegin(t) => t in s.producers && s.producers[t].Idle? && Q.Enabled(s.q, Q.PushBegin(t, |s.author|))
    case PushDone(t) => t in s.producers && s.producers[t].Pushing? && Q.Enabled(s.q, Q.PushReturn(t))
    case Exchange(t) => t in s.producers && s.producers[t].Exchanging?
    case PostDrain(t) => t in s.producers && s.producers[t].PostingDrain?
    case PostOverflow(t) => t in s.producers && s.producers[t].PostingOverflow?
    case PostControl => true
    case IoTake => s.io.Waiting? && s.callbacks != []
    case IoHandleOverflow => s.io.HandlingOverflow?
    case IoInner => s.io.Inner? && Q.Enabled(s.q, Q.PopBegin)
    case IoPopped => s.io.InnerPop? && Q.Enabled(s.q, Q.PopReturn)
    case IoHandle => s.io.InnerHandle?
    case IoAfter => s.io.AfterInner?
    case IoRecheck => s.io.Recheck? && Q.Enabled(s.q, Q.PopBegin)
    case IoRechecked => s.io.RecheckPop? && Q.Enabled(s.q, Q.PopReturn)
    case IoReclaim => s.io.Reclaiming?
    case IoRehandle => s.io.Rehandling?
  }

  function Apply(s: State, step: Step): State
    requires Enabled(s, step)
  {
    match step
    case Queue(qs) => s.(q := Q.Apply(s.q, qs))
    case PostBegin(t) =>
      var k := |s.author|;
      s.(q := Q.Apply(s.q, Q.PushBegin(t, k)), producers := s.producers[t := Pushing(k)], author := s.author + [t])
    case PushDone(t) =>
      var pc := if s.q.pushers[t].pushed then Exchanging else PostingOverflow(s.producers[t].k);
      s.(q := Q.Apply(s.q, Q.PushReturn(t)), producers := s.producers[t := pc])
    case Exchange(t) =>
      var pc := if s.flag then Idle else PostingDrain;
      s.(flag := true, producers := s.producers[t := pc], scheduled := s.scheduled + if pc.PostingDrain? then 1 else 0)
    case PostDrain(t) => s.(callbacks := s.callbacks + [Drain], producers := s.producers[t := Idle])
    case PostOverflow(t) =>
      var k := s.producers[t].k;
      s.(callbacks := s.callbacks + [Overflow(k)], overflowed := s.overflowed + [k],
         producers := s.producers[t := Idle])
    case PostControl => s.(callbacks := s.callbacks + [Control])
    case IoTake =>
      s.(callbacks := s.callbacks[1..],
         io := match s.callbacks[0]
               case Drain => Inner(0)
               case Overflow(k) => HandlingOverflow(k)
               case Control => Waiting)
    case IoHandleOverflow => s.(viaOverflow := s.viaOverflow + [s.io.k], io := Waiting)
    case IoInner =>
      if s.io.drained < MAX_WORKER_RESULTS_PER_DRAIN
      then s.(q := Q.Apply(s.q, Q.PopBegin), io := InnerPop(s.io.drained))
      else s.(io := AfterInner(s.io.drained))
    case IoPopped =>
      var pc := if s.q.popper.got then InnerHandle(s.io.drained, s.q.popper.v) else AfterInner(s.io.drained);
      s.(q := Q.Apply(s.q, Q.PopReturn), io := pc)
    case IoHandle => s.(viaQueue := s.viaQueue + [s.io.k], io := Inner(s.io.drained + 1))
    case IoAfter =>
      if s.io.drained == MAX_WORKER_RESULTS_PER_DRAIN
      then s.(callbacks := s.callbacks + [Drain], io := Waiting)
      else s.(flag := false, io := Recheck, cleared := s.cleared + 1)
    case IoRecheck => s.(q := Q.Apply(s.q, Q.PopBegin), io := RecheckPop)
    case IoRechecked =>
      s.(q := Q.Apply(s.q, Q.PopReturn), io := if s.q.popper.got then Reclaiming(s.q.popper.v) else Waiting)
    case IoReclaim => s.(flag := true, io := Rehandling(s.io.k))
    case IoRehandle => s.(viaQueue := s.viaQueue + [s.io.k], io := Inner(0))
  }

  predicate ValidRun(s: State, steps: seq<Step>)
    decreases |steps|
  {
    steps == [] || (Enabled(s, steps[0]) && ValidRun(Apply(s, steps[0]), steps[1..]))
  }

  function Exec(s: State, steps: seq<Step>): State
    requires ValidRun(s, steps)
    decreases |steps|
  {
    if steps == [] then s else Exec(Apply(s, steps[0]), steps[1..])
  }

  // ----- The queue is used as its contract demands

  /** The call state of the queue agrees with who is inside TryPush and TryPop. */
  ghost predicate Calls(s: State) {
    && s.producers.Keys == s.q.pushers.Keys
    && (forall t :: t in s.producers ==> (s.producers[t].Pushing? <==> !s.q.pushers[t].Idle?))
    && (forall t :: t in s.producers && s.producers[t].Pushing? ==> s.q.pushers[t].v == s.producers[t].k)
    && ((s.io.InnerPop? || s.io.RecheckPop?) <==> !s.q.popper.Resting?)
    && (s.io.Inner? || s.io.AfterInner? ==> s.io.drained <= MAX_WORKER_RESULTS_PER_DRAIN)
    && (s.io.InnerPop? || s.io.InnerHandle? ==> s.io.drained < MAX_WORKER_RESULTS_PER_DRAIN)
  }

  ghost predicate Linked(s: State) {
    Q.Inv(s.q) && Calls(s)
  }

  /** Steps inside a call begin or end no call and keep the value being pushed. */
  lemma {:induction false} InternalKeepsCalls(q: Q.System<nat>, qs: Q.Step<nat>)
    requires Internal(qs) && Q.Enabled(q, qs)
    ensures
      var q' := Q.Apply(q, qs);
      && q'.pushers.Keys == q.pushers.Keys && (q'.popper.Resting? <==> q.popper.Resting?)
      && (forall t :: t in q.pushers ==> (q'.pushers[t].Idle? <==> q.pushers[t].Idle?))
      && (forall t :: t in q.pushers && !q.pushers[t].Idle? ==> q'.pushers[t].v == q.pushers[t].v)
  {
  }

  lemma {:induction false} CallsStep(s: State, step: Step)
    requires Calls(s) && Enabled(s, step)
    ensures Calls(Apply(s, step))
  {
    hide Apply, Calls;
    if step.Queue? { CallsInternalStep(s, step.step); } else { CallsOtherStep(s, step); }
  }

  lemma {:induction false} CallsInternalStep(s: State, qs: Q.Step<nat>)
    requires Calls(s) && Enabled(s, Queue(qs))
    ensures Calls(Apply(s, Queue(qs)))
  {
    hide Q.Apply;
    InternalKeepsCalls(s.q, qs);
  }

  lemma {:induction false} CallsOtherStep(s: State, step: Step)
    requires Calls(s) && Enabled(s, step) && !step.Queue?
    ensures Calls(Apply(s, step))
  {
    hide Apply, Calls;
    if IsIo(step) { CallsIoStep(s, step); } else { CallsWorkerStep(s, step); }
  }

  lemma {:induction false} CallsIoStep(s: State, step: Step)
    requires Calls(s) && Enabled(s, step) && !step.Queue? && IsIo(step)
    ensures Calls(Apply(s, step))
  {
  }

  lemma {:induction false} CallsWorkerStep(s: State, step: Step)
    requires Calls(s) && Enabled(s, step) && !step.Queue? && !IsIo(step)
    ensures Calls(Apply(s, step))
  {
  }

  lemma {:induction false} LinkedStep(s: State, step: Step)
    requires Linked(s) && Enabled(s, step)
    ensures Linked(Apply(s, step))
  {
    CallsStep(s, step);
    match step
    case Queue(qs) => Q.StepInv(s.q, qs);
    case PostBegin(t) => Q.StepInv(s.q, Q.PushBegin(t, |s.author|));
    case PushDone(t) => Q.StepInv(s.q, Q.PushReturn(t));
    case IoInner => Q.StepInv(s.q, Q.PopBegin);
    case IoRecheck => Q.StepInv(s.q, Q.PopBegin);
    case IoPopped => Q.StepInv(s.q, Q.PopReturn);
    case IoRechecked => Q.StepInv(s.q, Q.PopReturn);
    case _ =>
  }

  // ----- No published result is stranded

  /** The oldest queued result is published, so a TryPop that starts now would return it. */
  ghost predicate HeadReady(s: State)
    requires Q.Shape(s.q)
  {
    s.q.deq < s.q.enq && Q.SlotOf(s.q, s.q.deq).ready
  }

  /** Inside a drain and before the clear of the flag. */
  predicate BeforeClear(io: Io) {
    io.Inner? || io.InnerPop? || io.InnerHandle? || io.AfterInner? || io.Rehandling?
  }

  /** Inside the re-check, which has not yet read anything that makes it fail. */
  predicate RecheckCanSucceed(s: State) {
    || s.io.Recheck?
    || s.io.Reclaiming?
    || (s.io.RecheckPop? && match s.q.popper
                            case HaveEnqueue(e) => e != s.q.deq
                            case PopReturned(got, _) => got
                            case _ => true)
  }

  /** Worker `t` has published its result and not yet exchanged the flag. */
  predicate Announcing(s: State, t: nat) {
    && t in s.producers
    && (s.producers[t].Exchanging?
        || (s.producers[t].Pushing? && t in s.q.pushers && s.q.pushers[t].Returned? && s.q.pushers[t].pushed))
  }

  predicate AboutToPost(s: State, t: nat) {
    t in s.producers && s.producers[t].PostingDrain?
  }

  /** A set flag means that a drain exists or that a worker is about to post one. */
  ghost predicate FlagMeansDrain(s: State) {
    s.flag ==> Drain in s.callbacks || BeforeClear(s.io) || exists t :: AboutToPost(s, t)
  }

  /** A clear flag with a published head means that someone will still look. */
  ghost predicate ClearMeansWatched(s: State)
    requires Q.Shape(s.q)
  {
    !s.flag && HeadReady(s) ==>
      Drain in s.callbacks || BeforeClear(s.io) || RecheckCanSucceed(s) || exists t :: Announcing(s, t)
  }

  lemma {:induction false} FlagStep(s: State, step: Step)
    requires Linked(s) && FlagMeansDrain(s) && Enabled(s, step)
    ensures FlagMeansDrain(Apply(s, step))
  {
    var s' := Apply(s, step);
    if s'.flag {
      if step.Exchange? && !s.flag {
        assert AboutToPost(s', step.t);
      } else if step.PostDrain? {
        assert Drain == s'.callbacks[|s.callbacks|];
      } else if s.flag && !(Drain in s.callbacks || BeforeClear(s.io)) {
        var t :| AboutToPost(s, t);
        assert AboutToPost(s', t);
      }
    }
  }

  /** Queue steps inside a call: what can make the head ready, and what keeps the re-check promising. */
  lemma {:induction false} WatchedQueueStep(s: State, qs: Q.Step<nat>)
    requires Linked(s) && ClearMeansWatched(s) && Enabled(s, Queue(qs))
    ensures Q.Shape(Q.Apply(s.q, qs)) && ClearMeansWatched(Apply(s, Queue(qs)))
  {
    Q.StepInv(s.q, qs);
    var s' := Apply(s, Queue(qs));
    if !s'.flag && HeadReady(s') && !(Drain in s'.callbacks || BeforeClear(s'.io) || RecheckCanSucceed(s')) {
      if qs.Publish? {
        assert Announcing(s', qs.t);
      } else {
        assert qs.Construct? ==> Q.PusherOk(s.q, qs.t);
        assert HeadReady(s) by { WatchedHeadBefore(s, qs); }
        if RecheckCanSucceed(s) {
          assert false;
        }
        var t :| Announcing(s, t);
        assert Announcing(s', t);
      }
    }
  }

  lemma {:induction false} WatchedHeadBefore(s: State, qs: Q.Step<nat>)
    requires Linked(s) && Enabled(s, Queue(qs)) && !qs.Publish?
    requires Q.Shape(Q.Apply(s.q, qs)) && HeadReady(Apply(s, Queue(qs)))
    requires !BeforeClear(s.io) && !RecheckCanSucceed(Apply(s, Queue(qs)))
    ensures HeadReady(s)
  {
    if qs.Construct? {
      assert Q.PusherOk(s.q, qs.t);
      var p := s.q.pushers[qs.t].p;
      Q.SetSlotFrame(s.q, p, Q.SlotOf(Q.Apply(s.q, qs), p));
    }
    if qs.CasWin? { assert Q.SlotOk(s.q, s.q.deq); }
  }

  lemma {:induction false} WatchedStep(s: State, step: Step)
    requires Linked(s) && ClearMeansWatched(s) && Enabled(s, step)
    ensures Q.Shape(Apply(s, step).q) && ClearMeansWatched(Apply(s, step))
  {
    LinkedStep(s, step);
    hide Apply, ClearMeansWatched, Calls;
    if step.Queue? {
      WatchedQueueStep(s, step.step);
    } else if IsIo(step) {
      WatchedIoStep(s, step);
    } else {
      WatchedWorkerStep(s, step);
    }
  }

  lemma {:induction false} WatchedIoStep(s: State, step: Step)
    requires Linked(s) && ClearMeansWatched(s) && Enabled(s, step) && IsIo(step) && !step.Queue?
    requires Q.Shape(Apply(s, step).q)
    ensures ClearMeansWatched(Apply(s, step))
  {
    var s' := Apply(s, step);
    if !s'.flag && HeadReady(s') && !(Drain in s'.callbacks || BeforeClear(s'.io) || RecheckCanSucceed(s')) {
      assert HeadReady(s);
      var t :| Announcing(s, t);
      assert Announcing(s', t);
    }
  }

  lemma {:induction false} WatchedWorkerStep(s: State, step: Step)
    requires Linked(s) && ClearMeansWatched(s) && Enabled(s, step) && !IsIo(step) && !step.Queue?
    requires Q.Shape(Apply(s, step).q)
    ensures ClearMeansWatched(Apply(s, step))
  {
    var s' := Apply(s, step);
    if !s'.flag && HeadReady(s') && !(Drain in s'.callbacks || BeforeClear(s'.io) || RecheckCanSucceed(s')) {
      assert HeadReady(s);
      var t :| Announcing(s, t);
      assert Announcing(s', t);
    }
  }

  // ----- Every result is handled exactly once

  /** Tokens of the overflow callbacks that still wait, in order. */
  function OverflowsIn(callbacks: seq<Callback>): seq<nat> {
    if callbacks == [] then []
    else (if callbacks[0].Overflow? then [callbacks[0].k] else []) + OverflowsIn(callbacks[1..])
  }

  lemma {:induction false} OverflowsInAppend(callbacks: seq<Callback>, c: Callback)
    ensures OverflowsIn(callbacks + [c]) == OverflowsIn(callbacks) + if c.Overflow? then [c.k] else []
  {
    if callbacks == [] {
      assert callbacks + [c] == [c];
    } else {
      var all := callbacks + [c];
      assert all[1..] == callbacks[1..] + [c] && all[0] == callbacks[0];
      OverflowsInAppend(callbacks[1..], c);
      assert OverflowsIn(all) == (if all[0].Overflow? then [all[0].k] else []) + OverflowsIn(all[1..]);
    }
  }

  /** The token popped from the queue that the I/O thread has not handled yet. */
  function InHand(s: State): seq<nat> {
    match s.io
    case InnerPop(_) => if s.q.popper.PopReturned? && s.q.popper.got then [s.q.popper.v] else []
    case RecheckPop => if s.q.popper.PopReturned? && s.q.popper.got then [s.q.popper.v] else []
    case InnerHandle(_, k) => [k]
    case Reclaiming(k) => [k]
    case Rehandling(k) => [k]
    case _ => []
  }

  function OverflowInHand(io: Io): seq<nat> {
    if io.HandlingOverflow? then [io.k] else []
  }

  /** Both handling logs follow their channel's order, with nothing lost in between. */
  ghost predicate QueueDelivered(s: State) {
    s.viaQueue + InHand(s) == s.q.popped
  }

  ghost predicate OverflowDelivered(s: State) {
    s.viaOverflow + OverflowInHand(s.io) + OverflowsIn(s.callbacks) == s.overflowed
  }

  lemma {:induction false} QueueDeliveredStep(s: State, step: Step)
    requires Calls(s) && QueueDelivered(s) && Enabled(s, step)
    ensures QueueDelivered(Apply(s, step))
  {
    hide Apply, Calls, QueueDelivered;
    if step.Queue? { DeliveredInside(s, step.step); } else { DeliveredOutside(s, step); }
  }

  lemma {:induction false} DeliveredInside(s: State, qs: Q.Step<nat>)
    requires Calls(s) && QueueDelivered(s) && Enabled(s, Queue(qs))
    ensures QueueDelivered(Apply(s, Queue(qs)))
  {
  }

  lemma {:induction false} DeliveredOutside(s: State, step: Step)
    requires Calls(s) && QueueDelivered(s) && Enabled(s, step) && !step.Queue?
    ensures QueueDelivered(Apply(s, step))
  {
  }

  lemma {:induction false} OverflowDeliveredStep(s: State, step: Step)
    requires OverflowDelivered(s) && Enabled(s, step)
    ensures OverflowDelivered(Apply(s, step))
  {
    match step
    case PostDrain(_) => OverflowsInAppend(s.callbacks, Drain);
    case PostOverflow(t) => PostOverflowDelivered(s, t);
    case PostControl => OverflowsInAppend(s.callbacks, Control);
    case IoAfter => OverflowsInAppend(s.callbacks, Drain);
    case IoTake => TakeDelivered(s);
    case IoHandleOverflow => assert s.viaOverflow + [s.io.k] + [] == s.viaOverflow + [s.io.k];
    case _ => UntouchedDelivered(s, step);
  }

  lemma {:induction false} PostOverflowDelivered(s: State, t: nat)
    requires OverflowDelivered(s) && Enabled(s, PostOverflow(t))
    ensures OverflowDelivered(Apply(s, PostOverflow(t)))
  {
    OverflowsInAppend(s.callbacks, Overflow(s.producers[t].k));
  }

  lemma {:induction false} TakeDelivered(s: State)
    requires OverflowDelivered(s) && Enabled(s, IoTake)
    ensures OverflowDelivered(Apply(s, IoTake))
  {
    assert OverflowsIn(s.callbacks)
             == (if s.callbacks[0].Overflow? then [s.callbacks[0].k] else []) + OverflowsIn(s.callbacks[1..]);
  }

  lemma {:induction false} UntouchedDelivered(s: State, step: Step)
    requires OverflowDelivered(s) && Enabled(s, step)
    requires !step.PostDrain? && !step.PostOverflow? && !step.PostControl? && !step.IoAfter?
    requires !step.IoTake? && !step.IoHandleOverflow?
    ensures OverflowDelivered(Apply(s, step))
  {
    hide Q.Apply, Q.Enabled, OverflowsIn;
  }

  /** The worker still carries token `k`, which no channel has accepted. */
  predicate Undecided(s: State, t: nat, k: nat) {
    && t in s.producers && t in s.q.pushers
    && (s.producers[t] == PostingOverflow(k)
        || (s.producers[t] == Pushing(k) && !s.q.pushers[t].Reserved? && !s.q.pushers[t].Constructed?
            && !(s.q.pushers[t].Returned? && s.q.pushers[t].pushed)))
  }

  predicate Accepted(s: State, k: nat) {
    (exists p :: 0 <= p < |s.q.reserved| && s.q.reserved[p].value == k) || k in s.overflowed
  }

  /** Tokens in the queue's reservation order: known, written by their author, and in each author's
      posting order. */
  ghost predicate ReservedTokens(s: State) {
    && (forall p :: 0 <= p < |s.q.reserved| ==>
          s.q.reserved[p].value < |s.author| && s.author[s.q.reserved[p].value] == s.q.reserved[p].producer)
    && (forall p, r :: 0 <= p < r < |s.q.reserved| && s.q.reserved[p].producer == s.q.reserved[r].producer ==>
          s.q.reserved[p].value < s.q.reserved[r].value)
  }

  ghost predicate OverflowTokens(s: State) {
    && (forall i :: 0 <= i < |s.overflowed| ==> s.overflowed[i] < |s.author|)
    && (forall i, j :: 0 <= i < j < |s.overflowed| ==> s.overflowed[i] != s.overflowed[j])
    && (forall i, p :: 0 <= i < |s.overflowed| && 0 <= p < |s.q.reserved| ==>
          s.overflowed[i] != s.q.reserved[p].value)
  }

  /** An undecided token is newer than everything its author has put in the queue, and not in
      the overflow channel. */
  ghost predicate UndecidedFresh(s: State) {
    forall t: nat, k: nat :: Undecided(s, t, k) ==>
      && k < |s.author| && s.author[k] == t
      && (forall p :: 0 <= p < |s.q.reserved| && s.q.reserved[p].producer == t ==> s.q.reserved[p].value < k)
      && k !in s.overflowed
  }

  ghost predicate NoneForgotten(s: State) {
    forall k :: 0 <= k < |s.author| ==> Accepted(s, k) || Undecided(s, s.author[k], k)
  }

  ghost predicate Tokens(s: State) {
    ReservedTokens(s) && OverflowTokens(s) && UndecidedFresh(s) && NoneForgotten(s)
  }

  lemma {:induction false} UndecidedBackwards(s: State, step: Step, t: nat, k: nat)
    requires Calls(s) && Enabled(s, step) && Undecided(Apply(s, step), t, k)
    ensures Undecided(s, t, k) || (step == PostBegin(t) && k == |s.author|)
  {
    hide Apply, Undecided, Calls;
    if step.Queue? { InsideBackwards(s, step.step, t, k); } else { OutsideBackwards(s, step, t, k); }
  }

  lemma {:induction false} InsideBackwards(s: State, qs: Q.Step<nat>, t: nat, k: nat)
    requires Enabled(s, Queue(qs)) && Undecided(Apply(s, Queue(qs)), t, k)
    ensures Undecided(s, t, k)
  {
  }

  lemma {:induction false} OutsideBackwards(s: State, step: Step, t: nat, k: nat)
    requires Calls(s) && Enabled(s, step) && !step.Queue? && Undecided(Apply(s, step), t, k)
    ensures Undecided(s, t, k) || (step == PostBegin(t) && k == |s.author|)
  {
    if IsIo(step) { IoKeepsProducers(s, step); }
  }

  /** The I/O thread changes no worker and none of their pushes. */
  lemma {:induction false} IoKeepsProducers(s: State, step: Step)
    requires Enabled(s, step) && IsIo(step) && !step.Queue?
    ensures
      var s' := Apply(s, step);
      && s'.producers == s.producers && s'.q.pushers == s.q.pushers && s'.q.reserved == s.q.reserved
      && s'.author == s.author && s'.overflowed == s.overflowed
  {
  }

  lemma {:induction false} TokensCasWin(s: State, t: nat)
    requires Calls(s) && Tokens(s) && Enabled(s, Queue(Q.CasWin(t)))
    ensures Tokens(Apply(s, Queue(Q.CasWin(t))))
  {
    var s' := Apply(s, Queue(Q.CasWin(t)));
    var v := s.q.pushers[t].v;
    assert Undecided(s, t, v);
    forall u: nat, k: nat | Undecided(s', u, k)
      ensures Undecided(s, u, k) && u != t
    { UndecidedBackwards(s, Queue(Q.CasWin(t)), u, k); }
    forall k | 0 <= k < |s'.author| ensures Accepted(s', k) || Undecided(s', s'.author[k], k) {
      if Accepted(s, k) {
        if k !in s.overflowed {
          var p :| 0 <= p < |s.q.reserved| && s.q.reserved[p].value == k;
          assert s'.q.reserved[p].value == k;
        }
      } else if s.author[k] == t {
        assert s'.q.reserved[|s.q.reserved|].value == k;
      } else {
        assert Undecided(s', s'.author[k], k);
      }
    }
  }

  lemma {:induction false} NoneForgottenStep(s: State, step: Step)
    requires Calls(s) && NoneForgotten(s) && Enabled(s, step) && Apply(s, step).q.reserved == s.q.reserved
    ensures NoneForgotten(Apply(s, step))
  {
    var s' := Apply(s, step);
    forall k | 0 <= k < |s'.author| ensures Accepted(s', k) || Undecided(s', s'.author[k], k) {
      if k == |s.author| {
        assert Undecided(s', s'.author[k], k);
      } else if Accepted(s, k) {
        if k in s.overflowed { assert k in s'.overflowed; }
      } else {
        StillAccountedFor(s, step, k);
      }
    }
  }

  lemma {:induction false} StillAccountedFor(s: State, step: Step, k: nat)
    requires Calls(s) && Enabled(s, step) && Apply(s, step).q.reserved == s.q.reserved
    requires k < |s.author| && Undecided(s, s.author[k], k)
    ensures Accepted(Apply(s, step), k) || Undecided(Apply(s, step), s.author[k], k)
  {
    hide Apply, Accepted, Undecided, Calls;
    if step.Queue? { UndecidedInside(s, step.step, k); } else { UndecidedOutside(s, step, k); }
  }

  /** Inside TryPush only a won compare-exchange decides. */
  lemma {:induction false} UndecidedInside(s: State, qs: Q.Step<nat>, k: nat)
    requires Enabled(s, Queue(qs)) && Apply(s, Queue(qs)).q.reserved == s.q.reserved
    requires k < |s.author| && Undecided(s, s.author[k], k)
    ensures Undecided(Apply(s, Queue(qs)), s.author[k], k)
  {
  }

  lemma {:induction false} UndecidedOutside(s: State, step: Step, k: nat)
    requires Calls(s) && Enabled(s, step) && !step.Queue?
    requires k < |s.author| && Undecided(s, s.author[k], k)
    ensures Accepted(Apply(s, step), k) || Undecided(Apply(s, step), s.author[k], k)
  {
    if IsIo(step) {
      IoKeepsProducers(s, step);
    } else if step == PostOverflow(s.author[k]) {
      assert Apply(s, step).overflowed[|s.overflowed|] == k;
    }
  }

  lemma {:induction false} UndecidedFreshStep(s: State, step: Step)
    requires Calls(s) && Tokens(s) && Enabled(s, step) && Apply(s, step).q.reserved == s.q.reserved
    ensures UndecidedFresh(Apply(s, step))
  {
    var s' := Apply(s, step);
    forall u: nat, k: nat | Undecided(s', u, k)
      ensures k < |s'.author| && s'.author[k] == u && k !in s'.overflowed
      ensures forall p :: 0 <= p < |s'.q.reserved| && s'.q.reserved[p].producer == u ==> s'.q.reserved[p].value < k
    {
      UndecidedBackwards(s, step, u, k);
      if Undecided(s, u, k) && step.PostOverflow? { OverflowedIsDecided(s, step.t, u, k); }
    }
  }

  lemma {:induction false} OverflowedIsDecided(s: State, t: nat, u: nat, k: nat)
    requires Calls(s) && UndecidedFresh(s) && Enabled(s, PostOverflow(t)) && Undecided(s, u, k)
    requires Undecided(Apply(s, PostOverflow(t)), u, k)
    ensures k != s.producers[t].k
  {
    assert Undecided(s, t, s.producers[t].k);
  }

  lemma {:induction false} TokensStep(s: State, step: Step)
    requires Calls(s) && Tokens(s) && Enabled(s, step)
    ensures Tokens(Apply(s, step))
  {
    if step.Queue? && step.step.CasWin? {
      TokensCasWin(s, step.step.t);
    } else {
      OnlyCasWinReserves(s, step);
      hide Apply, Calls, UndecidedFresh, NoneForgotten;
      UndecidedFreshStep(s, step);
      NoneForgottenStep(s, step);
      if step.PostOverflow? { PostOverflowTokens(s, step.t); }
    }
  }

  lemma {:induction false} OnlyCasWinReserves(s: State, step: Step)
    requires Enabled(s, step) && !(step.Queue? && step.step.CasWin?)
    ensures Apply(s, step).q.reserved == s.q.reserved && s.author <= Apply(s, step).author
    ensures !step.PostOverflow? ==> Apply(s, step).overflowed == s.overflowed
  {
  }

  lemma {:induction false} PostOverflowTokens(s: State, t: nat)
    requires Tokens(s) && Calls(s) && Enabled(s, PostOverflow(t))
    ensures OverflowTokens(Apply(s, PostOverflow(t)))
  {
    assert Undecided(s, t, s.producers[t].k);
  }

  // ----- Main results

  ghost predicate Inv(s: State) {
    && Linked(s)
    && FlagMeansDrain(s)
    && ClearMeansWatched(s)
    && QueueDelivered(s)
    && OverflowDelivered(s)
    && Tokens(s)
  }

  lemma {:induction false} InitInv(capacity: nat, workers: set<nat>)
    requires 0 < capacity
    ensures Inv(Init(capacity, workers))
  {
    Q.InitInv(capacity, workers, 0);
    hide Q.Inv, Q.Shape, Q.Apply, Q.Enabled, Q.SlotOf;
    InitTokens(capacity, workers);
  }

  lemma {:induction false} InitTokens(capacity: nat, workers: set<nat>)
    ensures Tokens(Init(capacity, workers)) && Calls(Init(capacity, workers))
  {
  }

  lemma {:induction false} StepInv(s: State, step: Step)
    requires Inv(s) && Enabled(s, step)
    ensures Inv(Apply(s, step))
  {
    LinkedStep(s, step);
    FlagStep(s, step);
    WatchedStep(s, step);
    QueueDeliveredStep(s, step);
    OverflowDeliveredStep(s, step);
    TokensStep(s, step);
  }

  lemma {:induction false} RunInv(s: State, steps: seq<Step>)
    requires Inv(s) && ValidRun(s, steps)
    ensures Inv(Exec(s, steps))
    decreases |steps|
  {
    if steps != [] {
      StepInv(s, steps[0]);
      RunInv(Apply(s, steps[0]), steps[1..]);
    }
  }

  /** Someone will still look at the queue: a drain is posted, a drain runs and its re-check has not
      failed, or a worker is between its publish and the post of its drain. */
  ghost predicate Covered(s: State) {
    || Drain in s.callbacks
    || BeforeClear(s.io)
    || RecheckCanSucceed(s)
    || (exists t :: Announcing(s, t) || AboutToPost(s, t))
  }

  /** In every run, a published head is covered. */
  lemma {:induction false} NoResultStranded(capacity: nat, workers: set<nat>, steps: seq<Step>)
    requires 0 < capacity && ValidRun(Init(capacity, workers), steps)
    ensures Q.Shape(Exec(Init(capacity, workers), steps).q)
    ensures HeadReady(Exec(Init(capacity, workers), steps)) ==> Covered(Exec(Init(capacity, workers), steps))
  {
    InitInv(capacity, workers);
    RunInv(Init(capacity, workers), steps);
    var s := Exec(Init(capacity, workers), steps);
    if HeadReady(s) && !(Drain in s.callbacks || BeforeClear(s.io) || RecheckCanSucceed(s)) {
      if s.flag {
        var t :| AboutToPost(s, t);
      } else {
        var t :| Announcing(s, t);
      }
    }
  }

  ghost predicate Distinct(tokens: seq<nat>) {
    forall i, j :: 0 <= i < j < |tokens| ==> tokens[i] != tokens[j]
  }

  /** No result is handled twice, and each worker's queued results are handled in posting order. */
  lemma {:induction false} HandledAtMostOnce(s: State)
    requires Inv(s)
    ensures Distinct(s.viaQueue + s.viaOverflow)
    ensures forall i, j :: 0 <= i < j < |s.viaQueue| ==>
      s.viaQueue[i] < |s.author| && s.viaQueue[j] < |s.author|
      && (s.author[s.viaQueue[i]] == s.author[s.viaQueue[j]] ==> s.viaQueue[i] < s.viaQueue[j])
  {
    forall i | 0 <= i < |s.viaQueue| ensures i < |s.q.reserved| && s.viaQueue[i] == s.q.reserved[i].value {
      assert (s.viaQueue + InHand(s))[i] == s.q.popped[i];
    }
    forall i | 0 <= i < |s.viaOverflow| ensures i < |s.overflowed| && s.viaOverflow[i] == s.overflowed[i] {
      assert (s.viaOverflow + OverflowInHand(s.io) + OverflowsIn(s.callbacks))[i] == s.overflowed[i];
    }
  }

  ghost predicate WorkersIdle(s: State) {
    forall t :: t in s.producers ==> s.producers[t].Idle?
  }

  /** The I/O thread has nothing to run and no worker is inside a post. */
  ghost predicate Quiescent(s: State) {
    WorkersIdle(s) && s.io.Waiting? && s.callbacks == []
  }

  /** At rest the queue is empty, the flag is clear and every posted result was handled. */
  lemma {:induction false} QuiescentMeansAllHandled(s: State)
    requires Inv(s) && Quiescent(s)
    ensures s.q.deq == s.q.enq && !s.flag
    ensures forall k :: 0 <= k < |s.author| ==> k in s.viaQueue + s.viaOverflow
  {
    assert !s.flag by {
      assert forall t :: !AboutToPost(s, t);
    }
    assert forall t :: !Announcing(s, t);
    if s.q.deq < s.q.enq {
      assert Q.SlotOk(s.q, s.q.deq);
      assert HeadReady(s);
    }
    forall k | 0 <= k < |s.author| ensures k in s.viaQueue + s.viaOverflow {
      assert Accepted(s, k);
      if k in s.overflowed {
        assert s.viaOverflow + [] + [] == s.viaOverflow;
      } else {
        var p :| 0 <= p < |s.q.reserved| && s.q.reserved[p].value == k;
        assert s.viaQueue + [] == s.viaQueue;
        assert s.viaQueue[p] == k;
      }
    }
  }

  // ----- The I/O thread alone reaches rest

  predicate IsIo(step: Step) {
    match step
    case Queue(qs) =>
      qs.PopLoadEnqueue? || qs.PopLoadDequeue? || qs.PopProbe? || qs.PopMove? || qs.PopClear? || qs.PopAdvance?
    case PostBegin(_) => false
    case PushDone(_) => false
    case Exchange(_) => false
    case PostDrain(_) => false
    case PostOverflow(_) => false
    case PostControl => false
    case _ => true
  }

  /** The only step the I/O thread can take next. */
  function NextIo(s: State): Step {
    match s.io
    case Waiting => IoTake
    case HandlingOverflow(_) => IoHandleOverflow
    case Inner(_) => IoInner
    case InnerHandle(_, _) => IoHandle
    case AfterInner(_) => IoAfter
    case Recheck => IoRecheck
    case Reclaiming(_) => IoReclaim
    case Rehandling(_) => IoRehandle
    case _ =>
      match s.q.popper
      case HaveEnqueue(_) => Queue(Q.PopLoadDequeue)
      case Probing(_) => Queue(Q.PopProbe)
      case Owning(_) => Queue(Q.PopMove)
      case Moved(_, _) => Queue(Q.PopClear)
      case Cleared(_, _) => Queue(Q.PopAdvance)
      case PopReturned(_, _) => if s.io.InnerPop? then IoPopped else IoRechecked
      case _ => Queue(Q.PopLoadEnqueue)
  }

  lemma {:induction false} IoIsDeterministic(s: State, step: Step)
    requires Calls(s) && IsIo(step) && Enabled(s, step)
    ensures step == NextIo(s)
  {
  }

  function PopperRank(q: Q.System<nat>): nat {
    match q.popper
    case PopEntered => 7
    case HaveEnqueue(_) => 6
    case Probing(_) => 5
    case Owning(_) => 4
    case Moved(_, _) => 3
    case Cleared(_, _) => 2
    case _ => 1
  }

  function IoRank(s: State): nat {
    match s.io
    case Waiting => 0
    case HandlingOverflow(_) => 1
    case RecheckPop => if s.q.popper.PopReturned? && s.q.popper.got then 62 else 1 + PopperRank(s.q)
    case Recheck => 10
    case AfterInner(n) => if n == MAX_WORKER_RESULTS_PER_DRAIN then 101 else 11
    case InnerPop(_) => if s.q.popper.PopReturned? && s.q.popper.got then 151 else 20 + PopperRank(s.q)
    case Inner(n) => if n < MAX_WORKER_RESULTS_PER_DRAIN then 30 else 102
    case Rehandling(_) => 60
    case Reclaiming(_) => 61
    case InnerHandle(_, _) => 150
  }

  function Work(s: State): nat {
    100 * |s.callbacks| + IoRank(s)
  }

  /** The step changes nothing of the workers and either pops a result or does some of the work. */
  ghost predicate Progress(s: State, s': State) {
    && s'.q.enq == s.q.enq && s'.producers == s.producers && s'.author == s.author
    && (s'.q.deq == s.q.deq + 1 || (s'.q.deq == s.q.deq && Work(s') < Work(s)))
  }

  lemma {:induction false} PopStepProgress(s: State)
    requires Calls(s) && Q.WellShaped(s.q) && (s.io.InnerPop? || s.io.RecheckPop?)
    requires s.q.popper.Cleared? ==> s.q.popper.d == s.q.deq
    ensures Enabled(s, NextIo(s)) && Progress(s, Apply(s, NextIo(s)))
  {
    if s.q.popper.PopReturned? { PopReturnProgress(s); } else { PopInsideProgress(s); }
  }

  lemma {:induction false} PopReturnProgress(s: State)
    requires Calls(s) && Q.WellShaped(s.q) && (s.io.InnerPop? || s.io.RecheckPop?) && s.q.popper.PopReturned?
    ensures Enabled(s, NextIo(s)) && Progress(s, Apply(s, NextIo(s)))
  {
  }

  lemma {:induction false} PopInsideProgress(s: State)
    requires Calls(s) && Q.WellShaped(s.q) && (s.io.InnerPop? || s.io.RecheckPop?) && !s.q.popper.PopReturned?
    requires s.q.popper.Cleared? ==> s.q.popper.d == s.q.deq
    ensures Enabled(s, NextIo(s)) && Progress(s, Apply(s, NextIo(s)))
  {
    if s.q.popper.Owning? || s.q.popper.Moved? || s.q.popper.Cleared? {
      PopOwnerProgress(s);
    } else {
      PopProbeProgress(s);
    }
  }

  lemma {:induction false} PopOwnerProgress(s: State)
    requires Q.WellShaped(s.q) && (s.io.InnerPop? || s.io.RecheckPop?)
    requires s.q.popper.Owning? || s.q.popper.Moved? || s.q.popper.Cleared?
    requires s.q.popper.Cleared? ==> s.q.popper.d == s.q.deq
    ensures Enabled(s, NextIo(s)) && Progress(s, Apply(s, NextIo(s)))
  {
  }

  lemma {:induction false} PopProbeProgress(s: State)
    requires Q.WellShaped(s.q) && (s.io.InnerPop? || s.io.RecheckPop?)
    requires s.q.popper.PopEntered? || s.q.popper.HaveEnqueue? || s.q.popper.Probing?
    ensures Enabled(s, NextIo(s)) && Progress(s, Apply(s, NextIo(s)))
  {
  }

  lemma {:induction false} CallbackStepProgress(s: State)
    requires Calls(s) && Q.WellShaped(s.q) && !s.io.InnerPop? && !s.io.RecheckPop?
    requires !s.io.Waiting? || s.callbacks != []
    ensures Enabled(s, NextIo(s)) && Progress(s, Apply(s, NextIo(s)))
  {
    match s.io
    case Inner(_) =>
    case AfterInner(_) =>
    case Waiting =>
    case _ =>
  }

  lemma {:induction false} FinishAfterStep(s: State) returns (steps: seq<Step>)
    requires Inv(s) && WorkersIdle(s) && (!s.io.Waiting? || s.callbacks != [])
    ensures forall i :: 0 <= i < |steps| ==> IsIo(steps[i])
    ensures ValidRun(s, steps) && Quiescent(Exec(s, steps)) && Inv(Exec(s, steps))
    ensures Exec(s, steps).author == s.author
    decreases s.q.enq - s.q.deq, Work(s), 0
  {
    hide Q.Apply, Q.Enabled, Apply, Enabled;
    if s.io.InnerPop? || s.io.RecheckPop? { PopStepProgress(s); } else { CallbackStepProgress(s); }
    StepInv(s, NextIo(s));
    var rest := IoThreadReachesRest(Apply(s, NextIo(s)));
    steps := [NextIo(s)] + rest;
    assert steps[1..] == rest;
  }

  lemma {:induction false} IoThreadReachesRest(s: State) returns (steps: seq<Step>)
    requires Inv(s) && WorkersIdle(s)
    ensures forall i :: 0 <= i < |steps| ==> IsIo(steps[i])
    ensures ValidRun(s, steps) && Quiescent(Exec(s, steps)) && Inv(Exec(s, steps))
    ensures Exec(s, steps).author == s.author
    decreases s.q.enq - s.q.deq, Work(s), 1
  {
    if s.io.Waiting? && s.callbacks == [] { steps := []; } else { steps := FinishAfterStep(s); }
  }

  /** From any reachable state in which the workers are quiet, the I/O thread alone, whose steps are
      forced, comes to rest; by then every posted result has been handled, and none twice. */
  lemma {:induction false} IoThreadFinishes(s: State) returns (steps: seq<Step>)
    requires Inv(s) && WorkersIdle(s)
    ensures forall i :: 0 <= i < |steps| ==> IsIo(steps[i])
    ensures ValidRun(s, steps) && Quiescent(Exec(s, steps))
    ensures forall k :: 0 <= k < |s.author| ==> k in Exec(s, steps).viaQueue + Exec(s, steps).viaOverflow
    ensures Distinct(Exec(s, steps).viaQueue + Exec(s, steps).viaOverflow)
  {
    steps := IoThreadReachesRest(s);
    QuiescentMeansAllHandled(Exec(s, steps));
    HandledAtMostOnce(Exec(s, steps));
  }

  /** Between two clears of the flag at most one worker schedules a drain, however many post results. */
  ghost predicate Coalesced(s: State) {
    s.scheduled <= s.cleared + if s.flag then 1 else 0
  }

  lemma {:induction false} CoalescedStep(s: State, step: Step)
    requires Coalesced(s) && Enabled(s, step)
    ensures Coalesced(Apply(s, step))
  {
  }

  lemma {:induction false} CoalescedRun(s: State, steps: seq<Step>)
    requires Coalesced(s) && ValidRun(s, steps)
    ensures Coalesced(Exec(s, steps))
    decreases |steps|
  {
    hide Coalesced, Enabled, Apply;
    if steps != [] {
      CoalescedStep(s, steps[0]);
      CoalescedRun(Apply(s, steps[0]), steps[1..]);
    }
  }

  lemma {:induction false} DrainsAreCoalesced(capacity: nat, workers: set<nat>, steps: seq<Step>)
    requires ValidRun(Init(capacity, workers), steps)
    ensures
      var s := Exec(Init(capacity, workers), steps);
      s.scheduled <= s.cleared + 1 && (!s.flag ==> s.scheduled <= s.cleared)
  {
    CoalescedRun(Init(capacity, workers), steps);
  }

  /** After 256 results in a row a drain goes back to the event loop behind the callbacks that wait there,
      and keeps the flag, so no worker posts another drain meanwhile. */
  lemma {:induction false} DrainYields(s: State)
    requires Inv(s) && s.io == Inner(256)
    ensures Enabled(s, IoInner) && Enabled(Apply(s, IoInner), IoAfter)
    ensures Apply(Apply(s, IoInner), IoAfter) == s.(callbacks := s.callbacks + [Drain], io := Waiting)
  {
  }

  /** Before that, it takes whatever result is at the head. */
  lemma {:induction false} DrainGoesOn(s: State, n: nat)
    requires Inv(s) && s.io == Inner(n) && n < 256
    ensures Enabled(s, IoInner) && Apply(s, IoInner).io == InnerPop(n)
  {
  }

  // ----- Workers finish their posts, and then everything is handled

  predicate OwnPost(step: Step, t: nat) {
    match step
    case Queue(qs) => Q.OwnPush(qs, t)
    case PushDone(u) => u == t
    case Exchange(u) => u == t
    case PostDrain(u) => u == t
    case PostOverflow(u) => u == t
    case _ => false
  }

  /** A step of some worker that is inside a post. */
  ghost predicate IsPost(step: Step) {
    exists t :: OwnPost(step, t)
  }

  function PostRank(s: State, t: nat): nat
    requires t in s.producers
  {
    match s.producers[t]
    case Idle => 0
    case PostingDrain => 1
    case PostingOverflow(_) => 1
    case Exchanging => 2
    case Pushing(_) => if t in s.q.pushers then 3 + Q.PushRank(s.q, t) else 3
  }

  /** Only worker `t` has moved. */
  ghost predicate OnlyMoved(s: State, s': State, t: nat) {
    && s'.author == s.author && s'.producers.Keys == s.producers.Keys
    && (forall u :: u in s.producers && u != t ==> s'.producers[u] == s.producers[u])
  }

  /** A worker inside a post is never stuck, whatever the others and the I/O thread are doing. */
  lemma {:induction false} NextPostStep(s: State, t: nat) returns (step: Step)
    requires Inv(s) && t in s.producers && !s.producers[t].Idle?
    ensures Enabled(s, step) && OwnPost(step, t)
    ensures OnlyMoved(s, Apply(s, step), t) && PostRank(Apply(s, step), t) < PostRank(s, t)
  {
    hide FlagMeansDrain, ClearMeansWatched, QueueDelivered, OverflowDelivered, Tokens;
    match s.producers[t]
    case Pushing(_) =>
      var qs := Q.NextPushStep(s.q, t);
      hide Q.Inv;
      step := if qs.PushReturn? then PushDone(t) else Queue(qs);
    case Exchanging => step := Exchange(t);
    case PostingDrain => step := PostDrain(t);
    case PostingOverflow(_) => step := PostOverflow(t);
  }

  /** From every reachable state a worker completes its post by its own steps. */
  lemma {:induction false} PostFinishes(s: State, t: nat) returns (steps: seq<Step>)
    requires Inv(s) && t in s.producers
    ensures ValidRun(s, steps) && forall i :: 0 <= i < |steps| ==> OwnPost(steps[i], t)
    ensures
      var s' := Exec(s, steps);
      Inv(s') && OnlyMoved(s, s', t) && t in s'.producers && s'.producers[t].Idle?
    decreases PostRank(s, t)
  {
    hide Inv, Enabled, Apply, PostRank, OwnPost;
    if s.producers[t].Idle? {
      steps := [];
    } else {
      var step := NextPostStep(s, t);
      StepInv(s, step);
      var rest := PostFinishes(Apply(s, step), t);
      steps := [step] + rest;
      assert steps[1..] == rest;
    }
  }

  function Busy(s: State): set<nat> {
    set t | t in s.producers && !s.producers[t].Idle?
  }

  lemma {:induction false} PostsFinish(s: State) returns (steps: seq<Step>)
    requires Inv(s)
    ensures ValidRun(s, steps) && Inv(Exec(s, steps)) && WorkersIdle(Exec(s, steps))
    ensures Exec(s, steps).author == s.author
    ensures forall i :: 0 <= i < |steps| ==> IsPost(steps[i])
    decreases |Busy(s)|
  {
    hide Inv, Enabled, Apply, OwnPost, ValidRun, Exec;
    if Busy(s) == {} {
      forall t | t in s.producers ensures s.producers[t].Idle? { assert t !in Busy(s); }
      steps := Stay(s);
    } else {
      var t :| t in Busy(s);
      var first := PostFinishes(s, t);
      assert Busy(Exec(s, first)) == Busy(s) - {t};
      var rest := PostsFinish(Exec(s, first));
      RunsJoin(s, first, rest);
      steps := first + rest;
      forall i | 0 <= i < |steps| ensures IsPost(steps[i]) {
        if i < |first| { assert OwnPost(first[i], t); } else { assert steps[i] == rest[i - |first|]; }
      }
    }
  }

  lemma {:induction false} Stay(s: State) returns (steps: seq<Step>)
    ensures steps == [] && ValidRun(s, steps) && Exec(s, steps) == s
  {
    steps := [];
  }

  lemma {:induction false} RunsJoin(s: State, a: seq<Step>, b: seq<Step>)
    requires ValidRun(s, a) && ValidRun(Exec(s, a), b)
    ensures ValidRun(s, a + b) && Exec(s, a + b) == Exec(Exec(s, a), b)
    decreases |a|
  {
    hide Enabled, Apply;
    if a == [] {
      assert a + b == b;
    } else {
      assert (a + b)[1..] == a[1..] + b;
      RunsJoin(Apply(s, a[0]), a[1..], b);
    }
  }

  /** From every reachable state, whoever is in the middle of whatever, the workers can complete their posts
      and the I/O thread then handles every posted result, exactly once, and comes to rest. */
  lemma {:induction false} EverythingIsHandled(s: State) returns (steps: seq<Step>)
    requires Inv(s)
    ensures ValidRun(s, steps) && Quiescent(Exec(s, steps))
    ensures forall i :: 0 <= i < |steps| ==> IsIo(steps[i]) || IsPost(steps[i])
    ensures forall k :: 0 <= k < |s.author| ==> k in Exec(s, steps).viaQueue + Exec(s, steps).viaOverflow
    ensures Distinct(Exec(s, steps).viaQueue + Exec(s, steps).viaOverflow)
  {
    hide Inv, Quiescent, Distinct, ValidRun, Exec, IsIo, IsPost;
    var first := PostsFinish(s);
    var rest := IoThreadFinishes(Exec(s, first));
    RunsJoin(s, first, rest);
    steps := first + rest;
  }
}
