/**
 The bounded multi-producer, single-consumer queue of src/include/common/mpsc_queue.h as a
 transition system.  Every atomic load, compare-exchange and store, and every construction in or
 move out of a slot, is a step of its own; producers and the consumer interleave freely.  Steps are
 sequentially consistent and positions are unbounded naturals (no 64-bit wrap).
 */
module MpscQueue {
  import opened Arith

  /** One slot: the `ready_` flag and the raw storage.  `live` records whether the storage
      currently holds a constructed object; it is what `construct_at`/`destroy_at` change. */
  datatype Slot<V> = Slot(ready: bool, live: bool, storage: V)

  /** Program counter of one producer inside `TryPush`. */
  datatype Pusher<V> =
    | Idle
    | Entered(v: V)
    | HaveDequeue(v: V, d: nat)
    | HaveBoth(v: V, d: nat, e: nat)
    | Reserved(v: V, p: nat)
    | Constructed(v: V, p: nat)
    | Returned(v: V, pushed: bool)

  /** Program counter of the consumer inside `TryPop`. */
  datatype Popper<V> =
    | Resting
    | PopEntered
    | HaveEnqueue(e: nat)
    | Probing(d: nat)
    | Owning(d: nat)
    | Moved(d: nat, v: V)
    | Cleared(d: nat, v: V)
    | PopReturned(got: bool, v: V)

  /** A successful reservation, recorded in compare-exchange order. */
  datatype Entry<V> = Entry(producer: nat, value: V)

  /** A completed `TryPush` call: its argument and its result. */
  datatype Attempt<V> = Attempt(value: V, pushed: bool)

  /** `enq`, `deq`, `slots` are the queue's own fields; `reserved`, `popped` and `log`, each producer's
      completed calls in program order, are history. */
  datatype System<V> = System(
    capacity: nat,
    enq: nat,
    deq: nat,
    slots: seq<Slot<V>>,
    pushers: map<nat, Pusher<V>>,
    popper: Popper<V>,
    reserved: seq<Entry<V>>,
    popped: seq<V>,
    log: map<nat, seq<Attempt<V>>>)

  datatype Step<V> =
    | PushBegin(t: nat, v: V)
    | LoadDequeue(t: nat)
    | LoadEnqueue(t: nat)
    | RejectFull(t: nat)
    | CasWin(t: nat)
    | CasLose(t: nat)
    | Construct(t: nat)
    | Publish(t: nat)
    | PushReturn(t: nat)
    | PopBegin
    | PopLoadEnqueue
    | PopLoadDequeue
    | PopProbe
    | PopMove
    | PopClear
    | PopAdvance
    | PopReturn

  function Init<V>(capacity: nat, producers: set<nat>, junk: V): System<V> {
    System(capacity, 0, 0, seq(capacity, i => Slot(false, false, junk)),
           map t | t in producers :: Idle, Resting, [], [], map t | t in producers :: [])
  }

  predicate WellShaped<V>(s: System<V>) {
    0 < s.capacity && |s.slots| == s.capacity
  }

  predicate Enabled<V>(s: System<V>, step: Step<V>) {
    && WellShaped(s)
    && match step
       case PushBegin(t, _) => t in s.pushers && s.pushers[t].Idle?
       case LoadDequeue(t) => t in s.pushers && s.pushers[t].Entered?
       case LoadEnqueue(t) => t in s.pushers && s.pushers[t].HaveDequeue?
       case RejectFull(t) =>
         t in s.pushers && s.pushers[t].HaveBoth? && s.pushers[t].e - s.pushers[t].d >= s.capacity
       case CasWin(t) =>
         && t in s.pushers && s.pushers[t].HaveBoth? && s.pushers[t].e - s.pushers[t].d < s.capacity
         && s.enq == s.pushers[t].e
       case CasLose(t) =>
         // A weak compare-exchange may also fail spuriously.
         t in s.pushers && s.pushers[t].HaveBoth? && s.pushers[t].e - s.pushers[t].d < s.capacity
       case Construct(t) => t in s.pushers && s.pushers[t].Reserved?
       case Publish(t) => t in s.pushers && s.pushers[t].Constructed?
       case PushReturn(t) => t in s.pushers && s.pushers[t].Returned?
       case PopBegin => s.popper.Resting?
       case PopLoadEnqueue => s.popper.PopEntered?
       case PopLoadDequeue => s.popper.HaveEnqueue?
       case PopProbe => s.popper.Probing?
       case PopMove => s.popper.Owning?
       case PopClear => s.popper.Moved?
       case PopAdvance => s.popper.Cleared?
       case PopReturn => s.popper.PopReturned?
  }

  function At<V>(s: System<V>, t: nat, pc: Pusher<V>): System<V> {
    s.(pushers := s.pushers[t := pc])
  }

  function Logged<V>(s: System<V>, t: nat, call: Attempt<V>): System<V> {
    s.(log := s.log[t := (if t in s.log then s.log[t] else []) + [call]])
  }

  function SetSlot<V>(s: System<V>, p: nat, slot: Slot<V>): System<V>
    requires WellShaped(s)
  {
    s.(slots := s.slots[p % s.capacity := slot])
  }

  function SlotOf<V>(s: System<V>, p: nat): Slot<V>
    requires WellShaped(s)
  {
    s.slots[p % s.capacity]
  }

  function Apply<V>(s: System<V>, step: Step<V>): System<V>
    requires Enabled(s, step)
  {
    match step
    case PushBegin(t, v) => At(s, t, Entered(v))
    case LoadDequeue(t) => At(s, t, HaveDequeue(s.pushers[t].v, s.deq))
    case LoadEnqueue(t) => At(s, t, HaveBoth(s.pushers[t].v, s.pushers[t].d, s.enq))
    case RejectFull(t) => At(s, t, Returned(s.pushers[t].v, false))
    case CasWin(t) =>
      var pc := s.pushers[t];
      At(s.(enq := s.enq + 1, reserved := s.reserved + [Entry(t, pc.v)]), t, Reserved(pc.v, pc.e))
    case CasLose(t) => At(s, t, Entered(s.pushers[t].v))
    case Construct(t) =>
      var pc := s.pushers[t];
      At(SetSlot(s, pc.p, SlotOf(s, pc.p).(live := true, storage := pc.v)), t, Constructed(pc.v, pc.p))
    case Publish(t) =>
      var pc := s.pushers[t];
      At(SetSlot(s, pc.p, SlotOf(s, pc.p).(ready := true)), t, Returned(pc.v, true))
    case PushReturn(t) => At(Logged(s, t, Attempt(s.pushers[t].v, s.pushers[t].pushed)), t, Idle)
    case PopBegin => s.(popper := PopEntered)
    case PopLoadEnqueue => s.(popper := HaveEnqueue(s.enq))
    case PopLoadDequeue =>
      s.(popper := if s.popper.e == s.deq then PopReturned(false, s.slots[0].storage) else Probing(s.deq))
    case PopProbe =>
      var slot := SlotOf(s, s.popper.d);
      s.(popper := if slot.ready then Owning(s.popper.d) else PopReturned(false, slot.storage))
    case PopMove =>
      var d := s.popper.d;
      SetSlot(s, d, SlotOf(s, d).(live := false)).(popper := Moved(d, SlotOf(s, d).storage))
    case PopClear =>
      var Moved(d, v) := s.popper;
      SetSlot(s, d, SlotOf(s, d).(ready := false)).(popper := Cleared(d, v))
    case PopAdvance =>
      var Cleared(d, v) := s.popper;
      s.(deq := d + 1, popper := PopReturned(true, v), popped := s.popped + [v])
    case PopReturn => s.(popper := Resting)
  }

  predicate ValidRun<V>(s: System<V>, steps: seq<Step<V>>)
    decreases |steps|
  {
    steps == [] || (Enabled(s, steps[0]) && ValidRun(Apply(s, steps[0]), steps[1..]))
  }

  function Exec<V>(s: System<V>, steps: seq<Step<V>>): System<V>
    requires ValidRun(s, steps)
    decreases |steps|
  {
    if steps == [] then s else Exec(Apply(s, steps[0]), steps[1..])
  }

  // ----- Invariant

  predicate Holds<V>(pc: Pusher<V>, p: nat) {
    (pc.Reserved? || pc.Constructed?) && pc.p == p
  }

  ghost predicate Shape<V>(s: System<V>) {
    && WellShaped(s)
    && s.deq <= s.enq <= s.deq + s.capacity
    && |s.reserved| == s.enq
    && |s.popped| == s.deq
    && (forall i :: 0 <= i < s.deq ==> s.popped[i] == s.reserved[i].value)
    && (forall i :: 0 <= i < s.enq ==> s.reserved[i].producer in s.pushers)
  }

  ghost predicate PusherOk<V>(s: System<V>, t: nat)
    requires Shape(s) && t in s.pushers
  {
    match s.pushers[t]
    case HaveDequeue(_, d) => d <= s.deq
    case HaveBoth(_, d, e) => d <= s.deq && d <= e <= s.enq
    case Reserved(v, p) => s.deq <= p < s.enq && s.reserved[p] == Entry(t, v)
    case Constructed(v, p) => s.deq <= p < s.enq && s.reserved[p] == Entry(t, v)
    case _ => true
  }

  ghost predicate PopperOk<V>(s: System<V>)
    requires Shape(s)
  {
    match s.popper
    case HaveEnqueue(e) => s.deq <= e <= s.enq
    case Probing(d) => d == s.deq < s.enq
    case Owning(d) => d == s.deq < s.enq && SlotOf(s, d).ready
    case Moved(d, v) => d == s.deq < s.enq && v == s.reserved[d].value && !Holds(s.pushers[s.reserved[d].producer], d)
    case Cleared(d, v) => d == s.deq < s.enq && v == s.reserved[d].value && !Holds(s.pushers[s.reserved[d].producer], d)
    case _ => true
  }

  /** What slot `p % capacity` holds while position `p` is inside the window `[deq, deq + capacity)`. */
  ghost predicate SlotOk<V>(s: System<V>, p: nat)
    requires Shape(s) && s.deq <= p < s.deq + s.capacity
  {
    var slot := SlotOf(s, p);
    if s.enq <= p then !slot.ready && !slot.live
    else if p == s.deq && s.popper.Moved? then slot.ready && !slot.live
    else if p == s.deq && s.popper.Cleared? then !slot.ready && !slot.live
    else
      var pc := s.pushers[s.reserved[p].producer];
      if pc.Reserved? && pc.p == p then !slot.ready && !slot.live
      else if pc.Constructed? && pc.p == p then !slot.ready && slot.live && slot.storage == s.reserved[p].value
      else slot.ready && slot.live && slot.storage == s.reserved[p].value
  }

  ghost predicate Inv<V>(s: System<V>) {
    && Shape(s)
    && (forall t :: t in s.pushers ==> PusherOk(s, t))
    && PopperOk(s)
    && (forall p :: s.deq <= p < s.deq + s.capacity ==> SlotOk(s, p))
  }

  lemma {:induction false} SetSlotFrame<V>(s: System<V>, p: nat, slot: Slot<V>)
    requires Shape(s) && s.deq <= p < s.deq + s.capacity
    ensures SlotOf(SetSlot(s, p, slot), p) == slot
    ensures forall q :: s.deq <= q < s.deq + s.capacity && q != p ==> SlotOf(SetSlot(s, p, slot), q) == SlotOf(s, q)
  {
    forall q | s.deq <= q < s.deq + s.capacity && q != p
      ensures SlotOf(SetSlot(s, p, slot), q) == SlotOf(s, q)
    {
      if q % s.capacity == p % s.capacity { SameResidueNear(s.capacity, p, q); }
    }
  }

  lemma {:induction false} InitInv<V>(capacity: nat, producers: set<nat>, junk: V)
    requires 0 < capacity
    ensures Inv(Init(capacity, producers, junk))
  {
  }

  lemma {:induction false} PushStepInv<V>(s: System<V>, step: Step<V>)
    requires Inv(s) && Enabled(s, step)
    requires step.PushBegin? || step.LoadDequeue? || step.LoadEnqueue? || step.RejectFull?
             || step.CasLose? || step.PushReturn?
    ensures Inv(Apply(s, step))
  {
    hide SlotOk;
    var s' := Apply(s, step);
    assert Shape(s');
    forall p | s'.deq <= p < s'.deq + s'.capacity ensures SlotOk(s', p) {
      assert SlotOk(s, p);
      PushStepSlot(s, step, p);
    }
  }

  lemma {:induction false} PushStepSlot<V>(s: System<V>, step: Step<V>, p: nat)
    requires Shape(s) && Enabled(s, step) && Shape(Apply(s, step)) && s.deq <= p < s.deq + s.capacity && SlotOk(s, p)
    requires step.PushBegin? || step.LoadDequeue? || step.LoadEnqueue? || step.RejectFull?
             || step.CasLose? || step.PushReturn?
    ensures SlotOk(Apply(s, step), p)
  {
  }

  lemma {:induction false} CasWinInv<V>(s: System<V>, t: nat)
    requires Inv(s) && Enabled(s, CasWin(t))
    ensures Inv(Apply(s, CasWin(t)))
  {
    var s' := Apply(s, CasWin(t));
    assert PusherOk(s, t);
    assert Shape(s');
    forall u | u in s'.pushers ensures PusherOk(s', u) { assert u in s.pushers && PusherOk(s, u); }
    forall p | s'.deq <= p < s'.deq + s'.capacity ensures SlotOk(s', p) { assert SlotOk(s, p); }
  }

  lemma {:induction false} SlotWriteInv<V>(s: System<V>, step: Step<V>)
    requires Inv(s) && Enabled(s, step) && (step.Construct? || step.Publish?)
    ensures Inv(Apply(s, step))
  {
    var s' := Apply(s, step);
    assert PusherOk(s, step.t);
    var p0 := s.pushers[step.t].p;
    assert SlotOk(s, p0);
    SetSlotFrame(s, p0, SlotOf(s', p0));
    assert Shape(s');
    forall u | u in s'.pushers ensures PusherOk(s', u) { assert u in s.pushers && PusherOk(s, u); }
    forall p | s'.deq <= p < s'.deq + s'.capacity ensures SlotOk(s', p) { assert SlotOk(s, p); }
  }

  lemma {:induction false} PopLoadInv<V>(s: System<V>, step: Step<V>)
    requires Inv(s) && Enabled(s, step)
    requires step.PopBegin? || step.PopLoadEnqueue? || step.PopLoadDequeue? || step.PopProbe? || step.PopReturn?
    ensures Inv(Apply(s, step))
  {
    var s' := Apply(s, step);
    assert Shape(s');
    forall u | u in s'.pushers ensures PusherOk(s', u) { assert PusherOk(s, u); }
    forall p | s'.deq <= p < s'.deq + s'.capacity ensures SlotOk(s', p) { assert SlotOk(s, p); }
  }

  lemma {:induction false} PopWriteInv<V>(s: System<V>, step: Step<V>)
    requires Inv(s) && Enabled(s, step) && (step.PopMove? || step.PopClear?)
    ensures Inv(Apply(s, step))
  {
    var s' := Apply(s, step);
    var d := s.popper.d;
    assert SlotOk(s, d);
    SetSlotFrame(s, d, SlotOf(s', d));
    assert Shape(s');
    forall u | u in s'.pushers ensures PusherOk(s', u) { assert PusherOk(s, u); }
    forall p | s'.deq <= p < s'.deq + s'.capacity ensures SlotOk(s', p) { assert SlotOk(s, p); }
  }

  lemma {:induction false} PopAdvanceInv<V>(s: System<V>)
    requires Inv(s) && Enabled(s, PopAdvance)
    ensures Inv(Apply(s, PopAdvance))
  {
    var s' := Apply(s, PopAdvance);
    assert SlotOk(s, s.deq);
    assert Shape(s');
    forall u | u in s'.pushers ensures PusherOk(s', u) { assert PusherOk(s, u); }
    forall p | s'.deq <= p < s'.deq + s'.capacity ensures SlotOk(s', p) {
      if p < s.deq + s.capacity {
        assert SlotOk(s, p);
      } else {
        assert p == s.deq + s.capacity;
        ResidueOfNextLap(s.capacity, s.deq);
      }
    }
  }

  lemma {:induction false} StepInv<V>(s: System<V>, step: Step<V>)
    requires Inv(s) && Enabled(s, step)
    ensures Inv(Apply(s, step))
  {
    match step
    case CasWin(t) => CasWinInv(s, t);
    case Construct(_) => SlotWriteInv(s, step);
    case Publish(_) => SlotWriteInv(s, step);
    case PopMove => PopWriteInv(s, step);
    case PopClear => PopWriteInv(s, step);
    case PopAdvance => PopAdvanceInv(s);
    case PopBegin => PopLoadInv(s, step);
    case PopLoadEnqueue => PopLoadInv(s, step);
    case PopLoadDequeue => PopLoadInv(s, step);
    case PopProbe => PopLoadInv(s, step);
    case PopReturn => PopLoadInv(s, step);
    case _ => PushStepInv(s, step);
  }

  lemma {:induction false} RunInv<V>(s: System<V>, steps: seq<Step<V>>)
    requires Inv(s) && ValidRun(s, steps)
    ensures Inv(Exec(s, steps))
    decreases |steps|
  {
    if steps != [] {
      StepInv(s, steps[0]);
      RunInv(Apply(s, steps[0]), steps[1..]);
    }
  }

  // ----- What the queue promises

  /** The abstract FIFO: values reserved and not yet popped, oldest first. */
  ghost function Contents<V>(s: System<V>): seq<V>
    requires Shape(s)
  {
    seq(s.enq - s.deq, i requires 0 <= i < s.enq - s.deq => s.reserved[s.deq + i].value)
  }

  /** What an atomic step does to the abstract FIFO: a won compare-exchange enqueues that producer's
      value, and the store of the dequeue position dequeues. */
  datatype Operation<V> = Stay | Enqueue(v: V) | Dequeue

  function Abstract<V>(s: System<V>, step: Step<V>): Operation<V>
    requires Enabled(s, step)
  {
    match step
    case CasWin(t) => Enqueue(s.pushers[t].v)
    case PopAdvance => Dequeue
    case _ => Stay
  }

  /** One step of a bounded FIFO whose pops are logged. */
  ghost predicate FifoStep<V>(operation: Operation<V>, capacity: nat, before: seq<V>, out: seq<V>, after: seq<V>,
                              out': seq<V>) {
    match operation
    case Stay => after == before && out' == out
    case Enqueue(v) => |before| < capacity && after == before + [v] && out' == out
    case Dequeue => before != [] && after == before[1..] && out' == out + [before[0]]
  }

  /** Every atomic step of every thread is its step of the bounded FIFO. */
  lemma {:induction false} RefinesFifo<V>(s: System<V>, step: Step<V>)
    requires Inv(s) && Enabled(s, step)
    ensures Shape(Apply(s, step))
    ensures FifoStep(Abstract(s, step), s.capacity, Contents(s), s.popped,
                     Contents(Apply(s, step)), Apply(s, step).popped)
  {
    StepInv(s, step);
    var s' := Apply(s, step);
    if step.CasWin? {
      assert PusherOk(s, step.t);
      assert Contents(s') == Contents(s) + [s.pushers[step.t].v];
    } else if step.PopAdvance? {
      assert Contents(s') == Contents(s)[1..];
      assert s'.popped == s.popped + [Contents(s)[0]];
    } else {
      assert Contents(s') == Contents(s) && s'.popped == s.popped;
    }
  }

  /** In every run the popped values are exactly the first `deq` reservations, in reservation order,
      and what is reserved but not popped never exceeds the capacity. */
  lemma {:induction false} RunIsFifo<V>(capacity: nat, producers: set<nat>, junk: V, steps: seq<Step<V>>)
    requires 0 < capacity && ValidRun(Init(capacity, producers, junk), steps)
    ensures
      var s := Exec(Init(capacity, producers, junk), steps);
      && |s.popped| <= |s.reserved| <= |s.popped| + s.capacity
      && (forall i :: 0 <= i < |s.popped| ==> s.popped[i] == s.reserved[i].value)
  {
    InitInv(capacity, producers, junk);
    RunInv(Init(capacity, producers, junk), steps);
  }

  // ----- Program order of each producer

  /** The values of producer `t` among the reservations, in reservation order. */
  function ByProducer<V>(reserved: seq<Entry<V>>, t: nat): seq<V> {
    if reserved == [] then []
    else
      var last := reserved[|reserved| - 1];
      ByProducer(reserved[..|reserved| - 1], t) + if last.producer == t then [last.value] else []
  }

  /** The arguments of the calls that returned true, in call order. */
  function Succeeded<V>(log: seq<Attempt<V>>): seq<V> {
    if log == [] then []
    else
      var last := log[|log| - 1];
      Succeeded(log[..|log| - 1]) + if last.pushed then [last.value] else []
  }

  /** The value of a call that has won its position and not yet returned. */
  function InFlight<V>(pc: Pusher<V>): seq<V> {
    match pc
    case Reserved(v, _) => [v]
    case Constructed(v, _) => [v]
    case Returned(v, pushed) => if pushed then [v] else []
    case _ => []
  }

  ghost predicate OrderKept<V>(s: System<V>, t: nat) {
    && t in s.pushers && t in s.log
    && ByProducer(s.reserved, t) == Succeeded(s.log[t]) + InFlight(s.pushers[t])
  }

  lemma {:induction false} ByProducerAppend<V>(reserved: seq<Entry<V>>, entry: Entry<V>, t: nat)
    ensures ByProducer(reserved + [entry], t)
                == ByProducer(reserved, t) + if entry.producer == t then [entry.value] else []
  {
    assert (reserved + [entry])[..|reserved|] == reserved;
  }

  lemma {:induction false} SucceededAppend<V>(log: seq<Attempt<V>>, attempt: Attempt<V>)
    ensures Succeeded(log + [attempt]) == Succeeded(log) + if attempt.pushed then [attempt.value] else []
  {
    assert (log + [attempt])[..|log|] == log;
  }

  lemma {:induction false} OrderStep<V>(s: System<V>, step: Step<V>, t: nat)
    requires OrderKept(s, t) && Enabled(s, step)
    ensures OrderKept(Apply(s, step), t)
  {
    hide Enabled, Apply, OrderKept;
    if step.CasWin? {
      OrderCasWin(s, step.t, t);
    } else if step.PushReturn? {
      OrderReturn(s, step.t, t);
    } else {
      OrderOther(s, step, t);
    }
  }

  lemma {:induction false} OrderCasWin<V>(s: System<V>, u: nat, t: nat)
    requires OrderKept(s, t) && Enabled(s, CasWin(u))
    ensures OrderKept(Apply(s, CasWin(u)), t)
  {
    var s' := Apply(s, CasWin(u));
    ByProducerAppend(s.reserved, Entry(u, s.pushers[u].v), t);
    hide ByProducer, Succeeded;
    assert s'.log == s.log;
    if u == t {
      var done := Succeeded(s.log[t]);
      assert done + [] == done;
      assert InFlight(s.pushers[t]) == [] && InFlight(s'.pushers[t]) == [s.pushers[t].v];
    }
  }

  lemma {:induction false} OrderReturn<V>(s: System<V>, u: nat, t: nat)
    requires OrderKept(s, t) && Enabled(s, PushReturn(u))
    ensures OrderKept(Apply(s, PushReturn(u)), t)
  {
    var s' := Apply(s, PushReturn(u));
    assert s'.reserved == s.reserved;
    if u == t {
      SucceededAppend(s.log[t], Attempt(s.pushers[t].v, s.pushers[t].pushed));
      hide ByProducer, Succeeded;
      var done := Succeeded(s'.log[t]);
      assert done + [] == done;
    } else {
      assert s'.log[t] == s.log[t] && s'.pushers[t] == s.pushers[t];
    }
  }

  lemma {:induction false} OrderOther<V>(s: System<V>, step: Step<V>, t: nat)
    requires OrderKept(s, t) && Enabled(s, step) && !step.CasWin? && !step.PushReturn?
    ensures OrderKept(Apply(s, step), t)
  {
    var s' := Apply(s, step);
    hide ByProducer, Succeeded;
    assert s'.reserved == s.reserved && s'.log == s.log;
    assert InFlight(s'.pushers[t]) == InFlight(s.pushers[t]);
  }

  lemma {:induction false} OrderRun<V>(s: System<V>, steps: seq<Step<V>>, t: nat)
    requires OrderKept(s, t) && ValidRun(s, steps)
    ensures OrderKept(Exec(s, steps), t)
    decreases |steps|
  {
    hide OrderKept, Enabled, Apply;
    if steps != [] {
      OrderStep(s, steps[0], t);
      OrderRun(Apply(s, steps[0]), steps[1..], t);
    }
  }

  lemma {:induction false} ByProducerPrefix<V>(reserved: seq<Entry<V>>, n: nat, t: nat)
    requires n <= |reserved|
    ensures ByProducer(reserved[..n], t) <= ByProducer(reserved, t)
  {
    if n < |reserved| {
      var most := reserved[..|reserved| - 1];
      ByProducerPrefix(most, n, t);
      assert most[..n] == reserved[..n];
    } else {
      assert reserved[..n] == reserved;
    }
  }

  /** In every run, what has been popped of a producer's values is a prefix of the arguments of its
      successful calls, in the order in which it made them. */
  lemma {:induction false} RunKeepsProgramOrder<V>(capacity: nat, producers: set<nat>, junk: V, steps: seq<Step<V>>,
      t: nat)
    requires 0 < capacity && t in producers && ValidRun(Init(capacity, producers, junk), steps)
    ensures
      var s := Exec(Init(capacity, producers, junk), steps);
      && t in s.pushers && t in s.log && s.deq <= |s.reserved|
      && ByProducer(s.reserved[..s.deq], t) <= Succeeded(s.log[t]) + InFlight(s.pushers[t])
      && (s.pushers[t].Idle? && s.deq == s.enq ==> ByProducer(s.reserved[..s.deq], t) == Succeeded(s.log[t]))
  {
    var s := Exec(Init(capacity, producers, junk), steps);
    InitInv(capacity, producers, junk);
    RunInv(Init(capacity, producers, junk), steps);
    OrderRun(Init(capacity, producers, junk), steps, t);
    ByProducerPrefix(s.reserved, s.deq, t);
    assert s.deq == s.enq ==> s.reserved[..s.deq] == s.reserved;
  }

  /** A producer constructs only into storage that is unready and empty, one full lap behind which
      everything was popped, however stale its fullness test was; the consumer moves only out of
      the object constructed for the oldest position. */
  lemma {:induction false} SlotsAreExclusive<V>(s: System<V>, t: nat)
    requires Inv(s)
    ensures Enabled(s, Construct(t)) ==>
      && !SlotOf(s, s.pushers[t].p).ready && !SlotOf(s, s.pushers[t].p).live
      && s.pushers[t].p < s.deq + s.capacity
      && (forall u :: u in s.pushers && u != t && (s.pushers[u].Reserved? || s.pushers[u].Constructed?) ==>
            s.pushers[u].p % s.capacity != s.pushers[t].p % s.capacity)
    ensures Enabled(s, PopMove) ==>
      && SlotOf(s, s.popper.d).live
      && SlotOf(s, s.popper.d).storage == s.reserved[s.deq].value
  {
    if Enabled(s, Construct(t)) {
      assert PusherOk(s, t);
      assert SlotOk(s, s.pushers[t].p);
      forall u | u in s.pushers && u != t && (s.pushers[u].Reserved? || s.pushers[u].Constructed?)
        ensures s.pushers[u].p % s.capacity != s.pushers[t].p % s.capacity
      {
        assert PusherOk(s, u);
        if s.pushers[u].p % s.capacity == s.pushers[t].p % s.capacity {
          SameResidueNear(s.capacity, s.pushers[u].p, s.pushers[t].p);
        }
      }
    }
    if Enabled(s, PopMove) { assert SlotOk(s, s.deq); }
  }

  /** Exactly when a push will report "full": the occupancy at its enqueue load plus the pops
      completed since its dequeue load reach the capacity.  Without an intervening pop this is
      "the queue is full". */
  lemma {:induction false} RejectsIff<V>(s: System<V>, t: nat)
    requires Inv(s) && Enabled(s, LoadEnqueue(t))
    ensures
      var d := s.pushers[t].d;
      && d <= s.deq
      && (Enabled(Apply(s, LoadEnqueue(t)), RejectFull(t)) <==> |Contents(s)| + (s.deq - d) >= s.capacity)
      && (d == s.deq ==> (Enabled(Apply(s, LoadEnqueue(t)), RejectFull(t)) <==> |Contents(s)| == s.capacity))
  {
    assert PusherOk(s, t);
  }

  // ----- Every call can be finished by its own thread

  predicate OwnPush<V>(step: Step<V>, t: nat) {
    match step
    case PushBegin(u, _) => u == t
    case LoadDequeue(u) => u == t
    case LoadEnqueue(u) => u == t
    case RejectFull(u) => u == t
    case CasWin(u) => u == t
    case CasLose(u) => u == t
    case Construct(u) => u == t
    case Publish(u) => u == t
    case PushReturn(u) => u == t
    case _ => false
  }

  predicate OwnPop<V>(step: Step<V>) {
    || step.PopBegin? || step.PopLoadEnqueue? || step.PopLoadDequeue? || step.PopProbe?
    || step.PopMove? || step.PopClear? || step.PopAdvance?
  }

  /** The answer producer `t` gets if nobody else moves.  What it has loaded decides; after a
      compare-exchange that must fail, whether there is room now. */
  predicate WillPush<V>(s: System<V>, t: nat)
    requires t in s.pushers && !s.pushers[t].Idle?
  {
    match s.pushers[t]
    case Entered(_) => s.enq - s.deq < s.capacity
    case HaveDequeue(_, d) => s.enq - d < s.capacity
    case HaveBoth(_, d, e) => e - d < s.capacity && (e == s.enq || s.enq - s.deq < s.capacity)
    case Reserved(_, _) => true
    case Constructed(_, _) => true
    case Returned(_, pushed) => pushed
  }

  /** What the rest of the call adds to the reservations. */
  function ToReserve<V>(s: System<V>, t: nat): seq<Entry<V>>
    requires t in s.pushers && !s.pushers[t].Idle?
  {
    var pc := s.pushers[t];
    if WillPush(s, t) && InFlight(pc) == [] then [Entry(t, pc.v)] else []
  }

  /** Own steps left until the return. */
  function PushRank<V>(s: System<V>, t: nat): nat
    requires t in s.pushers
  {
    match s.pushers[t]
    case Idle => 0
    case Returned(_, _) => 1
    case Constructed(_, _) => 2
    case Reserved(_, _) => 3
    case HaveBoth(_, _, e) => if e == s.enq then 4 else 7
    case HaveDequeue(_, _) => 5
    case Entered(_) => 6
  }

  /** A call is never stuck: its own thread has a step that brings its return nearer. */
  lemma {:induction false} NextPushStep<V>(s: System<V>, t: nat) returns (step: Step<V>)
    requires Inv(s) && t in s.pushers && !s.pushers[t].Idle?
    ensures Enabled(s, step) && OwnPush(step, t) && !step.PushBegin?
    ensures t in Apply(s, step).pushers && PushRank(Apply(s, step), t) < PushRank(s, t)
    ensures step.PushReturn? <==> s.pushers[t].Returned?
  {
    step := match s.pushers[t]
      case Entered(_) => LoadDequeue(t)
      case HaveDequeue(_, _) => LoadEnqueue(t)
      case HaveBoth(_, d, e) =>
        if e - d >= s.capacity then RejectFull(t) else if e == s.enq then CasWin(t) else CasLose(t)
      case Reserved(_, _) => Construct(t)
      case Constructed(_, _) => Publish(t)
      case Returned(_, _) => PushReturn(t);
  }

  /** A step towards the return changes neither the answer nor what is reserved in the end. */
  lemma {:induction false} PushStepKeepsAnswer<V>(s: System<V>, t: nat, step: Step<V>)
    requires Inv(s) && t in s.pushers && !s.pushers[t].Idle? && Enabled(s, step) && OwnPush(step, t)
    requires !step.PushReturn? && PushRank(Apply(s, step), t) < PushRank(s, t)
    ensures
      var s' := Apply(s, step);
      && !s'.pushers[t].Idle? && s'.pushers[t].v == s.pushers[t].v && WillPush(s', t) == WillPush(s, t)
      && s'.reserved + ToReserve(s', t) == s.reserved + ToReserve(s, t)
      && OthersKept(s, s', t) && s'.log == s.log
  {
  }

  /** Nothing but producer `t` and the reservations changed. */
  ghost predicate OthersKept<V>(s: System<V>, s': System<V>, t: nat) {
    && s'.capacity == s.capacity && s'.deq == s.deq && s'.popped == s.popped && s'.popper == s.popper
    && s'.pushers.Keys == s.pushers.Keys && (forall u :: u in s.pushers && u != t ==> s'.pushers[u] == s.pushers[u])
  }

  /** From every reachable state, a producer inside `TryPush` returns by its own steps, whatever the
      others have left unfinished.  It returns true, and its value is reserved, exactly as
      `WillPush` says. */
  lemma {:induction false} PushFinishes<V>(s: System<V>, t: nat) returns (steps: seq<Step<V>>)
    requires Inv(s) && t in s.pushers && !s.pushers[t].Idle? && t in s.log
    ensures ValidRun(s, steps) && forall i :: 0 <= i < |steps| ==> OwnPush(steps[i], t)
    ensures
      var s' := Exec(s, steps);
      && Inv(s') && OthersKept(s, s', t) && s'.pushers[t].Idle?
      && s'.log == s.log[t := s.log[t] + [Attempt(s.pushers[t].v, WillPush(s, t))]]
      && s'.reserved == s.reserved + ToReserve(s, t)
    decreases PushRank(s, t)
  {
    var step := NextPushStep(s, t);
    StepInv(s, step);
    if step.PushReturn? {
      steps := [step];
      assert ToReserve(s, t) == [] && s.reserved + [] == s.reserved;
    } else {
      PushStepKeepsAnswer(s, t, step);
      hide Inv, WillPush, ToReserve, PushRank, Enabled, Apply;
      var rest := PushFinishes(Apply(s, step), t);
      steps := [step] + rest;
      assert steps[1..] == rest;
    }
  }

  /** `TryPush` undisturbed: it returns true and queues the value behind all others if there is room,
      and returns false and changes nothing if there is none. */
  lemma {:induction false} TryPushAnswers<V>(s: System<V>, t: nat, v: V) returns (steps: seq<Step<V>>)
    requires Inv(s) && t in s.pushers && s.pushers[t].Idle? && t in s.log
    ensures ValidRun(s, steps) && forall i :: 0 <= i < |steps| ==> OwnPush(steps[i], t)
    ensures
      var s' := Exec(s, steps);
      var room := s.enq - s.deq < s.capacity;
      && Inv(s') && OthersKept(s, s', t) && s'.pushers[t].Idle?
      && s'.log == s.log[t := s.log[t] + [Attempt(v, room)]]
      && s'.enq == s.enq + (if room then 1 else 0)
      && Contents(s') == Contents(s) + (if room then [v] else [])
      && (room ==> SlotOf(s', s.enq).ready)
  {
    var begin := PushBegin(t, v);
    StepInv(s, begin);
    var s1 := Apply(s, begin);
    var rest := PushFinishes(s1, t);
    steps := [begin] + rest;
    assert steps[1..] == rest;
    var s' := Exec(s1, rest);
    assert s.enq - s.deq < s.capacity ==> SlotOk(s', s.enq);
    ContentsAfterPush(s, s', if s.enq - s.deq < s.capacity then [Entry(t, v)] else []);
  }

  lemma {:induction false} ContentsAfterPush<V>(s: System<V>, s': System<V>, more: seq<Entry<V>>)
    requires Shape(s) && Shape(s') && s'.deq == s.deq && s'.reserved == s.reserved + more && |more| <= 1
    ensures Contents(s') == Contents(s) + if more == [] then [] else [more[0].value]
  {
    assert Contents(s') == Contents(s) + if more == [] then [] else [more[0].value];
  }

  /** The answer the consumer gets if nobody else moves: the oldest position is reserved, as far as it
      has looked, and published. */
  predicate WillPop<V>(s: System<V>)
    requires WellShaped(s)
  {
    match s.popper
    case PopEntered => s.deq < s.enq && SlotOf(s, s.deq).ready
    case HaveEnqueue(e) => s.deq < e && SlotOf(s, s.deq).ready
    case Probing(_) => SlotOf(s, s.deq).ready
    case Owning(_) => true
    case Moved(_, _) => true
    case Cleared(_, _) => true
    case PopReturned(got, _) => got
    case Resting => false
  }

  function PopRank<V>(popper: Popper<V>): nat {
    match popper
    case PopEntered => 6
    case HaveEnqueue(_) => 5
    case Probing(_) => 4
    case Owning(_) => 3
    case Moved(_, _) => 2
    case Cleared(_, _) => 1
    case _ => 0
  }

  lemma {:induction false} NextPopStep<V>(s: System<V>) returns (step: Step<V>)
    requires Inv(s) && !s.popper.Resting? && !s.popper.PopReturned?
    ensures Enabled(s, step) && OwnPop(step) && !step.PopBegin?
    ensures PopRank(Apply(s, step).popper) < PopRank(s.popper)
  {
    step := match s.popper
      case PopEntered => PopLoadEnqueue
      case HaveEnqueue(_) => PopLoadDequeue
      case Probing(_) => PopProbe
      case Owning(_) => PopMove
      case Moved(_, _) => PopClear
      case _ => PopAdvance;
  }

  lemma {:induction false} PopStepKeepsAnswer<V>(s: System<V>, step: Step<V>)
    requires Inv(s) && !s.popper.Resting? && !s.popper.PopReturned? && Enabled(s, step) && OwnPop(step)
    ensures
      var s' := Apply(s, step);
      && !s'.popper.Resting? && WillPop(s') == WillPop(s) && ProducersKept(s, s')
      && (if step.PopAdvance? then s'.popper.PopReturned? && s'.popper == PopReturned(true, s.reserved[s.deq].value)
                                   && s'.deq == s.deq + 1
          else s'.deq == s.deq)
  {
  }

  /** Nothing but the consumer and its position changed. */
  ghost predicate ProducersKept<V>(s: System<V>, s': System<V>) {
    && s'.capacity == s.capacity && s'.enq == s.enq && s'.reserved == s.reserved
    && s'.pushers == s.pushers && s'.log == s.log
  }

  /** From every reachable state, the consumer inside `TryPop` comes to its answer by its own steps. */
  lemma {:induction false} PopFinishes<V>(s: System<V>) returns (steps: seq<Step<V>>)
    requires Inv(s) && !s.popper.Resting? && !s.popper.PopReturned?
    ensures ValidRun(s, steps) && forall i :: 0 <= i < |steps| ==> OwnPop(steps[i])
    ensures
      var s' := Exec(s, steps);
      && Inv(s') && ProducersKept(s, s') && s'.popper.PopReturned? && s'.popper.got == WillPop(s)
      && s'.deq == s.deq + (if WillPop(s) then 1 else 0)
      && (WillPop(s) ==> s.deq < |s.reserved| && s'.popper.v == s.reserved[s.deq].value)
    decreases PopRank(s.popper)
  {
    var step := NextPopStep(s);
    StepInv(s, step);
    PopStepKeepsAnswer(s, step);
    var s' := Apply(s, step);
    if s'.popper.PopReturned? {
      steps := [step];
      assert PopperOk(s);
    } else {
      hide Inv, WillPop, PopRank, Enabled, Apply;
      var rest := PopFinishes(s');
      steps := [step] + rest;
      assert steps[1..] == rest;
    }
  }

  /** `TryPop` undisturbed: it returns the oldest value if that is published, and false otherwise. */
  lemma {:induction false} TryPopAnswers<V>(s: System<V>) returns (steps: seq<Step<V>>)
    requires Inv(s) && s.popper.Resting?
    ensures ValidRun(s, steps) && forall i :: 0 <= i < |steps| ==> OwnPop(steps[i])
    ensures
      var s' := Exec(s, steps);
      var ready := s.deq < s.enq && SlotOf(s, s.deq).ready;
      && Inv(s') && ProducersKept(s, s') && s'.popper.PopReturned? && s'.popper.got == ready
      && (if ready then Contents(s) == [s'.popper.v] + Contents(s') else Contents(s') == Contents(s))
  {
    StepInv(s, PopBegin);
    var s1 := Apply(s, PopBegin);
    var rest := PopFinishes(s1);
    steps := [PopBegin] + rest;
    assert steps[1..] == rest;
    ContentsAfterPop(s, Exec(s1, rest));
  }

  lemma {:induction false} ContentsAfterPop<V>(s: System<V>, s': System<V>)
    requires Shape(s) && Shape(s') && s'.enq == s.enq && s'.reserved == s.reserved
    ensures s'.deq == s.deq ==> Contents(s') == Contents(s)
    ensures s'.deq == s.deq + 1 ==> Contents(s) == [s.reserved[s.deq].value] + Contents(s')
  {
    if s'.deq == s.deq { assert Contents(s') == Contents(s); }
    if s'.deq == s.deq + 1 { assert Contents(s) == [s.reserved[s.deq].value] + Contents(s'); }
  }

  /** No state along the run holds `capacity` values. */
  ghost predicate NeverFull<V>(s: System<V>, steps: seq<Step<V>>)
    requires ValidRun(s, steps)
    decreases |steps|
  {
    && s.enq - s.deq < s.capacity
    && (steps == [] || NeverFull(Apply(s, steps[0]), steps[1..]))
  }

  /** The run never fills the queue and ends where producer `t` reports it full. */
  ghost predicate RejectedWithoutBeingFull<V>(s: System<V>, steps: seq<Step<V>>, t: nat) {
    ValidRun(s, steps) && NeverFull(s, steps) && Enabled(Exec(s, steps), RejectFull(t))
  }

  // ----- When a rejection proves that the queue was full

  /** The positions producer `t` holds, if any, show room. */
  ghost predicate LoadsShowRoom<V>(s: System<V>, t: nat) {
    && (t in s.pushers && s.pushers[t].HaveDequeue? ==> s.enq - s.pushers[t].d < s.capacity)
    && (t in s.pushers && s.pushers[t].HaveBoth? ==> s.pushers[t].e - s.pushers[t].d < s.capacity)
  }

  ghost predicate LoneOrSingle<V>(s: System<V>) {
    s.capacity <= 1 || forall t, u :: t in s.pushers && u in s.pushers ==> t == u
  }

  lemma {:induction false} LoadsShowRoomStep<V>(s: System<V>, step: Step<V>, t: nat)
    requires LoadsShowRoom(s, t) && LoneOrSingle(s) && Enabled(s, step)
    requires s.enq - s.deq < s.capacity && Apply(s, step).enq - Apply(s, step).deq < s.capacity
    requires s.deq <= s.enq
    ensures LoadsShowRoom(Apply(s, step), t) && LoneOrSingle(Apply(s, step))
  {
  }

  lemma {:induction false} LoneNeverRejected<V>(s: System<V>, steps: seq<Step<V>>, t: nat)
    requires Inv(s) && LoadsShowRoom(s, t) && LoneOrSingle(s) && ValidRun(s, steps) && NeverFull(s, steps)
    ensures !Enabled(Exec(s, steps), RejectFull(t))
    decreases |steps|
  {
    hide Inv, LoadsShowRoom, LoneOrSingle;
    if steps == [] {
      assert !Enabled(s, RejectFull(t)) by { RoomMeansNoRejection(s, t); }
    } else {
      StepInv(s, steps[0]);
      assert s.deq <= s.enq by { PositionsOrdered(s); }
      LoadsShowRoomStep(s, steps[0], t);
      LoneNeverRejected(Apply(s, steps[0]), steps[1..], t);
    }
  }

  lemma {:induction false} RoomMeansNoRejection<V>(s: System<V>, t: nat)
    requires LoadsShowRoom(s, t)
    ensures !Enabled(s, RejectFull(t))
  {
  }

  lemma {:induction false} PositionsOrdered<V>(s: System<V>)
    requires Inv(s)
    ensures s.deq <= s.enq <= s.deq + s.capacity
  {
  }

  /** `steps` lead from `start` to `s` without ever filling the queue. */
  ghost predicate Leads<V>(start: System<V>, steps: seq<Step<V>>, s: System<V>) {
    ValidRun(start, steps) && NeverFull(start, steps) && Exec(start, steps) == s && Inv(s)
  }

  lemma {:induction false} Extend<V>(start: System<V>, steps: seq<Step<V>>, s: System<V>, step: Step<V>)
    returns (steps': seq<Step<V>>)
    requires Leads(start, steps, s) && Enabled(s, step) && Apply(s, step).enq - Apply(s, step).deq < s.capacity
    ensures Leads(start, steps', Apply(s, step))
  {
    steps' := steps + [step];
    StepInv(s, step);
    ExtendRun(start, steps, step);
  }

  lemma {:induction false} ExtendRun<V>(start: System<V>, steps: seq<Step<V>>, step: Step<V>)
    requires ValidRun(start, steps) && NeverFull(start, steps) && Enabled(Exec(start, steps), step)
    requires Apply(Exec(start, steps), step).enq - Apply(Exec(start, steps), step).deq
                 < Apply(Exec(start, steps), step).capacity
    ensures ValidRun(start, steps + [step]) && NeverFull(start, steps + [step])
    ensures Exec(start, steps + [step]) == Apply(Exec(start, steps), step)
    decreases |steps|
  {
    hide Enabled, Apply;
    if steps == [] {
      assert [step][1..] == [];
    } else {
      assert (steps + [step])[1..] == steps[1..] + [step];
      ExtendRun(Apply(start, steps[0]), steps[1..], step);
    }
  }

  /** Only the positions matter here: `s'` is `s` after `pushed` more pushes and `popped` more pops. */
  ghost predicate Advanced<V>(s: System<V>, s': System<V>, pushed: nat, popped: nat) {
    && s'.capacity == s.capacity && s'.enq == s.enq + pushed && s'.deq == s.deq + popped
    && s'.pushers == s.pushers && s'.popper == s.popper
  }

  lemma {:induction false} PushOne<V>(start: System<V>, steps: seq<Step<V>>, s: System<V>, t: nat, v: V)
    returns (steps': seq<Step<V>>, s': System<V>)
    requires Leads(start, steps, s) && t in s.pushers && s.pushers[t].Idle? && s.enq + 1 - s.deq < s.capacity
    ensures Leads(start, steps', s') && Advanced(s, s', 1, 0)
  {
    steps', s' := Reserve(start, steps, s, t, v);
    steps', s' := Complete(start, steps', s', t);
    assert s'.pushers == s.pushers;
  }

  lemma {:induction false} Reserve<V>(start: System<V>, steps: seq<Step<V>>, s: System<V>, t: nat, v: V)
    returns (steps': seq<Step<V>>, s': System<V>)
    requires Leads(start, steps, s) && t in s.pushers && s.pushers[t].Idle? && s.enq + 1 - s.deq < s.capacity
    ensures Leads(start, steps', s') && s'.capacity == s.capacity && s'.enq == s.enq + 1 && s'.deq == s.deq
    ensures s'.popper == s.popper && s'.pushers == s.pushers[t := Reserved(v, s.enq)]
  {
    hide Leads;
    assert WellShaped(s) by { LeadsShaped(start, steps, s); }
    steps' := Extend(start, steps, s, PushBegin(t, v));
    s' := Apply(s, PushBegin(t, v));
    steps' := Extend(start, steps', s', LoadDequeue(t));
    s' := Apply(s', LoadDequeue(t));
    steps' := Extend(start, steps', s', LoadEnqueue(t));
    s' := Apply(s', LoadEnqueue(t));
    steps' := Extend(start, steps', s', CasWin(t));
    s' := Apply(s', CasWin(t));
  }

  lemma {:induction false} Complete<V>(start: System<V>, steps: seq<Step<V>>, s: System<V>, t: nat)
    returns (steps': seq<Step<V>>, s': System<V>)
    requires Leads(start, steps, s) && t in s.pushers && s.pushers[t].Reserved? && s.enq - s.deq < s.capacity
    ensures Leads(start, steps', s') && s'.capacity == s.capacity && s'.enq == s.enq && s'.deq == s.deq
    ensures s'.popper == s.popper && s'.pushers == s.pushers[t := Idle]
  {
    hide Leads;
    assert WellShaped(s) by { LeadsShaped(start, steps, s); }
    steps' := Extend(start, steps, s, Construct(t));
    s' := Apply(s, Construct(t));
    steps' := Extend(start, steps', s', Publish(t));
    s' := Apply(s', Publish(t));
    steps' := Extend(start, steps', s', PushReturn(t));
    s' := Apply(s', PushReturn(t));
  }

  lemma {:induction false} LeadsShaped<V>(start: System<V>, steps: seq<Step<V>>, s: System<V>)
    requires Leads(start, steps, s)
    ensures WellShaped(s)
  {
  }

  lemma {:induction false} PushMany<V>(start: System<V>, steps: seq<Step<V>>, s: System<V>, t: nat, v: V, n: nat)
    returns (steps': seq<Step<V>>, s': System<V>)
    requires Leads(start, steps, s) && t in s.pushers && s.pushers[t].Idle? && s.enq + n - s.deq < s.capacity
    ensures Leads(start, steps', s') && Advanced(s, s', n, 0)
    decreases n
  {
    if n == 0 {
      steps', s' := steps, s;
    } else {
      steps', s' := PushOne(start, steps, s, t, v);
      steps', s' := PushMany(start, steps', s', t, v, n - 1);
    }
  }

  lemma {:induction false} PopOne<V>(start: System<V>, steps: seq<Step<V>>, s: System<V>)
    returns (steps': seq<Step<V>>, s': System<V>)
    requires Leads(start, steps, s) && s.popper.Resting? && s.deq < s.enq < s.deq + s.capacity
    requires forall t :: t in s.pushers ==> !s.pushers[t].Reserved? && !s.pushers[t].Constructed?
    ensures Leads(start, steps', s') && Advanced(s, s', 0, 1)
  {
    steps', s' := FindOldest(start, steps, s);
    hide Leads;
    steps' := Extend(start, steps', s', PopMove);
    s' := Apply(s', PopMove);
    steps' := Extend(start, steps', s', PopClear);
    s' := Apply(s', PopClear);
    steps' := Extend(start, steps', s', PopAdvance);
    s' := Apply(s', PopAdvance);
    steps' := Extend(start, steps', s', PopReturn);
    s' := Apply(s', PopReturn);
  }

  lemma {:induction false} FindOldest<V>(start: System<V>, steps: seq<Step<V>>, s: System<V>)
    returns (steps': seq<Step<V>>, s': System<V>)
    requires Leads(start, steps, s) && s.popper.Resting? && s.deq < s.enq < s.deq + s.capacity
    requires forall t :: t in s.pushers ==> !s.pushers[t].Reserved? && !s.pushers[t].Constructed?
    ensures Leads(start, steps', s') && WellShaped(s') && s' == s.(popper := Owning(s.deq))
  {
    assert WellShaped(s) && SlotOf(s, s.deq).ready by { assert SlotOk(s, s.deq); }
    hide Leads;
    steps' := Extend(start, steps, s, PopBegin);
    s' := s.(popper := PopEntered);
    steps' := Extend(start, steps', s', PopLoadEnqueue);
    s' := s.(popper := HaveEnqueue(s.enq));
    steps' := Extend(start, steps', s', PopLoadDequeue);
    s' := s.(popper := Probing(s.deq));
    steps' := Extend(start, steps', s', PopProbe);
    s' := s.(popper := Owning(s.deq));
  }

  /** Producer `a` reads the dequeue position, one value is popped and one pushed, and then `a` reads
      the enqueue position: with room for one more all along, it reports the queue full. */
  lemma {:induction false} StaleLoadRejects<V>(capacity: nat, producers: set<nat>, junk: V, a: nat, b: nat)
    returns (steps: seq<Step<V>>)
    requires 2 <= capacity && a in producers && b in producers && a != b
    ensures RejectedWithoutBeingFull(Init(capacity, producers, junk), steps, a)
  {
    var start := Init(capacity, producers, junk);
    InitInv(capacity, producers, junk);
    var s := start;
    steps := [];
    assert Leads(start, steps, s);
    steps, s := PushMany(start, steps, s, b, junk, capacity - 1);
    steps := Extend(start, steps, s, PushBegin(a, junk));
    s := Apply(s, PushBegin(a, junk));
    steps := Extend(start, steps, s, LoadDequeue(a));
    s := Apply(s, LoadDequeue(a));
    steps, s := PopOne(start, steps, s);
    steps, s := PushOne(start, steps, s, b, junk);
    steps := Extend(start, steps, s, LoadEnqueue(a));
  }

  /** "TryPush fails only if the queue was full at some moment of the call" is false: a queue of two
      slots that never holds two values still rejects producer 0. */
  lemma {:induction false} FalseFull() returns (steps: seq<Step<int>>)
    ensures RejectedWithoutBeingFull(Init(2, {0, 1}, 0), steps, 0)
  {
    steps := StaleLoadRejects(2, {0, 1}, 0, 0, 1);
  }

  lemma {:induction false} AtMostOne(producers: set<nat>, t: nat, u: nat)
    requires |producers| <= 1 && t in producers && u in producers
    ensures t == u
  {
    assert |producers - {t}| == 0;
    assert u !in producers - {t};
  }

  lemma {:induction false} LoneRuns<V>(s: System<V>, steps: seq<Step<V>>)
    requires LoneOrSingle(s) && ValidRun(s, steps)
    ensures LoneOrSingle(Exec(s, steps))
    decreases |steps|
  {
    hide LoneOrSingle;
    if steps != [] {
      LoneStep(s, steps[0]);
      LoneRuns(Apply(s, steps[0]), steps[1..]);
    }
  }

  lemma {:induction false} LoneStep<V>(s: System<V>, step: Step<V>)
    requires LoneOrSingle(s) && Enabled(s, step)
    ensures LoneOrSingle(Apply(s, step))
  {
  }

  /** After `before`, producer `t` is outside `TryPush`; from then on the queue is never full, and `t`
      still comes to report it full. */
  ghost predicate FalselyRejected<V>(start: System<V>, before: seq<Step<V>>, steps: seq<Step<V>>, t: nat) {
    && ValidRun(start, before)
    && t in Exec(start, before).pushers && Exec(start, before).pushers[t].Idle?
    && RejectedWithoutBeingFull(Exec(start, before), steps, t)
  }

  /** Exactly which queues can report "full" although they were not full at any moment of the call:
      those with at least two slots and at least two producers.  With one slot or one producer, a
      rejection proves that the queue was full during the call. */
  lemma {:induction false} FalseFullExactlyWhen<V(!new)>(capacity: nat, producers: set<nat>, junk: V)
    requires 0 < capacity
    ensures (exists before, steps, t :: FalselyRejected(Init(capacity, producers, junk), before, steps, t)) <==>
            2 <= capacity && 2 <= |producers|
  {
    var start := Init(capacity, producers, junk);
    if 2 <= capacity && 2 <= |producers| {
      var a :| a in producers;
      assert |producers - {a}| >= 1;
      var b :| b in producers - {a};
      var steps := StaleLoadRejects(capacity, producers, junk, a, b);
      assert FalselyRejected(start, [], steps, a);
    } else {
      InitInv(capacity, producers, junk);
      forall t, u | t in start.pushers && u in start.pushers && 1 < capacity
        ensures t == u
      {
        AtMostOne(producers, t, u);
      }
      assert LoneOrSingle(start);
      forall before, steps, t
        ensures !FalselyRejected(start, before, steps, t)
      {
        NotFalselyRejected(start, before, steps, t);
      }
    }
  }

  lemma {:induction false} NotFalselyRejected<V>(start: System<V>, before: seq<Step<V>>, steps: seq<Step<V>>, t: nat)
    requires Inv(start) && LoneOrSingle(start)
    ensures !FalselyRejected(start, before, steps, t)
  {
    hide Inv, LoneOrSingle, Enabled;
    if ValidRun(start, before) {
      var s := Exec(start, before);
      RunInv(start, before);
      LoneRuns(start, before);
      if t in s.pushers && s.pushers[t].Idle? && ValidRun(s, steps) && NeverFull(s, steps) {
        LoneNeverRejected(s, steps, t);
      }
    }
  }
}
