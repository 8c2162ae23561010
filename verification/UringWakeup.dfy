/**
 Cross-thread control of the event loop (src/io/uring/context.cpp): Post, RequestStop, the eventfd and
 its multishot poll, and the run thread's handling of a wakeup completion, as a transition system.
 The kernel raises a completion for every eventfd write while the poll is armed, and for an eventfd
 that is already readable when the poll is armed; it may merge completions, end the multishot poll
 at a completion, and takes effect of a cancellation at any later time.
 */
module UringWakeup {

  /** `more` tells whether the completion being handled left the poll armed. */
  datatype RunThread =
    | Starting
    | Idle
    | ToConsume(more: bool)
    | ToSwap(more: bool)
    | Running(more: bool, batch: seq<nat>)
    | Checking(more: bool)
    | Finished

  /** `signalling` counts the threads between their critical section and their eventfd write.
      `observed` is set once the run thread has seen the stop request.  `accepted` and `executed`
      are history. */
  datatype State = State(
    queue: seq<nat>,
    accepting: bool,
    stop: bool,
    signalling: nat,
    counter: nat,
    armed: bool,
    completion: bool,
    observed: bool,
    run: RunThread,
    accepted: seq<nat>,
    executed: seq<nat>)

  datatype Step =
    | Post(callback: nat)
    | RequestStop
    | Signal
    | Start
    | Wake(more: bool, again: bool)
    | Consume
    | Swap
    | Execute
    | EndBatch
    | Check
    | CancelTakesEffect
    | Finish

  function Init(): State {
    State([], true, false, 0, 0, false, false, false, Starting, [], [])
  }

  predicate Enabled(s: State, step: Step) {
    match step
    case Post(_) => true
    case RequestStop => true
    case Signal => s.signalling > 0
    case Start => s.run.Starting?
    case Wake(more, again) => s.run.Idle? && s.completion && (again ==> more) && (!more ==> s.armed)
    case Consume => s.run.ToConsume?
    case Swap => s.run.ToSwap?
    case Execute => s.run.Running? && s.run.batch != []
    case EndBatch => s.run.Running? && s.run.batch == []
    case Check => s.run.Checking?
    case CancelTakesEffect => s.observed && s.armed
    case Finish => s.run.Idle? && s.observed && !s.armed && !s.completion
  }

  function Apply(s: State, step: Step): State
    requires Enabled(s, step)
  {
    match step
    case Post(callback) =>
      if !s.accepting then s
      else s.(queue := s.queue + [callback], accepted := s.accepted + [callback],
              signalling := s.signalling + if s.queue == [] then 1 else 0)
    case RequestStop =>
      if !s.accepting then s else s.(accepting := false, stop := true, signalling := s.signalling + 1)
    case Signal => s.(signalling := s.signalling - 1, counter := s.counter + 1, completion := s.completion || s.armed)
    case Start => s.(armed := true, completion := s.completion || s.counter > 0, run := Idle)
    case Wake(more, again) => s.(completion := again, armed := s.armed && more, run := ToConsume(more))
    case Consume => s.(counter := 0, run := ToSwap(s.run.more))
    case Swap => s.(queue := [], run := Running(s.run.more, s.queue))
    case Execute => s.(executed := s.executed + [s.run.batch[0]], run := Running(s.run.more, s.run.batch[1..]))
    case EndBatch => s.(run := Checking(s.run.more))
    case Check =>
      if s.stop then s.(observed := true, run := Idle)
      else if s.run.more then s.(run := Idle)
      else s.(armed := true, completion := s.completion || s.counter > 0, run := Idle)
    case CancelTakesEffect => s.(armed := false)
    case Finish => s.(run := Finished)
  }

  predicate ValidRun(s: State, steps: seq<Step>)
    decreases |steps|
  {
    steps == [] || (Enabled(s, steps[0]) && ValidRun(Apply(s, steps[0]), steps[1..]))
  }

  function Exec(s: State, steps: seq<Step>): State
    requires ValidRun(s, steps)
    decreases |steps|
  {
    if steps == [] then s else Exec(Apply(s, steps[0]), steps[1..])
  }

  function Batch(run: RunThread): seq<nat> {
    if run.Running? then run.batch else []
  }

  /** A queued callback has a signal in the eventfd, a poster about to signal, or a run thread between
      consuming the signal and taking the queue. */
  predicate WakeOnItsWay(s: State) {
    s.queue != [] ==> s.signalling > 0 || s.counter > 0 || s.run.ToSwap?
  }

  /** A stop request is on its way to the run thread or has been seen by it. */
  predicate StopOnItsWay(s: State) {
    s.stop ==> s.signalling > 0 || s.counter > 0 || s.run.ToSwap? || s.run.Running? || s.run.Checking? || s.observed
  }

  /** A readable eventfd has a completion, or the poll is not armed, which arming will notice. */
  predicate SignalIsSeen(s: State) {
    s.counter > 0 ==> s.completion || s.run.ToConsume? || !s.armed
  }

  /** The poll is armed except before the start, while a completion that ended it is handled, and
      once the stop has been seen. */
  predicate PollIsArmed(s: State) {
    || s.armed || s.run.Starting? || s.observed
    || (s.run.ToConsume? && !s.run.more) || (s.run.ToSwap? && !s.run.more)
    || (s.run.Running? && !s.run.more) || (s.run.Checking? && !s.run.more)
  }

  /** What was accepted has been executed, is being executed or waits, in this order. */
  ghost predicate InOrder(s: State) {
    s.accepted == s.executed + Batch(s.run) + s.queue
  }

  predicate FlagsAgree(s: State) {
    && (s.stop <==> !s.accepting) && (s.observed ==> s.stop && !s.run.Starting?)
    && (s.run.Finished? ==> s.observed && !s.armed && !s.completion)
  }

  ghost predicate Inv(s: State) {
    InOrder(s) && FlagsAgree(s) && WakeOnItsWay(s) && StopOnItsWay(s) && SignalIsSeen(s) && PollIsArmed(s)
  }

  lemma {:induction false} StepInv(s: State, step: Step)
    requires Inv(s) && Enabled(s, step)
    ensures Inv(Apply(s, step))
  {
    assert InOrder(Apply(s, step)) by { hide *; OrderStep(s, step); }
    hide InOrder;
  }

  lemma {:induction false} OrderStep(s: State, step: Step)
    requires InOrder(s) && Enabled(s, step)
    ensures InOrder(Apply(s, step))
  {
    match step
    case Post(c) => assert s.executed + Batch(s.run) + s.queue + [c] == s.executed + Batch(s.run) + (s.queue + [c]);
    case Swap => assert s.executed + [] + s.queue == s.executed + s.queue + [];
    case Execute => ExecuteKeepsOrder(s.executed, s.run.batch, s.queue);
    case _ =>
  }

  lemma {:induction false} ExecuteKeepsOrder(executed: seq<nat>, batch: seq<nat>, queue: seq<nat>)
    requires batch != []
    ensures executed + batch + queue == executed + [batch[0]] + batch[1..] + queue
  {
    assert batch == [batch[0]] + batch[1..];
  }

  lemma {:induction false} RunInv(s: State, steps: seq<Step>)
    requires Inv(s) && ValidRun(s, steps)
    ensures Inv(Exec(s, steps))
    decreases |steps|
  {
    hide Inv, Enabled, Apply;
    if steps != [] {
      StepInv(s, steps[0]);
      RunInv(Apply(s, steps[0]), steps[1..]);
    }
  }

  /** Every run: callbacks execute in the order in which they were accepted, each at most once; a
      waiting callback always has a wakeup on its way; and so does a stop request. */
  lemma {:induction false} CallbacksRunInOrder(steps: seq<Step>)
    requires ValidRun(Init(), steps)
    ensures
      var s := Exec(Init(), steps);
      && s.executed <= s.accepted && s.accepted == s.executed + Batch(s.run) + s.queue
      && WakeOnItsWay(s) && StopOnItsWay(s)
  {
    RunInv(Init(), steps);
    var s := Exec(Init(), steps);
    assert s.executed + Batch(s.run) + s.queue == s.executed + (Batch(s.run) + s.queue);
  }

  /** The callbacks posted before the first stop request, in posting order. */
  function PostedBeforeStop(steps: seq<Step>): seq<nat> {
    if steps == [] || steps[0].RequestStop? then []
    else (if steps[0].Post? then [steps[0].callback] else []) + PostedBeforeStop(steps[1..])
  }

  /** Whatever is queued, a post is accepted while the context accepts and ignored afterwards. */
  lemma {:induction false} PostsAreAccepted(s: State, steps: seq<Step>)
    requires ValidRun(s, steps)
    ensures Exec(s, steps).accepted == s.accepted + if s.accepting then PostedBeforeStop(steps) else []
    decreases |steps|
  {
    if steps == [] {
      assert s.accepted + [] == s.accepted;
    } else {
      var step, rest := steps[0], steps[1..];
      var now := if s.accepting && step.Post? then [step.callback] else [];
      var later := if s.accepting && !step.RequestStop? then PostedBeforeStop(rest) else [];
      assert Exec(s, steps) == Exec(Apply(s, step), rest);
      assert (if s.accepting then PostedBeforeStop(steps) else []) == now + later;
      AcceptStep(s, step);
      PostsAreAccepted(Apply(s, step), rest);
      hide *;
      Regroup(s.accepted, now, later);
    }
  }

  lemma {:induction false} Regroup(a: seq<nat>, b: seq<nat>, c: seq<nat>)
    ensures (a + b) + c == a + (b + c)
  {
  }

  lemma {:induction false} AcceptStep(s: State, step: Step)
    requires Enabled(s, step)
    ensures Apply(s, step).accepting <==> s.accepting && !step.RequestStop?
    ensures Apply(s, step).accepted == s.accepted + if s.accepting && step.Post? then [step.callback] else []
  {
    assert s.accepted + [] == s.accepted;
  }

  /** Only the first stop request has an effect. */
  lemma {:induction false} StopOnce(s: State)
    requires Inv(s) && s.stop
    ensures Enabled(s, RequestStop) && Apply(s, RequestStop) == s
  {
  }

  /** In every run exactly the callbacks posted before the stop request are accepted, and what has been
      executed is a prefix of them. */
  lemma {:induction false} ExecutesWhatWasPosted(steps: seq<Step>)
    requires ValidRun(Init(), steps)
    ensures
      var s := Exec(Init(), steps);
      s.accepted == PostedBeforeStop(steps) && s.executed <= PostedBeforeStop(steps)
  {
    PostsAreAccepted(Init(), steps);
    CallbacksRunInOrder(steps);
    assert [] + PostedBeforeStop(steps) == PostedBeforeStop(steps);
  }

  // ----- Until the stop request, every accepted callback runs

  function IdleRank(queue: seq<nat>, completion: bool): nat {
    if queue == [] then 0 else |queue| + 5 + (if completion then 0 else 1)
  }

  function Rank(s: State): nat {
    match s.run
    case Starting => 1 + IdleRank(s.queue, false)
    case Idle => IdleRank(s.queue, s.completion)
    case ToConsume(_) => |s.queue| + 4
    case ToSwap(_) => |s.queue| + 3
    case Running(_, batch) => |batch| + 2 + IdleRank(s.queue, false)
    case Checking(_) => 1 + IdleRank(s.queue, false)
    case Finished => 0
  }

  /** A step of the run thread or of a thread about to signal. */
  predicate Quiet(step: Step) {
    !step.Post? && !step.RequestStop?
  }

  lemma {:induction false} NextStep(s: State) returns (step: Step)
    requires Inv(s) && !s.stop && (s.run.Idle? ==> s.queue != [])
    ensures Enabled(s, step) && Quiet(step)
    ensures Rank(Apply(s, step)) < Rank(s) && !Apply(s, step).stop && Apply(s, step).accepted == s.accepted
  {
    match s.run
    case Starting => step := Start;
    case Idle => step := if s.completion then Wake(true, false) else Signal;
    case ToConsume(_) => step := Consume;
    case ToSwap(_) => step := Swap;
    case Running(_, batch) => step := if batch == [] then EndBatch else Execute;
    case Checking(_) => step := Check;
  }

  /** As long as no stop was requested, the run thread and the pending signals alone get every
      accepted callback executed. */
  lemma {:induction false} AcceptedCallbacksRun(s: State) returns (steps: seq<Step>)
    requires Inv(s) && !s.stop
    ensures ValidRun(s, steps) && (forall i :: 0 <= i < |steps| ==> Quiet(steps[i]))
    ensures Exec(s, steps).executed == s.accepted
    decreases Rank(s)
  {
    if s.run.Idle? && s.queue == [] {
      assert s.executed + [] + [] == s.executed;
      return [];
    }
    var step := NextStep(s);
    StepInv(s, step);
    var rest := AcceptedCallbacksRun(Apply(s, step));
    steps := [step] + rest;
    assert steps[1..] == rest;
  }

  // ----- What a stop leaves behind

  /** After a stop request: no callback waits, or the run thread takes the queue once more before it
      can finish. */
  predicate WillDrain(s: State) {
    || s.queue == [] || s.completion || s.run.ToConsume? || s.run.ToSwap?
    || (!s.observed && (s.run.Idle? || s.run.Starting?))
  }

  /** Every continuation in which Run returns has executed everything that was accepted. */
  ghost predicate AlwaysDrained(s: State) {
    forall steps :: ValidRun(s, steps) && Exec(s, steps).run.Finished? ==>
      Exec(s, steps).executed == Exec(s, steps).accepted
  }

  lemma {:induction false} WillDrainStep(s: State, step: Step)
    requires Inv(s) && s.stop && WillDrain(s) && Enabled(s, step)
    ensures Apply(s, step).stop && WillDrain(Apply(s, step))
  {
  }

  lemma {:induction false} WillDrainRun(s: State, steps: seq<Step>)
    requires Inv(s) && s.stop && WillDrain(s) && ValidRun(s, steps)
    ensures Inv(Exec(s, steps)) && WillDrain(Exec(s, steps))
    decreases |steps|
  {
    hide Inv, Enabled, Apply, WillDrain;
    if steps != [] {
      WillDrainStep(s, steps[0]);
      StepInv(s, steps[0]);
      WillDrainRun(Apply(s, steps[0]), steps[1..]);
    }
  }

  /** Steps until the run thread finishes, from its next visit of the idle position on. */
  function StoppedIdleRank(s: State, queue: seq<nat>): nat {
    if s.completion then |queue| + 7 else if !s.observed then |queue| + 8 else if s.armed then 2 else 1
  }

  function StoppedRank(s: State): nat {
    var afterwards := if s.completion then 7 else 2;
    match s.run
    case Starting => |s.queue| + 9
    case Idle => StoppedIdleRank(s, s.queue)
    case ToConsume(_) => |s.queue| + 4 + afterwards
    case ToSwap(_) => |s.queue| + 3 + afterwards
    case Running(_, batch) => |batch| + 2 + (if s.completion then |s.queue| + 7 else 2)
    case Checking(_) => 1 + (if s.completion then |s.queue| + 7 else 2)
    case Finished => 0
  }

  lemma {:induction false} NextStoppedStep(s: State) returns (step: Step)
    requires Inv(s) && s.stop && !s.run.Finished?
    ensures Enabled(s, step) && Quiet(step) && Apply(s, step).stop && StoppedRank(Apply(s, step)) < StoppedRank(s)
    ensures Apply(s, step).accepted == s.accepted
    ensures !WillDrain(s) ==> !WillDrain(Apply(s, step)) && Apply(s, step).queue == s.queue
  {
    match s.run
    case Starting => step := Start;
    case Idle =>
      step := if s.completion then Wake(true, false) else if !s.observed then Signal
              else if s.armed then CancelTakesEffect else Finish;
    case ToConsume(_) => step := Consume;
    case ToSwap(_) => step := Swap;
    case Running(_, batch) => step := if batch == [] then EndBatch else Execute;
    case Checking(_) => step := Check;
  }

  /** After a stop request the run thread and the pending signals alone bring Run to its end; and
      unless the queue is taken once more, they can do so leaving exactly the queue behind. */
  lemma {:induction false} StopFinishes(s: State) returns (steps: seq<Step>)
    requires Inv(s) && s.stop
    ensures ValidRun(s, steps) && Exec(s, steps).run.Finished? && (forall i :: 0 <= i < |steps| ==> Quiet(steps[i]))
    ensures !WillDrain(s) ==> Exec(s, steps).executed + s.queue == Exec(s, steps).accepted
    decreases StoppedRank(s)
  {
    hide WillDrain;
    if s.run.Finished? {
      assert s.executed + [] == s.executed;
      return [];
    }
    var step := NextStoppedStep(s);
    StepInv(s, step);
    var rest := StopFinishes(Apply(s, step));
    steps := [step] + rest;
    assert steps[1..] == rest;
  }

  lemma {:induction false} DrainedIffWillDrain(s: State)
    requires Inv(s) && s.stop
    ensures AlwaysDrained(s) <==> WillDrain(s)
  {
    hide Enabled, Apply;
    if WillDrain(s) {
      forall steps | ValidRun(s, steps) && Exec(s, steps).run.Finished?
        ensures Exec(s, steps).executed == Exec(s, steps).accepted
      {
        WillDrainRun(s, steps);
        var end := Exec(s, steps);
        assert end.executed + [] + [] == end.executed;
      }
    } else {
      var steps := StopFinishes(s);
      assert |Exec(s, steps).executed| < |Exec(s, steps).accepted|;
    }
  }

  /** Exactly when a stop request loses nothing, told from the state in which it is made: every
      continuation in which Run returns has executed all accepted callbacks if and only if no
      callback waits, a wakeup completion is pending, or the run thread is not between its swap and
      its check of the stop flag.  In either case Run can return. */
  lemma {:induction false} DrainedExactlyWhen(s: State)
    requires Inv(s) && s.accepting
    ensures AlwaysDrained(Apply(s, RequestStop)) <==>
            s.queue == [] || s.completion || !(s.run.Running? || s.run.Checking?)
    ensures exists steps :: ValidRun(Apply(s, RequestStop), steps) && Exec(Apply(s, RequestStop), steps).run.Finished?
  {
    hide AlwaysDrained;
    var s' := Apply(s, RequestStop);
    StepInv(s, RequestStop);
    DrainedIffWillDrain(s');
    var steps := StopFinishes(s');
    assert ValidRun(s', steps) && Exec(s', steps).run.Finished?;
  }

  /** The header promises that callbacks already queued are drained.  Callback 2 is in the queue
      before the stop request, yet Run returns without executing it: it was queued after the last
      swap, its poster and the stopper had not signalled yet, and the stop was already seen. */
  lemma {:induction false} QueuedCallbackLeftBehind() returns (before: seq<Step>, after: seq<Step>)
    ensures ValidRun(Init(), before) && Exec(Init(), before).queue == [2] && Exec(Init(), before).accepting
    ensures ValidRun(Init(), before + ([RequestStop] + after))
    ensures
      var end := Exec(Init(), before + ([RequestStop] + after));
      end.run.Finished? && end.accepted == [1, 2] && end.executed == [1]
  {
    before := FirstHalf();
    after := SecondHalf();
    hide ValidRun, Exec, Init;
    RunsJoin(Init(), before, [RequestStop] + after);
  }

  lemma {:induction false} RunsJoin(s: State, a: seq<Step>, b: seq<Step>)
    requires ValidRun(s, a) && ValidRun(Exec(s, a), b)
    ensures ValidRun(s, a + b) && Exec(s, a + b) == Exec(Exec(s, a), b)
    decreases |a|
  {
    hide Enabled, Apply;
    if a == [] {
      assert a + b == b;
    } else {
      assert (a + b)[1..] == a[1..] + b;
      RunsJoin(Apply(s, a[0]), a[1..], b);
    }
  }

  lemma {:induction false} FirstHalf() returns (steps: seq<Step>)
    ensures ValidRun(Init(), steps)
    ensures Exec(Init(), steps) == State([2], true, false, 1, 0, true, false, false, Checking(true), [1, 2], [1])
  {
    hide ValidRun, Exec;
    var s1 := State([], true, false, 0, 0, true, false, false, Idle, [], []);
    var s2 := State([1], true, false, 1, 0, true, false, false, Idle, [1], []);
    var s3 := State([1], true, false, 0, 1, true, true, false, Idle, [1], []);
    var s4 := State([1], true, false, 0, 1, true, false, false, ToConsume(true), [1], []);
    var s5 := State([1], true, false, 0, 0, true, false, false, ToSwap(true), [1], []);
    steps := FirstBatch();
    steps := Chain(s4, Consume, s5, steps);
    steps := Chain(s3, Wake(true, false), s4, steps);
    steps := Chain(s2, Signal, s3, steps);
    steps := Chain(s1, Post(1), s2, steps);
    steps := Chain(Init(), Start, s1, steps);
  }

  lemma {:induction false} FirstBatch() returns (steps: seq<Step>)
    ensures
      var s := State([1], true, false, 0, 0, true, false, false, ToSwap(true), [1], []);
      && ValidRun(s, steps)
      && Exec(s, steps) == State([2], true, false, 1, 0, true, false, false, Checking(true), [1, 2], [1])
  {
    hide ValidRun, Exec;
    var s1 := State([1], true, false, 0, 0, true, false, false, ToSwap(true), [1], []);
    var s2 := State([], true, false, 0, 0, true, false, false, Running(true, [1]), [1], []);
    var s3 := State([], true, false, 0, 0, true, false, false, Running(true, []), [1], [1]);
    var s4 := State([], true, false, 0, 0, true, false, false, Checking(true), [1], [1]);
    var s5 := State([2], true, false, 1, 0, true, false, false, Checking(true), [1, 2], [1]);
    steps := Stay(s5);
    steps := Chain(s4, Post(2), s5, steps);
    steps := Chain(s3, EndBatch, s4, steps);
    steps := Chain(s2, Execute, s3, steps);
    steps := Chain(s1, Swap, s2, steps);
  }

  lemma {:induction false} SecondHalf() returns (steps: seq<Step>)
    ensures
      var s := State([2], true, false, 1, 0, true, false, false, Checking(true), [1, 2], [1]);
      && ValidRun(s, [RequestStop] + steps)
      && Exec(s, [RequestStop] + steps) == State([2], false, true, 2, 0, false, false, true, Finished, [1, 2], [1])
  {
    hide ValidRun, Exec;
    var s1 := State([2], true, false, 1, 0, true, false, false, Checking(true), [1, 2], [1]);
    var s2 := State([2], false, true, 2, 0, true, false, false, Checking(true), [1, 2], [1]);
    var s3 := State([2], false, true, 2, 0, true, false, true, Idle, [1, 2], [1]);
    var s4 := State([2], false, true, 2, 0, false, false, true, Idle, [1, 2], [1]);
    var s5 := State([2], false, true, 2, 0, false, false, true, Finished, [1, 2], [1]);
    steps := Stay(s5);
    steps := Chain(s4, Finish, s5, steps);
    steps := Chain(s3, CancelTakesEffect, s4, steps);
    steps := Chain(s2, Check, s3, steps);
    var all := Chain(s1, RequestStop, s2, steps);
  }

  lemma {:induction false} Stay(s: State) returns (steps: seq<Step>)
    ensures steps == [] && ValidRun(s, steps) && Exec(s, steps) == s
  {
    steps := [];
  }

  lemma {:induction false} Chain(s: State, step: Step, s': State, rest: seq<Step>) returns (steps: seq<Step>)
    requires Enabled(s, step) && Apply(s, step) == s' && ValidRun(s', rest)
    ensures steps == [step] + rest && ValidRun(s, steps) && Exec(s, steps) == Exec(s', rest)
  {
    steps := [step] + rest;
    assert steps[1..] == rest;
  }
}
