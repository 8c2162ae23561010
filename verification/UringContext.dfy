/**
 Ownership of operations in the event loop (src/io/uring/context.cpp).  The ring is part of the
 context: `queue` is its submission queue and `held` are the operations the kernel borrows.  The
 kernel completes only operations it holds, and a completion without MORE is the last of its
 operation.  Coroutines and callbacks resumed by a completion may start and cancel I/O; what they do
 is an arbitrary list of actions, except that the consumer of a multishot operation awaits it again
 before it yields, as the source demands.  Methods return `alive == false` where the source aborts the
 process because of an error reported by the kernel; aborts that cannot be reached are asserted so.
 */
module UringContext {
  const ENOENT := 2
  const EALREADY := 114
  const ECANCELED := 125

  datatype Category = Awaitable | Cancel | Wakeup

  datatype IoResult = IoResult(fd: int, result: int, isFinal: bool)

  datatype Action = StartIo(fd: int, multishot: bool) | CancelIo(fd: int)

  class Operation {
    var ownerIndex: nat
    const category: Category
    const fd: int
    const multishot: bool
    const awaitable: UringAwaitable?

    constructor (category: Category, fd: int, multishot: bool, awaitable: UringAwaitable?)
      ensures this.category == category && this.fd == fd && this.multishot == multishot && this.awaitable == awaitable
    {
      this.category, this.fd, this.multishot, this.awaitable := category, fd, multishot, awaitable;
      ownerIndex := 0;
    }
  }

  /** The result slot of one coroutine: it owns the operation until it is started, and `waiting` tells
      whether the coroutine is suspended on it.  `delivered` logs every result the coroutine received. */
  class UringAwaitable {
    var owned: Operation?
    var handedOff: Operation?
    var waiting: bool
    var resultReady: bool
    var result: IoResult
    ghost var delivered: seq<IoResult>

    constructor ()
      ensures owned == null && handedOff == null && !waiting && !resultReady && delivered == []
    {
      owned, handedOff, waiting, resultReady := null, null, false, false;
      result, delivered := IoResult(-1, 0, true), [];
    }

    /** `await_resume`: the coroutine takes the result out of the slot. */
    method AwaitResume() returns (r: IoResult)
      requires resultReady
      modifies `resultReady, `delivered
      ensures !resultReady && r == result && delivered == old(delivered) + [r]
    {
      resultReady := false;
      r := result;
      delivered := delivered + [r];
    }

    /** `await_suspend` while the operation is pending: only a multishot operation may be awaited again. */
    method AwaitAgain()
      requires handedOff != null && handedOff.multishot && !waiting
      modifies `waiting
      ensures waiting
    {
      waiting := true;
    }
  }

  class UringContext {
    const entries: nat
    const wakeupFd: int
    var operations: seq<Operation>
    var stagedSqeCount: nat
    var wakeupPollCancelSubmitted: bool
    var stopRequested: bool
    var queue: seq<Operation>
    var held: set<Operation>
    ghost var failures: nat      // submissions that made no progress, each of which ends the process

    constructor (entries: nat, wakeupFd: int)
      requires 0 < entries && 0 <= wakeupFd
      ensures Valid() && operations == [] && !stopRequested && this.wakeupFd == wakeupFd
    {
      this.entries, this.wakeupFd := entries, wakeupFd;
      operations, stagedSqeCount, queue, held, failures := [], 0, [], {}, 0;
      wakeupPollCancelSubmitted, stopRequested := false, false;
    }

    /** Each owned operation knows its place, so the places are distinct. */
    ghost predicate Indexed()
      reads this, operations
    {
      forall i :: 0 <= i < |operations| ==> operations[i].ownerIndex == i
    }

    /** Owned are exactly the operations that are staged, held by the kernel, or in `done`. */
    ghost predicate Tracked(done: set<Operation>)
      reads this
    {
      && 0 < entries && 0 <= wakeupFd && stagedSqeCount == |queue| <= entries
      && (forall i, j :: 0 <= i < j < |queue| ==> queue[i] != queue[j])
      && Owned() == held + Staged() + done && held !! Staged() && done !! held + Staged()
    }

    ghost predicate Valid()
      reads this, operations
    {
      Indexed() && Tracked({})
    }

    /** There is at most one wakeup poll, and it is a multishot operation. */
    ghost predicate OnePoll()
      reads this
    {
      && (forall a, b :: a in operations && b in operations && a.category.Wakeup? && b.category.Wakeup? ==> a == b)
      && (forall a :: a in operations && a.category.Wakeup? ==> a.multishot)
    }

    ghost predicate HasPoll()
      reads this
    {
      exists a :: a in operations && a.category.Wakeup?
    }

    /** Each operation of a coroutine has one suspended on it, with an empty result slot, that has not
        received its final result yet. */
    ghost predicate Waits(op: Operation)
      reads if op.awaitable == null then {} else {op.awaitable}
    {
      if op.category.Awaitable?
      then
        && op.awaitable != null && op.awaitable.handedOff == op && op.awaitable.waiting && !op.awaitable.resultReady
        && forall r :: r in op.awaitable.delivered ==> !r.isFinal
      else op.awaitable == null
    }

    ghost function Awaitables(): set<UringAwaitable>
      reads this
    {
      set op | op in operations && op.awaitable != null :: op.awaitable
    }

    ghost predicate AwaitsOk(except: set<Operation>)
      reads this, Awaitables()
    {
      forall op :: op in operations && op !in except ==> Waits(op)
    }

    ghost function Owned(): set<Operation>
      reads this
    {
      set op | op in operations
    }

    ghost function Staged(): set<Operation>
      reads this
    {
      set op | op in queue
    }

    /** Reads the flag that other threads may set at any time and never clear. */
    method LoadStop() returns (stop: bool)
      modifies this`stopRequested
      ensures stop == stopRequested && (old(stopRequested) ==> stop)
    {
      if * { stopRequested := true; }
      stop := stopRequested;
    }

    // ----- Submission

    /** `io_uring_submit`: an error, or the number of entries taken from the front of the queue. */
    method KernelSubmit() returns (ret: int)
      modifies this`queue, this`held, this`failures
      ensures ret <= |old(queue)| && failures == old(failures) + if ret <= 0 then 1 else 0
      ensures ret <= 0 ==> queue == old(queue) && held == old(held)
      ensures ret > 0 ==> queue == old(queue)[ret..] && held == old(held) + set op | op in old(queue)[..ret]
    {
      ret := *;
      if ret > |queue| { ret := |queue|; }
      if ret > 0 {
        held := held + set op | op in queue[..ret];
        queue := queue[ret..];
      } else {
        failures := failures + 1;
      }
    }

    method SubmitStagedSqes() returns (alive: bool)
      requires Tracked({})
      modifies this`queue, this`held, this`stagedSqeCount, this`failures
      ensures Tracked({}) && (alive <==> failures == old(failures))
      ensures alive ==> stagedSqeCount == 0 && queue == [] && held == Owned()
    {
      while stagedSqeCount != 0
        invariant Tracked({}) && failures == old(failures)
        decreases stagedSqeCount
      {
        ghost var before := queue;
        var ret := KernelSubmit();
        if ret < 0 { return false; }
        if ret == 0 { return false; }
        if ret > stagedSqeCount { assert false; }
        assert before == before[..ret] + queue;
        SubmittedStaysTracked(before, ret);
        stagedSqeCount := stagedSqeCount - ret;
      }
      alive := true;
      assert forall op :: op in held <==> op in Owned();
    }

    lemma {:induction false} SubmittedStaysTracked(before: seq<Operation>, n: nat)
      requires n <= |before| && queue == before[n..]
      requires forall i, j :: 0 <= i < j < |before| ==> before[i] != before[j]
      ensures forall op :: op in before <==> op in before[..n] || op in queue
      ensures forall op :: op in before[..n] ==> op !in queue
      ensures forall i, j :: 0 <= i < j < |queue| ==> queue[i] != queue[j]
    {
      assert before == before[..n] + queue;
    }

    /** Room for one more entry: with nothing free, submitting what is staged always frees one. */
    method AcquireSqe() returns (alive: bool)
      requires Tracked({})
      modifies this`queue, this`held, this`stagedSqeCount, this`failures
      ensures Tracked({}) && (alive <==> failures == old(failures))
      ensures alive ==> |queue| < entries
    {
      if |queue| == entries && stagedSqeCount != 0 {
        alive := SubmitStagedSqes();
        if !alive { return; }
      }
      if |queue| == entries { assert false; }
      alive := true;
    }

    /** The context takes ownership of an operation nobody owns and whose entry has been prepared. */
    method StageOperation(operation: Operation)
      requires Valid() && operation !in operations && |queue| < entries
      modifies this`operations, this`queue, this`stagedSqeCount, operation`ownerIndex
      ensures Valid() && operations == old(operations) + [operation] && queue == old(queue) + [operation]
    {
      operation.ownerIndex := |operations|;
      operations := operations + [operation];
      queue := queue + [operation];
      stagedSqeCount := stagedSqeCount + 1;
      assert Owned() == old(Owned()) + {operation} && Staged() == old(Staged()) + {operation};
    }

    /** During shutdown nothing is started; otherwise the operation is owned and staged. */
    method TryStartOperation(operation: Operation) returns (started: bool, alive: bool)
      requires Valid() && operation !in operations
      modifies this, operation`ownerIndex
      ensures Valid() && Kept(old(stopRequested), old(wakeupPollCancelSubmitted))
      ensures operations == if alive && started then old(operations) + [operation] else old(operations)
      ensures alive <==> failures == old(failures)
      ensures alive && !started ==> stopRequested
      ensures started && alive ==> operation in queue && !stopRequested
    {
      var stop := LoadStop();
      if stop { return false, true; }
      alive := AcquireSqe();
      if !alive { return false, false; }
      StageOperation(operation);
      started := true;
    }

    /** Flags only the wakeup handling and the other threads change. */
    ghost predicate Kept(stop: bool, cancelSubmitted: bool)
      reads this
    {
      (stop ==> stopRequested) && wakeupPollCancelSubmitted == cancelSubmitted
    }

    /** The cancellation has reached the kernel when this returns, so the descriptor may be closed. */
    method CancelFd(fd: int) returns (alive: bool)
      requires Valid()
      modifies this
      ensures Valid() && Kept(old(stopRequested), old(wakeupPollCancelSubmitted)) && stopRequested == old(stopRequested)
      ensures alive <==> failures == old(failures)
      ensures old(operations) <= operations
      ensures forall i :: |old(operations)| <= i < |operations| ==>
                fresh(operations[i]) && operations[i].category.Cancel? && operations[i].awaitable == null
      ensures alive && 0 <= fd ==> |operations| == |old(operations)| + 1 && operations[|operations| - 1].fd == fd
      ensures alive && 0 <= fd ==> queue == [] && held == Owned()
    {
      if fd < 0 { return true; }
      var operation := new Operation(Cancel, fd, false, null);
      alive := AcquireSqe();
      if !alive { return; }
      StageOperation(operation);
      alive := SubmitStagedSqes();
    }

    method StageWakeupPoll() returns (alive: bool)
      requires Valid()
      modifies this
      ensures Valid() && Kept(old(stopRequested), old(wakeupPollCancelSubmitted)) && stopRequested == old(stopRequested)
      ensures alive <==> failures == old(failures)
      ensures old(operations) <= operations
      ensures if alive
              then |operations| == |old(operations)| + 1 && fresh(operations[|operations| - 1])
                   && operations[|operations| - 1].category.Wakeup? && operations[|operations| - 1].multishot
                   && operations[|operations| - 1].awaitable == null
              else operations == old(operations)
    {
      var operation := new Operation(Wakeup, wakeupFd, true, null);
      alive := AcquireSqe();
      if !alive { return; }
      StageOperation(operation);
    }

    // ----- Completion

    /** Swap-remove: the vacated place is filled with the last operation, whose index follows. */
    method TakeOperation(operation: Operation)
      requires Indexed() && operation in operations && Tracked({operation})
      modifies this`operations, operations`ownerIndex
      ensures Valid() && operation !in operations
      ensures forall op :: op in operations <==> op in old(operations) && op != operation
      ensures |operations| == |old(operations)| - 1
    {
      var index := operation.ownerIndex;
      var last := |operations| - 1;
      ghost var before := operations;
      ghost var k :| 0 <= k < |operations| && operations[k] == operation;
      assert k == index;
      if index != last {
        operations := operations[index := operations[last]];
        operations[index].ownerIndex := index;
      }
      operations := operations[..last];
      assert forall i :: 0 <= i < last ==> operations[i] == if i == index then before[last] else before[i];
      RemovedOnly(before, index);
    }

    /** After a swap-remove at `index`, exactly the removed element is missing. */
    lemma {:induction false} RemovedOnly(before: seq<Operation>, index: nat)
      requires index < |before| && |operations| == |before| - 1
      requires forall i, j :: 0 <= i < j < |before| ==> before[i] != before[j]
      requires forall i :: 0 <= i < |before| - 1 ==>
                 operations[i] == if i == index then before[|before| - 1] else before[i]
      ensures forall op :: op in operations <==> op in before && op != before[index]
    {
      forall op ensures op in operations <==> op in before && op != before[index] {
        if op in before && op != before[index] {
          var i :| 0 <= i < |before| && before[i] == op;
          assert op == if i == |before| - 1 then operations[index] else operations[i];
        }
      }
    }

    // ----- Coroutines

    /** `Accept`, `Recv` and `Send` only record what is to be done. */
    method MakeAwaitable(fd: int, multishot: bool) returns (a: UringAwaitable)
      ensures fresh(a) && Unstarted(a) && fresh(a.owned) && a.owned.fd == fd && a.owned.multishot == multishot
    {
      a := new UringAwaitable();
      a.owned := new Operation(Awaitable, fd, multishot, a);
    }

    ghost predicate Unstarted(a: UringAwaitable)
      reads a
    {
      && a.owned != null && a.owned.awaitable == a && a.owned.category.Awaitable?
      && a.handedOff == null && !a.waiting && !a.resultReady && a.delivered == []
    }

    /** `await_suspend`: the operation is handed to the context and the coroutine waits; during shutdown
        the coroutine goes on at once with a cancelled result. */
    method AwaitSuspend(a: UringAwaitable) returns (suspended: bool, alive: bool)
      requires Valid() && Unstarted(a) && a.owned !in operations
      modifies this, a, a.owned`ownerIndex
      ensures Valid() && Kept(old(stopRequested), old(wakeupPollCancelSubmitted)) && a.delivered == old(a.delivered)
      ensures alive <==> failures == old(failures)
      ensures operations == if alive && suspended then old(operations) + [old(a.owned)] else old(operations)
      ensures alive && suspended ==> Waits(old(a.owned)) && a.owned == null
      ensures alive && !suspended ==> stopRequested && a.resultReady && a.handedOff == null
      ensures alive && !suspended ==> a.result == IoResult(old(a.owned).fd, 0 - ECANCELED, true)
    {
      var operation := a.owned;
      suspended, alive := TryStartOperation(operation);
      if !alive { return; }
      a.owned := null;
      if !suspended {
        a.result, a.resultReady := IoResult(operation.fd, 0 - ECANCELED, true), true;
        return;
      }
      a.handedOff, a.waiting := operation, true;
    }

    /** What is new behind `before`: no poll, and nothing anyone else refers to. */
    twostate predicate OnlyNewBehind(new before: seq<Operation>)
      reads this
    {
      && before <= operations
      && forall i :: |before| <= i < |operations| ==>
           fresh(operations[i]) && !operations[i].category.Wakeup?
           && (operations[i].awaitable != null ==> fresh(operations[i].awaitable))
    }

    /** What resumed coroutines and callbacks do: they start and cancel I/O, and never touch the poll. */
    method Act(actions: seq<Action>, ghost except: set<Operation>) returns (alive: bool)
      requires Valid() && AwaitsOk(except)
      modifies this
      ensures Valid() && AwaitsOk(except) && Kept(old(stopRequested), old(wakeupPollCancelSubmitted))
      ensures alive <==> failures == old(failures)
      ensures OnlyNewBehind(old(operations))
    {
      for i := 0 to |actions|
        invariant Valid() && AwaitsOk(except) && Kept(old(stopRequested), old(wakeupPollCancelSubmitted))
        invariant OnlyNewBehind(old(operations)) && failures == old(failures)
      {
        match actions[i] {
          case StartIo(fd, multishot) => alive := StartIo(fd, multishot, except);
          case CancelIo(fd) => alive := CancelFd(fd);
        }
        if !alive { return; }
      }
      alive := true;
    }

    method StartIo(fd: int, multishot: bool, ghost except: set<Operation>) returns (alive: bool)
      requires Valid() && AwaitsOk(except)
      modifies this
      ensures Valid() && AwaitsOk(except) && Kept(old(stopRequested), old(wakeupPollCancelSubmitted))
      ensures alive <==> failures == old(failures)
      ensures OnlyNewBehind(old(operations))
    {
      var a := MakeAwaitable(fd, multishot);
      var suspended;
      suspended, alive := AwaitSuspend(a);
      if alive && !suspended { var r := a.AwaitResume(); }
    }

    /** The poll stays armed until the run thread has seen the stop request. */
    ghost predicate PollInv()
      reads this
    {
      OnePoll() && (HasPoll() || stopRequested)
    }

    method ProcessWakeupCqe(result: int, pollIn: bool, more: bool, actions: seq<Action>) returns (alive: bool)
      requires Valid() && AwaitsOk({}) && OnePoll() && (more <==> HasPoll())
      modifies this
      ensures Valid() && AwaitsOk({}) && AddedBehind(old(operations)) && (old(stopRequested) ==> stopRequested)
      ensures alive <==>
                && failures == old(failures)
                && if result < 0 then stopRequested && result == 0 - ECANCELED && !more else pollIn
      ensures alive ==> PollInv()
      ensures alive && more && stopRequested && result >= 0 ==>
                wakeupPollCancelSubmitted && (old(wakeupPollCancelSubmitted) || held == Owned())
    {
      if result < 0 {
        var stop := LoadStop();
        if stop && result == 0 - ECANCELED && !more {
          wakeupPollCancelSubmitted := false;
          return true;
        }
        return false;
      }
      if !pollIn { return false; }
      alive := Act(actions, {});
      if !alive { return; }
      StillOnePoll(old(operations));
      alive := SettlePoll(more);
    }

    /** The end of the wakeup handling: a stop request cancels the poll once, otherwise it is armed again. */
    method SettlePoll(more: bool) returns (alive: bool)
      requires Valid() && AwaitsOk({}) && OnePoll() && (more <==> HasPoll())
      modifies this
      ensures Valid() && AwaitsOk({}) && AddedBehind(old(operations)) && (old(stopRequested) ==> stopRequested)
      ensures alive <==> failures == old(failures)
      ensures alive ==> PollInv()
      ensures alive && more && stopRequested ==>
                wakeupPollCancelSubmitted && (old(wakeupPollCancelSubmitted) || held == Owned())
    {
      var stop := LoadStop();
      alive := true;
      if stop {
        if more && !wakeupPollCancelSubmitted {
          wakeupPollCancelSubmitted := true;
          alive := CancelFd(wakeupFd);
          StillOnePoll(old(operations));
        }
      } else if !more {
        alive := StageWakeupPoll();
        if alive { assert operations[|operations| - 1].category.Wakeup?; }
      }
    }

    /** Only new operations, with new awaitables, were added behind `before`. */
    twostate predicate AddedBehind(new before: seq<Operation>)
      reads this
    {
      && before <= operations
      && forall i :: |before| <= i < |operations| ==>
           fresh(operations[i]) && (operations[i].awaitable != null ==> fresh(operations[i].awaitable))
    }

    /** A completion for a coroutine: its result is put into the slot, the coroutine is resumed and takes
        exactly this result; a final one leaves the awaitable free to be destroyed, after any other
        the coroutine waits again. */
    method ProcessAwaitableCqe(operation: Operation, result: int, isFinal: bool, actions: seq<Action>)
      returns (alive: bool)
      requires Valid() && operation.category.Awaitable? && Waits(operation) && AwaitsOk({operation})
      requires isFinal <==> operation !in operations
      requires !isFinal ==> operation.multishot
      modifies this, operation.awaitable
      ensures Valid() && Kept(old(stopRequested), old(wakeupPollCancelSubmitted)) && OnlyNewBehind(old(operations))
      ensures alive <==> failures == old(failures)
      ensures alive ==> AwaitsOk({}) && !operation.awaitable.resultReady
      ensures alive ==> operation.awaitable.delivered
                        == old(operation.awaitable.delivered) + [IoResult(operation.fd, result, isFinal)]
      ensures alive && isFinal ==> operation.awaitable.handedOff == null && !operation.awaitable.waiting
    {
      var a := operation.awaitable;
      a.result, a.resultReady := IoResult(operation.fd, result, isFinal), true;
      if isFinal { a.handedOff := null; }
      if !a.waiting { assert false; }
      a.waiting := false;
      var r := a.AwaitResume();
      OthersStillWait(operation);
      alive := Act(actions, {operation});
      if !alive || isFinal { return; }
      a.AwaitAgain();
      if !a.waiting { assert false; }
    }

    /** Distinct operations have distinct awaitables, so changing one awaitable disturbs no other wait. */
    twostate lemma OthersStillWait(operation: Operation)
      requires old(AwaitsOk({operation})) && operations == old(operations)
      requires operation.awaitable != null && old(operation.awaitable.handedOff) == operation
      requires forall a :: a in Awaitables() && a != operation.awaitable ==> unchanged(a)
      ensures AwaitsOk({operation})
    {
      forall op | op in operations && op != operation ensures Waits(op) {
        assert old(Waits(op));
        if op.awaitable != null { assert op.awaitable in Awaitables(); }
      }
    }

    /** Adding operations other than polls leaves the polls as they were. */
    lemma {:induction false} StillOnePoll(before: seq<Operation>)
      requires before <= operations
      requires forall i :: |before| <= i < |operations| ==> !operations[i].category.Wakeup?
      requires forall a, b :: a in before && b in before && a.category.Wakeup? && b.category.Wakeup? ==> a == b
      requires forall a :: a in before && a.category.Wakeup? ==> a.multishot
      ensures OnePoll() && (HasPoll() <==> exists a :: a in before && a.category.Wakeup?)
    {
      assert forall a :: a in operations && a.category.Wakeup? ==> a in before;
      assert forall a :: a in before ==> a in operations;
    }

    /** Completions that are no reason to end the process: any result of a coroutine's operation, a
        cancellation that came too late, a readable wakeup, and the end of the poll during shutdown. */
    predicate Tolerated(category: Category, result: int, pollIn: bool, more: bool)
      reads `stopRequested
    {
      match category
      case Awaitable => true
      case Cancel => 0 <= result || result == -2 || result == -114 || result == -125
      case Wakeup => if result < 0 then stopRequested && result == -125 && !more else pollIn
    }

    /** What a completion of `operation` leaves of the operations of `before`, and what it adds. */
    twostate predicate Replaced(before: set<Operation>, operation: Operation, isFinal: bool)
      reads this
    {
      && (if isFinal then before - {operation} <= Owned() && operation !in operations else before <= Owned())
      && fresh(Owned() - before) && fresh(Awaitables() - old(Awaitables()))
    }

    /** A completion is always for an owned operation; a final one ends its ownership by the kernel and,
        before any handler runs, by the context. */
    method Claim(operation: Operation, isFinal: bool)
      requires Valid() && AwaitsOk({}) && PollInv() && operation in held
      modifies this`held, this`operations, operations`ownerIndex
      ensures Valid() && Waits(operation) && AwaitsOk({operation}) && OnePoll()
      ensures forall op :: op in operations <==> op in old(operations) && (isFinal ==> op != operation)
      ensures operation.category.Wakeup? ==> operation.multishot && (isFinal <==> !HasPoll())
      ensures !operation.category.Wakeup? ==> PollInv()
    {
      assert operation in Owned();
      ghost var at :| 0 <= at < |operations| && operations[at] == operation;
      if operation.ownerIndex >= |operations| || operations[operation.ownerIndex] != operation { assert false; }
      if isFinal {
        held := held - {operation};
        TakeOperation(operation);
      }
    }

    /** One completion.  The kernel lets go of the operation exactly when the completion is final, and
        the context gives up its ownership then; a completion is always for an owned operation. */
    method ProcessCqe(operation: Operation, more: bool, result: int, pollIn: bool, actions: seq<Action>)
      returns (alive: bool)
      requires Valid() && AwaitsOk({}) && PollInv() && operation in held && (!operation.multishot ==> !more)
      modifies this, operations, Awaitables()
      ensures Valid() && (alive ==> AwaitsOk({}) && PollInv()) && (old(stopRequested) ==> stopRequested)
      ensures Replaced(old(Owned()), operation, !more)
      ensures alive <==> failures == old(failures) && Tolerated(operation.category, result, pollIn, more)
      ensures alive && operation.category.Awaitable? ==>
                && operation.awaitable != null
                && operation.awaitable.delivered
                   == old(operation.awaitable.delivered) + [IoResult(operation.fd, result, !more)]
    {
      var isFinal := !operation.multishot || !more;
      Claim(operation, isFinal);
      ghost var middle := operations;
      match operation.category
      case Awaitable =>
        alive := ProcessAwaitableCqe(operation, result, isFinal, actions);
        StillOnePoll(middle);
      case Cancel =>
        alive := !(result < 0 && result != 0 - ENOENT && result != 0 - EALREADY && result != 0 - ECANCELED);
      case Wakeup =>
        alive := ProcessWakeupCqe(result, pollIn, more, actions);
    }

    /** What the kernel reports, and what the resumed code will do. */
    method Completion() returns (more: bool, result: int, pollIn: bool, actions: seq<Action>) {
      more, result, pollIn, actions := *, *, *, *;
    }

    /** Nothing but what was there at the start and what is new since is referred to. */
    twostate predicate Grown()
      reads this
    {
      fresh(Owned() - old(Owned())) && fresh(Awaitables() - old(Awaitables()))
    }

    /** The next completion the kernel reports, for any operation it holds. */
    method ProcessNext() returns (alive: bool)
      requires Valid() && AwaitsOk({}) && PollInv() && held != {}
      modifies this, operations, Awaitables()
      ensures Valid() && (alive ==> AwaitsOk({}) && PollInv()) && Grown() && (old(stopRequested) ==> stopRequested)
    {
      var operation :| operation in held;
      var more, result, pollIn, actions := Completion();
      alive := ProcessCqe(operation, more && operation.multishot, result, pollIn, actions);
    }

    /** Completions of one turn, at most as many as the ring has entries. */
    method ProcessBatch() returns (alive: bool)
      requires Valid() && AwaitsOk({}) && PollInv() && held != {}
      modifies this, operations, Awaitables()
      ensures Valid() && (alive ==> AwaitsOk({}) && PollInv()) && Grown() && (old(stopRequested) ==> stopRequested)
    {
      var processed := 0;
      alive := true;
      while alive && held != {} && processed < entries
        invariant Valid() && (alive ==> AwaitsOk({}) && PollInv()) && Grown() && (old(stopRequested) ==> stopRequested)
        decreases entries - processed, alive
      {
        if processed > 0 { if * { break; } }
        alive := ProcessNext();
        processed := processed + 1;
      }
    }

    /** A turn of the event loop ends with everything submitted. */
    method Turn() returns (alive: bool)
      requires Valid() && AwaitsOk({}) && PollInv() && held != {}
      modifies this, operations, Awaitables()
      ensures Valid() && (alive ==> AwaitsOk({}) && PollInv() && stagedSqeCount == 0) && Grown()
    {
      alive := ProcessBatch();
      if alive { alive := SubmitStagedSqes(); }
    }

    /** Something is outstanding whenever the loop is about to wait, so the wait can end. */
    lemma {:induction false} Outstanding()
      requires Valid() && PollInv() && stagedSqeCount == 0 && (!stopRequested || operations != [])
      ensures held != {}
    {
      assert operations != [];
      assert operations[0] in Owned() && Staged() == {};
    }

    /** The first turn finds the poll armed and submitted. */
    method ArmPoll() returns (alive: bool)
      requires Valid() && operations == []
      modifies this
      ensures Valid() && AwaitsOk({}) && fresh(Owned()) && Awaitables() == {}
      ensures alive ==> PollInv() && stagedSqeCount == 0
    {
      alive := StageWakeupPoll();
      if !alive { return; }
      assert operations[0].category.Wakeup?;
      alive := SubmitStagedSqes();
    }

    /** The event loop for up to `turns` turns.  It never waits with staged entries or with nothing
        outstanding, and it exits only after a stop request, owning nothing, with nothing left in
        the ring or the kernel, so that no coroutine waits for I/O any more. */
    method Run(turns: nat) returns (alive: bool, exited: bool)
      requires Valid() && operations == []
      modifies this
      ensures Valid()
      ensures exited ==> stopRequested && operations == [] && held == {} && queue == []
    {
      exited := false;
      alive := ArmPoll();
      if !alive { return; }
      for turn := 0 to turns
        invariant Valid() && AwaitsOk({}) && PollInv() && stagedSqeCount == 0
        invariant fresh(Owned()) && fresh(Awaitables())
      {
        var stop := LoadStop();
        if stop && operations == [] {
          assert Owned() == {};
          return true, true;
        }
        if stagedSqeCount != 0 { assert false; }
        Outstanding();
        if * { continue; }
        assert forall i :: 0 <= i < |operations| ==> operations[i] in Owned();
        alive := Turn();
        if !alive { return; }
      }
    }
  }
}
