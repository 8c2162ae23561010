/**
 One server connection (src/server/server_connection.cpp) and the I/O loop that owns it
 (src/server/connection_io_loop.cpp).  Everything here runs on the loop's single thread, so each
 source function is one method; what the kernel, the peer and the workers decide comes in as
 parameters or as a nondeterministic choice.

 A coroutine is its program counter.  `Close` and `EnqueueWrite` resume the write coroutine
 synchronously, so invariants are stated at quiescent points, where control is back in the event loop.
 */
module ConnectionIoLoop {
  import opened Common
  import opened Sums

  const MAX_WRITE_BATCH_BYTES: nat := 64 * 1024

  datatype ConnectionState = Active | Draining | Closed

  /** `WriteLoop`: parked on the queue, inside `Send` of `batch` from `offset` on, or finished.
      `coalesced` is the number of queued writes the batch was built from. */
  datatype Writer =
    | NotStarted
    | Executing
    | Parked
    | Sending(batch: seq<Byte>, offset: nat, coalesced: nat)
    | WriterDone

  datatype Reader = ReaderNotStarted | Receiving | ReaderDone

  /** What `FeedBytes` returns: for every decoded request, what encoding its rejection would give. */
  datatype Feed = Feed(rejections: seq<Option<seq<Byte>>>, closed: bool)

  datatype Received = EndOfStream | Failed | Data(feed: Feed)

  /** The answer of `TrySubmitBatch`, and of `accepting_submissions` after a refusal. */
  datatype Admission = Accepted | Refused(poolOpen: bool)

  function Concat(writes: seq<seq<Byte>>): seq<Byte> {
    if writes == [] then [] else writes[0] + Concat(writes[1..])
  }

  lemma {:induction false} ConcatAppend(writes: seq<seq<Byte>>, w: seq<Byte>)
    ensures Concat(writes + [w]) == Concat(writes) + w
  {
    if writes == [] {
      assert writes + [w] == [w];
    } else {
      assert (writes + [w])[1..] == writes[1..] + [w];
      ConcatAppend(writes[1..], w);
    }
  }

  lemma {:induction false} StreamAdvances(sent: seq<Byte>, batch: seq<Byte>, offset: nat, n: nat, queue: seq<Byte>)
    requires offset + n <= |batch|
    ensures sent + batch[offset..] + queue == (sent + batch[offset..offset + n]) + batch[offset + n..] + queue
  {
    assert batch[offset..] == batch[offset..offset + n] + batch[offset + n..];
  }

  /** The encodings of the first `k` rejections, up to the first that cannot be encoded. */
  function Encoded(rejections: seq<Option<seq<Byte>>>, k: nat): seq<Byte>
    requires k <= |rejections|
  {
    if k == 0 then []
    else Encoded(rejections, k - 1) + match rejections[k - 1] case Some(bytes) => bytes case None => []
  }

  /** Requests of one receive that go to the worker pool: all of them, if they fit what the connection may
      have in flight and the pool accepts the batch. */
  function Submits(state: ConnectionState, received: Received, admission: Admission, room: int): nat {
    if state.Active? && received.Data? && !received.feed.closed && admission.Accepted?
       && |received.feed.rejections| <= room
    then |received.feed.rejections| else 0
  }

  /** Requests of one receive that are answered with a rejection: all of them, if they do not fit or a pool
      that is still open refuses the batch. */
  function Rejects(state: ConnectionState, received: Received, admission: Admission, room: int)
    : seq<Option<seq<Byte>>>
  {
    if state.Active? && received.Data? && !received.feed.closed
       && (|received.feed.rejections| > room || admission == Refused(true))
    then received.feed.rejections else []
  }

  /** The batch met a closed worker pool, which begins the drain. */
  predicate Turned(state: ConnectionState, received: Received, admission: Admission, room: int) {
    && state.Active? && received.Data? && !received.feed.closed && admission == Refused(false)
    && 0 < |received.feed.rejections| <= room
  }

  /** Every other batch of a well-formed stream is submitted or rejected, and reading goes on. */
  predicate Served(state: ConnectionState, received: Received, admission: Admission, room: int) {
    state.Active? && received.Data? && !received.feed.closed && !Turned(state, received, admission, room)
  }

  /** Bytes handed to the kernel as part of an unfinished batch. */
  function BatchBytes(w: Writer): nat {
    if w.Sending? then |w.batch| else 0
  }

  function Unsent(w: Writer): seq<Byte> {
    if w.Sending? && w.offset <= |w.batch| then w.batch[w.offset..] else []
  }

  function Rank(s: ConnectionState): nat {
    if s.Closed? then 0 else 1
  }

  /** The state after a point at which a drain may complete. */
  function Drained(state: ConnectionState, inflight: nat, pendingWriteBytes: nat): ConnectionState {
    if state.Draining? && inflight == 0 && pendingWriteBytes == 0 then Closed else state
  }

  class ServerConnection {
    const id: nat
    const loop: ConnectionIoLoop
    const maxInflight: nat
    const maxWriteQueueBytes: nat

    var state: ConnectionState
    var writeQueue: seq<seq<Byte>>
    var waiter: bool
    var inflight: nat
    var pendingWriteBytes: nat
    var writer: Writer
    var reader: Reader

    ghost var accepted: seq<Byte>   // all bytes ever enqueued, in order
    ghost var sent: seq<Byte>       // all bytes the socket has taken
    ghost var closedCalls: nat      // how often on_closed_ ran

    /** Byte accounting and limits; holds whenever one method calls another. */
    ghost predicate Accounts()
      reads this
    {
      && pendingWriteBytes == |Concat(writeQueue)| + (if state.Closed? then 0 else BatchBytes(writer))
      && (state.Closed? ==> writeQueue == [] && pendingWriteBytes == 0)
      && pendingWriteBytes <= maxWriteQueueBytes
      && inflight <= maxInflight
      && (writer.Sending? ==>
            writer.offset < |writer.batch| && (|writer.batch| <= MAX_WRITE_BATCH_BYTES || writer.coalesced == 1))
      && (waiter <==> writer.Parked?)
      && (writer.WriterDone? ==> state.Closed?)
      && sent <= accepted
    }

    ghost predicate Wire()
      reads this, loop`pendingWriteBytes
    {
      Accounts() && pendingWriteBytes <= loop.pendingWriteBytes
    }

    /** on_closed_ ran exactly when the connection is Closed. */
    ghost predicate ClosedOnce()
      reads this
    {
      closedCalls == if state.Closed? then 1 else 0
    }

    ghost predicate Tally()
      reads this, loop`liveConnections
    {
      ClosedOnce() && (!state.Closed? ==> 0 < loop.liveConnections)
    }

    /** The socket has taken a prefix of what was enqueued, and the rest waits in order. */
    ghost predicate Stream()
      reads this
    {
      !state.Closed? ==> accepted == sent + Unsent(writer) + Concat(writeQueue)
    }

    ghost predicate NoStuckDrain()
      reads this
    {
      state.Draining? ==> 0 < inflight || 0 < pendingWriteBytes
    }

    /** The write coroutine waits: on the queue only while that is empty and the connection open. */
    ghost predicate WriterWaits()
      reads this
    {
      && (writer.Parked? || writer.Sending? || writer.WriterDone?)
      && (writer.Parked? ==> writeQueue == [] && !state.Closed?)
    }

    ghost predicate Settled()
      reads this, loop`pendingWriteBytes, loop`liveConnections
    {
      Wire() && Tally() && Stream() && WriterWaits()
    }

    /** Between handlers: both coroutines wait or are finished, and a drain is never stuck. */
    ghost predicate AtRest()
      reads this
    {
      && Accounts() && ClosedOnce() && Stream() && WriterWaits()
      && NoStuckDrain()
      && (reader.Receiving? || reader.ReaderDone?)
      && (reader.ReaderDone? ==> !state.Active?)
    }

    /** Between handlers, bytes are owed only while a send is in flight; a drain waits for a response or
        a send that is still coming; and what is counted covers every byte the socket has not taken. */
    lemma {:induction false} RestMeans()
      requires AtRest()
      ensures 0 < pendingWriteBytes ==> writer.Sending? && !state.Closed?
      ensures state.Draining? ==> 0 < inflight || writer.Sending?
      ensures !state.Closed? ==> sent <= accepted && |accepted| - |sent| <= pendingWriteBytes
      ensures !state.Closed? && writer.Parked? ==> sent == accepted
    {
    }

    /** The loop's ledger covers this connection. */
    ghost predicate Covered()
      reads this, loop`pendingWriteBytes, loop`liveConnections
    {
      pendingWriteBytes <= loop.pendingWriteBytes && (!state.Closed? ==> 0 < loop.liveConnections)
    }

    ghost predicate Quiescent()
      reads this, loop`pendingWriteBytes, loop`liveConnections
    {
      AtRest() && Covered()
    }

    /** What every method keeps: the loop's total moves with this connection's, the live count drops
        exactly when this connection closes, Closed is final, and both streams only grow. */
    twostate predicate Booked()
      reads this, loop`pendingWriteBytes, loop`liveConnections, loop`stopRequested
    {
      && (old(loop.stopRequested) ==> loop.stopRequested)
      && loop.pendingWriteBytes - pendingWriteBytes == old(loop.pendingWriteBytes) - old(pendingWriteBytes)
      && loop.liveConnections == old(loop.liveConnections) - (if state.Closed? && !old(state).Closed? then 1 else 0)
      && (old(state).Closed? ==> state.Closed?)
      && (old(state).Draining? ==> !state.Active?)
      && old(accepted) <= accepted && old(sent) <= sent
    }

    constructor (id: nat, loop: ConnectionIoLoop, maxInflight: nat, maxWriteQueueBytes: nat)
      ensures this.id == id && this.loop == loop && this.maxInflight == maxInflight
      ensures this.maxWriteQueueBytes == maxWriteQueueBytes
      ensures state == Active && writeQueue == [] && !waiter && inflight == 0 && pendingWriteBytes == 0
      ensures writer == NotStarted && reader == ReaderNotStarted && accepted == [] && sent == [] && closedCalls == 0
      ensures Accounts() && ClosedOnce() && Stream()
    {
      this.id, this.loop, this.maxInflight, this.maxWriteQueueBytes := id, loop, maxInflight, maxWriteQueueBytes;
      state, writeQueue, waiter, inflight, pendingWriteBytes := Active, [], false, 0, 0;
      writer, reader, accepted, sent, closedCalls := NotStarted, ReaderNotStarted, [], [], 0;
    }

    method Close()
      requires Wire() && Tally()
      modifies this, loop`pendingWriteBytes, loop`pendingWriteBytesPeak, loop`liveConnections, loop`stopRequested
      ensures Wire() && Tally() && Booked()
      ensures state.Closed? && loop.stopRequested == old(loop.stopRequested)
      ensures writer == if old(writer).Parked? && !old(state).Closed? then WriterDone else old(writer)
      ensures inflight == old(inflight) && reader == old(reader) && accepted == old(accepted) && sent == old(sent)
      decreases Rank(state), 0
    {
      if state.Closed? {
        return;
      }
      state := Closed;
      writeQueue := [];
      loop.RecordWriteBytesChange(pendingWriteBytes, 0);
      pendingWriteBytes := 0;
      WakeWriteLoop();
      loop.OnConnectionClosed();
      closedCalls := closedCalls + 1;
    }

    /** A drain has begun and dropped nothing: an active connection is closed at once only if nothing is owed. */
    twostate predicate DrainBegun()
      reads this
    {
      && state == (if old(state).Active? then Drained(Draining, inflight, old(pendingWriteBytes)) else old(state))
      && inflight == old(inflight) && accepted == old(accepted) && sent == old(sent)
    }

    method BeginDrain()
      requires Settled() && NoStuckDrain()
      modifies this, loop`pendingWriteBytes, loop`pendingWriteBytesPeak, loop`liveConnections, loop`stopRequested
      ensures Settled() && NoStuckDrain() && Booked()
      ensures !state.Active?
      ensures state == if old(state).Active? then Drained(Draining, inflight, old(pendingWriteBytes)) else old(state)
      ensures state.Closed? || pendingWriteBytes == old(pendingWriteBytes)
      ensures inflight == old(inflight) && reader == old(reader) && accepted == old(accepted) && sent == old(sent)
    {
      if !state.Active? {
        return;
      }
      state := Draining;
      TryFinishDrain();
    }

    method TryFinishDrain()
      requires Wire() && Stream() && (!state.Closed? ==> Tally())
      requires state.Closed? || writeQueue == [] || writer.Sending?
      modifies this, loop`pendingWriteBytes, loop`pendingWriteBytesPeak, loop`liveConnections, loop`stopRequested
      ensures Wire() && Stream() && Booked() && NoStuckDrain() && loop.stopRequested == old(loop.stopRequested)
      ensures if old(state).Closed? then closedCalls == old(closedCalls) else Tally()
      ensures state == Drained(old(state), inflight, old(pendingWriteBytes))
      ensures writer == if old(writer).Parked? && state.Closed? && !old(state).Closed? then WriterDone else old(writer)
      ensures state == old(state) ==> writeQueue == old(writeQueue) && pendingWriteBytes == old(pendingWriteBytes)
      ensures inflight == old(inflight) && reader == old(reader) && accepted == old(accepted) && sent == old(sent)
      decreases Rank(state), 1
    {
      if !state.Draining? {
        return;
      }
      if inflight == 0 && pendingWriteBytes == 0 {
        assert writeQueue == [];
        Close();
      }
    }

    method ReleaseWriteBytes(bytes: nat)
      requires bytes <= pendingWriteBytes <= loop.pendingWriteBytes
      modifies `pendingWriteBytes, loop`pendingWriteBytes, loop`pendingWriteBytesPeak
      ensures pendingWriteBytes == old(pendingWriteBytes) - bytes
      ensures loop.pendingWriteBytes == old(loop.pendingWriteBytes) - bytes
    {
      var before := pendingWriteBytes;
      pendingWriteBytes := pendingWriteBytes - bytes;
      loop.RecordWriteBytesChange(before, pendingWriteBytes);
    }

    /** Takes the first `n` writes, `n` at least one: as many as fit the batch limit, in order. */
    method TakeWriteBatch() returns (batch: seq<Byte>, n: nat)
      requires writeQueue != []
      modifies `writeQueue
      ensures 0 < n <= |old(writeQueue)| && writeQueue == old(writeQueue)[n..]
      ensures batch + Concat(writeQueue) == Concat(old(writeQueue))
      ensures |batch| <= 65536 || n == 1
      ensures writeQueue != [] ==> |batch| + |writeQueue[0]| > 65536
    {
      batch, n := writeQueue[0], 1;
      writeQueue := writeQueue[1..];
      while writeQueue != [] && |batch| + |writeQueue[0]| <= MAX_WRITE_BATCH_BYTES
        invariant 0 < n <= |old(writeQueue)| && writeQueue == old(writeQueue)[n..]
        invariant batch + Concat(writeQueue) == Concat(old(writeQueue))
        invariant |batch| <= MAX_WRITE_BATCH_BYTES || n == 1
        decreases |writeQueue|
      {
        batch := batch + writeQueue[0];
        writeQueue := writeQueue[1..];
        n := n + 1;
      }
    }

    /** Resumes the write coroutine if it is parked on the queue. */
    method WakeWriteLoop()
      requires Wire() && (!state.Closed? ==> Tally() && Stream())
      requires !state.Closed? ==> writer.Parked? || writer.Sending?
      modifies this, loop`pendingWriteBytes, loop`pendingWriteBytesPeak, loop`liveConnections, loop`stopRequested
      ensures old(state).Closed? ==>
        && state == old(state) && writeQueue == [] && pendingWriteBytes == 0 && closedCalls == old(closedCalls)
        && writer == (if old(writer).Parked? then WriterDone else old(writer))
        && loop.pendingWriteBytes == old(loop.pendingWriteBytes) && loop.liveConnections == old(loop.liveConnections)
        && loop.stopRequested == old(loop.stopRequested)
      ensures Wire() && (!old(state).Closed? ==> Settled() && Booked())
      ensures !old(state).Closed? && old(writer).Parked? ==> NoStuckDrain()
      ensures !old(writer).Parked? ==>
        && state == old(state) && writer == old(writer) && writeQueue == old(writeQueue)
        && pendingWriteBytes == old(pendingWriteBytes)
      ensures state == old(state) || state.Closed?
      ensures old(writer).Parked? ==>
                loop.stopRequested || state == Drained(old(state), inflight, old(pendingWriteBytes))
      ensures !state.Closed? ==> pendingWriteBytes == old(pendingWriteBytes)
      ensures inflight == old(inflight) && reader == old(reader) && accepted == old(accepted) && sent == old(sent)
      decreases Rank(state), 4
    {
      if !waiter {
        return;
      }
      waiter := false;
      writer := Executing;
      ResumeWriteLoop();
    }

    /** `WriteLoop` from the point after its wait on the queue to its next suspension or its end. */
    method ResumeWriteLoop()
      requires Wire() && writer.Executing? && (!state.Closed? ==> Tally() && Stream())
      modifies this, loop`pendingWriteBytes, loop`pendingWriteBytesPeak, loop`liveConnections, loop`stopRequested
      ensures old(state).Closed? ==>
        && state == old(state) && writeQueue == [] && pendingWriteBytes == 0 && closedCalls == old(closedCalls)
        && writer == WriterDone && sent == old(sent)
        && loop.pendingWriteBytes == old(loop.pendingWriteBytes) && loop.liveConnections == old(loop.liveConnections)
        && loop.stopRequested == old(loop.stopRequested)
      ensures Wire() && (!old(state).Closed? ==> Settled() && Booked() && NoStuckDrain())
      ensures state == old(state) || state.Closed?
      ensures loop.stopRequested || state == Drained(old(state), inflight, old(pendingWriteBytes))
      ensures !state.Closed? ==> pendingWriteBytes == old(pendingWriteBytes)
      ensures inflight == old(inflight) && reader == old(reader) && accepted == old(accepted) && sent == old(sent)
      decreases Rank(state), 3
    {
      while !state.Closed? && writeQueue != []
        invariant Wire() && writer.Executing?
        invariant old(state).Closed? ==> closedCalls == old(closedCalls)
        invariant !old(state).Closed? ==> Tally() && Stream() && Booked()
        invariant old(state).Closed? ==>
          loop.pendingWriteBytes == old(loop.pendingWriteBytes) && loop.liveConnections == old(loop.liveConnections)
          && loop.stopRequested == old(loop.stopRequested)
        invariant state == old(state) && pendingWriteBytes == old(pendingWriteBytes)
        invariant loop.stopRequested == old(loop.stopRequested)
        invariant inflight == old(inflight) && reader == old(reader) && accepted == old(accepted) && sent == old(sent)
        decreases |writeQueue|
      {
        var batch, n := TakeWriteBatch();
        if 0 < |batch| {
          SendBatch(batch, n);
          return;
        }
        ReleaseWriteBytes(0);
      }
      ParkOrFinish();
    }

    /** The end of one round of `WriteLoop`: with the queue empty the wait suspends, unless the connection is
        closed. */
    method ParkOrFinish()
      requires Wire() && writer.Executing? && (!state.Closed? ==> writeQueue == [] && Tally() && Stream())
      modifies this, loop`pendingWriteBytes, loop`pendingWriteBytesPeak, loop`liveConnections, loop`stopRequested
      ensures Wire() && Booked() && NoStuckDrain() && WriterWaits() && Stream()
      ensures if old(state).Closed? then writer.WriterDone? && closedCalls == old(closedCalls) else Tally()
      ensures state == Drained(old(state), inflight, old(pendingWriteBytes))
      ensures loop.stopRequested == old(loop.stopRequested)
      ensures !state.Closed? ==> pendingWriteBytes == old(pendingWriteBytes)
      ensures inflight == old(inflight) && reader == old(reader) && accepted == old(accepted) && sent == old(sent)
      decreases Rank(state), 2
    {
      TryFinishDrain();
      if state.Closed? {
        writer := WriterDone;
        return;
      }
      waiter := true;
      writer := Parked;
    }

    /** The first `Send` of a batch; a start refused by a stopping context completes at once, as cancelled. */
    method SendBatch(batch: seq<Byte>, n: nat)
      requires !state.Closed? && writer.Executing? && !waiter && Tally()
      requires 0 < |batch| && (|batch| <= MAX_WRITE_BATCH_BYTES || n == 1)
      requires pendingWriteBytes == |Concat(writeQueue)| + |batch| <= maxWriteQueueBytes
      requires pendingWriteBytes <= loop.pendingWriteBytes && inflight <= maxInflight
      requires accepted == sent + batch + Concat(writeQueue)
      modifies this, loop`pendingWriteBytes, loop`pendingWriteBytesPeak, loop`liveConnections, loop`stopRequested
      ensures Settled() && NoStuckDrain() && Booked() && (state == old(state) || state.Closed?)
      ensures loop.stopRequested || (state == old(state) && writer == Sending(batch, 0, n))
      ensures !state.Closed? ==> pendingWriteBytes == old(pendingWriteBytes)
      ensures inflight == old(inflight) && reader == old(reader) && accepted == old(accepted) && sent == old(sent)
      decreases Rank(state), 2
    {
      var rejected := loop.StartRefused();
      if rejected {
        ReleaseWriteBytes(|batch|);
        Close();
        writer := WriterDone;
      } else {
        writer := Sending(batch, 0, n);
      }
    }

    method TryReserveWriteBytes(bytes: nat) returns (ok: bool)
      requires Settled()
      modifies this, loop`pendingWriteBytes, loop`pendingWriteBytesPeak, loop`liveConnections, loop`stopRequested
      ensures ok == (bytes <= maxWriteQueueBytes - old(pendingWriteBytes))
      ensures Booked() && inflight == old(inflight) && reader == old(reader)
      ensures accepted == old(accepted) && sent == old(sent)
      ensures !ok ==> Settled() && state.Closed?
      ensures ok ==>
        && pendingWriteBytes == old(pendingWriteBytes) + bytes && state == old(state) && writer == old(writer)
        && writeQueue == old(writeQueue) && waiter == old(waiter) && closedCalls == old(closedCalls)
      decreases Rank(state), 5
    {
      if bytes > maxWriteQueueBytes - pendingWriteBytes {
        Close();
        return false;
      }
      var before := pendingWriteBytes;
      pendingWriteBytes := pendingWriteBytes + bytes;
      loop.RecordWriteBytesChange(before, pendingWriteBytes);
      return true;
    }

    /** Accepts the write unless the connection is closed or the write does not fit, which closes it. */
    method EnqueueWrite(bytes: seq<Byte>) returns (ok: bool)
      requires Settled()
      modifies this, loop`pendingWriteBytes, loop`pendingWriteBytesPeak, loop`liveConnections, loop`stopRequested
      ensures Settled() && Booked()
      ensures ok == (!old(state).Closed? && |bytes| <= maxWriteQueueBytes - old(pendingWriteBytes))
      ensures accepted == if ok then old(accepted) + bytes else old(accepted)
      ensures !ok ==> state.Closed?
      ensures state == old(state) || state.Closed?
      ensures ok && !loop.stopRequested ==>
                state == old(state) || state == Drained(old(state), inflight, old(pendingWriteBytes) + |bytes|)
      ensures !state.Closed? ==> pendingWriteBytes == old(pendingWriteBytes) + |bytes|
      ensures inflight == old(inflight) && reader == old(reader) && sent == old(sent)
      decreases Rank(state), 6
    {
      if state.Closed? {
        return false;
      }
      ok := TryReserveWriteBytes(|bytes|);
      if !ok {
        return;
      }
      ConcatAppend(writeQueue, bytes);
      writeQueue := writeQueue + [bytes];
      accepted := accepted + bytes;
      WakeWriteLoop();
    }

    /** A send failed or could not be started: the batch is given up and the connection closed. */
    method AbandonBatch()
      requires Wire() && Tally() && !state.Closed? && writer.Sending?
      modifies this, loop`pendingWriteBytes, loop`pendingWriteBytesPeak, loop`liveConnections, loop`stopRequested
      ensures Settled() && Booked() && state.Closed? && writer.WriterDone?
      ensures inflight == old(inflight) && reader == old(reader) && accepted == old(accepted) && sent == old(sent)
    {
      var bytes := |writer.batch|;
      writer := Executing;
      ReleaseWriteBytes(bytes);
      Close();
      writer := WriterDone;
    }

    /** The write coroutine resumes from `Send` with the kernel's result. */
    method OnSendComplete(result: int)
      requires Quiescent() && writer.Sending? && result <= |writer.batch| - writer.offset
      modifies this, loop`pendingWriteBytes, loop`pendingWriteBytesPeak, loop`liveConnections, loop`stopRequested
      ensures Quiescent() && Booked()
      ensures accepted == old(accepted) && inflight == old(inflight) && reader == old(reader)
      ensures sent == if 0 < result && !old(state).Closed?
                      then old(sent) + old(writer).batch[old(writer).offset..old(writer).offset + result] else old(sent)
      ensures old(state).Closed? || result <= 0 ==> state.Closed? && writer.WriterDone?
      ensures 0 < result && !old(state).Closed? && !loop.stopRequested ==>
                state == old(state) || (old(state).Draining? && inflight == 0 && sent == accepted)
    {
      if state.Closed? {
        writer := WriterDone;
        return;
      }
      if result <= 0 {
        AbandonBatch();
        return;
      }
      OnBytesSent(result);
    }

    method OnBytesSent(bytes: nat)
      requires Settled() && NoStuckDrain() && !state.Closed? && writer.Sending?
      requires 0 < bytes <= |writer.batch| - writer.offset
      modifies this, loop`pendingWriteBytes, loop`pendingWriteBytesPeak, loop`liveConnections, loop`stopRequested
      ensures Settled() && NoStuckDrain() && Booked() && (state == old(state) || state.Closed?)
      ensures accepted == old(accepted) && inflight == old(inflight) && reader == old(reader)
      ensures sent == old(sent) + old(writer).batch[old(writer).offset..old(writer).offset + bytes]
      ensures !loop.stopRequested ==>
                state == old(state) || (old(state).Draining? && inflight == 0 && sent == accepted)
    {
      var Sending(batch, offset, n) := writer;
      StreamAdvances(sent, batch, offset, bytes, Concat(writeQueue));
      sent := sent + batch[offset..offset + bytes];
      offset := offset + bytes;
      if offset < |batch| {
        writer := Sending(batch, offset, n);
        SendRest();
      } else {
        writer := Executing;
        FinishBatch(|batch|);
      }
    }

    method SendRest()
      requires Settled() && NoStuckDrain() && !state.Closed? && writer.Sending?
      modifies this, loop`pendingWriteBytes, loop`pendingWriteBytesPeak, loop`liveConnections, loop`stopRequested
      ensures Settled() && NoStuckDrain() && Booked() && (state == old(state) || state.Closed?)
      ensures inflight == old(inflight) && reader == old(reader) && accepted == old(accepted) && sent == old(sent)
      ensures loop.stopRequested || (state == old(state) && writer == old(writer))
    {
      var rejected := loop.StartRefused();
      if rejected {
        AbandonBatch();
      }
    }

    /** The whole batch of `bytes` bytes was sent: they stop counting, and the loop goes on. */
    method FinishBatch(bytes: nat)
      requires !state.Closed? && writer.Executing? && !waiter && Tally()
      requires pendingWriteBytes == |Concat(writeQueue)| + bytes <= maxWriteQueueBytes
      requires pendingWriteBytes <= loop.pendingWriteBytes && inflight <= maxInflight
      requires accepted == sent + Concat(writeQueue)
      modifies this, loop`pendingWriteBytes, loop`pendingWriteBytesPeak, loop`liveConnections, loop`stopRequested
      ensures Settled() && NoStuckDrain() && Booked() && (state == old(state) || state.Closed?)
      ensures inflight == old(inflight) && reader == old(reader) && accepted == old(accepted) && sent == old(sent)
      ensures loop.stopRequested || state == Drained(old(state), inflight, |Concat(old(writeQueue))|)
    {
      ReleaseWriteBytes(bytes);
      ResumeWriteLoop();
    }

    /** Starts both coroutines: the writer parks on its empty queue, the reader starts receiving. */
    method Start()
      requires writer.NotStarted? && reader.ReaderNotStarted? && state.Active? && writeQueue == [] && !waiter
      requires Wire() && Tally() && Stream()
      modifies this, loop`pendingWriteBytes, loop`pendingWriteBytesPeak, loop`liveConnections, loop`stopRequested
      ensures Quiescent() && Booked() && inflight == old(inflight)
      ensures loop.stopRequested || (state.Active? && reader.Receiving? && writer.Parked?)
    {
      waiter := true;
      writer := Parked;
      ContinueReading();
    }

    /** `ReadLoop` from its loop head: the next receive, or the end of the coroutine. */
    method ContinueReading()
      requires Settled() && NoStuckDrain()
      modifies this, loop`pendingWriteBytes, loop`pendingWriteBytesPeak, loop`liveConnections, loop`stopRequested
      ensures Quiescent() && Booked()
      ensures inflight == old(inflight) && accepted == old(accepted) && sent == old(sent)
      ensures old(state).Active? && !loop.stopRequested ==> state.Active? && reader.Receiving? && writer == old(writer)
      ensures !old(state).Active? ==>
                state == Drained(old(state), inflight, old(pendingWriteBytes)) && reader.ReaderDone?
    {
      if state.Active? {
        var rejected := loop.StartRefused();
        if !rejected {
          reader := Receiving;
          return;
        }
        Close();
      }
      FinishReading();
    }

    /** The end of `ReadLoop`, after its loop was left in a state other than Active. */
    method FinishReading()
      requires Settled() && !state.Active?
      modifies this, loop`pendingWriteBytes, loop`pendingWriteBytesPeak, loop`liveConnections, loop`stopRequested
      ensures Quiescent() && Booked() && reader.ReaderDone?
      ensures state == Drained(old(state), inflight, old(pendingWriteBytes))
      ensures inflight == old(inflight) && accepted == old(accepted) && sent == old(sent)
    {
      TryFinishDrain();
      reader := ReaderDone;
    }

    /** `submitted` is the number of requests handed to the worker pool as one job, `rejected` the number
        answered with a rejection. */
    method OnReceive(received: Received, admission: Admission) returns (submitted: nat, ghost rejected: nat)
      requires Quiescent() && reader.Receiving?
      modifies this, loop`pendingWriteBytes, loop`pendingWriteBytesPeak, loop`liveConnections, loop`stopRequested
      ensures Quiescent() && Booked()
      ensures inflight == old(inflight) + submitted
      ensures submitted == Submits(old(state), received, admission, maxInflight - old(inflight))
      ensures sent == old(sent)
      ensures
        var due := Rejects(old(state), received, admission, maxInflight - old(inflight));
        && rejected <= |due| && (rejected < |due| ==> state.Closed?)
        && accepted == old(accepted) + Encoded(due, rejected)
      ensures (old(state).Active? && received.EndOfStream?)
              || Turned(old(state), received, admission, maxInflight - old(inflight)) ==>
                state == Drained(Draining, inflight, old(pendingWriteBytes)) && reader.ReaderDone?
      ensures Served(old(state), received, admission, maxInflight - old(inflight)) && !loop.stopRequested
              && rejected == |Rejects(old(state), received, admission, maxInflight - old(inflight))| ==>
                state.Active? && reader.Receiving?
      ensures old(state).Active? && (received.Failed? || (received.Data? && received.feed.closed)) ==> state.Closed?
    {
      submitted, rejected := 0, 0;
      if !state.Active? {
        FinishReading();
        return;
      }
      match received
      case EndOfStream =>
        state := Draining;
        FinishReading();
      case Failed =>
        Close();
        FinishReading();
      case Data(feed) =>
        var more;
        more, submitted, rejected := HandleFeedResult(feed, admission);
        if !more {
          FinishReading();
        } else {
          ContinueReading();
        }
    }

    method HandleFeedResult(feed: Feed, admission: Admission)
      returns (more: bool, submitted: nat, ghost rejected: nat)
      requires Settled() && state.Active?
      modifies this, loop`pendingWriteBytes, loop`pendingWriteBytesPeak, loop`liveConnections, loop`stopRequested
      ensures Settled() && NoStuckDrain() && Booked()
      ensures inflight == old(inflight) + submitted && reader == old(reader) && sent == old(sent)
      ensures submitted == Submits(Active, Data(feed), admission, maxInflight - old(inflight))
      ensures
        var due := Rejects(Active, Data(feed), admission, maxInflight - old(inflight));
        && rejected <= |due| && (rejected < |due| ==> state.Closed?)
        && accepted == old(accepted) + Encoded(due, rejected)
      ensures feed.closed ==> state.Closed?
      ensures !more ==> !state.Active?
      ensures Turned(Active, Data(feed), admission, maxInflight - old(inflight)) ==>
                !more && state == Drained(Draining, inflight, old(pendingWriteBytes))
                && (state.Closed? || pendingWriteBytes == old(pendingWriteBytes))
      ensures Served(Active, Data(feed), admission, maxInflight - old(inflight)) && !loop.stopRequested
              && rejected == |Rejects(Active, Data(feed), admission, maxInflight - old(inflight))| ==>
                more && state.Active?
    {
      submitted, rejected := 0, 0;
      if feed.closed {
        Close();
        return false, 0, 0;
      }
      if feed.rejections == [] {
        return true, 0, 0;
      }
      if |feed.rejections| > maxInflight - inflight {
        var done := RejectEach(feed.rejections);
        return done == |feed.rejections|, 0, done;
      }
      more, submitted, rejected := SubmitRequestBatch(feed.rejections, admission);
    }

    /** Answers the first `done` requests with a rejection, in order; stops early only by closing. */
    method RejectEach(rejections: seq<Option<seq<Byte>>>) returns (done: nat)
      requires Settled() && state.Active?
      modifies this, loop`pendingWriteBytes, loop`pendingWriteBytesPeak, loop`liveConnections, loop`stopRequested
      ensures Settled() && Booked()
      ensures state.Active? || state.Closed?
      ensures done <= |rejections| && (done < |rejections| ==> state.Closed?)
      ensures done == |rejections| && !loop.stopRequested ==> state.Active?
      ensures done < |rejections| && !loop.stopRequested && rejections[done].Some? ==>
                |rejections[done].value| > maxWriteQueueBytes - old(pendingWriteBytes) - |Encoded(rejections, done)|
      ensures accepted == old(accepted) + Encoded(rejections, done)
      ensures inflight == old(inflight) && reader == old(reader) && sent == old(sent)
    {
      hide Settled;
      done := 0;
      while done < |rejections|
        invariant 0 <= done <= |rejections|
        invariant Settled() && Booked() && (state.Active? || state.Closed?)
        invariant !loop.stopRequested ==> state.Active?
        invariant state.Active? ==> pendingWriteBytes == old(pendingWriteBytes) + |Encoded(rejections, done)|
        invariant inflight == old(inflight) && reader == old(reader) && sent == old(sent)
        invariant accepted == old(accepted) + Encoded(rejections, done)
      {
        var ok := RejectForBackpressure(rejections[done]);
        if !ok {
          return;
        }
        done := done + 1;
      }
    }

    method RejectForBackpressure(encoded: Option<seq<Byte>>) returns (ok: bool)
      requires Settled() && !state.Draining?
      modifies this, loop`pendingWriteBytes, loop`pendingWriteBytesPeak, loop`liveConnections, loop`stopRequested
      ensures Settled() && Booked()
      ensures state == old(state) || state.Closed?
      ensures !ok ==> state.Closed?
      ensures ok && !loop.stopRequested ==> state == old(state)
      ensures ok <==>
                !old(state).Closed? && encoded.Some? && |encoded.value| <= maxWriteQueueBytes - old(pendingWriteBytes)
      ensures ok && !state.Closed? ==> pendingWriteBytes == old(pendingWriteBytes) + |encoded.value|
      ensures accepted == old(accepted) + if ok then encoded.value else []
      ensures inflight == old(inflight) && reader == old(reader) && sent == old(sent)
    {
      if encoded.None? {
        Close();
        return false;
      }
      ok := EnqueueWrite(encoded.value);
    }

    method SubmitRequestBatch(rejections: seq<Option<seq<Byte>>>, admission: Admission)
      returns (more: bool, submitted: nat, ghost rejected: nat)
      requires Settled() && state.Active? && 0 < |rejections| <= maxInflight - inflight
      modifies this, loop`pendingWriteBytes, loop`pendingWriteBytesPeak, loop`liveConnections, loop`stopRequested
      ensures Settled() && NoStuckDrain() && Booked()
      ensures inflight == old(inflight) + submitted && reader == old(reader) && sent == old(sent)
      ensures submitted == if admission.Accepted? then |rejections| else 0
      ensures rejected <= |rejections| && accepted == old(accepted) + Encoded(rejections, rejected)
      ensures if admission == Refused(true) then rejected < |rejections| ==> state.Closed? else rejected == 0
      ensures admission == Refused(false) ==>
                !more && state == Drained(Draining, inflight, old(pendingWriteBytes))
                && (state.Closed? || pendingWriteBytes == old(pendingWriteBytes))
      ensures !more ==> !state.Active?
      ensures admission.Accepted? || (admission == Refused(true) && rejected == |rejections|) ==>
                loop.stopRequested || (more && state.Active?)
    {
      match admission
      case Accepted =>
        inflight := inflight + |rejections|;
        return true, |rejections|, 0;
      case Refused(poolOpen) =>
        if !poolOpen {
          BeginDrain();
          return false, 0, 0;
        }
        var done := RejectEach(rejections);
        return done == |rejections|, 0, done;
    }

    method OnResponsesEncoded(bytes: seq<Byte>, released: nat)
      requires Quiescent() && released <= inflight
      modifies this, loop`pendingWriteBytes, loop`pendingWriteBytesPeak, loop`liveConnections, loop`stopRequested
      ensures Quiescent() && Booked()
      ensures inflight == old(inflight) - released && reader == old(reader)
      ensures accepted == if !old(state).Closed? && |bytes| <= maxWriteQueueBytes - old(pendingWriteBytes)
                          then old(accepted) + bytes else old(accepted)
      ensures sent == old(sent) && (state == old(state) || state.Closed?)
      ensures |bytes| <= maxWriteQueueBytes - old(pendingWriteBytes) && !loop.stopRequested ==>
                state == Drained(old(state), inflight, old(pendingWriteBytes) + |bytes|)
      ensures |bytes| > maxWriteQueueBytes - old(pendingWriteBytes) ==> state.Closed?
    {
      inflight := inflight - released;
      if state.Closed? {
        return;
      }
      var ok := EnqueueWrite(bytes);
      TryFinishDrain();
    }

    method OnResponseEncodeFailure(released: nat)
      requires Quiescent() && released <= inflight
      modifies this, loop`pendingWriteBytes, loop`pendingWriteBytesPeak, loop`liveConnections, loop`stopRequested
      ensures Quiescent() && Booked() && state.Closed?
      ensures inflight == old(inflight) - released && reader == old(reader)
      ensures accepted == old(accepted) && sent == old(sent)
    {
      inflight := inflight - released;
      Close();
    }
  }

  // ----- Worker side

  /** A submitted batch that a worker has not finished: its connection and its request count. */
  datatype Job = Job(connection: nat, requests: nat)

  datatype WorkerResult = WorkerResult(connection: nat, bytes: seq<Byte>, released: nat, encodeFailed: bool)

  function RequestsOf(jobs: seq<Job>, id: nat): nat {
    if jobs == [] then 0
    else (if jobs[0].connection == id then jobs[0].requests else 0) + RequestsOf(jobs[1..], id)
  }

  function ReleasesOf(results: seq<WorkerResult>, id: nat): nat {
    if results == [] then 0
    else (if results[0].connection == id then results[0].released else 0) + ReleasesOf(results[1..], id)
  }

  lemma {:induction false} RequestsOfConcat(a: seq<Job>, b: seq<Job>, id: nat)
    ensures RequestsOf(a + b, id) == RequestsOf(a, id) + RequestsOf(b, id)
  {
    if a == [] {
      assert a + b == b;
    } else {
      assert (a + b)[1..] == a[1..] + b;
      RequestsOfConcat(a[1..], b, id);
    }
  }

  lemma {:induction false} ReleasesOfConcat(a: seq<WorkerResult>, b: seq<WorkerResult>, id: nat)
    ensures ReleasesOf(a + b, id) == ReleasesOf(a, id) + ReleasesOf(b, id)
  {
    if a == [] {
      assert a + b == b;
    } else {
      assert (a + b)[1..] == a[1..] + b;
      ReleasesOfConcat(a[1..], b, id);
    }
  }

  /** An id no job and no result mentions has nothing outstanding. */
  lemma {:induction false} NothingOutstanding(jobs: seq<Job>, results: seq<WorkerResult>, id: nat)
    requires forall i :: 0 <= i < |jobs| ==> jobs[i].connection < id
    requires forall i :: 0 <= i < |results| ==> results[i].connection < id
    ensures RequestsOf(jobs, id) == 0 && ReleasesOf(results, id) == 0
    decreases |jobs| + |results|
  {
    if jobs != [] {
      NothingOutstanding(jobs[1..], results, id);
    } else if results != [] {
      NothingOutstanding(jobs, results[1..], id);
    }
  }

  /** All elements but the `i`-th. */
  function Without<T>(s: seq<T>, i: nat): seq<T>
    requires i < |s|
  {
    s[..i] + s[i + 1..]
  }

  lemma {:induction false} RequestsOfWithout(jobs: seq<Job>, i: nat, id: nat)
    requires i < |jobs|
    ensures RequestsOf(jobs, id)
            == RequestsOf(Without(jobs, i), id) + (if jobs[i].connection == id then jobs[i].requests else 0)
  {
    assert jobs == jobs[..i] + ([jobs[i]] + jobs[i + 1..]);
    RequestsOfConcat(jobs[..i], [jobs[i]] + jobs[i + 1..], id);
    RequestsOfConcat([jobs[i]], jobs[i + 1..], id);
    RequestsOfConcat(jobs[..i], jobs[i + 1..], id);
  }

  lemma {:induction false} ReleasesOfWithout(results: seq<WorkerResult>, i: nat, id: nat)
    requires i < |results|
    ensures ReleasesOf(results, id)
            == ReleasesOf(Without(results, i), id) + (if results[i].connection == id then results[i].released else 0)
  {
    assert results == results[..i] + ([results[i]] + results[i + 1..]);
    ReleasesOfConcat(results[..i], [results[i]] + results[i + 1..], id);
    ReleasesOfConcat([results[i]], results[i + 1..], id);
    ReleasesOfConcat(results[..i], results[i + 1..], id);
  }

  /** The encodings before the first failure, concatenated. */
  function EncodedPrefix(encoded: seq<Option<seq<Byte>>>): seq<Byte> {
    if encoded == [] || encoded[0].None? then [] else encoded[0].value + EncodedPrefix(encoded[1..])
  }

  /** How many of the encodings come before the first failure. */
  function EncodedCount(encoded: seq<Option<seq<Byte>>>): (n: nat)
    ensures n <= |encoded| && (forall i :: 0 <= i < n ==> encoded[i].Some?) && (n < |encoded| ==> encoded[n].None?)
  {
    if encoded == [] || encoded[0].None? then 0 else 1 + EncodedCount(encoded[1..])
  }

  /** What a worker posts for a batch: the responses before the first failure, and the failure. */
  function PostedResults(connection: nat, encoded: seq<Option<seq<Byte>>>): seq<WorkerResult> {
    var done := EncodedCount(encoded);
    (if 0 < done then [WorkerResult(connection, EncodedPrefix(encoded), done, false)] else [])
    + (if done < |encoded| then [WorkerResult(connection, [], |encoded| - done, true)] else [])
  }

  /** `ExecuteRequestBatchOnWorker`: `encoded[i]` is the outcome of dispatching and encoding request
      `i`.  The one or two results release exactly the batch's requests and carry the responses
      before the first failure, in request order. */
  method ExecuteRequestBatchOnWorker(connection: nat, encoded: seq<Option<seq<Byte>>>)
    returns (results: seq<WorkerResult>)
    requires encoded != []
    ensures 1 <= |results| <= 2
    ensures forall id: nat :: ReleasesOf(results, id) == if id == connection then |encoded| else 0
    ensures forall i :: 0 <= i < |results| ==> results[i].connection == connection && 0 < results[i].released
    ensures (exists i :: 0 <= i < |results| && results[i].encodeFailed) <==>
            (exists i :: 0 <= i < |encoded| && encoded[i].None?)
    ensures !results[0].encodeFailed ==> results[0].bytes == EncodedPrefix(encoded)
    ensures results[0].encodeFailed ==> |results| == 1 && encoded[0].None?
    ensures results == PostedResults(connection, encoded)
  {
    var bytes: seq<Byte> := [];
    var done := 0;
    while done < |encoded| && encoded[done].Some?
      invariant 0 <= done <= |encoded|
      invariant forall i :: 0 <= i < done ==> encoded[i].Some?
      invariant bytes + EncodedPrefix(encoded[done..]) == EncodedPrefix(encoded)
      invariant done + EncodedCount(encoded[done..]) == EncodedCount(encoded)
    {
      assert encoded[done..][1..] == encoded[done + 1..];
      bytes := bytes + encoded[done].value;
      done := done + 1;
    }
    assert encoded[done..] == [] || encoded[done..][0].None?;
    assert bytes + [] == bytes;
    assert bytes == EncodedPrefix(encoded) && done == EncodedCount(encoded);
    hide EncodedPrefix, EncodedCount, ReleasesOf;
    results := if done > 0 then [WorkerResult(connection, bytes, done, false)] else [];
    if done < |encoded| {
      results := results + [WorkerResult(connection, [], |encoded| - done, true)];
    } else {
      assert results + [] == results;
    }
    assert results == PostedResults(connection, encoded);
    hide *;
    PostedMeans(connection, encoded);
  }

  lemma {:induction false} PostedMeans(connection: nat, encoded: seq<Option<seq<Byte>>>)
    requires encoded != []
    ensures
      var results := PostedResults(connection, encoded);
      && 1 <= |results| <= 2
      && (forall id: nat :: ReleasesOf(results, id) == if id == connection then |encoded| else 0)
      && (forall i :: 0 <= i < |results| ==> results[i].connection == connection && 0 < results[i].released)
      && ((exists i :: 0 <= i < |results| && results[i].encodeFailed) <==>
          (exists i :: 0 <= i < |encoded| && encoded[i].None?))
      && (!results[0].encodeFailed ==> results[0].bytes == EncodedPrefix(encoded))
      && (results[0].encodeFailed ==> |results| == 1 && encoded[0].None?)
  {
    var results, done := PostedResults(connection, encoded), EncodedCount(encoded);
    var first := if 0 < done then [WorkerResult(connection, EncodedPrefix(encoded), done, false)] else [];
    var last := if done < |encoded| then [WorkerResult(connection, [], |encoded| - done, true)] else [];
    forall id: nat ensures ReleasesOf(results, id) == if id == connection then |encoded| else 0 {
      ReleasesOfConcat(first, last, id);
      ReleasesOfAtMostOne(first, id);
      ReleasesOfAtMostOne(last, id);
    }
    if done < |encoded| { assert results[|results| - 1].encodeFailed; }
  }

  lemma {:induction false} ReleasesOfAtMostOne(results: seq<WorkerResult>, id: nat)
    requires |results| <= 1
    ensures ReleasesOf(results, id) == if results != [] && results[0].connection == id then results[0].released else 0
  {
    if results != [] { assert results[1..] == []; }
  }

  /** In-flight requests of every connection are those of its unfinished jobs plus those that its
      results in transit will release; ids from `next` on are unused. */
  ghost predicate Conserved(inflight: map<nat, nat>, jobs: seq<Job>, results: seq<WorkerResult>, next: nat) {
    && (forall id :: id in inflight ==> inflight[id] == RequestsOf(jobs, id) + ReleasesOf(results, id))
    && (forall i :: 0 <= i < |jobs| ==> 0 < jobs[i].requests && jobs[i].connection < next)
    && (forall i :: 0 <= i < |results| ==> results[i].connection < next)
  }

  lemma {:induction false} SubmitConserves(inflight: map<nat, nat>, jobs: seq<Job>, results: seq<WorkerResult>,
      next: nat, id: nat, n: nat)
    requires Conserved(inflight, jobs, results, next) && id in inflight && id < next
    ensures Conserved(inflight[id := inflight[id] + n], if n == 0 then jobs else jobs + [Job(id, n)], results, next)
  {
    if n == 0 {
      assert inflight[id := inflight[id] + n] == inflight;
    } else {
      forall k: nat ensures RequestsOf(jobs + [Job(id, n)], k) == RequestsOf(jobs, k) + if k == id then n else 0 {
        RequestsOfConcat(jobs, [Job(id, n)], k);
        assert [Job(id, n)][1..] == [];
      }
    }
  }

  lemma {:induction false} JobHasRequests(inflight: map<nat, nat>, jobs: seq<Job>, results: seq<WorkerResult>,
      next: nat, i: nat)
    requires Conserved(inflight, jobs, results, next) && i < |jobs|
    ensures 0 < jobs[i].requests
  {
  }

  /** Whatever the encodings, replacing a job by the results of its execution loses no request. */
  lemma {:induction false} FinishConserves(inflight: map<nat, nat>, jobs: seq<Job>, results: seq<WorkerResult>,
      next: nat, i: nat, posted: seq<WorkerResult>)
    requires Conserved(inflight, jobs, results, next) && i < |jobs|
    requires forall k :: 0 <= k < |posted| ==> posted[k].connection == jobs[i].connection
    requires forall id: nat :: ReleasesOf(posted, id) == if id == jobs[i].connection then jobs[i].requests else 0
    ensures Conserved(inflight, Without(jobs, i), results + posted, next)
  {
    forall id: nat
      ensures RequestsOf(Without(jobs, i), id) + ReleasesOf(results + posted, id)
              == RequestsOf(jobs, id) + ReleasesOf(results, id)
    {
      RequestsOfWithout(jobs, i, id);
      ReleasesOfConcat(results, posted, id);
    }
  }

  /** A result never releases more than is in flight, so the release never underflows. */
  lemma {:induction false} ReleaseConserves(inflight: map<nat, nat>, jobs: seq<Job>, results: seq<WorkerResult>,
      next: nat, i: nat)
    requires Conserved(inflight, jobs, results, next) && i < |results|
    ensures
      var r := results[i];
      if r.connection in inflight
      then r.released <= inflight[r.connection]
           && Conserved(inflight[r.connection := inflight[r.connection] - r.released], jobs, Without(results, i), next)
      else Conserved(inflight, jobs, Without(results, i), next)
  {
    forall id: nat
      ensures ReleasesOf(results, id)
              == ReleasesOf(Without(results, i), id) + if results[i].connection == id then results[i].released else 0
    { ReleasesOfWithout(results, i, id); }
  }

  lemma {:induction false} OpenConserves(inflight: map<nat, nat>, jobs: seq<Job>, results: seq<WorkerResult>, next: nat)
    requires Conserved(inflight, jobs, results, next)
    ensures Conserved(inflight[next := 0], jobs, results, next + 1)
  {
    NothingOutstanding(jobs, results, next);
  }

  // ----- The loop

  datatype LoopState = Created | Running | LoopDraining | Stopped

  datatype Event =
    | StartLoop
    | Accept
    | Sent(id: nat, result: int)
    | Receive(id: nat, received: Received, admission: Admission)
    | Finished(k: nat, encoded: seq<Option<seq<Byte>>>)
    | Result(k: nat)
    | StartDrain
    | DrainPosted
    | TryFinish
    | Collect
    | CloseAll

  class ConnectionIoLoop {
    const maxInflight: nat
    const maxWriteQueueBytes: nat

    var state: LoopState
    var connections: map<nat, ServerConnection>
    var nextConnectionId: nat
    var liveConnections: nat
    var pendingWriteBytes: nat
    var pendingWriteBytesPeak: nat

    var jobs: seq<Job>                // batches queued or running in the worker pool
    var results: seq<WorkerResult>    // worker results on their way back
    var stopRequested: bool           // of the context: it starts no I/O any more
    ghost var drainRan: bool          // BeginDrainOnContext has run

    ghost predicate Owned()
      reads `connections, `nextConnectionId, connections.Values
    {
      forall id :: id in connections ==>
        var c := connections[id];
        && c.id == id && c.loop == this && id < nextConnectionId
        && c.maxInflight == maxInflight && c.maxWriteQueueBytes == maxWriteQueueBytes
        && c.AtRest()
    }

    ghost function PendingOf(): map<nat, nat>
      reads `connections, connections.Values
    {
      map id | id in connections :: connections[id].pendingWriteBytes
    }

    ghost function InflightOf(): map<nat, nat>
      reads `connections, connections.Values
    {
      map id | id in connections :: connections[id].inflight
    }

    ghost function OpenIds(): set<nat>
      reads `connections, connections.Values
    {
      set id | id in connections && !connections[id].state.Closed?
    }

    /** The loop's total is the sum over its connections and its live count the number of open ones. */
    ghost predicate Balanced()
      reads `connections, `pendingWriteBytes, `liveConnections, connections.Values
    {
      pendingWriteBytes == SumMap(PendingOf()) && liveConnections == |OpenIds()|
    }

    ghost predicate InflightConserved()
      reads `connections, `jobs, `results, `nextConnectionId, connections.Values
    {
      Conserved(InflightOf(), jobs, results, nextConnectionId)
    }

    ghost predicate DrainSticks()
      reads `connections, `drainRan, `state, connections.Values
    {
      drainRan ==>
        && (state.LoopDraining? || state.Stopped?)
        && (forall id :: id in connections ==> !connections[id].state.Active?)
    }

    ghost predicate Valid()
      reads this, connections.Values
    {
      Owned() && Balanced() && InflightConserved() && DrainSticks()
    }

    constructor (maxInflight: nat, maxWriteQueueBytes: nat)
      ensures Valid() && state == Created && connections == map[] && jobs == [] && results == [] && !drainRan
    {
      this.maxInflight, this.maxWriteQueueBytes := maxInflight, maxWriteQueueBytes;
      state, connections, nextConnectionId, liveConnections := Created, map[], 1, 0;
      pendingWriteBytes, pendingWriteBytesPeak, jobs, results := 0, 0, [], [];
      stopRequested, drainRan := false, false;
      new;
      assert OpenIds() == {};
    }

    method RecordWriteBytesChange(before: nat, after: nat)
      requires before <= pendingWriteBytes
      modifies `pendingWriteBytes, `pendingWriteBytesPeak
      ensures pendingWriteBytes == old(pendingWriteBytes) - before + after
      ensures pendingWriteBytesPeak
              == if old(pendingWriteBytesPeak) < pendingWriteBytes
                 then pendingWriteBytes else old(pendingWriteBytesPeak)
    {
      pendingWriteBytes := pendingWriteBytes - before + after;
      pendingWriteBytesPeak :=
        if pendingWriteBytesPeak < pendingWriteBytes then pendingWriteBytes else pendingWriteBytesPeak;
    }

    /** Whether the context refuses to start I/O.  Another thread may stop it at any time, and for good. */
    method StartRefused() returns (refused: bool)
      modifies `stopRequested
      ensures refused == stopRequested && (old(stopRequested) ==> stopRequested)
    {
      if * { stopRequested := true; }
      refused := stopRequested;
    }

    method OnConnectionClosed()
      modifies `liveConnections
      ensures liveConnections == if old(liveConnections) > 0 then old(liveConnections) - 1 else 0
    {
      if liveConnections > 0 {
        liveConnections := liveConnections - 1;
      }
    }

    lemma {:induction false} ConnectionIsCovered(id: nat)
      requires Owned() && Balanced() && id in connections
      ensures connections[id].Quiescent()
    {
      hide ServerConnection.AtRest;
      SumMapAtLeast(PendingOf(), id);
      if !connections[id].state.Closed? { assert id in OpenIds(); }
    }

    /** Of the connections only `id` differs from the old state. */
    twostate predicate OnlyTouched(id: nat)
      reads `connections, `nextConnectionId, `state, `drainRan, connections.Values
    {
      && id in old(connections) && connections == old(connections)
      && nextConnectionId == old(nextConnectionId) && state == old(state) && drainRan == old(drainRan)
      && (forall other :: other in connections && other != id ==> unchanged(connections[other]))
    }

    twostate lemma OwnedAfter(id: nat)
      requires old(Owned()) && OnlyTouched(id) && connections[id].AtRest()
      ensures Owned()
    {
      hide ServerConnection.AtRest;
    }

    /** A handler of one connection keeps the loop's books. */
    twostate lemma BalancedAfter(id: nat)
      requires old(Balanced()) && OnlyTouched(id) && connections[id].loop == this && connections[id].Booked()
      ensures Balanced()
    {
      hide ServerConnection.AtRest;
      var c := connections[id];
      assert PendingOf() == old(PendingOf())[id := c.pendingWriteBytes];
      SumMapSet(old(PendingOf()), id, c.pendingWriteBytes);
      if c.state.Closed? && !old(c.state).Closed? {
        assert OpenIds() == old(OpenIds()) - {id};
        assert id in old(OpenIds());
      } else {
        assert OpenIds() == old(OpenIds());
      }
    }

    twostate lemma DrainSticksAfter(id: nat)
      requires old(DrainSticks()) && OnlyTouched(id) && connections[id].loop == this && connections[id].Booked()
      ensures DrainSticks()
    {
      hide ServerConnection.AtRest;
    }

    /** The handler of connection `id` ends at rest and keeps its books, so the loop keeps its own. */
    twostate lemma BooksAfter(id: nat)
      requires old(Owned()) && old(Balanced()) && old(DrainSticks()) && OnlyTouched(id)
      requires connections[id].AtRest() && connections[id].Booked()
      ensures Owned() && Balanced() && DrainSticks()
      ensures InflightOf() == old(InflightOf())[id := connections[id].inflight]
    {
      hide ServerConnection.AtRest;
      OwnedAfter(id);
      BalancedAfter(id);
      DrainSticksAfter(id);
    }

    method OnSendComplete(id: nat, result: int)
      requires Valid() && id in connections && connections[id].writer.Sending?
      requires result <= |connections[id].writer.batch| - connections[id].writer.offset
      modifies connections[id], `pendingWriteBytes, `pendingWriteBytesPeak, `liveConnections, `stopRequested
      ensures Valid() && OnlyTouched(id) && connections[id].Booked() && (old(stopRequested) ==> stopRequested)
      ensures
        var c := connections[id];
        && c.accepted == old(c.accepted) && c.inflight == old(c.inflight)
        && c.sent == (if 0 < result && !old(c.state).Closed?
                      then old(c.sent) + old(c.writer).batch[old(c.writer).offset..old(c.writer).offset + result]
                      else old(c.sent))
        && (0 < result && !old(c.state).Closed? && c.state.Closed? && !stopRequested ==> c.sent == c.accepted)
    {
      hide ServerConnection.AtRest, ServerConnection.Booked, Conserved;
      ConnectionIsCovered(id);
      var c := connections[id];
      assert forall other :: other in connections && other != id ==> connections[other] != c;
      c.OnSendComplete(result);
      assert OnlyTouched(id);
      BooksAfter(id);
      assert InflightOf() == old(InflightOf());
    }

    /** A receive completes.  A batch the pool accepts becomes a job of this connection. */
    method OnReceive(id: nat, received: Received, admission: Admission)
      requires Valid() && id in connections && connections[id].reader.Receiving?
      modifies connections[id], `pendingWriteBytes, `pendingWriteBytesPeak, `liveConnections, `stopRequested, `jobs
      ensures Valid() && OnlyTouched(id) && connections[id].Booked()
      ensures
        var c := connections[id];
        var n := Submits(old(c.state), received, admission, maxInflight - old(c.inflight));
        jobs == if 0 < n then old(jobs) + [Job(id, n)] else old(jobs)
    {
      hide ServerConnection.AtRest, ServerConnection.Booked, Conserved, Owned, Balanced, DrainSticks;
      var submitted := ReceiveOn(id, received, admission);
      SubmitConserves(old(InflightOf()), jobs, results, nextConnectionId, id, submitted);
      if 0 < submitted {
        jobs := jobs + [Job(id, submitted)];
      }
    }

    method ReceiveOn(id: nat, received: Received, admission: Admission) returns (submitted: nat)
      requires Owned() && Balanced() && DrainSticks() && id in connections && connections[id].reader.Receiving?
      modifies connections[id], `pendingWriteBytes, `pendingWriteBytesPeak, `liveConnections, `stopRequested
      ensures Owned() && Balanced() && DrainSticks() && OnlyTouched(id) && connections[id].Booked()
      ensures id < nextConnectionId
      ensures
        var c := connections[id];
        submitted == Submits(old(c.state), received, admission, maxInflight - old(c.inflight))
      ensures InflightOf() == old(InflightOf())[id := old(InflightOf())[id] + submitted]
    {
      hide ServerConnection.AtRest, ServerConnection.Booked, Submits, Rejects, Served, Turned, Encoded;
      ConnectionIsCovered(id);
      var c := connections[id];
      assert forall other :: other in connections && other != id ==> connections[other] != c;
      ghost var rejected;
      submitted, rejected := c.OnReceive(received, admission);
      assert OnlyTouched(id);
      BooksAfter(id);
    }

    /** A worker finishes job `i` and posts its results. */
    method FinishJob(i: nat, encoded: seq<Option<seq<Byte>>>)
      requires Valid() && i < |jobs| && |encoded| == jobs[i].requests
      modifies `jobs, `results
      ensures Valid() && jobs == Without(old(jobs), i)
      ensures results == old(results) + PostedResults(old(jobs)[i].connection, encoded)
    {
      hide ServerConnection.AtRest, Conserved, Owned, Balanced, DrainSticks, InflightOf;
      JobHasRequests(InflightOf(), jobs, results, nextConnectionId, i);
      var posted := ExecuteRequestBatchOnWorker(jobs[i].connection, encoded);
      FinishConserves(InflightOf(), jobs, results, nextConnectionId, i, posted);
      jobs, results := Without(jobs, i), results + posted;
    }

    /** Result `i` reaches the I/O thread.  The assertion of `ReleaseInflightRequests` cannot fail. */
    method HandleWorkerResult(i: nat)
      requires Valid() && i < |results|
      modifies if results[i].connection in connections then {connections[results[i].connection]} else {},
        `pendingWriteBytes, `pendingWriteBytesPeak, `liveConnections, `stopRequested, `results
      ensures Valid() && connections == old(connections) && results == Without(old(results), i)
      ensures old(results)[i].connection in connections ==>
        var c := connections[old(results)[i].connection];
        && old(results)[i].released <= old(c.inflight)
        && c.inflight == old(c.inflight) - old(results)[i].released
        && (old(results)[i].encodeFailed ==> c.state.Closed?)
        && c.accepted == old(c.accepted) + old(Answer(c, results[i])) && c.sent == old(c.sent)
        && (!stopRequested && old(Fits(c, results[i])) ==>
              c.state == Drained(old(c.state), c.inflight, old(c.pendingWriteBytes) + |old(results)[i].bytes|))
      ensures old(results)[i].connection !in connections ==>
        pendingWriteBytes == old(pendingWriteBytes) && liveConnections == old(liveConnections)
    {
      hide ServerConnection.AtRest, ServerConnection.Booked, Conserved, Owned, Balanced, DrainSticks;
      var result := results[i];
      ReleaseConserves(InflightOf(), jobs, results, nextConnectionId, i);
      results := Without(results, i);
      if result.connection in connections {
        DeliverResult(result);
      }
    }

    method DeliverResult(result: WorkerResult)
      requires Owned() && Balanced() && DrainSticks() && result.connection in connections
      requires result.released <= connections[result.connection].inflight
      modifies connections[result.connection], `pendingWriteBytes, `pendingWriteBytesPeak, `liveConnections,
               `stopRequested
      ensures Owned() && Balanced() && DrainSticks() && OnlyTouched(result.connection)
      ensures result.released <= old(InflightOf())[result.connection]
      ensures InflightOf()
              == old(InflightOf())[result.connection := old(InflightOf())[result.connection] - result.released]
      ensures result.encodeFailed ==> connections[result.connection].state.Closed?
      ensures
        var c := connections[result.connection];
        && c.accepted == old(c.accepted) + old(Answer(c, result)) && c.sent == old(c.sent)
        && (!stopRequested && old(Fits(c, result)) ==>
              c.state == Drained(old(c.state), c.inflight, old(c.pendingWriteBytes) + |result.bytes|))
    {
      hide ServerConnection.AtRest, ServerConnection.Booked, Conserved;
      var id := result.connection;
      ConnectionIsCovered(id);
      var c := connections[id];
      assert forall other :: other in connections && other != id ==> connections[other] != c;
      DeliverTo(c, result);
      assert OnlyTouched(id);
      BooksAfter(id);
    }

    /** The result carries responses, the connection is open and its write queue has room for them. */
    predicate Fits(c: ServerConnection, result: WorkerResult)
      reads c
    {
      !result.encodeFailed && !c.state.Closed? && |result.bytes| <= c.maxWriteQueueBytes - c.pendingWriteBytes
    }

    /** What delivering a result adds to the connection's output. */
    function Answer(c: ServerConnection, result: WorkerResult): seq<Byte>
      reads c
    {
      if Fits(c, result) then result.bytes else []
    }

    method DeliverTo(c: ServerConnection, result: WorkerResult)
      requires c.loop == this && c.Quiescent() && result.released <= c.inflight
      modifies c, `pendingWriteBytes, `pendingWriteBytesPeak, `liveConnections, `stopRequested
      ensures c.Quiescent() && c.Booked() && c.inflight == old(c.inflight) - result.released
      ensures result.encodeFailed ==> c.state.Closed?
      ensures c.accepted == old(c.accepted) + old(Answer(c, result)) && c.sent == old(c.sent)
      ensures !stopRequested && old(Fits(c, result)) ==>
                c.state == Drained(old(c.state), c.inflight, old(c.pendingWriteBytes) + |result.bytes|)
    {
      if result.encodeFailed {
        c.OnResponseEncodeFailure(result.released);
      } else {
        c.OnResponsesEncoded(result.bytes, result.released);
      }
    }

    /** Every connection there was is still there and unchanged. */
    twostate predicate OthersKept()
      reads `connections, connections.Values
    {
      forall id :: id in old(connections) ==>
        id in connections && connections[id] == old(connections[id]) && unchanged(connections[id])
    }

    method StartConnectionOnContext()
      requires Valid()
      modifies `connections, `nextConnectionId, `liveConnections, `pendingWriteBytes, `pendingWriteBytesPeak,
               `stopRequested
      ensures Valid()
      ensures if old(state).Running?
              then connections.Keys == old(connections).Keys + {old(nextConnectionId)}
              else connections == old(connections)
      ensures old(state).Running? ==> fresh(connections[old(nextConnectionId)])
      ensures old(state).Running? && !stopRequested ==>
        connections[old(nextConnectionId)].state.Active? && connections[old(nextConnectionId)].reader.Receiving?
      ensures OthersKept()
    {
      hide ServerConnection.AtRest, Conserved, Owned, Balanced, InflightOf;
      if !state.Running? {
        return;
      }
      hide OthersKept;
      OpenConserves(InflightOf(), jobs, results, nextConnectionId);
      OpenConnection();
    }

    method OpenConnection()
      requires Owned() && Balanced()
      modifies `connections, `nextConnectionId, `liveConnections, `pendingWriteBytes, `pendingWriteBytesPeak,
               `stopRequested
      ensures Owned() && Balanced()
      ensures nextConnectionId == old(nextConnectionId) + 1
      ensures connections.Keys == old(connections).Keys + {old(nextConnectionId)}
      ensures fresh(connections[old(nextConnectionId)])
      ensures !stopRequested ==>
        connections[old(nextConnectionId)].state.Active? && connections[old(nextConnectionId)].reader.Receiving?
      ensures OthersKept()
      ensures InflightOf() == old(InflightOf())[old(nextConnectionId) := 0]
    {
      hide ServerConnection.AtRest, ServerConnection.Accounts;
      hide ServerConnection.ClosedOnce, ServerConnection.Stream, Balanced;
      var id := nextConnectionId;
      var c := new ServerConnection(id, this, maxInflight, maxWriteQueueBytes);
      Register(c);
      StartRegistered(id);
      OwnedAfterStart(id);
    }

    twostate lemma OwnedAfterStart(id: nat)
      requires old(Owned()) && id == old(nextConnectionId) && nextConnectionId == id + 1 && id in connections
      requires connections == old(connections)[id := connections[id]] && id !in old(connections)
      requires forall other :: other in old(connections) ==> unchanged(old(connections[other]))
      requires
        var c := connections[id];
        && c.id == id && c.loop == this && c.maxInflight == maxInflight && c.maxWriteQueueBytes == maxWriteQueueBytes
        && c.AtRest() && c.inflight == 0
      ensures Owned() && InflightOf() == old(InflightOf())[id := 0]
    {
      hide ServerConnection.AtRest;
    }

    /** Assigns the next id to the connection and counts it as live. */
    method Register(c: ServerConnection)
      requires Owned() && Balanced() && c.id == nextConnectionId && !c.state.Closed? && c.pendingWriteBytes == 0
      requires c !in connections.Values
      modifies `connections, `nextConnectionId, `liveConnections
      ensures connections == old(connections)[c.id := c] && nextConnectionId == old(nextConnectionId) + 1
      ensures liveConnections == old(liveConnections) + 1 && c.id !in old(connections)
      ensures Balanced()
    {
      hide ServerConnection.AtRest;
      assert c.id !in connections;
      connections := connections[c.id := c];
      nextConnectionId := nextConnectionId + 1;
      liveConnections := liveConnections + 1;
      assert PendingOf() == old(PendingOf())[c.id := 0];
      SumMapSet(old(PendingOf()), c.id, 0);
      assert OpenIds() == old(OpenIds()) + {c.id};
    }

    method StartRegistered(id: nat)
      requires Balanced() && id in connections
      requires forall other :: other in connections && other != id ==> connections[other] != connections[id]
      requires
        var c := connections[id];
        && c.loop == this && c.writer.NotStarted? && c.reader.ReaderNotStarted?
        && c.state.Active? && c.writeQueue == [] && !c.waiter
        && c.Accounts() && c.ClosedOnce() && c.Stream()
      modifies connections[id], `liveConnections, `pendingWriteBytes, `pendingWriteBytesPeak, `stopRequested
      ensures Balanced() && connections[id].AtRest() && connections[id].inflight == old(connections[id].inflight)
      ensures stopRequested || (connections[id].state.Active? && connections[id].reader.Receiving?)
    {
      SumMapAtLeast(PendingOf(), id);
      assert id in OpenIds();
      connections[id].Start();
      hide ServerConnection.AtRest;
      assert OnlyTouched(id);
      BalancedAfter(id);
    }

    method Start()
      requires Valid()
      modifies `state
      ensures Valid() && state == if old(state).Created? then Running else old(state)
    {
      hide ServerConnection.AtRest, Conserved, Owned, Balanced, InflightOf;
      if state.Created? {
        state := Running;
      }
    }

    /** Owner side, one look at the condition it waits for.  It finishes only once no connection is
        open, and then nothing is left pending. */
    method FinishDrain() returns (finished: bool)
      requires Valid()
      modifies `state, `connections
      ensures Valid() && !state.Running? && !state.Created?
      ensures finished <==> old(state).Created? || old(state).Stopped? || liveConnections == 0
      ensures finished ==> state.Stopped?
      ensures finished && (old(state).Running? || old(state).LoopDraining?) ==>
                connections == map[] && pendingWriteBytes == 0
      ensures !finished ==> connections == old(connections)
      ensures connections == old(connections) || connections == map[]
    {
      hide ServerConnection.AtRest;
      var posted := BeginDrain();
      if state.Stopped? {
        return true;
      }
      if liveConnections != 0 {
        return false;
      }
      AllClosedMeansNoneLive();
      connections := map[];
      state := Stopped;
      NothingLeft();
      return true;
    }

    lemma {:induction false} NothingLeft()
      requires connections == map[] && pendingWriteBytes == 0 && liveConnections == 0
      ensures Balanced() && Owned() && InflightOf() == map[]
    {
      assert PendingOf() == map[] && OpenIds() == {};
    }

    /** Owner side: publishes Draining; the context later runs `BeginDrainOnContext`. */
    method BeginDrain() returns (posted: bool)
      requires Valid()
      modifies `state
      ensures Valid()
      ensures state == (match old(state) case Created => Stopped case Running => LoopDraining case other => other)
      ensures posted == old(state).Running?
    {
      hide ServerConnection.AtRest, Conserved, Owned, Balanced, InflightOf;
      if state.Created? {
        state := Stopped;
        return false;
      }
      if !state.Running? {
        return false;
      }
      state := LoopDraining;
      return true;
    }

    /** Every connection leaves Active; from then on no connection of this loop is ever Active. */
    method BeginDrainOnContext()
      requires Valid() && (state.LoopDraining? || state.Stopped?)
      modifies this`pendingWriteBytes, this`pendingWriteBytesPeak, this`liveConnections, this`drainRan,
               this`stopRequested, connections.Values
      ensures Valid() && drainRan && connections == old(connections)
      ensures forall id :: id in connections ==> !connections[id].state.Active? && connections[id].DrainBegun()
    {
      hide ServerConnection.AtRest, ServerConnection.Booked, Conserved;
      var rest := connections.Keys;
      while rest != {}
        invariant rest <= connections.Keys && connections == old(connections)
        invariant Valid() && (state.LoopDraining? || state.Stopped?)
        invariant forall id :: id in connections && id in rest ==> unchanged(connections[id])
        invariant forall id :: id in connections && id !in rest ==>
                    !connections[id].state.Active? && connections[id].DrainBegun()
        decreases rest
      {
        var id :| id in rest;
        DrainOne(id);
        rest := rest - {id};
      }
      drainRan := true;
    }

    method DrainOne(id: nat)
      requires Valid() && id in connections
      modifies connections[id], `pendingWriteBytes, `pendingWriteBytesPeak, `liveConnections, `stopRequested
      ensures Valid() && OnlyTouched(id) && !connections[id].state.Active? && connections[id].DrainBegun()
    {
      hide ServerConnection.AtRest, Conserved;
      ConnectionIsCovered(id);
      var c := connections[id];
      assert forall other :: other in connections && other != id ==> connections[other] != c;
      DrainAtRest(c);
      assert OnlyTouched(id);
      BooksAfter(id);
      assert InflightOf() == old(InflightOf());
    }

    method DrainAtRest(c: ServerConnection)
      requires c.loop == this && c.Quiescent()
      modifies c, `pendingWriteBytes, `pendingWriteBytesPeak, `liveConnections, `stopRequested
      ensures c.Quiescent() && c.Booked() && !c.state.Active? && c.DrainBegun()
    {
      c.BeginDrain();
    }

    /** The immediate fallback: every connection is closed. */
    method CloseConnectionsOnContext()
      requires Valid()
      modifies this`pendingWriteBytes, this`pendingWriteBytesPeak, this`liveConnections, this`connections,
               this`stopRequested, connections.Values
      ensures Valid() && liveConnections == 0 && pendingWriteBytes == 0
      ensures forall id :: id in connections ==> id in old(connections) && connections[id] == old(connections[id])
      ensures forall id :: id in connections ==> connections[id].state.Closed?
    {
      hide ServerConnection.AtRest, ServerConnection.Booked, Conserved;
      var rest := connections.Keys;
      while rest != {}
        invariant rest <= connections.Keys && connections == old(connections) && Valid()
        invariant forall id :: id in connections && id !in rest ==> connections[id].state.Closed?
        decreases rest
      {
        var id :| id in rest;
        CloseOne(id);
        rest := rest - {id};
      }
      AllClosedMeansNoneLive();
      CollectClosedConnections();
    }

    method CloseOne(id: nat)
      requires Valid() && id in connections
      modifies connections[id], `pendingWriteBytes, `pendingWriteBytesPeak, `liveConnections, `stopRequested
      ensures Valid() && OnlyTouched(id) && connections[id].state.Closed?
    {
      hide ServerConnection.AtRest, Conserved;
      ConnectionIsCovered(id);
      var c := connections[id];
      assert forall other :: other in connections && other != id ==> connections[other] != c;
      CloseAtRest(c);
      assert OnlyTouched(id);
      BooksAfter(id);
      assert InflightOf() == old(InflightOf());
    }

    method CloseAtRest(c: ServerConnection)
      requires c.loop == this && c.Quiescent()
      modifies c, `pendingWriteBytes, `pendingWriteBytesPeak, `liveConnections, `stopRequested
      ensures c.Quiescent() && c.Booked() && c.state.Closed? && c.inflight == old(c.inflight)
    {
      if !c.state.Closed? {
        c.Close();
      }
    }

    /** The condition `FinishDrain` waits for holds exactly when every connection is closed; then no
        byte is pending either. */
    lemma {:induction false} AllClosedMeansNoneLive()
      requires Owned() && Balanced()
      ensures liveConnections == 0 <==> forall id :: id in connections ==> connections[id].state.Closed?
      ensures liveConnections == 0 ==> pendingWriteBytes == 0
    {
      if liveConnections == 0 {
        assert OpenIds() == {};
        assert forall id :: id in connections && id !in OpenIds() ==> connections[id].state.Closed?;
        assert forall id :: id in connections ==> connections[id].Accounts();
        SumMapZero(PendingOf());
      } else {
        assert OpenIds() != {};
        var id :| id in OpenIds();
      }
    }

    predicate Collectable(id: nat)
      reads `connections, connections.Values
      requires id in connections
    {
      connections[id].state.Closed? && connections[id].reader.ReaderDone? && connections[id].writer.WriterDone?
    }

    /** Forgets finished connections.  Results still in transit for them will find no connection. */
    method CollectClosedConnections()
      requires Valid()
      modifies `connections
      ensures Valid()
      ensures forall id :: id in connections ==> id in old(connections) && connections[id] == old(connections[id])
      ensures forall id :: id in old(connections) ==>
                var c := old(connections[id]);
                id !in connections <==> c.state.Closed? && c.reader.ReaderDone? && c.writer.WriterDone?
    {
      hide ServerConnection.AtRest;
      connections := map id | id in connections && !Collectable(id) :: connections[id];
      CollectedBalanced();
    }

    twostate lemma CollectedBalanced()
      requires old(Balanced()) && old(Owned()) && pendingWriteBytes == old(pendingWriteBytes)
      requires liveConnections == old(liveConnections)
      requires forall id :: id in connections <==> id in old(connections) && !old(Collectable(id))
      requires forall id :: id in connections ==> connections[id] == old(connections[id])
      requires unchanged(old(connections).Values)
      ensures Balanced()
    {
      assert OpenIds() == old(OpenIds());
      var gone := old(connections).Keys - connections.Keys;
      assert PendingOf() == old(PendingOf()) - gone;
      forall id | id in gone ensures old(PendingOf())[id] == 0 {
        assert old(Collectable(id)) && old(connections[id].Accounts());
      }
      SumMapWithout(old(PendingOf()), gone);
    }

    // ----- A drain completes

    method FinishAllJobs(outcome: (nat, nat) -> Option<seq<Byte>>)
      requires Valid()
      modifies `jobs, `results
      ensures Valid() && jobs == []
    {
      hide ServerConnection.AtRest, Conserved, Owned, Balanced, DrainSticks, InflightOf;
      while jobs != []
        invariant Valid()
        decreases |jobs|
      {
        var left := |jobs|;
        FinishJob(0, seq(jobs[0].requests, (i: nat) => outcome(left, i)));
      }
    }

    method DeliverAllResults()
      requires Valid() && jobs == []
      modifies this`pendingWriteBytes, this`pendingWriteBytesPeak, this`liveConnections, this`results,
               this`stopRequested, connections.Values
      ensures Valid() && results == [] && connections == old(connections)
    {
      hide ServerConnection.AtRest, Conserved, Owned, Balanced, DrainSticks, InflightOf;
      while results != []
        invariant Valid() && connections == old(connections)
        decreases |results|
      {
        HandleWorkerResult(0);
      }
    }

    /** With nothing outstanding in the workers, an open connection of a drained loop is sending. */
    lemma {:induction false} OpenMeansSending(id: nat)
      requires Valid() && drainRan && jobs == [] && results == [] && id in connections && !connections[id].state.Closed?
      ensures connections[id].writer.Sending? && connections[id].writer.offset < |connections[id].writer.batch|
      ensures connections[id].sent <= connections[id].accepted
    {
      var c := connections[id];
      assert InflightOf()[id] == 0;
      c.RestMeans();
    }

    method CompleteSendsOf(id: nat)
      requires Valid() && drainRan && jobs == [] && results == [] && id in connections
      modifies connections[id], `pendingWriteBytes, `pendingWriteBytesPeak, `liveConnections, `stopRequested
      ensures Valid() && OnlyTouched(id) && connections[id].state.Closed? && (old(stopRequested) ==> stopRequested)
      ensures !old(connections[id].state).Closed? && !stopRequested ==> connections[id].sent == connections[id].accepted
      ensures connections[id].accepted == old(connections[id].accepted)
    {
      hide ServerConnection.AtRest, Conserved, Owned, Balanced, DrainSticks, InflightOf;
      var c := connections[id];
      while !c.state.Closed?
        invariant Valid() && OnlyTouched(id) && connections == old(connections) && connections[id] == c
        invariant c.accepted == old(c.accepted) && (old(stopRequested) ==> stopRequested)
        invariant c.state.Closed? && !old(c.state).Closed? && !stopRequested ==> c.sent == c.accepted
        decreases |c.accepted| - |c.sent|
      {
        OpenMeansSending(id);
        OnSendComplete(id, |c.writer.batch| - c.writer.offset);
      }
    }

    method CompleteAllSends()
      requires Valid() && drainRan && jobs == [] && results == []
      modifies this`pendingWriteBytes, this`pendingWriteBytesPeak, this`liveConnections, this`stopRequested,
               connections.Values
      ensures Valid() && connections == old(connections) && (old(stopRequested) ==> stopRequested)
      ensures forall id :: id in connections ==> connections[id].state.Closed?
      ensures !stopRequested ==> forall id :: id in connections && !old(connections[id].state).Closed? ==>
                connections[id].sent == connections[id].accepted == old(connections[id].accepted)
    {
      hide ServerConnection.AtRest, Conserved, Owned, Balanced, DrainSticks, InflightOf;
      var rest := connections.Keys;
      while rest != {}
        invariant rest <= connections.Keys && connections == old(connections) && Valid()
        invariant old(stopRequested) ==> stopRequested
        invariant forall id :: id in connections && id in rest ==> unchanged(connections[id])
        invariant forall id :: id in connections && id !in rest ==> connections[id].state.Closed?
        invariant !stopRequested ==>
                    forall id :: id in connections && id !in rest && !old(connections[id].state).Closed? ==>
                      connections[id].sent == connections[id].accepted == old(connections[id].accepted)
        decreases rest
      {
        var id :| id in rest;
        CompleteSendsOf(id);
        rest := rest - {id};
      }
    }

    /** No drain hangs: whatever the encodings, once the workers have finished their jobs, the results
        are delivered and the sends complete, every connection is closed and `FinishDrain` returns. */
    method DrainToEnd(outcome: (nat, nat) -> Option<seq<Byte>>) returns (finished: bool)
      requires Valid() && drainRan
      modifies this, connections.Values
      ensures Valid() && finished && liveConnections == 0 && pendingWriteBytes == 0 && state.Stopped?
    {
      hide ServerConnection.AtRest, Conserved;
      FinishAllJobs(outcome);
      DeliverAllResults();
      CompleteAllSends();
      AllClosedMeansNoneLive();
      finished := FinishDrain();
    }

    /** Any interleaving of kernel completions, worker progress, accepts and shutdown steps.  An event
        that is not possible in the current state is skipped. */
    method Run(events: seq<Event>)
      requires Valid()
      modifies this, connections.Values
      ensures Valid()
      ensures old(drainRan) ==> drainRan
      ensures drainRan ==> forall id :: id in connections ==> !connections[id].state.Active?
    {
      hide ServerConnection.AtRest, Conserved, Owned, Balanced, InflightOf;
      var i := 0;
      while i < |events|
        invariant 0 <= i <= |events|
        invariant Valid() && (old(drainRan) ==> drainRan)
        invariant forall id :: id in connections ==>
                    fresh(connections[id]) || (id in old(connections) && connections[id] == old(connections[id]))
      {
        Handle(events[i]);
        i := i + 1;
      }
    }

    method Handle(event: Event)
      requires Valid()
      modifies this, connections.Values
      ensures Valid() && (old(drainRan) ==> drainRan)
      ensures forall id :: id in connections ==>
                fresh(connections[id]) || (id in old(connections) && connections[id] == old(connections[id]))
    {
      hide ServerConnection.AtRest, Conserved, Owned, Balanced, InflightOf, DrainSticks;
      hide ServerConnection.Booked, PostedResults, Answer, Fits, Submits, Without;
      match event
      case StartLoop => Start();
      case Accept => StartConnectionOnContext();
      case Sent(id, result) =>
        if id in connections && connections[id].writer.Sending?
           && result <= |connections[id].writer.batch| - connections[id].writer.offset {
          OnSendComplete(id, result);
        }
      case Receive(id, received, admission) =>
        if id in connections && connections[id].reader.Receiving? {
          OnReceive(id, received, admission);
        }
      case Finished(k, encoded) =>
        if k < |jobs| && |encoded| == jobs[k].requests {
          FinishJob(k, encoded);
        }
      case Result(k) =>
        if k < |results| {
          HandleWorkerResult(k);
        }
      case StartDrain => var posted := BeginDrain();
      case DrainPosted =>
        if state.LoopDraining? || state.Stopped? {
          BeginDrainOnContext();
        }
      case TryFinish => var finished := FinishDrain();
      case Collect => CollectClosedConnections();
      case CloseAll => CloseConnectionsOnContext();
    }
  }
}
