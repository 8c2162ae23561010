/**
 The client call protocol: commit-aware failover of src/client/rpc_client_impl.cpp and the pending-call
 race of src/client/tcp_transport.cpp, as one transition system.  Any number of calls, of reader
 threads and of transports interleave; each mutex-protected section and each system call is a step.
 Encoding, deadlines, connect, send and receive have arbitrary outcomes.  A reader's comparison of
 descriptors may also match a newer connection, as it does when the descriptor number is reused.
 */
module ClientProtocol {
  import opened Arith
  import opened Common

  datatype Commit = NotSent | MaybeSent

  /** The result of one attempt; `deadline` marks the status DeadlineExceeded. */
  datatype Outcome = Response(id: nat) | Failure(commit: Commit, deadline: bool)

  /** One `PendingCall` object: attempt number `attempt` of call `call`. */
  datatype Ticket = Ticket(call: nat, attempt: nat)

  /** A caller inside `CallWithFailover` and its current `TcpTransport::Call`.  `g` is the connection
      generation whose descriptor the caller read. */
  datatype Caller =
    | Encoding
    | CheckingDeadline
    | Connecting
    | Registering
    | AcquiringWrite
    | WriteDeadline
    | ReadingFd
    | SettingTimeout(g: nat)
    | AboutToSend(g: nat)
    | InSend(g: nat)
    | SendFailed
    | ClosingSocket
    | ToSweep
    | Sweeping(rest: set<Ticket>)
    | Withdrawing(expired: bool)
    | Waiting(g: nat)
    | DeadlinePassed(g: nat)
    | FinalWait
    | Finished(outcome: Outcome)

  /** `route` lists the snapshot's transports.  `visited` (positions of the attempts in the snapshot),
      `sends` (attempts that invoked send) and `outcomes` (results of completed attempts) are history. */
  datatype Call = Call(
    route: seq<nat>,
    start: nat,
    hasDeadline: bool,
    attempt: nat,
    pc: Caller,
    visited: seq<nat>,
    sends: seq<nat>,
    outcomes: seq<Outcome>)

  /** A reader thread of transport `x`. */
  datatype ReaderPc =
    | Reading
    | Holding(ticket: Ticket, id: nat)
    | Breaking
    | ReaderToSweep
    | ReaderSweeping(rest: set<Ticket>)
    | ReaderDone

  datatype Reader = Reader(x: nat, pc: ReaderPc)

  datatype Transport = Transport(socket: Option<nat>, pending: map<nat, nat>, writeLock: Option<nat>)

  /** Who is responsible for completing a pending call. */
  datatype Owner = InMap | ByCaller(r: nat) | ByReader(g: nat) | Published | Withdrawn

  datatype State = State(
    maxInflight: nat,
    transports: seq<Transport>,
    calls: map<nat, Call>,
    readers: map<nat, Reader>,
    nextCall: nat,
    nextGeneration: nat,
    owner: map<Ticket, Owner>,                 // history: responsibility for each registered ticket
    published: map<Ticket, seq<Outcome>>)      // every result ever stored in each PendingCall

  /** What a call can do next. */
  datatype CallStep =
    | EncodeFail
    | EncodeOk
    | Expired
    | NotExpired
    | ConnectReuse
    | ConnectFail
    | ConnectNew
    | RegisterFull
    | Register
    | LockWrite
    | WriteExpired
    | WriteNotExpired
    | FdMissing
    | FdFound
    | TimeoutFail
    | TimeoutOk
    | SendBegin
    | SendOk
    | SendError
    | UnregisterAfterSend
    | CloseSocket
    | Sweep
    | SweepOne(ticket: Ticket)
    | SweepEnd
    | Withdraw
    | WaitReturn
    | WaitExpire
    | DeadlineUnregister
    | FinalReturn

  /** What a reader thread can do next. */
  datatype ReaderStep =
    | ReaderDecode(id: nat)
    | ReaderPublish
    | ReaderBreak
    | ReaderClose(matches: bool)
    | ReaderSweep
    | ReaderSweepOne(ticket: Ticket)
    | ReaderEnd

  datatype Step =
    | NewCall(route: seq<nat>, start: nat, hasDeadline: bool)
    | ByCall(r: nat, call: CallStep)
    | ByReaderThread(g: nat, reader: ReaderStep)

  function Init(transports: nat, maxInflight: nat): State {
    State(maxInflight, seq(transports, i => Transport(None, map[], None)), map[], map[], 0, 0, map[], map[])
  }

  predicate Routed(s: State, c: Call) {
    && 0 < |c.route| && c.attempt < |c.route|
    && forall i :: 0 <= i < |c.route| ==> c.route[i] < |s.transports|
  }

  /** The transport of attempt `k`: failover goes round the snapshot once, from `start`. */
  function TargetOf(c: Call, k: nat): nat
    requires 0 < |c.route|
  {
    c.route[Cyclic(c.start, |c.route|, k)]
  }

  predicate IsAt(s: State, r: nat) {
    && r in s.calls && 0 < |s.calls[r].route|
    && TargetOf(s.calls[r], s.calls[r].attempt) < |s.transports|
  }

  function Pc(s: State, r: nat): Caller
    requires IsAt(s, r)
  {
    s.calls[r].pc
  }

  function X(s: State, r: nat): (x: nat)
    requires IsAt(s, r)
    ensures x < |s.transports|
  {
    TargetOf(s.calls[r], s.calls[r].attempt)
  }

  function TicketOf(s: State, r: nat): Ticket
    requires r in s.calls
  {
    Ticket(r, s.calls[r].attempt)
  }

  predicate HasResult(s: State, t: Ticket) {
    t in s.published && s.published[t] != []
  }

  predicate ReaderAt(s: State, g: nat) {
    g in s.readers && s.readers[g].x < |s.transports|
  }

  predicate CallEnabled(s: State, r: nat, step: CallStep)
    requires IsAt(s, r)
  {
    match step
    case EncodeFail => Pc(s, r).Encoding?
    case EncodeOk => Pc(s, r).Encoding?
    case Expired => Pc(s, r).CheckingDeadline? && s.calls[r].hasDeadline
    case NotExpired => Pc(s, r).CheckingDeadline?
    case ConnectReuse => Pc(s, r).Connecting? && s.transports[X(s, r)].socket.Some?
    case ConnectFail => Pc(s, r).Connecting? && s.transports[X(s, r)].socket.None?
    case ConnectNew => Pc(s, r).Connecting? && s.transports[X(s, r)].socket.None?
    case RegisterFull => Pc(s, r).Registering? && |s.transports[X(s, r)].pending| >= s.maxInflight
    case Register => Pc(s, r).Registering? && |s.transports[X(s, r)].pending| < s.maxInflight
    case LockWrite => Pc(s, r).AcquiringWrite? && s.transports[X(s, r)].writeLock.None?
    case WriteExpired => Pc(s, r).WriteDeadline? && s.calls[r].hasDeadline
    case WriteNotExpired => Pc(s, r).WriteDeadline?
    case FdMissing => Pc(s, r).ReadingFd? && s.transports[X(s, r)].socket.None?
    case FdFound => Pc(s, r).ReadingFd? && s.transports[X(s, r)].socket.Some?
    case TimeoutFail => Pc(s, r).SettingTimeout?
    case TimeoutOk => Pc(s, r).SettingTimeout?
    case SendBegin => Pc(s, r).AboutToSend?
    case SendOk => Pc(s, r).InSend?
    case SendError => Pc(s, r).InSend?
    case UnregisterAfterSend => Pc(s, r).SendFailed?
    case CloseSocket => Pc(s, r).ClosingSocket?
    case Sweep => Pc(s, r).ToSweep?
    case SweepOne(t) => Pc(s, r).Sweeping? && t in Pc(s, r).rest && t in s.published
    case SweepEnd => Pc(s, r).Sweeping? && Pc(s, r).rest == {}
    case Withdraw => Pc(s, r).Withdrawing?
    case WaitReturn => Pc(s, r).Waiting? && HasResult(s, TicketOf(s, r))
    case WaitExpire => Pc(s, r).Waiting? && s.calls[r].hasDeadline && !HasResult(s, TicketOf(s, r))
    case DeadlineUnregister => Pc(s, r).DeadlinePassed?
    case FinalReturn => Pc(s, r).FinalWait? && HasResult(s, TicketOf(s, r))
  }

  predicate ReaderEnabled(s: State, g: nat, step: ReaderStep)
    requires ReaderAt(s, g)
  {
    match step
    case ReaderDecode(_) => s.readers[g].pc.Reading?
    case ReaderPublish => s.readers[g].pc.Holding? && s.readers[g].pc.ticket in s.published
    case ReaderBreak => s.readers[g].pc.Reading?
    case ReaderClose(matches) =>
      s.readers[g].pc.Breaking? && (s.transports[s.readers[g].x].socket == Some(g) ==> matches)
    case ReaderSweep => s.readers[g].pc.ReaderToSweep?
    case ReaderSweepOne(t) =>
      s.readers[g].pc.ReaderSweeping? && t in s.readers[g].pc.rest && t in s.published
    case ReaderEnd => s.readers[g].pc.ReaderSweeping? && s.readers[g].pc.rest == {}
  }

  predicate Enabled(s: State, step: Step) {
    match step
    case NewCall(route, _, _) => 0 < |route| && forall i :: 0 <= i < |route| ==> route[i] < |s.transports|
    case ByCall(r, call) => IsAt(s, r) && CallEnabled(s, r, call)
    case ByReaderThread(g, reader) => ReaderAt(s, g) && ReaderEnabled(s, g, reader)
  }

  function SetTransport(s: State, x: nat, t: Transport): (s': State)
    requires x < |s.transports|
    ensures s'.calls == s.calls && s'.readers == s.readers && s'.nextCall == s.nextCall
    ensures s'.maxInflight == s.maxInflight
    ensures s'.nextGeneration == s.nextGeneration && |s'.transports| == |s.transports|
  {
    s.(transports := s.transports[x := t])
  }

  function SetReader(s: State, g: nat, pc: ReaderPc): State
    requires g in s.readers
  {
    s.(readers := s.readers[g := s.readers[g].(pc := pc)])
  }

  /** The loop body of `CallWithFailover` after an attempt: stop, or go on to the next endpoint. */
  function Ended(c: Call, outcome: Outcome): Call
    requires 0 < |c.route|
  {
    if outcome.Response? || outcome.commit.MaybeSent? || c.attempt + 1 == |c.route|
    then c.(pc := Finished(outcome), outcomes := c.outcomes + [outcome])
    else c.(pc := Encoding, attempt := c.attempt + 1, outcomes := c.outcomes + [outcome],
            visited := c.visited + [Cyclic(c.start, |c.route|, c.attempt + 1)])
  }

  /** `TryUnregisterPending` followed by the removal of responsibility when it succeeds. */
  function Unregister(s: State, r: nat): (s': State)
    requires IsAt(s, r)
    ensures s'.calls == s.calls && s'.readers == s.readers && s'.nextCall == s.nextCall
    ensures s'.maxInflight == s.maxInflight
    ensures s'.nextGeneration == s.nextGeneration && |s'.transports| == |s.transports|
  {
    var x := X(s, r);
    var t := s.transports[x];
    if r in t.pending
    then SetTransport(s, x, t.(pending := t.pending - {r})).(owner := s.owner[Ticket(r, t.pending[r]) := Withdrawn])
    else s
  }

  function Unlock(s: State, x: nat): (s': State)
    requires x < |s.transports|
    ensures s'.calls == s.calls && s'.readers == s.readers && s'.nextCall == s.nextCall
    ensures s'.maxInflight == s.maxInflight
    ensures s'.nextGeneration == s.nextGeneration && |s'.transports| == |s.transports|
  {
    SetTransport(s, x, s.transports[x].(writeLock := None))
  }

  function TicketsIn(pending: map<nat, nat>): set<Ticket> {
    set r | r in pending :: Ticket(r, pending[r])
  }

  /** The locked half of `FailAllPending`: the sweeper takes every registered ticket. */
  function TakeAll(s: State, x: nat, who: Owner): (s': State)
    requires x < |s.transports|
    ensures s'.calls == s.calls && s'.readers == s.readers && s'.nextCall == s.nextCall
    ensures s'.maxInflight == s.maxInflight
    ensures s'.nextGeneration == s.nextGeneration && |s'.transports| == |s.transports|
  {
    var tickets := TicketsIn(s.transports[x].pending);
    SetTransport(s, x, s.transports[x].(pending := map[]))
      .(owner := map t | t in s.owner.Keys + tickets :: if t in tickets then who else s.owner[t])
  }

  /** Stores a result in a PendingCall. */
  function Publish(s: State, t: Ticket, outcome: Outcome): (s': State)
    requires t in s.published
    ensures s'.calls == s.calls && s'.readers == s.readers && s'.nextCall == s.nextCall
    ensures s'.maxInflight == s.maxInflight
    ensures s'.nextGeneration == s.nextGeneration && |s'.transports| == |s.transports|
  {
    s.(owner := s.owner[t := Published], published := s.published[t := s.published[t] + [outcome]])
  }

  function CloseSocketOf(s: State, x: nat): (s': State)
    requires x < |s.transports|
    ensures s'.calls == s.calls && s'.readers == s.readers && s'.nextCall == s.nextCall
    ensures s'.maxInflight == s.maxInflight
    ensures s'.nextGeneration == s.nextGeneration && |s'.transports| == |s.transports|
  {
    SetTransport(s, x, s.transports[x].(socket := None))
  }

  /** `EnsureConnectedWithTimeout` establishes a new generation and starts its reader. */
  function Connect(s: State, x: nat): State
    requires x < |s.transports|
  {
    var g := s.nextGeneration;
    SetTransport(s, x, s.transports[x].(socket := Some(g)))
      .(readers := s.readers[g := Reader(x, Reading)], nextGeneration := g + 1)
  }

  function RegisterTicket(s: State, r: nat): State
    requires IsAt(s, r)
  {
    var x := X(s, r);
    var t := TicketOf(s, r);
    SetTransport(s, x, s.transports[x].(pending := s.transports[x].pending[r := t.attempt]))
      .(owner := s.owner[t := InMap], published := s.published[t := []])
  }

  /** `CompletePending`: the reader takes the entry of the response's request id, if any. */
  function Decode(s: State, g: nat, id: nat): State
    requires ReaderAt(s, g)
  {
    var x := s.readers[g].x;
    var t := s.transports[x];
    if id in t.pending
    then
      var ticket := Ticket(id, t.pending[id]);
      SetReader(SetTransport(s, x, t.(pending := t.pending - {id})), g, Holding(ticket, id))
        .(owner := s.owner[ticket := ByReader(g)])
    else s
  }

  function ApplyReader(s: State, g: nat, step: ReaderStep): State
    requires ReaderAt(s, g) && ReaderEnabled(s, g, step)
  {
    match step
    case ReaderDecode(id) => Decode(s, g, id)
    case ReaderPublish => SetReader(Publish(s, s.readers[g].pc.ticket, Response(s.readers[g].pc.id)), g, Reading)
    case ReaderBreak => SetReader(s, g, Breaking)
    case ReaderClose(matches) => SetReader(if matches then CloseSocketOf(s, s.readers[g].x) else s, g, ReaderToSweep)
    case ReaderSweep =>
      var x := s.readers[g].x;
      SetReader(TakeAll(s, x, ByReader(g)), g, ReaderSweeping(TicketsIn(s.transports[x].pending)))
    case ReaderSweepOne(t) =>
      SetReader(Publish(s, t, Failure(MaybeSent, false)), g, ReaderSweeping(s.readers[g].pc.rest - {t}))
    case ReaderEnd => SetReader(s, g, ReaderDone)
  }

  /** Where the step takes the caller itself.  Past the deadline, whoever removes the entry from the
      map owns the call. */
  function NextCaller(s: State, r: nat, step: CallStep): Call
    requires IsAt(s, r) && CallEnabled(s, r, step)
  {
    var c := s.calls[r];
    match step
    case EncodeFail => Ended(c, Failure(NotSent, false))
    case EncodeOk => c.(pc := CheckingDeadline)
    case Expired => Ended(c, Failure(NotSent, true))
    case NotExpired => c.(pc := Connecting)
    case ConnectReuse => c.(pc := Registering)
    case ConnectFail => Ended(c, Failure(NotSent, false))
    case ConnectNew => c.(pc := Registering)
    case RegisterFull => Ended(c, Failure(NotSent, false))
    case Register => c.(pc := AcquiringWrite)
    case LockWrite => c.(pc := WriteDeadline)
    case WriteExpired => c.(pc := Withdrawing(true))
    case WriteNotExpired => c.(pc := ReadingFd)
    case FdMissing => c.(pc := Withdrawing(false))
    case FdFound => c.(pc := SettingTimeout(s.transports[X(s, r)].socket.value))
    case TimeoutFail => c.(pc := Withdrawing(false))
    case TimeoutOk => c.(pc := AboutToSend(c.pc.g))
    case SendBegin => c.(pc := InSend(c.pc.g), sends := c.sends + [c.attempt])
    case SendOk => c.(pc := Waiting(c.pc.g))
    case SendError => c.(pc := SendFailed)
    case UnregisterAfterSend => c.(pc := ClosingSocket)
    case CloseSocket => c.(pc := ToSweep)
    case Sweep => c.(pc := Sweeping(TicketsIn(s.transports[X(s, r)].pending)))
    case SweepOne(t) => c.(pc := Sweeping(c.pc.rest - {t}))
    case SweepEnd => Ended(c, Failure(MaybeSent, false))
    case Withdraw => Ended(c, Failure(NotSent, c.pc.expired))
    case WaitReturn => Ended(c, s.published[TicketOf(s, r)][0])
    case WaitExpire => c.(pc := DeadlinePassed(c.pc.g))
    case DeadlineUnregister =>
      if r in s.transports[X(s, r)].pending then Ended(c, Failure(MaybeSent, true)) else c.(pc := FinalWait)
    case FinalReturn => Ended(c, s.published[TicketOf(s, r)][0])
  }

  /** What the step does to everything else. */
  function Effect(s: State, r: nat, step: CallStep): (s': State)
    requires IsAt(s, r) && CallEnabled(s, r, step)
    ensures s'.nextCall == s.nextCall && s'.maxInflight == s.maxInflight && |s'.transports| == |s.transports|
  {
    var x := X(s, r);
    match step
    case ConnectNew => Connect(s, x)
    case Register => RegisterTicket(s, r)
    case LockWrite => SetTransport(s, x, s.transports[x].(writeLock := Some(r)))
    case SendOk => Unlock(s, x)
    case UnregisterAfterSend => Unregister(s, r)
    case CloseSocket => CloseSocketOf(s, x)
    case Sweep => TakeAll(s, x, ByCaller(r))
    case SweepOne(t) => Publish(s, t, Failure(MaybeSent, false))
    case SweepEnd => Unlock(s, x)
    case Withdraw => Unlock(Unregister(s, r), x)
    case DeadlineUnregister => Unregister(s, r)
    case _ => s
  }

  function ApplyCall(s: State, r: nat, step: CallStep): State
    requires IsAt(s, r) && CallEnabled(s, r, step)
  {
    Effect(s, r, step).(calls := s.calls[r := NextCaller(s, r, step)])
  }

  function Apply(s: State, step: Step): State
    requires Enabled(s, step)
  {
    match step
    case NewCall(route, start, hasDeadline) =>
      var call := Call(route, start, hasDeadline, 0, Encoding, [Cyclic(start, |route|, 0)], [], []);
      s.(calls := s.calls[s.nextCall := call], nextCall := s.nextCall + 1)
    case ByCall(r, call) => ApplyCall(s, r, call)
    case ByReaderThread(g, reader) => ApplyReader(s, g, reader)
  }

  predicate ValidRun(s: State, steps: seq<Step>)
    decreases |steps|
  {
    steps == [] || (Enabled(s, steps[0]) && ValidRun(Apply(s, steps[0]), steps[1..]))
  }

  function Exec(s: State, steps: seq<Step>): State
    requires ValidRun(s, steps)
    decreases |steps|
  {
    if steps == [] then s else Exec(Apply(s, steps[0]), steps[1..])
  }

  // ----- Results stored in pending calls

  ghost predicate PublishedOk(s: State) {
    && s.owner.Keys == s.published.Keys
    && (forall t :: t in s.published ==> |s.published[t]| == if s.owner[t].Published? then 1 else 0)
    && (forall t :: t in s.published && s.published[t] != [] ==>
          s.published[t][0] == Response(t.call) || s.published[t][0] == Failure(MaybeSent, false))
  }

  /** Tickets held by a thread that will publish them belong to that thread, and the reader's
      response carries the id of the call it completes. */
  ghost predicate HoldersOk(s: State) {
    && (forall r, t :: r in s.calls && s.calls[r].pc.Sweeping? && t in s.calls[r].pc.rest ==>
          t in s.owner && s.owner[t] == ByCaller(r))
    && (forall g :: g in s.readers && s.readers[g].pc.Holding? ==>
          && s.readers[g].pc.ticket in s.owner && s.owner[s.readers[g].pc.ticket] == ByReader(g)
          && s.readers[g].pc.ticket.call == s.readers[g].pc.id)
    && (forall g, t :: g in s.readers && s.readers[g].pc.ReaderSweeping? && t in s.readers[g].pc.rest ==>
          t in s.owner && s.owner[t] == ByReader(g))
  }

  /** Conversely, whoever owns a ticket is about to publish it. */
  predicate OwnerOk(s: State, t: Ticket)
    requires t in s.owner
  {
    match s.owner[t]
    case ByCaller(r) => r in s.calls && s.calls[r].pc.Sweeping? && t in s.calls[r].pc.rest
    case ByReader(g) =>
      && g in s.readers
      && (s.readers[g].pc == Holding(t, t.call) || (s.readers[g].pc.ReaderSweeping? && t in s.readers[g].pc.rest))
    case _ => true
  }

  ghost predicate OwnersOk(s: State) {
    forall t :: t in s.owner ==> OwnerOk(s, t)
  }

  // ----- The pending maps

  /** Between registration and the attempt's removal from the map by its own caller. */
  predicate Registered(pc: Caller) {
    || pc.AcquiringWrite? || pc.WriteDeadline? || pc.ReadingFd? || pc.SettingTimeout? || pc.AboutToSend?
    || pc.InSend? || pc.SendFailed? || pc.Withdrawing? || pc.Waiting? || pc.DeadlinePassed?
  }

  predicate NotYetRegistered(pc: Caller) {
    pc.Encoding? || pc.CheckingDeadline? || pc.Connecting? || pc.Registering?
  }

  ghost predicate CallsRouted(s: State) {
    forall r :: r in s.calls ==> r < s.nextCall && Routed(s, s.calls[r])
  }

  /** Every entry is the current attempt of a registered call on this transport. */
  ghost predicate MapsOk(s: State)
    requires CallsRouted(s)
  {
    forall x, r :: 0 <= x < |s.transports| && r in s.transports[x].pending ==>
      && r in s.calls && Registered(s.calls[r].pc) && X(s, r) == x
      && s.transports[x].pending[r] == s.calls[r].attempt
      && TicketOf(s, r) in s.owner && s.owner[TicketOf(s, r)] == InMap
  }

  ghost predicate InMapOk(s: State)
    requires CallsRouted(s)
  {
    forall t :: t in s.owner && s.owner[t].InMap? ==>
      && t.call in s.calls && t == TicketOf(s, t.call)
      && t.call in s.transports[X(s, t.call)].pending
  }

  /** Which responsibilities fit the caller's position. */
  ghost predicate StageOk(s: State, r: nat)
    requires r in s.calls
  {
    var t := TicketOf(s, r);
    var pc := s.calls[r].pc;
    && (NotYetRegistered(pc) ==> t !in s.owner)
    && (Registered(pc) ==> t in s.owner && !s.owner[t].Withdrawn?)
    && (pc.FinalWait? ==> t in s.owner && !s.owner[t].Withdrawn? && !s.owner[t].InMap?)
    && (pc.Finished? && pc.outcome == Failure(MaybeSent, true) ==> t in s.owner && s.owner[t].Withdrawn?)
  }

  ghost predicate StagesOk(s: State) {
    && (forall r :: r in s.calls ==> StageOk(s, r))
    && (forall t :: t in s.owner ==> t.call in s.calls && t.attempt <= s.calls[t.call].attempt)
  }

  ghost predicate Bounded(s: State) {
    forall x :: 0 <= x < |s.transports| ==> |s.transports[x].pending| <= s.maxInflight
  }

  ghost predicate ReadersOk(s: State) {
    forall g :: g in s.readers ==> g < s.nextGeneration && s.readers[g].x < |s.transports|
  }

  // ----- Failover history

  predicate Unsent(outcome: Outcome) {
    outcome.Failure? && outcome.commit.NotSent?
  }

  predicate TimedOut(outcome: Outcome) {
    outcome.Failure? && outcome.deadline
  }

  /** Positions reached only after `send` was invoked in this attempt. */
  predicate AfterSend(pc: Caller) {
    || pc.InSend? || pc.SendFailed? || pc.ClosingSocket? || pc.ToSweep? || pc.Sweeping?
    || pc.Waiting? || pc.DeadlinePassed? || pc.FinalWait?
    || (pc.Finished? && !Unsent(pc.outcome))
  }

  ghost predicate HistoryOk(r: nat, c: Call) {
    && 0 < |c.route| && |c.visited| == c.attempt + 1
    && (forall i :: 0 <= i <= c.attempt ==> c.visited[i] == Cyclic(c.start, |c.route|, i))
    && |c.outcomes| == c.attempt + (if c.pc.Finished? then 1 else 0)
    && (forall i :: 0 <= i < c.attempt ==> Unsent(c.outcomes[i]))
    && (c.pc.Finished? ==> c.outcomes[c.attempt] == c.pc.outcome)
    && (c.pc.Finished? && c.pc.outcome.Response? ==> c.pc.outcome.id == r)
    && (c.pc.Finished? && Unsent(c.pc.outcome) ==> c.attempt + 1 == |c.route|)
    && c.sends == (if AfterSend(c.pc) then [c.attempt] else [])
    && (!c.hasDeadline ==> !c.pc.DeadlinePassed? && !c.pc.FinalWait? && !(c.pc.Withdrawing? && c.pc.expired))
    && (!c.hasDeadline ==> forall i :: 0 <= i < |c.outcomes| ==> !TimedOut(c.outcomes[i]))
  }

  ghost predicate HistoriesOk(s: State) {
    forall r :: r in s.calls ==> HistoryOk(r, s.calls[r])
  }

  // ----- What one step can change

  /** A call's step changes that call and its transport; the call keeps its route. */
  lemma {:induction false} CallFrame(s: State, r: nat, step: CallStep)
    requires IsAt(s, r) && CallEnabled(s, r, step)
    ensures
      var s' := ApplyCall(s, r, step);
      && s'.calls == s.calls[r := NextCaller(s, r, step)]
      && s'.nextCall == s.nextCall && s'.maxInflight == s.maxInflight
      && SameRoute(s.calls[r], s'.calls[r])
  {
    hide Cyclic, Effect, NextCaller, CallEnabled, SameRoute;
    RouteKept(s, r, step);
  }

  predicate SameRoute(c: Call, c': Call) {
    && c'.route == c.route && c'.start == c.start
    && (c'.attempt == c.attempt || (c'.attempt == c.attempt + 1 && c.attempt + 1 != |c.route|))
  }

  lemma {:induction false} RouteKept(s: State, r: nat, step: CallStep)
    requires IsAt(s, r) && CallEnabled(s, r, step)
    ensures SameRoute(s.calls[r], NextCaller(s, r, step))
  {
    hide Cyclic, TicketsIn;
  }

  lemma {:induction false} CallTransportFrame(s: State, r: nat, step: CallStep)
    requires IsAt(s, r) && CallEnabled(s, r, step)
    ensures
      var s' := ApplyCall(s, r, step);
      && |s'.transports| == |s.transports|
      && s'.transports == s.transports[X(s, r) := s'.transports[X(s, r)]]
      && (if step.ConnectNew?
          then s'.readers == s.readers[s.nextGeneration := Reader(X(s, r), Reading)]
               && s'.nextGeneration == s.nextGeneration + 1
          else s'.readers == s.readers && s'.nextGeneration == s.nextGeneration)
  {
    hide Cyclic, NextCaller, CallEnabled, TicketsIn;
  }

  lemma {:induction false} ReaderFrame(s: State, g: nat, step: ReaderStep)
    requires ReaderAt(s, g) && ReaderEnabled(s, g, step)
    ensures
      var s' := ApplyReader(s, g, step);
      && s'.calls == s.calls && s'.nextCall == s.nextCall && s'.maxInflight == s.maxInflight
      && s'.nextGeneration == s.nextGeneration
      && g in s'.readers && s'.readers == s.readers[g := s'.readers[g]] && s'.readers[g].x == s.readers[g].x
      && |s'.transports| == |s.transports|
      && s'.transports == s.transports[s.readers[g].x := s'.transports[s.readers[g].x]]
  {
  }

  // ----- Preservation

  lemma {:induction false} RoutedStep(s: State, step: Step)
    requires CallsRouted(s) && Enabled(s, step)
    ensures CallsRouted(Apply(s, step))
  {
    hide ApplyCall, NextCaller, ApplyReader;
    if step.ByCall? { CallFrame(s, step.r, step.call); CallTransportFrame(s, step.r, step.call); }
    if step.ByReaderThread? { ReaderFrame(s, step.g, step.reader); }
  }

  lemma {:induction false} ReadersStep(s: State, step: Step)
    requires ReadersOk(s) && Enabled(s, step)
    ensures ReadersOk(Apply(s, step))
  {
    hide ApplyCall, ApplyReader;
    if step.ByCall? { CallTransportFrame(s, step.r, step.call); }
    if step.ByReaderThread? { ReaderFrame(s, step.g, step.reader); }
  }

  /** An attempt that ends unsent never invoked send; one that ends otherwise did, and stops. */
  lemma {:induction false} HistoryEnds(r: nat, c: Call, outcome: Outcome)
    requires HistoryOk(r, c) && !c.pc.Finished? && c.attempt < |c.route|
    requires if AfterSend(c.pc) then outcome == Response(r) || (outcome.Failure? && outcome.commit.MaybeSent?)
             else Unsent(outcome)
    requires TimedOut(outcome) ==> c.hasDeadline
    ensures HistoryOk(r, Ended(c, outcome))
  {
  }

  lemma {:induction false} HistoryMoves(r: nat, c: Call, pc: Caller)
    requires HistoryOk(r, c) && !c.pc.Finished? && !pc.Finished? && (AfterSend(pc) <==> AfterSend(c.pc))
    requires pc.DeadlinePassed? || pc.FinalWait? || (pc.Withdrawing? && pc.expired) ==> c.hasDeadline
    ensures HistoryOk(r, c.(pc := pc))
  {
  }

  lemma {:induction false} HistorySends(r: nat, c: Call)
    requires HistoryOk(r, c) && c.pc.AboutToSend?
    ensures HistoryOk(r, c.(pc := InSend(c.pc.g), sends := c.sends + [c.attempt]))
  {
  }

  /** Steps after which the attempt has ended. */
  predicate Ends(step: CallStep) {
    || step.EncodeFail? || step.Expired? || step.ConnectFail? || step.RegisterFull? || step.SweepEnd? || step.Withdraw?
    || step.WaitReturn? || step.FinalReturn?
  }

  lemma {:induction false} HistoryEndStep(s: State, r: nat, step: CallStep)
    requires IsAt(s, r) && CallEnabled(s, r, step) && PublishedOk(s) && HistoryOk(r, s.calls[r]) && Ends(step)
    requires s.calls[r].attempt < |s.calls[r].route|
    ensures HistoryOk(r, NextCaller(s, r, step))
  {
    var c := s.calls[r];
    assert c.pc.Withdrawing? && c.pc.expired ==> c.hasDeadline;
    hide Cyclic, Ended, HistoryOk, TicketsIn;
    if step.WaitReturn? || step.FinalReturn? {
      HistoryEnds(r, c, s.published[TicketOf(s, r)][0]);
    } else {
      var expired := step.Expired? || (step.Withdraw? && c.pc.expired);
      HistoryEnds(r, c, Failure(if step.SweepEnd? then MaybeSent else NotSent, expired));
    }
  }

  lemma {:induction false} HistoryCallStep(s: State, r: nat, step: CallStep)
    requires IsAt(s, r) && CallEnabled(s, r, step) && PublishedOk(s) && HistoryOk(r, s.calls[r])
    requires s.calls[r].attempt < |s.calls[r].route|
    ensures HistoryOk(r, NextCaller(s, r, step))
  {
    var c := s.calls[r];
    assert c.pc.DeadlinePassed? ==> c.hasDeadline;
    hide Cyclic, Ended, HistoryOk, TicketsIn, PublishedOk;
    if Ends(step) {
      HistoryEndStep(s, r, step);
    } else if step.DeadlineUnregister? {
      if r in s.transports[X(s, r)].pending {
        HistoryEnds(r, c, Failure(MaybeSent, true));
      } else {
        HistoryMoves(r, c, FinalWait);
      }
    } else if step.SendBegin? {
      HistorySends(r, c);
    } else {
      HistoryMoveStep(s, r, step);
    }
  }

  lemma {:induction false} HistoryMoveStep(s: State, r: nat, step: CallStep)
    requires IsAt(s, r) && CallEnabled(s, r, step) && HistoryOk(r, s.calls[r])
    requires !Ends(step) && !step.DeadlineUnregister? && !step.SendBegin?
    ensures HistoryOk(r, NextCaller(s, r, step))
  {
    hide Cyclic, Ended, HistoryOk, TicketsIn;
    HistoryMoves(r, s.calls[r], NextCaller(s, r, step).pc);
  }

  lemma {:induction false} HistoriesStep(s: State, step: Step)
    requires HistoriesOk(s) && CallsRouted(s) && PublishedOk(s) && Enabled(s, step)
    ensures HistoriesOk(Apply(s, step))
  {
    hide ApplyCall, NextCaller, ApplyReader;
    if step.ByCall? { CallFrame(s, step.r, step.call); HistoryCallStep(s, step.r, step.call); }
    if step.ByReaderThread? { ReaderFrame(s, step.g, step.reader); }
  }

  // ----- Ticket responsibility

  ghost predicate Tickets(s: State) {
    && CallsRouted(s) && ReadersOk(s)
    && PublishedOk(s) && HoldersOk(s) && OwnersOk(s)
    && MapsOk(s) && InMapOk(s) && StagesOk(s)
  }

  /** Steps of a call that move no ticket. */
  predicate Quiet(step: CallStep) {
    && !step.Register? && !step.UnregisterAfterSend? && !step.Withdraw? && !step.DeadlineUnregister?
    && !step.Sweep? && !step.SweepOne?
  }

  lemma {:induction false} QuietFrame(s: State, r: nat, step: CallStep)
    requires IsAt(s, r) && CallEnabled(s, r, step) && Quiet(step)
    ensures
      var s' := ApplyCall(s, r, step);
      && s'.owner == s.owner && s'.published == s.published && |s'.transports| == |s.transports|
      && (forall y :: 0 <= y < |s.transports| ==> s'.transports[y].pending == s.transports[y].pending)
  {
    hide Cyclic, NextCaller;
  }

  ghost predicate QuietNext(s: State, r: nat, c': Call)
    requires r in s.calls
  {
    && !c'.pc.Sweeping? && (s.calls[r].pc.Sweeping? ==> s.calls[r].pc.rest == {})
    && QuietStage(s, s.calls[r], c', r)
  }

  lemma {:induction false} QuietPc(s: State, r: nat, step: CallStep)
    requires IsAt(s, r) && CallEnabled(s, r, step) && Quiet(step) && PublishedOk(s)
    ensures QuietNext(s, r, NextCaller(s, r, step))
  {
    hide Cyclic, NextCaller, QuietNext, PublishedOk;
    if Ends(step) { QuietEnd(s, r, step); } else { QuietMoveOn(s, r, step); }
  }

  lemma {:induction false} QuietEnd(s: State, r: nat, step: CallStep)
    requires IsAt(s, r) && CallEnabled(s, r, step) && Quiet(step) && PublishedOk(s) && Ends(step)
    ensures QuietNext(s, r, NextCaller(s, r, step))
  {
    hide Cyclic, TicketsIn;
  }

  lemma {:induction false} QuietMoveOn(s: State, r: nat, step: CallStep)
    requires IsAt(s, r) && CallEnabled(s, r, step) && Quiet(step) && !Ends(step)
    ensures QuietNext(s, r, NextCaller(s, r, step))
  {
    hide Cyclic, TicketsIn;
  }

  lemma {:induction false} QuietTickets(s: State, r: nat, step: CallStep)
    requires Tickets(s) && IsAt(s, r) && CallEnabled(s, r, step) && Quiet(step)
    ensures Tickets(ApplyCall(s, r, step))
  {
    hide ApplyCall, NextCaller, CallEnabled;
    var s' := ApplyCall(s, r, step);
    RoutedStep(s, ByCall(r, step));
    ReadersStep(s, ByCall(r, step));
    CallFrame(s, r, step);
    CallTransportFrame(s, r, step);
    QuietFrame(s, r, step);
    QuietPc(s, r, step);
    QuietHolders(s, s', r);
    QuietMaps(s, s', r);
    QuietStages(s, s', r);
  }

  /** `s'` differs from `s` in one call, without any ticket moving. */
  ghost predicate QuietMove(s: State, s': State, r: nat) {
    && r in s.calls && r in s'.calls && s'.calls == s.calls[r := s'.calls[r]]
    && s'.owner == s.owner && s'.published == s.published && |s'.transports| == |s.transports|
    && (forall y :: 0 <= y < |s.transports| ==> s'.transports[y].pending == s.transports[y].pending)
    && s'.calls[r].route == s.calls[r].route && s'.calls[r].start == s.calls[r].start
    && !s'.calls[r].pc.Sweeping? && (s.calls[r].pc.Sweeping? ==> s.calls[r].pc.rest == {})
  }

  lemma {:induction false} QuietHolders(s: State, s': State, r: nat)
    requires ReadersOk(s) && PublishedOk(s) && HoldersOk(s) && OwnersOk(s)
    requires QuietMove(s, s', r) && ReadersOk(s') && IsAt(s, r)
    requires s'.readers == s.readers || s'.readers == s.readers[s.nextGeneration := Reader(X(s, r), Reading)]
    ensures HoldersOk(s') && OwnersOk(s') && PublishedOk(s')
  {
    hide Cyclic;
  }

  /** How a quiet step may move the caller between the stages of its ticket. */
  predicate QuietStage(s: State, c: Call, c': Call, r: nat)
    requires r in s.calls
  {
    && (c'.attempt == c.attempt ==>
          && (NotYetRegistered(c'.pc) ==> NotYetRegistered(c.pc))
          && (Registered(c'.pc) ==> Registered(c.pc))
          && (Registered(c.pc) && !Registered(c'.pc) ==> c.pc.Waiting? && HasResult(s, TicketOf(s, r)))
          && !c'.pc.FinalWait?
          && (c'.pc.Finished? ==> c'.pc.outcome != Failure(MaybeSent, true)))
    && (c'.attempt != c.attempt ==> NotYetRegistered(c.pc) && NotYetRegistered(c'.pc) && c'.attempt == c.attempt + 1)
  }

  lemma {:induction false} QuietMaps(s: State, s': State, r: nat)
    requires CallsRouted(s) && PublishedOk(s) && MapsOk(s) && InMapOk(s) && QuietMove(s, s', r) && CallsRouted(s')
    requires QuietStage(s, s.calls[r], s'.calls[r], r)
    ensures MapsOk(s') && InMapOk(s')
  {
    hide Cyclic;
  }

  lemma {:induction false} QuietStages(s: State, s': State, r: nat)
    requires StagesOk(s) && QuietMove(s, s', r) && QuietStage(s, s.calls[r], s'.calls[r], r)
    ensures StagesOk(s')
  {
    hide Cyclic;
    forall q | q in s'.calls ensures StageOk(s', q) { assert StageOk(s, q); }
  }

  lemma {:induction false} RegisterTickets(s: State, r: nat)
    requires Tickets(s) && IsAt(s, r) && CallEnabled(s, r, Register)
    ensures Tickets(ApplyCall(s, r, Register))
  {
    RoutedStep(s, ByCall(r, Register));
    ReadersStep(s, ByCall(r, Register));
    RegisterPublished(s, r);
    RegisterHolders(s, r);
    RegisterOwners(s, r);
    RegisterMaps(s, r);
    RegisterStages(s, r);
    hide *;
  }

  lemma {:induction false} RegisterPublished(s: State, r: nat)
    requires PublishedOk(s) && IsAt(s, r) && CallEnabled(s, r, Register)
    ensures PublishedOk(ApplyCall(s, r, Register))
  {
    hide Cyclic;
  }

  lemma {:induction false} RegisterHolders(s: State, r: nat)
    requires HoldersOk(s) && IsAt(s, r) && CallEnabled(s, r, Register) && StageOk(s, r)
    ensures HoldersOk(ApplyCall(s, r, Register))
  {
    hide Cyclic;
  }

  lemma {:induction false} RegisterOwners(s: State, r: nat)
    requires OwnersOk(s) && IsAt(s, r) && CallEnabled(s, r, Register) && StageOk(s, r)
    ensures OwnersOk(ApplyCall(s, r, Register))
  {
    hide Cyclic;
    var s' := ApplyCall(s, r, Register);
    forall t | t in s'.owner ensures OwnerOk(s', t) {
      if t != TicketOf(s, r) { assert OwnerOk(s, t); }
    }
  }

  lemma {:induction false} RegisterMaps(s: State, r: nat)
    requires CallsRouted(s) && MapsOk(s) && InMapOk(s) && IsAt(s, r) && CallEnabled(s, r, Register)
    requires CallsRouted(ApplyCall(s, r, Register))
    ensures MapsOk(ApplyCall(s, r, Register)) && InMapOk(ApplyCall(s, r, Register))
  {
    hide Cyclic, MapsOk, InMapOk, ApplyCall;
    RegisterEntries(s, r);
    RegisterInMap(s, r);
  }

  lemma {:induction false} RegisterEntries(s: State, r: nat)
    requires CallsRouted(s) && MapsOk(s) && InMapOk(s) && IsAt(s, r) && CallEnabled(s, r, Register)
    requires CallsRouted(ApplyCall(s, r, Register))
    ensures MapsOk(ApplyCall(s, r, Register))
  {
    hide Cyclic;
  }

  lemma {:induction false} RegisterInMap(s: State, r: nat)
    requires CallsRouted(s) && MapsOk(s) && InMapOk(s) && IsAt(s, r) && CallEnabled(s, r, Register)
    requires CallsRouted(ApplyCall(s, r, Register))
    ensures InMapOk(ApplyCall(s, r, Register))
  {
    hide Cyclic;
  }

  lemma {:induction false} RegisterStages(s: State, r: nat)
    requires StagesOk(s) && IsAt(s, r) && CallEnabled(s, r, Register)
    ensures StagesOk(ApplyCall(s, r, Register))
  {
    hide Cyclic;
  }

  /** The caller `r` of a registered attempt removes its own entry and leaves the registered stages. */
  ghost predicate OwnRemoval(s: State, s': State, r: nat) {
    && IsAt(s, r) && Registered(s.calls[r].pc) && r in s'.calls && s'.calls == s.calls[r := s'.calls[r]]
    && s'.owner == Unregister(s, r).owner && s'.published == s.published && s'.readers == s.readers
    && |s'.transports| == |s.transports|
    && (forall y :: 0 <= y < |s.transports| ==> s'.transports[y].pending == Unregister(s, r).transports[y].pending)
    && var c, c' := s.calls[r], s'.calls[r];
       && c'.route == c.route && c'.start == c.start && !Registered(c'.pc) && !c'.pc.Sweeping?
       && (if NotYetRegistered(c'.pc) then c'.attempt == c.attempt + 1 else c'.attempt == c.attempt)
       && (c'.pc.FinalWait? ==> r !in s.transports[X(s, r)].pending)
       && (c'.pc.Finished? && c'.pc.outcome == Failure(MaybeSent, true) ==> r in s.transports[X(s, r)].pending)
  }

  lemma {:induction false} OwnRemovalStep(s: State, r: nat, step: CallStep)
    requires IsAt(s, r) && CallEnabled(s, r, step)
    requires step.UnregisterAfterSend? || step.Withdraw? || step.DeadlineUnregister?
    ensures OwnRemoval(s, ApplyCall(s, r, step), r)
  {
    hide Cyclic, ApplyCall, OwnRemoval;
    if step.UnregisterAfterSend? { RemovalAfterSend(s, r); }
    else if step.Withdraw? { RemovalByWithdraw(s, r); }
    else { RemovalByDeadline(s, r); }
  }

  lemma {:induction false} RemovalAfterSend(s: State, r: nat)
    requires IsAt(s, r) && CallEnabled(s, r, UnregisterAfterSend)
    ensures OwnRemoval(s, ApplyCall(s, r, UnregisterAfterSend), r)
  {
    hide Cyclic;
  }

  lemma {:induction false} RemovalByWithdraw(s: State, r: nat)
    requires IsAt(s, r) && CallEnabled(s, r, Withdraw)
    ensures OwnRemoval(s, ApplyCall(s, r, Withdraw), r)
  {
    hide Cyclic;
  }

  lemma {:induction false} RemovalByDeadline(s: State, r: nat)
    requires IsAt(s, r) && CallEnabled(s, r, DeadlineUnregister)
    ensures OwnRemoval(s, ApplyCall(s, r, DeadlineUnregister), r)
  {
    hide Cyclic;
  }

  lemma {:induction false} OwnRemovalPublished(s: State, s': State, r: nat)
    requires CallsRouted(s) && MapsOk(s) && PublishedOk(s) && OwnRemoval(s, s', r)
    ensures PublishedOk(s')
  {
    hide Cyclic;
  }

  lemma {:induction false} OwnRemovalHolders(s: State, s': State, r: nat)
    requires CallsRouted(s) && MapsOk(s) && HoldersOk(s) && OwnRemoval(s, s', r)
    ensures HoldersOk(s')
  {
    hide Cyclic;
  }

  lemma {:induction false} OwnRemovalOwners(s: State, s': State, r: nat)
    requires CallsRouted(s) && MapsOk(s) && OwnersOk(s) && OwnRemoval(s, s', r)
    ensures OwnersOk(s')
  {
    hide Cyclic;
    forall t | t in s'.owner ensures OwnerOk(s', t) {
      if t in s.owner { assert OwnerOk(s, t); }
    }
  }

  lemma {:induction false} OwnRemovalMaps(s: State, s': State, r: nat)
    requires CallsRouted(s) && CallsRouted(s') && MapsOk(s) && InMapOk(s) && OwnRemoval(s, s', r)
    ensures MapsOk(s') && InMapOk(s')
  {
    hide Cyclic, MapsOk, InMapOk, OwnRemoval;
    OwnRemovalEntries(s, s', r);
    OwnRemovalInMap(s, s', r);
  }

  lemma {:induction false} OwnRemovalEntries(s: State, s': State, r: nat)
    requires CallsRouted(s) && CallsRouted(s') && MapsOk(s) && InMapOk(s) && OwnRemoval(s, s', r)
    ensures MapsOk(s')
  {
    hide Cyclic;
  }

  lemma {:induction false} OwnRemovalInMap(s: State, s': State, r: nat)
    requires CallsRouted(s) && CallsRouted(s') && MapsOk(s) && InMapOk(s) && OwnRemoval(s, s', r)
    ensures InMapOk(s')
  {
    hide Cyclic;
  }

  lemma {:induction false} OwnRemovalStages(s: State, s': State, r: nat)
    requires CallsRouted(s) && MapsOk(s) && InMapOk(s) && StagesOk(s) && OwnRemoval(s, s', r)
    ensures StagesOk(s')
  {
    hide Cyclic;
    assert StageOk(s, r);
    forall q | q in s'.calls ensures StageOk(s', q) { assert StageOk(s, q); }
  }

  lemma {:induction false} OwnRemovalTickets(s: State, r: nat, step: CallStep)
    requires Tickets(s) && IsAt(s, r) && CallEnabled(s, r, step)
    requires step.UnregisterAfterSend? || step.Withdraw? || step.DeadlineUnregister?
    ensures Tickets(ApplyCall(s, r, step))
  {
    hide ApplyCall, CallEnabled, OwnRemoval;
    var s' := ApplyCall(s, r, step);
    RoutedStep(s, ByCall(r, step));
    ReadersStep(s, ByCall(r, step));
    OwnRemovalStep(s, r, step);
    OwnRemovalPublished(s, s', r);
    OwnRemovalHolders(s, s', r);
    OwnRemovalOwners(s, s', r);
    OwnRemovalMaps(s, s', r);
    OwnRemovalStages(s, s', r);
  }

  /** A sweeper, a caller or a reader, takes every entry of transport `x`. */
  ghost predicate Swept(s: State, s': State, x: nat, who: Owner) {
    && x < |s.transports| && (who.ByCaller? || who.ByReader?)
    && s'.owner == TakeAll(s, x, who).owner && s'.published == s.published
    && |s'.transports| == |s.transports|
    && (forall y :: 0 <= y < |s.transports| ==>
          s'.transports[y].pending == if y == x then map[] else s.transports[y].pending)
    && var tickets := TicketsIn(s.transports[x].pending);
       match who
       case ByCaller(r) =>
         && r in s.calls && s.calls[r].pc.ToSweep? && s'.readers == s.readers
         && s'.calls == s.calls[r := s.calls[r].(pc := Sweeping(tickets))]
       case ByReader(g) =>
         && g in s.readers && s.readers[g].pc.ReaderToSweep? && s'.calls == s.calls
         && s'.readers == s.readers[g := s.readers[g].(pc := ReaderSweeping(tickets))]
       case _ => false
  }

  /** The entries a sweeper takes are registered and still in the map. */
  lemma {:induction false} SweptEntries(s: State, x: nat)
    requires CallsRouted(s) && MapsOk(s) && x < |s.transports|
    ensures forall t :: t in TicketsIn(s.transports[x].pending) ==> t in s.owner && s.owner[t].InMap?
    ensures TicketsIn(s.transports[x].pending) <= s.owner.Keys
  {
    hide Cyclic;
    forall t | t in TicketsIn(s.transports[x].pending) ensures t in s.owner && s.owner[t].InMap? {
      assert t.call in s.transports[x].pending && t == TicketOf(s, t.call);
    }
  }

  lemma {:induction false} SweptPublished(s: State, s': State, x: nat, who: Owner)
    requires CallsRouted(s) && MapsOk(s) && PublishedOk(s) && Swept(s, s', x, who)
    ensures PublishedOk(s')
  {
    hide Cyclic, MapsOk;
    SweptEntries(s, x);
  }

  lemma {:induction false} SweptHolders(s: State, s': State, x: nat, who: Owner)
    requires CallsRouted(s) && MapsOk(s) && HoldersOk(s) && Swept(s, s', x, who)
    ensures HoldersOk(s')
  {
    hide Cyclic, MapsOk;
    SweptEntries(s, x);
  }

  lemma {:induction false} SweptOwners(s: State, s': State, x: nat, who: Owner)
    requires CallsRouted(s) && MapsOk(s) && OwnersOk(s) && Swept(s, s', x, who)
    ensures OwnersOk(s')
  {
    hide Cyclic, MapsOk;
    SweptEntries(s, x);
    forall t | t in s'.owner ensures OwnerOk(s', t) {
      assert OwnerOk(s, t);
    }
  }

  lemma {:induction false} SweptMaps(s: State, s': State, x: nat, who: Owner)
    requires CallsRouted(s) && CallsRouted(s') && MapsOk(s) && InMapOk(s) && Swept(s, s', x, who)
    ensures MapsOk(s') && InMapOk(s')
  {
    hide Cyclic;
    forall t | t in s'.owner && s'.owner[t].InMap?
      ensures t.call in s'.calls && t == TicketOf(s', t.call) && t.call in s'.transports[X(s', t.call)].pending
    {
      assert t in s.owner && s.owner[t].InMap?;
      assert t in TicketsIn(s.transports[X(s, t.call)].pending);
    }
  }

  lemma {:induction false} SweptStages(s: State, s': State, x: nat, who: Owner)
    requires CallsRouted(s) && MapsOk(s) && StagesOk(s) && Swept(s, s', x, who)
    ensures StagesOk(s')
  {
    hide Cyclic, MapsOk, StageOk;
    SweptOwner(s, s', x, who);
    assert forall q :: q in s.calls ==> q in s'.calls && s'.calls[q].attempt == s.calls[q].attempt;
    forall q | q in s'.calls ensures StageOk(s', q) {
      assert StageOk(s, q);
      SweptStage(s, s', x, who, q);
    }
  }

  /** A sweep changes only the owner of tickets that were in the map. */
  lemma {:induction false} SweptOwner(s: State, s': State, x: nat, who: Owner)
    requires CallsRouted(s) && MapsOk(s) && Swept(s, s', x, who)
    ensures s'.owner.Keys == s.owner.Keys
    ensures forall t :: t in s.owner ==> s'.owner[t] == s.owner[t] || (s.owner[t].InMap? && s'.owner[t] == who)
  {
    hide Cyclic, MapsOk;
    SweptEntries(s, x);
  }

  lemma {:induction false} SweptStage(s: State, s': State, x: nat, who: Owner, q: nat)
    requires CallsRouted(s) && MapsOk(s) && Swept(s, s', x, who) && q in s.calls && StageOk(s, q)
    ensures q in s'.calls && StageOk(s', q)
  {
    hide Cyclic, MapsOk;
    SweptOwner(s, s', x, who);
  }

  lemma {:induction false} SweptTickets(s: State, s': State, x: nat, who: Owner)
    requires Tickets(s) && CallsRouted(s') && ReadersOk(s') && Swept(s, s', x, who)
    ensures Tickets(s')
  {
    hide Swept;
    SweptPublished(s, s', x, who);
    SweptHolders(s, s', x, who);
    SweptOwners(s, s', x, who);
    SweptMaps(s, s', x, who);
    SweptStages(s, s', x, who);
  }

  /** The owner `who` of ticket `t` stores its result. */
  ghost predicate Stored(s: State, s': State, t: Ticket, who: Owner, outcome: Outcome) {
    && t in s.published && t in s.owner && s.owner[t] == who
    && (outcome == Response(t.call) || outcome == Failure(MaybeSent, false))
    && s'.owner == s.owner[t := Published] && s'.published == s.published[t := s.published[t] + [outcome]]
    && s'.transports == s.transports
    && match who
       case ByCaller(r) =>
         && r in s.calls && s.calls[r].pc.Sweeping? && s'.readers == s.readers
         && s'.calls == s.calls[r := s.calls[r].(pc := Sweeping(s.calls[r].pc.rest - {t}))]
       case ByReader(g) =>
         && g in s.readers && s'.calls == s.calls && g in s'.readers
         && s'.readers == s.readers[g := s.readers[g].(pc := s'.readers[g].pc)]
         && (if s.readers[g].pc.ReaderSweeping? then s'.readers[g].pc == ReaderSweeping(s.readers[g].pc.rest - {t})
             else s.readers[g].pc == Holding(t, t.call) && s'.readers[g].pc == Reading)
       case _ => false
  }

  lemma {:induction false} StoredPublished(s: State, s': State, t: Ticket, who: Owner, outcome: Outcome)
    requires PublishedOk(s) && Stored(s, s', t, who, outcome)
    ensures PublishedOk(s')
  {
  }

  lemma {:induction false} StoredHolders(s: State, s': State, t: Ticket, who: Owner, outcome: Outcome)
    requires HoldersOk(s) && Stored(s, s', t, who, outcome)
    ensures HoldersOk(s')
  {
  }

  lemma {:induction false} StoredOwners(s: State, s': State, t: Ticket, who: Owner, outcome: Outcome)
    requires OwnersOk(s) && Stored(s, s', t, who, outcome)
    ensures OwnersOk(s')
  {
    forall u | u in s'.owner ensures OwnerOk(s', u) { assert OwnerOk(s, u); }
  }

  lemma {:induction false} StoredMaps(s: State, s': State, t: Ticket, who: Owner, outcome: Outcome)
    requires CallsRouted(s) && CallsRouted(s') && MapsOk(s) && InMapOk(s) && Stored(s, s', t, who, outcome)
    ensures MapsOk(s') && InMapOk(s')
  {
    hide Cyclic, MapsOk, InMapOk, Stored;
    StoredEntries(s, s', t, who, outcome);
    StoredInMap(s, s', t, who, outcome);
  }

  lemma {:induction false} StoredEntries(s: State, s': State, t: Ticket, who: Owner, outcome: Outcome)
    requires CallsRouted(s) && CallsRouted(s') && MapsOk(s) && InMapOk(s) && Stored(s, s', t, who, outcome)
    ensures MapsOk(s')
  {
    hide Cyclic;
  }

  lemma {:induction false} StoredInMap(s: State, s': State, t: Ticket, who: Owner, outcome: Outcome)
    requires CallsRouted(s) && CallsRouted(s') && MapsOk(s) && InMapOk(s) && Stored(s, s', t, who, outcome)
    ensures InMapOk(s')
  {
    hide Cyclic;
  }

  lemma {:induction false} StoredStages(s: State, s': State, t: Ticket, who: Owner, outcome: Outcome)
    requires StagesOk(s) && Stored(s, s', t, who, outcome)
    ensures StagesOk(s')
  {
    forall q | q in s'.calls ensures StageOk(s', q) { assert StageOk(s, q); }
  }

  lemma {:induction false} StoredTickets(s: State, s': State, t: Ticket, who: Owner, outcome: Outcome)
    requires Tickets(s) && CallsRouted(s') && ReadersOk(s') && Stored(s, s', t, who, outcome)
    ensures Tickets(s')
  {
    hide Stored;
    StoredPublished(s, s', t, who, outcome);
    StoredHolders(s, s', t, who, outcome);
    StoredOwners(s, s', t, who, outcome);
    StoredMaps(s, s', t, who, outcome);
    StoredStages(s, s', t, who, outcome);
  }

  lemma {:induction false} DecodeTickets(s: State, g: nat, id: nat)
    requires Tickets(s) && ReaderAt(s, g) && ReaderEnabled(s, g, ReaderDecode(id))
    requires CallsRouted(Decode(s, g, id)) && ReadersOk(Decode(s, g, id))
    ensures Tickets(Decode(s, g, id))
  {
    hide Cyclic;
    if id in s.transports[s.readers[g].x].pending {
      DecodeHolders(s, g, id);
      DecodeOwners(s, g, id);
      DecodeMaps(s, g, id);
      DecodeStages(s, g, id);
    }
  }

  lemma {:induction false} DecodeHolders(s: State, g: nat, id: nat)
    requires CallsRouted(s) && MapsOk(s) && PublishedOk(s) && HoldersOk(s) && ReaderAt(s, g)
    requires ReaderEnabled(s, g, ReaderDecode(id))
    requires id in s.transports[s.readers[g].x].pending
    ensures PublishedOk(Decode(s, g, id)) && HoldersOk(Decode(s, g, id))
  {
    hide Cyclic;
    assert TicketOf(s, id) in s.owner && s.owner[TicketOf(s, id)] == InMap;
    hide MapsOk;
  }

  lemma {:induction false} DecodeOwners(s: State, g: nat, id: nat)
    requires CallsRouted(s) && MapsOk(s) && OwnersOk(s) && ReaderAt(s, g) && ReaderEnabled(s, g, ReaderDecode(id))
    requires id in s.transports[s.readers[g].x].pending
    ensures OwnersOk(Decode(s, g, id))
  {
    hide Cyclic;
    var s' := Decode(s, g, id);
    assert TicketOf(s, id) in s.owner && s.owner[TicketOf(s, id)] == InMap;
    hide MapsOk;
    forall u | u in s'.owner ensures OwnerOk(s', u) { assert OwnerOk(s, u); }
  }

  lemma {:induction false} DecodeMaps(s: State, g: nat, id: nat)
    requires CallsRouted(s) && MapsOk(s) && InMapOk(s) && ReaderAt(s, g) && ReaderEnabled(s, g, ReaderDecode(id))
    requires id in s.transports[s.readers[g].x].pending && CallsRouted(Decode(s, g, id))
    ensures MapsOk(Decode(s, g, id)) && InMapOk(Decode(s, g, id))
  {
    hide Cyclic;
  }

  lemma {:induction false} DecodeStages(s: State, g: nat, id: nat)
    requires CallsRouted(s) && MapsOk(s) && StagesOk(s) && ReaderAt(s, g) && ReaderEnabled(s, g, ReaderDecode(id))
    requires id in s.transports[s.readers[g].x].pending
    ensures StagesOk(Decode(s, g, id))
  {
    hide Cyclic;
    var s' := Decode(s, g, id);
    assert TicketOf(s, id) in s.owner && s.owner[TicketOf(s, id)] == InMap;
    forall q | q in s'.calls ensures StageOk(s', q) { assert StageOk(s, q); }
  }

  /** Calls, tickets and pending maps are the same; only sockets and readers may differ. */
  ghost predicate SameCalls(s: State, s': State) {
    && s'.calls == s.calls && s'.owner == s.owner && s'.published == s.published && |s'.transports| == |s.transports|
    && (forall y :: 0 <= y < |s.transports| ==> s'.transports[y].pending == s.transports[y].pending)
  }

  lemma {:induction false} SameCallsMaps(s: State, s': State)
    requires CallsRouted(s) && CallsRouted(s') && MapsOk(s) && InMapOk(s)
    requires StagesOk(s) && PublishedOk(s) && SameCalls(s, s')
    ensures MapsOk(s') && InMapOk(s') && StagesOk(s') && PublishedOk(s')
  {
    hide Cyclic;
    forall q | q in s'.calls ensures StageOk(s', q) { assert StageOk(s, q); }
  }

  /** A reader that holds no ticket moves on without one. */
  lemma {:induction false} IdleReaderHolders(s: State, s': State, g: nat)
    requires HoldersOk(s) && OwnersOk(s) && SameCalls(s, s') && g in s.readers && g in s'.readers
    requires s'.readers == s.readers[g := s'.readers[g]]
    requires !s.readers[g].pc.Holding? && (s.readers[g].pc.ReaderSweeping? ==> s.readers[g].pc.rest == {})
    requires !s'.readers[g].pc.Holding? && !s'.readers[g].pc.ReaderSweeping?
    ensures HoldersOk(s') && OwnersOk(s')
  {
    forall u | u in s'.owner ensures OwnerOk(s', u) { assert OwnerOk(s, u); }
  }

  lemma {:induction false} IdleReaderTickets(s: State, g: nat, step: ReaderStep)
    requires Tickets(s) && ReaderAt(s, g) && ReaderEnabled(s, g, step)
    requires (step.ReaderBreak? || step.ReaderClose? || step.ReaderEnd?)
    requires CallsRouted(ApplyReader(s, g, step)) && ReadersOk(ApplyReader(s, g, step))
    ensures Tickets(ApplyReader(s, g, step))
  {
    hide Cyclic, MapsOk, InMapOk, StagesOk, PublishedOk, HoldersOk, OwnersOk;
    var s' := ApplyReader(s, g, step);
    assert SameCalls(s, s');
    SameCallsMaps(s, s');
    IdleReaderHolders(s, s', g);
  }

  lemma {:induction false} NewCallHolders(s: State, step: Step)
    requires HoldersOk(s) && OwnersOk(s) && PublishedOk(s) && CallsRouted(s) && step.NewCall? && Enabled(s, step)
    ensures HoldersOk(Apply(s, step)) && OwnersOk(Apply(s, step)) && PublishedOk(Apply(s, step))
  {
    hide Cyclic;
    var s' := Apply(s, step);
    forall u | u in s'.owner ensures OwnerOk(s', u) { assert OwnerOk(s, u); }
  }

  lemma {:induction false} NewCallMaps(s: State, step: Step)
    requires CallsRouted(s) && MapsOk(s) && InMapOk(s) && StagesOk(s) && step.NewCall?
    requires Enabled(s, step) && CallsRouted(Apply(s, step))
    ensures MapsOk(Apply(s, step)) && InMapOk(Apply(s, step)) && StagesOk(Apply(s, step))
  {
    hide Cyclic;
    var s' := Apply(s, step);
    assert s.nextCall !in s.calls;
    forall t | t in s'.owner && s'.owner[t].InMap?
      ensures t.call in s'.calls && t == TicketOf(s', t.call) && t.call in s'.transports[X(s', t.call)].pending
    {
      assert t.call in s.calls && X(s, t.call) == X(s', t.call);
    }
    forall q | q in s'.calls ensures StageOk(s', q) { if q in s.calls { assert StageOk(s, q); } }
  }

  lemma {:induction false} CallTickets(s: State, r: nat, step: CallStep)
    requires Tickets(s) && IsAt(s, r) && CallEnabled(s, r, step)
    ensures Tickets(ApplyCall(s, r, step))
  {
    hide Cyclic, ApplyCall, Tickets;
    match step
    case Register => RegisterTickets(s, r);
    case UnregisterAfterSend => OwnRemovalTickets(s, r, step);
    case Withdraw => OwnRemovalTickets(s, r, step);
    case DeadlineUnregister => OwnRemovalTickets(s, r, step);
    case Sweep => CallSweepTickets(s, r);
    case SweepOne(t) => CallSweepOneTickets(s, r, t);
    case _ => QuietTickets(s, r, step);
  }

  lemma {:induction false} CallSweepTickets(s: State, r: nat)
    requires Tickets(s) && IsAt(s, r) && CallEnabled(s, r, Sweep)
    ensures Tickets(ApplyCall(s, r, Sweep))
  {
    hide Cyclic;
    RoutedStep(s, ByCall(r, Sweep));
    ReadersStep(s, ByCall(r, Sweep));
    SweptTickets(s, ApplyCall(s, r, Sweep), X(s, r), ByCaller(r));
  }

  lemma {:induction false} CallSweepOneTickets(s: State, r: nat, t: Ticket)
    requires Tickets(s) && IsAt(s, r) && CallEnabled(s, r, SweepOne(t))
    ensures Tickets(ApplyCall(s, r, SweepOne(t)))
  {
    hide Cyclic;
    RoutedStep(s, ByCall(r, SweepOne(t)));
    ReadersStep(s, ByCall(r, SweepOne(t)));
    StoredTickets(s, ApplyCall(s, r, SweepOne(t)), t, ByCaller(r), Failure(MaybeSent, false));
  }

  lemma {:induction false} ReaderTickets(s: State, g: nat, step: ReaderStep)
    requires Tickets(s) && ReaderAt(s, g) && ReaderEnabled(s, g, step)
    ensures Tickets(ApplyReader(s, g, step))
  {
    hide Cyclic;
    RoutedStep(s, ByReaderThread(g, step));
    ReadersStep(s, ByReaderThread(g, step));
    match step
    case ReaderDecode(id) => DecodeTickets(s, g, id);
    case ReaderPublish =>
      var pc := s.readers[g].pc;
      StoredTickets(s, ApplyReader(s, g, step), pc.ticket, ByReader(g), Response(pc.id));
    case ReaderSweep => SweptTickets(s, ApplyReader(s, g, step), s.readers[g].x, ByReader(g));
    case ReaderSweepOne(t) => StoredTickets(s, ApplyReader(s, g, step), t, ByReader(g), Failure(MaybeSent, false));
    case _ => IdleReaderTickets(s, g, step);
  }

  lemma {:induction false} TicketsStep(s: State, step: Step)
    requires Tickets(s) && Enabled(s, step)
    ensures Tickets(Apply(s, step))
  {
    hide ApplyCall, ApplyReader;
    RoutedStep(s, step);
    match step
    case NewCall(_, _, _) => NewCallHolders(s, step); NewCallMaps(s, step); ReadersStep(s, step);
    case ByCall(r, call) => CallTickets(s, r, call);
    case ByReaderThread(g, reader) => ReaderTickets(s, g, reader);
  }

  // ----- No waiting call is orphaned

  /** Positions that know the generation whose descriptor was read. */
  predicate HasFd(pc: Caller) {
    pc.SettingTimeout? || pc.AboutToSend? || pc.InSend? || pc.Waiting? || pc.DeadlinePassed?
  }

  predicate ReaderLives(pc: ReaderPc) {
    pc.Reading? || pc.Holding? || pc.Breaking?
  }

  /** The open connection of a transport has its reader. */
  ghost predicate SocketsOk(s: State) {
    forall x :: 0 <= x < |s.transports| && s.transports[x].socket.Some? ==>
      var g := s.transports[x].socket.value;
      g in s.readers && s.readers[g].x == x && ReaderLives(s.readers[g].pc)
  }

  predicate CallWillSweep(s: State, r: nat, x: nat) {
    IsAt(s, r) && s.calls[r].pc.ToSweep? && X(s, r) == x
  }

  predicate ReaderWillSweep(s: State, g: nat, x: nat) {
    g in s.readers && s.readers[g].x == x && s.readers[g].pc.ReaderToSweep?
  }

  ghost predicate SweepComing(s: State, x: nat) {
    (exists r :: CallWillSweep(s, r, x)) || (exists g :: ReaderWillSweep(s, g, x))
  }

  /** A registered call that has read a descriptor is on the connection that is still open, whose
      reader lives, or a sweep of its transport's map is on its way. */
  ghost predicate Attended(s: State, r: nat)
    requires IsAt(s, r)
  {
    HasFd(Pc(s, r)) && TicketOf(s, r) in s.owner && s.owner[TicketOf(s, r)].InMap? ==>
      s.transports[X(s, r)].socket == Some(Pc(s, r).g) || SweepComing(s, X(s, r))
  }

  ghost predicate NoOrphans(s: State) {
    forall r :: IsAt(s, r) ==> Attended(s, r)
  }

  lemma {:induction false} SocketsStep(s: State, step: Step)
    requires SocketsOk(s) && ReadersOk(s) && Enabled(s, step)
    ensures SocketsOk(Apply(s, step))
  {
    hide Cyclic, ApplyCall, ApplyReader;
    match step
    case NewCall(_, _, _) =>
    case ByReaderThread(g, reader) =>
      ReaderFrame(s, g, reader);
      SocketOfReaderStep(s, g, reader);
    case ByCall(r, call) =>
      CallTransportFrame(s, r, call);
      SocketOfCallStep(s, r, call);
  }

  /** A reader leaves its connection open until it closes it, and closes whatever it closes for good. */
  lemma {:induction false} SocketOfReaderStep(s: State, g: nat, step: ReaderStep)
    requires ReaderAt(s, g) && ReaderEnabled(s, g, step)
    ensures
      var s' := ApplyReader(s, g, step);
      var x := s.readers[g].x;
      && |s'.transports| == |s.transports| && g in s'.readers
      && s'.transports[x].socket == (if step.ReaderClose? && step.matches then None else s.transports[x].socket)
      && (ReaderLives(s.readers[g].pc) && !step.ReaderClose? ==> ReaderLives(s'.readers[g].pc))
      && (step.ReaderClose? ==> s'.readers[g].pc.ReaderToSweep?)
      && (step.ReaderClose? && !step.matches ==> s.transports[x].socket != Some(g))
  {
    hide TicketsIn;
  }

  lemma {:induction false} SocketOfCallStep(s: State, r: nat, step: CallStep)
    requires IsAt(s, r) && CallEnabled(s, r, step)
    ensures
      var s' := ApplyCall(s, r, step);
      var x := X(s, r);
      && |s'.transports| == |s.transports|
      && s'.transports[x].socket ==
         if step.ConnectNew? then Some(s.nextGeneration) else if step.CloseSocket? then None else s.transports[x].socket
  {
    hide Cyclic, NextCaller, TicketsIn;
  }

  /** A coming sweep stays until it happens. */
  lemma {:induction false} SweepStillComing(s: State, step: Step, x: nat)
    requires CallsRouted(s) && ReadersOk(s) && SweepComing(s, x) && Enabled(s, step) && x < |s.transports|
    ensures
      || SweepComing(Apply(s, step), x)
      || (step.ByCall? && step.call.Sweep? && X(s, step.r) == x)
      || (step.ByReaderThread? && step.reader.ReaderSweep? && s.readers[step.g].x == x)
  {
    hide Cyclic, ApplyCall, NextCaller, ApplyReader;
    var s' := Apply(s, step);
    if r :| CallWillSweep(s, r, x) {
      if step.ByCall? {
        CallFrame(s, step.r, step.call);
        CallTransportFrame(s, step.r, step.call);
        if step.r != r || !step.call.Sweep? { assert step.r != r; assert CallWillSweep(s', r, x); }
      } else {
        if step.ByReaderThread? { ReaderFrame(s, step.g, step.reader); }
        assert CallWillSweep(s', r, x);
      }
    } else {
      var g :| ReaderWillSweep(s, g, x);
      if step.ByReaderThread? {
        ReaderFrame(s, step.g, step.reader);
        if step.g != g || !step.reader.ReaderSweep? { assert step.g != g; assert ReaderWillSweep(s', g, x); }
      } else {
        if step.ByCall? { CallTransportFrame(s, step.r, step.call); }
        assert ReaderWillSweep(s', g, x);
      }
    }
  }

  predicate FdStep(step: CallStep) {
    step.FdFound? || step.TimeoutOk? || step.SendBegin? || step.SendOk? || step.WaitExpire?
  }

  /** A call's position with respect to attendance: only five steps lead to a position that knows a
      descriptor, and after closing, the call is about to sweep. */
  lemma {:induction false} OnlyFdSteps(s: State, r: nat, step: CallStep)
    requires IsAt(s, r) && CallEnabled(s, r, step)
    ensures
      var c := NextCaller(s, r, step);
      && (HasFd(c.pc) ==> FdStep(step))
      && (step.CloseSocket? ==> c.pc.ToSweep? && c.attempt == s.calls[r].attempt)
      && (Pc(s, r).ToSweep? ==> step.Sweep?)
  {
    hide Cyclic, TicketsIn;
  }

  /** Those steps read the open descriptor or keep the one that was read. */
  lemma {:induction false} FdStepKeeps(s: State, r: nat, step: CallStep)
    requires IsAt(s, r) && CallEnabled(s, r, step) && FdStep(step)
    ensures
      var c := NextCaller(s, r, step);
      && HasFd(c.pc) && c.attempt == s.calls[r].attempt && ApplyCall(s, r, step).owner == s.owner
      && (if step.FdFound? then s.transports[X(s, r)].socket == Some(c.pc.g)
          else HasFd(Pc(s, r)) && c.pc.g == Pc(s, r).g)
  {
    hide Cyclic, TicketsIn;
  }

  /** Only a call's own registration adds an entry, and only below the limit; a sweep empties the map. */
  ghost predicate EntriesMove(s: State, s': State, r: nat, step: CallStep)
    requires IsAt(s, r) && |s'.transports| == |s.transports|
  {
    var x := X(s, r);
    var p, p' := s.transports[x].pending, s'.transports[x].pending;
    && (if step.Register? then p' == p[r := s.calls[r].attempt] && |p| < s.maxInflight
        else p'.Keys <= p.Keys)
    && (step.Sweep? ==> p' == map[])
  }

  lemma {:induction false} EntriesOfCallStep(s: State, r: nat, step: CallStep)
    requires IsAt(s, r) && CallEnabled(s, r, step)
    ensures |ApplyCall(s, r, step).transports| == |s.transports| && EntriesMove(s, ApplyCall(s, r, step), r, step)
  {
    hide Cyclic, ApplyCall;
    if Quiet(step) { QuietFrame(s, r, step); } else { EntriesOfMover(s, r, step); }
  }

  lemma {:induction false} EntriesOfMover(s: State, r: nat, step: CallStep)
    requires IsAt(s, r) && CallEnabled(s, r, step) && !Quiet(step)
    ensures |ApplyCall(s, r, step).transports| == |s.transports| && EntriesMove(s, ApplyCall(s, r, step), r, step)
  {
    hide Cyclic, NextCaller, TicketsIn;
  }

  lemma {:induction false} EntriesOfReaderStep(s: State, g: nat, step: ReaderStep)
    requires ReaderAt(s, g) && ReaderEnabled(s, g, step)
    ensures
      var s' := ApplyReader(s, g, step);
      var x := s.readers[g].x;
      && |s'.transports| == |s.transports|
      && s'.transports[x].pending.Keys <= s.transports[x].pending.Keys
      && (step.ReaderSweep? ==> s'.transports[x].pending == map[])
  {
  }

  lemma {:induction false} MapGrows(m: map<nat, nat>, m': map<nat, nat>)
    requires m'.Keys <= m.Keys
    ensures |m'| <= |m|
  {
    SetGrows(m'.Keys, m.Keys);
    assert |m'| == |m'.Keys| && |m| == |m.Keys|;
  }

  lemma {:induction false} SetGrows(a: set<nat>, b: set<nat>)
    requires a <= b
    ensures |a| <= |b|
  {
    if a != {} {
      var e :| e in a;
      SetGrows(a - {e}, b - {e});
    }
  }

  lemma {:induction false} BoundedStep(s: State, step: Step)
    requires Bounded(s) && Enabled(s, step)
    ensures Bounded(Apply(s, step))
  {
    hide Cyclic, ApplyCall, ApplyReader;
    var s' := Apply(s, step);
    match step
    case NewCall(_, _, _) =>
    case ByCall(r, call) =>
      CallFrame(s, r, call);
      CallTransportFrame(s, r, call);
      EntriesOfCallStep(s, r, call);
      if !call.Register? { MapGrows(s.transports[X(s, r)].pending, s'.transports[X(s, r)].pending); }
    case ByReaderThread(g, reader) =>
      ReaderFrame(s, g, reader);
      EntriesOfReaderStep(s, g, reader);
      MapGrows(s.transports[s.readers[g].x].pending, s'.transports[s.readers[g].x].pending);
  }

  /** An entry that is in a map after a step, and is not the one being registered, was there before. */
  lemma {:induction false} OldEntry(s: State, step: Step, q: nat, x: nat)
    requires Enabled(s, step) && x < |s.transports| && x < |Apply(s, step).transports|
    requires q in Apply(s, step).transports[x].pending
    ensures
      || q in s.transports[x].pending
      || (step.ByCall? && step.r == q && step.call.Register?)
    ensures !(step.ByCall? && step.call.Sweep? && X(s, step.r) == x)
    ensures !(step.ByReaderThread? && step.reader.ReaderSweep? && s.readers[step.g].x == x)
  {
    hide Cyclic, ApplyCall, ApplyReader;
    if step.ByCall? { CallTransportFrame(s, step.r, step.call); EntriesOfCallStep(s, step.r, step.call); }
    if step.ByReaderThread? { ReaderFrame(s, step.g, step.reader); EntriesOfReaderStep(s, step.g, step.reader); }
  }

  /** An open connection stays, or whoever closes it is about to sweep. */
  lemma {:induction false} ClosedMeansSweep(s: State, step: Step, x: nat)
    requires CallsRouted(s) && Enabled(s, step) && x < |s.transports| && s.transports[x].socket.Some?
    ensures x < |Apply(s, step).transports|
    ensures Apply(s, step).transports[x].socket == s.transports[x].socket || SweepComing(Apply(s, step), x)
  {
    hide Cyclic, ApplyCall, NextCaller, ApplyReader;
    var s' := Apply(s, step);
    match step
    case NewCall(_, _, _) =>
    case ByCall(r, call) =>
      CallFrame(s, r, call);
      CallTransportFrame(s, r, call);
      SocketOfCallStep(s, r, call);
      OnlyFdSteps(s, r, call);
      if call.CloseSocket? && X(s, r) == x { assert CallWillSweep(s', r, x); }
    case ByReaderThread(g, reader) =>
      ReaderFrame(s, g, reader);
      SocketOfReaderStep(s, g, reader);
      if reader.ReaderClose? && s.readers[g].x == x { assert ReaderWillSweep(s', g, x); }
  }

  lemma {:induction false} AttendedStep(s: State, step: Step, q: nat)
    requires Tickets(s) && Enabled(s, step) && Tickets(Apply(s, step))
    requires IsAt(s, q) && Attended(s, q) && IsAt(Apply(s, step), q)
    ensures Attended(Apply(s, step), q)
  {
    hide Cyclic, ApplyCall, ApplyReader;
    var s' := Apply(s, step);
    var t := TicketOf(s', q);
    if HasFd(Pc(s', q)) && t in s'.owner && s'.owner[t].InMap? {
      assert q in s'.transports[X(s', q)].pending;
      Kept(s, step, q);
      var x := X(s, q);
      OldEntry(s, step, q, x);
      assert s.owner[TicketOf(s, q)].InMap?;
      if step.ByCall? && step.r == q && step.call.FdFound? {
        SocketOfCallStep(s, q, step.call);
      } else if SweepComing(s, x) {
        SweepStillComing(s, step, x);
      } else {
        ClosedMeansSweep(s, step, x);
      }
    }
  }

  /** A call on a descriptor after a step was already there, or just read the open one. */
  lemma {:induction false} Kept(s: State, step: Step, q: nat)
    requires CallsRouted(s) && Enabled(s, step) && IsAt(s, q) && IsAt(Apply(s, step), q) && HasFd(Pc(Apply(s, step), q))
    ensures s.calls[q].attempt == Apply(s, step).calls[q].attempt && X(s, q) == X(Apply(s, step), q)
    ensures if step.ByCall? && step.r == q && step.call.FdFound?
            then s.transports[X(s, q)].socket == Some(Pc(Apply(s, step), q).g)
            else HasFd(Pc(s, q)) && Pc(s, q).g == Pc(Apply(s, step), q).g
    ensures !(step.ByCall? && step.r == q && step.call.Register?)
  {
    hide Cyclic, ApplyCall, NextCaller, ApplyReader;
    if step.ByCall? {
      CallFrame(s, step.r, step.call);
      CallTransportFrame(s, step.r, step.call);
      OnlyFdSteps(s, step.r, step.call);
      if FdStep(step.call) { FdStepKeeps(s, step.r, step.call); }
    }
    if step.ByReaderThread? { ReaderFrame(s, step.g, step.reader); }
  }

  lemma {:induction false} NoOrphansStep(s: State, step: Step)
    requires Tickets(s) && NoOrphans(s) && Enabled(s, step) && Tickets(Apply(s, step))
    ensures NoOrphans(Apply(s, step))
  {
    hide Cyclic, ApplyCall, ApplyReader, Attended;
    var s' := Apply(s, step);
    forall q | IsAt(s', q) ensures Attended(s', q) {
      if q in s.calls {
        assert Routed(s, s.calls[q]);
        AttendedStep(s, step, q);
      } else {
        NewIsAttended(s, step, q);
      }
    }
  }

  lemma {:induction false} NewIsAttended(s: State, step: Step, q: nat)
    requires CallsRouted(s) && Enabled(s, step) && q !in s.calls && IsAt(Apply(s, step), q)
    ensures Attended(Apply(s, step), q)
  {
    hide Cyclic, ApplyCall, NextCaller, ApplyReader;
    if step.ByCall? { CallFrame(s, step.r, step.call); }
    if step.ByReaderThread? { ReaderFrame(s, step.g, step.reader); }
  }

  // ----- One frame at a time

  /** Positions that hold the transport's write mutex. */
  predicate Writing(pc: Caller) {
    || pc.WriteDeadline? || pc.ReadingFd? || pc.SettingTimeout? || pc.AboutToSend? || pc.InSend? || pc.SendFailed?
    || pc.ClosingSocket? || pc.ToSweep? || pc.Sweeping? || pc.Withdrawing?
  }

  /** The mutex is held by exactly the call that is at such a position, so it is never left locked. */
  ghost predicate WriteLocked(s: State) {
    && (forall r: nat :: IsAt(s, r) && Writing(Pc(s, r)) ==> s.transports[X(s, r)].writeLock == Some(r))
    && (forall x :: 0 <= x < |s.transports| && s.transports[x].writeLock.Some? ==>
          HeldAt(s, s.transports[x].writeLock.value, x))
  }

  predicate HeldAt(s: State, r: nat, x: nat) {
    IsAt(s, r) && Writing(Pc(s, r)) && X(s, r) == x
  }

  predicate LockStep(step: CallStep) {
    step.LockWrite? || step.SendOk? || step.SweepEnd? || step.Withdraw?
  }

  lemma {:induction false} WriteLockKept(s: State, r: nat, step: CallStep)
    requires IsAt(s, r) && CallEnabled(s, r, step) && !LockStep(step)
    ensures |ApplyCall(s, r, step).transports| == |s.transports|
    ensures ApplyCall(s, r, step).transports[X(s, r)].writeLock == s.transports[X(s, r)].writeLock
  {
    hide Cyclic, NextCaller, TicketsIn;
  }

  lemma {:induction false} WriteLockMoves(s: State, r: nat, step: CallStep)
    requires IsAt(s, r) && CallEnabled(s, r, step) && LockStep(step)
    ensures |ApplyCall(s, r, step).transports| == |s.transports|
    ensures ApplyCall(s, r, step).transports[X(s, r)].writeLock == (if step.LockWrite? then Some(r) else None)
  {
    hide Cyclic, NextCaller;
  }

  lemma {:induction false} WritingStep(s: State, r: nat, step: CallStep)
    requires IsAt(s, r) && CallEnabled(s, r, step) && Writing(NextCaller(s, r, step).pc)
    ensures step.LockWrite? || (Writing(Pc(s, r)) && !LockStep(step))
  {
    hide Cyclic, TicketsIn;
  }

  lemma {:induction false} WritingKeepsAttempt(s: State, r: nat, step: CallStep)
    requires IsAt(s, r) && CallEnabled(s, r, step) && Writing(NextCaller(s, r, step).pc)
    ensures NextCaller(s, r, step).attempt == s.calls[r].attempt
  {
    hide Cyclic, TicketsIn, CallEnabled;
  }

  lemma {:induction false} WritingStays(s: State, r: nat, step: CallStep)
    requires IsAt(s, r) && CallEnabled(s, r, step)
    ensures step.LockWrite? || (Writing(Pc(s, r)) && !LockStep(step)) ==> Writing(NextCaller(s, r, step).pc)
    ensures LockStep(step) && !step.LockWrite? ==> Writing(Pc(s, r))
    ensures step.LockWrite? ==> s.transports[X(s, r)].writeLock.None?
  {
    hide Cyclic, TicketsIn;
  }

  lemma {:induction false} WriteLockOfReaderStep(s: State, g: nat, step: ReaderStep)
    requires ReaderAt(s, g) && ReaderEnabled(s, g, step)
    ensures |ApplyReader(s, g, step).transports| == |s.transports|
    ensures ApplyReader(s, g, step).transports[s.readers[g].x].writeLock == s.transports[s.readers[g].x].writeLock
  {
  }

  lemma {:induction false} WriteLockedStep(s: State, step: Step)
    requires CallsRouted(s) && WriteLocked(s) && Enabled(s, step)
    ensures WriteLocked(Apply(s, step))
  {
    hide Cyclic, ApplyCall, NextCaller, ApplyReader, CallEnabled;
    var s' := Apply(s, step);
    match step
    case NewCall(_, _, _) =>
      forall x | 0 <= x < |s'.transports| && s'.transports[x].writeLock.Some?
        ensures HeldAt(s', s'.transports[x].writeLock.value, x)
      {
        assert HeldAt(s, s.transports[x].writeLock.value, x);
      }
    case ByCall(r, call) => CallWriteLocked(s, r, call);
    case ByReaderThread(g, reader) =>
      ReaderFrame(s, g, reader);
      WriteLockOfReaderStep(s, g, reader);
      forall x | 0 <= x < |s'.transports| && s'.transports[x].writeLock.Some?
        ensures HeldAt(s', s'.transports[x].writeLock.value, x)
      {
        assert HeldAt(s, s.transports[x].writeLock.value, x);
      }
  }

  lemma {:induction false} CallWriteLocked(s: State, r: nat, call: CallStep)
    requires CallsRouted(s) && WriteLocked(s) && IsAt(s, r) && CallEnabled(s, r, call)
    ensures WriteLocked(ApplyCall(s, r, call))
  {
    hide Cyclic, ApplyCall, NextCaller, CallEnabled, Writing;
    var s' := ApplyCall(s, r, call);
    CallFrame(s, r, call);
    CallTransportFrame(s, r, call);
    if LockStep(call) { WriteLockMoves(s, r, call); } else { WriteLockKept(s, r, call); }
    if Writing(NextCaller(s, r, call).pc) {
      WritingStep(s, r, call);
      WritingKeepsAttempt(s, r, call);
    }
    WritingStays(s, r, call);
    forall x | 0 <= x < |s'.transports| && s'.transports[x].writeLock.Some?
      ensures HeldAt(s', s'.transports[x].writeLock.value, x)
    {
      if !(x == X(s, r) && call.LockWrite?) { assert HeldAt(s, s.transports[x].writeLock.value, x); }
    }
  }

  // ----- The invariant of every run

  ghost predicate Inv(s: State) {
    Tickets(s) && HistoriesOk(s) && Bounded(s) && SocketsOk(s) && NoOrphans(s) && WriteLocked(s)
  }

  lemma {:induction false} InitInv(transports: nat, maxInflight: nat)
    ensures Inv(Init(transports, maxInflight))
  {
    hide Cyclic;
    assert TicketsIn(map[]) == {};
  }

  lemma {:induction false} StepInv(s: State, step: Step)
    requires Inv(s) && Enabled(s, step)
    ensures Inv(Apply(s, step))
  {
    hide *;
    hide Inv;
    InvParts(s);
    TicketsParts(s);
    TicketsStep(s, step);
    HistoriesStep(s, step);
    BoundedStep(s, step);
    SocketsStep(s, step);
    NoOrphansStep(s, step);
    WriteLockedStep(s, step);
    InvParts(Apply(s, step));
  }

  lemma {:induction false} InvParts(s: State)
    ensures Inv(s) <==> Tickets(s) && HistoriesOk(s) && Bounded(s) && SocketsOk(s) && NoOrphans(s) && WriteLocked(s)
  {
  }

  lemma {:induction false} TicketsParts(s: State)
    requires Tickets(s)
    ensures CallsRouted(s) && ReadersOk(s) && PublishedOk(s)
  {
  }

  lemma {:induction false} RunInv(s: State, steps: seq<Step>)
    requires Inv(s) && ValidRun(s, steps)
    ensures Inv(Exec(s, steps))
    decreases |steps|
  {
    hide Inv, Enabled, Apply;
    if steps != [] {
      StepInv(s, steps[0]);
      RunInv(Apply(s, steps[0]), steps[1..]);
    }
  }

  // ----- Main results

  /** Pending calls are completed at most once, with a failure or with the response to their own
      request; and never more than `maxInflight` are registered on a transport. */
  lemma {:induction false} CompletedAtMostOnce(transports: nat, maxInflight: nat, steps: seq<Step>, t: Ticket)
    requires ValidRun(Init(transports, maxInflight), steps)
    ensures
      var s := Exec(Init(transports, maxInflight), steps);
      && (t in s.published ==> |s.published[t]| <= 1)
      && (HasResult(s, t) ==> s.published[t] == [Response(t.call)] || s.published[t] == [Failure(MaybeSent, false)])
      && Bounded(s)
  {
    hide Cyclic, Exec, ValidRun, Init, CallsRouted, ReadersOk, HoldersOk;
    hide OwnersOk, MapsOk, InMapOk, StagesOk, HistoriesOk, SocketsOk, NoOrphans, WriteLocked;
    InitInv(transports, maxInflight);
    RunInv(Init(transports, maxInflight), steps);
  }

  /** The record of stored results is never rewritten: a step keeps it or appends to it. */
  lemma {:induction false} StoredIsFinal(s: State, step: Step, t: Ticket)
    requires Inv(s) && Enabled(s, step) && t in s.published
    ensures t in Apply(s, step).published && s.published[t] <= Apply(s, step).published[t]
  {
    hide Cyclic, HistoriesOk, Bounded, SocketsOk, NoOrphans, WriteLocked;
    hide MapsOk, InMapOk, HoldersOk, OwnersOk, ApplyCall, ApplyReader;
    if step.ByCall? { StoredOfCallStep(s, step.r, step.call, t); }
    if step.ByReaderThread? { StoredOfReaderStep(s, step.g, step.reader, t); }
  }

  lemma {:induction false} StoredOfCallStep(s: State, r: nat, step: CallStep, t: Ticket)
    requires IsAt(s, r) && CallEnabled(s, r, step) && PublishedOk(s) && StageOk(s, r) && t in s.published
    ensures t in ApplyCall(s, r, step).published && s.published[t] <= ApplyCall(s, r, step).published[t]
  {
    hide Cyclic, NextCaller, TicketsIn;
  }

  lemma {:induction false} StoredOfReaderStep(s: State, g: nat, step: ReaderStep, t: Ticket)
    requires ReaderAt(s, g) && ReaderEnabled(s, g, step) && t in s.published
    ensures t in ApplyReader(s, g, step).published && s.published[t] <= ApplyReader(s, g, step).published[t]
  {
    hide TicketsIn;
  }

  lemma {:induction false} FinishedStays(s: State, steps: seq<Step>, r: nat)
    requires Inv(s) && ValidRun(s, steps) && r in s.calls && s.calls[r].pc.Finished?
    ensures Inv(Exec(s, steps)) && r in Exec(s, steps).calls && Exec(s, steps).calls[r] == s.calls[r]
    decreases |steps|
  {
    hide Inv, Enabled, Apply, CallsRouted;
    if steps != [] {
      InvParts(s);
      assert CallsRouted(s) by { TicketsParts(s); }
      FinishedStaysStep(s, steps[0], r);
      StepInv(s, steps[0]);
      FinishedStays(Apply(s, steps[0]), steps[1..], r);
    }
  }

  lemma {:induction false} FinishedStaysStep(s: State, step: Step, r: nat)
    requires CallsRouted(s) && Enabled(s, step) && r in s.calls && s.calls[r].pc.Finished?
    ensures r in Apply(s, step).calls && Apply(s, step).calls[r] == s.calls[r]
  {
    hide Cyclic, ApplyCall, NextCaller, ApplyReader;
    if step.ByCall? { CallFrame(s, step.r, step.call); }
    if step.ByReaderThread? { ReaderFrame(s, step.g, step.reader); }
  }

  /** A call that returned DeadlineExceeded is never completed afterwards: in every continuation of
      the run no result is stored for it, no map holds it and no thread is about to complete it. */
  lemma {:induction false} DeadlineIsFinal(s: State, steps: seq<Step>, r: nat)
    requires Inv(s) && ValidRun(s, steps) && r in s.calls && s.calls[r].pc == Finished(Failure(MaybeSent, true))
    ensures
      var s' := Exec(s, steps);
      var t := TicketOf(s, r);
      && t in s'.published && s'.published[t] == []
      && (forall x :: 0 <= x < |s'.transports| ==> r !in s'.transports[x].pending)
      && (forall g :: g in s'.readers && s'.readers[g].pc.Holding? ==> s'.readers[g].pc.ticket != t)
      && (forall g :: g in s'.readers && s'.readers[g].pc.ReaderSweeping? ==> t !in s'.readers[g].pc.rest)
      && (forall q :: q in s'.calls && s'.calls[q].pc.Sweeping? ==> t !in s'.calls[q].pc.rest)
  {
    hide Cyclic, Exec, ValidRun, Tickets, HistoriesOk, Bounded, SocketsOk, NoOrphans, WriteLocked;
    FinishedStays(s, steps, r);
    WithdrawnIsNowhere(Exec(s, steps), r);
  }

  lemma {:induction false} WithdrawnIsNowhere(s: State, r: nat)
    requires Tickets(s) && r in s.calls && s.calls[r].pc == Finished(Failure(MaybeSent, true))
    ensures
      var t := TicketOf(s, r);
      && t in s.published && s.published[t] == []
      && (forall x :: 0 <= x < |s.transports| ==> r !in s.transports[x].pending)
      && (forall g :: g in s.readers && s.readers[g].pc.Holding? ==> s.readers[g].pc.ticket != t)
      && (forall g :: g in s.readers && s.readers[g].pc.ReaderSweeping? ==> t !in s.readers[g].pc.rest)
      && (forall q :: q in s.calls && s.calls[q].pc.Sweeping? ==> t !in s.calls[q].pc.rest)
  {
    hide Cyclic, OwnersOk, InMapOk;
    assert StageOk(s, r);
  }

  /** In every run a call's request is handed to `send` at most once, so it reaches at most one
      endpoint: only by the last attempt, and exactly when the outcome is not "not sent".  A response
      returned to a caller is the response to that caller's request.  Giving up unsent happens only
      after every endpoint of the snapshot has been tried. */
  lemma {:induction false} SentAtMostOnce(transports: nat, maxInflight: nat, steps: seq<Step>, r: nat)
    requires ValidRun(Init(transports, maxInflight), steps)
    requires r in Exec(Init(transports, maxInflight), steps).calls
    ensures
      var c := Exec(Init(transports, maxInflight), steps).calls[r];
      && (c.sends == [] || c.sends == [c.attempt])
      && c.attempt <= |c.outcomes| <= |c.route|
      && (forall i :: 0 <= i < c.attempt ==> Unsent(c.outcomes[i]))
      && (!c.hasDeadline ==> forall i :: 0 <= i < |c.outcomes| ==> !TimedOut(c.outcomes[i]))
      && (c.pc.Finished? ==>
            && |c.outcomes| == c.attempt + 1 && c.outcomes[c.attempt] == c.pc.outcome
            && (c.sends == [] <==> Unsent(c.pc.outcome))
            && (c.pc.outcome.Response? ==> c.pc.outcome.id == r)
            && (c.sends == [] ==> |c.outcomes| == |c.route|))
  {
    hide Cyclic, Exec, ValidRun, Init;
    InitInv(transports, maxInflight);
    RunInv(Init(transports, maxInflight), steps);
    var s := Exec(Init(transports, maxInflight), steps);
    assert HistoryOk(r, s.calls[r]);
    assert Routed(s, s.calls[r]);
  }

  /** In every run a call's attempts start at its start position, never return to a position they have
      tried and go round the snapshot in order; the current attempt is at the last of them. */
  lemma {:induction false} AttemptsVisitDistinctEndpoints(transports: nat, maxInflight: nat, steps: seq<Step>, r: nat)
    requires ValidRun(Init(transports, maxInflight), steps)
    requires r in Exec(Init(transports, maxInflight), steps).calls
    ensures
      var s := Exec(Init(transports, maxInflight), steps);
      var c := s.calls[r];
      var n := |c.route|;
      && 0 < |c.visited| == c.attempt + 1 <= n && c.visited[0] == c.start % n
      && (forall i :: 0 <= i < |c.visited| ==> c.visited[i] < n)
      && (forall j, k :: 0 <= j < k < |c.visited| ==> c.visited[j] != c.visited[k])
      && (forall k :: 0 < k < |c.visited| ==>
            c.visited[k] == if c.visited[k - 1] + 1 == n then 0 else c.visited[k - 1] + 1)
      && IsAt(s, r) && X(s, r) == c.route[c.visited[c.attempt]]
  {
    InitInv(transports, maxInflight);
    RunInv(Init(transports, maxInflight), steps);
    hide Exec, ValidRun, Init;
    var s := Exec(Init(transports, maxInflight), steps);
    var c := s.calls[r];
    assert HistoryOk(r, c) && Routed(s, c);
    CircularWalk(c.start, |c.route|, c.visited);
  }

  lemma {:induction false} CircularWalk(start: nat, n: nat, visited: seq<nat>)
    requires 0 < n && 0 < |visited| <= n && forall i :: 0 <= i < |visited| ==> visited[i] == Cyclic(start, n, i)
    ensures visited[0] == start % n
    ensures forall j, k :: 0 <= j < k < |visited| ==> visited[j] != visited[k]
    ensures forall k :: 0 < k < |visited| ==> visited[k] == if visited[k - 1] + 1 == n then 0 else visited[k - 1] + 1
  {
    forall j, k | 0 <= j < k < |visited| ensures visited[j] != visited[k] {
      if visited[j] == visited[k] { CyclicDistinct(start, n, j, k); }
    }
    forall k | 0 < k < |visited| ensures visited[k] == if visited[k - 1] + 1 == n then 0 else visited[k - 1] + 1 {
      CyclicNext(start, n, k - 1);
    }
  }

  /** At most one call at a time is between taking and releasing a transport's write mutex, so at
      most one frame is being written to its connection. */
  lemma {:induction false} FramesDoNotInterleave(s: State, q: nat, r: nat)
    requires Inv(s) && IsAt(s, q) && IsAt(s, r) && X(s, q) == X(s, r)
    requires Writing(Pc(s, q)) && Writing(Pc(s, r))
    ensures q == r
  {
    hide Cyclic, Tickets, HistoriesOk, Bounded, SocketsOk, NoOrphans;
    assert Some(q) == s.transports[X(s, q)].writeLock == Some(r);
  }

  /** The step by which the owner of ticket `t` stores its result. */
  function PublishStep(s: State, t: Ticket): Step
    requires t in s.owner && (s.owner[t].ByCaller? || s.owner[t].ByReader?)
  {
    match s.owner[t]
    case ByCaller(r) => ByCall(r, SweepOne(t))
    case ByReader(g) =>
      ByReaderThread(g, if g in s.readers && s.readers[g].pc.Holding? then ReaderPublish else ReaderSweepOne(t))
  }

  /** What that is: the response if its reader has decoded one, otherwise the failure of a sweep. */
  function ResultOf(s: State, t: Ticket): Outcome
    requires t in s.owner
  {
    match s.owner[t]
    case ByReader(g) =>
      if g in s.readers && s.readers[g].pc.Holding? then Response(t.call) else Failure(MaybeSent, false)
    case _ => Failure(MaybeSent, false)
  }

  /** A ticket taken out of the map is one enabled step of its owner away from completion. */
  lemma {:induction false} OwnerPublishes(s: State, t: Ticket)
    requires Tickets(s) && t in s.owner && (s.owner[t].ByCaller? || s.owner[t].ByReader?)
    ensures Enabled(s, PublishStep(s, t)) && HasResult(Apply(s, PublishStep(s, t)), t)
    ensures Apply(s, PublishStep(s, t)).published == s.published[t := [ResultOf(s, t)]]
  {
    hide Cyclic, MapsOk, InMapOk, StagesOk, HoldersOk;
    assert OwnerOk(s, t);
    assert s.published[t] == [] && [] + [ResultOf(s, t)] == [ResultOf(s, t)];
    match s.owner[t]
    case ByCaller(r) => assert Routed(s, s.calls[r]);
    case ByReader(g) =>
  }

  /** After losing the race for the map, the deadline path's second wait always ends: a result is
      there, or the winner is one enabled step away from storing it. */
  lemma {:induction false} FinalWaitIsServed(s: State, r: nat)
    requires Inv(s) && IsAt(s, r) && Pc(s, r).FinalWait?
    ensures
      var t := TicketOf(s, r);
      || Enabled(s, ByCall(r, FinalReturn))
      || (&& t in s.owner && (s.owner[t].ByCaller? || s.owner[t].ByReader?)
          && Enabled(s, PublishStep(s, t))
          && Apply(s, PublishStep(s, t)).published == s.published[t := [ResultOf(s, t)]])
  {
    hide Cyclic, HistoriesOk, Bounded, SocketsOk, NoOrphans, WriteLocked;
    var t := TicketOf(s, r);
    assert StageOk(s, r);
    if !s.owner[t].Published? { OwnerPublishes(s, t); }
  }

  /** No waiter is orphaned: if the connection a waiting call sent on is no longer the transport's,
      then threads other than its own can complete it without any further input. */
  lemma {:induction false} LostConnectionCompletes(s: State, r: nat) returns (steps: seq<Step>)
    requires Inv(s) && IsAt(s, r) && Pc(s, r).Waiting? && s.transports[X(s, r)].socket != Some(Pc(s, r).g)
    ensures ValidRun(s, steps) && HasResult(Exec(s, steps), TicketOf(s, r)) && |steps| <= 2
    ensures forall i :: 0 <= i < |steps| ==> steps[i].ByReaderThread? || (steps[i].ByCall? && steps[i].r != r)
  {
    hide Cyclic, HistoriesOk, Bounded, SocketsOk, WriteLocked, ApplyCall, ApplyReader;
    var t := TicketOf(s, r);
    assert StageOk(s, r);
    if s.owner[t].Published? {
      return [];
    }
    if s.owner[t].InMap? {
      assert Attended(s, r);
      steps := SweepThenPublish(s, r);
    } else {
      var publish := PublisherStep(s, r);
      steps := [publish];
    }
  }

  lemma {:induction false} SweepThenPublish(s: State, r: nat) returns (steps: seq<Step>)
    requires Tickets(s) && IsAt(s, r) && Pc(s, r).Waiting? && SweepComing(s, X(s, r))
    requires TicketOf(s, r) in s.owner && s.owner[TicketOf(s, r)].InMap?
    ensures |steps| == 2 && ValidRun(s, steps) && HasResult(Exec(s, steps), TicketOf(s, r))
    ensures forall i :: 0 <= i < |steps| ==> steps[i].ByReaderThread? || (steps[i].ByCall? && steps[i].r != r)
  {
    hide Cyclic, Tickets, Enabled, Apply, SweepComing;
    var sweep := SweepStep(s, r);
    TicketsStep(s, sweep);
    var publish := PublisherStep(Apply(s, sweep), r);
    steps := [sweep] + [publish];
    assert steps[1..] == [publish];
  }

  lemma {:induction false} PublisherStep(s: State, r: nat) returns (step: Step)
    requires Tickets(s) && r in s.calls && s.calls[r].pc.Waiting?
    requires TicketOf(s, r) in s.owner && (s.owner[TicketOf(s, r)].ByCaller? || s.owner[TicketOf(s, r)].ByReader?)
    ensures step.ByReaderThread? || (step.ByCall? && step.r != r)
    ensures ValidRun(s, [step]) && HasResult(Exec(s, [step]), TicketOf(s, r))
  {
    hide Cyclic, ApplyCall, ApplyReader, Tickets;
    var t := TicketOf(s, r);
    step := PublishStep(s, t);
    OwnerPublishes(s, t);
    PublisherIsAnother(s, r);
    assert [step][1..] == [];
  }

  lemma {:induction false} PublisherIsAnother(s: State, r: nat)
    requires Tickets(s) && r in s.calls && !s.calls[r].pc.Sweeping?
    requires TicketOf(s, r) in s.owner && (s.owner[TicketOf(s, r)].ByCaller? || s.owner[TicketOf(s, r)].ByReader?)
    ensures var step := PublishStep(s, TicketOf(s, r)); step.ByReaderThread? || (step.ByCall? && step.r != r)
  {
    hide Cyclic, MapsOk, InMapOk, StagesOk, HoldersOk;
    assert OwnerOk(s, TicketOf(s, r));
  }

  /** The coming sweep takes the waiter's ticket. */
  lemma {:induction false} SweepStep(s: State, r: nat) returns (step: Step)
    requires Tickets(s) && IsAt(s, r) && Pc(s, r).Waiting? && SweepComing(s, X(s, r))
    requires TicketOf(s, r) in s.owner && s.owner[TicketOf(s, r)].InMap?
    ensures Enabled(s, step) && (step.ByReaderThread? || (step.ByCall? && step.r != r))
    ensures SweptFor(Apply(s, step), s, r)
  {
    hide Cyclic, PublishedOk, HoldersOk, OwnersOk, StagesOk, SweptFor, Apply;
    var x := X(s, r);
    assert TicketOf(s, r) in TicketsIn(s.transports[x].pending);
    if q: nat :| CallWillSweep(s, q, x) {
      step := ByCall(q, Sweep);
      CallSweepTakes(s, q, r);
    } else {
      var g: nat :| ReaderWillSweep(s, g, x);
      step := ByReaderThread(g, ReaderSweep);
      ReaderSweepTakes(s, g, r);
    }
  }

  /** `s'` is `s` after a sweep that took the ticket of call `r`. */
  ghost predicate SweptFor(s': State, s: State, r: nat)
    requires r in s.calls
  {
    var t := TicketOf(s, r);
    && r in s'.calls && s'.calls[r] == s.calls[r]
    && t in s'.owner && (s'.owner[t].ByCaller? || s'.owner[t].ByReader?)
  }

  lemma {:induction false} CallSweepTakes(s: State, q: nat, r: nat)
    requires IsAt(s, r) && IsAt(s, q) && CallEnabled(s, q, Sweep) && q != r && X(s, q) == X(s, r)
    requires TicketOf(s, r) in TicketsIn(s.transports[X(s, r)].pending)
    ensures SweptFor(Apply(s, ByCall(q, Sweep)), s, r)
  {
    hide Cyclic, TicketsIn;
  }

  lemma {:induction false} ReaderSweepTakes(s: State, g: nat, r: nat)
    requires IsAt(s, r) && ReaderAt(s, g) && ReaderEnabled(s, g, ReaderSweep) && s.readers[g].x == X(s, r)
    requires TicketOf(s, r) in TicketsIn(s.transports[X(s, r)].pending)
    ensures SweptFor(Apply(s, ByReaderThread(g, ReaderSweep)), s, r)
  {
    hide Cyclic, TicketsIn;
  }

  /** A call is turned away only for a reason: by a map that is exactly full, by the lack of a connection, or
      by a deadline it has. */
  lemma {:induction false} RefusalsHaveReasons(s: State, r: nat, step: CallStep)
    requires Inv(s) && IsAt(s, r) && CallEnabled(s, r, step)
    ensures step.RegisterFull? ==> |s.transports[X(s, r)].pending| == s.maxInflight
    ensures step.ConnectFail? || step.FdMissing? ==> s.transports[X(s, r)].socket.None?
    ensures step.Expired? || step.WriteExpired? || step.WaitExpire? ==> s.calls[r].hasDeadline
    ensures step.WaitExpire? ==> !HasResult(s, TicketOf(s, r))
  {
    hide Cyclic, Tickets, HistoriesOk, SocketsOk, NoOrphans, WriteLocked;
  }

  // ----- Responses reach their callers

  /** An entry of a map is the current attempt of its call, and nothing is stored for it yet. */
  lemma {:induction false} EntryIsCurrent(s: State, r: nat, x: nat)
    requires Inv(s) && x < |s.transports| && r in s.transports[x].pending
    ensures r in s.calls && s.transports[x].pending[r] == s.calls[r].attempt
    ensures TicketOf(s, r) in s.published && s.published[TicketOf(s, r)] == []
  {
    hide Cyclic, HistoriesOk, Bounded, SocketsOk, NoOrphans, WriteLocked, HoldersOk, OwnersOk, InMapOk, StagesOk;
  }

  /** A decoded response to a registered request becomes the stored result of exactly that request. */
  lemma {:induction false} DecodedResponseIsStored(s: State, g: nat, r: nat) returns (s': State)
    requires Inv(s) && ReaderAt(s, g) && s.readers[g].pc.Reading? && r in s.transports[s.readers[g].x].pending
    ensures
      var decode, publish := ByReaderThread(g, ReaderDecode(r)), ByReaderThread(g, ReaderPublish);
      && Enabled(s, decode) && Enabled(Apply(s, decode), publish) && s' == Apply(Apply(s, decode), publish)
    ensures
      var t := s.transports[s.readers[g].x];
      && s'.calls == s.calls && s'.readers == s.readers
      && s'.published == s.published[Ticket(r, t.pending[r]) := [Response(r)]]
      && s'.transports == s.transports[s.readers[g].x := t.(pending := t.pending - {r})]
  {
    EntryIsCurrent(s, r, s.readers[g].x);
    hide Inv;
    var s1 := DecodeTakes(s, g, r);
    s' := PublishStores(s1, g);
    assert [] + [Response(r)] == [Response(r)];
    hide Apply, Enabled;
  }

  lemma {:induction false} DecodeTakes(s: State, g: nat, r: nat) returns (s': State)
    requires ReaderAt(s, g) && s.readers[g].pc.Reading? && r in s.transports[s.readers[g].x].pending
    ensures Enabled(s, ByReaderThread(g, ReaderDecode(r))) && s' == Apply(s, ByReaderThread(g, ReaderDecode(r)))
    ensures
      var x := s.readers[g].x;
      var t := s.transports[x];
      && s'.calls == s.calls && s'.published == s.published
      && s'.readers == s.readers[g := Reader(x, Holding(Ticket(r, t.pending[r]), r))]
      && s'.transports == s.transports[x := t.(pending := t.pending - {r})]
  {
    s' := Apply(s, ByReaderThread(g, ReaderDecode(r)));
  }

  lemma {:induction false} PublishStores(s: State, g: nat) returns (s': State)
    requires ReaderAt(s, g) && s.readers[g].pc.Holding? && s.readers[g].pc.ticket in s.published
    ensures Enabled(s, ByReaderThread(g, ReaderPublish)) && s' == Apply(s, ByReaderThread(g, ReaderPublish))
    ensures
      var pc := s.readers[g].pc;
      && s'.calls == s.calls && s'.transports == s.transports
      && s'.published == s.published[pc.ticket := s.published[pc.ticket] + [Response(pc.id)]]
      && s'.readers == s.readers[g := Reader(s.readers[g].x, Reading)]
  {
    s' := Apply(s, ByReaderThread(g, ReaderPublish));
  }

  /** A response nobody waits for changes nothing. */
  lemma {:induction false} StrayResponseIsDropped(s: State, g: nat, id: nat)
    requires ReaderAt(s, g) && s.readers[g].pc.Reading? && id !in s.transports[s.readers[g].x].pending
    ensures Enabled(s, ByReaderThread(g, ReaderDecode(id))) && Apply(s, ByReaderThread(g, ReaderDecode(id))) == s
  {
  }

  /** The response to a waiting call ends it with exactly this response. */
  lemma {:induction false} ResponseReachesCaller(s: State, g: nat, r: nat) returns (steps: seq<Step>)
    requires Inv(s) && IsAt(s, r) && Pc(s, r).Waiting? && ReaderAt(s, g) && s.readers[g].x == X(s, r)
    requires s.readers[g].pc.Reading? && r in s.transports[X(s, r)].pending
    ensures steps == [ByReaderThread(g, ReaderDecode(r)), ByReaderThread(g, ReaderPublish), ByCall(r, WaitReturn)]
    ensures ValidRun(s, steps) && r in Exec(s, steps).calls && Exec(s, steps).calls[r].pc == Finished(Response(r))
  {
    hide Inv, Apply, Enabled, Cyclic, ValidRun, Exec;
    EntryIsCurrent(s, r, X(s, r));
    var s2 := DecodedResponseIsStored(s, g, r);
    WaitReturns(s2, r);
    hide IsAt, X, Pc, TicketOf;
    var decode, publish := ByReaderThread(g, ReaderDecode(r)), ByReaderThread(g, ReaderPublish);
    steps := Stay(Apply(s2, ByCall(r, WaitReturn)));
    steps := Chain(s2, ByCall(r, WaitReturn), steps);
    steps := Chain(Apply(s, decode), publish, steps);
    steps := Chain(s, decode, steps);
  }

  lemma {:induction false} Stay(s: State) returns (steps: seq<Step>)
    ensures steps == [] && ValidRun(s, steps) && Exec(s, steps) == s
  {
    steps := [];
  }

  lemma {:induction false} Chain(s: State, step: Step, rest: seq<Step>) returns (steps: seq<Step>)
    requires Enabled(s, step) && ValidRun(Apply(s, step), rest)
    ensures steps == [step] + rest && ValidRun(s, steps) && Exec(s, steps) == Exec(Apply(s, step), rest)
  {
    steps := [step] + rest;
    assert steps[1..] == rest;
  }

  lemma {:induction false} WaitReturns(s: State, r: nat)
    requires IsAt(s, r) && Pc(s, r).Waiting? && TicketOf(s, r) in s.published
    requires s.published[TicketOf(s, r)] == [Response(r)]
    ensures Enabled(s, ByCall(r, WaitReturn))
    ensures r in Apply(s, ByCall(r, WaitReturn)).calls
    ensures Apply(s, ByCall(r, WaitReturn)).calls[r].pc == Finished(Response(r))
  {
    hide Cyclic;
  }

  // ----- A call can succeed

  function Stage(pc: Caller): nat {
    match pc
    case Encoding => 20
    case CheckingDeadline => 19
    case Connecting => 18
    case Registering => 17
    case AcquiringWrite => 16
    case WriteDeadline => 15
    case ReadingFd => 14
    case SettingTimeout(_) => 13
    case AboutToSend(_) => 12
    case InSend(_) => 11
    case Waiting(_) => 10
    case Withdrawing(_) => 9
    case SendFailed => 8
    case ClosingSocket => 7
    case ToSweep => 6
    case Sweeping(_) => 5
    case DeadlinePassed(_) => 4
    case FinalWait => 3
    case Finished(_) => 0
  }

  /** The transport is connected and its reader reads. */
  predicate Connected(s: State, x: nat)
    requires x < |s.transports|
  {
    && s.transports[x].socket.Some? && s.transports[x].socket.value in s.readers
    && s.readers[s.transports[x].socket.value] == Reader(x, Reading)
  }

  /** The call meets no obstacle: room in the map until it has registered, the write mutex free until it
      has taken it, and a connection that is or can be established. */
  predicate OnGoodPath(s: State, r: nat)
    requires IsAt(s, r)
  {
    var x := X(s, r);
    var pc := Pc(s, r);
    && 10 <= Stage(pc)
    && (16 <= Stage(pc) ==> s.transports[x].writeLock.None?)
    && (if 17 <= Stage(pc) then |s.transports[x].pending| < s.maxInflight else r in s.transports[x].pending)
    && (if 18 <= Stage(pc) then s.transports[x].socket.None? || Connected(s, x) else Connected(s, x))
    && (HasFd(pc) ==> s.transports[x].socket == Some(pc.g))
  }

  function GoodStep(s: State, r: nat): CallStep
    requires IsAt(s, r)
  {
    match Pc(s, r)
    case Encoding => EncodeOk
    case CheckingDeadline => NotExpired
    case Connecting => if s.transports[X(s, r)].socket.Some? then ConnectReuse else ConnectNew
    case Registering => Register
    case AcquiringWrite => LockWrite
    case WriteDeadline => WriteNotExpired
    case ReadingFd => FdFound
    case SettingTimeout(_) => TimeoutOk
    case AboutToSend(_) => SendBegin
    case _ => SendOk
  }

  /** The next step is enabled, stays on the good path and brings the send nearer. */
  ghost predicate GoodMove(s: State, r: nat)
    requires IsAt(s, r)
  {
    var step := GoodStep(s, r);
    && CallEnabled(s, r, step)
    && var s' := ApplyCall(s, r, step);
       IsAt(s', r) && OnGoodPath(s', r) && Stage(Pc(s', r)) < Stage(Pc(s, r))
  }

  lemma {:induction false} GoodStepStaysGood(s: State, r: nat)
    requires IsAt(s, r) && OnGoodPath(s, r) && !Pc(s, r).Waiting?
    ensures GoodMove(s, r)
  {
    assert 10 < Stage(Pc(s, r));
    hide Cyclic, OnGoodPath, GoodMove;
    match Stage(Pc(s, r))
    case 18 => GoodConnect(s, r);
    case 17 => GoodRegister(s, r);
    case 16 => GoodLock(s, r);
    case 11 => GoodSend(s, r);
    case _ => GoodOther(s, r);
  }

  lemma {:induction false} GoodConnect(s: State, r: nat)
    requires IsAt(s, r) && OnGoodPath(s, r) && Pc(s, r).Connecting?
    ensures GoodMove(s, r)
  {
    hide Cyclic, TicketsIn;
  }

  lemma {:induction false} GoodRegister(s: State, r: nat)
    requires IsAt(s, r) && OnGoodPath(s, r) && Pc(s, r).Registering?
    ensures GoodMove(s, r)
  {
    hide Cyclic, TicketsIn;
  }

  lemma {:induction false} GoodLock(s: State, r: nat)
    requires IsAt(s, r) && OnGoodPath(s, r) && Pc(s, r).AcquiringWrite?
    ensures GoodMove(s, r)
  {
    hide Cyclic, TicketsIn;
  }

  lemma {:induction false} GoodSend(s: State, r: nat)
    requires IsAt(s, r) && OnGoodPath(s, r) && Pc(s, r).InSend?
    ensures GoodMove(s, r)
  {
    hide Cyclic, TicketsIn;
  }

  lemma {:induction false} GoodOther(s: State, r: nat)
    requires IsAt(s, r) && OnGoodPath(s, r) && (18 < Stage(Pc(s, r)) || 11 < Stage(Pc(s, r)) < 16)
    ensures GoodMove(s, r)
  {
    hide Cyclic, TicketsIn;
  }

  lemma {:induction false} GoodWaiter(s: State, r: nat) returns (g: nat)
    requires IsAt(s, r) && OnGoodPath(s, r) && Pc(s, r).Waiting?
    ensures ReaderAt(s, g) && s.readers[g] == Reader(X(s, r), Reading) && r in s.transports[X(s, r)].pending
  {
    g := s.transports[X(s, r)].socket.value;
  }

  /** Whatever else is going on, a call that meets no obstacle can be answered: its own steps, its
      reader's and one response end it with that response. */
  lemma {:induction false} CallSucceeds(s: State, r: nat) returns (steps: seq<Step>)
    requires Inv(s) && IsAt(s, r) && OnGoodPath(s, r)
    ensures ValidRun(s, steps) && r in Exec(s, steps).calls && Exec(s, steps).calls[r].pc == Finished(Response(r))
    ensures forall i :: 0 <= i < |steps| ==> steps[i].ByReaderThread? || (steps[i].ByCall? && steps[i].r == r)
    decreases Stage(Pc(s, r))
  {
    hide Inv, OnGoodPath, GoodStep, ApplyCall, CallEnabled, Stage, Cyclic, ValidRun, Exec;
    if Pc(s, r).Waiting? {
      var g := GoodWaiter(s, r);
      steps := ResponseReachesCaller(s, g, r);
    } else {
      GoodStepStaysGood(s, r);
      var step := ByCall(r, GoodStep(s, r));
      StepInv(s, step);
      var rest := CallSucceeds(Apply(s, step), r);
      steps := Chain(s, step, rest);
    }
  }

  // ----- No call is ever stuck

  function RestSize(pc: Caller): nat {
    if pc.Sweeping? then |pc.rest| else 0
  }

  /** Nothing but another thread's step can end these waits. */
  predicate MustWait(s: State, r: nat)
    requires IsAt(s, r)
  {
    || (Pc(s, r).AcquiringWrite? && s.transports[X(s, r)].writeLock.Some?)
    || ((Pc(s, r).Waiting? || Pc(s, r).FinalWait?) && !HasResult(s, TicketOf(s, r)))
  }

  /** The call's next step when it does not have to wait. */
  ghost function OwnStep(s: State, r: nat): CallStep
    requires IsAt(s, r)
  {
    match Pc(s, r)
    case Encoding => EncodeOk
    case CheckingDeadline => NotExpired
    case Connecting => if s.transports[X(s, r)].socket.Some? then ConnectReuse else ConnectNew
    case Registering => if |s.transports[X(s, r)].pending| < s.maxInflight then Register else RegisterFull
    case AcquiringWrite => LockWrite
    case WriteDeadline => WriteNotExpired
    case ReadingFd => if s.transports[X(s, r)].socket.Some? then FdFound else FdMissing
    case SettingTimeout(_) => TimeoutOk
    case AboutToSend(_) => SendBegin
    case InSend(_) => SendOk
    case SendFailed => UnregisterAfterSend
    case ClosingSocket => CloseSocket
    case ToSweep => Sweep
    case Sweeping(rest) => if rest == {} then SweepEnd else SweepOne(AnyOf(rest))
    case Withdrawing(_) => Withdraw
    case Waiting(_) => WaitReturn
    case DeadlinePassed(_) => DeadlineUnregister
    case _ => FinalReturn
  }

  ghost function AnyOf(rest: set<Ticket>): Ticket
    requires rest != {}
  {
    var t :| t in rest; t
  }

  /** The call has come nearer to its end: a later attempt, or further within this one. */
  predicate Nearer(c: Call, c': Call) {
    && c'.route == c.route
    && (|| c.attempt < c'.attempt < |c.route|
        || (c'.attempt == c.attempt && Stage(c'.pc) < Stage(c.pc))
        || (c'.attempt == c.attempt && Stage(c'.pc) == Stage(c.pc) && RestSize(c'.pc) < RestSize(c.pc)))
  }

  lemma {:induction false} SweepHasTicket(s: State, r: nat)
    requires Inv(s) && IsAt(s, r) && Pc(s, r).Sweeping? && Pc(s, r).rest != {}
    ensures AnyOf(Pc(s, r).rest) in Pc(s, r).rest && AnyOf(Pc(s, r).rest) in s.published
  {
    hide Cyclic, HistoriesOk, Bounded, SocketsOk, NoOrphans, WriteLocked, OwnersOk, InMapOk, StagesOk, MapsOk;
  }

  lemma {:induction false} OwnStepEnabled(s: State, r: nat)
    requires IsAt(s, r) && !Pc(s, r).Finished? && !MustWait(s, r)
    requires Pc(s, r).Sweeping? && Pc(s, r).rest != {} ==>
               AnyOf(Pc(s, r).rest) in Pc(s, r).rest && AnyOf(Pc(s, r).rest) in s.published
    ensures CallEnabled(s, r, OwnStep(s, r))
  {
    hide Cyclic, AnyOf, TicketsIn;
  }

  lemma {:induction false} OwnStepAdvances(s: State, r: nat)
    requires IsAt(s, r) && CallEnabled(s, r, OwnStep(s, r)) && s.calls[r].attempt < |s.calls[r].route|
    ensures Nearer(s.calls[r], NextCaller(s, r, OwnStep(s, r)))
  {
    var step := OwnStep(s, r);
    if Ends(step) || step.DeadlineUnregister? { OwnEndAdvances(s, r); } else { OwnMoveAdvances(s, r); }
  }

  lemma {:induction false} OwnEndAdvances(s: State, r: nat)
    requires IsAt(s, r) && CallEnabled(s, r, OwnStep(s, r)) && s.calls[r].attempt < |s.calls[r].route|
    requires Ends(OwnStep(s, r)) || OwnStep(s, r).DeadlineUnregister?
    ensures Nearer(s.calls[r], NextCaller(s, r, OwnStep(s, r)))
  {
    hide Cyclic, AnyOf, TicketsIn, Ended, Nearer;
    var c := s.calls[r];
    EndedIsNearer(c, Failure(NotSent, false));
    EndedIsNearer(c, Failure(NotSent, true));
    EndedIsNearer(c, Failure(MaybeSent, false));
    EndedIsNearer(c, Failure(MaybeSent, true));
    if HasResult(s, TicketOf(s, r)) { EndedIsNearer(c, s.published[TicketOf(s, r)][0]); }
    if c.pc.DeadlinePassed? { assert Nearer(c, c.(pc := FinalWait)) by { MovedIsNearer(c, FinalWait); } }
  }

  lemma {:induction false} EndedIsNearer(c: Call, outcome: Outcome)
    requires c.attempt < |c.route| && !c.pc.Finished?
    ensures Nearer(c, Ended(c, outcome))
  {
    hide Cyclic;
  }

  lemma {:induction false} MovedIsNearer(c: Call, pc: Caller)
    requires Stage(pc) < Stage(c.pc)
    ensures Nearer(c, c.(pc := pc))
  {
  }

  lemma {:induction false} OwnMoveAdvances(s: State, r: nat)
    requires IsAt(s, r) && CallEnabled(s, r, OwnStep(s, r))
    requires !Ends(OwnStep(s, r)) && !OwnStep(s, r).DeadlineUnregister?
    ensures Nearer(s.calls[r], NextCaller(s, r, OwnStep(s, r)))
  {
    hide Cyclic, AnyOf, TicketsIn, Ended;
  }

  ghost predicate OthersKept(s: State, s': State, r: nat) {
    forall q :: q in s.calls && q != r ==> q in s'.calls && s'.calls[q] == s.calls[q]
  }

  /** A step of a call that does not have to wait. */
  lemma {:induction false} AdvanceStep(s: State, r: nat) returns (step: Step)
    requires Inv(s) && IsAt(s, r) && !Pc(s, r).Finished? && !MustWait(s, r)
    ensures step == ByCall(r, OwnStep(s, r)) && Enabled(s, step)
    ensures
      var s' := Apply(s, step);
      && Inv(s') && IsAt(s', r) && Nearer(s.calls[r], s'.calls[r])
      && OthersKept(s, s', r)
  {
    hide Inv, Cyclic, OwnStep, CallEnabled, ApplyCall, NextCaller, MustWait, Nearer;
    if Pc(s, r).Sweeping? && Pc(s, r).rest != {} { SweepHasTicket(s, r); }
    OwnStepEnabled(s, r);
    assert CallsRouted(s) by { InvParts(s); TicketsParts(s); }
    OwnStepAdvances(s, r);
    step := ByCall(r, OwnStep(s, r));
    CallFrame(s, r, OwnStep(s, r));
    StepInv(s, step);
    assert CallsRouted(Apply(s, step)) by { InvParts(Apply(s, step)); TicketsParts(Apply(s, step)); }
    assert Routed(Apply(s, step), Apply(s, step).calls[r]);
  }

  /** Where the holder of the write mutex is. */
  function HolderPc(s: State, x: nat): Caller
    requires x < |s.transports|
  {
    var lock := s.transports[x].writeLock;
    if lock.Some? && lock.value in s.calls then s.calls[lock.value].pc else Encoding
  }

  lemma {:induction false} HolderWrites(s: State, x: nat)
    requires Inv(s) && x < |s.transports| && s.transports[x].writeLock.Some?
    ensures HeldAt(s, s.transports[x].writeLock.value, x)
  {
    hide Tickets, HistoriesOk, Bounded, SocketsOk, NoOrphans;
  }

  lemma {:induction false} WriterNeverWaits(s: State, q: nat)
    requires IsAt(s, q) && Writing(Pc(s, q))
    ensures !MustWait(s, q) && !Pc(s, q).Finished?
  {
  }

  /** The holder releases the mutex or comes nearer to releasing it. */
  lemma {:induction false} HolderMoves(s: State, x: nat, q: nat)
    requires HeldAt(s, q, x) && s.transports[x].writeLock == Some(q) && CallEnabled(s, q, OwnStep(s, q))
    requires q in ApplyCall(s, q, OwnStep(s, q)).calls && Nearer(s.calls[q], ApplyCall(s, q, OwnStep(s, q)).calls[q])
    ensures
      var s' := ApplyCall(s, q, OwnStep(s, q));
      && x < |s'.transports|
      && (|| s'.transports[x].writeLock.None?
          || (&& s'.transports[x].writeLock == Some(q)
              && (|| Stage(HolderPc(s', x)) < Stage(HolderPc(s, x))
                  || (&& Stage(HolderPc(s', x)) == Stage(HolderPc(s, x))
                      && RestSize(HolderPc(s', x)) < RestSize(HolderPc(s, x))))))
  {
    hide Cyclic, OwnStep, CallEnabled, NextCaller, ApplyCall, Stage, RestSize;
    var step := OwnStep(s, q);
    CallFrame(s, q, step);
    WritingStays(s, q, step);
    if LockStep(step) {
      WriteLockMoves(s, q, step);
    } else {
      WriteLockKept(s, q, step);
      WritingKeepsAttempt(s, q, step);
    }
  }

  /** The write mutex is released by the steps of its holder. */
  lemma {:induction false} HolderUnlocks(s: State, x: nat) returns (steps: seq<Step>)
    requires Inv(s) && x < |s.transports| && s.transports[x].writeLock.Some?
    ensures ValidRun(s, steps) && Inv(Exec(s, steps))
    ensures
      var s' := Exec(s, steps);
      var q := s.transports[x].writeLock.value;
      && x < |s'.transports| && s'.transports[x].writeLock.None? && OthersKept(s, s', q)
      && (forall i :: 0 <= i < |steps| ==> steps[i].ByCall? && steps[i].r == q)
    decreases Stage(HolderPc(s, x)), RestSize(HolderPc(s, x))
  {
    hide Inv, Cyclic, ApplyCall, CallEnabled, NextCaller, OwnStep, Stage, RestSize, HolderPc, MustWait, Nearer, Writing;
    hide ValidRun, Exec;
    var q := s.transports[x].writeLock.value;
    HolderWrites(s, x);
    WriterNeverWaits(s, q);
    var step := AdvanceStep(s, q);
    HolderMoves(s, x, q);
    var s' := Apply(s, step);
    var rest;
    if s'.transports[x].writeLock.None? { rest := Stay(s'); } else { rest := HolderUnlocks(s', x); }
    steps := Chain(s, step, rest);
  }

  // ----- A wait for the result ends

  /** A step of another thread that leaves call `r` as it is. */
  ghost predicate LeavesAlone(s: State, s': State, r: nat) {
    r in s.calls && r in s'.calls && s'.calls[r] == s.calls[r] && Inv(s')
  }

  lemma {:induction false} OtherStepLeavesAlone(s: State, step: Step, r: nat)
    requires Inv(s) && Enabled(s, step) && r in s.calls && (step.ByReaderThread? || (step.ByCall? && step.r != r))
    ensures LeavesAlone(s, Apply(s, step), r)
  {
    hide Inv, Cyclic, ApplyCall, ApplyReader, CallEnabled, ReaderEnabled, NextCaller;
    StepInv(s, step);
    if step.ByCall? { CallFrame(s, step.r, step.call); } else { ReaderFrame(s, step.g, step.reader); }
  }

  /** Steps of other threads until a result is stored for the waiting call `r`. */
  ghost function ResultLeft(s: State, r: nat): nat
    requires IsAt(s, r)
  {
    var t := TicketOf(s, r);
    if HasResult(s, t) then 0
    else if t in s.owner && (s.owner[t].ByCaller? || s.owner[t].ByReader?) then 1
    else if SweepComing(s, X(s, r)) then 2
    else if Connected(s, X(s, r)) || ReaderBreaks(s, X(s, r)) then 3
    else 4
  }

  predicate ReaderBreaks(s: State, x: nat)
    requires x < |s.transports|
  {
    && s.transports[x].socket.Some? && s.transports[x].socket.value in s.readers
    && s.readers[s.transports[x].socket.value] == Reader(x, Breaking)
  }

  /** The waiting call's own reader makes progress when nothing else is about to complete it. */
  lemma {:induction false} ReaderGoesOn(s: State, r: nat) returns (step: Step)
    requires Inv(s) && IsAt(s, r) && Pc(s, r).Waiting? && 2 < ResultLeft(s, r)
    ensures Enabled(s, step) && step.ByReaderThread? && IsAt(Apply(s, step), r)
    ensures Apply(s, step).calls == s.calls && ResultLeft(Apply(s, step), r) < ResultLeft(s, r)
  {
    hide Inv, Cyclic, TicketsIn;
    var g := OpenReader(s, r);
    match s.readers[g].pc
    case Reading =>
      step := ByReaderThread(g, ReaderDecode(r));
      assert Apply(s, step).owner[TicketOf(s, r)].ByReader?;
    case Holding(ticket, _) =>
      step := ByReaderThread(g, ReaderPublish);
      assert Connected(Apply(s, step), X(s, r));
    case Breaking =>
      step := ByReaderThread(g, ReaderClose(true));
      assert ReaderWillSweep(Apply(s, step), g, X(s, r));
  }

  lemma {:induction false} OpenReader(s: State, r: nat) returns (g: nat)
    requires Inv(s) && IsAt(s, r) && Pc(s, r).Waiting? && 2 < ResultLeft(s, r)
    ensures s.transports[X(s, r)].socket == Some(g) && ReaderAt(s, g) && s.readers[g].x == X(s, r)
    ensures ReaderLives(s.readers[g].pc) && (s.readers[g].pc.Holding? ==> s.readers[g].pc.ticket in s.published)
    ensures
      var pending := s.transports[X(s, r)].pending;
      r in pending && pending[r] == s.calls[r].attempt
  {
    hide Cyclic, HistoriesOk, Bounded, WriteLocked, OwnersOk, SweepComing;
    assert StageOk(s, r) && Attended(s, r);
    g := s.transports[X(s, r)].socket.value;
  }

  lemma {:induction false} NextForResult(s: State, r: nat) returns (step: Step)
    requires Inv(s) && IsAt(s, r) && (Pc(s, r).Waiting? || Pc(s, r).FinalWait?) && !HasResult(s, TicketOf(s, r))
    ensures Enabled(s, step) && (step.ByReaderThread? || (step.ByCall? && step.r != r))
    ensures IsAt(Apply(s, step), r) ==> ResultLeft(Apply(s, step), r) < ResultLeft(s, r)
  {
    hide Inv, Tickets, Cyclic, Enabled, Apply, SweepComing, PublishStep;
    var t := TicketOf(s, r);
    WaiterIsOwned(s, r);
    if s.owner[t].ByCaller? || s.owner[t].ByReader? {
      step := PublishStep(s, t);
      OwnerPublishes(s, t);
      PublisherIsAnother(s, r);
      OtherStepLeavesAlone(s, step, r);
    } else if SweepComing(s, X(s, r)) {
      step := SweepStep(s, r);
    } else {
      step := ReaderGoesOn(s, r);
    }
  }

  lemma {:induction false} WaiterIsOwned(s: State, r: nat)
    requires Inv(s) && IsAt(s, r) && (Pc(s, r).Waiting? || Pc(s, r).FinalWait?) && !HasResult(s, TicketOf(s, r))
    ensures Tickets(s)
    ensures
      var t := TicketOf(s, r);
      && t in s.owner && !s.owner[t].Published? && !s.owner[t].Withdrawn?
      && (s.owner[t].InMap? ==> Pc(s, r).Waiting?)
  {
    hide Cyclic, HistoriesOk, Bounded, WriteLocked, OwnersOk, HoldersOk, MapsOk, InMapOk, NoOrphans, SocketsOk;
    assert StageOk(s, r);
  }

  /** A waiting call gets a result, even if it has no deadline: it is stored already, about to be stored
      by its owner or by a coming sweep, or the reader of its open connection can go on. */
  lemma {:induction false} ResultComes(s: State, r: nat) returns (steps: seq<Step>)
    requires Inv(s) && IsAt(s, r) && (Pc(s, r).Waiting? || Pc(s, r).FinalWait?)
    ensures ValidRun(s, steps) && LeavesAlone(s, Exec(s, steps), r) && HasResult(Exec(s, steps), TicketOf(s, r))
    ensures forall i :: 0 <= i < |steps| ==> steps[i].ByReaderThread? || (steps[i].ByCall? && steps[i].r != r)
    decreases ResultLeft(s, r)
  {
    hide Inv, Cyclic, Enabled, Apply, ValidRun, Exec, HasResult, ResultLeft;
    if HasResult(s, TicketOf(s, r)) {
      steps := Stay(s);
    } else {
      var step := NextForResult(s, r);
      OtherStepLeavesAlone(s, step, r);
      StaysAt(s, Apply(s, step), r);
      var rest := ResultComes(Apply(s, step), r);
      steps := Chain(s, step, rest);
    }
  }

  lemma {:induction false} StaysAt(s: State, s': State, r: nat)
    requires Inv(s) && IsAt(s, r) && LeavesAlone(s, s', r)
    ensures IsAt(s', r)
  {
    hide Cyclic, HistoriesOk, Bounded, WriteLocked, OwnersOk, HoldersOk, MapsOk, InMapOk, NoOrphans, SocketsOk;
    assert Routed(s', s'.calls[r]);
  }

  /** What the call waits for comes. */
  lemma {:induction false} WaitEnds(s: State, r: nat) returns (steps: seq<Step>)
    requires Inv(s) && IsAt(s, r) && !Pc(s, r).Finished?
    ensures ValidRun(s, steps) && LeavesAlone(s, Exec(s, steps), r)
    ensures IsAt(Exec(s, steps), r) && !MustWait(Exec(s, steps), r)
    ensures forall i :: 0 <= i < |steps| ==> !steps[i].NewCall?
  {
    hide Inv, Cyclic, ValidRun, Exec, HasResult, Writing;
    if !MustWait(s, r) {
      steps := Stay(s);
    } else if Pc(s, r).AcquiringWrite? {
      HolderWrites(s, X(s, r));
      assert !Writing(Pc(s, r)) by { AcquiringIsNotWriting(s, r); }
      steps := HolderUnlocks(s, X(s, r));
      StaysAt(s, Exec(s, steps), r);
    } else {
      steps := ResultComes(s, r);
      StaysAt(s, Exec(s, steps), r);
    }
  }

  lemma {:induction false} AcquiringIsNotWriting(s: State, r: nat)
    requires IsAt(s, r) && Pc(s, r).AcquiringWrite?
    ensures !Writing(Pc(s, r))
  {
  }

  /** From every reachable state, every call can be brought to its end, whatever the other calls and the
      readers are doing, with or without a deadline. */
  lemma {:induction false} CallFinishes(s: State, r: nat) returns (steps: seq<Step>)
    requires Inv(s) && IsAt(s, r)
    ensures ValidRun(s, steps) && (forall i :: 0 <= i < |steps| ==> !steps[i].NewCall?)
    ensures Inv(Exec(s, steps)) && r in Exec(s, steps).calls && Exec(s, steps).calls[r].pc.Finished?
    decreases |s.calls[r].route| - s.calls[r].attempt, Stage(s.calls[r].pc), RestSize(s.calls[r].pc)
  {
    hide Inv, Cyclic, Enabled, Apply, ValidRun, Exec, MustWait, Stage, RestSize, OwnStep;
    if Pc(s, r).Finished? {
      steps := Stay(s);
    } else {
      var wait := WaitEnds(s, r);
      var s1 := Exec(s, wait);
      var step := AdvanceStep(s1, r);
      var rest := CallFinishes(Apply(s1, step), r);
      rest := Chain(s1, step, rest);
      RunsJoin(s, wait, rest);
      steps := wait + rest;
    }
  }

  lemma {:induction false} RunsJoin(s: State, a: seq<Step>, b: seq<Step>)
    requires ValidRun(s, a) && ValidRun(Exec(s, a), b)
    ensures ValidRun(s, a + b) && Exec(s, a + b) == Exec(Exec(s, a), b)
    decreases |a|
  {
    hide Enabled, Apply;
    if a == [] {
      assert a + b == b;
    } else {
      assert (a + b)[1..] == a[1..] + b;
      RunsJoin(Apply(s, a[0]), a[1..], b);
    }
  }
}
