/**
 The worker pool: any number of callers share one child process through two
 lanes. The pool is a step system in which every mutex section and every channel
 operation is one step; callers, the reader, the writer, a failing process and
 the closer may interleave in any order, and the child may say anything.
 */
module Worker {
  import opened Scheduling
  import opened Wrappers

  type CallId = nat // a caller, and the lease it reserved
  type ProcessId = nat
  type RequestId = nat // the number a caller takes from the pool's sequence

  const WRITE_CAPACITY: nat := MAXIMUM_PENDING * 2

  datatype LaneName = Interactive | Normalization

  /** What travels through a caller's `completed` channel. */
  datatype Answer = Response(id: RequestId) | ProcessFailure

  /** The program counter of one `Call`. */
  datatype Stage =
    | Admitted // the lease is reserved
    | Numbered // the request has its number; waiting for the encoding slot
    | Encoding // holds the encoding slot
    | Framed // accepted by the lane, still holds the encoding slot
    | EncodeFailed // refused, still holds the encoding slot
    | Waiting // queued or started, waiting for `ready`
    | Granted // `wait` returned
    | Attached // has a process; the lease is handed off to `exchange`
    | Rejected // the process had failed; about to release
    | Registered // in `pending`, offering its frame to `writes`
    | Forgetting // about to take its entry back
    | Forgot // took its entry back; about to release
    | Sent // waiting on `completed`
    | Cancelling // about to send a cancel frame
    | Stalled // the write queue was full; about to fail the process
    | FailWait // inside `fail`
    | Leaving // about to run the deferred release
    | Returned

  datatype Call = Call(
    lane: LaneName,
    id: RequestId,
    stage: Stage,
    process: Option<ProcessId>,
    cancelled: bool,
    inbox: Option<Answer>, // the `completed` channel, capacity one
    sends: nat, // how often somebody sent on it
    received: Option<Answer>)

  datatype Failure = Alive | Failing(cleared: bool) | Failed

  datatype Reader =
    | Reading
    | Holding(id: RequestId, call: CallId) // removed the entry; about to release
    | Owing(id: RequestId, call: CallId) // released; about to send the response
    | ReaderFailing
    | ReaderWait
    | ReaderStopped

  datatype Writer = Writing | WriterFailing | WriterWait | WriterStopped

  datatype Frame = RequestFrame(id: RequestId) | CancelFrame(id: RequestId)

  datatype Process = Process(
    pending: map<RequestId, CallId>,
    failure: Failure, // `done` is closed exactly when this is not Alive
    draining: map<RequestId, CallId>, // the map `fail` took
    owed: Option<CallId>, // released by `fail`, not yet told
    reader: Reader,
    writer: Writer,
    writes: seq<Frame>,
    sent: set<RequestId>, // every request ever handed to `writes`
    answered: set<RequestId>) // every request whose entry the reader removed

  const NEW_PROCESS := Process(map[], Alive, map[], None, Reading, Writing, [], {}, {})

  datatype Closer = NotClosing | CloseFailing(process: ProcessId) | CloseWait(process: ProcessId) | CloseDone

  datatype Pool = Pool(
    lanes: map<LaneName, Lane<CallId>>,
    encoders: map<LaneName, CallId>, // who holds a lane's encoding slot
    sequence: RequestId,
    closed: bool, // the pool's context is cancelled
    current: Option<ProcessId>,
    processes: map<ProcessId, Process>,
    calls: map<CallId, Call>,
    closer: Closer)

  const NEW_POOL := Pool(
    map[Interactive := NewLane(INTERACTIVE_EXECUTIONS, MAXIMUM_PENDING),
        Normalization := NewLane(NORMALIZATION_EXECUTIONS, MAXIMUM_NORMALIZATION_PENDING)],
    map[], 0, false, None, map[], map[], NotClosing)

  // ---------------------------------------------------------------------
  // The steps.
  // ---------------------------------------------------------------------

  datatype CallerAction =
    | Begin(call: CallId, lane: LaneName) // reserve, with a token free
    | Cancel(call: CallId) // the caller's context ends
    | TakeNumber(call: CallId)
    | AcquireEncoder(call: CallId)
    | EnqueueFrame(call: CallId, size: nat)
    | FreeEncoder(call: CallId)
    | Move(call: CallId, to: Stage) // a branch that only moves the caller
    | UseCurrent(call: CallId)
    | Spawn(call: CallId, process: ProcessId)
    | Register(call: CallId)
    | HandOver(call: CallId) // `writes` accepts the request frame
    | Forget(call: CallId)
    | Receive(call: CallId)
    | PushCancel(call: CallId)
    | CallerFails(call: CallId)
    | CallerReleases(call: CallId)

  /** Steps of the reader, of the writer and of `fail`, whoever runs it. */
  datatype ProcessAction =
    | ReaderTakes(process: ProcessId, id: RequestId)
    | ReaderReleases(process: ProcessId)
    | ReaderSends(process: ProcessId)
    | ReaderMoves(process: ProcessId, reader: Reader)
    | ReaderFails(process: ProcessId)
    | WriterTakes(process: ProcessId)
    | WriterMoves(process: ProcessId, writer: Writer)
    | WriterFails(process: ProcessId)
    | ClearOwner(process: ProcessId)
    | DrainRelease(process: ProcessId, id: RequestId)
    | DrainSend(process: ProcessId)
    | FinishFail(process: ProcessId)

  datatype CloseAction =
    | CancelPool
    | CloseReads
    | CloseFails
    | CloseReturns

  datatype Action = ByCaller(caller: CallerAction) | ByProcess(runtime: ProcessAction) | ByClose(close: CloseAction)

  predicate At(s: Pool, c: CallId, stage: Stage) {
    c in s.calls && s.calls[c].stage == stage
  }

  /** The process a caller works with. */
  predicate Works(s: Pool, c: CallId) {
    c in s.calls && s.calls[c].process.Some? && s.calls[c].process.value in s.processes
  }

  function ProcessOf(s: Pool, c: CallId): Process
    requires Works(s, c)
  {
    s.processes[s.calls[c].process.value]
  }

  predicate HasLease(s: Pool, c: CallId) {
    c in s.calls && s.calls[c].lane in s.lanes && c in s.lanes[s.calls[c].lane].leases
  }

  function LeaseOf(s: Pool, c: CallId): Lease
    requires HasLease(s, c)
  {
    s.lanes[s.calls[c].lane].leases[c]
  }

  /** The select branches and checks that change nothing but the caller's own position. */
  predicate MoveAllowed(s: Pool, c: CallId, to: Stage)
    requires c in s.calls
  {
    var call := s.calls[c];
    match call.stage
    case Numbered => to == Leaving && (call.cancelled || s.closed)
    case Encoding => to == EncodeFailed
    case Waiting =>
      if to == Granted then HasLease(s, c) && LeaseOf(s, c).running && !call.cancelled && !s.closed
      else to == Leaving && (call.cancelled || s.closed)
    case Granted => to == Leaving && (s.closed || s.current == None)
    case Registered => to == Forgetting && Works(s, c) && (call.cancelled || ProcessOf(s, c).failure != Alive)
    case Sent => (to == Cancelling && call.cancelled) || (to == Returned && s.closed)
    case Cancelling =>
      Works(s, c) &&
      ((to == Returned && ProcessOf(s, c).failure != Alive)
       || (to == Stalled && ProcessOf(s, c).failure == Alive && |ProcessOf(s, c).writes| == WRITE_CAPACITY))
    case FailWait => to == Returned && Works(s, c) && ProcessOf(s, c).failure == Failed
    case _ => false
  }

  predicate CallerEnabled(s: Pool, a: CallerAction) {
    match a
    case Begin(c, lane) => c !in s.calls && lane in s.lanes && CanReserve(s.lanes[lane])
    case Cancel(c) => c in s.calls
    case TakeNumber(c) => At(s, c, Admitted)
    case AcquireEncoder(c) => At(s, c, Numbered) && s.calls[c].lane !in s.encoders
    case EnqueueFrame(c, size) => At(s, c, Encoding) && HasLease(s, c) && size <= MAXIMUM_MESSAGE
    case FreeEncoder(c) => At(s, c, Framed) || At(s, c, EncodeFailed)
    case Move(c, to) => c in s.calls && MoveAllowed(s, c, to)
    case UseCurrent(c) => At(s, c, Granted) && !s.closed && s.current.Some?
    case Spawn(c, p) => At(s, c, Granted) && !s.closed && s.current == None && p !in s.processes
    case Register(c) => At(s, c, Attached) && Works(s, c)
    case HandOver(c) => At(s, c, Registered) && Works(s, c) && |ProcessOf(s, c).writes| < WRITE_CAPACITY
    case Forget(c) => At(s, c, Forgetting) && Works(s, c)
    case Receive(c) => At(s, c, Sent) && s.calls[c].inbox.Some?
    case PushCancel(c) => At(s, c, Cancelling) && Works(s, c) && |ProcessOf(s, c).writes| < WRITE_CAPACITY
    case CallerFails(c) => At(s, c, Stalled) && Works(s, c)
    case CallerReleases(c) => (At(s, c, Leaving) || At(s, c, Rejected) || At(s, c, Forgot)) && HasLease(s, c)
  }

  predicate ProcessEnabled(s: Pool, a: ProcessAction) {
    match a
    case ReaderTakes(p, id) => p in s.processes && s.processes[p].reader == Reading && 0 < id <= s.sequence
    case ReaderReleases(p) => p in s.processes && s.processes[p].reader.Holding? && HasLease(s, s.processes[p].reader.call)
    case ReaderSends(p) =>
      && p in s.processes && s.processes[p].reader.Owing?
      && s.processes[p].reader.call in s.calls && s.calls[s.processes[p].reader.call].inbox == None
    case ReaderMoves(p, to) =>
      && p in s.processes
      && ((s.processes[p].reader == Reading && to == ReaderFailing)
          || (s.processes[p].reader == ReaderWait && s.processes[p].failure == Failed && to == ReaderStopped))
    case ReaderFails(p) => p in s.processes && s.processes[p].reader == ReaderFailing
    case WriterTakes(p) => p in s.processes && s.processes[p].writer == Writing && s.processes[p].writes != []
    case WriterMoves(p, to) =>
      && p in s.processes
      && ((s.processes[p].writer == Writing && to == WriterFailing)
          || (s.processes[p].writer == Writing && s.processes[p].failure != Alive && to == WriterStopped)
          || (s.processes[p].writer == WriterWait && s.processes[p].failure == Failed && to == WriterStopped))
    case WriterFails(p) => p in s.processes && s.processes[p].writer == WriterFailing
    case ClearOwner(p) => p in s.processes && s.processes[p].failure == Failing(false)
    case DrainRelease(p, id) =>
      && p in s.processes && s.processes[p].failure == Failing(true) && s.processes[p].owed == None
      && id in s.processes[p].draining && HasLease(s, s.processes[p].draining[id])
    case DrainSend(p) =>
      && p in s.processes && s.processes[p].owed.Some?
      && s.processes[p].owed.value in s.calls && s.calls[s.processes[p].owed.value].inbox == None
    case FinishFail(p) =>
      && p in s.processes && s.processes[p].failure == Failing(true)
      && s.processes[p].draining == map[] && s.processes[p].owed == None
  }

  predicate CloseEnabled(s: Pool, a: CloseAction) {
    match a
    case CancelPool => true
    case CloseReads => s.closed && s.closer == NotClosing
    case CloseFails => s.closer.CloseFailing? && s.closer.process in s.processes
    case CloseReturns =>
      && s.closer.CloseWait? && s.closer.process in s.processes
      && s.processes[s.closer.process].failure == Failed
      && s.processes[s.closer.process].reader == ReaderStopped
  }

  predicate Enabled(s: Pool, a: Action) {
    match a
    case ByCaller(caller) => CallerEnabled(s, caller)
    case ByProcess(runtime) => ProcessEnabled(s, runtime)
    case ByClose(close) => CloseEnabled(s, close)
  }

  function SetStage(s: Pool, c: CallId, stage: Stage): Pool
    requires c in s.calls
  {
    s.(calls := s.calls[c := s.calls[c].(stage := stage)])
  }

  function SetProcess(s: Pool, p: ProcessId, process: Process): Pool {
    s.(processes := s.processes[p := process])
  }

  function SetLane(s: Pool, name: LaneName, lane: Lane<CallId>): Pool {
    s.(lanes := s.lanes[name := lane])
  }

  function ReleaseLease(s: Pool, c: CallId): Pool
    requires HasLease(s, c)
  {
    SetLane(s, s.calls[c].lane, AfterRelease(s.lanes[s.calls[c].lane], c))
  }

  function Send(s: Pool, c: CallId, answer: Answer): Pool
    requires c in s.calls
  {
    s.(calls := s.calls[c := s.calls[c].(inbox := Some(answer), sends := s.calls[c].sends + 1)])
  }

  /** The first critical section of `fail`; `once` makes it run at most one time. */
  function StartFail(process: Process): Process {
    if process.failure != Alive then process
    else process.(failure := Failing(false), draining := process.pending, pending := map[])
  }

  function CallerStep(s: Pool, a: CallerAction): Pool
    requires CallerEnabled(s, a)
  {
    match a
    case Begin(c, lane) =>
      SetLane(s, lane, AfterReserve(s.lanes[lane], c))
        .(calls := s.calls[c := Call(lane, 0, Admitted, None, false, None, 0, None)])
    case Cancel(c) => s.(calls := s.calls[c := s.calls[c].(cancelled := true)])
    case TakeNumber(c) =>
      s.(sequence := s.sequence + 1,
         calls := s.calls[c := s.calls[c].(id := s.sequence + 1, stage := Numbered)])
    case AcquireEncoder(c) => SetStage(s, c, Encoding).(encoders := s.encoders[s.calls[c].lane := c])
    case EnqueueFrame(c, size) =>
      var name := s.calls[c].lane;
      SetStage(SetLane(s, name, AfterEnqueue(s.lanes[name], c, size)), c,
               if Fits(s.lanes[name], size) then Framed else EncodeFailed)
    case FreeEncoder(c) =>
      SetStage(s, c, if s.calls[c].stage == Framed then Waiting else Leaving)
        .(encoders := s.encoders - {s.calls[c].lane})
    case Move(c, to) => SetStage(s, c, to)
    case UseCurrent(c) => s.(calls := s.calls[c := s.calls[c].(stage := Attached, process := s.current)])
    case Spawn(c, p) =>
      SetProcess(s, p, NEW_PROCESS)
        .(current := Some(p), calls := s.calls[c := s.calls[c].(stage := Attached, process := Some(p))])
    case Register(c) =>
      var process := ProcessOf(s, c);
      if process.failure != Alive then SetStage(s, c, Rejected)
      else SetStage(SetProcess(s, s.calls[c].process.value,
                               process.(pending := process.pending[s.calls[c].id := c])), c, Registered)
    case HandOver(c) =>
      var process := ProcessOf(s, c);
      SetStage(SetProcess(s, s.calls[c].process.value,
                          process.(writes := process.writes + [RequestFrame(s.calls[c].id)],
                                   sent := process.sent + {s.calls[c].id})), c, Sent)
    case Forget(c) =>
      var process := ProcessOf(s, c);
      SetStage(SetProcess(s, s.calls[c].process.value,
                          process.(pending := process.pending - {s.calls[c].id})), c,
               if s.calls[c].id in process.pending then Forgot else Returned)
    case Receive(c) =>
      s.(calls := s.calls[c := s.calls[c].(stage := Returned, inbox := None, received := s.calls[c].inbox)])
    case PushCancel(c) =>
      var process := ProcessOf(s, c);
      SetStage(SetProcess(s, s.calls[c].process.value,
                          process.(writes := process.writes + [CancelFrame(s.calls[c].id)])), c, Returned)
    case CallerFails(c) =>
      SetStage(SetProcess(s, s.calls[c].process.value, StartFail(ProcessOf(s, c))), c, FailWait)
    case CallerReleases(c) => SetStage(ReleaseLease(s, c), c, Returned)
  }

  function ProcessStep(s: Pool, a: ProcessAction): Pool
    requires ProcessEnabled(s, a)
  {
    match a
    case ReaderTakes(p, id) =>
      var process := s.processes[p];
      if id !in process.pending then s
      else SetProcess(s, p, process.(pending := process.pending - {id},
                                     reader := Holding(id, process.pending[id]),
                                     answered := process.answered + {id}))
    case ReaderReleases(p) =>
      var process := s.processes[p];
      SetProcess(ReleaseLease(s, process.reader.call), p,
                 process.(reader := Owing(process.reader.id, process.reader.call)))
    case ReaderSends(p) =>
      var process := s.processes[p];
      SetProcess(Send(s, process.reader.call, Response(process.reader.id)), p, process.(reader := Reading))
    case ReaderMoves(p, to) => SetProcess(s, p, s.processes[p].(reader := to))
    case ReaderFails(p) => SetProcess(s, p, StartFail(s.processes[p]).(reader := ReaderWait))
    case WriterTakes(p) => SetProcess(s, p, s.processes[p].(writes := s.processes[p].writes[1..]))
    case WriterMoves(p, to) => SetProcess(s, p, s.processes[p].(writer := to))
    case WriterFails(p) => SetProcess(s, p, StartFail(s.processes[p]).(writer := WriterWait))
    case ClearOwner(p) =>
      SetProcess(s, p, s.processes[p].(failure := Failing(true)))
        .(current := if s.current == Some(p) then None else s.current)
    case DrainRelease(p, id) =>
      var process := s.processes[p];
      SetProcess(ReleaseLease(s, process.draining[id]), p,
                 process.(draining := process.draining - {id}, owed := Some(process.draining[id])))
    case DrainSend(p) =>
      SetProcess(Send(s, s.processes[p].owed.value, ProcessFailure), p, s.processes[p].(owed := None))
    case FinishFail(p) => SetProcess(s, p, s.processes[p].(failure := Failed))
  }

  function CloseStep(s: Pool, a: CloseAction): Pool
    requires CloseEnabled(s, a)
  {
    match a
    case CancelPool => s.(closed := true)
    case CloseReads => s.(closer := if s.current.Some? then CloseFailing(s.current.value) else CloseDone)
    case CloseFails =>
      SetProcess(s, s.closer.process, StartFail(s.processes[s.closer.process]))
        .(closer := CloseWait(s.closer.process))
    case CloseReturns => s.(closer := CloseDone)
  }

  function Step(s: Pool, a: Action): Pool
    requires Enabled(s, a)
  {
    match a
    case ByCaller(caller) => CallerStep(s, caller)
    case ByProcess(runtime) => ProcessStep(s, runtime)
    case ByClose(close) => CloseStep(s, close)
  }

  // ---------------------------------------------------------------------
  // The invariant.
  // ---------------------------------------------------------------------

  /** How the process a caller works with sees that caller. */
  datatype View =
    | Detached
    | View(alive: bool, entry: bool, draining: bool, held: bool, owing: bool, owed: bool, sent: bool, answered: bool)

  predicate ReaderHolds(q: Process, c: CallId) {
    q.reader.Holding? && q.reader.call == c
  }

  predicate ReaderOwes(q: Process, c: CallId) {
    q.reader.Owing? && q.reader.call == c
  }

  predicate FailOwes(q: Process, c: CallId) {
    q.owed == Some(c)
  }

  function ViewOf(s: Pool, c: CallId): View
    requires c in s.calls
  {
    if !Works(s, c) then Detached else ViewIn(ProcessOf(s, c), s.calls[c].id, c)
  }

  function ViewIn(q: Process, id: RequestId, c: CallId): View {
    View(q.failure == Alive, id in q.pending, id in q.draining,
         ReaderHolds(q, c), ReaderOwes(q, c), FailOwes(q, c), id in q.sent, id in q.answered)
  }

  /** The stages in which the caller itself must release the lease. */
  predicate CallerHolds(stage: Stage) {
    stage.Admitted? || stage.Numbered? || stage.Encoding? || stage.Framed? || stage.EncodeFailed? || stage.Waiting?
    || stage.Granted? || stage.Attached? || stage.Rejected? || stage.Forgot? || stage.Leaving?
  }

  predicate BeforeAttach(stage: Stage) {
    stage.Admitted? || stage.Numbered? || stage.Encoding? || stage.Framed? || stage.EncodeFailed? || stage.Waiting?
    || stage.Granted? || stage.Leaving?
  }

  predicate NotYetSent(stage: Stage) {
    stage.Attached? || stage.Rejected? || stage.Registered? || stage.Forgetting? || stage.Forgot?
  }

  predicate AfterHandOver(stage: Stage) {
    stage.Sent? || stage.Cancelling? || stage.Stalled? || stage.FailWait?
  }

  predicate LeaseFits(stage: Stage, lease: Lease) {
    match stage
    case Admitted => lease == NEW_LEASE
    case Numbered => lease == NEW_LEASE
    case Encoding => lease == NEW_LEASE
    case EncodeFailed => lease == NEW_LEASE
    case Framed => Accepted(lease) && !lease.released
    case Waiting => Accepted(lease) && !lease.released
    case Granted => lease.running && !lease.released
    case Attached => lease.running && !lease.released
    case Rejected => lease.running && !lease.released
    case Forgot => lease.running && !lease.released
    case Leaving => !lease.released
    case _ => true
  }

  predicate Owned(view: View) {
    view.View? && (view.entry || view.draining || view.held)
  }

  predicate OwesAnswer(view: View) {
    view.View? && (view.owing || view.owed)
  }

  function Count(view: View): nat {
    if view.Detached? then 0
    else (if view.entry then 1 else 0) + (if view.draining then 1 else 0) + (if view.held then 1 else 0)
         + (if view.owing then 1 else 0) + (if view.owed then 1 else 0)
  }

  /** Everything the invariant says about one caller. */
  predicate CallOk(call: Call, lease: Lease, view: View, sequence: RequestId) {
    && call.id <= sequence
    && (call.stage == Admitted <==> call.id == 0)
    && LeaseFits(call.stage, lease)
    && (BeforeAttach(call.stage) ==> call.process == None)
    && (call.process == None ==> BeforeAttach(call.stage) || call.stage == Returned)
    && (call.process.Some? ==> view.View?)
    && (call.process == None ==> view.Detached?)
    && Count(view) <= 1
    && (Count(view) == 1 ==> !CallerHolds(call.stage) && call.sends == 0)
    && (Owned(view) ==> lease.running && !lease.released)
    && (CallerHolds(call.stage) ==> !lease.released && call.sends == 0)
    && (!CallerHolds(call.stage) && !Owned(view) ==> lease.released)
    && call.sends <= 1
    && (call.inbox.Some? || call.received.Some? ==> call.sends == 1)
    && (call.inbox.Some? ==> call.received == None)
    && (call.inbox.Some? && call.inbox.value.Response? ==> call.inbox.value.id == call.id)
    && (call.received.Some? && call.received.value.Response? ==> call.received.value.id == call.id)
    && (view.View? && NotYetSent(call.stage) ==> !view.sent)
    && (view.View? && AfterHandOver(call.stage) ==> view.sent)
    && (view.View? && (call.stage.Attached? || call.stage.Rejected?) ==> !view.answered)
    && (view.View? && view.answered ==> !view.entry && !view.draining)
    && (view.View? && view.alive && (view.sent || call.stage == Registered) ==> view.entry || view.answered)
  }

  ghost predicate LanesOk(s: Pool) {
    && s.lanes.Keys == {Interactive, Normalization}
    && (forall n | n in s.lanes :: LaneInvariant(s.lanes[n]))
    && s.lanes[Interactive].concurrency == INTERACTIVE_EXECUTIONS
    && s.lanes[Interactive].capacity == MAXIMUM_PENDING
    && s.lanes[Normalization].concurrency == NORMALIZATION_EXECUTIONS
    && s.lanes[Normalization].capacity == MAXIMUM_NORMALIZATION_PENDING
  }

  ghost predicate LeasesOk(s: Pool) {
    && (forall c | c in s.calls :: HasLease(s, c))
    && (forall n, c | n in s.lanes && c in s.lanes[n].leases :: c in s.calls && s.calls[c].lane == n)
  }

  ghost predicate CallsOk(s: Pool)
    requires forall c | c in s.calls :: HasLease(s, c)
  {
    forall c | c in s.calls :: CallOk(s.calls[c], LeaseOf(s, c), ViewOf(s, c), s.sequence)
  }

  /** The numbers that ever went through a process, either way. */
  function Seen(q: Process): set<RequestId> {
    q.sent + q.answered
  }

  ghost predicate NumbersOk(s: Pool) {
    && (forall c, d | c in s.calls && d in s.calls && c != d && s.calls[c].id != 0 :: s.calls[c].id != s.calls[d].id)
    && (forall p, id | p in s.processes && id in Seen(s.processes[p]) :: 0 < id <= s.sequence)
    && (forall p, c | p in s.processes && c in s.calls && s.calls[c].process != Some(p) ::
          s.calls[c].id !in Seen(s.processes[p]))
  }

  /** The entry under `id` belongs to caller c of process p. */
  predicate Entry(s: Pool, p: ProcessId, id: RequestId, c: CallId) {
    c in s.calls && s.calls[c].process == Some(p) && s.calls[c].id == id
  }

  ghost predicate ProcessOk(s: Pool, p: ProcessId)
    requires p in s.processes
  {
    ProcessFits(s, p, s.processes[p])
  }

  ghost predicate ProcessFits(s: Pool, p: ProcessId, q: Process) {
    && (forall id | id in q.pending :: Entry(s, p, id, q.pending[id]))
    && (forall id | id in q.draining :: Entry(s, p, id, q.draining[id]))
    && (q.reader.Holding? ==> Entry(s, p, q.reader.id, q.reader.call))
    && (q.reader.Owing? ==> Entry(s, p, q.reader.id, q.reader.call))
    && (q.owed.Some? ==> q.owed.value in s.calls && s.calls[q.owed.value].process == Some(p))
    && (q.failure == Alive ==> q.draining == map[] && q.owed == None && s.current == Some(p))
    && (q.failure != Alive ==> q.pending == map[])
    && (q.failure == Failing(false) ==> q.owed == None)
    && (q.failure == Failing(true) ==> s.current != Some(p))
    && (q.failure == Failed ==> q.draining == map[] && q.owed == None && s.current != Some(p))
    && (q.reader == ReaderStopped ==> q.failure == Failed)
    && (q.reader == ReaderWait ==> q.failure != Alive)
  }

  ghost predicate ProcessesOk(s: Pool) {
    forall p | p in s.processes :: ProcessOk(s, p)
  }

  predicate HoldsEncoder(stage: Stage) {
    stage.Encoding? || stage.Framed? || stage.EncodeFailed?
  }

  ghost predicate PoolOk(s: Pool) {
    && (s.current.Some? ==> s.current.value in s.processes)
    && (forall n | n in s.encoders :: s.encoders[n] in s.calls)
    && (forall c | c in s.calls ::
          HoldsEncoder(s.calls[c].stage) <==> s.calls[c].lane in s.encoders && s.encoders[s.calls[c].lane] == c)
    && (s.closer != NotClosing ==> s.closed)
    && (s.closer.CloseFailing? || s.closer.CloseWait? ==>
          s.closer.process in s.processes && (s.current.Some? ==> s.current.value == s.closer.process))
    && (s.closer.CloseWait? ==> s.processes[s.closer.process].failure != Alive)
    && (s.closer == CloseDone ==> s.current == None)
  }

  /** Everything but the lanes' own invariants. */
  ghost predicate Linkage(s: Pool) {
    LeasesOk(s) && CallsOk(s) && NumbersOk(s) && ProcessesOk(s) && PoolOk(s)
  }

  ghost predicate Invariant(s: Pool) {
    LanesOk(s) && Linkage(s)
  }

  // ---------------------------------------------------------------------
  // Lane sections touch other leases only by starting them.
  // ---------------------------------------------------------------------

  predicate Progress(before: Lease, after: Lease) {
    after == before || (before.queued && !before.running && after == before.(queued := false, running := true))
  }

  ghost predicate OthersProgress(before: Lane<CallId>, after: Lane<CallId>, x: CallId) {
    && after.concurrency == before.concurrency && after.capacity == before.capacity
    && after.leases.Keys == before.leases.Keys + {x}
    && forall y | y in before.leases && y != x :: Progress(before.leases[y], after.leases[y])
  }

  lemma {:induction false} DispatchProgress(lane: Lane<CallId>)
    requires QueueWaits(lane)
    ensures AfterDispatch(lane).concurrency == lane.concurrency && AfterDispatch(lane).capacity == lane.capacity
    ensures AfterDispatch(lane).leases.Keys == lane.leases.Keys
    ensures forall y | y in lane.leases :: Progress(lane.leases[y], AfterDispatch(lane).leases[y])
    decreases |lane.queue|
  {
    if lane.active < lane.concurrency && lane.queue != [] {
      assert lane.queue[0] in lane.queue;
      assert forall i | 0 <= i < |lane.queue| - 1 :: lane.queue[1..][i] == lane.queue[i + 1] && lane.queue[i + 1] in lane.queue;
      DispatchProgress(Start(lane));
    }
  }

  lemma EnqueueProgress(lane: Lane<CallId>, x: CallId, size: nat)
    requires QueueWaits(lane) && x in lane.leases && lane.leases[x] == NEW_LEASE
    ensures OthersProgress(lane, AfterEnqueue(lane, x, size), x)
    ensures var lease := AfterEnqueue(lane, x, size).leases[x];
            if Fits(lane, size) then Accepted(lease) && !lease.released else lease == NEW_LEASE
  {
    if Fits(lane, size) {
      assert x !in lane.queue;
      DispatchProgress(Append(lane, x, size));
    }
  }

  lemma ReleaseProgress(lane: Lane<CallId>, x: CallId)
    requires LaneInvariant(lane) && x in lane.leases && !lane.leases[x].released
    ensures LaneInvariant(AfterRelease(lane, x))
    ensures OthersProgress(lane, AfterRelease(lane, x), x)
    ensures AfterRelease(lane, x).leases[x].released
  {
    ReleaseKeeps(lane, x);
    WithdrawKeeps(lane, x);
    QueueOfConsistent(Withdraw(lane, x));
    DispatchProgress(Withdraw(lane, x));
  }
}
