/** Which frames a process of the worker pool is handed, and where a caller waits. */
module WorkerFrames {
  import opened Scheduling
  import opened Worker
  import opened Wrappers
  import opened WorkerInvariant
  import opened WorkerRuns

  // ---------------------------------------------------------------------
  // The frames, read off the steps.
  // ---------------------------------------------------------------------

  /** What a step puts into p's `writes`. */
  function Pushes(s: Pool, a: Action, p: ProcessId): seq<Frame>
    requires Enabled(s, a)
  {
    match a
    case ByCaller(HandOver(c)) => if s.calls[c].process == Some(p) then [RequestFrame(s.calls[c].id)] else []
    case ByCaller(PushCancel(c)) => if s.calls[c].process == Some(p) then [CancelFrame(s.calls[c].id)] else []
    case _ => []
  }

  ghost function Pushed(states: seq<Pool>, actions: seq<Action>, i: nat, p: ProcessId): seq<Frame>
    requires Run(states, actions) && i < |states|
  {
    if i == 0 then [] else Pushed(states, actions, i - 1, p) + Pushes(states[i - 1], actions[i - 1], p)
  }

  /** How many frames p's writer has taken. */
  function Taken(actions: seq<Action>, i: nat, p: ProcessId): nat
    requires i <= |actions|
  {
    if i == 0 then 0 else Taken(actions, i - 1, p) + if actions[i - 1] == ByProcess(WriterTakes(p)) then 1 else 0
  }

  ghost predicate FramesOk(s: Pool, p: ProcessId, pushed: seq<Frame>, taken: nat) {
    if p !in s.processes then pushed == [] && taken == 0
    else
      && QueueOk(s.processes[p], pushed, taken)
      && Distinct(pushed) && CancelsFollow(pushed)
      && forall id | CancelFrame(id) in pushed :: Left(s, p, id)
  }

  /** The channel is what was pushed and not taken; `sent` are the requests pushed. */
  ghost predicate QueueOk(q: Process, pushed: seq<Frame>, taken: nat) {
    && taken <= |pushed| && q.writes == pushed[taken..] && |q.writes| <= 64
    && (forall id :: id in q.sent <==> RequestFrame(id) in pushed)
  }

  /** A request is cancelled only after it was handed over. */
  ghost predicate CancelsFollow(pushed: seq<Frame>) {
    forall k | 0 <= k < |pushed| && pushed[k].CancelFrame? :: RequestFrame(pushed[k].id) in pushed[..k]
  }

  /** The caller behind `id` has returned. */
  ghost predicate Left(s: Pool, p: ProcessId, id: RequestId) {
    exists c :: Entry(s, p, id, c) && At(s, c, Returned)
  }

  // ---------------------------------------------------------------------
  // One step.
  // ---------------------------------------------------------------------

  lemma CallerLeft(s: Pool, a: CallerAction, c: CallId)
    requires CallerEnabled(s, a) && At(s, c, Returned)
    ensures At(CallerStep(s, a), c, Returned)
    ensures CallerStep(s, a).calls[c].id == s.calls[c].id && CallerStep(s, a).calls[c].process == s.calls[c].process
  {
    hide AfterRelease, AfterEnqueue, AfterReserve, HasLease, Fits, StartFail;
  }

  lemma ProcessLeft(s: Pool, a: ProcessAction, c: CallId)
    requires ProcessEnabled(s, a) && At(s, c, Returned)
    ensures At(ProcessStep(s, a), c, Returned)
    ensures ProcessStep(s, a).calls[c].id == s.calls[c].id && ProcessStep(s, a).calls[c].process == s.calls[c].process
  {
    hide AfterRelease, HasLease, StartFail;
  }

  lemma LeftStays(s: Pool, a: Action, p: ProcessId, id: RequestId)
    requires Enabled(s, a) && Left(s, p, id)
    ensures Left(Step(s, a), p, id)
  {
    hide CallerStep, ProcessStep, CallerEnabled, ProcessEnabled;
    var c :| Entry(s, p, id, c) && At(s, c, Returned);
    match a {
      case ByCaller(caller) => CallerLeft(s, caller, c);
      case ByProcess(runtime) => ProcessLeft(s, runtime, c);
      case ByClose(_) =>
    }
    assert Entry(Step(s, a), p, id, c) && At(Step(s, a), c, Returned);
  }

  /** The channel and the record of requests after a step that pushes `frames` and takes `taken` frames. */
  predicate Moved(q: Process, r: Process, frames: seq<Frame>, taken: nat) {
    && taken <= |q.writes| && r.writes == (q.writes + frames)[taken..]
    && r.sent == q.sent + RequestIds(frames)
    && |r.writes| <= if frames == [] then |q.writes| else 64
  }

  function RequestIds(frames: seq<Frame>): set<RequestId> {
    set f | f in frames && f.RequestFrame? :: f.id
  }

  lemma NotMoved(q: Process)
    ensures Moved(q, q, [], 0)
  {
    assert (q.writes + [])[0..] == q.writes;
  }

  lemma CallerMoves(s: Pool, a: CallerAction, p: ProcessId)
    requires CallerEnabled(s, a) && p in s.processes && !a.HandOver? && !a.PushCancel?
    ensures p in CallerStep(s, a).processes
    ensures CallerStep(s, a).processes[p].writes == s.processes[p].writes
    ensures CallerStep(s, a).processes[p].sent == s.processes[p].sent
  {
    hide AfterRelease, AfterEnqueue, AfterReserve, MoveAllowed, HasLease, Fits;
  }

  lemma CallerPushes(s: Pool, a: CallerAction, p: ProcessId)
    requires CallerEnabled(s, a) && p in s.processes && (a.HandOver? || a.PushCancel?)
    ensures p in CallerStep(s, a).processes
    ensures Moved(s.processes[p], CallerStep(s, a).processes[p], Pushes(s, ByCaller(a), p), 0)
  {
    NotMoved(s.processes[p]);
  }

  lemma ProcessMoves(s: Pool, a: ProcessAction, p: ProcessId)
    requires ProcessEnabled(s, a) && p in s.processes && a != WriterTakes(p)
    ensures p in ProcessStep(s, a).processes
    ensures ProcessStep(s, a).processes[p].writes == s.processes[p].writes
    ensures ProcessStep(s, a).processes[p].sent == s.processes[p].sent
  {
    hide AfterRelease, HasLease;
  }

  lemma WriterMovesOn(s: Pool, p: ProcessId)
    requires ProcessEnabled(s, WriterTakes(p))
    ensures p in ProcessStep(s, WriterTakes(p)).processes
    ensures Moved(s.processes[p], ProcessStep(s, WriterTakes(p)).processes[p], [], 1)
  {
    assert s.processes[p].writes + [] == s.processes[p].writes;
  }

  lemma SameMoved(q: Process, r: Process)
    requires r.writes == q.writes && r.sent == q.sent
    ensures Moved(q, r, [], 0)
  {
    NotMoved(q);
  }

  function Takes(a: Action, p: ProcessId): nat {
    if a == ByProcess(WriterTakes(p)) then 1 else 0
  }

  lemma StepMoves(s: Pool, a: Action, p: ProcessId)
    requires Enabled(s, a) && p in s.processes
    ensures p in Step(s, a).processes
    ensures Moved(s.processes[p], Step(s, a).processes[p], Pushes(s, a, p), Takes(a, p))
  {
    hide CallerStep, ProcessStep, CallerEnabled, ProcessEnabled, Moved;
    match a
    case ByCaller(caller) =>
      if caller.HandOver? || caller.PushCancel? {
        CallerPushes(s, caller, p);
      } else {
        CallerMoves(s, caller, p);
        SameMoved(s.processes[p], CallerStep(s, caller).processes[p]);
      }
    case ByProcess(runtime) =>
      if runtime == WriterTakes(p) {
        WriterMovesOn(s, p);
      } else {
        ProcessMoves(s, runtime, p);
        SameMoved(s.processes[p], ProcessStep(s, runtime).processes[p]);
      }
    case ByClose(close) =>
      SameMoved(s.processes[p], CloseStep(s, close).processes[p]);
  }

  lemma QueueMoves(q: Process, r: Process, pushed: seq<Frame>, taken: nat, frames: seq<Frame>, takes: nat)
    requires QueueOk(q, pushed, taken) && Moved(q, r, frames, takes)
    ensures QueueOk(r, pushed + frames, taken + takes)
  {
    assert pushed[taken..] + frames == (pushed + frames)[taken..];
    forall id ensures id in r.sent <==> RequestFrame(id) in pushed + frames {
      assert id in RequestIds(frames) <==> RequestFrame(id) in frames;
    }
  }

  /** A frame that is pushed is new, and a cancel frame comes after its request. */
  lemma PushedIsNew(s: Pool, a: Action, p: ProcessId, pushed: seq<Frame>, taken: nat)
    requires Invariant(s) && Enabled(s, a) && p in s.processes && FramesOk(s, p, pushed, taken)
    ensures |Pushes(s, a, p)| <= 1
    ensures forall f | f in Pushes(s, a, p) :: f !in pushed && (f.CancelFrame? ==> RequestFrame(f.id) in pushed)
    ensures forall id | CancelFrame(id) in Pushes(s, a, p) :: Left(Step(s, a), p, id)
  {
    hide LanesOk, Linkage, Distinct, LeaseFits;
    if a.ByCaller? && (a.caller.HandOver? || a.caller.PushCancel?) && s.calls[a.caller.call].process == Some(p) {
      var c, id := a.caller.call, s.calls[a.caller.call].id;
      CallerOf(s, p, c);
      if a.caller.PushCancel? {
        if CancelFrame(id) in pushed {
          var d :| Entry(s, p, id, d) && At(s, d, Returned);
          SameNumber(s, p, id, d, c);
        }
        assert Entry(Step(s, a), p, id, c) && At(Step(s, a), c, Returned);
      }
    }
  }

  lemma AppendedFrames(pushed: seq<Frame>, frames: seq<Frame>)
    requires Distinct(pushed) && CancelsFollow(pushed) && |frames| <= 1
    requires forall f | f in frames :: f !in pushed && (f.CancelFrame? ==> RequestFrame(f.id) in pushed)
    ensures Distinct(pushed + frames) && CancelsFollow(pushed + frames)
  {
    var all := pushed + frames;
    forall j, k | 0 <= j < k < |all| ensures all[j] != all[k] {
      if k == |pushed| {
        assert all[k] in frames && all[j] in pushed;
      }
    }
    forall k | 0 <= k < |all| && all[k].CancelFrame? ensures RequestFrame(all[k].id) in all[..k] {
      if k < |pushed| {
        assert all[..k] == pushed[..k];
      } else {
        assert all[k] in frames && all[..k] == pushed;
      }
    }
  }

  lemma SpawnedFrames(s: Pool, a: Action, p: ProcessId)
    requires Enabled(s, a) && p !in s.processes
    ensures Takes(a, p) == 0 && Pushes(s, a, p) == []
    ensures p in Step(s, a).processes ==> Step(s, a).processes[p] == NEW_PROCESS
  {
    hide CallerStep, ProcessStep;
    match a
    case ByCaller(caller) => SpawnedByCaller(s, caller, p);
    case ByProcess(runtime) => ProcessKeepsClosed(s, runtime);
    case ByClose(_) =>
  }

  lemma SpawnedByCaller(s: Pool, a: CallerAction, p: ProcessId)
    requires CallerEnabled(s, a) && p !in s.processes
    ensures p in CallerStep(s, a).processes ==> CallerStep(s, a).processes[p] == NEW_PROCESS
  {
    hide AfterRelease, AfterEnqueue, AfterReserve, MoveAllowed, HasLease, Fits, StartFail;
  }

  lemma StepFrames(s: Pool, a: Action, p: ProcessId, pushed: seq<Frame>, taken: nat)
    requires Invariant(s) && Enabled(s, a) && FramesOk(s, p, pushed, taken)
    ensures FramesOk(Step(s, a), p, pushed + Pushes(s, a, p), taken + Takes(a, p))
  {
    hide Invariant, Step, Enabled, Pushes, QueueOk, Distinct, CancelsFollow, Moved, Takes, Left;
    var t, frames := Step(s, a), Pushes(s, a, p);
    if p !in s.processes {
      SpawnedFrames(s, a, p);
      NewFrames();
    } else {
      PushedIsNew(s, a, p, pushed, taken);
      StepMoves(s, a, p);
      QueueMoves(s.processes[p], t.processes[p], pushed, taken, frames, Takes(a, p));
      AppendedFrames(pushed, frames);
      forall id | CancelFrame(id) in pushed + frames ensures Left(t, p, id) {
        if CancelFrame(id) in pushed {
          LeftStays(s, a, p, id);
        }
      }
    }
  }

  lemma NewFrames()
    ensures QueueOk(NEW_PROCESS, [], 0) && Distinct<Frame>([]) && CancelsFollow([])
  {
  }

  // ---------------------------------------------------------------------
  // Whole runs.
  // ---------------------------------------------------------------------

  lemma {:induction false} RunFrames(states: seq<Pool>, actions: seq<Action>, i: nat, p: ProcessId)
    requires Run(states, actions) && i < |states|
    ensures FramesOk(states[i], p, Pushed(states, actions, i, p), Taken(actions, i, p))
  {
    hide Invariant, Step, Enabled, FramesOk, Pushes;
    if i == 0 {
      NoFrames(p);
    } else {
      var s, a := states[i - 1], actions[i - 1];
      assert Enabled(s, a) && states[i] == Step(s, a);
      RunInvariant(states, actions, i - 1);
      RunFrames(states, actions, i - 1, p);
      StepFrames(s, a, p, Pushed(states, actions, i - 1, p), Taken(actions, i - 1, p));
    }
  }

  lemma NoFrames(p: ProcessId)
    ensures FramesOk(NEW_POOL, p, [], 0)
  {
  }

  /**
   At every state of every run: a process's channel holds, in order, the frames that
   callers pushed and its writer has not taken, at most 64; no frame is pushed twice;
   a cancel frame comes after its request's; and `sent` are the requests pushed.
  */
  lemma FramesExactly(states: seq<Pool>, actions: seq<Action>, i: nat, p: ProcessId)
    requires Run(states, actions) && i < |states| && p in states[i].processes
    ensures var q, pushed, taken := states[i].processes[p], Pushed(states, actions, i, p), Taken(actions, i, p);
      && taken <= |pushed| && q.writes == pushed[taken..] && |q.writes| <= 64
      && (forall j, k | 0 <= j < k < |pushed| :: pushed[j] != pushed[k])
      && (forall k | 0 <= k < |pushed| && pushed[k].CancelFrame? :: RequestFrame(pushed[k].id) in pushed[..k])
      && (forall id :: id in q.sent <==> RequestFrame(id) in pushed)
  {
    hide Run, Pushed;
    RunFrames(states, actions, i, p);
  }

  // ---------------------------------------------------------------------
  // Where a caller waits.
  // ---------------------------------------------------------------------

  /** A step c's own code takes; its context may end at any time besides. */
  predicate OwnStep(a: CallerAction, c: CallId) {
    !a.Begin? && !a.Cancel? && a.call == c
  }

  /** Everything c's code can wait for, and that it is not there yet. */
  predicate Waits(s: Pool, c: CallId)
    requires c in s.calls
  {
    var call := s.calls[c];
    match call.stage
    case Numbered => !call.cancelled && !s.closed && call.lane in s.encoders
    case Waiting => !call.cancelled && !s.closed && HasLease(s, c) && !LeaseOf(s, c).running
    case Registered =>
      Works(s, c) && !call.cancelled && ProcessOf(s, c).failure == Alive && |ProcessOf(s, c).writes| == 64
    case Sent => !call.cancelled && !s.closed && call.inbox == None
    case FailWait => Works(s, c) && ProcessOf(s, c).failure != Failed
    case Returned => true
    case _ => false
  }

  /** The step a caller that need not wait can take. */
  function NextStep(s: Pool, c: CallId, unused: ProcessId): CallerAction
    requires c in s.calls
  {
    var call := s.calls[c];
    match call.stage
    case Admitted => TakeNumber(c)
    case Numbered => if call.lane !in s.encoders then AcquireEncoder(c) else Move(c, Leaving)
    case Encoding => EnqueueFrame(c, 0)
    case Framed => FreeEncoder(c)
    case EncodeFailed => FreeEncoder(c)
    case Waiting => if call.cancelled || s.closed then Move(c, Leaving) else Move(c, Granted)
    case Granted => if s.closed then Move(c, Leaving) else if s.current.Some? then UseCurrent(c) else Spawn(c, unused)
    case Attached => Register(c)
    case Registered =>
      if Works(s, c) && |ProcessOf(s, c).writes| < WRITE_CAPACITY then HandOver(c) else Move(c, Forgetting)
    case Forgetting => Forget(c)
    case Sent =>
      if call.inbox.Some? then Receive(c) else if call.cancelled then Move(c, Cancelling) else Move(c, Returned)
    case Cancelling =>
      if Works(s, c) && ProcessOf(s, c).failure != Alive then Move(c, Returned)
      else if Works(s, c) && |ProcessOf(s, c).writes| < WRITE_CAPACITY then PushCancel(c)
      else Move(c, Stalled)
    case Stalled => CallerFails(c)
    case FailWait => Move(c, Returned)
    case Rejected => CallerReleases(c)
    case Forgot => CallerReleases(c)
    case Leaving => CallerReleases(c)
    case Returned => CallerReleases(c)
  }

  /**
   A call can take a step of its own exactly when it does not wait for the encoding
   slot, for its turn in the lane, for room in a full write queue, for its answer or
   for `fail` to end; its context or the pool's ends each wait but the last.
  */
  lemma WaitsExactly(states: seq<Pool>, actions: seq<Action>, i: nat, c: CallId)
    requires Run(states, actions) && i < |states| && c in states[i].calls
    ensures (exists a :: OwnStep(a, c) && CallerEnabled(states[i], a)) <==> !Waits(states[i], c)
  {
    var s := states[i];
    hide Run, Invariant, CallerEnabled;
    RunInvariant(states, actions, i);
    RoomInQueue(states, actions, i, c);
    var unused := Fresh(s.processes.Keys);
    if Waits(s, c) {
      forall a | OwnStep(a, c) ensures !CallerEnabled(s, a) {
        WaitingStops(s, c, a);
      }
    } else {
      NextEnabled(s, c, unused);
      assert OwnStep(NextStep(s, c, unused), c) && CallerEnabled(s, NextStep(s, c, unused));
    }
  }

  lemma RoomInQueue(states: seq<Pool>, actions: seq<Action>, i: nat, c: CallId)
    requires Run(states, actions) && i < |states| && c in states[i].calls
    ensures Works(states[i], c) ==> |ProcessOf(states[i], c).writes| <= 64
  {
    hide Run, Pushed;
    if Works(states[i], c) {
      FramesExactly(states, actions, i, states[i].calls[c].process.value);
    }
  }

  lemma {:induction false} Fresh(taken: set<ProcessId>) returns (p: ProcessId)
    ensures p !in taken
  {
    p := 0;
    var above := taken;
    while above != {}
      invariant above <= taken
      invariant forall q | q in taken && q !in above :: q < p
      decreases |above|
    {
      var q :| q in above;
      above := above - {q};
      if q >= p {
        p := q + 1;
      }
    }
  }

  lemma WaitingStops(s: Pool, c: CallId, a: CallerAction)
    requires Invariant(s) && c in s.calls && Waits(s, c) && OwnStep(a, c)
    ensures !CallerEnabled(s, a)
  {
    hide Invariant;
  }

  lemma NextEnabled(s: Pool, c: CallId, unused: ProcessId)
    requires Invariant(s) && c in s.calls && !Waits(s, c) && unused !in s.processes
    requires Works(s, c) ==> |ProcessOf(s, c).writes| <= 64
    ensures OwnStep(NextStep(s, c, unused), c) && CallerEnabled(s, NextStep(s, c, unused))
  {
    hide LanesOk, Linkage;
    CallAt(s, c);
  }
}
