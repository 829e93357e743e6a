/** What holds in every interleaving of the worker pool. */
module WorkerRuns {
  import opened Scheduling
  import opened Worker
  import opened Wrappers
  import opened WorkerInvariant

  /** A run from the empty pool: any number of steps, in any order the code allows. */
  ghost predicate Run(states: seq<Pool>, actions: seq<Action>) {
    && |states| == |actions| + 1
    && states[0] == NEW_POOL
    && forall i | 0 <= i < |actions| :: Enabled(states[i], actions[i]) && states[i + 1] == Step(states[i], actions[i])
  }

  lemma {:induction false} RunInvariant(states: seq<Pool>, actions: seq<Action>, i: nat)
    requires Run(states, actions) && i < |states|
    ensures Invariant(states[i])
  {
    hide Invariant, Step, Enabled;
    if i == 0 {
      NewPoolInvariant();
    } else {
      RunInvariant(states, actions, i - 1);
      assert Enabled(states[i - 1], actions[i - 1]) && states[i] == Step(states[i - 1], actions[i - 1]);
      StepKeeps(states[i - 1], actions[i - 1]);
    }
  }

  // ---------------------------------------------------------------------
  // Who must release a lease.
  // ---------------------------------------------------------------------

  datatype Owner =
    | ItsCaller
    | PendingEntry(process: ProcessId, id: RequestId)
    | ResponseReader(process: ProcessId)
    | FailingProcess(process: ProcessId, id: RequestId)

  predicate Owns(s: Pool, c: CallId, owner: Owner) {
    match owner
    case ItsCaller => c in s.calls && CallerHolds(s.calls[c].stage)
    case PendingEntry(p, id) =>
      p in s.processes && id in s.processes[p].pending && s.processes[p].pending[id] == c
    case ResponseReader(p) => p in s.processes && ReaderHolds(s.processes[p], c)
    case FailingProcess(p, id) =>
      p in s.processes && id in s.processes[p].draining && s.processes[p].draining[id] == c
  }

  lemma OwnsMeansView(s: Pool, c: CallId, owner: Owner)
    requires Linkage(s) && Owns(s, c, owner)
    ensures c in s.calls
    ensures owner.ItsCaller? || s.calls[c].process == Some(owner.process)
    ensures owner.PendingEntry? ==> owner.id == s.calls[c].id && ViewOf(s, c).View? && ViewOf(s, c).entry
    ensures owner.ResponseReader? ==> ViewOf(s, c).View? && ViewOf(s, c).held
    ensures owner.FailingProcess? ==> owner.id == s.calls[c].id && ViewOf(s, c).View? && ViewOf(s, c).draining
  {
    hide Linkage;
    if !owner.ItsCaller? {
      ProcessAt(s, owner.process);
    }
  }

  /** An unreleased lease has exactly one owner; a released one has none. */
  lemma UniqueOwner(s: Pool, c: CallId)
    requires Invariant(s) && c in s.calls
    ensures HasLease(s, c)
    ensures LeaseOf(s, c).released <==> !exists owner :: Owns(s, c, owner)
    ensures forall one, other | Owns(s, c, one) && Owns(s, c, other) :: one == other
  {
    hide LanesOk, Linkage;
    CallAt(s, c);
    var call, view := s.calls[c], ViewOf(s, c);
    forall owner | Owns(s, c, owner) ensures !LeaseOf(s, c).released {
      OwnsMeansView(s, c, owner);
    }
    forall one, other | Owns(s, c, one) && Owns(s, c, other) ensures one == other {
      OwnsMeansView(s, c, one);
      OwnsMeansView(s, c, other);
    }
    if !LeaseOf(s, c).released {
      var owner := OwnerOf(s, c);
    }
  }

  lemma OwnerOf(s: Pool, c: CallId) returns (owner: Owner)
    requires Linkage(s) && c in s.calls && HasLease(s, c) && !LeaseOf(s, c).released
    ensures Owns(s, c, owner)
  {
    hide Linkage;
    CallAt(s, c);
    var call, view := s.calls[c], ViewOf(s, c);
    if CallerHolds(call.stage) {
      owner := ItsCaller;
    } else {
      assert Owned(view);
      var p := call.process.value;
      OwnEntry(s, p, c);
      owner := if view.entry then PendingEntry(p, call.id)
               else if view.held then ResponseReader(p) else FailingProcess(p, call.id);
    }
  }

  /** The lease a step releases. */
  function Released(s: Pool, a: Action): Option<CallId>
    requires Enabled(s, a)
  {
    match a
    case ByCaller(CallerReleases(c)) => Some(c)
    case ByProcess(ReaderReleases(p)) => Some(s.processes[p].reader.call)
    case ByProcess(DrainRelease(p, id)) => Some(s.processes[p].draining[id])
    case _ => None
  }

  /** The `released` guard is never needed: whoever releases is the lease's owner. */
  lemma ReleaseByOwner(s: Pool, a: Action)
    requires Invariant(s) && Enabled(s, a) && Released(s, a).Some?
    ensures var c := Released(s, a).value;
            && HasLease(s, c) && !LeaseOf(s, c).released
            && AfterRelease(s.lanes[s.calls[c].lane], c) == AfterDispatch(Withdraw(s.lanes[s.calls[c].lane], c))
  {
    hide LanesOk, Linkage;
    var c := Released(s, a).value;
    match a {
      case ByCaller(_) => CallAt(s, c);
      case ByProcess(runtime) =>
        ProcessAt(s, runtime.process);
        CallerOf(s, runtime.process, c);
    }
  }

  lemma CallerReleasedStays(s: Pool, a: CallerAction, d: CallId)
    requires Invariant(s) && CallerEnabled(s, a) && d in s.calls && HasLease(s, d) && LeaseOf(s, d).released
    ensures var t := CallerStep(s, a); d in t.calls && HasLease(t, d) && LeaseOf(t, d).released
  {
    hide LanesOk, Linkage;
    CallerStepLane(s, a, d);
    match a {
      case Begin(c, n) =>
      case EnqueueFrame(c, size) =>
        hide AfterEnqueue;
        CallAt(s, c);
        EnqueuedLanes(s, c, size);
      case CallerReleases(c) =>
        CallAt(s, c);
        ReleasedLanes(s, c);
        hide ReleaseLease;
        ReleaseFrame(s, c);
      case _ => CallerLanes(s, a);
    }
  }

  lemma CallerStepLane(s: Pool, a: CallerAction, d: CallId)
    requires CallerEnabled(s, a) && d in s.calls
    ensures d in CallerStep(s, a).calls && CallerStep(s, a).calls[d].lane == s.calls[d].lane
  {
    hide AfterRelease, AfterEnqueue, AfterReserve, MoveAllowed;
  }

  lemma ProcessStepLane(s: Pool, a: ProcessAction, d: CallId)
    requires ProcessEnabled(s, a) && d in s.calls
    ensures d in ProcessStep(s, a).calls && ProcessStep(s, a).calls[d].lane == s.calls[d].lane
  {
    hide AfterRelease;
  }

  lemma ReleaseStepLanes(s: Pool, a: ProcessAction)
    requires ProcessEnabled(s, a) && (a.ReaderReleases? || a.DrainRelease?)
    requires HasLease(s, Released(s, ByProcess(a)).value)
    ensures ProcessStep(s, a).lanes == ReleaseLease(s, Released(s, ByProcess(a)).value).lanes
  {
    hide AfterRelease;
  }

  lemma ProcessReleasedStays(s: Pool, a: ProcessAction, d: CallId)
    requires Invariant(s) && ProcessEnabled(s, a) && d in s.calls && HasLease(s, d) && LeaseOf(s, d).released
    ensures var t := ProcessStep(s, a); d in t.calls && HasLease(t, d) && LeaseOf(t, d).released
  {
    hide LanesOk, Linkage;
    ProcessStepLane(s, a, d);
    if a.ReaderReleases? || a.DrainRelease? {
      var c := Released(s, ByProcess(a)).value;
      hide Released, ReleaseLease;
      ReleaseByOwner(s, ByProcess(a));
      ReleasedLanes(s, c);
      ReleaseStepLanes(s, a);
    } else {
      ProcessLanes(s, a);
    }
  }

  lemma ReleasedStays(s: Pool, a: Action, d: CallId)
    requires Invariant(s) && Enabled(s, a) && d in s.calls && HasLease(s, d) && LeaseOf(s, d).released
    ensures d in Step(s, a).calls && HasLease(Step(s, a), d) && LeaseOf(Step(s, a), d).released
  {
    hide Invariant, CallerStep, ProcessStep;
    match a
    case ByCaller(caller) => CallerReleasedStays(s, caller, d);
    case ByProcess(runtime) => ProcessReleasedStays(s, runtime, d);
    case ByClose(close) =>
  }

  lemma ReleaseReleases(s: Pool, a: Action)
    requires Invariant(s) && Enabled(s, a) && Released(s, a).Some?
    ensures var c, t := Released(s, a).value, Step(s, a);
            c in t.calls && HasLease(t, c) && LeaseOf(t, c).released
  {
    hide LanesOk, Linkage;
    ReleaseByOwner(s, a);
    var c := Released(s, a).value;
    ReleasedLanes(s, c);
    match a {
      case ByCaller(caller) =>
        CallerStepLane(s, caller, c);
        hide ReleaseLease;
        ReleaseFrame(s, c);
      case ByProcess(runtime) =>
        ProcessStepLane(s, runtime, c);
        ReleaseStepLanes(s, runtime);
    }
  }

  lemma {:induction false} StaysReleased(states: seq<Pool>, actions: seq<Action>, c: CallId, i: nat, j: nat)
    requires Run(states, actions) && i <= j < |states|
    requires c in states[i].calls && HasLease(states[i], c) && LeaseOf(states[i], c).released
    ensures c in states[j].calls && HasLease(states[j], c) && LeaseOf(states[j], c).released
    decreases j
  {
    hide Invariant, Step, Enabled;
    if i < j {
      StaysReleased(states, actions, c, i, j - 1);
      RunInvariant(states, actions, j - 1);
      assert Enabled(states[j - 1], actions[j - 1]) && states[j] == Step(states[j - 1], actions[j - 1]);
      ReleasedStays(states[j - 1], actions[j - 1], c);
    }
  }

  /** No run releases a lease twice. */
  lemma ReleasedAtMostOnce(states: seq<Pool>, actions: seq<Action>, i: nat, j: nat)
    requires Run(states, actions) && i < j < |actions|
    requires Enabled(states[i], actions[i]) && Enabled(states[j], actions[j])
    requires Released(states[i], actions[i]).Some?
    ensures Released(states[i], actions[i]) != Released(states[j], actions[j])
  {
    hide Invariant, Step, Enabled;
    RunInvariant(states, actions, i);
    RunInvariant(states, actions, j);
    assert states[i + 1] == Step(states[i], actions[i]);
    ReleaseReleases(states[i], actions[i]);
    StaysReleased(states, actions, Released(states[i], actions[i]).value, i + 1, j);
    if Released(states[j], actions[j]).Some? {
      ReleaseByOwner(states[j], actions[j]);
    }
  }

  /** The process is through with a caller's request: it answered it, or failed and told everybody. */
  predicate Concluded(s: Pool, c: CallId) {
    Works(s, c) ==>
      && (ProcessOf(s, c).failure == Failed || s.calls[c].id in ProcessOf(s, c).answered)
      && !ReaderHolds(ProcessOf(s, c), c)
  }

  /** Once its process has failed or answered and its call has returned, a lease is released. */
  lemma ConcludedIsReleased(s: Pool, c: CallId)
    requires Invariant(s) && At(s, c, Returned) && Concluded(s, c)
    ensures HasLease(s, c) && LeaseOf(s, c).released
  {
    hide LanesOk, Linkage;
    CallAt(s, c);
    if s.calls[c].process.Some? {
      ProcessAt(s, s.calls[c].process.value);
    }
  }

  /** When every call has returned and is concluded, both lanes are as they started. */
  lemma NothingLeaks(s: Pool, n: LaneName)
    requires Invariant(s) && n in s.lanes
    requires forall c | c in s.calls :: At(s, c, Returned) && Concluded(s, c)
    ensures s.lanes[n].tokens == s.lanes[n].active == s.lanes[n].bytes == 0 && s.lanes[n].queue == []
  {
    hide LaneInvariant, CallsOk, NumbersOk, ProcessesOk, PoolOk;
    var lane := s.lanes[n];
    LaneAt(s, n);
    forall c | c in lane.leases ensures lane.leases[c].released {
      ConcludedIsReleased(s, c);
    }
    DrainedLaneIsEmpty(lane);
  }

  // ---------------------------------------------------------------------
  // What a process is asked to do at one time.
  // ---------------------------------------------------------------------

  /** Callers of lane n whose request was handed to p's `writes` and is not answered. */
  ghost function Outstanding(s: Pool, p: ProcessId, n: LaneName): set<CallId>
    requires p in s.processes
  {
    set c | c in s.calls && s.calls[c].lane == n && s.calls[c].process == Some(p)
            && s.calls[c].id in s.processes[p].sent && s.calls[c].id !in s.processes[p].answered
  }

  /** An unfailed process never has more unanswered requests than its lane has slots. */
  lemma OutstandingBounded(s: Pool, p: ProcessId, n: LaneName)
    requires Invariant(s) && p in s.processes && s.processes[p].failure == Alive && n in s.lanes
    ensures |Outstanding(s, p, n)| <= s.lanes[n].concurrency
    ensures s.lanes[n].concurrency == if n == Interactive then 4 else 2
  {
    hide LaneInvariant, Linkage;
    var lane := s.lanes[n];
    LaneAt(s, n);
    forall c | c in Outstanding(s, p, n) ensures c in Executing(lane.leases) {
      CallAt(s, c);
    }
    SubsetSize(Outstanding(s, p, n), Executing(lane.leases));
    ExecutingBounded(lane);
  }

  lemma ExecutingBounded(lane: Lane<CallId>)
    requires LaneInvariant(lane)
    ensures |Executing(lane.leases)| == lane.active <= lane.concurrency
  {
    hide FlagsAgree, InOrder;
  }

  lemma {:induction false} SubsetSize(a: set<CallId>, b: set<CallId>)
    requires a <= b
    ensures |a| <= |b|
  {
    if a != {} {
      var x :| x in a;
      SubsetSize(a - {x}, b - {x});
    }
  }

  /** Callers that have given up still count: at most six requests are ever outstanding. */
  lemma OutstandingTotal(s: Pool, p: ProcessId)
    requires Invariant(s) && p in s.processes && s.processes[p].failure == Alive
    ensures |Outstanding(s, p, Interactive) + Outstanding(s, p, Normalization)|
         <= INTERACTIVE_EXECUTIONS + NORMALIZATION_EXECUTIONS
  {
    assert Interactive in s.lanes && Normalization in s.lanes;
    hide Invariant;
    OutstandingBounded(s, p, Interactive);
    OutstandingBounded(s, p, Normalization);
    UnionSize(Outstanding(s, p, Interactive), Outstanding(s, p, Normalization));
  }

  lemma UnionSize(a: set<CallId>, b: set<CallId>)
    ensures |a + b| <= |a| + |b|
  {
    assert a + b == a + (b - a);
    SubsetSize(b - a, b);
  }

  /** A caller receives its own response or its process's failure, and nothing twice. */
  lemma OwnAnswerOnce(s: Pool, c: CallId)
    requires Invariant(s) && c in s.calls
    ensures s.calls[c].sends <= 1
    ensures s.calls[c].received.Some? && s.calls[c].received.value.Response? ==>
              s.calls[c].received.value.id == s.calls[c].id
    ensures forall d | d in s.calls && d != c && s.calls[c].id != 0 :: s.calls[d].id != s.calls[c].id
  {
    CallAt(s, c);
    hide CallsOk, ProcessesOk, PoolOk, LeasesOk, LanesOk;
  }

  // ---------------------------------------------------------------------
  // Nobody waits for ever inside the pool.
  // ---------------------------------------------------------------------

  /** The reader can always finish with a response it took. */
  lemma ReaderNeverBlocks(s: Pool, p: ProcessId)
    requires Invariant(s) && p in s.processes
    ensures s.processes[p].reader.Holding? ==> ProcessEnabled(s, ReaderReleases(p))
    ensures s.processes[p].reader.Owing? ==> ProcessEnabled(s, ReaderSends(p))
  {
    hide LanesOk, Linkage;
    ProcessAt(s, p);
    if s.processes[p].reader.Holding? || s.processes[p].reader.Owing? {
      CallerOf(s, p, s.processes[p].reader.call);
    }
  }

  /** The step `fail` takes next. */
  ghost function NextFailStep(p: ProcessId, q: Process): ProcessAction
    requires q.failure.Failing?
  {
    if !q.failure.cleared then ClearOwner(p)
    else if q.owed.Some? then DrainSend(p)
    else if q.draining != map[] then
      var id :| id in q.draining;
      DrainRelease(p, id)
    else FinishFail(p)
  }

  /** How many steps `fail` still has to take. */
  function FailWork(q: Process): nat {
    match q.failure
    case Alive => 2 * |q.pending| + 3
    case Failing(cleared) => 2 * |q.draining| + (if q.owed.Some? then 1 else 0) + (if cleared then 1 else 2)
    case Failed => 0
  }

  /** `fail` is never blocked, whatever callers do. */
  lemma FailNeverBlocks(s: Pool, p: ProcessId)
    requires Invariant(s) && p in s.processes && s.processes[p].failure.Failing?
    ensures ProcessEnabled(s, NextFailStep(p, s.processes[p]))
  {
    hide LanesOk, Linkage;
    var q := s.processes[p];
    ProcessAt(s, p);
    if q.owed.Some? {
      FailMaySend(s, p);
    } else if q.draining != map[] && q.failure.cleared {
      CallerOf(s, p, q.draining[NextFailStep(p, q).id]);
    }
  }

  lemma FailMaySend(s: Pool, p: ProcessId)
    requires Linkage(s) && p in s.processes && s.processes[p].owed.Some? && ProcessOk(s, p)
    ensures ProcessEnabled(s, DrainSend(p))
  {
    hide Linkage, CallOk;
    var c := s.processes[p].owed.value;
    CallerOf(s, p, c);
    ViewOwned(s.calls[c], LeaseOf(s, c), ViewOf(s, c), s.sequence);
  }

  /** A step `fail` takes for the process. */
  predicate FailStep(a: Action, p: ProcessId) {
    && a.ByProcess? && a.runtime.process == p
    && (a.runtime.ClearOwner? || a.runtime.DrainRelease? || a.runtime.DrainSend? || a.runtime.FinishFail?)
  }

  /** Nothing `fail` works on differs. */
  predicate SameFail(q: Process, r: Process) {
    q.failure == r.failure && q.draining == r.draining && q.owed == r.owed
  }

  lemma CallersLeaveFail(s: Pool, p: ProcessId, a: CallerAction)
    requires p in s.processes && s.processes[p].failure != Alive && CallerEnabled(s, a)
    ensures p in CallerStep(s, a).processes && SameFail(s.processes[p], CallerStep(s, a).processes[p])
  {
    hide AfterRelease, AfterEnqueue, AfterReserve, MoveAllowed, HasLease, Fits;
  }

  lemma OtherProcessKept(s: Pool, p: ProcessId, a: ProcessAction)
    requires p in s.processes && ProcessEnabled(s, a) && a.process != p
    ensures p in ProcessStep(s, a).processes && ProcessStep(s, a).processes[p] == s.processes[p]
  {
    hide AfterRelease, HasLease, StartFail;
  }

  lemma ProcessesLeaveFail(s: Pool, p: ProcessId, a: ProcessAction)
    requires p in s.processes && s.processes[p].failure != Alive && ProcessEnabled(s, a) && !FailStep(ByProcess(a), p)
    ensures p in ProcessStep(s, a).processes && SameFail(s.processes[p], ProcessStep(s, a).processes[p])
  {
    hide AfterRelease, HasLease;
    if a.process != p {
      OtherProcessKept(s, p, a);
    }
  }

  lemma OthersLeaveFail(s: Pool, p: ProcessId, a: Action)
    requires p in s.processes && s.processes[p].failure != Alive && Enabled(s, a) && !FailStep(a, p)
    ensures p in Step(s, a).processes && SameFail(s.processes[p], Step(s, a).processes[p])
  {
    hide CallerStep, ProcessStep, CallerEnabled, ProcessEnabled, FailStep;
    match a
    case ByCaller(caller) => CallersLeaveFail(s, p, caller);
    case ByProcess(runtime) => ProcessesLeaveFail(s, p, runtime);
    case ByClose(_) =>
  }

  lemma DrainWork(q: Process, id: RequestId, r: Process)
    requires q.failure == Failing(true) && q.owed == None && id in q.draining
    requires r.failure == q.failure && r.draining == q.draining - {id} && r.owed.Some?
    ensures FailWork(r) == FailWork(q) - 1
  {
    assert r.draining.Keys == q.draining.Keys - {id};
    assert |r.draining| == |q.draining| - 1;
  }

  lemma DrainShrinks(s: Pool, p: ProcessId, id: RequestId)
    requires ProcessEnabled(s, DrainRelease(p, id))
    ensures FailWork(ProcessStep(s, DrainRelease(p, id)).processes[p]) == FailWork(s.processes[p]) - 1
  {
    hide AfterRelease, HasLease, FailWork;
    DrainWork(s.processes[p], id, ProcessStep(s, DrainRelease(p, id)).processes[p]);
  }

  lemma OwnStepShrinks(s: Pool, p: ProcessId, a: ProcessAction)
    requires p in s.processes && s.processes[p].failure.Failing? && ProcessEnabled(s, a) && FailStep(ByProcess(a), p)
    ensures p in ProcessStep(s, a).processes && !ProcessStep(s, a).processes[p].failure.Alive?
    ensures FailWork(ProcessStep(s, a).processes[p]) == FailWork(s.processes[p]) - 1
  {
    hide AfterRelease, HasLease;
    if a.DrainRelease? {
      DrainShrinks(s, p, a.id);
    }
  }

  /**
   Each of its steps brings `fail` one nearer to its end, and no step of a caller,
   a reader, a writer, another process or Close takes it away from it.
  */
  lemma FailStepShrinks(s: Pool, p: ProcessId, a: Action)
    requires p in s.processes && s.processes[p].failure.Failing? && Enabled(s, a)
    ensures p in Step(s, a).processes && !Step(s, a).processes[p].failure.Alive?
    ensures FailWork(Step(s, a).processes[p]) == FailWork(s.processes[p]) - (if FailStep(a, p) then 1 else 0)
  {
    hide CallerStep, ProcessStep, CallerEnabled, ProcessEnabled;
    if FailStep(a, p) {
      OwnStepShrinks(s, p, a.runtime);
    } else {
      OthersLeaveFail(s, p, a);
    }
  }

  function FailSteps(actions: seq<Action>, p: ProcessId): nat {
    if actions == [] then 0
    else FailSteps(actions[..|actions| - 1], p) + if FailStep(actions[|actions| - 1], p) then 1 else 0
  }

  lemma FailedStays(s: Pool, p: ProcessId, a: Action)
    requires p in s.processes && s.processes[p].failure.Failed? && s.processes[p].owed == None && Enabled(s, a)
    ensures p in Step(s, a).processes && Step(s, a).processes[p].failure.Failed? && !FailStep(a, p)
  {
    hide CallerStep, ProcessStep, CallerEnabled, Step;
    OthersLeaveFail(s, p, a);
  }

  /**
   Over any stretch of any run that starts with `fail` at work: what it had to do
   is what it has done and what it has left, and it has failed exactly when
   nothing is left. So after FailWork steps of its own, and they are never
   blocked, it has ended.
  */
  lemma {:induction false} FailEnds(states: seq<Pool>, actions: seq<Action>, p: ProcessId, i: nat, j: nat)
    requires Run(states, actions) && i <= j < |states|
    requires p in states[i].processes && states[i].processes[p].failure.Failing?
    ensures p in states[j].processes && !states[j].processes[p].failure.Alive?
    ensures FailWork(states[i].processes[p]) == FailSteps(actions[i..j], p) + FailWork(states[j].processes[p])
    ensures states[j].processes[p].failure.Failed? <==> FailSteps(actions[i..j], p) == FailWork(states[i].processes[p])
  {
    hide Step, Enabled, Invariant, FailStep;
    if i < j {
      FailEnds(states, actions, p, i, j - 1);
      var s, a := states[j - 1], actions[j - 1];
      assert Enabled(s, a) && states[j] == Step(s, a);
      assert actions[i..j][..j - 1 - i] == actions[i..j - 1];
      if s.processes[p].failure.Failing? {
        FailStepShrinks(s, p, a);
      } else {
        RunInvariant(states, actions, j - 1);
        FailedOwesNothing(s, p);
        FailedStays(s, p, a);
      }
    }
  }

  lemma FailedOwesNothing(s: Pool, p: ProcessId)
    requires Invariant(s) && p in s.processes && s.processes[p].failure.Failed?
    ensures s.processes[p].owed == None
  {
    hide LanesOk, Linkage;
    ProcessAt(s, p);
  }

  // ---------------------------------------------------------------------
  // Restart and close.
  // ---------------------------------------------------------------------

  lemma AtMostOneLiveProcess(s: Pool, p: ProcessId, q: ProcessId)
    requires Invariant(s) && p in s.processes && q in s.processes
    requires s.processes[p].failure == Alive && s.processes[q].failure == Alive
    ensures p == q && s.current == Some(p)
  {
    hide LanesOk, Linkage;
    ProcessAt(s, p);
    ProcessAt(s, q);
  }

  lemma CallerKeepsClosed(s: Pool, a: CallerAction)
    requires CallerEnabled(s, a)
    ensures CallerStep(s, a).closer == s.closer
    ensures s.closed ==> CallerStep(s, a).processes.Keys == s.processes.Keys
  {
    hide AfterRelease, AfterEnqueue, AfterReserve, MoveAllowed, StartFail;
  }

  lemma ProcessKeepsClosed(s: Pool, a: ProcessAction)
    requires ProcessEnabled(s, a)
    ensures ProcessStep(s, a).closer == s.closer
    ensures ProcessStep(s, a).processes.Keys == s.processes.Keys
  {
    hide AfterRelease, StartFail;
  }

  lemma ClosedStays(s: Pool, a: Action)
    requires Enabled(s, a) && s.closer == CloseDone && s.closed
    ensures Step(s, a).closer == CloseDone
    ensures Step(s, a).processes.Keys == s.processes.Keys
  {
    hide CallerStep, ProcessStep, CallerEnabled, ProcessEnabled;
    match a
    case ByCaller(caller) => CallerKeepsClosed(s, caller);
    case ByProcess(runtime) => ProcessKeepsClosed(s, runtime);
    case ByClose(_) =>
  }

  /** After `Close` has returned no process is alive, and none is ever started again. */
  lemma {:induction false} CloseIsFinal(states: seq<Pool>, actions: seq<Action>, i: nat, j: nat)
    requires Run(states, actions) && i <= j < |states| && states[i].closer == CloseDone
    ensures states[j].closer == CloseDone && states[j].processes.Keys == states[i].processes.Keys
    ensures forall p | p in states[j].processes :: states[j].processes[p].failure != Alive
    decreases j
  {
    hide LanesOk, CallsOk, LeasesOk, NumbersOk, Step, Enabled;
    RunInvariant(states, actions, j);
    if i < j {
      CloseIsFinal(states, actions, i, j - 1);
      RunInvariant(states, actions, j - 1);
      assert Enabled(states[j - 1], actions[j - 1]) && states[j] == Step(states[j - 1], actions[j - 1]);
      ClosedStays(states[j - 1], actions[j - 1]);
    }
    assert forall p | p in states[j].processes :: ProcessOk(states[j], p);
  }

  // ---------------------------------------------------------------------
  // Together.
  // ---------------------------------------------------------------------

  /**
   At every point of every interleaving: an unreleased lease has one owner and a
   released one none; a lane's counters are its leases' and within their limits,
   with no free slot beside a waiting request; a live process has at most six
   unanswered requests; a call has been sent at most one answer, its own.
  */
  lemma EveryInterleaving(
    states: seq<Pool>, actions: seq<Action>, i: nat, c: CallId, p: ProcessId, n: LaneName)
    requires Run(states, actions) && i < |states|
    ensures var s := states[i];
      && (c in s.calls ==>
            && HasLease(s, c) && s.calls[c].sends <= 1
            && (LeaseOf(s, c).released <==> !exists owner :: Owns(s, c, owner))
            && (forall one, other | Owns(s, c, one) && Owns(s, c, other) :: one == other)
            && (s.calls[c].received.Some? && s.calls[c].received.value.Response? ==>
                  s.calls[c].received.value.id == s.calls[c].id))
      && (p in s.processes && s.processes[p].failure == Alive ==>
            |Outstanding(s, p, Interactive) + Outstanding(s, p, Normalization)| <= 6)
      && (n in s.lanes ==> LaneExact(s.lanes[n]) && LaneLimits(s.lanes[n], n))
  {
    hide Invariant, Run;
    RunInvariant(states, actions, i);
    var s := states[i];
    if c in s.calls {
      UniqueOwner(s, c);
      OwnAnswerOnce(s, c);
    }
    if p in s.processes && s.processes[p].failure == Alive {
      OutstandingTotal(s, p);
    }
    if n in s.lanes {
      LaneAtInvariant(s, n);
      LaneIsExact(s.lanes[n]);
    }
  }

  /** A lane's counters against its leases. */
  ghost predicate LaneExact(lane: Lane<CallId>) {
    && |Executing(lane.leases)| == lane.active <= lane.concurrency
    && HeldBytes(lane.leases) == lane.bytes <= MAXIMUM_MESSAGE
    && |Unreleased(lane.leases)| == lane.tokens <= lane.capacity
    && (lane.active == lane.concurrency || lane.queue == [])
  }

  /** How many requests a lane runs and how many it admits. */
  predicate LaneLimits(lane: Lane<CallId>, n: LaneName) {
    if n == Interactive then lane.concurrency == 4 && lane.capacity == 32
    else lane.concurrency == 2 && lane.capacity == 6
  }

  lemma LaneAtInvariant(s: Pool, n: LaneName)
    requires Invariant(s) && n in s.lanes
    ensures LaneInvariant(s.lanes[n]) && LaneLimits(s.lanes[n], n)
  {
    hide LaneInvariant, Linkage;
  }

  lemma LaneIsExact(lane: Lane<CallId>)
    requires LaneInvariant(lane)
    ensures LaneExact(lane)
  {
    hide FlagsAgree, InOrder;
  }
}
