/** What the lanes of the worker pool have accepted, read off the steps of a run. */
module WorkerBudget {
  import opened Scheduling
  import opened Worker
  import opened Wrappers
  import opened WorkerInvariant
  import opened WorkerRuns

  /** What c's frame takes of its lane's budget after the step from s to t, when it took `before` in s. */
  ghost function StepCharge(s: Pool, a: Action, t: Pool, c: CallId, before: nat): nat
    requires Enabled(s, a)
  {
    if a.ByCaller? && a.caller.EnqueueFrame? && a.caller.call == c then
      if At(t, c, Framed) then a.caller.size else 0
    else if Released(s, a) == Some(c) then 0
    else before
  }

  /** The size of c's frame once it was accepted and until its lease is released. */
  ghost function Charge(states: seq<Pool>, actions: seq<Action>, i: nat, c: CallId): nat
    requires Run(states, actions) && i < |states|
  {
    if i == 0 then 0
    else StepCharge(states[i - 1], actions[i - 1], states[i], c, Charge(states, actions, i - 1, c))
  }

  ghost function Charges(states: seq<Pool>, actions: seq<Action>, i: nat, n: LaneName): map<CallId, nat>
    requires Run(states, actions) && i < |states|
  {
    map c | c in states[i].calls && states[i].calls[c].lane == n :: Charge(states, actions, i, c)
  }

  ghost function Total(charges: map<CallId, nat>): nat {
    if charges == map[] then 0
    else
      var c :| c in charges;
      charges[c] + Total(charges - {c})
  }

  lemma {:induction false} TotalSplit(charges: map<CallId, nat>, c: CallId)
    requires c in charges
    ensures Total(charges) == charges[c] + Total(charges - {c})
    decreases |charges|
  {
    var d :| d in charges && Total(charges) == charges[d] + Total(charges - {d});
    if d != c {
      TotalSplit(charges - {d}, c);
      TotalSplit(charges - {c}, d);
      assert charges - {d} - {c} == charges - {c} - {d};
    }
  }

  lemma {:induction false} TotalIsHeld(charges: map<CallId, nat>, leases: map<CallId, Lease>)
    requires charges.Keys == leases.Keys
    requires forall c | c in leases :: charges[c] == Weight(leases[c])
    ensures Total(charges) == HeldBytes(leases)
    decreases |leases|
  {
    if leases != map[] {
      var c :| c in leases;
      HeldBytesSplit(leases, c);
      TotalSplit(charges, c);
      assert (charges - {c}).Keys == (leases - {c}).Keys;
      TotalIsHeld(charges - {c}, leases - {c});
    }
  }

  // ---------------------------------------------------------------------
  // One step.
  // ---------------------------------------------------------------------

  function HeldBy(s: Pool, c: CallId): nat {
    if HasLease(s, c) then Weight(LeaseOf(s, c)) else 0
  }

  lemma HeldKept(s: Pool, t: Pool, x: CallId, c: CallId)
    requires LanesProgress(s, t, x) && c != x && c in s.calls && c in t.calls && t.calls[c].lane == s.calls[c].lane
    ensures HeldBy(t, c) == HeldBy(s, c)
  {
  }

  lemma BeginHeld(s: Pool, c: CallId, n: LaneName, d: CallId)
    requires Invariant(s) && CallerEnabled(s, Begin(c, n))
    ensures HeldBy(CallerStep(s, Begin(c, n)), d) == HeldBy(s, d)
  {
    hide LanesOk, CallsOk, NumbersOk, ProcessesOk, PoolOk;
  }

  lemma EnqueueHeld(s: Pool, c: CallId, size: nat, d: CallId)
    requires Invariant(s) && CallerEnabled(s, EnqueueFrame(c, size)) && d in s.calls
    ensures var t := CallerStep(s, EnqueueFrame(c, size));
            HeldBy(t, d) == if d != c then HeldBy(s, d) else if At(t, c, Framed) then size else 0
  {
    hide LanesOk, Linkage, AfterEnqueue, LanesProgress;
    var t, n := CallerStep(s, EnqueueFrame(c, size)), s.calls[c].lane;
    CallAt(s, c);
    EnqueuedLanes(s, c, size);
    LanesFollow(SetLane(s, n, AfterEnqueue(s.lanes[n], c, size)), s, t, c);
    if d == c {
      LaneAt(s, n);
      hide LaneInvariant, EnqueuedExactly;
      EnqueueExactly(s.lanes[n], c, size);
      EnqueuedWeight(s.lanes[n], c, size);
    } else {
      HeldKept(s, t, c, d);
    }
  }

  lemma EnqueuedWeight(lane: Lane<CallId>, c: CallId, size: nat)
    requires c in lane.leases && lane.leases[c] == NEW_LEASE
    requires if lane.bytes + size > 64 * 1024 * 1024 then AfterEnqueue(lane, c, size) == lane
             else EnqueuedExactly(lane, AfterEnqueue(lane, c, size), c, size)
    ensures c in AfterEnqueue(lane, c, size).leases
    ensures Weight(AfterEnqueue(lane, c, size).leases[c]) == if lane.bytes + size <= 64 * 1024 * 1024 then size else 0
  {
    hide AfterEnqueue;
  }

  /** A release takes nothing from anybody else. */
  lemma ReleaseHeld(s: Pool, a: Action, d: CallId)
    requires Invariant(s) && Enabled(s, a) && Released(s, a).Some? && d in s.calls
    ensures HeldBy(Step(s, a), d) == if Released(s, a) == Some(d) then 0 else HeldBy(s, d)
  {
    hide LanesOk, Linkage, LanesProgress;
    ReleaseByOwner(s, a);
    var c, t := Released(s, a).value, Step(s, a);
    ReleasedLanes(s, c);
    ReleaseReleases(s, a);
    match a {
      case ByCaller(caller) =>
        CallerStepLane(s, caller, d);
        hide ReleaseLease;
        ReleaseFrame(s, c);
      case ByProcess(runtime) =>
        ProcessStepLane(s, runtime, d);
        ReleaseStepLanes(s, runtime);
    }
    hide Step, Released, ReleaseLease;
    LanesFollow(ReleaseLease(s, c), s, t, c);
    if d != c {
      HeldKept(s, t, c, d);
    }
  }

  lemma StepHeld(s: Pool, a: Action, d: CallId)
    requires Invariant(s) && Enabled(s, a) && d in Step(s, a).calls
    ensures HeldBy(Step(s, a), d) == StepCharge(s, a, Step(s, a), d, HeldBy(s, d))
  {
    hide Invariant, ProcessStep, HeldBy;
    if Released(s, a).Some? {
      ReleaseCalls(s, a, d);
      ReleaseHeld(s, a, d);
    } else {
      match a
      case ByCaller(Begin(c, n)) => BeginHeld(s, c, n, d);
      case ByCaller(EnqueueFrame(c, size)) => EnqueueHeld(s, c, size, d);
      case _ => QuietHeld(s, a, d);
    }
  }

  lemma ReleaseCalls(s: Pool, a: Action, d: CallId)
    requires Enabled(s, a) && Released(s, a).Some? && d in Step(s, a).calls
    ensures d in s.calls
  {
    hide AfterRelease;
  }

  lemma QuietHeld(s: Pool, a: Action, d: CallId)
    requires Enabled(s, a) && Released(s, a).None? && d in Step(s, a).calls
    requires !(a.ByCaller? && (a.caller.Begin? || a.caller.EnqueueFrame?))
    ensures HeldBy(Step(s, a), d) == HeldBy(s, d)
  {
    hide CallerStep, ProcessStep, CallerEnabled, ProcessEnabled;
    QuietCalls(s, a, d);
    match a {
      case ByCaller(caller) =>
        CallerLanes(s, caller);
        CallerStepLane(s, caller, d);
      case ByProcess(runtime) =>
        ProcessLanes(s, runtime);
        ProcessStepLane(s, runtime, d);
      case ByClose(_) =>
    }
  }

  lemma QuietCalls(s: Pool, a: Action, d: CallId)
    requires Enabled(s, a) && d in Step(s, a).calls && !(a.ByCaller? && a.caller.Begin?)
    ensures d in s.calls
  {
    hide CallerStep, ProcessStep, CallerEnabled, ProcessEnabled;
    match a
    case ByCaller(caller) => QuietCallerCalls(s, caller, d);
    case ByProcess(runtime) => QuietProcessCalls(s, runtime, d);
    case ByClose(_) =>
  }

  lemma QuietCallerCalls(s: Pool, a: CallerAction, d: CallId)
    requires CallerEnabled(s, a) && d in CallerStep(s, a).calls && !a.Begin?
    ensures d in s.calls
  {
    hide AfterRelease, AfterEnqueue, MoveAllowed, HasLease, Fits, StartFail;
  }

  lemma QuietProcessCalls(s: Pool, a: ProcessAction, d: CallId)
    requires ProcessEnabled(s, a) && d in ProcessStep(s, a).calls
    ensures d in s.calls
  {
    hide AfterRelease, HasLease, StartFail;
  }

  // ---------------------------------------------------------------------
  // Whole runs.
  // ---------------------------------------------------------------------

  lemma {:induction false} ChargeIsHeld(states: seq<Pool>, actions: seq<Action>, i: nat, c: CallId)
    requires Run(states, actions) && i < |states| && c in states[i].calls
    ensures HasLease(states[i], c) && Charge(states, actions, i, c) == Weight(LeaseOf(states[i], c))
  {
    hide Invariant, Step, Enabled, StepCharge, HeldBy;
    RunInvariant(states, actions, i);
    LeaseAt(states[i], c);
    if i > 0 {
      var s, a := states[i - 1], actions[i - 1];
      assert Enabled(s, a) && states[i] == Step(s, a);
      RunInvariant(states, actions, i - 1);
      StepHeld(s, a, c);
      if c in s.calls {
        ChargeIsHeld(states, actions, i - 1, c);
        LeaseAt(s, c);
      } else {
        NeverCharged(states, actions, i - 1, c);
      }
    }
  }

  lemma LeaseAt(s: Pool, c: CallId)
    requires Invariant(s) && c in s.calls
    ensures HasLease(s, c) && HeldBy(s, c) == Weight(LeaseOf(s, c))
  {
    hide LanesOk, CallsOk, NumbersOk, ProcessesOk, PoolOk, Weight;
  }

  /** A caller that has not begun holds nothing. */
  lemma {:induction false} NeverCharged(states: seq<Pool>, actions: seq<Action>, i: nat, c: CallId)
    requires Run(states, actions) && i < |states| && c !in states[i].calls
    ensures Charge(states, actions, i, c) == 0 == HeldBy(states[i], c)
  {
    hide Invariant, Step, Enabled;
    if i > 0 {
      var s, a := states[i - 1], actions[i - 1];
      assert Enabled(s, a) && states[i] == Step(s, a);
      CallsStay(s, a);
      NeverCharged(states, actions, i - 1, c);
    }
  }

  lemma CallsStay(s: Pool, a: Action)
    requires Enabled(s, a)
    ensures s.calls.Keys <= Step(s, a).calls.Keys
  {
    hide CallerStep, ProcessStep, CallerEnabled, ProcessEnabled;
    forall c | c in s.calls ensures c in Step(s, a).calls {
      match a
      case ByCaller(caller) => CallerStepLane(s, caller, c);
      case ByProcess(runtime) => ProcessStepLane(s, runtime, c);
      case ByClose(_) =>
    }
  }

  /**
   At every state of every run a lane's `bytes` is the sum of the sizes of the
   frames that were enqueued and accepted and whose lease nobody has released
   since, and it stays within 64 MiB.
  */
  lemma BytesAreCharges(states: seq<Pool>, actions: seq<Action>, i: nat, n: LaneName)
    requires Run(states, actions) && i < |states|
    ensures n in states[i].lanes
    ensures states[i].lanes[n].bytes == Total(Charges(states, actions, i, n)) <= 64 * 1024 * 1024
  {
    hide Charge, Run, Invariant, HeldBytes, Weight, Total;
    RunInvariant(states, actions, i);
    LeasesAreCalls(states[i], n);
    var s, charges := states[i], Charges(states, actions, i, n);
    forall c | c in charges ensures charges[c] == Weight(s.lanes[n].leases[c]) {
      ChargeIsHeld(states, actions, i, c);
    }
    TotalIsHeld(charges, s.lanes[n].leases);
  }

  lemma LeasesAreCalls(s: Pool, n: LaneName)
    requires Invariant(s)
    ensures n in s.lanes && s.lanes[n].leases.Keys == (set c | c in s.calls && s.calls[c].lane == n)
    ensures s.lanes[n].bytes == HeldBytes(s.lanes[n].leases) <= 64 * 1024 * 1024
  {
    hide CallsOk, NumbersOk, ProcessesOk, PoolOk, FlagsAgree, InOrder;
    forall c | c in s.calls && s.calls[c].lane == n ensures c in s.lanes[n].leases {
      assert HasLease(s, c);
    }
  }

  /** A frame is accepted exactly when it fits beside those charges. */
  lemma AcceptedExactly(states: seq<Pool>, actions: seq<Action>, i: nat, c: CallId, size: nat)
    requires Run(states, actions) && i < |actions| && actions[i] == ByCaller(EnqueueFrame(c, size))
    ensures c in states[i].calls
    ensures var n := states[i].calls[c].lane;
            if Total(Charges(states, actions, i, n)) + size <= 64 * 1024 * 1024 then At(states[i + 1], c, Framed)
            else At(states[i + 1], c, EncodeFailed) && states[i + 1].lanes == states[i].lanes
  {
    hide Charge, AfterEnqueue;
    assert Enabled(states[i], actions[i]) && states[i + 1] == Step(states[i], actions[i]);
    BytesAreCharges(states, actions, i, states[i].calls[c].lane);
    hide Charges;
    if !Fits(states[i].lanes[states[i].calls[c].lane], size) {
      RefusedLanes(states[i], c, size);
    }
  }

  lemma RefusedLanes(s: Pool, c: CallId, size: nat)
    requires CallerEnabled(s, EnqueueFrame(c, size)) && !Fits(s.lanes[s.calls[c].lane], size)
    ensures CallerStep(s, EnqueueFrame(c, size)).lanes == s.lanes
  {
  }
}
