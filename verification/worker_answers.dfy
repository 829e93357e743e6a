/** Which answer a caller of the worker pool gets, and which frames its process is handed. */
module WorkerAnswers {
  import opened Scheduling
  import opened Worker
  import opened Wrappers
  import opened WorkerInvariant
  import opened WorkerRuns
  import opened WorkerBudget

  // ---------------------------------------------------------------------
  // The answers, read off the steps.
  // ---------------------------------------------------------------------

  /** What a step sends on c's channel. */
  function Sends(s: Pool, a: Action, c: CallId): seq<Answer>
    requires Enabled(s, a)
  {
    match a
    case ByProcess(ReaderSends(p)) =>
      if s.processes[p].reader.call == c then [Response(s.processes[p].reader.id)] else []
    case ByProcess(DrainSend(p)) =>
      if s.processes[p].owed == Some(c) then [ProcessFailure] else []
    case _ => []
  }

  /** Everything sent on c's channel so far. */
  ghost function SentTo(states: seq<Pool>, actions: seq<Action>, i: nat, c: CallId): seq<Answer>
    requires Run(states, actions) && i < |states|
  {
    if i == 0 then [] else SentTo(states, actions, i - 1, c) + Sends(states[i - 1], actions[i - 1], c)
  }

  /** `fail` holds c's request in the table it took. */
  predicate Drains(s: Pool, c: CallId) {
    Works(s, c) && s.calls[c].id in ProcessOf(s, c).draining
  }

  /** `fail` took c's request at or before the i-th state. */
  ghost predicate FailTook(states: seq<Pool>, i: nat, c: CallId)
    requires i < |states|
  {
    exists j :: 0 <= j <= i && Drains(states[j], c)
  }

  /** The reader of its process took c's request. */
  predicate Answered(s: Pool, c: CallId) {
    Works(s, c) && s.calls[c].id in ProcessOf(s, c).answered
  }

  /** The reader has c's response in hand. */
  predicate WithReader(s: Pool, c: CallId) {
    Works(s, c) && (ReaderHolds(ProcessOf(s, c), c) || ReaderOwes(ProcessOf(s, c), c))
  }

  /** `fail` has c's request in hand. */
  predicate WithFail(s: Pool, c: CallId) {
    Works(s, c) && (s.calls[c].id in ProcessOf(s, c).draining || FailOwes(ProcessOf(s, c), c))
  }

  /** c took an answer from its channel before the i-th state. */
  ghost predicate HasReceived(actions: seq<Action>, i: nat, c: CallId)
    requires i <= |actions|
  {
    exists j :: 0 <= j < i && actions[j] == ByCaller(Receive(c))
  }

  /** What has been sent to a caller, against where its request is. */
  predicate CallDelivered(call: Call, view: View, sent: seq<Answer>, taken: bool, got: bool) {
    && |sent| == call.sends <= 1
    && (if sent == [] then call.inbox == None && call.received == None && !got
        else if got then call.inbox == None && call.received == Some(sent[0])
        else call.inbox == Some(sent[0]) && call.received == None)
    && (view.Detached? ==> sent == [] && !taken)
    && (view.View? ==>
          && (view.answered <==> view.held || view.owing || sent == [Response(call.id)])
          && (taken <==> view.draining || view.owed || sent == [ProcessFailure])
          && (taken ==> !view.alive && !view.answered)
          && (sent != [] ==> sent == [Response(call.id)] || sent == [ProcessFailure]))
  }

  predicate Delivered(s: Pool, c: CallId, sent: seq<Answer>, taken: bool, got: bool) {
    if c !in s.calls then sent == [] && !taken && !got
    else CallDelivered(s.calls[c], ViewOf(s, c), sent, taken, got)
  }

  // ---------------------------------------------------------------------
  // One step.
  // ---------------------------------------------------------------------

  /** Nothing about c's answer differs between s and t. */
  predicate SameAnswer(s: Pool, t: Pool, c: CallId) {
    && c in s.calls && c in t.calls
    && t.calls[c] == s.calls[c].(stage := t.calls[c].stage, cancelled := t.calls[c].cancelled)
    && SameView(ViewOf(s, c), ViewOf(t, c))
  }

  predicate SameView(v: View, w: View) {
    if v.Detached? then w.Detached? else w.View? && w == v.(entry := w.entry, sent := w.sent)
  }

  lemma SameDelivered(s: Pool, t: Pool, c: CallId, sent: seq<Answer>, taken: bool, got: bool)
    requires SameAnswer(s, t, c) && Delivered(s, c, sent, taken, got)
    ensures Delivered(t, c, sent, taken || Drains(t, c), got)
  {
  }

  /** Most steps of a caller. */
  predicate PlainCallerAction(a: CallerAction, c: CallId) {
    match a
    case Begin(d, _) => d != c
    case TakeNumber(d) => d != c
    case UseCurrent(d) => d != c
    case Spawn(d, _) => d != c
    case Receive(d) => d != c
    case CallerFails(_) => false
    case _ => true
  }

  lemma CallerCallsKept(s: Pool, a: CallerAction, c: CallId)
    requires CallerEnabled(s, a) && c in s.calls && PlainCallerAction(a, c)
    ensures c in CallerStep(s, a).calls
    ensures CallerStep(s, a).calls[c] ==
            s.calls[c].(stage := CallerStep(s, a).calls[c].stage, cancelled := CallerStep(s, a).calls[c].cancelled)
  {
    hide AfterRelease, AfterEnqueue, AfterReserve, MoveAllowed, HasLease, Fits, StartFail;
  }

  /** A caller's step leaves what the reader and `fail` work on alone. */
  predicate SameObligations(q: Process, r: Process) {
    SameFail(q, r) && r.reader == q.reader && r.answered == q.answered
  }

  lemma CallerProcessesKept(s: Pool, a: CallerAction, p: ProcessId)
    requires CallerEnabled(s, a) && p in s.processes && !a.CallerFails?
    ensures p in CallerStep(s, a).processes && SameObligations(s.processes[p], CallerStep(s, a).processes[p])
  {
    hide AfterRelease, AfterEnqueue, AfterReserve, MoveAllowed, HasLease, Fits;
  }

  lemma ObligationsView(s: Pool, t: Pool, c: CallId)
    requires c in s.calls && c in t.calls
    requires t.calls[c] == s.calls[c].(stage := t.calls[c].stage, cancelled := t.calls[c].cancelled)
    requires s.calls[c].process.Some? ==> Works(s, c)
    requires Works(s, c) ==>
      var p := s.calls[c].process.value; p in t.processes && SameObligations(s.processes[p], t.processes[p])
    ensures SameAnswer(s, t, c)
  {
  }

  lemma PlainCallerDelivered(s: Pool, a: CallerAction, c: CallId)
    requires Invariant(s) && CallerEnabled(s, a) && c in s.calls && PlainCallerAction(a, c)
    ensures SameAnswer(s, CallerStep(s, a), c)
  {
    hide LanesOk, Linkage, CallerStep, CallerEnabled, SameObligations, SameAnswer;
    CallAt(s, c);
    CallerCallsKept(s, a, c);
    if s.calls[c].process.Some? {
      CallerProcessesKept(s, a, s.calls[c].process.value);
    }
    ObligationsView(s, CallerStep(s, a), c);
  }

  /** A process starts to fail; some callers may move. */
  lemma StartFailDelivered(
    s: Pool, t: Pool, p: ProcessId, c: CallId, sent: seq<Answer>, taken: bool, got: bool)
    requires Invariant(s) && p in s.processes && p in t.processes && c in s.calls && c in t.calls
    requires t.calls[c] == s.calls[c].(stage := t.calls[c].stage, cancelled := t.calls[c].cancelled)
    requires t.processes == s.processes[p := t.processes[p]]
    requires var q := StartFail(s.processes[p]);
      t.processes[p] == q.(reader := t.processes[p].reader, writer := t.processes[p].writer)
    requires forall d :: ReaderHolds(t.processes[p], d) == ReaderHolds(s.processes[p], d)
    requires forall d :: ReaderOwes(t.processes[p], d) == ReaderOwes(s.processes[p], d)
    requires Delivered(s, c, sent, taken, got)
    ensures Delivered(t, c, sent, taken || Drains(t, c), got)
  {
    hide LanesOk, Linkage, LeaseFits;
    CallAt(s, c);
    ProcessAt(s, p);
    if s.calls[c].process == Some(p) && s.processes[p].failure == Alive {
      OwnEntry(s, p, c);
    } else {
      assert SameAnswer(s, t, c);
    }
  }

  lemma CallerDelivered(s: Pool, a: CallerAction, c: CallId, sent: seq<Answer>, taken: bool, got: bool)
    requires Invariant(s) && CallerEnabled(s, a) && Delivered(s, c, sent, taken, got)
    ensures var t := CallerStep(s, a); Delivered(t, c, sent, taken || Drains(t, c), got || a == Receive(c))
  {
    hide LanesOk, Linkage;
    var t := CallerStep(s, a);
    if c !in s.calls {
      NewcomerDelivered(s, a, c);
    } else if PlainCallerAction(a, c) {
      PlainCallerDelivered(s, a, c);
      hide CallerStep, CallerEnabled;
      SameDelivered(s, t, c, sent, taken, got);
    } else {
      OwnDelivered(s, a, c, sent, taken, got);
    }
  }

  lemma NewcomerDelivered(s: Pool, a: CallerAction, c: CallId)
    requires CallerEnabled(s, a) && c !in s.calls
    ensures Delivered(CallerStep(s, a), c, [], false, false) && !Drains(CallerStep(s, a), c) && a != Receive(c)
  {
    hide AfterRelease, AfterEnqueue, AfterReserve, MoveAllowed, HasLease, Fits, StartFail;
    if !a.Begin? {
      if c in CallerStep(s, a).calls {
        QuietCallerCalls(s, a, c);
      }
    }
  }

  lemma OwnDelivered(s: Pool, a: CallerAction, c: CallId, sent: seq<Answer>, taken: bool, got: bool)
    requires Invariant(s) && CallerEnabled(s, a) && c in s.calls && !PlainCallerAction(a, c)
    requires Delivered(s, c, sent, taken, got)
    ensures var t := CallerStep(s, a); Delivered(t, c, sent, taken || Drains(t, c), got || a == Receive(c))
  {
    hide LanesOk, Linkage;
    var t := CallerStep(s, a);
    CallAt(s, c);
    match a {
      case TakeNumber(d) =>
      case UseCurrent(d) =>
        CurrentExists(s);
        Unseen(s, c, s.current.value);
      case Spawn(d, p) =>
      case Receive(d) =>
      case CallerFails(d) =>
        StartFailDelivered(s, t, s.calls[d].process.value, c, sent, taken, got);
      case Begin(_, _) =>
    }
  }

  lemma ReaderTakesDelivered(
    s: Pool, p: ProcessId, id: RequestId, c: CallId, sent: seq<Answer>, taken: bool, got: bool)
    requires Invariant(s) && ProcessEnabled(s, ReaderTakes(p, id)) && c in s.calls && Delivered(s, c, sent, taken, got)
    ensures var t := ProcessStep(s, ReaderTakes(p, id)); Delivered(t, c, sent, taken || Drains(t, c), got)
  {
    hide LanesOk, Linkage, LeaseFits;
    var t := ProcessStep(s, ReaderTakes(p, id));
    CallAt(s, c);
    ProcessAt(s, p);
    if s.calls[c].process == Some(p) {
      OwnEntry(s, p, c);
    }
    if id !in s.processes[p].pending || s.processes[p].pending[id] != c {
      assert SameAnswer(s, t, c);
    }
  }

  lemma ReaderReleasesDelivered(s: Pool, p: ProcessId, c: CallId, sent: seq<Answer>, taken: bool, got: bool)
    requires Invariant(s) && ProcessEnabled(s, ReaderReleases(p)) && c in s.calls && Delivered(s, c, sent, taken, got)
    ensures var t := ProcessStep(s, ReaderReleases(p)); Delivered(t, c, sent, taken || Drains(t, c), got)
  {
    hide LanesOk, Linkage, LeaseFits, AfterRelease;
    var t := ProcessStep(s, ReaderReleases(p));
    CallAt(s, c);
    ProcessAt(s, p);
    if s.processes[p].reader.call != c {
      assert SameAnswer(s, t, c);
    }
  }

  lemma ReaderSendsDelivered(s: Pool, p: ProcessId, c: CallId, sent: seq<Answer>, taken: bool, got: bool)
    requires Invariant(s) && ProcessEnabled(s, ReaderSends(p)) && c in s.calls && Delivered(s, c, sent, taken, got)
    ensures var t := ProcessStep(s, ReaderSends(p));
            Delivered(t, c, sent + Sends(s, ByProcess(ReaderSends(p)), c), taken || Drains(t, c), got)
  {
    hide LanesOk, Linkage, LeaseFits;
    var t := ProcessStep(s, ReaderSends(p));
    CallAt(s, c);
    ProcessAt(s, p);
    if s.processes[p].reader.call != c {
      assert SameAnswer(s, t, c);
      assert sent + [] == sent;
    } else {
      assert sent == [];
      assert sent + [Response(s.calls[c].id)] == [Response(s.calls[c].id)];
    }
  }

  lemma DrainReleaseDelivered(
    s: Pool, p: ProcessId, id: RequestId, c: CallId, sent: seq<Answer>, taken: bool, got: bool)
    requires Invariant(s) && ProcessEnabled(s, DrainRelease(p, id)) && c in s.calls && Delivered(s, c, sent, taken, got)
    ensures var t := ProcessStep(s, DrainRelease(p, id)); Delivered(t, c, sent, taken || Drains(t, c), got)
  {
    hide LanesOk, Linkage, LeaseFits, AfterRelease, CallOk;
    var t := ProcessStep(s, DrainRelease(p, id));
    ProcessAt(s, p);
    hide ProcessFits, HasLease;
    if s.calls[c].process == Some(p) {
      OwnEntry(s, p, c);
    } else {
      assert SameAnswer(s, t, c);
    }
  }

  lemma DrainSendDelivered(s: Pool, p: ProcessId, c: CallId, sent: seq<Answer>, taken: bool, got: bool)
    requires Invariant(s) && ProcessEnabled(s, DrainSend(p)) && c in s.calls && Delivered(s, c, sent, taken, got)
    ensures var t := ProcessStep(s, DrainSend(p));
            Delivered(t, c, sent + Sends(s, ByProcess(DrainSend(p)), c), taken || Drains(t, c), got)
  {
    hide LanesOk, Linkage, LeaseFits;
    var t := ProcessStep(s, DrainSend(p));
    CallAt(s, c);
    ProcessAt(s, p);
    if s.processes[p].owed == Some(c) {
      ViewOwned(s.calls[c], LeaseOf(s, c), ViewOf(s, c), s.sequence);
      assert sent == [] && sent + [ProcessFailure] == [ProcessFailure];
    } else {
      assert SameAnswer(s, t, c) && sent + [] == sent;
    }
  }

  /** Steps that touch neither a request nor a caller. */
  predicate Bookkeeping(a: ProcessAction) {
    a.ReaderMoves? || a.WriterTakes? || a.WriterMoves? || a.ClearOwner? || a.FinishFail?
  }

  /** What a caller sees of a process that only keeps its books. */
  predicate SameBooks(q: Process, r: Process) {
    && (r.failure == Alive <==> q.failure == Alive)
    && r.draining == q.draining && r.owed == q.owed && r.answered == q.answered
    && (r.reader == q.reader || !(r.reader.Holding? || r.reader.Owing? || q.reader.Holding? || q.reader.Owing?))
  }

  lemma BooksSame(s: Pool, a: ProcessAction)
    requires ProcessEnabled(s, a) && Bookkeeping(a)
    ensures var t := ProcessStep(s, a);
      && a.process in s.processes && a.process in t.processes && t.calls == s.calls
      && t.processes == s.processes[a.process := t.processes[a.process]]
      && SameBooks(s.processes[a.process], t.processes[a.process])
  {
  }

  lemma BooksView(s: Pool, t: Pool, p: ProcessId, c: CallId)
    requires p in s.processes && p in t.processes && SameBooks(s.processes[p], t.processes[p])
    requires t.calls == s.calls && t.processes == s.processes[p := t.processes[p]] && c in s.calls
    ensures SameAnswer(s, t, c)
  {
    var q, r := s.processes[p], t.processes[p];
    assert SameView(ViewIn(q, s.calls[c].id, c), ViewIn(r, s.calls[c].id, c));
    hide SameBooks, ViewIn;
    assert s.calls[c] == s.calls[c].(stage := t.calls[c].stage, cancelled := t.calls[c].cancelled);
  }

  lemma BookkeepingSame(s: Pool, a: ProcessAction, c: CallId)
    requires ProcessEnabled(s, a) && Bookkeeping(a) && c in s.calls
    ensures SameAnswer(s, ProcessStep(s, a), c)
  {
    BooksSame(s, a);
    hide ProcessStep, ProcessEnabled, Bookkeeping, SameBooks, SameAnswer;
    BooksView(s, ProcessStep(s, a), a.process, c);
  }

  lemma FailsDelivered(s: Pool, a: ProcessAction, c: CallId, sent: seq<Answer>, taken: bool, got: bool)
    requires Invariant(s) && ProcessEnabled(s, a) && (a.ReaderFails? || a.WriterFails?)
    requires c in s.calls && Delivered(s, c, sent, taken, got)
    ensures var t := ProcessStep(s, a); Delivered(t, c, sent, taken || Drains(t, c), got)
  {
    hide Invariant, Delivered, Drains;
    StartFailDelivered(s, ProcessStep(s, a), a.process, c, sent, taken, got);
  }

  lemma QuietProcessDelivered(s: Pool, a: ProcessAction, c: CallId, sent: seq<Answer>, taken: bool, got: bool)
    requires Invariant(s) && ProcessEnabled(s, a) && c in s.calls && Delivered(s, c, sent, taken, got)
    requires Bookkeeping(a) || a.ReaderFails? || a.WriterFails?
    ensures var t := ProcessStep(s, a); Delivered(t, c, sent, taken || Drains(t, c), got)
  {
    hide Invariant, ProcessEnabled, ProcessStep, SameAnswer, Delivered, Drains;
    if Bookkeeping(a) {
      BookkeepingSame(s, a, c);
      SameDelivered(s, ProcessStep(s, a), c, sent, taken, got);
    } else {
      FailsDelivered(s, a, c, sent, taken, got);
    }
  }

  lemma ProcessDelivered(s: Pool, a: ProcessAction, c: CallId, sent: seq<Answer>, taken: bool, got: bool)
    requires Invariant(s) && ProcessEnabled(s, a) && Delivered(s, c, sent, taken, got)
    ensures var t := ProcessStep(s, a); Delivered(t, c, sent + Sends(s, ByProcess(a), c), taken || Drains(t, c), got)
  {
    hide Invariant, ProcessStep, ProcessEnabled, CallDelivered, Drains;
    assert sent + [] == sent;
    if c !in s.calls {
      AbsentDelivered(s, a, c);
    } else {
      match a
      case ReaderTakes(p, id) => ReaderTakesDelivered(s, p, id, c, sent, taken, got);
      case ReaderReleases(p) => ReaderReleasesDelivered(s, p, c, sent, taken, got);
      case ReaderSends(p) => ReaderSendsDelivered(s, p, c, sent, taken, got);
      case DrainRelease(p, id) => DrainReleaseDelivered(s, p, id, c, sent, taken, got);
      case DrainSend(p) => DrainSendDelivered(s, p, c, sent, taken, got);
      case _ => QuietProcessDelivered(s, a, c, sent, taken, got);
    }
  }

  lemma AbsentDelivered(s: Pool, a: ProcessAction, c: CallId)
    requires ProcessEnabled(s, a) && c !in s.calls
    ensures c !in ProcessStep(s, a).calls && Sends(s, ByProcess(a), c) == [] && !Drains(ProcessStep(s, a), c)
  {
    hide ProcessStep;
    if c in ProcessStep(s, a).calls {
      QuietProcessCalls(s, a, c);
    }
  }

  lemma CloseDelivered(s: Pool, a: CloseAction, c: CallId, sent: seq<Answer>, taken: bool, got: bool)
    requires Invariant(s) && CloseEnabled(s, a) && Delivered(s, c, sent, taken, got)
    ensures var t := CloseStep(s, a); Delivered(t, c, sent, taken || Drains(t, c), got)
  {
    hide LanesOk, Linkage, LeaseFits;
    var t := CloseStep(s, a);
    if c in s.calls {
      if a.CloseFails? {
        StartFailDelivered(s, t, s.closer.process, c, sent, taken, got);
      } else {
        assert SameAnswer(s, t, c);
      }
    }
  }

  lemma StepDelivered(s: Pool, a: Action, c: CallId, sent: seq<Answer>, taken: bool, got: bool)
    requires Invariant(s) && Enabled(s, a) && Delivered(s, c, sent, taken, got)
    ensures var t := Step(s, a);
            Delivered(t, c, sent + Sends(s, a, c), taken || Drains(t, c), got || a == ByCaller(Receive(c)))
  {
    hide Invariant, CallerStep, ProcessStep, CloseStep, CallerEnabled, ProcessEnabled, CloseEnabled, Delivered, Drains;
    assert sent + [] == sent;
    match a
    case ByCaller(caller) => CallerDelivered(s, caller, c, sent, taken, got);
    case ByProcess(runtime) => ProcessDelivered(s, runtime, c, sent, taken, got);
    case ByClose(close) => CloseDelivered(s, close, c, sent, taken, got);
  }

  // ---------------------------------------------------------------------
  // Whole runs.
  // ---------------------------------------------------------------------

  lemma {:induction false} RunDelivered(states: seq<Pool>, actions: seq<Action>, i: nat, c: CallId)
    requires Run(states, actions) && i < |states|
    ensures Delivered(states[i], c, SentTo(states, actions, i, c), FailTook(states, i, c), HasReceived(actions, i, c))
  {
    hide Invariant, Step, Enabled, CallDelivered, Drains, Sends;
    if i == 0 {
      assert !Drains(states[0], c) by {
        NothingDrains(c);
      }
    } else {
      var s, a := states[i - 1], actions[i - 1];
      assert Enabled(s, a) && states[i] == Step(s, a);
      RunInvariant(states, actions, i - 1);
      RunDelivered(states, actions, i - 1, c);
      StepDelivered(s, a, c, SentTo(states, actions, i - 1, c), FailTook(states, i - 1, c), HasReceived(actions, i - 1, c));
      TookStep(states, i, c);
      ReceivedStep(actions, i, c);
    }
  }

  lemma NothingDrains(c: CallId)
    ensures !Drains(NEW_POOL, c)
  {
  }

  lemma TookStep(states: seq<Pool>, i: nat, c: CallId)
    requires 0 < i < |states|
    ensures FailTook(states, i, c) == (FailTook(states, i - 1, c) || Drains(states[i], c))
  {
  }

  lemma ReceivedStep(actions: seq<Action>, i: nat, c: CallId)
    requires 0 < i <= |actions|
    ensures HasReceived(actions, i, c) == (HasReceived(actions, i - 1, c) || actions[i - 1] == ByCaller(Receive(c)))
  {
  }

  /**
   At every state of every run: a caller has been sent at most one answer. It is the
   response under its own number exactly when the reader of its process took its
   entry and is through with it, and its process's failure exactly when `fail` took
   it and is through with it; never both, and in the second case the process has
   failed. A caller that has taken an answer from its channel has just the one that
   was sent, and until it does the channel holds that one.
  */
  lemma AnswerExactly(states: seq<Pool>, actions: seq<Action>, i: nat, c: CallId)
    requires Run(states, actions) && i < |states| && c in states[i].calls
    ensures var s, call, sent := states[i], states[i].calls[c], SentTo(states, actions, i, c);
      && (call.received == if HasReceived(actions, i, c) && sent != [] then Some(sent[0]) else None)
      && (call.inbox == if !HasReceived(actions, i, c) && sent != [] then Some(sent[0]) else None)
      && (HasReceived(actions, i, c) ==>
            && sent != []
            && (call.received == Some(Response(call.id)) <==> Answered(s, c))
            && (call.received == Some(ProcessFailure) <==> FailTook(states, i, c)))
      && (sent == [] || sent == [Response(call.id)] || sent == [ProcessFailure])
      && (sent == [Response(call.id)] <==>
            Answered(s, c) && !WithReader(s, c))
      && (sent == [ProcessFailure] <==>
            FailTook(states, i, c) && !WithFail(s, c))
      && (FailTook(states, i, c) ==> Works(s, c) && ProcessOf(s, c).failure != Alive && !Answered(s, c))
  {
    hide LanesOk, Linkage, FailTook, HasReceived, SentTo;
    RunInvariant(states, actions, i);
    RunDelivered(states, actions, i, c);
    CallAt(states[i], c);
  }
}
