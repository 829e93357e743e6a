/** Every step of the worker pool keeps the pool's invariant. */
module WorkerInvariant {
  import opened Scheduling
  import opened Worker
  import opened Wrappers

  lemma NewPoolInvariant()
    ensures Invariant(NEW_POOL)
  {
    hide LaneInvariant;
    NewLaneInvariant<CallId>(INTERACTIVE_EXECUTIONS, MAXIMUM_PENDING);
    NewLaneInvariant<CallId>(NORMALIZATION_EXECUTIONS, MAXIMUM_NORMALIZATION_PENDING);
  }

  // ---------------------------------------------------------------------
  // Frames: what a step leaves alone.
  // ---------------------------------------------------------------------

  lemma CallOkFrame(call: Call, before: Lease, after: Lease, view: View, low: RequestId, high: RequestId)
    requires CallOk(call, before, view, low)
    requires Progress(before, after) && low <= high
    ensures CallOk(call, after, view, high)
  {
  }

  /** The lanes and callers of s and t differ at c only, up to leases that started. */
  ghost predicate OthersKept(s: Pool, t: Pool, c: CallId) {
    && t.calls.Keys == s.calls.Keys + {c}
    && t.lanes.Keys == s.lanes.Keys
    && s.sequence <= t.sequence
    && (forall d | d in s.calls && d != c :: t.calls[d] == s.calls[d])
    && (forall n | n in s.lanes :: t.lanes[n].leases.Keys - {c} == s.lanes[n].leases.Keys - {c})
    && (forall n, d | n in s.lanes && d in s.lanes[n].leases && d != c ::
          d in t.lanes[n].leases && Progress(s.lanes[n].leases[d], t.lanes[n].leases[d]))
  }

  lemma CallsFrame(s: Pool, t: Pool, c: CallId)
    requires LeasesOk(s) && CallsOk(s) && OthersKept(s, t, c)
    requires forall d | d in s.calls && d != c :: ViewOf(t, d) == ViewOf(s, d)
    requires forall n | n in t.lanes && c in t.lanes[n].leases :: t.calls[c].lane == n
    requires HasLease(t, c) && CallOk(t.calls[c], LeaseOf(t, c), ViewOf(t, c), t.sequence)
    ensures LeasesOk(t) && CallsOk(t)
  {
    hide CallOk, Progress, ViewOf;
    forall d | d in t.calls
      ensures HasLease(t, d) && CallOk(t.calls[d], LeaseOf(t, d), ViewOf(t, d), t.sequence)
    {
      if d != c {
        assert HasLease(s, d);
        CallOkFrame(s.calls[d], LeaseOf(s, d), LeaseOf(t, d), ViewOf(s, d), s.sequence, t.sequence);
      }
    }
    forall n, d | n in t.lanes && d in t.lanes[n].leases
      ensures d in t.calls && t.calls[d].lane == n
    {
      if d != c {
        assert d in t.lanes[n].leases.Keys - {c};
      }
    }
  }

  // ---------------------------------------------------------------------
  // A caller changes; the processes do not.
  // ---------------------------------------------------------------------

  /** The same leases, and apart from c's none changed except by starting. */
  ghost predicate LanesProgress(s: Pool, t: Pool, c: CallId) {
    && t.lanes.Keys == s.lanes.Keys
    && (forall n | n in s.lanes :: t.lanes[n].leases.Keys == s.lanes[n].leases.Keys)
    && (forall n, d | n in s.lanes && d in s.lanes[n].leases && d != c ::
          Progress(s.lanes[n].leases[d], t.lanes[n].leases[d]))
  }

  ghost predicate CallerOnly(s: Pool, t: Pool, c: CallId) {
    && c in s.calls && c in t.calls
    && LanesProgress(s, t, c) && t.processes == s.processes && t.current == s.current
    && t.closed == s.closed && t.closer == s.closer
    && t.calls == s.calls[c := t.calls[c]]
    && t.calls[c].lane == s.calls[c].lane
    && (t.calls[c].id != s.calls[c].id || t.calls[c].process != s.calls[c].process ==> s.calls[c].process == None)
    && (if t.calls[c].id == s.calls[c].id then t.sequence == s.sequence
        else t.sequence == s.sequence + 1 == t.calls[c].id)
    && (t.calls[c].process.Some? ==> t.calls[c].process.value in s.processes)
  }

  ghost predicate EncodersOk(t: Pool) {
    && (forall n | n in t.encoders :: t.encoders[n] in t.calls)
    && (forall c | c in t.calls ::
          HoldsEncoder(t.calls[c].stage) <==> t.calls[c].lane in t.encoders && t.encoders[t.calls[c].lane] == c)
  }

  lemma CallerOnlyKeeps(s: Pool, t: Pool, c: CallId)
    requires Linkage(s) && CallerOnly(s, t, c) && EncodersOk(t)
    requires HasLease(t, c) && CallOk(t.calls[c], LeaseOf(t, c), ViewOf(t, c), t.sequence)
    ensures Linkage(t)
  {
    hide CallOk, NumbersOk, ProcessesOk, ProcessOk;
    CallsFrame(s, t, c);
    CallerOnlyNumbers(s, t, c);
    CallerOnlyProcesses(s, t, c);
    CallerOnlyPool(s, t, c);
  }

  lemma CallerOnlyPool(s: Pool, t: Pool, c: CallId)
    requires PoolOk(s) && CallerOnly(s, t, c) && EncodersOk(t)
    ensures PoolOk(t)
  {
  }

  lemma CallAt(s: Pool, c: CallId)
    requires Linkage(s) && c in s.calls
    ensures HasLease(s, c) && CallOk(s.calls[c], LeaseOf(s, c), ViewOf(s, c), s.sequence)
    ensures HoldsEncoder(s.calls[c].stage) <==> s.calls[c].lane in s.encoders && s.encoders[s.calls[c].lane] == c
  {
    hide CallOk, NumbersOk, ProcessesOk, ViewOf;
  }

  /** The encoding slots after a caller moved without touching them. */
  lemma SlotsKept(s: Pool, t: Pool, c: CallId)
    requires Linkage(s) && CallerOnly(s, t, c) && t.encoders == s.encoders
    requires HoldsEncoder(t.calls[c].stage) == HoldsEncoder(s.calls[c].stage)
    ensures EncodersOk(t)
  {
    hide LeasesOk, CallsOk, NumbersOk, ProcessesOk;
  }

  lemma CallerOnlyNumbers(s: Pool, t: Pool, c: CallId)
    requires LeasesOk(s) && CallsOk(s) && NumbersOk(s) && CallerOnly(s, t, c)
    ensures NumbersOk(t)
  {
    assert forall d | d in s.calls :: s.calls[d].id <= s.sequence by {
      forall d | d in s.calls ensures s.calls[d].id <= s.sequence {
        assert CallOk(s.calls[d], LeaseOf(s, d), ViewOf(s, d), s.sequence);
      }
    }
  }

  lemma CallerOnlyProcesses(s: Pool, t: Pool, c: CallId)
    requires ProcessesOk(s) && CallerOnly(s, t, c)
    ensures ProcessesOk(t)
  {
    forall p | p in t.processes ensures ProcessOk(t, p) {
      assert ProcessOk(s, p);
      assert forall id, d | Entry(s, p, id, d) :: Entry(t, p, id, d);
    }
  }

  /** A caller nobody has seen yet is seen by no process. */
  lemma Unseen(s: Pool, c: CallId, p: ProcessId)
    requires Linkage(s) && p in s.processes && c in s.calls && s.calls[c].process == None
    ensures s.calls[c].id !in s.processes[p].pending && s.calls[c].id !in s.processes[p].draining
    ensures s.calls[c].id !in s.processes[p].sent && s.calls[c].id !in s.processes[p].answered
    ensures !ReaderHolds(s.processes[p], c) && !ReaderOwes(s.processes[p], c) && !FailOwes(s.processes[p], c)
  {
    hide LeasesOk, CallsOk, PoolOk;
    var q, id := s.processes[p], s.calls[c].id;
    assert ProcessOk(s, p);
    assert id !in Seen(q);
    if id in q.pending {
      SameNumber(s, p, id, q.pending[id], c);
    }
    if id in q.draining {
      SameNumber(s, p, id, q.draining[id], c);
    }
  }

  lemma SameNumber(s: Pool, p: ProcessId, id: RequestId, d: CallId, c: CallId)
    requires Linkage(s) && Entry(s, p, id, d) && c in s.calls && s.calls[c].id == id
    ensures c == d
  {
    hide LeasesOk, CallsOk, ProcessesOk, PoolOk;
    CallAt(s, d);
  }

  lemma CancelKeeps(s: Pool, c: CallId)
    requires Linkage(s) && CallerEnabled(s, Cancel(c))
    ensures Linkage(CallerStep(s, Cancel(c)))
  {
    hide Linkage, EncodersOk;
    var t := CallerStep(s, Cancel(c));
    CallAt(s, c);
    SlotsKept(s, t, c);
    CallerOnlyKeeps(s, t, c);
  }

  lemma TakeNumberKeeps(s: Pool, c: CallId)
    requires Linkage(s) && CallerEnabled(s, TakeNumber(c))
    ensures Linkage(CallerStep(s, TakeNumber(c)))
  {
    hide Linkage, EncodersOk;
    var t := CallerStep(s, TakeNumber(c));
    CallAt(s, c);
    SlotsKept(s, t, c);
    CallerOnlyKeeps(s, t, c);
  }

  lemma AcquireSlots(s: Pool, c: CallId)
    requires Linkage(s) && CallerEnabled(s, AcquireEncoder(c))
    ensures EncodersOk(CallerStep(s, AcquireEncoder(c)))
  {
    hide LeasesOk, CallsOk, NumbersOk, ProcessesOk;
  }

  lemma FreeSlots(s: Pool, c: CallId)
    requires Linkage(s) && CallerEnabled(s, FreeEncoder(c))
    ensures EncodersOk(CallerStep(s, FreeEncoder(c)))
  {
    hide LeasesOk, CallsOk, NumbersOk, ProcessesOk;
  }

  lemma AcquireEncoderKeeps(s: Pool, c: CallId)
    requires Linkage(s) && CallerEnabled(s, AcquireEncoder(c))
    ensures Linkage(CallerStep(s, AcquireEncoder(c)))
  {
    hide Linkage, EncodersOk;
    var t := CallerStep(s, AcquireEncoder(c));
    CallAt(s, c);
    AcquireSlots(s, c);
    CallerOnlyKeeps(s, t, c);
  }

  lemma FreeEncoderKeeps(s: Pool, c: CallId)
    requires Linkage(s) && CallerEnabled(s, FreeEncoder(c))
    ensures Linkage(CallerStep(s, FreeEncoder(c)))
  {
    hide Linkage, EncodersOk;
    var t := CallerStep(s, FreeEncoder(c));
    CallAt(s, c);
    FreeSlots(s, c);
    CallerOnlyKeeps(s, t, c);
  }

  lemma MoveCallOk(s: Pool, c: CallId, to: Stage)
    requires HasLease(s, c) && MoveAllowed(s, c, to)
    requires CallOk(s.calls[c], LeaseOf(s, c), ViewOf(s, c), s.sequence)
    ensures CallOk(s.calls[c].(stage := to), LeaseOf(s, c), ViewOf(s, c), s.sequence)
    ensures HoldsEncoder(to) == HoldsEncoder(s.calls[c].stage)
    ensures s.calls[c].process.Some? ==> ViewOf(s, c).View?
  {
    hide ViewOf, ViewIn;
  }

  lemma MoveKeeps(s: Pool, c: CallId, to: Stage)
    requires Linkage(s) && CallerEnabled(s, Move(c, to))
    ensures Linkage(CallerStep(s, Move(c, to)))
  {
    hide Linkage, EncodersOk, CallOk, MoveAllowed, LeaseFits;
    var t := CallerStep(s, Move(c, to));
    CallAt(s, c);
    MoveCallOk(s, c, to);
    assert ViewOf(t, c) == ViewOf(s, c);
    SlotsKept(s, t, c);
    CallerOnlyKeeps(s, t, c);
  }

  lemma ReceiveKeeps(s: Pool, c: CallId)
    requires Linkage(s) && CallerEnabled(s, Receive(c))
    ensures Linkage(CallerStep(s, Receive(c)))
  {
    hide Linkage, EncodersOk;
    var t := CallerStep(s, Receive(c));
    CallAt(s, c);
    SlotsKept(s, t, c);
    CallerOnlyKeeps(s, t, c);
  }

  lemma UseCurrentKeeps(s: Pool, c: CallId)
    requires Linkage(s) && CallerEnabled(s, UseCurrent(c))
    ensures Linkage(CallerStep(s, UseCurrent(c)))
  {
    hide Linkage, EncodersOk;
    var t := CallerStep(s, UseCurrent(c));
    CallAt(s, c);
    CurrentExists(s);
    Unseen(s, c, s.current.value);
    SlotsKept(s, t, c);
    CallerOnlyKeeps(s, t, c);
  }

  lemma CurrentExists(s: Pool)
    requires Linkage(s) && s.current.Some?
    ensures s.current.value in s.processes
  {
    hide LeasesOk, CallsOk, NumbersOk, ProcessesOk;
  }

  // ---------------------------------------------------------------------
  // A process changes at one caller's request; other callers see nothing.
  // ---------------------------------------------------------------------

  /** q and r differ only in what they say about caller c, whose request is `id`. */
  ghost predicate SameBut(q: Process, r: Process, id: RequestId, c: CallId) {
    && (r.failure == Alive) == (q.failure == Alive)
    && (forall k | k != id :: (k in r.pending) == (k in q.pending))
    && (forall k | k != id :: (k in r.draining) == (k in q.draining))
    && (forall k | k != id :: (k in r.sent) == (k in q.sent))
    && (forall k | k != id :: (k in r.answered) == (k in q.answered))
    && (forall d | d != c :: ReaderHolds(r, d) == ReaderHolds(q, d))
    && (forall d | d != c :: ReaderOwes(r, d) == ReaderOwes(q, d))
    && (forall d | d != c :: FailOwes(r, d) == FailOwes(q, d))
  }

  ghost predicate Focused(s: Pool, t: Pool, c: CallId, p: ProcessId) {
    && c in s.calls && p in s.processes && p in t.processes && c in t.calls
    && s.calls[c].process == Some(p) && s.calls[c].id != 0
    && t.calls == s.calls[c := t.calls[c]]
    && t.calls[c].id == s.calls[c].id && t.calls[c].lane == s.calls[c].lane && t.calls[c].process == s.calls[c].process
    && t.processes == s.processes[p := t.processes[p]]
    && SameBut(s.processes[p], t.processes[p], s.calls[c].id, c)
    && t.sequence == s.sequence && t.current == s.current
    && LanesProgress(s, t, c)
  }

  lemma FocusedView(s: Pool, t: Pool, c: CallId, p: ProcessId, d: CallId)
    requires NumbersOk(s) && Focused(s, t, c, p) && d in s.calls && d != c
    ensures ViewOf(t, d) == ViewOf(s, d)
  {
    assert s.calls[d].id != s.calls[c].id;
  }

  lemma FocusedNumbers(s: Pool, t: Pool, c: CallId, p: ProcessId)
    requires NumbersOk(s) && Focused(s, t, c, p) && s.calls[c].id <= s.sequence
    ensures NumbersOk(t)
  {
    forall p', id | p' in t.processes && id in Seen(t.processes[p']) ensures 0 < id <= t.sequence {
      if p' == p && id != s.calls[c].id {
        assert id in Seen(s.processes[p]);
      }
    }
    forall p', d | p' in t.processes && d in t.calls && t.calls[d].process != Some(p')
      ensures t.calls[d].id !in Seen(t.processes[p'])
    {
      assert s.calls[d].id !in Seen(s.processes[p']);
      if p' == p {
        assert d != c && s.calls[d].id != s.calls[c].id;
      }
    }
  }

  lemma FocusedProcesses(s: Pool, t: Pool, c: CallId, p: ProcessId)
    requires ProcessesOk(s) && Focused(s, t, c, p) && ProcessOk(t, p)
    ensures ProcessesOk(t)
  {
    forall p' | p' in t.processes ensures ProcessOk(t, p') {
      if p' != p {
        assert ProcessOk(s, p');
        assert forall id, d | Entry(s, p', id, d) :: Entry(t, p', id, d);
      }
    }
  }

  lemma FocusedKeeps(s: Pool, t: Pool, c: CallId, p: ProcessId)
    requires Linkage(s) && Focused(s, t, c, p) && ProcessOk(t, p) && PoolOk(t)
    requires HasLease(t, c) && CallOk(t.calls[c], LeaseOf(t, c), ViewOf(t, c), t.sequence)
    ensures Linkage(t)
  {
    hide CallOk, NumbersOk, ProcessesOk, ProcessOk, PoolOk, LeasesOk, CallsOk, SameBut;
    NumberBound(s, c);
    FocusedProcesses(s, t, c, p);
    FocusedNumbers(s, t, c, p);
    FocusedCalls(s, t, c, p);
  }

  lemma NumberBound(s: Pool, c: CallId)
    requires Linkage(s) && c in s.calls
    ensures s.calls[c].id <= s.sequence
  {
    hide Linkage;
    CallAt(s, c);
  }

  lemma FocusedCalls(s: Pool, t: Pool, c: CallId, p: ProcessId)
    requires LeasesOk(s) && CallsOk(s) && NumbersOk(s) && Focused(s, t, c, p)
    requires HasLease(t, c) && CallOk(t.calls[c], LeaseOf(t, c), ViewOf(t, c), t.sequence)
    ensures LeasesOk(t) && CallsOk(t)
  {
    hide CallOk, NumbersOk, ViewOf, SameBut, Progress;
    forall d | d in s.calls && d != c ensures ViewOf(t, d) == ViewOf(s, d) {
      FocusedView(s, t, c, p, d);
    }
    CallsFrame(s, t, c);
  }

  lemma ProcessAt(s: Pool, p: ProcessId)
    requires Linkage(s) && p in s.processes
    ensures ProcessOk(s, p)
  {
    hide LeasesOk, CallsOk, NumbersOk, PoolOk, ProcessOk;
  }

  lemma PoolFocused(s: Pool, t: Pool, c: CallId, p: ProcessId)
    requires Linkage(s) && Focused(s, t, c, p)
    requires t.encoders == s.encoders && t.closed == s.closed && t.closer == s.closer
    requires !HoldsEncoder(s.calls[c].stage) && !HoldsEncoder(t.calls[c].stage)
    ensures PoolOk(t)
  {
    hide LeasesOk, CallsOk, NumbersOk, ProcessesOk;
  }

  /** The caller behind an entry or an obligation of process p. */
  lemma CallerOf(s: Pool, p: ProcessId, c: CallId)
    requires Linkage(s) && c in s.calls && s.calls[c].process == Some(p)
    ensures p in s.processes && s.calls[c].id != 0 && !HoldsEncoder(s.calls[c].stage)
    ensures HasLease(s, c) && CallOk(s.calls[c], LeaseOf(s, c), ViewOf(s, c), s.sequence)
  {
    hide Linkage;
    CallAt(s, c);
  }

  ghost predicate WorksWith(s: Pool, c: CallId, p: ProcessId) {
    c in s.calls && s.calls[c].process == Some(p) && p in s.processes
  }

  /** Caller c moves on and changes only its own request in its process. */
  lemma CallerUpdates(s: Pool, c: CallId, p: ProcessId, q: Process, stage: Stage)
    requires Linkage(s) && WorksWith(s, c, p)
    requires SameBut(s.processes[p], q, s.calls[c].id, c) && ProcessFits(s, p, q)
    requires HasLease(s, c) && !HoldsEncoder(stage)
    requires CallOk(s.calls[c].(stage := stage), LeaseOf(s, c), ViewIn(q, s.calls[c].id, c), s.sequence)
    ensures Linkage(SetStage(SetProcess(s, p, q), c, stage))
  {
    hide Linkage, PoolOk, CallOk, SameBut;
    var t := SetStage(SetProcess(s, p, q), c, stage);
    CallerOf(s, p, c);
    FitsAfterStage(s, t, p, q, c);
    assert ProcessOk(t, p);
    hide ProcessOk, ProcessFits, ViewIn, HoldsEncoder;
    PoolFocused(s, t, c, p);
    FocusedKeeps(s, t, c, p);
  }

  lemma FitsAfterStage(s: Pool, t: Pool, p: ProcessId, q: Process, c: CallId)
    requires ProcessFits(s, p, q) && c in s.calls && c in t.calls && t.calls == s.calls[c := t.calls[c]]
    requires t.calls[c].id == s.calls[c].id && t.calls[c].process == s.calls[c].process && t.current == s.current
    ensures ProcessFits(t, p, q)
  {
    assert forall id, d | Entry(s, p, id, d) :: Entry(t, p, id, d);
  }

  lemma RegisterOk(call: Call, lease: Lease, view: View, sequence: RequestId)
    requires CallOk(call, lease, view, sequence) && call.stage == Attached && view.View?
    ensures CallOk(call.(stage := Rejected), lease, view, sequence)
    ensures view.alive ==> CallOk(call.(stage := Registered), lease, view.(entry := true), sequence)
  {
  }

  lemma HandOverOk(call: Call, lease: Lease, view: View, sequence: RequestId)
    requires CallOk(call, lease, view, sequence) && call.stage == Registered && view.View?
    ensures CallOk(call.(stage := Sent), lease, view.(sent := true), sequence)
  {
  }

  lemma ForgetOk(call: Call, lease: Lease, view: View, sequence: RequestId)
    requires CallOk(call, lease, view, sequence) && call.stage == Forgetting && view.View?
    ensures CallOk(call.(stage := if view.entry then Forgot else Returned), lease, view.(entry := false), sequence)
  {
  }

  lemma PushCancelOk(call: Call, lease: Lease, view: View, sequence: RequestId)
    requires CallOk(call, lease, view, sequence) && call.stage == Cancelling
    ensures CallOk(call.(stage := Returned), lease, view, sequence)
  {
  }

  lemma RegisterKeeps(s: Pool, c: CallId)
    requires Linkage(s) && CallerEnabled(s, Register(c))
    ensures Linkage(CallerStep(s, Register(c)))
  {
    hide Linkage, PoolOk, CallOk;
    var p := s.calls[c].process.value;
    var q := s.processes[p];
    CallerOf(s, p, c);
    ProcessAt(s, p);
    RegisterOk(s.calls[c], LeaseOf(s, c), ViewOf(s, c), s.sequence);
    if q.failure != Alive {
      assert s.processes[p := q] == s.processes;
      CallerUpdates(s, c, p, q, Rejected);
    } else {
      CallerUpdates(s, c, p, q.(pending := q.pending[s.calls[c].id := c]), Registered);
    }
  }

  lemma HandOverKeeps(s: Pool, c: CallId)
    requires Linkage(s) && CallerEnabled(s, HandOver(c))
    ensures Linkage(CallerStep(s, HandOver(c)))
  {
    hide Linkage, PoolOk, CallOk;
    var p, id := s.calls[c].process.value, s.calls[c].id;
    var q := s.processes[p];
    CallerOf(s, p, c);
    ProcessAt(s, p);
    HandOverOk(s.calls[c], LeaseOf(s, c), ViewOf(s, c), s.sequence);
    CallerUpdates(s, c, p, q.(writes := q.writes + [RequestFrame(id)], sent := q.sent + {id}), Sent);
  }

  /** No other caller's entry is filed under c's number. */
  lemma OwnEntry(s: Pool, p: ProcessId, c: CallId)
    requires Linkage(s) && c in s.calls && s.calls[c].process == Some(p) && p in s.processes
    ensures s.calls[c].id in s.processes[p].pending ==> s.processes[p].pending[s.calls[c].id] == c
    ensures s.calls[c].id in s.processes[p].draining ==> s.processes[p].draining[s.calls[c].id] == c
  {
    hide Linkage;
    ProcessAt(s, p);
    var q, id := s.processes[p], s.calls[c].id;
    if id in q.pending {
      SameNumber(s, p, id, q.pending[id], c);
    }
    if id in q.draining {
      SameNumber(s, p, id, q.draining[id], c);
    }
  }

  lemma ForgetKeeps(s: Pool, c: CallId)
    requires Linkage(s) && CallerEnabled(s, Worker.Forget(c))
    ensures Linkage(CallerStep(s, Worker.Forget(c)))
  {
    hide Linkage, PoolOk, CallOk;
    var p, id := s.calls[c].process.value, s.calls[c].id;
    var q := s.processes[p];
    CallerOf(s, p, c);
    ProcessAt(s, p);
    ForgetOk(s.calls[c], LeaseOf(s, c), ViewOf(s, c), s.sequence);
    CallerUpdates(s, c, p, q.(pending := q.pending - {id}), if id in q.pending then Forgot else Returned);
  }

  lemma PushCancelKeeps(s: Pool, c: CallId)
    requires Linkage(s) && CallerEnabled(s, PushCancel(c))
    ensures Linkage(CallerStep(s, PushCancel(c)))
  {
    hide Linkage, PoolOk, CallOk;
    var p := s.calls[c].process.value;
    var q := s.processes[p];
    CallerOf(s, p, c);
    ProcessAt(s, p);
    PushCancelOk(s.calls[c], LeaseOf(s, c), ViewOf(s, c), s.sequence);
    CallerUpdates(s, c, p, q.(writes := q.writes + [CancelFrame(s.calls[c].id)]), Returned);
  }

  lemma ReaderTakesKeeps(s: Pool, p: ProcessId, id: RequestId)
    requires Linkage(s) && ProcessEnabled(s, ReaderTakes(p, id))
    ensures Linkage(ProcessStep(s, ReaderTakes(p, id)))
  {
    hide Linkage, PoolOk;
    var t := ProcessStep(s, ReaderTakes(p, id));
    if id in s.processes[p].pending {
      var c := s.processes[p].pending[id];
      ProcessAt(s, p);
      CallerOf(s, p, c);
      PoolFocused(s, t, c, p);
      FocusedKeeps(s, t, c, p);
    }
  }

  lemma ReaderSendsKeeps(s: Pool, p: ProcessId)
    requires Linkage(s) && ProcessEnabled(s, ReaderSends(p))
    ensures Linkage(ProcessStep(s, ReaderSends(p)))
  {
    hide Linkage, PoolOk;
    var t, c := ProcessStep(s, ReaderSends(p)), s.processes[p].reader.call;
    ProcessAt(s, p);
    CallerOf(s, p, c);
    PoolFocused(s, t, c, p);
    FocusedKeeps(s, t, c, p);
  }

  lemma DrainSendKeeps(s: Pool, p: ProcessId)
    requires Linkage(s) && ProcessEnabled(s, DrainSend(p))
    ensures Linkage(ProcessStep(s, DrainSend(p)))
  {
    hide Linkage, PoolOk;
    var t, c := ProcessStep(s, DrainSend(p)), s.processes[p].owed.value;
    ProcessAt(s, p);
    CallerOf(s, p, c);
    PoolFocused(s, t, c, p);
    FocusedKeeps(s, t, c, p);
  }

  // ---------------------------------------------------------------------
  // Steps that enter a lane.
  // ---------------------------------------------------------------------

  lemma LaneAt(s: Pool, n: LaneName)
    requires LanesOk(s) && n in s.lanes
    ensures LaneInvariant(s.lanes[n])
  {
    hide LaneInvariant;
  }

  /** Releasing c's lease keeps every lane's invariant and disturbs no other lease. */
  lemma ReleasedLanes(s: Pool, c: CallId)
    requires LanesOk(s) && HasLease(s, c) && !LeaseOf(s, c).released
    ensures LanesOk(ReleaseLease(s, c)) && LanesProgress(s, ReleaseLease(s, c), c)
    ensures HasLease(ReleaseLease(s, c), c) && LeaseOf(ReleaseLease(s, c), c).released
  {
    hide LaneInvariant, AfterRelease;
    LaneAt(s, s.calls[c].lane);
    ReleaseProgress(s.lanes[s.calls[c].lane], c);
  }

  lemma EnqueuedLanes(s: Pool, c: CallId, size: nat)
    requires LanesOk(s) && HasLease(s, c) && LeaseOf(s, c) == NEW_LEASE
    ensures var n := s.calls[c].lane;
            var lane := AfterEnqueue(s.lanes[n], c, size);
            && LanesOk(SetLane(s, n, lane)) && LanesProgress(s, SetLane(s, n, lane), c)
            && c in lane.leases
            && if Fits(s.lanes[n], size) then Accepted(lane.leases[c]) && !lane.leases[c].released
               else lane.leases[c] == NEW_LEASE
  {
    hide LaneInvariant, AfterEnqueue;
    var lane := s.lanes[s.calls[c].lane];
    LaneAt(s, s.calls[c].lane);
    EnqueueKeeps(lane, c, size);
    QueueWaitsAt(lane);
    EnqueueProgress(lane, c, size);
  }

  lemma QueueWaitsAt(lane: Lane<CallId>)
    requires LaneInvariant(lane)
    ensures QueueWaits(lane)
  {
    QueueOfConsistent(lane);
  }

  lemma EnqueueFrameKeeps(s: Pool, c: CallId, size: nat)
    requires Invariant(s) && CallerEnabled(s, EnqueueFrame(c, size))
    ensures Invariant(CallerStep(s, EnqueueFrame(c, size)))
  {
    hide LanesOk, Linkage, EncodersOk, LanesProgress, AfterEnqueue;
    var t := CallerStep(s, EnqueueFrame(c, size));
    CallAt(s, c);
    EnqueuedLanes(s, c, size);
    LanesFollow(SetLane(s, s.calls[c].lane, AfterEnqueue(s.lanes[s.calls[c].lane], c, size)), s, t, c);
    SlotsKept(s, t, c);
    CallerOnlyKeeps(s, t, c);
  }

  /** Only the lanes matter to the lane facts. */
  lemma LanesFollow(mid: Pool, s: Pool, t: Pool, c: CallId)
    requires t.lanes == mid.lanes
    ensures LanesOk(mid) ==> LanesOk(t)
    ensures LanesProgress(s, mid, c) ==> LanesProgress(s, t, c)
  {
    hide LaneInvariant;
  }

  lemma CallerReleasesKeeps(s: Pool, c: CallId)
    requires Invariant(s) && CallerEnabled(s, CallerReleases(c))
    ensures Invariant(CallerStep(s, CallerReleases(c)))
  {
    hide LanesOk, Linkage, EncodersOk, LanesProgress, ReleaseLease;
    var t := CallerStep(s, CallerReleases(c));
    CallAt(s, c);
    ReleasedLanes(s, c);
    ReleaseFrame(s, c);
    LanesFollow(ReleaseLease(s, c), s, t, c);
    SlotsKept(s, t, c);
    CallerOnlyKeeps(s, t, c);
  }

  lemma ReleaseFrame(s: Pool, c: CallId)
    requires HasLease(s, c)
    ensures ReleaseLease(s, c) == s.(lanes := ReleaseLease(s, c).lanes)
  {
  }

  lemma ReleaseOk(call: Call, lease: Lease, after: Lease, view: View, sequence: RequestId)
    requires CallOk(call, lease, view, sequence) && Owned(view) && after.released
    ensures view.held ==> CallOk(call, after, view.(held := false, owing := true), sequence)
    ensures view.draining ==> CallOk(call, after, view.(draining := false, owed := true), sequence)
  {
  }

  lemma ReaderReleasesKeeps(s: Pool, p: ProcessId)
    requires Invariant(s) && ProcessEnabled(s, ReaderReleases(p))
    ensures Invariant(ProcessStep(s, ReaderReleases(p)))
  {
    hide LanesOk, Linkage, PoolOk, CallOk, LanesProgress, ReleaseLease;
    var t, c := ProcessStep(s, ReaderReleases(p)), s.processes[p].reader.call;
    ProcessAt(s, p);
    CallerOf(s, p, c);
    ViewOwned(s.calls[c], LeaseOf(s, c), ViewOf(s, c), s.sequence);
    ReleasedLanes(s, c);
    ReleaseFrame(s, c);
    ReleaseOk(s.calls[c], LeaseOf(s, c), LeaseOf(ReleaseLease(s, c), c), ViewOf(s, c), s.sequence);
    LanesFollow(ReleaseLease(s, c), s, t, c);
    PoolFocused(s, t, c, p);
    FocusedKeeps(s, t, c, p);
  }

  lemma ViewOwned(call: Call, lease: Lease, view: View, sequence: RequestId)
    requires CallOk(call, lease, view, sequence)
    ensures Owned(view) ==> lease.running && !lease.released && Count(view) == 1
    ensures OwesAnswer(view) ==> lease.released && Count(view) == 1
    ensures Count(view) == 1 ==> call.inbox == None && call.sends == 0 && call.received == None
  {
  }

  lemma DrainReleaseKeeps(s: Pool, p: ProcessId, id: RequestId)
    requires Invariant(s) && ProcessEnabled(s, DrainRelease(p, id))
    ensures Invariant(ProcessStep(s, DrainRelease(p, id)))
  {
    hide LanesOk, Linkage, PoolOk, CallOk, LanesProgress, ReleaseLease;
    var t, c := ProcessStep(s, DrainRelease(p, id)), s.processes[p].draining[id];
    ProcessAt(s, p);
    CallerOf(s, p, c);
    ViewOwned(s.calls[c], LeaseOf(s, c), ViewOf(s, c), s.sequence);
    ReleasedLanes(s, c);
    ReleaseFrame(s, c);
    ReleaseOk(s.calls[c], LeaseOf(s, c), LeaseOf(ReleaseLease(s, c), c), ViewOf(s, c), s.sequence);
    LanesFollow(ReleaseLease(s, c), s, t, c);
    PoolFocused(s, t, c, p);
    FocusedKeeps(s, t, c, p);
  }

  // ---------------------------------------------------------------------
  // New callers and new processes.
  // ---------------------------------------------------------------------

  lemma ReservedLanes(s: Pool, c: CallId, n: LaneName)
    requires LanesOk(s) && LeasesOk(s) && c !in s.calls && n in s.lanes && CanReserve(s.lanes[n])
    ensures LanesOk(SetLane(s, n, AfterReserve(s.lanes[n], c)))
    ensures forall m | m in s.lanes :: c !in s.lanes[m].leases
  {
    hide LaneInvariant;
    LaneAt(s, n);
    ReserveKeeps(s.lanes[n], c);
  }

  lemma BeginFrame(s: Pool, t: Pool, c: CallId, n: LaneName)
    requires LeasesOk(s) && c !in s.calls && n in s.lanes && c in t.calls
    requires t.lanes == s.lanes[n := AfterReserve(s.lanes[n], c)] && t.calls == s.calls[c := t.calls[c]]
    requires t.sequence == s.sequence
    ensures OthersKept(s, t, c)
  {
  }

  lemma BeginKeeps(s: Pool, c: CallId, n: LaneName)
    requires Invariant(s) && CallerEnabled(s, Begin(c, n))
    ensures Invariant(CallerStep(s, Begin(c, n)))
  {
    hide LanesOk, CallsOk, CallOk, ProcessesOk, NumbersOk, PoolOk, OthersKept;
    var t := CallerStep(s, Begin(c, n));
    ReservedLanes(s, c, n);
    LanesFollow(SetLane(s, n, AfterReserve(s.lanes[n], c)), s, t, c);
    BeginRest(s, c, n);
    assert t == s.(lanes := t.lanes, calls := t.calls);
    BeginFrame(s, t, c, n);
    NewcomerOk(t.calls[c], s.sequence);
    assert forall d | d in s.calls :: ViewOf(t, d) == ViewOf(s, d);
    CallsFrame(s, t, c);
  }

  lemma NewcomerOk(call: Call, sequence: RequestId)
    requires call == Call(call.lane, 0, Admitted, None, false, None, 0, None)
    ensures CallOk(call, NEW_LEASE, Detached, sequence)
  {
  }

  lemma BeginProcesses(s: Pool, t: Pool, c: CallId)
    requires ProcessesOk(s) && c !in s.calls && c in t.calls && t.calls == s.calls[c := t.calls[c]]
    requires t.processes == s.processes && t.current == s.current
    ensures ProcessesOk(t)
  {
    forall p | p in t.processes ensures ProcessOk(t, p) {
      assert ProcessOk(s, p);
      assert forall id, d | Entry(s, p, id, d) :: Entry(t, p, id, d);
    }
  }

  lemma BeginRest(s: Pool, c: CallId, n: LaneName)
    requires NumbersOk(s) && ProcessesOk(s) && PoolOk(s) && CallerEnabled(s, Begin(c, n))
    ensures var t := CallerStep(s, Begin(c, n)); NumbersOk(t) && ProcessesOk(t) && PoolOk(t)
  {
    BeginProcesses(s, CallerStep(s, Begin(c, n)), c);
    hide ProcessesOk, AfterReserve;
  }

  /** The new process becomes current before anybody attaches to it. */
  function WithProcess(s: Pool, p: ProcessId): Pool {
    SetProcess(s, p, NEW_PROCESS).(current := Some(p))
  }

  lemma WithProcessCalls(s: Pool, p: ProcessId)
    requires LeasesOk(s) && CallsOk(s) && p !in s.processes
    ensures LeasesOk(WithProcess(s, p)) && CallsOk(WithProcess(s, p))
  {
    var t := WithProcess(s, p);
    forall c | c in t.calls
      ensures HasLease(t, c) && CallOk(t.calls[c], LeaseOf(t, c), ViewOf(t, c), t.sequence)
    {
      assert CallOk(s.calls[c], LeaseOf(s, c), ViewOf(s, c), s.sequence);
      assert ViewOf(t, c) == ViewOf(s, c);
    }
  }

  lemma WithProcessRest(s: Pool, p: ProcessId)
    requires NumbersOk(s) && ProcessesOk(s) && PoolOk(s) && s.current == None && p !in s.processes
    requires !s.closed
    ensures var t := WithProcess(s, p); NumbersOk(t) && ProcessesOk(t) && PoolOk(t)
  {
    var t := WithProcess(s, p);
    forall p' | p' in t.processes ensures ProcessOk(t, p') {
      if p' != p {
        assert ProcessOk(s, p');
        assert forall id, d | Entry(s, p', id, d) :: Entry(t, p', id, d);
      }
    }
  }

  /** Starting a process is attaching to it once it is there. */
  lemma SpawnKeeps(s: Pool, c: CallId, p: ProcessId)
    requires Linkage(s) && CallerEnabled(s, Spawn(c, p))
    ensures Linkage(CallerStep(s, Spawn(c, p)))
  {
    hide LeasesOk, CallsOk, NumbersOk, ProcessesOk, PoolOk;
    WithProcessCalls(s, p);
    WithProcessRest(s, p);
    UseCurrentKeeps(WithProcess(s, p), c);
  }

  // ---------------------------------------------------------------------
  // A process fails.
  // ---------------------------------------------------------------------

  lemma StartFailCallOk(call: Call, lease: Lease, view: View, sequence: RequestId)
    requires CallOk(call, lease, view, sequence) && view.View? && view.alive && !view.draining
    ensures CallOk(call, lease, view.(alive := false, entry := false, draining := view.entry), sequence)
  {
  }

  lemma StartFailCalls(s: Pool, p: ProcessId)
    requires LeasesOk(s) && CallsOk(s) && p in s.processes && ProcessOk(s, p) && s.processes[p].failure == Alive
    ensures LeasesOk(SetProcess(s, p, StartFail(s.processes[p])))
    ensures CallsOk(SetProcess(s, p, StartFail(s.processes[p])))
  {
    hide CallOk;
    var t := SetProcess(s, p, StartFail(s.processes[p]));
    forall c | c in t.calls
      ensures HasLease(t, c) && CallOk(t.calls[c], LeaseOf(t, c), ViewOf(t, c), t.sequence)
    {
      var view := ViewOf(s, c);
      assert CallOk(s.calls[c], LeaseOf(s, c), view, s.sequence);
      if s.calls[c].process == Some(p) {
        StartFailCallOk(s.calls[c], LeaseOf(s, c), view, s.sequence);
        assert ViewOf(t, c) == view.(alive := false, entry := false, draining := view.entry);
      } else {
        assert ViewOf(t, c) == view;
      }
    }
  }

  lemma StartFailRest(s: Pool, p: ProcessId)
    requires NumbersOk(s) && ProcessesOk(s) && PoolOk(s) && p in s.processes && s.processes[p].failure == Alive
    ensures var t := SetProcess(s, p, StartFail(s.processes[p])); NumbersOk(t) && ProcessesOk(t) && PoolOk(t)
  {
    var t := SetProcess(s, p, StartFail(s.processes[p]));
    assert forall p' | p' in t.processes :: Seen(t.processes[p']) == Seen(s.processes[p']);
    forall p' | p' in t.processes ensures ProcessOk(t, p') {
      assert ProcessOk(s, p');
      assert forall id, d | Entry(s, p', id, d) :: Entry(t, p', id, d);
    }
  }

  lemma StartFailKeeps(s: Pool, p: ProcessId)
    requires Linkage(s) && p in s.processes
    ensures Linkage(SetProcess(s, p, StartFail(s.processes[p])))
    ensures StartFail(s.processes[p]).failure != Alive
  {
    hide LeasesOk, CallsOk, NumbersOk, PoolOk, ProcessOk;
    if s.processes[p].failure == Alive {
      assert ProcessOk(s, p);
      hide ProcessesOk;
      StartFailCalls(s, p);
      StartFailRest(s, p);
    } else {
      assert s.processes[p := s.processes[p]] == s.processes;
    }
  }

  /** q and r say the same about every caller. */
  ghost predicate SameToCallers(q: Process, r: Process) {
    && (r.failure == Alive) == (q.failure == Alive)
    && r.pending == q.pending && r.draining == q.draining && r.owed == q.owed
    && r.sent == q.sent && r.answered == q.answered
    && (r.reader == q.reader
        || !(r.reader.Holding? || r.reader.Owing? || q.reader.Holding? || q.reader.Owing?))
  }

  lemma InternalCalls(s: Pool, t: Pool, p: ProcessId)
    requires LeasesOk(s) && CallsOk(s) && NumbersOk(s) && p in s.processes && p in t.processes
    requires SameToCallers(s.processes[p], t.processes[p])
    requires t.processes == s.processes[p := t.processes[p]]
    requires t.calls == s.calls && t.lanes == s.lanes && t.sequence == s.sequence
    ensures LeasesOk(t) && CallsOk(t) && NumbersOk(t)
  {
    hide CallOk;
    InternalNumbers(s, t, p);
    hide NumbersOk;
    forall c | c in t.calls
      ensures HasLease(t, c) && CallOk(t.calls[c], LeaseOf(t, c), ViewOf(t, c), t.sequence)
    {
      assert CallOk(s.calls[c], LeaseOf(s, c), ViewOf(s, c), s.sequence);
      assert ViewOf(t, c) == ViewOf(s, c);
    }
  }

  lemma InternalNumbers(s: Pool, t: Pool, p: ProcessId)
    requires NumbersOk(s) && p in s.processes && p in t.processes
    requires SameToCallers(s.processes[p], t.processes[p]) && t.processes == s.processes[p := t.processes[p]]
    requires t.calls == s.calls && t.sequence == s.sequence
    ensures NumbersOk(t)
  {
    assert forall p' | p' in t.processes :: Seen(t.processes[p']) == Seen(s.processes[p']);
  }

  lemma InternalProcesses(s: Pool, t: Pool, p: ProcessId)
    requires ProcessesOk(s) && PoolOk(s) && p in s.processes && p in t.processes
    requires SameToCallers(s.processes[p], t.processes[p])
    requires t.processes == s.processes[p := t.processes[p]]
    requires t.calls == s.calls && t.encoders == s.encoders && t.closed == s.closed && t.closer == s.closer
    requires t.current == s.current || (s.current == Some(p) && t.current == None && s.processes[p].failure != Alive)
    requires ProcessFits(t, p, t.processes[p])
    ensures ProcessesOk(t) && PoolOk(t)
  {
    forall p' | p' in t.processes ensures ProcessOk(t, p') {
      assert ProcessOk(s, p');
      assert forall id, d | Entry(s, p', id, d) :: Entry(t, p', id, d);
    }
  }

  lemma InternalKeeps(s: Pool, t: Pool, p: ProcessId)
    requires Linkage(s) && p in s.processes && p in t.processes
    requires SameToCallers(s.processes[p], t.processes[p]) && t.processes == s.processes[p := t.processes[p]]
    requires t == s.(processes := t.processes, current := t.current)
    requires t.current == s.current || (s.current == Some(p) && t.current == None && s.processes[p].failure != Alive)
    requires ProcessFits(t, p, t.processes[p])
    ensures Linkage(t)
  {
    hide LeasesOk, CallsOk, NumbersOk, ProcessesOk, PoolOk, SameToCallers, ProcessFits;
    InternalCalls(s, t, p);
    InternalProcesses(s, t, p);
  }

  lemma FitsBookkeeping(s: Pool, t: Pool, p: ProcessId, r: Process)
    requires p in s.processes && ProcessOk(s, p) && t.calls == s.calls && t.current == s.current
    requires SameToCallers(s.processes[p], r)
    requires r.failure == s.processes[p].failure
    requires r.reader == ReaderStopped ==> r.failure == Failed
    requires r.reader == ReaderWait ==> r.failure != Alive
    ensures ProcessFits(t, p, r)
  {
    assert forall id, d | Entry(s, p, id, d) :: Entry(t, p, id, d);
  }

  /** The reader, the writer or the channel move without touching a request. */
  lemma BookkeepingKeeps(s: Pool, p: ProcessId, r: Process)
    requires Linkage(s) && p in s.processes && SameToCallers(s.processes[p], r)
    requires r.failure == s.processes[p].failure
    requires r.reader == ReaderStopped ==> r.failure == Failed
    requires r.reader == ReaderWait ==> r.failure != Alive
    ensures Linkage(SetProcess(s, p, r))
  {
    hide Linkage, ProcessFits, ProcessOk, SameToCallers;
    var t := SetProcess(s, p, r);
    ProcessAt(s, p);
    FitsBookkeeping(s, t, p, r);
    InternalKeeps(s, t, p);
  }

  lemma CallerFailsKeeps(s: Pool, c: CallId)
    requires Linkage(s) && CallerEnabled(s, CallerFails(c))
    ensures Linkage(CallerStep(s, CallerFails(c)))
  {
    hide Linkage, EncodersOk, StartFail, CallOk;
    var p := s.calls[c].process.value;
    var mid := SetProcess(s, p, StartFail(s.processes[p]));
    var t := SetStage(mid, c, FailWait);
    StartFailKeeps(s, p);
    CallAt(mid, c);
    StalledOk(mid.calls[c], LeaseOf(mid, c), ViewOf(mid, c), mid.sequence);
    SlotsKept(mid, t, c);
    CallerOnlyKeeps(mid, t, c);
  }

  lemma StalledOk(call: Call, lease: Lease, view: View, sequence: RequestId)
    requires CallOk(call, lease, view, sequence) && call.stage == Stalled
    ensures CallOk(call.(stage := FailWait), lease, view, sequence)
  {
  }

  lemma ReaderFailsKeeps(s: Pool, p: ProcessId)
    requires Linkage(s) && ProcessEnabled(s, ReaderFails(p))
    ensures Linkage(ProcessStep(s, ReaderFails(p)))
  {
    hide Linkage;
    StartFailKeeps(s, p);
    var mid := SetProcess(s, p, StartFail(s.processes[p]));
    BookkeepingKeeps(mid, p, mid.processes[p].(reader := ReaderWait));
    assert mid.processes[p := mid.processes[p].(reader := ReaderWait)]
        == s.processes[p := mid.processes[p].(reader := ReaderWait)];
  }

  lemma WriterFailsKeeps(s: Pool, p: ProcessId)
    requires Linkage(s) && ProcessEnabled(s, WriterFails(p))
    ensures Linkage(ProcessStep(s, WriterFails(p)))
  {
    hide Linkage;
    StartFailKeeps(s, p);
    ProcessAt(s, p);
    var mid := SetProcess(s, p, StartFail(s.processes[p]));
    ProcessAt(mid, p);
    BookkeepingKeeps(mid, p, mid.processes[p].(writer := WriterWait));
    assert mid.processes[p := mid.processes[p].(writer := WriterWait)]
        == s.processes[p := mid.processes[p].(writer := WriterWait)];
  }

  lemma ReaderMovesKeeps(s: Pool, p: ProcessId, to: Reader)
    requires Linkage(s) && ProcessEnabled(s, ReaderMoves(p, to))
    ensures Linkage(ProcessStep(s, ReaderMoves(p, to)))
  {
    hide Linkage;
    BookkeepingKeeps(s, p, s.processes[p].(reader := to));
  }

  lemma WriterTakesKeeps(s: Pool, p: ProcessId)
    requires Linkage(s) && ProcessEnabled(s, WriterTakes(p))
    ensures Linkage(ProcessStep(s, WriterTakes(p)))
  {
    hide Linkage;
    ProcessAt(s, p);
    BookkeepingKeeps(s, p, s.processes[p].(writes := s.processes[p].writes[1..]));
  }

  lemma WriterMovesKeeps(s: Pool, p: ProcessId, to: Writer)
    requires Linkage(s) && ProcessEnabled(s, WriterMoves(p, to))
    ensures Linkage(ProcessStep(s, WriterMoves(p, to)))
  {
    hide Linkage;
    ProcessAt(s, p);
    BookkeepingKeeps(s, p, s.processes[p].(writer := to));
  }

  lemma ClearOwnerKeeps(s: Pool, p: ProcessId)
    requires Linkage(s) && ProcessEnabled(s, ClearOwner(p))
    ensures Linkage(ProcessStep(s, ClearOwner(p)))
  {
    hide Linkage;
    var t := ProcessStep(s, ClearOwner(p));
    ProcessAt(s, p);
    assert forall id, d | Entry(s, p, id, d) :: Entry(t, p, id, d);
    assert ProcessFits(t, p, t.processes[p]);
    hide ProcessFits;
    InternalKeeps(s, t, p);
  }

  lemma FinishFailKeeps(s: Pool, p: ProcessId)
    requires Linkage(s) && ProcessEnabled(s, FinishFail(p))
    ensures Linkage(ProcessStep(s, FinishFail(p)))
  {
    hide Linkage, ProcessFits;
    var t := ProcessStep(s, FinishFail(p));
    ProcessAt(s, p);
    FitsAfterFinish(s, p, s.processes[p]);
    InternalKeeps(s, t, p);
  }

  lemma FitsAfterFinish(s: Pool, p: ProcessId, q: Process)
    requires ProcessFits(s, p, q) && q.failure == Failing(true) && q.draining == map[] && q.owed == None
    ensures ProcessFits(SetProcess(s, p, q.(failure := Failed)), p, q.(failure := Failed))
  {
    var t := SetProcess(s, p, q.(failure := Failed));
    assert forall id, d | Entry(s, p, id, d) :: Entry(t, p, id, d);
  }

  // ---------------------------------------------------------------------
  // Closing the pool.
  // ---------------------------------------------------------------------

  lemma PoolChangeKeeps(s: Pool, t: Pool)
    requires Linkage(s) && PoolOk(t)
    requires t == s.(closed := t.closed, closer := t.closer)
    ensures Linkage(t)
  {
    hide PoolOk, CallOk;
    assert LeasesOk(t) && NumbersOk(t);
    assert forall c | c in t.calls :: ViewOf(t, c) == ViewOf(s, c);
    forall p | p in t.processes ensures ProcessOk(t, p) {
      assert ProcessOk(s, p);
      assert forall id, d | Entry(s, p, id, d) :: Entry(t, p, id, d);
    }
  }

  lemma CloseFailsKeeps(s: Pool)
    requires Linkage(s) && CloseEnabled(s, CloseFails)
    ensures Linkage(CloseStep(s, CloseFails))
  {
    hide Linkage, StartFail, PoolOk;
    var p := s.closer.process;
    StartFailKeeps(s, p);
    var mid := SetProcess(s, p, StartFail(s.processes[p]));
    CloseWaitPool(mid, p);
    PoolChangeKeeps(mid, mid.(closer := CloseWait(p)));
  }

  lemma CloseWaitPool(s: Pool, p: ProcessId)
    requires Linkage(s) && s.closer == CloseFailing(p) && p in s.processes && s.processes[p].failure != Alive
    ensures PoolOk(s.(closer := CloseWait(p)))
  {
    hide LeasesOk, CallsOk, NumbersOk, ProcessesOk;
  }

  lemma CloseReturnsKeeps(s: Pool)
    requires Linkage(s) && CloseEnabled(s, CloseReturns)
    ensures Linkage(CloseStep(s, CloseReturns))
  {
    ProcessAt(s, s.closer.process);
    hide LeasesOk, CallsOk, NumbersOk, ProcessesOk;
    PoolChangeKeeps(s, CloseStep(s, CloseReturns));
  }

  lemma CloseReadsKeeps(s: Pool)
    requires Linkage(s) && CloseEnabled(s, CloseReads)
    ensures Linkage(CloseStep(s, CloseReads))
  {
    hide LeasesOk, CallsOk, NumbersOk, ProcessesOk;
    PoolChangeKeeps(s, CloseStep(s, CloseReads));
  }

  lemma CancelPoolKeeps(s: Pool)
    requires Linkage(s)
    ensures Linkage(CloseStep(s, CancelPool))
  {
    hide LeasesOk, CallsOk, NumbersOk, ProcessesOk;
    PoolChangeKeeps(s, CloseStep(s, CancelPool));
  }

  // ---------------------------------------------------------------------
  // All steps.
  // ---------------------------------------------------------------------

  lemma CloseStepKeeps(s: Pool, a: CloseAction)
    requires Invariant(s) && CloseEnabled(s, a)
    ensures Invariant(CloseStep(s, a))
  {
    hide LanesOk, Linkage;
    match a {
      case CancelPool => CancelPoolKeeps(s);
      case CloseReads => CloseReadsKeeps(s);
      case CloseFails => CloseFailsKeeps(s);
      case CloseReturns => CloseReturnsKeeps(s);
    }
    LanesFollow(s, s, CloseStep(s, a), 0);
  }

  lemma ProcessLanes(s: Pool, a: ProcessAction)
    requires ProcessEnabled(s, a) && !a.ReaderReleases? && !a.DrainRelease?
    ensures ProcessStep(s, a).lanes == s.lanes
  {
  }

  lemma QuietProcessStepKeeps(s: Pool, a: ProcessAction)
    requires Linkage(s) && ProcessEnabled(s, a) && !a.ReaderReleases? && !a.DrainRelease?
    ensures Linkage(ProcessStep(s, a))
  {
    hide Linkage, ProcessStep, ProcessEnabled;
    match a
    case ReaderTakes(p, id) => ReaderTakesKeeps(s, p, id);
    case ReaderSends(p) => ReaderSendsKeeps(s, p);
    case ReaderMoves(p, to) => ReaderMovesKeeps(s, p, to);
    case ReaderFails(p) => ReaderFailsKeeps(s, p);
    case WriterTakes(p) => WriterTakesKeeps(s, p);
    case WriterMoves(p, to) => WriterMovesKeeps(s, p, to);
    case WriterFails(p) => WriterFailsKeeps(s, p);
    case ClearOwner(p) => ClearOwnerKeeps(s, p);
    case DrainSend(p) => DrainSendKeeps(s, p);
    case FinishFail(p) => FinishFailKeeps(s, p);
  }

  lemma ProcessStepKeeps(s: Pool, a: ProcessAction)
    requires Invariant(s) && ProcessEnabled(s, a)
    ensures Invariant(ProcessStep(s, a))
  {
    hide LanesOk, Linkage, ProcessStep, ProcessEnabled;
    match a
    case ReaderReleases(p) => ReaderReleasesKeeps(s, p);
    case DrainRelease(p, id) => DrainReleaseKeeps(s, p, id);
    case _ =>
      QuietProcessStepKeeps(s, a);
      ProcessLanes(s, a);
      LanesFollow(s, s, ProcessStep(s, a), 0);
  }

  lemma CallerLanes(s: Pool, a: CallerAction)
    requires CallerEnabled(s, a) && !a.Begin? && !a.EnqueueFrame? && !a.CallerReleases?
    ensures CallerStep(s, a).lanes == s.lanes
  {
  }

  lemma QuietCallerStepKeeps(s: Pool, a: CallerAction)
    requires Linkage(s) && CallerEnabled(s, a) && !a.Begin? && !a.EnqueueFrame? && !a.CallerReleases?
    ensures Linkage(CallerStep(s, a))
  {
    hide Linkage, CallerStep, CallerEnabled;
    match a
    case Cancel(c) => CancelKeeps(s, c);
    case TakeNumber(c) => TakeNumberKeeps(s, c);
    case AcquireEncoder(c) => AcquireEncoderKeeps(s, c);
    case FreeEncoder(c) => FreeEncoderKeeps(s, c);
    case Move(c, to) => MoveKeeps(s, c, to);
    case UseCurrent(c) => UseCurrentKeeps(s, c);
    case Spawn(c, p) => SpawnKeeps(s, c, p);
    case Register(c) => RegisterKeeps(s, c);
    case HandOver(c) => HandOverKeeps(s, c);
    case Forget(c) => ForgetKeeps(s, c);
    case Receive(c) => ReceiveKeeps(s, c);
    case PushCancel(c) => PushCancelKeeps(s, c);
    case CallerFails(c) => CallerFailsKeeps(s, c);
  }

  lemma CallerStepKeeps(s: Pool, a: CallerAction)
    requires Invariant(s) && CallerEnabled(s, a)
    ensures Invariant(CallerStep(s, a))
  {
    hide LanesOk, Linkage, CallerStep, CallerEnabled;
    match a
    case Begin(c, n) => BeginKeeps(s, c, n);
    case EnqueueFrame(c, size) => EnqueueFrameKeeps(s, c, size);
    case CallerReleases(c) => CallerReleasesKeeps(s, c);
    case _ =>
      QuietCallerStepKeeps(s, a);
      CallerLanes(s, a);
      LanesFollow(s, s, CallerStep(s, a), 0);
  }

  lemma StepKeeps(s: Pool, a: Action)
    requires Invariant(s) && Enabled(s, a)
    ensures Invariant(Step(s, a))
  {
    hide Invariant, CallerStep, ProcessStep, CloseStep;
    match a
    case ByCaller(caller) => CallerStepKeeps(s, caller);
    case ByProcess(runtime) => ProcessStepKeeps(s, runtime);
    case ByClose(close) => CloseStepKeeps(s, close);
  }
}
