/**
 One request lane of the runtime scheduler: an admission channel, a byte budget,
 a FIFO queue and a concurrency limit.

 `Lane` is the lane as a value, with the order in which leases were accepted and
 started kept beside the fields the program has. The functions on it are the
 mutex sections; class `RequestLane` is the program itself, whose methods are
 proved to compute those functions.
 */
module Scheduling {

  const MAXIMUM_MESSAGE: nat := 64 * 1024 * 1024
  const INTERACTIVE_EXECUTIONS: nat := 4
  const NORMALIZATION_EXECUTIONS: nat := 2
  const MAXIMUM_PENDING: nat := 32
  const MAXIMUM_NORMALIZATION_PENDING: nat := 6

  /** The flags of one lease. `running` stays set after a release, as in the program. */
  datatype Lease = Lease(size: nat, queued: bool, running: bool, released: bool)

  const NEW_LEASE := Lease(0, false, false, false)

  datatype Lane<L> = Lane(
    concurrency: nat,
    capacity: nat,
    tokens: int,
    active: int,
    bytes: int,
    queue: seq<L>,
    leases: map<L, Lease>,
    arrivals: seq<L>,
    started: seq<L>)

  function NewLane<L>(concurrency: nat, capacity: nat): Lane<L> {
    Lane(concurrency, capacity, 0, 0, 0, [], map[], [], [])
  }

  // ---------------------------------------------------------------------
  // What the counters are supposed to count, read off the leases alone.
  // ---------------------------------------------------------------------

  predicate Accepted(lease: Lease) {
    lease.queued || lease.running
  }

  /** Bytes a lease holds of the lane's budget. */
  function Weight(lease: Lease): nat {
    if Accepted(lease) && !lease.released then lease.size else 0
  }

  ghost function Unreleased<L>(leases: map<L, Lease>): set<L> {
    set x | x in leases && !leases[x].released
  }

  ghost function Executing<L>(leases: map<L, Lease>): set<L> {
    set x | x in leases && leases[x].running && !leases[x].released
  }

  ghost function HeldBytes<L>(leases: map<L, Lease>): nat {
    if leases == map[] then 0
    else
      var x :| x in leases;
      Weight(leases[x]) + HeldBytes(leases - {x})
  }

  /** Accepted leases in order, without those that were released while still queued. */
  ghost function Kept<L>(order: seq<L>, leases: map<L, Lease>): seq<L>
    requires forall x | x in order :: x in leases
  {
    if order == [] then []
    else
      var last := order[|order| - 1];
      var before := Kept(order[..|order| - 1], leases);
      if leases[last].released && !leases[last].running then before else before + [last]
  }

  ghost predicate Distinct<L>(s: seq<L>) {
    forall i, j | 0 <= i < j < |s| :: s[i] != s[j]
  }

  /** The flags of the leases agree with the queue and with the two histories. */
  ghost predicate FlagsAgree<L>(lane: Lane<L>) {
    && (forall x | x in lane.queue :: x in lane.leases)
    && (forall x | x in lane.started :: x in lane.leases)
    && (forall x | x in lane.arrivals :: x in lane.leases)
    && (forall x | x in lane.leases :: lane.leases[x].queued && !lane.leases[x].released <==> x in lane.queue)
    && (forall x | x in lane.leases :: lane.leases[x].running <==> x in lane.started)
    && (forall x | x in lane.leases :: Accepted(lane.leases[x]) <==> x in lane.arrivals)
    && (forall x | x in lane.leases :: !(lane.leases[x].queued && lane.leases[x].running))
    && (forall x | x in lane.leases && !Accepted(lane.leases[x]) :: lane.leases[x].size == 0)
  }

  /** First come, first started: only leases released while queued are skipped. */
  ghost predicate InOrder<L>(lane: Lane<L>)
    requires forall x | x in lane.arrivals :: x in lane.leases
  {
    && Distinct(lane.arrivals)
    && Distinct(lane.started + lane.queue)
    && Kept(lane.arrivals, lane.leases) == lane.started + lane.queue
  }

  ghost predicate CountersExact<L>(lane: Lane<L>) {
    && lane.tokens == |Unreleased(lane.leases)| <= lane.capacity
    && lane.active == |Executing(lane.leases)| <= lane.concurrency
    && lane.bytes == HeldBytes(lane.leases) <= MAXIMUM_MESSAGE
  }

  /** What holds inside a mutex section as well as between them. */
  ghost predicate Consistent<L>(lane: Lane<L>) {
    FlagsAgree(lane) && InOrder(lane) && CountersExact(lane)
  }

  /** No execution slot is idle while a request waits. */
  predicate Settled<L>(lane: Lane<L>) {
    lane.active == lane.concurrency || lane.queue == []
  }

  ghost predicate LaneInvariant<L>(lane: Lane<L>) {
    Consistent(lane) && Settled(lane)
  }

  // ---------------------------------------------------------------------
  // The critical sections.
  // ---------------------------------------------------------------------

  predicate CanReserve<L>(lane: Lane<L>) {
    lane.tokens < lane.capacity
  }

  function AfterReserve<L>(lane: Lane<L>, x: L): Lane<L> {
    lane.(tokens := lane.tokens + 1, leases := lane.leases[x := NEW_LEASE])
  }

  predicate Fits<L>(lane: Lane<L>, size: nat) {
    size <= MAXIMUM_MESSAGE - lane.bytes
  }

  function AfterEnqueue<L>(lane: Lane<L>, x: L, size: nat): Lane<L>
    requires x in lane.leases
  {
    if !Fits(lane, size) then lane
    else AfterDispatch(Append(lane, x, size))
  }

  function Append<L>(lane: Lane<L>, x: L, size: nat): Lane<L>
    requires x in lane.leases
  {
    lane.(bytes := lane.bytes + size,
          queue := lane.queue + [x],
          arrivals := lane.arrivals + [x],
          leases := lane.leases[x := lane.leases[x].(size := size, queued := true)])
  }

  function Start<L>(lane: Lane<L>): Lane<L>
    requires lane.queue != []
  {
    var x := lane.queue[0];
    var lease := if x in lane.leases then lane.leases[x] else NEW_LEASE;
    lane.(queue := lane.queue[1..],
          active := lane.active + 1,
          started := lane.started + [x],
          leases := lane.leases[x := lease.(queued := false, running := true)])
  }

  function AfterDispatch<L>(lane: Lane<L>): Lane<L>
    decreases |lane.queue|
  {
    if lane.active < lane.concurrency && lane.queue != [] then AfterDispatch(Start(lane)) else lane
  }

  /** The first position of x, as slices.Index finds it; the length when it is absent. */
  function IndexOf<L(==)>(s: seq<L>, x: L): (i: nat)
    ensures i <= |s|
    ensures i < |s| ==> s[i] == x
    ensures x in s ==> i < |s|
    ensures forall j | 0 <= j < i :: s[j] != x
  {
    if s == [] then 0 else if s[0] == x then 0 else 1 + IndexOf(s[1..], x)
  }

  function Without<L(==)>(s: seq<L>, x: L): seq<L> {
    if s == [] then [] else if s[0] == x then s[1..] else [s[0]] + Without(s[1..], x)
  }

  /** The body of `release` before it dispatches; `queued` keeps its value, as in the program. */
  function Withdraw<L(==)>(lane: Lane<L>, x: L): Lane<L>
    requires x in lane.leases
  {
    var lease := lane.leases[x];
    lane.(leases := lane.leases[x := lease.(released := true)],
          queue := if lease.queued then Without(lane.queue, x) else lane.queue,
          active := if lease.running then lane.active - 1 else lane.active,
          bytes := lane.bytes - lease.size,
          tokens := lane.tokens - 1)
  }

  /** Marking, leaving the queue and returning the budget amount to Withdraw. */
  lemma WithdrawnInSteps<L>(s0: Lane<L>, x: L, flags: Lease, s1: Lane<L>, s2: Lane<L>, s3: Lane<L>)
    requires x in s0.leases && s0.leases[x] == flags
    requires s1 == s0.(leases := s0.leases[x := flags.(released := true)])
    requires s2 == if flags.queued then s1.(queue := Without(s1.queue, x)) else s1
    requires s3 == s2.(active := if flags.running then s2.active - 1 else s2.active,
                       bytes := s2.bytes - flags.size, tokens := s2.tokens - 1)
    ensures s3 == Withdraw(s0, x)
  {
  }

  function AfterRelease<L(==)>(lane: Lane<L>, x: L): Lane<L>
    requires x in lane.leases
  {
    if lane.leases[x].released then lane else AfterDispatch(Withdraw(lane, x))
  }

  // ---------------------------------------------------------------------
  // Counting lemmas.
  // ---------------------------------------------------------------------

  lemma {:induction false} HeldBytesSplit<L>(leases: map<L, Lease>, x: L)
    requires x in leases
    ensures HeldBytes(leases) == Weight(leases[x]) + HeldBytes(leases - {x})
    decreases |leases|
  {
    var y :| y in leases && HeldBytes(leases) == Weight(leases[y]) + HeldBytes(leases - {y});
    if y != x {
      assert (leases - {y})[x] == leases[x];
      HeldBytesSplit(leases - {y}, x);
      HeldBytesSplit(leases - {x}, y);
      assert leases - {y} - {x} == leases - {x} - {y};
    }
  }

  lemma HeldBytesUpdate<L>(leases: map<L, Lease>, x: L, lease: Lease)
    ensures HeldBytes(leases[x := lease]) ==
            HeldBytes(leases) + Weight(lease) - (if x in leases then Weight(leases[x]) else 0)
  {
    HeldBytesSplit(leases[x := lease], x);
    if x in leases {
      HeldBytesSplit(leases, x);
      assert leases[x := lease] - {x} == leases - {x};
    } else {
      assert leases[x := lease] - {x} == leases;
    }
  }

  lemma CountUpdate<L>(leases: map<L, Lease>, x: L, lease: Lease)
    ensures Unreleased(leases[x := lease]) ==
            if lease.released then Unreleased(leases) - {x} else Unreleased(leases) + {x}
    ensures Executing(leases[x := lease]) ==
            if lease.running && !lease.released then Executing(leases) + {x} else Executing(leases) - {x}
  {
  }

  lemma {:induction false} KeptUnchanged<L>(order: seq<L>, leases: map<L, Lease>, x: L, lease: Lease)
    requires forall y | y in order :: y in leases
    requires x !in order || (lease.released && !lease.running) == (leases[x].released && !leases[x].running)
    ensures Kept(order, leases[x := lease]) == Kept(order, leases)
    decreases |order|
  {
    if order != [] {
      var before := order[..|order| - 1];
      KeptUnchanged(before, leases, x, lease);
    }
  }

  lemma {:induction false} KeptMembers<L>(order: seq<L>, leases: map<L, Lease>, x: L)
    requires forall y | y in order :: y in leases
    ensures x in Kept(order, leases) <==> x in order && !(leases[x].released && !leases[x].running)
    decreases |order|
  {
    if order != [] {
      KeptMembers(order[..|order| - 1], leases, x);
      assert order == order[..|order| - 1] + [order[|order| - 1]];
    }
  }

  /** Deleting by index, as the program does, removes the first occurrence. */
  lemma {:induction false} DeleteAtIndex<L>(s: seq<L>, x: L)
    requires x in s
    ensures s[..IndexOf(s, x)] + s[IndexOf(s, x) + 1..] == Without(s, x)
  {
    if s[0] != x {
      DeleteAtIndex(s[1..], x);
      var i := IndexOf(s[1..], x);
      assert s[..i + 1] == [s[0]] + s[1..][..i];
      assert s[i + 2..] == s[1..][i + 1..];
    }
  }

  lemma {:induction false} WithoutAbsent<L>(s: seq<L>, x: L)
    requires x !in s
    ensures Without(s, x) == s
  {
    if s != [] {
      WithoutAbsent(s[1..], x);
    }
  }

  lemma {:induction false} WithoutFirst<L>(a: seq<L>, b: seq<L>, x: L)
    requires x in a
    ensures Without(a + b, x) == Without(a, x) + b
  {
    assert (a + b)[1..] == a[1..] + b;
    if a[0] != x {
      WithoutFirst(a[1..], b, x);
    }
  }

  lemma {:induction false} WithoutSecond<L>(a: seq<L>, b: seq<L>, x: L)
    requires x !in a
    ensures Without(a + b, x) == a + Without(b, x)
  {
    if a == [] {
      assert a + b == b;
    } else {
      assert (a + b)[1..] == a[1..] + b;
      WithoutSecond(a[1..], b, x);
    }
  }

  /** Releasing a queued lease takes exactly that lease out of the kept order. */
  lemma {:induction false} KeptDrop<L>(order: seq<L>, leases: map<L, Lease>, x: L)
    requires forall y | y in order :: y in leases
    requires Distinct(order)
    requires x in leases && !leases[x].running && !leases[x].released
    ensures Kept(order, leases[x := leases[x].(released := true)]) == Without(Kept(order, leases), x)
    decreases |order|
  {
    var after := leases[x := leases[x].(released := true)];
    if order != [] {
      var last := order[|order| - 1];
      var before := order[..|order| - 1];
      KeptDrop(before, leases, x);
      KeptMembers(before, leases, x);
      var kept := Kept(before, leases);
      if last == x {
        assert x !in before;
        WithoutAbsent(kept, x);
        WithoutSecond(kept, [x], x);
        assert Without([x], x) == [];
      } else if x in kept {
        WithoutFirst(kept, [last], x);
      } else {
        WithoutAbsent(kept, x);
        WithoutAbsent(kept + [last], x);
      }
    }
  }

  // ---------------------------------------------------------------------
  // Every critical section keeps the lane invariant.
  // ---------------------------------------------------------------------

  lemma NewLaneInvariant<L>(concurrency: nat, capacity: nat)
    ensures LaneInvariant(NewLane<L>(concurrency, capacity))
  {
    var lane := NewLane<L>(concurrency, capacity);
    assert Unreleased(lane.leases) == {} && Executing(lane.leases) == {};
    assert lane.started + lane.queue == [];
  }

  lemma ReserveCounters<L>(lane: Lane<L>, x: L)
    requires CountersExact(lane) && CanReserve(lane) && x !in lane.leases
    ensures CountersExact(AfterReserve(lane, x))
  {
    hide HeldBytes;
    HeldBytesUpdate(lane.leases, x, NEW_LEASE);
    CountUpdate(lane.leases, x, NEW_LEASE);
    assert x !in Unreleased(lane.leases) && x !in Executing(lane.leases);
    assert Executing(lane.leases) - {x} == Executing(lane.leases);
  }

  lemma ReserveOrder<L>(lane: Lane<L>, x: L)
    requires FlagsAgree(lane) && InOrder(lane) && x !in lane.leases
    ensures FlagsAgree(AfterReserve(lane, x)) && InOrder(AfterReserve(lane, x))
  {
    hide Distinct;
    KeptUnchanged(lane.arrivals, lane.leases, x, NEW_LEASE);
  }

  lemma ReserveKeeps<L>(lane: Lane<L>, x: L)
    requires LaneInvariant(lane) && CanReserve(lane) && x !in lane.leases
    ensures LaneInvariant(AfterReserve(lane, x))
  {
    hide FlagsAgree, InOrder, CountersExact;
    ReserveCounters(lane, x);
    ReserveOrder(lane, x);
  }

  lemma StartCounters<L>(lane: Lane<L>)
    requires FlagsAgree(lane) && CountersExact(lane)
    requires lane.queue != [] && lane.active < lane.concurrency
    ensures CountersExact(Start(lane))
  {
    var x := lane.queue[0];
    var lease := lane.leases[x].(queued := false, running := true);
    HeldBytesUpdate(lane.leases, x, lease);
    CountUpdate(lane.leases, x, lease);
    assert x in lane.queue;
    assert x !in Executing(lane.leases) && x in Unreleased(lane.leases);
    assert Unreleased(lane.leases) + {x} == Unreleased(lane.leases);
  }

  lemma StartOrder<L>(lane: Lane<L>)
    requires FlagsAgree(lane) && InOrder(lane) && lane.queue != []
    ensures FlagsAgree(Start(lane)) && InOrder(Start(lane))
  {
    var x := lane.queue[0];
    var lease := lane.leases[x].(queued := false, running := true);
    var next := Start(lane);
    QueueHead(lane);
    assert lane.queue == [x] + next.queue;
    assert next.started + next.queue == lane.started + lane.queue;
    KeptUnchanged(lane.arrivals, lane.leases, x, lease);
  }

  lemma StartKeeps<L>(lane: Lane<L>)
    requires Consistent(lane) && lane.queue != [] && lane.active < lane.concurrency
    ensures Consistent(Start(lane))
  {
    hide FlagsAgree, InOrder, CountersExact;
    StartOrder(lane);
    StartCounters(lane);
  }

  lemma QueueHead<L>(lane: Lane<L>)
    requires Distinct(lane.started + lane.queue) && lane.queue != []
    ensures lane.queue[0] !in lane.queue[1..]
    ensures lane.queue[0] !in lane.started
    ensures Distinct(lane.queue)
  {
    var all, n := lane.started + lane.queue, |lane.started|;
    assert forall i | 0 <= i < |lane.queue| :: lane.queue[i] == all[n + i];
    assert forall i | 0 <= i < n :: lane.started[i] == all[i];
  }

  lemma {:induction false} DispatchKeeps<L>(lane: Lane<L>)
    requires Consistent(lane)
    ensures LaneInvariant(AfterDispatch(lane))
    decreases |lane.queue|
  {
    if lane.active < lane.concurrency && lane.queue != [] {
      StartKeeps(lane);
      DispatchKeeps(Start(lane));
    }
  }

  lemma AppendFlags<L>(lane: Lane<L>, x: L, size: nat)
    requires FlagsAgree(lane) && x in lane.leases && lane.leases[x] == NEW_LEASE
    ensures FlagsAgree(Append(lane, x, size))
  {
  }

  lemma AppendOrder<L>(lane: Lane<L>, x: L, size: nat)
    requires FlagsAgree(lane) && InOrder(lane) && x in lane.leases && lane.leases[x] == NEW_LEASE
    ensures FlagsAgree(Append(lane, x, size)) && InOrder(Append(lane, x, size))
  {
    var lease := lane.leases[x].(size := size, queued := true);
    var next := Append(lane, x, size);
    assert x !in lane.started + lane.queue && x !in lane.arrivals;
    AppendFlags(lane, x, size);
    hide FlagsAgree;
    assert next.started + next.queue == lane.started + lane.queue + [x];
    KeptUnchanged(lane.arrivals, lane.leases, x, lease);
    assert next.arrivals[..|next.arrivals| - 1] == lane.arrivals;
    DistinctAppend(lane.started + lane.queue, x);
    DistinctAppend(lane.arrivals, x);
  }

  lemma DistinctAppend<L>(s: seq<L>, x: L)
    requires Distinct(s) && x !in s
    ensures Distinct(s + [x])
  {
  }

  lemma AppendCounters<L>(lane: Lane<L>, x: L, size: nat)
    requires CountersExact(lane) && x in lane.leases && lane.leases[x] == NEW_LEASE && Fits(lane, size)
    ensures CountersExact(Append(lane, x, size))
  {
    hide HeldBytes;
    var lease := lane.leases[x].(size := size, queued := true);
    HeldBytesUpdate(lane.leases, x, lease);
    CountUpdate(lane.leases, x, lease);
    assert x in Unreleased(lane.leases) && x !in Executing(lane.leases);
    assert Unreleased(lane.leases) + {x} == Unreleased(lane.leases);
    assert Executing(lane.leases) - {x} == Executing(lane.leases);
  }

  lemma AppendKeeps<L>(lane: Lane<L>, x: L, size: nat)
    requires Consistent(lane) && x in lane.leases && lane.leases[x] == NEW_LEASE && Fits(lane, size)
    ensures Consistent(Append(lane, x, size))
  {
    hide FlagsAgree, InOrder, CountersExact;
    AppendOrder(lane, x, size);
    AppendCounters(lane, x, size);
  }

  lemma EnqueueKeeps<L>(lane: Lane<L>, x: L, size: nat)
    requires LaneInvariant(lane) && x in lane.leases && lane.leases[x] == NEW_LEASE
    ensures LaneInvariant(AfterEnqueue(lane, x, size))
  {
    if Fits(lane, size) {
      AppendKeeps(lane, x, size);
      DispatchKeeps(Append(lane, x, size));
    }
  }

  lemma WithdrawCounters<L>(lane: Lane<L>, x: L)
    requires FlagsAgree(lane) && CountersExact(lane) && x in lane.leases && !lane.leases[x].released
    ensures CountersExact(Withdraw(lane, x))
  {
    var lease := lane.leases[x].(released := true);
    HeldBytesUpdate(lane.leases, x, lease);
    CountUpdate(lane.leases, x, lease);
    assert x in Unreleased(lane.leases);
    if !lane.leases[x].running {
      assert Executing(lane.leases) - {x} == Executing(lane.leases);
    }
  }

  lemma WithdrawOrder<L>(lane: Lane<L>, x: L)
    requires FlagsAgree(lane) && InOrder(lane)
    requires x in lane.leases && !lane.leases[x].released && !lane.leases[x].queued
    ensures FlagsAgree(Withdraw(lane, x)) && InOrder(Withdraw(lane, x))
  {
    KeptUnchanged(lane.arrivals, lane.leases, x, lane.leases[x].(released := true));
  }

  lemma WithdrawKeeps<L>(lane: Lane<L>, x: L)
    requires Consistent(lane) && x in lane.leases && !lane.leases[x].released
    ensures Consistent(Withdraw(lane, x))
  {
    hide FlagsAgree, InOrder, CountersExact;
    WithdrawCounters(lane, x);
    if lane.leases[x].queued {
      WithdrawQueued(lane, x);
    } else {
      WithdrawOrder(lane, x);
    }
  }

  lemma WithdrawQueued<L>(lane: Lane<L>, x: L)
    requires FlagsAgree(lane) && InOrder(lane)
    requires x in lane.leases && !lane.leases[x].released && lane.leases[x].queued
    ensures FlagsAgree(Withdraw(lane, x)) && InOrder(Withdraw(lane, x))
  {
    assert x in lane.queue && x !in lane.started;
    KeptDrop(lane.arrivals, lane.leases, x);
    WithoutSecond(lane.started, lane.queue, x);
    WithoutDistinct(lane.started + lane.queue, x);
    QueueHead(lane);
    WithoutDistinct(lane.queue, x);
  }

  lemma {:induction false} WithoutDistinct<L>(s: seq<L>, x: L)
    requires Distinct(s)
    ensures Distinct(Without(s, x))
    ensures forall y | y in Without(s, x) :: y in s && y != x
    ensures forall y | y in s && y != x :: y in Without(s, x)
  {
    if s != [] {
      assert s == [s[0]] + s[1..];
      var rest := Without(s[1..], x);
      WithoutDistinct(s[1..], x);
      assert s[0] !in rest && Distinct(rest);
      assert forall i | 0 <= i < |rest| :: ([s[0]] + rest)[i + 1] == rest[i];
    }
  }

  lemma ReleaseKeeps<L>(lane: Lane<L>, x: L)
    requires LaneInvariant(lane) && x in lane.leases
    ensures LaneInvariant(AfterRelease(lane, x))
  {
    if !lane.leases[x].released {
      WithdrawKeeps(lane, x);
      DispatchKeeps(Withdraw(lane, x));
    }
  }

  // ---------------------------------------------------------------------
  // What each section does to the fields, said without the sections.
  // ---------------------------------------------------------------------

  ghost predicate QueueWaits<L>(lane: Lane<L>) {
    && Distinct(lane.queue)
    && forall x | x in lane.queue :: x in lane.leases && lane.leases[x].queued && !lane.leases[x].running
  }

  lemma QueueOfConsistent<L>(lane: Lane<L>)
    requires Consistent(lane)
    ensures QueueWaits(lane)
  {
    if lane.queue != [] {
      QueueHead(lane);
    }
  }

  /** How many queued leases the free slots take. */
  function Startable<L>(lane: Lane<L>): int {
    if lane.concurrency - lane.active < |lane.queue| then lane.concurrency - lane.active else |lane.queue|
  }

  /** `after` is `lane` with the first k leases of its queue started, in their order, and nothing else done. */
  ghost predicate Started<L>(lane: Lane<L>, after: Lane<L>, k: int)
    requires 0 <= k <= |lane.queue|
  {
    && after.active == lane.active + k
    && after.queue == lane.queue[k..] && after.started == lane.started + lane.queue[..k]
    && after == lane.(active := after.active, queue := after.queue, started := after.started, leases := after.leases)
    && after.leases.Keys == lane.leases.Keys
    && (forall x | x in lane.leases :: after.leases[x] == StartedLease(lane.leases[x], x in lane.queue[..k]))
  }

  function StartedLease(lease: Lease, starts: bool): Lease {
    if starts then lease.(queued := false, running := true) else lease
  }

  lemma StartedFirst<L>(lane: Lane<L>, after: Lane<L>, k: int)
    requires QueueWaits(lane) && lane.queue != [] && 0 <= k < |lane.queue|
    requires Started(Start(lane), after, k)
    ensures Started(lane, after, k + 1)
  {
    var x, next := lane.queue[0], Start(lane);
    assert x in lane.queue;
    assert lane.queue[..k + 1] == [x] + next.queue[..k];
    forall y | y in lane.leases ensures after.leases[y] == StartedLease(lane.leases[y], y in lane.queue[..k + 1]) {
      assert y in next.leases;
    }
  }

  lemma StartWaits<L>(lane: Lane<L>)
    requires QueueWaits(lane) && lane.queue != []
    ensures QueueWaits(Start(lane))
  {
    var next := Start(lane);
    assert forall i | 0 <= i < |next.queue| :: next.queue[i] == lane.queue[i + 1] && lane.queue[i + 1] in lane.queue;
  }

  lemma StartedNone<L>(lane: Lane<L>)
    ensures Started(lane, lane, 0)
  {
    assert lane.queue[0..] == lane.queue && lane.started + lane.queue[..0] == lane.started;
  }

  /** Dispatching starts as many leases from the head of the queue as there are free slots, and nothing else. */
  lemma {:induction false} DispatchExactly<L>(lane: Lane<L>)
    requires QueueWaits(lane) && lane.active <= lane.concurrency
    ensures Started(lane, AfterDispatch(lane), Startable(lane))
    decreases |lane.queue|
  {
    hide Started, QueueWaits;
    if lane.active < lane.concurrency && lane.queue != [] {
      StartWaits(lane);
      DispatchExactly(Start(lane));
      StartedFirst(lane, AfterDispatch(lane), Startable(Start(lane)));
    } else {
      StartedNone(lane);
    }
  }

  /** What accepting a lease does, in terms of the fields. */
  ghost predicate EnqueuedExactly<L>(lane: Lane<L>, after: Lane<L>, x: L, size: nat) {
    var starts := lane.active < lane.concurrency;
    && after.bytes == lane.bytes + size && after.tokens == lane.tokens
    && after.active == lane.active + (if starts then 1 else 0)
    && after.queue == (if starts then [] else lane.queue + [x])
    && after.arrivals == lane.arrivals + [x]
    && after.started == lane.started + (if starts then [x] else [])
    && after.leases == lane.leases[x := Lease(size, !starts, starts, false)]
  }

  lemma StartedAlone<L>(lane: Lane<L>, after: Lane<L>, x: L, size: nat)
    requires Settled(lane) && x in lane.leases && lane.leases[x] == NEW_LEASE && x !in lane.queue
    requires lane.active <= lane.concurrency
    requires var next := Append(lane, x, size); Started(next, after, Startable(next))
    ensures EnqueuedExactly(lane, after, x, size)
  {
    var next := Append(lane, x, size);
    if lane.active < lane.concurrency {
      assert next.queue == [x] && next.queue[..1] == [x] && next.queue[1..] == [];
    } else {
      assert next.queue[..0] == [] && next.queue[0..] == next.queue;
    }
    assert after.leases == lane.leases[x := after.leases[x]];
  }

  lemma NewNotQueued<L>(lane: Lane<L>, x: L)
    requires Consistent(lane) && x in lane.leases && lane.leases[x] == NEW_LEASE
    ensures x !in lane.queue && lane.active <= lane.concurrency
  {
  }

  /**
   An accepted lease holds its size of the budget. With a slot free it starts at
   once, and otherwise it waits behind all that wait; no other lease changes.
  */
  lemma EnqueueExactly<L>(lane: Lane<L>, x: L, size: nat)
    requires LaneInvariant(lane) && x in lane.leases && lane.leases[x] == NEW_LEASE
    ensures if lane.bytes + size > 64 * 1024 * 1024 then AfterEnqueue(lane, x, size) == lane
            else EnqueuedExactly(lane, AfterEnqueue(lane, x, size), x, size)
  {
    hide FlagsAgree, InOrder, CountersExact, Started, QueueWaits, EnqueuedExactly, AfterDispatch;
    if Fits(lane, size) {
      var next := Append(lane, x, size);
      NewNotQueued(lane, x);
      AppendKeeps(lane, x, size);
      QueueOfConsistent(next);
      DispatchExactly(next);
      StartedAlone(lane, AfterDispatch(next), x, size);
    }
  }

  lemma EnqueueReady<L>(lane: Lane<L>, x: L, size: nat)
    requires LaneInvariant(lane) && x in lane.leases && lane.leases[x] == NEW_LEASE && Fits(lane, size)
    ensures Consistent(Append(lane, x, size))
    ensures EnqueuedExactly(lane, AfterDispatch(Append(lane, x, size)), x, size)
  {
    hide FlagsAgree, InOrder, CountersExact, EnqueuedExactly, AfterDispatch;
    AppendKeeps(lane, x, size);
    EnqueueExactly(lane, x, size);
  }

  lemma EnqueuedFlags<L>(lane: Lane<L>, after: Lane<L>, x: L, size: nat)
    requires EnqueuedExactly(lane, after, x, size)
    ensures after.bytes == lane.bytes + size && x in after.leases
    ensures after.leases[x].size == size && (after.leases[x].running <==> lane.active < lane.concurrency)
  {
  }

  /**
   What the first release of a lease does, in terms of the fields: its slot goes to
   the head of the queue, if it had one and anybody waits.
  */
  ghost predicate ReleasedExactly<L>(lane: Lane<L>, after: Lane<L>, x: L)
    requires x in lane.leases
  {
    var lease := lane.leases[x];
    var passes := lease.running && lane.queue != [];
    var withdrawn := lane.leases[x := lease.(released := true)];
    && after.bytes == lane.bytes - lease.size && after.tokens == lane.tokens - 1 && after.arrivals == lane.arrivals
    && after.active == lane.active - (if lease.running && !passes then 1 else 0)
    && after.started == lane.started + (if passes then [lane.queue[0]] else [])
    && after.queue == (if passes then lane.queue[1..] else if lease.queued then Without(lane.queue, x) else lane.queue)
    && after.leases.Keys == lane.leases.Keys
    && (forall y | y in lane.leases ::
          after.leases[y] == StartedLease(withdrawn[y], passes && y == lane.queue[0]))
  }

  lemma WithdrawnExactly<L>(lane: Lane<L>, after: Lane<L>, x: L)
    requires Settled(lane) && x in lane.leases && !(lane.leases[x].queued && lane.leases[x].running)
    requires lane.leases[x].queued ==> lane.queue != []
    requires var next := Withdraw(lane, x); 0 <= Startable(next) && Started(next, after, Startable(next))
    ensures ReleasedExactly(lane, after, x)
  {
    var next, passes := Withdraw(lane, x), lane.leases[x].running && lane.queue != [];
    if passes {
      assert next.queue == lane.queue && next.queue[..1] == [lane.queue[0]];
    } else {
      assert Startable(next) == 0;
      assert next.queue[0..] == next.queue && next.queue[..0] == [];
    }
  }

  lemma ReleaseExactly<L>(lane: Lane<L>, x: L)
    requires LaneInvariant(lane) && x in lane.leases
    ensures if lane.leases[x].released then AfterRelease(lane, x) == lane
            else ReleasedExactly(lane, AfterRelease(lane, x), x)
  {
    if !lane.leases[x].released {
      ReleaseIsSafe(lane, x);
      WithdrawKeeps(lane, x);
      hide InOrder, Started, QueueWaits, ReleasedExactly, AfterDispatch, Withdraw;
      QueueOfConsistent(Withdraw(lane, x));
      DispatchExactly(Withdraw(lane, x));
      WithdrawnExactly(lane, AfterRelease(lane, x), x);
    }
  }

  lemma ReleaseReady<L>(lane: Lane<L>, x: L)
    requires LaneInvariant(lane) && x in lane.leases && !lane.leases[x].released
    ensures Consistent(Withdraw(lane, x)) && ReleasedExactly(lane, AfterDispatch(Withdraw(lane, x)), x)
    ensures lane.tokens > 0 && (lane.leases[x].queued ==> x in lane.queue)
  {
    hide FlagsAgree, InOrder, CountersExact, ReleasedExactly, AfterDispatch;
    WithdrawKeeps(lane, x);
    ReleaseIsSafe(lane, x);
    ReleaseExactly(lane, x);
  }

  lemma DispatchReady<L>(lane: Lane<L>)
    requires Consistent(lane)
    ensures 0 <= Startable(lane) && Started(lane, AfterDispatch(lane), Startable(lane))
  {
    QueueOfConsistent(lane);
    DispatchExactly(lane);
  }

  // ---------------------------------------------------------------------
  // What the invariant says about the order of service.
  // ---------------------------------------------------------------------

  lemma {:induction false} KeptInOrder<L>(order: seq<L>, leases: map<L, Lease>, i: nat, j: nat)
    requires forall y | y in order :: y in leases
    requires i < j < |order|
    requires order[i] in Kept(order, leases) && order[j] in Kept(order, leases)
    requires Distinct(order)
    ensures exists p, q :: 0 <= p < q < |Kept(order, leases)| &&
              Kept(order, leases)[p] == order[i] && Kept(order, leases)[q] == order[j]
    decreases |order|
  {
    var last, before := order[|order| - 1], order[..|order| - 1];
    var kept := Kept(before, leases);
    KeptMembers(order, leases, order[i]);
    KeptMembers(before, leases, order[i]);
    if j == |order| - 1 {
      KeptMembers(order, leases, order[j]);
      assert before[i] == order[i];
      var p :| 0 <= p < |kept| && kept[p] == order[i];
      assert Kept(order, leases) == kept + [last];
      assert Kept(order, leases)[p] == order[i] && Kept(order, leases)[|kept|] == order[j];
    } else {
      KeptMembers(order, leases, order[j]);
      KeptMembers(before, leases, order[j]);
      assert before[i] == order[i] && before[j] == order[j];
      KeptInOrder(before, leases, i, j);
      var p, q :| 0 <= p < q < |kept| && kept[p] == order[i] && kept[q] == order[j];
      assert Kept(order, leases)[p] == order[i] && Kept(order, leases)[q] == order[j];
    }
  }

  /**
   Of two accepted leases the earlier starts first; when the later has started,
   the earlier has too, unless it was released while it was queued.
  */
  lemma ServedInArrivalOrder<L>(lane: Lane<L>, i: nat, j: nat)
    requires LaneInvariant(lane)
    requires i < j < |lane.arrivals| && lane.arrivals[j] in lane.started
    ensures (lane.leases[lane.arrivals[i]].released && !lane.leases[lane.arrivals[i]].running)
         || exists p, q :: 0 <= p < q < |lane.started| &&
              lane.started[p] == lane.arrivals[i] && lane.started[q] == lane.arrivals[j]
  {
    var x, y := lane.arrivals[i], lane.arrivals[j];
    if !(lane.leases[x].released && !lane.leases[x].running) {
      var all := lane.started + lane.queue;
      KeptMembers(lane.arrivals, lane.leases, x);
      KeptMembers(lane.arrivals, lane.leases, y);
      KeptInOrder(lane.arrivals, lane.leases, i, j);
      var p, q :| 0 <= p < q < |all| && all[p] == x && all[q] == y;
      var r :| 0 <= r < |lane.started| && lane.started[r] == y;
      assert all[r] == y;
      assert lane.started[p] == x && lane.started[q] == y;
    }
  }

  /** A lane whose leases are all released is back in its initial counters. */
  lemma DrainedLaneIsEmpty<L>(lane: Lane<L>)
    requires LaneInvariant(lane)
    requires forall x | x in lane.leases :: lane.leases[x].released
    ensures lane.tokens == lane.active == lane.bytes == 0 && lane.queue == []
  {
    assert Unreleased(lane.leases) == {} && Executing(lane.leases) == {};
    NothingHeld(lane.leases);
    EmptyOrInhabited(lane.queue);
  }

  lemma EmptyOrInhabited<L>(s: seq<L>)
    ensures s == [] || exists x :: x in s
  {
    if s != [] {
      assert s[0] in s;
    }
  }

  lemma {:induction false} NothingHeld<L>(leases: map<L, Lease>)
    requires forall x | x in leases :: leases[x].released
    ensures HeldBytes(leases) == 0
    decreases |leases|
  {
    if leases != map[] {
      var x :| x in leases;
      HeldBytesSplit(leases, x);
      NothingHeld(leases - {x});
    }
  }

  lemma HeadNotStarted<L>(lane: Lane<L>)
    requires Consistent(lane) && lane.queue != []
    ensures lane.queue[0] in lane.leases && !lane.leases[lane.queue[0]].running
  {
    assert lane.queue[0] in lane.queue;
  }

  lemma ReleaseIsSafe<L>(lane: Lane<L>, x: L)
    requires Consistent(lane) && x in lane.leases && !lane.leases[x].released
    ensures lane.tokens > 0
    ensures lane.leases[x].queued ==> x in lane.queue
  {
    assert x in Unreleased(lane.leases);
  }

  // ---------------------------------------------------------------------
  // The program.
  // ---------------------------------------------------------------------

  class RequestLease {
    const lane: RequestLane
    var ready: bool // true once the channel is closed
    var size: nat
    var queued: bool
    var running: bool
    var released: bool

    constructor (lane: RequestLane)
      ensures this.lane == lane && !ready && Flags() == NEW_LEASE
    {
      this.lane := lane;
      ready, size, queued, running, released := false, 0, false, false, false;
    }

    function Flags(): Lease
      reads this
    {
      Lease(size, queued, running, released)
    }
  }

  class RequestLane {
    const concurrency: nat
    const capacity: nat
    var admission: int // tokens in the admission channel
    var active: int
    var bytes: int
    var queue: seq<RequestLease>
    ghost var leases: set<RequestLease> // every lease this lane ever admitted
    ghost var arrivals: seq<RequestLease>
    ghost var started: seq<RequestLease>

    ghost function State(): Lane<RequestLease>
      reads this, leases
    {
      Lane(concurrency, capacity, admission, active, bytes, queue,
           map lease | lease in leases :: lease.Flags(), arrivals, started)
    }

    /** `ready` is closed exactly when the lease starts, so it is never closed twice. */
    ghost predicate Linked()
      reads this, leases
    {
      forall lease | lease in leases :: lease.lane == this && lease.ready == lease.running
    }

    ghost predicate Valid()
      reads this, leases
    {
      Linked() && LaneInvariant(State())
    }

    constructor (concurrency: nat, capacity: nat)
      ensures Valid() && State() == NewLane(concurrency, capacity) && leases == {}
    {
      this.concurrency, this.capacity := concurrency, capacity;
      admission, active, bytes, queue := 0, 0, 0, [];
      leases, arrivals, started := {}, [], [];
      new;
      NewLaneInvariant<RequestLease>(concurrency, capacity);
      assert State() == NewLane(concurrency, capacity);
    }

    /** A null result is RUNTIME_BUSY. */
    method Reserve() returns (lease: RequestLease?)
      requires Valid()
      modifies this
      ensures Valid()
      ensures lease == null <==> old(admission) >= capacity
      ensures lease == null ==> State() == old(State()) && leases == old(leases)
      ensures lease != null ==>
        fresh(lease) && leases == old(leases) + {lease} && State() == AfterReserve(old(State()), lease)
    {
      if admission < capacity {
        ghost var before := State();
        var admitted := Admit();
        ReserveKeeps(before, admitted);
        lease := admitted;
      } else {
        lease := null;
      }
    }

    method Admit() returns (lease: RequestLease)
      requires Linked()
      modifies this
      ensures Linked() && fresh(lease) && leases == old(leases) + {lease}
      ensures State() == AfterReserve(old(State()), lease)
    {
      ghost var before := State();
      lease := new RequestLease(this);
      admission := admission + 1;
      leases := leases + {lease};
      assert State() == AfterReserve(before, lease);
    }

    /** False is RUNTIME_BUSY: the accepted bytes would exceed the lane's budget. */
    method Enqueue(lease: RequestLease, size: nat) returns (accepted: bool)
      requires Valid() && lease in leases && lease.Flags() == NEW_LEASE
      modifies this, leases
      ensures Valid() && leases == old(leases)
      ensures State() == AfterEnqueue(old(State()), lease, size)
      ensures accepted <==> old(bytes) + size <= 64 * 1024 * 1024
      ensures !accepted ==> State() == old(State())
      ensures accepted ==> EnqueuedExactly(old(State()), State(), lease, size)
      ensures accepted ==> lease.size == size && bytes == old(bytes) + size && (lease.ready <==> old(active) < concurrency)
    {
      if size > MAXIMUM_MESSAGE - bytes {
        return false;
      }
      hide LaneInvariant, Consistent, AfterDispatch, Append, Linked;
      ghost var before := State();
      EnqueueReady(before, lease, size);
      Accept(lease, size);
      Dispatch();
      accepted := true;
      EnqueuedFlags(before, State(), lease, size);
    }

    method Accept(lease: RequestLease, size: nat)
      requires Linked() && lease in leases
      modifies this, lease
      ensures Linked() && leases == old(leases)
      ensures State() == Append(old(State()), lease, size)
    {
      lease.size := size;
      bytes := bytes + size;
      lease.queued := true;
      queue := queue + [lease];
      arrivals := arrivals + [lease];
      assert forall other | other in leases && other != lease :: other.Flags() == old(other.Flags());
      assert State().leases == Append(old(State()), lease, size).leases;
    }

    /** The lane mutex is held. */
    method Dispatch()
      requires Linked() && Consistent(State())
      modifies this, leases
      ensures Valid() && leases == old(leases)
      ensures State() == AfterDispatch(old(State()))
      ensures var k := Startable(old(State()));
              0 <= k <= old(|queue|) && Started(old(State()), State(), k)
    {
      DispatchReady(State());
      hide Started;
      while active < concurrency && |queue| > 0
        invariant leases == old(leases)
        invariant Linked() && Consistent(State())
        invariant AfterDispatch(State()) == AfterDispatch(old(State()))
        decreases |queue|
      {
        StartKeeps(State());
        HeadNotStarted(State());
        StartHead();
      }
    }

    /** Closing `ready` twice would panic: the head of the queue has not started. */
    method StartHead()
      requires Linked() && queue != [] && queue[0] in leases && !queue[0].running
      modifies this, leases
      ensures Linked() && leases == old(leases)
      ensures State() == Start(old(State()))
    {
      ghost var before := State();
      var lease := queue[0];
      queue := queue[1..];
      lease.queued := false;
      lease.running := true;
      active := active + 1;
      assert !lease.ready;
      lease.ready := true;
      started := started + [lease];
      assert State() == Start(before);
    }

    method Release(lease: RequestLease)
      requires Valid() && lease in leases
      modifies this, leases
      ensures Valid() && leases == old(leases)
      ensures State() == AfterRelease(old(State()), lease)
      ensures old(lease.released) ==> State() == old(State())
      ensures !old(lease.released) ==> ReleasedExactly(old(State()), State(), lease)
    {
      if lease.released {
        return;
      }
      hide LaneInvariant, Consistent, AfterDispatch, Withdraw, Linked;
      ReleaseReady(State(), lease);
      Retire(lease);
      Dispatch();
    }

    /**
     The preconditions are what the code relies on: deleting at an absent index
     panics, and receiving from an empty channel blocks with the mutex held.
    */
    method Retire(lease: RequestLease)
      requires Linked() && lease in leases
      requires lease.queued ==> lease in queue
      requires admission > 0
      modifies this, lease
      ensures Linked() && leases == old(leases)
      ensures State() == Withdraw(old(State()), lease)
    {
      hide Withdraw, Without;
      ghost var flags, s0 := lease.Flags(), State();
      assert s0.leases[lease] == flags;
      MarkReleased(lease);
      ghost var s1 := State();
      if lease.queued {
        Unqueue(lease);
      }
      ghost var s2 := State();
      ReturnBudget(lease.running, lease.size);
      WithdrawnInSteps(s0, lease, flags, s1, s2, State());
    }

    method MarkReleased(lease: RequestLease)
      requires Linked() && lease in leases
      modifies lease`released
      ensures Linked()
      ensures State() == old(State()).(leases := old(State()).leases[lease := old(lease.Flags()).(released := true)])
    {
      lease.released := true;
      assert forall other | other in leases && other != lease :: other.Flags() == old(other.Flags());
      assert State().leases == old(State()).leases[lease := old(lease.Flags()).(released := true)];
    }

    method ReturnBudget(running: bool, size: nat)
      requires Linked() && admission > 0
      modifies this`active, this`bytes, this`admission
      ensures Linked()
      ensures State() == old(State()).(active := if running then old(active) - 1 else old(active),
                                       bytes := old(bytes) - size, tokens := old(admission) - 1)
    {
      if running {
        active := active - 1;
      }
      bytes := bytes - size;
      admission := admission - 1;
      assert State().leases == old(State()).leases;
    }

    method Unqueue(lease: RequestLease)
      requires Linked() && lease in queue
      modifies this`queue
      ensures Linked() && State() == old(State()).(queue := Without(old(queue), lease))
    {
      var index := IndexOf(queue, lease);
      DeleteAtIndex(queue, lease);
      queue := queue[..index] + queue[index + 1..];
      assert State().leases == old(State()).leases;
    }
  }
}
