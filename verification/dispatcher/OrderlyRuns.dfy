/** Runs of the dispatcher of BLUE_KERNEL/BlueKernel_lvl3.c in which Schedule may be called at any point:
    nobody wakes the thread that is still current, and the idle thread never waits. Without the first
    condition a thread is lost. */
module OrderlyRuns {
  import opened ReadyQueues
  import opened Kernels
  import opened QueueInvariant
  import opened Scheduling
  import opened Inheritance
  import opened DispatcherRuns

  ghost predicate Orderly(k: Kernel) {
    && KernelInvariant(k) && InNoWaitQueue(k, k.idle)
    && (k.current != NONE ==> k.threads[k.current].state != Ready)
  }

  /** The thread SignalEvent wakes. */
  predicate Wakes(k: Kernel, e: int, t: int)
    requires WellFormed(k) && IsEvent(k, e)
  {
    var q := k.events[e].waiters;
    assert AreThreads(k, q);
    q != [] && t == q[BestWaiter(k.threads, q)]
  }

  /** Schedule at any time; otherwise the caller's obligations, no signal to the current thread, and no
      blocking of the idle thread. */
  ghost predicate OrderlyCall(k: Kernel, op: Operation)
    requires WellFormed(k)
  {
    match op
    case ScheduleOp => true
    case AcquireOp(m) => Enabled(k, op) && (k.mutexes[m].locked ==> k.current != k.idle)
    case WaitOp(e) => Enabled(k, op) && (!k.events[e].signaled ==> k.current != k.idle)
    case SignalOp(e) => Enabled(k, op) && !Wakes(k, e, k.current)
    case _ => Enabled(k, op)
  }

  /** Every such call is inside the domain of its operation: Schedule drops nobody. */
  lemma OrderlyEnabled(k: Kernel, op: Operation)
    requires Orderly(k) && OrderlyCall(k, op)
    ensures Enabled(k, op)
  {
    if op.ScheduleOp? && IsFront(k, k.current) {
      FrontIsReady(k, k.current);
    }
  }

  lemma OrderlyKeeps(k: Kernel, op: Operation)
    requires Orderly(k) && OrderlyCall(k, op)
    ensures Enabled(k, op) && Orderly(Apply(k, op))
  {
    OrderlyEnabled(k, op);
    ApplyKeeps(k, op);
    hide KernelInvariant, Enabled;
    match op
    case ScheduleOp => ScheduleSettles(k);
    case TimerOp => TimerSettles(k);
    case CreateOp(priority) => CreateSettles(k, priority);
    case AcquireOp(m) => AcquireSettles(k, m);
    case ReleaseOp(m) => ReleaseSettles(k, m);
    case TerminateOp(t) => TerminateSettles(k, t);
    case WaitOp(e) => WaitSettles(k, e);
    case SignalOp(e) => SignalSettles(k, e);
    case SetIrqlOp(level) =>
    case ClearRescheduleOp =>
  }

  /** What Orderly adds to the invariant. */
  ghost predicate Settled(k: Kernel)
    requires WellFormed(k)
  {
    InNoWaitQueue(k, k.idle) && (k.current != NONE ==> k.threads[k.current].state != Ready)
  }

  lemma ScheduleSettles(k: Kernel)
    requires WellFormed(k) && Settled(k)
    ensures Settled(Schedule(k))
  {
    PickWellFormed(k);
    hide PickNext;
  }

  lemma TimerSettles(k: Kernel)
    requires WellFormed(k) && Settled(k)
    ensures Settled(TimerDpc(k))
  {
  }

  lemma CreateSettles(k: Kernel, priority: nat)
    requires WellFormed(k) && Settled(k) && |k.threads| < MAX_THREADS && priority <= TOP_PRIORITY
    ensures Settled(Created(k, priority))
  {
  }

  lemma AcquireSettles(k: Kernel, m: int)
    requires WellFormed(k) && Settled(k) && IsMutex(k, m) && CurrentRuns(k)
    requires k.mutexes[m].locked ==> k.current != k.idle
    ensures Settled(Acquired(k, m))
  {
    var c := k.current;
    if k.mutexes[m].locked {
      ThreadWellFormed(k, c, k.threads[c].(waiting := m));
      BoostFrame(WithThread(k, c, k.threads[c].(waiting := m)), k.mutexes[m].owner, k.threads[c].priority);
    }
  }

  /** The new owner was blocked, so it is not the releaser. */
  lemma ReleaserRuns(k: Kernel, m: int)
    requires WellFormed(k) && WaitersOk(k, NONE) && IsMutex(k, m) && CurrentRuns(k)
    requires k.mutexes[m].owner == k.current
    ensures CurrentRuns(Released(k, m))
  {
    hide NoDuplicates;
    var k1 := Unboosted(k);
    var q := k.mutexes[m].waiters;
    assert AreThreads(k, q);
    if q != [] {
      assert q[BestWaiter(k1.threads, q)] in q;
      hide WaitersOk;
      HandOffSparesOthers(k1, m, k.current);
    }
    hide HandedOff, WaitersOk;
  }

  lemma HandOffSparesOthers(k: Kernel, m: int, t: int)
    requires WellFormed(k) && IsMutex(k, m) && k.mutexes[m].waiters != [] && IsThread(k, t)
    requires var q := k.mutexes[m].waiters; AreThreads(k, q) && q[BestWaiter(k.threads, q)] != t
    ensures var k' := HandedOff(k, m);
            IsThread(k', t) && k'.threads[t] == k.threads[t] && k'.current == k.current
  {
  }

  lemma ReleaseSettles(k: Kernel, m: int)
    requires WellFormed(k) && WaitersOk(k, NONE) && Settled(k) && IsMutex(k, m) && CurrentRuns(k)
    requires k.mutexes[m].owner == k.current
    ensures Settled(Released(k, m)) && CurrentRuns(Released(k, m))
  {
    ReleaserRuns(k, m);
    hide WaitersOk, WellFormed;
    ReleaseEffect(k, m);
    if k.mutexes[m].waiters != [] {
      HandOffOrder(Unboosted(k), m);
      assert Released(k, m) == HandedOff(Unboosted(k), m);
    }
    assert Released(k, m).idle == k.idle;
    hide Released, HandedOff;
  }

  lemma TerminateSettles(k: Kernel, t: int)
    requires WellFormed(k) && WaitersOk(k, NONE) && Settled(k) && IsThread(k, t)
    requires k.threads[t].owned != NONE ==>
               t == k.current && CurrentRuns(k) && k.mutexes[k.threads[t].owned].owner == t
    ensures Settled(TerminatedThread(k, t))
  {
    if k.threads[t].owned != NONE {
      ReleaseSettles(k, k.threads[t].owned);
    }
    hide Released, WaitersOk;
  }

  lemma WaitSettles(k: Kernel, e: int)
    requires WellFormed(k) && Settled(k) && IsEvent(k, e) && CurrentRuns(k)
    requires !k.events[e].signaled ==> k.current != k.idle
    ensures Settled(Waited(k, e))
  {
  }

  lemma SignalSettles(k: Kernel, e: int)
    requires WellFormed(k) && Settled(k) && IsEvent(k, e) && !Wakes(k, e, k.current)
    ensures Settled(Signaled(k, e))
  {
    var q := k.events[e].waiters;
    assert AreThreads(k, q);
  }

  // ----- Runs -----

  ghost predicate OrderlyRun(k: Kernel, ops: seq<Operation>)
    requires Orderly(k)
    decreases ops
  {
    ops != [] ==>
      && OrderlyCall(k, ops[0])
      && (OrderlyKeeps(k, ops[0]); OrderlyRun(Apply(k, ops[0]), ops[1..]))
  }

  /** Over every run in which nobody wakes the current thread and the idle thread never waits, Schedule may be
      called at any point: it is always enabled, and the invariant holds at the end. */
  lemma {:induction false} OrderlyRunKeeps(k: Kernel, ops: seq<Operation>)
    requires Orderly(k) && OrderlyRun(k, ops)
    ensures RunEnabled(k, ops) && Orderly(Run(k, ops))
    decreases ops
  {
    hide OrderlyCall, Apply, Enabled;
    if ops != [] {
      OrderlyKeeps(k, ops[0]);
      OrderlyRunKeeps(Apply(k, ops[0]), ops[1..]);
    }
  }

  lemma BootedOrderly(mutexes: nat, events: nat)
    ensures Orderly(Booted(mutexes, events))
  {
    BootedKeeps(mutexes, events);
  }

  // ----- A lost thread -----

  function Queues(queue: seq<int>): seq<seq<int>> {
    seq(MAX_PRIORITY, p => if p == 5 then queue else [])
  }

  lemma QueuesSet(q: seq<int>, r: seq<int>)
    ensures Queues(q)[5] == q && Queues(q)[5 := r] == Queues(r)
  {
  }

  /** One worker of priority 5 beside the idle thread, and one event. */
  function WithWorker(
      state: ThreadState, queue: seq<int>, current: int, waiters: seq<int>, irql: nat, reschedule: bool): Kernel {
    Kernel([Thread(1, 1, QUANTUM, Ready, NONE, NONE), Thread(5, 5, QUANTUM, state, NONE, NONE)],
           Queues(queue), current, 0, [], [Event(false, waiters)],
           irql, reschedule)
  }

  /** The worker is created, runs, waits, and is woken by a deferred call before anybody else is scheduled. */
  const WORKER_WOKEN: seq<Operation> :=
    [CreateOp(5), ScheduleOp, WaitOp(0), SetIrqlOp(DISPATCH_LEVEL), SignalOp(0), SetIrqlOp(PASSIVE_LEVEL)]

  lemma WorkerCreated()
    ensures var k := Booted(0, 1);
            Enabled(k, CreateOp(5)) && Apply(k, CreateOp(5)) == WithWorker(Ready, [1], NONE, [], PASSIVE_LEVEL, false)
  {
    BootedKeeps(0, 1);
    QueuesSet([], [1]);
    var none: seq<int> := [];
    assert none + [1] == [1];
    var k := Booted(0, 1);
    assert k.queues == Queues([]) && k.events == [Event(false, [])] && k.mutexes == [];
    hide Queues;
    var k' := Created(k, 5);
    assert k'.threads == WithWorker(Ready, [1], NONE, [], PASSIVE_LEVEL, false).threads;
    assert k'.queues == Queues([1]);
  }

  lemma WorkerFront(current: int, irql: nat, reschedule: bool)
    requires NONE <= current <= 1
    ensures var k := WithWorker(Ready, [1], current, [], irql, reschedule);
            && WellFormed(k) && PickedAt(k, 5, 0) && IsFront(k, 1) && !IsFront(k, 0) && !NothingLive(k)
            && PickNext(k) == (WithWorker(Ready, [], current, [], irql, reschedule), 1)
  {
    var k := WithWorker(Ready, [1], current, [], irql, reschedule);
    assert PickedAt(k, 5, 0);
    FrontIsLive(k, 5, 0);
    forall q: nat, j: nat | PickedAt(k, q, j) ensures q == 5 && j == 0 {
      OneFront(k, 5, 0, q, j);
    }
    var p, i := PickIsHighest(k);
    if PickedAt(k, p, i) {
      OneFront(k, 5, 0, p, i);
      assert PickNext(k).0.queues == WithWorker(Ready, [], current, [], irql, reschedule).queues;
    }
  }

  lemma WorkerRuns()
    ensures var k := WithWorker(Ready, [1], NONE, [], PASSIVE_LEVEL, false);
            && WellFormed(k) && Enabled(k, ScheduleOp)
            && Apply(k, ScheduleOp) == WithWorker(Running, [], 1, [], PASSIVE_LEVEL, false)
  {
    WorkerFront(NONE, PASSIVE_LEVEL, false);
    hide PickNext, PickedAt, NothingLive;
    assert !IsFront(WithWorker(Ready, [1], NONE, [], PASSIVE_LEVEL, false), NONE) by {
      PickedIff(WithWorker(Ready, [1], NONE, [], PASSIVE_LEVEL, false), NONE);
    }
  }

  lemma WorkerWaits()
    ensures var k := WithWorker(Running, [], 1, [], PASSIVE_LEVEL, false);
            && WellFormed(k) && Enabled(k, WaitOp(0))
            && Apply(k, WaitOp(0)) == WithWorker(Blocked, [], 1, [1], PASSIVE_LEVEL, true)
  {
    assert [] + [1] == [1];
    var k := WithWorker(Running, [], 1, [], PASSIVE_LEVEL, false);
    var k' := Waited(k, 0);
    assert k'.events == [Event(false, [1])];
    assert k'.threads == WithWorker(Blocked, [], 1, [1], PASSIVE_LEVEL, true).threads;
  }

  lemma WorkerWoken()
    ensures var k := WithWorker(Blocked, [], 1, [1], DISPATCH_LEVEL, true);
            && WellFormed(k) && Enabled(k, SignalOp(0))
            && Apply(k, SignalOp(0)) == WithWorker(Ready, [1], 1, [], DISPATCH_LEVEL, true)
  {
    var k := WithWorker(Blocked, [], 1, [1], DISPATCH_LEVEL, true);
    assert AreThreads(k, [1]) && BestWaiter(k.threads, [1]) == 0;
    assert Dropped([1], 0) == [];
    QueuesSet([], [1]);
    var none: seq<int> := [];
    assert none + [1] == [1];
    hide Queues;
    var k' := Signaled(k, 0);
    assert k'.queues == Queues([1]);
    assert k'.events == [Event(false, [])];
    assert k'.threads == WithWorker(Ready, [1], 1, [], DISPATCH_LEVEL, true).threads;
  }

  lemma RunStep(k: Kernel, op: Operation, k1: Kernel, ops: seq<Operation>)
    requires WellFormed(k) && Enabled(k, op) && k1 == Apply(k, op) && RunEnabled(k1, ops)
    ensures RunEnabled(k, [op] + ops) && Run(k, [op] + ops) == Run(k1, ops)
  {
    hide Enabled, Apply;
    assert ([op] + ops)[0] == op && ([op] + ops)[1..] == ops;
  }

  lemma RunNone(k: Kernel)
    requires WellFormed(k)
    ensures RunEnabled(k, []) && Run(k, []) == k
  {
  }

  lemma RunSplits()
    ensures WORKER_WOKEN == [CreateOp(5)] + ([ScheduleOp] + ([WaitOp(0)] + WORKER_WOKEN[3..]))
    ensures WORKER_WOKEN[3..] == [SetIrqlOp(DISPATCH_LEVEL)] + ([SignalOp(0)] + ([SetIrqlOp(PASSIVE_LEVEL)] + []))
  {
  }

  lemma WorkerShape(state: ThreadState, queue: seq<int>, waiters: seq<int>, irql: nat)
    requires forall x | x in queue + waiters :: x == 1
    ensures WellFormed(WithWorker(state, queue, 1, waiters, irql, true))
  {
    assert forall i | 0 <= i < |queue| :: queue[i] in queue + waiters;
    assert forall i | 0 <= i < |waiters| :: waiters[i] in queue + waiters;
  }

  lemma WorkerIrql(state: ThreadState, queue: seq<int>, waiters: seq<int>)
    requires forall x | x in queue + waiters :: x == 1
    ensures var low := WithWorker(state, queue, 1, waiters, PASSIVE_LEVEL, true);
            var high := WithWorker(state, queue, 1, waiters, DISPATCH_LEVEL, true);
            && WellFormed(low) && WellFormed(high)
            && Enabled(low, SetIrqlOp(DISPATCH_LEVEL)) && Enabled(high, SetIrqlOp(PASSIVE_LEVEL))
            && Apply(low, SetIrqlOp(DISPATCH_LEVEL)) == high && Apply(high, SetIrqlOp(PASSIVE_LEVEL)) == low
  {
    hide WellFormed, Queues;
    WorkerShape(state, queue, waiters, PASSIVE_LEVEL);
    WorkerShape(state, queue, waiters, DISPATCH_LEVEL);
  }

  /** The last three steps of the run, and then the whole. */
  lemma WorkerRunEnds()
    ensures var k := WithWorker(Blocked, [], 1, [1], PASSIVE_LEVEL, true);
            && WellFormed(k) && RunEnabled(k, WORKER_WOKEN[3..])
            && Run(k, WORKER_WOKEN[3..]) == WithWorker(Ready, [1], 1, [], PASSIVE_LEVEL, true)
  {
    hide WithWorker, Apply, Enabled, Run, RunEnabled, WellFormed;
    var k3 := WithWorker(Blocked, [], 1, [1], PASSIVE_LEVEL, true);
    var k4 := WithWorker(Blocked, [], 1, [1], DISPATCH_LEVEL, true);
    var k5 := WithWorker(Ready, [1], 1, [], DISPATCH_LEVEL, true);
    var k6 := WithWorker(Ready, [1], 1, [], PASSIVE_LEVEL, true);
    RunSplits();
    WorkerWaits();
    WorkerWoken();
    WorkerIrql(Blocked, [], [1]);
    WorkerIrql(Ready, [1], []);
    RunNone(k6);
    RunStep(k5, SetIrqlOp(PASSIVE_LEVEL), k6, []);
    RunStep(k4, SignalOp(0), k5, [SetIrqlOp(PASSIVE_LEVEL)] + []);
    RunStep(k3, SetIrqlOp(DISPATCH_LEVEL), k4, [SignalOp(0)] + ([SetIrqlOp(PASSIVE_LEVEL)] + []));
  }

  lemma WorkerRun()
    ensures RunEnabled(Booted(0, 1), WORKER_WOKEN)
    ensures Run(Booted(0, 1), WORKER_WOKEN) == WithWorker(Ready, [1], 1, [], PASSIVE_LEVEL, true)
  {
    var k1 := WithWorker(Ready, [1], NONE, [], PASSIVE_LEVEL, false);
    var k2 := WithWorker(Running, [], 1, [], PASSIVE_LEVEL, false);
    var k3 := WithWorker(Blocked, [], 1, [1], PASSIVE_LEVEL, true);
    RunSplits();
    BootedKeeps(0, 1);
    WorkerCreated();
    WorkerRuns();
    WorkerWaits();
    WorkerRunEnds();
    hide WithWorker, Apply, Enabled, Run, RunEnabled, WellFormed, KernelInvariant;
    var ends := WORKER_WOKEN[3..];
    RunStep(k2, WaitOp(0), k3, ends);
    RunStep(k1, ScheduleOp, k2, [WaitOp(0)] + ends);
    RunStep(Booted(0, 1), CreateOp(5), k1, [ScheduleOp] + ([WaitOp(0)] + ends));
  }

  /** Every call of this run is allowed, and then Schedule returns early with the worker out of every queue:
      READY, and never picked again. */
  lemma WorkerLost()
    ensures RunEnabled(Booted(0, 1), WORKER_WOKEN)
    ensures var k := Run(Booted(0, 1), WORKER_WOKEN);
            && KernelInvariant(k) && DropsCurrent(k) && k.threads[1].state == Ready
            && Schedule(k) == WithWorker(Ready, [], 1, [], PASSIVE_LEVEL, true) && Unqueued(Schedule(k), 1)
            && !DispatchInvariant(Schedule(k))
  {
    var k := WithWorker(Ready, [1], 1, [], PASSIVE_LEVEL, true);
    WorkerRun();
    BootedKeeps(0, 1);
    RunKeeps(Booted(0, 1), WORKER_WOKEN);
    WorkerFront(1, PASSIVE_LEVEL, true);
    hide RunEnabled, Run, KernelInvariant, PickNext;
    assert Schedule(k) == WithWorker(Ready, [], 1, [], PASSIVE_LEVEL, true);
    assert !ReadyQueued(Schedule(k)) by {
      assert 1 !in Schedule(k).queues[5];
    }
  }
}
