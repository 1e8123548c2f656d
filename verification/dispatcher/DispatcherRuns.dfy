/** Whole runs of the dispatcher of BLUE_KERNEL/BlueKernel_lvl3.c: arbitrary sequences of its operations, each
    inside the domain on which it keeps the kernel invariant. */
module DispatcherRuns {
  import opened ReadyQueues
  import opened Kernels
  import opened QueueInvariant
  import opened Scheduling
  import opened Inheritance

  datatype Operation =
    | ScheduleOp | TimerOp | CreateOp(priority: nat) | AcquireOp(m: int) | ReleaseOp(m: int)
    | TerminateOp(t: int) | WaitOp(e: int) | SignalOp(e: int) | SetIrqlOp(level: nat) | ClearRescheduleOp

  predicate CurrentRuns(k: Kernel)
    requires WellFormed(k)
  {
    k.current != NONE && k.threads[k.current].state == Running
  }

  /** The idle thread owns a mutex, is current, and is the first in line. */
  ghost predicate DropsIdleOwner(k: Kernel)
    requires WellFormed(k)
  {
    && k.irql < DISPATCH_LEVEL && k.current == k.idle && IsFront(k, k.idle)
    && exists m | IsMutex(k, m) :: k.mutexes[m].owner == k.idle
  }

  /** Nobody is left to run but the idle thread, which waits for a mutex or an event. */
  ghost predicate RunsWaitingIdle(k: Kernel)
    requires WellFormed(k)
  {
    k.irql < DISPATCH_LEVEL && k.current != k.idle && NothingLive(k) && !InNoWaitQueue(k, k.idle)
  }

  ghost predicate SchedulesCleanly(k: Kernel)
    requires WellFormed(k)
  {
    !DropsCurrent(k) && !DropsIdleOwner(k) && !RunsWaitingIdle(k)
  }

  /** The source's own bugchecks, and the domains established operation by operation. */
  ghost predicate Enabled(k: Kernel, op: Operation)
    requires WellFormed(k)
  {
    match op
    case ScheduleOp => SchedulesCleanly(k)
    case TimerOp => true
    case CreateOp(priority) => |k.threads| < MAX_THREADS && priority <= TOP_PRIORITY
    case AcquireOp(m) => IsMutex(k, m) && k.irql == PASSIVE_LEVEL && CurrentRuns(k)
    case ReleaseOp(m) =>
      IsMutex(k, m) && CurrentRuns(k) && k.mutexes[m].owner == k.current && ReleaseSafe(k, m)
    case TerminateOp(t) =>
      && IsThread(k, t) && InNoWaitQueue(k, t)
      && (k.threads[t].owned != NONE ==>
            t == k.current && CurrentRuns(k) && k.mutexes[k.threads[t].owned].owner == t
            && ReleaseSafe(k, k.threads[t].owned))
    case WaitOp(e) => IsEvent(k, e) && k.irql == PASSIVE_LEVEL && CurrentRuns(k)
    case SignalOp(e) =>
      IsEvent(k, e) && k.irql <= DISPATCH_LEVEL && (k.events[e].waiters != [] ==> k.irql == DISPATCH_LEVEL)
    case SetIrqlOp(level) => true
    case ClearRescheduleOp => true
  }

  function Apply(k: Kernel, op: Operation): (k': Kernel)
    requires WellFormed(k) && Enabled(k, op)
    ensures WellFormed(k')
  {
    match op
    case ScheduleOp => Schedule(k)
    case TimerOp => TimerDpc(k)
    case CreateOp(priority) => Created(k, priority)
    case AcquireOp(m) => Acquired(k, m)
    case ReleaseOp(m) => Released(k, m)
    case TerminateOp(t) => TerminatedThread(k, t)
    case WaitOp(e) => Waited(k, e)
    case SignalOp(e) => Signaled(k, e)
    case SetIrqlOp(level) => k.(irql := level)
    case ClearRescheduleOp => k.(reschedule := false)
  }

  // ----- Schedule, timer, creation -----

  /** Only thread x's state changed, from one that is not BLOCKED to one that is not READY. */
  lemma StateChangeKeepsWaiters(k: Kernel, k': Kernel, x: int)
    requires WellFormed(k) && WellFormed(k') && WaitersOk(k, NONE) && MutexesOk(k) && IsThread(k, x)
    requires InNoWaitQueue(k, x)
    requires k'.mutexes == k.mutexes && k'.events == k.events && |k'.threads| == |k.threads|
    requires forall t | IsThread(k, t) :: k'.threads[t].waiting == k.threads[t].waiting
               && k'.threads[t].owned == k.threads[t].owned && k'.threads[t].priority == k.threads[t].priority
    requires forall t | IsThread(k, t) && t != x :: k'.threads[t].state == k.threads[t].state
    ensures WaitersOk(k', NONE) && MutexesOk(k')
    ensures NoInversion(k) ==> NoInversion(k')
  {
    hide NoDuplicates;
  }

  lemma RunnableWaitsNowhere(k: Kernel, x: int)
    requires WellFormed(k) && WaitersOk(k, NONE) && IsThread(k, x) && k.threads[x].state != Blocked
    ensures InNoWaitQueue(k, x) && k.threads[x].waiting == NONE
  {
  }

  /** Schedule keeps the whole invariant exactly when it neither drops the current thread nor runs a waiting
      one. */
  lemma ScheduleKeepsAllIff(k: Kernel)
    requires KernelInvariant(k)
    ensures KernelInvariant(Schedule(k)) <==> SchedulesCleanly(k)
  {
    ScheduleKeepsIff(k);
    if !DropsCurrent(k) && k.irql < DISPATCH_LEVEL {
      if PickNext(k).1 == k.current {
        KeptAsIs(k);
      } else {
        hide PickNext, IsFront, NothingLive, DispatchInvariant;
        if RunsWaitingIdle(k) {
          IdleRuns(k);
        } else {
          SwitchKeepsMutexes(k, PickNext(k).1);
          IdleStaysQueued(k);
          hide WaitersOk, MutexesOk, NoInversion;
          SwitchedOwners(k);
          NotFront(k);
        }
      }
    }
  }

  lemma NotFront(k: Kernel)
    requires KernelInvariant(k) && PickNext(k).1 != k.current
    ensures !IsFront(k, k.current)
  {
    PickedIff(k, k.current);
  }

  /** The early return with the idle thread. */
  lemma KeptAsIs(k: Kernel)
    requires KernelInvariant(k) && !DropsCurrent(k) && k.irql < DISPATCH_LEVEL && PickNext(k).1 == k.current
    requires DispatchInvariant(Schedule(k))
    ensures KernelInvariant(Schedule(k)) <==> !DropsIdleOwner(k)
    ensures !RunsWaitingIdle(k)
  {
    PickKeepsOthers(k);
    PickedIff(k, k.current);
    PickKeepsMutexes(k);
    hide PickNext, QueuesOk, WaitersOk, MutexesOk, NoInversion;
    if IsFront(k, k.idle) {
      FrontIsReady(k, k.idle);
    } else {
      NothingLiveNothingReady(k);
    }
    hide IsFront, NothingLive;
  }

  lemma NothingLiveNothingReady(k: Kernel)
    requires DispatchInvariant(k) && ReadyOwnersQueued(k) && NothingLive(k)
    ensures forall m | IsMutex(k, m) && k.mutexes[m].owner != NONE :: k.threads[k.mutexes[m].owner].state != Ready
  {
    hide NoDuplicates;
    forall m | IsMutex(k, m) && k.mutexes[m].owner != NONE
      ensures k.threads[k.mutexes[m].owner].state != Ready
    {
      var t := k.mutexes[m].owner;
      assert AllTerminated(k, k.queues[k.threads[t].priority]);
    }
  }

  lemma IdleRuns(k: Kernel)
    requires KernelInvariant(k) && RunsWaitingIdle(k) && PickNext(k).1 != k.current
    ensures !WaitersOk(Schedule(k), NONE)
  {
    PickedIff(k, k.idle);
    PickWellFormed(k);
    hide PickNext, IsFront, NothingLive, DispatchInvariant;
    var k' := Schedule(k);
    assert k'.threads[k.idle].state == Running && k'.mutexes == k.mutexes && k'.events == k.events;
    if m :| IsMutex(k, m) && k.idle in k.mutexes[m].waiters {
      assert k.idle in k'.mutexes[m].waiters;
    } else {
      var e :| IsEvent(k, e) && k.idle in k.events[e].waiters;
      assert k.idle in k'.events[e].waiters;
    }
  }

  lemma SwitchedOwners(k: Kernel)
    requires KernelInvariant(k) && k.irql < DISPATCH_LEVEL && PickNext(k).1 != k.current
    requires WellFormed(Schedule(k)) && ReadyQueued(Schedule(k))
    requires var k' := Schedule(k);
             k'.threads[k'.idle].state == Ready && (k.threads[k.idle].state == Ready ==>
               k.idle in k.queues[k.threads[k.idle].priority]) ==>
               k'.idle in k'.queues[k'.threads[k'.idle].priority]
    ensures ReadyOwnersQueued(Schedule(k))
  {
    hide PickNext, QueuesOk, WaitersOk, MutexesOk, NoInversion;
    OwnersQueued(k, Schedule(k));
  }

  lemma PickKeepsMutexes(k: Kernel)
    requires KernelInvariant(k)
    ensures var (k1, next) := PickNext(k);
            WellFormed(k1) && WaitersOk(k1, NONE) && MutexesOk(k1) && NoInversion(k1)
  {
    hide NoDuplicates;
    PickWellFormed(k);
  }

  /** With every READY thread but idle queued, only an idle thread that owns a mutex needs looking at. */
  lemma OwnersQueued(k: Kernel, k': Kernel)
    requires WellFormed(k) && ReadyOwnersQueued(k) && WellFormed(k') && ReadyQueued(k')
    requires k'.mutexes == k.mutexes && k'.idle == k.idle && |k'.threads| == |k.threads|
    requires k'.threads[k'.idle].state == Ready && (k.threads[k.idle].state == Ready ==>
               k.idle in k.queues[k.threads[k.idle].priority]) ==>
               k'.idle in k'.queues[k'.threads[k'.idle].priority]
    ensures ReadyOwnersQueued(k')
  {
  }

  lemma IdleStaysQueued(k: Kernel)
    requires KernelInvariant(k) && k.irql < DISPATCH_LEVEL && PickNext(k).1 != k.current
    ensures var k' := Schedule(k);
            k'.threads[k'.idle].state == Ready && (k.threads[k.idle].state == Ready ==>
               k.idle in k.queues[k.threads[k.idle].priority]) ==>
               k'.idle in k'.queues[k'.threads[k'.idle].priority]
  {
    hide QueuesOk, WaitersOk, MutexesOk, NoInversion, ReadyOwnersQueued;
    PickKeepsOthers(k);
  }

  lemma SwitchKeepsMutexes(k: Kernel, next: int)
    requires KernelInvariant(k) && !RunsWaitingIdle(k) && k.irql < DISPATCH_LEVEL
    requires next == PickNext(k).1 && next != k.current
    ensures var k' := Schedule(k);
            WaitersOk(k', NONE) && MutexesOk(k') && NoInversion(k')
  {
    hide NoDuplicates, QueuesOk, ReadyQueued, ReadyOwnersQueued;
    var k1 := PickNext(k).0;
    PickKeepsMutexes(k);
    PickedIff(k, next);
    assert InNoWaitQueue(k, next) by {
      if IsFront(k, next) { FrontIsReady(k, next); RunnableWaitsNowhere(k, next); }
    }
    SwitchedKeepsMutexes(k1, next);
  }

  lemma SwitchedKeepsMutexes(k1: Kernel, next: int)
    requires WellFormed(k1) && WaitersOk(k1, NONE) && MutexesOk(k1) && NoInversion(k1)
    requires IsThread(k1, next) && InNoWaitQueue(k1, next) && next != k1.current
    ensures var k' := SwitchedTo(k1, next);
            WaitersOk(k', NONE) && MutexesOk(k') && NoInversion(k')
  {
    hide WaitersOk, MutexesOk, NoInversion, InNoWaitQueue, MadeReady;
    var c := k1.current;
    if c != NONE && k1.threads[c].state == Running {
      StepsDownKeepsMutexes(k1, c, next);
      RunningKeepsMutexes(MadeReady(k1, c), next);
    } else {
      RunningKeepsMutexes(k1, next);
    }
  }

  lemma StepsDownKeepsMutexes(k: Kernel, c: int, next: int)
    requires WellFormed(k) && WaitersOk(k, NONE) && MutexesOk(k) && NoInversion(k)
    requires IsThread(k, c) && k.threads[c].state == Running && IsThread(k, next) && InNoWaitQueue(k, next)
    ensures var k' := MadeReady(k, c);
            && WellFormed(k') && WaitersOk(k', NONE) && MutexesOk(k') && NoInversion(k')
            && IsThread(k', next) && InNoWaitQueue(k', next)
  {
    MadeReadyWellFormed(k, c);
    RunnableWaitsNowhere(k, c);
    hide WaitersOk, MutexesOk, NoInversion;
    StateChangeKeepsWaiters(k, MadeReady(k, c), c);
  }

  lemma RunningKeepsMutexes(k: Kernel, next: int)
    requires WellFormed(k) && WaitersOk(k, NONE) && MutexesOk(k) && NoInversion(k)
    requires IsThread(k, next) && InNoWaitQueue(k, next)
    ensures var k' := WithState(k, next, Running).(current := next);
            WellFormed(k') && WaitersOk(k', NONE) && MutexesOk(k') && NoInversion(k')
  {
    ThreadWellFormed(k, next, k.threads[next].(state := Running));
    hide WaitersOk, MutexesOk, NoInversion;
    StateChangeKeepsWaiters(k, WithState(k, next, Running).(current := next), next);
  }

  lemma TimerKeepsAll(k: Kernel)
    requires KernelInvariant(k)
    ensures KernelInvariant(TimerDpc(k))
  {
    TimerKeeps(k);
    hide DispatchInvariant, NoDuplicates;
    var t := k.current;
    if t != NONE && t != k.idle && k.threads[t].state == Running {
      RunnableWaitsNowhere(k, t);
      StateChangeKeepsWaiters(k, TimerDpc(k), t);
      TimerOwners(k);
    }
    hide WaitersOk, MutexesOk, NoInversion, ReadyOwnersQueued, TimerDpc;
  }

  lemma TimerOwners(k: Kernel)
    requires KernelInvariant(k) && DispatchInvariant(TimerDpc(k))
    ensures ReadyOwnersQueued(TimerDpc(k))
  {
    hide WaitersOk, MutexesOk, NoInversion, QueuesOk, RunningIsCurrent;
  }

  lemma CreateKeepsAll(k: Kernel, priority: nat)
    requires KernelInvariant(k) && |k.threads| < MAX_THREADS && priority <= TOP_PRIORITY
    ensures KernelInvariant(Created(k, priority))
  {
    CreateKeeps(k, priority);
    CreateKeepsMutexes(k, priority);
    CreateKeepsOwners(k, priority);
    hide WaitersOk, MutexesOk, ReadyOwnersQueued, NoInversion, DispatchInvariant, Created;
  }

  lemma CreateKeepsMutexes(k: Kernel, priority: nat)
    requires WellFormed(k) && WaitersOk(k, NONE) && MutexesOk(k) && NoInversion(k)
    requires |k.threads| < MAX_THREADS && priority <= TOP_PRIORITY
    ensures var k' := Created(k, priority); WaitersOk(k', NONE) && MutexesOk(k') && NoInversion(k')
  {
    hide NoDuplicates;
    var k' := Created(k, priority);
    assert forall t | IsThread(k, t) :: k'.threads[t] == k.threads[t];
  }

  lemma CreateKeepsOwners(k: Kernel, priority: nat)
    requires WellFormed(k) && ReadyOwnersQueued(k) && |k.threads| < MAX_THREADS && priority <= TOP_PRIORITY
    ensures ReadyOwnersQueued(Created(k, priority))
  {
    var k' := Created(k, priority);
    assert forall t | IsThread(k, t) :: k'.threads[t] == k.threads[t];
  }

  // ----- Termination and events -----

  lemma ReleasedWaitsNowhere(k: Kernel, m: int)
    requires WellFormed(k) && WaitersOk(k, NONE) && IsMutex(k, m) && CurrentRuns(k) && k.mutexes[m].owner == k.current
    ensures InNoWaitQueue(Released(k, m), k.current)
  {
    hide WaitersOk;
    RunnableWaitsNowhere(k, k.current);
    ReleaseEffect(k, m);
    if k.mutexes[m].waiters != [] {
      HandOffOrder(Unboosted(k), m);
      assert Released(k, m) == HandedOff(Unboosted(k), m);
    }
    hide Released, HandedOff;
  }

  lemma TerminateKeeps(k: Kernel, t: int)
    requires KernelInvariant(k) && Enabled(k, TerminateOp(t))
    ensures KernelInvariant(TerminatedThread(k, t))
  {
    var m := k.threads[t].owned;
    var k1 := if m != NONE then Released(k, m) else k;
    if m != NONE {
      ReleaseKeepsIff(k, m);
      ReleasedWaitsNowhere(k, m);
      ReleaseEffect(k, m);
    }
    hide KernelInvariant, InNoWaitQueue;
    MarkTerminatedIff(k1, t);
    IgnoresReschedule(WithThread(k1, t, k1.threads[t].(owned := NONE, state := Terminated)), TerminatedThread(k, t));
  }

  lemma IgnoresReschedule(k: Kernel, k': Kernel)
    requires k' == k.(reschedule := k'.reschedule) && KernelInvariant(k)
    ensures KernelInvariant(k')
  {
    RescheduleIrrelevant(k, k');
  }

  lemma WaitKeeps(k: Kernel, e: int)
    requires KernelInvariant(k) && IsEvent(k, e) && CurrentRuns(k)
    ensures KernelInvariant(Waited(k, e))
  {
    if k.events[e].signaled {
      FlagKeeps(k, e, false);
    } else {
      RunnableWaitsNowhere(k, k.current);
      assert NoDuplicates(k.events[e].waiters);
      hide NoDuplicates;
      AppendDistinct(k.events[e].waiters, k.current);
      WaitingDispatch(k, e);
      WaitingWaiters(k, e);
      hide DispatchInvariant, WaitersOk, ReadyOwnersQueued;
    }
  }

  /** Setting or consuming the signal of an event. */
  lemma FlagKeeps(k: Kernel, e: int, flag: bool)
    requires KernelInvariant(k) && IsEvent(k, e)
    ensures KernelInvariant(k.(events := k.events[e := k.events[e].(signaled := flag)]))
  {
    hide NoDuplicates, QueuesOk, ReadyQueued;
    var k' := k.(events := k.events[e := k.events[e].(signaled := flag)]);
    assert AreThreads(k, k.events[e].waiters);
    EventWellFormed(k, e, k.events[e].(signaled := flag));
    DispatchSame(k, k');
    assert WaitersOk(k', NONE);
  }

  lemma WaitingDispatch(k: Kernel, e: int)
    requires DispatchInvariant(k) && ReadyOwnersQueued(k) && IsEvent(k, e) && CurrentRuns(k)
    requires !k.events[e].signaled
    ensures DispatchInvariant(Waited(k, e)) && ReadyOwnersQueued(Waited(k, e))
  {
    hide NoDuplicates;
    NotReadyUnqueued(k, k.current);
    assert QueuesOk(Waited(k, e));
  }

  lemma WaitingWaiters(k: Kernel, e: int)
    requires WellFormed(k) && WaitersOk(k, NONE) && IsEvent(k, e) && CurrentRuns(k)
    requires !k.events[e].signaled && NoDuplicates(k.events[e].waiters + [k.current])
    requires InNoWaitQueue(k, k.current) && k.threads[k.current].waiting == NONE
    ensures WaitersOk(Waited(k, e), NONE)
  {
    hide NoDuplicates;
  }

  /** The woken thread is off the event's wait queue but not yet READY. */
  function Unwaited(k: Kernel, e: int): (k': Kernel)
    requires WellFormed(k) && IsEvent(k, e) && k.events[e].waiters != []
    ensures WellFormed(k')
  {
    var q := k.events[e].waiters;
    assert AreThreads(k, q);
    var i := BestWaiter(k.threads, q);
    EventWellFormed(k, e, Event(false, Dropped(q, i)));
    k.(events := k.events[e := Event(false, Dropped(q, i))])
  }

  lemma UnwaitedReady(k: Kernel, e: int, x: int)
    requires KernelInvariant(k) && IsEvent(k, e) && k.events[e].waiters != []
    requires AreThreads(k, k.events[e].waiters)
    requires x == k.events[e].waiters[BestWaiter(k.threads, k.events[e].waiters)]
    ensures ReadyToWake(Unwaited(k, e), x) && NoInversion(Unwaited(k, e))
  {
    assert x in k.events[e].waiters;
    UnwaitedDispatch(k, e);
    UnwaitedWaiters(k, e, x);
    hide DispatchInvariant, NoInversion, ReadyOwnersQueued;
  }

  lemma UnwaitedDispatch(k: Kernel, e: int)
    requires KernelInvariant(k) && IsEvent(k, e) && k.events[e].waiters != []
    ensures var k' := Unwaited(k, e);
            DispatchInvariant(k') && ReadyOwnersQueued(k') && MutexesOk(k') && NoInversion(k')
  {
    hide NoDuplicates, QueuesOk, ReadyQueued, WaitersOk;
    DispatchSame(k, Unwaited(k, e));
  }

  lemma UnwaitedWaiters(k: Kernel, e: int, x: int)
    requires WellFormed(k) && WaitersOk(k, NONE) && IsEvent(k, e) && k.events[e].waiters != []
    requires AreThreads(k, k.events[e].waiters)
    requires x == k.events[e].waiters[BestWaiter(k.threads, k.events[e].waiters)]
    ensures WaitersOk(Unwaited(k, e), NONE) && InNoWaitQueue(Unwaited(k, e), x)
  {
    hide NoDuplicates;
    var q := k.events[e].waiters;
    assert x in q && NoDuplicates(q);
    DroppedDistinct(q, BestWaiter(k.threads, q));
    assert WaitersOk(Unwaited(k, e), NONE);
  }

  lemma WakingKeepsOrder(k: Kernel, x: int)
    requires WellFormed(k) && IsThread(k, x) && NoInversion(k)
    ensures WellFormed(MadeReady(k, x)) && NoInversion(MadeReady(k, x))
  {
    MadeReadyWellFormed(k, x);
  }

  lemma SignalKeeps(k: Kernel, e: int)
    requires KernelInvariant(k) && IsEvent(k, e)
    ensures KernelInvariant(Signaled(k, e))
  {
    var q := k.events[e].waiters;
    assert AreThreads(k, q);
    if q == [] {
      FlagKeeps(k, e, true);
    } else {
      WakeOneKeeps(k, e);
    }
  }

  lemma WakeOneKeeps(k: Kernel, e: int)
    requires KernelInvariant(k) && IsEvent(k, e) && k.events[e].waiters != []
    ensures KernelInvariant(Signaled(k, e))
  {
    var q := k.events[e].waiters;
    assert AreThreads(k, q);
    var x := q[BestWaiter(k.threads, q)];
    UnwaitedReady(k, e, x);
    hide DispatchInvariant, WaitersOk, MutexesOk, ReadyOwnersQueued, NoInversion;
    WakeKeeps(Unwaited(k, e), x);
    WakingKeepsOrder(Unwaited(k, e), x);
    assert KernelInvariant(MadeReady(Unwaited(k, e), x));
    hide KernelInvariant;
    IgnoresReschedule(MadeReady(Unwaited(k, e), x), Signaled(k, e));
  }

  // ----- Runs -----

  lemma ControlKeeps(k: Kernel, level: nat, flag: bool)
    requires KernelInvariant(k)
    ensures KernelInvariant(k.(irql := level)) && KernelInvariant(k.(reschedule := flag))
  {
    hide NoDuplicates;
    DispatchSame(k, k.(irql := level));
    IgnoresReschedule(k, k.(reschedule := flag));
  }

  lemma ApplyKeeps(k: Kernel, op: Operation)
    requires KernelInvariant(k) && Enabled(k, op)
    ensures KernelInvariant(Apply(k, op))
  {
    match op
    case ScheduleOp => ScheduleKeepsAllIff(k);
    case TimerOp => TimerKeepsAll(k);
    case CreateOp(priority) => CreateKeepsAll(k, priority);
    case AcquireOp(m) => AcquireKeeps(k, m);
    case ReleaseOp(m) => ReleaseKeepsIff(k, m);
    case TerminateOp(t) => TerminateKeeps(k, t);
    case WaitOp(e) => WaitKeeps(k, e);
    case SignalOp(e) => SignalKeeps(k, e);
    case SetIrqlOp(level) => ControlKeeps(k, level, false);
    case ClearRescheduleOp => ControlKeeps(k, 0, false);
  }

  ghost predicate RunEnabled(k: Kernel, ops: seq<Operation>)
    requires WellFormed(k)
    decreases ops
  {
    ops != [] ==> Enabled(k, ops[0]) && RunEnabled(Apply(k, ops[0]), ops[1..])
  }

  ghost function Run(k: Kernel, ops: seq<Operation>): (k': Kernel)
    requires WellFormed(k) && RunEnabled(k, ops)
    ensures WellFormed(k')
    decreases ops
  {
    if ops == [] then k else Run(Apply(k, ops[0]), ops[1..])
  }

  /** Over every run: queues agree with thread states, one thread at most runs, and no waiter outranks the
      owner it waits for. */
  lemma {:induction false} RunKeeps(k: Kernel, ops: seq<Operation>)
    requires KernelInvariant(k) && RunEnabled(k, ops)
    ensures KernelInvariant(Run(k, ops))
    decreases ops
  {
    if ops != [] {
      ApplyKeeps(k, ops[0]);
      RunKeeps(Apply(k, ops[0]), ops[1..]);
    }
  }

  /** The kernel as InitDispatcher and the creation of the idle thread leave it. */
  function Booted(mutexes: nat, events: nat): Kernel {
    Kernel([Thread(1, 1, QUANTUM, Ready, NONE, NONE)], seq(MAX_PRIORITY, p => []), NONE, 0,
           seq(mutexes, m => Mutex(false, NONE, [])), seq(events, e => Event(false, [])), PASSIVE_LEVEL, false)
  }

  lemma BootedKeeps(mutexes: nat, events: nat)
    ensures KernelInvariant(Booted(mutexes, events))
  {
    var k := Booted(mutexes, events);
    assert forall p | 0 <= p < MAX_PRIORITY :: k.queues[p] == [];
  }
}
