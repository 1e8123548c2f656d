/** The functions of BLUE_KERNEL/BlueKernel_lvl3.c that work on the global dispatcher state in place, each
    proved against the operation of Kernels that it carries out. Every bugcheck of the source is either a
    precondition about the caller or shown unreachable by the invariants. */
module Dispatchers {
  import opened ReadyQueues
  import opened ReadyTables
  import opened Kernels
  import opened QueueInvariant
  import opened Scheduling
  import opened Inheritance
  import opened DispatcherRuns

  class Dispatcher {
    const ready: ReadyTable
    var threads: seq<Thread>
    var mutexes: seq<Mutex>
    var events: seq<Event>
    var current: int
    var idle: int
    var irql: nat
    var reschedule: bool

    ghost predicate Valid()
      reads this, ready, ready.Repr, ready.table
      ensures Valid() ==> ready.Shape() && WellFormed(State())
    {
      this !in ready.Repr && ready.Valid() && WellFormed(State())
    }

    ghost function State(): (k: Kernel)
      requires ready.Shape()
      reads this, ready, ready.Repr
    {
      Kernel(threads, ready.Contents(), current, idle, mutexes, events, irql, reschedule)
    }

    constructor (ready: ReadyTable, k: Kernel)
      requires ready.Valid() && WellFormed(k) && k.queues == ready.Contents()
      ensures Valid() && this.ready == ready && State() == k
    {
      this.ready := ready;
      threads, mutexes, events, current, idle, irql, reschedule :=
        k.threads, k.mutexes, k.events, k.current, k.idle, k.irql, k.reschedule;
    }

    method ReadyThread(t: int)
      requires Valid() && IsThread(State(), t)
      requires |State().queues[threads[t].priority]| < MAX_THREADS
      modifies ready, ready.Repr
      ensures Valid() && State() == Enqueued(old(State()), t)
    {
      EnqueuedWellFormed(State(), t);
      ready.Enqueue(t, threads[t].priority);
    }

    /** Set the state to READY and queue the thread: what every waker in the source does. */
    method MakeReady(t: int)
      requires Valid() && IsThread(State(), t)
      requires |State().queues[threads[t].priority]| < MAX_THREADS
      modifies this, ready, ready.Repr
      ensures Valid() && State() == MadeReady(old(State()), t)
    {
      ThreadWellFormed(State(), t, threads[t].(state := Ready));
      threads := threads[t := threads[t].(state := Ready)];
      ReadyThread(t);
    }

    method ReinsertReadyThread(t: int, oldPriority: nat)
      requires Valid() && IsThread(State(), t) && oldPriority < MAX_PRIORITY && threads[t].state == Ready
      requires t in State().queues[oldPriority] && threads[t].priority != oldPriority
      requires |State().queues[threads[t].priority]| < MAX_THREADS
      modifies ready, ready.Repr
      ensures Valid() && State() == Reinserted(old(State()), t, oldPriority)
    {
      ghost var k := State();
      assert AreThreads(k, k.queues[oldPriority]);
      RemovedThreads(k, k.queues[oldPriority], t);
      QueueWellFormed(k, oldPriority, Removed(k.queues[oldPriority], t));
      var found := ready.Remove(t, oldPriority);
      assert found;
      ReadyThread(t);
    }

    method PickNextThread() returns (next: int)
      requires Valid()
      modifies ready, ready.Repr
      ensures Valid() && (State(), next) == PickNext(old(State()))
    {
      hide PickNext, WellFormed, ReadyTable.Valid;
      while ready.bitmap != 0
        invariant Valid() && State() == old(State()).(queues := State().queues)
        invariant PickNext(State()) == PickNext(old(State()))
        decreases Queued(ready.Contents())
      {
        ghost var k := State();
        var p := ready.FindHighest();
        OneTurn(k, p);
        var t := ready.Dequeue(p);
        if t != NO_THREAD && threads[t].state != Terminated {
          return t;
        }
      }
      var p := ready.FindHighest();
      NothingToPick(State());
      next := idle;
    }

    lemma OneTurn(k: Kernel, p: int)
      requires WellFormed(k) && p == HighestQueued(k.queues, MAX_PRIORITY - 1) && p != NONE
      ensures var k1 := WithQueue(k, p, k.queues[p][1..]);
              var t := k.queues[p][0];
              && WellFormed(k1) && Queued(k1.queues) < Queued(k.queues) && IsThread(k, t)
              && PickNext(k) == if k.threads[t].state != Terminated then (k1, t) else PickNext(k1)
    {
      PopWellFormed(k, p);
      PopCounts(k.queues, p);
      assert AreThreads(k, k.queues[p]);
    }

    lemma NothingToPick(k: Kernel)
      requires WellFormed(k) && HighestQueued(k.queues, MAX_PRIORITY - 1) == NONE
      ensures PickNext(k) == (k, k.idle) && IsThread(k, k.idle)
    {
    }

    method Schedule()
      requires Valid() && DispatchInvariant(State())
      modifies this, ready, ready.Repr
      ensures Valid() && State() == Kernels.Schedule(old(State()))
    {
      if irql >= DISPATCH_LEVEL {
        return;
      }
      PickKeepsOthers(State());
      var next := PickNextThread();
      if current == next {
        return;
      }
      Switch(next);
    }

    method Switch(next: int)
      requires Valid() && QueuesOk(State()) && IsThread(State(), next) && next != current
      modifies this, ready, ready.Repr
      ensures Valid() && State() == SwitchedTo(old(State()), next)
    {
      ghost var k := State();
      CurrentFits(k);
      assert SwitchedTo(k, next) == NowRunning(SteppedDown(k), next);
      hide WellFormed, ReadyTable.Valid, QueuesOk, SwitchedTo, MadeReady;
      if current != NONE && threads[current].state == Running {
        MakeReady(current);
      }
      StillThread(State(), next);
      threads := threads[next := threads[next].(state := Running)];
      current := next;
    }

    /** The two halves of a switch. */
    ghost function SteppedDown(k: Kernel): (k': Kernel)
      requires WellFormed(k)
    {
      if k.current != NONE && k.threads[k.current].state == Running then MadeReady(k, k.current) else k
    }

    ghost function NowRunning(k: Kernel, next: int): Kernel
      requires IsThread(k, next)
    {
      WithState(k, next, Running).(current := next)
    }

    lemma StillThread(k: Kernel, t: int)
      requires WellFormed(k) && IsThread(k, t)
      ensures WellFormed(NowRunning(k, t))
    {
      ThreadWellFormed(k, t, k.threads[t].(state := Running));
    }

    lemma CurrentFits(k: Kernel)
      requires WellFormed(k) && QueuesOk(k)
      ensures k.current != NONE ==> IsThread(k, k.current)
      ensures k.current != NONE && k.threads[k.current].state == Running ==>
                |k.queues[k.threads[k.current].priority]| < MAX_THREADS
    {
      if k.current != NONE && k.threads[k.current].state == Running {
        NotReadyUnqueued(k, k.current);
        var q := k.queues[k.threads[k.current].priority];
        assert AreThreads(k, q) && NoDuplicates(q);
        RoomFor(k, q, k.current);
      }
    }

    method CheckPreemption(t: int)
      requires Valid() && IsThread(State(), t)
      modifies `reschedule
      ensures Valid() && State() == PreemptionChecked(old(State()), t)
    {
      if current == NONE {
        return;
      }
      if threads[t].priority > threads[current].priority {
        reschedule := true;
      }
    }

    method TimerDpc()
      requires Valid() && DispatchInvariant(State())
      modifies this, ready, ready.Repr
      ensures Valid() && State() == Kernels.TimerDpc(old(State()))
    {
      hide ReadyTable.Valid, WellFormed, DispatchInvariant, MadeReady, Kernels.TimerDpc;
      ghost var k := State();
      TimerFits(k);
      TimerParts(k);
      if current == NONE || current == idle || threads[current].state != Running {
        return;
      }
      var t := current;
      var quantum := threads[t].quantum - 1;
      QuantumIrrelevant(k, t, quantum);
      QuantumIrrelevant(k, t, QUANTUM);
      if quantum > 0 {
        threads := threads[t := threads[t].(quantum := quantum)];
      } else {
        threads := threads[t := threads[t].(quantum := QUANTUM)];
        MakeReady(t);
        LosesProcessor(State());
        current := NONE;
        reschedule := true;
      }
    }

    lemma TimerFits(k: Kernel)
      requires DispatchInvariant(k)
      ensures k.current != NONE ==> IsThread(k, k.current)
      ensures k.current != NONE && k.threads[k.current].state == Running ==>
                |k.queues[k.threads[k.current].priority]| < MAX_THREADS
    {
      CurrentFits(k);
    }

    lemma TimerParts(k: Kernel)
      requires WellFormed(k)
      ensures Kernels.TimerDpc(k) ==
              if k.current == NONE || k.current == k.idle || k.threads[k.current].state != Running then k
              else
                var th := k.threads[k.current];
                if th.quantum - 1 > 0 then WithThread(k, k.current, th.(quantum := th.quantum - 1))
                else MadeReady(WithThread(k, k.current, th.(quantum := QUANTUM)), k.current)
                     .(current := NONE, reschedule := true)
    {
    }

    lemma QuantumIrrelevant(k: Kernel, t: int, quantum: int)
      requires WellFormed(k) && IsThread(k, t)
      ensures WellFormed(WithThread(k, t, k.threads[t].(quantum := quantum)))
    {
      ThreadWellFormed(k, t, k.threads[t].(quantum := quantum));
    }

    lemma LosesProcessor(k: Kernel)
      requires WellFormed(k)
      ensures WellFormed(k.(current := NONE, reschedule := true))
    {
    }

    method CreateThread(priority: nat)
      requires Valid() && DispatchInvariant(State()) && |threads| < MAX_THREADS && priority <= TOP_PRIORITY
      modifies this, ready, ready.Repr
      ensures Valid() && State() == Created(old(State()), priority)
    {
      var t := |threads|;
      ghost var k := State();
      threads := threads + [Thread(priority, priority, QUANTUM, Ready, NONE, NONE)];
      MoreThreads(k, State());
      assert Valid();
      NewcomerFits(k, State());
      ReadyThread(t);
      CheckPreemption(t);
    }

    lemma NewcomerFits(k: Kernel, k1: Kernel)
      requires DispatchInvariant(k) && |k.threads| < MAX_THREADS && WellFormed(k1)
      requires k1 == k.(threads := k1.threads) && |k1.threads| == |k.threads| + 1
      ensures var p := k1.threads[|k.threads|].priority; |k1.queues[p]| < MAX_THREADS
    {
      var p := k1.threads[|k.threads|].priority;
      assert AreThreads(k, k.queues[p]) && NoDuplicates(k.queues[p]);
      RoomFor(k1, k1.queues[p], |k.threads|);
    }

    // ----- Wait queues -----

    /** The waiter of highest priority, the first among equals, and the queue closed up behind it. */
    method DequeueHighestPriority(q: seq<int>) returns (next: int, rest: seq<int>)
      requires q != [] && forall j | 0 <= j < |q| :: 0 <= q[j] < |threads|
      ensures next == q[BestWaiter(threads, q)] && rest == Dropped(q, BestWaiter(threads, q))
    {
      var best := 0;
      for i := 1 to |q|
        invariant best < i && best == BestWaiter(threads, q[..i])
      {
        assert q[..i + 1][..i] == q[..i];
        if threads[q[i]].priority > threads[q[best]].priority {
          best := i;
        }
      }
      assert q[..|q|] == q;
      next := q[best];
      rest := CloseGap(q, best);
    }

    static method CloseGap(q: seq<int>, gap: nat) returns (rest: seq<int>)
      requires gap < |q|
      ensures rest == Dropped(q, gap)
    {
      rest := q;
      for i := gap to |q| - 1
        invariant |rest| == |q| && forall j | 0 <= j < |q| :: rest[j] == q[if gap <= j < i then j + 1 else j]
      {
        rest := rest[i := rest[i + 1]];
      }
      rest := rest[..|q| - 1];
    }

    method BoostPriorityChain(t: int, p: nat, ghost m: int)
      requires Valid() && DispatchInvariant(State()) && ReadyOwnersQueued(State()) && p <= TOP_PRIORITY
      requires t == NONE || (IsMutex(State(), m) && mutexes[m].owner == t && IsThread(State(), t))
      modifies this, ready, ready.Repr
      ensures Valid() && State() == Boosted(old(State()), t, p)
      decreases Below(threads, p)
    {
      if t == NONE || threads[t].priority >= p {
        return;
      }
      ghost var k := State();
      RaisedOwner(k, m, p);
      RaisedFits(k, t, p);
      BoostUnfolds(k, t, p);
      hide WellFormed, ReadyTable.Valid, DispatchInvariant, ReadyOwnersQueued, Raised, Boosted, Below;
      RaiseOne(t, p);
      var n := threads[t].waiting;
      if n != NONE && mutexes[n].owner != NONE {
        BoostPriorityChain(mutexes[n].owner, p, n);
      }
    }

    method RaiseOne(t: int, p: nat)
      requires Valid() && IsThread(State(), t) && threads[t].priority < p <= TOP_PRIORITY
      requires WellFormed(WithThread(State(), t, threads[t].(priority := p)))
      requires threads[t].state == Ready ==>
                 t in State().queues[threads[t].priority] && |State().queues[p]| < MAX_THREADS
      modifies this, ready, ready.Repr
      ensures Valid() && State() == Raised(old(State()), t, p)
    {
      hide WellFormed, ReadyTable.Valid, Reinserted;
      var oldPriority := threads[t].priority;
      threads := threads[t := threads[t].(priority := p)];
      if threads[t].state == Ready {
        ReinsertReadyThread(t, oldPriority);
      }
    }

    lemma BoostUnfolds(k: Kernel, t: int, p: nat)
      requires WellFormed(k) && IsThread(k, t) && k.threads[t].priority < p <= TOP_PRIORITY
      ensures Raised(k, t, p) == k.(threads := k.threads[t := k.threads[t].(priority := p)],
                                    queues := Raised(k, t, p).queues)
      ensures var n := k.threads[t].waiting;
              n != NONE ==> IsMutex(k, n) && (k.mutexes[n].owner == NONE || IsThread(k, k.mutexes[n].owner))
      ensures var n := k.threads[t].waiting;
              Boosted(k, t, p) == if n != NONE && k.mutexes[n].owner != NONE
                                  then Boosted(Raised(k, t, p), k.mutexes[n].owner, p) else Raised(k, t, p)
      ensures Below(Raised(k, t, p).threads, p) < Below(k.threads, p)
    {
      RaisingLowersBelow(k.threads, t, p);
    }

    lemma RaisedFits(k: Kernel, t: int, p: nat)
      requires DispatchInvariant(k) && IsThread(k, t) && k.threads[t].priority < p <= TOP_PRIORITY
      requires k.threads[t].state == Ready ==> t in k.queues[k.threads[t].priority]
      ensures WellFormed(WithThread(k, t, k.threads[t].(priority := p)))
      ensures k.threads[t].state == Ready ==> |k.queues[p]| < MAX_THREADS
      ensures k.threads[t].waiting == NONE || IsMutex(k, k.threads[t].waiting)
    {
      ThreadWellFormed(k, t, k.threads[t].(priority := p));
      if k.threads[t].state == Ready {
        RaisedReady(k, t, p);
      }
    }

    // ----- Mutexes -----

    method AcquireMutex(m: int)
      requires Valid() && KernelInvariant(State()) && IsMutex(State(), m)
      requires irql == PASSIVE_LEVEL && CurrentRuns(State())
      modifies this, ready, ready.Repr
      ensures Valid() && State() == Acquired(old(State()), m)
    {
      AcquireParts(State(), m);
      hide WellFormed, ReadyTable.Valid, KernelInvariant, Acquired, Boosted, BlockedOnMutex;
      if mutexes[m].locked {
        BoostAndBlock(m);
      } else {
        mutexes := mutexes[m := mutexes[m].(locked := true, owner := current)];
        threads := threads[current := threads[current].(owned := m)];
      }
    }

    method BoostAndBlock(m: int)
      requires Valid() && KernelInvariant(State()) && IsMutex(State(), m)
      requires CurrentRuns(State()) && mutexes[m].locked
      modifies this, ready, ready.Repr
      ensures Valid() && State() == Acquired(old(State()), m)
    {
      hide WellFormed, ReadyTable.Valid, KernelInvariant, DispatchInvariant, ReadyOwnersQueued;
      hide Acquired, Boosted, BlockedOnMutex;
      ghost var k := State();
      AcquireParts(k, m);
      threads := threads[current := threads[current].(waiting := m)];
      BoostPriorityChain(mutexes[m].owner, threads[current].priority, m);
      BlockOnMutex(m);
    }

    lemma AcquireParts(k: Kernel, m: int)
      requires KernelInvariant(k) && IsMutex(k, m) && CurrentRuns(k)
      ensures IsThread(k, k.current)
      ensures var c := k.current;
              var k1 := WithThread(k, c, k.threads[c].(waiting := m));
              if !k.mutexes[m].locked then
                && Acquired(k, m) == WithThread(k, c, k.threads[c].(owned := m))
                     .(mutexes := k.mutexes[m := k.mutexes[m].(locked := true, owner := c)])
                && WellFormed(Acquired(k, m))
              else
                && WellFormed(k1) && DispatchInvariant(k1) && ReadyOwnersQueued(k1)
                && var k2 := Boosted(k1, k.mutexes[m].owner, k.threads[c].priority);
                && IsThread(k1, k.mutexes[m].owner) && k.threads[c].priority <= TOP_PRIORITY
                && IsMutex(k2, m) && IsThread(k2, c) && k2.current == c && |k2.mutexes[m].waiters| < MAX_THREADS
                && Acquired(k, m) == BlockedOnMutex(k2, m)
    {
      var c := k.current;
      if k.mutexes[m].locked {
        WaitingMarked(k, m);
        WaiterFits(k, k.mutexes[m].waiters, c);
        hide WaitersOk, NoInversion, DispatchInvariant, ReadyOwnersQueued, MutexesOk;
        var k1 := WithThread(k, c, k.threads[c].(waiting := m));
        BoostFrame(k1, k.mutexes[m].owner, k.threads[c].priority);
      }
    }

    /** A running thread waits nowhere, so a wait queue has room for it: no "WAIT QUEUE OVERFLOW". */
    lemma WaiterFits(k: Kernel, q: seq<int>, c: int)
      requires WellFormed(k) && WaitersOk(k, NONE) && IsThread(k, c) && k.threads[c].state == Running
      requires (exists m :: IsMutex(k, m) && q == k.mutexes[m].waiters) || (exists e :: IsEvent(k, e) && q == k.events[e].waiters)
      ensures |q| < MAX_THREADS
    {
      assert NoDuplicates(q) && AreThreads(k, q) && c !in q;
      RoomFor(k, q, c);
    }

    /** BlockCurrentThread on the wait queue of a mutex. */
    method BlockOnMutex(m: int)
      requires Valid() && IsMutex(State(), m) && current != NONE && IsThread(State(), current)
      requires |mutexes[m].waiters| < MAX_THREADS
      modifies this
      ensures Valid() && State() == BlockedOnMutex(old(State()), m)
    {
      ghost var blocked := BlockedOnMutex(State(), m);
      assert blocked == State().(threads := blocked.threads, mutexes := blocked.mutexes, reschedule := true);
      hide WellFormed, ReadyTable.Valid;
      threads := threads[current := threads[current].(state := Blocked)];
      mutexes := mutexes[m := mutexes[m].(waiters := mutexes[m].waiters + [current])];
      reschedule := true;
    }

    method ReleaseMutex(m: int)
      requires Valid() && KernelInvariant(State()) && IsMutex(State(), m) && CurrentRuns(State())
      requires mutexes[m].owner == current
      modifies this, ready, ready.Repr
      ensures Valid() && State() == Released(old(State()), m)
    {
      hide WellFormed, ReadyTable.Valid, KernelInvariant, Released, HandedOff, MadeReady, HandOffFits;
      ghost var k := State();
      ReleaseParts(k, m);
      threads := threads[current := threads[current].(priority := threads[current].basePriority, owned := NONE)];
      assert State() == Unboosted(k);
      if mutexes[m].waiters == [] {
        mutexes := mutexes[m := mutexes[m].(locked := false, owner := NONE)];
        return;
      }
      HandOff(m);
    }

    lemma ReleaseParts(k: Kernel, m: int)
      requires KernelInvariant(k) && IsMutex(k, m) && CurrentRuns(k) && k.mutexes[m].owner == k.current
      ensures IsThread(k, k.current)
      ensures var k1 := Unboosted(k);
              && k1.mutexes == k.mutexes
              && Released(k, m) == (if k.mutexes[m].waiters == []
                                    then WithMutex(k1, m, k.mutexes[m].(locked := false, owner := NONE))
                                    else HandedOff(k1, m))
              && (k.mutexes[m].waiters != [] ==> HandOffFits(k1, m))
    {
      UnboostedKeeps(k);
      if k.mutexes[m].waiters != [] {
        var k1 := Unboosted(k);
        GrantedKeeps(k1, m);
        WakeKeeps(Granted(k1, m), Granted(k1, m).mutexes[m].owner);
      }
    }

    /** The new owner is a thread and its ready queue has room for it. */
    ghost predicate HandOffFits(k: Kernel, m: int)
      requires WellFormed(k) && IsMutex(k, m) && k.mutexes[m].waiters != []
    {
      var k2 := Granted(k, m);
      var next := k2.mutexes[m].owner;
      IsThread(k2, next) && |k2.queues[k2.threads[next].priority]| < MAX_THREADS
    }

    method HandOff(m: int)
      requires Valid() && IsMutex(State(), m) && mutexes[m].waiters != [] && HandOffFits(State(), m)
      modifies this, ready, ready.Repr
      ensures Valid() && State() == HandedOff(old(State()), m)
    {
      ghost var k := State();
      HandOffParts(k, m);
      hide WellFormed, ReadyTable.Valid, HandedOff, MadeReady, Granted, PreemptionChecked;
      var next, rest := DequeueHighestPriority(mutexes[m].waiters);
      mutexes := mutexes[m := mutexes[m].(owner := next, waiters := rest)];
      threads := threads[next := threads[next].(waiting := NONE, owned := m)];
      assert State() == Granted(k, m);
      MakeReady(next);
      CheckPreemption(next);
    }

    lemma HandOffParts(k: Kernel, m: int)
      requires WellFormed(k) && IsMutex(k, m) && k.mutexes[m].waiters != []
      ensures var q := k.mutexes[m].waiters;
              && AreThreads(k, q)
              && var i := BestWaiter(k.threads, q);
              && Granted(k, m) == WithThread(k, q[i], k.threads[q[i]].(waiting := NONE, owned := m))
                   .(mutexes := k.mutexes[m := k.mutexes[m].(owner := q[i], waiters := Dropped(q, i))])
              && IsThread(Granted(k, m), q[i]) && IsThread(MadeReady(Granted(k, m), q[i]), q[i])
              && WellFormed(MadeReady(Granted(k, m), q[i]))
              && HandedOff(k, m) == PreemptionChecked(MadeReady(Granted(k, m), q[i]), q[i])
    {
      assert AreThreads(k, k.mutexes[m].waiters);
      var q := k.mutexes[m].waiters;
      MadeReadyWellFormed(Granted(k, m), q[BestWaiter(k.threads, q)]);
    }

    method TerminateThread(t: int)
      requires Valid() && KernelInvariant(State()) && IsThread(State(), t)
      requires threads[t].owned != NONE ==>
                 t == current && CurrentRuns(State()) && mutexes[threads[t].owned].owner == t
      modifies this, ready, ready.Repr
      ensures Valid() && State() == TerminatedThread(old(State()), t)
    {
      ghost var k := State();
      TerminateParts(k, t);
      hide WellFormed, ReadyTable.Valid, KernelInvariant, Released, TerminatedThread, Marked;
      if threads[t].owned != NONE {
        ReleaseMutex(threads[t].owned);
      }
      MarkTerminated(t);
    }

    method MarkTerminated(t: int)
      requires Valid() && IsThread(State(), t)
      modifies this
      ensures Valid() && State() == Marked(old(State()), t)
    {
      ghost var marked := Marked(State(), t);
      hide WellFormed, ReadyTable.Valid;
      threads := threads[t := threads[t].(owned := NONE, state := Terminated)];
      if t == current {
        reschedule := true;
      }
    }

    ghost function Marked(k: Kernel, t: int): (k': Kernel)
      requires WellFormed(k) && IsThread(k, t)
      ensures WellFormed(k')
    {
      var th := k.threads[t].(owned := NONE, state := Terminated);
      ThreadWellFormed(k, t, th);
      if t == k.current then WithThread(k, t, th).(reschedule := true) else WithThread(k, t, th)
    }

    lemma TerminateParts(k: Kernel, t: int)
      requires KernelInvariant(k) && IsThread(k, t)
      requires k.threads[t].owned != NONE ==>
                 t == k.current && CurrentRuns(k) && k.mutexes[k.threads[t].owned].owner == t
      ensures k.threads[t].owned != NONE ==> IsMutex(k, k.threads[t].owned)
      ensures var k1 := if k.threads[t].owned != NONE then Released(k, k.threads[t].owned) else k;
              IsThread(k1, t) && TerminatedThread(k, t) == Marked(k1, t)
    {
    }

    // ----- Events -----

    method WaitEvent(e: int)
      requires Valid() && KernelInvariant(State()) && IsEvent(State(), e)
      requires irql == PASSIVE_LEVEL && CurrentRuns(State())
      modifies this
      ensures Valid() && State() == Waited(old(State()), e)
    {
      ghost var k := State();
      WaitParts(k, e);
      hide WellFormed, ReadyTable.Valid, KernelInvariant, Waited;
      if events[e].signaled {
        events := events[e := events[e].(signaled := false)];
        return;
      }
      threads := threads[current := threads[current].(state := Blocked)];
      events := events[e := events[e].(waiters := events[e].waiters + [current])];
      reschedule := true;
    }

    lemma WaitParts(k: Kernel, e: int)
      requires KernelInvariant(k) && IsEvent(k, e) && CurrentRuns(k)
      ensures IsThread(k, k.current) && |k.events[e].waiters| < MAX_THREADS
      ensures Waited(k, e) == if k.events[e].signaled
                              then k.(events := k.events[e := k.events[e].(signaled := false)])
                              else WithState(k, k.current, Blocked)
                                   .(events := k.events[e := k.events[e].(waiters := k.events[e].waiters + [k.current])],
                                     reschedule := true)
    {
      WaiterFits(k, k.events[e].waiters, k.current);
    }

    /** WakeOne, with the event reset as SignalEvent leaves it. */
    method WakeOne(e: int)
      requires Valid() && IsEvent(State(), e) && events[e].waiters != [] && WakeFits(State(), e)
      modifies this, ready, ready.Repr
      ensures Valid() && State() == Signaled(old(State()), e)
    {
      ghost var k := State();
      WakeParts(k, e);
      hide WellFormed, ReadyTable.Valid, Signaled, MadeReady, Unwaited, PreemptionChecked;
      var next, rest := DequeueHighestPriority(events[e].waiters);
      events := events[e := Event(false, rest)];
      assert State() == Unwaited(k, e);
      MakeReady(next);
      CheckPreemption(next);
    }

    /** The woken thread's ready queue has room for it. */
    ghost predicate WakeFits(k: Kernel, e: int)
      requires WellFormed(k) && IsEvent(k, e) && k.events[e].waiters != []
    {
      var q := k.events[e].waiters;
      assert AreThreads(k, q);
      var next := q[BestWaiter(k.threads, q)];
      |k.queues[k.threads[next].priority]| < MAX_THREADS
    }

    lemma WakeParts(k: Kernel, e: int)
      requires WellFormed(k) && IsEvent(k, e) && k.events[e].waiters != [] && WakeFits(k, e)
      ensures var q := k.events[e].waiters;
              && AreThreads(k, q)
              && var i := BestWaiter(k.threads, q);
              var k1 := Unwaited(k, e);
              && k1 == k.(events := k.events[e := Event(false, Dropped(q, i))])
              && |k1.queues[k1.threads[q[i]].priority]| < MAX_THREADS
              && WellFormed(MadeReady(k1, q[i])) && IsThread(MadeReady(k1, q[i]), q[i])
              && Signaled(k, e) == PreemptionChecked(MadeReady(k1, q[i]), q[i])
    {
      var q := k.events[e].waiters;
      assert AreThreads(k, q);
      MadeReadyWellFormed(Unwaited(k, e), q[BestWaiter(k.threads, q)]);
    }

    method SignalEvent(e: int)
      requires Valid() && KernelInvariant(State()) && IsEvent(State(), e)
      requires irql <= DISPATCH_LEVEL && (events[e].waiters != [] ==> irql == DISPATCH_LEVEL)
      modifies this, ready, ready.Repr
      ensures Valid() && State() == Signaled(old(State()), e)
    {
      ghost var k := State();
      SignalParts(k, e);
      hide WellFormed, ReadyTable.Valid, KernelInvariant, Signaled, WakeFits;
      if events[e].waiters == [] {
        events := events[e := events[e].(signaled := true)];
      } else {
        WakeOne(e);
      }
    }

    lemma SignalParts(k: Kernel, e: int)
      requires KernelInvariant(k) && IsEvent(k, e)
      ensures if k.events[e].waiters == []
              then Signaled(k, e) == k.(events := k.events[e := k.events[e].(signaled := true)])
              else WakeFits(k, e)
    {
      var q := k.events[e].waiters;
      assert AreThreads(k, q);
      if q != [] {
        var x := q[BestWaiter(k.threads, q)];
        UnwaitedReady(k, e, x);
        WakeKeeps(Unwaited(k, e), x);
      }
    }

    // ----- Searches over the thread table -----

    method DetectPriorityInversion(m: int) returns (r: int)
      requires Valid() && IsMutex(State(), m)
      ensures r == DetectedInversion(State(), m, |threads|)
    {
      hide Valid, WellFormed;
      OwnerInTable(State(), m);
      r := NONE;
      var owner := mutexes[m].owner;
      for i := 0 to |threads|
        invariant r == NONE == DetectedInversion(State(), m, i)
      {
        if threads[i].state == Blocked && owner != NONE && threads[i].priority > threads[owner].priority {
          for j := 0 to |threads|
            invariant forall o | 0 <= o < j :: !(o != i && (threads[o].state == Ready || threads[o].state == Running)
                                                 && threads[o].priority > threads[owner].priority)
          {
            if (threads[j].state == Ready || threads[j].state == Running)
               && threads[j].priority > threads[owner].priority && j != i {
              LaterChangesNothing(State(), m, i + 1, |threads|);
              return i;
            }
          }
        }
      }
    }

    lemma OwnerInTable(k: Kernel, m: int)
      requires WellFormed(k) && IsMutex(k, m)
      ensures k.mutexes[m].owner == NONE || IsThread(k, k.mutexes[m].owner)
    {
    }

    lemma LaterChangesNothing(k: Kernel, m: int, i: nat, n: nat)
      requires WellFormed(k) && IsMutex(k, m) && i <= n <= |k.threads| && DetectedInversion(k, m, i) != NONE
      ensures DetectedInversion(k, m, n) == DetectedInversion(k, m, i)
      decreases n
    {
      if i < n {
        LaterChangesNothing(k, m, i, n - 1);
      }
    }

    /** PickNextThread of BLUE_KERNEL/BlueKernel_lvl2.c. */
    method LinearScan() returns (best: int)
      requires Valid()
      ensures best == LinearPick(State(), |threads|)
    {
      best := NONE;
      for i := 0 to |threads|
        invariant best == LinearPick(State(), i)
      {
        if i != idle && threads[i].state == Ready
           && (best == NONE || threads[i].priority > threads[best].priority) {
          best := i;
        }
      }
    }
  }
}
