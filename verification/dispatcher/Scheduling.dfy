/** Schedule, TimerDPC and CreateThread of BLUE_KERNEL/BlueKernel_lvl3.c against the dispatch invariant, and
    the bitmap dispatcher against the linear scan of BLUE_KERNEL/BlueKernel_lvl2.c. */
module Scheduling {
  import opened ReadyQueues
  import opened Kernels
  import opened QueueInvariant

  /** After a pick everybody else is still where they belong. */
  lemma PickKeepsOthers(k: Kernel)
    requires DispatchInvariant(k)
    ensures var (k1, t) := PickNext(k);
            && WellFormed(k1) && QueuesOk(k1) && Unqueued(k1, t)
            && (forall x | IsThread(k, x) && k.threads[x].state == Ready && x != t
                           && x in k.queues[k.threads[x].priority] ::
                  x in k1.queues[k.threads[x].priority])
  {
    PickWellFormed(k);
    var p, i := PickIsHighest(k);
    PickedPlaces(k, PickNext(k).0, PickNext(k).1, p, i);
  }

  lemma PickedPlaces(k: Kernel, k1: Kernel, t: int, p: nat, i: nat)
    requires DispatchInvariant(k) && WellFormed(k1) && PickOk(k, k1, t, p, i)
    ensures QueuesOk(k1) && Unqueued(k1, t)
    ensures forall x | IsThread(k, x) && k.threads[x].state == Ready && x != t
                       && x in k.queues[k.threads[x].priority] ::
              x in k1.queues[k.threads[x].priority]
  {
    if PickedAt(k, p, i) {
      PickedRemains(k, k1, t, p, i);
      forall x | IsThread(k, x) && k.threads[x].state == Ready && x != t && x in k.queues[k.threads[x].priority]
        ensures x in k1.queues[k.threads[x].priority]
      {
        ReadyBehindPick(k, p, i, x);
      }
      hide NoDuplicates, PickedAt, AllTerminated, QueuesOk, ReadyQueued, RunningIsCurrent;
    } else {
      assert forall q | 0 <= q < MAX_PRIORITY :: AllTerminated(k, k.queues[q]);
    }
  }

  lemma PickedRemains(k: Kernel, k1: Kernel, t: int, p: nat, i: nat)
    requires WellFormed(k) && QueuesOk(k) && WellFormed(k1) && PickOk(k, k1, t, p, i) && PickedAt(k, p, i)
    ensures QueuesOk(k1) && Unqueued(k1, t)
  {
    assert k.queues[p][i] in k.queues[p];
    assert NoDuplicates(k.queues[p]);
    SuffixDistinct(k.queues[p], i);
    assert forall q, x | 0 <= q < MAX_PRIORITY && x in k1.queues[q] :: x in k.queues[q];
    hide NoDuplicates, PickedAt, AllTerminated;
  }

  lemma SuffixDistinct(q: seq<int>, i: nat)
    requires NoDuplicates(q) && i < |q|
    ensures NoDuplicates(q[i + 1..]) && q[i] !in q[i + 1..]
  {
  }

  lemma ReadyBehindPick(k: Kernel, p: nat, i: nat, x: int)
    requires DispatchInvariant(k) && PickedAt(k, p, i) && IsThread(k, x) && k.threads[x].state == Ready
    requires x in k.queues[k.threads[x].priority] && x != k.queues[p][i]
    ensures k.threads[x].priority <= p
    ensures k.threads[x].priority == p ==> x in k.queues[p][i + 1..]
  {
    hide NoDuplicates;
    var q := k.threads[x].priority;
    var j :| 0 <= j < |k.queues[q]| && k.queues[q][j] == x;
    assert q > p ==> AllTerminated(k, k.queues[q]);
    if q == p {
      assert j > i;
      assert k.queues[p][i + 1..][j - i - 1] == x;
    }
  }

  /** Nobody READY outranks the pick. */
  lemma PickOutranks(k: Kernel)
    requires DispatchInvariant(k)
    ensures var t := PickNext(k).1;
            && (forall x | IsThread(k, x) && k.threads[x].state == Ready && x != k.idle ::
                  k.threads[x].priority <= k.threads[t].priority)
            && (t != k.idle ==> k.threads[t].state == Ready)
            && (t == k.idle ==>
                  || (k.threads[t].state == Ready && t in k.queues[k.threads[t].priority])
                  || (forall x | IsThread(k, x) && x != k.idle :: k.threads[x].state != Ready))
  {
    var p, i := PickIsHighest(k);
    var t := PickNext(k).1;
    if PickedAt(k, p, i) {
      assert t in k.queues[p];
      assert Placed(k, t, p);
      forall x | IsThread(k, x) && k.threads[x].state == Ready && x != k.idle
        ensures k.threads[x].priority <= k.threads[t].priority
      {
        if x != t {
          ReadyBehindPick(k, p, i, x);
        }
      }
    } else {
      assert forall q | 0 <= q < MAX_PRIORITY :: AllTerminated(k, k.queues[q]);
    }
  }

  // ----- Schedule -----

  /** Thread t has not terminated, and whatever is queued above it or before it has. */
  ghost predicate IsFront(k: Kernel, t: int)
    requires WellFormed(k)
  {
    exists p: nat, i: nat :: PickedAt(k, p, i) && k.queues[p][i] == t
  }

  ghost predicate NothingLive(k: Kernel)
    requires WellFormed(k)
  {
    forall p | 0 <= p < MAX_PRIORITY :: AllTerminated(k, k.queues[p])
  }

  lemma OneFront(k: Kernel, p: nat, i: nat, q: nat, j: nat)
    requires WellFormed(k) && PickedAt(k, p, i) && PickedAt(k, q, j)
    ensures p == q && i == j
  {
    assert p < q ==> AllTerminated(k, k.queues[q]);
    assert q < p ==> AllTerminated(k, k.queues[p]);
  }

  lemma FrontIsLive(k: Kernel, p: nat, i: nat)
    requires WellFormed(k) && PickedAt(k, p, i)
    ensures !NothingLive(k)
  {
    assert !AllTerminated(k, k.queues[p]);
  }

  /** Who is picked can be read off the queues beforehand. */
  lemma PickedIff(k: Kernel, t: int)
    requires WellFormed(k)
    ensures PickNext(k).1 == t <==> IsFront(k, t) || (t == k.idle && NothingLive(k))
  {
    var p, i := PickIsHighest(k);
    if PickedAt(k, p, i) {
      FrontIsLive(k, p, i);
      forall q: nat, j: nat | PickedAt(k, q, j) ensures q == p && j == i {
        OneFront(k, p, i, q, j);
      }
    } else {
      assert NothingLive(k);
      forall q: nat, j: nat ensures !PickedAt(k, q, j) {
        if PickedAt(k, q, j) {
          FrontIsLive(k, q, j);
        }
      }
    }
  }

  lemma FrontIsReady(k: Kernel, t: int)
    requires DispatchInvariant(k) && IsFront(k, t)
    ensures IsThread(k, t) && k.threads[t].state == Ready && t in k.queues[k.threads[t].priority]
  {
    var p: nat, i: nat :| PickedAt(k, p, i) && k.queues[p][i] == t;
    assert t in k.queues[p] && Placed(k, t, p);
  }

  /** The current thread is the first in line: woken before it was switched away from. */
  ghost predicate DropsCurrent(k: Kernel)
    requires WellFormed(k)
  {
    k.irql < DISPATCH_LEVEL && k.current != k.idle && IsFront(k, k.current)
  }

  lemma SwitchKeeps(k: Kernel, next: int)
    requires WellFormed(k) && QueuesOk(k) && RunningIsCurrent(k) && IsThread(k, next) && next != k.current
    requires Unqueued(k, next)
    requires forall x | IsThread(k, x) && k.threads[x].state == Ready && x != k.idle && x != next ::
               x in k.queues[k.threads[x].priority]
    ensures DispatchInvariant(SwitchedTo(k, next))
  {
    hide NoDuplicates, QueuesOk;
    var c := k.current;
    if c != NONE && k.threads[c].state == Running {
      CurrentStepsDown(k, c);
      assert Unqueued(MadeReady(k, c), next);
      RunNext(MadeReady(k, c), next);
    } else {
      RunNext(k, next);
    }
  }

  /** Nobody runs, and everybody READY is queued except the next to run and idle. */
  lemma RunNext(k: Kernel, next: int)
    requires WellFormed(k) && QueuesOk(k) && IsThread(k, next) && Unqueued(k, next)
    requires forall x | IsThread(k, x) :: k.threads[x].state != Running
    requires forall x | IsThread(k, x) && k.threads[x].state == Ready && x != k.idle && x != next ::
               x in k.queues[k.threads[x].priority]
    ensures DispatchInvariant(WithState(k, next, Running).(current := next))
  {
    hide NoDuplicates, QueuesOk;
    UnqueuedStateOk(k, next, Running);
    QueuesIgnoreCurrent(WithState(k, next, Running), next);
  }

  lemma QueuesIgnoreCurrent(k: Kernel, c: int)
    requires WellFormed(k) && QueuesOk(k) && IsThread(k, c)
    ensures WellFormed(k.(current := c)) && QueuesOk(k.(current := c))
  {
  }

  lemma CurrentStepsDown(k: Kernel, c: int)
    requires WellFormed(k) && QueuesOk(k) && IsThread(k, c) && k.threads[c].state == Running
    ensures WellFormed(MadeReady(k, c)) && QueuesOk(MadeReady(k, c))
  {
    NotReadyUnqueued(k, c);
    UnqueuedStateOk(k, c, Ready);
    EnqueuedQueuesOk(WithState(k, c, Ready), c);
  }

  /** Schedule keeps the dispatch invariant exactly when it does not take the early return with a thread in
      hand: that thread would be READY, in no queue, and never picked again. */
  lemma ScheduleKeepsIff(k: Kernel)
    requires DispatchInvariant(k)
    ensures DispatchInvariant(Schedule(k)) <==> !DropsCurrent(k)
  {
    if k.irql < DISPATCH_LEVEL {
      var (k1, next) := PickNext(k);
      PickKeepsOthers(k);
      PickOutranks(k);
      PickedIff(k, k.current);
      hide PickNext, IsFront, NothingLive;
      if k.current != next {
        SwitchKeeps(k1, next);
      } else if next != k.idle {
        assert k1.threads[next].state == Ready && !ReadyQueued(k1);
      }
    }
  }

  /** Whoever runs after Schedule outranks every runnable thread, exactly when the thread it took the
      processor from did not outrank the pick: Schedule does not compare the two. */
  lemma ScheduleRunsHighestIff(k: Kernel)
    requires DispatchInvariant(k) && k.irql < DISPATCH_LEVEL && !DropsCurrent(k)
    ensures var k' := Schedule(k);
            var c := k.current;
            var next := k'.current;
            && (IsFront(k, next) || (next == k.idle && NothingLive(k)))
            && ((forall x | IsThread(k, x) && x != k.idle
                            && (k.threads[x].state == Ready || k.threads[x].state == Running) ::
                   k.threads[x].priority <= k.threads[next].priority)
                <==> !(c != NONE && c != k.idle && k.threads[c].state == Running
                       && k.threads[c].priority > k.threads[next].priority))
  {
    PickOutranks(k);
    PickWellFormed(k);
    PickedIff(k, PickNext(k).1);
    PickedIff(k, k.current);
    hide IsFront, NothingLive;
  }

  // ----- The linear scan -----

  /** Both dispatchers name a thread of the same priority, or both have only the idle thread left. */
  predicate SamePriority(k: Kernel)
    requires WellFormed(k)
  {
    var l, t := LinearPick(k, |k.threads|), PickNext(k).1;
    if l == NONE then t == k.idle else k.threads[t].priority == k.threads[l].priority
  }

  /** The idle thread sits in a ready queue above every other READY thread. */
  predicate IdleOutranks(k: Kernel)
    requires WellFormed(k)
  {
    var l := LinearPick(k, |k.threads|);
    var idle := k.threads[k.idle];
    l != NONE && idle.state == Ready && k.idle in k.queues[idle.priority] && idle.priority > k.threads[l].priority
  }

  /** The bitmap dispatcher picks what the linear scan would, except that it can pick a queued idle thread
      although other threads are READY. */
  lemma AgreesWithLinearScanIff(k: Kernel)
    requires DispatchInvariant(k)
    ensures SamePriority(k) <==> !IdleOutranks(k)
  {
    PickOutranks(k);
    var t := PickNext(k).1;
    var l := LinearPick(k, |k.threads|);
    if IdleOutranks(k) {
      IdlePicked(k);
    }
  }

  lemma IdlePicked(k: Kernel)
    requires DispatchInvariant(k) && IdleOutranks(k)
    ensures k.threads[PickNext(k).1].priority >= k.threads[k.idle].priority
  {
    var p, i := PickIsHighest(k);
    var h := k.threads[k.idle].priority;
    var j :| 0 <= j < |k.queues[h]| && k.queues[h][j] == k.idle;
    assert !AllTerminated(k, k.queues[h]);
    if PickedAt(k, p, i) {
      assert k.queues[p][i] in k.queues[p];
      assert Placed(k, k.queues[p][i], p);
    }
  }

  // ----- Operations that only move threads into the queues -----

  lemma TimerKeeps(k: Kernel)
    requires DispatchInvariant(k)
    ensures DispatchInvariant(TimerDpc(k))
  {
    hide NoDuplicates;
    var t := k.current;
    if t != NONE && t != k.idle && k.threads[t].state == Running {
      var th := k.threads[t].(quantum := k.threads[t].quantum - 1);
      QuantumKeeps(k, t, th.quantum);
      QuantumKeeps(k, t, QUANTUM);
      var k1 := WithThread(k, t, th.(quantum := QUANTUM));
      NotReadyUnqueued(k1, t);
      MadeReadyOk(k1, t);
      assert TimerDpc(k) == if th.quantum > 0 then WithThread(k, t, th)
                            else MadeReady(k1, t).(current := NONE, reschedule := true);
      hide TimerDpc, QueuesOk, ReadyQueued;
      if th.quantum <= 0 {
        LosesProcessor(MadeReady(k1, t));
      }
    }
  }

  lemma QuantumKeeps(k: Kernel, t: int, quantum: int)
    requires DispatchInvariant(k) && IsThread(k, t)
    ensures DispatchInvariant(WithThread(k, t, k.threads[t].(quantum := quantum)))
  {
    ThreadWellFormed(k, t, k.threads[t].(quantum := quantum));
    DispatchSame(k, WithThread(k, t, k.threads[t].(quantum := quantum)));
  }

  lemma LosesProcessor(k: Kernel)
    requires WellFormed(k) && QueuesOk(k) && ReadyQueued(k)
    ensures var k' := k.(current := NONE, reschedule := true); WellFormed(k') && QueuesOk(k') && ReadyQueued(k')
  {
  }

  lemma CreateKeeps(k: Kernel, priority: nat)
    requires DispatchInvariant(k) && |k.threads| < MAX_THREADS && priority <= TOP_PRIORITY
    ensures DispatchInvariant(Created(k, priority))
  {
    var t := |k.threads|;
    var k1 := k.(threads := k.threads + [Thread(priority, priority, QUANTUM, Ready, NONE, NONE)]);
    MoreThreads(k, k1);
    assert WellFormed(k1);
    assert QueuesOk(k1) && Unqueued(k1, t);
    hide NoDuplicates;
    EnqueuedQueuesOk(k1, t);
    assert ReadyQueued(Enqueued(k1, t));
    DispatchSame(Enqueued(k1, t), Created(k, priority));
  }
}
