/** What the operations of BLUE_KERNEL/BlueKernel_lvl3.c leave behind, in terms of states, queues and flags
    alone: who runs, who is READY and where in line, who waits and where, and when a reschedule is requested. */
module DispatcherEffects {
  import opened ReadyQueues
  import opened Kernels
  import opened QueueInvariant
  import opened Scheduling
  import opened Inheritance
  import opened DispatcherRuns

  // ----- Observations -----

  /** q' is q without its i-th entry. */
  predicate Leaves(q: seq<int>, q': seq<int>, i: nat) {
    && i < |q| && |q'| == |q| - 1
    && (forall j | 0 <= j < i :: q'[j] == q[j]) && (forall j | i <= j < |q'| :: q'[j] == q[j + 1])
  }

  /** Entry i outranks those before it and is outranked by none. */
  predicate FirstOfHighest(k: Kernel, q: seq<int>, i: nat)
    requires AreThreads(k, q)
  {
    && i < |q|
    && (forall j | 0 <= j < |q| :: k.threads[q[j]].priority <= k.threads[q[i]].priority)
    && (forall j | 0 <= j < i :: k.threads[q[j]].priority < k.threads[q[i]].priority)
  }

  /** Nobody but t and u changed. */
  ghost predicate OthersSame(k: Kernel, k': Kernel, t: int, u: int) {
    |k'.threads| == |k.threads| && forall x | IsThread(k, x) && x != t && x != u :: k'.threads[x] == k.threads[x]
  }

  /** Only the queue of t's priority changed: t stands at its end. */
  predicate LastInLine(k: Kernel, k': Kernel, t: int)
    requires IsThread(k', t)
  {
    && |k'.queues| == |k.queues| == MAX_PRIORITY && k'.threads[t].priority < MAX_PRIORITY
    && forall p | 0 <= p < MAX_PRIORITY ::
         k'.queues[p] == if p == k'.threads[t].priority then k.queues[p] + [t] else k.queues[p]
  }

  /** What no operation but Schedule, the timer and main changes. */
  predicate ControlSame(k: Kernel, k': Kernel) {
    k'.current == k.current && k'.idle == k.idle && k'.irql == k.irql
  }

  // ----- Preemption -----

  /** Thread t became READY, or was created so, and outranks the current thread. */
  ghost predicate NewlyOutranks(k: Kernel, k': Kernel, t: int) {
    && IsThread(k', t) && k'.threads[t].state == Ready && (IsThread(k, t) ==> k.threads[t].state != Ready)
    && IsThread(k', k'.current) && k'.threads[t].priority > k'.threads[k'.current].priority
  }

  /** A reschedule is requested exactly when it was before or a thread that has just become READY outranks the
      current thread. */
  ghost predicate RequestsIffOutranked(k: Kernel, k': Kernel) {
    k'.reschedule <==> k.reschedule || exists t :: NewlyOutranks(k, k', t)
  }

  /** One thread became READY; the flag can be read off it. */
  lemma OneNewcomer(k: Kernel, k': Kernel, x: int)
    requires WellFormed(k') && IsThread(k', x) && k'.threads[x].state == Ready
    requires IsThread(k, x) ==> k.threads[x].state != Ready
    requires forall t | IsThread(k', t) && t != x ::
               k'.threads[t].state == Ready ==> IsThread(k, t) && k.threads[t].state == Ready
    requires k'.reschedule <==>
               k.reschedule || (k'.current != NONE && k'.threads[x].priority > k'.threads[k'.current].priority)
    ensures RequestsIffOutranked(k, k')
  {
    if k'.current != NONE && k'.threads[x].priority > k'.threads[k'.current].priority {
      assert NewlyOutranks(k, k', x);
    }
  }

  // ----- Events -----

  /** SignalEvent with nobody waiting only remembers the signal; otherwise the first waiter of highest priority
      leaves the wait queue and stands, READY, at the end of its ready queue. */
  lemma SignalOutcome(k: Kernel, e: int) returns (i: nat)
    requires WellFormed(k) && WaitersOk(k, NONE) && IsEvent(k, e)
    ensures var k' := Signaled(k, e);
            var q := k.events[e].waiters;
            && ControlSame(k, k') && k'.mutexes == k.mutexes && |k'.events| == |k.events|
            && (forall o | IsEvent(k, o) && o != e :: k'.events[o] == k.events[o])
            && (q == [] ==>
                  && k'.events[e].signaled && k'.events[e].waiters == [] && k'.threads == k.threads
                  && k'.queues == k.queues && k'.reschedule == k.reschedule)
            && (q != [] ==>
                  && AreThreads(k, q) && FirstOfHighest(k, q, i) && Leaves(q, k'.events[e].waiters, i)
                  && !k'.events[e].signaled
                  && OthersSame(k, k', q[i], q[i]) && k'.threads[q[i]] == k.threads[q[i]].(state := Ready)
                  && LastInLine(k, k', q[i]))
    ensures RequestsIffOutranked(k, Signaled(k, e))
  {
    var q := k.events[e].waiters;
    i := 0;
    if q != [] {
      EventWaiters(k, e);
      hide WaitersOk, Signaled, Leaves, LastInLine;
      i := BestWaiter(k.threads, q);
      SignalWakes(k, e, i);
      OneNewcomer(k, Signaled(k, e), q[i]);
    } else {
      hide WaitersOk;
      assert forall t :: !NewlyOutranks(k, Signaled(k, e), t);
    }
  }

  lemma EventWaiters(k: Kernel, e: int)
    requires WellFormed(k) && WaitersOk(k, NONE) && IsEvent(k, e)
    ensures AreThreads(k, k.events[e].waiters)
    ensures forall j | 0 <= j < |k.events[e].waiters| :: k.threads[k.events[e].waiters[j]].state == Blocked
  {
    var q := k.events[e].waiters;
    assert AreThreads(k, q);
    assert forall j | 0 <= j < |q| :: q[j] in q;
  }

  lemma SignalWakes(k: Kernel, e: int, i: nat)
    requires WellFormed(k) && IsEvent(k, e) && k.events[e].waiters != [] && AreThreads(k, k.events[e].waiters)
    requires i == BestWaiter(k.threads, k.events[e].waiters)
    ensures var k' := Signaled(k, e);
            var q := k.events[e].waiters;
            && WellFormed(k') && ControlSame(k, k') && k'.mutexes == k.mutexes && |k'.events| == |k.events|
            && (forall o | IsEvent(k, o) && o != e :: k'.events[o] == k.events[o])
            && Leaves(q, k'.events[e].waiters, i) && !k'.events[e].signaled
            && OthersSame(k, k', q[i], q[i]) && k'.threads[q[i]] == k.threads[q[i]].(state := Ready)
            && LastInLine(k, k', q[i])
            && (k'.reschedule <==>
                  k.reschedule || (k.current != NONE && k'.threads[q[i]].priority > k'.threads[k.current].priority))
  {
  }

  /** WaitEvent consumes a remembered signal; otherwise the caller is BLOCKED at the end of the wait queue and a
      reschedule is requested. */
  lemma WaitOutcome(k: Kernel, e: int)
    requires WellFormed(k) && IsEvent(k, e) && k.current != NONE
    ensures var k' := Waited(k, e);
            var c := k.current;
            && ControlSame(k, k') && k'.mutexes == k.mutexes && k'.queues == k.queues && |k'.events| == |k.events|
            && (forall o | IsEvent(k, o) && o != e :: k'.events[o] == k.events[o])
            && (k.events[e].signaled ==>
                  && !k'.events[e].signaled && k'.events[e].waiters == k.events[e].waiters
                  && k'.threads == k.threads && k'.reschedule == k.reschedule)
            && (!k.events[e].signaled ==>
                  && !k'.events[e].signaled && k'.events[e].waiters == k.events[e].waiters + [c]
                  && OthersSame(k, k', c, c) && k'.threads[c] == k.threads[c].(state := Blocked) && k'.reschedule)
  {
  }

  // ----- Mutexes -----

  predicate OtherMutexesSame(k: Kernel, k': Kernel, m: int) {
    |k'.mutexes| == |k.mutexes| && forall n | 0 <= n < |k.mutexes| && n != m :: k'.mutexes[n] == k.mutexes[n]
  }

  /** AcquireMutex on a free mutex: the caller owns it, and nothing else happens. */
  lemma AcquireFreeOutcome(k: Kernel, m: int)
    requires WellFormed(k) && IsMutex(k, m) && k.current != NONE && !k.mutexes[m].locked
    ensures var k' := Acquired(k, m);
            var c := k.current;
            && ControlSame(k, k') && k'.queues == k.queues && k'.events == k.events && k'.reschedule == k.reschedule
            && OtherMutexesSame(k, k', m)
            && k'.mutexes[m].locked && k'.mutexes[m].owner == c && k'.mutexes[m].waiters == k.mutexes[m].waiters
            && OthersSame(k, k', c, c) && k'.threads[c] == k.threads[c].(owned := m)
  {
  }

  /** AcquireMutex on a mutex that is taken: the caller is BLOCKED on it, at the end of its wait queue, the owner
      is at least at the caller's priority, and a reschedule is requested. No other thread changes but in
      priority, and none falls. */
  lemma AcquireHeldOutcome(k: Kernel, m: int)
    requires WellFormed(k) && IsMutex(k, m) && k.current != NONE && k.mutexes[m].locked
    ensures var k' := Acquired(k, m);
            var c := k.current;
            && ControlSame(k, k') && k'.events == k.events && k'.reschedule
            && OtherMutexesSame(k, k', m) && k'.mutexes[m] == k.mutexes[m].(waiters := k.mutexes[m].waiters + [c])
            && |k'.threads| == |k.threads|
            && k'.threads[c].state == Blocked && k'.threads[c].waiting == m
            && (k.mutexes[m].owner != NONE ==>
                  k'.threads[k.mutexes[m].owner].priority >= k.threads[c].priority)
            && (forall x | IsThread(k, x) :: k'.threads[x].priority >= k.threads[x].priority)
            && (forall x | IsThread(k, x) && x != c ::
                  k'.threads[x] == k.threads[x].(priority := k'.threads[x].priority))
  {
    var c := k.current;
    var k1 := WithThread(k, c, k.threads[c].(waiting := m));
    ThreadWellFormed(k, c, k1.threads[c]);
    BoostFrame(k1, k.mutexes[m].owner, k.threads[c].priority);
    if k.mutexes[m].owner != NONE {
      BoostReaches(k1, k.mutexes[m].owner, k.threads[c].priority);
    }
    hide Boosted, WellFormed;
  }

  /** ReleaseMutex with nobody waiting: the mutex is free and the releaser is back at its base priority. */
  lemma ReleaseFreeOutcome(k: Kernel, m: int)
    requires WellFormed(k) && IsMutex(k, m) && k.current != NONE && k.mutexes[m].owner == k.current
    requires k.mutexes[m].waiters == []
    ensures var k' := Released(k, m);
            var c := k.current;
            && ControlSame(k, k') && k'.queues == k.queues && k'.events == k.events && k'.reschedule == k.reschedule
            && OtherMutexesSame(k, k', m) && k'.mutexes[m] == Mutex(false, NONE, [])
            && OthersSame(k, k', c, c)
            && k'.threads[c] == k.threads[c].(priority := k.threads[c].basePriority, owned := NONE)
  {
  }

  /** ReleaseMutex with waiters: the first of highest priority owns the mutex and stands, READY, at the end of its
      ready queue; the releaser is back at its base priority, and that is what the new owner is compared with. */
  lemma ReleaseHandsOver(k: Kernel, m: int) returns (i: nat)
    requires WellFormed(k) && WaitersOk(k, NONE) && IsMutex(k, m) && CurrentRuns(k)
    requires k.mutexes[m].owner == k.current && k.mutexes[m].waiters != []
    ensures var k' := Released(k, m);
            var c, q := k.current, k.mutexes[m].waiters;
            && ControlSame(k, k') && k'.events == k.events && OtherMutexesSame(k, k', m)
            && AreThreads(k, q) && FirstOfHighest(k, q, i) && q[i] != c && Leaves(q, k'.mutexes[m].waiters, i)
            && k'.mutexes[m].locked == k.mutexes[m].locked && k'.mutexes[m].owner == q[i]
            && OthersSame(k, k', c, q[i])
            && k'.threads[c] == k.threads[c].(priority := k.threads[c].basePriority, owned := NONE)
            && k'.threads[q[i]] == k.threads[q[i]].(state := Ready, waiting := NONE, owned := m)
            && LastInLine(k, k', q[i])
    ensures RequestsIffOutranked(k, Released(k, m))
  {
    hide WaitersOk, Released, HandedOff, Leaves;
    var k1, q := Unboosted(k), k.mutexes[m].waiters;
    ReleaserSteps(k, m);
    i := BestWaiter(k1.threads, q);
    HandOffOutcome(k1, m, i);
    OneNewcomer(k, Released(k, m), q[i]);
  }

  /** The releaser, RUNNING, is none of the waiters, who keep their priorities. */
  lemma ReleaserSteps(k: Kernel, m: int)
    requires WellFormed(k) && WaitersOk(k, NONE) && IsMutex(k, m) && CurrentRuns(k)
    requires k.mutexes[m].owner == k.current && k.mutexes[m].waiters != []
    ensures var k1, q := Unboosted(k), k.mutexes[m].waiters;
            && Released(k, m) == HandedOff(k1, m) && WellFormed(Released(k, m)) && WellFormed(k1)
            && AreThreads(k, q) && AreThreads(k1, q)
            && forall j | 0 <= j < |q| ::
                 q[j] != k.current && k1.threads[q[j]] == k.threads[q[j]] && k.threads[q[j]].state == Blocked
  {
    hide NoDuplicates;
    var q := k.mutexes[m].waiters;
    assert AreThreads(k, q);
    assert forall j | 0 <= j < |q| :: q[j] in q;
    hide HandedOff;
  }

  lemma HandOffOutcome(k: Kernel, m: int, i: nat)
    requires WellFormed(k) && IsMutex(k, m) && k.mutexes[m].waiters != [] && AreThreads(k, k.mutexes[m].waiters)
    requires i == BestWaiter(k.threads, k.mutexes[m].waiters)
    ensures var k' := HandedOff(k, m);
            var q := k.mutexes[m].waiters;
            var x := q[i];
            && ControlSame(k, k') && k'.events == k.events && OtherMutexesSame(k, k', m)
            && Leaves(q, k'.mutexes[m].waiters, i)
            && k'.mutexes[m].locked == k.mutexes[m].locked && k'.mutexes[m].owner == x
            && OthersSame(k, k', x, x)
            && k'.threads[x] == k.threads[x].(state := Ready, waiting := NONE, owned := m)
            && LastInLine(k, k', x)
            && (k'.reschedule <==>
                  k.reschedule || (k.current != NONE && k'.threads[x].priority > k'.threads[k.current].priority))
  {
  }

  // ----- Creation, timer, termination -----

  /** CreateThread: the new thread is READY at its base priority with a full quantum, at the end of its queue. */
  lemma CreateOutcome(k: Kernel, priority: nat)
    requires WellFormed(k) && |k.threads| < MAX_THREADS && priority <= TOP_PRIORITY
    ensures var k' := Created(k, priority);
            && ControlSame(k, k') && k'.mutexes == k.mutexes && k'.events == k.events
            && k'.threads == k.threads + [Thread(priority, priority, 3, Ready, NONE, NONE)]
            && LastInLine(k, k', |k.threads|)
    ensures RequestsIffOutranked(k, Created(k, priority))
  {
    OneNewcomer(k, Created(k, priority), |k.threads|);
  }

  /** TimerDPC takes one tick off a running thread other than idle. At the last it refills the quantum to three,
      puts the thread, READY, at the end of its queue, leaves no thread current and requests a reschedule. */
  lemma TimerOutcome(k: Kernel)
    requires WellFormed(k)
    ensures var k' := TimerDpc(k);
            var c := k.current;
            if c == NONE || c == k.idle || k.threads[c].state != Running then k' == k
            else
              && k'.mutexes == k.mutexes && k'.events == k.events && k'.idle == k.idle && k'.irql == k.irql
              && OthersSame(k, k', c, c)
              && if k.threads[c].quantum > 1 then
                   && k'.current == c && k'.queues == k.queues && k'.reschedule == k.reschedule
                   && k'.threads[c] == k.threads[c].(quantum := k.threads[c].quantum - 1)
                 else
                   && k'.current == NONE && k'.reschedule && LastInLine(k, k', c)
                   && k'.threads[c] == k.threads[c].(quantum := 3, state := Ready)
  {
  }

  /** TerminateThread of a thread that owns nothing. */
  lemma TerminateOutcome(k: Kernel, t: int)
    requires WellFormed(k) && IsThread(k, t) && k.threads[t].owned == NONE
    ensures var k' := TerminatedThread(k, t);
            && ControlSame(k, k') && k'.mutexes == k.mutexes && k'.events == k.events && k'.queues == k.queues
            && OthersSame(k, k', t, t) && k'.threads[t] == k.threads[t].(state := Terminated)
            && (k'.reschedule <==> k.reschedule || t == k.current)
  {
  }

  /** TerminateThread of the current thread while it owns a mutex: ReleaseMutex, and then the same. */
  lemma TerminateOwnerOutcome(k: Kernel, m: int)
    requires WellFormed(k) && IsMutex(k, m) && k.current != NONE
    requires k.threads[k.current].owned == m && k.mutexes[m].owner == k.current
    ensures var k' := TerminatedThread(k, k.current);
            var k1 := Released(k, m);
            var c := k.current;
            && ControlSame(k1, k') && k'.mutexes == k1.mutexes && k'.events == k1.events && k'.queues == k1.queues
            && OthersSame(k1, k', c, c) && k'.threads[c] == k1.threads[c].(owned := NONE, state := Terminated)
            && k'.reschedule
  {
    ReleaseEffect(k, m);
    hide Released;
  }

  // ----- Schedule -----

  /** Schedule below DISPATCH_LEVEL runs the pick; a thread that was RUNNING stands, READY, at the end of its
      queue behind what the pick left. At DISPATCH_LEVEL and above it does nothing. */
  lemma ScheduleOutcome(k: Kernel)
    requires WellFormed(k)
    ensures var k' := Schedule(k);
            var (k1, next) := PickNext(k);
            var c := k.current;
            && k'.mutexes == k.mutexes && k'.events == k.events && k'.idle == k.idle && k'.irql == k.irql
            && k'.reschedule == k.reschedule
            && (k.irql >= 2 ==> k' == k)
            && (k.irql < 2 && next == c ==> k'.current == c && k'.threads == k.threads && k'.queues == k1.queues)
            && (k.irql < 2 && next != c ==>
                  && k'.current == next && k'.threads[next] == k.threads[next].(state := Running)
                  && (if c != NONE && k.threads[c].state == Running then
                        && OthersSame(k, k', c, next) && k'.threads[c] == k.threads[c].(state := Ready)
                        && LastInLine(k1, k', c)
                      else OthersSame(k, k', next, next) && k'.queues == k1.queues))
  {
    PickWellFormed(k);
    hide PickNext;
  }

  // ----- Inversion check -----

  /** What DetectPriorityInversion looks for in thread t: BLOCKED above the owner, while another thread above the
      owner can run. */
  ghost predicate Inverted(k: Kernel, m: int, t: int)
    requires IsMutex(k, m)
  {
    var owner := k.mutexes[m].owner;
    && IsThread(k, owner) && IsThread(k, t) && k.threads[t].state == Blocked
    && k.threads[t].priority > k.threads[owner].priority
    && exists o | IsThread(k, o) && o != t ::
         (k.threads[o].state == Ready || k.threads[o].state == Running)
         && k.threads[o].priority > k.threads[owner].priority
  }

  /** It names the first such thread of the table, and nobody exactly when there is none. */
  lemma {:induction false} DetectionOutcome(k: Kernel, m: int, n: nat)
    requires WellFormed(k) && IsMutex(k, m) && n <= |k.threads|
    ensures var t := DetectedInversion(k, m, n);
            && (t == NONE <==> forall x | 0 <= x < n :: !Inverted(k, m, x))
            && (t != NONE ==> Inverted(k, m, t) && forall x | 0 <= x < t :: !Inverted(k, m, x))
  {
    if k.mutexes[m].owner == NONE {
      assert forall x :: !Inverted(k, m, x);
    } else if n > 0 {
      DetectionOutcome(k, m, n - 1);
      DetectsOne(k, m, n);
      hide DetectedInversion;
    }
  }

  lemma DetectsOne(k: Kernel, m: int, n: nat)
    requires WellFormed(k) && IsMutex(k, m) && 0 < n <= |k.threads| && k.mutexes[m].owner != NONE
    ensures var before := DetectedInversion(k, m, n - 1);
            DetectedInversion(k, m, n) ==
            if before != NONE then before else if Inverted(k, m, n - 1) then n - 1 else NONE
  {
  }
}
