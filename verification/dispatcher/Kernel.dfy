/** The dispatcher of BLUE_KERNEL/BlueKernel_lvl3.c as a state and its operations: threads, one first-in
    first-out ready queue per priority, mutexes with priority inheritance, and events. Threads and mutexes are
    named by table index; NONE stands for a null pointer. */
module Kernels {
  import opened ReadyQueues

  const NONE := -1
  const MAX_PRIORITY := 32
  const QUANTUM := 3

  /** Priority 31 is the one the bit scan cannot find (see BitScan.FindsHighestIff). */
  const TOP_PRIORITY := 30

  const PASSIVE_LEVEL := 0
  const DISPATCH_LEVEL := 2

  datatype ThreadState = Ready | Running | Blocked | Terminated

  datatype Thread = Thread(
    priority: nat, basePriority: nat, quantum: int, state: ThreadState, owned: int, waiting: int)

  datatype Mutex = Mutex(locked: bool, owner: int, waiters: seq<int>)

  datatype Event = Event(signaled: bool, waiters: seq<int>)

  datatype Kernel = Kernel(
    threads: seq<Thread>, queues: seq<seq<int>>, current: int, idle: int,
    mutexes: seq<Mutex>, events: seq<Event>, irql: nat, reschedule: bool)

  predicate IsThread(k: Kernel, t: int) {
    0 <= t < |k.threads|
  }

  predicate IsMutex(k: Kernel, m: int) {
    0 <= m < |k.mutexes|
  }

  predicate IsEvent(k: Kernel, e: int) {
    0 <= e < |k.events|
  }

  predicate AreThreads(k: Kernel, q: seq<int>) {
    forall i | 0 <= i < |q| :: IsThread(k, q[i])
  }

  /** Every index names something, and priorities are in range. */
  ghost predicate WellFormed(k: Kernel) {
    && |k.threads| <= MAX_THREADS && |k.queues| == MAX_PRIORITY
    && IsThread(k, k.idle) && (k.current == NONE || IsThread(k, k.current))
    && (forall t | IsThread(k, t) ::
          && k.threads[t].basePriority <= k.threads[t].priority <= TOP_PRIORITY
          && (k.threads[t].waiting == NONE || IsMutex(k, k.threads[t].waiting))
          && (k.threads[t].owned == NONE || IsMutex(k, k.threads[t].owned)))
    && (forall p | 0 <= p < MAX_PRIORITY :: AreThreads(k, k.queues[p]))
    && (forall m | IsMutex(k, m) ::
          (k.mutexes[m].owner == NONE || IsThread(k, k.mutexes[m].owner)) && AreThreads(k, k.mutexes[m].waiters))
    && (forall e | IsEvent(k, e) :: AreThreads(k, k.events[e].waiters))
  }

  function WithThread(k: Kernel, t: int, th: Thread): Kernel
    requires IsThread(k, t)
  {
    k.(threads := k.threads[t := th])
  }

  function WithState(k: Kernel, t: int, s: ThreadState): Kernel
    requires IsThread(k, t)
  {
    WithThread(k, t, k.threads[t].(state := s))
  }

  function WithQueue(k: Kernel, p: nat, q: seq<int>): Kernel
    requires p < |k.queues|
  {
    k.(queues := k.queues[p := q])
  }

  /** ReadyThread: to the tail of the queue of its priority. */
  function Enqueued(k: Kernel, t: int): Kernel
    requires WellFormed(k) && IsThread(k, t)
  {
    var p := k.threads[t].priority;
    WithQueue(k, p, k.queues[p] + [t])
  }

  function MadeReady(k: Kernel, t: int): Kernel
    requires WellFormed(k) && IsThread(k, t)
  {
    Enqueued(WithState(k, t, Ready), t)
  }

  /** CheckPreemption */
  function PreemptionChecked(k: Kernel, t: int): Kernel
    requires WellFormed(k) && IsThread(k, t)
  {
    if k.current != NONE && k.threads[t].priority > k.threads[k.current].priority then k.(reschedule := true) else k
  }

  // ----- Updates keep indices meaningful -----

  predicate ThreadOk(k: Kernel, th: Thread) {
    && th.basePriority <= th.priority <= TOP_PRIORITY
    && (th.waiting == NONE || IsMutex(k, th.waiting))
    && (th.owned == NONE || IsMutex(k, th.owned))
  }

  lemma ThreadWellFormed(k: Kernel, t: int, th: Thread)
    requires WellFormed(k) && IsThread(k, t) && ThreadOk(k, th)
    ensures WellFormed(WithThread(k, t, th))
  {
    SameIndices(k, WithThread(k, t, th));
  }

  lemma QueueWellFormed(k: Kernel, p: nat, q: seq<int>)
    requires WellFormed(k) && p < MAX_PRIORITY && AreThreads(k, q)
    ensures WellFormed(WithQueue(k, p, q))
  {
    SameIndices(k, WithQueue(k, p, q));
  }

  lemma MutexWellFormed(k: Kernel, m: int, mu: Mutex)
    requires WellFormed(k) && IsMutex(k, m) && AreThreads(k, mu.waiters)
    requires mu.owner == NONE || IsThread(k, mu.owner)
    ensures WellFormed(k.(mutexes := k.mutexes[m := mu]))
  {
    SameIndices(k, k.(mutexes := k.mutexes[m := mu]));
  }

  lemma EventWellFormed(k: Kernel, e: int, ev: Event)
    requires WellFormed(k) && IsEvent(k, e) && AreThreads(k, ev.waiters)
    ensures WellFormed(k.(events := k.events[e := ev]))
  {
    SameIndices(k, k.(events := k.events[e := ev]));
  }

  lemma SameIndices(k: Kernel, k': Kernel)
    requires |k.threads| == |k'.threads|
    ensures forall q: seq<int> :: AreThreads(k, q) == AreThreads(k', q)
  {
  }

  lemma EnqueuedWellFormed(k: Kernel, t: int)
    requires WellFormed(k) && IsThread(k, t)
    ensures WellFormed(Enqueued(k, t))
  {
    var p := k.threads[t].priority;
    assert AreThreads(k, k.queues[p]);
    QueueWellFormed(k, p, k.queues[p] + [t]);
  }

  // ----- Picking and scheduling -----

  /** The highest priority at or below p with a queued thread, or NONE. */
  function HighestQueued(queues: seq<seq<int>>, p: nat): (r: int)
    requires p < |queues|
    ensures NONE <= r <= p
    ensures r != NONE ==> |queues[r]| > 0
    ensures forall q | r < q <= p :: queues[q] == []
  {
    if queues[p] != [] then p else if p == 0 then NONE else HighestQueued(queues, p - 1)
  }

  function Queued(queues: seq<seq<int>>): nat {
    if queues == [] then 0 else |queues[0]| + Queued(queues[1..])
  }

  lemma PopCounts(queues: seq<seq<int>>, p: nat)
    requires p < |queues| && queues[p] != []
    ensures Queued(queues[p := queues[p][1..]]) == Queued(queues) - 1
  {
    if p == 0 {
      assert queues[p := queues[p][1..]][1..] == queues[1..];
    } else {
      PopCounts(queues[1..], p - 1);
      assert queues[p := queues[p][1..]][1..] == queues[1..][p - 1 := queues[1..][p - 1][1..]];
    }
  }

  /** PickNextThread: pop from the highest queue until a thread that has not terminated, else the idle thread. */
  function PickNext(k: Kernel): (r: (Kernel, int))
    requires WellFormed(k)
    ensures IsThread(k, r.1) && |r.0.queues| == MAX_PRIORITY && r.0 == k.(queues := r.0.queues)
    decreases Queued(k.queues)
  {
    var p := HighestQueued(k.queues, MAX_PRIORITY - 1);
    if p == NONE then (k, k.idle)
    else
      var t := k.queues[p][0];
      var k1 := WithQueue(k, p, k.queues[p][1..]);
      assert AreThreads(k, k.queues[p]) && t in k.queues[p];
      if k.threads[t].state != Terminated then (k1, t)
      else
        PopCounts(k.queues, p);
        PopWellFormed(k, p);
        PickNext(k1)
  }

  lemma PopWellFormed(k: Kernel, p: nat)
    requires WellFormed(k) && p < MAX_PRIORITY && k.queues[p] != []
    ensures WellFormed(WithQueue(k, p, k.queues[p][1..]))
  {
    assert AreThreads(k, k.queues[p]);
    assert AreThreads(k, k.queues[p][1..]) by {
      assert forall t | t in k.queues[p][1..] :: t in k.queues[p];
    }
    QueueWellFormed(k, p, k.queues[p][1..]);
  }

  lemma {:induction false} PickWellFormed(k: Kernel)
    requires WellFormed(k)
    ensures WellFormed(PickNext(k).0)
    decreases Queued(k.queues)
  {
    var p := HighestQueued(k.queues, MAX_PRIORITY - 1);
    if p != NONE {
      PopWellFormed(k, p);
      var t := k.queues[p][0];
      assert AreThreads(k, k.queues[p]) && t in k.queues[p];
      if k.threads[t].state == Terminated {
        PopCounts(k.queues, p);
        PickWellFormed(WithQueue(k, p, k.queues[p][1..]));
      }
    }
  }

  lemma MadeReadyWellFormed(k: Kernel, t: int)
    requires WellFormed(k) && IsThread(k, t)
    ensures WellFormed(MadeReady(k, t))
  {
    ThreadWellFormed(k, t, k.threads[t].(state := Ready));
    EnqueuedWellFormed(WithState(k, t, Ready), t);
  }

  /** What Schedule does once it has picked: a RUNNING current thread goes back to the ready queues. */
  function SwitchedTo(k: Kernel, next: int): (k': Kernel)
    requires WellFormed(k) && IsThread(k, next)
    ensures WellFormed(k')
  {
    var preempts := k.current != NONE && k.threads[k.current].state == Running;
    var k1 := if preempts then MadeReady(k, k.current) else k;
    assert WellFormed(k1) by { if preempts { MadeReadyWellFormed(k, k.current); } }
    ThreadWellFormed(k1, next, k1.threads[next].(state := Running));
    WithState(k1, next, Running).(current := next)
  }

  /** Schedule. When the pick is the current thread it returns early, leaving that thread out of the queues. */
  function Schedule(k: Kernel): (k': Kernel)
    requires WellFormed(k)
    ensures WellFormed(k')
  {
    if k.irql >= DISPATCH_LEVEL then k
    else
      PickWellFormed(k);
      var (k1, next) := PickNext(k);
      if k.current == next then k1 else SwitchedTo(k1, next)
  }

  function TimerDpc(k: Kernel): (k': Kernel)
    requires WellFormed(k)
    ensures WellFormed(k')
  {
    var t := k.current;
    if t == NONE || t == k.idle || k.threads[t].state != Running then k
    else
      var th := k.threads[t].(quantum := k.threads[t].quantum - 1);
      if th.quantum > 0 then
        ThreadWellFormed(k, t, th);
        WithThread(k, t, th)
      else
        ThreadWellFormed(k, t, th.(quantum := QUANTUM));
        MadeReadyWellFormed(WithThread(k, t, th.(quantum := QUANTUM)), t);
        MadeReady(WithThread(k, t, th.(quantum := QUANTUM)), t).(current := NONE, reschedule := true)
  }

  /** CreateThread for anything but the idle routine. */
  function Created(k: Kernel, priority: nat): (k': Kernel)
    requires WellFormed(k) && |k.threads| < MAX_THREADS && priority <= TOP_PRIORITY
    ensures WellFormed(k')
  {
    var t := |k.threads|;
    var k1 := k.(threads := k.threads + [Thread(priority, priority, QUANTUM, Ready, NONE, NONE)]);
    assert WellFormed(k1) by { MoreThreads(k, k1); }
    EnqueuedWellFormed(k1, t);
    PreemptionChecked(Enqueued(k1, t), t)
  }

  lemma MoreThreads(k: Kernel, k': Kernel)
    requires |k.threads| <= |k'.threads|
    ensures forall q: seq<int> | AreThreads(k, q) :: AreThreads(k', q)
  {
  }

  // ----- Priority inheritance -----

  /** How many threads are below priority p: what a boost to p uses up. */
  function Below(threads: seq<Thread>, p: nat): nat {
    if threads == [] then 0 else (if threads[0].priority < p then 1 else 0) + Below(threads[1..], p)
  }

  lemma RaisingLowersBelow(threads: seq<Thread>, t: nat, p: nat)
    requires t < |threads| && threads[t].priority < p
    ensures Below(threads[t := threads[t].(priority := p)], p) < Below(threads, p)
  {
    var raised := threads[t := threads[t].(priority := p)];
    if t > 0 {
      RaisingLowersBelow(threads[1..], t - 1, p);
      assert raised[1..] == threads[1..][t - 1 := threads[t].(priority := p)];
    } else {
      assert raised[1..] == threads[1..];
    }
  }

  /** RemoveFromReadyQueue followed by ReadyThread. */
  function Reinserted(k: Kernel, t: int, oldPriority: nat): (k': Kernel)
    requires WellFormed(k) && IsThread(k, t) && oldPriority < MAX_PRIORITY
    ensures WellFormed(k')
  {
    var q := Removed(k.queues[oldPriority], t);
    assert AreThreads(k, k.queues[oldPriority]);
    RemovedThreads(k, k.queues[oldPriority], t);
    QueueWellFormed(k, oldPriority, q);
    EnqueuedWellFormed(WithQueue(k, oldPriority, q), t);
    Enqueued(WithQueue(k, oldPriority, q), t)
  }

  lemma RemovedElements(q: seq<int>, t: int)
    ensures forall x | x in Removed(q, t) :: x in q
    ensures forall x | x in q && x != t :: x in Removed(q, t)
  {
    if q != [] && q[0] != t {
      RemovedElements(q[1..], t);
    }
  }

  lemma RemovedThreads(k: Kernel, q: seq<int>, t: int)
    requires AreThreads(k, q)
    ensures AreThreads(k, Removed(q, t))
  {
    if q != [] && q[0] != t {
      RemovedThreads(k, q[1..], t);
    }
  }

  /** One link of the chain: the thread's priority rises and, if it is READY, it moves to its new queue. */
  function Raised(k: Kernel, t: int, p: nat): (k': Kernel)
    requires WellFormed(k) && IsThread(k, t) && k.threads[t].priority < p <= TOP_PRIORITY
    ensures WellFormed(k') && k' == k.(threads := k.threads[t := k.threads[t].(priority := p)], queues := k'.queues)
  {
    ThreadWellFormed(k, t, k.threads[t].(priority := p));
    var k1 := WithThread(k, t, k.threads[t].(priority := p));
    if k.threads[t].state == Ready then Reinserted(k1, t, k.threads[t].priority) else k1
  }

  /** The owner of the mutex a thread waits for, or NONE. */
  function BlockedBy(k: Kernel, t: int): (o: int)
    requires WellFormed(k) && IsThread(k, t)
    ensures o == NONE || IsThread(k, o)
  {
    var m := k.threads[t].waiting;
    if m == NONE then NONE else k.mutexes[m].owner
  }

  /** BoostPriorityChain */
  function Boosted(k: Kernel, t: int, p: nat): (k': Kernel)
    requires WellFormed(k) && (t == NONE || IsThread(k, t)) && p <= TOP_PRIORITY
    ensures WellFormed(k') && |k'.threads| == |k.threads|
    decreases Below(k.threads, p)
  {
    if t == NONE || k.threads[t].priority >= p then k
    else
      RaisingLowersBelow(k.threads, t, p);
      Boosted(Raised(k, t, p), BlockedBy(k, t), p)
  }

  /** The position of the first waiter of highest priority. */
  function BestWaiter(threads: seq<Thread>, q: seq<int>): (i: nat)
    requires q != [] && forall j | 0 <= j < |q| :: 0 <= q[j] < |threads|
    ensures i < |q|
    ensures forall j | 0 <= j < |q| :: threads[q[j]].priority <= threads[q[i]].priority
    ensures forall j | 0 <= j < i :: threads[q[j]].priority < threads[q[i]].priority
  {
    if |q| == 1 then 0
    else
      var i := BestWaiter(threads, q[..|q| - 1]);
      if threads[q[|q| - 1]].priority > threads[q[i]].priority then |q| - 1 else i
  }

  function Dropped(q: seq<int>, i: nat): seq<int>
    requires i < |q|
  {
    q[..i] + q[i + 1..]
  }

  // ----- Mutexes -----

  function WithMutex(k: Kernel, m: int, mu: Mutex): Kernel
    requires IsMutex(k, m)
  {
    k.(mutexes := k.mutexes[m := mu])
  }

  /** AcquireMutex by the running thread. A mutex that is taken boosts its owner's chain, then blocks. */
  function Acquired(k: Kernel, m: int): (k': Kernel)
    requires WellFormed(k) && IsMutex(k, m) && k.current != NONE
    ensures WellFormed(k')
  {
    var c := k.current;
    var mu := k.mutexes[m];
    if !mu.locked then
      MutexWellFormed(k, m, mu.(locked := true, owner := c));
      var k1 := WithMutex(k, m, mu.(locked := true, owner := c));
      ThreadWellFormed(k1, c, k1.threads[c].(owned := m));
      WithThread(k1, c, k1.threads[c].(owned := m))
    else
      ThreadWellFormed(k, c, k.threads[c].(waiting := m));
      var k1 := WithThread(k, c, k.threads[c].(waiting := m));
      var k2 := Boosted(k1, mu.owner, k1.threads[c].priority);
      BoostFrame(k1, mu.owner, k1.threads[c].priority);
      BlockedOnMutex(k2, m)
  }

  /** BlockCurrentThread on a mutex's wait queue. */
  function BlockedOnMutex(k: Kernel, m: int): (k': Kernel)
    requires WellFormed(k) && IsMutex(k, m) && k.current != NONE
    ensures WellFormed(k')
  {
    var c := k.current;
    ThreadWellFormed(k, c, k.threads[c].(state := Blocked));
    var k1 := WithState(k, c, Blocked);
    var mu := k1.mutexes[m];
    assert AreThreads(k1, mu.waiters);
    MutexWellFormed(k1, m, mu.(waiters := mu.waiters + [c]));
    WithMutex(k1, m, mu.(waiters := mu.waiters + [c])).(reschedule := true)
  }

  /** ReleaseMutex by its owner, the current thread: back to the base priority, then hand off. */
  function Released(k: Kernel, m: int): (k': Kernel)
    requires WellFormed(k) && IsMutex(k, m) && k.current != NONE && k.mutexes[m].owner == k.current
    ensures WellFormed(k')
  {
    var k1 := Unboosted(k);
    var mu := k.mutexes[m];
    if mu.waiters == [] then
      MutexWellFormed(k1, m, mu.(locked := false, owner := NONE));
      WithMutex(k1, m, mu.(locked := false, owner := NONE))
    else HandedOff(k1, m)
  }

  function Unboosted(k: Kernel): (k': Kernel)
    requires WellFormed(k) && k.current != NONE
    ensures WellFormed(k')
  {
    var c := k.current;
    var th := k.threads[c].(priority := k.threads[c].basePriority, owned := NONE);
    ThreadWellFormed(k, c, th);
    WithThread(k, c, th)
  }

  /** The waiter of highest priority, the longest waiting among equals, becomes owner and READY. */
  function HandedOff(k: Kernel, m: int): (k': Kernel)
    requires WellFormed(k) && IsMutex(k, m) && k.mutexes[m].waiters != []
    ensures WellFormed(k')
  {
    var mu := k.mutexes[m];
    assert AreThreads(k, mu.waiters);
    var i := BestWaiter(k.threads, mu.waiters);
    var next := mu.waiters[i];
    MutexWellFormed(k, m, mu.(owner := next, waiters := Dropped(mu.waiters, i)));
    var k1 := WithMutex(k, m, mu.(owner := next, waiters := Dropped(mu.waiters, i)));
    var th := k1.threads[next].(waiting := NONE, owned := m);
    ThreadWellFormed(k1, next, th);
    var k2 := WithThread(k1, next, th);
    MadeReadyWellFormed(k2, next);
    PreemptionChecked(MadeReady(k2, next), next)
  }

  /** TerminateThread. Only the mutex recorded in owned_mutex is released. */
  function TerminatedThread(k: Kernel, t: int): (k': Kernel)
    requires WellFormed(k) && IsThread(k, t)
    requires k.threads[t].owned != NONE ==> t == k.current && k.mutexes[k.threads[t].owned].owner == t
    ensures WellFormed(k')
  {
    var k1 := if k.threads[t].owned != NONE then Released(k, k.threads[t].owned) else k;
    assert |k1.threads| == |k.threads|;
    var th := k1.threads[t].(owned := NONE, state := Terminated);
    ThreadWellFormed(k1, t, th);
    var k2 := WithThread(k1, t, th);
    if t == k2.current then k2.(reschedule := true) else k2
  }

  // ----- Events -----

  /** WaitEvent by the running thread. */
  function Waited(k: Kernel, e: int): (k': Kernel)
    requires WellFormed(k) && IsEvent(k, e) && k.current != NONE
    ensures WellFormed(k')
  {
    var c := k.current;
    var ev := k.events[e];
    assert AreThreads(k, ev.waiters);
    if ev.signaled then
      EventWellFormed(k, e, ev.(signaled := false));
      k.(events := k.events[e := ev.(signaled := false)])
    else
      ThreadWellFormed(k, c, k.threads[c].(state := Blocked));
      var k1 := WithState(k, c, Blocked);
      EventWellFormed(k1, e, ev.(waiters := ev.waiters + [c]));
      k1.(events := k1.events[e := ev.(waiters := ev.waiters + [c])], reschedule := true)
  }

  /** SignalEvent: wake the highest waiter, or remember the signal. */
  function Signaled(k: Kernel, e: int): (k': Kernel)
    requires WellFormed(k) && IsEvent(k, e)
    ensures WellFormed(k')
  {
    var ev := k.events[e];
    assert AreThreads(k, ev.waiters);
    if ev.waiters == [] then
      EventWellFormed(k, e, ev.(signaled := true));
      k.(events := k.events[e := ev.(signaled := true)])
    else
      var i := BestWaiter(k.threads, ev.waiters);
      var next := ev.waiters[i];
      EventWellFormed(k, e, Event(false, Dropped(ev.waiters, i)));
      var k1 := k.(events := k.events[e := Event(false, Dropped(ev.waiters, i))]);
      MadeReadyWellFormed(k1, next);
      PreemptionChecked(MadeReady(k1, next), next)
  }

  /** A boost changes priorities and queues, nothing else. */
  lemma {:induction false} BoostFrame(k: Kernel, t: int, p: nat)
    requires WellFormed(k) && (t == NONE || IsThread(k, t)) && p <= TOP_PRIORITY
    ensures var k' := Boosted(k, t, p);
            && k' == k.(threads := k'.threads, queues := k'.queues)
            && |k'.threads| == |k.threads|
            && forall x | IsThread(k, x) ::
                 && k'.threads[x] == k.threads[x].(priority := k'.threads[x].priority)
                 && (k'.threads[x].priority == k.threads[x].priority
                     || (k.threads[x].priority < p && k'.threads[x].priority == p))
    decreases Below(k.threads, p)
  {
    if t != NONE && k.threads[t].priority < p {
      RaisingLowersBelow(k.threads, t, p);
      BoostFrame(Raised(k, t, p), BlockedBy(k, t), p);
    }
  }

  // ----- The dispatcher of BlueKernel_lvl2.c -----

  /** Its PickNextThread: the first READY thread of highest priority among the first n, other than idle. */
  function LinearPick(k: Kernel, n: nat): (r: int)
    requires n <= |k.threads|
    ensures r == NONE || (0 <= r < n && r != k.idle && k.threads[r].state == Ready)
    ensures forall t | 0 <= t < n && t != k.idle && k.threads[t].state == Ready ::
              r != NONE && k.threads[t].priority <= k.threads[r].priority
  {
    if n == 0 then NONE
    else
      var best := LinearPick(k, n - 1);
      var t := n - 1;
      if t != k.idle && k.threads[t].state == Ready
         && (best == NONE || k.threads[t].priority > k.threads[best].priority) then t else best
  }

  /** The thread DetectPriorityInversion reports as blocked, or NONE. */
  function DetectedInversion(k: Kernel, m: int, n: nat): (r: int)
    requires WellFormed(k) && IsMutex(k, m) && n <= |k.threads|
    ensures r == NONE || 0 <= r < n
  {
    var owner := k.mutexes[m].owner;
    if n == 0 || owner == NONE then NONE
    else
      var before := DetectedInversion(k, m, n - 1);
      var t := n - 1;
      if before != NONE then before
      else if k.threads[t].state == Blocked && k.threads[t].priority > k.threads[owner].priority
              && exists o | 0 <= o < |k.threads| ::
                   o != t && (k.threads[o].state == Ready || k.threads[o].state == Running)
                   && k.threads[o].priority > k.threads[owner].priority
      then t else NONE
  }
}
