/** Mutexes and priority inheritance in BLUE_KERNEL/BlueKernel_lvl3.c: no waiter outranks the owner it waits
    for, kept by acquire and the boost chain, and by release exactly when the releaser owns no other mutex
    with a waiter above its base priority. */
module Inheritance {
  import opened ReadyQueues
  import opened Kernels
  import opened QueueInvariant
  import opened Scheduling

  /** Waiters of a mutex are blocked on it, waiters of an event are blocked on nothing else, nobody waits
      twice, and a thread marked as waiting is among the waiters (thread x excepted). */
  ghost predicate WaitersOk(k: Kernel, x: int)
    requires WellFormed(k)
  {
    && (forall m | IsMutex(k, m) :: NoDuplicates(k.mutexes[m].waiters))
    && (forall m, t | IsMutex(k, m) && t in k.mutexes[m].waiters ::
          IsThread(k, t) && k.threads[t].state == Blocked && k.threads[t].waiting == m)
    && (forall e | IsEvent(k, e) :: NoDuplicates(k.events[e].waiters))
    && (forall e, t | IsEvent(k, e) && t in k.events[e].waiters ::
          IsThread(k, t) && k.threads[t].state == Blocked && k.threads[t].waiting == NONE)
    && (forall e, e', t | IsEvent(k, e) && IsEvent(k, e') && t in k.events[e].waiters && t in k.events[e'].waiters ::
          e == e')
    && (forall t | IsThread(k, t) && k.threads[t].waiting != NONE && t != x ::
          t in k.mutexes[k.threads[t].waiting].waiters)
  }

  ghost predicate MutexesOk(k: Kernel)
    requires WellFormed(k)
  {
    && (forall m | IsMutex(k, m) ::
          && (k.mutexes[m].locked <==> k.mutexes[m].owner != NONE)
          && (!k.mutexes[m].locked ==> k.mutexes[m].waiters == []))
    && (forall t | IsThread(k, t) && k.threads[t].owned != NONE :: k.mutexes[k.threads[t].owned].owner == t)
  }

  /** No waiter outranks the owner, except that waiters of t may reach p: the boost still under way. */
  ghost predicate NoInversionExcept(k: Kernel, t: int, p: nat)
    requires WellFormed(k)
  {
    forall m, w | IsMutex(k, m) && w in k.mutexes[m].waiters && IsThread(k, w) && k.mutexes[m].owner != NONE ::
      || k.threads[w].priority <= k.threads[k.mutexes[m].owner].priority
      || (k.mutexes[m].owner == t && k.threads[w].priority <= p)
  }

  ghost predicate NoInversion(k: Kernel)
    requires WellFormed(k)
  {
    forall m, w | IsMutex(k, m) && w in k.mutexes[m].waiters && IsThread(k, w) && k.mutexes[m].owner != NONE ::
      k.threads[w].priority <= k.threads[k.mutexes[m].owner].priority
  }

  ghost predicate KernelInvariant(k: Kernel) {
    && DispatchInvariant(k) && WaitersOk(k, NONE) && MutexesOk(k) && ReadyOwnersQueued(k)
    && NoInversion(k)
  }

  // ----- BoostPriorityChain -----

  lemma RaisedOwner(k: Kernel, m: int, p: nat)
    requires DispatchInvariant(k) && ReadyOwnersQueued(k) && IsMutex(k, m) && k.mutexes[m].owner != NONE
    requires k.threads[k.mutexes[m].owner].priority < p <= TOP_PRIORITY
    ensures var k' := Raised(k, k.mutexes[m].owner, p); DispatchInvariant(k') && ReadyOwnersQueued(k')
  {
    var t := k.mutexes[m].owner;
    if k.threads[t].state == Ready {
      RaisedReady(k, t, p);
      RemovedElements(k.queues[k.threads[t].priority], t);
      hide QueuesOk, ReadyQueued;
    } else {
      RaisedElsewhere(k, t, p);
      hide QueuesOk, ReadyQueued;
    }
  }

  lemma RaisedPassesOn(k: Kernel, m: int, p: nat)
    requires WellFormed(k) && IsMutex(k, m) && k.mutexes[m].owner != NONE
    requires k.threads[k.mutexes[m].owner].priority < p <= TOP_PRIORITY
    requires forall n, w | IsMutex(k, n) && w in k.mutexes[n].waiters :: IsThread(k, w) && k.threads[w].waiting == n
    requires NoInversionExcept(k, k.mutexes[m].owner, p)
    ensures NoInversionExcept(Raised(k, k.mutexes[m].owner, p), BlockedBy(k, k.mutexes[m].owner), p)
  {
  }

  /** The boost keeps the queues in order and leaves no waiter above its owner, on every wait-for graph,
      cyclic ones included; its measure is the number of threads below the new priority. */
  lemma {:induction false} BoostKeeps(k: Kernel, m: int, p: nat)
    requires DispatchInvariant(k) && ReadyOwnersQueued(k) && IsMutex(k, m) && p <= TOP_PRIORITY
    requires forall n, w | IsMutex(k, n) && w in k.mutexes[n].waiters :: IsThread(k, w) && k.threads[w].waiting == n
    requires forall n | IsMutex(k, n) && k.mutexes[n].owner == NONE :: k.mutexes[n].waiters == []
    requires NoInversionExcept(k, k.mutexes[m].owner, p)
    ensures var k' := Boosted(k, k.mutexes[m].owner, p);
            DispatchInvariant(k') && ReadyOwnersQueued(k') && NoInversion(k')
    decreases Below(k.threads, p)
  {
    var t := k.mutexes[m].owner;
    hide DispatchInvariant, ReadyOwnersQueued;
    if t == NONE || k.threads[t].priority >= p {
      assert NoInversion(k);
    } else {
      RaisingLowersBelow(k.threads, t, p);
      RaisedOwner(k, m, p);
      RaisedPassesOn(k, m, p);
      var n := k.threads[t].waiting;
      if n == NONE {
        assert Boosted(k, t, p) == Raised(k, t, p);
        assert NoInversion(Raised(k, t, p));
      } else {
        BoostKeeps(Raised(k, t, p), n, p);
      }
    }
  }

  // ----- AcquireMutex -----

  lemma AcquireFreeKeeps(k: Kernel, m: int)
    requires KernelInvariant(k) && IsMutex(k, m) && k.current != NONE && !k.mutexes[m].locked
    requires k.threads[k.current].state == Running
    ensures KernelInvariant(Acquired(k, m))
  {
    AcquireFreeDispatch(k, m);
    AcquireFreeMutexes(k, m);
    hide Acquired, DispatchInvariant, WaitersOk, MutexesOk, ReadyOwnersQueued, NoInversion;
  }

  lemma AcquireFreeDispatch(k: Kernel, m: int)
    requires DispatchInvariant(k) && ReadyOwnersQueued(k) && IsMutex(k, m) && k.current != NONE
    requires !k.mutexes[m].locked && k.threads[k.current].state == Running
    ensures DispatchInvariant(Acquired(k, m)) && ReadyOwnersQueued(Acquired(k, m))
  {
    hide NoDuplicates, QueuesOk, ReadyQueued;
    DispatchSame(k, Acquired(k, m));
  }

  /** A free mutex has no waiters and no owner. */
  lemma AcquireFreeMutexes(k: Kernel, m: int)
    requires WellFormed(k) && WaitersOk(k, NONE) && MutexesOk(k) && NoInversion(k)
    requires IsMutex(k, m) && k.current != NONE && !k.mutexes[m].locked
    ensures WaitersOk(Acquired(k, m), NONE) && MutexesOk(Acquired(k, m)) && NoInversion(Acquired(k, m))
  {
    hide NoDuplicates;
  }

  lemma BlockKeeps(k: Kernel, m: int)
    requires DispatchInvariant(k) && WaitersOk(k, k.current) && MutexesOk(k) && ReadyOwnersQueued(k) && NoInversion(k)
    requires IsMutex(k, m) && k.current != NONE && k.mutexes[m].locked
    requires k.threads[k.current].state == Running && k.threads[k.current].waiting == m
    requires k.threads[k.current].priority <= k.threads[k.mutexes[m].owner].priority
    ensures KernelInvariant(BlockedOnMutex(k, m))
    ensures |k.mutexes[m].waiters| < MAX_THREADS
  {
    BlockedFits(k, m);
    BlockedDispatch(k, m);
    BlockedWaiters(k, m);
    BlockedOrder(k, m);
    hide DispatchInvariant, WaitersOk, MutexesOk, ReadyOwnersQueued, NoInversion, BlockedOnMutex;
  }

  /** The running thread waits nowhere yet. */
  lemma BlockedFits(k: Kernel, m: int)
    requires WellFormed(k) && WaitersOk(k, k.current) && IsMutex(k, m) && k.current != NONE
    requires k.threads[k.current].state == Running
    ensures |k.mutexes[m].waiters| < MAX_THREADS && NoDuplicates(k.mutexes[m].waiters + [k.current])
  {
    var q := k.mutexes[m].waiters;
    assert AreThreads(k, q) && k.current !in q && NoDuplicates(q);
    hide NoDuplicates;
    RoomFor(k, q, k.current);
    AppendDistinct(q, k.current);
  }

  lemma BlockedOrder(k: Kernel, m: int)
    requires WellFormed(k) && MutexesOk(k) && NoInversion(k) && IsMutex(k, m) && k.current != NONE
    requires k.mutexes[m].locked && k.threads[k.current].priority <= k.threads[k.mutexes[m].owner].priority
    ensures MutexesOk(BlockedOnMutex(k, m)) && NoInversion(BlockedOnMutex(k, m))
  {
  }

  lemma BlockedDispatch(k: Kernel, m: int)
    requires DispatchInvariant(k) && IsMutex(k, m) && k.current != NONE && ReadyOwnersQueued(k)
    requires k.threads[k.current].state == Running
    ensures DispatchInvariant(BlockedOnMutex(k, m)) && ReadyOwnersQueued(BlockedOnMutex(k, m))
  {
    hide NoDuplicates;
    NotReadyUnqueued(k, k.current);
    assert QueuesOk(BlockedOnMutex(k, m));
  }

  lemma BlockedWaiters(k: Kernel, m: int)
    requires WellFormed(k) && WaitersOk(k, k.current) && IsMutex(k, m) && k.current != NONE
    requires k.threads[k.current].state == Running && k.threads[k.current].waiting == m
    requires NoDuplicates(k.mutexes[m].waiters + [k.current])
    ensures WaitersOk(BlockedOnMutex(k, m), NONE)
  {
    hide NoDuplicates;
  }

  /** AcquireMutex keeps every invariant; in particular nobody waits for an owner of lower priority. */
  lemma AcquireKeeps(k: Kernel, m: int)
    requires KernelInvariant(k) && IsMutex(k, m) && k.current != NONE && k.threads[k.current].state == Running
    ensures KernelInvariant(Acquired(k, m))
  {
    if !k.mutexes[m].locked {
      AcquireFreeKeeps(k, m);
    } else {
      var c := k.current;
      var p := k.threads[c].priority;
      var k1 := WithThread(k, c, k.threads[c].(waiting := m));
      ThreadWellFormed(k, c, k1.threads[c]);
      WaitingMarked(k, m);
      BoostKeeps(k1, m, p);
      BoostFrame(k1, k.mutexes[m].owner, p);
      var k2 := Boosted(k1, k.mutexes[m].owner, p);
      BoostedWaiters(k1, k2, c);
      BoostReaches(k1, k.mutexes[m].owner, p);
      BlockKeeps(k2, m);
    }
  }

  lemma WaitingMarked(k: Kernel, m: int)
    requires KernelInvariant(k) && IsMutex(k, m) && k.current != NONE && k.threads[k.current].state == Running
    ensures var c := k.current;
            var k1 := WithThread(k, c, k.threads[c].(waiting := m));
            && DispatchInvariant(k1) && WaitersOk(k1, c) && MutexesOk(k1) && ReadyOwnersQueued(k1) && NoInversion(k1)
  {
    hide NoDuplicates;
    var c := k.current;
    var k1 := WithThread(k, c, k.threads[c].(waiting := m));
    ThreadWellFormed(k, c, k1.threads[c]);
    DispatchSame(k, k1);
  }

  lemma BoostedWaiters(k: Kernel, k': Kernel, c: int)
    requires WellFormed(k) && WellFormed(k') && WaitersOk(k, c) && MutexesOk(k)
    requires k' == k.(threads := k'.threads, queues := k'.queues) && |k'.threads| == |k.threads|
    requires forall x | IsThread(k, x) :: k'.threads[x] == k.threads[x].(priority := k'.threads[x].priority)
    ensures WaitersOk(k', c) && MutexesOk(k')
  {
    hide NoDuplicates;
  }

  lemma {:induction false} BoostReaches(k: Kernel, t: int, p: nat)
    requires WellFormed(k) && IsThread(k, t) && p <= TOP_PRIORITY
    ensures Boosted(k, t, p).threads[t].priority >= p
  {
    if k.threads[t].priority < p {
      RaisingLowersBelow(k.threads, t, p);
      BoostFrame(Raised(k, t, p), BlockedBy(k, t), p);
    }
  }

  // ----- ReleaseMutex -----

  /** Every waiter on another mutex of the releaser is at or below the releaser's base priority. */
  ghost predicate ReleaseSafe(k: Kernel, m: int)
    requires WellFormed(k) && k.current != NONE
  {
    forall n, w | IsMutex(k, n) && n != m && k.mutexes[n].owner == k.current
                  && w in k.mutexes[n].waiters && IsThread(k, w) ::
      k.threads[w].priority <= k.threads[k.current].basePriority
  }

  lemma UnboostedKeeps(k: Kernel)
    requires KernelInvariant(k) && k.current != NONE && k.threads[k.current].state == Running
    ensures var k1 := Unboosted(k);
            DispatchInvariant(k1) && WaitersOk(k1, NONE) && MutexesOk(k1) && ReadyOwnersQueued(k1)
  {
    UnboostedDispatch(k);
    UnboostedMutexes(k);
    hide DispatchInvariant, WaitersOk, MutexesOk, ReadyOwnersQueued, NoInversion, Unboosted;
  }

  /** The releaser is RUNNING, so its priority is nobody's queue position. */
  lemma UnboostedDispatch(k: Kernel)
    requires DispatchInvariant(k) && ReadyOwnersQueued(k) && k.current != NONE
    requires k.threads[k.current].state == Running
    ensures DispatchInvariant(Unboosted(k)) && ReadyOwnersQueued(Unboosted(k))
  {
    hide NoDuplicates;
    NotReadyUnqueued(k, k.current);
    assert QueuesOk(Unboosted(k));
  }

  lemma UnboostedMutexes(k: Kernel)
    requires WellFormed(k) && WaitersOk(k, NONE) && MutexesOk(k) && k.current != NONE
    requires k.threads[k.current].state == Running
    ensures WaitersOk(Unboosted(k), NONE) && MutexesOk(Unboosted(k))
  {
    hide NoDuplicates;
  }

  lemma UnlockKeeps(k: Kernel, m: int)
    requires DispatchInvariant(k) && WaitersOk(k, NONE) && MutexesOk(k) && ReadyOwnersQueued(k)
    requires IsMutex(k, m) && k.mutexes[m].waiters == [] && k.current != NONE && k.mutexes[m].owner == k.current
    requires k.threads[k.current].owned == NONE
    ensures var k' := WithMutex(k, m, k.mutexes[m].(locked := false, owner := NONE));
            WellFormed(k') && DispatchInvariant(k') && WaitersOk(k', NONE) && MutexesOk(k') && ReadyOwnersQueued(k')
  {
    hide NoDuplicates;
    var k' := WithMutex(k, m, k.mutexes[m].(locked := false, owner := NONE));
    MutexWellFormed(k, m, k.mutexes[m].(locked := false, owner := NONE));
    DispatchSame(k, k');
  }

  lemma DroppedDistinct(q: seq<int>, i: nat)
    requires NoDuplicates(q) && i < |q|
    ensures NoDuplicates(Dropped(q, i))
    ensures forall x :: x in Dropped(q, i) <==> x in q && x != q[i]
  {
    var d := Dropped(q, i);
    assert forall j | 0 <= j < |d| :: d[j] == if j < i then q[j] else q[j + 1];
    forall x | x in q && x != q[i] ensures x in d {
      var j :| 0 <= j < |q| && q[j] == x;
      assert d[if j < i then j else j - 1] == x;
    }
  }

  /** The hand-off before the new owner becomes READY. */
  function Granted(k: Kernel, m: int): (k': Kernel)
    requires WellFormed(k) && IsMutex(k, m) && k.mutexes[m].waiters != []
    ensures WellFormed(k')
  {
    var mu := k.mutexes[m];
    assert AreThreads(k, mu.waiters);
    var i := BestWaiter(k.threads, mu.waiters);
    var next := mu.waiters[i];
    MutexWellFormed(k, m, mu.(owner := next, waiters := Dropped(mu.waiters, i)));
    var k1 := WithMutex(k, m, mu.(owner := next, waiters := Dropped(mu.waiters, i)));
    var th := k1.threads[next].(waiting := NONE, owned := m);
    ThreadWellFormed(k1, next, th);
    WithThread(k1, next, th)
  }

  /** Everything but thread x's own state is in order, and x waits for nothing and is in no queue. */
  ghost predicate ReadyToWake(k: Kernel, x: int) {
    && DispatchInvariant(k) && IsThread(k, x) && k.threads[x].waiting == NONE
    && (k.threads[x].state == Blocked || k.threads[x].state == Running)
    && WaitersOk(k, NONE) && MutexesOk(k) && ReadyOwnersQueued(k)
    && (forall m | IsMutex(k, m) :: x !in k.mutexes[m].waiters)
    && (forall e | IsEvent(k, e) :: x !in k.events[e].waiters)
  }

  lemma GrantedKeeps(k: Kernel, m: int)
    requires DispatchInvariant(k) && WaitersOk(k, NONE) && MutexesOk(k) && ReadyOwnersQueued(k)
    requires IsMutex(k, m) && k.mutexes[m].waiters != []
    requires k.mutexes[m].owner != NONE && k.threads[k.mutexes[m].owner].owned != m
    ensures var k' := Granted(k, m);
            ReadyToWake(k', k'.mutexes[m].owner)
  {
    GrantedDispatch(k, m);
    GrantedWaiters(k, m);
    hide DispatchInvariant, WaitersOk, MutexesOk, ReadyOwnersQueued, Granted;
  }

  /** The hand-off moves nobody between ready queues, and the waiter is BLOCKED. */
  lemma GrantedDispatch(k: Kernel, m: int)
    requires DispatchInvariant(k) && WaitersOk(k, NONE) && ReadyOwnersQueued(k)
    requires IsMutex(k, m) && k.mutexes[m].waiters != []
    ensures var k' := Granted(k, m);
            && DispatchInvariant(k') && ReadyOwnersQueued(k')
            && IsThread(k', k'.mutexes[m].owner) && k'.threads[k'.mutexes[m].owner].state == Blocked
            && k'.threads[k'.mutexes[m].owner].waiting == NONE
  {
    hide NoDuplicates, QueuesOk, ReadyQueued;
    var q := k.mutexes[m].waiters;
    assert AreThreads(k, q);
    assert q[BestWaiter(k.threads, q)] in q;
    DispatchSame(k, Granted(k, m));
  }

  lemma GrantedWaiters(k: Kernel, m: int)
    requires WellFormed(k) && WaitersOk(k, NONE) && MutexesOk(k)
    requires IsMutex(k, m) && k.mutexes[m].waiters != []
    requires k.mutexes[m].owner != NONE && k.threads[k.mutexes[m].owner].owned != m
    ensures var k' := Granted(k, m);
            var next := k'.mutexes[m].owner;
            && WaitersOk(k', NONE) && MutexesOk(k')
            && (forall n | IsMutex(k', n) :: next !in k'.mutexes[n].waiters)
            && (forall e | IsEvent(k', e) :: next !in k'.events[e].waiters)
  {
    hide NoDuplicates;
    var q := k.mutexes[m].waiters;
    assert AreThreads(k, q) && NoDuplicates(q);
    var i := BestWaiter(k.threads, q);
    assert q[i] in q;
    DroppedDistinct(q, i);
    assert WaitersOk(Granted(k, m), NONE);
  }

  lemma WakeKeeps(k: Kernel, x: int)
    requires ReadyToWake(k, x)
    ensures var k' := MadeReady(k, x);
            && DispatchInvariant(k') && WaitersOk(k', NONE) && MutexesOk(k') && ReadyOwnersQueued(k')
            && |k.queues[k.threads[x].priority]| < MAX_THREADS
  {
    WokenMutexes(k, x);
    hide WaitersOk, MutexesOk, NoDuplicates;
    NotReadyUnqueued(k, x);
    MadeReadyOk(k, x);
    hide QueuesOk, ReadyQueued;
    assert ReadyOwnersQueued(MadeReady(k, x));
  }

  lemma WokenMutexes(k: Kernel, x: int)
    requires ReadyToWake(k, x)
    ensures WellFormed(MadeReady(k, x)) && WaitersOk(MadeReady(k, x), NONE) && MutexesOk(MadeReady(k, x))
  {
    hide NoDuplicates, QueuesOk, ReadyQueued, ReadyOwnersQueued;
    MadeReadyWellFormed(k, x);
  }

  lemma RescheduleIrrelevant(k: Kernel, k': Kernel)
    requires k' == k.(reschedule := k'.reschedule) && DispatchInvariant(k)
    requires WaitersOk(k, NONE) && MutexesOk(k) && ReadyOwnersQueued(k)
    ensures DispatchInvariant(k') && WaitersOk(k', NONE) && MutexesOk(k') && ReadyOwnersQueued(k')
    ensures NoInversion(k) == NoInversion(k')
  {
    hide NoDuplicates;
  }

  /** ReleaseMutex keeps everything but the priority order unconditionally. */
  lemma ReleaseKeepsShape(k: Kernel, m: int)
    requires KernelInvariant(k) && IsMutex(k, m) && k.current != NONE && k.mutexes[m].owner == k.current
    requires k.threads[k.current].state == Running
    ensures var k' := Released(k, m);
            DispatchInvariant(k') && WaitersOk(k', NONE) && MutexesOk(k') && ReadyOwnersQueued(k')
  {
    var k1 := Unboosted(k);
    UnboostedKeeps(k);
    if k.mutexes[m].waiters == [] {
      UnlockKeeps(k1, m);
    } else {
      GrantedKeeps(k1, m);
      var k2 := Granted(k1, m);
      var next := k2.mutexes[m].owner;
      WakeKeeps(k2, next);
      assert HandedOff(k1, m) == PreemptionChecked(MadeReady(k2, next), next);
      RescheduleIrrelevant(MadeReady(k2, next), HandedOff(k1, m));
    }
  }

  /** What ReleaseMutex does to priorities and to the mutexes. */
  lemma ReleaseEffect(k: Kernel, m: int)
    requires WellFormed(k) && IsMutex(k, m) && k.current != NONE && k.mutexes[m].owner == k.current
    ensures var k' := Released(k, m);
            && |k'.threads| == |k.threads| && |k'.mutexes| == |k.mutexes| && k'.current == k.current && k'.events == k.events
            && (forall x | IsThread(k, x) :: k'.threads[x].priority ==
                  if x == k.current then k.threads[x].basePriority else k.threads[x].priority)
            && (forall n | IsMutex(k, n) && n != m :: k'.mutexes[n] == k.mutexes[n])
            && (k.mutexes[m].waiters == [] ==> k'.mutexes[m] == Mutex(false, NONE, []))
  {
  }

  lemma HandOffOrder(k: Kernel, m: int)
    requires WellFormed(k) && IsMutex(k, m) && k.mutexes[m].waiters != []
    ensures var k' := HandedOff(k, m);
            && IsThread(k, k'.mutexes[m].owner)
            && forall w | w in k'.mutexes[m].waiters ::
                 w in k.mutexes[m].waiters && IsThread(k, w)
                 && k.threads[w].priority <= k.threads[k'.mutexes[m].owner].priority
  {
    var q := k.mutexes[m].waiters;
    assert AreThreads(k, q);
    var i := BestWaiter(k.threads, q);
    forall w | w in Dropped(q, i) ensures w in q && k.threads[w].priority <= k.threads[q[i]].priority {
      var j :| 0 <= j < |Dropped(q, i)| && Dropped(q, i)[j] == w;
      assert w == q[if j < i then j else j + 1];
    }
  }

  /** ReleaseMutex leaves no waiter above its owner exactly when the releaser owns no other mutex with a
      waiter above its base priority. */
  lemma ReleaseKeepsIff(k: Kernel, m: int)
    requires KernelInvariant(k) && IsMutex(k, m) && k.current != NONE && k.mutexes[m].owner == k.current
    requires k.threads[k.current].state == Running
    ensures KernelInvariant(Released(k, m)) <==> ReleaseSafe(k, m)
  {
    ReleaseKeepsShape(k, m);
    ReleaseOrderIff(k, m);
  }

  lemma ReleaseOrderIff(k: Kernel, m: int)
    requires WellFormed(k) && WaitersOk(k, NONE) && NoInversion(k)
    requires IsMutex(k, m) && k.current != NONE && k.mutexes[m].owner == k.current
    requires k.threads[k.current].state == Running
    ensures NoInversion(Released(k, m)) <==> ReleaseSafe(k, m)
  {
    hide Released;
    ReleaseEffect(k, m);
    if k.mutexes[m].waiters != [] {
      ReleaseHandOff(k, m);
    }
    OrderAfterRelease(k, Released(k, m), m);
  }

  lemma OrderAfterRelease(k: Kernel, k': Kernel, m: int)
    requires WellFormed(k) && WellFormed(k') && WaitersOk(k, NONE) && NoInversion(k)
    requires IsMutex(k, m) && k.current != NONE && k.mutexes[m].owner == k.current
    requires k.threads[k.current].state == Running
    requires |k'.threads| == |k.threads| && |k'.mutexes| == |k.mutexes|
    requires forall x | IsThread(k, x) :: k'.threads[x].priority ==
               if x == k.current then k.threads[x].basePriority else k.threads[x].priority
    requires forall n | IsMutex(k, n) && n != m :: k'.mutexes[n] == k.mutexes[n]
    requires forall w | w in k'.mutexes[m].waiters ::
               IsThread(k', w) && IsThread(k', k'.mutexes[m].owner)
               && k'.threads[w].priority <= k'.threads[k'.mutexes[m].owner].priority
    ensures NoInversion(k') <==> ReleaseSafe(k, m)
  {
    hide NoDuplicates;
    assert forall n, w | IsMutex(k, n) && w in k.mutexes[n].waiters ::
        w != k.current && IsThread(k, w) && k'.threads[w].priority == k.threads[w].priority;
    if !ReleaseSafe(k, m) {
      var n, w :| IsMutex(k, n) && n != m && k.mutexes[n].owner == k.current && w in k.mutexes[n].waiters
                  && IsThread(k, w) && k.threads[w].priority > k.threads[k.current].basePriority;
      assert w in k'.mutexes[n].waiters;
    }
  }

  lemma ReleaseHandOff(k: Kernel, m: int)
    requires WellFormed(k) && WaitersOk(k, NONE)
    requires IsMutex(k, m) && k.current != NONE && k.mutexes[m].owner == k.current && k.mutexes[m].waiters != []
    requires k.threads[k.current].state == Running
    ensures var k' := Released(k, m);
            && IsThread(k', k'.mutexes[m].owner)
            && forall w | w in k'.mutexes[m].waiters ::
                 IsThread(k', w) && k'.threads[w].priority <= k'.threads[k'.mutexes[m].owner].priority
  {
    hide NoDuplicates;
    HandOffOrder(Unboosted(k), m);
    ReleaseEffect(k, m);
    var q := k.mutexes[m].waiters;
    assert AreThreads(k, q);
    assert Released(k, m) == HandedOff(Unboosted(k), m);
    assert forall x | IsThread(k, x) :: Released(k, m).threads[x].priority == Unboosted(k).threads[x].priority;
  }

  /** A thread that owns two mutexes: releasing the first drops it below the waiter of the second. */
  function TwoMutexes(): Kernel {
    Kernel([Thread(0, 0, QUANTUM, Ready, NONE, NONE), Thread(5, 1, QUANTUM, Running, 1, NONE),
            Thread(5, 5, QUANTUM, Blocked, NONE, 1)],
           seq(MAX_PRIORITY, p => []), 1, 0,
           [Mutex(true, 1, []), Mutex(true, 1, [2])], [], PASSIVE_LEVEL, false)
  }

  lemma TwoMutexesInvert()
    ensures KernelInvariant(TwoMutexes()) && !NoInversion(Released(TwoMutexes(), 0))
  {
    var k := TwoMutexes();
    TwoMutexesInvariant();
    assert 2 in k.mutexes[1].waiters && !ReleaseSafe(k, 0);
    hide Released, TwoMutexes;
    ReleaseOrderIff(k, 0);
  }

  lemma TwoMutexesInvariant()
    ensures KernelInvariant(TwoMutexes())
  {
    TwoMutexesShape();
    TwoMutexesWaiters();
    hide DispatchInvariant, WaitersOk;
  }

  lemma TwoMutexesShape()
    ensures DispatchInvariant(TwoMutexes())
  {
    var k := TwoMutexes();
    assert forall p | 0 <= p < MAX_PRIORITY :: k.queues[p] == [];
    assert AreThreads(k, [2]);
  }

  lemma TwoMutexesWaiters()
    ensures WellFormed(TwoMutexes()) && WaitersOk(TwoMutexes(), NONE)
  {
    TwoMutexesShape();
    hide DispatchInvariant;
    assert NoDuplicates([2]);
  }

  /** The source's own check never blames a thread that waits on the mutex it checks. */
  lemma {:induction false} DetectionBlamesNoWaiter(k: Kernel, m: int, n: nat)
    requires KernelInvariant(k) && IsMutex(k, m) && n <= |k.threads|
    ensures var t := DetectedInversion(k, m, n); t != NONE ==> t !in k.mutexes[m].waiters
  {
    if n > 0 {
      DetectionBlamesNoWaiter(k, m, n - 1);
    }
  }

  // ----- TerminateThread, WaitEvent, SignalEvent -----

  ghost predicate InNoWaitQueue(k: Kernel, t: int) {
    && (forall m | IsMutex(k, m) :: t !in k.mutexes[m].waiters)
    && (forall e | IsEvent(k, e) :: t !in k.events[e].waiters)
  }

  /** Marking a thread TERMINATED. It may stay in a ready queue, where the pick skips it. */
  lemma MarkTerminatedIff(k: Kernel, t: int)
    requires KernelInvariant(k) && IsThread(k, t)
    ensures var k' := WithThread(k, t, k.threads[t].(owned := NONE, state := Terminated));
            KernelInvariant(k') <==> InNoWaitQueue(k, t)
  {
    hide NoDuplicates;
    var k' := WithThread(k, t, k.threads[t].(owned := NONE, state := Terminated));
    ThreadWellFormed(k, t, k'.threads[t]);
    if InNoWaitQueue(k, t) {
      TerminatedDispatch(k, t);
      assert WaitersOk(k', NONE);
      hide DispatchInvariant;
      assert NoInversion(k');
    } else {
      assert !WaitersOk(k', NONE);
    }
  }

  lemma TerminatedDispatch(k: Kernel, t: int)
    requires KernelInvariant(k) && IsThread(k, t)
    ensures var k' := WithThread(k, t, k.threads[t].(owned := NONE, state := Terminated));
            DispatchInvariant(k') && ReadyOwnersQueued(k')
  {
    hide NoDuplicates;
    var k' := WithThread(k, t, k.threads[t].(owned := NONE, state := Terminated));
    ThreadWellFormed(k, t, k'.threads[t]);
    assert forall p, x | 0 <= p < MAX_PRIORITY && x in k'.queues[p] :: IsThread(k, x) && Placed(k, x, p);
  }
}
