/** The ready-queue invariant of BLUE_KERNEL/BlueKernel_lvl3.c, what PickNextThread returns, and exactly when
    Schedule keeps every READY thread queued. */
module QueueInvariant {
  import opened ReadyQueues
  import opened Kernels

  ghost predicate NoDuplicates(q: seq<int>) {
    forall i, j | 0 <= i < j < |q| :: q[i] != q[j]
  }

  /** A queued thread is READY at the priority of its queue, or has terminated since. */
  predicate Placed(k: Kernel, t: int, p: nat)
    requires IsThread(k, t)
  {
    (k.threads[t].state == Ready && k.threads[t].priority == p) || k.threads[t].state == Terminated
  }

  /** Each thread occurs at most once over all queues, and only where it belongs. */
  ghost predicate QueuesOk(k: Kernel)
    requires WellFormed(k)
  {
    && (forall p | 0 <= p < MAX_PRIORITY :: NoDuplicates(k.queues[p]))
    && (forall p, q, t | 0 <= p < q < MAX_PRIORITY && t in k.queues[p] :: t !in k.queues[q])
    && (forall p, t | 0 <= p < MAX_PRIORITY && t in k.queues[p] :: IsThread(k, t) && Placed(k, t, p))
  }

  /** Every READY thread is queued, except the idle thread before it first runs. */
  ghost predicate ReadyQueued(k: Kernel)
    requires WellFormed(k)
  {
    forall t | IsThread(k, t) && k.threads[t].state == Ready && t != k.idle :: t in k.queues[k.threads[t].priority]
  }

  /** At most one thread is RUNNING, and it is the current one. */
  ghost predicate RunningIsCurrent(k: Kernel) {
    forall t | IsThread(k, t) && k.threads[t].state == Running :: t == k.current
  }

  ghost predicate DispatchInvariant(k: Kernel) {
    WellFormed(k) && QueuesOk(k) && ReadyQueued(k) && RunningIsCurrent(k)
  }

  predicate Unqueued(k: Kernel, t: int)
    requires WellFormed(k)
  {
    forall p | 0 <= p < MAX_PRIORITY :: t !in k.queues[p]
  }

  lemma NotReadyUnqueued(k: Kernel, t: int)
    requires WellFormed(k) && QueuesOk(k) && IsThread(k, t)
    requires k.threads[t].state == Running || k.threads[t].state == Blocked
    ensures Unqueued(k, t)
  {
  }

  // ----- Counting: the overflow checks cannot fire -----

  lemma {:induction false} DistinctFit(q: seq<int>, n: nat)
    requires NoDuplicates(q) && forall t | t in q :: 0 <= t < n
    ensures |q| <= n
    decreases n
  {
    if q != [] {
      assert n > 0 by { assert q[0] in q; }
      RemovedDistinct(q, n - 1);
      DistinctFit(Removed(q, n - 1), n - 1);
    }
  }

  lemma {:induction false} RemovedDistinct(q: seq<int>, t: int)
    requires NoDuplicates(q)
    ensures NoDuplicates(Removed(q, t))
    ensures forall x :: x in Removed(q, t) <==> x in q && x != t
  {
    if q != [] {
      var r := q[1..];
      assert q == [q[0]] + r;
      assert q[0] !in r;
      if q[0] != t {
        RemovedDistinct(r, t);
        hide NoDuplicates;
        ConsDistinct(q[0], Removed(r, t));
      }
    }
  }

  lemma ConsDistinct(x: int, q: seq<int>)
    requires NoDuplicates(q) && x !in q
    ensures NoDuplicates([x] + q)
  {
  }

  /** A queue that does not hold t has room for it: "Ready queue overflow" is unreachable. */
  lemma RoomFor(k: Kernel, q: seq<int>, t: int)
    requires |k.threads| <= MAX_THREADS && IsThread(k, t) && AreThreads(k, q) && NoDuplicates(q) && t !in q
    ensures |q| < MAX_THREADS
  {
    assert forall x | x in q :: IsThread(k, x);
    DistinctFit(q + [t], |k.threads|);
  }

  // ----- Primitive changes -----

  lemma EnqueuedQueuesOk(k: Kernel, t: int)
    requires WellFormed(k) && QueuesOk(k) && IsThread(k, t) && Unqueued(k, t) && k.threads[t].state == Ready
    ensures WellFormed(Enqueued(k, t)) && QueuesOk(Enqueued(k, t))
    ensures |k.queues[k.threads[t].priority]| < MAX_THREADS
  {
    EnqueuedWellFormed(k, t);
    RoomFor(k, k.queues[k.threads[t].priority], t);
  }

  /** Changing the state of an unqueued thread. */
  lemma UnqueuedStateOk(k: Kernel, t: int, s: ThreadState)
    requires WellFormed(k) && QueuesOk(k) && IsThread(k, t) && Unqueued(k, t)
    ensures WellFormed(WithState(k, t, s)) && QueuesOk(WithState(k, t, s)) && Unqueued(WithState(k, t, s), t)
  {
    ThreadWellFormed(k, t, k.threads[t].(state := s));
  }

  lemma MadeReadyOk(k: Kernel, t: int)
    requires WellFormed(k) && QueuesOk(k) && ReadyQueued(k) && IsThread(k, t) && Unqueued(k, t)
    ensures WellFormed(MadeReady(k, t)) && QueuesOk(MadeReady(k, t)) && ReadyQueued(MadeReady(k, t))
    ensures |k.queues[k.threads[t].priority]| < MAX_THREADS
  {
    hide NoDuplicates;
    UnqueuedStateOk(k, t, Ready);
    EnqueuedQueuesOk(WithState(k, t, Ready), t);
  }

  lemma DispatchSame(k: Kernel, k': Kernel)
    requires DispatchInvariant(k) && WellFormed(k') && k'.queues == k.queues && k'.idle == k.idle
    requires |k'.threads| == |k.threads|
    requires forall t | IsThread(k, t) ::
               k'.threads[t].state == k.threads[t].state && k'.threads[t].priority == k.threads[t].priority
    ensures QueuesOk(k') && ReadyQueued(k')
    ensures k'.current == k.current ==> RunningIsCurrent(k')
  {
    hide NoDuplicates;
    assert forall p, t | 0 <= p < MAX_PRIORITY && t in k'.queues[p] :: IsThread(k, t) && Placed(k, t, p);
  }

  /** A READY thread moves from its queue to the tail of the queue of its new priority; nobody else moves. */
  lemma RaisedReady(k: Kernel, t: int, p: nat)
    requires DispatchInvariant(k) && IsThread(k, t) && k.threads[t].priority < p <= TOP_PRIORITY
    requires k.threads[t].state == Ready && t in k.queues[k.threads[t].priority]
    ensures var k' := Raised(k, t, p);
            var from := k.threads[t].priority;
            && QueuesOk(k') && ReadyQueued(k')
            && k'.queues[p] == k.queues[p] + [t]
            && k'.queues[from] == Removed(k.queues[from], t)
            && |k.queues[p]| < MAX_THREADS
            && forall q | 0 <= q < MAX_PRIORITY && q != p && q != from :: k'.queues[q] == k.queues[q]
  {
    var o := k.threads[t].priority;
    var k2 := WithQueue(WithThread(k, t, k.threads[t].(priority := p)), o, Removed(k.queues[o], t));
    assert t !in k.queues[p];
    LeavesQueue(k, t, p);
    EnqueuedQueuesOk(k2, t);
    assert Raised(k, t, p) == Enqueued(k2, t);
    hide NoDuplicates, QueuesOk;
    RemovedElements(k.queues[o], t);
  }

  /** RemoveFromReadyQueue after the priority has changed. */
  lemma LeavesQueue(k: Kernel, t: int, p: nat)
    requires DispatchInvariant(k) && IsThread(k, t) && k.threads[t].priority < p <= TOP_PRIORITY
    requires k.threads[t].state == Ready && t in k.queues[k.threads[t].priority]
    ensures var o := k.threads[t].priority;
            var k2 := WithQueue(WithThread(k, t, k.threads[t].(priority := p)), o, Removed(k.queues[o], t));
            WellFormed(k2) && QueuesOk(k2) && Unqueued(k2, t)
  {
    hide NoDuplicates;
    LeavesWellFormed(k, t, p);
    RemovedDistinct(k.queues[k.threads[t].priority], t);
    hide WellFormed;
  }

  lemma LeavesWellFormed(k: Kernel, t: int, p: nat)
    requires WellFormed(k) && IsThread(k, t) && k.threads[t].priority < p <= TOP_PRIORITY
    ensures var o := k.threads[t].priority;
            WellFormed(WithQueue(WithThread(k, t, k.threads[t].(priority := p)), o, Removed(k.queues[o], t)))
  {
    var o := k.threads[t].priority;
    var k1 := WithThread(k, t, k.threads[t].(priority := p));
    ThreadWellFormed(k, t, k1.threads[t]);
    assert AreThreads(k1, k1.queues[o]);
    RemovedThreads(k1, k.queues[o], t);
    QueueWellFormed(k1, o, Removed(k.queues[o], t));
  }

  lemma AppendDistinct(q: seq<int>, t: int)
    requires NoDuplicates(q) && t !in q
    ensures NoDuplicates(q + [t])
  {
  }

  /** A thread that is not READY only changes its priority. */
  lemma RaisedElsewhere(k: Kernel, t: int, p: nat)
    requires DispatchInvariant(k) && IsThread(k, t) && k.threads[t].priority < p <= TOP_PRIORITY
    requires k.threads[t].state != Ready
    ensures var k' := Raised(k, t, p); QueuesOk(k') && ReadyQueued(k') && k'.queues == k.queues
  {
    hide NoDuplicates;
  }

  /** A READY owner is queued, so "Thread not found during reinsert" is unreachable. */
  ghost predicate ReadyOwnersQueued(k: Kernel)
    requires WellFormed(k)
  {
    forall m | IsMutex(k, m) && k.mutexes[m].owner != NONE && k.threads[k.mutexes[m].owner].state == Ready ::
      k.mutexes[m].owner in k.queues[k.threads[k.mutexes[m].owner].priority]
  }

  // ----- PickNextThread -----

  predicate AllTerminated(k: Kernel, q: seq<int>)
    requires WellFormed(k) && AreThreads(k, q)
  {
    forall i | 0 <= i < |q| :: k.threads[q[i]].state == Terminated
  }

  /** The pick is element i of queue p: everything before it, and everything above it, had terminated. */
  ghost predicate PickedAt(k: Kernel, p: nat, i: nat)
    requires WellFormed(k)
  {
    && p < MAX_PRIORITY && i < |k.queues[p]|
    && k.threads[k.queues[p][i]].state != Terminated
    && (forall j | 0 <= j < i :: k.threads[k.queues[p][j]].state == Terminated)
    && (forall q | p < q < MAX_PRIORITY :: AllTerminated(k, k.queues[q]))
  }

  lemma HighestAt(queues: seq<seq<int>>, p: nat, q: nat)
    requires q <= p < |queues| && queues[q] != [] && forall r | q < r <= p :: queues[r] == []
    ensures HighestQueued(queues, p) == q
  {
  }

  lemma TerminatedHead(k: Kernel, h: nat)
    requires WellFormed(k) && h < MAX_PRIORITY && k.queues[h] != []
    requires AreThreads(k, k.queues[h]) && k.threads[k.queues[h][0]].state == Terminated
    ensures var k1 := WithQueue(k, h, k.queues[h][1..]);
            && WellFormed(k1)
            && (AllTerminated(k1, k1.queues[h]) ==> AllTerminated(k, k.queues[h]))
            && (forall q | 0 <= q < MAX_PRIORITY && q != h ::
                  k1.queues[q] == k.queues[q] && AllTerminated(k1, k1.queues[q]) == AllTerminated(k, k.queues[q]))
  {
    PopWellFormed(k, h);
    var q := k.queues[h];
    assert forall i | 0 < i < |q| :: q[i] == q[1..][i - 1];
  }

  lemma PickedBehindHead(k: Kernel, h: nat, p: nat, i: nat)
    requires WellFormed(k) && h < MAX_PRIORITY && k.queues[h] != []
    requires AreThreads(k, k.queues[h]) && k.threads[k.queues[h][0]].state == Terminated
    requires forall q | h < q < MAX_PRIORITY :: k.queues[q] == []
    requires var k1 := WithQueue(k, h, k.queues[h][1..]); WellFormed(k1) && PickedAt(k1, p, i)
    ensures PickedAt(k, p, if p == h then i + 1 else i)
    ensures p <= h
    ensures var k1 := WithQueue(k, h, k.queues[h][1..]);
            var i' := if p == h then i + 1 else i;
            k.queues[p][i'] == k1.queues[p][i] && k.queues[p][i' + 1..] == k1.queues[p][i + 1..]
  {
    TerminatedHead(k, h);
    if p == h {
      assert forall j | 0 < j < |k.queues[h]| :: k.queues[h][j] == k.queues[h][1..][j - 1];
    }
  }

  /** What a pick leaves and returns: the longest queued live thread of the highest priority that has one,
      removing exactly the threads up to it; or, with no live thread, the idle thread and empty queues. */
  ghost predicate PickOk(k: Kernel, k': Kernel, t: int, p: nat, i: nat)
    requires WellFormed(k)
  {
    && k' == k.(queues := k'.queues) && |k'.queues| == MAX_PRIORITY
    && (PickedAt(k, p, i) ==>
          && t == k.queues[p][i] && k'.queues[p] == k.queues[p][i + 1..]
          && (forall q | p < q < MAX_PRIORITY :: k'.queues[q] == [])
          && (forall q | 0 <= q < p :: k'.queues[q] == k.queues[q]))
    && (!PickedAt(k, p, i) ==>
          && t == k.idle
          && forall q | 0 <= q < MAX_PRIORITY :: k'.queues[q] == [] && AllTerminated(k, k.queues[q]))
  }

  lemma PickStep(k: Kernel, h: nat, k': Kernel, t: int, p: nat, i: nat) returns (i': nat)
    requires WellFormed(k) && h < MAX_PRIORITY && k.queues[h] != []
    requires AreThreads(k, k.queues[h]) && k.threads[k.queues[h][0]].state == Terminated
    requires forall q | h < q < MAX_PRIORITY :: k.queues[q] == []
    requires var k1 := WithQueue(k, h, k.queues[h][1..]); WellFormed(k1) && PickOk(k1, k', t, p, i)
    ensures PickOk(k, k', t, p, i')
  {
    var k1 := WithQueue(k, h, k.queues[h][1..]);
    i' := i;
    if PickedAt(k1, p, i) {
      PickedBehindHead(k, h, p, i);
      i' := if p == h then i + 1 else i;
      hide PickedAt, AllTerminated;
    } else {
      TerminatedHead(k, h);
      assert forall q | 0 <= q < MAX_PRIORITY :: AllTerminated(k, k.queues[q]);
      assert !PickedAt(k, p, i);
      hide PickedAt, AllTerminated;
    }
  }

  lemma {:induction false} PickIsHighest(k: Kernel) returns (p: nat, i: nat)
    requires WellFormed(k)
    ensures PickOk(k, PickNext(k).0, PickNext(k).1, p, i)
    decreases Queued(k.queues)
  {
    var h := HighestQueued(k.queues, MAX_PRIORITY - 1);
    p, i := 0, 0;
    if h != NONE {
      var t := k.queues[h][0];
      assert AreThreads(k, k.queues[h]);
      if k.threads[t].state != Terminated {
        p := h;
      } else {
        hide PickOk;
        PopCounts(k.queues, h);
        PopWellFormed(k, h);
        var k1 := WithQueue(k, h, k.queues[h][1..]);
        p, i := PickIsHighest(k1);
        i := PickStep(k, h, PickNext(k).0, PickNext(k).1, p, i);
      }
    }
  }
}
