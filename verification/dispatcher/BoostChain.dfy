/** Exactly which threads BoostPriorityChain of BLUE_KERNEL/BlueKernel_lvl3.c changes, and where they end up. */
module BoostChain {
  import opened ReadyQueues
  import opened Kernels
  import opened QueueInvariant
  import opened Inheritance

  ghost function Unseen(k: Kernel, seen: set<int>): set<int> {
    set x | 0 <= x < |k.threads| && x !in seen
  }

  lemma SeeingOne(k: Kernel, seen: set<int>, t: int)
    requires IsThread(k, t) && t !in seen
    ensures Unseen(k, seen + {t}) < Unseen(k, seen)
  {
    assert t in Unseen(k, seen) && t !in Unseen(k, seen + {t});
  }

  /** The wait-for chain from t, in the kernel before the boost: up to a thread already at p or met before. */
  ghost function Chain(k: Kernel, t: int, p: nat, seen: set<int>): (c: seq<int>)
    requires WellFormed(k) && (t == NONE || IsThread(k, t))
    ensures forall x | x in c :: IsThread(k, x) && x !in seen && k.threads[x].priority < p
    decreases Unseen(k, seen)
  {
    if t == NONE || k.threads[t].priority >= p || t in seen then []
    else
      SeeingOne(k, seen, t);
      [t] + Chain(k, BlockedBy(k, t), p, seen + {t})
  }

  /** The READY threads of a chain, and a queue without the threads of a chain. */
  function ReadyOf(k: Kernel, c: seq<int>): seq<int> {
    if c == [] then []
    else if IsThread(k, c[0]) && k.threads[c[0]].state == Ready then [c[0]] + ReadyOf(k, c[1..])
    else ReadyOf(k, c[1..])
  }

  function WithoutAll(q: seq<int>, c: seq<int>): seq<int> {
    if q == [] then [] else if q[0] in c then WithoutAll(q[1..], c) else [q[0]] + WithoutAll(q[1..], c)
  }

  lemma {:induction false} RaisedIsSeen(k: Kernel, t: int, p: nat, u: int, seen: set<int>)
    requires WellFormed(k) && IsThread(k, t) && k.threads[t].priority < p <= TOP_PRIORITY
    requires u == NONE || IsThread(k, u)
    ensures Chain(Raised(k, t, p), u, p, seen) == Chain(k, u, p, seen + {t})
    decreases Unseen(k, seen)
  {
    var k1 := Raised(k, t, p);
    if u != NONE && k1.threads[u].priority < p && u !in seen {
      assert seen + {t} + {u} == seen + {u} + {t};
      SeeingOne(k, seen, u);
      RaisedIsSeen(k, t, p, BlockedBy(k, u), seen + {u});
    }
  }

  lemma {:induction false} WithoutFirst(q: seq<int>, t: int, c: seq<int>)
    requires NoDuplicates(q)
    ensures WithoutAll(Removed(q, t), c) == WithoutAll(q, [t] + c)
  {
    if q != [] {
      var r := q[1..];
      assert q == [q[0]] + r && q[0] !in r;
      assert NoDuplicates(r);
      if q[0] == t {
        WithoutAbsent(r, t, c);
      } else {
        WithoutFirst(r, t, c);
        assert Removed(q, t)[1..] == Removed(r, t);
      }
    }
  }

  lemma {:induction false} WithoutAbsent(q: seq<int>, t: int, c: seq<int>)
    requires t !in q
    ensures WithoutAll(q, [t] + c) == WithoutAll(q, c)
  {
    if q != [] {
      assert q == [q[0]] + q[1..];
      WithoutAbsent(q[1..], t, c);
    }
  }

  lemma {:induction false} WithoutNone(q: seq<int>)
    ensures WithoutAll(q, []) == q
  {
    if q != [] {
      WithoutNone(q[1..]);
    }
  }

  lemma {:induction false} ReadyOfSame(k: Kernel, k': Kernel, c: seq<int>)
    requires |k.threads| == |k'.threads| && forall x | IsThread(k, x) :: k.threads[x].state == k'.threads[x].state
    ensures ReadyOf(k, c) == ReadyOf(k', c)
  {
    if c != [] {
      ReadyOfSame(k, k', c[1..]);
    }
  }

  /** What a boost along chain c to p leaves: the chain at p and everybody else untouched, the chain's READY
      threads at the tail of queue p in chain order, the other queues without them and otherwise in order. */
  ghost predicate BoostedAlong(k: Kernel, k': Kernel, c: seq<int>, p: nat) {
    && |k'.threads| == |k.threads| && |k.queues| == |k'.queues| == MAX_PRIORITY && p < MAX_PRIORITY
    && (forall x | IsThread(k, x) ::
          k'.threads[x] == if x in c then k.threads[x].(priority := p) else k.threads[x])
    && k'.queues[p] == k.queues[p] + ReadyOf(k, c)
    && (forall q | 0 <= q < MAX_PRIORITY && q != p :: k'.queues[q] == WithoutAll(k.queues[q], ReadyOf(k, c)))
  }

  lemma NobodyBoosted(k: Kernel, p: nat)
    requires WellFormed(k) && p < MAX_PRIORITY
    ensures BoostedAlong(k, k, [], p)
  {
    forall q | 0 <= q < MAX_PRIORITY ensures k.queues[q] == WithoutAll(k.queues[q], []) {
      WithoutNone(k.queues[q]);
    }
  }

  /** One link in front of a chain. */
  lemma LinkThenChain(k: Kernel, t: int, p: nat, k': Kernel, c: seq<int>)
    requires DispatchInvariant(k) && IsThread(k, t) && k.threads[t].priority < p <= TOP_PRIORITY && t !in c
    requires k.threads[t].state == Ready ==> t in k.queues[k.threads[t].priority]
    requires BoostedAlong(Raised(k, t, p), k', c, p)
    ensures BoostedAlong(k, k', [t] + c, p)
  {
    hide QueuesOk, ReadyQueued, RunningIsCurrent, Raised, BoostedAlong, ReadyOf;
    ReadyOfSame(k, Raised(k, t, p), c);
    if k.threads[t].state == Ready {
      LinkQueues(k, t, p);
      ReadyLink(k, t, p, Raised(k, t, p), k', c);
    } else {
      RaisedElsewhere(k, t, p);
      IdleLink(k, t, p, Raised(k, t, p), k', c);
    }
  }

  lemma ReadyOfLink(k: Kernel, t: int, c: seq<int>)
    requires IsThread(k, t)
    ensures ReadyOf(k, [t] + c) == if k.threads[t].state == Ready then [t] + ReadyOf(k, c) else ReadyOf(k, c)
  {
    assert ([t] + c)[1..] == c;
  }

  /** The threads after a link and a chain. */
  lemma LinkThreads(k: Kernel, t: int, p: nat, k1: Kernel, k': Kernel, c: seq<int>)
    requires IsThread(k, t) && t !in c && k1.threads == k.threads[t := k.threads[t].(priority := p)]
    requires BoostedAlong(k1, k', c, p)
    ensures |k'.threads| == |k.threads|
    ensures forall x | IsThread(k, x) ::
              k'.threads[x] == if x in [t] + c then k.threads[x].(priority := p) else k.threads[x]
  {
    hide ReadyOf, WithoutAll;
  }

  /** A READY link moves to the tail of queue p, in front of the chain's READY threads. */
  lemma ReadyLink(k: Kernel, t: int, p: nat, k1: Kernel, k': Kernel, c: seq<int>)
    requires DispatchInvariant(k) && IsThread(k, t) && k.threads[t].state == Ready && t !in c
    requires |k.queues| == MAX_PRIORITY && p < MAX_PRIORITY
    requires k1.threads == k.threads[t := k.threads[t].(priority := p)] && |k1.queues| == MAX_PRIORITY
    requires k1.queues[p] == k.queues[p] + [t]
    requires forall q | 0 <= q < MAX_PRIORITY && q != p ::
               k1.queues[q] == if q == k.threads[t].priority then Removed(k.queues[q], t) else k.queues[q]
    requires ReadyOf(k, c) == ReadyOf(k1, c) && BoostedAlong(k1, k', c, p)
    ensures BoostedAlong(k, k', [t] + c, p)
  {
    hide DispatchInvariant, ReadyOf, WithoutAll, Removed;
    var r := ReadyOf(k, c);
    LinkThreads(k, t, p, k1, k', c);
    ReadyOfLink(k, t, c);
    LinkTail(k.queues[p], t, r);
    forall q | 0 <= q < MAX_PRIORITY && q != p ensures k'.queues[q] == WithoutAll(k.queues[q], [t] + r) {
      LinkInQueue(k, t, q, r);
    }
  }

  lemma LinkTail(q: seq<int>, t: int, r: seq<int>)
    ensures (q + [t]) + r == q + ([t] + r)
  {
  }

  /** A link that is not READY leaves the queues alone. */
  lemma IdleLink(k: Kernel, t: int, p: nat, k1: Kernel, k': Kernel, c: seq<int>)
    requires IsThread(k, t) && k.threads[t].state != Ready && t !in c
    requires k1.threads == k.threads[t := k.threads[t].(priority := p)] && k1.queues == k.queues
    requires ReadyOf(k, c) == ReadyOf(k1, c) && BoostedAlong(k1, k', c, p)
    ensures BoostedAlong(k, k', [t] + c, p)
  {
    hide ReadyOf, WithoutAll;
    LinkThreads(k, t, p, k1, k', c);
    ReadyOfLink(k, t, c);
  }

  lemma LinkQueues(k: Kernel, t: int, p: nat)
    requires DispatchInvariant(k) && IsThread(k, t) && k.threads[t].priority < p <= TOP_PRIORITY
    requires k.threads[t].state == Ready && t in k.queues[k.threads[t].priority]
    ensures var k1 := Raised(k, t, p);
            && |k1.queues| == MAX_PRIORITY && k1.queues[p] == k.queues[p] + [t]
            && forall q | 0 <= q < MAX_PRIORITY && q != p ::
                 k1.queues[q] == if q == k.threads[t].priority then Removed(k.queues[q], t) else k.queues[q]
  {
    RaisedReady(k, t, p);
    hide DispatchInvariant, Raised;
  }

  lemma LinkInQueue(k: Kernel, t: int, q: nat, r: seq<int>)
    requires DispatchInvariant(k) && IsThread(k, t) && q < MAX_PRIORITY && k.threads[t].state == Ready
    ensures WithoutAll(if q == k.threads[t].priority then Removed(k.queues[q], t) else k.queues[q], r)
            == WithoutAll(k.queues[q], [t] + r)
  {
    if q == k.threads[t].priority {
      assert NoDuplicates(k.queues[q]);
      WithoutFirst(k.queues[q], t, r);
    } else {
      assert t !in k.queues[q] by { hide NoDuplicates, ReadyQueued; }
      WithoutAbsent(k.queues[q], t, r);
    }
  }

  /** BoostPriorityChain, for every wait-for graph: along the chain, and nowhere else. */
  lemma {:induction false} BoostFollowsChain(k: Kernel, m: int, p: nat)
    requires DispatchInvariant(k) && ReadyOwnersQueued(k) && IsMutex(k, m) && p <= TOP_PRIORITY
    ensures var t := k.mutexes[m].owner;
            BoostedAlong(k, Boosted(k, t, p), Chain(k, t, p, {}), p)
    decreases Below(k.threads, p)
  {
    var t := k.mutexes[m].owner;
    NobodyBoosted(k, p);
    if t != NONE && k.threads[t].priority < p {
      RaisingLowersBelow(k.threads, t, p);
      RaisedOwner(k, m, p);
      var k1 := Raised(k, t, p);
      var u := BlockedBy(k, t);
      RaisedIsSeen(k, t, p, u, {});
      assert {} + {t} == {t};
      assert Chain(k, t, p, {}) == [t] + Chain(k1, u, p, {});
      assert t !in Chain(k1, u, p, {});
      hide DispatchInvariant, ReadyOwnersQueued, BoostedAlong, Raised;
      if k.threads[t].waiting != NONE {
        BoostFollowsChain(k1, k.threads[t].waiting, p);
      } else {
        NobodyBoosted(k1, p);
      }
      OwnerQueued(k, m);
      LinkThenChain(k, t, p, Boosted(k1, u, p), Chain(k1, u, p, {}));
    }
  }

  lemma OwnerQueued(k: Kernel, m: int)
    requires WellFormed(k) && ReadyOwnersQueued(k) && IsMutex(k, m) && k.mutexes[m].owner != NONE
    ensures var t := k.mutexes[m].owner;
            k.threads[t].state == Ready ==> t in k.queues[k.threads[t].priority]
  {
  }
}
