/** The sixteen-slot ready ring of BLUE_KERNEL/BlueKernel_lvl3.c. Threads are table indices; NO_THREAD is NULL. */
module ReadyQueues {

  const MAX_THREADS := 16
  const NO_THREAD := -1

  /** The ring position of an index less than two laps along. */
  function Wrapped(x: nat): (s: nat)
    requires x < 2 * MAX_THREADS
    ensures s == if x < MAX_THREADS then x else x - MAX_THREADS
  {
    x % MAX_THREADS
  }

  /** The position of the k-th queued thread. */
  function Slot(head: nat, k: nat): nat
    requires head < MAX_THREADS && k <= MAX_THREADS
  {
    Wrapped(head + k)
  }

  /** The queue without the first occurrence of t. */
  function Removed(q: seq<int>, t: int): (r: seq<int>)
    ensures t !in q ==> r == q
    ensures t in q ==> |r| == |q| - 1
  {
    if q == [] then [] else if q[0] == t then q[1..] else [q[0]] + Removed(q[1..], t)
  }

  lemma RemovedAt(q: seq<int>, t: int, i: nat)
    requires i < |q| && q[i] == t && t !in q[..i]
    ensures Removed(q, t) == q[..i] + q[i + 1..]
  {
    if i > 0 {
      assert q[0] in q[..i];
      RemovedAt(q[1..], t, i - 1);
      assert q[1..][..i - 1] == q[..i][1..];
    }
  }

  class ReadyQueue {
    const threads: array<int>
    var head: nat
    var tail: nat
    var count: nat

    ghost predicate Valid()
      reads this
    {
      && threads.Length == MAX_THREADS && head < MAX_THREADS && count <= MAX_THREADS
      && tail == Slot(head, count)
    }

    /** The queued threads, longest waiting first. */
    ghost function Contents(): (q: seq<int>)
      requires Valid()
      reads this, threads
      ensures |q| == count
    {
      seq(count, k requires 0 <= k < count && Valid() reads this, threads => threads[Slot(head, k)])
    }

    constructor ()
      ensures Valid() && fresh(threads) && Contents() == []
    {
      threads := new int[MAX_THREADS](i => NO_THREAD);
      head, tail, count := 0, 0, 0;
    }

    method Enqueue(t: int)
      requires Valid() && count < MAX_THREADS
      modifies this, threads
      ensures Valid() && Contents() == old(Contents()) + [t]
    {
      threads[tail] := t;
      tail := Wrapped(tail + 1);
      count := count + 1;
      assert forall k | 0 <= k < count - 1 :: Slot(head, k) != Slot(head, count - 1);
    }

    /** The longest waiting thread, or NO_THREAD. */
    method Dequeue() returns (t: int)
      requires Valid()
      modifies this, threads
      ensures Valid()
      ensures if old(Contents()) == [] then t == NO_THREAD && Contents() == []
              else t == old(Contents())[0] && Contents() == old(Contents())[1..]
    {
      if count == 0 {
        return NO_THREAD;
      }
      t := threads[head];
      threads[head] := NO_THREAD;
      ghost var first := head;
      head := Wrapped(head + 1);
      count := count - 1;
      assert forall k | 0 <= k < count :: Slot(head, k) == Slot(first, k + 1) != first;
    }

    /** Remove t wherever it is, closing the gap; the order of the others is kept. */
    method Remove(t: int) returns (removed: bool)
      requires Valid()
      modifies this, threads
      ensures Valid()
      ensures removed == (t in old(Contents()))
      ensures Contents() == Removed(old(Contents()), t)
    {
      ghost var q := Contents();
      for i := 0 to count
        invariant Valid() && unchanged(this) && unchanged(threads) && t !in q[..i]
      {
        if threads[Wrapped(head + i)] == t {
          assert q[i] == t;
          RemoveAt(i);
          RemovedAt(q, t, i);
          return true;
        }
      }
      assert q[..count] == q;
      removed := false;
    }

    method RemoveAt(i: nat)
      requires Valid() && i < count
      modifies this, threads
      ensures Valid() && Contents() == old(Contents())[..i] + old(Contents())[i + 1..]
    {
      CloseGap(i);
      tail := Wrapped(tail - 1 + MAX_THREADS);
      count := count - 1;
    }

    /** Move every thread behind position i one place forward. */
    method CloseGap(i: nat)
      requires Valid() && i < count
      modifies threads
      ensures forall k | 0 <= k < count - 1 ::
                threads[Slot(head, k)] == old(Contents())[if k < i then k else k + 1]
    {
      ghost var q := Contents();
      for j := i to count - 1
        invariant forall k | 0 <= k < count ::
                    threads[Slot(head, k)] == q[if i <= k < j then k + 1 else k]
      {
        var from := Wrapped(head + j + 1);
        var to := Wrapped(head + j);
        assert from == Slot(head, j + 1) && to == Slot(head, j);
        assert forall k | 0 <= k < count && k != j :: Slot(head, k) != to;
        threads[to] := threads[from];
      }
    }
  }
}
