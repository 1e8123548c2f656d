/** The thirty-two ready queues and the bitmap of BLUE_KERNEL/BlueKernel_lvl3.c. Bit p is set exactly when
    queue p is not empty, which is what makes the bit scan find the highest non-empty queue. */
module ReadyTables {
  import opened ReadyQueues
  import BitScan
  import Kernels
  import QueueInvariant

  const PRIORITIES := Kernels.MAX_PRIORITY

  class ReadyTable {
    const queues: seq<ReadyQueue>
    const table: array<nat>
    var bitmap: bv32
    ghost const Repr: set<object>

    ghost predicate Shape()
      reads this, Repr
    {
      && |queues| == PRIORITIES && this !in Repr && table !in Repr
      && (forall p | 0 <= p < PRIORITIES ::
            queues[p] in Repr && queues[p].threads in Repr && queues[p].Valid())
      && (forall p, q | 0 <= p < q < PRIORITIES ::
            queues[p] != queues[q] && queues[p].threads != queues[q].threads)
    }

    /** Bit 31 stays clear: the bit scan has no answer for it. */
    ghost predicate Valid()
      reads this, Repr, table
      ensures Valid() ==> Shape()
    {
      && Shape() && BitScan.TableBuilt(table[..])
      && (forall p | 0 <= p < PRIORITIES :: BitScan.BitSet(bitmap, p) <==> queues[p].count > 0)
      && !BitScan.BitSet(bitmap, 31)
    }

    ghost function Contents(): (q: seq<seq<int>>)
      requires Shape()
      reads this, Repr
      ensures |q| == PRIORITIES
    {
      seq(PRIORITIES, p requires 0 <= p < PRIORITIES && Shape() reads this, Repr => queues[p].Contents())
    }

    /** InitDispatcher after BuildDeBurijnTable. */
    constructor (table: array<nat>)
      requires BitScan.TableBuilt(table[..])
      ensures Valid() && this.table == table && fresh(Repr) && bitmap == 0
      ensures Contents() == seq(PRIORITIES, p => [])
    {
      var qs: seq<ReadyQueue> := [];
      ghost var repr: set<object> := {};
      for n := 0 to PRIORITIES
        invariant |qs| == n && fresh(repr)
        invariant forall p | 0 <= p < n ::
                    && qs[p] in repr && qs[p].threads in repr && qs[p].Valid() && qs[p].Contents() == []
        invariant forall p, q | 0 <= p < q < n :: qs[p] != qs[q] && qs[p].threads != qs[q].threads
      {
        var q := new ReadyQueue();
        qs := qs + [q];
        repr := repr + {q, q.threads};
      }
      queues, bitmap, Repr := qs, 0, repr;
      this.table := table;
    }

    /** ReadyThread: to the tail of queue p. */
    method Enqueue(t: int, p: nat)
      requires Valid() && p <= Kernels.TOP_PRIORITY && |Contents()[p]| < MAX_THREADS
      modifies this, Repr
      ensures Valid() && Contents() == old(Contents())[p := old(Contents())[p] + [t]]
    {
      hide BitScan.BitSet, BitScan.SetBit, BitScan.ClearBit;
      queues[p].Enqueue(t);
      bitmap := BitScan.SetBit(bitmap, p);
      BitsAfterSet(old(bitmap), p);
      assert forall q | 0 <= q < PRIORITIES && q != p :: queues[q].Contents() == old(queues[q].Contents());
    }

    lemma BitsAfterSet(b: bv32, p: nat)
      requires p < PRIORITIES
      ensures forall q | 0 <= q < PRIORITIES ::
                BitScan.BitSet(BitScan.SetBit(b, p), q) <==> p == q || BitScan.BitSet(b, q)
      ensures forall q | 0 <= q < PRIORITIES ::
                BitScan.BitSet(BitScan.ClearBit(b, p), q) <==> p != q && BitScan.BitSet(b, q)
    {
      forall q | 0 <= q < PRIORITIES
        ensures BitScan.BitSet(BitScan.SetBit(b, p), q) <==> p == q || BitScan.BitSet(b, q)
        ensures BitScan.BitSet(BitScan.ClearBit(b, p), q) <==> p != q && BitScan.BitSet(b, q)
      {
        BitScan.SetOneBit(b, p, q);
      }
    }

    /** RemoveReadyThread: the longest waiting thread of queue p, or NO_THREAD. */
    method Dequeue(p: nat) returns (t: int)
      requires Valid() && p < PRIORITIES
      modifies this, Repr
      ensures Valid()
      ensures if old(Contents())[p] == [] then t == NO_THREAD && Contents() == old(Contents())
              else t == old(Contents())[p][0] && Contents() == old(Contents())[p := old(Contents())[p][1..]]
    {
      hide BitScan.BitSet, BitScan.SetBit, BitScan.ClearBit;
      if queues[p].count == 0 {
        return NO_THREAD;
      }
      t := queues[p].Dequeue();
      if queues[p].count == 0 {
        bitmap := BitScan.ClearBit(bitmap, p);
      }
      BitsAfterSet(old(bitmap), p);
      assert forall q | 0 <= q < PRIORITIES && q != p :: queues[q].Contents() == old(queues[q].Contents());
    }

    /** RemoveFromReadyQueue */
    method Remove(t: int, p: nat) returns (removed: bool)
      requires Valid() && p < PRIORITIES
      modifies this, Repr
      ensures Valid() && removed == (t in old(Contents())[p])
      ensures Contents() == old(Contents())[p := Removed(old(Contents())[p], t)]
    {
      hide BitScan.BitSet, BitScan.SetBit, BitScan.ClearBit, Removed;
      removed := queues[p].Remove(t);
      if queues[p].count == 0 {
        bitmap := BitScan.ClearBit(bitmap, p);
      }
      BitsAfterSet(old(bitmap), p);
      assert forall q | 0 <= q < PRIORITIES && q != p :: queues[q].Contents() == old(queues[q].Contents());
    }

    /** FindHighestPriority: the highest non-empty queue, or NONE. */
    method FindHighest() returns (p: int)
      requires Valid()
      ensures p == Kernels.HighestQueued(Contents(), PRIORITIES - 1)
      ensures p == Kernels.NONE <==> bitmap == 0
    {
      if bitmap == 0 {
        NothingQueued();
        return Kernels.NONE;
      }
      p := BitScan.FindHighestSetBit(bitmap, table[..]);
      BitScan.FindsHighestIff(bitmap, table[..]);
      QueueInvariant.HighestAt(Contents(), PRIORITIES - 1, p);
    }

    lemma NothingQueued()
      requires Valid() && bitmap == 0
      ensures Kernels.HighestQueued(Contents(), PRIORITIES - 1) == Kernels.NONE
    {
      hide BitScan.SetBit;
      forall p | 0 <= p < PRIORITIES ensures Contents()[p] == [] {
        assert !BitScan.BitSet(0, p);
      }
    }
  }

  /** One turn of PickNextThread's loop on a bitmap and the queues it describes. */
  function ScanStep(b: bv32, queues: seq<seq<int>>, table: seq<nat>): (r: (bv32, seq<seq<int>>, int))
    requires |queues| == |table| == PRIORITIES && BitScan.TableBuilt(table) && b != 0
  {
    BitScan.FindsHighestIff(b, table);
    var p := BitScan.FindHighestSetBit(b, table);
    assert 0 <= p < PRIORITIES by {
      BitScan.BelowBit31(b);
      if b >= 0x8000_0000 { BitScan.Bit31Wraps(b, table); }
    }
    if queues[p] == [] then (b, queues, NO_THREAD)
    else (if |queues[p]| == 1 then BitScan.ClearBit(b, p) else b, queues[p := queues[p][1..]], queues[p][0])
  }

  /** Bit p is set exactly when queue p is not empty. */
  ghost predicate Describes(b: bv32, queues: seq<seq<int>>)
    requires |queues| == PRIORITIES
  {
    forall p | 0 <= p < PRIORITIES :: BitScan.BitSet(b, p) <==> queues[p] != []
  }

  /** After a turn the bitmap still describes the queues, of which one at most has lost its head. */
  lemma ScanStepKeeps(b: bv32, queues: seq<seq<int>>, table: seq<nat>)
    requires |queues| == |table| == PRIORITIES && BitScan.TableBuilt(table) && b != 0 && Describes(b, queues)
    ensures var (b', queues', t) := ScanStep(b, queues, table);
            && |queues'| == PRIORITIES && Describes(b', queues')
            && (queues' == queues || exists p :: 0 <= p < PRIORITIES && queues[p] != [] && t == queues[p][0]
                                                 && queues' == queues[p := queues[p][1..]])
  {
    hide BitScan.BitSet, BitScan.ClearBit, BitScan.FindHighestSetBit;
    var (b', queues', t) := ScanStep(b, queues, table);
    var p := BitScan.FindHighestSetBit(b, table);
    BitScan.FindsHighestIff(b, table);
    BitScan.BelowBit31(b);
    if BitScan.BitSet(b, 31) {
      BitScan.Bit31Wraps(b, table);
    }
    forall q | 0 <= q < PRIORITIES
      ensures BitScan.BitSet(b', q) <==> queues'[q] != []
    {
      BitScan.SetOneBit(b, p, q);
    }
  }

  /** A turn removes a thread, except with bit 31 set and queue 0 empty: then it changes nothing, and neither
      would any further turn, so the loop never ends. */
  lemma ScanStepStuckIff(b: bv32, queues: seq<seq<int>>, table: seq<nat>)
    requires |queues| == |table| == PRIORITIES && BitScan.TableBuilt(table) && b != 0 && Describes(b, queues)
    ensures var (b', queues', t) := ScanStep(b, queues, table);
            && (b' == b && queues' == queues <==> BitScan.BitSet(b, 31) && queues[0] == [])
            && (!BitScan.BitSet(b, 31) ==>
                  var h := Kernels.HighestQueued(queues, PRIORITIES - 1); h != Kernels.NONE && t == queues[h][0])
  {
    hide BitScan.BitSet, BitScan.ClearBit, BitScan.FindHighestSetBit;
    BitScan.FindsHighestIff(b, table);
    BitScan.BelowBit31(b);
    var p := BitScan.FindHighestSetBit(b, table);
    if BitScan.BitSet(b, 31) {
      BitScan.Bit31Wraps(b, table);
    } else {
      QueueInvariant.HighestAt(queues, PRIORITIES - 1, p);
    }
    if queues[p] != [] {
      assert |queues[p := queues[p][1..]][p]| != |queues[p]|;
    }
  }
}
