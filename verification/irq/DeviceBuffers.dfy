/** The ring buffers of the devices in BLUE_KERNEL/IRQ_KernelDeal.c. One of the sixteen slots stays empty, so
    that equal head and tail mean an empty buffer. */
module DeviceBuffers {
  import opened Delivery

  const BUF_SIZE := 16

  function Wrapped(x: nat): (s: nat)
    requires x < 2 * BUF_SIZE
    ensures s == if x < BUF_SIZE then x else x - BUF_SIZE
  {
    x % BUF_SIZE
  }

  /** The slot of the k-th value. */
  function Slot(head: nat, k: nat): nat
    requires head < BUF_SIZE && k <= BUF_SIZE
  {
    Wrapped(head + k)
  }

  class RingBuffer {
    const data: array<int>
    var head: nat
    var tail: nat

    ghost predicate Valid()
      reads this
    {
      data.Length == BUF_SIZE && head < BUF_SIZE && tail < BUF_SIZE
    }

    ghost function Count(): (n: nat)
      requires Valid()
      reads this
      ensures n <= CAPACITY
    {
      if head <= tail then tail - head else tail + BUF_SIZE - head
    }

    /** The values waiting, oldest first. */
    ghost function Contents(): (q: seq<int>)
      requires Valid()
      reads this, data
      ensures |q| == Count()
    {
      seq(Count(), k requires Valid() && 0 <= k < Count() reads this, data => data[Slot(head, k)])
    }

    constructor ()
      ensures Valid() && fresh(data) && Contents() == []
    {
      data := new int[BUF_SIZE];
      head, tail := 0, 0;
    }

    predicate IsEmpty()
      requires Valid()
      reads this
      ensures IsEmpty() <==> Count() == 0
    {
      head == tail
    }

    predicate IsFull()
      requires Valid()
      reads this
      ensures IsFull() <==> Count() == CAPACITY
    {
      Slot(tail, 1) == head
    }

    method Push(value: int)
      requires Valid()
      modifies this, data
      ensures Valid() && Contents() == Pushed(old(Contents()), value)
    {
      if IsFull() {
        return;
      }
      data[tail] := value;
      tail := Slot(tail, 1);
      assert forall k | 0 <= k < Count() - 1 :: Slot(head, k) != old(tail);
    }

    method Pop() returns (popped: bool, value: int)
      requires Valid()
      modifies this
      ensures Valid() && popped == (old(Contents()) != [])
      ensures if popped then value == old(Contents())[0] && Contents() == old(Contents())[1..]
              else Contents() == []
    {
      if IsEmpty() {
        return false, 0;
      }
      ghost var first := head;
      value := data[head];
      head := Slot(head, 1);
      popped := true;
      assert forall k | 0 <= k < Count() :: Slot(head, k) == Slot(first, k + 1);
    }

    /** The deferred call of a device: pop until the buffer is empty. */
    method DrainAll() returns (values: seq<int>)
      requires Valid()
      modifies this
      ensures Valid() && values == old(Contents()) && Contents() == []
    {
      hide Contents, Count;
      values := [];
      ghost var q := Contents();
      var popped, value := Pop();
      while popped
        invariant Valid() && q == values + (if popped then [value] else []) + Contents()
        invariant !popped ==> Contents() == []
        decreases Count(), popped
      {
        ghost var rest := Contents();
        values := values + [value];
        popped, value := Pop();
        assert rest == (if popped then [value] else []) + Contents();
      }
    }
  }

  /** The buffers of all devices. */
  class BufferBank {
    const rings: seq<RingBuffer>
    ghost const Repr: set<object>

    ghost predicate Valid()
      reads this, Repr
    {
      && this !in Repr
      && (forall d | 0 <= d < |rings| :: rings[d] in Repr && rings[d].data in Repr && rings[d].Valid())
      && (forall d, e | 0 <= d < e < |rings| :: rings[d] != rings[e] && rings[d].data != rings[e].data)
    }

    ghost function Contents(): (q: seq<seq<int>>)
      requires Valid()
      reads this, Repr
      ensures |q| == |rings|
    {
      seq(|rings|, d requires 0 <= d < |rings| && Valid() reads this, Repr => rings[d].Contents())
    }

    constructor (devices: nat)
      ensures Valid() && fresh(Repr) && Contents() == seq(devices, d => [])
    {
      var rs: seq<RingBuffer> := [];
      ghost var repr: set<object> := {};
      for n := 0 to devices
        invariant |rs| == n && fresh(repr)
        invariant forall d | 0 <= d < n ::
                    rs[d] in repr && rs[d].data in repr && rs[d].Valid() && rs[d].Contents() == []
        invariant forall d, e | 0 <= d < e < n :: rs[d] != rs[e] && rs[d].data != rs[e].data
      {
        var r := new RingBuffer();
        rs := rs + [r];
        repr := repr + {r, r.data};
      }
      rings, Repr := rs, repr;
    }

    method Push(d: nat, value: int)
      requires Valid() && d < |rings|
      modifies Repr
      ensures Valid() && Contents() == old(Contents())[d := Pushed(old(Contents())[d], value)]
    {
      rings[d].Push(value);
      assert forall e | 0 <= e < |rings| && e != d :: rings[e].Contents() == old(rings[e].Contents());
    }

    method DrainOne(d: nat) returns (values: seq<int>)
      requires Valid() && d < |rings|
      modifies Repr
      ensures Valid() && values == old(Contents())[d] && Contents() == old(Contents())[d := []]
    {
      values := rings[d].DrainAll();
      assert forall e | 0 <= e < |rings| && e != d :: rings[e].Contents() == old(rings[e].Contents());
    }
  }
}
