/** The four-entry store ring of firmwareLearning/cpu_isa.c and the queue it implements. */
module StoreBuffers {
  import opened Isa

  const STORE_BUFFER_SIZE := 4

  datatype Entry = Entry(addr: Word, data: Word, valid: bool)
  datatype Store = Store(addr: Word, data: Word)

  datatype Ring = Ring(entries: seq<Entry>, head: nat, tail: nat, count: nat) {
    predicate Valid() {
      && |entries| == STORE_BUFFER_SIZE && head < STORE_BUFFER_SIZE && count <= STORE_BUFFER_SIZE
      && tail == (head + count) % STORE_BUFFER_SIZE
    }
  }

  type StoreBuffer = r: Ring | r.Valid()
    witness Ring(seq(STORE_BUFFER_SIZE, i => Entry(0, 0, false)), 0, 0, 0)

  /** The pending stores, oldest first. */
  function Pending(b: StoreBuffer): (q: seq<Store>)
    ensures |q| == b.count
  {
    seq(b.count, k requires 0 <= k < STORE_BUFFER_SIZE => StoreAt(b, Slot(b.head, k)))
  }

  /** (head + k) % STORE_BUFFER_SIZE */
  function Slot(head: nat, k: nat): (s: nat)
    requires head < STORE_BUFFER_SIZE && k < STORE_BUFFER_SIZE
    ensures s == (head + k) % STORE_BUFFER_SIZE
  {
    if head + k < STORE_BUFFER_SIZE then head + k else head + k - STORE_BUFFER_SIZE
  }

  function StoreAt(b: StoreBuffer, slot: nat): Store
    requires slot < STORE_BUFFER_SIZE
  {
    Store(b.entries[slot].addr, b.entries[slot].data)
  }

  /** A full buffer drops the store. */
  function Pushed(b: StoreBuffer, addr: Word, data: Word): StoreBuffer {
    if b.count >= STORE_BUFFER_SIZE then b
    else
      b.(entries := b.entries[b.tail := Entry(addr, data, true)],
         tail := (b.tail + 1) % STORE_BUFFER_SIZE,
         count := b.count + 1)
  }

  function Popped(b: StoreBuffer): StoreBuffer
    requires b.count > 0
  {
    b.(entries := b.entries[b.head := b.entries[b.head].(valid := false)],
       head := (b.head + 1) % STORE_BUFFER_SIZE,
       count := b.count - 1)
  }

  lemma PushAppends(b: StoreBuffer, addr: Word, data: Word)
    ensures Pending(Pushed(b, addr, data)) ==
            if |Pending(b)| < STORE_BUFFER_SIZE then Pending(b) + [Store(addr, data)] else Pending(b)
  {
  }

  lemma PopDropsOldest(b: StoreBuffer)
    requires b.count > 0
    ensures Pending(Popped(b)) == Pending(b)[1..]
    ensures Pending(b)[0] == Store(b.entries[b.head].addr, b.entries[b.head].data)
  {
    var b' := Popped(b);
    forall k | 0 <= k < b.count - 1
      ensures Pending(b')[k] == Pending(b)[k + 1]
    {
      assert Slot(b'.head, k) == Slot(b.head, k + 1);
    }
  }
}
