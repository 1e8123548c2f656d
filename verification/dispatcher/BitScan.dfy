/** The De Bruijn bit scan of BLUE_KERNEL/BlueKernel_lvl3.c and the ready bitmap it searches. */
module BitScan {

  const MAX_PRIORITY := 32
  const DEBRUIJN32: bv32 := 0x077CB531

  /** 1u << p, with the position as a five-bit word and as a number. */
  function Bit(p: bv5): bv32 {
    1 << p
  }

  function Mask(p: nat): bv32
    requires p < MAX_PRIORITY
  {
    Bit(p as bv5)
  }

  function Common(b: bv32, m: bv32): bv32 {
    b & m
  }

  predicate Meets(b: bv32, m: bv32) {
    Common(b, m) != 0
  }

  function Joined(b: bv32, m: bv32): bv32 {
    b | m
  }

  function Cleared(b: bv32, m: bv32): bv32 {
    b & !m
  }

  predicate Has(b: bv32, p: bv5) {
    Meets(b, Bit(p))
  }

  function With(b: bv32, p: bv5): bv32 {
    Joined(b, Bit(p))
  }

  function Without(b: bv32, p: bv5): bv32 {
    Cleared(b, Bit(p))
  }

  /** (b & (1u << p)) != 0, and the updates that set and clear that bit. */
  predicate BitSet(b: bv32, p: nat)
    requires p < MAX_PRIORITY
  {
    Has(b, p as bv5)
  }

  function SetBit(b: bv32, p: nat): bv32
    requires p < MAX_PRIORITY
  {
    With(b, p as bv5)
  }

  function ClearBit(b: bv32, p: nat): bv32
    requires p < MAX_PRIORITY
  {
    Without(b, p as bv5)
  }

  /** The table slot of an isolated bit. */
  function Slot(v: bv32): bv5 {
    ((v * DEBRUIJN32) >> 27) as bv5
  }

  /** The bit that owns each table slot. */
  function Owner(s: bv5): bv5 {
    if s == 0 then 0
    else if s == 1 then 1 else if s == 2 then 28 else if s == 3 then 2 else if s == 4 then 29 else if s == 5 then 14
    else if s == 6 then 24 else if s == 7 then 3 else if s == 8 then 30 else if s == 9 then 22 else if s == 10 then 20
    else if s == 11 then 15 else if s == 12 then 25 else if s == 13 then 17 else if s == 14 then 4 else if s == 15 then 8
    else if s == 16 then 31 else if s == 17 then 27 else if s == 18 then 13 else if s == 19 then 23 else if s == 20 then 21
    else if s == 21 then 19 else if s == 22 then 16 else if s == 23 then 7 else if s == 24 then 26 else if s == 25 then 12
    else if s == 26 then 18 else if s == 27 then 6 else if s == 28 then 11 else if s == 29 then 5 else if s == 30 then 10
    else 9
  }

  lemma OwnerOfSlot(p: bv5)
    ensures Owner(Slot(Bit(p))) == p
  {
  }

  lemma PowerOfTwoIsBit(h: bv32)
    requires h != 0 && h & (h - 1) == 0
    ensures h == Bit(Owner(Slot(h)))
  {
  }

  lemma PositionRoundTrip(p: nat)
    requires p < MAX_PRIORITY
    ensures (p as bv5) as int == p
  {
  }

  lemma PositionsOrdered(p: nat, q: nat)
    requires p < MAX_PRIORITY && q < MAX_PRIORITY
    ensures p as bv5 == q as bv5 <==> p == q
    ensures p as bv5 < q as bv5 <==> p < q
  {
    PositionRoundTrip(p);
    PositionRoundTrip(q);
  }

  /** Every slot holds the position of the bit that hashes to it. */
  ghost predicate TableBuilt(table: seq<nat>) {
    |table| == MAX_PRIORITY && forall n | 0 <= n < MAX_PRIORITY :: table[Slot(Mask(n)) as int] == n
  }

  lemma SlotsDiffer(n: nat, k: nat)
    requires n < k < MAX_PRIORITY
    ensures Slot(Mask(n)) as int != Slot(Mask(k)) as int
  {
    hide Slot, Owner, Bit;
    PositionRoundTrip(n);
    PositionRoundTrip(k);
    OwnerOfSlot(n as bv5);
    OwnerOfSlot(k as bv5);
  }

  method BuildDeBruijnTable(table: array<nat>)
    requires table.Length == MAX_PRIORITY
    modifies table
    ensures TableBuilt(table[..])
  {
    for k := 0 to MAX_PRIORITY
      invariant forall n | 0 <= n < k :: table[Slot(Mask(n)) as int] == n
    {
      forall n | 0 <= n < k ensures Slot(Mask(n)) as int != Slot(Mask(k)) as int {
        SlotsDiffer(n, k);
      }
      table[Slot(Mask(k)) as int] := k;
    }
  }

  /** x with every bit below its highest one set. */
  function Smear(x: bv32): bv32 {
    var x1 := x | (x >> 1);
    var x2 := x1 | (x1 >> 2);
    var x4 := x2 | (x2 >> 4);
    var x8 := x4 | (x4 >> 8);
    x8 | (x8 >> 16)
  }

  /** The highest bit alone. */
  function Isolated(x: bv32): bv32 {
    (Smear(x) + 1) >> 1
  }

  function FindHighestSetBit(x: bv32, table: seq<nat>): int
    requires |table| == MAX_PRIORITY
  {
    if x == 0 then -1 else table[Slot(Isolated(x)) as int]
  }

  /** Bit p is set and no higher bit is. */
  ghost predicate IsHighestBit(x: bv32, p: int) {
    0 <= p < MAX_PRIORITY && BitSet(x, p) && forall q | p < q < MAX_PRIORITY :: !BitSet(x, q)
  }

  /** h is a power of two, set in x, and larger than the rest of x. */
  predicate IsTopBit(x: bv32, h: bv32) {
    h != 0 && h & (h - 1) == 0 && h & x == h && x - h < h
  }

  lemma SmearIsolatesHighest(x: bv32)
    requires 0 < x < 0x8000_0000
    ensures IsTopBit(x, Isolated(x))
  {
  }

  /** The highest bit as a five-bit position. */
  lemma FindsHighestBit(x: bv32) returns (p: bv5)
    requires 0 < x < 0x8000_0000
    ensures Isolated(x) == Bit(p) && Has(x, p)
    ensures forall q: bv5 | p < q :: !Has(x, q)
  {
    hide Isolated, IsTopBit, Bit, Slot, Owner, Has;
    var h := Isolated(x);
    SmearIsolatesHighest(x);
    TopBitIsBit(x, h);
    p := Owner(Slot(h));
    NothingAbove(x, p);
  }

  lemma TopBitIsBit(x: bv32, h: bv32)
    requires IsTopBit(x, h)
    ensures h == Bit(Owner(Slot(h))) && Has(x, Owner(Slot(h)))
  {
    PowerOfTwoIsBit(h);
    hide Bit, Slot, Owner;
  }

  lemma NotAbove(x: bv32, p: bv5, q: bv5)
    requires p < q && IsTopBit(x, Bit(p))
    ensures !Has(x, q)
  {
  }

  lemma NothingAbove(x: bv32, p: bv5)
    requires IsTopBit(x, Bit(p))
    ensures forall q: bv5 | p < q :: !Has(x, q)
  {
    hide Has, Bit, IsTopBit;
    forall q: bv5 | p < q ensures !Has(x, q) {
      NotAbove(x, p, q);
    }
  }

  lemma BelowBit31(x: bv32)
    ensures x < 0x8000_0000 <==> !BitSet(x, 31)
  {
    assert Mask(31) == 0x8000_0000;
  }

  /** The scan is exact for every non-zero word whose bit 31 is clear. */
  lemma FindsHighest(x: bv32, table: seq<nat>)
    requires 0 < x < 0x8000_0000 && TableBuilt(table)
    ensures IsHighestBit(x, FindHighestSetBit(x, table))
  {
    hide Isolated, Slot, Bit, Has;
    var p := FindsHighestBit(x);
    assert Mask(p as int) == Bit(p);
    forall q | p as int < q < MAX_PRIORITY ensures !BitSet(x, q) {
      PositionsOrdered(p as int, q);
    }
  }

  /** With bit 31 set the increment wraps to zero and the scan answers 0. */
  lemma Bit31Wraps(x: bv32, table: seq<nat>)
    requires x >= 0x8000_0000 && TableBuilt(table)
    ensures FindHighestSetBit(x, table) == 0
  {
    assert Smear(x) == 0xFFFF_FFFF;
    assert Slot(0) == Slot(Mask(0));
  }

  /** The scan answers -1 for zero; for any other word it is right exactly when bit 31 is clear. */
  lemma FindsHighestIff(x: bv32, table: seq<nat>)
    requires TableBuilt(table)
    ensures x == 0 ==> FindHighestSetBit(x, table) == -1
    ensures x != 0 ==> (IsHighestBit(x, FindHighestSetBit(x, table)) <==> !BitSet(x, 31))
  {
    if x == 0 {
      return;
    }
    BelowBit31(x);
    if x < 0x8000_0000 {
      FindsHighest(x, table);
    } else {
      Bit31Wraps(x, table);
    }
  }

  lemma SetOneBit(b: bv32, p: nat, q: nat)
    requires p < MAX_PRIORITY && q < MAX_PRIORITY
    ensures BitSet(SetBit(b, p), q) <==> p == q || BitSet(b, q)
    ensures BitSet(ClearBit(b, p), q) <==> p != q && BitSet(b, q)
  {
    hide Has, With, Without;
    PositionsOrdered(p, q);
    BitAlgebra(b, p as bv5, q as bv5);
  }

  lemma BitAlgebra(b: bv32, p: bv5, q: bv5)
    ensures Has(With(b, p), q) <==> p == q || Has(b, q)
    ensures Has(Without(b, p), q) <==> p != q && Has(b, q)
  {
    hide Has, With, Without;
    if p == q {
      SameBit(b, p);
    } else {
      OtherBit(b, p, q);
    }
  }

  lemma SameBit(b: bv32, p: bv5)
    ensures Has(With(b, p), p) && !Has(Without(b, p), p)
  {
  }

  lemma BitsDisjoint(p: bv5, q: bv5)
    requires p != q
    ensures !Meets(Bit(p), Bit(q))
  {
  }

  lemma CommonOfJoined(b: bv32, m: bv32, n: bv32)
    ensures Common(Joined(b, m), n) == Joined(Common(b, n), Common(m, n))
  {
  }

  lemma CommonOfCleared(b: bv32, m: bv32, n: bv32)
    ensures Common(Cleared(b, m), n) == Cleared(Common(b, n), Common(m, n))
  {
  }

  lemma ZeroChangesNothing(b: bv32)
    ensures Joined(b, 0) == b && Cleared(b, 0) == b
  {
  }

  /** Words without a common bit do not see each other. */
  lemma MasksApart(b: bv32, m: bv32, n: bv32)
    requires Common(m, n) == 0
    ensures Common(Joined(b, m), n) == Common(b, n) && Common(Cleared(b, m), n) == Common(b, n)
  {
    hide Common, Joined, Cleared;
    CommonOfJoined(b, m, n);
    CommonOfCleared(b, m, n);
    ZeroChangesNothing(Common(b, n));
  }

  lemma OtherBit(b: bv32, p: bv5, q: bv5)
    requires p != q
    ensures Has(With(b, p), q) == Has(b, q)
    ensures Has(Without(b, p), q) == Has(b, q)
  {
    hide Bit, Common, Joined, Cleared;
    BitsDisjoint(p, q);
    MasksApart(b, Bit(p), Bit(q));
  }
}
