/** The 64-bit De Bruijn bit scan of BLUE_KERNEL/IRQ_KernelDeal.c over a CPU's pending-vector word. */
module VectorScan {

  const VECTORS := 64
  const DEBRUIJN64: bv64 := 0x03F79D71B4CB0A89

  function Bit(p: bv6): bv64 {
    1 << p
  }

  predicate Meets(x: bv64, y: bv64) {
    x & y != 0
  }

  predicate Has(b: bv64, p: bv6) {
    Meets(b, Bit(p))
  }

  function With(b: bv64, p: bv6): bv64 {
    b | Bit(p)
  }

  function Without(b: bv64, p: bv6): bv64 {
    b & !Bit(p)
  }

  /** The table slot of an isolated bit. */
  function Slot(v: bv64): bv6 {
    ((v * DEBRUIJN64) >> 58) as bv6
  }

  /** The bit that owns each table slot. */
  function Owner(s: bv6): bv6 {
    if s == 0 then 0
    else if s == 1 then 1 else if s == 2 then 48 else if s == 3 then 2 else if s == 4 then 57 else if s == 5 then 49
    else if s == 6 then 28 else if s == 7 then 3 else if s == 8 then 61 else if s == 9 then 58 else if s == 10 then 50
    else if s == 11 then 42 else if s == 12 then 38 else if s == 13 then 29 else if s == 14 then 17 else if s == 15 then 4
    else if s == 16 then 62 else if s == 17 then 55 else if s == 18 then 59 else if s == 19 then 36 else if s == 20 then 53
    else if s == 21 then 51 else if s == 22 then 43 else if s == 23 then 22 else if s == 24 then 45 else if s == 25 then 39
    else if s == 26 then 33 else if s == 27 then 30 else if s == 28 then 24 else if s == 29 then 18 else if s == 30 then 12
    else if s == 31 then 5 else if s == 32 then 63 else if s == 33 then 47 else if s == 34 then 56 else if s == 35 then 27
    else if s == 36 then 60 else if s == 37 then 41 else if s == 38 then 37 else if s == 39 then 16 else if s == 40 then 54
    else if s == 41 then 35 else if s == 42 then 52 else if s == 43 then 21 else if s == 44 then 44 else if s == 45 then 32
    else if s == 46 then 23 else if s == 47 then 11 else if s == 48 then 46 else if s == 49 then 26 else if s == 50 then 40
    else if s == 51 then 15 else if s == 52 then 34 else if s == 53 then 20 else if s == 54 then 31 else if s == 55 then 10
    else if s == 56 then 25 else if s == 57 then 14 else if s == 58 then 19 else if s == 59 then 9 else if s == 60 then 13
    else if s == 61 then 8 else if s == 62 then 7
    else 6
  }

  /** bitmap & -bitmap */
  function Lowest(b: bv64): bv64 {
    b & (!b + 1)
  }

  predicate IsPower(h: bv64) {
    h != 0 && h & (h - 1) == 0
  }

  /** h is a power of two, set in b, with nothing of b below it. */
  predicate IsBottomBit(b: bv64, h: bv64) {
    IsPower(h) && h & b == h && b & (h - 1) == 0
  }

  /** The De Bruijn product sends every bit to its own slot. */
  lemma OwnerOfSlot(p: bv6)
    ensures Owner(Slot(Bit(p))) == p
  {
    if p < 16 {
      FirstSlots(p);
    } else if p < 32 {
      SecondSlots(p);
    } else if p < 48 {
      ThirdSlots(p);
    } else {
      LastSlots(p);
    }
    hide Owner, Slot, Bit;
  }

  lemma FirstSlots(p: bv6)
    requires p < 16
    ensures Owner(Slot(Bit(p))) == p
  {
  }

  lemma SecondSlots(p: bv6)
    requires 16 <= p < 32
    ensures Owner(Slot(Bit(p))) == p
  {
  }

  lemma ThirdSlots(p: bv6)
    requires 32 <= p < 48
    ensures Owner(Slot(Bit(p))) == p
  {
  }

  lemma LastSlots(p: bv6)
    requires 48 <= p
    ensures Owner(Slot(Bit(p))) == p
  {
  }

  /** The position of a power of two, bit of the position by bit. */
  function Log(h: bv64): bv6 {
    (if h & 0xAAAA_AAAA_AAAA_AAAA != 0 then 1 else 0)
    | (if h & 0xCCCC_CCCC_CCCC_CCCC != 0 then 2 else 0)
    | (if h & 0xF0F0_F0F0_F0F0_F0F0 != 0 then 4 else 0)
    | (if h & 0xFF00_FF00_FF00_FF00 != 0 then 8 else 0)
    | (if h & 0xFFFF_0000_FFFF_0000 != 0 then 16 else 0)
    | (if h & 0xFFFF_FFFF_0000_0000 != 0 then 32 else 0)
  }

  lemma PowerIsBit(h: bv64)
    requires IsPower(h)
    ensures h == Bit(Log(h))
  {
  }

  lemma LowestIsBottom(b: bv64)
    requires b != 0
    ensures IsBottomBit(b, Lowest(b))
  {
    LowestIsPower(b);
    NothingBelow(b);
  }

  lemma LowestIsPower(b: bv64)
    requires b != 0
    ensures IsPower(b & (!b + 1)) && (b & (!b + 1)) & b == b & (!b + 1)
  {
  }

  lemma NothingBelow(b: bv64)
    ensures b & ((b & (!b + 1)) - 1) == 0
  {
  }

  lemma NotBelow(b: bv64, p: bv6, q: bv6)
    requires q < p && IsBottomBit(b, Bit(p))
    ensures !Has(b, q)
  {
  }

  lemma BottomIsSet(b: bv64, p: bv6)
    requires IsBottomBit(b, Bit(p))
    ensures Has(b, p)
  {
  }

  // ----- Positions as numbers -----

  lemma PositionRoundTrip(p: nat)
    requires p < VECTORS
    ensures (p as bv6) as int == p
  {
  }

  lemma PositionsOrdered(p: nat, q: nat)
    requires p < VECTORS && q < VECTORS
    ensures p as bv6 == q as bv6 <==> p == q
    ensures p as bv6 < q as bv6 <==> p < q
  {
    PositionRoundTrip(p);
    PositionRoundTrip(q);
  }

  /** The vectors set in a word. */
  predicate BitSet(b: bv64, v: nat)
    requires v < VECTORS
  {
    Has(b, v as bv6)
  }

  function Vectors(b: bv64): (s: set<int>)
    ensures forall v :: v in s <==> 0 <= v < VECTORS && BitSet(b, v)
  {
    set v: int | 0 <= v < VECTORS && BitSet(b, v)
  }

  function SetBit(b: bv64, v: nat): bv64
    requires v < VECTORS
  {
    With(b, v as bv6)
  }

  function ClearBit(b: bv64, v: nat): bv64
    requires v < VECTORS
  {
    Without(b, v as bv6)
  }

  lemma SetVector(b: bv64, v: nat)
    requires v < VECTORS
    ensures Vectors(SetBit(b, v)) == Vectors(b) + {v as int}
  {
    hide Has, With, Without;
    forall q: int | 0 <= q < VECTORS ensures BitSet(SetBit(b, v), q) <==> v == q || BitSet(b, q) {
      PositionsOrdered(v, q);
      BitAlgebra(b, v as bv6, q as bv6);
    }
  }

  lemma ClearVector(b: bv64, v: nat)
    requires v < VECTORS
    ensures Vectors(ClearBit(b, v)) == Vectors(b) - {v as int}
  {
    hide Has, With, Without;
    forall q: int | 0 <= q < VECTORS ensures BitSet(ClearBit(b, v), q) <==> v != q && BitSet(b, q) {
      PositionsOrdered(v, q);
      BitAlgebra(b, v as bv6, q as bv6);
    }
  }

  lemma BitAlgebra(b: bv64, p: bv6, q: bv6)
    ensures Has(With(b, p), q) <==> p == q || Has(b, q)
    ensures Has(Without(b, p), q) <==> p != q && Has(b, q)
  {
    hide Has, With, Without;
    if p == q {
      SameBit(b, p);
    } else {
      OtherSet(b, p, q);
      OtherCleared(b, p, q);
    }
  }

  lemma SameBit(b: bv64, p: bv6)
    ensures Has(With(b, p), p) && !Has(Without(b, p), p)
  {
  }

  lemma OtherSet(b: bv64, p: bv6, q: bv6)
    requires p != q
    ensures Has(With(b, p), q) == Has(b, q)
  {
    BitsDisjoint(p, q);
    OrMisses(b, Bit(p), Bit(q));
    hide Bit, Meets;
  }

  lemma OtherCleared(b: bv64, p: bv6, q: bv6)
    requires p != q
    ensures Has(Without(b, p), q) == Has(b, q)
  {
    BitsDisjoint(p, q);
    AndNotMisses(b, Bit(p), Bit(q));
    hide Bit, Meets;
  }

  lemma BitsDisjoint(p: bv6, q: bv6)
    requires p != q
    ensures Bit(p) & Bit(q) == 0
  {
    ShiftsDisjoint(p, q);
  }

  lemma ShiftsDisjoint(p: bv6, q: bv6)
    requires p != q
    ensures ((1 as bv64) << p) & ((1 as bv64) << q) == 0
  {
  }

  lemma OrMisses(b: bv64, x: bv64, y: bv64)
    requires x & y == 0
    ensures Meets(b | x, y) == Meets(b, y)
  {
    assert (b | x) & y == b & y;
  }

  lemma AndNotMisses(b: bv64, x: bv64, y: bv64)
    requires x & y == 0
    ensures Meets(b & !x, y) == Meets(b, y)
  {
    assert b & !x & y == b & y;
  }

  // ----- FindLowestSetBit -----

  /** Every slot holds the position of the bit that hashes to it. */
  ghost predicate TableBuilt(table: seq<nat>) {
    |table| == VECTORS && forall p: bv6 :: table[Slot(Bit(p)) as int] == p as int
  }

  function FindLowestSetBit(b: bv64, table: seq<nat>): int
    requires |table| == VECTORS
  {
    if b == 0 then -1 else table[Slot(Lowest(b)) as int]
  }

  /** For every word the scan gives its lowest vector, or -1 when there is none. */
  lemma FindsLowest(b: bv64, table: seq<nat>)
    requires TableBuilt(table)
    ensures var v := FindLowestSetBit(b, table);
            if b == 0 then v == -1 else 0 <= v < VECTORS && v in Vectors(b) && forall q | q in Vectors(b) :: v <= q
    ensures b == 0 <==> Vectors(b) == {}
  {
    if b == 0 {
      NoVectors();
    } else {
      hide Lowest, Slot, Bit, Has, BitSet;
      var p := LowestVector(b);
      LowestIsLeast(b, p);
    }
  }

  lemma LowestIsLeast(b: bv64, p: bv6)
    requires Has(b, p) && forall q: bv6 | q < p :: !Has(b, q)
    ensures p as int in Vectors(b) && forall q | q in Vectors(b) :: p as int <= q
  {
    hide Has;
    PositionFits(p);
    forall q: int | 0 <= q < VECTORS && q < p as int ensures !BitSet(b, q) {
      BelowPosition(p, q);
    }
  }

  lemma BelowPosition(p: bv6, q: nat)
    requires q < p as int
    ensures q < VECTORS && q as bv6 < p
  {
    PositionFits(p);
    PositionsOrdered(q, p as int);
  }

  lemma PositionFits(p: bv6)
    ensures p as int < VECTORS && (p as int) as bv6 == p
  {
  }

  lemma LowestVector(b: bv64) returns (p: bv6)
    requires b != 0
    ensures Lowest(b) == Bit(p) && Has(b, p) && forall q: bv6 | q < p :: !Has(b, q)
  {
    LowestIsBottom(b);
    assert IsPower(Lowest(b));
    PowerIsBit(Lowest(b));
    hide Lowest, IsBottomBit, IsPower, Log, Bit, Has;
    p := Log(Lowest(b));
    BottomIsSet(b, p);
    forall q: bv6 | q < p ensures !Has(b, q) {
      NotBelow(b, p, q);
    }
  }

  lemma NoVectors()
    ensures Vectors(0) == {}
  {
    forall v: int | 0 <= v < VECTORS ensures !BitSet(0, v) {
      ZeroHas(v as bv6);
    }
  }

  lemma ZeroHas(p: bv6)
    ensures !Has(0, p)
  {
  }

  lemma SlotsDiffer(p: bv6, q: bv6)
    requires p != q
    ensures Slot(Bit(p)) as int != Slot(Bit(q)) as int
  {
    OwnerOfSlot(p);
    OwnerOfSlot(q);
    hide Slot, Bit, Owner;
  }

  method BuildDeBruijnTable(table: array<nat>)
    requires table.Length == VECTORS
    modifies table
    ensures TableBuilt(table[..])
  {
    hide Slot, Bit, Owner;
    for v := 0 to VECTORS
      invariant forall p: bv6 | p as int < v :: table[Slot(Bit(p)) as int] == p as int
    {
      var k := v as bv6;
      PositionRoundTrip(v);
      forall p: bv6 | p as int < v ensures Slot(Bit(p)) as int != Slot(Bit(k)) as int {
        SlotsDiffer(p, k);
      }
      table[Slot(Bit(k)) as int] := v;
    }
  }
}
