/** Routed reads and writes of B_Kernel/mmio/mmio_router.c in plain numbers: which accesses are aligned, and which
    byte of a value goes to which address. */
module AccessEffects {
  import opened ConfigSpace
  import opened Routing
  import opened Words
  import opened MaskRounding
  import opened RoutedMemory
  import RoutingEffects

  // ----- Alignment -----

  lemma SmallSizes()
    ensures PowerOfTwo(1) && PowerOfTwo(2) && PowerOfTwo(4) && PowerOfTwo(8)
    ensures Half(2) == 1 && Half(4) == 2 && Half(8) == 4 && !Odd(2) && !Odd(4) && !Odd(8)
  {
  }

  lemma SizeNumbers()
    ensures Value(1) == 1 && Value(2) == 2 && Value(4) == 4 && Value(8) == 8
  {
    assert Value(0) == 0;
    hide Value, Half, Odd;
    SmallSizes();
    HalvesOfZero();
    ValueUnfolds(1);
    ValueUnfolds(2);
    ValueUnfolds(4);
    ValueUnfolds(8);
  }

  /** The width as a 64-bit size. */
  function SizeOf(w: Width): bv64 {
    match w case W1 => 1 case W2 => 2 case W4 => 4 case _ => 8
  }

  predicate Vanishes(x: bv64) {
    x == 0
  }

  lemma AlignedOffset(addr: bv64, w: Width)
    requires w != Other
    ensures Aligned(addr, w) <==> Vanishes(Offset(SizeOf(w), addr))
  {
  }

  lemma VanishesIff(x: bv64)
    ensures Vanishes(x) <==> Value(x) == 0
  {
    if x != 0 {
      ValuePositive(x);
    }
  }

  /** Aligned is a multiple of the width; no other width is. */
  lemma AlignedIff(addr: bv64, w: Width)
    ensures Aligned(addr, w) <==> w != Other && Value(addr) % (if w == Other then 1 else Count(w)) == 0
  {
    if w == Other {
      return;
    }
    hide Value, Offset, Aligned, Vanishes, PowerOfTwo, Half, Odd;
    SmallSizes();
    SizeNumbers();
    AlignedOffset(addr, w);
    OffsetIsRemainder(addr, SizeOf(w));
    VanishesIff(Offset(SizeOf(w), addr));
  }

  // ----- Lanes -----

  function Next(x: bv64): bv64 {
    x + 1
  }

  const LAST: bv64 := 0xFFFF_FFFF_FFFF_FFFF

  lemma NextHalves(x: bv64)
    ensures x != LAST && Odd(x) ==> Half(Next(x)) == Next(Half(x)) && !Odd(Next(x))
    ensures !Odd(x) ==> Half(Next(x)) == Half(x) && Odd(Next(x))
    ensures Half(x) != LAST
  {
  }

  lemma {:induction false} NextNumber(x: bv64)
    requires x != LAST
    ensures Value(Next(x)) == Value(x) + 1
    decreases Value(x)
  {
    hide Value, Half, Odd, Next;
    NextHalves(x);
    ValueUnfolds(x);
    ValueUnfolds(Next(x));
    if Odd(x) {
      NextNumber(Half(x));
    }
  }

  lemma LastHalfwords()
    ensures Low16(LAST) == 0xFFFF && Low16(High16(LAST)) == 0xFFFF && Low16(High16(High16(LAST))) == 0xFFFF
    ensures High16(High16(High16(LAST))) == 0xFFFF
  {
  }

  lemma LastNumber()
    ensures Value(LAST) == 0xFFFF_FFFF_FFFF_FFFF
  {
    hide Value, High16, Low16;
    LastHalfwords();
    RoutingEffects.OnesNumbers();
    Split16(LAST);
    Split16(High16(LAST));
    Split16(High16(High16(LAST)));
  }

  lemma WordNext(k: nat)
    requires k < 8
    ensures Word(0) == 0 && Word(k + 1) == Next(Word(k))
  {
  }

  lemma PlusZero(a: bv64)
    ensures Plus(a, 0) == a
  {
  }

  lemma PlusNext(a: bv64, b: bv64, c: bv64)
    requires c == b + 1
    ensures Plus(a, c) == Next(Plus(a, b))
  {
    assert c - 1 == b;
  }

  lemma NextIs(a: bv64)
    ensures Next(a) == a + 1
  {
  }

  lemma LaneNext(addr: bv64, k: nat)
    requires k < 8
    ensures Lane(addr, 0) == addr && Lane(addr, k + 1) == Next(Lane(addr, k))
  {
    hide Word, Plus, Next;
    WordNext(k);
    NextIs(Word(k));
    PlusZero(addr);
    PlusNext(addr, Word(k), Word(k + 1));
  }

  /** Byte k of an access lies k addresses on. */
  lemma {:induction false} LaneNumber(addr: bv64, k: nat)
    requires k <= 8 && Value(addr) + k < 0x1_0000_0000_0000_0000
    ensures Value(Lane(addr, k)) == Value(addr) + k
  {
    hide Value, Lane, Next;
    LaneNext(addr, if k == 0 then 0 else k - 1);
    if k > 0 {
      LaneNumber(addr, k - 1);
      LastNumber();
      NextNumber(Lane(addr, k - 1));
    }
  }

  // ----- Bytes -----

  /** Digit k of a number in base 256, from the low end. */
  function Digit(n: nat, k: nat): nat {
    if k == 0 then n % 256 else Digit(n / 256, k - 1)
  }

  function Octet(b: bv8): bv64 {
    b as bv64
  }

  lemma ByteNext(v: bv64, k: nat)
    requires k < 7
    ensures Byte(v, k + 1) == Byte(High8(v), k)
  {
    if k < 3 {
      LowByteNext(v, k);
    } else {
      HighByteNext(v, k);
    }
    hide Byte, High8;
  }

  lemma LowByteNext(v: bv64, k: nat)
    requires k < 3
    ensures Byte(v, k + 1) == Byte(High8(v), k)
  {
  }

  lemma HighByteNext(v: bv64, k: nat)
    requires 3 <= k < 7
    ensures Byte(v, k + 1) == Byte(High8(v), k)
  {
  }

  lemma FirstByte(v: bv64)
    ensures Octet(Byte(v, 0)) == Low8(v)
  {
  }

  /** The bytes of a value are its digits, from the low end. */
  lemma {:induction false} ByteNumber(v: bv64, k: nat)
    requires k < 8
    ensures Value(Octet(Byte(v, k))) == Digit(Value(v), k)
    decreases k
  {
    hide Value, Octet, Byte, Low8, High8;
    FirstByte(v);
    Fields(v);
    if k > 0 {
      ByteNext(v, k - 1);
      ByteNumber(High8(v), k - 1);
    }
  }

  /** The word of fewer than eight bytes has nothing above them. */
  lemma UpperBytes(s: seq<bv8>, k: nat)
    requires |s| in {1, 2, 4, 8} && |s| <= k < 8
    ensures Byte(Join(s), k) == 0
  {
    if |s| == 1 {
      OneAbove(s[0], k);
    } else if |s| == 2 {
      TwoAbove(s[0], s[1], k);
    } else {
      FourAbove(s[0], s[1], s[2], s[3], k);
    }
    hide Byte, Pair, Pairs;
  }

  lemma OneAbove(a: bv8, k: nat)
    requires 1 <= k < 8
    ensures Byte(a as bv64, k) == 0
  {
  }

  lemma TwoAbove(a: bv8, b: bv8, k: nat)
    requires 2 <= k < 8
    ensures Byte(Pair(a, b), k) == 0
  {
  }

  lemma FourAbove(a: bv8, b: bv8, c: bv8, d: bv8, k: nat)
    requires 4 <= k < 8
    ensures Byte(Pairs(Pair(a, b), Pair(c, d)), k) == 0
  {
  }

  // ----- Reads -----

  lemma OctetZero()
    ensures Octet(0) == 0 && Value(0) == 0
  {
  }

  /** An aligned read, digit by digit: digit k is the byte k addresses on, and nothing stands above the width. */
  lemma ReadDigits(devs: seq<Context>, mem: Memory, addr: bv64, w: Width, k: nat)
    requires Routable(devs) && MemoryOf(devs, mem) && Aligned(addr, w) && k < 8
    ensures Digit(Value(RouteRead(devs, mem, addr, w)), k)
         == if k < Count(w) then Value(Octet(Flat(devs, mem, Lane(addr, k)))) else 0
  {
    hide Value, Octet, Byte, Join, RouteRead, Flat, Lane, Digit, BarsWide, DistinctFunctions;
    AlignedIff(addr, w);
    ReadIsFlat(devs, mem, addr, w);
    ByteNumber(RouteRead(devs, mem, addr, w), k);
    if k < Count(w) {
      JoinSplit(FlatBytes(devs, mem, addr, w), w);
    } else {
      OctetZero();
      UpperBytes(FlatBytes(devs, mem, addr, w), k);
    }
  }

  /** A misaligned read is all ones in its width. */
  lemma MisalignedRead(devs: seq<Context>, mem: Memory, addr: bv64, w: Width, k: nat)
    requires Routable(devs) && MemoryOf(devs, mem) && !Aligned(addr, w) && w != Other && k < 8
    ensures Byte(RouteRead(devs, mem, addr, w), k) == if k < Count(w) then 0xFF else 0
  {
    ReadIsFlat(devs, mem, addr, w);
    OnesBytes(w, k);
    hide RouteRead, Byte, AllOnes;
  }

  lemma OnesBytes(w: Width, k: nat)
    requires w != Other && k < 8
    ensures Byte(AllOnes(w), k) == if k < Count(w) then 0xFF else 0
  {
  }

  /** BAR memory that was never written reads as zero wherever a device answers. */
  lemma FreshReadsZero(devs: seq<Context>, mem: Memory, addr: bv64)
    requires Routable(devs) && MemoryOf(devs, mem) && Find(devs, addr, false).Found?
    requires forall i, b | 0 <= i < |mem| && 0 <= b < BARS :: mem[i][b] == map[]
    ensures Flat(devs, mem, addr) == 0
  {
    FoundCell(devs, addr);
    hide Find, BarClaims, MatchAt, CellOf;
  }
}
