/** The expression x & ~(size - 1) of B_Kernel/device/OS_device.c on 64-bit words: for a power of two it rounds
    down to a multiple, as Allocation has it. */
module MaskRounding {
  import opened Allocation
  import opened ConfigSpace
  import opened Routing
  import opened Words

  function Below(size: bv64): bv64 {
    size - 1
  }

  function Cleared(x: bv64, m: bv64): bv64 {
    x & !m
  }

  function WithoutTopBit(m: bv64): bv64 {
    m & 0x7FFF_FFFF_FFFF_FFFF
  }

  lemma TopClears(size: bv64, x: bv64)
    ensures Top(size, x) == Cleared(x, Below(size))
  {
  }

  lemma HalfOfCleared(x: bv64, m: bv64)
    ensures Half(Cleared(x, m)) == Cleared(Half(x), Half(m))
  {
  }

  lemma HalfOfBelow(size: bv64)
    requires !Odd(size)
    ensures Half(Below(size)) == WithoutTopBit(Below(Half(size))) && Odd(Below(size))
  {
  }

  lemma HalfIgnoresTopBit(x: bv64, m: bv64)
    ensures Cleared(Half(x), WithoutTopBit(m)) == Cleared(Half(x), m)
  {
  }

  lemma OddMaskClears(x: bv64, m: bv64)
    requires Odd(m)
    ensures !Odd(Cleared(x, m))
  {
  }

  lemma PowerHalves(size: bv64)
    requires PowerOfTwo(size) && size != 1
    ensures PowerOfTwo(Half(size)) && !Odd(size) && Half(size) < size
  {
  }

  /** Masking by an even power of two clears bit 0 and masks the rest by half the power. */
  lemma MaskHalves(x: bv64, size: bv64)
    requires PowerOfTwo(size) && size != 1
    ensures !Odd(Top(size, x)) && Half(Top(size, x)) == Top(Half(size), Half(x))
  {
    hide Half, Odd, Below, Cleared, WithoutTopBit, Top, PowerOfTwo;
    PowerHalves(size);
    TopClears(size, x);
    TopClears(Half(size), Half(x));
    HalfOfCleared(x, Below(size));
    HalfOfBelow(size);
    HalfIgnoresTopBit(x, Below(Half(size)));
    OddMaskClears(x, Below(size));
  }

  lemma MaskByOne(x: bv64)
    ensures Top(1, x) == x
  {
  }

  lemma RoundedByOne(x: bv64)
    ensures Value(1) == 1 && RoundedDown(Value(x), Value(1)) == Value(x)
  {
    ValueUnfolds(1);
    HalvesOfZero();
  }

  lemma RoundingDoubles(v: nat, s: nat, b: nat)
    requires s > 0 && b < 2
    ensures RoundedDown(2 * v + b, 2 * s) == 2 * RoundedDown(v, s)
  {
    var q, r := v / s, v % s;
    assert v == s * q + r;
    assert 2 * v + b == 2 * s * q + (2 * r + b);
    ModUnique(2 * v + b, 2 * s, q, 2 * r + b);
  }

  lemma PowerPositive(size: bv64)
    requires PowerOfTwo(size)
    ensures Value(size) > 0
  {
    ValuePositive(size);
  }

  /** x & ~(size - 1) is x rounded down to a multiple of size, for every power of two. */
  lemma {:induction false} MaskRounds(x: bv64, size: bv64)
    requires PowerOfTwo(size)
    ensures Value(Top(size, x)) == RoundedDown(Value(x), Value(size))
    decreases size
  {
    hide PowerOfTwo, Top, Value, RoundedDown, Half, Odd;
    if size == 1 {
      MaskByOne(x);
      RoundedByOne(x);
    } else {
      MaskHalves(x, size);
      PowerHalves(size);
      MaskRounds(Half(x), Half(size));
      ValueUnfolds(x);
      ValueUnfolds(size);
      ValueUnfolds(Top(size, x));
      PowerPositive(Half(size));
      RoundingDoubles(Value(Half(x)), Value(Half(size)), if Odd(x) then 1 else 0);
    }
  }

  // ----- Offsets -----

  lemma OffsetByOne(x: bv64)
    ensures Offset(1, x) == 0
  {
  }

  function Kept(x: bv64, m: bv64): bv64 {
    x & m
  }

  lemma OffsetMasks(size: bv64, x: bv64)
    ensures Offset(size, x) == Kept(x, Below(size))
  {
  }

  lemma HalfOfMasked(x: bv64, m: bv64)
    ensures Half(Kept(x, m)) == Kept(Half(x), Half(m)) && (Odd(m) ==> Odd(Kept(x, m)) == Odd(x))
  {
  }

  lemma HalfKeepsNoTopBit(x: bv64, m: bv64)
    ensures Kept(Half(x), WithoutTopBit(m)) == Kept(Half(x), m)
  {
  }

  /** The bits below an even power of two are the last one and, shifted, those below half the power. */
  lemma OffsetHalves(x: bv64, size: bv64)
    requires PowerOfTwo(size) && size != 1
    ensures Odd(Offset(size, x)) == Odd(x) && Half(Offset(size, x)) == Offset(Half(size), Half(x))
  {
    hide Half, Odd, Below, WithoutTopBit, Kept, Offset, PowerOfTwo;
    PowerHalves(size);
    OffsetMasks(size, x);
    OffsetMasks(Half(size), Half(x));
    HalfOfMasked(x, Below(size));
    HalfOfBelow(size);
    HalfKeepsNoTopBit(x, Below(Half(size)));
  }

  lemma RemainderDoubles(v: nat, s: nat, b: nat)
    requires s > 0 && b < 2
    ensures (2 * v + b) % (2 * s) == 2 * (v % s) + b
  {
    var q, r := v / s, v % s;
    assert v == s * q + r;
    assert 2 * v + b == 2 * s * q + (2 * r + b);
    ModUnique(2 * v + b, 2 * s, q, 2 * r + b);
  }

  /** x & (size - 1) is the remainder of x, for every power of two. */
  lemma {:induction false} OffsetIsRemainder(x: bv64, size: bv64)
    requires PowerOfTwo(size)
    ensures Value(size) > 0 && Value(Offset(size, x)) == Value(x) % Value(size)
    decreases Value(size)
  {
    hide PowerOfTwo, Offset, Half, Odd, Value;
    PowerPositive(size);
    if size == 1 {
      OffsetByOne(x);
      RemainderByOne(x);
    } else {
      OffsetHalves(x, size);
      PowerHalves(size);
      ValueUnfolds(size);
      OffsetIsRemainder(Half(x), Half(size));
      ValueUnfolds(x);
      ValueUnfolds(Offset(size, x));
      RemainderDoubles(Value(Half(x)), Value(Half(size)), if Odd(x) then 1 else 0);
    }
  }

  lemma RemainderByOne(x: bv64)
    ensures Value(0) == 0 && Value(x) % Value(1) == 0
  {
    ValueUnfolds(1);
    HalvesOfZero();
  }
}
