/** Registers and addresses of B_Kernel as numbers: 64-bit words read bit by bit, and what their fields and
    comparisons are in plain arithmetic. */
module Words {

  function Half(x: bv64): bv64 {
    x >> 1
  }

  predicate Odd(x: bv64) {
    x & 1 == 1
  }

  /** A 64-bit word as a number, bit by bit. */
  function Value(x: bv64): nat {
    if x == 0 then 0
    else
      HalfIsLess(x);
      2 * Value(Half(x)) + (if Odd(x) then 1 else 0)
  }

  lemma HalfIsLess(x: bv64)
    requires x != 0
    ensures Half(x) < x
  {
  }

  lemma HalvesOfZero()
    ensures Half(0) == 0 && !Odd(0) && Half(1) == 0 && Odd(1)
  {
  }

  lemma ValueUnfolds(x: bv64)
    ensures Value(x) == 2 * Value(Half(x)) + (if Odd(x) then 1 else 0)
  {
    HalvesOfZero();
    hide Half, Odd;
  }

  lemma OddOne(x: bv64)
    requires x != 0 && Half(x) == 0
    ensures Odd(x)
  {
  }

  lemma {:induction false} ValuePositive(x: bv64)
    requires x != 0
    ensures Value(x) > 0
  {
    ValueUnfolds(x);
    HalfIsLess(x);
    if Half(x) == 0 {
      OddOne(x);
    }
    hide Half, Odd, Value;
    if Half(x) != 0 {
      ValuePositive(Half(x));
    }
  }

  lemma SplitEqual(x: bv64, y: bv64)
    requires Half(x) == Half(y) && Odd(x) == Odd(y)
    ensures x == y
  {
  }

  /** Different words are different numbers. */
  lemma {:induction false} ValueInjective(x: bv64, y: bv64)
    requires Value(x) == Value(y)
    ensures x == y
    decreases x
  {
    if x == 0 {
      if y != 0 {
        ValuePositive(y);
      }
    } else {
      HalfIsLess(x);
      ValueUnfolds(x);
      ValueUnfolds(y);
      hide Half, Odd, Value;
      ValueInjective(Half(x), Half(y));
      SplitEqual(x, y);
    }
  }

  function AtMost(x: bv64, y: bv64): bool {
    x <= y
  }

  lemma HalvesAtMost(x: bv64, y: bv64)
    requires AtMost(x, y)
    ensures AtMost(Half(x), Half(y))
  {
  }

  lemma LastBitAtMost(x: bv64, y: bv64)
    requires AtMost(x, y) && Half(x) == Half(y) && Odd(x)
    ensures Odd(y)
  {
  }

  lemma ZeroAtMost(x: bv64, y: bv64)
    requires AtMost(x, y) && y == 0
    ensures x == 0
  {
  }

  lemma {:induction false} Monotone(x: bv64, y: bv64)
    requires AtMost(x, y)
    ensures Value(x) <= Value(y)
    decreases Value(y)
  {
    hide Half, Odd, Value, AtMost;
    ValueUnfolds(x);
    ValueUnfolds(y);
    if y == 0 {
      ZeroAtMost(x, y);
    } else {
      ValuePositive(y);
      HalvesAtMost(x, y);
      Monotone(Half(x), Half(y));
      if Value(Half(x)) == Value(Half(y)) {
        ValueInjective(Half(x), Half(y));
        if Odd(x) {
          LastBitAtMost(x, y);
        }
      }
    }
  }

  lemma Total(x: bv64, y: bv64)
    ensures AtMost(x, y) || AtMost(y, x)
    ensures AtMost(x, x)
  {
  }

  /** Unsigned comparison of words is comparison of numbers. */
  lemma Ordered(x: bv64, y: bv64)
    ensures AtMost(x, y) <==> Value(x) <= Value(y)
  {
    hide Value, AtMost;
    Total(x, y);
    if AtMost(x, y) {
      Monotone(x, y);
    } else {
      Monotone(y, x);
      if Value(x) == Value(y) {
        ValueInjective(x, y);
        Total(x, x);
      }
    }
  }

  // ----- Fields -----

  function Low4(x: bv64): bv64 {
    x & 0xF
  }

  function High4(x: bv64): bv64 {
    x >> 4
  }

  function Low8(x: bv64): bv64 {
    x & 0xFF
  }

  function High8(x: bv64): bv64 {
    x >> 8
  }

  function Low16(x: bv64): bv64 {
    x & 0xFFFF
  }

  function High16(x: bv64): bv64 {
    x >> 16
  }

  lemma FourHalves(x: bv64)
    ensures High4(x) == Half(Half(Half(Half(x)))) && Half(Half(Half(Half(Low4(x))))) == 0
    ensures Odd(Low4(x)) == Odd(x) && Odd(Half(Low4(x))) == Odd(Half(x))
    ensures Odd(Half(Half(Low4(x)))) == Odd(Half(Half(x)))
    ensures Odd(Half(Half(Half(Low4(x))))) == Odd(Half(Half(Half(x))))
  {
  }

  lemma Unfolds4(x: bv64)
    ensures var h1, h2, h3 := Half(x), Half(Half(x)), Half(Half(Half(x)));
            Value(x) == 16 * Value(Half(h3)) + (if Odd(h3) then 8 else 0) + (if Odd(h2) then 4 else 0)
                        + (if Odd(h1) then 2 else 0) + (if Odd(x) then 1 else 0)
  {
    hide Half, Odd, Value;
    ValueUnfolds(x);
    ValueUnfolds(Half(x));
    ValueUnfolds(Half(Half(x)));
    ValueUnfolds(Half(Half(Half(x))));
  }

  /** A word is sixteen times its upper digits plus its last hexadecimal digit; likewise for bytes and
      halfwords. */
  lemma Split4(x: bv64)
    ensures Value(x) == 16 * Value(High4(x)) + Value(Low4(x)) && Value(Low4(x)) < 16
  {
    assert Value(0) == 0;
    hide Half, Odd, Value, High4, Low4;
    FourHalves(x);
    Unfolds4(x);
    Unfolds4(Low4(x));
  }

  lemma Digits8(x: bv64)
    ensures High8(x) == High4(High4(x)) && High4(Low8(x)) == Low4(High4(x)) && Low4(Low8(x)) == Low4(x)
  {
  }

  lemma Split8(x: bv64)
    ensures Value(x) == 256 * Value(High8(x)) + Value(Low8(x)) && Value(Low8(x)) < 256
  {
    hide Value, High4, Low4, High8, Low8;
    Digits8(x);
    Split4(x);
    Split4(High4(x));
    Split4(Low8(x));
  }

  lemma Digits16(x: bv64)
    ensures High16(x) == High8(High8(x)) && High8(Low16(x)) == Low8(High8(x)) && Low8(Low16(x)) == Low8(x)
  {
  }

  lemma Split16(x: bv64)
    ensures Value(x) == 65536 * Value(High16(x)) + Value(Low16(x)) && Value(Low16(x)) < 65536
  {
    hide Value, High8, Low8, High16, Low16;
    Digits16(x);
    Split8(x);
    Split8(High8(x));
    Split8(Low16(x));
  }

  /** Quotients and remainders. */
  lemma Fields(x: bv64)
    ensures Value(High4(x)) == Value(x) / 16 && Value(Low4(x)) == Value(x) % 16
    ensures Value(High8(x)) == Value(x) / 256 && Value(Low8(x)) == Value(x) % 256
    ensures Value(High16(x)) == Value(x) / 65536 && Value(Low16(x)) == Value(x) % 65536
  {
    hide Value, High4, Low4, High8, Low8, High16, Low16;
    Split4(x);
    Split8(x);
    Split16(x);
  }

  function Extended(x: bv32): bv64 {
    x as bv64
  }

  /** A register as a number. */
  function Number(x: bv32): nat {
    Value(Extended(x))
  }
}
