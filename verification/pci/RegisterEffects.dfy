/** What a configuration write leaves in the registers of B_Kernel/bus/pci_logic.c, bit by bit and register by
    register. */
module RegisterEffects {
  import opened ConfigSpace
  import opened Words
  import opened Probing

  function Single(k: bv5): bv32 {
    1 << k
  }

  function And(x: bv32, y: bv32): bv32 {
    x & y
  }

  predicate IsZero(x: bv32) {
    x == 0
  }

  predicate Bit(x: bv32, k: bv5) {
    !IsZero(And(x, Single(k)))
  }

  // ----- The command register -----

  /** Header type 1, in the third byte of register 3, whether or not the multi-function bit is set. */
  predicate IsBridge(d: Device)
    requires WellFormed(d)
  {
    Number(d.config[3]) / 65536 % 256 in {1, 129}
  }

  function ClassCode(d: Device): nat
    requires WellFormed(d)
  {
    Number(d.config[2]) / 65536 / 256
  }

  /** I/O, memory and bus mastering everywhere; memory write and invalidate on bridges, storage, network and
      display; palette snooping on display; parity and system errors on bridges. */
  predicate Implemented(d: Device, k: bv5)
    requires WellFormed(d)
  {
    || k == 0 || k == 1 || k == 2
    || (k == 4 && (IsBridge(d) || ClassCode(d) in {1, 2, 3}))
    || (k == 5 && ClassCode(d) == 3)
    || (k == 6 && IsBridge(d)) || (k == 8 && IsBridge(d))
  }

  lemma NoneOrAll(x: bv32, k: bv5)
    ensures var b := Single(k); !IsZero(b) && (IsZero(And(x, b)) || And(x, b) == b)
  {
  }

  lemma MergedUnder(before: bv32, value: bv32, mask: bv32, b: bv32)
    requires And(mask, b) == b
    ensures And(Merged(before, value, mask), b) == And(value, b)
  {
  }

  lemma MergedBeside(before: bv32, value: bv32, mask: bv32, b: bv32)
    requires IsZero(And(mask, b))
    ensures And(Merged(before, value, mask), b) == And(before, b)
  {
  }

  lemma MergedBits(before: bv32, value: bv32, mask: bv32, k: bv5)
    ensures Bit(Merged(before, value, mask), k) <==> if Bit(mask, k) then Bit(value, k) else Bit(before, k)
  {
    hide IsZero, Single, And, Merged;
    NoneOrAll(mask, k);
    if Bit(mask, k) {
      MergedUnder(before, value, mask, Single(k));
    } else {
      MergedBeside(before, value, mask, Single(k));
    }
  }

  lemma MaskBits(k: bv5)
    ensures Bit(0x0007, k) <==> k == 0 || k == 1 || k == 2
    ensures Bit(0x0017, k) <==> k == 0 || k == 1 || k == 2 || k == 4
    ensures Bit(0x0037, k) <==> k == 0 || k == 1 || k == 2 || k == 4 || k == 5
    ensures Bit(0x0157, k) <==> k == 0 || k == 1 || k == 2 || k == 4 || k == 6 || k == 8
    ensures Bit(0x0177, k) <==> k == 0 || k == 1 || k == 2 || k == 4 || k == 5 || k == 6 || k == 8
  {
  }

  predicate TypeOne(x: bv32) {
    (x >> 16) & 0x7F == 1
  }

  predicate Class(x: bv32, code: bv32) {
    x >> 24 == code
  }

  lemma MaskValues(d: Device)
    requires WellFormed(d)
    ensures Class(d.config[2], 3) ==> CommandMask(d) == if TypeOne(d.config[3]) then 0x0177 else 0x0037
    ensures Class(d.config[2], 1) || Class(d.config[2], 2) ==>
              CommandMask(d) == if TypeOne(d.config[3]) then 0x0157 else 0x0017
    ensures !Class(d.config[2], 1) && !Class(d.config[2], 2) && !Class(d.config[2], 3) ==>
              CommandMask(d) == if TypeOne(d.config[3]) then 0x0157 else 0x0007
  {
  }

  lemma HeaderByte(x: bv32)
    ensures TypeOne(x) <==> Low8(High16(Extended(x))) == 1 || Low8(High16(Extended(x))) == 0x81
  {
  }

  lemma ClassByte(x: bv32)
    ensures Class(x, 1) <==> High8(High16(Extended(x))) == 1
    ensures Class(x, 2) <==> High8(High16(Extended(x))) == 2
    ensures Class(x, 3) <==> High8(High16(Extended(x))) == 3
    ensures !(Class(x, 1) && Class(x, 2)) && !(Class(x, 1) && Class(x, 3)) && !(Class(x, 2) && Class(x, 3))
  {
  }

  lemma SmallNumbers()
    ensures Value(0) == 0 && Value(1) == 1 && Value(2) == 2 && Value(3) == 3 && Value(8) == 8 && Value(0x81) == 129
  {
    assert Value(0) == 0;
    hide Value, Half, Odd, High4, Low4;
    SmallHalves();
    HalvesOfZero();
    ValueUnfolds(1);
    ValueUnfolds(2);
    ValueUnfolds(3);
    ValueUnfolds(4);
    ValueUnfolds(8);
    Split4(0x81);
  }

  lemma SmallHalves()
    ensures Half(2) == 1 && Half(3) == 1 && Half(4) == 2 && Half(8) == 4 && !Odd(2) && Odd(3) && !Odd(4) && !Odd(8)
    ensures High4(0x81) == 8 && Low4(0x81) == 1
  {
  }

  lemma HeaderNumber(x: bv32)
    ensures TypeOne(x) <==> Number(x) / 65536 % 256 in {1, 129}
  {
    hide Value, Low8, High16, Extended, TypeOne;
    HeaderByte(x);
    SmallNumbers();
    Fields(Extended(x));
    Fields(High16(Extended(x)));
    SameNumber(Low8(High16(Extended(x))), 1);
    SameNumber(Low8(High16(Extended(x))), 0x81);
  }

  lemma SameNumber(x: bv64, y: bv64)
    ensures x == y <==> Value(x) == Value(y)
  {
    hide Value;
    if Value(x) == Value(y) {
      ValueInjective(x, y);
    }
  }

  lemma ClassNumber(x: bv32)
    ensures Class(x, 1) <==> Number(x) / 65536 / 256 == 1
    ensures Class(x, 2) <==> Number(x) / 65536 / 256 == 2
    ensures Class(x, 3) <==> Number(x) / 65536 / 256 == 3
  {
    hide Value, High8, High16, Extended, Class;
    ClassByte(x);
    SmallNumbers();
    Fields(Extended(x));
    Fields(High16(Extended(x)));
    SameNumber(High8(High16(Extended(x))), 1);
    SameNumber(High8(High16(Extended(x))), 2);
    SameNumber(High8(High16(Extended(x))), 3);
  }

  /** A write to the command register changes the bits the function implements and no other. */
  lemma CommandWrite(d: Device, value: bv32, k: bv5)
    requires WellFormed(d)
    ensures Bit(Write(d, 1, value).config[1], k) <==>
              if Implemented(d, k) then Bit(value, k) else Bit(d.config[1], k)
  {
    hide Bit, Class, TypeOne, Merged, CommandMask, Number;
    MergedBits(d.config[1], value, CommandMask(d), k);
    MaskValues(d);
    MaskBits(k);
    HeaderNumber(d.config[3]);
    ClassNumber(d.config[2]);
  }

  // ----- Every register -----

  /** No write reaches another register; one outside the command and BAR registers stores the value; and only a
      BAR register starts or ends discovery. */
  lemma WriteElsewhere(d: Device, r: nat, value: bv32, s: nat)
    requires WellFormed(d) && r < REGISTERS && s < REGISTERS
    ensures s != r ==> Write(d, r, value).config[s] == d.config[s]
    ensures r != 1 && !(4 <= r < 10) ==> Write(d, r, value).config[r] == value
    ensures !(4 <= r < 10) ==> Write(d, r, value) == d.(config := Write(d, r, value).config)
  {
    hide Merged, CommandMask, Masked, LowMask, HighMask, BarType;
  }

  /** Reads outside the BAR registers never end discovery or answer with a mask. */
  lemma ReadElsewhere(d: Device, r: nat)
    requires WellFormed(d) && r < REGISTERS && !(4 <= r < 10)
    ensures Read(d, r) == (d, d.config[r])
  {
    hide BarType;
  }

  // ----- What probing reports, in numbers -----

  lemma FlagBits(raw: bv32)
    ensures IsIo(raw) <==> Odd(Extended(raw))
    ensures BarType(raw) == 2 <==> !Odd(Half(Extended(raw))) && Odd(Half(Half(Extended(raw))))
  {
  }

  lemma LastBits(x: bv64)
    ensures Value(x) % 2 == if Odd(x) then 1 else 0
    ensures Value(x) / 2 == Value(Half(x))
    ensures Value(x) == 4 * Value(Half(Half(x))) + (if Odd(Half(x)) then 2 else 0) + if Odd(x) then 1 else 0
  {
    hide Odd, Half, Value;
    ValueUnfolds(x);
    ValueUnfolds(Half(x));
  }

  /** Bit 0 of a BAR register marks I/O, and bits 1 and 2 hold 2 for a 64-bit memory BAR. */
  lemma FlagNumbers(raw: bv32)
    ensures IsIo(raw) <==> Number(raw) % 2 == 1
    ensures BarType(raw) == 2 <==> Number(raw) / 2 % 4 == 2
  {
    hide Odd, Half, Value, IsIo, BarType, Extended;
    FlagBits(raw);
    LastBits(Extended(raw));
    LastBits(Half(Extended(raw)));
  }

  lemma IoBase(raw: bv32)
    requires IsIo(raw)
    ensures Base32(raw) == raw & !3
  {
  }

  function NoFlags(x: bv64): bv64 {
    x & !3
  }

  lemma ExtendsNoFlags(raw: bv32)
    ensures Extended(raw & !3) == NoFlags(Extended(raw))
  {
  }

  function High2(x: bv64): bv64 {
    x >> 2
  }

  lemma TwoHalves(x: bv64)
    ensures High2(x) == Half(Half(x))
  {
  }

  lemma NoFlagsHigh(x: bv64)
    ensures High2(NoFlags(x)) == High2(x)
  {
  }

  lemma NoFlagsLow(x: bv64)
    ensures !Odd(NoFlags(x)) && !Odd(Half(NoFlags(x)))
  {
  }

  lemma IoBaseNumber(raw: bv32)
    ensures Number(raw & !3) == Number(raw) - Number(raw) % 4
  {
    ExtendsNoFlags(raw);
    NoFlagsHigh(Extended(raw));
    NoFlagsLow(Extended(raw));
    TwoHalves(NoFlags(Extended(raw)));
    TwoHalves(Extended(raw));
    LastBits(NoFlags(Extended(raw)));
    LastBits(Extended(raw));
    hide Value, Odd, Half, Extended, NoFlags, High2;
  }

  lemma MemoryBaseBits(raw: bv32)
    ensures Low4(Extended(raw & !0xF)) == 0 && High4(Extended(raw & !0xF)) == High4(Extended(raw))
  {
  }

  lemma MemoryBaseNumber(raw: bv32)
    ensures Number(raw & !0xF) == Number(raw) - Number(raw) % 16
  {
    SmallNumbers();
    MemoryBaseBits(raw);
    Split4(Extended(raw & !0xF));
    Fields(Extended(raw));
    hide Value, Low4, High4, Extended;
  }

  lemma MemoryBase(raw: bv32)
    requires !IsIo(raw)
    ensures Base32(raw) == raw & !0xF
  {
  }

  /** The address field of a BAR register: without the last two bits for I/O, the last four for memory. */
  lemma BaseNumber(raw: bv32)
    ensures Number(Base32(raw)) == Number(raw) - Number(raw) % (if Number(raw) % 2 == 1 then 4 else 16)
  {
    FlagNumbers(raw);
    if IsIo(raw) {
      IoBase(raw);
      IoBaseNumber(raw);
    } else {
      MemoryBase(raw);
      MemoryBaseNumber(raw);
    }
  }

  lemma WideParts(high: bv32, low: bv32)
    ensures var x := Wide(high, low);
            && High16(High16(x)) == Extended(high) && Low16(High16(x)) == High16(Extended(low))
            && Low16(x) == Low16(Extended(low))
  {
  }

  lemma WideNumber(high: bv32, low: bv32)
    ensures Value(Wide(high, low)) == 0x1_0000_0000 * Number(high) + Number(low)
  {
    hide Value, High16, Low16, Extended, Wide;
    WideParts(high, low);
    Split16(Wide(high, low));
    Split16(High16(Wide(high, low)));
    Split16(Extended(low));
  }

  lemma KindNumbers(info: BarInfo, raw: bv32)
    requires KindRight(info, raw)
    ensures (info.isIo <==> Number(raw) % 2 == 1) && !info.is64
    ensures Value(info.base) == Number(raw) - Number(raw) % if info.isIo then 4 else 16
  {
    FlagNumbers(raw);
    BaseNumber(raw);
    KindExtended(info, raw);
    hide *;
  }

  lemma KindExtended(info: BarInfo, raw: bv32)
    requires KindRight(info, raw)
    ensures info.base == Extended(Base32(raw)) && info.isIo == IsIo(raw) && !info.is64
  {
  }

  /** Probing an even-numbered 32-bit BAR reports I/O for an odd register, and the register's address field. */
  lemma ProbedNumbers(d: Device, bar: nat)
    requires Bar32(d, bar) && bar % 2 == 0
    ensures var info, raw := Probe(d, bar).1, Number(d.config[4 + bar]);
            && (info.isIo <==> raw % 2 == 1) && !info.is64
            && Value(info.base) == raw - raw % if info.isIo then 4 else 16
  {
    EvenBarRoundTrip(d, bar);
    KindNumbers(Probe(d, bar).1, d.config[4 + bar]);
    hide Value, Extended, Probe, LargeEnough, KindRight, Decodable;
  }

  lemma WideBaseNumber(raw: bv32, high: bv32)
    ensures Value(Base64(raw, high)) == 0x1_0000_0000 * Number(high) + (Number(raw) - Number(raw) % 16)
  {
    WideNumber(high, raw & !0xF);
    MemoryBaseNumber(raw);
    hide Value, Extended, Wide;
  }

  /** Probing a 64-bit BAR whose high register is even reports the address field of both registers. */
  lemma ProbedWideNumbers(d: Device, bar: nat)
    requires Bar64(d, bar) && Number(d.config[5 + bar]) % 2 == 0
    ensures var info := Probe(d, bar).1;
            var low, high := Number(d.config[4 + bar]), Number(d.config[5 + bar]);
            && !info.isIo && info.is64 && info.size == d.sizes[bar]
            && Value(info.base) == 0x1_0000_0000 * high + (low - low % 16)
  {
    WideBarRoundTripIff(d, bar);
    FlagNumbers(d.config[5 + bar]);
    WideBaseNumber(d.config[4 + bar], d.config[5 + bar]);
    hide Value, Extended, Base64, Probe, IsIo, Decodable64;
  }

  // ----- BARs that decode nothing, and odd-numbered ones -----

  /** An even-numbered BAR without a size, of a kind other than 64-bit, is left as it was and reported with the base
      and kind of its register, unless that is all ones. */
  lemma AbsentBar(d: Device, bar: nat)
    requires WellFormed(d) && Quiet(d) && bar < BARS && bar % 2 == 0 && d.sizes[bar] == 0
    requires IsIo(d.config[4 + bar]) || BarType(d.config[4 + bar]) != 2
    ensures Probe(d, bar).0 == d
    ensures if d.config[4 + bar] == ALL_ONES then Probe(d, bar).1 == NO_BAR
            else KindRight(Probe(d, bar).1, d.config[4 + bar])
  {
    RestoreAbsent(d, 4 + bar);
    AbsentKind(d.config[4 + bar]);
    hide KindRight, IsIo, BarType, InfoOfIo, InfoOfMemory, Checked;
  }

  lemma AbsentKind(raw: bv32)
    ensures raw == ALL_ONES ==> InfoOf32(raw, raw) == NO_BAR
    ensures raw != ALL_ONES ==> KindRight(InfoOf32(raw, raw), raw)
  {
    CheckedKeeps(InfoOfIo(raw, raw));
    CheckedKeeps(InfoOfMemory(raw, raw));
    if IsIo(raw) {
      RawIo(raw);
    } else {
      RawMemory(raw);
    }
    hide Checked, InfoOfIo, InfoOfMemory, IsIo, Base32;
  }

  lemma CheckedKeeps(info: BarInfo)
    ensures Checked(info) == info.(size := Checked(info).size) && Checked(NO_BAR) == NO_BAR
  {
  }

  lemma RawIo(raw: bv32)
    requires IsIo(raw)
    ensures raw == ALL_ONES ==> InfoOfIo(raw, raw) == NO_BAR
    ensures raw != ALL_ONES ==> KindRight(InfoOfIo(raw, raw), raw)
  {
    OddIsSet(raw);
    hide IsIo;
  }

  lemma OddIsSet(raw: bv32)
    ensures IsIo(raw) ==> raw != 0
    ensures IsIo(ALL_ONES) && !IsIo(0)
  {
  }

  lemma RawMemory(raw: bv32)
    requires !IsIo(raw)
    ensures raw != ALL_ONES && KindRight(InfoOfMemory(raw, raw), raw)
  {
    OddIsSet(raw);
    ZeroBase();
    hide IsIo;
  }

  lemma ZeroBase()
    ensures Base32(0) == 0
  {
  }

  lemma RestoreAbsent(d: Device, r: nat)
    requires WellFormed(d) && Quiet(d) && FIRST_BAR <= r < PAST_BARS && r % 2 == 0 && d.sizes[r - FIRST_BAR] == 0
    ensures Write(d, r, ALL_ONES) == d && Write(d, r, d.config[r]) == d && Read(d, r) == (d, d.config[r])
  {
    hide BarType;
  }

  /** The last BAR has no register for a high half: a 64-bit one there is reported as none. */
  lemma LastWideBar(d: Device)
    requires WellFormed(d) && Quiet(d) && !IsIo(d.config[9]) && BarType(d.config[9]) == 2
    ensures Probe(d, 5) == (d, NO_BAR)
  {
    hide IsIo, BarType;
  }

  /** What an assignment writes: the address, and the register's own flag bits. */
  function Flagged(address: bv64, raw: bv32): bv32 {
    if IsIo(raw) then IoValue(address, raw) else MemoryValue(address, raw)
  }

  /** Flags that are not all ones keep a write from starting discovery. */
  lemma FlaggedNotOnes(address: bv64, raw: bv32)
    requires FlagsOk(raw)
    ensures Flagged(address, raw) != ALL_ONES
  {
  }

  lemma AssignedOdd(d: Device, bar: nat, address: bv64)
    requires WellFormed(d) && Quiet(d) && bar < BARS && bar % 2 == 1 && FlagsOk(d.config[4 + bar])
    ensures Assigned(d, bar, address) == d.(config := d.config[4 + bar := Flagged(address, d.config[4 + bar])])
  {
    FlaggedNotOnes(address, d.config[4 + bar]);
    assert IsIo(d.config[4 + bar]) || BarType(d.config[4 + bar]) != 2;
    hide IsIo, BarType, IoValue, MemoryValue, Masked, LowMask, HighMask, FlagsOk;
  }

  lemma IoFlagged(address: bv64, raw: bv32)
    requires High16(High16(address)) == 0 && !Odd(address) && !Odd(Half(address))
    ensures High2(Extended(IoValue(address, raw))) == High2(address)
  {
  }

  lemma IoFlags(address: bv64, raw: bv32)
    ensures Odd(Extended(IoValue(address, raw))) == Odd(Extended(raw))
    ensures Odd(Half(Extended(IoValue(address, raw)))) == Odd(Half(Extended(raw)))
  {
  }

  lemma MemoryFlagged(address: bv64, raw: bv32)
    requires High16(High16(address)) == 0 && Low4(address) == 0
    ensures High4(Extended(MemoryValue(address, raw))) == High4(address)
    ensures Low4(Extended(MemoryValue(address, raw))) == Low4(Extended(raw))
  {
  }

  function TwoBits(x: bv64): nat {
    (if Odd(Half(x)) then 2 else 0) + if Odd(x) then 1 else 0
  }

  lemma SplitTwoBits(x: bv64)
    ensures Value(x) == 4 * Value(High2(x)) + TwoBits(x) && Value(x) % 4 == TwoBits(x)
  {
    hide Value, Odd, Half, High2;
    LastBits(x);
    TwoHalves(x);
  }

  lemma NoBits(x: bv64)
    requires TwoBits(x) == 0
    ensures !Odd(x) && !Odd(Half(x))
  {
    hide Odd, Half;
  }

  lemma SameTwoBits(address: bv64, raw: bv32)
    ensures TwoBits(Extended(IoValue(address, raw))) == TwoBits(Extended(raw))
  {
    hide Odd, Half, Extended, IoValue;
    IoFlags(address, raw);
  }

  lemma IoFlaggedNumber(address: bv64, raw: bv32)
    requires Value(address) < 0x1_0000_0000 && Value(address) % 4 == 0
    ensures Number(IoValue(address, raw)) == Value(address) + Number(raw) % 4
  {
    hide Value, High16, Odd, Half, High2, Extended, IoValue, TwoBits;
    HighIsZero(address);
    SplitTwoBits(address);
    NoBits(address);
    IoFlagged(address, raw);
    SplitTwoBits(Extended(raw));
    SameTwoBits(address, raw);
    SplitTwoBits(Extended(IoValue(address, raw)));
  }

  lemma HighIsZero(address: bv64)
    requires Value(address) < 0x1_0000_0000
    ensures High16(High16(address)) == 0
  {
    hide Value, High16, Low16;
    SmallNumbers();
    Fields(address);
    Fields(High16(address));
    ValueInjective(High16(High16(address)), 0);
  }

  lemma MemoryFlaggedNumber(address: bv64, raw: bv32)
    requires Value(address) < 0x1_0000_0000 && Value(address) % 16 == 0
    ensures Number(MemoryValue(address, raw)) == Value(address) + Number(raw) % 16
  {
    hide Value, High16, Low16, High4, Low4, Extended, MemoryValue;
    HighIsZero(address);
    SmallNumbers();
    Fields(address);
    ValueInjective(Low4(address), 0);
    Fields(Extended(raw));
    MemoryFlagged(address, raw);
    Split4(Extended(MemoryValue(address, raw)));
  }

  /** Assigning an odd-numbered BAR of its own stores the address with the register's flags: two bits for I/O, four
      for memory. No other register changes and discovery does not start. */
  lemma AssignedOddNumbers(d: Device, bar: nat, address: bv64)
    requires WellFormed(d) && Quiet(d) && bar < BARS && bar % 2 == 1 && FlagsOk(d.config[4 + bar])
    requires Value(address) < 0x1_0000_0000
    requires Value(address) % (if Number(d.config[4 + bar]) % 2 == 1 then 4 else 16) == 0
    ensures var raw := Number(d.config[4 + bar]);
            var d' := Assigned(d, bar, address);
            && d' == d.(config := d'.config) && (forall r | 0 <= r < REGISTERS && r != 4 + bar :: d'.config[r] == d.config[r])
            && Number(d'.config[4 + bar]) == Value(address) + raw % if raw % 2 == 1 then 4 else 16
  {
    FlagNumbers(d.config[4 + bar]);
    if IsIo(d.config[4 + bar]) {
      IoFlaggedNumber(address, d.config[4 + bar]);
    } else {
      MemoryFlaggedNumber(address, d.config[4 + bar]);
    }
    AssignedOdd(d, bar, address);
    hide Value, Extended, IsIo, IoValue, MemoryValue, Assigned, FlagsOk;
  }
}
