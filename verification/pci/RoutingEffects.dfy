/** Which device B_Kernel/mmio/mmio_router.c finds, in plain numbers: command bits, bus numbers and windows read
    off the registers, and the first of all ways that lead to a BAR holding the address. */
module RoutingEffects {
  import opened ConfigSpace
  import opened Routing
  import opened Words
  import opened MaskRounding
  import Allocation
  import AssignedRouting

  // ----- Registers as numbers -----

  /** I/O decoding is bit 0 of the command register, memory decoding bit 1. */
  predicate Decodes(c: Context, io: bool)
    requires ContextOk(c)
  {
    if io then Number(c.config[1]) % 2 == 1 else Number(c.config[1]) / 2 % 2 == 1
  }

  lemma CommandBits(x: bv32)
    ensures CommandBit(x, true) <==> Odd(Extended(x))
    ensures CommandBit(x, false) <==> Odd(Half(Extended(x)))
  {
  }

  lemma LastBit(x: bv64)
    ensures Value(x) % 2 == 1 <==> Odd(x)
    ensures Value(x) / 2 == Value(Half(x))
  {
    hide Odd, Half, Value;
    ValueUnfolds(x);
  }

  lemma EnabledIff(c: Context, io: bool)
    requires ContextOk(c)
    ensures Enabled(c, io) <==> Decodes(c, io)
  {
    hide Odd, Half, Value, CommandBit, Extended;
    CommandBits(c.config[1]);
    LastBit(Extended(c.config[1]));
    LastBit(Half(Extended(c.config[1])));
  }

  /** The secondary bus is the second byte of register 6, the subordinate the third. */
  function BusBehind(c: Context): nat
    requires ContextOk(c)
  {
    Number(c.config[6]) / 256 % 256
  }

  function LastBus(c: Context): nat
    requires ContextOk(c)
  {
    Number(c.config[6]) / 65536 % 256
  }

  lemma ByteFields(x: bv32)
    ensures Extended(SecondByte(x)) == Low8(High8(Extended(x)))
    ensures Extended(ThirdByte(x)) == Low8(High16(Extended(x)))
  {
  }

  lemma BusNumbers(c: Context)
    requires ContextOk(c)
    ensures Secondary(c) == BusBehind(c) && Subordinate(c) == LastBus(c)
  {
    hide Value, Low8, High8, High16, Low16, Low4, High4, Extended, SecondByte, ThirdByte;
    var x := Extended(c.config[6]);
    ByteFields(c.config[6]);
    Fields(x);
    Fields(High8(x));
    Fields(High16(x));
  }

  // ----- Windows -----

  /** A window of whole blocks, unless base or limit field is zero; the low digit of a field is no address. */
  predicate Spans(base: nat, limit: nat, first: nat, last: nat, block: nat) {
    base != 0 && limit != 0 && first <= block <= last
  }

  /** The memory window: megabytes numbered by the two halves of register 8. */
  predicate MemoryAdmits(c: Context, addr: bv64)
    requires ContextOk(c)
  {
    var base, limit := Number(c.config[8]) % 65536, Number(c.config[8]) / 65536;
    Spans(base, limit, base / 16, limit / 16, Value(addr) / 0x10_0000)
  }

  /** The prefetchable window: the same in register 9, with the upper halves of 64-bit bounds in 10 and 11; the
      upper limit counts only when the upper base is not zero. */
  predicate PrefetchAdmits(c: Context, addr: bv64)
    requires ContextOk(c)
  {
    var base, limit := Number(c.config[9]) % 65536, Number(c.config[9]) / 65536;
    var upper := Number(c.config[10]);
    var upperLimit := if upper == 0 then 0 else Number(c.config[11]);
    Spans(base, limit, 4096 * upper + base / 16, 4096 * upperLimit + limit / 16, Value(addr) / 0x10_0000)
  }

  /** The I/O window: 4 KB blocks of sixteen-bit ports numbered by the two lowest bytes of register 7. */
  predicate PortsAdmit(c: Context, addr: bv64)
    requires ContextOk(c)
  {
    var base, limit := Number(c.config[7]) % 256, Number(c.config[7]) / 256 % 256;
    Spans(base, limit, base / 16, limit / 16, Value(addr) % 65536 / 4096)
  }

  predicate Admits(c: Context, addr: bv64, io: bool)
    requires ContextOk(c)
  {
    if io then PortsAdmit(c, addr) else MemoryAdmits(c, addr) || PrefetchAdmits(c, addr)
  }

  lemma HalfFields(x: bv32)
    ensures LowHalf(x) == Low16(Extended(x)) && HighHalf(x) == High16(Extended(x))
  {
  }

  predicate Halfword(x: bv64) {
    x <= 0xFFFF
  }

  lemma HalfNumbers(x: bv32)
    ensures Value(LowHalf(x)) == Number(x) % 65536 && Value(HighHalf(x)) == Number(x) / 65536
    ensures Halfword(LowHalf(x)) && Halfword(HighHalf(x))
  {
    assert Halfword(LowHalf(x)) && Halfword(HighHalf(x));
    hide Value, Low16, High16, Low4, High4, Low8, High8, LowHalf, HighHalf, Extended, Halfword;
    HalfFields(x);
    Fields(Extended(x));
  }

  lemma StartDigits(base: bv64, upper: bv32)
    requires Halfword(base)
    ensures Low16(Start(base, upper)) == 0 && Low4(Low16(High16(Start(base, upper)))) == 0
    ensures High16(High16(Start(base, upper))) == Extended(upper)
  {
  }

  lemma StartField(base: bv64, upper: bv32)
    requires Halfword(base)
    ensures High4(Low16(High16(Start(base, upper)))) == High4(base)
  {
  }

  lemma EndDigits(limit: bv64, upper: bv32)
    requires Halfword(limit)
    ensures Low16(End(limit, upper)) == 0xFFFF && Low4(Low16(High16(End(limit, upper)))) == 0xF
    ensures High4(Low16(High16(End(limit, upper)))) == High4(limit)
    ensures High16(High16(End(limit, upper))) == Extended(upper)
  {
  }

  lemma LowOnes()
    ensures Half(0xF) == 7 && Half(7) == 3 && Half(3) == 1 && Odd(0xF) && Odd(7) && Odd(3)
    ensures High4(0xFF) == 0xF && Low4(0xFF) == 0xF && High8(0xFFFF) == 0xFF && Low8(0xFFFF) == 0xFF
  {
  }

  lemma OnesNumbers()
    ensures Value(0) == 0 && Value(0xF) == 15 && Value(0xFF) == 255 && Value(0xFFFF) == 65535
  {
    assert Value(0) == 0;
    hide Value, Half, Odd, High4, Low4, High8, Low8;
    LowOnes();
    HalvesOfZero();
    ValueUnfolds(1);
    ValueUnfolds(3);
    ValueUnfolds(7);
    ValueUnfolds(0xF);
    Split4(0xFF);
    Split8(0xFFFF);
  }

  /** A memory bound's four digits of sixteen bits, from the top: the upper half, the field without its last
      digit, and all zeros or all ones. */
  lemma BoundNumbers(base: bv64, limit: bv64, upper: bv32)
    requires Halfword(base) && Halfword(limit)
    ensures Value(Start(base, upper)) == 0x10_0000 * (4096 * Number(upper) + Value(base) / 16)
    ensures Value(End(limit, upper)) == 0x10_0000 * (4096 * Number(upper) + Value(limit) / 16) + 0xF_FFFF
  {
    hide Value, High4, High16, Low4, Low16, Start, End, Halfword, Extended;
    StartDigits(base, upper);
    StartField(base, upper);
    EndDigits(limit, upper);
    OnesNumbers();
    Fields(base);
    Fields(limit);
    BoundNumber(Start(base, upper));
    BoundNumber(End(limit, upper));
  }

  lemma BoundNumber(x: bv64)
    ensures Value(x) == 0x1_0000_0000 * Value(High16(High16(x))) + 0x10_0000 * Value(High4(Low16(High16(x))))
                        + 65536 * Value(Low4(Low16(High16(x)))) + Value(Low16(x))
  {
    hide Value, High4, High16, Low4, Low16;
    Split16(x);
    Split16(High16(x));
    Split4(Low16(High16(x)));
  }

  /** At or above the first megabyte of a window, and at or below its last. */
  lemma BoundsIff(base: bv64, limit: bv64, upper: bv32, addr: bv64)
    requires Halfword(base) && Halfword(limit)
    ensures FromBase(base, upper, addr) <==> 4096 * Number(upper) + Value(base) / 16 <= Value(addr) / 0x10_0000
    ensures UpToLimit(limit, upper, addr) <==> Value(addr) / 0x10_0000 <= 4096 * Number(upper) + Value(limit) / 16
  {
    hide Value, AtMost, Start, End, Halfword, Extended;
    BoundNumbers(base, limit, upper);
    Ordered(Start(base, upper), addr);
    Ordered(addr, End(limit, upper));
  }

  predicate IsZero(x: bv64) {
    x == 0
  }

  lemma ZeroNumber(x: bv64)
    ensures IsZero(x) <==> Value(x) == 0
  {
    if x != 0 {
      ValuePositive(x);
    }
  }

  lemma ZeroRegister()
    ensures Number(0) == 0
  {
  }

  lemma MemoryParts(c: Context, addr: bv64)
    requires ContextOk(c)
    ensures var base, limit := LowHalf(c.config[8]), HighHalf(c.config[8]);
            InMemoryWindow(c, addr) <==>
            !IsZero(base) && !IsZero(limit) && FromBase(base, 0, addr) && UpToLimit(limit, 0, addr)
  {
    hide FromBase, UpToLimit, LowHalf, HighHalf;
  }

  lemma MemoryIff(c: Context, addr: bv64)
    requires ContextOk(c)
    ensures InMemoryWindow(c, addr) <==> MemoryAdmits(c, addr)
  {
    hide Value, FromBase, UpToLimit, LowHalf, HighHalf, IsZero, Halfword, Extended, InMemoryWindow, Number;
    var base, limit := LowHalf(c.config[8]), HighHalf(c.config[8]);
    MemoryParts(c, addr);
    HalfNumbers(c.config[8]);
    BoundsIff(base, limit, 0, addr);
    ZeroNumber(base);
    ZeroNumber(limit);
    ZeroRegister();
  }

  predicate IsClear(x: bv32) {
    x == 0
  }

  lemma ClearNumber(x: bv32)
    ensures IsClear(x) <==> Number(x) == 0
  {
    ZeroNumber(Extended(x));
    hide Value;
  }

  lemma PrefetchParts(c: Context, addr: bv64)
    requires ContextOk(c)
    ensures var base, limit := LowHalf(c.config[9]), HighHalf(c.config[9]);
            InPrefetchWindow(c, addr) <==>
            && !IsZero(base) && !IsZero(limit) && FromBase(base, c.config[10], addr)
            && UpToLimit(limit, if IsClear(c.config[10]) then 0 else c.config[11], addr)
  {
    hide FromBase, UpToLimit, LowHalf, HighHalf;
  }

  lemma PrefetchIff(c: Context, addr: bv64)
    requires ContextOk(c)
    ensures InPrefetchWindow(c, addr) <==> PrefetchAdmits(c, addr)
  {
    hide Value, FromBase, UpToLimit, LowHalf, HighHalf, IsZero, IsClear, Halfword, Extended, InPrefetchWindow, Number;
    var base, limit := LowHalf(c.config[9]), HighHalf(c.config[9]);
    PrefetchParts(c, addr);
    HalfNumbers(c.config[9]);
    BoundsIff(base, limit, c.config[10], addr);
    BoundsIff(base, limit, if IsClear(c.config[10]) then 0 else c.config[11], addr);
    ZeroNumber(base);
    ZeroNumber(limit);
    ClearNumber(c.config[10]);
    ZeroRegister();
  }

  predicate Octet(x: bv64) {
    x <= 0xFF
  }

  lemma StartPortDigits(base: bv64)
    requires Octet(base)
    ensures High4(High8(StartPort(base))) == High4(base) && Low4(High8(StartPort(base))) == 0
    ensures Low8(StartPort(base)) == 0
  {
  }

  lemma EndPortDigits(limit: bv64)
    requires Octet(limit)
    ensures High4(High8(EndPort(limit))) == High4(limit) && Low4(High8(EndPort(limit))) == 0xF
    ensures Low8(EndPort(limit)) == 0xFF
  {
  }

  lemma PortBounds(base: bv64, limit: bv64)
    requires Octet(base) && Octet(limit)
    ensures Value(StartPort(base)) == 4096 * (Value(base) / 16)
    ensures Value(EndPort(limit)) == 4096 * (Value(limit) / 16) + 4095
  {
    hide Value, High4, High8, Low4, Low8, High16, Low16, StartPort, EndPort, Octet;
    StartPortDigits(base);
    EndPortDigits(limit);
    OnesNumbers();
    Fields(base);
    Fields(limit);
    Fields(StartPort(base));
    Fields(High8(StartPort(base)));
    Fields(EndPort(limit));
    Fields(High8(EndPort(limit)));
  }

  lemma PortFields(x: bv32)
    ensures Extended(FirstByte(x)) == Low8(Extended(x)) && Octet(Extended(FirstByte(x)))
    ensures Extended(SecondByte(x)) == Low8(High8(Extended(x))) && Octet(Extended(SecondByte(x)))
  {
  }

  lemma PortNumbers(x: bv32)
    ensures Number(FirstByte(x)) == Number(x) % 256 && Number(SecondByte(x)) == Number(x) / 256 % 256
    ensures Octet(Extended(FirstByte(x))) && Octet(Extended(SecondByte(x)))
  {
    hide Value, High4, High8, Low4, Low8, High16, Low16, Octet, Extended, FirstByte, SecondByte;
    PortFields(x);
    Fields(Extended(x));
    Fields(High8(Extended(x)));
  }

  lemma PortParts(c: Context, addr: bv64)
    requires ContextOk(c)
    ensures var base, limit := Extended(FirstByte(c.config[7])), Extended(SecondByte(c.config[7]));
            InIoWindow(c, addr) <==>
            && !IsZero(base) && !IsZero(limit)
            && AtMost(StartPort(base), Low16(addr)) && AtMost(Low16(addr), EndPort(limit))
  {
    hide Extended, FirstByte, SecondByte, AtMost, StartPort, EndPort, Low16;
  }

  lemma PortsIff(c: Context, addr: bv64)
    requires ContextOk(c)
    ensures InIoWindow(c, addr) <==> PortsAdmit(c, addr)
  {
    hide Value, StartPort, EndPort, Octet, AtMost, InIoWindow, IsZero, Extended, FirstByte, SecondByte, Low16;
    var base, limit := Extended(FirstByte(c.config[7])), Extended(SecondByte(c.config[7]));
    PortParts(c, addr);
    PortNumbers(c.config[7]);
    PortNumber(addr);
    PortBounds(base, limit);
    Ordered(StartPort(base), Low16(addr));
    Ordered(Low16(addr), EndPort(limit));
    ZeroNumber(base);
    ZeroNumber(limit);
  }

  lemma PortNumber(addr: bv64)
    ensures Value(Low16(addr)) == Value(addr) % 65536
  {
    hide Value, Low16;
    Fields(addr);
  }

  lemma WindowIff(c: Context, addr: bv64, io: bool)
    requires ContextOk(c)
    ensures InWindow(c, addr, io) <==> Admits(c, addr, io)
  {
    hide InIoWindow, InMemoryWindow, InPrefetchWindow, PortsAdmit, MemoryAdmits, PrefetchAdmits;
    PortsIff(c, addr);
    MemoryIff(c, addr);
    PrefetchIff(c, addr);
  }

  // ----- BARs -----

  /** The BAR is programmed, of the space asked for, and holds the address. */
  predicate HoldsNumber(b: BarInfo, addr: bv64, io: bool) {
    && Value(b.size) != 0 && Value(b.base) != 0 && b.isIo == io
    && Value(b.base) <= Value(addr) < Value(b.base) + Value(b.size)
  }

  lemma MultipleWithin(v: nat, base: nat, size: nat)
    requires size > 0 && base % size == 0 && base <= v < base + size
    ensures Allocation.RoundedDown(v, size) == base
  {
    Allocation.ModUnique(v, size, base / size, v - base);
  }

  lemma RangeIff(size: bv64, base: bv64, addr: bv64)
    requires AlignedTo(size, base)
    ensures InRange(size, base, addr) <==> Value(base) <= Value(addr) < Value(base) + Value(size)
  {
    hide PowerOfTwo, Value, Top, AlignedTo, InRange, Minus, Offset, SameRange, Allocation.RoundedDown;
    if InRange(size, base, addr) {
      AssignedRouting.HeldNumbers(size, base, addr);
    } else if Value(base) <= Value(addr) < Value(base) + Value(size) {
      NumbersInRange(size, base, addr);
    }
  }

  lemma NumbersInRange(size: bv64, base: bv64, addr: bv64)
    requires AlignedTo(size, base) && Value(base) <= Value(addr) < Value(base) + Value(size)
    ensures InRange(size, base, addr)
  {
    hide PowerOfTwo, Value, Top, AlignedTo, InRange, Minus, Offset;
    AlignedTop(size, base);
    PowerPositive(size);
    MaskRounds(base, size);
    MaskRounds(addr, size);
    MultipleWithin(Value(addr), Value(base), Value(size));
    ValueInjective(Top(size, addr), base);
    SameRangeIff(size, base, addr);
  }

  lemma ZeroSize(b: BarInfo)
    ensures (b.size == 0 <==> Value(b.size) == 0) && (b.base == 0 <==> Value(b.base) == 0)
  {
    ZeroNumber(b.size);
    ZeroNumber(b.base);
    hide Value;
  }

  lemma HoldsIff(devs: seq<Context>, i: nat, b: nat, addr: bv64, io: bool)
    requires Shaped(devs) && BarsAligned(devs, io) && i < |devs| && b < BARS
    ensures Holds(devs[i].bars[b], addr, io) <==> HoldsNumber(devs[i].bars[b], addr, io)
  {
    hide Value, InRange, AlignedTo;
    var bar := devs[i].bars[b];
    ZeroSize(bar);
    if Programmed(bar, io) {
      RangeIff(bar.size, bar.base, addr);
    }
  }

  /** The first BAR that holds the address is matched, at its distance from the base. */
  predicate Answers(c: Context, m: Match, addr: bv64, io: bool)
    requires ContextOk(c)
  {
    && m.bus == c.bus && m.dev == c.dev && m.func == c.func && m.bar < BARS && m.isIo == io
    && m.base == c.bars[m.bar].base && m.size == c.bars[m.bar].size && m.is64 == c.bars[m.bar].is64
    && HoldsNumber(c.bars[m.bar], addr, io) && (forall b | 0 <= b < m.bar :: !HoldsNumber(c.bars[b], addr, io))
    && Value(m.base) + Value(m.offset) == Value(addr)
  }

  lemma OffsetNumber(size: bv64, base: bv64, addr: bv64)
    requires AlignedTo(size, base) && InRange(size, base, addr)
    ensures Value(base) + Value(Minus(addr, base)) == Value(addr)
  {
    hide PowerOfTwo, Value, Top, AlignedTo, InRange, Minus, Offset, SameRange, Allocation.RoundedDown;
    AlignedTop(size, base);
    SameRangeIff(size, base, addr);
    OffsetIsRemainder(addr, size);
    MaskRounds(addr, size);
    WithinRange(size, base, addr);
    RoundedRemainder(Value(addr), Value(size));
  }

  lemma RoundedRemainder(v: nat, size: nat)
    requires size > 0
    ensures Allocation.RoundedDown(v, size) + v % size == v
  {
  }

  lemma ClaimsIff(devs: seq<Context>, i: nat, addr: bv64, io: bool)
    requires Shaped(devs) && BarsAligned(devs, io) && i < |devs|
    ensures match Claims(devs[i], addr, io)
            case NoMatch => forall b | 0 <= b < BARS :: !HoldsNumber(devs[i].bars[b], addr, io)
            case Found(m) => Answers(devs[i], m, addr, io)
  {
    hide HoldsNumber, Holds, Minus, Claims, Value;
    ClaimsIffHolds(devs, i, addr, io);
    forall b | 0 <= b < BARS
      ensures Holds(devs[i].bars[b], addr, io) <==> HoldsNumber(devs[i].bars[b], addr, io)
    {
      HoldsIff(devs, i, b, addr, io);
    }
    var f := Claims(devs[i], addr, io);
    if f.Found? {
      HeldOffset(devs, i, f.m.bar, addr, io);
    }
  }

  lemma HeldOffset(devs: seq<Context>, i: nat, b: nat, addr: bv64, io: bool)
    requires Shaped(devs) && BarsAligned(devs, io) && i < |devs| && b < BARS && Holds(devs[i].bars[b], addr, io)
    ensures Value(devs[i].bars[b].base) + Value(Minus(addr, devs[i].bars[b].base)) == Value(addr)
  {
    hide Value, InRange, AlignedTo, Minus;
    OffsetNumber(devs[i].bars[b].size, devs[i].bars[b].base, addr);
  }

  // ----- Ways -----

  /** A way to an address from a bus: decoding bridges in front, each with a window that admits the address and
      a bus range that holds the next bus; a decoding function with a BAR that holds the address at the end. */
  ghost predicate Way(devs: seq<Context>, bus: nat, p: seq<nat>, addr: bv64, io: bool)
    requires Shaped(devs)
    decreases |p|
  {
    && p != [] && p[0] < |devs| && devs[p[0]].bus == bus && Decodes(devs[p[0]], io)
    && if |p| == 1 then exists b | 0 <= b < BARS :: HoldsNumber(devs[p[0]].bars[b], addr, io)
       else
         && devs[p[0]].header == 1 && BusBehind(devs[p[0]]) != 0 && Admits(devs[p[0]], addr, io)
         && p[1] < |devs| && BusBehind(devs[p[0]]) <= devs[p[1]].bus <= LastBus(devs[p[0]])
         && Way(devs, devs[p[1]].bus, p[1..], addr, io)
  }

  lemma {:induction false} RouteIff(devs: seq<Context>, bus: nat, p: seq<nat>, addr: bv64, io: bool)
    requires Shaped(devs) && BarsAligned(devs, io)
    ensures Route(devs, bus, p, addr, io) <==> Way(devs, bus, p, addr, io)
    decreases |p|
  {
    hide Claims, Enabled, Decodes, InWindow, Admits, HoldsNumber, Secondary, Subordinate, BusBehind, LastBus, BarsAligned;
    if p != [] && p[0] < |devs| {
      EnabledIff(devs[p[0]], io);
      BusNumbers(devs[p[0]]);
      WindowIff(devs[p[0]], addr, io);
      ClaimsIff(devs, p[0], addr, io);
      if |p| > 1 && p[1] < |devs| {
        RouteIff(devs, devs[p[1]].bus, p[1..], addr, io);
      }
    }
  }

  ghost predicate FirstWay(devs: seq<Context>, p: seq<nat>, addr: bv64, io: bool)
    requires Shaped(devs)
  {
    Way(devs, 0, p, addr, io) && forall q | Way(devs, 0, q, addr, io) && q != p :: Earlier(devs, p, q)
  }

  lemma FirstIff(devs: seq<Context>, p: seq<nat>, addr: bv64, io: bool)
    requires Shaped(devs) && BarsAligned(devs, io)
    ensures FirstRoute(devs, p, addr, io) <==> FirstWay(devs, p, addr, io)
  {
    hide Way, Route, BarsAligned;
    forall q
      ensures Route(devs, 0, q, addr, io) <==> Way(devs, 0, q, addr, io)
    {
      RouteIff(devs, 0, q, addr, io);
    }
  }

  ghost predicate EndAnswers(devs: seq<Context>, p: seq<nat>, m: Match, addr: bv64, io: bool)
    requires Shaped(devs)
  {
    p != [] && p[|p| - 1] < |devs| && Answers(devs[p[|p| - 1]], m, addr, io)
  }

  /** MmioFindDevice answers with the end of the first way from bus 0, and with nothing when there is none. */
  lemma FindsFirst(devs: seq<Context>, addr: bv64, io: bool)
    requires Descending(devs) && BarsAligned(devs, io)
    ensures match Find(devs, addr, io)
            case NoMatch => forall p :: !Way(devs, 0, p, addr, io)
            case Found(m) => exists p :: FirstWay(devs, p, addr, io) && EndAnswers(devs, p, m, addr, io)
  {
    hide Claims, Answers, BarsAligned, Find, Way, Route, FirstRoute, FirstWay;
    FindIffRoute(devs, addr, io);
    match Find(devs, addr, io)
    case NoMatch =>
      forall p
        ensures !Way(devs, 0, p, addr, io)
      {
        RouteIff(devs, 0, p, addr, io);
      }
    case Found(m) =>
      var p :| FirstRoute(devs, p, addr, io) && EndsIn(devs, p, addr, io, Found(m));
      ClaimsIff(devs, p[|p| - 1], addr, io);
      FirstIff(devs, p, addr, io);
      assert EndAnswers(devs, p, m, addr, io);
  }

  /** A function on bus 0 is reached only with its decoding bit set, and then whenever one of its BARs holds the
      address: some device answers, that one unless another comes first. */
  lemma FindsOnRootBus(devs: seq<Context>, i: nat, b: nat, addr: bv64, io: bool)
    requires Descending(devs) && BarsAligned(devs, io) && i < |devs| && devs[i].bus == 0 && b < BARS
    requires HoldsNumber(devs[i].bars[b], addr, io)
    ensures Decodes(devs[i], io) ==> Find(devs, addr, io).Found?
    ensures |devs| == 1 ==> (Find(devs, addr, io).Found? <==> Decodes(devs[i], io))
  {
    hide HoldsNumber, Decodes, Answers, BarsAligned, Find;
    FindsFirst(devs, addr, io);
    if Decodes(devs[i], io) {
      assert Way(devs, 0, [i], addr, io);
    }
  }
}
