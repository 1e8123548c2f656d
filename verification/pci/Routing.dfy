/** How B_Kernel/mmio/mmio_router.c finds the device that claims an address: a walk over buses and bridge
    windows (section 3.2.5 of the PCI-to-PCI Bridge Architecture Specification 1.2). */
module Routing {
  import opened ConfigSpace
  import Words

  /** A discovered function: its place, its header type, its registers and its cached BARs. */
  datatype Context = Context(
    bus: nat, dev: nat, func: nat, header: nat, config: seq<bv32>, bars: seq<BarInfo>)

  datatype Match = Match(
    bus: nat, dev: nat, func: nat, bar: nat, base: bv64, size: bv64, offset: bv64, isIo: bool, is64: bool)

  datatype Found = NoMatch | Found(m: Match)

  ghost predicate Shaped(devs: seq<Context>) {
    forall i | 0 <= i < |devs| :: |devs[i].config| == REGISTERS && |devs[i].bars| == BARS
  }

  predicate ContextOk(c: Context) {
    |c.config| == REGISTERS && |c.bars| == BARS
  }

  // ----- One function -----

  predicate Enabled(c: Context, io: bool)
    requires ContextOk(c)
  {
    CommandBit(c.config[COMMAND], io)
  }

  predicate CommandBit(command: bv32, io: bool) {
    command & (if io then 1 else 2) != 0
  }

  /** The address bits above a size, and those below it. */
  function Top(size: bv64, addr: bv64): bv64 {
    addr & !(size - 1)
  }

  function Offset(size: bv64, addr: bv64): bv64 {
    addr & (size - 1)
  }

  /** The comparison the hardware makes, under the size mask. */
  predicate SameRange(size: bv64, base: bv64, addr: bv64) {
    Top(size, addr) == Top(size, base)
  }

  predicate BarClaims(b: BarInfo, addr: bv64, io: bool) {
    b.size != 0 && b.base != 0 && b.isIo == io && SameRange(b.size, b.base, addr)
  }

  /** The first claiming BAR from bar on, or BARS. */
  function ClaimingBar(c: Context, addr: bv64, io: bool, bar: nat): (r: nat)
    requires ContextOk(c) && bar <= BARS
    ensures bar <= r <= BARS && (r < BARS ==> BarClaims(c.bars[r], addr, io))
    ensures forall b | bar <= b < r :: !BarClaims(c.bars[b], addr, io)
    decreases BARS - bar
  {
    if bar == BARS || BarClaims(c.bars[bar], addr, io) then bar else ClaimingBar(c, addr, io, bar + 1)
  }

  function MatchAt(c: Context, bar: nat, addr: bv64): Match
    requires ContextOk(c) && bar < BARS
  {
    var b := c.bars[bar];
    Match(c.bus, c.dev, c.func, bar, b.base, b.size, Offset(b.size, addr), b.isIo, b.is64)
  }

  /** EndpointClaimsAddress */
  function Claims(c: Context, addr: bv64, io: bool): (f: Found)
    requires ContextOk(c)
    ensures f.Found? ==> f.m.bar < BARS
  {
    var bar := ClaimingBar(c, addr, io, 0);
    if bar == BARS then NoMatch else Found(MatchAt(c, bar, addr))
  }

  // ----- Bridge windows -----

  function LowHalf(x: bv32): (h: bv64)
    ensures h <= 0xFFFF
  {
    (x & 0xFFFF) as bv64
  }

  function HighHalf(x: bv32): (h: bv64)
    ensures h <= 0xFFFF
  {
    (x >> 16) as bv64
  }

  /** The first and the last address of a memory window, from the register fields and their upper halves. */
  function Start(base: bv64, upper: bv32): bv64 {
    ((base & 0xFFF0) << 16) | ((upper as bv64) << 32)
  }

  function End(limit: bv64, upper: bv32): bv64 {
    ((limit & 0xFFF0) << 16) | 0xF_FFFF | ((upper as bv64) << 32)
  }

  predicate FromBase(base: bv64, upper: bv32, addr: bv64) {
    Words.AtMost(Start(base, upper), addr)
  }

  predicate UpToLimit(limit: bv64, upper: bv32, addr: bv64) {
    Words.AtMost(addr, End(limit, upper))
  }

  predicate InMemoryWindow(c: Context, addr: bv64)
    requires ContextOk(c)
  {
    var base, limit := LowHalf(c.config[8]), HighHalf(c.config[8]);
    base != 0 && limit != 0 && FromBase(base, 0, addr) && UpToLimit(limit, 0, addr)
  }

  /** The upper limit register counts only when the upper base register is not zero. */
  predicate InPrefetchWindow(c: Context, addr: bv64)
    requires ContextOk(c)
  {
    var base, limit := LowHalf(c.config[9]), HighHalf(c.config[9]);
    var upper := c.config[10];
    var upperLimit := if upper != 0 then c.config[11] else 0;
    base != 0 && limit != 0 && FromBase(base, upper, addr) && UpToLimit(limit, upperLimit, addr)
  }

  predicate InIoWindow(c: Context, addr: bv64)
    requires ContextOk(c)
  {
    var base, limit := Words.Extended(FirstByte(c.config[7])), Words.Extended(SecondByte(c.config[7]));
    var port := Words.Low16(addr);
    base != 0 && limit != 0 && Words.AtMost(StartPort(base), port) && Words.AtMost(port, EndPort(limit))
  }

  /** The first and the last port of an I/O window. */
  function StartPort(base: bv64): bv64 {
    (base & 0xF0) << 8
  }

  function EndPort(limit: bv64): bv64 {
    ((limit & 0xF0) << 8) | 0xFFF
  }

  predicate InWindow(c: Context, addr: bv64, io: bool)
    requires ContextOk(c)
  {
    if io then InIoWindow(c, addr) else InMemoryWindow(c, addr) || InPrefetchWindow(c, addr)
  }

  function Secondary(c: Context): (b: nat)
    requires ContextOk(c)
    ensures b < 256
  {
    ByteBound(SecondByte(c.config[6]));
    Words.Number(SecondByte(c.config[6]))
  }

  function Subordinate(c: Context): (b: nat)
    requires ContextOk(c)
    ensures b < 256
  {
    ByteBound(ThirdByte(c.config[6]));
    Words.Number(ThirdByte(c.config[6]))
  }

  function FirstByte(x: bv32): (b: bv32)
    ensures b <= 0xFF
  {
    x & 0xFF
  }

  function SecondByte(x: bv32): (b: bv32)
    ensures b <= 0xFF
  {
    (x >> 8) & 0xFF
  }

  function ThirdByte(x: bv32): (b: bv32)
    ensures b <= 0xFF
  {
    (x >> 16) & 0xFF
  }

  lemma ByteBound(x: bv32)
    requires x <= 0xFF
    ensures Words.Number(x) < 256
  {
    assert Words.Low8(Words.Extended(x)) == Words.Extended(x);
    Words.Split8(Words.Extended(x));
  }

  // ----- The walk -----

  /** Every configured bridge leads away from bus 0 and its bus loop, over an 8-bit counter, can end. */
  ghost predicate Descending(devs: seq<Context>) {
    Shaped(devs) &&
    forall i | 0 <= i < |devs| && devs[i].header == 1 && Secondary(devs[i]) != 0 ::
      devs[i].bus < Secondary(devs[i]) && Subordinate(devs[i]) < 255
  }

  /** ScanBusForDevice over contexts i and up: the first that claims wins. */
  function Scan(devs: seq<Context>, bus: nat, i: nat, addr: bv64, io: bool): (f: Found)
    requires Descending(devs) && bus < 256 && i <= |devs|
    ensures f.Found? ==> f.m.bar < BARS
    decreases 256 - bus, 2, |devs| - i
  {
    if i == |devs| then NoMatch
    else
      var here := if devs[i].bus == bus && Enabled(devs[i], io) then Claimed(devs, i, addr, io) else NoMatch;
      if here.Found? then here else Scan(devs, bus, i + 1, addr, io)
  }

  function Claimed(devs: seq<Context>, i: nat, addr: bv64, io: bool): (f: Found)
    requires Descending(devs) && i < |devs| && devs[i].bus < 256
    ensures f.Found? ==> f.m.bar < BARS
    decreases 256 - devs[i].bus, 1, 0
  {
    var beyond := if devs[i].header == 1 then Forwarded(devs, i, addr, io) else NoMatch;
    if beyond.Found? then beyond else Claims(devs[i], addr, io)
  }

  /** BridgeForwardsAddress */
  function Forwarded(devs: seq<Context>, i: nat, addr: bv64, io: bool): (f: Found)
    requires Descending(devs) && i < |devs| && devs[i].bus < 256 && devs[i].header == 1
    ensures f.Found? ==> f.m.bar < BARS
    decreases 256 - devs[i].bus, 0, 0
  {
    if Secondary(devs[i]) == 0 then NoMatch
    else if !InWindow(devs[i], addr, io) then Claims(devs[i], addr, io)
    else ScanBuses(devs, Secondary(devs[i]), Subordinate(devs[i]), addr, io)
  }

  function ScanBuses(devs: seq<Context>, bus: nat, last: nat, addr: bv64, io: bool): (f: Found)
    requires Descending(devs) && bus < 256 && last < 255
    ensures f.Found? ==> f.m.bar < BARS
    decreases 256 - bus, 3, 0
  {
    if bus > last then NoMatch
    else
      var here := Scan(devs, bus, 0, addr, io);
      if here.Found? then here else ScanBuses(devs, bus + 1, last, addr, io)
  }

  /** MmioFindDevice */
  function Find(devs: seq<Context>, addr: bv64, io: bool): (f: Found)
    requires Descending(devs)
    ensures f.Found? ==> f.m.bar < BARS
  {
    Scan(devs, 0, 0, addr, io)
  }

  // ----- Which device is found -----

  predicate Opens(c: Context, addr: bv64, io: bool)
    requires ContextOk(c)
  {
    c.header == 1 && Secondary(c) != 0 && InWindow(c, addr, io)
  }

  /** A way from a bus to a claiming function: enabled functions, all but the last a bridge whose window
      admits the address and that leads to the bus of the next. */
  ghost predicate Route(devs: seq<Context>, bus: nat, p: seq<nat>, addr: bv64, io: bool)
    requires Shaped(devs)
    decreases |p|
  {
    && p != [] && p[0] < |devs| && devs[p[0]].bus == bus && Enabled(devs[p[0]], io)
    && if |p| == 1 then Claims(devs[p[0]], addr, io).Found?
       else
         && Opens(devs[p[0]], addr, io) && p[1] < |devs|
         && Secondary(devs[p[0]]) <= devs[p[1]].bus <= Subordinate(devs[p[0]])
         && Route(devs, devs[p[1]].bus, p[1..], addr, io)
  }

  /** The function at the end of a route. */
  ghost predicate EndsIn(devs: seq<Context>, p: seq<nat>, addr: bv64, io: bool, f: Found)
    requires Shaped(devs)
  {
    p != [] && p[|p| - 1] < |devs| && f == Claims(devs[p[|p| - 1]], addr, io)
  }

  /** The order of the walk: functions in table order, what a bridge forwards before its own BARs, and the
      buses behind it in turn. */
  ghost predicate Earlier(devs: seq<Context>, p: seq<nat>, q: seq<nat>)
    decreases |p|, 0
  {
    && p != [] && q != []
    && (p[0] < q[0] || (p[0] == q[0] && |p| > 1 && (|q| == 1 || EarlierBus(devs, p[1..], q[1..]))))
  }

  ghost predicate EarlierBus(devs: seq<Context>, p: seq<nat>, q: seq<nat>)
    decreases |p|, 1
  {
    && p != [] && q != [] && p[0] < |devs| && q[0] < |devs|
    && (devs[p[0]].bus < devs[q[0]].bus || (devs[p[0]].bus == devs[q[0]].bus && Earlier(devs, p, q)))
  }

  lemma ScanSound(devs: seq<Context>, bus: nat, i: nat, addr: bv64, io: bool) returns (p: seq<nat>)
    requires Descending(devs) && bus < 256 && i <= |devs| && Scan(devs, bus, i, addr, io).Found?
    ensures Route(devs, bus, p, addr, io) && EndsIn(devs, p, addr, io, Scan(devs, bus, i, addr, io)) && i <= p[0]
    ensures forall q | Route(devs, bus, q, addr, io) && i <= q[0] && q != p :: Earlier(devs, p, q)
    decreases 256 - bus, 2, |devs| - i
  {
    hide Claims, Enabled, InWindow;
    if devs[i].bus == bus && Enabled(devs[i], io) && Claimed(devs, i, addr, io).Found? {
      p := ClaimedSound(devs, i, addr, io);
    } else {
      p := ScanSound(devs, bus, i + 1, addr, io);
      forall q | Route(devs, bus, q, addr, io) && i <= q[0] && q != p
        ensures Earlier(devs, p, q)
      {
        if q[0] == i {
          ClaimedComplete(devs, q, addr, io);
        }
      }
    }
  }

  lemma ClaimedSound(devs: seq<Context>, i: nat, addr: bv64, io: bool) returns (p: seq<nat>)
    requires Descending(devs) && i < |devs| && devs[i].bus < 256 && Enabled(devs[i], io)
    requires Claimed(devs, i, addr, io).Found?
    ensures Route(devs, devs[i].bus, p, addr, io) && EndsIn(devs, p, addr, io, Claimed(devs, i, addr, io))
    ensures p[0] == i
    ensures forall q | Route(devs, devs[i].bus, q, addr, io) && q[0] == i && q != p :: Earlier(devs, p, q)
    decreases 256 - devs[i].bus, 1, 0
  {
    hide Claims, Enabled, InWindow;
    if Opens(devs[i], addr, io) && Forwarded(devs, i, addr, io).Found? {
      p := ForwardedSound(devs, i, addr, io);
    } else {
      p := [i];
      forall q | Route(devs, devs[i].bus, q, addr, io) && q[0] == i
        ensures q == p
      {
        NotBeyond(devs, q, addr, io);
      }
    }
  }

  lemma ForwardedSound(devs: seq<Context>, i: nat, addr: bv64, io: bool) returns (p: seq<nat>)
    requires Descending(devs) && i < |devs| && devs[i].bus < 256 && Enabled(devs[i], io)
    requires Opens(devs[i], addr, io) && Forwarded(devs, i, addr, io).Found?
    ensures Route(devs, devs[i].bus, p, addr, io) && EndsIn(devs, p, addr, io, Forwarded(devs, i, addr, io))
    ensures p[0] == i
    ensures forall q | Route(devs, devs[i].bus, q, addr, io) && q[0] == i && q != p :: Earlier(devs, p, q)
    decreases 256 - devs[i].bus, 0, 0
  {
    hide Claims, Enabled, InWindow, Scan, ScanBuses, Earlier, EarlierBus;
    var r := BusesSound(devs, Secondary(devs[i]), Subordinate(devs[i]), addr, io);
    RouteGrows(devs, i, r, addr, io, Forwarded(devs, i, addr, io));
    p := [i] + r;
    forall q | Route(devs, devs[i].bus, q, addr, io) && q[0] == i && q != p
      ensures Earlier(devs, p, q)
    {
      if |q| > 1 {
        assert Ahead(devs, Secondary(devs[i]), Subordinate(devs[i]), q[1..], addr, io);
      }
      ForwardedFirst(devs, i, r, q);
    }
  }

  lemma RouteGrows(devs: seq<Context>, i: nat, r: seq<nat>, addr: bv64, io: bool, f: Found)
    requires Shaped(devs) && i < |devs| && Enabled(devs[i], io) && Opens(devs[i], addr, io)
    requires Ahead(devs, Secondary(devs[i]), Subordinate(devs[i]), r, addr, io) && EndsIn(devs, r, addr, io, f)
    ensures Route(devs, devs[i].bus, [i] + r, addr, io) && EndsIn(devs, [i] + r, addr, io, f)
  {
    hide Claims, Enabled, InWindow, Secondary, Subordinate;
    assert ([i] + r)[1..] == r;
  }

  lemma ForwardedFirst(devs: seq<Context>, i: nat, r: seq<nat>, q: seq<nat>)
    requires r != [] && q != [] && q[0] == i && q != [i] + r
    requires |q| > 1 && q[1..] != r ==> EarlierBus(devs, r, q[1..])
    ensures Earlier(devs, [i] + r, q)
  {
    assert ([i] + r)[1..] == r && q == [i] + q[1..];
    hide EarlierBus;
  }

  lemma NotBeyond(devs: seq<Context>, p: seq<nat>, addr: bv64, io: bool)
    requires Descending(devs) && p != [] && p[0] < |devs| && devs[p[0]].bus < 256
    requires Route(devs, devs[p[0]].bus, p, addr, io)
    requires !(Opens(devs[p[0]], addr, io) && Forwarded(devs, p[0], addr, io).Found?)
    ensures p == [p[0]]
    decreases |p|, 1
  {
    hide Claims, Enabled, InWindow;
    if |p| > 1 {
      var c := devs[p[0]];
      BusesComplete(devs, Secondary(c), Subordinate(c), p[1..], addr, io);
    }
  }

  lemma BusesSound(devs: seq<Context>, bus: nat, last: nat, addr: bv64, io: bool) returns (p: seq<nat>)
    requires Descending(devs) && bus < 256 && last < 255 && ScanBuses(devs, bus, last, addr, io).Found?
    ensures p != [] && p[0] < |devs| && bus <= devs[p[0]].bus <= last
    ensures Route(devs, devs[p[0]].bus, p, addr, io)
    ensures EndsIn(devs, p, addr, io, ScanBuses(devs, bus, last, addr, io))
    ensures forall q | Ahead(devs, bus, last, q, addr, io) && q != p :: EarlierBus(devs, p, q)
    decreases 256 - bus, 3, 0
  {
    hide Claims, Enabled, InWindow;
    if Scan(devs, bus, 0, addr, io).Found? {
      p := ScanSound(devs, bus, 0, addr, io);
    } else {
      p := BusesSound(devs, bus + 1, last, addr, io);
      forall q | Ahead(devs, bus, last, q, addr, io) && q != p
        ensures EarlierBus(devs, p, q)
      {
        if devs[q[0]].bus == bus {
          ScanComplete(devs, bus, 0, q, addr, io);
        }
      }
    }
  }

  /** A route on one of the buses from bus to last. */
  ghost predicate Ahead(devs: seq<Context>, bus: nat, last: nat, q: seq<nat>, addr: bv64, io: bool)
    requires Shaped(devs)
  {
    q != [] && q[0] < |devs| && bus <= devs[q[0]].bus <= last && Route(devs, devs[q[0]].bus, q, addr, io)
  }

  lemma ScanComplete(devs: seq<Context>, bus: nat, i: nat, p: seq<nat>, addr: bv64, io: bool)
    requires Descending(devs) && bus < 256 && Route(devs, bus, p, addr, io) && i <= p[0]
    ensures Scan(devs, bus, i, addr, io).Found?
    decreases |p|, 3, |devs| - i
  {
    hide Claims, Enabled, InWindow;
    if i < p[0] {
      ScanComplete(devs, bus, i + 1, p, addr, io);
    } else {
      ClaimedComplete(devs, p, addr, io);
    }
  }

  lemma ClaimedComplete(devs: seq<Context>, p: seq<nat>, addr: bv64, io: bool)
    requires Descending(devs) && p != [] && p[0] < |devs| && devs[p[0]].bus < 256
    requires Route(devs, devs[p[0]].bus, p, addr, io)
    ensures Claimed(devs, p[0], addr, io).Found?
    decreases |p|, 2
  {
    hide Claims, Enabled, InWindow;
    if !(Opens(devs[p[0]], addr, io) && Forwarded(devs, p[0], addr, io).Found?) {
      NotBeyond(devs, p, addr, io);
    }
  }

  lemma BusesComplete(devs: seq<Context>, bus: nat, last: nat, p: seq<nat>, addr: bv64, io: bool)
    requires Descending(devs) && Ahead(devs, bus, last, p, addr, io) && last < 255
    ensures ScanBuses(devs, bus, last, addr, io).Found?
    decreases |p|, 4, 256 - bus
  {
    hide Claims, Enabled, InWindow;
    if bus == devs[p[0]].bus {
      ScanComplete(devs, bus, 0, p, addr, io);
    } else {
      BusesComplete(devs, bus + 1, last, p, addr, io);
    }
  }

  ghost predicate FirstRoute(devs: seq<Context>, p: seq<nat>, addr: bv64, io: bool)
    requires Shaped(devs)
  {
    && Route(devs, 0, p, addr, io)
    && forall q | Route(devs, 0, q, addr, io) && q != p :: Earlier(devs, p, q)
  }

  /** A device is found exactly when some route leads to a claiming one, and it is the end of the first. */
  lemma FindIffRoute(devs: seq<Context>, addr: bv64, io: bool)
    requires Descending(devs)
    ensures Find(devs, addr, io).Found? <==> exists p :: Route(devs, 0, p, addr, io)
    ensures Find(devs, addr, io).Found? ==>
              exists p :: FirstRoute(devs, p, addr, io) && EndsIn(devs, p, addr, io, Find(devs, addr, io))
  {
    hide Claims, Enabled, InWindow;
    if Find(devs, addr, io).Found? {
      var p := ScanSound(devs, 0, 0, addr, io);
      assert FirstRoute(devs, p, addr, io);
    } else if p :| Route(devs, 0, p, addr, io) {
      ScanComplete(devs, 0, 0, p, addr, io);
    }
  }

  // ----- Ranges -----

  /** A power of two, and an address that is a multiple of it: what the allocator hands out. */
  predicate AlignedTo(size: bv64, base: bv64) {
    PowerOfTwo(size) && base & (size - 1) == 0
  }

  predicate InRange(size: bv64, base: bv64, addr: bv64) {
    base <= addr && addr - base < size
  }

  /** Under the mask is within [base, base + size), and the offset is the distance from the base. */
  lemma SameRangeIff(size: bv64, base: bv64, addr: bv64)
    requires AlignedTo(size, base)
    ensures SameRange(size, base, addr) <==> InRange(size, base, addr)
    ensures SameRange(size, base, addr) ==> Offset(size, addr) == Minus(addr, base)
  {
    hide Top, Offset, PowerOfTwo, AlignedTo, InRange, Minus;
    AlignedTop(size, base);
    if InRange(size, base, addr) {
      WithinRange(size, base, addr);
    }
    SplitRange(size, addr);
  }

  function Minus(a: bv64, b: bv64): bv64 {
    a - b
  }

  lemma SplitRange(size: bv64, addr: bv64)
    requires PowerOfTwo(size)
    ensures InRange(size, Top(size, addr), addr) && Minus(addr, Top(size, addr)) == Offset(size, addr)
  {
    hide Top, Offset, PowerOfTwo, InRange, Minus;
    TopPlusOffset(size, addr);
    OffsetBelow(size, addr);
    TopBelow(size, addr);
    RangeOf(size, Top(size, addr), addr, Offset(size, addr));
  }

  lemma RangeOf(size: bv64, t: bv64, addr: bv64, offset: bv64)
    requires offset == Minus(addr, t) && offset < size && t <= addr
    ensures InRange(size, t, addr)
  {
  }

  lemma AlignedTop(size: bv64, base: bv64)
    requires AlignedTo(size, base)
    ensures Top(size, base) == base && PowerOfTwo(size)
  {
  }

  lemma TopPlusOffset(size: bv64, x: bv64)
    requires PowerOfTwo(size)
    ensures Minus(x, Top(size, x)) == Offset(size, x)
  {
    MaskSplits(size, x);
  }

  lemma MaskSplits(size: bv64, x: bv64)
    requires PowerOfTwo(size)
    ensures x - (x & !(size - 1)) == x & (size - 1)
  {
  }

  lemma OffsetBelow(size: bv64, x: bv64)
    requires PowerOfTwo(size)
    ensures Offset(size, x) < size
  {
  }

  lemma TopBelow(size: bv64, x: bv64)
    ensures Top(size, x) <= x
  {
  }

  lemma WithinRange(size: bv64, base: bv64, addr: bv64)
    requires AlignedTo(size, base) && InRange(size, base, addr)
    ensures Top(size, addr) == base
  {
    MaskedWithin(size, base, addr);
  }

  lemma MaskedWithin(size: bv64, base: bv64, addr: bv64)
    requires PowerOfTwo(size) && base & (size - 1) == 0 && base <= addr && addr - base < size
    ensures addr & !(size - 1) == base
  {
  }

  // ----- Ranges on the route -----

  /** Every programmed BAR of the space sits at a multiple of its power-of-two size. */
  ghost predicate BarsAligned(devs: seq<Context>, io: bool)
    requires Shaped(devs)
  {
    forall i, b | 0 <= i < |devs| && 0 <= b < BARS && Programmed(devs[i].bars[b], io) ::
      AlignedTo(devs[i].bars[b].size, devs[i].bars[b].base)
  }

  predicate Programmed(b: BarInfo, io: bool) {
    b.size != 0 && b.base != 0 && b.isIo == io
  }

  predicate Holds(b: BarInfo, addr: bv64, io: bool) {
    Programmed(b, io) && InRange(b.size, b.base, addr)
  }

  /** A function claims an address exactly when one of its BARs holds it; the first such BAR is matched, at
      the distance from its base. */
  lemma ClaimsIffHolds(devs: seq<Context>, i: nat, addr: bv64, io: bool)
    requires Shaped(devs) && BarsAligned(devs, io) && i < |devs|
    ensures var f := Claims(devs[i], addr, io);
            if f.NoMatch? then forall b | 0 <= b < BARS :: !Holds(devs[i].bars[b], addr, io)
            else
              && f.m.bar < BARS && Holds(devs[i].bars[f.m.bar], addr, io)
              && (forall b | 0 <= b < f.m.bar :: !Holds(devs[i].bars[b], addr, io))
              && f.m.offset == Minus(addr, devs[i].bars[f.m.bar].base)
              && f.m == Match(devs[i].bus, devs[i].dev, devs[i].func, f.m.bar, devs[i].bars[f.m.bar].base,
                              devs[i].bars[f.m.bar].size, f.m.offset, io, devs[i].bars[f.m.bar].is64)
  {
    forall b | 0 <= b < BARS
      ensures BarClaims(devs[i].bars[b], addr, io) == Holds(devs[i].bars[b], addr, io)
      ensures Holds(devs[i].bars[b], addr, io) ==>
                Offset(devs[i].bars[b].size, addr) == Minus(addr, devs[i].bars[b].base)
    {
      HoldsIffClaims(devs, i, b, addr, io);
    }
    hide BarClaims, Holds, Offset, Minus;
    var r := ClaimingBar(devs[i], addr, io, 0);
    if r < BARS {
      KindOfClaim(devs[i].bars[r], addr, io);
    }
  }

  lemma HoldsIffClaims(devs: seq<Context>, i: nat, b: nat, addr: bv64, io: bool)
    requires Shaped(devs) && BarsAligned(devs, io) && i < |devs| && b < BARS
    ensures BarClaims(devs[i].bars[b], addr, io) == Holds(devs[i].bars[b], addr, io)
    ensures Holds(devs[i].bars[b], addr, io) ==>
              Offset(devs[i].bars[b].size, addr) == Minus(addr, devs[i].bars[b].base)
  {
    var bar := devs[i].bars[b];
    hide SameRange, InRange, Offset, Minus, AlignedTo;
    if Programmed(bar, io) {
      SameRangeIff(bar.size, bar.base, addr);
    }
  }

  lemma KindOfClaim(b: BarInfo, addr: bv64, io: bool)
    requires BarClaims(b, addr, io)
    ensures b.isIo == io
  {
  }

  /** The device found is enabled, lies behind enabled bridges whose windows admit the address, is the first such
      on the walk, and holds the address in the BAR named, at the offset named; when none is found no such device exists. */
  lemma FindCorrect(devs: seq<Context>, addr: bv64, io: bool)
    requires Descending(devs) && BarsAligned(devs, io)
    ensures var f := Find(devs, addr, io);
            if f.NoMatch? then forall p | Route(devs, 0, p, addr, io) :: false
            else
              exists p :: FirstRoute(devs, p, addr, io) && p != [] && p[|p| - 1] < |devs| && f.m.bar < BARS
                && Holds(devs[p[|p| - 1]].bars[f.m.bar], addr, io)
                && f.m.offset == Minus(addr, devs[p[|p| - 1]].bars[f.m.bar].base)
                && f.m.bus == devs[p[|p| - 1]].bus && f.m.dev == devs[p[|p| - 1]].dev
                && f.m.func == devs[p[|p| - 1]].func
  {
    hide BarsAligned, Holds, Minus, Find;
    FindIffRoute(devs, addr, io);
    var f := Find(devs, addr, io);
    if f.Found? {
      var p :| FirstRoute(devs, p, addr, io) && EndsIn(devs, p, addr, io, f);
      ClaimsIffHolds(devs, p[|p| - 1], addr, io);
    }
  }

  // ----- Windows are megabytes -----

  predicate SameMegabyte(a: bv64, b: bv64) {
    a >> 20 == b >> 20
  }

  /** Two addresses in one megabyte are in the same memory windows. */
  lemma WindowsShared(c: Context, a: bv64, b: bv64)
    requires ContextOk(c) && SameMegabyte(a, b)
    ensures InWindow(c, a, false) == InWindow(c, b, false)
  {
    hide FromBase, UpToLimit, SameMegabyte, LowHalf, HighHalf;
    SameMegabyteSymmetric(a, b);
    BoundsShared(LowHalf(c.config[8]), HighHalf(c.config[8]), 0, 0, a, b);
    BoundsShared(LowHalf(c.config[8]), HighHalf(c.config[8]), 0, 0, b, a);
    var upperLimit := if c.config[10] != 0 then c.config[11] else 0;
    BoundsShared(LowHalf(c.config[9]), HighHalf(c.config[9]), c.config[10], upperLimit, a, b);
    BoundsShared(LowHalf(c.config[9]), HighHalf(c.config[9]), c.config[10], upperLimit, b, a);
  }

  lemma SameMegabyteSymmetric(a: bv64, b: bv64)
    requires SameMegabyte(a, b)
    ensures SameMegabyte(b, a)
  {
  }

  lemma BoundsShared(base: bv64, limit: bv64, upper: bv32, upperLimit: bv32, a: bv64, b: bv64)
    requires base <= 0xFFFF && limit <= 0xFFFF && SameMegabyte(a, b)
    ensures FromBase(base, upper, a) ==> FromBase(base, upper, b)
    ensures UpToLimit(limit, upperLimit, a) ==> UpToLimit(limit, upperLimit, b)
  {
    if FromBase(base, upper, a) {
      BaseShared(base, upper, a, b);
    }
    if UpToLimit(limit, upperLimit, a) {
      LimitShared(limit, upperLimit, a, b);
    }
    hide FromBase, UpToLimit, SameMegabyte;
  }

  lemma BaseShared(base: bv64, upper: bv32, a: bv64, b: bv64)
    requires base <= 0xFFFF && SameMegabyte(a, b) && FromBase(base, upper, a)
    ensures FromBase(base, upper, b)
  {
  }

  lemma LimitShared(limit: bv64, upper: bv32, a: bv64, b: bv64)
    requires limit <= 0xFFFF && SameMegabyte(a, b) && UpToLimit(limit, upper, a)
    ensures UpToLimit(limit, upper, b)
  {
  }
}
