/** MmioRouteRead and MmioRouteWrite of B_Kernel/mmio/mmio_router.c over the BAR memories of
    B_Kernel/hw/pci_sim.c: aligned accesses of one, two, four and eight bytes behave as one byte map. */
module RoutedMemory {
  import opened ConfigSpace
  import opened Routing

  // ----- Words and lanes -----

  /** The widths the simulator serves; any other size is refused by ValidateAccess. */
  datatype Width = W1 | W2 | W4 | W8 | Other

  function Count(w: Width): (n: nat)
    ensures n <= 8
  {
    match w case W1 => 1 case W2 => 2 case W4 => 4 case W8 => 8 case Other => 0
  }

  /** k as a 64-bit word. */
  function Word(k: nat): bv64 {
    if k == 0 then 0 else if k == 1 then 1 else if k == 2 then 2 else if k == 3 then 3
    else if k == 4 then 4 else if k == 5 then 5 else if k == 6 then 6 else if k == 7 then 7 else 8
  }

  function Plus(a: bv64, b: bv64): bv64 {
    a + b
  }

  /** The address of byte k of an access. */
  function Lane(addr: bv64, k: nat): bv64 {
    Plus(addr, Word(k))
  }

  /** Little-endian: the bytes of a value, lowest first, and the value of some bytes. */
  function Byte(v: bv64, k: nat): bv8 {
    if k == 0 then (v & 0xFF) as bv8 else if k == 1 then ((v >> 8) & 0xFF) as bv8
    else if k == 2 then ((v >> 16) & 0xFF) as bv8 else if k == 3 then ((v >> 24) & 0xFF) as bv8
    else if k == 4 then ((v >> 32) & 0xFF) as bv8 else if k == 5 then ((v >> 40) & 0xFF) as bv8
    else if k == 6 then ((v >> 48) & 0xFF) as bv8 else ((v >> 56) & 0xFF) as bv8
  }

  function Split(v: bv64, w: Width): (s: seq<bv8>)
    ensures |s| == Count(w)
  {
    seq(Count(w), k requires 0 <= k => Byte(v, k))
  }

  function Pair(low: bv8, high: bv8): bv64 {
    (low as bv64) | ((high as bv64) << 8)
  }

  function Pairs(low: bv64, high: bv64): bv64 {
    low | (high << 16)
  }

  function Quad(s: seq<bv8>, i: nat): bv64
    requires i + 4 <= |s|
  {
    Pairs(Pair(s[i], s[i + 1]), Pair(s[i + 2], s[i + 3]))
  }

  function Quads(low: bv64, high: bv64): bv64 {
    low | (high << 32)
  }

  function Join(s: seq<bv8>): bv64 {
    if |s| == 1 then s[0] as bv64 else if |s| == 2 then Pair(s[0], s[1]) else if |s| == 4 then Quad(s, 0)
    else if |s| == 8 then Quads(Quad(s, 0), Quad(s, 4)) else 0
  }

  function AllOnes(w: Width): bv64 {
    match w case W1 => 0xFF case W2 => 0xFFFF case W4 => 0xFFFF_FFFF case _ => 0xFFFF_FFFF_FFFF_FFFF
  }

  // ----- BAR memories -----

  datatype Position = Position(offset: bv64)

  /** The memory behind a BAR; what was never written is zero. */
  type Bytes = map<Position, bv8>

  function At(mem: Bytes, o: bv64): bv8 {
    if Position(o) in mem then mem[Position(o)] else 0
  }

  function Load(mem: Bytes, off: bv64, w: Width): (s: seq<bv8>)
    ensures |s| == Count(w)
  {
    seq(Count(w), k requires 0 <= k => At(mem, Lane(off, k)))
  }

  function Store(mem: Bytes, off: bv64, s: seq<bv8>): Bytes {
    if s == [] then mem else Store(mem, off, s[..|s| - 1])[Position(Lane(off, |s| - 1)) := s[|s| - 1]]
  }

  // ----- Routing an access -----

  predicate Aligned(addr: bv64, w: Width) {
    match w case W1 => true case W2 => addr & 1 == 0 case W4 => addr & 3 == 0 case W8 => addr & 7 == 0
    case Other => false
  }

  predicate Within(off: bv64, n: bv64, size: bv64) {
    off + n <= size
  }

  predicate Fits(m: Match, w: Width) {
    Within(m.offset, Word(Count(w)), m.size)
  }

  /** ValidateAccess on a memory match: inside the BAR, of a width served, and aligned. */
  predicate Valid(f: Found, addr: bv64, w: Width) {
    f.Found? && Fits(f.m, w) && w != Other && (f.m.isIo || Aligned(addr, w))
  }

  /** The context a match names. */
  function IndexOf(devs: seq<Context>, m: Match, i: nat): (j: nat)
    requires i <= |devs|
    ensures i <= j <= |devs|
    ensures j < |devs| ==> devs[j].bus == m.bus && devs[j].dev == m.dev && devs[j].func == m.func
    ensures forall x | i <= x < j :: !(devs[x].bus == m.bus && devs[x].dev == m.dev && devs[x].func == m.func)
    decreases |devs| - i
  {
    if i == |devs| || (devs[i].bus == m.bus && devs[i].dev == m.dev && devs[i].func == m.func) then i
    else IndexOf(devs, m, i + 1)
  }

  type Memory = seq<seq<Bytes>>

  ghost predicate MemoryOf(devs: seq<Context>, mem: Memory) {
    |mem| == |devs| && forall i | 0 <= i < |mem| :: |mem[i]| == BARS
  }

  /** The byte of BAR memory behind an address, if some device claims it. */
  datatype Cell = Nowhere | Cell(i: nat, bar: nat, offset: bv64)

  function CellOf(devs: seq<Context>, f: Found): (c: Cell)
    requires f.Found? ==> f.m.bar < BARS
    ensures c.Cell? ==> c.i < |devs| && c.bar < BARS
  {
    if f.NoMatch? then Nowhere
    else
      var i := IndexOf(devs, f.m, 0);
      if i == |devs| then Nowhere else Cell(i, f.m.bar, f.m.offset)
  }

  function RouteRead(devs: seq<Context>, mem: Memory, addr: bv64, w: Width): bv64
    requires Descending(devs) && MemoryOf(devs, mem)
  {
    var f := Find(devs, addr, false);
    if !Valid(f, addr, w) then AllOnes(w)
    else
      var c := CellOf(devs, f);
      if c.Nowhere? then 0 else Join(Load(mem[c.i][c.bar], c.offset, w))
  }

  function RouteWrite(devs: seq<Context>, mem: Memory, addr: bv64, v: bv64, w: Width): (mem': Memory)
    requires Descending(devs) && MemoryOf(devs, mem)
    ensures MemoryOf(devs, mem')
  {
    var f := Find(devs, addr, false);
    var c := CellOf(devs, f);
    if !Valid(f, addr, w) || c.Nowhere? then mem
    else mem[c.i := mem[c.i][c.bar := Store(mem[c.i][c.bar], c.offset, Split(v, w))]]
  }

  // ----- Flat memory -----

  function FlatAt(devs: seq<Context>, mem: Memory, c: Cell): bv8
    requires MemoryOf(devs, mem) && (c.Cell? ==> c.i < |devs| && c.bar < BARS)
  {
    if c.Nowhere? then 0xFF else At(mem[c.i][c.bar], c.offset)
  }

  /** The byte at an address: 0xFF where nothing answers. */
  function Flat(devs: seq<Context>, mem: Memory, addr: bv64): bv8
    requires Descending(devs) && MemoryOf(devs, mem)
  {
    FlatAt(devs, mem, CellOf(devs, Find(devs, addr, false)))
  }

  /** Memory BARs are powers of two of at least eight bytes; GetPciBarInfo reports none below sixteen. */
  ghost predicate BarsWide(devs: seq<Context>)
    requires Shaped(devs)
  {
    forall i, b | 0 <= i < |devs| && 0 <= b < BARS && Programmed(devs[i].bars[b], false) :: WideSize(devs[i].bars[b].size)
  }

  predicate WideSize(size: bv64) {
    PowerOfTwo(size) && size >= 8
  }

  /** Two addresses in the same aligned block of eight. */
  predicate SameBlock(a: bv64, b: bv64) {
    a >> 3 == b >> 3
  }

  /** The same match seen from another address of the block. */
  function Shifted(f: Found, b: bv64): Found {
    if f.NoMatch? then NoMatch else Found(f.m.(offset := Offset(f.m.size, b)))
  }

  lemma SameBlockSameRange(bar: BarInfo, a: bv64, b: bv64)
    requires Programmed(bar, false) ==> WideSize(bar.size)
    requires SameBlock(a, b)
    ensures BarClaims(bar, a, false) == BarClaims(bar, b, false)
  {
    if Programmed(bar, false) {
      BlockUnderMask(bar.size, a, b);
    }
    hide SameBlock, WideSize, Top;
  }

  lemma BlockUnderMask(size: bv64, a: bv64, b: bv64)
    requires WideSize(size) && SameBlock(a, b)
    ensures Top(size, a) == Top(size, b)
  {
    MaskedBlock(size, a, b);
  }

  lemma MaskedBlock(size: bv64, a: bv64, b: bv64)
    requires PowerOfTwo(size) && size >= 8 && a >> 3 == b >> 3
    ensures a & !(size - 1) == b & !(size - 1)
  {
  }

  lemma SameBlockSameMegabyte(a: bv64, b: bv64)
    requires SameBlock(a, b)
    ensures SameMegabyte(a, b)
  {
  }

  lemma {:induction false} SameClaimingBar(c: Context, a: bv64, b: bv64, bar: nat)
    requires ContextOk(c) && bar <= BARS && SameBlock(a, b)
    requires forall x | 0 <= x < BARS && Programmed(c.bars[x], false) :: WideSize(c.bars[x].size)
    ensures ClaimingBar(c, a, false, bar) == ClaimingBar(c, b, false, bar)
    decreases BARS - bar
  {
    if bar < BARS {
      SameBlockSameRange(c.bars[bar], a, b);
      hide SameBlock, BarClaims, WideSize;
      SameClaimingBar(c, a, b, bar + 1);
    }
  }

  lemma ClaimsShift(devs: seq<Context>, i: nat, a: bv64, b: bv64)
    requires Shaped(devs) && BarsWide(devs) && i < |devs| && SameBlock(a, b)
    ensures Claims(devs[i], b, false) == Shifted(Claims(devs[i], a, false), b)
  {
    hide SameBlock, BarClaims, WideSize, Offset;
    SameClaimingBar(devs[i], a, b, 0);
  }

  /** The walk finds the same BAR for every address of an aligned block. */
  lemma {:induction false} ScanShift(devs: seq<Context>, bus: nat, i: nat, a: bv64, b: bv64)
    requires Descending(devs) && BarsWide(devs) && SameBlock(a, b) && bus < 256 && i <= |devs|
    ensures Scan(devs, bus, i, b, false) == Shifted(Scan(devs, bus, i, a, false), b)
    decreases 256 - bus, 2, |devs| - i
  {
    hide SameBlock, Offset, Enabled, Claims, InWindow, BarsWide;
    if i < |devs| {
      if devs[i].bus == bus && Enabled(devs[i], false) {
        ClaimedShift(devs, i, a, b);
      }
      ScanShift(devs, bus, i + 1, a, b);
    }
  }

  lemma {:induction false} ClaimedShift(devs: seq<Context>, i: nat, a: bv64, b: bv64)
    requires Descending(devs) && BarsWide(devs) && SameBlock(a, b) && i < |devs| && devs[i].bus < 256
    ensures Claimed(devs, i, b, false) == Shifted(Claimed(devs, i, a, false), b)
    decreases 256 - devs[i].bus, 1, 0
  {
    hide SameBlock, Offset, Enabled, Claims, InWindow, BarsWide;
    ClaimsShift(devs, i, a, b);
    SameBlockSameMegabyte(a, b);
    WindowsShared(devs[i], a, b);
    if devs[i].header == 1 && Secondary(devs[i]) != 0 {
      BusesShift(devs, Secondary(devs[i]), Subordinate(devs[i]), a, b);
    }
  }

  lemma {:induction false} BusesShift(devs: seq<Context>, bus: nat, last: nat, a: bv64, b: bv64)
    requires Descending(devs) && BarsWide(devs) && SameBlock(a, b) && bus < 256 && last < 255
    ensures ScanBuses(devs, bus, last, b, false) == Shifted(ScanBuses(devs, bus, last, a, false), b)
    decreases 256 - bus, 3, 0
  {
    hide SameBlock, Offset, BarsWide;
    if bus <= last {
      ScanShift(devs, bus, 0, a, b);
      BusesShift(devs, bus + 1, last, a, b);
    }
  }

  // ----- Cells -----

  /** No two contexts name the same function. */
  ghost predicate DistinctFunctions(devs: seq<Context>) {
    forall i, j | 0 <= i < j < |devs| ::
      !(devs[i].bus == devs[j].bus && devs[i].dev == devs[j].dev && devs[i].func == devs[j].func)
  }

  /** A match always names a context: the one at the end of the route. */
  lemma FoundCell(devs: seq<Context>, addr: bv64)
    requires Descending(devs) && DistinctFunctions(devs) && Find(devs, addr, false).Found?
    ensures var f := Find(devs, addr, false);
            var c := CellOf(devs, f);
            && c.Cell? && f.m == MatchAt(devs[c.i], c.bar, addr) && BarClaims(devs[c.i].bars[c.bar], addr, false)
            && c.offset == Offset(devs[c.i].bars[c.bar].size, addr)
  {
    hide BarClaims, Offset, Find, Scan, Route, Claims;
    FindIffRoute(devs, addr, false);
    var f := Find(devs, addr, false);
    var p :| FirstRoute(devs, p, addr, false) && EndsIn(devs, p, addr, false, f);
    ClaimShape(devs[p[|p| - 1]], addr);
  }

  lemma ClaimShape(c: Context, addr: bv64)
    requires ContextOk(c) && Claims(c, addr, false).Found?
    ensures var m := Claims(c, addr, false).m; m == MatchAt(c, m.bar, addr) && BarClaims(c.bars[m.bar], addr, false)
  {
    hide BarClaims, Offset;
  }

  /** Different addresses never share a byte of BAR memory. */
  lemma CellInjective(devs: seq<Context>, a: bv64, b: bv64)
    requires Descending(devs) && DistinctFunctions(devs)
    requires CellOf(devs, Find(devs, a, false)).Cell?
    requires CellOf(devs, Find(devs, a, false)) == CellOf(devs, Find(devs, b, false))
    ensures a == b
  {
    hide Find, Offset, Top, DistinctFunctions;
    FoundCell(devs, a);
    FoundCell(devs, b);
    var c := CellOf(devs, Find(devs, a, false));
    TopAndOffset(devs[c.i].bars[c.bar].size, a, b);
  }

  lemma TopAndOffset(size: bv64, a: bv64, b: bv64)
    requires Top(size, a) == Top(size, b) && Offset(size, a) == Offset(size, b)
    ensures a == b
  {
    SplitWord(size, a, b);
  }

  lemma SplitWord(size: bv64, a: bv64, b: bv64)
    requires a & !(size - 1) == b & !(size - 1) && a & (size - 1) == b & (size - 1)
    ensures a == b
  {
  }

  // ----- Lanes of an aligned access -----

  lemma LanesDiffer(addr: bv64, i: nat, j: nat)
    requires i < j < 8
    ensures Lane(addr, i) != Lane(addr, j)
  {
    hide Word, Plus;
    WordsDiffer(i, j);
    SumsDiffer(addr, Word(i), Word(j));
  }

  lemma WordsDiffer(i: nat, j: nat)
    requires i < j < 8
    ensures Word(i) != Word(j) && Word(i) < 8 && Word(j) < 8
  {
  }

  lemma SumsDiffer(addr: bv64, x: bv64, y: bv64)
    requires x != y && x < 8 && y < 8
    ensures Plus(addr, x) != Plus(addr, y)
  {
  }

  predicate InBlock(addr: bv64, k: bv64) {
    k < 8 && (addr & 7) + k < 8
  }

  lemma LaneInBlock(addr: bv64, w: Width, k: nat)
    requires Aligned(addr, w) && k < Count(w)
    ensures InBlock(addr, Word(k))
  {
  }

  lemma LaneSameBlock(addr: bv64, w: Width, k: nat)
    requires Aligned(addr, w) && k < Count(w)
    ensures SameBlock(addr, Lane(addr, k))
  {
    LaneInBlock(addr, w, k);
    hide Word, Plus, SameBlock;
    BlockSum(addr, Word(k));
  }

  lemma BlockSum(addr: bv64, k: bv64)
    requires InBlock(addr, k)
    ensures SameBlock(addr, Plus(addr, k))
  {
    BlockKept(addr, k);
  }

  lemma BlockKept(addr: bv64, k: bv64)
    requires k < 8 && (addr & 7) + k < 8
    ensures addr >> 3 == (addr + k) >> 3
  {
  }

  lemma LaneOffset(size: bv64, addr: bv64, w: Width, k: nat)
    requires WideSize(size) && Aligned(addr, w) && k < Count(w)
    ensures Offset(size, Lane(addr, k)) == Lane(Offset(size, addr), k)
  {
    LaneInBlock(addr, w, k);
    hide Word, Plus, Offset;
    OffsetSum(size, addr, Word(k));
  }

  /** An address as the start of its block of eight and the place in it. */
  function InBlockAt(start: bv64, low: bv64): bv64 {
    start | low
  }

  predicate BlockStart(x: bv64) {
    x & 7 == 0
  }

  lemma BlockParts(addr: bv64)
    ensures BlockStart(addr & !7) && addr & 7 < 8 && addr == InBlockAt(addr & !7, addr & 7)
  {
  }

  lemma StaysInBlock(start: bv64, low: bv64, k: bv64)
    requires BlockStart(start) && low < 8 && k < 8 && low + k < 8
    ensures Plus(InBlockAt(start, low), k) == InBlockAt(start, Plus(low, k))
  {
  }

  lemma MaskKeepsLow(size: bv64)
    requires PowerOfTwo(size) && size >= 8
    ensures (size - 1) & 7 == 7
  {
  }

  lemma MaskedBlockAt(size: bv64, start: bv64, low: bv64)
    requires (size - 1) & 7 == 7 && BlockStart(start) && low < 8
    ensures Offset(size, InBlockAt(start, low)) == InBlockAt(Offset(size, start), low)
    ensures BlockStart(Offset(size, start))
  {
  }

  lemma OffsetSum(size: bv64, addr: bv64, k: bv64)
    requires PowerOfTwo(size) && size >= 8 && InBlock(addr, k)
    ensures Offset(size, Plus(addr, k)) == Plus(Offset(size, addr), k)
  {
    MaskKeepsLow(size);
    BlockParts(addr);
    var start, low := addr & !7, addr & 7;
    SumInBlock(size, start, low, k);
  }

  lemma SumInBlock(size: bv64, start: bv64, low: bv64, k: bv64)
    requires (size - 1) & 7 == 7 && BlockStart(start) && low < 8 && k < 8 && low + k < 8
    ensures var addr := InBlockAt(start, low); Offset(size, Plus(addr, k)) == Plus(Offset(size, addr), k)
  {
    hide InBlockAt, Offset, BlockStart;
    StaysInBlock(start, low, k);
    MaskedBlockAt(size, start, low);
    MaskedBlockAt(size, start, Plus(low, k));
    StaysInBlock(Offset(size, start), low, k);
  }

  /** An aligned access no wider than its BAR never crosses the BAR's end. */
  lemma AlignedFits(size: bv64, addr: bv64, w: Width)
    requires PowerOfTwo(size) && w != Other && Aligned(addr, w) && Word(Count(w)) <= size
    ensures Within(Offset(size, addr), Word(Count(w)), size)
  {
    match w
    case W1 => FitsOne(size, addr); hide Within;
    case W2 => FitsTwo(size, addr); hide Within;
    case W4 => FitsFour(size, addr); hide Within;
    case W8 => FitsEight(size, addr); hide Within;
  }

  lemma FitsOne(size: bv64, addr: bv64)
    requires PowerOfTwo(size)
    ensures Within(addr & (size - 1), 1, size)
  {
  }

  lemma FitsTwo(size: bv64, addr: bv64)
    requires PowerOfTwo(size) && addr & 1 == 0 && 2 <= size
    ensures Within(addr & (size - 1), 2, size)
  {
  }

  lemma FitsFour(size: bv64, addr: bv64)
    requires PowerOfTwo(size) && addr & 3 == 0 && 4 <= size
    ensures Within(addr & (size - 1), 4, size)
  {
  }

  lemma FitsEight(size: bv64, addr: bv64)
    requires PowerOfTwo(size) && addr & 7 == 0 && 8 <= size
    ensures Within(addr & (size - 1), 8, size)
  {
  }

  // ----- Words -----

  /** A word is exactly its bytes. */
  lemma JoinSplit(s: seq<bv8>, w: Width)
    requires |s| == Count(w) && w != Other
    ensures forall k | 0 <= k < |s| :: Byte(Join(s), k) == s[k]
  {
    match w
    case W1 => OneByte(s[0]);
    case W2 => TwoBytes(s[0], s[1]);
    case W4 => FourBytes(s);
    case W8 => EightBytes(s);
  }

  lemma OneByte(a: bv8)
    ensures Byte(a as bv64, 0) == a
  {
  }

  lemma TwoBytes(a: bv8, b: bv8)
    ensures Byte(Pair(a, b), 0) == a && Byte(Pair(a, b), 1) == b
  {
  }

  lemma FourBytes(s: seq<bv8>)
    requires |s| == 4
    ensures forall k | 0 <= k < 4 :: Byte(Join(s), k) == s[k]
  {
    hide Byte, Pair, Pairs, Quads;
    QuadBytes(s[0], s[1], s[2], s[3]);
  }

  lemma QuadBytes(a: bv8, b: bv8, c: bv8, d: bv8)
    ensures var q := Pairs(Pair(a, b), Pair(c, d));
            Byte(q, 0) == a && Byte(q, 1) == b && Byte(q, 2) == c && Byte(q, 3) == d
  {
  }

  lemma EightBytes(s: seq<bv8>)
    requires |s| == 8
    ensures forall k | 0 <= k < 8 :: Byte(Join(s), k) == s[k]
  {
    hide Byte, Pair, Pairs, Quads;
    OctBytes(s[0], s[1], s[2], s[3], s[4], s[5], s[6], s[7]);
  }

  lemma OctBytes(a: bv8, b: bv8, c: bv8, d: bv8, e: bv8, f: bv8, g: bv8, h: bv8)
    ensures var q := Quads(Pairs(Pair(a, b), Pair(c, d)), Pairs(Pair(e, f), Pair(g, h)));
            && Byte(q, 0) == a && Byte(q, 1) == b && Byte(q, 2) == c && Byte(q, 3) == d
            && Byte(q, 4) == e && Byte(q, 5) == f && Byte(q, 6) == g && Byte(q, 7) == h
  {
  }

  lemma AllOnesJoined(s: seq<bv8>, w: Width)
    requires |s| == Count(w) && w != Other && forall k | 0 <= k < |s| :: s[k] == 0xFF
    ensures Join(s) == AllOnes(w)
  {
  }

  /** o is none of the first n bytes from off on. */
  ghost predicate Outside(off: bv64, n: nat, o: bv64) {
    forall k | 0 <= k < n :: o != Lane(off, k)
  }

  lemma AtUpdated(m: Bytes, x: bv64, v: bv8)
    ensures forall o :: At(m[Position(x) := v], o) == if o == x then v else At(m, o)
  {
    forall o ensures At(m[Position(x) := v], o) == if o == x then v else At(m, o) {
      assert Position(o) == Position(x) <==> o == x;
    }
  }

  lemma {:induction false} StoreBytes(mem: Bytes, off: bv64, s: seq<bv8>)
    requires |s| <= 8
    ensures forall k | 0 <= k < |s| :: At(Store(mem, off, s), Lane(off, k)) == s[k]
    ensures forall o | Outside(off, |s|, o) :: At(Store(mem, off, s), o) == At(mem, o)
  {
    if s != [] {
      var n := |s| - 1;
      hide Lane, At;
      StoreBytes(mem, off, s[..n]);
      forall k | 0 <= k < n ensures Lane(off, k) != Lane(off, n) {
        LanesDiffer(off, k, n);
      }
      assert Store(mem, off, s) == Store(mem, off, s[..n])[Position(Lane(off, n)) := s[n]];
      hide Store;
      AtUpdated(Store(mem, off, s[..n]), Lane(off, n), s[n]);
      forall k | 0 <= k < |s| ensures At(Store(mem, off, s), Lane(off, k)) == s[k] {
        if k < n {
          assert At(Store(mem, off, s[..n]), Lane(off, k)) == s[..n][k];
        }
      }
      forall o | Outside(off, |s|, o) ensures At(Store(mem, off, s), o) == At(mem, o) {
        assert Outside(off, n, o) && o != Lane(off, n);
      }
    }
  }

  // ----- Routed memory is flat memory -----

  /** The devices as enumeration leaves them, seen by memory accesses. */
  ghost predicate Routable(devs: seq<Context>) {
    Descending(devs) && BarsWide(devs) && DistinctFunctions(devs)
  }

  /** What a match on a memory BAR looks like. */
  lemma CellSize(devs: seq<Context>, addr: bv64)
    requires Routable(devs) && Find(devs, addr, false).Found?
    ensures var m := Find(devs, addr, false).m;
            WideSize(m.size) && !m.isIo && m.offset == Offset(m.size, addr)
  {
    FoundCell(devs, addr);
    hide Find, WideSize, Offset;
    var c := CellOf(devs, Find(devs, addr, false));
    assert Programmed(devs[c.i].bars[c.bar], false);
  }

  /** The cell of byte k of an aligned access lies k bytes behind the cell of its first byte. */
  lemma LaneCell(devs: seq<Context>, addr: bv64, w: Width, k: nat)
    requires Routable(devs) && Aligned(addr, w) && k < Count(w)
    ensures var c := CellOf(devs, Find(devs, addr, false));
            CellOf(devs, Find(devs, Lane(addr, k), false))
            == if c.Nowhere? then Nowhere else Cell(c.i, c.bar, Lane(c.offset, k))
  {
    hide Lane, Offset, Aligned, SameBlock, WideSize, BarClaims, Find, Scan, Top;
    LaneSameBlock(addr, w, k);
    var f := Find(devs, addr, false);
    FindShift(devs, addr, Lane(addr, k));
    if f.Found? {
      CellSize(devs, addr);
      LaneOffset(f.m.size, addr, w, k);
    }
  }

  lemma FindShift(devs: seq<Context>, a: bv64, b: bv64)
    requires Descending(devs) && BarsWide(devs) && SameBlock(a, b)
    ensures Find(devs, b, false) == Shifted(Find(devs, a, false), b)
  {
    hide SameBlock, Shifted, Scan;
    ScanShift(devs, 0, 0, a, b);
  }

  /** An aligned access of a width served is valid wherever a device answers. */
  lemma AlignedValid(devs: seq<Context>, addr: bv64, w: Width)
    requires Routable(devs)
    ensures var f := Find(devs, addr, false); Valid(f, addr, w) <==> f.Found? && Aligned(addr, w)
  {
    var f := Find(devs, addr, false);
    if f.Found? {
      CellSize(devs, addr);
      hide Find, Aligned, Within, WideSize, Offset, Word, BarsWide, DistinctFunctions, Descending, CellOf;
      if Aligned(addr, w) {
        MatchFits(f.m, addr, w);
      }
    }
  }

  lemma MatchFits(m: Match, addr: bv64, w: Width)
    requires WideSize(m.size) && m.offset == Offset(m.size, addr) && Aligned(addr, w)
    ensures Fits(m, w) && w != Other
  {
    hide Within, WideSize, Offset, Word;
    WidthFits(m.size, w);
    AlignedFits(m.size, addr, w);
  }

  lemma WidthFits(size: bv64, w: Width)
    requires WideSize(size) && w != Other
    ensures PowerOfTwo(size) && Word(Count(w)) <= size
  {
  }

  /** The bytes an access covers. */
  function FlatBytes(devs: seq<Context>, mem: Memory, addr: bv64, w: Width): (s: seq<bv8>)
    requires Descending(devs) && MemoryOf(devs, mem)
    ensures |s| == Count(w)
  {
    seq(Count(w), k requires 0 <= k => Flat(devs, mem, Lane(addr, k)))
  }

  lemma FlatLanes(devs: seq<Context>, mem: Memory, addr: bv64, w: Width)
    requires Routable(devs) && MemoryOf(devs, mem) && Aligned(addr, w)
    ensures var c := CellOf(devs, Find(devs, addr, false));
            if c.Nowhere? then forall k | 0 <= k < Count(w) :: FlatBytes(devs, mem, addr, w)[k] == 0xFF
            else FlatBytes(devs, mem, addr, w) == Load(mem[c.i][c.bar], c.offset, w)
  {
    hide Find, Lane, Aligned, BarsWide, DistinctFunctions, CellOf, At;
    forall k | 0 <= k < Count(w)
      ensures var c := CellOf(devs, Find(devs, addr, false));
              Flat(devs, mem, Lane(addr, k)) == if c.Nowhere? then 0xFF else At(mem[c.i][c.bar], Lane(c.offset, k))
    {
      LaneCell(devs, addr, w, k);
    }
  }

  /** A read is the little-endian word of the bytes it covers, if it is aligned; otherwise all ones. */
  lemma ReadIsFlat(devs: seq<Context>, mem: Memory, addr: bv64, w: Width)
    requires Routable(devs) && MemoryOf(devs, mem)
    ensures RouteRead(devs, mem, addr, w)
            == if Aligned(addr, w) then Join(FlatBytes(devs, mem, addr, w)) else AllOnes(w)
  {
    AlignedValid(devs, addr, w);
    var f := Find(devs, addr, false);
    if Aligned(addr, w) {
      FlatLanes(devs, mem, addr, w);
      if f.Found? {
        FoundCell(devs, addr);
      } else {
        assert w != Other;
        AllOnesJoined(FlatBytes(devs, mem, addr, w), w);
      }
    }
    hide Find, Join, Aligned, Valid, BarsWide, DistinctFunctions, CellOf, FlatBytes, Load, AllOnes;
  }

  /** A write changes exactly the bytes it covers, to those of the value, where a device answers; a misaligned
      one changes nothing. */
  lemma WriteIsFlat(devs: seq<Context>, mem: Memory, addr: bv64, v: bv64, w: Width, b: bv64)
    requires Routable(devs) && MemoryOf(devs, mem)
    ensures var mem' := RouteWrite(devs, mem, addr, v, w);
            && (!Aligned(addr, w) ==> mem' == mem)
            && (Aligned(addr, w) ==>
                  if Outside(addr, Count(w), b) || Find(devs, addr, false).NoMatch?
                  then Flat(devs, mem', b) == Flat(devs, mem, b)
                  else forall k | 0 <= k < Count(w) && b == Lane(addr, k) :: Flat(devs, mem', b) == Byte(v, k))
  {
    AlignedValid(devs, addr, w);
    var f := Find(devs, addr, false);
    if Aligned(addr, w) && f.Found? {
      FoundCell(devs, addr);
      var c := CellOf(devs, f);
      var mem' := RouteWrite(devs, mem, addr, v, w);
      assert mem' == mem[c.i := mem[c.i][c.bar := Store(mem[c.i][c.bar], c.offset, Split(v, w))]];
      hide Find, Lane, Aligned, Valid, WideSize, BarsWide, DistinctFunctions, CellOf, Byte, Store, At, RouteWrite;
      hide FlatAt, BarClaims, MatchAt, Outside;
      forall k | 0 <= k < Count(w) && b == Lane(addr, k) ensures Flat(devs, mem', b) == Byte(v, k) {
        LaneCell(devs, addr, w, k);
        StoredInside(devs, mem, c, Split(v, w), k);
      }
      if Outside(addr, Count(w), b) {
        OtherCell(devs, addr, w, b);
        StoredOutside(devs, mem, c, Split(v, w), CellOf(devs, Find(devs, b, false)));
      }
    }
  }

  /** What storing at a cell does to the bytes stored, and to any other cell. */
  lemma StoredInside(devs: seq<Context>, mem: Memory, c: Cell, s: seq<bv8>, k: nat)
    requires MemoryOf(devs, mem) && c.Cell? && c.i < |devs| && c.bar < BARS && k < |s| <= 8
    ensures var mem' := mem[c.i := mem[c.i][c.bar := Store(mem[c.i][c.bar], c.offset, s)]];
            MemoryOf(devs, mem') && FlatAt(devs, mem', Cell(c.i, c.bar, Lane(c.offset, k))) == s[k]
  {
    StoreBytes(mem[c.i][c.bar], c.offset, s);
    hide Store, At, Lane;
  }

  lemma StoredOutside(devs: seq<Context>, mem: Memory, c: Cell, s: seq<bv8>, d: Cell)
    requires MemoryOf(devs, mem) && c.Cell? && c.i < |devs| && c.bar < BARS && |s| <= 8
    requires d.Cell? ==> d.i < |devs| && d.bar < BARS
    requires d.Cell? && d.i == c.i && d.bar == c.bar ==> Outside(c.offset, |s|, d.offset)
    ensures var mem' := mem[c.i := mem[c.i][c.bar := Store(mem[c.i][c.bar], c.offset, s)]];
            MemoryOf(devs, mem') && FlatAt(devs, mem', d) == FlatAt(devs, mem, d)
  {
    StoreBytes(mem[c.i][c.bar], c.offset, s);
    hide Store, At, Lane, Outside;
  }

  /** A byte outside the access is outside the cells of the access. */
  lemma OtherCell(devs: seq<Context>, addr: bv64, w: Width, b: bv64)
    requires Routable(devs) && Aligned(addr, w) && Outside(addr, Count(w), b)
    ensures var c, d := CellOf(devs, Find(devs, addr, false)), CellOf(devs, Find(devs, b, false));
            c.Cell? && d.Cell? && d.i == c.i && d.bar == c.bar ==> Outside(c.offset, Count(w), d.offset)
  {
    hide Find, Lane, BarsWide, CellOf, Aligned, DistinctFunctions, Descending;
    var c, d := CellOf(devs, Find(devs, addr, false)), CellOf(devs, Find(devs, b, false));
    if c.Cell? && d.Cell? && d.i == c.i && d.bar == c.bar {
      forall k | 0 <= k < Count(w) ensures d.offset != Lane(c.offset, k) {
        LaneCell(devs, addr, w, k);
        if d.offset == Lane(c.offset, k) {
          CellInjective(devs, Lane(addr, k), b);
        }
      }
    }
  }
}
