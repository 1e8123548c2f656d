/** Address allocation for BARs in B_Kernel/device/OS_device.c. Sizes are those GetPciBarInfo reports: zero or
    a power of two, for which the masking of the source is rounding down to a multiple (MaskRounding). */
module Allocation {
  const TWO64 := 0x1_0000_0000_0000_0000
  const BARS := 6

  datatype Bar = Bar(base: nat, size: nat, isIo: bool)

  /** The next free MMIO address and the next free port. */
  datatype Counters = Counters(mmio: nat, io: nat)

  function Wrap(x: int): (w: nat)
    ensures 0 <= x < TWO64 ==> w == x
  {
    x % TWO64
  }

  /** x & ~(size - 1): a multiple of a power of two, and zero for size zero. */
  function RoundedDown(x: nat, size: nat): (r: nat)
    ensures size == 0 ==> r == 0
    ensures size > 0 ==> r <= x < r + size && r % size == 0
  {
    if size == 0 then 0
    else
      Floor(x, size);
      x - x % size
  }

  lemma Floor(x: nat, size: nat)
    requires size > 0
    ensures (x - x % size) % size == 0
  {
    assert x - x % size == size * (x / size);
    MultipleDivides(size, x / size);
  }

  lemma MultipleDivides(size: nat, k: nat)
    requires size > 0
    ensures (size * k) % size == 0
    decreases k
  {
    if k > 0 {
      MultipleDivides(size, k - 1);
      assert size * k == size * (k - 1) + size;
      ModAdd(size * (k - 1), size);
    }
  }

  lemma ModAdd(x: nat, size: nat)
    requires size > 0
    ensures (x + size) % size == x % size
  {
    var q := x / size;
    assert x + size == size * (q + 1) + x % size;
    assert x == size * q + x % size;
    ModUnique(x + size, size, q + 1, x % size);
  }

  lemma ModUnique(x: nat, size: nat, q: nat, r: nat)
    requires size > 0 && r < size && x == size * q + r
    ensures x % size == r
  {
    var d: int := (q as int) - x / size;
    assert x == size * (x / size) + x % size;
    assert size * d == x % size - r;
    SmallMultiple(size, d);
  }

  lemma SmallMultiple(size: int, d: int)
    requires size > 0 && -size < size * d < size
    ensures d == 0
  {
    Negated(size, d);
    if d >= 1 {
      AtLeastOnce(size, d);
    } else if d <= -1 {
      AtLeastOnce(size, -d);
    }
  }

  lemma Negated(size: int, d: int)
    ensures size * -d == -(size * d)
  {
  }

  lemma AtLeastOnce(size: int, d: int)
    requires size >= 0 && d >= 1
    ensures size * d >= size
  {
    assert size * d == size * (d - 1) + size;
  }

  /** AllocateMmioAddress and AllocateIoAddress: the address, and the counter afterwards. */
  function AllocatedMmio(c: Counters, size: nat): (nat, Counters) {
    var addr := RoundedDown(Wrap(c.mmio + size - 1), size);
    (addr, c.(mmio := Wrap(addr + size)))
  }

  function AllocatedIo(c: Counters, size: nat): (nat, Counters) {
    (c.io, c.(io := Wrap(c.io + size)))
  }

  /** While the counter stays in range: the first multiple of the size at or above it, and it moves just past. */
  lemma MmioAligned(c: Counters, size: nat)
    requires size > 0 && c.mmio + 2 * size <= TWO64
    ensures var (addr, c') := AllocatedMmio(c, size);
            && addr % size == 0 && c.mmio <= addr < c.mmio + size
            && c'.mmio == Wrap(addr + size) && c'.io == c.io
            && (addr + size < TWO64 ==> c'.mmio == addr + size)
  {
  }

  // ----- AssignBarAddress -----

  function Allocated(c: Counters, isIo: bool, size: nat): (nat, Counters) {
    if isIo then AllocatedIo(c, size) else AllocatedMmio(c, size)
  }

  /** BARs i and up; whatever the BAR, the size asked for is that of BAR0. */
  function Assigned(c: Counters, bars: seq<Bar>, i: nat): (r: (Counters, seq<Bar>))
    requires |bars| == BARS && i <= BARS
    ensures |r.1| == BARS && (forall j | 0 <= j < i :: r.1[j] == bars[j])
    ensures forall j | 0 <= j < BARS :: r.1[j] == bars[j].(base := r.1[j].base)
    decreases BARS - i
  {
    if i == BARS then (c, bars)
    else if bars[i].size == 0 then Assigned(c, bars, i + 1)
    else
      var (addr, c') := Allocated(c, bars[i].isIo, bars[0].size);
      Assigned(c', bars[i := bars[i].(base := addr)], i + 1)
  }

  /** Where the next block of a size and kind will start. */
  function Counter(c: Counters, isIo: bool, size: nat): nat {
    if isIo then c.io else RoundedDown(c.mmio + (if size > 0 then size - 1 else 0), size)
  }

  predicate OfKind(b: Bar, isIo: bool) {
    b.size != 0 && b.isIo == isIo
  }

  /** How many BARs of a kind there are from i up to, but not including, j. */
  function Ahead(bars: seq<Bar>, isIo: bool, i: nat, j: nat): (n: nat)
    requires i <= j <= |bars|
    ensures n <= j - i
    decreases j - i
  {
    if i == j then 0 else (if OfKind(bars[i], isIo) then 1 else 0) + Ahead(bars, isIo, i + 1, j)
  }

  lemma {:induction false} AheadIgnoresBases(bars: seq<Bar>, bars': seq<Bar>, isIo: bool, i: nat, j: nat)
    requires i <= j <= |bars| == |bars'|
    requires forall k | i <= k < j :: OfKind(bars'[k], isIo) == OfKind(bars[k], isIo)
    ensures Ahead(bars', isIo, i, j) == Ahead(bars, isIo, i, j)
    decreases j - i
  {
    if i < j {
      AheadIgnoresBases(bars, bars', isIo, i + 1, j);
    }
  }

  /** n blocks. */
  function Blocks(n: nat, size: nat): nat {
    if n == 0 then 0 else size + Blocks(n - 1, size)
  }

  /** The counters do not wrap while BARs i and up are assigned. */
  predicate Roomy(c: Counters, size: nat, i: nat) {
    && size > 0 && i <= BARS
    && Counter(c, false, size) + Blocks(BARS - i, size) < TWO64
    && Counter(c, true, size) + Blocks(BARS - i, size) < TWO64
  }

  lemma Step(c: Counters, isIo: bool, size: nat, i: nat)
    requires i < BARS && Roomy(c, size, i)
    ensures var (addr, c') := Allocated(c, isIo, size);
            && addr == Counter(c, isIo, size) && Counter(c', isIo, size) == addr + size
            && Counter(c', !isIo, size) == Counter(c, !isIo, size)
            && Roomy(c', size, i + 1) && Roomy(c, size, i + 1)
  {
    if !isIo {
      NextBlock(RoundedDown(c.mmio + size - 1, size), size);
    }
  }

  lemma NextBlock(addr: nat, s: nat)
    requires s > 0 && addr % s == 0
    ensures RoundedDown(addr + s + s - 1, s) == addr + s
  {
    var q := addr / s;
    assert addr == s * q;
    assert addr + s + s - 1 == s * (q + 1) + (s - 1);
    ModUnique(addr + s + s - 1, s, q + 1, s - 1);
  }

  lemma AssignedUnfolds(c: Counters, bars: seq<Bar>, i: nat)
    requires |bars| == BARS && i < BARS
    ensures var (addr, c') := Allocated(c, bars[i].isIo, bars[0].size);
            Assigned(c, bars, i) == if bars[i].size == 0 then Assigned(c, bars, i + 1)
                                    else Assigned(c', bars[i := bars[i].(base := addr)], i + 1)
  {
  }

  /** The BARs of each kind get consecutive blocks, every block as large as BAR0. */
  lemma {:induction false} Consecutive(c: Counters, bars: seq<Bar>, i: nat, j: nat)
    requires |bars| == BARS && i <= j < BARS && Roomy(c, bars[0].size, i) && bars[j].size != 0
    ensures Assigned(c, bars, i).1[j].base
            == Counter(c, bars[j].isIo, bars[0].size) + Blocks(Ahead(bars, bars[j].isIo, i, j), bars[0].size)
    decreases BARS - i
  {
    hide Roomy, Allocated, Counter, Assigned;
    var io := bars[j].isIo;
    Step(c, bars[i].isIo, bars[0].size, i);
    var (addr, c') := Allocated(c, bars[i].isIo, bars[0].size);
    var bars' := bars[i := bars[i].(base := addr)];
    AssignedUnfolds(c, bars, i);
    if bars[i].size == 0 {
      Consecutive(c, bars, i + 1, j);
    } else if i < j {
      Consecutive(c', bars', i + 1, j);
      AheadIgnoresBases(bars, bars', io, i + 1, j);
    } else {
      assert Assigned(c', bars', i + 1).1[i] == bars'[i];
    }
  }

  // ----- Overlaps -----

  predicate Disjoint(a: Bar, b: Bar) {
    a.base + a.size <= b.base || b.base + b.size <= a.base
  }

  /** j is not the last BAR of its kind. */
  predicate Followed(bars: seq<Bar>, j: nat) {
    j < |bars| && exists k | j < k < |bars| :: OfKind(bars[k], bars[j].isIo)
  }

  ghost predicate NoOverlap(bars: seq<Bar>) {
    forall j, k | 0 <= j < k < |bars| && bars[j].size != 0 && OfKind(bars[k], bars[j].isIo) ::
      Disjoint(bars[j], bars[k])
  }

  ghost predicate BlocksSuffice(bars: seq<Bar>) {
    forall j | 0 <= j < |bars| && bars[j].size != 0 && Followed(bars, j) :: bars[j].size <= bars[0].size
  }

  /** BARs of the same kind never overlap exactly when each of them that is followed by another fits in a
      block of BAR0's size. */
  lemma AssignedDisjointIff(c: Counters, bars: seq<Bar>)
    requires |bars| == BARS && Roomy(c, bars[0].size, 0)
    ensures NoOverlap(Assigned(c, bars, 0).1) <==> BlocksSuffice(bars)
  {
    hide Assigned, Roomy;
    var r := Assigned(c, bars, 0).1;
    if BlocksSuffice(bars) {
      forall j, k | 0 <= j < k < |r| && r[j].size != 0 && OfKind(r[k], r[j].isIo) ensures Disjoint(r[j], r[k]) {
        assert OfKind(bars[k], bars[j].isIo) && Followed(bars, j);
        LaterBlock(c, bars, j, k);
      }
    } else {
      var j :| 0 <= j < BARS && bars[j].size != 0 && Followed(bars, j) && bars[j].size > bars[0].size;
      var k := NextOfKind(c, bars, j);
      assert OfKind(r[k], r[j].isIo) && !Disjoint(r[j], r[k]);
    }
  }

  lemma {:induction false} AheadSplits(bars: seq<Bar>, isIo: bool, i: nat, j: nat, k: nat)
    requires i <= j <= k <= |bars|
    ensures Ahead(bars, isIo, i, k) == Ahead(bars, isIo, i, j) + Ahead(bars, isIo, j, k)
    decreases j - i
  {
    if i < j {
      AheadSplits(bars, isIo, i + 1, j, k);
    }
  }

  lemma {:induction false} Grows(n: nat, m: nat, size: nat)
    requires n < m
    ensures Blocks(n, size) + size <= Blocks(m, size)
    ensures m == n + 1 ==> Blocks(n, size) + size == Blocks(m, size)
    decreases m
  {
    if n + 1 < m {
      Grows(n, m - 1, size);
    }
  }

  lemma LaterBlock(c: Counters, bars: seq<Bar>, j: nat, k: nat)
    requires |bars| == BARS && Roomy(c, bars[0].size, 0) && j < k < BARS
    requires bars[j].size != 0 && OfKind(bars[k], bars[j].isIo)
    ensures var r := Assigned(c, bars, 0).1;
            && r[k].base >= r[j].base + bars[0].size
            && ((forall m | j < m < k :: !OfKind(bars[m], bars[j].isIo)) ==> r[k].base == r[j].base + bars[0].size)
  {
    var io := bars[j].isIo;
    Consecutive(c, bars, 0, j);
    Consecutive(c, bars, 0, k);
    AheadSplits(bars, io, 0, j, k);
    AheadSplits(bars, io, j, j + 1, k);
    if forall m | j < m < k :: !OfKind(bars[m], io) {
      NoneAhead(bars, io, j + 1, k);
    }
    Grows(Ahead(bars, io, 0, j), Ahead(bars, io, 0, k), bars[0].size);
  }

  lemma {:induction false} NoneAhead(bars: seq<Bar>, isIo: bool, i: nat, k: nat)
    requires i <= k <= |bars| && forall m | i <= m < k :: !OfKind(bars[m], isIo)
    ensures Ahead(bars, isIo, i, k) == 0
    decreases k - i
  {
    if i < k {
      NoneAhead(bars, isIo, i + 1, k);
    }
  }

  /** The next BAR of the kind starts right behind j's block. */
  lemma NextOfKind(c: Counters, bars: seq<Bar>, j: nat) returns (k: nat)
    requires |bars| == BARS && Roomy(c, bars[0].size, 0) && j < BARS && bars[j].size != 0 && Followed(bars, j)
    ensures j < k < BARS && OfKind(bars[k], bars[j].isIo)
    ensures var r := Assigned(c, bars, 0).1; r[k].base == r[j].base + bars[0].size
  {
    k := j + 1;
    while !OfKind(bars[k], bars[j].isIo)
      invariant j < k < BARS && forall m | j < m < k :: !OfKind(bars[m], bars[j].isIo)
      decreases BARS - k
    {
      k := k + 1;
    }
    LaterBlock(c, bars, j, k);
  }

  // ----- Alignment -----

  lemma {:induction false} BlocksAfter(base: nat, n: nat, size: nat)
    requires size > 0
    ensures (base + Blocks(n, size)) % size == base % size
    decreases n
  {
    if n > 0 {
      BlocksAfter(base, n - 1, size);
      ModAdd(base + Blocks(n - 1, size), size);
    }
  }

  predicate Multiple(x: nat, size: nat) {
    size > 0 && x % size == 0
  }

  ghost predicate BlocksAligned(bars: seq<Bar>, isIo: bool) {
    forall j | 0 <= j < |bars| && OfKind(bars[j], isIo) :: Multiple(bars[j].base, bars[0].size)
  }

  lemma BaseMultipleIff(c: Counters, bars: seq<Bar>, j: nat)
    requires |bars| == BARS && Roomy(c, bars[0].size, 0) && j < BARS && bars[j].size != 0
    ensures Multiple(Assigned(c, bars, 0).1[j].base, bars[0].size) <==>
            !bars[j].isIo || Multiple(c.io, bars[0].size)
  {
    hide Assigned, Blocks, Ahead;
    var s := bars[0].size;
    Consecutive(c, bars, 0, j);
    BlocksAfter(Counter(c, bars[j].isIo, s), Ahead(bars, bars[j].isIo, 0, j), s);
  }

  /** The blocks of every memory BAR are aligned to their size; those of the port BARs are, all of them, exactly
      when there is none or the port counter was aligned before the first, since nothing rounds it up. */
  lemma BlocksAlignedIff(c: Counters, bars: seq<Bar>)
    requires |bars| == BARS && Roomy(c, bars[0].size, 0)
    ensures var r := Assigned(c, bars, 0).1;
            && BlocksAligned(r, false)
            && (BlocksAligned(r, true) <==>
                  (forall j | 0 <= j < BARS :: !OfKind(bars[j], true)) || Multiple(c.io, bars[0].size))
  {
    hide Assigned, Multiple, Roomy;
    var r := Assigned(c, bars, 0).1;
    assert r[0].size == bars[0].size;
    forall j | 0 <= j < BARS && bars[j].size != 0
      ensures Multiple(r[j].base, bars[0].size) <==> !bars[j].isIo || Multiple(c.io, bars[0].size)
    {
      BaseMultipleIff(c, bars, j);
    }
    assert forall j, io | 0 <= j < BARS :: OfKind(r[j], io) == OfKind(bars[j], io);
  }

  /** Bases aligned to the BARs' own sizes, and no two BARs of a kind overlap: what routing by mask needs. */
  ghost predicate TableReady(bars: seq<Bar>) {
    && NoOverlap(bars)
    && forall j | 0 <= j < |bars| && bars[j].size != 0 :: Multiple(bars[j].base, bars[j].size)
  }

  lemma MultipleOfMultiple(base: nat, s: nat, size: nat)
    requires Multiple(base, s) && Multiple(s, size)
    ensures Multiple(base, size)
  {
    var q, k := base / s, s / size;
    assert base == s * q && s == size * k;
    Regroup(size, k, q);
    MultipleDivides(size, k * q);
  }

  lemma Regroup(size: nat, k: nat, q: nat)
    ensures size * k * q == size * (k * q)
  {
  }

  lemma DivisorFits(s: nat, size: nat)
    requires s > 0 && Multiple(s, size)
    ensures size <= s
  {
  }

  /** Every size divides that of BAR0 (for powers of two: is no larger), and the port counter is aligned or no
      BAR is a port BAR. */
  predicate SizesFit(c: Counters, bars: seq<Bar>)
    requires |bars| == BARS
  {
    && (forall j | 0 <= j < BARS && bars[j].size != 0 :: Multiple(bars[0].size, bars[j].size))
    && ((forall j | 0 <= j < BARS :: !OfKind(bars[j], true)) || Multiple(c.io, bars[0].size))
  }

  /** A table is ready for the router (see AssignedRouting) when BAR0 is present and the sizes fit. */
  lemma AssignedTableReady(c: Counters, bars: seq<Bar>)
    requires |bars| == BARS && Roomy(c, bars[0].size, 0)
    requires SizesFit(c, bars)
    ensures TableReady(Assigned(c, bars, 0).1)
  {
    assert bars[0].size > 0;
    hide Assigned, NoOverlap, Multiple, Roomy;
    var r := Assigned(c, bars, 0).1;
    forall j | 0 <= j < BARS && bars[j].size != 0 ensures bars[j].size <= bars[0].size {
      DivisorFits(bars[0].size, bars[j].size);
    }
    AssignedDisjointIff(c, bars);
    BlocksAlignedIff(c, bars);
    forall j | 0 <= j < BARS && r[j].size != 0 ensures Multiple(r[j].base, r[j].size) {
      assert OfKind(r[j], r[j].isIo);
      MultipleOfMultiple(r[j].base, bars[0].size, r[j].size);
    }
  }

  /** With BAR0 not implemented every memory BAR is given address zero, and the MMIO counter is reset. */
  lemma {:induction false} WithoutBar0(c: Counters, bars: seq<Bar>, i: nat)
    requires |bars| == BARS && i <= BARS && bars[0].size == 0
    ensures var (c', r) := Assigned(c, bars, i);
            && (forall j | i <= j < BARS && OfKind(bars[j], false) :: r[j].base == 0 && c'.mmio == 0)
    decreases BARS - i
  {
    if i < BARS {
      if bars[i].size == 0 {
        WithoutBar0(c, bars, i + 1);
      } else {
        var (addr, c') := Allocated(c, bars[i].isIo, 0);
        WithoutBar0(c', bars[i := bars[i].(base := addr)], i + 1);
        if !bars[i].isIo {
          CounterStays(c', bars[i := bars[i].(base := addr)], i + 1);
        }
      }
    }
  }

  lemma {:induction false} CounterStays(c: Counters, bars: seq<Bar>, i: nat)
    requires |bars| == BARS && i <= BARS && bars[0].size == 0 && c.mmio == 0
    ensures Assigned(c, bars, i).0.mmio == 0
    decreases BARS - i
  {
    if i < BARS {
      if bars[i].size == 0 {
        CounterStays(c, bars, i + 1);
      } else {
        var (addr, c') := Allocated(c, bars[i].isIo, 0);
        CounterStays(c', bars[i := bars[i].(base := addr)], i + 1);
      }
    }
  }

  // ----- In place -----

  class BarAllocator {
    var nextMmio: nat
    var nextIo: nat

    ghost function State(): Counters
      reads this
    {
      Counters(nextMmio, nextIo)
    }

    constructor ()
      ensures State() == Counters(0xF000_0000, 0x1000)
    {
      nextMmio, nextIo := 0xF000_0000, 0x1000;
    }

    method AllocateMmioAddress(size: nat) returns (addr: nat)
      modifies this
      ensures (addr, State()) == AllocatedMmio(old(State()), size)
    {
      addr := RoundedDown(Wrap(nextMmio + size - 1), size);
      nextMmio := Wrap(addr + size);
    }

    method AllocateIoAddress(size: nat) returns (addr: nat)
      modifies this
      ensures (addr, State()) == AllocatedIo(old(State()), size)
    {
      addr := nextIo;
      nextIo := Wrap(nextIo + size);
    }

    method AssignBarAddress(bars: array<Bar>)
      requires bars.Length == BARS
      modifies this, bars
      ensures (State(), bars[..]) == Assigned(old(State()), old(bars[..]), 0)
    {
      for i := 0 to BARS
        invariant Assigned(State(), bars[..], i) == Assigned(old(State()), old(bars[..]), 0)
      {
        if bars[i].size == 0 {
          continue;
        }
        var addr;
        if bars[i].isIo {
          addr := AllocateIoAddress(bars[0].size);
        } else {
          addr := AllocateMmioAddress(bars[0].size);
        }
        bars[i] := bars[i].(base := addr);
      }
    }
  }
}
