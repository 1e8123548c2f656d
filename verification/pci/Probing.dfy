/** What GetPciBarInfo of B_Kernel/bus/pci_logic.c reports about a BAR, and exactly when it is right. */
module Probing {
  import opened ConfigSpace

  // ----- 32-bit BARs, as words -----

  /** The address field of a register. */
  function Base32(raw: bv32): bv32 {
    if IsIo(raw) then raw & !3 else raw & !0xF
  }

  /** The address field is aligned to the size; the low nibble is never an address in the simulator's eyes. */
  predicate Aligned32(raw: bv32, size: bv64) {
    raw & (Low32(size) - 1) & !0xF == 0
  }

  predicate SizeOk(size: bv64) {
    PowerOfTwo(size) && 4 <= size <= 0x8000_0000
  }

  /** An I/O BAR with its reserved bit clear, or a memory BAR that is not 64 bits wide. */
  predicate FlagsOk(raw: bv32) {
    if IsIo(raw) then raw & 3 == 1 else BarType(raw) != 2
  }

  predicate Decodable(raw: bv32, size: bv64) {
    SizeOk(size) && Aligned32(raw, size) && FlagsOk(raw)
  }

  /** I/O BARs from four bytes, memory BARs from sixteen. */
  predicate LargeEnough(raw: bv32, size: bv64) {
    IsIo(raw) || size >= 16
  }

  predicate EndsAt4GB(raw: bv32, size: bv64) {
    Base32(raw) + Low32(size) == 0
  }

  /** The report of a 32-bit BAR from its register and the mask read back. */
  function InfoOf32(raw: bv32, sized: bv32): BarInfo {
    Checked(if IsIo(raw) then InfoOfIo(raw, sized) else InfoOfMemory(raw, sized))
  }

  /** Base and kind reported right. */
  predicate KindRight(info: BarInfo, raw: bv32) {
    info.base == Base32(raw) as bv64 && info.isIo == IsIo(raw) && !info.is64
  }

  lemma MaskTellsSize(raw: bv32, size: bv64)
    requires Decodable(raw, size)
    ensures KindRight(InfoOf32(raw, LowMask(raw, size)), raw)
    ensures InfoOf32(raw, LowMask(raw, size)).size == size <==> LargeEnough(raw, size)
  {
  }

  lemma MaskIsSet(raw: bv32, size: bv64)
    requires Decodable(raw, size)
    ensures LowMask(raw, size) != 0 && raw != ALL_ONES
  {
  }

  /** The register itself read back as a size mask. */
  lemma RawTellsSizeIff(raw: bv32, size: bv64)
    requires Decodable(raw, size)
    ensures InfoOf32(raw, raw).size == size <==> EndsAt4GB(raw, size)
  {
  }

  lemma RestoreBits(raw: bv32, size: bv64)
    requires Aligned32(raw, size)
    ensures Masked(raw, raw, size) == raw
  {
  }

  // ----- 32-bit BARs -----

  /** A quiet function whose BAR is a memory or I/O BAR of a decodable size at an aligned address. */
  ghost predicate Bar32(d: Device, bar: nat) {
    WellFormed(d) && Quiet(d) && bar < BARS && Decodable(d.config[FIRST_BAR + bar], d.sizes[bar])
  }

  lemma BarSize(d: Device, bar: nat)
    requires Bar32(d, bar)
    ensures d.sizes[bar] != 0
  {
  }

  /** Discovery of an even-numbered BAR: the mask comes back once, and nothing stays behind. */
  lemma MaskComesBack(d: Device, bar: nat)
    requires Bar32(d, bar) && bar % 2 == 0 && LowMask(d.config[FIRST_BAR + bar], d.sizes[bar]) != 0
    ensures var r := FIRST_BAR + bar;
            && Read(d, r) == (d, d.config[r])
            && Read(Write(d, r, ALL_ONES), r) == (d, LowMask(d.config[r], d.sizes[bar]))
  {
    BarSize(d, bar);
    hide LowMask, HighMask, IsIo, BarType, Masked, Decodable;
  }

  /** The simulator takes the odd register r for the high half of the BAR below it, which it sizes. */
  predicate TakenForHigh(d: Device, r: nat)
    requires WellFormed(d) && FIRST_BAR < r < PAST_BARS
  {
    BarType(d.config[r - 1]) == 2 && d.sizes[r - 1 - FIRST_BAR] != 0 && !IsIo(d.config[r])
  }

  /** On an odd-numbered BAR the register comes back instead of a mask. */
  lemma RawComesBack(d: Device, r: nat)
    requires WellFormed(d) && Quiet(d) && FIRST_BAR <= r < PAST_BARS && HighSlot(r)
    requires !TakenForHigh(d, r) && d.config[r] != ALL_ONES
    ensures var (d1, value) := Read(Write(d, r, ALL_ONES), r);
            Read(d, r) == (d, d.config[r]) && value == d.config[r] && Write(d1, r, value) == d
  {
    hide LowMask, BarType, Masked, IsIo;
  }

  /** A high half of a size that fits in 32 bits reads back as all ones. */
  lemma OnesComeBack(d: Device, r: nat)
    requires WellFormed(d) && Quiet(d) && FIRST_BAR <= r < PAST_BARS && HighSlot(r)
    requires TakenForHigh(d, r) && d.sizes[r - 1 - FIRST_BAR] <= 0x8000_0000 && d.config[r] != ALL_ONES
    ensures var (d1, value) := Read(Write(d, r, ALL_ONES), r);
            Read(d, r) == (d, d.config[r]) && value == ALL_ONES && d1 == d && Write(d1, r, d.config[r]) == d
  {
    HighOfSmall(d.config[r], d.sizes[r - 1 - FIRST_BAR]);
    hide LowMask, HighMask, BarType, Masked, IsIo;
  }

  lemma HighOfSmall(raw: bv32, size: bv64)
    requires !IsIo(raw) && size != 0 && size <= 0x8000_0000
    ensures HighMask(raw, size, true) == ALL_ONES
  {
  }

  lemma RestoreIsNoOp(d: Device, r: nat)
    requires WellFormed(d) && Quiet(d) && FIRST_BAR <= r < PAST_BARS && d.config[r] != ALL_ONES
    requires Aligned32(d.config[r], d.sizes[r - FIRST_BAR]) && !HighSlot(r)
    ensures Write(d, r, d.config[r]) == d
  {
    RestoreBits(d.config[r], d.sizes[r - FIRST_BAR]);
    hide Masked, BarType, Aligned32;
  }

  /** A probe that reads one mask and restores the register. */
  lemma ProbeOf32(d: Device, bar: nat, sized: bv32)
    requires WellFormed(d) && bar < BARS && FlagsOk(d.config[FIRST_BAR + bar])
    requires var r := FIRST_BAR + bar;
             && Read(d, r) == (d, d.config[r])
             && var (d1, value) := Read(Write(d, r, ALL_ONES), r); value == sized && Write(d1, r, d.config[r]) == d
    ensures Probe(d, bar) == (d, InfoOf32(d.config[FIRST_BAR + bar], sized))
  {
    assert IsIo(d.config[FIRST_BAR + bar]) || BarType(d.config[FIRST_BAR + bar]) != 2;
    hide Read, Write, IsIo, BarType, Checked, InfoOfIo, InfoOfMemory, FlagsOk;
  }

  /** An even-numbered 32-bit BAR is reported with its base and kind, and the function is left as it was; the
      size is right exactly for an I/O BAR or at least sixteen bytes. */
  lemma EvenBarRoundTrip(d: Device, bar: nat)
    requires Bar32(d, bar) && bar % 2 == 0
    ensures var (d', info) := Probe(d, bar);
            var raw := d.config[FIRST_BAR + bar];
            d' == d && KindRight(info, raw) && (info.size == d.sizes[bar] <==> LargeEnough(raw, d.sizes[bar]))
  {
    var r := FIRST_BAR + bar;
    var raw, size := d.config[r], d.sizes[bar];
    MaskTellsSize(raw, size);
    MaskIsSet(raw, size);
    assert FlagsOk(raw) && Aligned32(raw, size);
    hide Decodable, KindRight, LargeEnough, FlagsOk, Aligned32, InfoOf32, LowMask, Probe;
    MaskComesBack(d, bar);
    RestoreIsNoOp(d, r);
    hide Read, Write;
    ProbeOf32(d, bar, LowMask(raw, size));
  }

  /** The register below an odd-numbered BAR is an I/O or 32-bit BAR of its own, or none. */
  predicate OwnBar(d: Device, bar: nat)
    requires WellFormed(d) && 0 < bar < BARS
  {
    var below := d.config[FIRST_BAR + bar - 1];
    (IsIo(below) || BarType(below) != 2) && d.sizes[bar - 1] <= 0x8000_0000
  }

  lemma AllOnesIsNone(raw: bv32)
    ensures InfoOf32(raw, ALL_ONES) == NO_BAR
  {
  }

  /** An odd-numbered BAR that is not the high half of another: the function is left as it was, but the size
      is right exactly when the BAR ends at 4 GB. A memory BAR behind an I/O BAR whose address has bit 2 set
      is taken for a high half and reported as absent. */
  lemma OddBarRightIff(d: Device, bar: nat)
    requires Bar32(d, bar) && bar % 2 == 1 && OwnBar(d, bar)
    ensures var (d', info) := Probe(d, bar);
            var r := FIRST_BAR + bar;
            && d' == d
            && (info.size == d.sizes[bar] <==> EndsAt4GB(d.config[r], d.sizes[bar]) && !TakenForHigh(d, r))
            && (TakenForHigh(d, r) ==> info == NO_BAR)
  {
    var r := FIRST_BAR + bar;
    var raw, size := d.config[r], d.sizes[bar];
    RawTellsSizeIff(raw, size);
    MaskIsSet(raw, size);
    BarSize(d, bar);
    AllOnesIsNone(raw);
    assert FlagsOk(raw);
    hide Decodable, FlagsOk, InfoOf32, EndsAt4GB, LowMask, BarType, Probe, TakenForHigh;
    if TakenForHigh(d, r) {
      OnesComeBack(d, r);
      hide Read, Write;
      ProbeOf32(d, bar, ALL_ONES);
    } else {
      RawComesBack(d, r);
      hide Read, Write;
      ProbeOf32(d, bar, raw);
    }
  }

  // ----- Assigning an address -----

  function Value32(address: bv64, raw: bv32): bv32 {
    if IsIo(raw) then IoValue(address, raw) else MemoryValue(address, raw)
  }

  /** A 32-bit address aligned to the size. */
  predicate Suits(address: bv64, raw: bv32, size: bv64) {
    LargeEnough(raw, size) && address < 0x1_0000_0000 && address & (size - 1) == 0
  }

  /** Bits 2 and 3 of an address agree with those in the register. */
  predicate SameNibble(address: bv64, raw: bv32) {
    address & 0xC == (raw as bv64) & 0xC
  }

  predicate HoldsAddress(raw: bv32, address: bv64) {
    Base32(raw) as bv64 == address
  }

  lemma StoredShape(value: bv32, raw: bv32, size: bv64)
    ensures Aligned32(Masked(value, raw, size), size)
    ensures IsIo(Masked(value, raw, size)) == IsIo(raw) && FlagsOk(Masked(value, raw, size)) == FlagsOk(raw)
  {
    StoredFlags(value, raw, size);
    StoredAligned(value, raw, size);
    hide Masked, Aligned32, FlagsOk, IsIo;
  }

  lemma StoredAligned(value: bv32, raw: bv32, size: bv64)
    ensures Aligned32(Masked(value, raw, size), size)
  {
  }

  lemma StoredFlags(value: bv32, raw: bv32, size: bv64)
    ensures IsIo(Masked(value, raw, size)) == IsIo(raw) && FlagsOk(Masked(value, raw, size)) == FlagsOk(raw)
  {
  }

  lemma StoredMemory(address: bv64, raw: bv32, size: bv64)
    requires Decodable(raw, size) && Suits(address, raw, size) && !IsIo(raw)
    ensures HoldsAddress(Masked(Value32(address, raw), raw, size), address)
  {
  }

  lemma StoredIoIff(address: bv64, raw: bv32, size: bv64)
    requires Decodable(raw, size) && Suits(address, raw, size) && IsIo(raw)
    ensures HoldsAddress(Masked(Value32(address, raw), raw, size), address) <==> SameNibble(address, raw)
  {
  }

  lemma NeverAllOnes(address: bv64, raw: bv32)
    requires FlagsOk(raw)
    ensures Value32(address, raw) != ALL_ONES
  {
  }

  lemma AssignWrites(d: Device, bar: nat, address: bv64)
    requires Bar32(d, bar) && bar % 2 == 0
    ensures var r := FIRST_BAR + bar;
            var raw := d.config[r];
            Assigned(d, bar, address)
            == d.(config := d.config[r := Masked(Value32(address, raw), raw, d.sizes[bar])])
  {
    var raw := d.config[FIRST_BAR + bar];
    BarSize(d, bar);
    NeverAllOnes(address, raw);
    assert IsIo(raw) || BarType(raw) != 2;
    hide Masked, IoValue, MemoryValue, IsIo, BarType, Decodable;
  }

  /** Assigning an address and probing gives the address back, except that the low nibble of an I/O register
      never changes: a small I/O BAR moves only to addresses that agree with it in those bits. */
  lemma AssignedBaseIff(d: Device, bar: nat, address: bv64)
    requires Bar32(d, bar) && bar % 2 == 0 && Suits(address, d.config[FIRST_BAR + bar], d.sizes[bar])
    ensures var d' := Assigned(d, bar, address);
            var raw := d.config[FIRST_BAR + bar];
            && Bar32(d', bar) && Probe(d', bar).0 == d'
            && (Probe(d', bar).1.base == address <==> !IsIo(raw) || SameNibble(address, raw))
  {
    var raw, size := d.config[FIRST_BAR + bar], d.sizes[bar];
    StoredIff(address, raw, size);
    hide Masked, Value32, IsIo, Suits, SameNibble, Assigned, Probe, Decodable, HoldsAddress, KindRight, LargeEnough;
    AssignWrites(d, bar, address);
    EvenBarRoundTrip(Assigned(d, bar, address), bar);
    BaseReported(Probe(Assigned(d, bar, address), bar).1, Masked(Value32(address, raw), raw, size), address);
  }

  lemma StoredIff(address: bv64, raw: bv32, size: bv64)
    requires Decodable(raw, size) && Suits(address, raw, size)
    ensures var stored := Masked(Value32(address, raw), raw, size);
            && Decodable(stored, size)
            && (HoldsAddress(stored, address) <==> !IsIo(raw) || SameNibble(address, raw))
  {
    StoredShape(Value32(address, raw), raw, size);
    if IsIo(raw) {
      StoredIoIff(address, raw, size);
    } else {
      StoredMemory(address, raw, size);
    }
    hide SizeOk, Aligned32, FlagsOk, Masked, Value32, IsIo, Suits, SameNibble, HoldsAddress;
  }

  lemma BaseReported(info: BarInfo, raw: bv32, address: bv64)
    requires KindRight(info, raw)
    ensures info.base == address <==> HoldsAddress(raw, address)
  {
  }

  // ----- 64-bit BARs -----

  predicate Decodable64(raw: bv32, high: bv32, size: bv64) {
    && !IsIo(raw) && BarType(raw) == 2 && PowerOfTwo(size) && 16 <= size
    && Wide(high, raw & !0xF) & (size - 1) == 0
  }

  ghost predicate Bar64(d: Device, bar: nat) {
    && WellFormed(d) && Quiet(d) && bar < BARS && bar % 2 == 0
    && Decodable64(d.config[FIRST_BAR + bar], d.config[FIRST_BAR + bar + 1], d.sizes[bar])
  }

  function Base64(raw: bv32, high: bv32): bv64 {
    Wide(high, raw & !0xF)
  }

  lemma LowBits64(raw: bv32, high: bv32, size: bv64)
    requires Decodable64(raw, high, size)
    ensures LowMask(raw, size) != 0 && raw != ALL_ONES && Aligned32(raw, size) && size != 0
    ensures !IsIo(raw) && BarType(raw) == 2
  {
  }

  lemma HighBits64(raw: bv32, high: bv32, size: bv64)
    requires Decodable64(raw, high, size)
    ensures HighMask(high, size, true) != 0 <==> !IsIo(high)
    ensures high == ALL_ONES ==> IsIo(high)
  {
  }

  lemma Masks64(raw: bv32, high: bv32, size: bv64)
    requires Decodable64(raw, high, size) && !IsIo(high)
    ensures Checked(InfoOf64(raw, high, LowMask(raw, size), HighMask(high, size, true)))
            == BarInfo(Base64(raw, high), size, false, true)
  {
  }

  /** The high register itself read back as the high mask. */
  lemma HighAsMask(raw: bv32, high: bv32, size: bv64)
    requires Decodable64(raw, high, size) && high != ALL_ONES && IsIo(high)
    ensures Checked(InfoOf64(raw, high, LowMask(raw, size), high)).size != size
  {
  }

  /** The low half: the mask comes back and discovery ends. */
  lemma LowHalf(d: Device, bar: nat)
    requires Bar64(d, bar)
    ensures var r := FIRST_BAR + bar;
            && Read(d, r) == (d, d.config[r]) && Read(d, r + 1) == (d, d.config[r + 1])
            && Read(Write(d, r, ALL_ONES), r) == (d, LowMask(d.config[r], d.sizes[bar]))
  {
    LowBits64(d.config[FIRST_BAR + bar], d.config[FIRST_BAR + bar + 1], d.sizes[bar]);
    hide LowMask, HighMask, IsIo, BarType, Decodable64, Aligned32;
  }

  /** The high half: with an odd high register the simulator takes it for an I/O BAR and offers no mask. */
  lemma HighHalf(d: Device, bar: nat)
    requires Bar64(d, bar)
    ensures var r := FIRST_BAR + bar + 1;
            var (d3, value) := Read(Write(d, r, ALL_ONES), r);
            var mask := HighMask(d.config[r], d.sizes[bar], true);
            value == (if mask != 0 then mask else d.config[r]) && Cleared(d3) == d
  {
    LowBits64(d.config[FIRST_BAR + bar], d.config[FIRST_BAR + bar + 1], d.sizes[bar]);
    hide LowMask, HighMask, IsIo, BarType, Decodable64, Aligned32;
  }

  /** Writing both halves back. */
  lemma RestoreBothIff(d: Device, bar: nat, d3: Device)
    requires Bar64(d, bar) && WellFormed(d3) && Cleared(d3) == d
    ensures var r := FIRST_BAR + bar;
            Write(Write(d3, r, d.config[r]), r + 1, d.config[r + 1]) == d <==> d.config[r + 1] != ALL_ONES
  {
    var r := FIRST_BAR + bar;
    LowBits64(d.config[r], d.config[r + 1], d.sizes[bar]);
    RestoreBits(d.config[r], d.sizes[bar]);
    hide Masked, LowMask, HighMask, IsIo, BarType, Aligned32, Decodable64;
    assert Write(d3, r, d.config[r]) == d;
    if d.config[r + 1] == ALL_ONES {
      assert Write(d, r + 1, ALL_ONES).active;
    }
  }

  lemma ProbeOf64(d: Device, bar: nat, sized: bv32)
    requires WellFormed(d) && bar + 1 < BARS
    requires var r := FIRST_BAR + bar;
             && Read(d, r) == (d, d.config[r]) && !IsIo(d.config[r]) && BarType(d.config[r]) == 2
             && Read(d, r + 1) == (d, d.config[r + 1]) && Read(Write(d, r, ALL_ONES), r) == (d, sized)
    ensures var r := FIRST_BAR + bar;
            var (d3, sizedHigh) := Read(Write(d, r + 1, ALL_ONES), r + 1);
            Probe(d, bar) == (Write(Write(d3, r, d.config[r]), r + 1, d.config[r + 1]),
                              Checked(InfoOf64(d.config[r], d.config[r + 1], sized, sizedHigh)))
  {
    hide Read, Write, IsIo, BarType, Checked, InfoOf64;
  }

  /** A 64-bit BAR is reported right and the function left as it was exactly when its high register is even.
      With an odd one the size is wrong or, for all ones, the function stays in discovery mode. */
  lemma WideBarRoundTripIff(d: Device, bar: nat)
    requires Bar64(d, bar)
    ensures var raw, high := d.config[FIRST_BAR + bar], d.config[FIRST_BAR + bar + 1];
            Probe(d, bar) == (d, BarInfo(Base64(raw, high), d.sizes[bar], false, true)) <==> !IsIo(high)
  {
    var r := FIRST_BAR + bar;
    var raw, high, size := d.config[r], d.config[r + 1], d.sizes[bar];
    LowBits64(raw, high, size);
    ReportRightIff(raw, high, size);
    hide IsIo, BarType, LowMask, HighMask, Checked, InfoOf64, Base64, Aligned32, Decodable64, Cleared, Probe;
    LowHalf(d, bar);
    HighHalf(d, bar);
    hide Read, Write;
    RestoreBothIff(d, bar, Read(Write(d, r + 1, ALL_ONES), r + 1).0);
    ProbeOf64(d, bar, LowMask(raw, size));
  }

  lemma ReportRightIff(raw: bv32, high: bv32, size: bv64)
    requires Decodable64(raw, high, size)
    ensures high == ALL_ONES ==> IsIo(high)
    ensures var mask := HighMask(high, size, true);
            var sizedHigh := if mask != 0 then mask else high;
            high != ALL_ONES ==>
              ((Checked(InfoOf64(raw, high, LowMask(raw, size), sizedHigh))
                == BarInfo(Base64(raw, high), size, false, true)) <==> !IsIo(high))
  {
    HighBits64(raw, high, size);
    if !IsIo(high) {
      Masks64(raw, high, size);
    } else if high != ALL_ONES {
      HighAsMask(raw, high, size);
    }
    hide IsIo, BarType, LowMask, HighMask, Checked, InfoOf64, Base64, Decodable64;
  }

  /** A 64-bit BAR at an odd register, whose high register has no size of its own. */
  ghost predicate OddBar64(d: Device, bar: nat) {
    && WellFormed(d) && Quiet(d) && (bar == 1 || bar == 3) && d.sizes[bar + 1] == 0 && OwnBar(d, bar)
    && Decodable64(d.config[FIRST_BAR + bar], d.config[FIRST_BAR + bar + 1], d.sizes[bar])
  }

  predicate EndsAt2To64(base: bv64, size: bv64) {
    base + size == 0
  }

  /** The size a mask stands for. */
  function Complement(mask: bv64): bv64 {
    !mask + 1
  }

  lemma ComplementNegates(b: bv64)
    ensures Complement(b) == 0 - b
  {
  }

  lemma Opposite(b: bv64, s: bv64)
    ensures b + (0 - b) == 0 && (b + s) - b == s
  {
  }

  lemma ComplementEnds(base: bv64)
    ensures EndsAt2To64(base, Complement(base))
  {
    ComplementNegates(base);
    Opposite(base, 0);
  }

  lemma EndsIsComplement(base: bv64, size: bv64)
    requires EndsAt2To64(base, size)
    ensures size == Complement(base)
  {
    ComplementNegates(base);
    Opposite(base, size);
  }

  lemma ZeroComplement(base: bv64)
    requires Complement(base) == 0
    ensures base == 0
  {
    ComplementNegates(base);
  }

  /** A register pair read back as its own size mask. */
  lemma PairAsMask(raw: bv32, high: bv32)
    requires raw != 0 && raw != ALL_ONES
    ensures var base := Base64(raw, high); InfoOf64(raw, high, raw, high) == BarInfo(base, Complement(base), false, true)
  {
    hide Wide, Complement;
    var base := Base64(raw, high);
    WideSize(raw, high, raw, high);
    if Complement(base) == 0 {
      ZeroComplement(base);
    }
  }

  lemma WideSize(raw: bv32, high: bv32, sized: bv32, sizedHigh: bv32)
    requires sized != 0 && sized != ALL_ONES
    ensures var mask := Base64(sized, sizedHigh);
            InfoOf64(raw, high, sized, sizedHigh)
            == BarInfo(Base64(raw, high),
                       if Complement(mask) == 0 && mask != 0 then 0x8000_0000_0000_0000 else Complement(mask),
                       false, true)
  {
    hide Wide;
  }

  lemma RawTellsWideSizeIff(raw: bv32, high: bv32, size: bv64)
    requires Decodable64(raw, high, size)
    ensures Checked(InfoOf64(raw, high, raw, high)) == BarInfo(Base64(raw, high), size, false, true)
            <==> EndsAt2To64(Base64(raw, high), size)
    ensures Checked(InfoOf64(raw, high, ALL_ONES, high)) == NO_BAR && size != 0
  {
    LowBits64(raw, high, size);
    assert raw != 0;
    PairAsMask(raw, high);
    ComplementEnds(Base64(raw, high));
    if EndsAt2To64(Base64(raw, high), size) {
      EndsIsComplement(Base64(raw, high), size);
    }
    PlausibleWide(size);
    hide Wide, Base64, Complement, IsIo, BarType, EndsAt2To64, PowerOfTwo, LowMask, Aligned32, Decodable64;
    assert Checked(InfoOf64(raw, high, ALL_ONES, high)) == NO_BAR;
    hide InfoOf64;
    var info := InfoOf64(raw, high, raw, high);
    if info.size == size {
      CheckedKeeps(info);
    }
  }

  lemma CheckedKeeps(info: BarInfo)
    requires info.size & (info.size - 1) == 0 && info.size != 0 && info.size >= 4
    ensures Checked(info) == info
  {
  }

  lemma PlausibleWide(size: bv64)
    requires PowerOfTwo(size) && 16 <= size
    ensures size & (size - 1) == 0 && size != 0 && size >= 4
  {
  }

  /** The low register offers no mask and leaves none for the high one. */
  lemma LowOffersNone(d: Device, r: nat)
    requires WellFormed(d) && Quiet(d) && FIRST_BAR <= r && r + 1 < PAST_BARS && HighSlot(r)
    requires !TakenForHigh(d, r) && d.config[r] != ALL_ONES && !IsIo(d.config[r])
    ensures var (d2, sized) := Read(Write(d, r, ALL_ONES), r);
            && Read(d, r) == (d, d.config[r]) && sized == d.config[r]
            && Cleared(d2) == d && d2.lowMasks[r + 1 - FIRST_BAR] == 0
  {
    hide LowMask, BarType, Masked, IsIo;
  }

  /** Neither does the high register, which has no size, and both are restored. */
  lemma HighOffersNone(d: Device, d2: Device, r: nat)
    requires WellFormed(d) && WellFormed(d2) && FIRST_BAR <= r && r + 1 < PAST_BARS && HighSlot(r)
    requires Quiet(d) && Cleared(d2) == d && d2.lowMasks[r + 1 - FIRST_BAR] == 0
    requires d.sizes[r + 1 - FIRST_BAR] == 0 && d.config[r] != ALL_ONES
    ensures var (d3, sizedHigh) := Read(Write(d2, r + 1, ALL_ONES), r + 1);
            && sizedHigh == d.config[r + 1] && Write(Write(d3, r, d.config[r]), r + 1, d.config[r + 1]) == d
  {
    hide LowMask, HighMask, BarType, Masked, IsIo;
    assert d2.config == d.config && d2.sizes == d.sizes;
  }

  /** An odd-numbered 64-bit BAR: the function is left as it was, but the report is right exactly when the BAR
      ends at 2^64 and is not taken for a high half. */
  lemma OddWideBarRightIff(d: Device, bar: nat)
    requires OddBar64(d, bar)
    ensures var (d', info) := Probe(d, bar);
            var r := FIRST_BAR + bar;
            var raw, high := d.config[r], d.config[r + 1];
            && d' == d
            && (info == BarInfo(Base64(raw, high), d.sizes[bar], false, true)
                <==> EndsAt2To64(Base64(raw, high), d.sizes[bar]) && !TakenForHigh(d, r))
  {
    var r := FIRST_BAR + bar;
    var raw, high, size := d.config[r], d.config[r + 1], d.sizes[bar];
    LowBits64(raw, high, size);
    RawTellsWideSizeIff(raw, high, size);
    assert OwnBar(d, bar);
    hide IsIo, BarType, LowMask, HighMask, Checked, InfoOf64, Base64, Decodable64, Cleared, Probe, EndsAt2To64,
      TakenForHigh, Masked;
    if TakenForHigh(d, r) {
      OnesComeBack(d, r);
      HighUnsized(d, r + 1);
      hide Read, Write;
      ProbeOfOdd64(d, bar);
    } else {
      LowOffersNone(d, r);
      HighUnsized(d, r + 1);
      HighOffersNone(d, Read(Write(d, r, ALL_ONES), r).0, r);
      hide Read, Write;
      ProbeOfOdd64(d, bar);
    }
  }

  /** An even register without a size answers with itself. */
  lemma HighUnsized(d: Device, r: nat)
    requires WellFormed(d) && Quiet(d) && FIRST_BAR <= r < PAST_BARS && !HighSlot(r) && d.sizes[r - FIRST_BAR] == 0
    ensures Read(Write(d, r, ALL_ONES), r) == (d, d.config[r]) && Read(d, r) == (d, d.config[r])
    ensures Write(d, r, d.config[r]) == d
  {
    hide LowMask, HighMask, BarType, Masked, IsIo;
  }

  lemma ProbeOfOdd64(d: Device, bar: nat)
    requires WellFormed(d) && bar + 1 < BARS
    requires var r := FIRST_BAR + bar;
             && Read(d, r) == (d, d.config[r]) && !IsIo(d.config[r]) && BarType(d.config[r]) == 2
             && Read(d, r + 1) == (d, d.config[r + 1])
    ensures var r := FIRST_BAR + bar;
            var (d2, sized) := Read(Write(d, r, ALL_ONES), r);
            var (d3, sizedHigh) := Read(Write(d2, r + 1, ALL_ONES), r + 1);
            Probe(d, bar) == (Write(Write(d3, r, d.config[r]), r + 1, d.config[r + 1]),
                              Checked(InfoOf64(d.config[r], d.config[r + 1], sized, sizedHigh)))
  {
    hide Read, Write, IsIo, BarType, Checked, InfoOf64;
  }

  lemma StoredWide(address: bv64, raw: bv32, high: bv32, size: bv64)
    requires Decodable64(raw, high, size) && address & (size - 1) == 0
    ensures Base64(Masked(MemoryValue(address, raw), raw, size), High32(address)) == address
    ensures MemoryValue(address, raw) != ALL_ONES && !IsIo(raw) && BarType(raw) == 2 && size != 0
    ensures BarType(Masked(MemoryValue(address, raw), raw, size)) == 2
  {
  }

  /** An aligned address is assigned to a 64-bit BAR exactly when its high half is not all ones; otherwise the
      high half is taken for the start of discovery. */
  lemma AssignedWideIff(d: Device, bar: nat, address: bv64)
    requires Bar64(d, bar) && address & (d.sizes[bar] - 1) == 0
    ensures var d' := Assigned(d, bar, address);
            var r := FIRST_BAR + bar;
            (Quiet(d') && Base64(d'.config[r], d'.config[r + 1]) == address) <==> High32(address) != ALL_ONES
  {
    hide IsIo, BarType, Masked, MemoryValue, High32, Base64, Decodable64, LowMask, HighMask, Write;
    var r := FIRST_BAR + bar;
    var raw := d.config[r];
    StoredWide(address, raw, d.config[r + 1], d.sizes[bar]);
    var low := Masked(MemoryValue(address, raw), raw, d.sizes[bar]);
    LowWritten(d, r, MemoryValue(address, raw));
    HighWritten(d.(config := d.config[r := low]), r, High32(address));
  }

  lemma LowWritten(d: Device, r: nat, value: bv32)
    requires WellFormed(d) && Quiet(d) && FIRST_BAR <= r < PAST_BARS && !HighSlot(r)
    requires d.sizes[r - FIRST_BAR] != 0 && value != ALL_ONES
    ensures Write(d, r, value) == d.(config := d.config[r := Masked(value, d.config[r], d.sizes[r - FIRST_BAR])])
  {
    hide IsIo, BarType, Masked, LowMask, HighMask;
  }

  /** The high half of a 64-bit BAR is stored as it is, unless it looks like the start of discovery. */
  lemma HighWritten(d: Device, r: nat, value: bv32)
    requires WellFormed(d) && Quiet(d) && FIRST_BAR <= r && r + 1 < PAST_BARS && HighSlot(r + 1)
    requires BarType(d.config[r]) == 2 && d.sizes[r - FIRST_BAR] != 0
    ensures var d' := Write(d, r + 1, value);
            if value == ALL_ONES then !Quiet(d') else d' == d.(config := d.config[r + 1 := value])
  {
    hide IsIo, BarType, Masked, LowMask, HighMask;
  }

  predicate PlausibleSize(size: bv64) {
    size == 0 || (PowerOfTwo(size) && size >= 4)
  }

  lemma CheckedSize(info: BarInfo)
    ensures PlausibleSize(Checked(info).size)
  {
  }

  /** Whatever a function answers, a reported size is zero or a power of two of at least four. */
  lemma ReportedSize(d: Device, bar: nat)
    requires WellFormed(d) && bar < BARS
    ensures PlausibleSize(Probe(d, bar).1.size)
  {
    assert PlausibleSize(NO_BAR.size);
    hide Read, Write, InfoOfIo, InfoOfMemory, InfoOf64, IsIo, BarType, PlausibleSize, Checked;
    forall info: BarInfo ensures PlausibleSize(Checked(info).size) {
      CheckedSize(info);
    }
  }
}
