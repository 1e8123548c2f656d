/** One PCI function of B_Kernel: its configuration space as sixty-four dwords, the sizes its address decoders
    implement, and the discovery mode in which a BAR register answers with its size mask
    (B_Kernel/bus/pci_logic.c, B_Kernel/hw/pci_sim.c; section 6.2.5.1 of the PCI Local Bus Specification 3.0). */
module ConfigSpace {
  const REGISTERS := 64
  const BARS := 6

  /** Registers by dword: the command register at 0x04, BAR0 at 0x10, the first one past BAR5 at 0x28. */
  const COMMAND := 1
  const HEADER := 3
  const FIRST_BAR := 4
  const PAST_BARS := 10

  const ALL_ONES: bv32 := 0xFFFF_FFFF

  datatype Device = Device(
    config: seq<bv32>, sizes: seq<bv64>, active: bool, lowMasks: seq<bv32>, highMasks: seq<bv32>)

  datatype BarInfo = BarInfo(base: bv64, size: bv64, isIo: bool, is64: bool)

  ghost predicate WellFormed(d: Device) {
    |d.config| == REGISTERS && |d.sizes| == |d.lowMasks| == |d.highMasks| == BARS
  }

  const NO_MASKS: seq<bv32> := [0, 0, 0, 0, 0, 0]

  /** Not in discovery mode, and no mask left over. */
  predicate Quiet(d: Device) {
    !d.active && d.lowMasks == NO_MASKS && d.highMasks == NO_MASKS
  }

  // ----- Bits -----

  function Low32(x: bv64): bv32 {
    (x & 0xFFFF_FFFF) as bv32
  }

  function High32(x: bv64): bv32 {
    (x >> 32) as bv32
  }

  function Wide(high: bv32, low: bv32): bv64 {
    ((high as bv64) << 32) | (low as bv64)
  }

  function BarType(raw: bv32): bv32 {
    (raw >> 1) & 3
  }

  predicate IsIo(raw: bv32) {
    raw & 1 != 0
  }

  predicate PowerOfTwo(size: bv64) {
    size != 0 && size & (size - 1) == 0
  }

  // ----- PciConfigRead32 and PciConfigWrite32 -----

  /** An odd BAR register, which holds the high half when the one below it is a 64-bit BAR. */
  predicate HighSlot(r: nat) {
    r > FIRST_BAR && (r - FIRST_BAR) % 2 == 1
  }

  function Cleared(d: Device): Device {
    d.(active := false, lowMasks := NO_MASKS, highMasks := NO_MASKS)
  }

  /** The mask getters answer 0 outside the table; register 3 is read with index -1. */
  function MaskAt(masks: seq<bv32>, i: int): bv32 {
    if 0 <= i < |masks| then masks[i] else 0
  }

  function Read(d: Device, r: nat): (res: (Device, bv32))
    requires WellFormed(d) && r < REGISTERS
    ensures WellFormed(res.0)
  {
    var i := r - FIRST_BAR;
    if !d.active || r < HEADER || r >= PAST_BARS then (d, d.config[r])
    else if HighSlot(r) then
      if BarType(d.config[r - 1]) == 2 && MaskAt(d.highMasks, i - 1) != 0
      then (Cleared(d), MaskAt(d.highMasks, i - 1)) else (d, d.config[r])
    else if MaskAt(d.lowMasks, i) != 0 then (Cleared(d), MaskAt(d.lowMasks, i))
    else (d, d.config[r])
  }

  /** Bits of the command register the function implements, of the eleven that are not reserved. */
  function CommandMask(d: Device): bv32
    requires WellFormed(d)
  {
    var headerType := (d.config[HEADER] >> 16) & 0x7F;
    var classCode := d.config[2] >> 24;
    var basic: bv32 := if headerType == 1 then 0x0157 else 0x0007;
    var extra: bv32 := if classCode == 1 || classCode == 2 then 0x0010 else if classCode == 3 then 0x0030 else 0;
    (basic | extra) & 0x07FF
  }

  /** The masks that answer for a BAR: the size mask over its own flag bits, and the high half of a 64-bit
      memory BAR. */
  function LowMask(orig: bv32, size: bv64): bv32 {
    if IsIo(orig) then (Low32(!(size - 1)) & !3) | (orig & 3) else (Low32(!(size - 1)) & !0xF) | (orig & 0xF)
  }

  function HighMask(orig: bv32, size: bv64, is64: bool): bv32 {
    if !IsIo(orig) && is64 then High32(!(size - 1)) else 0
  }

  function Merged(before: bv32, value: bv32, mask: bv32): bv32 {
    (before & !mask) | (value & mask)
  }

  /** What a write of all ones prepares for the next read. */
  function Discovering(d: Device, bar: nat, orig: bv32, size: bv64, is64: bool): Device
    requires WellFormed(d) && bar < BARS
  {
    d.(active := true, lowMasks := d.lowMasks[bar := LowMask(orig, size)],
       highMasks := d.highMasks[bar := HighMask(orig, size, is64)])
  }

  /** The address bits a BAR implements; the low nibble never changes. */
  function Masked(value: bv32, orig: bv32, size: bv64): bv32 {
    (value & !(Low32(size) - 1) & !0xF) | (orig & 0xF)
  }

  function Write(d: Device, r: nat, value: bv32): (d': Device)
    requires WellFormed(d) && r < REGISTERS
    ensures WellFormed(d') && d'.sizes == d.sizes
  {
    if r == COMMAND then
      d.(config := d.config[r := Merged(d.config[r], value, CommandMask(d))])
    else if FIRST_BAR <= r < PAST_BARS then
      var i := r - FIRST_BAR;
      var is64 := BarType(if HighSlot(r) then d.config[r - 1] else d.config[r]) == 2;
      var bar := if HighSlot(r) && is64 then i - 1 else i;
      var size := d.sizes[bar];
      if value == ALL_ONES then
        if size == 0 then d else Discovering(d, bar, d.config[r], size, is64)
      else
        var stored := if size != 0 && !HighSlot(r) then Masked(value, d.config[r], size) else value;
        Cleared(d).(config := d.config[r := stored])
    else d.(config := d.config[r := value])
  }

  // ----- GetPciBarInfo -----

  /** A size that is not a power of two, or below four, is reported as none. */
  function Checked(info: BarInfo): BarInfo {
    if info.size == 0 || info.size & (info.size - 1) != 0 || info.size < 4 then info.(size := 0) else info
  }

  const NO_BAR := BarInfo(0, 0, false, false)

  function InfoOfIo(raw: bv32, sized: bv32): BarInfo {
    if sized == 0 || sized == ALL_ONES then NO_BAR
    else BarInfo((raw & !3) as bv64, (!(sized & !3) + 1) as bv64, true, false)
  }

  function InfoOfMemory(raw: bv32, sized: bv32): BarInfo {
    if sized == 0 || sized == ALL_ONES then NO_BAR
    else BarInfo((raw & !0xF) as bv64, (!(sized & !0xF) + 1) as bv64, false, false)
  }

  function InfoOf64(raw: bv32, high: bv32, sized: bv32, sizedHigh: bv32): BarInfo {
    if sized == 0 || sized == ALL_ONES then NO_BAR
    else
      var mask := Wide(sizedHigh, sized & !0xF);
      var size := if !mask + 1 == 0 && mask != 0 then 0x8000_0000_0000_0000 else !mask + 1;
      BarInfo(Wide(high, raw & !0xF), size, false, true)
  }

  /** Write all ones, read the mask back, and restore; for a 64-bit BAR one half after the other. */
  function Probe(d: Device, bar: nat): (res: (Device, BarInfo))
    requires WellFormed(d) && bar < BARS
    ensures WellFormed(res.0)
  {
    var r := FIRST_BAR + bar;
    var (d0, raw) := Read(d, r);
    if IsIo(raw) || BarType(raw) != 2 then
      var (d1, sized) := Read(Write(d0, r, ALL_ONES), r);
      (Write(d1, r, raw), Checked(if IsIo(raw) then InfoOfIo(raw, sized) else InfoOfMemory(raw, sized)))
    else if bar >= 5 then (d0, NO_BAR)
    else
      var (d1, high) := Read(d0, r + 1);
      var (d2, sized) := Read(Write(d1, r, ALL_ONES), r);
      var (d3, sizedHigh) := Read(Write(d2, r + 1, ALL_ONES), r + 1);
      (Write(Write(d3, r, raw), r + 1, high), Checked(InfoOf64(raw, high, sized, sizedHigh)))
  }

  /** The register values that carry an address: flags kept, address bits replaced. */
  function IoValue(address: bv64, raw: bv32): bv32 {
    (Low32(address) & !3) | (raw & 3)
  }

  function MemoryValue(address: bv64, raw: bv32): bv32 {
    (Low32(address) & !0xF) | (raw & 0xF)
  }

  /** PciSetBarAddress */
  function Assigned(d: Device, bar: nat, address: bv64): (d': Device)
    requires WellFormed(d) && bar < BARS
    ensures WellFormed(d')
  {
    var r := FIRST_BAR + bar;
    var (d0, raw) := Read(d, r);
    if IsIo(raw) then Write(d0, r, IoValue(address, raw))
    else if BarType(raw) == 2 then
      Write(Write(d0, r, MemoryValue(address, raw)), r + 1, High32(address))
    else Write(d0, r, MemoryValue(address, raw))
  }

  // ----- In place -----

  class PciDevice {
    const config: array<bv32>
    const sizes: seq<bv64>
    var active: bool
    const lowMasks: array<bv32>
    const highMasks: array<bv32>

    ghost predicate Valid()
      reads this
    {
      && config.Length == REGISTERS && |sizes| == lowMasks.Length == highMasks.Length == BARS
      && config != lowMasks && config != highMasks && lowMasks != highMasks
    }

    ghost function State(): (d: Device)
      requires Valid()
      reads this, config, lowMasks, highMasks
      ensures WellFormed(d)
    {
      Device(config[..], sizes, active, lowMasks[..], highMasks[..])
    }

    constructor (raw: seq<bv32>, sizes: seq<bv64>)
      requires |raw| == REGISTERS && |sizes| == BARS
      ensures Valid() && State() == Device(raw, sizes, false, NO_MASKS, NO_MASKS)
      ensures fresh(config) && fresh(lowMasks) && fresh(highMasks)
    {
      config := new bv32[REGISTERS](i requires 0 <= i < REGISTERS => raw[i]);
      this.sizes := sizes;
      active := false;
      lowMasks := new bv32[BARS](i => 0);
      highMasks := new bv32[BARS](i => 0);
      new;
      assert config[..] == raw && lowMasks[..] == NO_MASKS && highMasks[..] == NO_MASKS;
    }

    method ClearDiscovery()
      requires Valid()
      modifies `active, lowMasks, highMasks
      ensures State() == Cleared(old(State()))
    {
      active := false;
      for i := 0 to BARS
        invariant !active && forall j | 0 <= j < i :: lowMasks[j] == 0 && highMasks[j] == 0
      {
        lowMasks[i] := 0;
        highMasks[i] := 0;
      }
      assert lowMasks[..] == NO_MASKS && highMasks[..] == NO_MASKS;
    }

    method ConfigRead(r: nat) returns (value: bv32)
      requires Valid() && r < REGISTERS
      modifies `active, lowMasks, highMasks
      ensures (State(), value) == Read(old(State()), r)
    {
      hide BarType;
      if active && HEADER <= r < PAST_BARS {
        var i := r - FIRST_BAR;
        var mask: bv32 := 0;
        if HighSlot(r) {
          if BarType(config[r - 1]) == 2 {
            mask := highMasks[i - 1];
          }
        } else if i >= 0 {
          mask := lowMasks[i];
        }
        if mask != 0 {
          ClearDiscovery();
          return mask;
        }
      }
      value := config[r];
    }

    method ConfigWrite(r: nat, value: bv32)
      requires Valid() && r < REGISTERS
      modifies `active, config, lowMasks, highMasks
      ensures State() == Write(old(State()), r, value)
    {
      hide BarType, Masked, Merged, CommandMask, LowMask, HighMask;
      if r == COMMAND {
        var mask := CommandMask(Device(config[..], sizes, active, lowMasks[..], highMasks[..]));
        config[r] := Merged(config[r], value, mask);
        return;
      }
      var stored := value;
      if FIRST_BAR <= r < PAST_BARS {
        var bar := r - FIRST_BAR;
        var is64;
        if HighSlot(r) {
          is64 := BarType(config[r - 1]) == 2;
          bar := if is64 then bar - 1 else bar;
        } else {
          is64 := BarType(config[r]) == 2;
        }
        if value == ALL_ONES {
          if sizes[bar] != 0 {
            StartDiscovery(bar, config[r], is64);
          }
          return;
        }
        ClearDiscovery();
        if sizes[bar] != 0 && !HighSlot(r) {
          stored := Masked(value, config[r], sizes[bar]);
        }
      }
      config[r] := stored;
    }

    method StartDiscovery(bar: nat, orig: bv32, is64: bool)
      requires Valid() && bar < BARS
      modifies `active, lowMasks, highMasks
      ensures State() == Discovering(old(State()), bar, orig, sizes[bar], is64)
    {
      hide LowMask, HighMask;
      active := true;
      lowMasks[bar] := LowMask(orig, sizes[bar]);
      highMasks[bar] := HighMask(orig, sizes[bar], is64);
    }

    method GetBarInfo(bar: nat) returns (info: BarInfo)
      requires Valid() && bar < BARS
      modifies `active, config, lowMasks, highMasks
      ensures (State(), info) == Probe(old(State()), bar)
    {
      hide Read, Write, IsIo, BarType, Checked, InfoOfIo, InfoOfMemory, InfoOf64;
      var r := FIRST_BAR + bar;
      var raw := ConfigRead(r);
      if IsIo(raw) {
        ConfigWrite(r, ALL_ONES);
        var sized := ConfigRead(r);
        ConfigWrite(r, raw);
        return Checked(InfoOfIo(raw, sized));
      }
      var is64 := BarType(raw) == 2;
      if is64 && bar >= 5 {
        return NO_BAR;
      }
      var high, sizedHigh := 0, 0;
      if is64 {
        high := ConfigRead(r + 1);
      }
      ConfigWrite(r, ALL_ONES);
      var sized := ConfigRead(r);
      if is64 {
        ConfigWrite(r + 1, ALL_ONES);
        sizedHigh := ConfigRead(r + 1);
      }
      ConfigWrite(r, raw);
      if is64 {
        ConfigWrite(r + 1, high);
      }
      info := Checked(if is64 then InfoOf64(raw, high, sized, sizedHigh) else InfoOfMemory(raw, sized));
    }

    method SetBarAddress(bar: nat, address: bv64)
      requires Valid() && bar < BARS
      modifies `active, config, lowMasks, highMasks
      ensures State() == Assigned(old(State()), bar, address)
    {
      hide Read, Write, IsIo, BarType, IoValue, MemoryValue;
      var r := FIRST_BAR + bar;
      var raw := ConfigRead(r);
      if IsIo(raw) {
        ConfigWrite(r, IoValue(address, raw));
      } else {
        ConfigWrite(r, MemoryValue(address, raw));
        if BarType(raw) == 2 {
          ConfigWrite(r + 1, High32(address));
        }
      }
    }
  }
}
