/** The BAR tables that address assignment in B_Kernel/device/OS_device.c leaves, as the router of
    B_Kernel/mmio/mmio_router.c reads them: aligned, and with at most one BAR for an address. */
module AssignedRouting {
  import opened ConfigSpace
  import opened Routing
  import opened MaskRounding
  import opened Words
  import Allocation

  /** A cached BAR holds the numbers of an assigned one. */
  predicate ReadsAs(b: BarInfo, a: Allocation.Bar) {
    Value(b.base) == a.base && Value(b.size) == a.size && b.isIo == a.isIo
  }

  /** The table that AssignBarAddress leaves from counters c, under the conditions that make it ready. */
  ghost predicate AssignedTable(table: seq<BarInfo>, c: Allocation.Counters, bars: seq<Allocation.Bar>) {
    && |table| == |bars| == BARS && Allocation.Roomy(c, bars[0].size, 0) && Allocation.SizesFit(c, bars)
    && (forall b | 0 <= b < BARS :: ReadsAs(table[b], Allocation.Assigned(c, bars, 0).1[b]))
    && (forall b | 0 <= b < BARS && table[b].size != 0 :: PowerOfTwo(table[b].size))
  }

  /** A number that is a multiple of a power of two has no bits below it. */
  lemma MultipleIsAligned(base: bv64, size: bv64)
    requires PowerOfTwo(size) && Allocation.Multiple(Value(base), Value(size))
    ensures AlignedTo(size, base)
  {
    hide PowerOfTwo, Value, Top, AlignedTo;
    MaskRounds(base, size);
    ValueInjective(Top(size, base), base);
    TopIsAligned(size, base);
  }

  lemma TopIsAligned(size: bv64, base: bv64)
    requires PowerOfTwo(size) && Top(size, base) == base
    ensures AlignedTo(size, base)
  {
  }

  /** The addresses a BAR holds, as numbers. */
  lemma HeldNumbers(size: bv64, base: bv64, addr: bv64)
    requires AlignedTo(size, base) && InRange(size, base, addr)
    ensures Value(base) <= Value(addr) < Value(base) + Value(size)
  {
    hide PowerOfTwo, Value, Top, AlignedTo, InRange;
    WithinRange(size, base, addr);
    AlignedTop(size, base);
    PowerPositive(size);
    MaskRounds(addr, size);
  }

  /** Every BAR of the table is aligned to its size, so the router's mask comparison is a range check. */
  lemma TableAligned(table: seq<BarInfo>, c: Allocation.Counters, bars: seq<Allocation.Bar>, b: nat)
    requires AssignedTable(table, c, bars) && b < BARS && table[b].size != 0
    ensures AlignedTo(table[b].size, table[b].base)
  {
    Allocation.AssignedTableReady(c, bars);
    PowerPositive(table[b].size);
    hide Value, PowerOfTwo, AlignedTo, Allocation.Assigned, Allocation.Roomy, Allocation.SizesFit,
      Allocation.NoOverlap, Allocation.Multiple;
    MultipleIsAligned(table[b].base, table[b].size);
  }

  lemma HolderNumbers(
      table: seq<BarInfo>, c: Allocation.Counters, bars: seq<Allocation.Bar>, b: nat, addr: bv64, io: bool)
    requires AssignedTable(table, c, bars) && b < BARS && Holds(table[b], addr, io)
    ensures var r := Allocation.Assigned(c, bars, 0).1[b];
            r.size != 0 && r.isIo == io && r.base <= Value(addr) < r.base + r.size
  {
    TableAligned(table, c, bars, b);
    HeldNumbers(table[b].size, table[b].base, addr);
    hide Value, AlignedTo, InRange, Allocation.Assigned, Allocation.Roomy, Allocation.SizesFit;
  }

  /** No address lies in two BARs of the table. */
  lemma OneHolder(
      table: seq<BarInfo>, c: Allocation.Counters, bars: seq<Allocation.Bar>, j: nat, k: nat, addr: bv64, io: bool)
    requires AssignedTable(table, c, bars) && j < k < BARS
    ensures !(Holds(table[j], addr, io) && Holds(table[k], addr, io))
  {
    Allocation.AssignedTableReady(c, bars);
    var r := Allocation.Assigned(c, bars, 0).1;
    assert r[j].size != 0 && Allocation.OfKind(r[k], r[j].isIo) ==> Allocation.Disjoint(r[j], r[k]);
    if Holds(table[j], addr, io) {
      HolderNumbers(table, c, bars, j, addr, io);
    }
    if Holds(table[k], addr, io) {
      HolderNumbers(table, c, bars, k, addr, io);
    }
    hide Value, Holds, Allocation.Assigned, Allocation.Roomy, Allocation.SizesFit, Allocation.NoOverlap;
  }

  /** Every device's table was left by an assignment. */
  ghost predicate AllAssigned(devs: seq<Context>)
    requires Shaped(devs)
  {
    forall i | 0 <= i < |devs| ::
      exists c: Allocation.Counters, bars: seq<Allocation.Bar> :: AssignedTable(devs[i].bars, c, bars)
  }

  /** Assignment gives the router what its lemmas ask for, and a device never has two BARs to choose from. */
  lemma AssignedRoutable(devs: seq<Context>, io: bool)
    requires Shaped(devs) && AllAssigned(devs)
    ensures BarsAligned(devs, io)
    ensures forall i, j, k, addr: bv64 | 0 <= i < |devs| && 0 <= j < k < BARS ::
              !(Holds(devs[i].bars[j], addr, io) && Holds(devs[i].bars[k], addr, io))
  {
    hide AssignedTable, AlignedTo, Holds;
    forall i, b | 0 <= i < |devs| && 0 <= b < BARS && Programmed(devs[i].bars[b], io)
      ensures AlignedTo(devs[i].bars[b].size, devs[i].bars[b].base)
    {
      var c, bars :| AssignedTable(devs[i].bars, c, bars);
      TableAligned(devs[i].bars, c, bars, b);
    }
    forall i, j, k, addr: bv64 | 0 <= i < |devs| && 0 <= j < k < BARS
      ensures !(Holds(devs[i].bars[j], addr, io) && Holds(devs[i].bars[k], addr, io))
    {
      var c, bars :| AssignedTable(devs[i].bars, c, bars);
      OneHolder(devs[i].bars, c, bars, j, k, addr, io);
    }
  }
}
