/** The functions of B_Kernel/mmio/mmio_router.c, with the loops and the mutual recursion they have in the
    source, each proved against Routing and RoutedMemory. */
module MmioRouters {
  import opened ConfigSpace
  import opened Routing
  import opened RoutedMemory

  class MmioRouter {
    const contexts: seq<Context>
    var memory: Memory

    ghost predicate Valid()
      reads this
    {
      Descending(contexts) && MemoryOf(contexts, memory)
    }

    constructor (contexts: seq<Context>)
      requires Descending(contexts)
      ensures Valid() && this.contexts == contexts
      ensures memory == seq(|contexts|, i => seq(BARS, b => map[]))
    {
      this.contexts := contexts;
      memory := seq(|contexts|, i => seq(BARS, b => map[]));
    }

    method EndpointClaimsAddress(c: Context, addr: bv64, io: bool) returns (f: Found)
      requires ContextOk(c)
      ensures f == Claims(c, addr, io)
    {
      for bar := 0 to BARS
        invariant ClaimingBar(c, addr, io, 0) == ClaimingBar(c, addr, io, bar)
      {
        var info := c.bars[bar];
        if info.size == 0 || info.base == 0 || info.isIo != io {
          continue;
        }
        if Top(info.size, addr) == Top(info.size, info.base) {
          return Found(MatchAt(c, bar, addr));
        }
      }
      f := NoMatch;
    }

    /** Every device on the bus is asked, but the first that claims is the match. */
    method ScanBusForDevice(bus: nat, addr: bv64, io: bool) returns (f: Found)
      requires Descending(contexts) && bus < 256
      ensures f == Scan(contexts, bus, 0, addr, io)
      decreases 256 - bus, 2
    {
      hide Claims, Enabled, InWindow;
      f := NoMatch;
      for i := 0 to |contexts|
        invariant Scan(contexts, bus, 0, addr, io) == if f.Found? then f else Scan(contexts, bus, i, addr, io)
      {
        var c := contexts[i];
        if c.bus != bus || !Enabled(c, io) {
          continue;
        }
        var claimed := NoMatch;
        if c.header == 1 {
          claimed := BridgeForwardsAddress(i, addr, io);
        }
        if claimed.NoMatch? {
          claimed := EndpointClaimsAddress(c, addr, io);
        }
        if claimed.Found? && f.NoMatch? {
          f := claimed;
        }
      }
    }

    method BridgeForwardsAddress(i: nat, addr: bv64, io: bool) returns (f: Found)
      requires Descending(contexts) && i < |contexts| && contexts[i].bus < 256 && contexts[i].header == 1
      ensures f == Forwarded(contexts, i, addr, io)
      decreases 256 - contexts[i].bus, 1
    {
      hide Claims, Enabled, InWindow;
      var bridge := contexts[i];
      var secondary, subordinate := Secondary(bridge), Subordinate(bridge);
      if secondary == 0 {
        return NoMatch;
      }
      if !InWindow(bridge, addr, io) {
        f := EndpointClaimsAddress(bridge, addr, io);
        return;
      }
      var bus := secondary;
      while bus <= subordinate
        invariant secondary <= bus < 256
        invariant Forwarded(contexts, i, addr, io) == ScanBuses(contexts, bus, subordinate, addr, io)
      {
        f := ScanBusForDevice(bus, addr, io);
        if f.Found? {
          return;
        }
        bus := bus + 1;
      }
      f := NoMatch;
    }

    method MmioFindDevice(addr: bv64, io: bool) returns (f: Found)
      requires Descending(contexts)
      ensures f == Find(contexts, addr, io)
    {
      f := ScanBusForDevice(0, addr, io);
    }

    method FindContext(m: Match) returns (j: nat)
      ensures j == IndexOf(contexts, m, 0)
    {
      j := 0;
      while j < |contexts|
        invariant j <= |contexts| && IndexOf(contexts, m, 0) == IndexOf(contexts, m, j)
      {
        if contexts[j].bus == m.bus && contexts[j].dev == m.dev && contexts[j].func == m.func {
          return;
        }
        j := j + 1;
      }
    }

    method MmioRouteRead(addr: bv64, w: Width) returns (v: bv64)
      requires Valid()
      ensures v == RouteRead(contexts, memory, addr, w)
    {
      hide Find, RoutedMemory.Valid, AllOnes, Load, Join;
      var f := MmioFindDevice(addr, false);
      if !RoutedMemory.Valid(f, addr, w) {
        return AllOnes(w);
      }
      ValidIsFound(f, addr, w);
      var j := FindContext(f.m);
      v := if j == |contexts| then 0 else Join(Load(memory[j][f.m.bar], f.m.offset, w));
    }

    method MmioRouteWrite(addr: bv64, v: bv64, w: Width)
      requires Valid()
      modifies this
      ensures Valid() && memory == RouteWrite(contexts, old(memory), addr, v, w)
    {
      hide Find, RoutedMemory.Valid, Store, Split;
      var f := MmioFindDevice(addr, false);
      if !RoutedMemory.Valid(f, addr, w) {
        return;
      }
      ValidIsFound(f, addr, w);
      var j := FindContext(f.m);
      if j < |contexts| {
        memory := memory[j := memory[j][f.m.bar := Store(memory[j][f.m.bar], f.m.offset, Split(v, w))]];
      }
    }

    lemma ValidIsFound(f: Found, addr: bv64, w: Width)
      requires RoutedMemory.Valid(f, addr, w)
      ensures f.Found?
    {
    }
  }
}
