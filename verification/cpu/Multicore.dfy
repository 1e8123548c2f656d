/** The functions of firmwareLearning/cpu_isa.c that work on the cores and the bus in place, each proved
    against the transition of Machines and Simulation that it carries out. */
module Multicores {
  import opened Isa
  import opened CacheLines
  import opened StoreBuffers
  import opened Machines
  import opened Coherence
  import opened Simulation

  class Multicore {
    const cores: array<Core>
    const mem: array<Word>
    var locked: bool
    var owner: int
    var snoopHit: bool
    var snoopData: LineData

    ghost predicate Valid()
      reads this
    {
      mem.Length == MEMORY_SIZE / 4
    }

    function State(): (m: Machine)
      requires Valid()
      reads this, cores, mem
      ensures |m.cores| == cores.Length
    {
      Machine(cores[..], mem[..], locked, owner)
    }

    constructor (cores: array<Core>, mem: array<Word>)
      requires mem.Length == MEMORY_SIZE / 4
      ensures this.cores == cores && this.mem == mem && Valid() && !locked
    {
      this.cores := cores;
      this.mem := mem;
      locked, owner := false, 0;
      snoopHit, snoopData := false, [0, 0];
    }

    method CacheFind(c: Cache, a: Word) returns (r: int)
      ensures r == Find(c, a)
    {
      r := -1;
      for i := 0 to CACHE_LINES
        invariant r == -1 && forall j | 0 <= j < i :: !Hit(c[j], a)
      {
        if c[i].state != Invalid && c[i].address == LineBase(a) {
          return i;
        }
      }
    }

    method CacheEvictLine(i: nat, k: nat)
      requires Valid() && i < cores.Length && k < CACHE_LINES && WellFormed(cores[i].cache)
      modifies cores, mem
      ensures State() == EvictAt(old(State()), i, k)
    {
      var line := cores[i].cache[k];
      if line.state == Modified {
        var base := line.address;
        for w := 0 to LINE_WORDS
          invariant cores[..] == old(cores[..])
          invariant mem[..] == if w == 0 then old(mem[..])
                               else if w == 1 then old(mem[..])[base / 4 := line.data[0]]
                               else WriteBack(old(mem[..]), base, line.data)
        {
          mem[(base + w * 4) / 4] := line.data[w];
        }
      }
      cores[i] := cores[i].(cache := cores[i].cache[k := line.(state := Invalid, address := 0)]);
      assert cores[..] == old(cores[..])[i := old(cores[i]).(cache := Evicted(old(cores[i].cache), k))];
    }

    method CacheGetEmpty(i: nat) returns (k: nat)
      requires Valid() && i < cores.Length && WellFormed(cores[i].cache)
      modifies cores, mem
      ensures (State(), k) == GetEmpty(old(State()), i)
    {
      for j := 0 to CACHE_LINES
        invariant forall j' | 0 <= j' < j :: cores[i].cache[j'].state != Invalid
      {
        if cores[i].cache[j].state == Invalid {
          return j;
        }
      }
      CacheEvictLine(i, 0);
      k := 0;
    }

    method CacheSnoop(j: nat, a: Word, isWrite: bool)
      requires Valid() && j < cores.Length
      modifies cores, `snoopHit, `snoopData
      ensures var c := old(cores[j].cache);
              && cores[..] == old(cores[..])[j := old(cores[j]).(cache := Snooped(c, a, isWrite))]
              && (if View(c, a).Some? && (isWrite ==> View(c, a).value.state == Modified)
                  then snoopHit && snoopData == View(c, a).value.data
                  else snoopHit == old(snoopHit) && snoopData == old(snoopData))
    {
      var c := cores[j].cache;
      var k := CacheFind(c, a);
      if k == -1 {
        return;
      }
      var line := c[k];
      if isWrite {
        if line.state == Modified {
          CopyToBus(line.data);
          snoopHit := true;
        }
        line := line.(state := Invalid);
      } else if line.state != Invalid {
        CopyToBus(line.data);
        snoopHit := true;
        if line.state == Modified || line.state == Exclusive {
          line := line.(state := Shared);
        }
      }
      assert c[k := line] == Snooped(c, a, isWrite);
      cores[j] := cores[j].(cache := c[k := line]);
      assert cores[..] == old(cores[..])[j := old(cores[j]).(cache := Snooped(c, a, isWrite))];
    }

    method CopyToBus(data: LineData)
      modifies `snoopData
      ensures snoopData == data
    {
      for w := 0 to LINE_WORDS
        invariant forall v | 0 <= v < w :: snoopData[v] == data[v]
      {
        snoopData := snoopData[w := data[w]];
      }
    }

    method CacheSnoopOtherCores(i: nat, a: Word, isWrite: bool)
      requires Valid() && i < cores.Length
      modifies cores, `snoopHit, `snoopData
      ensures cores[..] == SnoopOthers(old(cores[..]), i, a, isWrite)
      ensures !isWrite && !old(snoopHit) ==>
                var s := Supplier(old(cores[..]), i, a, cores.Length);
                && (snoopHit <==> s != -1)
                && (s != -1 ==> snoopData == View(old(cores[..])[s].cache, a).value.data)
    {
      hide Snooped, View;
      ghost var was := cores[..];
      for j := 0 to cores.Length
        invariant forall k | 0 <= k < cores.Length ::
                    cores[k] == if k < j then SnoopOthers(was, i, a, isWrite)[k] else was[k]
        invariant !isWrite && !old(snoopHit) ==>
                    var s := Supplier(was, i, a, j);
                    && (snoopHit <==> s != -1)
                    && (s != -1 ==> snoopData == View(was[s].cache, a).value.data)
      {
        if j != i {
          CacheSnoop(j, a, isWrite);
        }
      }
    }

    method CacheLoad(i: nat, a: Word) returns (value: Word)
      requires Valid() && i < cores.Length && a < MEMORY_SIZE && WellFormed(cores[i].cache)
      modifies cores, mem, `snoopHit, `snoopData
      ensures State() == Load(old(State()), i, a)
      ensures value == CachedWord(cores[i].cache, a)
    {
      var k := CacheFind(cores[i].cache, a);
      if k != -1 {
        return cores[i].cache[k].data[WordOffset(a)];
      }
      k := CacheGetEmpty(i);
      FillLine(i, a, k);
      MissInSlot(old(State()), i, a, k);
      value := cores[i].cache[k].data[WordOffset(a)];
    }

    /** The miss path of CacheLoad: ask the other cores, then fill slot k from the bus. */
    method FillLine(i: nat, a: Word, k: nat)
      requires Valid() && i < cores.Length && a < MEMORY_SIZE && k < CACHE_LINES
      modifies cores, `snoopHit, `snoopData
      ensures State() == Filled(old(State()), i, k, a)
    {
      ghost var m := State();
      var base := LineBase(a);
      snoopHit := false;
      snoopData := [0, 0];
      CacheSnoopOtherCores(i, a, false);
      var line := cores[i].cache[k].(address := base);
      if snoopHit {
        line := line.(data := snoopData, state := Shared);
      } else {
        line := line.(data := [mem[base / 4], mem[base / 4 + 1]], state := Exclusive);
      }
      assert line == FilledLine(m, i, a);
      hide FilledLine, Supplier, SnoopOthers;
      cores[i] := cores[i].(cache := cores[i].cache[k := line]);
      assert cores[..] == Filled(m, i, k, a).cores;
    }

    method CacheWriteDirect(i: nat, a: Word, v: Word)
      requires Valid() && i < cores.Length && a < MEMORY_SIZE && WellFormed(cores[i].cache)
      modifies cores, mem, `snoopHit, `snoopData
      ensures State() == WriteDirect(old(State()), i, a, v)
    {
      hide Find, Snooped, View, LineBase;
      var k := CacheFind(cores[i].cache, a);
      if k == -1 {
        var _ := CacheLoad(i, a);
        k := CacheFind(cores[i].cache, a);
      }
      ghost var m1 := State();
      if cores[i].cache[k].state == Shared {
        snoopHit := false;
        CacheSnoopOtherCores(i, a, true);
      }
      var line := cores[i].cache[k];
      cores[i] := cores[i].(cache :=
        cores[i].cache[k := line.(data := line.data[WordOffset(a) := v], state := Modified)]);
      assert State() == Written(m1, i, a, v);
    }

    method StoreBufferPush(i: nat, addr: Word, data: Word)
      requires Valid() && i < cores.Length
      modifies cores
      ensures State() == WithBuffer(old(State()), i, Pushed(old(cores[i].buffer), addr, data))
    {
      var b := cores[i].buffer;
      if b.count >= STORE_BUFFER_SIZE {
        assert cores[..] == cores[..][i := cores[i].(buffer := b)];
        return;
      }
      var tail := b.tail;
      b := b.(entries := b.entries[tail := Entry(addr, data, true)],
              tail := (tail + 1) % STORE_BUFFER_SIZE,
              count := b.count + 1);
      cores[i] := cores[i].(buffer := b);
      assert cores[..] == old(cores[..])[i := old(cores[i]).(buffer := b)];
    }

    method DrainStoreBuffer(i: nat)
      requires Valid() && i < cores.Length && Coherent(State()) && StoresInMemory(Pending(cores[i].buffer))
      modifies cores, mem, `snoopHit, `snoopData
      ensures State() == if old(cores[i].buffer).count == 0 then old(State()) else Drain(old(State()), i)
    {
      if cores[i].buffer.count == 0 {
        return;
      }
      PopDropsOldest(cores[i].buffer);
      var head := cores[i].buffer.head;
      var entry := cores[i].buffer.entries[head];
      CacheWriteDirect(i, entry.addr, entry.data);
      LoadFrame(old(State()), i, entry.addr);
      hide WriteDirect;
      PopEntry(i);
    }

    /** The oldest entry leaves the buffer. */
    method PopEntry(i: nat)
      requires Valid() && i < cores.Length && cores[i].buffer.count > 0
      modifies cores
      ensures State() == WithBuffer(old(State()), i, Popped(old(cores[i].buffer)))
    {
      var b := cores[i].buffer;
      b := b.(entries := b.entries[b.head := b.entries[b.head].(valid := false)],
              head := (b.head + 1) % STORE_BUFFER_SIZE,
              count := b.count - 1);
      cores[i] := cores[i].(buffer := b);
      assert cores[..] == old(cores[..])[i := old(cores[i]).(buffer := Popped(old(cores[i].buffer)))];
    }

    method FlushStoreBuffer(i: nat)
      requires Valid() && i < cores.Length && Coherent(State()) && StoresInMemory(Pending(cores[i].buffer))
      modifies cores, mem, `snoopHit, `snoopData
      ensures State() == Flush(old(State()), i)
    {
      hide Coherent, StoresInMemory, Drain;
      while cores[i].buffer.count > 0
        invariant Coherent(State()) && StoresInMemory(Pending(cores[i].buffer))
        invariant locked == old(locked) && owner == old(owner)
        invariant Flush(State(), i) == Flush(old(State()), i)
        decreases cores[i].buffer.count
      {
        DrainCoherent(State(), i);
        DrainStoreBuffer(i);
      }
    }

    /** Registers only: DECODE, address and execute micro-ops, write-backs, jumps. */
    method SetCpu(i: nat, c: Cpu)
      requires Valid() && i < cores.Length
      modifies cores
      ensures State() == WithCpu(old(State()), i, c)
    {
      cores[i] := cores[i].(cpu := c);
      assert cores[..] == old(cores[..])[i := old(cores[i]).(cpu := c)];
    }

    method Step(i: nat)
      requires Valid() && i < cores.Length && Coherent(State())
      requires CanStep(State(), i) ==> InRange(State(), i)
      modifies this, cores, mem
      ensures State() == Simulation.Step(old(State()), i)
    {
      var c := cores[i].cpu;
      if c.halted || (locked && owner != i) {
        return;
      }
      if IsLocal(c.op) {
        SetCpu(i, LocalStep(c));
      } else if IsLoad(c.op) {
        var value := CacheLoad(i, c.addr);
        SetCpu(i, c.(temp := value, op := AfterLoad(c.op)));
      } else if c.op == FenceExec {
        FlushStoreBuffer(i);
        SetCpu(i, c.(op := Fetch));
      } else {
        StepOnBus(i);
      }
    }

    /** The micro-ops that fetch, push a store, or take or leave the bus lock. */
    method StepOnBus(i: nat)
      requires Valid() && i < cores.Length && IsBus(cores[i].cpu.op) && InRange(State(), i)
      modifies this, cores
      ensures State() == BusStep(old(State()), i)
    {
      hide Plus, Target, Pushed;
      var c := cores[i].cpu;
      match c.op
      case Fetch =>
        SetCpu(i, c.(instr := mem[c.pc / 4], pc := Plus(c.pc, 4), op := Decode));
      case StoreMem =>
        StoreBufferPush(i, c.addr, c.regs[c.fields.dest]);
        SetCpu(i, c.(op := Fetch));
      case LockIncAddr =>
        locked, owner := true, i;
        SetCpu(i, c.(addr := Target(c), op := LockIncLoad));
      case LockIncStore =>
        c := c.(temp := Plus(c.temp, 1));
        StoreBufferPush(i, c.addr, c.temp);
        locked, owner := false, NO_OWNER;
        SetCpu(i, c.(op := Fetch));
      case CmpxchgAddr =>
        locked, owner := true, i;
        SetCpu(i, c.(addr := Target(c), op := CmpxchgLoad));
      case CmpxchgStore =>
        StoreBufferPush(i, c.addr, c.regs[c.fields.dest]);
        locked, owner := false, NO_OWNER;
        SetCpu(i, c.(zero := true, op := Fetch));
      case CmpxchgFail =>
        locked, owner := false, NO_OWNER;
        SetCpu(i, c.(op := Fetch));
      case _ =>
        assert false;
    }
  }

  /** After a miss, the slot that was filled is the one a search finds. */
  lemma MissInSlot(m: Machine, i: nat, a: Word, k: nat)
    requires IsCore(m, i) && a < MEMORY_SIZE && WellFormed(m.cores[i].cache)
    requires Find(m.cores[i].cache, a) == -1 && k == GetEmpty(m, i).1
    ensures Find(Load(m, i, a).cores[i].cache, a) == k
  {
    var (m1, _) := GetEmpty(m, i);
    var c := m1.cores[i].cache;
    assert forall j | 0 <= j < CACHE_LINES :: !Hit(c[j], a);
  }
}
