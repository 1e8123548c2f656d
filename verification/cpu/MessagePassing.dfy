/** The two-core program of main in firmwareLearning/cpu_isa.c: core 0 publishes data and then a flag, core 1
    spins on the flag and then reads the data. Proved for every interleaving, not only for main's lockstep. */
module MessagePassing {
  import opened Isa
  import opened CacheLines
  import opened StoreBuffers
  import opened Machines
  import opened Coherence
  import opened Fences
  import opened Simulation

  const DATA: Immediate := 0x300
  const FLAG: Immediate := 0x308
  const READER_BASE: Word := 0x100
  const SPIN: Immediate := 0x10C

  const WRITER_LENGTH := 9
  const READER_LENGTH := 8

  function Writer(k: nat): Fields {
    if k == 0 then Fields(OPC_LIC, 0, 0, 0, DATA)
    else if k == 1 then Fields(OPC_LIC, 1, 0, 0, FLAG)
    else if k == 2 then Fields(OPC_LIC, 2, 0, 0, 42)
    else if k == 3 then Fields(OPC_LIC, 3, 0, 0, 1)
    else if k == 4 then Fields(OPC_STORE, 2, 0, 1, 0)
    else if k == 5 then Fields(OPC_FENCE, 0, 0, 0, 0)
    else if k == 6 then Fields(OPC_STORE, 3, 1, 1, 0)
    else if k == 7 then Fields(OPC_FENCE, 0, 0, 0, 0)
    else Fields(OPC_HALT, 0, 0, 0, 0)
  }

  function Reader(k: nat): Fields {
    if k == 0 then Fields(OPC_LIC, 0, 0, 0, FLAG)
    else if k == 1 then Fields(OPC_LIC, 1, 0, 0, DATA)
    else if k == 2 then Fields(OPC_LIC, 2, 0, 0, 0)
    else if k == 3 then Fields(OPC_LOAD, 3, 0, 1, 0)
    else if k == 4 then Fields(OPC_CMP, 3, 2, 0, 0)
    else if k == 5 then Fields(OPC_JEQ, 0, 0, 0, SPIN)
    else if k == 6 then Fields(OPC_LOAD, 4, 1, 1, 0)
    else Fields(OPC_HALT, 0, 0, 0, 0)
  }

  predicate CodeLoaded(mem: Memory) {
    && (forall k | 0 <= k < WRITER_LENGTH :: mem[k] == Encode(Writer(k)))
    && (forall k | 0 <= k < READER_LENGTH :: mem[READER_BASE / 4 + k] == Encode(Reader(k)))
  }

  /** The machine main builds. */
  predicate Initial(m: Machine) {
    && |m.cores| == 2 && !m.locked
    && CodeLoaded(m.mem) && m.mem[DATA / 4] == 0 && m.mem[FLAG / 4] == 0
    && (forall i | 0 <= i < 2 ::
          var c := m.cores[i];
          && c.cpu.op == Fetch && !c.cpu.halted && c.buffer.count == 0
          && c.cpu.pc == (if i == 0 then 0 else READER_BASE)
          && forall k | 0 <= k < CACHE_LINES :: c.cache[k].state == Invalid)
  }

  /** The micro-ops an opcode goes through after DECODE. */
  predicate Executes(opc: Byte, op: MicroOp) {
    || op == FirstMicroOp(opc)
    || (opc == OPC_LOAD && (op == LoadMem || op == LoadWb))
    || (opc == OPC_STORE && op == StoreMem)
  }

  /** The core is inside instruction k, encoded from f, of the program at base. */
  ghost predicate At(c: Cpu, f: Fields, base: Word, k: nat) {
    && c.pc == base + 4 * k + (if c.op == Fetch then 0 else 4)
    && (c.op != Fetch ==> c.instr == Encode(f))
    && (c.op != Fetch && c.op != Decode ==> c.fields == f && Executes(f.opc, c.op))
    && (c.halted ==> c.op == HaltExec)
  }

  function DataAfter(k: nat): Word {
    if k < 6 then 0 else 42
  }

  function FlagAfter(k: nat): Word {
    if k < 8 then 0 else 1
  }

  function QueueAt(k: nat): seq<Store> {
    if k == 5 then [Store(DATA, 42)] else if k == 7 then [Store(FLAG, 1)] else []
  }

  /** Core 0 at instruction k: its registers, its queue, and what it has published. */
  ghost predicate WriterAt(c: Cpu, q: seq<Store>, mem: Memory, k: nat) {
    && k < WRITER_LENGTH && At(c, Writer(k), 0, k)
    && (k >= 1 ==> c.regs[0] == DATA)
    && (k >= 2 ==> c.regs[1] == FLAG)
    && (k >= 3 ==> c.regs[2] == 42)
    && (k >= 4 ==> c.regs[3] == 1)
    && (c.op == StoreMem ==> c.addr == if k == 4 then DATA else FLAG)
    && q == QueueAt(k)
    && mem[DATA / 4] == DataAfter(k) && mem[FLAG / 4] == FlagAfter(k)
  }

  /** A flag value that core 1 has seen: 1 only if the data is there. */
  predicate Seen(v: Word, mem: Memory) {
    v == 0 || (v == 1 && mem[DATA / 4] == 42)
  }

  /** Core 1 at instruction k. */
  ghost predicate ReaderAt(c: Cpu, q: seq<Store>, mem: Memory, k: nat) {
    && k < READER_LENGTH && At(c, Reader(k), READER_BASE, k)
    && (k >= 1 ==> c.regs[0] == FLAG)
    && (k >= 2 ==> c.regs[1] == DATA)
    && (k >= 3 ==> c.regs[2] == 0)
    && (c.op == LoadMem ==> c.addr == if k == 3 then FLAG else DATA)
    && (c.op == LoadWb && k == 3 ==> Seen(c.temp, mem))
    && (c.op == LoadWb && k == 6 ==> c.temp == 42)
    && (k == 4 || k == 5 ==> Seen(c.regs[3], mem))
    && (k == 5 ==> c.zero == (c.regs[3] == 0))
    && (k >= 6 ==> c.regs[3] == 1 && mem[DATA / 4] == 42)
    && (k >= 7 ==> c.regs[4] == 42)
    && q == []
  }

  /** Core 0 is at its instruction kw and core 1 at its instruction kr. */
  ghost predicate FlatInvariant(f: FlatMachine, kw: nat, kr: nat) {
    && |f.cores| == 2 && !f.locked && CodeLoaded(f.mem)
    && WriterAt(f.cores[0].cpu, f.cores[0].queue, f.mem, kw)
    && ReaderAt(f.cores[1].cpu, f.cores[1].queue, f.mem, kr)
  }

  // ----- One step of each core on flat memory -----

  lemma WriterDecode(c: Cpu, q: seq<Store>, mem: Memory, k: nat)
    requires WriterAt(c, q, mem, k) && c.op == Decode && !c.halted
    ensures WriterAt(LocalStep(c), q, mem, k)
  {
    DecodeInvertsEncode(Writer(k));
  }

  lemma WriterLocal(c: Cpu, q: seq<Store>, mem: Memory, k: nat)
    requires WriterAt(c, q, mem, k) && IsLocal(c.op) && c.op != Decode && !c.halted
    ensures WriterAt(LocalStep(c), q, mem, if c.op == LicWb then k + 1 else k)
  {
  }

  lemma WriterStep(f: FlatMachine, k: nat) returns (k': nat)
    requires |f.cores| == 2 && !f.locked && CodeLoaded(f.mem) && !f.cores[0].cpu.halted
    requires WriterAt(f.cores[0].cpu, f.cores[0].queue, f.mem, k)
    ensures FlatInRange(f, 0)
    ensures var f' := FlatStep(f, 0);
            && f'.cores[1] == f.cores[1] && !f'.locked && CodeLoaded(f'.mem)
            && (f.mem[DATA / 4] == 42 ==> f'.mem[DATA / 4] == 42)
            && WriterAt(f'.cores[0].cpu, f'.cores[0].queue, f'.mem, k')
  {
    hide WriterAt, CodeLoaded, LocalStep;
    var c := f.cores[0].cpu;
    if c.op == Decode {
      WriterDecode(c, f.cores[0].queue, f.mem, k);
      k' := k;
    } else if IsLocal(c.op) {
      WriterLocal(c, f.cores[0].queue, f.mem, k);
      k' := if c.op == LicWb then k + 1 else k;
    } else {
      k' := WriterMemoryStep(f, k);
    }
  }

  lemma WriterMemoryStep(f: FlatMachine, k: nat) returns (k': nat)
    requires |f.cores| == 2 && !f.locked && CodeLoaded(f.mem) && !f.cores[0].cpu.halted
    requires WriterAt(f.cores[0].cpu, f.cores[0].queue, f.mem, k) && !IsLocal(f.cores[0].cpu.op)
    ensures FlatInRange(f, 0)
    ensures var f' := FlatStep(f, 0);
            && f'.cores[1] == f.cores[1] && !f'.locked && CodeLoaded(f'.mem)
            && (f.mem[DATA / 4] == 42 ==> f'.mem[DATA / 4] == 42)
            && WriterAt(f'.cores[0].cpu, f'.cores[0].queue, f'.mem, k')
  {
    hide WriterAt, CodeLoaded;
    var c := f.cores[0].cpu;
    if c.op == Fetch {
      k' := k;
      WriterFetches(c, f.cores[0].queue, f.mem, k);
    } else {
      k' := k + 1;
      WriterPublishes(c, f.cores[0].queue, f.mem, k);
    }
  }

  lemma WriterFetches(c: Cpu, q: seq<Store>, mem: Memory, k: nat)
    requires WriterAt(c, q, mem, k) && CodeLoaded(mem) && c.op == Fetch && !c.halted
    ensures c.pc % 4 == 0 && c.pc < MEMORY_SIZE
    ensures WriterAt(c.(instr := mem[c.pc / 4], pc := Plus(c.pc, 4), op := Decode), q, mem, k)
  {
    assert c.pc / 4 == k;
  }

  /** A store enters the queue, and the fence behind it publishes it. */
  lemma WriterPublishes(c: Cpu, q: seq<Store>, mem: Memory, k: nat)
    requires WriterAt(c, q, mem, k) && CodeLoaded(mem) && !IsLocal(c.op) && c.op != Fetch && !c.halted
    ensures c.op == StoreMem || (c.op == FenceExec && StoresInMemory(q))
    ensures c.op == StoreMem ==>
              WriterAt(c.(op := Fetch), Queued(q, Store(c.addr, c.regs[c.fields.dest])), mem, k + 1)
    ensures c.op == FenceExec ==>
              && WriterAt(c.(op := Fetch), [], Applied(mem, q), k + 1)
              && CodeLoaded(Applied(mem, q)) && (mem[DATA / 4] == 42 ==> Applied(mem, q)[DATA / 4] == 42)
  {
    if c.op == FenceExec {
      AppliedOne(mem, QueueAt(k)[0]);
    }
  }

  lemma AppliedOne(mem: Memory, s: Store)
    requires s.addr < MEMORY_SIZE
    ensures Applied(mem, [s]) == mem[s.addr / 4 := s.data]
  {
  }

  lemma ReaderDecode(c: Cpu, q: seq<Store>, mem: Memory, k: nat)
    requires ReaderAt(c, q, mem, k) && c.op == Decode && !c.halted
    ensures ReaderAt(LocalStep(c), q, mem, k)
  {
    DecodeInvertsEncode(Reader(k));
  }

  lemma ReaderLocal(c: Cpu, q: seq<Store>, mem: Memory, k: nat)
    requires ReaderAt(c, q, mem, k) && IsLocal(c.op) && c.op != Decode && !c.halted
    ensures ReaderAt(LocalStep(c), q, mem, AfterReaderLocal(c, k))
  {
  }

  function AfterReaderLocal(c: Cpu, k: nat): nat {
    if c.op == LicWb || c.op == LoadWb || c.op == CmpExec then k + 1
    else if c.op == JeqExec then if c.zero then 3 else 6
    else k
  }

  lemma ReaderStep(f: FlatMachine, k: nat) returns (k': nat)
    requires |f.cores| == 2 && !f.locked && CodeLoaded(f.mem) && !f.cores[1].cpu.halted
    requires Seen(f.mem[FLAG / 4], f.mem)
    requires ReaderAt(f.cores[1].cpu, f.cores[1].queue, f.mem, k)
    ensures FlatInRange(f, 1)
    ensures var f' := FlatStep(f, 1);
            && f'.cores[0] == f.cores[0] && !f'.locked && f'.mem == f.mem
            && ReaderAt(f'.cores[1].cpu, f'.cores[1].queue, f'.mem, k')
  {
    hide ReaderAt, CodeLoaded, LocalStep;
    var c := f.cores[1].cpu;
    if c.op == Decode {
      ReaderDecode(c, f.cores[1].queue, f.mem, k);
      k' := k;
    } else if IsLocal(c.op) {
      ReaderLocal(c, f.cores[1].queue, f.mem, k);
      k' := AfterReaderLocal(c, k);
    } else {
      ReaderMemoryStep(f, k);
      k' := k;
    }
  }

  lemma ReaderMemoryStep(f: FlatMachine, k: nat)
    requires |f.cores| == 2 && !f.locked && CodeLoaded(f.mem) && !f.cores[1].cpu.halted
    requires Seen(f.mem[FLAG / 4], f.mem)
    requires ReaderAt(f.cores[1].cpu, f.cores[1].queue, f.mem, k) && !IsLocal(f.cores[1].cpu.op)
    ensures FlatInRange(f, 1)
    ensures var f' := FlatStep(f, 1);
            && f'.cores[0] == f.cores[0] && !f'.locked && f'.mem == f.mem
            && ReaderAt(f'.cores[1].cpu, f'.cores[1].queue, f'.mem, k)
  {
    var c := f.cores[1].cpu;
    hide ReaderAt, CodeLoaded;
    ReaderFetchesOrLoads(c, f.cores[1].queue, f.mem, k);
  }

  lemma ReaderFetchesOrLoads(c: Cpu, q: seq<Store>, mem: Memory, k: nat)
    requires ReaderAt(c, q, mem, k) && CodeLoaded(mem) && Seen(mem[FLAG / 4], mem) && !IsLocal(c.op) && !c.halted
    ensures (c.op == Fetch && c.pc % 4 == 0 && c.pc < MEMORY_SIZE) || (c.op == LoadMem && c.addr < MEMORY_SIZE)
    ensures c.op == Fetch ==>
              ReaderAt(c.(instr := mem[c.pc / 4], pc := Plus(c.pc, 4), op := Decode), q, mem, k)
    ensures c.op == LoadMem ==> ReaderAt(c.(temp := mem[c.addr / 4], op := LoadWb), q, mem, k)
  {
    if c.op == Fetch {
      assert c.pc / 4 == READER_BASE / 4 + k;
    }
  }

  /** Publishing is monotone, so core 0's step does not disturb what core 1 has seen. */
  lemma ReaderUndisturbed(c: Cpu, q: seq<Store>, mem: Memory, mem': Memory, k: nat)
    requires ReaderAt(c, q, mem, k) && (mem[DATA / 4] == 42 ==> mem'[DATA / 4] == 42)
    ensures ReaderAt(c, q, mem', k)
  {
  }

  lemma FlagImpliesData(c: Cpu, q: seq<Store>, mem: Memory, k: nat)
    requires WriterAt(c, q, mem, k)
    ensures Seen(mem[FLAG / 4], mem)
  {
  }

  lemma FlatInvariantStep(f: FlatMachine, i: nat, kw: nat, kr: nat) returns (kw': nat, kr': nat)
    requires FlatInvariant(f, kw, kr) && i < 2
    ensures FlatCanStep(f, i) ==> FlatInRange(f, i)
    ensures FlatInvariant(FlatStep(f, i), kw', kr')
  {
    kw', kr' := kw, kr;
    hide WriterAt, ReaderAt;
    if FlatCanStep(f, i) {
      if i == 0 {
        kw' := WriterStep(f, kw);
        ReaderUndisturbed(f.cores[1].cpu, f.cores[1].queue, f.mem, FlatStep(f, 0).mem, kr);
      } else {
        FlagImpliesData(f.cores[0].cpu, f.cores[0].queue, f.mem, kw);
        kr' := ReaderStep(f, kr);
      }
    }
  }

  // ----- Transfer to the cached machine -----

  /** Only the two shared lines are ever cached, so no cache is ever full. */
  ghost predicate OnlySharedLines(m: Machine) {
    forall i | IsCore(m, i) :: Small(m.cores[i].cache)
  }

  ghost predicate Small(c: Cache) {
    forall k | 0 <= k < CACHE_LINES && c[k].state != Invalid :: c[k].address == DATA || c[k].address == FLAG
  }

  lemma SnoopedSmall(c: Cache, a: Word, isWrite: bool)
    requires Small(c)
    ensures Small(Snooped(c, a, isWrite))
  {
  }

  ghost predicate Invariant(m: Machine, kw: nat, kr: nat) {
    Coherent(m) && OnlySharedLines(m) && |m.cores| == 2 && FlatInvariant(Abs(m), kw, kr)
  }

  lemma NeverFull(m: Machine, i: nat)
    requires Coherent(m) && OnlySharedLines(m) && IsCore(m, i)
    ensures FirstInvalid(m.cores[i].cache) < CACHE_LINES
  {
    var c := m.cores[i].cache;
    assert Small(c) && WellFormed(c);
    assert !(c[0].state != Invalid && c[1].state != Invalid && c[2].state != Invalid);
  }

  /** Words outside the shared lines are read from main memory. */
  lemma CodeUncached(m: Machine, w: nat)
    requires Coherent(m) && OnlySharedLines(m) && w < DATA / 4
    ensures Flat(m)[w] == m.mem[w]
  {
    var x: Word := w / 2 * CACHE_LINES;
    assert x < DATA;
    forall j | IsCore(m, j) ensures Copy(m, j, x) == None {
      assert Small(m.cores[j].cache);
    }
    UncachedIsMemory(m, x);
    assert w == x / 4 + w % 2;
  }

  lemma SnoopKeepsSharedLines(m: Machine, i: nat, a: Word, isWrite: bool)
    requires OnlySharedLines(m) && IsCore(m, i)
    ensures OnlySharedLines(m.(cores := SnoopOthers(m.cores, i, a, isWrite)))
  {
    forall j | IsCore(m, j) ensures Small(SnoopOthers(m.cores, i, a, isWrite)[j].cache) {
      assert Small(m.cores[j].cache);
      SnoopedSmall(m.cores[j].cache, a, isWrite);
    }
  }

  lemma LoadKeepsSharedLines(m: Machine, i: nat, a: Word)
    requires Coherent(m) && OnlySharedLines(m) && IsCore(m, i) && (a == DATA || a == FLAG)
    ensures OnlySharedLines(Load(m, i, a))
  {
    NeverFull(m, i);
    if Find(m.cores[i].cache, a) == -1 {
      var k := FirstInvalid(m.cores[i].cache);
      var m2 := m.(cores := SnoopOthers(m.cores, i, a, false));
      SnoopKeepsSharedLines(m, i, a, false);
      assert Small(m2.cores[i].cache[k := FilledLine(m, i, a)]) by {
        assert Small(m2.cores[i].cache);
      }
    }
  }

  lemma WriteKeepsSharedLines(m: Machine, i: nat, a: Word, v: Word)
    requires Coherent(m) && OnlySharedLines(m) && IsCore(m, i) && (a == DATA || a == FLAG)
    ensures OnlySharedLines(WriteDirect(m, i, a, v))
  {
    LoadKeepsSharedLines(m, i, a);
    WrittenKeepsSharedLines(Load(m, i, a), i, a, v);
  }

  lemma WrittenKeepsSharedLines(m: Machine, i: nat, a: Word, v: Word)
    requires OnlySharedLines(m) && IsCore(m, i) && a < MEMORY_SIZE && Find(m.cores[i].cache, a) != -1
    ensures OnlySharedLines(Written(m, i, a, v))
  {
    SnoopKeepsSharedLines(m, i, a, true);
    var c := m.cores[i].cache;
    var k := Find(c, a);
    assert Small(c);
    assert Small(c[k := c[k].(data := c[k].data[WordOffset(a) := v], state := Modified)]);
  }

  lemma InvariantBenign(m: Machine, i: nat, kw: nat, kr: nat)
    requires Invariant(m, kw, kr) && i < 2 && CanStep(m, i)
    ensures InRange(m, i) && Benign(m, i)
  {
    hide FlatInvariant, Flat, FlatStep, FlushRestores, OnlySharedLines, Coherent, Abs, Find, View;
    var kw', kr' := FlatInvariantStep(Abs(m), i, kw, kr);
    AbsInRange(m, i);
    NeverFull(m, i);
    var c := m.cores[i].cpu;
    if c.op == Fetch {
      FetchesCode(m, i, kw, kr);
      CodeUncached(m, c.pc / 4);
    } else if c.op == FenceExec {
      FenceBenign(m, i, kw, kr);
    }
  }

  lemma FetchesCode(m: Machine, i: nat, kw: nat, kr: nat)
    requires Invariant(m, kw, kr) && i < 2 && m.cores[i].cpu.op == Fetch
    ensures m.cores[i].cpu.pc < DATA
  {
    hide WriterAt, ReaderAt, CodeLoaded;
    WriterAddresses(m.cores[0].cpu, Pending(m.cores[0].buffer), Flat(m), kw);
    ReaderAddresses(m.cores[1].cpu, Pending(m.cores[1].buffer), Flat(m), kr);
  }

  /** The stores a fence drains, and the addresses a load reads. */
  lemma SharedAddresses(m: Machine, i: nat, kw: nat, kr: nat)
    requires Invariant(m, kw, kr) && i < 2
    ensures var c := m.cores[i].cpu;
            && (c.op == FenceExec ==>
                  |QueueAt(kw)| == 1 && Pending(m.cores[i].buffer) == QueueAt(kw)
                  && (QueueAt(kw)[0].addr == DATA || QueueAt(kw)[0].addr == FLAG))
            && (IsLoad(c.op) ==> c.addr == DATA || c.addr == FLAG)
  {
    hide WriterAt, ReaderAt, CodeLoaded;
    if i == 0 {
      WriterAddresses(m.cores[0].cpu, Pending(m.cores[0].buffer), Flat(m), kw);
    } else {
      ReaderAddresses(m.cores[1].cpu, Pending(m.cores[1].buffer), Flat(m), kr);
    }
  }

  lemma WriterAddresses(c: Cpu, q: seq<Store>, mem: Memory, k: nat)
    requires WriterAt(c, q, mem, k)
    ensures !IsLoad(c.op) && (c.op == Fetch ==> c.pc < DATA)
    ensures c.op == FenceExec ==>
              |QueueAt(k)| == 1 && q == QueueAt(k) && (QueueAt(k)[0].addr == DATA || QueueAt(k)[0].addr == FLAG)
  {
  }

  lemma ReaderAddresses(c: Cpu, q: seq<Store>, mem: Memory, k: nat)
    requires ReaderAt(c, q, mem, k)
    ensures c.op != FenceExec && (c.op == Fetch ==> c.pc < DATA)
    ensures IsLoad(c.op) ==> c.addr == DATA || c.addr == FLAG
    ensures c.halted ==> c.regs[3] == 1 && c.regs[4] == 42
  {
    hide Encode, Seen;
  }

  lemma FenceBenign(m: Machine, i: nat, kw: nat, kr: nat)
    requires Invariant(m, kw, kr) && i < 2 && m.cores[i].cpu.op == FenceExec
    ensures StoresInMemory(Pending(m.cores[i].buffer)) && FlushRestores(m, i)
    ensures OnlySharedLines(Flush(m, i))
  {
    hide FlatInvariant;
    SharedAddresses(m, i, kw, kr);
    SingleDrain(m, i, QueueAt(kw)[0]);
  }

  lemma SingleDrain(m: Machine, i: nat, s: Store)
    requires Coherent(m) && OnlySharedLines(m) && IsCore(m, i) && (s.addr == DATA || s.addr == FLAG)
    requires Pending(m.cores[i].buffer) == [s]
    ensures StoresInMemory(Pending(m.cores[i].buffer)) && FlushRestores(m, i)
    ensures OnlySharedLines(Flush(m, i))
  {
    NeverFull(m, i);
    DrainCoherent(m, i);
    assert Drain(m, i).cores[i].buffer.count == 0;
    assert OnlySharedLines(Drain(m, i)) by {
      WriteKeepsSharedLines(m, i, s.addr, s.data);
    }
    assert Flush(m, i) == Flush(Drain(m, i), i) == Drain(m, i);
  }

  lemma SameSmallCaches(m: Machine, m': Machine)
    requires OnlySharedLines(m) && |m'.cores| == |m.cores|
    requires forall j | IsCore(m, j) :: m'.cores[j].cache == m.cores[j].cache
    ensures OnlySharedLines(m')
  {
  }

  lemma StepKeepsSharedLines(m: Machine, i: nat, kw: nat, kr: nat)
    requires Invariant(m, kw, kr) && i < 2 && CanStep(m, i) && InRange(m, i)
    ensures OnlySharedLines(Step(m, i))
  {
    hide FlatInvariant;
    var c := m.cores[i].cpu;
    SharedAddresses(m, i, kw, kr);
    if c.op == FenceExec {
      FenceBenign(m, i, kw, kr);
      SameSmallCaches(Flush(m, i), Step(m, i));
    } else if IsLoad(c.op) {
      LoadKeepsSharedLines(m, i, c.addr);
      SameSmallCaches(Load(m, i, c.addr), Step(m, i));
    } else {
      QuietStep(m, i);
      SameSmallCaches(m, Step(m, i));
    }
  }

  lemma InvariantStep(m: Machine, i: nat, kw: nat, kr: nat) returns (kw': nat, kr': nat)
    requires Invariant(m, kw, kr) && i < 2
    ensures (CanStep(m, i) ==> InRange(m, i)) && Invariant(Step(m, i), kw', kr')
  {
    hide FlatInvariant;
    kw', kr' := kw, kr;
    if CanStep(m, i) {
      InvariantBenign(m, i, kw, kr);
      StepCoherent(m, i);
      StepSimulates(m, i);
      kw', kr' := FlatInvariantStep(Abs(m), i, kw, kr);
      StepKeepsSharedLines(m, i, kw, kr);
    }
  }

  lemma InitialInvariant(m: Machine)
    requires Initial(m)
    ensures Invariant(m, 0, 0)
  {
    hide Coherent, OnlySharedLines, Flat, WriterAt, ReaderAt, CodeLoaded;
    InitialCoherent(m);
    InitialFlat(m);
    InitialCores(m.cores[0].cpu, m.cores[1].cpu, m.mem);
    assert Pending(m.cores[0].buffer) == [] && Pending(m.cores[1].buffer) == [];
  }

  lemma InitialFlat(m: Machine)
    requires Initial(m)
    ensures Flat(m) == m.mem
  {
    hide Flat, CodeLoaded;
    forall w | 0 <= w < MEMORY_SIZE / 4 ensures Flat(m)[w] == m.mem[w] {
      InitialWord(m, w);
    }
  }

  lemma InitialCores(c0: Cpu, c1: Cpu, mem: Memory)
    requires CodeLoaded(mem) && mem[DATA / 4] == 0 && mem[FLAG / 4] == 0
    requires c0.op == Fetch && !c0.halted && c0.pc == 0
    requires c1.op == Fetch && !c1.halted && c1.pc == READER_BASE
    ensures WriterAt(c0, [], mem, 0) && ReaderAt(c1, [], mem, 0)
  {
  }

  lemma InitialCoherent(m: Machine)
    requires Initial(m)
    ensures Coherent(m) && OnlySharedLines(m)
  {
    hide Coherent;
    EmptyCoherent(m);
  }

  lemma InitialWord(m: Machine, w: nat)
    requires Initial(m) && w < MEMORY_SIZE / 4
    ensures Flat(m)[w] == m.mem[w]
  {
    var x: Word := w / 2 * CACHE_LINES;
    forall j | IsCore(m, j) ensures Copy(m, j, x) == None {
      assert j == 0 || j == 1;
    }
    UncachedIsMemory(m, x);
    assert w == x / 4 + w % 2;
  }

  predicate Schedule(schedule: seq<nat>) {
    forall i | i in schedule :: i < 2
  }

  lemma {:induction false} RunInvariant(m: Machine, schedule: seq<nat>, kw: nat, kr: nat) returns (kw': nat, kr': nat)
    requires Invariant(m, kw, kr) && Schedule(schedule)
    ensures Defined(m, schedule) && Invariant(Run(m, schedule), kw', kr')
    decreases schedule
  {
    hide FlatInvariant, Coherent, OnlySharedLines;
    kw', kr' := kw, kr;
    if schedule != [] {
      assert schedule[0] in schedule && forall i | i in schedule[1..] :: i in schedule;
      kw', kr' := InvariantStep(m, schedule[0], kw, kr);
      kw', kr' := RunInvariant(Step(m, schedule[0]), schedule[1..], kw', kr');
    }
  }

  lemma HaltedReader(m: Machine, kw: nat, kr: nat)
    requires Invariant(m, kw, kr)
    ensures var c := m.cores[1].cpu; c.halted ==> c.regs[3] == 1 && c.regs[4] == 42
  {
    hide WriterAt, ReaderAt, CodeLoaded;
    ReaderAddresses(m.cores[1].cpu, Pending(m.cores[1].buffer), Flat(m), kr);
  }

  /** Message passing: under every interleaving, if core 1 halts it has seen the flag and the data. */
  lemma MessagePasses(m: Machine, schedule: seq<nat>)
    requires Initial(m) && Schedule(schedule)
    ensures Coherent(m) && Defined(m, schedule)
    ensures var m' := Run(m, schedule);
            |m'.cores| == 2 &&
            (m'.cores[1].cpu.halted ==> m'.cores[1].cpu.regs[3] == 1 && m'.cores[1].cpu.regs[4] == 42)
  {
    InitialInvariant(m);
    hide FlatInvariant, Coherent, OnlySharedLines;
    var kw, kr := RunInvariant(m, schedule, 0, 0);
    HaltedReader(Run(m, schedule), kw, kr);
  }
}
