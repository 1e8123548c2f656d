/** Step of firmwareLearning/cpu_isa.c, and its refinement of a machine without caches: registers, one flat
    memory and one first-in first-out store queue per core. */
module Simulation {
  import opened Isa
  import opened CacheLines
  import opened StoreBuffers
  import opened Machines
  import opened Coherence
  import opened Fences

  // ----- The machine with caches -----

  function Unlocked(m: Machine): Machine {
    m.(locked := false, owner := NO_OWNER)
  }

  /** CacheLoad into temp_val. */
  function LoadStep(m: Machine, i: nat, next: MicroOp): Machine
    requires IsCore(m, i) && WellFormed(m.cores[i].cache) && m.cores[i].cpu.addr < MEMORY_SIZE
  {
    var c := m.cores[i].cpu;
    var m1 := Load(m, i, c.addr);
    WithCpu(m1, i, c.(temp := CachedWord(m1.cores[i].cache, c.addr), op := next))
  }

  /** CacheWrite: a push into the core's own buffer. */
  function StoreStep(m: Machine, i: nat, data: Word, c: Cpu): Machine
    requires IsCore(m, i)
  {
    var m1 := WithBuffer(m, i, Pushed(m.cores[i].buffer, c.addr, data));
    WithCpu(m1, i, c.(op := Fetch))
  }

  predicate IsLoad(op: MicroOp) {
    op.LoadMem? || op.LockIncLoad? || op.CmpxchgLoad?
  }

  function AfterLoad(op: MicroOp): MicroOp {
    if op.LoadMem? then LoadWb else if op.LockIncLoad? then LockIncStore else CmpxchgCompare
  }

  /** The micro-ops that fetch, push a store, or take or leave the bus lock. */
  predicate IsBus(op: MicroOp) {
    !IsLocal(op) && !IsLoad(op) && !op.FenceExec?
  }

  function BusStep(m: Machine, i: nat): (m': Machine)
    requires IsCore(m, i) && IsBus(m.cores[i].cpu.op) && InRange(m, i)
    ensures |m'.cores| == |m.cores|
  {
    var c := m.cores[i].cpu;
    match c.op
    case Fetch => WithCpu(m, i, c.(instr := m.mem[c.pc / 4], pc := Plus(c.pc, 4), op := Decode))
    case StoreMem => StoreStep(m, i, c.regs[c.fields.dest], c)
    case LockIncAddr => WithCpu(m.(locked := true, owner := i), i, c.(addr := Target(c), op := LockIncLoad))
    case LockIncStore =>
      var v := Plus(c.temp, 1);
      Unlocked(StoreStep(m, i, v, c.(temp := v)))
    case CmpxchgAddr => WithCpu(m.(locked := true, owner := i), i, c.(addr := Target(c), op := CmpxchgLoad))
    case CmpxchgStore => Unlocked(StoreStep(m, i, c.regs[c.fields.dest], c.(zero := true)))
    case CmpxchgFail => Unlocked(WithCpu(m, i, c.(op := Fetch)))
    case _ => assert false; m
  }

  /** One micro-op of core i. A halted core, or one that waits for the bus lock, does nothing. */
  function Step(m: Machine, i: nat): (m': Machine)
    requires Coherent(m) && IsCore(m, i) && (CanStep(m, i) ==> InRange(m, i))
    ensures |m'.cores| == |m.cores|
  {
    var c := m.cores[i].cpu;
    if !CanStep(m, i) then m
    else if IsLocal(c.op) then WithCpu(m, i, LocalStep(c))
    else if IsLoad(c.op) then LoadStep(m, i, AfterLoad(c.op))
    else if c.op.FenceExec? then WithCpu(Flush(m, i), i, c.(op := Fetch))
    else BusStep(m, i)
  }

  // ----- The machine without caches -----

  datatype FlatCore = FlatCore(cpu: Cpu, queue: seq<Store>)

  datatype FlatMachine = FlatMachine(cores: seq<FlatCore>, mem: Memory, locked: bool, owner: int)

  function Queued(q: seq<Store>, s: Store): seq<Store> {
    if |q| < STORE_BUFFER_SIZE then q + [s] else q
  }

  predicate FlatCanStep(f: FlatMachine, i: int) {
    0 <= i < |f.cores| && !f.cores[i].cpu.halted && (f.locked ==> f.owner == i)
  }

  predicate FlatInRange(f: FlatMachine, i: nat)
    requires i < |f.cores|
  {
    var c := f.cores[i].cpu;
    match c.op
    case Fetch => c.pc % 4 == 0 && c.pc < MEMORY_SIZE
    case LoadMem => c.addr < MEMORY_SIZE
    case LockIncLoad => c.addr < MEMORY_SIZE
    case CmpxchgLoad => c.addr < MEMORY_SIZE
    case FenceExec => StoresInMemory(f.cores[i].queue)
    case _ => true
  }

  function SetCore(f: FlatMachine, i: nat, c: Cpu, q: seq<Store>): FlatMachine
    requires i < |f.cores|
  {
    f.(cores := f.cores[i := FlatCore(c, q)])
  }

  /** LOAD reads flat memory, STORE appends to the queue unless it is full, only FENCE changes flat memory. */
  function FlatStep(f: FlatMachine, i: nat): (f': FlatMachine)
    requires i < |f.cores| && (FlatCanStep(f, i) ==> FlatInRange(f, i))
    ensures |f'.cores| == |f.cores|
  {
    var c, q := f.cores[i].cpu, f.cores[i].queue;
    if !FlatCanStep(f, i) then f
    else
      match c.op
      case Fetch => SetCore(f, i, c.(instr := f.mem[c.pc / 4], pc := Plus(c.pc, 4), op := Decode), q)
      case LoadMem => SetCore(f, i, c.(temp := f.mem[c.addr / 4], op := LoadWb), q)
      case StoreMem => SetCore(f, i, c.(op := Fetch), Queued(q, Store(c.addr, c.regs[c.fields.dest])))
      case LockIncAddr =>
        SetCore(f.(locked := true, owner := i), i, c.(addr := Target(c), op := LockIncLoad), q)
      case LockIncLoad => SetCore(f, i, c.(temp := f.mem[c.addr / 4], op := LockIncStore), q)
      case LockIncStore =>
        var v := Plus(c.temp, 1);
        SetCore(f, i, c.(temp := v, op := Fetch), Queued(q, Store(c.addr, v))).(locked := false, owner := NO_OWNER)
      case CmpxchgAddr =>
        SetCore(f.(locked := true, owner := i), i, c.(addr := Target(c), op := CmpxchgLoad), q)
      case CmpxchgLoad => SetCore(f, i, c.(temp := f.mem[c.addr / 4], op := CmpxchgCompare), q)
      case CmpxchgStore =>
        SetCore(f, i, c.(zero := true, op := Fetch), Queued(q, Store(c.addr, c.regs[c.fields.dest])))
          .(locked := false, owner := NO_OWNER)
      case CmpxchgFail => SetCore(f, i, c.(op := Fetch), q).(locked := false, owner := NO_OWNER)
      case FenceExec => SetCore(f.(mem := Applied(f.mem, q)), i, c.(op := Fetch), [])
      case _ => SetCore(f, i, LocalStep(c), q)
  }

  // ----- Refinement -----

  function Abs(m: Machine): (f: FlatMachine)
    ensures |f.cores| == |m.cores|
  {
    FlatMachine(
      seq(|m.cores|, j requires 0 <= j < |m.cores| => FlatCore(m.cores[j].cpu, Pending(m.cores[j].buffer))),
      Flat(m), m.locked, m.owner)
  }

  /** The step fetches a word no cache has changed, and loses no word by an eviction, except that a fence may
      lose what it stores to again. */
  ghost predicate Benign(m: Machine, i: nat)
    requires Coherent(m) && IsCore(m, i) && (CanStep(m, i) ==> InRange(m, i))
  {
    var c := m.cores[i].cpu;
    CanStep(m, i) ==>
      match c.op
      case Fetch => m.mem[c.pc / 4] == Flat(m)[c.pc / 4]
      case LoadMem => !Lossy(m, i, c.addr)
      case LockIncLoad => !Lossy(m, i, c.addr)
      case CmpxchgLoad => !Lossy(m, i, c.addr)
      case FenceExec => FlushRestores(m, i)
      case _ => true
  }

  /** Load touches no registers and no store buffers. */
  lemma LoadFrame(m: Machine, i: nat, a: Word)
    requires IsCore(m, i) && a < MEMORY_SIZE && WellFormed(m.cores[i].cache)
    ensures var m' := Load(m, i, a);
            && m'.locked == m.locked && m'.owner == m.owner
            && forall j | IsCore(m, j) :: m'.cores[j].cpu == m.cores[j].cpu && m'.cores[j].buffer == m.cores[j].buffer
  {
  }

  lemma DrainFrame(m: Machine, i: nat)
    requires Coherent(m) && IsCore(m, i) && StoresInMemory(Pending(m.cores[i].buffer))
    requires m.cores[i].buffer.count > 0
    ensures var m' := Drain(m, i);
            && m'.locked == m.locked && m'.owner == m.owner
            && forall j | IsCore(m, j) :: m'.cores[j].cpu == m.cores[j].cpu &&
                 (j != i ==> m'.cores[j].buffer == m.cores[j].buffer)
  {
    LoadFrame(m, i, Pending(m.cores[i].buffer)[0].addr);
  }

  /** A flush empties the queue and changes no registers and no other queue. */
  lemma {:induction false} FlushFrame(m: Machine, i: nat)
    requires Coherent(m) && IsCore(m, i) && StoresInMemory(Pending(m.cores[i].buffer))
    ensures var m' := Flush(m, i);
            && Coherent(m')
            && m'.cores[i].buffer.count == 0
            && m'.locked == m.locked && m'.owner == m.owner
            && (forall j | IsCore(m, j) :: m'.cores[j].cpu == m.cores[j].cpu &&
                  (j != i ==> m'.cores[j].buffer == m.cores[j].buffer))
    decreases m.cores[i].buffer.count
  {
    if m.cores[i].buffer.count > 0 {
      DrainCoherent(m, i);
      DrainFrame(m, i);
      FlushFrame(Drain(m, i), i);
    }
  }

  /** A step that neither loads nor fences touches no cache, no memory and no other core. */
  lemma QuietStep(m: Machine, i: nat)
    requires Coherent(m) && CanStep(m, i) && InRange(m, i)
    requires !IsLoad(m.cores[i].cpu.op) && !m.cores[i].cpu.op.FenceExec?
    ensures var m' := Step(m, i);
            m'.mem == m.mem && m'.cores[i].cache == m.cores[i].cache
            && forall j | IsCore(m, j) && j != i :: m'.cores[j] == m.cores[j]
  {
  }

  lemma StepCoherent(m: Machine, i: nat)
    requires Coherent(m) && IsCore(m, i) && (CanStep(m, i) ==> InRange(m, i))
    ensures Coherent(Step(m, i))
  {
    hide Coherent, LocalStep;
    if CanStep(m, i) {
      var op := m.cores[i].cpu.op;
      if op.FenceExec? {
        FlushFrame(m, i);
        SameCaches(Flush(m, i), Step(m, i));
      } else if IsLoad(op) {
        LoadStepCoherent(m, i, AfterLoad(op));
      } else {
        QuietStep(m, i);
        SameCaches(m, Step(m, i));
      }
    }
  }

  lemma LoadStepCoherent(m: Machine, i: nat, next: MicroOp)
    requires Coherent(m) && IsCore(m, i) && m.cores[i].cpu.addr < MEMORY_SIZE
    ensures Coherent(LoadStep(m, i, next))
    ensures Flat(LoadStep(m, i, next)) == Flat(Load(m, i, m.cores[i].cpu.addr))
  {
    LoadCoherent(m, i, m.cores[i].cpu.addr);
    SameCaches(Load(m, i, m.cores[i].cpu.addr), LoadStep(m, i, next));
  }

  lemma AbsInRange(m: Machine, i: nat)
    requires IsCore(m, i)
    ensures FlatCanStep(Abs(m), i) == CanStep(m, i) && FlatInRange(Abs(m), i) == InRange(m, i)
  {
  }

  /** Each step of the cached machine is the same step of the flat machine when it is benign. */
  lemma StepSimulates(m: Machine, i: nat)
    requires Coherent(m) && IsCore(m, i) && (CanStep(m, i) ==> InRange(m, i)) && Benign(m, i)
    ensures FlatCanStep(Abs(m), i) ==> FlatInRange(Abs(m), i)
    ensures Abs(Step(m, i)) == FlatStep(Abs(m), i)
  {
    AbsInRange(m, i);
    if CanStep(m, i) {
      var c := m.cores[i].cpu;
      match c.op
      case LoadMem => LoadStepSimulates(m, i, LoadWb);
      case LockIncLoad => LoadStepSimulates(m, i, LockIncStore);
      case CmpxchgLoad => LoadStepSimulates(m, i, CmpxchgCompare);
      case FenceExec => FenceSimulatesIff(m, i);
      case _ => QuietStepSimulates(m, i);
    }
  }

  /** A change to core i's registers and buffer over unchanged caches and memory. */
  lemma UpdateSimulates(m: Machine, m': Machine, i: nat, c: Cpu, b: StoreBuffer)
    requires IsCore(m, i) && |m'.cores| == |m.cores| && Flat(m') == Flat(m)
    requires m'.cores[i].cpu == c && m'.cores[i].buffer == b
    requires forall j | IsCore(m, j) && j != i :: m'.cores[j].cpu == m.cores[j].cpu && m'.cores[j].buffer == m.cores[j].buffer
    ensures Abs(m') == SetCore(Abs(m), i, c, Pending(b)).(locked := m'.locked, owner := m'.owner)
  {
  }

  lemma LoadStepSimulates(m: Machine, i: nat, next: MicroOp)
    requires Coherent(m) && IsCore(m, i) && m.cores[i].cpu.addr < MEMORY_SIZE
    ensures var c := m.cores[i].cpu;
            Abs(LoadStep(m, i, next)) ==
              SetCore(Abs(m), i, c.(temp := Flat(m)[c.addr / 4], op := next), Pending(m.cores[i].buffer))
            <==> !Lossy(m, i, c.addr)
  {
    var c := m.cores[i].cpu;
    var m' := LoadStep(m, i, next);
    LoadStepCoherent(m, i, next);
    LoadKeepsFlatIff(m, i, c.addr);
    if !Lossy(m, i, c.addr) {
      LoadFrame(m, i, c.addr);
      LoadReadsFlat(m, i, c.addr);
      UpdateSimulates(m, m', i, c.(temp := Flat(m)[c.addr / 4], op := next), m.cores[i].buffer);
    }
  }

  lemma FenceSimulatesIff(m: Machine, i: nat)
    requires Coherent(m) && CanStep(m, i) && InRange(m, i) && m.cores[i].cpu.op.FenceExec?
    ensures FlatInRange(Abs(m), i)
    ensures Abs(Step(m, i)) == FlatStep(Abs(m), i) <==> FlushRestores(m, i)
  {
    hide Coherent, Flat, Flush, FlushRestores, Applied;
    FlushFrame(m, i);
    FlushIff(m, i);
    SameCaches(Flush(m, i), Step(m, i));
    assert Abs(Step(m, i)).cores == FlatStep(Abs(m), i).cores;
  }

  lemma QuietStepSimulates(m: Machine, i: nat)
    requires Coherent(m) && CanStep(m, i) && InRange(m, i) && Benign(m, i)
    requires !IsLoad(m.cores[i].cpu.op) && !m.cores[i].cpu.op.FenceExec?
    ensures FlatInRange(Abs(m), i) && Abs(Step(m, i)) == FlatStep(Abs(m), i)
  {
    var m' := Step(m, i);
    QuietStep(m, i);
    SameCaches(m, m');
    UpdateSimulates(m, m', i, m'.cores[i].cpu, m'.cores[i].buffer);
    QuietStepOfCore(m, i);
  }

  /** The stepping core's own view of a quiet step, in both machines. */
  lemma QuietStepOfCore(m: Machine, i: nat)
    requires Coherent(m) && CanStep(m, i) && InRange(m, i) && Benign(m, i)
    requires !IsLoad(m.cores[i].cpu.op) && !m.cores[i].cpu.op.FenceExec?
    ensures var m' := Step(m, i);
            FlatInRange(Abs(m), i) &&
            FlatStep(Abs(m), i) == SetCore(Abs(m), i, m'.cores[i].cpu, Pending(m'.cores[i].buffer))
                                     .(locked := m'.locked, owner := m'.owner)
  {
    if !IsLocal(m.cores[i].cpu.op) {
      BusStepOfCore(m, i);
    }
  }

  lemma BusStepOfCore(m: Machine, i: nat)
    requires CanStep(m, i) && InRange(m, i) && IsBus(m.cores[i].cpu.op)
    requires m.cores[i].cpu.op.Fetch? ==> m.mem[m.cores[i].cpu.pc / 4] == Flat(m)[m.cores[i].cpu.pc / 4]
    ensures var m' := BusStep(m, i);
            FlatStep(Abs(m), i) == SetCore(Abs(m), i, m'.cores[i].cpu, Pending(m'.cores[i].buffer))
                                     .(locked := m'.locked, owner := m'.owner)
  {
    if Stores(m.cores[i].cpu.op) {
      StoreOfCore(m, i);
      hide BusStep, FlatStep;
    } else {
      LockOfCore(m, i);
      hide BusStep, FlatStep;
    }
  }

  predicate Stores(op: MicroOp) {
    op.StoreMem? || op.LockIncStore? || op.CmpxchgStore?
  }

  lemma StoreOfCore(m: Machine, i: nat)
    requires CanStep(m, i) && InRange(m, i) && IsBus(m.cores[i].cpu.op) && Stores(m.cores[i].cpu.op)
    ensures var m' := BusStep(m, i);
            FlatStep(Abs(m), i) == SetCore(Abs(m), i, m'.cores[i].cpu, Pending(m'.cores[i].buffer))
                                     .(locked := m'.locked, owner := m'.owner)
  {
    hide Flat, Pushed, Pending, Plus, Target;
    var c := m.cores[i].cpu;
    PushAppends(m.cores[i].buffer, c.addr, c.regs[c.fields.dest]);
    PushAppends(m.cores[i].buffer, c.addr, Plus(c.temp, 1));
  }

  lemma LockOfCore(m: Machine, i: nat)
    requires CanStep(m, i) && InRange(m, i) && IsBus(m.cores[i].cpu.op) && !Stores(m.cores[i].cpu.op)
    requires m.cores[i].cpu.op.Fetch? ==> m.mem[m.cores[i].cpu.pc / 4] == Flat(m)[m.cores[i].cpu.pc / 4]
    ensures var m' := BusStep(m, i);
            FlatStep(Abs(m), i) == SetCore(Abs(m), i, m'.cores[i].cpu, Pending(m'.cores[i].buffer))
                                     .(locked := m'.locked, owner := m'.owner)
  {
    hide Flat, Pushed, Pending, Plus, Target;
  }

  /** Benign is also necessary: a step that is not benign is not the flat machine's step. */
  lemma StepSimulatesOnlyIf(m: Machine, i: nat)
    requires Coherent(m) && IsCore(m, i) && (CanStep(m, i) ==> InRange(m, i))
    requires (FlatCanStep(Abs(m), i) ==> FlatInRange(Abs(m), i)) && Abs(Step(m, i)) == FlatStep(Abs(m), i)
    ensures Benign(m, i)
  {
    if CanStep(m, i) {
      var c := m.cores[i].cpu;
      match c.op
      case Fetch =>
        assert Abs(Step(m, i)).cores[i].cpu.instr == m.mem[c.pc / 4];
        assert FlatStep(Abs(m), i).cores[i].cpu.instr == Flat(m)[c.pc / 4];
      case LoadMem => LoadStepSimulates(m, i, LoadWb);
      case LockIncLoad => LoadStepSimulates(m, i, LockIncStore);
      case CmpxchgLoad => LoadStepSimulates(m, i, CmpxchgCompare);
      case FenceExec => FenceSimulatesIff(m, i);
      case _ =>
    }
  }

  // ----- Whole runs -----

  /** Every address the schedule's steps dereference lies in memory. */
  ghost predicate Defined(m: Machine, schedule: seq<nat>)
    requires Coherent(m)
    decreases schedule
  {
    schedule == [] ||
    (&& IsCore(m, schedule[0])
     && (CanStep(m, schedule[0]) ==> InRange(m, schedule[0]))
     && (StepCoherent(m, schedule[0]); Defined(Step(m, schedule[0]), schedule[1..])))
  }

  function Run(m: Machine, schedule: seq<nat>): Machine
    requires Coherent(m) && Defined(m, schedule)
    decreases schedule
  {
    if schedule == [] then m
    else
      StepCoherent(m, schedule[0]);
      Run(Step(m, schedule[0]), schedule[1..])
  }

  ghost predicate BenignRun(m: Machine, schedule: seq<nat>)
    requires Coherent(m) && Defined(m, schedule)
    decreases schedule
  {
    schedule == [] ||
    (&& Benign(m, schedule[0])
     && (StepCoherent(m, schedule[0]); BenignRun(Step(m, schedule[0]), schedule[1..])))
  }

  ghost predicate FlatDefined(f: FlatMachine, schedule: seq<nat>)
    decreases schedule
  {
    schedule == [] ||
    (&& schedule[0] < |f.cores|
     && (FlatCanStep(f, schedule[0]) ==> FlatInRange(f, schedule[0]))
     && FlatDefined(FlatStep(f, schedule[0]), schedule[1..]))
  }

  function FlatRun(f: FlatMachine, schedule: seq<nat>): FlatMachine
    requires FlatDefined(f, schedule)
    decreases schedule
  {
    if schedule == [] then f else FlatRun(FlatStep(f, schedule[0]), schedule[1..])
  }

  /** MESI safety in every reachable state, whatever is evicted. */
  lemma {:induction false} RunCoherent(m: Machine, schedule: seq<nat>)
    requires Coherent(m) && Defined(m, schedule)
    ensures Coherent(Run(m, schedule))
    decreases schedule
  {
    if schedule != [] {
      StepCoherent(m, schedule[0]);
      RunCoherent(Step(m, schedule[0]), schedule[1..]);
    }
  }

  /** Every interleaving refines the flat machine as long as its steps are benign. */
  lemma {:induction false} RunSimulates(m: Machine, schedule: seq<nat>)
    requires Coherent(m) && Defined(m, schedule) && BenignRun(m, schedule)
    ensures FlatDefined(Abs(m), schedule) && Abs(Run(m, schedule)) == FlatRun(Abs(m), schedule)
    decreases schedule
  {
    if schedule != [] {
      StepSimulates(m, schedule[0]);
      StepCoherent(m, schedule[0]);
      RunSimulates(Step(m, schedule[0]), schedule[1..]);
    }
  }
}
