/** The bus lock of firmwareLearning/cpu_isa.c: who holds it, and what nobody can change meanwhile. */
module BusLock {
  import opened Isa
  import opened CacheLines
  import opened Machines
  import opened Coherence
  import opened Simulation

  /** Between the address and the final micro-op of LOCK_INC or CMPXCHG. */
  predicate InWindow(op: MicroOp) {
    op.LockIncLoad? || op.LockIncStore?
    || op.CmpxchgLoad? || op.CmpxchgCompare? || op.CmpxchgStore? || op.CmpxchgFail?
  }

  /** The window holds a value it has read and may still write. */
  predicate HasRead(op: MicroOp) {
    op.LockIncStore? || op.CmpxchgCompare? || op.CmpxchgStore?
  }

  /** The bus is locked exactly while one core, the recorded owner, is inside its window, and the value that
      core has read is still the logical value. */
  ghost predicate LockInvariant(m: Machine) {
    && (m.locked ==> IsCore(m, m.owner))
    && (forall i | IsCore(m, i) :: InWindow(m.cores[i].cpu.op) <==> m.locked && m.owner == i)
    && (forall i | IsCore(m, i) && InWindow(m.cores[i].cpu.op) :: !m.cores[i].cpu.halted)
    && (forall i | IsCore(m, i) && HasRead(m.cores[i].cpu.op) :: ReadIsCurrent(m, i))
    && (forall i | IsCore(m, i) && m.cores[i].cpu.op.CmpxchgStore? :: ComparedEqual(m.cores[i].cpu))
  }

  predicate ComparedEqual(c: Cpu) {
    c.temp == c.regs[EXP]
  }

  predicate ReadIsCurrent(m: Machine, i: nat)
    requires IsCore(m, i)
  {
    var c := m.cores[i].cpu;
    c.addr < MEMORY_SIZE && c.temp == Flat(m)[c.addr / 4]
  }

  lemma OthersKept(m: Machine, i: nat)
    requires Coherent(m) && CanStep(m, i) && InRange(m, i)
    ensures forall j | IsCore(m, j) && j != i :: Step(m, i).cores[j].cpu == m.cores[j].cpu
  {
    var op := m.cores[i].cpu.op;
    if op.FenceExec? {
      FlushFrame(m, i);
    } else if IsLoad(op) {
      LoadFrame(m, i, m.cores[i].cpu.addr);
    } else {
      QuietStep(m, i);
    }
  }

  lemma StepKeepsLock(m: Machine, i: nat)
    requires Coherent(m) && LockInvariant(m) && IsCore(m, i) && (CanStep(m, i) ==> InRange(m, i))
    ensures LockInvariant(Step(m, i))
  {
    if CanStep(m, i) {
      OthersKept(m, i);
      OwnStepKeepsLock(m, i);
      var m' := Step(m, i);
      assert forall j | IsCore(m, j) && j != i :: !InWindow(m.cores[j].cpu.op) && !InWindow(m'.cores[j].cpu.op);
    }
  }

  /** What the stepping core's registers and the bus lock must satisfy after its own step. */
  ghost predicate OwnLockOk(m: Machine, i: nat)
    requires IsCore(m, i)
  {
    var c := m.cores[i].cpu;
    && (InWindow(c.op) <==> m.locked && m.owner == i)
    && (m.locked ==> m.owner == i)
    && (InWindow(c.op) ==> !c.halted)
    && (HasRead(c.op) ==> ReadIsCurrent(m, i))
    && (c.op.CmpxchgStore? ==> ComparedEqual(c))
  }

  lemma OwnStepKeepsLock(m: Machine, i: nat)
    requires Coherent(m) && LockInvariant(m) && CanStep(m, i) && InRange(m, i)
    ensures OwnLockOk(Step(m, i), i)
  {
    var c := m.cores[i].cpu;
    if c.op.FenceExec? {
      FlushFrame(m, i);
    } else if IsLoad(c.op) {
      OwnLoadKeepsLock(m, i);
    } else if IsLocal(c.op) {
      OwnLocalStepKeepsLock(m, i);
    } else {
      OwnBusStepKeepsLock(m, i);
    }
  }

  lemma OwnLoadKeepsLock(m: Machine, i: nat)
    requires Coherent(m) && LockInvariant(m) && CanStep(m, i) && InRange(m, i) && IsLoad(m.cores[i].cpu.op)
    ensures OwnLockOk(LoadStep(m, i, AfterLoad(m.cores[i].cpu.op)), i)
  {
    var c := m.cores[i].cpu;
    LoadFrame(m, i, c.addr);
    LoadReadsFlat(m, i, c.addr);
    LoadStepCoherent(m, i, AfterLoad(c.op));
  }

  lemma OwnLocalStepKeepsLock(m: Machine, i: nat)
    requires Coherent(m) && LockInvariant(m) && CanStep(m, i) && InRange(m, i) && IsLocal(m.cores[i].cpu.op)
    ensures OwnLockOk(Step(m, i), i)
  {
    var c := m.cores[i].cpu;
    var m' := WithCpu(m, i, LocalStep(c));
    SameCaches(m, m');
    LocalStepWindow(c);
    assert HasRead(c.op) ==> ReadIsCurrent(m, i);
  }

  /** Taking and leaving the lock, plain stores, and fetching. */
  lemma OwnBusStepKeepsLock(m: Machine, i: nat)
    requires Coherent(m) && LockInvariant(m) && CanStep(m, i) && InRange(m, i)
    requires IsBus(m.cores[i].cpu.op)
    ensures OwnLockOk(Step(m, i), i)
  {
    BusStepWindow(m, i);
  }

  lemma BusStepWindow(m: Machine, i: nat)
    requires IsCore(m, i) && IsBus(m.cores[i].cpu.op) && InRange(m, i) && !m.cores[i].cpu.halted
    requires m.locked ==> m.owner == i
    requires InWindow(m.cores[i].cpu.op) <==> m.locked
    ensures var m' := BusStep(m, i);
            var c' := m'.cores[i].cpu;
            && (InWindow(c'.op) <==> m'.locked)
            && (m'.locked ==> m'.owner == i)
            && !c'.halted && !HasRead(c'.op)
  {
  }

  lemma LocalStepWindow(c: Cpu)
    requires IsLocal(c.op) && !c.halted
    ensures var c' := LocalStep(c);
            && InWindow(c'.op) == InWindow(c.op)
            && (HasRead(c'.op) ==> HasRead(c.op) && c'.addr == c.addr && c'.temp == c.temp && !c'.halted)
            && (c'.op.CmpxchgStore? ==> ComparedEqual(c'))
            && (InWindow(c'.op) ==> !c'.halted)
  {
    if !c.op.CmpxchgCompare? {
      LocalStepOutside(c);
      hide LocalStep;
    }
  }

  /** Local micro-ops other than the comparison stay outside. */
  lemma LocalStepOutside(c: Cpu)
    requires IsLocal(c.op) && !c.op.CmpxchgCompare?
    ensures !InWindow(c.op) && !InWindow(LocalStep(c).op)
  {
    hide FirstMicroOp, Plus, Minus, Decoded, SetDest, Target;
    DecodedOutside(Decoded(c.instr).opc);
  }

  /** No instruction starts inside its window. */
  lemma DecodedOutside(opc: Byte)
    ensures !InWindow(FirstMicroOp(opc)) && !HasRead(FirstMicroOp(opc))
  {
  }

  /** Bus-lock exclusion in every reachable state. */
  lemma {:induction false} RunKeepsLock(m: Machine, schedule: seq<nat>)
    requires Coherent(m) && Defined(m, schedule) && LockInvariant(m)
    ensures LockInvariant(Run(m, schedule))
    decreases schedule
  {
    if schedule != [] {
      StepCoherent(m, schedule[0]);
      StepKeepsLock(m, schedule[0]);
      RunKeepsLock(Step(m, schedule[0]), schedule[1..]);
    }
  }

  /** A machine out of reset: every core fetches, with an empty cache, and the bus is free. */
  ghost predicate Fresh(m: Machine)
    ensures Fresh(m) ==> Coherent(m)
  {
    if EmptyCaches(m) then
      EmptyCoherent(m);
      !m.locked && forall i | IsCore(m, i) :: m.cores[i].cpu.op == Fetch
    else false
  }

  lemma FreshMachineUnlocked(m: Machine)
    requires Fresh(m)
    ensures LockInvariant(m)
  {
  }

  /** From reset on the caches stay coherent, no two cores are ever inside their windows together, and a core
      inside its window is the recorded owner of a locked bus. */
  lemma ExclusionFromReset(m: Machine, schedule: seq<nat>)
    requires Fresh(m) && Defined(m, schedule)
    ensures var m' := Run(m, schedule);
            && Coherent(m')
            && (forall i | IsCore(m', i) && InWindow(m'.cores[i].cpu.op) :: m'.locked && m'.owner == i)
            && (forall i, j | IsCore(m', i) && IsCore(m', j) && InWindow(m'.cores[i].cpu.op)
                              && InWindow(m'.cores[j].cpu.op) :: i == j)
            && (m'.locked ==> IsCore(m', m'.owner) && InWindow(m'.cores[m'.owner].cpu.op))
  {
    hide Coherent, Run, Defined;
    FreshMachineUnlocked(m);
    RunCoherent(m, schedule);
    RunKeepsLock(m, schedule);
  }

  /** While the bus is locked nothing happens without its owner: no schedule of the other cores changes any
      register, cache, buffer or memory word. */
  lemma {:induction false} OthersWait(m: Machine, schedule: seq<nat>)
    requires Coherent(m) && Defined(m, schedule) && m.locked
    requires forall k | 0 <= k < |schedule| :: schedule[k] != m.owner
    ensures Run(m, schedule) == m
    decreases schedule
  {
    if schedule != [] {
      assert !CanStep(m, schedule[0]);
      OthersWait(m, schedule[1..]);
    }
  }

  /** In particular, when CMPXCHG stores, memory still holds the expected value. */
  lemma CompareStillHoldsAtStore(m: Machine, schedule: seq<nat>, i: nat)
    requires Coherent(m) && Defined(m, schedule) && LockInvariant(m)
    requires var m' := Run(m, schedule); IsCore(m', i) && m'.cores[i].cpu.op.CmpxchgStore?
    ensures var m' := Run(m, schedule);
            var c := m'.cores[i].cpu;
            && m'.locked && m'.owner == i
            && c.addr < MEMORY_SIZE && Flat(m')[c.addr / 4] == c.regs[EXP]
            && forall j | IsCore(m', j) && j != i :: !InWindow(m'.cores[j].cpu.op)
  {
    RunKeepsLock(m, schedule);
    var m' := Run(m, schedule);
    assert ReadIsCurrent(m', i);
  }
}
