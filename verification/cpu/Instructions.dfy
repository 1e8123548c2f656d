/** Whole instructions of firmwareLearning/cpu_isa.c: the micro-ops of Step, run to the next FETCH by a core
    that nobody disturbs, against the older handler functions that carry out an instruction at once. The
    handlers write memory directly; the micro-ops queue stores, so the memory they are compared with is the
    one a fence would leave. */
module Instructions {
  import opened Isa
  import opened CacheLines
  import opened StoreBuffers
  import opened Machines
  import opened Fences
  import opened Simulation

  /** One core of the flat machine with the memory. */
  datatype Solo = Solo(cpu: Cpu, queue: seq<Store>, mem: Memory)

  predicate Addressable(s: Solo) {
    match s.cpu.op
    case Fetch => s.cpu.pc % 4 == 0 && s.cpu.pc < MEMORY_SIZE
    case LoadMem => s.cpu.addr < MEMORY_SIZE
    case LockIncLoad => s.cpu.addr < MEMORY_SIZE
    case CmpxchgLoad => s.cpu.addr < MEMORY_SIZE
    case FenceExec => StoresInMemory(s.queue)
    case _ => true
  }

  /** The core's part of FlatStep. */
  function SoloStep(s: Solo): Solo
    requires Addressable(s)
  {
    var c, q := s.cpu, s.queue;
    match c.op
    case Fetch => s.(cpu := c.(instr := s.mem[c.pc / 4], pc := Plus(c.pc, 4), op := Decode))
    case LoadMem => s.(cpu := c.(temp := s.mem[c.addr / 4], op := LoadWb))
    case StoreMem => s.(cpu := c.(op := Fetch), queue := Simulation.Queued(q, Store(c.addr, c.regs[c.fields.dest])))
    case LockIncAddr => s.(cpu := c.(addr := Target(c), op := LockIncLoad))
    case LockIncLoad => s.(cpu := c.(temp := s.mem[c.addr / 4], op := LockIncStore))
    case LockIncStore =>
      var v := Plus(c.temp, 1);
      s.(cpu := c.(temp := v, op := Fetch), queue := Simulation.Queued(q, Store(c.addr, v)))
    case CmpxchgAddr => s.(cpu := c.(addr := Target(c), op := CmpxchgLoad))
    case CmpxchgLoad => s.(cpu := c.(temp := s.mem[c.addr / 4], op := CmpxchgCompare))
    case CmpxchgStore =>
      s.(cpu := c.(zero := true, op := Fetch), queue := Simulation.Queued(q, Store(c.addr, c.regs[c.fields.dest])))
    case CmpxchgFail => s.(cpu := c.(op := Fetch))
    case FenceExec => Solo(c.(op := Fetch), [], Applied(s.mem, q))
    case _ => s.(cpu := LocalStep(c))
  }

  lemma SoloIsFlatStep(f: FlatMachine, i: nat)
    requires FlatCanStep(f, i) && FlatInRange(f, i)
    ensures var s := Solo(f.cores[i].cpu, f.cores[i].queue, f.mem);
            && Addressable(s)
            && var f' := FlatStep(f, i);
            Solo(f'.cores[i].cpu, f'.cores[i].queue, f'.mem) == SoloStep(s)
  {
  }

  // ----- The handlers -----

  /** What a program can see of one core: registers, flags and memory. */
  datatype Arch = Arch(
    regs: Registers, pc: Word, halted: bool, zero: bool, sign: bool, cmpResult: Word, mem: Memory)

  function Operand(a: Arch, f: Fields): Word {
    if f.mode == 0 then f.imm else a.regs[f.src]
  }

  function Jumped(a: Arch, f: Fields, taken: bool): Arch {
    if taken then a.(pc := Operand(a, f)) else a
  }

  function MemoryOperand(a: Arch, f: Fields): Word {
    if f.opc == OPC_CMPXCHG then a.regs[f.src] else Operand(a, f)
  }

  predicate UsesMemory(f: Fields) {
    f.opc == OPC_LOAD || f.opc == OPC_STORE || f.opc == OPC_LOCK_INC || f.opc == OPC_CMPXCHG
  }

  /** The handler functions, one line each. FENCE has none: it changes nothing a program can see. */
  function Handled(a: Arch, f: Fields): Arch
    requires UsesMemory(f) ==> MemoryOperand(a, f) < MEMORY_SIZE
  {
    var x, y := a.regs[f.dest], a.regs[f.src];
    if f.opc == OPC_LOAD then a.(regs := a.regs[f.dest := a.mem[MemoryOperand(a, f) / 4]])
    else if f.opc == OPC_STORE then a.(mem := a.mem[MemoryOperand(a, f) / 4 := x])
    else if f.opc == OPC_LIC then a.(regs := a.regs[f.dest := f.imm])
    else if f.opc == OPC_ADD then a.(regs := a.regs[f.dest := Plus(x, y)])
    else if f.opc == OPC_SUB then a.(regs := a.regs[f.dest := Minus(x, y)])
    else if f.opc == OPC_CMP then a.(cmpResult := Minus(x, y), zero := x == y, sign := x < y)
    else if f.opc == OPC_JMP then Jumped(a, f, true)
    else if f.opc == OPC_JEQ then Jumped(a, f, a.zero)
    else if f.opc == OPC_JNE then Jumped(a, f, !a.zero)
    else if f.opc == OPC_JLT then Jumped(a, f, a.sign)
    else if f.opc == OPC_JGT then Jumped(a, f, !a.zero)
    else if f.opc == OPC_LOCK_INC then
      var w := MemoryOperand(a, f) / 4;
      a.(mem := a.mem[w := Plus(a.mem[w], 1)])
    else if f.opc == OPC_CMPXCHG then
      var w := MemoryOperand(a, f) / 4;
      if a.mem[w] == a.regs[EXP] then a.(mem := a.mem[w := x], zero := true)
      else a.(regs := a.regs[EXP := a.mem[w]], zero := false)
    else if f.opc == OPC_HALT then a.(halted := true)
    else a
  }

  // ----- Running an instruction -----

  /** Micro-ops after DECODE. */
  function Length(opc: Byte): nat {
    if opc == OPC_LOAD then 3
    else if opc == OPC_STORE || opc == OPC_ADD || opc == OPC_SUB then 2
    else if opc == OPC_LOCK_INC then 3
    else 1
  }

  predicate Runnable(s: Solo, n: nat)
    decreases n
  {
    n > 0 ==> Addressable(s) && Runnable(SoloStep(s), n - 1)
  }

  function Run(s: Solo, n: nat): Solo
    requires Runnable(s, n)
    decreases n
  {
    if n == 0 then s else Run(SoloStep(s), n - 1)
  }

  lemma RunsOn(s: Solo, n: nat)
    requires n > 0 && Addressable(s) && Runnable(SoloStep(s), n - 1)
    ensures Runnable(s, n) && Run(s, n) == Run(SoloStep(s), n - 1)
  {
  }

  lemma RunsOnce(s: Solo)
    requires Addressable(s)
    ensures Runnable(s, 1) && Run(s, 1) == SoloStep(s)
  {
  }

  // Single micro-ops.

  lemma AtAddress(s: Solo)
    requires s.cpu.op.LoadAddr? || s.cpu.op.LockIncAddr? || s.cpu.op.CmpxchgAddr?
    ensures Addressable(s)
    ensures SoloStep(s) == s.(cpu := s.cpu.(addr := Target(s.cpu),
                                            op := if s.cpu.op.LoadAddr? then LoadMem
                                                  else if s.cpu.op.LockIncAddr? then LockIncLoad else CmpxchgLoad))
  {
  }

  lemma AtLoad(s: Solo)
    requires IsLoad(s.cpu.op) && s.cpu.addr < MEMORY_SIZE
    ensures Addressable(s)
    ensures SoloStep(s) == s.(cpu := s.cpu.(temp := s.mem[s.cpu.addr / 4], op := AfterLoad(s.cpu.op)))
  {
  }

  lemma AtIncrement(s: Solo)
    requires s.cpu.op.LockIncStore?
    ensures Addressable(s)
    ensures var v := Plus(s.cpu.temp, 1);
            SoloStep(s) == s.(cpu := s.cpu.(temp := v, op := Fetch),
                              queue := Simulation.Queued(s.queue, Store(s.cpu.addr, v)))
  {
    hide Plus, Simulation.Queued;
  }

  lemma AtCompare(s: Solo)
    requires s.cpu.op.CmpxchgCompare?
    ensures Addressable(s)
    ensures SoloStep(s) == s.(cpu := if s.cpu.temp == s.cpu.regs[EXP] then s.cpu.(op := CmpxchgStore)
                                     else s.cpu.(regs := s.cpu.regs[EXP := s.cpu.temp], zero := false, op := CmpxchgFail))
  {
  }

  lemma AtExchange(s: Solo)
    requires s.cpu.op.CmpxchgStore? || s.cpu.op.CmpxchgFail?
    ensures Addressable(s)
    ensures SoloStep(s) == if s.cpu.op.CmpxchgFail? then s.(cpu := s.cpu.(op := Fetch))
                           else s.(cpu := s.cpu.(zero := true, op := Fetch),
                                   queue := Simulation.Queued(s.queue, Store(s.cpu.addr, s.cpu.regs[s.cpu.fields.dest])))
  {
    hide Simulation.Queued;
  }

  /** Arithmetic first computes into the temporary register. */
  lemma AtArithmetic(s: Solo)
    requires s.cpu.op.AddExec? || s.cpu.op.SubExec?
    ensures Addressable(s)
    ensures var x, y := s.cpu.regs[s.cpu.fields.dest], s.cpu.regs[s.cpu.fields.src];
            SoloStep(s) == s.(cpu := if s.cpu.op.AddExec? then s.cpu.(temp := Plus(x, y), op := AddWb)
                                     else s.cpu.(temp := Minus(x, y), op := SubWb))
  {
    hide Plus, Minus;
  }

  lemma AtWriteBack(s: Solo)
    requires s.cpu.op.AddWb? || s.cpu.op.SubWb? || s.cpu.op.LoadWb?
    ensures Addressable(s)
    ensures SoloStep(s) == s.(cpu := s.cpu.(regs := s.cpu.regs[s.cpu.fields.dest := s.cpu.temp], op := Fetch))
  {
  }

  /** The core as a program sees it once its stores are published. */
  function Seen(s: Solo): Arch
    requires StoresInMemory(s.queue)
  {
    Arch(s.cpu.regs, s.cpu.pc, s.cpu.halted, s.cpu.zero, s.cpu.sign, s.cpu.cmpResult, Applied(s.mem, s.queue))
  }

  /** The core has decoded its instruction. */
  predicate AtDecoded(s: Solo) {
    && s.cpu.op == FirstMicroOp(s.cpu.fields.opc) && s.cpu.fields.opc <= OPC_HALT
    && StoresInMemory(s.queue)
    && (UsesMemory(s.cpu.fields) ==> Target(s.cpu) < MEMORY_SIZE && s.cpu.regs[s.cpu.fields.src] < MEMORY_SIZE)
  }

  /** FETCH and DECODE load the instruction at pc, advance pc and change nothing else a program can see. */
  lemma FetchDecodes(s: Solo)
    requires s.cpu.op == Fetch && Addressable(s) && StoresInMemory(s.queue)
    ensures Runnable(s, 2)
    ensures var s' := Run(s, 2);
            && s'.cpu.fields == Decoded(s.mem[s.cpu.pc / 4]) && s'.cpu.op == FirstMicroOp(s'.cpu.fields.opc)
            && s'.queue == s.queue && Seen(s') == Seen(s).(pc := Plus(s.cpu.pc, 4))
  {
  }

  /** Register instructions and HALT do what their handler does. */
  lemma RegisterInstruction(s: Solo)
    requires AtDecoded(s)
    requires s.cpu.fields.opc in {OPC_LIC, OPC_ADD, OPC_SUB, OPC_CMP, OPC_HALT}
    ensures Runnable(s, Length(s.cpu.fields.opc))
    ensures var s' := Run(s, Length(s.cpu.fields.opc));
            && s'.queue == s.queue && (s'.cpu.op == Fetch || s'.cpu.halted)
            && Seen(s') == Handled(Seen(s), s.cpu.fields)
  {
    RegisterRuns(s);
    RegisterHandled(Seen(s), s.cpu.fields);
    hide Applied, Plus, Minus, Run, Runnable, SoloStep, Handled;
  }

  lemma RegisterHandled(a: Arch, f: Fields)
    requires f.opc in {OPC_LIC, OPC_ADD, OPC_SUB, OPC_CMP, OPC_HALT}
    ensures Handled(a, f) ==
            var x, y := a.regs[f.dest], a.regs[f.src];
            if f.opc == OPC_HALT then a.(halted := true)
            else if f.opc == OPC_CMP then a.(cmpResult := Minus(x, y), zero := x == y, sign := x < y)
            else a.(regs := a.regs[f.dest :=
              if f.opc == OPC_LIC then f.imm else if f.opc == OPC_ADD then Plus(x, y) else Minus(x, y)])
  {
    hide Plus, Minus;
  }

  lemma RegisterRuns(s: Solo)
    requires AtDecoded(s) && s.cpu.fields.opc in {OPC_LIC, OPC_ADD, OPC_SUB, OPC_CMP, OPC_HALT}
    ensures Runnable(s, Length(s.cpu.fields.opc))
    ensures var c, f := s.cpu, s.cpu.fields;
            var x, y := c.regs[f.dest], c.regs[f.src];
            var v: Word := if f.opc == OPC_LIC then f.imm else if f.opc == OPC_ADD then Plus(x, y) else Minus(x, y);
            Run(s, Length(f.opc)) == s.(cpu :=
              if f.opc == OPC_HALT then c.(halted := true)
              else if f.opc == OPC_CMP then c.(cmpResult := Minus(x, y), zero := x == y, sign := x < y, op := Fetch)
              else c.(regs := c.regs[f.dest := v], temp := if f.opc == OPC_LIC then c.temp else v, op := Fetch))
  {
    if s.cpu.fields.opc == OPC_ADD || s.cpu.fields.opc == OPC_SUB {
      AtArithmetic(s);
      hide Plus, Minus, SoloStep, Run, Runnable, Applied;
      var s1 := SoloStep(s);
      AtWriteBack(s1);
      RunsOnce(s1);
      RunsOn(s, 2);
    } else {
      hide Plus, Minus, Applied, Runnable, Run, SoloStep;
      LocalRuns(s);
    }
  }

  /** An instruction of one local micro-op. */
  lemma LocalRuns(s: Solo)
    requires IsLocal(s.cpu.op)
    ensures Runnable(s, 1) && Run(s, 1) == s.(cpu := LocalStep(s.cpu))
  {
    hide LocalStep, Run, Runnable;
    RunsOnce(s);
  }

  /** Jumps do what their handler does, except that JGT also tests the sign. */
  lemma JumpIff(s: Solo)
    requires AtDecoded(s) && OPC_JMP <= s.cpu.fields.opc <= OPC_JGT
    ensures Runnable(s, 1)
    ensures var f := s.cpu.fields;
            var s' := Run(s, 1);
            && s'.queue == s.queue && s'.cpu.op == Fetch
            && (Seen(s') == Handled(Seen(s), f) <==>
                !(f.opc == OPC_JGT && !s.cpu.zero && s.cpu.sign && Target(s.cpu) != s.cpu.pc))
  {
    JumpRuns(s);
    JumpHandled(Seen(s), s.cpu.fields);
    hide Applied, Run, Runnable, SoloStep, Handled;
  }

  predicate Taken(opc: Byte, zero: bool, below: bool) {
    opc == OPC_JMP || (opc == OPC_JEQ && zero) || (opc == OPC_JNE && !zero) || (opc == OPC_JLT && below)
    || (opc == OPC_JGT && !zero)
  }

  lemma JumpHandled(a: Arch, f: Fields)
    requires OPC_JMP <= f.opc <= OPC_JGT
    ensures Handled(a, f) == Jumped(a, f, Taken(f.opc, a.zero, a.sign))
  {
    hide Jumped;
  }

  lemma JumpRuns(s: Solo)
    requires AtDecoded(s) && OPC_JMP <= s.cpu.fields.opc <= OPC_JGT
    ensures Runnable(s, 1)
    ensures var c := s.cpu;
            var taken := Taken(c.fields.opc, c.zero, c.sign) && !(c.fields.opc == OPC_JGT && c.sign);
            Run(s, 1) == s.(cpu := JumpIf(c, taken))
  {
    hide Applied, JumpIf, UsesMemory, Plus, Minus, Decoded, SetDest, SoloStep, Run, Runnable;
    LocalRuns(s);
  }

  /** A fence changes nothing a program can see, and leaves nothing queued. */
  lemma FenceSettles(s: Solo)
    requires AtDecoded(s) && s.cpu.fields.opc == OPC_FENCE
    ensures Runnable(s, 1)
    ensures var s' := Run(s, 1); s'.cpu.op == Fetch && s'.queue == [] && Seen(s') == Seen(s)
  {
  }

  lemma {:induction false} AppliedAppends(mem: Memory, q: seq<Store>, x: Store)
    requires StoresInMemory(q) && x.addr < MEMORY_SIZE
    ensures StoresInMemory(q + [x]) && Applied(mem, q + [x]) == Applied(mem, q)[x.addr / 4 := x.data]
    decreases q
  {
    if q == [] {
      assert q + [x] == [x];
    } else {
      AppliedAppends(mem[q[0].addr / 4 := q[0].data], q[1..], x);
      assert (q + [x])[1..] == q[1..] + [x];
    }
  }

  /** LOAD does what its handler does exactly when no queued store is about to change the word it reads. */
  lemma LoadIff(s: Solo)
    requires AtDecoded(s) && s.cpu.fields.opc == OPC_LOAD
    ensures Runnable(s, 3)
    ensures var s' := Run(s, 3);
            var w := Target(s.cpu) / 4;
            && s'.queue == s.queue && s'.cpu.op == Fetch
            && (Seen(s') == Handled(Seen(s), s.cpu.fields) <==> s.mem[w] == Applied(s.mem, s.queue)[w])
  {
    LoadRuns(s);
    LoadHandled(Seen(s), s.cpu.fields);
    hide Applied, Run, Runnable, SoloStep, Handled;
    assert Seen(Run(s, 3)).regs[s.cpu.fields.dest] == s.mem[Target(s.cpu) / 4];
  }

  lemma LoadHandled(a: Arch, f: Fields)
    requires f.opc == OPC_LOAD && Operand(a, f) < MEMORY_SIZE
    ensures Handled(a, f) == a.(regs := a.regs[f.dest := a.mem[Operand(a, f) / 4]])
  {
    hide Operand;
  }

  lemma LoadRuns(s: Solo)
    requires AtDecoded(s) && s.cpu.fields.opc == OPC_LOAD
    ensures Runnable(s, 3)
    ensures var t := Target(s.cpu);
            var v := s.mem[t / 4];
            Run(s, 3) == s.(cpu := s.cpu.(addr := t, temp := v, regs := s.cpu.regs[s.cpu.fields.dest := v], op := Fetch))
  {
    hide Applied, SoloStep, Run, Runnable;
    AtAddress(s);
    var s1 := SoloStep(s);
    AtLoad(s1);
    var s2 := SoloStep(s1);
    AtWriteBack(s2);
    RunsOnce(s2);
    RunsOn(s1, 2);
    RunsOn(s, 3);
  }

  /** STORE does what its handler does exactly when the buffer has room, or already ends with that word. */
  lemma StoreIff(s: Solo)
    requires AtDecoded(s) && s.cpu.fields.opc == OPC_STORE
    ensures Runnable(s, 2)
    ensures var s' := Run(s, 2);
            && StoresInMemory(s'.queue) && s'.cpu.op == Fetch
            && (Seen(s') == Handled(Seen(s), s.cpu.fields) <==>
                |s.queue| < STORE_BUFFER_SIZE
                || Applied(s.mem, s.queue)[Target(s.cpu) / 4] == s.cpu.regs[s.cpu.fields.dest])
  {
    hide Applied;
    AppliedAppends(s.mem, s.queue, Store(Target(s.cpu), s.cpu.regs[s.cpu.fields.dest]));
    var s1 := SoloStep(s);
    assert Run(s, 2) == Run(s1, 1);
  }

  /** LOCK_INC does what its handler does exactly when the buffer has room and no queued store is about to
      change the word. */
  lemma LockIncIff(s: Solo)
    requires AtDecoded(s) && s.cpu.fields.opc == OPC_LOCK_INC
    ensures Runnable(s, 3)
    ensures var s' := Run(s, 3);
            var w := Target(s.cpu) / 4;
            && StoresInMemory(s'.queue) && s'.cpu.op == Fetch
            && (Seen(s') == Handled(Seen(s), s.cpu.fields) <==>
                |s.queue| < STORE_BUFFER_SIZE && s.mem[w] == Applied(s.mem, s.queue)[w])
  {
    LockIncRuns(s);
    var w := Target(s.cpu) / 4;
    var applied := Applied(s.mem, s.queue);
    AppliedAppends(s.mem, s.queue, Store(Target(s.cpu), Plus(s.mem[w], 1)));
    NextWord(s.mem[w], applied[w]);
    LockIncHandled(Seen(s), s.cpu.fields);
    hide Applied, Plus, Run, Runnable, SoloStep, Handled;
    assert applied[w := Plus(applied[w], 1)][w] == Plus(applied[w], 1);
    assert applied[w := Plus(s.mem[w], 1)][w] == Plus(s.mem[w], 1);
  }

  lemma LockIncHandled(a: Arch, f: Fields)
    requires f.opc == OPC_LOCK_INC && Operand(a, f) < MEMORY_SIZE
    ensures var w := Operand(a, f) / 4; Handled(a, f) == a.(mem := a.mem[w := Plus(a.mem[w], 1)])
  {
    hide Plus, Operand;
  }

  lemma NextWord(x: Word, y: Word)
    ensures Plus(x, 1) == Plus(y, 1) <==> x == y
    ensures Plus(y, 1) != y
  {
  }

  lemma LockIncRuns(s: Solo)
    requires AtDecoded(s) && s.cpu.fields.opc == OPC_LOCK_INC
    ensures Runnable(s, 3)
    ensures var t := Target(s.cpu);
            var v := Plus(s.mem[t / 4], 1);
            Run(s, 3) == s.(cpu := s.cpu.(addr := t, temp := v, op := Fetch),
                            queue := Simulation.Queued(s.queue, Store(t, v)))
  {
    hide Applied, Plus, SoloStep, Run, Runnable, Simulation.Queued;
    AtAddress(s);
    var s1 := SoloStep(s);
    AtLoad(s1);
    var s2 := SoloStep(s1);
    AtIncrement(s2);
    RunsOnce(s2);
    RunsOn(s1, 2);
    RunsOn(s, 3);
  }

  /** CMPXCHG at the address in its register, where the handler always looks, does what the handler does
      exactly when no queued store is about to change the word, and a swap that changes it finds room. */
  lemma CmpxchgIff(s: Solo)
    requires AtDecoded(s) && s.cpu.fields.opc == OPC_CMPXCHG && Target(s.cpu) == s.cpu.regs[s.cpu.fields.src]
    ensures Runnable(s, 4)
    ensures var s' := Run(s, 4);
            var was, published := s.mem[Target(s.cpu) / 4], Applied(s.mem, s.queue)[Target(s.cpu) / 4];
            && StoresInMemory(s'.queue) && s'.cpu.op == Fetch
            && (Seen(s') == Handled(Seen(s), s.cpu.fields) <==>
                && was == published
                && (was != s.cpu.regs[EXP] || |s.queue| < STORE_BUFFER_SIZE || was == s.cpu.regs[s.cpu.fields.dest]))
  {
    CmpxchgRuns(s);
    var w, x := Target(s.cpu) / 4, s.cpu.regs[s.cpu.fields.dest];
    var applied := Applied(s.mem, s.queue);
    AppliedAppends(s.mem, s.queue, Store(Target(s.cpu), x));
    CmpxchgHandled(Seen(s), s.cpu.fields);
    hide Applied, Run, Runnable, SoloStep, Handled;
    assert applied[w := x][w] == x;
    assert s.cpu.regs[EXP := s.mem[w]][EXP] == s.mem[w];
    assert s.cpu.regs[EXP := applied[w]][EXP] == applied[w];
    if applied[w] == x {
      assert applied[w := x] == applied;
    }
  }

  lemma CmpxchgHandled(a: Arch, f: Fields)
    requires f.opc == OPC_CMPXCHG && a.regs[f.src] < MEMORY_SIZE
    ensures var w := a.regs[f.src] / 4;
            Handled(a, f) == if a.mem[w] == a.regs[EXP] then a.(mem := a.mem[w := a.regs[f.dest]], zero := true)
                             else a.(regs := a.regs[EXP := a.mem[w]], zero := false)
  {
    hide Operand;
  }

  lemma CmpxchgRuns(s: Solo)
    requires AtDecoded(s) && s.cpu.fields.opc == OPC_CMPXCHG
    ensures Runnable(s, 4)
    ensures var t := Target(s.cpu);
            var v := s.mem[t / 4];
            var c := s.cpu.(addr := t, temp := v, op := Fetch);
            Run(s, 4) == if v == s.cpu.regs[EXP]
                         then s.(cpu := c.(zero := true),
                                 queue := Simulation.Queued(s.queue, Store(t, s.cpu.regs[s.cpu.fields.dest])))
                         else s.(cpu := c.(regs := s.cpu.regs[EXP := v], zero := false))
  {
    hide Applied, SoloStep, Run, Runnable, Simulation.Queued, Target, Addressable, StoresInMemory;
    AtAddress(s);
    var s1 := SoloStep(s);
    AtLoad(s1);
    var s2 := SoloStep(s1);
    AtCompare(s2);
    var s3 := SoloStep(s2);
    AtExchange(s3);
    RunsOnce(s3);
    RunsOn(s2, 2);
    RunsOn(s1, 3);
    RunsOn(s, 4);
  }
}
