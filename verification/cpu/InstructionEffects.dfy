/** What one instruction of firmwareLearning/cpu_isa.c does, from FETCH to the next FETCH, in plain numbers: the
    fields by their places in the word, sums and differences modulo 2^32, and memory as the last store to each
    word. */
module InstructionEffects {
  import opened Isa
  import opened CacheLines
  import opened StoreBuffers
  import opened Machines
  import opened Fences
  import Simulation
  import opened Instructions

  /** opcode in bits 24-31, destination in 20-23, source in 16-19, mode in 14-15, immediate in 0-13. */
  predicate Places(w: Word, f: Fields) {
    w == 0x100_0000 * f.opc + 0x10_0000 * f.dest + 0x1_0000 * f.src + 0x4000 * f.mode + f.imm
  }

  lemma EncodePlaces(f: Fields)
    ensures Places(Encode(f), f)
  {
  }

  lemma DecodePlaces(w: Word, f: Fields)
    requires Places(w, f)
    ensures Decoded(w) == f
  {
    hide Decoded;
    EncodePlaces(f);
    DecodeInvertsEncode(f);
  }

  /** The core fetches next, and the word at pc is the instruction f. */
  predicate AboutTo(s: Solo, f: Fields) {
    && s.cpu.op == Fetch && s.cpu.pc % 4 == 0 && s.cpu.pc < MEMORY_SIZE
    && Places(s.mem[s.cpu.pc / 4], f) && StoresInMemory(s.queue)
  }

  /** Where f reads, writes or jumps. */
  function Address(s: Solo, f: Fields): Word {
    if f.mode == 0 then f.imm else s.cpu.regs[f.src]
  }

  predicate OthersSame(s: Solo, s': Solo, d: nat) {
    forall k: nat | k < 16 && k != d :: s'.cpu.regs[k] == s.cpu.regs[k]
  }

  predicate FlagsSame(s: Solo, s': Solo) {
    s'.cpu.zero == s.cpu.zero && s'.cpu.sign == s.cpu.sign && s'.cpu.cmpResult == s.cpu.cmpResult
  }

  predicate StoresSame(s: Solo, s': Solo) {
    s'.mem == s.mem && s'.queue == s.queue
  }

  /** Ready for the instruction behind this one. */
  predicate Advanced(s: Solo, s': Solo) {
    s'.cpu.op == Fetch && s'.cpu.pc == s.cpu.pc + 4 && s'.cpu.halted == s.cpu.halted
  }

  // ----- Fetching and decoding -----

  function Fetched(s: Solo, f: Fields): Solo
    requires s.cpu.pc < MEMORY_SIZE
  {
    s.(cpu := s.cpu.(instr := s.mem[s.cpu.pc / 4], pc := s.cpu.pc + 4, fields := f, op := FirstMicroOp(f.opc)))
  }

  lemma {:induction false} RunsBoth(s: Solo, n: nat, k: nat)
    requires Runnable(s, n) && Runnable(Run(s, n), k)
    ensures Runnable(s, n + k) && Run(s, n + k) == Run(Run(s, n), k)
    decreases n
  {
    hide SoloStep, Addressable;
    if n > 0 {
      RunsBoth(SoloStep(s), n - 1, k);
    }
  }

  lemma FetchRuns(s: Solo, f: Fields)
    requires AboutTo(s, f)
    ensures Runnable(s, 2) && Run(s, 2) == Fetched(s, f)
  {
    DecodePlaces(s.mem[s.cpu.pc / 4], f);
    var s1 := SoloStep(s);
    assert s1.cpu.op == Decode && SoloStep(s1) == Fetched(s, f);
    hide Places, Decoded, FirstMicroOp, SoloStep;
    RunsOnce(s1);
    RunsOn(s, 2);
  }

  /** After FETCH and DECODE, the rest of the instruction. */
  lemma Executes(s: Solo, f: Fields, n: nat)
    requires AboutTo(s, f) && Runnable(Fetched(s, f), n)
    ensures Runnable(s, 2 + n) && Run(s, 2 + n) == Run(Fetched(s, f), n)
  {
    hide Places, Run, Runnable;
    FetchRuns(s, f);
    RunsBoth(s, 2, n);
  }

  /** With an operand address inside memory the decoded core meets what the instruction lemmas ask for. */
  lemma FetchedDecoded(s: Solo, f: Fields)
    requires AboutTo(s, f) && f.opc <= 14
    requires f.opc in {0, 1, 11, 12} ==> Address(s, f) < MEMORY_SIZE && s.cpu.regs[f.src] < MEMORY_SIZE
    ensures AtDecoded(Fetched(s, f)) && Target(Fetched(s, f).cpu) == Address(s, f)
  {
    hide FirstMicroOp;
  }

  /** How many micro-ops each instruction takes, FETCH and DECODE included. */
  function MicroOps(opc: Byte): nat {
    if opc == 0 || opc == 11 then 5
    else if opc == 1 || opc == 3 || opc == 4 then 4
    else if opc == 12 then 6
    else 3
  }

  /** The instruction, run to its end, leaves s'. */
  predicate Finishes(s: Solo, f: Fields, s': Solo) {
    Runnable(s, MicroOps(f.opc)) && Run(s, MicroOps(f.opc)) == s'
  }

  /** After FETCH and DECODE, n more micro-ops. */
  lemma FinishesWith(s: Solo, f: Fields, n: nat, s': Solo)
    requires AboutTo(s, f) && MicroOps(f.opc) == 2 + n
    requires Runnable(Fetched(s, f), n) && Run(Fetched(s, f), n) == s'
    ensures Finishes(s, f, s')
  {
    hide Run, Runnable, Places;
    Executes(s, f, n);
  }

  // ----- Registers -----

  /** r is x + y, or x - y, as 32-bit numbers. */
  predicate Sum(x: Word, y: Word, r: Word) {
    r == x + y || r + 0x1_0000_0000 == x + y
  }

  predicate Difference(x: Word, y: Word, r: Word) {
    r + y == x || r + y == x + 0x1_0000_0000
  }

  lemma PlusIsSum(x: Word, y: Word)
    ensures Sum(x, y, Plus(x, y))
  {
  }

  lemma MinusIsDifference(x: Word, y: Word)
    ensures Difference(x, y, Minus(x, y))
  {
  }

  lemma AddEffect(s: Solo, f: Fields) returns (s': Solo)
    requires AboutTo(s, f) && f.opc == 3
    ensures Finishes(s, f, s')
    ensures Sum(s.cpu.regs[f.dest], s.cpu.regs[f.src], s'.cpu.regs[f.dest])
    ensures Advanced(s, s') && OthersSame(s, s', f.dest) && FlagsSame(s, s') && StoresSame(s, s')
  {
    hide Finishes, AboutTo, Plus, Sum;
    PlusIsSum(s.cpu.regs[f.dest], s.cpu.regs[f.src]);
    s' := RegisterRun(s, f, Plus(s.cpu.regs[f.dest], s.cpu.regs[f.src]));
  }

  lemma SubtractEffect(s: Solo, f: Fields) returns (s': Solo)
    requires AboutTo(s, f) && f.opc == 4
    ensures Finishes(s, f, s')
    ensures Difference(s.cpu.regs[f.dest], s.cpu.regs[f.src], s'.cpu.regs[f.dest])
    ensures Advanced(s, s') && OthersSame(s, s', f.dest) && FlagsSame(s, s') && StoresSame(s, s')
  {
    hide Finishes, AboutTo, Minus, Difference;
    MinusIsDifference(s.cpu.regs[f.dest], s.cpu.regs[f.src]);
    s' := RegisterRun(s, f, Minus(s.cpu.regs[f.dest], s.cpu.regs[f.src]));
  }

  lemma LoadConstantEffect(s: Solo, f: Fields) returns (s': Solo)
    requires AboutTo(s, f) && f.opc == 2
    ensures Finishes(s, f, s') && s'.cpu.regs[f.dest] == f.imm
    ensures Advanced(s, s') && OthersSame(s, s', f.dest) && FlagsSame(s, s') && StoresSame(s, s')
  {
    hide Finishes, AboutTo;
    s' := RegisterRun(s, f, f.imm);
  }

  /** LIC, ADD and SUB write v to their destination and nothing else. */
  lemma RegisterRun(s: Solo, f: Fields, v: Word) returns (s': Solo)
    requires AboutTo(s, f) && 2 <= f.opc <= 4
    requires v == if f.opc == 2 then f.imm else if f.opc == 3 then Plus(s.cpu.regs[f.dest], s.cpu.regs[f.src])
                  else Minus(s.cpu.regs[f.dest], s.cpu.regs[f.src])
    ensures Finishes(s, f, s') && s'.cpu.regs[f.dest] == v
    ensures Advanced(s, s') && OthersSame(s, s', f.dest) && FlagsSame(s, s') && StoresSame(s, s')
  {
    hide Places, Run, Runnable, Plus, Minus, AtDecoded, Target, Finishes;
    var s2 := Fetched(s, f);
    FetchedDecoded(s, f);
    RegisterRuns(s2);
    s' := s2.(cpu := s2.cpu.(regs := s.cpu.regs[f.dest := v], temp := if f.opc == 2 then s.cpu.temp else v,
                             op := Fetch));
    FinishesWith(s, f, Length(f.opc), s');
  }

  /** CMP subtracts without storing, and compares as unsigned numbers. */
  lemma CompareEffect(s: Solo, f: Fields) returns (s': Solo)
    requires AboutTo(s, f) && f.opc == 5
    ensures Finishes(s, f, s')
    ensures Difference(s.cpu.regs[f.dest], s.cpu.regs[f.src], s'.cpu.cmpResult)
    ensures s'.cpu.zero <==> s.cpu.regs[f.dest] == s.cpu.regs[f.src]
    ensures s'.cpu.sign <==> s.cpu.regs[f.dest] < s.cpu.regs[f.src]
    ensures Advanced(s, s') && s'.cpu.regs == s.cpu.regs && StoresSame(s, s')
  {
    hide Finishes, AboutTo, Minus, Difference;
    MinusIsDifference(s.cpu.regs[f.dest], s.cpu.regs[f.src]);
    s' := CompareRun(s, f);
  }

  lemma CompareRun(s: Solo, f: Fields) returns (s': Solo)
    requires AboutTo(s, f) && f.opc == 5
    ensures Finishes(s, f, s')
    ensures var s2, x, y := Fetched(s, f), s.cpu.regs[f.dest], s.cpu.regs[f.src];
            s' == s2.(cpu := s2.cpu.(cmpResult := Minus(x, y), zero := x == y, sign := x < y, op := Fetch))
  {
    hide Places, Run, Runnable, Plus, Minus, AtDecoded, Target, Finishes;
    var s2, x, y := Fetched(s, f), s.cpu.regs[f.dest], s.cpu.regs[f.src];
    FetchedDecoded(s, f);
    RegisterRuns(s2);
    s' := s2.(cpu := s2.cpu.(cmpResult := Minus(x, y), zero := x == y, sign := x < y, op := Fetch));
    FinishesWith(s, f, Length(f.opc), s');
  }

  lemma HaltEffect(s: Solo, f: Fields) returns (s': Solo)
    requires AboutTo(s, f) && f.opc == 14
    ensures Finishes(s, f, s')
    ensures s'.cpu.halted && s'.cpu.regs == s.cpu.regs && FlagsSame(s, s') && StoresSame(s, s')
  {
    hide Places, Run, Runnable, Plus, Minus, AtDecoded, Target, Finishes;
    var s2 := Fetched(s, f);
    FetchedDecoded(s, f);
    RegisterRuns(s2);
    s' := s2.(cpu := s2.cpu.(halted := true));
    FinishesWith(s, f, Length(f.opc), s');
  }

  // ----- Jumps -----

  /** When each jump is taken; JGT also looks at the sign. */
  predicate Jumps(opc: int, zero: bool, below: bool) {
    match opc
    case 6 => true
    case 7 => zero
    case 8 => !zero
    case 9 => below
    case 10 => !zero && !below
    case _ => false
  }

  lemma JumpEffect(s: Solo, f: Fields) returns (s': Solo)
    requires AboutTo(s, f) && 6 <= f.opc <= 10
    ensures Finishes(s, f, s')
    ensures s'.cpu.pc == if Jumps(f.opc, s.cpu.zero, s.cpu.sign) then Address(s, f) else s.cpu.pc + 4
    ensures s'.cpu.op == Fetch && s'.cpu.halted == s.cpu.halted
    ensures s'.cpu.regs == s.cpu.regs && FlagsSame(s, s') && StoresSame(s, s')
  {
    hide Places, Run, Runnable, AtDecoded, Finishes;
    var s2 := Fetched(s, f);
    FetchedDecoded(s, f);
    JumpRuns(s2);
    s' := s2.(cpu := JumpIf(s2.cpu, Jumps(f.opc, s.cpu.zero, s.cpu.sign)));
    FinishesWith(s, f, 1, s');
  }

  // ----- Memory -----

  lemma LoadEffect(s: Solo, f: Fields) returns (s': Solo)
    requires AboutTo(s, f) && f.opc == 0 && Address(s, f) < MEMORY_SIZE && s.cpu.regs[f.src] < MEMORY_SIZE
    ensures Finishes(s, f, s') && s'.cpu.regs[f.dest] == s.mem[Address(s, f) / 4]
    ensures Advanced(s, s') && OthersSame(s, s', f.dest) && FlagsSame(s, s') && StoresSame(s, s')
  {
    hide Places, Run, Runnable, AtDecoded, Address, Target, Finishes;
    var s2, t := Fetched(s, f), Address(s, f);
    FetchedDecoded(s, f);
    LoadRuns(s2);
    var v := s.mem[t / 4];
    s' := s2.(cpu := s2.cpu.(addr := t, temp := v, regs := s.cpu.regs[f.dest := v], op := Fetch));
    FinishesWith(s, f, 3, s');
  }

  /** The queue after one more store: four at most, later ones are dropped. */
  predicate Stored(q: seq<Store>, q': seq<Store>, a: Word, v: Word) {
    if |q| >= 4 then q' == q
    else |q'| == |q| + 1 && q'[|q|] == Store(a, v) && forall k | 0 <= k < |q| :: q'[k] == q[k]
  }

  lemma StoreEffect(s: Solo, f: Fields) returns (s': Solo)
    requires AboutTo(s, f) && f.opc == 1 && Address(s, f) < MEMORY_SIZE && s.cpu.regs[f.src] < MEMORY_SIZE
    ensures Finishes(s, f, s')
    ensures Stored(s.queue, s'.queue, Address(s, f), s.cpu.regs[f.dest]) && s'.mem == s.mem
    ensures Advanced(s, s') && s'.cpu.regs == s.cpu.regs && FlagsSame(s, s')
  {
    hide Places, Run, Runnable, AtDecoded, Address, Target, Finishes;
    var s2, t := Fetched(s, f), Address(s, f);
    FetchedDecoded(s, f);
    StoreRuns(s2);
    s' := s2.(cpu := s2.cpu.(addr := t, op := Fetch),
              queue := Simulation.Queued(s.queue, Store(t, s.cpu.regs[f.dest])));
    FinishesWith(s, f, 2, s');
  }

  lemma StoreRuns(s: Solo)
    requires AtDecoded(s) && s.cpu.fields.opc == 1
    ensures Runnable(s, 2)
    ensures var t := Target(s.cpu);
            Run(s, 2) == s.(cpu := s.cpu.(addr := t, op := Fetch),
                            queue := Simulation.Queued(s.queue, Store(t, s.cpu.regs[s.cpu.fields.dest])))
  {
    hide Simulation.Queued, Target, Run, Runnable;
    var s1 := SoloStep(s);
    assert s1 == s.(cpu := s.cpu.(addr := Target(s.cpu), op := StoreMem));
    RunsOnce(s1);
    RunsOn(s, 2);
  }

  /** LOCK_INC queues the word it reads plus one; the bus stays locked in between (see BusLock). */
  lemma LockIncEffect(s: Solo, f: Fields) returns (s': Solo)
    requires AboutTo(s, f) && f.opc == 11 && Address(s, f) < MEMORY_SIZE && s.cpu.regs[f.src] < MEMORY_SIZE
    ensures Finishes(s, f, s')
    ensures Sum(s.mem[Address(s, f) / 4], 1, s'.cpu.temp)
    ensures Stored(s.queue, s'.queue, Address(s, f), s'.cpu.temp)
    ensures s'.mem == s.mem && Advanced(s, s') && s'.cpu.regs == s.cpu.regs && FlagsSame(s, s')
  {
    hide AboutTo, Address, Finishes, Plus, Sum;
    s' := LockIncRun(s, f);
    PlusIsSum(s.mem[Address(s, f) / 4], 1);
  }

  lemma LockIncRun(s: Solo, f: Fields) returns (s': Solo)
    requires AboutTo(s, f) && f.opc == 11 && Address(s, f) < MEMORY_SIZE && s.cpu.regs[f.src] < MEMORY_SIZE
    ensures Finishes(s, f, s')
    ensures var s2, t := Fetched(s, f), Address(s, f);
            var v := Plus(s.mem[t / 4], 1);
            s' == s2.(cpu := s2.cpu.(addr := t, temp := v, op := Fetch),
                      queue := Simulation.Queued(s.queue, Store(t, v)))
  {
    hide Places, Run, Runnable, AtDecoded, Address, Target, Plus, Finishes, Simulation.Queued;
    var s2, t := Fetched(s, f), Address(s, f);
    FetchedDecoded(s, f);
    LockIncRuns(s2);
    var v := Plus(s.mem[t / 4], 1);
    s' := s2.(cpu := s2.cpu.(addr := t, temp := v, op := Fetch), queue := Simulation.Queued(s.queue, Store(t, v)));
    FinishesWith(s, f, 3, s');
  }

  /** CMPXCHG compares the word with register 15: equal, it queues the destination register and sets the zero
      flag; otherwise it loads the word into register 15 and clears the flag. */
  lemma CompareExchangeEffect(s: Solo, f: Fields) returns (s': Solo)
    requires AboutTo(s, f) && f.opc == 12 && Address(s, f) < MEMORY_SIZE && s.cpu.regs[f.src] < MEMORY_SIZE
    ensures Finishes(s, f, s')
    ensures var v := s.mem[Address(s, f) / 4];
            && (s'.cpu.zero <==> v == s.cpu.regs[15]) && OthersSame(s, s', 15) && s'.cpu.regs[15] == v
            && (if v == s.cpu.regs[15] then Stored(s.queue, s'.queue, Address(s, f), s.cpu.regs[f.dest])
                else s'.queue == s.queue)
    ensures s'.mem == s.mem && Advanced(s, s') && s'.cpu.sign == s.cpu.sign && s'.cpu.cmpResult == s.cpu.cmpResult
  {
    hide Places, Run, Runnable, AtDecoded, Address, Target, Finishes;
    var s2, t := Fetched(s, f), Address(s, f);
    FetchedDecoded(s, f);
    CmpxchgRuns(s2);
    var v := s.mem[t / 4];
    var c := s2.cpu.(addr := t, temp := v, op := Fetch);
    if v == s.cpu.regs[15] {
      s' := s2.(cpu := c.(zero := true), queue := Simulation.Queued(s.queue, Store(t, s.cpu.regs[f.dest])));
    } else {
      s' := s2.(cpu := c.(regs := s.cpu.regs[15 := v], zero := false));
    }
    FinishesWith(s, f, 4, s');
  }

  // ----- Fences -----

  /** What the last store of the queue to word w wrote, or else v. */
  ghost predicate LastTo(q: seq<Store>, w: nat, v: Word, r: Word) {
    || (r == v && forall k | 0 <= k < |q| :: q[k].addr / 4 != w)
    || exists k | 0 <= k < |q| ::
         q[k].addr / 4 == w && q[k].data == r && forall n | k < n < |q| :: q[n].addr / 4 != w
  }

  lemma {:induction false} LastStoreWins(mem: Memory, q: seq<Store>, w: nat)
    requires StoresInMemory(q) && w < MEMORY_SIZE / 4
    ensures LastTo(q, w, mem[w], Applied(mem, q)[w])
    decreases q
  {
    if q != [] {
      var rest := q[1..];
      var next := mem[q[0].addr / 4 := q[0].data];
      LastStoreWins(next, rest, w);
      LastOfMore(q, w, mem[w], next[w], Applied(mem, q)[w]);
    }
  }

  lemma LastOfMore(q: seq<Store>, w: nat, v: Word, u: Word, r: Word)
    requires q != [] && LastTo(q[1..], w, u, r) && u == if q[0].addr / 4 == w then q[0].data else v
    ensures LastTo(q, w, v, r)
  {
    var rest := q[1..];
    assert forall k | 0 < k < |q| :: q[k] == rest[k - 1];
    if k :| 0 <= k < |rest| && rest[k].addr / 4 == w && rest[k].data == r
            && forall n | k < n < |rest| :: rest[n].addr / 4 != w {
      assert q[k + 1].addr / 4 == w && q[k + 1].data == r;
    } else {
      assert q[0].addr / 4 == w ==> q[0].data == r;
    }
  }

  lemma FenceEffect(s: Solo, f: Fields) returns (s': Solo)
    requires AboutTo(s, f) && f.opc == 13
    ensures Finishes(s, f, s')
    ensures s'.queue == [] && forall w: nat | w < MEMORY_SIZE / 4 :: LastTo(s.queue, w, s.mem[w], s'.mem[w])
    ensures Advanced(s, s') && s'.cpu.regs == s.cpu.regs && FlagsSame(s, s')
  {
    hide Run, Runnable, LastTo, Applied, Finishes, Places;
    var s2 := Fetched(s, f);
    FetchedDecoded(s, f);
    RunsOnce(s2);
    s' := Solo(s2.cpu.(op := Fetch), [], Applied(s.mem, s.queue));
    FinishesWith(s, f, 1, s');
    forall w: nat | w < MEMORY_SIZE / 4 ensures LastTo(s.queue, w, s.mem[w], s'.mem[w]) {
      LastStoreWins(s.mem, s.queue, w);
    }
  }

  /** An unknown opcode is decoded over and over. */
  lemma UnknownEffect(s: Solo, f: Fields, n: nat)
    requires AboutTo(s, f) && f.opc > 14
    ensures Runnable(s, 2 + n) && Run(s, 2 + n) == Fetched(s, f)
  {
    DecodePlaces(s.mem[s.cpu.pc / 4], f);
    DecodesAgain(Fetched(s, f), n);
    hide Places, Run, Runnable;
    Executes(s, f, n);
  }

  lemma {:induction false} DecodesAgain(s: Solo, n: nat)
    requires s.cpu.op == Decode && Decoded(s.cpu.instr) == s.cpu.fields && s.cpu.fields.opc > 14
    ensures Runnable(s, n) && Run(s, n) == s
    decreases n
  {
    hide Decoded;
    if n > 0 {
      DecodesAgain(s, n - 1);
      assert SoloStep(s) == s;
    }
  }
}
