/** A run of two programs on firmwareLearning/cpu_isa.c, from empty caches, that loses a published value: core 1
    stores and fences, core 0 reads, then each core loads eight other lines. The line is SHARED in both caches
    and newer than memory, and CacheEvictLine writes back MODIFIED lines only. */
module LossyRun {
  import opened Isa
  import opened CacheLines
  import opened StoreBuffers
  import opened Machines
  import opened Coherence
  import opened Simulation

  const WORD: Immediate := 0x300
  const VALUE: Immediate := 7

  const BASE1: Word := 0x100

  /** The j-th line core i touches; both start with the line of the shared word. */
  function LineOf(i: nat, j: nat): (x: Immediate)
    requires i < 2 && j <= CACHE_LINES
    ensures IsLineAddress(x) && InLines(i, x)
  {
    if j == 0 then WORD else if i == 1 then WORD + 8 * j else WORD + 0x40 + 8 * j
  }

  predicate InLines(i: nat, x: Word) {
    x == WORD || (if i == 1 then WORD < x <= WORD + 0x40 else WORD + 0x40 < x <= WORD + 0x80)
  }

  function Loads(i: nat, j: nat): Fields
    requires i < 2 && j <= CACHE_LINES
  {
    Fields(OPC_LOAD, 2, 0, 0, LineOf(i, j))
  }

  /** Core 0 reads the word and then eight lines; core 1 first publishes the word. */
  function Program(i: nat, n: nat): Fields
    requires i < 2
  {
    if i == 0 then Loads(0, if n <= CACHE_LINES then n else 0)
    else if n == 0 then Fields(OPC_LIC, 1, 0, 0, VALUE)
    else if n == 1 then Fields(OPC_STORE, 1, 0, 0, WORD)
    else if n == 2 then Fields(OPC_FENCE, 0, 0, 0, 0)
    else Loads(1, if n - 2 <= CACHE_LINES then n - 2 else 0)
  }

  function CodeWord(w: nat): Word {
    if w <= 8 then Encode(Program(0, w)) else if 64 <= w <= 74 then Encode(Program(1, w - 64)) else 0
  }

  function Code(): Memory {
    seq(MEMORY_SIZE / 4, w requires 0 <= w < MEMORY_SIZE / 4 => CodeWord(w))
  }

  function Base(i: nat): Word {
    if i == 0 then 0 else BASE1
  }

  /** Both programs loaded, caches and buffers empty, the bus free. */
  function Start(): Machine {
    var line := Line(0, [0, 0], Invalid);
    var none: Ring := Ring(seq(STORE_BUFFER_SIZE, i => Entry(0, 0, false)), 0, 0, 0);
    Machine(
      seq(2, i requires 0 <= i < 2 =>
        Core(Cpu(seq(16, r => 0), Base(i), false, false, false, 0, Fetch, 0, Fields(0, 0, 0, 0, 0), 0, 0),
             seq(CACHE_LINES, k => line), none)),
      Code(), false, NO_OWNER)
  }

  /** Core i is about to fetch instruction n of its program. */
  predicate Fetching(m: Machine, i: nat, n: nat)
    requires IsCore(m, i)
  {
    var c := m.cores[i].cpu;
    c.op == Fetch && !c.halted && c.pc == Base(i) + 4 * n
  }

  // ----- Reaching -----

  ghost predicate Reaches(m: Machine, m': Machine) {
    Coherent(m) && exists schedule: seq<nat> :: Defined(m, schedule) && Run(m, schedule) == m'
  }

  lemma StepReaches(m: Machine, i: nat)
    requires Coherent(m) && CanStep(m, i) && InRange(m, i)
    ensures Reaches(m, Step(m, i)) && Coherent(Step(m, i))
  {
    hide Coherent, Step, InRange;
    StepCoherent(m, i);
    var one := [i];
    assert one[1..] == [];
    assert Defined(Step(m, i), []) && Run(Step(m, i), []) == Step(m, i);
    assert Defined(m, one) && Run(m, one) == Step(m, i);
  }

  lemma {:induction false} RunsAppend(m: Machine, s: seq<nat>, t: seq<nat>)
    requires Coherent(m) && Defined(m, s) && Coherent(Run(m, s)) && Defined(Run(m, s), t)
    ensures Defined(m, s + t) && Run(m, s + t) == Run(Run(m, s), t)
    decreases s
  {
    hide Coherent, Step, InRange;
    if s == [] {
      assert s + t == t;
    } else {
      StepCoherent(m, s[0]);
      RunsAppend(Step(m, s[0]), s[1..], t);
      assert (s + t)[0] == s[0] && (s + t)[1..] == s[1..] + t;
    }
  }

  lemma ReachesOn(m: Machine, m1: Machine, m2: Machine)
    requires Reaches(m, m1) && Reaches(m1, m2)
    ensures Reaches(m, m2)
  {
    hide Coherent, Defined, Run;
    var s: seq<nat> :| Defined(m, s) && Run(m, s) == m1;
    var t: seq<nat> :| Defined(m1, t) && Run(m1, t) == m2;
    RunsAppend(m, s, t);
  }

  // ----- Instructions -----

  lemma CodeAt(i: nat, n: nat)
    requires i < 2 && n <= 8 + 2 * i
    ensures (Base(i) + 4 * n) % 4 == 0 && Base(i) + 4 * n < MEMORY_SIZE
    ensures Code()[(Base(i) + 4 * n) / 4] == Encode(Program(i, n))
  {
    hide Encode, Program;
  }

  /** The machine after core i has fetched and decoded instruction n. */
  function Decoding(m: Machine, i: nat, n: nat): Machine
    requires IsCore(m, i) && i < 2
  {
    var f := Program(i, n);
    var c := m.cores[i].cpu;
    WithCpu(m, i, c.(instr := Encode(f), pc := Plus(c.pc, 4), fields := f, op := FirstMicroOp(f.opc)))
  }

  lemma Decodes(m: Machine, i: nat, n: nat)
    requires Coherent(m) && |m.cores| == 2 && i < 2 && !m.locked && m.mem == Code() && Fetching(m, i, n)
    requires n <= 8 + 2 * i
    ensures Reaches(m, Decoding(m, i, n)) && Coherent(Decoding(m, i, n))
  {
    hide Coherent, Code, Program, Reaches, Encode, Decoded, FirstMicroOp;
    var f := Program(i, n);
    CodeAt(i, n);
    DecodeInvertsEncode(f);
    StepReaches(m, i);
    var m1 := Step(m, i);
    StepReaches(m1, i);
    ReachesOn(m, m1, Step(m1, i));
    assert Step(m1, i).cores == Decoding(m, i, n).cores;
  }

  /** Core i is about to read the j-th line: the LOAD has computed its address. */
  function Issued(m: Machine, i: nat, n: nat, j: nat): Machine
    requires IsCore(m, i) && i < 2 && j <= CACHE_LINES
  {
    var m1 := Decoding(m, i, n);
    WithCpu(m1, i, m1.cores[i].cpu.(addr := LineOf(i, j), op := LoadMem))
  }

  predicate LoadAt(i: nat, n: nat, j: nat)
    requires i < 2
  {
    j <= CACHE_LINES && n <= 8 + 2 * i && Program(i, n) == Loads(i, j)
  }

  lemma Issues(m: Machine, i: nat, n: nat, j: nat)
    requires Coherent(m) && |m.cores| == 2 && i < 2 && !m.locked && m.mem == Code() && Fetching(m, i, n)
    requires LoadAt(i, n, j)
    ensures Reaches(m, Issued(m, i, n, j)) && Coherent(Issued(m, i, n, j))
  {
    hide Coherent, Code, Program, Reaches, Encode;
    Decodes(m, i, n);
    var m1 := Decoding(m, i, n);
    StepReaches(m1, i);
    ReachesOn(m, m1, Step(m1, i));
    assert Step(m1, i).cores == Issued(m, i, n, j).cores;
  }

  /** The machine after the LOAD, given what CacheLoad leaves. */
  function Completed(m: Machine, i: nat, v: Word): Machine
    requires IsCore(m, i)
  {
    var c := m.cores[i].cpu;
    WithCpu(m, i, SetDest(c.(temp := v), v).(op := Fetch))
  }

  lemma Completes(m: Machine, i: nat, n: nat, j: nat) returns (v: Word)
    requires Coherent(m) && |m.cores| == 2 && i < 2 && !m.locked && m.mem == Code() && Fetching(m, i, n)
    requires LoadAt(i, n, j)
    ensures var m1 := Issued(m, i, n, j);
            var m2 := Load(m1, i, LineOf(i, j));
            Coherent(m1) && Reaches(m, Completed(m2, i, v)) && Coherent(Completed(m2, i, v))
  {
    Issues(m, i, n, j);
    var m1 := Issued(m, i, n, j);
    v := Loaded(m1, i, LineOf(i, j));
    ReachesOn(m, m1, Completed(Load(m1, i, LineOf(i, j)), i, v));
    hide Reaches, Coherent, Load, Issued, Completed;
  }

  lemma Loaded(m: Machine, i: nat, a: Word) returns (v: Word)
    requires Coherent(m) && IsCore(m, i) && a < MEMORY_SIZE && !m.locked && !m.cores[i].cpu.halted
    requires m.cores[i].cpu.op == LoadMem && m.cores[i].cpu.addr == a
    ensures Reaches(m, Completed(Load(m, i, a), i, v)) && Coherent(Completed(Load(m, i, a), i, v))
  {
    hide Coherent, Reaches, Load, Completed;
    CacheOk(m, i);
    LoadFrame(m, i, a);
    v := CachedWord(Load(m, i, a).cores[i].cache, a);
    StepReaches(m, i);
    var m1 := Step(m, i);
    assert m1 == LoadStep(m, i, LoadWb);
    WritesBack(Load(m, i, a), i, v, m1);
    StepReaches(m1, i);
    ReachesOn(m, m1, Step(m1, i));
  }

  /** The last micro-op of a LOAD. */
  lemma WritesBack(m: Machine, i: nat, v: Word, m1: Machine)
    requires IsCore(m, i) && !m.locked && !m.cores[i].cpu.halted
    requires m1 == WithCpu(m, i, m.cores[i].cpu.(temp := v, op := LoadWb)) && Coherent(m1)
    ensures CanStep(m1, i) && InRange(m1, i) && Step(m1, i) == Completed(m, i, v)
  {
    hide Coherent;
    assert Step(m1, i).cores == Completed(m, i, v).cores;
  }

  // ----- What a load does to the caches -----

  /** Every line a cache holds is one of core i's. */
  predicate Only(c: Cache, i: nat) {
    forall j | 0 <= j < CACHE_LINES && c[j].state != Invalid :: InLines(i, c[j].address)
  }

  /** Slots below k hold core i's first lines in order, the others are free. */
  predicate Holds(c: Cache, i: nat, k: nat)
    requires i < 2
  {
    && k <= CACHE_LINES
    && (forall j | 0 <= j < k :: c[j].state != Invalid && c[j].address == LineOf(i, j))
    && (forall j | k <= j < CACHE_LINES :: c[j].state == Invalid)
  }

  lemma HeldMisses(c: Cache, i: nat, k: nat)
    requires i < 2 && Holds(c, i, k)
    ensures Find(c, LineOf(i, k)) == -1 && FirstInvalid(c) == k && Only(c, i)
  {
    assert LineBase(LineOf(i, k)) == LineOf(i, k);
    hide Find, FirstInvalid;
  }

  lemma OthersMiss(c: Cache, o: nat, j: nat)
    requires o < 2 && Only(c, 1 - o) && 1 <= j <= CACHE_LINES
    ensures Find(c, LineOf(o, j)) == -1
  {
    assert LineBase(LineOf(o, j)) == LineOf(o, j);
    hide Find;
  }

  lemma NobodySnoops(cores: seq<Core>, i: nat, a: Word, isWrite: bool)
    requires |cores| == 2 && i < 2 && Find(cores[1 - i].cache, a) == -1
    ensures SnoopOthers(cores, i, a, isWrite) == cores && Supplier(cores, i, a, 2) == -1
  {
    hide Find;
  }

  /** A miss that nobody answers, with slot k free. */
  lemma FreshLoad(m: Machine, i: nat, a: Word, k: nat)
    requires |m.cores| == 2 && i < 2 && IsLineAddress(a) && WellFormed(m.cores[i].cache)
    requires Find(m.cores[0].cache, a) == -1 && Find(m.cores[1].cache, a) == -1
    requires FirstInvalid(m.cores[i].cache) == k < CACHE_LINES
    ensures Load(m, i, a) == WithCache(m, i, m.cores[i].cache[k := Line(a, MemLine(m.mem, a), Exclusive)])
  {
    hide Find, FirstInvalid, SnoopOthers, Supplier, MemLine;
    assert LineBase(a) == a;
    NobodySnoops(m.cores, i, a, false);
  }

  /** A miss that nobody answers, in a full cache whose victim is not MODIFIED: nothing is written back. */
  lemma EvictingLoad(m: Machine, i: nat, a: Word)
    requires |m.cores| == 2 && i < 2 && IsLineAddress(a) && WellFormed(m.cores[i].cache)
    requires Find(m.cores[0].cache, a) == -1 && Find(m.cores[1].cache, a) == -1
    requires FirstInvalid(m.cores[i].cache) == CACHE_LINES && m.cores[i].cache[0].state != Modified
    ensures Load(m, i, a) == WithCache(m, i, m.cores[i].cache[0 := Line(a, MemLine(m.mem, a), Exclusive)])
  {
    hide Find, FirstInvalid, SnoopOthers, Supplier, MemLine;
    assert LineBase(a) == a;
    var m1 := EvictVictim(m, i);
    var l := Line(a, MemLine(m.mem, a), Exclusive);
    NobodySnoops(m1.cores, i, a, false);
    assert GetEmpty(m, i) == (m1, 0) && m1.mem == m.mem && FilledLine(m1, i, a) == l;
    assert Evicted(m.cores[i].cache, 0)[0 := l] == m.cores[i].cache[0 := l];
    assert Load(m, i, a).cores == m.cores[i := m.cores[i].(cache := m.cores[i].cache[0 := l])];
  }

  /** Core 0 misses on a line that core 1 holds in slot 0. */
  lemma SharingLoad(m: Machine, a: Word, l: Line)
    requires |m.cores| == 2 && IsLineAddress(a) && WellFormed(m.cores[0].cache) && WellFormed(m.cores[1].cache)
    requires Find(m.cores[0].cache, a) == -1 && FirstInvalid(m.cores[0].cache) == 0
    requires m.cores[1].cache[0] == l && l.address == a && l.state == Modified
    ensures var m' := Load(m, 0, a);
            && m'.mem == m.mem && m'.locked == m.locked && m'.owner == m.owner && |m'.cores| == 2
            && m'.cores[0] == m.cores[0].(cache := m.cores[0].cache[0 := l.(state := Shared)])
            && m'.cores[1] == m.cores[1].(cache := m.cores[1].cache[0 := l.(state := Shared)])
  {
    ViewOfLine(m.cores[1].cache, 0);
    assert LineBase(a) == a;
    hide Find, FirstInvalid;
    assert Supplier(m.cores, 0, a, 2) == 1;
  }

  // ----- The run -----

  /** The stepping core, after a LOAD that left its cache as c. */
  lemma AfterLoadAt(m: Machine, i: nat, n: nat, j: nat, c: Cache, v: Word)
    requires |m.cores| == 2 && i < 2 && Fetching(m, i, n) && LoadAt(i, n, j)
    ensures var m' := Completed(WithCache(Issued(m, i, n, j), i, c), i, v);
            && |m'.cores| == 2 && m'.locked == m.locked && m'.mem == m.mem
            && Fetching(m', i, n + 1) && m'.cores[1 - i] == m.cores[1 - i] && m'.cores[i].cache == c
  {
    hide Program, Encode, FirstMicroOp;
    assert Plus(m.cores[i].cpu.pc, 4) == m.cores[i].cpu.pc + 4;
  }

  lemma IssuedFrame(m: Machine, i: nat, n: nat, j: nat)
    requires |m.cores| == 2 && i < 2 && j <= CACHE_LINES
    ensures var m1 := Issued(m, i, n, j);
            && |m1.cores| == 2 && m1.mem == m.mem && m1.cores[1 - i] == m.cores[1 - i]
            && m1.cores[i].cache == m.cores[i].cache && m1.cores[i].buffer == m.cores[i].buffer
  {
  }

  /** Core i loads the j-th line into slot j, which is the first free one; nobody else holds that line. */
  lemma Fills(m: Machine, i: nat, n: nat, j: nat) returns (m': Machine)
    requires Coherent(m) && |m.cores| == 2 && i < 2 && !m.locked && m.mem == Code() && Fetching(m, i, n)
    requires LoadAt(i, n, j) && 1 <= j < CACHE_LINES
    requires Holds(m.cores[i].cache, i, j) && Only(m.cores[1 - i].cache, 1 - i)
    ensures Reaches(m, m') && Coherent(m') && |m'.cores| == 2 && !m'.locked && m'.mem == Code()
    ensures Fetching(m', i, n + 1) && m'.cores[1 - i] == m.cores[1 - i]
    ensures Holds(m'.cores[i].cache, i, j + 1) && m'.cores[i].cache[0] == m.cores[i].cache[0]
  {
    hide Coherent, Reaches, Code, Load, LoadAt, Only, Fetching, Issued, Completed, Find, FirstInvalid, WellFormed,
      WithCache, MemLine, LineBase;
    var a := LineOf(i, j);
    CacheOk(m, i);
    HeldMisses(m.cores[i].cache, i, j);
    OthersMiss(m.cores[1 - i].cache, i, j);
    var v := Completes(m, i, n, j);
    var m1 := Issued(m, i, n, j);
    IssuedFrame(m, i, n, j);
    FreshLoad(m1, i, a, j);
    m' := Completed(Load(m1, i, a), i, v);
    AfterLoadAt(m, i, n, j, m.cores[i].cache[j := Line(a, MemLine(m.mem, a), Exclusive)], v);
  }

  lemma LoadsAt(i: nat, j: nat)
    requires i < 2 && j <= CACHE_LINES && (j == 0 ==> i == 0)
    ensures LoadAt(i, j + 2 * i, j)
  {
  }

  /** Core i loads lines j and up until its cache is full. */
  lemma {:induction false} FillsAll(m: Machine, i: nat, j: nat) returns (m': Machine)
    requires Coherent(m) && |m.cores| == 2 && i < 2 && !m.locked && m.mem == Code() && 1 <= j <= CACHE_LINES
    requires Fetching(m, i, j + 2 * i)
    requires Holds(m.cores[i].cache, i, j) && Only(m.cores[1 - i].cache, 1 - i)
    ensures Reaches(m, m') && Coherent(m') && |m'.cores| == 2 && !m'.locked && m'.mem == Code()
    ensures Fetching(m', i, CACHE_LINES + 2 * i) && m'.cores[1 - i] == m.cores[1 - i]
    ensures Holds(m'.cores[i].cache, i, CACHE_LINES) && m'.cores[i].cache[0] == m.cores[i].cache[0]
    decreases CACHE_LINES - j
  {
    hide Coherent, Reaches, Code, Fetching, LoadAt, Holds, Only;
    if j == CACHE_LINES {
      m' := m;
      ReachesSelf(m);
    } else {
      LoadsAt(i, j);
      var m1 := Fills(m, i, j + 2 * i, j);
      m' := FillsAll(m1, i, j + 1);
      ReachesOn(m, m1, m');
    }
  }

  lemma ReachesSelf(m: Machine)
    requires Coherent(m)
    ensures Reaches(m, m)
  {
    assert Defined(m, []) && Run(m, []) == m;
  }

  /** The shared word's line as core 1 published it. */
  function Published(state: Mesi): Line {
    Line(WORD, [VALUE, 0], state)
  }

  /** Core 1 loads its ninth line over the first, which is SHARED. */
  lemma Displaces(m: Machine) returns (m': Machine)
    requires Coherent(m) && |m.cores| == 2 && !m.locked && m.mem == Code() && Fetching(m, 1, CACHE_LINES + 2)
    requires Holds(m.cores[1].cache, 1, CACHE_LINES) && Only(m.cores[0].cache, 0)
    requires m.cores[1].cache[0].state == Shared
    ensures Reaches(m, m') && Coherent(m') && |m'.cores| == 2 && !m'.locked && m'.mem == Code()
    ensures m'.cores[0] == m.cores[0] && Only(m'.cores[1].cache, 1) && Copy(m', 1, WORD) == None
  {
    hide Coherent, Reaches, Code, Load, LoadAt, Fetching, Issued, Completed, Find, FirstInvalid, WellFormed,
      WithCache, MemLine, Holds, Only;
    var a := LineOf(1, CACHE_LINES);
    CacheOk(m, 1);
    HeldMisses(m.cores[1].cache, 1, CACHE_LINES);
    OthersMiss(m.cores[0].cache, 1, CACHE_LINES);
    LoadsAt(1, CACHE_LINES);
    var v := Completes(m, 1, CACHE_LINES + 2, CACHE_LINES);
    var m1 := Issued(m, 1, CACHE_LINES + 2, CACHE_LINES);
    IssuedFrame(m, 1, CACHE_LINES + 2, CACHE_LINES);
    EvictingLoad(m1, 1, a);
    m' := Completed(Load(m1, 1, a), 1, v);
    var l := Line(a, MemLine(m.mem, a), Exclusive);
    AfterLoadAt(m, 1, CACHE_LINES + 2, CACHE_LINES, m.cores[1].cache[0 := l], v);
    DisplacedFirst(m.cores[1].cache, l);
  }

  lemma DisplacedFirst(c: Cache, l: Line)
    requires Holds(c, 1, CACHE_LINES) && l.address == LineOf(1, CACHE_LINES)
    ensures Only(c[0 := l], 1) && View(c[0 := l], WORD) == None
  {
    assert LineBase(WORD) == WORD;
    hide Find;
  }

  /** Core 0 reads the published word: both copies become SHARED, memory keeps its old value. */
  lemma ReadsShared(m: Machine) returns (m': Machine)
    requires Coherent(m) && |m.cores| == 2 && !m.locked && m.mem == Code() && Fetching(m, 0, 0) && Fetching(m, 1, 3)
    requires Holds(m.cores[0].cache, 0, 0) && Holds(m.cores[1].cache, 1, 1)
    requires m.cores[1].cache[0] == Published(Modified)
    ensures Reaches(m, m') && Coherent(m') && |m'.cores| == 2 && !m'.locked && m'.mem == Code()
    ensures Fetching(m', 0, 1) && Fetching(m', 1, 3)
    ensures Holds(m'.cores[0].cache, 0, 1) && m'.cores[0].cache[0] == Published(Shared)
    ensures Holds(m'.cores[1].cache, 1, 1) && m'.cores[1].cache[0] == Published(Shared)
  {
    hide Coherent, Reaches, Code, Load, LoadAt, Find, FirstInvalid, WellFormed, Encode, Program, FirstMicroOp;
    CacheOk(m, 0);
    CacheOk(m, 1);
    HeldMisses(m.cores[0].cache, 0, 0);
    LoadsAt(0, 0);
    var v := Completes(m, 0, 0, 0);
    var m1 := Issued(m, 0, 0, 0);
    IssuedFrame(m, 0, 0, 0);
    SharingLoad(m1, WORD, Published(Modified));
    m' := Completed(Load(m1, 0, WORD), 0, v);
  }

  // ----- Core 1 publishes -----

  /** Core 1 after LIC: the value is in its register. */
  lemma LoadsConstant() returns (m: Machine)
    ensures Reaches(Start(), m) && Coherent(m) && |m.cores| == 2 && !m.locked && m.mem == Code()
    ensures Fetching(m, 1, 1) && m.cores[1].cpu.regs[1] == VALUE && m.cores[0] == Start().cores[0]
    ensures m.cores[1].cache == Start().cores[1].cache && m.cores[1].buffer == Start().cores[1].buffer
  {
    StartCoherent();
    hide Coherent, Reaches, Code, Encode, Start;
    var m0 := Start();
    Decodes(m0, 1, 0);
    var m1 := Decoding(m0, 1, 0);
    StepReaches(m1, 1);
    m := Step(m1, 1);
    ReachesOn(m0, m1, m);
  }

  /** Core 1 after STORE: the value waits in its store buffer. */
  lemma Stores() returns (m: Machine)
    ensures Reaches(Start(), m) && Coherent(m) && |m.cores| == 2 && !m.locked && m.mem == Code()
    ensures Fetching(m, 1, 2) && m.cores[0] == Start().cores[0] && m.cores[1].cache == Start().cores[1].cache
    ensures Pending(m.cores[1].buffer) == [Store(WORD, VALUE)]
  {
    hide Coherent, Reaches, Code, Encode, Pending, Pushed, Start;
    StartShape();
    var m2 := LoadsConstant();
    Decodes(m2, 1, 1);
    var m3 := Decoding(m2, 1, 1);
    ReachesOn(Start(), m2, m3);
    StepReaches(m3, 1);
    var m4 := Step(m3, 1);
    ReachesOn(Start(), m3, m4);
    StepReaches(m4, 1);
    m := Step(m4, 1);
    ReachesOn(Start(), m4, m);
    PushAppends(m2.cores[1].buffer, WORD, VALUE);
    assert m.cores[1].buffer == Pushed(m2.cores[1].buffer, WORD, VALUE);
    EmptyBuffer();
  }

  lemma EmptyBuffer()
    ensures Pending(Start().cores[1].buffer) == []
  {
  }

  lemma StartCore(i: nat)
    requires i < 2
    ensures var c := Start().cores[i];
            && c.cpu.op == Fetch && !c.cpu.halted && c.cpu.pc == Base(i)
            && forall k | 0 <= k < CACHE_LINES :: c.cache[k].state == Invalid
  {
    hide Code;
  }

  lemma StartCoherent()
    ensures Coherent(Start()) && Start().mem == Code() && !Start().locked && |Start().cores| == 2
    ensures Fetching(Start(), 0, 0) && Fetching(Start(), 1, 0)
    ensures Holds(Start().cores[0].cache, 0, 0) && Holds(Start().cores[1].cache, 1, 0)
  {
    hide Coherent, Start, Code, EmptyCaches, Holds, Fetching;
    StartShape();
    StartEmpty();
    EmptyCoherent(Start());
    StartReady(0);
    StartReady(1);
  }

  lemma StartEmpty()
    ensures EmptyCaches(Start())
  {
    hide Start;
    StartShape();
    StartCore(0);
    StartCore(1);
  }

  lemma StartReady(i: nat)
    requires i < 2 && |Start().cores| == 2
    ensures Fetching(Start(), i, 0) && Holds(Start().cores[i].cache, i, 0)
  {
    hide Start, LineOf;
    StartCore(i);
  }

  lemma StartShape()
    ensures Start().mem == Code() && !Start().locked && |Start().cores| == 2
  {
    hide Code;
  }

  /** The drained store: a miss that fills slot 0 from memory, and one word written there. */
  lemma Drained(m: Machine)
    requires Coherent(m) && |m.cores| == 2 && m.mem == Code()
    requires Holds(m.cores[0].cache, 0, 0) && Holds(m.cores[1].cache, 1, 0)
    requires Pending(m.cores[1].buffer) == [Store(WORD, VALUE)]
    ensures StoresInMemory(Pending(m.cores[1].buffer))
    ensures var m' := Flush(m, 1);
            && |m'.cores| == 2 && m'.mem == m.mem && m'.locked == m.locked && m'.owner == m.owner
            && m'.cores[0] == m.cores[0] && m'.cores[1].cpu == m.cores[1].cpu
            && m'.cores[1].cache == m.cores[1].cache[0 := Published(Modified)]
  {
    hide Coherent, WellFormed, Find, FirstInvalid, Load;
    CacheOk(m, 1);
    LoadCoherent(m, 1, WORD);
    CacheOk(Load(m, 1, WORD), 1);
    HeldMisses(m.cores[0].cache, 0, 0);
    HeldMisses(m.cores[1].cache, 1, 0);
    FreshLoad(m, 1, WORD, 0);
    assert MemLine(m.mem, WORD) == [0, 0];
    var m1 := Load(m, 1, WORD);
    ViewOfLine(m1.cores[1].cache, 0);
    assert [0, 0][WordOffset(WORD) := VALUE] == [VALUE, 0];
    assert WriteDirect(m, 1, WORD, VALUE).cores[1].cache == m.cores[1].cache[0 := Published(Modified)];
    DrainCoherent(m, 1);
    assert Flush(m, 1) == Flush(Drain(m, 1), 1) == Drain(m, 1);
  }

  /** Core 1's FENCE. */
  lemma Publishes() returns (m: Machine)
    ensures Reaches(Start(), m) && Coherent(m) && |m.cores| == 2 && !m.locked && m.mem == Code()
    ensures Fetching(m, 0, 0) && Fetching(m, 1, 3)
    ensures Holds(m.cores[0].cache, 0, 0) && Holds(m.cores[1].cache, 1, 1)
    ensures m.cores[1].cache[0] == Published(Modified)
  {
    StartCoherent();
    hide Coherent, Reaches, Code, Encode, Pending, Flush;
    var m0 := Stores();
    Decodes(m0, 1, 2);
    var m1 := Decoding(m0, 1, 2);
    Drained(m1);
    ReachesOn(Start(), m0, m1);
    StepReaches(m1, 1);
    m := Step(m1, 1);
    ReachesOn(Start(), m1, m);
  }

  // ----- The loss -----

  /** From empty caches the two programs reach a state in which the last load of core 0 loses the word that
      core 1 published: it reads 7 before the step and 0 after it, and the flat machine does not do that. */
  lemma LossReached() returns (m: Machine)
    ensures Reaches(Start(), m) && Coherent(m) && |m.cores| == 2
    ensures CanStep(m, 0) && InRange(m, 0) && m.cores[0].cpu.op == LoadMem && Lossy(m, 0, m.cores[0].cpu.addr)
    ensures Flat(m)[WORD / 4] == VALUE && Flat(Step(m, 0))[WORD / 4] == 0
    ensures !Benign(m, 0) && Abs(Step(m, 0)) != FlatStep(Abs(m), 0)
  {
    hide Coherent, Reaches, Code, Fetching, Holds, Only, Flat, Benign, FlatStep, Step, Load, WellFormed, LoadAt;
    var start := Start();
    var m1 := Publishes();
    var m2 := ReadsShared(m1);
    ReachesOn(start, m1, m2);
    HeldOnly(m2);
    var m3 := FillsAll(m2, 1, 1);
    ReachesOn(start, m2, m3);
    var m4 := Displaces(m3);
    ReachesOn(start, m3, m4);
    SameFetching(m2, m4, 0, 1);
    var m5 := FillsAll(m4, 0, 1);
    ReachesOn(start, m4, m5);
    LoadsAt(0, CACHE_LINES);
    Issues(m5, 0, CACHE_LINES, CACHE_LINES);
    m := Issued(m5, 0, CACHE_LINES, CACHE_LINES);
    ReachesOn(start, m5, m);
    IssuedFrame(m5, 0, CACHE_LINES, CACHE_LINES);
    IssuedCore(m5, 0, CACHE_LINES, CACHE_LINES);
    Loses(m);
  }

  lemma SameFetching(m: Machine, m': Machine, i: nat, n: nat)
    requires IsCore(m, i) && IsCore(m', i) && m'.cores[i] == m.cores[i] && Fetching(m, i, n)
    ensures Fetching(m', i, n)
  {
  }

  lemma IssuedCore(m: Machine, i: nat, n: nat, j: nat)
    requires IsCore(m, i) && i < 2 && j <= CACHE_LINES && !m.locked && Fetching(m, i, n)
    ensures var m1 := Issued(m, i, n, j);
            CanStep(m1, i) && m1.cores[i].cpu.op == LoadMem && m1.cores[i].cpu.addr == LineOf(i, j)
  {
  }

  lemma HeldOnly(m: Machine)
    requires |m.cores| == 2 && Holds(m.cores[0].cache, 0, 1)
    ensures Only(m.cores[0].cache, 0)
  {
  }

  ghost predicate AboutToLose(m: Machine) {
    && Coherent(m) && |m.cores| == 2 && CanStep(m, 0) && m.mem == Code()
    && m.cores[0].cpu.op == LoadMem && m.cores[0].cpu.addr == LineOf(0, CACHE_LINES)
    && Holds(m.cores[0].cache, 0, CACHE_LINES) && m.cores[0].cache[0] == Published(Shared)
    && Copy(m, 1, WORD) == None
  }

  lemma IsLossy(m: Machine)
    requires AboutToLose(m)
    ensures WellFormed(m.cores[0].cache) && Lossy(m, 0, LineOf(0, CACHE_LINES)) && MemLine(m.mem, WORD) == [0, 0]
  {
    hide Coherent, WellFormed, Find, FirstInvalid, View;
    CacheOk(m, 0);
    HeldMisses(m.cores[0].cache, 0, CACHE_LINES);
    assert Supplier(m.cores, 0, WORD, 2) == -1;
  }

  /** The word falls back to what memory holds. */
  lemma LosesWord(m: Machine)
    requires AboutToLose(m)
    ensures var a := LineOf(0, CACHE_LINES);
            && WellFormed(m.cores[0].cache)
            && Flat(m)[WORD / 4] == VALUE && Flat(Load(m, 0, a))[WORD / 4] == 0
  {
    hide Coherent, WellFormed, Find, FirstInvalid, View, Lossy, Holds, Load, LogicalLine, Flat, Code, MemLine;
    IsLossy(m);
    var a := LineOf(0, CACHE_LINES);
    LossyVictim(m, 0, a);
    LoadLine(m, 0, a, WORD);
    assert LineBase(WORD) == WORD && WordOffset(WORD) == 0;
    FlatWord(m, WORD);
    FlatWord(Load(m, 0, a), WORD);
  }

  lemma LoadMemSteps(m: Machine)
    requires Coherent(m) && CanStep(m, 0) && m.cores[0].cpu.op == LoadMem && m.cores[0].cpu.addr < MEMORY_SIZE
    ensures InRange(m, 0) && WellFormed(m.cores[0].cache) && Step(m, 0) == LoadStep(m, 0, LoadWb)
    ensures FlatCanStep(Abs(m), 0) ==> FlatInRange(Abs(m), 0)
    ensures Benign(m, 0) <==> !Lossy(m, 0, m.cores[0].cpu.addr)
  {
    CacheOk(m, 0);
    AbsInRange(m, 0);
    hide Coherent, Load, Lossy;
  }

  lemma Loses(m: Machine)
    requires AboutToLose(m)
    ensures InRange(m, 0) && WellFormed(m.cores[0].cache) && Lossy(m, 0, m.cores[0].cpu.addr)
    ensures Flat(m)[WORD / 4] == VALUE && Flat(Step(m, 0))[WORD / 4] == 0
    ensures !Benign(m, 0) && Abs(Step(m, 0)) != FlatStep(Abs(m), 0)
  {
    hide Coherent, WellFormed, Lossy, Load, Flat, Step, LoadStep, FlatStep, FlatInRange, Abs, Benign, InRange;
    LosesWord(m);
    IsLossy(m);
    LoadMemSteps(m);
    LoadStepCoherent(m, 0, LoadWb);
    if Abs(Step(m, 0)) == FlatStep(Abs(m), 0) {
      StepSimulatesOnlyIf(m, 0);
      assert false;
    }
  }
}
