/** The multicore machine of firmwareLearning/cpu_isa.c as a state and its transitions: cores with caches and
    store buffers, a bus with main memory and a lock, and Step, which advances one core by one micro-op. The
    source runs two cores; here their number is the length of the core list, and a core's id is its index. */
module Machines {
  import opened Isa
  import opened CacheLines
  import opened StoreBuffers

  /** The value of locked_owner while nobody holds the bus: -1 stored in an unsigned word. */
  const NO_OWNER: Word := 0xffff_ffff

  datatype Core = Core(cpu: Cpu, cache: Cache, buffer: StoreBuffer)

  datatype Machine = Machine(cores: seq<Core>, mem: Memory, locked: bool, owner: int)

  predicate IsCore(m: Machine, i: int) {
    0 <= i < |m.cores|
  }

  function WithCpu(m: Machine, i: nat, c: Cpu): Machine
    requires IsCore(m, i)
  {
    m.(cores := m.cores[i := m.cores[i].(cpu := c)])
  }

  function WithBuffer(m: Machine, i: nat, b: StoreBuffer): Machine
    requires IsCore(m, i)
  {
    m.(cores := m.cores[i := m.cores[i].(buffer := b)])
  }

  function WithCache(m: Machine, i: nat, c: Cache): Machine
    requires IsCore(m, i)
  {
    m.(cores := m.cores[i := m.cores[i].(cache := c)])
  }

  /** CacheEvictLine: write the line back if it is MODIFIED, then drop it. */
  function EvictAt(m: Machine, i: nat, k: nat): Machine
    requires IsCore(m, i) && k < CACHE_LINES && WellFormed(m.cores[i].cache)
  {
    var victim := m.cores[i].cache[k];
    var m' := WithCache(m, i, Evicted(m.cores[i].cache, k));
    if victim.state == Modified then m'.(mem := WriteBack(m.mem, victim.address, victim.data)) else m'
  }

  /** Line 0 is always the victim. */
  function EvictVictim(m: Machine, i: nat): Machine
    requires IsCore(m, i) && WellFormed(m.cores[i].cache)
  {
    EvictAt(m, i, 0)
  }

  /** The state after CacheGetEmpty, and the slot it found. */
  function GetEmpty(m: Machine, i: nat): (r: (Machine, nat))
    requires IsCore(m, i) && WellFormed(m.cores[i].cache)
    ensures r.1 < CACHE_LINES && |r.0.cores| == |m.cores| && r.0.cores[i].cache[r.1].state == Invalid
  {
    var k := FirstInvalid(m.cores[i].cache);
    if k < CACHE_LINES then (m, k) else (EvictVictim(m, i), 0)
  }

  /** Every core but core i snoops the access. */
  function SnoopOthers(cores: seq<Core>, i: nat, a: Word, isWrite: bool): (r: seq<Core>)
    ensures |r| == |cores|
  {
    seq(|cores|, j requires 0 <= j < |cores| =>
      if j == i then cores[j] else cores[j].(cache := Snooped(cores[j].cache, a, isWrite)))
  }

  /** The last core below n, other than core i, that has a copy: its data ends up in snoop_data. -1 if none. */
  function Supplier(cores: seq<Core>, i: int, a: Word, n: nat): (r: int)
    requires n <= |cores|
    ensures -1 <= r < n
    ensures r >= 0 ==> r != i && View(cores[r].cache, a).Some?
    ensures forall j | r < j < n && j != i :: View(cores[j].cache, a) == None
  {
    if n == 0 then -1
    else if n - 1 != i && View(cores[n - 1].cache, a).Some? then n - 1
    else Supplier(cores, i, a, n - 1)
  }

  /** The line that a miss brings in: SHARED from a snooped copy, EXCLUSIVE from memory. */
  function FilledLine(m: Machine, i: nat, a: Word): (l: Line)
    requires IsCore(m, i) && a < MEMORY_SIZE
    ensures l.address == LineBase(a) && l.state != Invalid
  {
    var s := Supplier(m.cores, i, a, |m.cores|);
    if s == -1 then Line(LineBase(a), MemLine(m.mem, LineBase(a)), Exclusive)
    else Line(LineBase(a), View(m.cores[s].cache, a).value.data, Shared)
  }

  /** The state after CacheLoad. */
  function Load(m: Machine, i: nat, a: Word): (m': Machine)
    requires IsCore(m, i) && a < MEMORY_SIZE && WellFormed(m.cores[i].cache)
    ensures |m'.cores| == |m.cores| && Find(m'.cores[i].cache, a) != -1
  {
    if Find(m.cores[i].cache, a) != -1 then m
    else
      var (m1, k) := GetEmpty(m, i);
      var l := FilledLine(m1, i, a);
      var m2 := m1.(cores := SnoopOthers(m1.cores, i, a, false));
      var c := m2.cores[i].cache[k := l];
      assert Hit(c[k], a);
      WithCache(m2, i, c)
  }

  /** The word CacheLoad returns, read in the state it leaves. */
  function CachedWord(c: Cache, a: Word): Word
    requires Find(c, a) != -1
  {
    c[Find(c, a)].data[WordOffset(a)]
  }

  /** The state after CacheWriteDirect. */
  function WriteDirect(m: Machine, i: nat, a: Word, v: Word): (m': Machine)
    requires IsCore(m, i) && a < MEMORY_SIZE && WellFormed(m.cores[i].cache)
    ensures |m'.cores| == |m.cores|
  {
    var m1 := Load(m, i, a);
    var k := Find(m1.cores[i].cache, a);
    var l := m1.cores[i].cache[k];
    var m2 := if l.state == Shared then m1.(cores := SnoopOthers(m1.cores, i, a, true)) else m1;
    WithCache(m2, i, m2.cores[i].cache[k := l.(data := l.data[WordOffset(a) := v], state := Modified)])
  }

  /** DrainStoreBuffer on a non-empty buffer. */
  function Drain(m: Machine, i: nat): (m': Machine)
    requires IsCore(m, i) && m.cores[i].buffer.count > 0
    requires WellFormed(m.cores[i].cache) && Pending(m.cores[i].buffer)[0].addr < MEMORY_SIZE
    ensures |m'.cores| == |m.cores|
    ensures m'.cores[i].buffer == Popped(m.cores[i].buffer)
  {
    var s := Pending(m.cores[i].buffer)[0];
    var m1 := WriteDirect(m, i, s.addr, s.data);
    WithBuffer(m1, i, Popped(m1.cores[i].buffer))
  }

  ghost predicate WellFormedCaches(m: Machine) {
    forall j | 0 <= j < |m.cores| :: WellFormed(m.cores[j].cache)
  }

  predicate StoresInMemory(q: seq<Store>) {
    forall s | s in q :: s.addr < MEMORY_SIZE
  }

  predicate CanStep(m: Machine, i: int) {
    IsCore(m, i) && !m.cores[i].cpu.halted && (m.locked ==> m.owner == i)
  }

  /** The addresses this step dereferences lie inside main memory. */
  predicate InRange(m: Machine, i: nat)
    requires IsCore(m, i)
  {
    var c := m.cores[i].cpu;
    match c.op
    case Fetch => c.pc % 4 == 0 && c.pc < MEMORY_SIZE
    case LoadMem => c.addr < MEMORY_SIZE
    case LockIncLoad => c.addr < MEMORY_SIZE
    case CmpxchgLoad => c.addr < MEMORY_SIZE
    case FenceExec => StoresInMemory(Pending(m.cores[i].buffer))
    case _ => true
  }
}
