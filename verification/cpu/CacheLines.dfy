/** One core's cache in firmwareLearning/cpu_isa.c: eight lines of two words, searched linearly. View turns a
    cache into a partial map from line addresses to lines; the lemmas say what each cache operation does to
    that map. */
module CacheLines {
  import opened Isa

  const CACHE_LINES := 8
  const LINE_WORDS := 2
  const MEMORY_SIZE := 1024

  datatype Mesi = Invalid | Exclusive | Shared | Modified

  type LineData = s: seq<Word> | |s| == LINE_WORDS witness [0, 0]
  type Memory = s: seq<Word> | |s| == MEMORY_SIZE / 4 witness seq(MEMORY_SIZE / 4, i => 0)

  datatype Line = Line(address: Word, data: LineData, state: Mesi)

  type Cache = s: seq<Line> | |s| == CACHE_LINES
    witness seq(CACHE_LINES, i => Line(0, [0, 0], Invalid))

  datatype Option<+T> = None | Some(value: T)

  /** addr & ~(CACHE_LINES - 1); the line count and the line size in bytes are both 8. */
  function LineBase(a: Word): (x: Word)
    ensures x % CACHE_LINES == 0 && x <= a < x + CACHE_LINES
    ensures a < MEMORY_SIZE ==> x < MEMORY_SIZE
  {
    a - a % CACHE_LINES
  }

  function WordOffset(a: Word): (w: nat)
    ensures w < LINE_WORDS
  {
    a % CACHE_LINES / 4
  }

  function MemLine(mem: Memory, x: Word): LineData
    requires IsLineAddress(x)
  {
    [mem[x / 4], mem[x / 4 + 1]]
  }

  /** Both words of a line written back to memory. */
  function WriteBack(mem: Memory, x: Word, data: LineData): Memory
    requires IsLineAddress(x)
  {
    mem[x / 4 := data[0]][x / 4 + 1 := data[1]]
  }

  lemma WriteBackLine(mem: Memory, x: Word, data: LineData, y: Word)
    requires IsLineAddress(x) && IsLineAddress(y)
    ensures MemLine(WriteBack(mem, x, data), y) == if y == x then data else MemLine(mem, y)
  {
    assert x == y || x / 4 + 1 < y / 4 || y / 4 + 1 < x / 4;
  }

  predicate Hit(l: Line, a: Word) {
    l.state != Invalid && l.address == LineBase(a)
  }

  /** The index of the first line at or after i that holds the address, or -1. */
  function FindFrom(c: Cache, a: Word, i: nat): (r: int)
    requires i <= CACHE_LINES
    ensures r == -1 || (i <= r < CACHE_LINES && Hit(c[r], a))
    ensures forall j | i <= j < (if r == -1 then CACHE_LINES else r) :: !Hit(c[j], a)
    decreases CACHE_LINES - i
  {
    if i == CACHE_LINES then -1
    else if Hit(c[i], a) then i
    else FindFrom(c, a, i + 1)
  }

  function Find(c: Cache, a: Word): (r: int)
    ensures r == -1 || (0 <= r < CACHE_LINES && Hit(c[r], a))
    ensures forall j | 0 <= j < (if r == -1 then CACHE_LINES else r) :: !Hit(c[j], a)
  {
    FindFrom(c, a, 0)
  }

  /** The index of the first invalid line at or after i, or CACHE_LINES. */
  function FirstInvalidFrom(c: Cache, i: nat): (r: nat)
    requires i <= CACHE_LINES
    ensures i <= r <= CACHE_LINES
    ensures r < CACHE_LINES ==> c[r].state == Invalid
    ensures forall j | i <= j < r :: c[j].state != Invalid
    decreases CACHE_LINES - i
  {
    if i == CACHE_LINES then CACHE_LINES
    else if c[i].state == Invalid then i
    else FirstInvalidFrom(c, i + 1)
  }

  function FirstInvalid(c: Cache): (r: nat)
    ensures r <= CACHE_LINES
    ensures r < CACHE_LINES ==> c[r].state == Invalid
    ensures forall j | 0 <= j < r :: c[j].state != Invalid
  {
    FirstInvalidFrom(c, 0)
  }

  /** Every valid line lies in memory, and no address is cached twice. */
  ghost predicate WellFormed(c: Cache) {
    && (forall k | 0 <= k < CACHE_LINES && c[k].state != Invalid ::
          c[k].address % CACHE_LINES == 0 && c[k].address < MEMORY_SIZE)
    && (forall k, k' | 0 <= k < k' < CACHE_LINES && c[k].state != Invalid && c[k'].state != Invalid ::
          c[k].address != c[k'].address)
  }

  predicate IsLineAddress(x: Word) {
    x % CACHE_LINES == 0 && x < MEMORY_SIZE
  }

  /** The copy of the line containing address a, if the cache has one. */
  function View(c: Cache, a: Word): (v: Option<Line>)
    ensures v.Some? ==> Hit(v.value, a)
  {
    var k := Find(c, a);
    if k == -1 then None else Some(c[k])
  }

  lemma ViewOfLine(c: Cache, k: nat)
    requires WellFormed(c) && k < CACHE_LINES && c[k].state != Invalid
    ensures IsLineAddress(c[k].address) && Find(c, c[k].address) == k
  {
    assert Hit(c[k], c[k].address);
  }

  function Evicted(c: Cache, k: nat): Cache
    requires k < CACHE_LINES
  {
    c[k := c[k].(state := Invalid, address := 0)]
  }

  lemma EvictedView(c: Cache, k: nat, x: Word)
    requires WellFormed(c) && k < CACHE_LINES && c[k].state != Invalid && IsLineAddress(x)
    ensures WellFormed(Evicted(c, k))
    ensures View(Evicted(c, k), x) == if x == c[k].address then None else View(c, x)
  {
    var c' := Evicted(c, k);
    if x == c[k].address {
      assert forall j | 0 <= j < CACHE_LINES && j != k :: c'[j] == c[j];
    } else {
      SameFind(c, c', x);
    }
  }

  lemma SameFind(c: Cache, c': Cache, a: Word)
    requires forall k | 0 <= k < CACHE_LINES :: Hit(c[k], a) == Hit(c'[k], a)
    ensures Find(c, a) == Find(c', a)
  {
  }

  lemma FindOfBase(c: Cache, a: Word)
    ensures Find(c, LineBase(a)) == Find(c, a)
  {
    assert forall k | 0 <= k < CACHE_LINES :: Hit(c[k], a) == Hit(c[k], LineBase(a));
  }

  /** What a cache does when another core's read or write of address a appears on the bus. */
  function Snooped(c: Cache, a: Word, isWrite: bool): Cache {
    var k := Find(c, a);
    if k == -1 then c
    else if isWrite then c[k := c[k].(state := Invalid)]
    else if c[k].state == Modified || c[k].state == Exclusive then c[k := c[k].(state := Shared)]
    else c
  }

  lemma SnoopedView(c: Cache, a: Word, isWrite: bool, x: Word)
    requires WellFormed(c) && IsLineAddress(x)
    ensures WellFormed(Snooped(c, a, isWrite))
    ensures View(Snooped(c, a, isWrite), x) ==
            if x != LineBase(a) || View(c, x) == None then View(c, x)
            else if isWrite then None
            else Some(View(c, x).value.(state := Shared))
  {
    hide Find;
    var c' := Snooped(c, a, isWrite);
    var k := Find(c, a);
    FindOfBase(c, a);
    SnoopedWellFormed(c, a, isWrite);
    if k != -1 {
      ViewOfLine(c, k);
      if x == LineBase(a) && isWrite {
        assert forall j | 0 <= j < CACHE_LINES :: !Hit(c'[j], x);
      } else {
        SameFind(c, c', x);
      }
    }
  }

  lemma SnoopedWellFormed(c: Cache, a: Word, isWrite: bool)
    requires WellFormed(c)
    ensures WellFormed(Snooped(c, a, isWrite))
  {
    hide Find;
  }

  lemma InstalledView(c: Cache, k: nat, l: Line, x: Word)
    requires WellFormed(c) && k < CACHE_LINES && c[k].state == Invalid
    requires l.state != Invalid && IsLineAddress(l.address) && View(c, l.address) == None
    requires IsLineAddress(x)
    ensures WellFormed(c[k := l])
    ensures View(c[k := l], x) == if x == l.address then Some(l) else View(c, x)
  {
    var c' := c[k := l];
    assert WellFormed(c') by {
      forall j | 0 <= j < CACHE_LINES && j != k && c[j].state != Invalid
        ensures c[j].address != l.address
      {
        assert !Hit(c[j], l.address);
      }
    }
    if x == l.address {
      ViewOfLine(c', k);
    } else {
      SameFind(c, c', x);
    }
  }

  lemma UpdatedView(c: Cache, a: Word, data: LineData, state: Mesi, x: Word)
    requires WellFormed(c) && Find(c, a) != -1 && state != Invalid && IsLineAddress(x)
    ensures var k := Find(c, a);
            var c' := c[k := c[k].(data := data, state := state)];
            && WellFormed(c')
            && View(c', x) == (if x == LineBase(a) then Some(Line(x, data, state)) else View(c, x))
  {
    var k := Find(c, a);
    var c' := c[k := c[k].(data := data, state := state)];
    SameFind(c, c', x);
    if x == LineBase(a) {
      assert Find(c, x) == k by { ViewOfLine(c, k); }
    }
  }
}
