/** The MESI invariant of firmwareLearning/cpu_isa.c and the flat memory the caches implement: what loads,
    evictions, snoops and drained stores do to both. */
module Coherence {
  import opened Isa
  import opened CacheLines
  import opened StoreBuffers
  import opened Machines

  /** Core j's copy of the line at address x. */
  function Copy(m: Machine, j: nat, x: Word): Option<Line>
    requires IsCore(m, j)
  {
    View(m.cores[j].cache, x)
  }

  /** MESI safety for one line: an EXCLUSIVE or MODIFIED copy is the only copy, copies agree word for word,
      and an EXCLUSIVE copy equals main memory. */
  ghost predicate LineOk(m: Machine, x: Word)
    requires IsLineAddress(x)
  {
    && (forall j, k | IsCore(m, j) && IsCore(m, k) && j != k && Copy(m, j, x).Some? && Copy(m, k, x).Some? ::
          && Copy(m, j, x).value.state == Shared
          && Copy(m, j, x).value.data == Copy(m, k, x).value.data)
    && (forall j | IsCore(m, j) && Copy(m, j, x).Some? && Copy(m, j, x).value.state == Exclusive ::
          Copy(m, j, x).value.data == MemLine(m.mem, x))
  }

  ghost predicate Coherent(m: Machine) {
    && WellFormedCaches(m)
    && forall x: Word | IsLineAddress(x) :: LineOk(m, x)
  }

  // ----- Empty caches -----

  lemma NoLines(c: Cache, x: Word)
    requires forall k | 0 <= k < CACHE_LINES :: c[k].state == Invalid
    ensures View(c, x) == None && WellFormed(c)
  {
  }

  ghost predicate EmptyCaches(m: Machine) {
    forall i, k | IsCore(m, i) && 0 <= k < CACHE_LINES :: m.cores[i].cache[k].state == Invalid
  }

  lemma EmptyCoherent(m: Machine)
    requires EmptyCaches(m)
    ensures Coherent(m)
  {
    hide View, WellFormed, MemLine;
    forall i | IsCore(m, i) ensures WellFormed(m.cores[i].cache) {
      NoLines(m.cores[i].cache, 0);
    }
    forall x: Word | IsLineAddress(x) ensures LineOk(m, x) {
      forall i | IsCore(m, i) ensures Copy(m, i, x) == None {
        NoLines(m.cores[i].cache, x);
      }
    }
  }

  // ----- The logical memory -----

  /** The line as the program sees it: any cached copy, or else main memory. */
  function LogicalLine(m: Machine, x: Word): LineData
    requires IsLineAddress(x)
  {
    var s := Supplier(m.cores, -1, x, |m.cores|);
    if s == -1 then MemLine(m.mem, x) else Copy(m, s, x).value.data
  }

  /** The flat memory behind the caches. */
  function Flat(m: Machine): Memory {
    seq(MEMORY_SIZE / 4, k requires 0 <= k < MEMORY_SIZE / 4 => LogicalLine(m, k / 2 * CACHE_LINES)[k % 2])
  }

  lemma CopyIsLogical(m: Machine, j: nat, x: Word)
    requires IsLineAddress(x) && LineOk(m, x) && IsCore(m, j) && Copy(m, j, x).Some?
    ensures LogicalLine(m, x) == Copy(m, j, x).value.data
  {
    var s := Supplier(m.cores, -1, x, |m.cores|);
    assert s >= j;
    assert s != j ==> Copy(m, s, x).value.data == Copy(m, j, x).value.data;
  }

  lemma UncachedIsMemory(m: Machine, x: Word)
    requires IsLineAddress(x) && forall j | IsCore(m, j) :: Copy(m, j, x) == None
    ensures LogicalLine(m, x) == MemLine(m.mem, x)
  {
  }

  /** The same copies up to state changes, over the same memory line, are the same logical line. */
  lemma SameCopies(m: Machine, m': Machine, x: Word)
    requires IsLineAddress(x) && |m.cores| == |m'.cores|
    requires forall j | IsCore(m, j) :: Copy(m', j, x) == Copy(m, j, x)
    requires MemLine(m.mem, x) == MemLine(m'.mem, x)
    ensures LogicalLine(m', x) == LogicalLine(m, x)
    ensures LineOk(m, x) ==> LineOk(m', x)
  {
    hide View;
    assert forall j, k | IsCore(m', j) && IsCore(m', k) ::
        Copy(m', j, x) == Copy(m, j, x) && Copy(m', k, x) == Copy(m, k, x);
  }

  // ----- Eviction -----

  /** Core i's victim is SHARED and nobody else holds it: eviction does not write it back. */
  predicate VictimUnbacked(m: Machine, i: nat)
    requires IsCore(m, i)
  {
    var v := m.cores[i].cache[0];
    v.state == Shared && Supplier(m.cores, i, v.address, |m.cores|) == -1
  }

  lemma EvictLine(m: Machine, i: nat, x: Word)
    requires Coherent(m) && IsCore(m, i) && m.cores[i].cache[0].state != Invalid && IsLineAddress(x)
    ensures var m' := EvictVictim(m, i);
            && WellFormedCaches(m')
            && LineOk(m', x)
            && LogicalLine(m', x) == (if x == m.cores[i].cache[0].address && VictimUnbacked(m, i)
                                      then MemLine(m.mem, x) else LogicalLine(m, x))
            && (x != m.cores[i].cache[0].address ==> Copy(m', i, x) == Copy(m, i, x))
  {
    hide Supplier, LogicalLine, MemLine, WriteBack, Find, WellFormed;
    var m' := EvictVictim(m, i);
    var v := m.cores[i].cache[0];
    EvictedView(m.cores[i].cache, 0, x);
    ViewOfLine(m.cores[i].cache, 0);
    WriteBackLine(m.mem, v.address, v.data, x);
    assert forall j | IsCore(m, j) && j != i :: m'.cores[j] == m.cores[j];
    assert LineOk(m, x);
    if x != v.address {
      SameCopies(m, m', x);
    } else {
      EvictTouchedLine(m, m', i, v);
    }
  }

  lemma EvictTouchedLine(m: Machine, m': Machine, i: nat, v: Line)
    requires IsCore(m, i) && IsLineAddress(v.address) && LineOk(m, v.address) && |m'.cores| == |m.cores|
    requires Copy(m, i, v.address) == Some(v) && v.state != Invalid
    requires Copy(m', i, v.address) == None
    requires forall j | IsCore(m, j) && j != i :: Copy(m', j, v.address) == Copy(m, j, v.address)
    requires MemLine(m'.mem, v.address) == if v.state == Modified then v.data else MemLine(m.mem, v.address)
    ensures LineOk(m', v.address)
    ensures LogicalLine(m', v.address) ==
            if v.state == Shared && Supplier(m.cores, i, v.address, |m.cores|) == -1
            then MemLine(m.mem, v.address) else LogicalLine(m, v.address)
  {
    hide Find, View, MemLine;
    var x := v.address;
    CopyIsLogical(m, i, x);
    var s := Supplier(m.cores, i, x, |m.cores|);
    if s == -1 {
      UncachedIsMemory(m', x);
    } else {
      assert Copy(m, s, x).Some?;
      assert LineOk(m', x);
      CopyIsLogical(m', s, x);
    }
  }

  // ----- Snooping and filling -----

  lemma SnoopedCopies(m: Machine, i: nat, a: Word, isWrite: bool, x: Word)
    requires WellFormedCaches(m) && IsCore(m, i) && IsLineAddress(x)
    ensures var m' := m.(cores := SnoopOthers(m.cores, i, a, isWrite));
            && WellFormedCaches(m')
            && m'.cores[i] == m.cores[i]
            && forall j | IsCore(m, j) && j != i ::
                 Copy(m', j, x) == (if x != LineBase(a) || Copy(m, j, x) == None then Copy(m, j, x)
                                    else if isWrite then None
                                    else Some(Copy(m, j, x).value.(state := Shared)))
  {
    var m' := m.(cores := SnoopOthers(m.cores, i, a, isWrite));
    forall j | IsCore(m, j) && j != i
      ensures WellFormed(m'.cores[j].cache)
      ensures Copy(m', j, x) == (if x != LineBase(a) || Copy(m, j, x) == None then Copy(m, j, x)
                                 else if isWrite then None
                                 else Some(Copy(m, j, x).value.(state := Shared)))
    {
      SnoopedView(m.cores[j].cache, a, isWrite, x);
    }
  }

  /** A miss on a free slot: snoop the other caches, then install the line they or memory supply. */
  function Filled(m: Machine, i: nat, k: nat, a: Word): Machine
    requires IsCore(m, i) && k < CACHE_LINES && a < MEMORY_SIZE
  {
    var m2 := m.(cores := SnoopOthers(m.cores, i, a, false));
    WithCache(m2, i, m2.cores[i].cache[k := FilledLine(m, i, a)])
  }

  lemma FillLine(m: Machine, i: nat, k: nat, a: Word, x: Word)
    requires Coherent(m) && IsCore(m, i) && k < CACHE_LINES && a < MEMORY_SIZE && IsLineAddress(x)
    requires m.cores[i].cache[k].state == Invalid && Copy(m, i, a) == None
    ensures var m' := Filled(m, i, k, a);
            && WellFormedCaches(m')
            && LineOk(m', x)
            && LogicalLine(m', x) == LogicalLine(m, x)
            && Copy(m', i, x) == (if x == LineBase(a) then Some(FilledLine(m, i, a)) else Copy(m, i, x))
  {
    var m' := Filled(m, i, k, a);
    FilledCopies(m, i, k, a, x);
    assert LineOk(m, x);
    if x != LineBase(a) {
      SameCopies(m, m', x);
    } else {
      FillTouchedLine(m, m', i, a, x);
    }
  }

  lemma FilledCopies(m: Machine, i: nat, k: nat, a: Word, x: Word)
    requires WellFormedCaches(m) && IsCore(m, i) && k < CACHE_LINES && a < MEMORY_SIZE && IsLineAddress(x)
    requires m.cores[i].cache[k].state == Invalid && Copy(m, i, a) == None
    ensures var m' := Filled(m, i, k, a);
            && WellFormedCaches(m')
            && Copy(m', i, x) == (if x == LineBase(a) then Some(FilledLine(m, i, a)) else Copy(m, i, x))
            && forall j | IsCore(m, j) && j != i ::
                 Copy(m', j, x) == (if x != LineBase(a) || Copy(m, j, x) == None then Copy(m, j, x)
                                    else Some(Copy(m, j, x).value.(state := Shared)))
  {
    var m' := Filled(m, i, k, a);
    SnoopedCopies(m, i, a, false, x);
    FindOfBase(m.cores[i].cache, a);
    InstalledView(m.cores[i].cache, k, FilledLine(m, i, a), x);
    var m2 := m.(cores := SnoopOthers(m.cores, i, a, false));
    assert m'.cores[i].cache == m.cores[i].cache[k := FilledLine(m, i, a)];
    assert forall j | IsCore(m, j) && j != i :: m'.cores[j] == m2.cores[j];
  }

  lemma CopyOfBase(m: Machine, j: nat, a: Word)
    requires IsCore(m, j)
    ensures Copy(m, j, LineBase(a)) == Copy(m, j, a)
  {
    FindOfBase(m.cores[j].cache, a);
  }

  lemma FillTouchedLine(m: Machine, m': Machine, i: nat, a: Word, x: Word)
    requires IsCore(m, i) && a < MEMORY_SIZE && x == LineBase(a) && IsLineAddress(x) && LineOk(m, x)
    requires |m'.cores| == |m.cores| && m'.mem == m.mem
    requires Copy(m, i, a) == None && Copy(m', i, x) == Some(FilledLine(m, i, a))
    requires forall j | IsCore(m, j) && j != i ::
               Copy(m', j, x) == (if Copy(m, j, x) == None then None
                                  else Some(Copy(m, j, x).value.(state := Shared)))
    ensures LineOk(m', x) && LogicalLine(m', x) == LogicalLine(m, x)
  {
    hide View;
    forall j | IsCore(m, j) ensures Copy(m, j, a) == Copy(m, j, x) {
      CopyOfBase(m, j, a);
    }
    var s := Supplier(m.cores, i, a, |m.cores|);
    if s == -1 {
      assert forall j | IsCore(m, j) :: Copy(m, j, x) == None;
      UncachedIsMemory(m, x);
    } else {
      CopyIsLogical(m, s, x);
      forall j | IsCore(m, j) && j != i && Copy(m, j, x).Some?
        ensures Copy(m, j, x).value.data == LogicalLine(m, x)
      {
        CopyIsLogical(m, j, x);
      }
    }
    CopyIsLogical(m', i, x);
  }

  // ----- Loads -----

  /** The load misses in a full cache whose victim is SHARED, held by nobody else, and different from memory:
      the only copy of its data is dropped. This is the guard of the missing write-back in CacheEvictLine. */
  predicate Lossy(m: Machine, i: nat, a: Word)
    requires IsCore(m, i) && WellFormed(m.cores[i].cache)
  {
    && Find(m.cores[i].cache, a) == -1
    && FirstInvalid(m.cores[i].cache) == CACHE_LINES
    && VictimUnbacked(m, i)
    && (ViewOfLine(m.cores[i].cache, 0);
        m.cores[i].cache[0].data != MemLine(m.mem, m.cores[i].cache[0].address))
  }

  /** The logical line at x after CacheLoad. */
  function LineAfterLoad(m: Machine, i: nat, a: Word, x: Word): LineData
    requires IsCore(m, i) && WellFormed(m.cores[i].cache) && IsLineAddress(x)
  {
    if Lossy(m, i, a) && x == m.cores[i].cache[0].address then MemLine(m.mem, x) else LogicalLine(m, x)
  }

  lemma LossyVictim(m: Machine, i: nat, a: Word)
    requires Coherent(m) && IsCore(m, i) && Lossy(m, i, a)
    ensures var v := m.cores[i].cache[0];
            && IsLineAddress(v.address) && v.address != LineBase(a)
            && LogicalLine(m, v.address) == v.data != MemLine(m.mem, v.address)
  {
    var v := m.cores[i].cache[0];
    assert !Hit(v, a);
    ViewOfLine(m.cores[i].cache, 0);
    assert LineOk(m, v.address);
    CopyIsLogical(m, i, v.address);
  }

  lemma LoadLine(m: Machine, i: nat, a: Word, x: Word)
    requires Coherent(m) && IsCore(m, i) && a < MEMORY_SIZE && IsLineAddress(x)
    ensures WellFormedCaches(Load(m, i, a))
    ensures LineOk(Load(m, i, a), x)
    ensures LogicalLine(Load(m, i, a), x) == LineAfterLoad(m, i, a, x)
  {
    if Find(m.cores[i].cache, a) != -1 {
      assert LineOk(m, x);
    } else {
      var (m1, k) := GetEmpty(m, i);
      GetEmptyLine(m, i, a, x);
      GetEmptyCoherent(m, i);
      FillLine(m1, i, k, a, x);
    }
  }

  lemma GetEmptyLine(m: Machine, i: nat, a: Word, x: Word)
    requires Coherent(m) && IsCore(m, i) && a < MEMORY_SIZE && IsLineAddress(x)
    requires Find(m.cores[i].cache, a) == -1
    ensures Copy(GetEmpty(m, i).0, i, a) == None
    ensures LogicalLine(GetEmpty(m, i).0, x) == LineAfterLoad(m, i, a, x)
  {
    hide Find, FirstInvalid, LogicalLine, MemLine, EvictVictim, WellFormed;
    if FirstInvalid(m.cores[i].cache) == CACHE_LINES {
      var v := m.cores[i].cache[0];
      assert v.address != LineBase(a) by { assert !Hit(v, a); }
      EvictLine(m, i, LineBase(a));
      EvictLine(m, i, x);
      CopyOfBase(m, i, a);
      CopyOfBase(GetEmpty(m, i).0, i, a);
      VictimIsLogical(m, i);
    }
  }

  lemma VictimIsLogical(m: Machine, i: nat)
    requires Coherent(m) && IsCore(m, i) && m.cores[i].cache[0].state != Invalid
    ensures var v := m.cores[i].cache[0]; IsLineAddress(v.address) && LogicalLine(m, v.address) == v.data
  {
    hide LogicalLine;
    ViewOfLine(m.cores[i].cache, 0);
    assert LineOk(m, m.cores[i].cache[0].address);
    CopyIsLogical(m, i, m.cores[i].cache[0].address);
  }

  lemma GetEmptyCoherent(m: Machine, i: nat)
    requires Coherent(m) && IsCore(m, i)
    ensures Coherent(GetEmpty(m, i).0)
  {
    if FirstInvalid(m.cores[i].cache) == CACHE_LINES {
      forall x: Word | IsLineAddress(x) ensures LineOk(EvictVictim(m, i), x) && WellFormedCaches(EvictVictim(m, i)) {
        EvictLine(m, i, x);
      }
      assert IsLineAddress(0);
    }
  }

  lemma LoadCoherent(m: Machine, i: nat, a: Word)
    requires Coherent(m) && IsCore(m, i) && a < MEMORY_SIZE
    ensures Coherent(Load(m, i, a))
  {
    LoadLine(m, i, a, 0);
    forall x: Word | IsLineAddress(x) ensures LineOk(Load(m, i, a), x) {
      LoadLine(m, i, a, x);
    }
  }

  /** CacheLoad returns the flat memory's word. */
  lemma LoadReadsFlat(m: Machine, i: nat, a: Word)
    requires Coherent(m) && IsCore(m, i) && a < MEMORY_SIZE
    ensures var m' := Load(m, i, a);
            CachedWord(m'.cores[i].cache, a) == Flat(m')[a / 4] == Flat(m)[a / 4]
  {
    LoadTouchedLine(m, i, a);
    LoadedWord(m, Load(m, i, a), i, a);
  }

  lemma LoadTouchedLine(m: Machine, i: nat, a: Word)
    requires Coherent(m) && IsCore(m, i) && a < MEMORY_SIZE
    ensures LineOk(Load(m, i, a), LineBase(a))
    ensures LogicalLine(Load(m, i, a), LineBase(a)) == LogicalLine(m, LineBase(a))
  {
    LoadLine(m, i, a, LineBase(a));
    if Lossy(m, i, a) {
      LossyVictim(m, i, a);
    }
  }

  lemma LoadedWord(m: Machine, m': Machine, i: nat, a: Word)
    requires IsCore(m', i) && a < MEMORY_SIZE && Find(m'.cores[i].cache, a) != -1
    requires LineOk(m', LineBase(a)) && LogicalLine(m', LineBase(a)) == LogicalLine(m, LineBase(a))
    ensures CachedWord(m'.cores[i].cache, a) == Flat(m')[a / 4] == Flat(m)[a / 4]
  {
    CachedWordIsFlat(m', i, a);
    SameFlatWord(m, m', a);
  }

  lemma SameFlatWord(m: Machine, m': Machine, a: Word)
    requires a < MEMORY_SIZE && LogicalLine(m', LineBase(a)) == LogicalLine(m, LineBase(a))
    ensures Flat(m')[a / 4] == Flat(m)[a / 4]
  {
    FlatWord(m, a);
    FlatWord(m', a);
  }

  /** The line that holds word w of memory. */
  function LineAt(w: nat): (x: Word)
    requires w < MEMORY_SIZE / 4
    ensures IsLineAddress(x)
  {
    w / 2 * CACHE_LINES
  }

  lemma FlatAt(m: Machine, w: nat)
    requires w < MEMORY_SIZE / 4
    ensures Flat(m)[w] == LogicalLine(m, LineAt(w))[w % 2]
    ensures MemLine(m.mem, LineAt(w))[w % 2] == m.mem[w]
  {
    hide LogicalLine;
    assert LineAt(w) / 4 == w / 2 * 2;
  }

  lemma FlatWord(m: Machine, a: Word)
    requires a < MEMORY_SIZE
    ensures Flat(m)[a / 4] == LogicalLine(m, LineBase(a))[WordOffset(a)]
  {
    assert a / 4 / 2 * CACHE_LINES == LineBase(a) && a / 4 % 2 == WordOffset(a);
  }

  lemma LineWords(x: Word)
    requires IsLineAddress(x)
    ensures x / 4 / 2 * CACHE_LINES == x && x / 4 % 2 == 0
    ensures (x / 4 + 1) / 2 * CACHE_LINES == x && (x / 4 + 1) % 2 == 1
    ensures x / 4 + 1 < MEMORY_SIZE / 4
  {
    assert x == x / 8 * 8;
    assert x / 4 == 2 * (x / 8);
  }

  lemma FlatLine(m: Machine, x: Word)
    requires IsLineAddress(x)
    ensures LogicalLine(m, x) == [Flat(m)[x / 4], Flat(m)[x / 4 + 1]]
  {
    hide LogicalLine;
    LineWords(x);
    var k := x / 4;
    assert Flat(m)[k] == LogicalLine(m, x)[0];
    assert Flat(m)[k + 1] == LogicalLine(m, x)[1];
  }

  lemma CachedWordIsFlat(m: Machine, i: nat, a: Word)
    requires IsCore(m, i) && a < MEMORY_SIZE && Find(m.cores[i].cache, a) != -1
    requires LineOk(m, LineBase(a))
    ensures CachedWord(m.cores[i].cache, a) == Flat(m)[a / 4]
  {
    FindOfBase(m.cores[i].cache, a);
    CopyIsLogical(m, i, LineBase(a));
    FlatWord(m, a);
  }

  /** CacheLoad changes nothing logical, except when it drops the last copy of a dirty SHARED line. */
  lemma LoadKeepsFlatIff(m: Machine, i: nat, a: Word)
    requires Coherent(m) && IsCore(m, i) && a < MEMORY_SIZE
    ensures Flat(Load(m, i, a)) == Flat(m) <==> !Lossy(m, i, a)
  {
    hide Coherent, Flat, LogicalLine, Load, Lossy, WellFormed, LineAt, MemLine;
    CacheOk(m, i);
    var m' := Load(m, i, a);
    if Lossy(m, i, a) {
      var v := m.cores[i].cache[0].address;
      LossyVictim(m, i, a);
      LoadLine(m, i, a, v);
      LinesDiffer(m, m', v);
    } else {
      forall k | 0 <= k < MEMORY_SIZE / 4 ensures Flat(m')[k] == Flat(m)[k] {
        LoadLine(m, i, a, LineAt(k));
        FlatAt(m, k);
        FlatAt(m', k);
      }
    }
  }

  lemma CacheOk(m: Machine, i: nat)
    requires Coherent(m) && IsCore(m, i)
    ensures WellFormed(m.cores[i].cache)
  {
  }

  lemma LinesDiffer(m: Machine, m': Machine, x: Word)
    requires IsLineAddress(x) && LogicalLine(m, x) != LogicalLine(m', x)
    ensures Flat(m) != Flat(m')
  {
    hide LogicalLine, Flat;
    var d, d' := LogicalLine(m, x), LogicalLine(m', x);
    assert d[0] != d'[0] || d[1] != d'[1];
    FlatLine(m, x);
    FlatLine(m', x);
  }

  // ----- Drained stores -----

  /** A write to a line core i holds: other copies are invalidated if it is SHARED, then one word changes. */
  function Written(m: Machine, i: nat, a: Word, v: Word): Machine
    requires IsCore(m, i) && a < MEMORY_SIZE && Find(m.cores[i].cache, a) != -1
  {
    var k := Find(m.cores[i].cache, a);
    var l := m.cores[i].cache[k];
    var m2 := if l.state == Shared then m.(cores := SnoopOthers(m.cores, i, a, true)) else m;
    WithCache(m2, i, m2.cores[i].cache[k := l.(data := l.data[WordOffset(a) := v], state := Modified)])
  }

  lemma WrittenCopies(m: Machine, i: nat, a: Word, v: Word, x: Word)
    requires WellFormedCaches(m) && IsCore(m, i) && a < MEMORY_SIZE && Find(m.cores[i].cache, a) != -1
    requires IsLineAddress(x)
    ensures var m' := Written(m, i, a, v);
            var l := m.cores[i].cache[Find(m.cores[i].cache, a)];
            && WellFormedCaches(m')
            && Copy(m', i, x) == (if x == LineBase(a) then Some(Line(x, l.data[WordOffset(a) := v], Modified))
                                  else Copy(m, i, x))
            && forall j | IsCore(m, j) && j != i ::
                 Copy(m', j, x) == (if x == LineBase(a) && l.state == Shared then None else Copy(m, j, x))
  {
    var m' := Written(m, i, a, v);
    var c := m.cores[i].cache;
    var l := c[Find(c, a)];
    var m2 := if l.state == Shared then m.(cores := SnoopOthers(m.cores, i, a, true)) else m;
    SnoopedCopies(m, i, a, true, x);
    UpdatedView(c, a, l.data[WordOffset(a) := v], Modified, x);
    assert forall j | IsCore(m, j) && j != i :: m'.cores[j] == m2.cores[j];
  }

  lemma WriteLine(m: Machine, i: nat, a: Word, v: Word, x: Word)
    requires Coherent(m) && IsCore(m, i) && a < MEMORY_SIZE && Find(m.cores[i].cache, a) != -1
    requires IsLineAddress(x)
    ensures var m' := Written(m, i, a, v);
            && WellFormedCaches(m')
            && LineOk(m', x)
            && LogicalLine(m', x) == (if x == LineBase(a) then LogicalLine(m, x)[WordOffset(a) := v]
                                      else LogicalLine(m, x))
  {
    hide Find, View, Supplier, MemLine, WellFormed, WriteBack;
    var m' := Written(m, i, a, v);
    WrittenCopies(m, i, a, v, x);
    assert LineOk(m, x);
    if x != LineBase(a) {
      SameCopies(m, m', x);
    } else {
      HeldCopy(m, i, a);
      CopyIsLogical(m, i, x);
      assert forall j | IsCore(m, j) && j != i :: Copy(m', j, x) == None;
      CopyIsLogical(m', i, x);
    }
  }

  lemma HeldCopy(m: Machine, i: nat, a: Word)
    requires IsCore(m, i) && Find(m.cores[i].cache, a) != -1
    ensures Copy(m, i, LineBase(a)) == Some(m.cores[i].cache[Find(m.cores[i].cache, a)])
  {
    FindOfBase(m.cores[i].cache, a);
  }

  lemma WriteCoherent(m: Machine, i: nat, a: Word, v: Word)
    requires Coherent(m) && IsCore(m, i) && a < MEMORY_SIZE
    ensures Coherent(WriteDirect(m, i, a, v))
  {
    LoadCoherent(m, i, a);
    var m1 := Load(m, i, a);
    assert WriteDirect(m, i, a, v) == Written(m1, i, a, v);
    WriteLine(m1, i, a, v, 0);
    forall x: Word | IsLineAddress(x) ensures LineOk(Written(m1, i, a, v), x) {
      WriteLine(m1, i, a, v, x);
    }
  }

  /** CacheWriteDirect changes one word of what CacheLoad leaves. */
  lemma WriteAfterLoad(m: Machine, i: nat, a: Word, v: Word)
    requires Coherent(m) && IsCore(m, i) && a < MEMORY_SIZE
    ensures Flat(WriteDirect(m, i, a, v)) == Flat(Load(m, i, a))[a / 4 := v]
  {
    LoadCoherent(m, i, a);
    var m1 := Load(m, i, a);
    var m' := Written(m1, i, a, v);
    assert WriteDirect(m, i, a, v) == m';
    forall k | 0 <= k < MEMORY_SIZE / 4 ensures Flat(m')[k] == Flat(m1)[a / 4 := v][k] {
      WrittenWord(m1, i, a, v, k);
    }
  }

  lemma WrittenWord(m: Machine, i: nat, a: Word, v: Word, k: nat)
    requires Coherent(m) && IsCore(m, i) && a < MEMORY_SIZE && Find(m.cores[i].cache, a) != -1
    requires k < MEMORY_SIZE / 4
    ensures Flat(Written(m, i, a, v))[k] == if k == a / 4 then v else Flat(m)[k]
  {
    hide Coherent, LogicalLine, Flat, Written, Find, LineAt, LineBase, WordOffset, MemLine;
    SameWord(a, k);
    WriteLine(m, i, a, v, LineAt(k));
    FlatAt(m, k);
    FlatAt(Written(m, i, a, v), k);
  }

  lemma SameWord(a: Word, k: nat)
    requires k < MEMORY_SIZE / 4
    ensures LineAt(k) == LineBase(a) && k % 2 == WordOffset(a) <==> k == a / 4
  {
    assert a == a / 8 * 8 + a % 8;
    assert a / 4 == a / 8 * 2 + a % 8 / 4;
    assert k == k / 2 * 2 + k % 2;
  }

  /** CacheWriteDirect changes exactly one logical word, on the same condition as CacheLoad. */
  lemma WriteUpdatesFlatIff(m: Machine, i: nat, a: Word, v: Word)
    requires Coherent(m) && IsCore(m, i) && a < MEMORY_SIZE
    ensures Flat(WriteDirect(m, i, a, v)) == Flat(m)[a / 4 := v] <==> !Lossy(m, i, a)
  {
    var m1 := Load(m, i, a);
    WriteAfterLoad(m, i, a, v);
    LoadKeepsFlatIff(m, i, a);
    LoadReadsFlat(m, i, a);
    SameUpdate(Flat(m1), Flat(m), a / 4, v);
  }

  lemma SameUpdate(s: seq<Word>, t: seq<Word>, k: nat, v: Word)
    requires |s| == |t| && k < |s| && s[k] == t[k]
    ensures s[k := v] == t[k := v] <==> s == t
  {
    if s[k := v] == t[k := v] {
      forall j | 0 <= j < |s| ensures s[j] == t[j] {
        assert s[k := v][j] == t[k := v][j];
      }
    }
  }

  /** FlushStoreBuffer: drain until the buffer is empty. */
  function Flush(m: Machine, i: nat): (m': Machine)
    requires Coherent(m) && IsCore(m, i) && StoresInMemory(Pending(m.cores[i].buffer))
    ensures |m'.cores| == |m.cores|
    decreases m.cores[i].buffer.count
  {
    if m.cores[i].buffer.count == 0 then m
    else
      DrainCoherent(m, i);
      Flush(Drain(m, i), i)
  }

  lemma SameCaches(m: Machine, m': Machine)
    requires |m'.cores| == |m.cores| && m'.mem == m.mem
    requires forall j | IsCore(m, j) :: m'.cores[j].cache == m.cores[j].cache
    ensures Flat(m') == Flat(m)
    ensures Coherent(m) ==> Coherent(m')
  {
    forall x: Word | IsLineAddress(x) ensures LogicalLine(m', x) == LogicalLine(m, x) && (LineOk(m, x) ==> LineOk(m', x)) {
      SameCopies(m, m', x);
    }
  }

  lemma DrainCoherent(m: Machine, i: nat)
    requires Coherent(m) && IsCore(m, i) && StoresInMemory(Pending(m.cores[i].buffer))
    requires m.cores[i].buffer.count > 0
    ensures var s := Pending(m.cores[i].buffer)[0];
            var m' := Drain(m, i);
            && Coherent(m')
            && Flat(m') == Flat(Load(m, i, s.addr))[s.addr / 4 := s.data]
            && Pending(m'.cores[i].buffer) == Pending(m.cores[i].buffer)[1..]
            && StoresInMemory(Pending(m'.cores[i].buffer))
  {
    var s := Pending(m.cores[i].buffer)[0];
    PopDropsOldest(m.cores[i].buffer);
    WriteCoherent(m, i, s.addr, s.data);
    WriteAfterLoad(m, i, s.addr, s.data);
    SameCaches(WriteDirect(m, i, s.addr, s.data), Drain(m, i));
  }
}
