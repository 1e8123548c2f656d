/** The MESI transitions of firmwareLearning/cpu_isa.c line by line: what an access by one core does to every copy of
    every line in every cache, and to main memory. */
module CacheEffects {
  import opened Isa
  import opened CacheLines
  import opened StoreBuffers
  import opened Machines
  import opened Coherence

  /** Nothing but caches and main memory changed. */
  ghost predicate OnlyCaches(m: Machine, m': Machine) {
    && |m'.cores| == |m.cores| && m' == m.(cores := m'.cores, mem := m'.mem)
    && forall j | IsCore(m, j) :: m'.cores[j] == m.cores[j].(cache := m'.cores[j].cache)
  }

  // ----- Eviction -----

  ghost predicate Full(c: Cache) {
    forall k | 0 <= k < CACHE_LINES :: c[k].state != Invalid
  }

  /** A core that needs a slot gives up the line in its first one exactly when no slot is free; a MODIFIED line is
      written to memory. */
  ghost predicate GivesUp(m: Machine, i: nat, x: Word)
    requires IsCore(m, i)
  {
    Full(m.cores[i].cache) && m.cores[i].cache[0].address == x
  }

  lemma FullIff(c: Cache)
    ensures FirstInvalid(c) == CACHE_LINES <==> Full(c)
  {
  }

  lemma EmptySlotOutcome(m: Machine, i: nat, x: Word, j: nat)
    requires Coherent(m) && IsCore(m, i) && IsCore(m, j) && IsLineAddress(x)
    ensures var m' := GetEmpty(m, i).0;
            && OnlyCaches(m, m')
            && Copy(m', j, x) == (if j == i && GivesUp(m, i, x) then None else Copy(m, j, x))
            && MemLine(m'.mem, x) == (if GivesUp(m, i, x) && m.cores[i].cache[0].state == Modified
                                      then m.cores[i].cache[0].data else MemLine(m.mem, x))
  {
    hide Find, View, FirstInvalid, MemLine, WriteBack, LineOk, WellFormed;
    FullIff(m.cores[i].cache);
    if Full(m.cores[i].cache) {
      var v := m.cores[i].cache[0];
      EvictedView(m.cores[i].cache, 0, x);
      ViewOfLine(m.cores[i].cache, 0);
      WriteBackLine(m.mem, v.address, v.data, x);
    }
  }

  // ----- Loads -----

  /** Some core holds the line. */
  ghost predicate Held(m: Machine, x: Word) {
    exists k :: IsCore(m, k) && Copy(m, k, x).Some?
  }

  /** CacheLoad on a line that its core holds changes nothing. */
  lemma HitOutcome(m: Machine, i: nat, a: Word)
    requires Coherent(m) && IsCore(m, i) && a < MEMORY_SIZE && Copy(m, i, LineBase(a)).Some?
    ensures Load(m, i, a) == m
  {
    FindOfBase(m.cores[i].cache, a);
    hide Find;
  }

  /** The copy a miss brings in: SHARED, with the data of the other copies, when the line is held, and otherwise
      EXCLUSIVE from memory. */
  ghost predicate BroughtIn(m: Machine, x: Word, l: Line)
    requires IsLineAddress(x)
  {
    && l.address == x
    && if Held(m, x) then
         l.state == Shared && forall k | IsCore(m, k) && Copy(m, k, x).Some? :: l.data == Copy(m, k, x).value.data
       else l.state == Exclusive && l.data == MemLine(m.mem, x)
  }

  lemma FillOutcome(m: Machine, i: nat, a: Word)
    requires IsCore(m, i) && a < MEMORY_SIZE && LineOk(m, LineBase(a)) && Copy(m, i, LineBase(a)) == None
    ensures BroughtIn(m, LineBase(a), FilledLine(m, i, a))
  {
    hide View, MemLine;
    var s := Supplier(m.cores, i, a, |m.cores|);
    forall k | IsCore(m, k)
      ensures Copy(m, k, LineBase(a)) == Copy(m, k, a)
    {
      CopyOfBase(m, k, a);
    }
    if s == -1 {
      assert forall k | IsCore(m, k) :: Copy(m, k, LineBase(a)) == None;
    } else {
      assert Copy(m, s, LineBase(a)).Some?;
    }
  }

  lemma MissIsFill(m: Machine, i: nat, a: Word)
    requires Coherent(m) && IsCore(m, i) && a < MEMORY_SIZE && Copy(m, i, LineBase(a)) == None
    ensures var (m1, k) := GetEmpty(m, i); Load(m, i, a) == Filled(m1, i, k, a)
  {
    hide GetEmpty, Filled, Find, FilledLine, SnoopOthers;
    CopyOfBase(m, i, a);
    LoadOnMiss(m, i, a);
  }

  lemma LoadOnMiss(m: Machine, i: nat, a: Word)
    requires Coherent(m) && IsCore(m, i) && a < MEMORY_SIZE && Find(m.cores[i].cache, a) == -1
    ensures var (m1, k) := GetEmpty(m, i); Load(m, i, a) == Filled(m1, i, k, a)
  {
    hide GetEmpty, FilledLine, SnoopOthers;
  }

  lemma NotGivenUp(m: Machine, i: nat, a: Word)
    requires IsCore(m, i) && Copy(m, i, LineBase(a)) == None
    ensures !GivesUp(m, i, LineBase(a))
  {
    if GivesUp(m, i, LineBase(a)) {
      assert Hit(m.cores[i].cache[0], LineBase(a));
    }
  }

  lemma FilledOnly(m: Machine, i: nat, k: nat, a: Word)
    requires IsCore(m, i) && k < CACHE_LINES && a < MEMORY_SIZE
    ensures OnlyCaches(m, Filled(m, i, k, a)) && Filled(m, i, k, a).mem == m.mem
  {
    hide FilledLine, Snooped;
  }

  lemma SameBroughtIn(m: Machine, m1: Machine, x: Word, l: Line)
    requires IsLineAddress(x) && |m1.cores| == |m.cores| && MemLine(m1.mem, x) == MemLine(m.mem, x)
    requires forall k | IsCore(m, k) :: Copy(m1, k, x) == Copy(m, k, x)
    requires BroughtIn(m1, x, l)
    ensures BroughtIn(m, x, l)
  {
    hide Copy, MemLine;
    if Held(m, x) {
      var k :| IsCore(m, k) && Copy(m, k, x).Some?;
      assert Copy(m1, k, x).Some?;
    }
  }

  /** On a miss the line is brought in and the other copies become SHARED; the core may give up another line, and
      nothing else changes. */
  lemma MissOutcome(m: Machine, i: nat, a: Word, x: Word, j: nat)
    requires Coherent(m) && IsCore(m, i) && IsCore(m, j) && a < MEMORY_SIZE && IsLineAddress(x)
    requires Copy(m, i, LineBase(a)) == None
    ensures var m' := Load(m, i, a);
            var base := LineBase(a);
            && OnlyCaches(m, m')
            && (x != base ==> Copy(m', j, x) == if j == i && GivesUp(m, i, x) then None else Copy(m, j, x))
            && (x == base && j != i ==>
                  Copy(m', j, x) == if Copy(m, j, x) == None then None
                                    else Some(Copy(m, j, x).value.(state := Shared)))
            && (x == base && j == i ==> Copy(m', j, x).Some? && BroughtIn(m, x, Copy(m', j, x).value))
            && MemLine(m'.mem, x) == (if GivesUp(m, i, x) && m.cores[i].cache[0].state == Modified
                                      then m.cores[i].cache[0].data else MemLine(m.mem, x))
  {
    hide Coherent, Find, View, MemLine, WriteBack, LineOk, WellFormed, Load, Filled, FilledLine, GetEmpty, Supplier, SnoopOthers,
      BroughtIn, GivesUp;
    CoherentCaches(m, LineBase(a));
    MissIsFill(m, i, a);
    var (m1, k) := GetEmpty(m, i);
    GetEmptyCoherent(m, i);
    EmptySlotOutcome(m, i, x, j);
    EmptySlotOutcome(m, i, LineBase(a), i);
    NotGivenUp(m, i, a);
    CopyOfBase(m1, i, a);
    CoherentCaches(m1, LineBase(a));
    FilledCopies(m1, i, k, a, x);
    FilledOnly(m1, i, k, a);
    if x == LineBase(a) {
      FillOutcome(m1, i, a);
      forall c | IsCore(m, c)
        ensures Copy(m1, c, x) == Copy(m, c, x)
      {
        EmptySlotOutcome(m, i, x, c);
      }
      SameBroughtIn(m, m1, x, FilledLine(m1, i, a));
    }
  }

  lemma CoherentCaches(m: Machine, x: Word)
    requires Coherent(m) && IsLineAddress(x)
    ensures WellFormedCaches(m) && LineOk(m, x)
  {
  }

  // ----- Stores -----

  /** CacheWriteDirect leaves its core with the only copy, MODIFIED, with one word changed; every other line is as
      CacheLoad leaves it. */
  lemma WriteOutcome(m: Machine, i: nat, a: Word, v: Word, x: Word, j: nat)
    requires Coherent(m) && IsCore(m, i) && IsCore(m, j) && a < MEMORY_SIZE && IsLineAddress(x)
    ensures var m1, m' := Load(m, i, a), WriteDirect(m, i, a, v);
            var base := LineBase(a);
            && OnlyCaches(m1, m') && m'.mem == m1.mem && Copy(m1, i, base).Some?
            && (x != base ==> Copy(m', j, x) == Copy(m1, j, x))
            && (x == base && j != i ==> Copy(m', j, x) == None)
            && (x == base && j == i ==>
                  Copy(m', j, x) == Some(Line(x, Copy(m1, i, x).value.data[a / 4 % 2 := v], Modified)))
  {
    hide Find, View, Load, LineBase, SnoopOthers, Supplier;
    LoadCoherent(m, i, a);
    var m1 := Load(m, i, a);
    CoherentCaches(m1, LineBase(a));
    WrittenOutcome(m1, i, a, v, x, j);
  }

  lemma WrittenOutcome(m: Machine, i: nat, a: Word, v: Word, x: Word, j: nat)
    requires WellFormedCaches(m) && IsCore(m, i) && IsCore(m, j) && a < MEMORY_SIZE && IsLineAddress(x)
    requires Find(m.cores[i].cache, a) != -1 && IsLineAddress(LineBase(a)) && LineOk(m, LineBase(a))
    ensures var m' := Written(m, i, a, v);
            var base := LineBase(a);
            && OnlyCaches(m, m') && m'.mem == m.mem && Copy(m, i, base).Some?
            && (x != base ==> Copy(m', j, x) == Copy(m, j, x))
            && (x == base && j != i ==> Copy(m', j, x) == None)
            && (x == base && j == i ==>
                  Copy(m', j, x) == Some(Line(x, Copy(m, i, x).value.data[a / 4 % 2 := v], Modified)))
  {
    hide Find, View, LineBase, Written, WordOffset;
    HeldCopy(m, i, a);
    WrittenCopies(m, i, a, v, x);
    WrittenOnly(m, i, a, v);
    OffsetOfWord(a);
  }

  lemma WrittenOnly(m: Machine, i: nat, a: Word, v: Word)
    requires IsCore(m, i) && a < MEMORY_SIZE && Find(m.cores[i].cache, a) != -1
    ensures OnlyCaches(m, Written(m, i, a, v)) && Written(m, i, a, v).mem == m.mem
  {
    hide Snooped, Find;
  }

  lemma OffsetOfWord(a: Word)
    ensures WordOffset(a) == a / 4 % 2
  {
  }
}
