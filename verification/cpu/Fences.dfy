/** FENCE in firmwareLearning/cpu_isa.c: a flush of the store buffer through the cache, and exactly when it
    amounts to the pending stores applied to flat memory in order. A drain can drop the last copy of a dirty
    SHARED line, but what is stored afterwards in the same flush is not lost. */
module Fences {
  import opened Isa
  import opened CacheLines
  import opened StoreBuffers
  import opened Machines
  import opened Coherence

  // ----- Stores on flat memory -----

  function Applied(mem: Memory, q: seq<Store>): Memory
    requires StoresInMemory(q)
    decreases q
  {
    if q == [] then mem else Applied(mem[q[0].addr / 4 := q[0].data], q[1..])
  }

  /** Some store of the queue goes to word w. */
  predicate Writes(q: seq<Store>, w: nat) {
    q != [] && (q[0].addr / 4 == w || Writes(q[1..], w))
  }

  lemma {:induction false} AppliedAgreesIff(f: Memory, g: Memory, q: seq<Store>, w: nat)
    requires StoresInMemory(q) && w < MEMORY_SIZE / 4
    ensures Applied(f, q)[w] == Applied(g, q)[w] <==> Writes(q, w) || f[w] == g[w]
    decreases q
  {
    if q != [] {
      var k := q[0].addr / 4;
      AppliedAgreesIff(f[k := q[0].data], g[k := q[0].data], q[1..], w);
    }
  }

  lemma {:induction false} AppliedKeeps(f: Memory, q: seq<Store>, w: nat)
    requires StoresInMemory(q) && w < MEMORY_SIZE / 4 && !Writes(q, w)
    ensures Applied(f, q)[w] == f[w]
    decreases q
  {
    if q != [] {
      AppliedKeeps(f[q[0].addr / 4 := q[0].data], q[1..], w);
    }
  }

  // ----- Words lost by one access -----

  /** The access evicts, without writing it back, the last copy of word w, and memory has another value. */
  predicate LosesWord(m: Machine, i: nat, a: Word, w: nat)
    requires IsCore(m, i) && WellFormed(m.cores[i].cache) && w < MEMORY_SIZE / 4
  {
    var v := m.cores[i].cache[0];
    Lossy(m, i, a) && v.address == LineAt(w) && v.data[w % 2] != m.mem[w]
  }

  lemma LosesWordIff(m: Machine, i: nat, a: Word, w: nat)
    requires Coherent(m) && IsCore(m, i) && a < MEMORY_SIZE && w < MEMORY_SIZE / 4
    ensures Flat(Load(m, i, a))[w] != Flat(m)[w] <==> LosesWord(m, i, a, w)
  {
    hide Load, Coherent, LogicalLine, Flat, Lossy, WellFormed;
    CacheOk(m, i);
    LoadLine(m, i, a, LineAt(w));
    FlatAt(m, w);
    FlatAt(Load(m, i, a), w);
    if Lossy(m, i, a) {
      LossyVictim(m, i, a);
    }
  }

  // ----- Lines that only core i can hold -----

  /** No other core holds the line, and core i does not hold it SHARED: evicting it loses nothing. */
  ghost predicate Sole(m: Machine, i: nat, x: Word)
    requires IsCore(m, i)
  {
    && (forall j | IsCore(m, j) && j != i :: Copy(m, j, x) == None)
    && (Copy(m, i, x).Some? ==> Copy(m, i, x).value.state != Shared)
  }

  lemma SoleNotLost(m: Machine, i: nat, a: Word, x: Word)
    requires Coherent(m) && IsCore(m, i) && IsLineAddress(x) && Sole(m, i, x) && Lossy(m, i, a)
    ensures m.cores[i].cache[0].address != x
  {
    ViewOfLine(m.cores[i].cache, 0);
  }

  lemma EvictedCopies(m: Machine, i: nat, x: Word)
    requires IsCore(m, i) && WellFormed(m.cores[i].cache) && m.cores[i].cache[0].state != Invalid && IsLineAddress(x)
    ensures var m' := EvictVictim(m, i);
            && Copy(m', i, x) == (if x == m.cores[i].cache[0].address then None else Copy(m, i, x))
            && forall j | IsCore(m, j) && j != i :: Copy(m', j, x) == Copy(m, j, x)
  {
    hide View, WriteBack, WellFormed;
    EvictedView(m.cores[i].cache, 0, x);
    assert forall j | IsCore(m, j) && j != i :: EvictVictim(m, i).cores[j] == m.cores[j];
  }

  lemma EmptyKeepsSole(m: Machine, i: nat, x: Word)
    requires Coherent(m) && IsCore(m, i) && IsLineAddress(x) && Sole(m, i, x)
    ensures Sole(GetEmpty(m, i).0, i, x)
  {
    hide Coherent, View, WellFormed, Copy, EvictVictim;
    CacheOk(m, i);
    if FirstInvalid(m.cores[i].cache) == CACHE_LINES {
      EvictedCopies(m, i, x);
    }
  }

  lemma FillKeepsSole(m: Machine, i: nat, k: nat, a: Word, x: Word)
    requires WellFormedCaches(m) && IsCore(m, i) && k < CACHE_LINES && a < MEMORY_SIZE && IsLineAddress(x)
    requires m.cores[i].cache[k].state == Invalid && Copy(m, i, a) == None && Sole(m, i, x)
    ensures Sole(Filled(m, i, k, a), i, x)
  {
    hide Find, View, MemLine, WellFormed;
    FilledCopies(m, i, k, a, x);
    var s := Supplier(m.cores, i, a, |m.cores|);
    if s != -1 {
      CopyOfBase(m, s, a);
    }
  }

  lemma LoadIsFilled(m: Machine, i: nat, a: Word)
    requires IsCore(m, i) && a < MEMORY_SIZE && WellFormed(m.cores[i].cache) && Find(m.cores[i].cache, a) == -1
    ensures Load(m, i, a) == Filled(GetEmpty(m, i).0, i, GetEmpty(m, i).1, a)
  {
  }

  lemma LoadKeepsSole(m: Machine, i: nat, a: Word, x: Word)
    requires Coherent(m) && IsCore(m, i) && a < MEMORY_SIZE && IsLineAddress(x) && Sole(m, i, x)
    ensures Sole(Load(m, i, a), i, x)
  {
    if Find(m.cores[i].cache, a) == -1 {
      var (m1, k) := GetEmpty(m, i);
      GetEmptyLine(m, i, a, x);
      GetEmptyCoherent(m, i);
      EmptyKeepsSole(m, i, x);
      FillKeepsSole(m1, i, k, a, x);
    }
  }

  lemma LossyAlone(m: Machine, i: nat, a: Word)
    requires Coherent(m) && IsCore(m, i) && Lossy(m, i, a)
    ensures forall j | IsCore(m, j) && j != i :: Copy(m, j, m.cores[i].cache[0].address) == None
  {
    hide View, WellFormed;
  }

  /** What a lossy access dropped is in no cache afterwards. */
  lemma LostIsSole(m: Machine, i: nat, a: Word)
    requires Coherent(m) && IsCore(m, i) && a < MEMORY_SIZE && Lossy(m, i, a)
    ensures IsLineAddress(m.cores[i].cache[0].address) && Sole(Load(m, i, a), i, m.cores[i].cache[0].address)
  {
    hide View, Coherent, WellFormed, EvictVictim, Copy, Filled;
    var x := m.cores[i].cache[0].address;
    CacheOk(m, i);
    LossyVictim(m, i, a);
    LoadIsFilled(m, i, a);
    var (m1, k) := GetEmpty(m, i);
    GetEmptyLine(m, i, a, x);
    GetEmptyCoherent(m, i);
    EvictedCopies(m, i, x);
    LossyAlone(m, i, a);
    assert Sole(m1, i, x);
    FillKeepsSole(m1, i, k, a, x);
  }

  lemma WriteKeepsSole(m: Machine, i: nat, a: Word, v: Word, x: Word)
    requires Coherent(m) && IsCore(m, i) && a < MEMORY_SIZE && IsLineAddress(x) && Sole(Load(m, i, a), i, x)
    ensures Sole(WriteDirect(m, i, a, v), i, x)
  {
    LoadCoherent(m, i, a);
    WrittenCopies(Load(m, i, a), i, a, v, x);
    assert WriteDirect(m, i, a, v) == Written(Load(m, i, a), i, a, v);
  }

  // ----- Drains -----

  ghost predicate Drainable(m: Machine, i: nat) {
    && Coherent(m) && IsCore(m, i) && StoresInMemory(Pending(m.cores[i].buffer))
    && m.cores[i].buffer.count > 0
  }

  lemma DrainSole(m: Machine, i: nat, x: Word)
    requires Drainable(m, i) && IsLineAddress(x) && Sole(Load(m, i, Pending(m.cores[i].buffer)[0].addr), i, x)
    ensures Sole(Drain(m, i), i, x)
  {
    var s := Pending(m.cores[i].buffer)[0];
    WriteKeepsSole(m, i, s.addr, s.data, x);
    hide Load;
    var m1 := WriteDirect(m, i, s.addr, s.data);
    assert forall j | IsCore(m, j) :: Copy(Drain(m, i), j, x) == Copy(m1, j, x);
  }

  /** Flat memory after one drain, word by word. */
  lemma DrainWord(m: Machine, i: nat, w: nat)
    requires Drainable(m, i) && w < MEMORY_SIZE / 4
    ensures var s := Pending(m.cores[i].buffer)[0];
            && (s.addr / 4 == w ==> Flat(Drain(m, i))[w] == s.data)
            && (s.addr / 4 != w ==> (Flat(Drain(m, i))[w] == Flat(m)[w] <==> !LosesWord(m, i, s.addr, w)))
  {
    DrainCoherent(m, i);
    LosesWordIff(m, i, Pending(m.cores[i].buffer)[0].addr, w);
    hide Drain, Flat, LosesWord, Load, Coherent;
  }

  /** The word a store goes to is never the one its access loses. */
  lemma StoreNotLost(m: Machine, i: nat, a: Word)
    requires Coherent(m) && IsCore(m, i) && a < MEMORY_SIZE
    ensures !LosesWord(m, i, a, a / 4)
  {
    LoadReadsFlat(m, i, a);
    LosesWordIff(m, i, a, a / 4);
  }

  /** A line that core i alone may hold keeps its words over a flush, except those it stores to. */
  lemma {:induction false} FlushKeepsSole(m: Machine, i: nat, w: nat)
    requires Coherent(m) && IsCore(m, i) && StoresInMemory(Pending(m.cores[i].buffer)) && w < MEMORY_SIZE / 4
    requires Sole(m, i, LineAt(w)) && !Writes(Pending(m.cores[i].buffer), w)
    ensures Flat(Flush(m, i))[w] == Flat(m)[w]
    decreases m.cores[i].buffer.count
  {
    if m.cores[i].buffer.count > 0 {
      var s := Pending(m.cores[i].buffer)[0];
      DrainCoherent(m, i);
      DrainWord(m, i, w);
      if LosesWord(m, i, s.addr, w) {
        SoleNotLost(m, i, s.addr, LineAt(w));
      }
      LoadKeepsSole(m, i, s.addr, LineAt(w));
      DrainSole(m, i, LineAt(w));
      hide Coherent, Drain, Flat, Sole, LosesWord;
      FlushKeepsSole(Drain(m, i), i, w);
    }
  }

  // ----- Flushes -----

  /** Every word that a drain loses is stored to by that store or a later one of the same flush. */
  ghost predicate FlushRestores(m: Machine, i: nat)
    requires Coherent(m) && IsCore(m, i) && StoresInMemory(Pending(m.cores[i].buffer))
    decreases m.cores[i].buffer.count
  {
    m.cores[i].buffer.count > 0 ==>
      && LossesStored(m, i)
      && (DrainCoherent(m, i); FlushRestores(Drain(m, i), i))
  }

  /** What the first drain loses is stored to in this flush. */
  ghost predicate LossesStored(m: Machine, i: nat)
    requires Drainable(m, i)
  {
    var q := Pending(m.cores[i].buffer);
    forall w: nat | w < MEMORY_SIZE / 4 && LosesWord(m, i, q[0].addr, w) :: Writes(q, w)
  }

  /** Starting the remaining queue from what the drain left, or from flat memory with the store applied, makes
      no difference exactly when what was lost is stored to again. */
  lemma AfterDrainIff(m: Machine, i: nat)
    requires Drainable(m, i)
    ensures var q := Pending(m.cores[i].buffer);
            StoresInMemory(q[1..]) &&
            (Applied(Flat(Drain(m, i)), q[1..]) == Applied(Flat(m), q) <==> LossesStored(m, i))
  {
    var q := Pending(m.cores[i].buffer);
    var f, g := Flat(Drain(m, i)), Flat(m)[q[0].addr / 4 := q[0].data];
    assert StoresInMemory(q[1..]);
    forall w: nat | w < MEMORY_SIZE / 4
      ensures Applied(f, q[1..])[w] == Applied(g, q[1..])[w] <==> LosesWord(m, i, q[0].addr, w) ==> Writes(q, w)
    {
      DrainWord(m, i, w);
      StoreNotLost(m, i, q[0].addr);
      AppliedAgreesIff(f, g, q[1..], w);
      hide Drain, Flat, LosesWord, Coherent, Applied;
    }
    hide Drain, Flat, LosesWord, Coherent, Applied, Writes;
    assert Applied(Flat(m), q) == Applied(g, q[1..]) by { AppliedUnfolds(Flat(m), q); }
    var r, s := Applied(f, q[1..]), Applied(g, q[1..]);
    assert r == s <==> forall w: nat | w < MEMORY_SIZE / 4 :: r[w] == s[w];
  }

  lemma AppliedUnfolds(f: Memory, q: seq<Store>)
    requires StoresInMemory(q) && q != []
    ensures Applied(f, q) == Applied(f[q[0].addr / 4 := q[0].data], q[1..])
  {
  }

  /** A word lost and not stored to afterwards stays lost. */
  lemma LostStaysLost(m: Machine, i: nat, w: nat)
    requires Drainable(m, i) && w < MEMORY_SIZE / 4
    requires LosesWord(m, i, Pending(m.cores[i].buffer)[0].addr, w) && !Writes(Pending(m.cores[i].buffer), w)
    ensures Flat(Flush(m, i))[w] != Applied(Flat(m), Pending(m.cores[i].buffer))[w]
  {
    var q := Pending(m.cores[i].buffer);
    DrainCoherent(m, i);
    DrainWord(m, i, w);
    LostIsSole(m, i, q[0].addr);
    DrainSole(m, i, LineAt(w));
    FlushKeepsSole(Drain(m, i), i, w);
    AppliedKeeps(Flat(m), q, w);
    hide Coherent, Flat, Drain, Sole, LosesWord;
    assert Flush(m, i) == Flush(Drain(m, i), i);
  }

  /** A flush applies the pending stores to flat memory, oldest first, exactly when every word it loses it
      stores to at the same drain or a later one. */
  lemma {:induction false} FlushIff(m: Machine, i: nat)
    requires Coherent(m) && IsCore(m, i) && StoresInMemory(Pending(m.cores[i].buffer))
    ensures Flat(Flush(m, i)) == Applied(Flat(m), Pending(m.cores[i].buffer)) <==> FlushRestores(m, i)
    decreases m.cores[i].buffer.count
  {
    if m.cores[i].buffer.count > 0 {
      DrainCoherent(m, i);
      hide Coherent, Flat, Drain, LosesWord, Applied;
      FlushIff(Drain(m, i), i);
      AfterDrainIff(m, i);
      assert Flush(m, i) == Flush(Drain(m, i), i);
      if !LossesStored(m, i) {
        var w: nat :| w < MEMORY_SIZE / 4 && LosesWord(m, i, Pending(m.cores[i].buffer)[0].addr, w)
                      && !Writes(Pending(m.cores[i].buffer), w);
        LostStaysLost(m, i, w);
      }
    }
  }
}
