/** What BLUE_KERNEL/IRQ_KernelDeal.c does to every CPU: which vector an event leaves pending where, what the timer
    counts, and the whole run of its tick loop. */
module InterruptEffects {
  import opened Delivery

  // ----- An event -----

  /** An MSI device's own vector becomes pending on its own CPU, unless it is 64 or more, and on no other. */
  lemma MsiEvent(w: Wiring, s: System, d: nat, value: int, k: nat)
    requires Shaped(w, s) && d < |w.devices| && k < CPUS && w.devices[d].useMsi
    ensures var dev := w.devices[d];
            var gained := if dev.msiCpu == k && dev.msiVector < 64 then {dev.msiVector as int} else {};
            && Raised(w, s, d).cpus[k] == s.cpus[k].(pending := s.cpus[k].pending + gained)
            && Generated(w, s, d, value).cpus[k] == s.cpus[k].(pending := s.cpus[k].pending + gained)
  {
    assert s.cpus[k].pending + {} == s.cpus[k].pending;
    hide WiringOk;
  }

  /** A line device's vector becomes pending on the CPU of its line's route, when there is such a line. */
  lemma LineEvent(w: Wiring, s: System, d: nat, value: int, k: nat)
    requires Shaped(w, s) && d < |w.devices| && k < CPUS && !w.devices[d].useMsi
    ensures var line := w.devices[d].irqLine;
            var gained := if 0 <= line < 24 && w.routes[line].cpu == k then {w.routes[line].vector as int} else {};
            && Raised(w, s, d).cpus[k] == s.cpus[k].(pending := s.cpus[k].pending + gained)
            && Generated(w, s, d, value).cpus[k] == s.cpus[k].(pending := s.cpus[k].pending + gained)
  {
    assert s.cpus[k].pending + {} == s.cpus[k].pending;
    hide WiringOk;
  }

  /** Its value joins its own buffer, which holds fifteen; nothing is processed yet, and no tick counted. */
  lemma EventBuffers(w: Wiring, s: System, d: nat, value: int, e: nat)
    requires Shaped(w, s) && d < |w.devices| && e < |w.devices|
    ensures Raised(w, s, d) == s.(cpus := Raised(w, s, d).cpus)
    ensures var s' := Generated(w, s, d, value);
            && s'.processed == s.processed && s'.ticks == s.ticks
            && s'.buffers[e] == if e == d && |s.buffers[d]| < 15 then s.buffers[d] + [value] else s.buffers[e]
  {
    hide WiringOk, TargetOf;
  }

  /** In the system that SystemInit builds the timer interrupts CPU 0 with vector 40, the keyboard CPU 0 with 33, the
      mouse CPU 1 with 34 and the microphone CPU 3 with 35. */
  lemma SystemEvents(s: System, d: nat, value: int, k: nat)
    requires Shaped(SystemWiring(), s) && d < 4 && k < CPUS
    ensures var gained: set<int> :=
              if d == 0 && k == 0 then {40} else if d == 1 && k == 0 then {33}
              else if d == 2 && k == 1 then {34} else if d == 3 && k == 3 then {35} else {};
            && Raised(SystemWiring(), s, d).cpus[k].pending == s.cpus[k].pending + gained
            && Generated(SystemWiring(), s, d, value).cpus[k].pending == s.cpus[k].pending + gained
  {
    hide Shaped, Raised, Generated;
    if SystemWiring().devices[d].useMsi {
      MsiEvent(SystemWiring(), s, d, value, k);
    } else {
      LineEvent(SystemWiring(), s, d, value, k);
    }
  }

  // ----- Ticks -----

  /** The vector has an entry and its first routine counts a tick. */
  predicate Counts(w: Wiring, v: int)
    requires WiringOk(w)
  {
    0 <= v < IDT_SIZE && w.idt[v] && w.isrs[v] != [] && w.isrs[v][0] == Tick
  }

  lemma {:induction false} ServedTicks(w: Wiring, s: System, c: nat, vs: seq<int>)
    requires Shaped(w, s) && c < CPUS && Sorted(vs) && forall i | 0 <= i < |vs| :: 0 <= vs[i] < VectorScan.VECTORS
    ensures ServedList(w, s, c, vs).ticks == s.ticks + |set v | v in vs && Counts(w, v)|
    decreases |vs|
  {
    hide WiringOk, Counts, Dispatched;
    if vs != [] {
      assert Sorted(vs[1..]);
      ServedTicks(w, Dispatched(w, s, c, vs[0]), c, vs[1..]);
      DispatchTicks(w, s, c, vs[0]);
      CountFirst(w, vs);
    }
  }

  lemma DispatchTicks(w: Wiring, s: System, c: nat, v: int)
    requires Shaped(w, s) && c < CPUS && 0 <= v < VectorScan.VECTORS
    ensures Dispatched(w, s, c, v).ticks == s.ticks + if Counts(w, v) then 1 else 0
  {
    hide WiringOk, Shaped;
  }

  lemma CountFirst(w: Wiring, vs: seq<int>)
    requires WiringOk(w) && vs != [] && Sorted(vs)
    ensures |set v | v in vs && Counts(w, v)|
         == |set v | v in vs[1..] && Counts(w, v)| + if Counts(w, vs[0]) then 1 else 0
  {
    hide WiringOk, Counts;
    var all, rest := set v | v in vs && Counts(w, v), set v | v in vs[1..] && Counts(w, v);
    assert vs[0] !in rest;
    assert all == rest + if Counts(w, vs[0]) then {vs[0]} else {};
  }

  /** A CPU step counts one tick for each pending vector whose first routine is the timer's. */
  lemma StepTicks(w: Wiring, s: System, c: nat)
    requires Shaped(w, s) && c < CPUS
    ensures CpuStepped(w, s, c).ticks == s.ticks + |set v | v in s.cpus[c].pending && Counts(w, v)|
  {
    ProcessedTicks(w, ServedAll(w, s, c), c);
    CountAscending(w, s.cpus[c].pending);
    AscendingSorted(s.cpus[c].pending, 0);
    ServedTicks(w, s, c, Ascending(s.cpus[c].pending, 0));
    hide WiringOk, Counts, Sorted, ServedList, Processed, Ascending;
  }

  lemma ProcessedTicks(w: Wiring, s: System, c: nat)
    requires Shaped(w, s) && c < CPUS
    ensures Processed(w, s, c).ticks == s.ticks
  {
    hide DrainedList, WiringOk;
  }

  lemma CountAscending(w: Wiring, p: set<int>)
    requires WiringOk(w) && forall v | v in p :: 0 <= v < VectorScan.VECTORS
    ensures (set v | v in Ascending(p, 0) && Counts(w, v)) == (set v | v in p && Counts(w, v))
  {
    hide WiringOk, Counts, Ascending;
    forall v
      ensures v in Ascending(p, 0) <==> v in p
    {
      AscendingMembers(p, 0, v);
    }
  }

  // ----- The tick loop -----

  /** TimerStep: the counter after it, and whether the timer interrupts. */
  function TimerStepped(counter: nat, interval: nat): (nat, bool) {
    if counter + 1 >= interval then (0, true) else (counter + 1, false)
  }

  function CounterAt(turn: nat, interval: nat): nat {
    if turn == 0 then 0 else TimerStepped(CounterAt(turn - 1, interval), interval).0
  }

  /** The timer interrupts in every interval-th turn. */
  lemma {:induction false} TimerFires(turn: nat, interval: nat)
    requires interval > 0
    ensures CounterAt(turn, interval) == turn % interval
    ensures TimerStepped(CounterAt(turn, interval), interval).1 <==> (turn + 1) % interval == 0
  {
    if turn > 0 {
      TimerFires(turn - 1, interval);
    }
    NextRemainder(turn, interval);
    if turn > 0 {
      NextRemainder(turn - 1, interval);
    }
  }

  lemma NextRemainder(x: nat, n: nat)
    requires n > 0
    ensures (x + 1) % n == if x % n + 1 >= n then 0 else x % n + 1
  {
    var q, r := x / n, x % n;
    assert x + 1 == n * q + (r + 1);
    if r + 1 >= n {
      assert x + 1 == n * (q + 1) + 0;
    }
    Remainder(x + 1, n, if r + 1 >= n then q + 1 else q, if r + 1 >= n then 0 else r + 1);
  }

  lemma Remainder(x: nat, n: nat, q: nat, r: nat)
    requires n > 0 && r < n && x == n * q + r
    ensures x % n == r
  {
    var d: int := (q as int) - x / n;
    assert n * d == x % n - r;
  }

  const INTERVAL := 3
  const TURNS := 10

  /** What the devices do in a turn of the loop: the timer steps, and four events are generated in all. */
  function Turn(turn: nat): seq<Operation> {
    (if TimerStepped(CounterAt(turn, INTERVAL), INTERVAL).1 then [Raise(0)] else []) + EventAt(turn)
  }

  function EventAt(turn: nat): seq<Operation> {
    if turn == 0 then [Generate(1, 101)] else if turn == 3 then [Generate(2, 102)]
    else if turn == 5 then [Generate(3, 103)] else if turn == 8 then [Generate(1, 106)] else []
  }

  /** The turns of SystemInit's loop from one on. */
  function TurnsFrom(turn: nat): (turns: seq<seq<Operation>>)
    requires turn <= TURNS
    decreases TURNS - turn
  {
    if turn == TURNS then [] else [Turn(turn)] + TurnsFrom(turn + 1)
  }

  lemma TurnEnabled(w: Wiring, turn: nat)
    requires |w.devices| == 4
    ensures AllEnabled(w, Turn(turn)) && NoSteps(Turn(turn)) && ProducedBy(Turn(turn), PRODUCERS)
  {
  }

  /** Which vectors of a CPU count ticks in this system: 40. */
  lemma SystemCounts(p: set<int>)
    requires WiringOk(SystemWiring())
    ensures |set v | v in p && Counts(SystemWiring(), v)| == if 40 in p then 1 else 0
  {
    assert (set v | v in p && Counts(SystemWiring(), v)) == if 40 in p then {40} else {};
  }

  /** Vector 40 is pending on CPU 0 after a turn's operations exactly when the timer interrupted, and never on
      another CPU. */
  lemma {:induction false} RunTimer(s: System, ops: seq<Operation>, k: nat)
    requires Shaped(SystemWiring(), s) && AllEnabled(SystemWiring(), ops) && NoSteps(ops) && k < CPUS
    requires ProducedBy(ops, PRODUCERS)
    ensures var s' := Run(SystemWiring(), s, ops);
            && s'.ticks == s.ticks
            && (40 in s'.cpus[k].pending <==> 40 in s.cpus[k].pending || (k == 0 && Raise(0) in ops))
    decreases |ops|
  {
    assert |SystemWiring().devices| == 4;
    hide Shaped, Raised, Generated, SystemWiring;
    if ops != [] {
      var s1 := Apply(SystemWiring(), s, ops[0]);
      RunTimer(s1, ops[1..], k);
      var d := ops[0].device;
      var value := if ops[0].Generate? then ops[0].value else 0;
      SystemEvents(s, d, value, k);
      EventBuffers(SystemWiring(), s, d, value, d);
    }
  }

  /** A turn counts a tick exactly when the timer interrupts in it. */
  lemma {:induction false} RoundTicks(s: System, c: nat)
    requires Shaped(SystemWiring(), s) && c <= CPUS && forall k | 1 <= k < CPUS :: 40 !in s.cpus[k].pending
    ensures Rounds(SystemWiring(), s, c).ticks == s.ticks + if c == 0 && 40 in s.cpus[0].pending then 1 else 0
    decreases CPUS - c
  {
    hide CpuStepped, WiringOk, SystemWiring;
    if c < CPUS {
      StepTicks(SystemWiring(), s, c);
      SystemCounts(s.cpus[c].pending);
      StepClears(SystemWiring(), s, c);
      RoundTicks(CpuStepped(SystemWiring(), s, c), c + 1);
    }
  }

  lemma TurnValues(turn: nat)
    ensures Values(Turn(turn), 0) == []
    ensures Values(Turn(turn), 1) == if turn == 0 then [101] else if turn == 8 then [106] else []
    ensures Values(Turn(turn), 2) == if turn == 3 then [102] else []
    ensures Values(Turn(turn), 3) == if turn == 5 then [103] else []
  {
    EventValues(turn);
    hide CounterAt, TimerStepped, EventAt;
    assert ([Raise(0)] + EventAt(turn))[1..] == EventAt(turn);
    assert [] + EventAt(turn) == EventAt(turn);
  }

  lemma EventValues(turn: nat)
    ensures Values(EventAt(turn), 0) == []
    ensures Values(EventAt(turn), 1) == if turn == 0 then [101] else if turn == 8 then [106] else []
    ensures Values(EventAt(turn), 2) == if turn == 3 then [102] else []
    ensures Values(EventAt(turn), 3) == if turn == 5 then [103] else []
  {
    if EventAt(turn) != [] {
      assert EventAt(turn)[1..] == [];
    }
  }

  lemma {:induction false} LoopValues(turn: nat)
    requires turn <= TURNS
    ensures AllValues(TurnsFrom(turn), 0) == []
    ensures AllValues(TurnsFrom(turn), 1) == if turn == 0 then [101, 106] else if turn <= 8 then [106] else []
    ensures AllValues(TurnsFrom(turn), 2) == if turn <= 3 then [102] else []
    ensures AllValues(TurnsFrom(turn), 3) == if turn <= 5 then [103] else []
    decreases TURNS - turn
  {
    hide Turn, Values;
    if turn < TURNS {
      TurnValues(turn);
      LoopValues(turn + 1);
      assert TurnsFrom(turn)[1..] == TurnsFrom(turn + 1);
    }
  }

  lemma {:induction false} LoopOk(w: Wiring, turn: nat)
    requires turn <= TURNS && |w.devices| == 4
    ensures TurnsEnabled(w, TurnsFrom(turn)) && TurnsOk(w, TurnsFrom(turn), PRODUCERS)
    decreases TURNS - turn
  {
    hide Turn, Values, AllEnabled, NoSteps, ProducedBy;
    if turn < TURNS {
      TurnEnabled(w, turn);
      TurnValues(turn);
      LoopOk(w, turn + 1);
      assert TurnsFrom(turn)[1..] == TurnsFrom(turn + 1);
    }
  }

  lemma TimerTurn(turn: nat)
    ensures Raise(0) in Turn(turn) <==> (turn + 1) % 3 == 0
  {
    TimerFires(turn, INTERVAL);
    hide CounterAt, TimerStepped;
  }

  /** A turn counts a tick exactly when the timer's interval ends in it. */
  lemma TurnTicks(s: System, turn: nat)
    requires Shaped(SystemWiring(), s) && Settled(SystemWiring(), s)
    requires AllEnabled(SystemWiring(), Turn(turn)) && NoSteps(Turn(turn)) && ProducedBy(Turn(turn), PRODUCERS)
    ensures Ticked(SystemWiring(), s, Turn(turn)).ticks == s.ticks + if (turn + 1) % 3 == 0 then 1 else 0
  {
    assert forall k | 0 <= k < CPUS :: s.cpus[k].pending == {};
    hide SystemWiring, Turn, WiringOk, Rounds, Run, Shaped, Settled, AllEnabled, NoSteps, ProducedBy;
    TimerTurn(turn);
    forall k | 0 <= k < CPUS
      ensures 40 in Run(SystemWiring(), s, Turn(turn)).cpus[k].pending <==> k == 0 && Raise(0) in Turn(turn)
      ensures Run(SystemWiring(), s, Turn(turn)).ticks == s.ticks
    {
      RunTimer(s, Turn(turn), k);
    }
    RoundTicks(Run(SystemWiring(), s, Turn(turn)), 0);
  }

  lemma {:induction false} LoopTicks(s: System, turn: nat)
    requires Shaped(SystemWiring(), s) && Settled(SystemWiring(), s) && turn <= TURNS
    requires Wired(SystemWiring(), PRODUCERS) && |SystemWiring().devices| == 4
    ensures TurnsEnabled(SystemWiring(), TurnsFrom(turn))
    ensures TickedAll(SystemWiring(), s, TurnsFrom(turn)).ticks
         == s.ticks + if turn <= 2 then 3 else if turn <= 5 then 2 else if turn <= 8 then 1 else 0
    decreases TURNS - turn
  {
    hide SystemWiring, WiringOk, Settled, Wired, Ticked, Turn, Values, AllEnabled, NoSteps, ProducedBy, Shaped;
    LoopOk(SystemWiring(), turn);
    if turn < TURNS {
      TurnEnabled(SystemWiring(), turn);
      TurnTicks(s, turn);
      assert TurnsFrom(turn)[1..] == TurnsFrom(turn + 1);
      TickProcesses(SystemWiring(), s, Turn(turn), PRODUCERS);
      LoopTicks(Ticked(SystemWiring(), s, Turn(turn)), turn + 1);
    }
  }

  /** Before the loop nothing is pending, in service or waiting, and every CPU is at PASSIVE_LEVEL. */
  lemma SystemStarts()
    ensures WiringOk(SystemWiring()) && |SystemWiring().devices| == 4 && Wired(SystemWiring(), PRODUCERS)
    ensures var s := Initial(SystemWiring());
            && Settled(SystemWiring(), s) && s.ticks == 0 && (forall d | 0 <= d < 4 :: s.processed[d] == [])
            && (forall c | 0 <= c < CPUS :: s.cpus[c].inService == -1 && s.cpus[c].irql == 0)
  {
    SystemWired();
    InitialLosesNothing(SystemWiring());
    hide Wired;
  }

  /** The whole of SystemInit's run: three ticks, every event processed by its own device's call, nothing left. */
  lemma SystemRuns()
    ensures WiringOk(SystemWiring()) && |SystemWiring().devices| == 4 && TurnsEnabled(SystemWiring(), TurnsFrom(0))
    ensures var s := TickedAll(SystemWiring(), Initial(SystemWiring()), TurnsFrom(0));
            && Settled(SystemWiring(), s) && s.ticks == 3
            && s.processed[0] == [] && s.processed[1] == [101, 106] && s.processed[2] == [102]
            && s.processed[3] == [103]
  {
    hide SystemWiring, WiringOk, Settled, Initial, Wired, TickedAll, TurnsFrom, AllValues;
    SystemStarts();
    LoopOk(SystemWiring(), 0);
    LoopValues(0);
    LoopTicks(Initial(SystemWiring()), 0);
    forall d: nat | d < 4
      ensures Settled(SystemWiring(), TickedAll(SystemWiring(), Initial(SystemWiring()), TurnsFrom(0)))
      ensures TickedAll(SystemWiring(), Initial(SystemWiring()), TurnsFrom(0)).processed[d]
           == Initial(SystemWiring()).processed[d] + AllValues(TurnsFrom(0), d)
    {
      TicksProcess(SystemWiring(), Initial(SystemWiring()), TurnsFrom(0), PRODUCERS, d);
    }
  }
}
