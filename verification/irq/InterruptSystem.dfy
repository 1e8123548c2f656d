/** The functions of BLUE_KERNEL/IRQ_KernelDeal.c that work on CPUs and devices in place, each proved against
    the operation of Delivery that it carries out. */
module InterruptSystems {
  import opened VectorScan
  import opened Delivery
  import opened DeviceBuffers
  import opened InterruptEffects

  /** A CPU with its pending vectors as the word the LAPIC keeps. */
  datatype Core = Core(pending: bv64, inService: int, irql: int, dpcs: seq<nat>)

  function Seen(core: Core): Cpu {
    Cpu(Vectors(core.pending), core.inService, core.irql, core.dpcs)
  }

  class InterruptSystem {
    const wiring: Wiring
    const bank: BufferBank
    const table: array<nat>
    var cores: seq<Core>
    var processed: seq<seq<int>>
    var ticks: nat

    ghost predicate Valid()
      reads this, bank, bank.Repr, table
    {
      && this !in bank.Repr && table !in bank.Repr && bank.Valid() && TableBuilt(table[..])
      && Shaped(wiring, State())
    }

    ghost function State(): System
      requires bank.Valid()
      reads this, bank, bank.Repr
    {
      System(seq(|cores|, c requires 0 <= c < |cores| reads this => Seen(cores[c])), bank.Contents(), processed, ticks)
    }

    constructor (wiring: Wiring, bank: BufferBank, table: array<nat>)
      requires WiringOk(wiring) && bank.Valid() && table !in bank.Repr && TableBuilt(table[..])
      requires bank.Contents() == seq(|wiring.devices|, d => [])
      ensures Valid() && this.wiring == wiring && this.bank == bank && this.table == table
      ensures State() == Initial(wiring) && NothingLost(wiring, State())
    {
      this.wiring, this.bank, this.table := wiring, bank, table;
      cores := seq(CPUS, c => Core(0, NO_VECTOR, PASSIVE_LEVEL, []));
      processed := seq(|wiring.devices|, d => []);
      ticks := 0;
      new;
      NoVectors();
    }

    method RaiseInterrupt(d: nat)
      requires Valid() && d < |wiring.devices|
      modifies this`cores
      ensures Valid() && State() == Raised(wiring, old(State()), d)
    {
      ghost var s := State();
      var dev := wiring.devices[d];
      if dev.useMsi {
        if dev.msiVector >= VECTORS {
          return;
        }
        SetPending(dev.msiCpu, dev.msiVector);
      } else if 0 <= dev.irqLine < IRQS {
        SetPending(wiring.routes[dev.irqLine].cpu, wiring.routes[dev.irqLine].vector);
      }
      assert State() == Raised(wiring, s, d);
    }

    method SetPending(c: nat, v: nat)
      requires Valid() && c < CPUS && v < VECTORS
      modifies this`cores
      ensures Valid()
      ensures State() == WithCpu(old(State()), c, old(State()).cpus[c].(pending := old(State()).cpus[c].pending + {v as int}))
    {
      ghost var s := State();
      SetVector(cores[c].pending, v);
      CpuShaped(wiring, s, c, s.cpus[c].(pending := s.cpus[c].pending + {v as int}));
      hide SetBit, Vectors, WiringOk;
      cores := cores[c := cores[c].(pending := SetBit(cores[c].pending, v))];
      assert State().cpus == s.cpus[c := s.cpus[c].(pending := s.cpus[c].pending + {v as int})];
    }

    method GenerateEvent(d: nat, value: int)
      requires Valid() && d < |wiring.devices|
      modifies this`cores, bank.Repr
      ensures Valid() && State() == Generated(wiring, old(State()), d, value)
    {
      ghost var s := State();
      hide Vectors, TargetOf, WiringOk;
      bank.Push(d, value);
      BuffersShaped(wiring, s, State());
      RaiseInterrupt(d);
    }

    /** Shapes do not depend on what the buffers hold. */
    lemma BuffersShaped(w: Wiring, s: System, s': System)
      requires Shaped(w, s) && s' == s.(buffers := s'.buffers, processed := s'.processed, ticks := s'.ticks)
      requires |s'.buffers| == |s.buffers| == |s'.processed|
      ensures Shaped(w, s')
    {
    }

    lemma CpuShaped(w: Wiring, s: System, c: nat, cpu: Cpu)
      requires Shaped(w, s) && c < CPUS && (forall v | v in cpu.pending :: 0 <= v < VECTORS)
      requires forall i | 0 <= i < |cpu.dpcs| :: cpu.dpcs[i] < |w.devices|
      ensures Shaped(w, WithCpu(s, c, cpu))
    {
    }

    /** LapicGetNextVector: the lowest pending vector moves into service. */
    method GetNextVector(c: nat) returns (v: int)
      requires Valid() && c < CPUS
      modifies this`cores
      ensures Valid()
      ensures var s := old(State());
              if s.cpus[c].pending == {} then v == NO_VECTOR && State() == s
              else
                && v in s.cpus[c].pending && 0 <= v < VECTORS && (forall q | q in s.cpus[c].pending :: v <= q)
                && State() == TakenFrom(s, c, v)
    {
      hide Vectors, ClearBit, FindLowestSetBit, Dispatched, WiringOk;
      ghost var s := State();
      var word := cores[c].pending;
      FindsLowest(word, table[..]);
      v := FindLowestSetBit(word, table[..]);
      if v == NO_VECTOR {
        return;
      }
      ClearVector(word, v);
      DispatchedTaken(wiring, s, c, v);
      cores := cores[c := cores[c].(pending := ClearBit(word, v), inService := v)];
      assert State().cpus == TakenFrom(s, c, v).cpus;
    }

    function RaisedIrql(irql: int, level: int): int {
      if level > irql then level else irql
    }

    /** DispatchInterrupt and the CommonInterruptEntry it calls. */
    method DispatchInterrupt(c: nat, v: int)
      requires Valid() && c < CPUS && 0 <= v < VECTORS && v !in State().cpus[c].pending
      modifies this`cores, this`ticks
      ensures Valid() && State() == Dispatched(wiring, old(State()), c, v)
    {
      ghost var s := State();
      ghost var target := Dispatched(wiring, s, c, v);
      hide Vectors, WiringOk;
      var oldIrql := cores[c].irql;
      cores := cores[c := cores[c].(irql := RaisedIrql(oldIrql, DEVICE_LEVEL), inService := v)];
      if wiring.idt[v] && wiring.isrs[v] != [] {
        match wiring.isrs[v][0]
        case Tick => ticks := ticks + 1;
        case Drain(d) => cores := cores[c := cores[c].(dpcs := cores[c].dpcs + [d])];
      }
      cores := cores[c := cores[c].(inService := NO_VECTOR, irql := oldIrql)];
      assert s.cpus[c].pending - {v} == s.cpus[c].pending;
      assert State().cpus == target.cpus;
    }

    /** ProcessDpcQueue, at DISPATCH_LEVEL. */
    method ProcessDpcQueue(c: nat)
      requires Valid() && c < CPUS
      modifies this`cores, this`processed, bank.Repr
      ensures Valid() && State() == Processed(wiring, old(State()), c)
    {
      ghost var s := State();
      hide Vectors, WiringOk, Finished;
      if cores[c].dpcs == [] {
        FinishedEmpty(wiring, s, c, cores[c].irql);
        return;
      }
      var oldIrql := cores[c].irql;
      SetIrql(c, RaisedIrql(oldIrql, DISPATCH_LEVEL));
      FinishedAtAnyLevel(wiring, s, c, RaisedIrql(oldIrql, DISPATCH_LEVEL), oldIrql);
      while cores[c].dpcs != []
        invariant Valid() && Finished(wiring, State(), c, oldIrql) == Processed(wiring, s, c)
        decreases |State().cpus[c].dpcs|
      {
        FinishedStep(wiring, State(), c, oldIrql);
        RunDpc(c);
      }
      FinishedEmpty(wiring, State(), c, oldIrql);
      SetIrql(c, oldIrql);
    }

    method SetIrql(c: nat, level: int)
      requires Valid() && c < CPUS
      modifies this`cores
      ensures Valid() && State() == WithCpu(old(State()), c, old(State()).cpus[c].(irql := level))
    {
      ghost var s := State();
      CpuShaped(wiring, s, c, s.cpus[c].(irql := level));
      hide Vectors, WiringOk;
      cores := cores[c := cores[c].(irql := level)];
      assert State().cpus == s.cpus[c := s.cpus[c].(irql := level)];
    }

    /** Take the first deferred call off the list and run it. */
    method RunDpc(c: nat)
      requires Valid() && c < CPUS && cores[c].dpcs != []
      modifies this`cores, this`processed, bank.Repr
      ensures Valid() && State() == OneDrained(wiring, old(State()), c)
    {
      ghost var s := State();
      ghost var target := OneDrained(wiring, s, c);
      hide Vectors, WiringOk;
      var d := cores[c].dpcs[0];
      cores := cores[c := cores[c].(dpcs := cores[c].dpcs[1..])];
      var values := bank.DrainOne(d);
      processed := processed[d := processed[d] + values];
      assert State().cpus == target.cpus;
    }

    method CpuStep(c: nat)
      requires Valid() && c < CPUS
      modifies this`cores, this`ticks, this`processed, bank.Repr
      ensures Valid() && State() == CpuStepped(wiring, old(State()), c)
    {
      ghost var s := State();
      var more := true;
      hide Vectors, ServedAll, Processed, Shaped;
      while more
        invariant Valid() && ServedAll(wiring, State(), c) == ServedAll(wiring, s, c)
        invariant !more ==> ServedAll(wiring, State(), c) == State()
        decreases |State().cpus[c].pending|, more
      {
        more := ServeNext(c);
      }
      ProcessDpcQueue(c);
    }

    /** One turn of CpuStep's loop. */
    method ServeNext(c: nat) returns (served: bool)
      requires Valid() && c < CPUS
      modifies this`cores, this`ticks
      ensures Valid() && ServedAll(wiring, State(), c) == ServedAll(wiring, old(State()), c)
      ensures |State().cpus| == CPUS
      ensures if served then |State().cpus[c].pending| < |old(State()).cpus[c].pending|
              else State() == old(State()) && ServedAll(wiring, State(), c) == State()
    {
      ghost var before := State();
      hide Vectors, WiringOk, ServedAll, Dispatched;
      var v := GetNextVector(c);
      served := v != NO_VECTOR;
      if served {
        Taken(wiring, before, c, v);
        DispatchInterrupt(c, v);
      } else {
        AllServed(wiring, before, c);
      }
    }
  }

  // ----- Deferred calls one by one -----

  function OneDrained(w: Wiring, s: System, c: nat): (s': System)
    requires Shaped(w, s) && c < CPUS && s.cpus[c].dpcs != []
    ensures Shaped(w, s')
  {
    var d := s.cpus[c].dpcs[0];
    Drained(WithCpu(s, c, s.cpus[c].(dpcs := s.cpus[c].dpcs[1..])), d)
  }

  /** What is left to do: run the deferred calls still listed, then return to an IRQL. */
  function Finished(w: Wiring, s: System, c: nat, irql: int): System
    requires Shaped(w, s) && c < CPUS
  {
    var s1 := DrainedList(s, s.cpus[c].dpcs);
    WithCpu(s1, c, s1.cpus[c].(dpcs := [], irql := irql))
  }

  lemma {:induction false} DrainIgnoresCpus(s: System, s': System, ds: seq<nat>)
    requires |s.buffers| == |s.processed| && forall i | 0 <= i < |ds| :: ds[i] < |s.buffers|
    requires s' == s.(cpus := s'.cpus)
    ensures DrainedList(s', ds) == DrainedList(s, ds).(cpus := s'.cpus)
    decreases |ds|
  {
    if ds != [] {
      DrainIgnoresCpus(Drained(s, ds[0]), Drained(s', ds[0]), ds[1..]);
    }
  }

  lemma FinishedAtAnyLevel(w: Wiring, s: System, c: nat, level: int, irql: int)
    requires Shaped(w, s) && c < CPUS && irql == s.cpus[c].irql
    requires Shaped(w, WithCpu(s, c, s.cpus[c].(irql := level)))
    ensures Finished(w, WithCpu(s, c, s.cpus[c].(irql := level)), c, irql) == Processed(w, s, c)
  {
    var s' := WithCpu(s, c, s.cpus[c].(irql := level));
    DrainIgnoresCpus(s, s', s.cpus[c].dpcs);
    hide DrainedList;
    assert s'.cpus[c := s'.cpus[c].(dpcs := [], irql := irql)] == s.cpus[c := s.cpus[c].(dpcs := [])];
  }

  lemma FinishedStep(w: Wiring, s: System, c: nat, irql: int)
    requires Shaped(w, s) && c < CPUS && s.cpus[c].dpcs != []
    ensures Finished(w, OneDrained(w, s, c), c, irql) == Finished(w, s, c, irql)
    ensures |OneDrained(w, s, c).cpus[c].dpcs| < |s.cpus[c].dpcs|
  {
    var ds := s.cpus[c].dpcs;
    var s' := OneDrained(w, s, c);
    DrainIgnoresCpus(Drained(s, ds[0]), s', ds[1..]);
    assert DrainedList(s, ds) == DrainedList(Drained(s, ds[0]), ds[1..]);
    hide DrainedList;
    assert s'.cpus[c := s'.cpus[c].(dpcs := [], irql := irql)] == s.cpus[c := s.cpus[c].(dpcs := [], irql := irql)];
  }

  lemma FinishedEmpty(w: Wiring, s: System, c: nat, irql: int)
    requires Shaped(w, s) && c < CPUS && s.cpus[c].dpcs == []
    ensures Finished(w, s, c, irql) == WithCpu(s, c, s.cpus[c].(irql := irql))
    ensures Processed(w, s, c) == s
  {
    assert s.cpus[c := s.cpus[c].(dpcs := [])] == s.cpus;
  }

  // ----- Vectors one by one -----

  /** After LapicGetNextVector: the vector is no longer pending but in service. */
  function TakenFrom(s: System, c: nat, v: int): System
    requires c < |s.cpus|
  {
    WithCpu(s, c, s.cpus[c].(pending := s.cpus[c].pending - {v}, inService := v))
  }

  /** Serving the lowest pending vector first is serving them all in order. */
  lemma Taken(w: Wiring, s: System, c: nat, v: int)
    requires Shaped(w, s) && c < CPUS && v in s.cpus[c].pending && 0 <= v < VECTORS
    requires forall q | q in s.cpus[c].pending :: v <= q
    ensures Shaped(w, TakenFrom(s, c, v))
    ensures Dispatched(w, TakenFrom(s, c, v), c, v) == Dispatched(w, s, c, v)
    ensures ServedAll(w, Dispatched(w, s, c, v), c) == ServedAll(w, s, c)
    ensures |Dispatched(w, s, c, v).cpus[c].pending| < |s.cpus[c].pending|
  {
    var p := s.cpus[c].pending;
    AscendingHead(p, v, 0);
    DispatchedTaken(w, s, c, v);
    hide WiringOk, Ascending, Dispatched;
    assert Ascending(p, 0)[1..] == Ascending(p - {v}, 0);
  }

  lemma DispatchedTaken(w: Wiring, s: System, c: nat, v: int)
    requires Shaped(w, s) && c < CPUS && v in s.cpus[c].pending && 0 <= v < VECTORS
    ensures Shaped(w, TakenFrom(s, c, v))
    ensures Dispatched(w, TakenFrom(s, c, v), c, v) == Dispatched(w, s, c, v)
    ensures Dispatched(w, s, c, v).cpus[c].pending == s.cpus[c].pending - {v}
  {
    var p := s.cpus[c].pending;
    hide WiringOk;
    assert p - {v} - {v} == p - {v};
  }

  lemma {:induction false} AscendingHead(p: set<int>, v: int, from: nat)
    requires from <= v < VECTORS && v in p && forall q | q in p :: v <= q
    ensures Ascending(p, from) == [v] + Ascending(p - {v}, from)
    decreases VECTORS - from
  {
    if from == v {
      AscendingAbove(p, v, from + 1);
      assert [] + Ascending(p - {v}, from + 1) == Ascending(p - {v}, from + 1);
    } else {
      AscendingHead(p, v, from + 1);
    }
  }

  lemma {:induction false} AscendingAbove(p: set<int>, v: int, from: nat)
    requires v < from <= VECTORS
    ensures Ascending(p - {v}, from) == Ascending(p, from)
    decreases VECTORS - from
  {
    if from < VECTORS {
      AscendingAbove(p, v, from + 1);
    }
  }

  lemma AllServed(w: Wiring, s: System, c: nat)
    requires Shaped(w, s) && c < CPUS && s.cpus[c].pending == {}
    ensures ServedAll(w, s, c) == s
  {
    AscendingElements(s.cpus[c].pending);
  }

  /** The timer: a device that interrupts when its counter reaches its interval. */
  class IntervalTimer {
    const system: InterruptSystem
    const device: nat
    const interval: nat
    var counter: nat

    ghost predicate Valid()
      reads this, system, system.bank, system.bank.Repr, system.table
    {
      this !in system.bank.Repr && system.Valid() && device < |system.wiring.devices|
    }

    constructor (system: InterruptSystem, device: nat, interval: nat)
      requires system.Valid() && device < |system.wiring.devices|
      ensures Valid() && this.system == system && this.device == device && this.interval == interval && counter == 0
    {
      this.system, this.device, this.interval, counter := system, device, interval, 0;
    }

    method Step()
      requires Valid()
      modifies this`counter, system`cores
      ensures Valid()
      ensures var (next, fires) := TimerStepped(old(counter), interval);
              && counter == next
              && system.State() == if fires then Raised(system.wiring, old(system.State()), device)
                                   else old(system.State())
    {
      hide Raised, WiringOk;
      counter := counter + 1;
      if counter >= interval {
        counter := 0;
        system.RaiseInterrupt(device);
      }
    }
  }
}
