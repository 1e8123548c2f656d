/** Interrupt delivery in BLUE_KERNEL/IRQ_KernelDeal.c: device buffers, pending vectors per CPU, service
    routines that queue deferred calls, and deferred calls that drain buffers. */
module Delivery {
  import opened VectorScan

  const CPUS := 4
  const IRQS := 24
  const IDT_SIZE := 256

  /** One slot of the sixteen is kept empty. */
  const CAPACITY := 15

  const NO_VECTOR := -1
  const PASSIVE_LEVEL := 0
  const DISPATCH_LEVEL := 1
  const DEVICE_LEVEL := 2

  datatype Device = Device(useMsi: bool, msiVector: nat, msiCpu: nat, irqLine: int)

  datatype IoApicRoute = IoApicRoute(vector: nat, cpu: nat)

  /** A service routine: the timer's counts, the others queue a deferred call that drains their device. */
  datatype Isr = Tick | Drain(device: nat)

  /** What is set up once: devices, IOAPIC routes, which vectors have an entry in the interrupt descriptor
      table, and the service routines of each vector, latest registered first. */
  datatype Wiring = Wiring(
    devices: seq<Device>, routes: seq<IoApicRoute>, idt: seq<bool>, isrs: seq<seq<Isr>>)

  ghost predicate WiringOk(w: Wiring) {
    && |w.routes| == IRQS && |w.idt| == |w.isrs| == IDT_SIZE
    && (forall d | 0 <= d < |w.devices| :: w.devices[d].useMsi ==> w.devices[d].msiCpu < CPUS)
    && (forall i | 0 <= i < IRQS :: w.routes[i].vector < VECTORS && w.routes[i].cpu < CPUS)
    && (forall v | 0 <= v < IDT_SIZE && w.isrs[v] != [] :: w.isrs[v][0].Drain? ==> w.isrs[v][0].device < |w.devices|)
  }

  datatype Cpu = Cpu(pending: set<int>, inService: int, irql: int, dpcs: seq<nat>)

  /** Buffers hold values not yet processed, oldest first; processed is what the deferred calls consumed. */
  datatype System = System(cpus: seq<Cpu>, buffers: seq<seq<int>>, processed: seq<seq<int>>, ticks: nat)

  ghost predicate Shaped(w: Wiring, s: System) {
    && WiringOk(w) && |s.cpus| == CPUS && |s.buffers| == |s.processed| == |w.devices|
    && (forall c | 0 <= c < CPUS :: forall v | v in s.cpus[c].pending :: 0 <= v < VECTORS)
    && (forall c, i | 0 <= c < CPUS && 0 <= i < |s.cpus[c].dpcs| :: s.cpus[c].dpcs[i] < |w.devices|)
  }

  // ----- Raising -----

  datatype Target = Nobody | To(cpu: nat, vector: nat)

  /** Where DeviceRaiseInterrupt sends a device's interrupt: an MSI vector of 64 or more is dropped. */
  function TargetOf(w: Wiring, d: nat): (t: Target)
    requires WiringOk(w) && d < |w.devices|
    ensures t.To? ==> t.cpu < CPUS && t.vector < VECTORS
  {
    var dev := w.devices[d];
    if dev.useMsi then if dev.msiVector >= VECTORS then Nobody else To(dev.msiCpu, dev.msiVector)
    else if 0 <= dev.irqLine < IRQS then To(w.routes[dev.irqLine].cpu, w.routes[dev.irqLine].vector)
    else Nobody
  }

  function WithCpu(s: System, c: nat, cpu: Cpu): System
    requires c < |s.cpus|
  {
    s.(cpus := s.cpus[c := cpu])
  }

  function Raised(w: Wiring, s: System, d: nat): (s': System)
    requires Shaped(w, s) && d < |w.devices|
    ensures Shaped(w, s')
  {
    match TargetOf(w, d)
    case Nobody => s
    case To(c, v) => WithCpu(s, c, s.cpus[c].(pending := s.cpus[c].pending + {v as int}))
  }

  /** RB_Push: a value that finds the buffer full is lost. */
  function Pushed(buffer: seq<int>, value: int): seq<int> {
    if |buffer| >= CAPACITY then buffer else buffer + [value]
  }

  /** DeviceGenerateEvent */
  function Generated(w: Wiring, s: System, d: nat, value: int): (s': System)
    requires Shaped(w, s) && d < |w.devices|
    ensures Shaped(w, s')
  {
    Raised(w, s.(buffers := s.buffers[d := Pushed(s.buffers[d], value)]), d)
  }

  // ----- Serving -----

  datatype Handler = Unhandled | Runs(isr: Isr)

  /** The routine that runs for a vector: the first of its list, since every routine reports HANDLED. */
  function HandlerOf(w: Wiring, v: int): Handler
    requires WiringOk(w) && 0 <= v < IDT_SIZE
  {
    if w.idt[v] && w.isrs[v] != [] then Runs(w.isrs[v][0]) else Unhandled
  }

  /** LapicGetNextVector followed by DispatchInterrupt for a pending vector. */
  function Dispatched(w: Wiring, s: System, c: nat, v: int): (s': System)
    requires Shaped(w, s) && c < CPUS && 0 <= v < VECTORS
    ensures Shaped(w, s')
  {
    var cpu := s.cpus[c].(pending := s.cpus[c].pending - {v}, inService := NO_VECTOR);
    match HandlerOf(w, v)
    case Unhandled => WithCpu(s, c, cpu)
    case Runs(Tick) => WithCpu(s, c, cpu).(ticks := s.ticks + 1)
    case Runs(Drain(d)) => WithCpu(s, c, cpu.(dpcs := cpu.dpcs + [d]))
  }

  /** The vectors of a set from v on, in ascending order. */
  function Ascending(p: set<int>, v: nat): (r: seq<int>)
    requires v <= VECTORS
    ensures forall i | 0 <= i < |r| :: v <= r[i] < VECTORS
    decreases VECTORS - v
  {
    if v == VECTORS then [] else (if v as int in p then [v as int] else []) + Ascending(p, v + 1)
  }

  predicate Sorted(s: seq<int>) {
    forall i, j | 0 <= i < j < |s| :: s[i] < s[j]
  }

  lemma ConsSorted(x: int, s: seq<int>)
    requires Sorted(s) && forall i | 0 <= i < |s| :: x < s[i]
    ensures Sorted([x] + s)
  {
  }

  lemma {:induction false} AscendingSorted(p: set<int>, v: nat)
    requires v <= VECTORS
    ensures Sorted(Ascending(p, v))
    decreases VECTORS - v
  {
    if v < VECTORS {
      AscendingSorted(p, v + 1);
      var rest := Ascending(p, v + 1);
      if v as int in p {
        ConsSorted(v, rest);
      } else {
        assert [] + rest == rest;
      }
      hide Sorted;
    }
  }

  function ServedList(w: Wiring, s: System, c: nat, vs: seq<int>): (s': System)
    requires Shaped(w, s) && c < CPUS && forall i | 0 <= i < |vs| :: 0 <= vs[i] < VECTORS
    ensures Shaped(w, s')
    decreases |vs|
  {
    if vs == [] then s else ServedList(w, Dispatched(w, s, c, vs[0]), c, vs[1..])
  }

  /** Every pending vector of a CPU, lowest first. */
  function ServedAll(w: Wiring, s: System, c: nat): (s': System)
    requires Shaped(w, s) && c < CPUS
    ensures Shaped(w, s')
  {
    ServedList(w, s, c, Ascending(s.cpus[c].pending, 0))
  }

  /** The deferred call of a device: everything in its buffer, oldest first. */
  function Drained(s: System, d: nat): System
    requires d < |s.buffers| == |s.processed|
  {
    s.(buffers := s.buffers[d := []], processed := s.processed[d := s.processed[d] + s.buffers[d]])
  }

  function DrainedList(s: System, ds: seq<nat>): (s': System)
    requires |s.buffers| == |s.processed| && forall i | 0 <= i < |ds| :: ds[i] < |s.buffers|
    ensures s' == s.(buffers := s'.buffers, processed := s'.processed)
    ensures |s'.buffers| == |s'.processed| == |s.buffers|
    decreases |ds|
  {
    if ds == [] then s else DrainedList(Drained(s, ds[0]), ds[1..])
  }

  /** ProcessDpcQueue */
  function Processed(w: Wiring, s: System, c: nat): (s': System)
    requires Shaped(w, s) && c < CPUS
    ensures Shaped(w, s')
  {
    var s1 := DrainedList(s, s.cpus[c].dpcs);
    WithCpu(s1, c, s1.cpus[c].(dpcs := []))
  }

  function CpuStepped(w: Wiring, s: System, c: nat): (s': System)
    requires Shaped(w, s) && c < CPUS
    ensures Shaped(w, s')
  {
    Processed(w, ServedAll(w, s, c), c)
  }

  // ----- What a CPU step does -----

  function QueuedOne(w: Wiring, v: int): (ds: seq<nat>)
    requires WiringOk(w) && 0 <= v < IDT_SIZE
    ensures forall d :: d in ds <==> HandlerOf(w, v) == Runs(Drain(d))
  {
    match HandlerOf(w, v)
    case Runs(Drain(d)) => [d]
    case _ => []
  }

  /** The deferred calls a list of vectors queues, in order. */
  function QueuedBy(w: Wiring, vs: seq<int>): (ds: seq<nat>)
    requires WiringOk(w) && forall i | 0 <= i < |vs| :: 0 <= vs[i] < VECTORS
    ensures forall d | d in ds :: exists v | v in vs :: HandlerOf(w, v) == Runs(Drain(d))
    ensures forall v, d: nat | v in vs && HandlerOf(w, v) == Runs(Drain(d)) :: d in ds
    decreases |vs|
  {
    if vs == [] then []
    else
      assert vs[0] in vs;
      assert forall v | v in vs[1..] :: v in vs;
      QueuedOne(w, vs[0]) + QueuedBy(w, vs[1..])
  }

  function Elements(vs: seq<int>): set<int> {
    set v | v in vs
  }

  lemma {:induction false} AscendingMembers(p: set<int>, v: nat, x: int)
    requires v <= VECTORS
    ensures x in Ascending(p, v) <==> x in p && v <= x < VECTORS
    decreases VECTORS - v
  {
    if v < VECTORS {
      AscendingMembers(p, v + 1, x);
    }
  }

  /** The same members, and so the same set. */
  lemma SameMembers(p: set<int>, vs: seq<int>)
    requires forall i | 0 <= i < |vs| :: vs[i] in p
    requires forall x | x in p :: x in vs
    ensures Elements(vs) == p && (vs == [] <==> p == {})
  {
    forall x ensures x in Elements(vs) <==> x in p {
      if x in vs {
        var i :| 0 <= i < |vs| && vs[i] == x;
      }
    }
    if vs != [] {
      assert vs[0] in p;
    }
    if vs == [] {
      assert Elements(vs) == {};
    }
  }

  lemma AscendingElements(p: set<int>)
    requires forall v | v in p :: 0 <= v < VECTORS
    ensures Elements(Ascending(p, 0)) == p && (Ascending(p, 0) == [] <==> p == {})
  {
    hide Ascending, Elements;
    var vs := Ascending(p, 0);
    forall i | 0 <= i < |vs| ensures vs[i] in p {
      AscendingMembers(p, 0, vs[i]);
    }
    forall x | x in p ensures x in vs {
      AscendingMembers(p, 0, x);
    }
    SameMembers(p, vs);
  }

  lemma {:induction false} ServedEffect(w: Wiring, s: System, c: nat, vs: seq<int>)
    requires Shaped(w, s) && c < CPUS && forall i | 0 <= i < |vs| :: 0 <= vs[i] < VECTORS
    ensures var s' := ServedList(w, s, c, vs);
            && s'.buffers == s.buffers && s'.processed == s.processed
            && (forall k | 0 <= k < CPUS && k != c :: s'.cpus[k] == s.cpus[k])
            && s'.cpus[c].dpcs == s.cpus[c].dpcs + QueuedBy(w, vs)
            && s'.cpus[c].pending == s.cpus[c].pending - Elements(vs)
            && s'.cpus[c].irql == s.cpus[c].irql
            && s'.cpus[c].inService == if vs == [] then s.cpus[c].inService else NO_VECTOR
    decreases |vs|
  {
    hide Dispatched, HandlerOf, WiringOk, Elements, QueuedBy, QueuedOne;
    if vs != [] {
      DispatchEffect(w, s, c, vs[0]);
      ServedEffect(w, Dispatched(w, s, c, vs[0]), c, vs[1..]);
      FirstQueued(w, s.cpus[c].dpcs, vs);
      FirstElement(s.cpus[c].pending, vs);
    } else {
      NothingQueued(w, s.cpus[c].dpcs, s.cpus[c].pending);
    }
  }

  /** One vector: it leaves the pending set and queues at most its own deferred call. */
  lemma DispatchEffect(w: Wiring, s: System, c: nat, v: int)
    requires Shaped(w, s) && c < CPUS && 0 <= v < VECTORS
    ensures var s' := Dispatched(w, s, c, v);
            && s'.buffers == s.buffers && s'.processed == s.processed
            && (forall k | 0 <= k < CPUS && k != c :: s'.cpus[k] == s.cpus[k])
            && s'.cpus[c].dpcs == s.cpus[c].dpcs + QueuedOne(w, v)
            && s'.cpus[c].pending == s.cpus[c].pending - {v}
            && s'.cpus[c].irql == s.cpus[c].irql && s'.cpus[c].inService == NO_VECTOR
  {
    hide HandlerOf, WiringOk;
  }

  lemma FirstQueued(w: Wiring, before: seq<nat>, vs: seq<int>)
    requires WiringOk(w) && vs != [] && forall i | 0 <= i < |vs| :: 0 <= vs[i] < VECTORS
    ensures before + QueuedOne(w, vs[0]) + QueuedBy(w, vs[1..]) == before + QueuedBy(w, vs)
  {
    hide HandlerOf, WiringOk, QueuedOne;
  }

  lemma FirstElement(p: set<int>, vs: seq<int>)
    requires vs != []
    ensures p - {vs[0]} - Elements(vs[1..]) == p - Elements(vs)
  {
    assert Elements(vs) == {vs[0]} + Elements(vs[1..]);
  }

  lemma NothingQueued(w: Wiring, before: seq<nat>, p: set<int>)
    requires WiringOk(w)
    ensures before + QueuedBy(w, []) == before && p - Elements([]) == p
  {
    hide WiringOk;
  }

  lemma {:induction false} DrainEffect(s: System, ds: seq<nat>, d: nat)
    requires |s.buffers| == |s.processed| && d < |s.buffers| && forall i | 0 <= i < |ds| :: ds[i] < |s.buffers|
    ensures var s' := DrainedList(s, ds);
            && s'.buffers[d] == (if d in ds then [] else s.buffers[d])
            && s'.processed[d] == s.processed[d] + (if d in ds then s.buffers[d] else [])
    decreases |ds|
  {
    if ds != [] {
      DrainEffect(Drained(s, ds[0]), ds[1..], d);
      assert ds == [ds[0]] + ds[1..];
    }
  }

  /** Device d's deferred call runs in this step: already queued, or queued by a pending vector. */
  ghost predicate DrainsIn(w: Wiring, s: System, c: nat, d: nat)
    requires Shaped(w, s) && c < CPUS
  {
    d in s.cpus[c].dpcs || exists v | v in s.cpus[c].pending :: HandlerOf(w, v) == Runs(Drain(d))
  }

  lemma ServedCpus(w: Wiring, s: System, c: nat)
    requires Shaped(w, s) && c < CPUS
    ensures var s' := ServedAll(w, s, c);
            && s'.buffers == s.buffers && s'.processed == s.processed && |s'.cpus| == |s.cpus| == CPUS
            && (forall k | 0 <= k < CPUS && k != c :: s'.cpus[k] == s.cpus[k])
            && s'.cpus[c] == Cpu({}, if s.cpus[c].pending == {} then s.cpus[c].inService else NO_VECTOR,
                                 s.cpus[c].irql, s.cpus[c].dpcs + QueuedBy(w, Ascending(s.cpus[c].pending, 0)))
  {
    var p := s.cpus[c].pending;
    var vs := Ascending(p, 0);
    ServedEffect(w, s, c, vs);
    AscendingElements(p);
    hide ServedList, HandlerOf, WiringOk, Elements, Ascending, QueuedBy;
    assert p - p == {};
  }

  lemma ServedAllEffect(w: Wiring, s: System, c: nat, d: nat)
    requires Shaped(w, s) && c < CPUS && d < |w.devices|
    ensures d in ServedAll(w, s, c).cpus[c].dpcs <==> DrainsIn(w, s, c, d)
  {
    ServedCpus(w, s, c);
    QueuedIff(w, s.cpus[c].pending, d);
    hide ServedAll, HandlerOf, WiringOk, Ascending, QueuedBy;
  }

  lemma QueuedIff(w: Wiring, p: set<int>, d: nat)
    requires WiringOk(w) && forall v | v in p :: 0 <= v < VECTORS
    ensures d in QueuedBy(w, Ascending(p, 0)) <==> exists v | v in p :: HandlerOf(w, v) == Runs(Drain(d))
  {
    hide HandlerOf, WiringOk, QueuedBy;
    var vs := Ascending(p, 0);
    AscendingElements(p);
    assert forall v | v in p :: v in Elements(vs);
    assert forall v | v in vs :: v in Elements(vs);
  }

  lemma ProcessedEffect(w: Wiring, s: System, c: nat, d: nat)
    requires Shaped(w, s) && c < CPUS && d < |w.devices|
    ensures var s' := Processed(w, s, c);
            && (forall k | 0 <= k < CPUS && k != c :: s'.cpus[k] == s.cpus[k])
            && s'.cpus[c] == s.cpus[c].(dpcs := [])
            && s'.buffers[d] == (if d in s.cpus[c].dpcs then [] else s.buffers[d])
            && s'.processed[d] == s.processed[d] + (if d in s.cpus[c].dpcs then s.buffers[d] else [])
  {
    DrainEffect(s, s.cpus[c].dpcs, d);
    hide DrainedList;
  }

  /** A step serves every pending vector of its CPU and then every deferred call; it restores the IRQL and
      touches no other CPU. A device's buffer is emptied, in order, or not touched. */
  lemma StepEffect(w: Wiring, s: System, c: nat, d: nat)
    requires Shaped(w, s) && c < CPUS && d < |w.devices|
    ensures var s' := CpuStepped(w, s, c);
            && s'.cpus[c].pending == {} && s'.cpus[c].dpcs == [] && s'.cpus[c].irql == s.cpus[c].irql
            && s'.cpus[c].inService == (if s.cpus[c].pending == {} then s.cpus[c].inService else NO_VECTOR)
            && (forall k | 0 <= k < CPUS && k != c :: s'.cpus[k] == s.cpus[k])
            && s'.buffers[d] == (if DrainsIn(w, s, c, d) then [] else s.buffers[d])
            && s'.processed[d] == s.processed[d] + (if DrainsIn(w, s, c, d) then s.buffers[d] else [])
  {
    ServedCpus(w, s, c);
    ServedAllEffect(w, s, c, d);
    hide ServedAll, DrainsIn, WiringOk;
    ProcessedEffect(w, ServedAll(w, s, c), c, d);
    hide Processed;
  }

  /** After a step the buffer of a device is empty exactly when it was empty before or its deferred call ran. */
  lemma DrainedIff(w: Wiring, s: System, c: nat, d: nat)
    requires Shaped(w, s) && c < CPUS && d < |w.devices|
    ensures CpuStepped(w, s, c).buffers[d] == [] <==> s.buffers[d] == [] || DrainsIn(w, s, c, d)
  {
    StepEffect(w, s, c, d);
  }

  // ----- No lost event -----

  /** The routine that runs for a device's vector drains that device. */
  ghost predicate Serves(w: Wiring, d: nat)
    requires WiringOk(w) && d < |w.devices|
  {
    var t := TargetOf(w, d);
    t.To? && HandlerOf(w, t.vector) == Runs(Drain(d))
  }

  /** Every device that produces values is drained by its own vector's routine; others may only interrupt. */
  ghost predicate Wired(w: Wiring, producers: set<nat>)
    requires WiringOk(w)
  {
    forall d | d in producers :: d < |w.devices| && Serves(w, d)
  }

  /** Between CPU steps a value waiting in a buffer has its vector pending, and no deferred call waits. */
  ghost predicate NothingLost(w: Wiring, s: System)
    requires Shaped(w, s)
  {
    && (forall d | 0 <= d < |w.devices| && s.buffers[d] != [] ::
          var t := TargetOf(w, d); t.To? && t.vector as int in s.cpus[t.cpu].pending)
    && (forall c | 0 <= c < CPUS :: s.cpus[c].dpcs == [])
  }

  /** Only producers have values waiting. */
  ghost predicate OnlyFrom(s: System, producers: set<nat>) {
    forall d: nat | d < |s.buffers| && d !in producers :: s.buffers[d] == []
  }

  lemma GenerateKeeps(w: Wiring, s: System, d: nat, value: int)
    requires Shaped(w, s) && NothingLost(w, s) && d < |w.devices|
    ensures NothingLost(w, Generated(w, s, d, value)) <==> TargetOf(w, d).To?
  {
    var s' := Generated(w, s, d, value);
    assert s'.buffers[d] != [];
  }

  lemma RaiseKeeps(w: Wiring, s: System, d: nat)
    requires Shaped(w, s) && NothingLost(w, s) && d < |w.devices|
    ensures NothingLost(w, Raised(w, s, d))
  {
  }

  /** A step loses nothing exactly when it drains every waiting device whose vector its CPU takes. */
  lemma StepKeepsIff(w: Wiring, s: System, c: nat)
    requires Shaped(w, s) && NothingLost(w, s) && c < CPUS
    ensures NothingLost(w, CpuStepped(w, s, c)) <==>
            forall d: nat | d < |w.devices| && s.buffers[d] != [] && TargetOf(w, d).cpu == c :: DrainsIn(w, s, c, d)
  {
    hide CpuStepped, WiringOk, DrainsIn, TargetOf;
    var s' := CpuStepped(w, s, c);
    StepClears(w, s, c);
    forall d: nat | d < |w.devices|
      ensures s'.buffers[d] == if DrainsIn(w, s, c, d) then [] else s.buffers[d]
    {
      StepEffect(w, s, c, d);
    }
  }

  lemma StepKeeps(w: Wiring, s: System, c: nat, producers: set<nat>)
    requires Shaped(w, s) && NothingLost(w, s) && Wired(w, producers) && OnlyFrom(s, producers) && c < CPUS
    ensures NothingLost(w, CpuStepped(w, s, c)) && OnlyFrom(CpuStepped(w, s, c), producers)
  {
    hide CpuStepped, WiringOk, TargetOf, HandlerOf;
    StepKeepsIff(w, s, c);
    forall d: nat | d < |w.devices| && s.buffers[d] != [] && TargetOf(w, d).cpu == c ensures DrainsIn(w, s, c, d) {
      assert Serves(w, d);
    }
    forall d: nat | d < |w.devices| && d !in producers ensures CpuStepped(w, s, c).buffers[d] == [] {
      StepEffect(w, s, c, d);
    }
  }

  /** On the CPUs themselves. */
  lemma StepClears(w: Wiring, s: System, c: nat)
    requires Shaped(w, s) && c < CPUS
    ensures var s' := CpuStepped(w, s, c);
            && (forall k | 0 <= k < CPUS && k != c :: s'.cpus[k] == s.cpus[k])
            && s'.cpus[c].pending == {} && s'.cpus[c].dpcs == []
  {
    ServedCpus(w, s, c);
    hide ServedAll, WiringOk, QueuedBy, Ascending, DrainedList;
    ProcessedCpus(w, ServedAll(w, s, c), c);
    hide Processed;
  }

  lemma ProcessedCpus(w: Wiring, s: System, c: nat)
    requires Shaped(w, s) && c < CPUS
    ensures var s' := Processed(w, s, c);
            && (forall k | 0 <= k < CPUS && k != c :: s'.cpus[k] == s.cpus[k])
            && s'.cpus[c] == s.cpus[c].(dpcs := [])
  {
    hide DrainedList, WiringOk;
  }

  // ----- Runs -----

  datatype Operation = Generate(device: nat, value: int) | Raise(device: nat) | Step(cpu: nat)

  predicate Enabled(w: Wiring, op: Operation) {
    match op
    case Generate(d, _) => d < |w.devices|
    case Raise(d) => d < |w.devices|
    case Step(c) => c < CPUS
  }

  function Apply(w: Wiring, s: System, op: Operation): (s': System)
    requires Shaped(w, s) && Enabled(w, op)
    ensures Shaped(w, s')
  {
    match op
    case Generate(d, value) => Generated(w, s, d, value)
    case Raise(d) => Raised(w, s, d)
    case Step(c) => CpuStepped(w, s, c)
  }

  predicate AllEnabled(w: Wiring, ops: seq<Operation>) {
    forall i | 0 <= i < |ops| :: Enabled(w, ops[i])
  }

  function Run(w: Wiring, s: System, ops: seq<Operation>): (s': System)
    requires Shaped(w, s) && AllEnabled(w, ops)
    ensures Shaped(w, s')
    decreases |ops|
  {
    if ops == [] then s else Run(w, Apply(w, s, ops[0]), ops[1..])
  }

  function AcceptedBy(s: System, op: Operation, d: nat): seq<int>
    requires d < |s.buffers|
  {
    if op.Generate? && op.device == d && |s.buffers[d]| < CAPACITY then [op.value] else []
  }

  /** The values a device's buffer accepts over a run: those that did not find it full. */
  function Accepted(w: Wiring, s: System, ops: seq<Operation>, d: nat): seq<int>
    requires Shaped(w, s) && AllEnabled(w, ops) && d < |w.devices|
    decreases |ops|
  {
    if ops == [] then []
    else AcceptedBy(s, ops[0], d) + Accepted(w, Apply(w, s, ops[0]), ops[1..], d)
  }

  /** Over every run, values are processed in the order accepted, each once: what was processed, followed by
      what still waits, is what had been before, followed by what was accepted. */
  lemma {:induction false} RunConserves(w: Wiring, s: System, ops: seq<Operation>, d: nat)
    requires Shaped(w, s) && AllEnabled(w, ops) && d < |w.devices|
    ensures var s' := Run(w, s, ops);
            s'.processed[d] + s'.buffers[d] == s.processed[d] + s.buffers[d] + Accepted(w, s, ops, d)
    decreases |ops|
  {
    hide TargetOf, CpuStepped, WiringOk, Raised, AcceptedBy;
    if ops != [] {
      var s1 := Apply(w, s, ops[0]);
      ApplyConserves(w, s, ops[0], d);
      RunConserves(w, s1, ops[1..], d);
      Reassociate(s.processed[d] + s.buffers[d], AcceptedBy(s, ops[0], d), Accepted(w, s1, ops[1..], d));
    }
  }

  lemma Reassociate(a: seq<int>, b: seq<int>, c: seq<int>)
    ensures (a + b) + c == a + (b + c)
  {
  }

  lemma ApplyConserves(w: Wiring, s: System, op: Operation, d: nat)
    requires Shaped(w, s) && Enabled(w, op) && d < |w.devices|
    ensures var s1 := Apply(w, s, op);
            s1.processed[d] + s1.buffers[d] == s.processed[d] + s.buffers[d] + AcceptedBy(s, op, d)
  {
    hide TargetOf, CpuStepped, WiringOk;
    match op
    case Step(c) => StepEffect(w, s, c, d); hide Shaped;
    case _ =>
  }

  // ----- No lost event over runs -----

  /** Values are generated by producers only. */
  ghost predicate ProducedBy(ops: seq<Operation>, producers: set<nat>) {
    forall i | 0 <= i < |ops| && ops[i].Generate? :: ops[i].device in producers
  }

  /** Over every run in which the producers generate, no event is lost. */
  lemma {:induction false} RunKeeps(w: Wiring, s: System, ops: seq<Operation>, producers: set<nat>)
    requires Shaped(w, s) && AllEnabled(w, ops) && NothingLost(w, s)
    requires Wired(w, producers) && OnlyFrom(s, producers) && ProducedBy(ops, producers)
    ensures NothingLost(w, Run(w, s, ops)) && OnlyFrom(Run(w, s, ops), producers)
    decreases |ops|
  {
    if ops != [] {
      match ops[0] {
        case Generate(d, value) =>
          assert Serves(w, d);
          GenerateKeeps(w, s, d, value);
        case Raise(d) => RaiseKeeps(w, s, d);
        case Step(c) => StepKeeps(w, s, c, producers);
      }
      RunKeeps(w, Apply(w, s, ops[0]), ops[1..], producers);
    }
  }

  /** The state SystemInit starts from. */
  function Initial(w: Wiring): (s: System)
    requires WiringOk(w)
    ensures Shaped(w, s)
  {
    System(seq(CPUS, c => Cpu({}, NO_VECTOR, PASSIVE_LEVEL, [])),
           seq(|w.devices|, d => []), seq(|w.devices|, d => []), 0)
  }

  ghost predicate NeverLoses(w: Wiring, producers: set<nat>)
    requires WiringOk(w)
  {
    forall ops | AllEnabled(w, ops) && ProducedBy(ops, producers) :: NothingLost(w, Run(w, Initial(w), ops))
  }

  /** The wiring is also necessary: no run loses an event exactly when every producer's vector drains it. */
  lemma WiredIff(w: Wiring, producers: set<nat>)
    requires WiringOk(w) && forall d | d in producers :: d < |w.devices|
    ensures NeverLoses(w, producers) <==> Wired(w, producers)
  {
    var s := Initial(w);
    if Wired(w, producers) {
      forall ops | AllEnabled(w, ops) && ProducedBy(ops, producers) ensures NothingLost(w, Run(w, s, ops)) {
        RunKeeps(w, s, ops, producers);
      }
    } else {
      var d :| d in producers && !Serves(w, d);
      UnservedLoses(w, d, producers);
    }
  }

  /** A value of a device whose vector drains something else waits, after one step, with nothing pending. */
  lemma UnservedWaits(w: Wiring, d: nat, value: int)
    requires WiringOk(w) && d < |w.devices| && TargetOf(w, d).To? && !Serves(w, d)
    ensures !NothingLost(w, CpuStepped(w, Generated(w, Initial(w), d, value), TargetOf(w, d).cpu))
  {
    var t := TargetOf(w, d);
    var s := Generated(w, Initial(w), d, value);
    GenerateKeeps(w, Initial(w), d, value);
    assert s.cpus[t.cpu].pending == {t.vector as int} && s.buffers[d] == [value] && s.cpus[t.cpu].dpcs == [];
    assert !DrainsIn(w, s, t.cpu, d);
    hide CpuStepped, Generated, Initial, WiringOk, HandlerOf;
    StepKeepsIff(w, s, t.cpu);
  }

  lemma RunOne(w: Wiring, s: System, op: Operation)
    requires Shaped(w, s) && Enabled(w, op)
    ensures AllEnabled(w, [op]) && Run(w, s, [op]) == Apply(w, s, op)
  {
    assert [op][1..] == [];
    hide Apply;
    assert Run(w, Apply(w, s, op), []) == Apply(w, s, op);
  }

  lemma RunTwo(w: Wiring, s: System, op: Operation, next: Operation)
    requires Shaped(w, s) && Enabled(w, op) && Enabled(w, next)
    ensures AllEnabled(w, [op, next]) && Run(w, s, [op, next]) == Apply(w, Apply(w, s, op), next)
  {
    assert [op, next][1..] == [next];
    hide Apply;
    RunOne(w, Apply(w, s, op), next);
  }

  /** So one value, or one value and one step, loses an event. */
  lemma UnservedLoses(w: Wiring, d: nat, producers: set<nat>)
    requires WiringOk(w) && d < |w.devices| && d in producers && !Serves(w, d)
    ensures !NeverLoses(w, producers)
  {
    hide WiringOk, CpuStepped, Generated, Initial, Run, TargetOf, Serves;
    var s := Initial(w);
    var generate := Generate(d, 0);
    if TargetOf(w, d) == Nobody {
      RunOne(w, s, generate);
      InitialLosesNothing(w);
      GenerateKeeps(w, s, d, 0);
      assert ProducedBy([generate], producers);
    } else {
      var step := Step(TargetOf(w, d).cpu);
      RunTwo(w, s, generate, step);
      UnservedWaits(w, d, 0);
      assert ProducedBy([generate, step], producers);
    }
  }

  lemma InitialLosesNothing(w: Wiring)
    requires WiringOk(w)
    ensures NothingLost(w, Initial(w)) && Settled(w, Initial(w)) && forall p :: OnlyFrom(Initial(w), p)
  {
  }

  /** Between turns: nothing pending, no call queued, all buffers empty. */
  ghost predicate Settled(w: Wiring, s: System)
    requires Shaped(w, s)
  {
    && (forall c | 0 <= c < CPUS :: s.cpus[c].pending == {} && s.cpus[c].dpcs == [])
    && (forall d | 0 <= d < |w.devices| :: s.buffers[d] == [])
  }

  /** One round over the CPUs, as the tick loop makes it. */
  function Rounds(w: Wiring, s: System, c: nat): (s': System)
    requires Shaped(w, s) && c <= CPUS
    ensures Shaped(w, s')
    decreases CPUS - c
  {
    if c == CPUS then s else Rounds(w, CpuStepped(w, s, c), c + 1)
  }

  /** After a round nothing waits anywhere, and what waited has been processed. */
  lemma {:induction false} RoundDrains(w: Wiring, s: System, c: nat, producers: set<nat>)
    requires Shaped(w, s) && NothingLost(w, s) && Wired(w, producers) && OnlyFrom(s, producers) && c <= CPUS
    requires forall k | 0 <= k < c :: s.cpus[k].pending == {}
    ensures var s' := Rounds(w, s, c);
            && (forall k | 0 <= k < CPUS :: s'.cpus[k].pending == {} && s'.cpus[k].dpcs == [])
            && (forall d | 0 <= d < |w.devices| ::
                  s'.buffers[d] == [] && s'.processed[d] == s.processed[d] + s.buffers[d])
    decreases CPUS - c
  {
    hide CpuStepped;
    if c < CPUS {
      StepKeeps(w, s, c, producers);
      StepClears(w, s, c);
      var s1 := CpuStepped(w, s, c);
      RoundDrains(w, s1, c + 1, producers);
      assert Rounds(w, s, c) == Rounds(w, s1, c + 1);
      forall d: nat | d < |w.devices| ensures s1.processed[d] + s1.buffers[d] == s.processed[d] + s.buffers[d] {
        StepEffect(w, s, c, d);
      }
    } else {
      assert forall d | 0 <= d < |w.devices| :: s.buffers[d] == [];
    }
  }

  // ----- Ticks -----

  /** The values a list of operations generates on a device. */
  function Values(ops: seq<Operation>, d: nat): seq<int> {
    if ops == [] then []
    else (if ops[0].Generate? && ops[0].device == d then [ops[0].value] else []) + Values(ops[1..], d)
  }

  predicate NoSteps(ops: seq<Operation>) {
    forall i | 0 <= i < |ops| :: !ops[i].Step?
  }

  /** One turn of the tick loop: the devices raise and generate, then every CPU steps once. */
  function Ticked(w: Wiring, s: System, ops: seq<Operation>): (s': System)
    requires Shaped(w, s) && AllEnabled(w, ops)
    ensures Shaped(w, s')
  {
    Rounds(w, Run(w, s, ops), 0)
  }

  /** Between CPU steps a buffer accepts every value while it has room for all of them. */
  lemma {:induction false} AllAccepted(w: Wiring, s: System, ops: seq<Operation>, d: nat)
    requires Shaped(w, s) && AllEnabled(w, ops) && NoSteps(ops) && d < |w.devices|
    requires |s.buffers[d]| + |Values(ops, d)| <= CAPACITY
    ensures Accepted(w, s, ops, d) == Values(ops, d)
    decreases |ops|
  {
    if ops != [] {
      AllAccepted(w, Apply(w, s, ops[0]), ops[1..], d);
    }
  }

  /** A turn in which no device generates more than its buffer holds processes exactly what was generated. */
  lemma TickProcesses(w: Wiring, s: System, ops: seq<Operation>, producers: set<nat>)
    requires Shaped(w, s) && Settled(w, s) && Wired(w, producers)
    requires AllEnabled(w, ops) && NoSteps(ops) && ProducedBy(ops, producers)
    requires forall d: nat | d < |w.devices| :: |Values(ops, d)| <= CAPACITY
    ensures Settled(w, Ticked(w, s, ops))
    ensures forall d: nat | d < |w.devices| :: Ticked(w, s, ops).processed[d] == s.processed[d] + Values(ops, d)
  {
    hide WiringOk, Wired, Apply, Run, Rounds, AllEnabled, NoSteps, ProducedBy, Values, Accepted, TargetOf;
    var s1 := Run(w, s, ops);
    RunKeeps(w, s, ops, producers);
    RoundDrains(w, s1, 0, producers);
    forall d: nat | d < |w.devices|
      ensures s1.processed[d] + s1.buffers[d] == s.processed[d] + Values(ops, d)
    {
      RunConserves(w, s, ops, d);
      AllAccepted(w, s, ops, d);
      assert s.processed[d] + [] == s.processed[d];
    }
  }

  /** A turn of the loop that the theorem above is about. */
  ghost predicate TurnOk(w: Wiring, ops: seq<Operation>, producers: set<nat>) {
    && AllEnabled(w, ops) && NoSteps(ops) && ProducedBy(ops, producers)
    && forall d: nat | d < |w.devices| :: |Values(ops, d)| <= CAPACITY
  }

  ghost predicate TurnsOk(w: Wiring, turns: seq<seq<Operation>>, producers: set<nat>)
    decreases |turns|
  {
    turns != [] ==> TurnOk(w, turns[0], producers) && TurnsOk(w, turns[1..], producers)
  }

  predicate TurnsEnabled(w: Wiring, turns: seq<seq<Operation>>)
    decreases |turns|
  {
    turns != [] ==> AllEnabled(w, turns[0]) && TurnsEnabled(w, turns[1..])
  }

  function TickedAll(w: Wiring, s: System, turns: seq<seq<Operation>>): (s': System)
    requires Shaped(w, s) && TurnsEnabled(w, turns)
    ensures Shaped(w, s')
    decreases |turns|
  {
    if turns == [] then s else TickedAll(w, Ticked(w, s, turns[0]), turns[1..])
  }

  function AllValues(turns: seq<seq<Operation>>, d: nat): seq<int> {
    if turns == [] then [] else Values(turns[0], d) + AllValues(turns[1..], d)
  }

  /** Over any number of turns every generated value is processed, once and in order, and nothing waits. */
  lemma {:induction false} TicksProcess(
      w: Wiring, s: System, turns: seq<seq<Operation>>, producers: set<nat>, d: nat)
    requires Shaped(w, s) && Settled(w, s) && Wired(w, producers) && d < |w.devices|
    requires TurnsEnabled(w, turns) && TurnsOk(w, turns, producers)
    ensures var s' := TickedAll(w, s, turns);
            Settled(w, s') && s'.processed[d] == s.processed[d] + AllValues(turns, d)
    decreases |turns|
  {
    hide Ticked, WiringOk, Wired, Values, Settled, AllEnabled, Shaped;
    if turns != [] {
      TickProcesses(w, s, turns[0], producers);
      TicksProcess(w, Ticked(w, s, turns[0]), turns[1..], producers, d);
    }
  }

  // ----- The system SystemInit builds -----

  /** The four devices DevicePool configures and the entries SystemInit registers: the timer only interrupts. */
  function SystemWiring(): Wiring {
    Wiring(
      [Device(true, 40, 0, -1), Device(true, 33, 0, -1), Device(true, 34, 1, -1), Device(false, 0, 0, 1)],
      seq(IRQS, i => if i == 1 then IoApicRoute(35, 3) else IoApicRoute(0, 0)),
      seq(IDT_SIZE, v => v == 40 || 33 <= v <= 35),
      seq(IDT_SIZE, v => if v == 40 then [Tick] else if 33 <= v <= 35 then [Drain(v - 32)] else []))
  }

  const PRODUCERS: set<nat> := {1, 2, 3}

  lemma SystemWired()
    ensures WiringOk(SystemWiring()) && Wired(SystemWiring(), PRODUCERS) && NeverLoses(SystemWiring(), PRODUCERS)
  {
    assert WiringOk(SystemWiring());
    assert Wired(SystemWiring(), PRODUCERS);
    WiredIff(SystemWiring(), PRODUCERS);
  }
}
