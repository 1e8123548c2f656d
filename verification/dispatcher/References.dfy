/** Reference counting of kernel objects in BLUE_KERNEL/BlueKernel_lvl3.c, together with the dispatcher whose
    mutexes are such objects: the counter of an object always equals the references held on it, where the
    threads in a mutex's wait queue hold one each. Objects are named by index and NULL is -1; the handle tables
    of all processes lie one after the other in one array. */
module References {
  import opened ReadyQueues
  import opened Kernels
  import opened QueueInvariant
  import opened Inheritance
  import DispatcherRuns

  const MAX_PROCESSES := 10
  const MAX_HANDLES := 32
  const SLOTS := 320
  const NULL := -1

  /** The dispatcher; counters and handle tables as the source keeps them; which mutex an object is the header
      of, and back; and who else holds a reference: the creator, and callers that looked the object up. */
  datatype System = System(
    kernel: Kernel, counts: seq<int>, handles: seq<int>, mutexOf: seq<int>, header: seq<int>,
    created: seq<bool>, borrowed: seq<nat>)

  predicate IsObject(s: System, o: int) {
    0 <= o < |s.counts|
  }

  /** Every mutex has one header and every header one mutex; other objects are events. */
  ghost predicate Headed(s: System) {
    && |s.mutexOf| == |s.counts| && |s.header| == |s.kernel.mutexes|
    && (forall m | 0 <= m < |s.header| :: IsObject(s, s.header[m]) && s.mutexOf[s.header[m]] == m)
    && (forall o | IsObject(s, o) && s.mutexOf[o] != NULL ::
          IsMutex(s.kernel, s.mutexOf[o]) && s.header[s.mutexOf[o]] == o)
  }

  ghost predicate InRange(s: System) {
    && WellFormed(s.kernel) && Headed(s)
    && |s.created| == |s.borrowed| == |s.counts| && |s.handles| == SLOTS
    && forall i | 0 <= i < SLOTS :: s.handles[i] == NULL || IsObject(s, s.handles[i])
  }

  /** How many threads wait on an object that is a mutex. */
  function Waiting(s: System, o: int): nat
    requires InRange(s) && IsObject(s, o)
  {
    if s.mutexOf[o] == NULL then 0 else |s.kernel.mutexes[s.mutexOf[o]].waiters|
  }

  /** The references held on an object. */
  function Owed(s: System, o: int): nat
    requires InRange(s) && IsObject(s, o)
  {
    (if s.created[o] then 1 else 0) + multiset(s.handles)[o] + Waiting(s, o) + s.borrowed[o]
  }

  ghost predicate Conserved(s: System) {
    InRange(s) && forall o | IsObject(s, o) :: s.counts[o] == Owed(s, o)
  }

  /** ObDereferenceObject frees an object when its counter reaches zero. */
  predicate Live(s: System, o: int) {
    IsObject(s, o) && s.counts[o] > 0
  }

  function SlotOf(p: nat, h: nat): (i: nat)
    requires p < MAX_PROCESSES && h < MAX_HANDLES
    ensures i < SLOTS
  {
    p * MAX_HANDLES + h
  }

  // ----- Operations -----

  /** CreateMutexObject */
  function CreatedMutex(s: System): System {
    System(s.kernel.(mutexes := s.kernel.mutexes + [Mutex(false, NONE, [])]),
           s.counts + [1], s.handles, s.mutexOf + [|s.kernel.mutexes|], s.header + [|s.counts|],
           s.created + [true], s.borrowed + [0])
  }

  /** InitEvent */
  function CreatedEvent(s: System): System {
    System(s.kernel.(events := s.kernel.events + [Event(false, [])]),
           s.counts + [1], s.handles, s.mutexOf + [NULL], s.header, s.created + [true], s.borrowed + [0])
  }

  /** The first empty handle from h on, or MAX_HANDLES. */
  function FirstEmpty(handles: seq<int>, p: nat, h: nat): (r: nat)
    requires |handles| == SLOTS && p < MAX_PROCESSES && h <= MAX_HANDLES
    ensures h <= r <= MAX_HANDLES && (r < MAX_HANDLES ==> handles[SlotOf(p, r)] == NULL)
    decreases MAX_HANDLES - h
  {
    if h == MAX_HANDLES || handles[SlotOf(p, h)] == NULL then h else FirstEmpty(handles, p, h + 1)
  }

  function Inserted(s: System, p: nat, o: int): System
    requires InRange(s) && p < MAX_PROCESSES && IsObject(s, o) && FirstEmpty(s.handles, p, 0) < MAX_HANDLES
  {
    var i := SlotOf(p, FirstEmpty(s.handles, p, 0));
    s.(handles := s.handles[i := o], counts := s.counts[o := s.counts[o] + 1])
  }

  function Named(s: System, p: nat, h: int): int
    requires InRange(s) && p < MAX_PROCESSES
  {
    if 0 <= h < MAX_HANDLES then s.handles[SlotOf(p, h)] else NULL
  }

  function LookedUp(s: System, p: nat, h: int): System
    requires InRange(s) && p < MAX_PROCESSES
  {
    var o := Named(s, p, h);
    if o == NULL then s
    else s.(counts := s.counts[o := s.counts[o] + 1], borrowed := s.borrowed[o := s.borrowed[o] + 1])
  }

  function Closed(s: System, p: nat, h: int): System
    requires InRange(s) && p < MAX_PROCESSES
  {
    var o := Named(s, p, h);
    if o == NULL then s
    else s.(counts := s.counts[o := s.counts[o] - 1], handles := s.handles[SlotOf(p, h) := NULL])
  }

  /** ObDereferenceObject by a caller that looked the object up, and by the creator. */
  function Returned(s: System, o: int): System
    requires InRange(s) && IsObject(s, o) && s.borrowed[o] > 0
  {
    s.(counts := s.counts[o := s.counts[o] - 1], borrowed := s.borrowed[o := s.borrowed[o] - 1])
  }

  function Disowned(s: System, o: int): System
    requires InRange(s) && IsObject(s, o) && s.created[o]
  {
    s.(counts := s.counts[o := s.counts[o] - 1], created := s.created[o := false])
  }

  /** What the dispatcher's own code does to counters: AcquireMutex takes a reference before it blocks the
      caller, and ReleaseMutex drops one when it hands the mutex to a waiter. */
  function Counted(s: System, op: DispatcherRuns.Operation): (counts: seq<int>)
    requires InRange(s) && DispatcherRuns.Enabled(s.kernel, op)
    ensures |counts| == |s.counts|
  {
    match op
    case AcquireOp(m) => if s.kernel.mutexes[m].locked then Added(s, m, 1) else s.counts
    case ReleaseOp(m) => HandedOver(s, m)
    case TerminateOp(t) =>
      if s.kernel.threads[t].owned == NONE then s.counts else HandedOver(s, s.kernel.threads[t].owned)
    case _ => s.counts
  }

  function Added(s: System, m: int, n: int): (counts: seq<int>)
    requires InRange(s) && IsMutex(s.kernel, m)
    ensures |counts| == |s.counts|
  {
    s.counts[s.header[m] := s.counts[s.header[m]] + n]
  }

  function HandedOver(s: System, m: int): (counts: seq<int>)
    requires InRange(s) && IsMutex(s.kernel, m)
    ensures |counts| == |s.counts|
  {
    if s.kernel.mutexes[m].waiters == [] then s.counts else Added(s, m, -1)
  }

  function Dispatched(s: System, op: DispatcherRuns.Operation): System
    requires InRange(s) && DispatcherRuns.Enabled(s.kernel, op)
  {
    s.(kernel := DispatcherRuns.Apply(s.kernel, op), counts := Counted(s, op))
  }

  /** DestroyProcess closes handles h and up. */
  function Destroyed(s: System, p: nat, h: nat): (s': System)
    requires InRange(s) && p < MAX_PROCESSES && h <= MAX_HANDLES
    ensures InRange(s') && |s'.counts| == |s.counts|
    decreases MAX_HANDLES - h
  {
    if h == MAX_HANDLES then s else Destroyed(Closed(s, p, h), p, h + 1)
  }

  // ----- Conservation -----

  /** An object is freed exactly when nobody holds a reference: no creator, no handle, no caller, and no
      thread in the wait queue. */
  lemma FreedIffUnreferenced(s: System, o: int)
    requires Conserved(s) && IsObject(s, o)
    ensures !Live(s, o) <==>
            && !s.created[o] && o !in s.handles && s.borrowed[o] == 0
            && (s.mutexOf[o] == NULL || s.kernel.mutexes[s.mutexOf[o]].waiters == [])
  {
  }

  lemma SlotWritten(handles: seq<int>, i: nat, x: int, o: int)
    requires i < |handles|
    ensures multiset(handles[i := x])[o] ==
            multiset(handles)[o] - (if handles[i] == o then 1 else 0) + (if x == o then 1 else 0)
  {
    assert handles[i] in multiset(handles);
  }

  lemma InsertConserves(s: System, p: nat, o: int)
    requires Conserved(s) && p < MAX_PROCESSES && IsObject(s, o) && FirstEmpty(s.handles, p, 0) < MAX_HANDLES
    ensures Conserved(Inserted(s, p, o))
  {
    hide WellFormed, FirstEmpty;
    var i := SlotOf(p, FirstEmpty(s.handles, p, 0));
    forall x | IsObject(s, x) ensures Inserted(s, p, o).counts[x] == Owed(Inserted(s, p, o), x) {
      SlotWritten(s.handles, i, o, x);
    }
  }

  lemma CloseConserves(s: System, p: nat, h: int)
    requires Conserved(s) && p < MAX_PROCESSES
    ensures Conserved(Closed(s, p, h))
    ensures Named(s, p, h) != NULL ==> Live(s, Named(s, p, h))
  {
    var o := Named(s, p, h);
    if o != NULL {
      assert s.handles[SlotOf(p, h)] == o && o in multiset(s.handles);
      ClosedInRange(s, p, h);
      forall x | IsObject(s, x) ensures Closed(s, p, h).counts[x] == Owed(Closed(s, p, h), x) {
        CloseOwed(s, p, h, x);
      }
      hide Owed, InRange, SlotOf;
    }
  }

  lemma ClosedInRange(s: System, p: nat, h: int)
    requires InRange(s) && p < MAX_PROCESSES
    ensures InRange(Closed(s, p, h)) && |Closed(s, p, h).counts| == |s.counts|
  {
    hide WellFormed;
  }

  lemma CloseOwed(s: System, p: nat, h: int, x: int)
    requires Conserved(s) && p < MAX_PROCESSES && IsObject(s, x) && Named(s, p, h) != NULL
    requires InRange(Closed(s, p, h))
    ensures Closed(s, p, h).counts[x] == Owed(Closed(s, p, h), x)
  {
    hide WellFormed, Headed;
    SlotWritten(s.handles, SlotOf(p, h), NULL, x);
  }

  lemma ConservedInRange(s: System)
    requires Conserved(s)
    ensures InRange(s)
  {
  }

  lemma {:induction false} DestroyConserves(s: System, p: nat, h: nat)
    requires Conserved(s) && p < MAX_PROCESSES && h <= MAX_HANDLES
    ensures InRange(s) && Conserved(Destroyed(s, p, h))
    decreases MAX_HANDLES - h
  {
    hide Conserved, InRange, Closed;
    ConservedInRange(s);
    if h < MAX_HANDLES {
      CloseConserves(s, p, h);
      DestroyConserves(Closed(s, p, h), p, h + 1);
    }
  }

  /** Closing a handle empties its slot and touches no other. */
  lemma CloseEffect(s: System, p: nat, h: nat, q: nat, g: nat)
    requires InRange(s) && p < MAX_PROCESSES && h < MAX_HANDLES && q < MAX_PROCESSES && g < MAX_HANDLES
    ensures var s' := Closed(s, p, h);
            && InRange(s') && s' == s.(counts := s'.counts, handles := s'.handles) && |s'.counts| == |s.counts|
            && s'.handles[SlotOf(q, g)] == if q == p && g == h then NULL else s.handles[SlotOf(q, g)]
  {
    hide WellFormed;
  }

  /** DestroyProcess empties its own table, touches no other table, and takes no other kind of reference. */
  lemma {:induction false} DestroyEffect(s: System, p: nat, h: nat)
    requires InRange(s) && p < MAX_PROCESSES && h <= MAX_HANDLES
    ensures var s' := Destroyed(s, p, h);
            && s' == s.(counts := s'.counts, handles := s'.handles) && |s'.counts| == |s.counts|
            && forall q, g | 0 <= q < MAX_PROCESSES && 0 <= g < MAX_HANDLES ::
                 s'.handles[SlotOf(q, g)] == if q == p && g >= h then NULL else s.handles[SlotOf(q, g)]
    decreases MAX_HANDLES - h
  {
    hide InRange, Closed, SlotOf;
    HandlesSized(s);
    HandlesSized(Destroyed(s, p, h));
    if h < MAX_HANDLES {
      var s1 := Closed(s, p, h);
      CloseEffect(s, p, h, p, h);
      HandlesSized(s1);
      DestroyEffect(s1, p, h + 1);
      forall q: nat, g: nat | q < MAX_PROCESSES && g < MAX_HANDLES
        ensures s1.handles[SlotOf(q, g)] == if q == p && g == h then NULL else s.handles[SlotOf(q, g)]
      {
        CloseEffect(s, p, h, q, g);
      }
    }
  }

  lemma HandlesSized(s: System)
    requires InRange(s)
    ensures |s.handles| == SLOTS
  {
  }

  // ----- Wait queues -----

  /** How one operation of the dispatcher changes the length of a mutex's wait queue. */
  ghost function Delta(k: Kernel, op: DispatcherRuns.Operation, m: int): int
    requires WellFormed(k) && DispatcherRuns.Enabled(k, op) && IsMutex(k, m)
  {
    match op
    case AcquireOp(n) => if m == n && k.mutexes[m].locked then 1 else 0
    case ReleaseOp(n) => if m == n && k.mutexes[m].waiters != [] then -1 else 0
    case TerminateOp(t) => if k.threads[t].owned == m && k.mutexes[m].waiters != [] then -1 else 0
    case _ => 0
  }

  lemma AcquireWaiters(k: Kernel, m: int)
    requires WellFormed(k) && IsMutex(k, m) && k.current != NONE
    ensures var k' := Acquired(k, m);
            && |k'.mutexes| == |k.mutexes|
            && forall n | IsMutex(k, n) ::
                 |k'.mutexes[n].waiters| == |k.mutexes[n].waiters| + if n == m && k.mutexes[m].locked then 1 else 0
  {
    var c := k.current;
    if k.mutexes[m].locked {
      ThreadWellFormed(k, c, k.threads[c].(waiting := m));
      BoostFrame(WithThread(k, c, k.threads[c].(waiting := m)), k.mutexes[m].owner, k.threads[c].priority);
    }
  }

  lemma ReleaseWaiters(k: Kernel, m: int)
    requires WellFormed(k) && IsMutex(k, m) && k.current != NONE && k.mutexes[m].owner == k.current
    ensures var k' := Released(k, m);
            && |k'.mutexes| == |k.mutexes|
            && forall n | IsMutex(k, n) ::
                 |k'.mutexes[n].waiters| ==
                 |k.mutexes[n].waiters| - if n == m && k.mutexes[m].waiters != [] then 1 else 0
  {
  }

  lemma TerminateWaiters(k: Kernel, t: int)
    requires WellFormed(k) && DispatcherRuns.Enabled(k, DispatcherRuns.TerminateOp(t))
    ensures var k' := TerminatedThread(k, t);
            && |k'.mutexes| == |k.mutexes|
            && forall n | IsMutex(k, n) ::
                 |k'.mutexes[n].waiters| ==
                 |k.mutexes[n].waiters| - if n == k.threads[t].owned && k.mutexes[n].waiters != [] then 1 else 0
  {
    if k.threads[t].owned != NONE {
      ReleaseWaiters(k, k.threads[t].owned);
    }
    hide Released;
  }

  /** The dispatcher lengthens and shortens wait queues exactly where it counts. */
  lemma WaitersChange(k: Kernel, op: DispatcherRuns.Operation)
    requires WellFormed(k) && DispatcherRuns.Enabled(k, op)
    ensures var k' := DispatcherRuns.Apply(k, op);
            && |k'.mutexes| == |k.mutexes|
            && forall m | IsMutex(k, m) :: |k'.mutexes[m].waiters| == |k.mutexes[m].waiters| + Delta(k, op, m)
  {
    hide WellFormed;
    match op
    case AcquireOp(m) => AcquireWaiters(k, m); hide Acquired;
    case ReleaseOp(m) => ReleaseWaiters(k, m); hide Released;
    case TerminateOp(t) => TerminateWaiters(k, t); hide TerminatedThread;
    case ScheduleOp => ScheduleSame(k);
    case _ =>
  }

  lemma ScheduleSame(k: Kernel)
    requires WellFormed(k)
    ensures Schedule(k).mutexes == k.mutexes
  {
    PickWellFormed(k);
    hide PickNext;
  }

  lemma DispatchConserves(s: System, op: DispatcherRuns.Operation)
    requires Conserved(s) && DispatcherRuns.Enabled(s.kernel, op)
    ensures Conserved(Dispatched(s, op))
  {
    WaitersChange(s.kernel, op);
    hide WellFormed, DispatcherRuns.Apply;
    var s' := Dispatched(s, op);
    assert InRange(s');
    forall o | IsObject(s, o) ensures s'.counts[o] == Owed(s', o) {
      assert s.counts[o] == Owed(s, o);
      CountedDelta(s, op, o);
    }
  }

  /** Counter by counter. */
  lemma CountedDelta(s: System, op: DispatcherRuns.Operation, o: int)
    requires InRange(s) && DispatcherRuns.Enabled(s.kernel, op) && IsObject(s, o)
    ensures Counted(s, op)[o] ==
            s.counts[o] + if s.mutexOf[o] == NULL then 0 else Delta(s.kernel, op, s.mutexOf[o])
  {
    assert op.TerminateOp? ==> var owned := s.kernel.threads[op.t].owned; owned == NONE || IsMutex(s.kernel, owned);
    hide WellFormed;
  }

  // ----- Runs -----

  datatype Operation =
    | CreateMutex | CreateEvent | Insert(p: nat, o: int) | Lookup(p: nat, h: int) | Close(p: nat, h: int)
    | Return(o: int) | Disown(o: int) | Destroy(p: nat) | Dispatch(op: DispatcherRuns.Operation)

  /** The mutexes an operation of the dispatcher is called with, or finds in owned_mutex, have not been freed. */
  ghost predicate Reaches(s: System, op: DispatcherRuns.Operation)
    requires InRange(s) && DispatcherRuns.Enabled(s.kernel, op)
  {
    match op
    case AcquireOp(m) => Live(s, s.header[m])
    case ReleaseOp(m) => Live(s, s.header[m])
    case TerminateOp(t) => s.kernel.threads[t].owned != NONE ==> Live(s, s.header[s.kernel.threads[t].owned])
    case _ => true
  }

  /** Callers name an object only while they hold a reference to it. */
  ghost predicate Enabled(s: System, op: Operation)
    requires InRange(s)
  {
    match op
    case CreateMutex => true
    case CreateEvent => true
    case Insert(p, o) => p < MAX_PROCESSES && Live(s, o) && FirstEmpty(s.handles, p, 0) < MAX_HANDLES
    case Lookup(p, h) => p < MAX_PROCESSES
    case Close(p, h) => p < MAX_PROCESSES
    case Return(o) => IsObject(s, o) && s.borrowed[o] > 0
    case Disown(o) => IsObject(s, o) && s.created[o]
    case Destroy(p) => p < MAX_PROCESSES
    case Dispatch(op) => DispatcherRuns.Enabled(s.kernel, op) && Reaches(s, op)
  }

  function Apply(s: System, op: Operation): System
    requires InRange(s) && Enabled(s, op)
  {
    match op
    case CreateMutex => CreatedMutex(s)
    case CreateEvent => CreatedEvent(s)
    case Insert(p, o) => Inserted(s, p, o)
    case Lookup(p, h) => LookedUp(s, p, h)
    case Close(p, h) => Closed(s, p, h)
    case Return(o) => Returned(s, o)
    case Disown(o) => Disowned(s, o)
    case Destroy(p) => Destroyed(s, p, 0)
    case Dispatch(op) => Dispatched(s, op)
  }

  /** The dispatcher's invariant and exact counters. */
  ghost predicate SystemInvariant(s: System) {
    Conserved(s) && KernelInvariant(s.kernel)
  }

  lemma NewMutexKeeps(k: Kernel)
    requires KernelInvariant(k)
    ensures KernelInvariant(k.(mutexes := k.mutexes + [Mutex(false, NONE, [])]))
  {
    hide NoDuplicates;
    var k' := k.(mutexes := k.mutexes + [Mutex(false, NONE, [])]);
    assert forall m | IsMutex(k, m) :: k'.mutexes[m] == k.mutexes[m];
    assert WellFormed(k');
    DispatchSame(k, k');
    NoneDistinct();
    assert WaitersOk(k', NONE);
  }

  lemma NewEventKeeps(k: Kernel)
    requires KernelInvariant(k)
    ensures KernelInvariant(k.(events := k.events + [Event(false, [])]))
  {
    hide NoDuplicates;
    var k' := k.(events := k.events + [Event(false, [])]);
    assert forall e | IsEvent(k, e) :: k'.events[e] == k.events[e];
    assert WellFormed(k');
    DispatchSame(k, k');
    NoneDistinct();
    assert WaitersOk(k', NONE);
  }

  lemma NoneDistinct()
    ensures NoDuplicates([])
  {
  }

  lemma CreateMutexConserves(s: System)
    requires Conserved(s) && WellFormed(CreatedMutex(s).kernel)
    ensures Conserved(CreatedMutex(s))
  {
    hide WellFormed;
    var s' := CreatedMutex(s);
    forall o | IsObject(s', o) ensures s'.counts[o] == Owed(s', o) {
      if o == |s.counts| {
        assert o !in s.handles;
      } else {
        assert s.counts[o] == Owed(s, o);
      }
    }
  }

  lemma CreateEventConserves(s: System)
    requires Conserved(s) && WellFormed(CreatedEvent(s).kernel)
    ensures Conserved(CreatedEvent(s))
  {
    hide WellFormed;
    var s' := CreatedEvent(s);
    forall o | IsObject(s', o) ensures s'.counts[o] == Owed(s', o) {
      if o == |s.counts| {
        assert o !in s.handles;
      } else {
        assert s.counts[o] == Owed(s, o);
      }
    }
  }

  lemma ApplyKeeps(s: System, op: Operation)
    requires SystemInvariant(s) && Enabled(s, op)
    ensures SystemInvariant(Apply(s, op))
  {
    hide KernelInvariant, Owed;
    match op
    case CreateMutex => NewMutexKeeps(s.kernel); AddedWellFormed(s); CreateMutexConserves(s);
    case CreateEvent => NewEventKeeps(s.kernel); AddedWellFormed(s); CreateEventConserves(s);
    case Insert(p, o) => InsertConserves(s, p, o);
    case Lookup(p, h) => LookupConserves(s, p, h);
    case Close(p, h) => CloseConserves(s, p, h);
    case Return(o) => ReturnConserves(s, o);
    case Disown(o) => ReturnConserves(s, o);
    case Destroy(p) => DestroyConserves(s, p, 0); DestroyEffect(s, p, 0);
    case Dispatch(op) =>
      DispatcherRuns.ApplyKeeps(s.kernel, op);
      DispatchConserves(s, op);
  }

  lemma AddedWellFormed(s: System)
    ensures KernelInvariant(CreatedMutex(s).kernel) ==> WellFormed(CreatedMutex(s).kernel)
    ensures KernelInvariant(CreatedEvent(s).kernel) ==> WellFormed(CreatedEvent(s).kernel)
  {
  }

  lemma LookupConserves(s: System, p: nat, h: int)
    requires Conserved(s) && p < MAX_PROCESSES
    ensures Conserved(LookedUp(s, p, h))
  {
    hide WellFormed;
  }

  lemma ReturnConserves(s: System, o: int)
    requires Conserved(s) && IsObject(s, o)
    ensures s.borrowed[o] > 0 ==> Conserved(Returned(s, o))
    ensures s.created[o] ==> Conserved(Disowned(s, o))
  {
    hide WellFormed;
  }

  /** Nobody waits on a freed mutex: a mutex with a thread in its wait queue is live, and so is the mutex any
      thread records as the one it waits for. */
  lemma WaitedOnIsLive(s: System)
    requires SystemInvariant(s)
    ensures forall m | IsMutex(s.kernel, m) && s.kernel.mutexes[m].waiters != [] :: Live(s, s.header[m])
    ensures forall t | IsThread(s.kernel, t) && s.kernel.threads[t].waiting != NONE ::
              Live(s, s.header[s.kernel.threads[t].waiting])
  {
    forall m | IsMutex(s.kernel, m) && s.kernel.mutexes[m].waiters != [] ensures Live(s, s.header[m]) {
      FreedIffUnreferenced(s, s.header[m]);
    }
  }

  // ----- Hand-offs -----

  /** The operation hands mutex m to a waiter: ReleaseMutex, or TerminateThread of a thread that owns it. */
  predicate HandsOver(s: System, op: DispatcherRuns.Operation, m: int) {
    && IsMutex(s.kernel, m) && s.kernel.mutexes[m].waiters != []
    && (op == DispatcherRuns.ReleaseOp(m)
        || (op.TerminateOp? && IsThread(s.kernel, op.t) && s.kernel.threads[op.t].owned == m))
  }

  /** The mutex survives its own hand-off exactly when something besides the woken waiter refers to it;
      ReleaseMutex writes the owner field after the reference is gone. */
  lemma HandOffSurvivesIff(s: System, op: DispatcherRuns.Operation, m: int)
    requires Conserved(s) && DispatcherRuns.Enabled(s.kernel, op) && HandsOver(s, op, m)
    ensures var o := s.header[m];
            Live(Dispatched(s, op), o) <==>
            s.created[o] || o in s.handles || |s.kernel.mutexes[m].waiters| > 1 || s.borrowed[o] > 0
  {
    DispatchConserves(s, op);
    WaitersChange(s.kernel, op);
    hide WellFormed, DispatcherRuns.Apply;
    FreedIffUnreferenced(Dispatched(s, op), s.header[m]);
  }

  /** Every hand-off of a run leaves the mutex live if its creator's reference or a handle remained, or if the
      caller had looked it up. */
  ghost predicate HandsOverLive(s: System, ops: seq<Operation>)
    requires SystemInvariant(s) && RunEnabled(s, ops)
    decreases ops
  {
    ops != [] ==>
      && StepHandsOverLive(s, ops[0])
      && (ApplyKeeps(s, ops[0]); HandsOverLive(Apply(s, ops[0]), ops[1..]))
  }

  ghost predicate StepHandsOverLive(s: System, op: Operation)
    requires InRange(s) && Enabled(s, op)
  {
    op.Dispatch? ==>
      forall m | HandsOver(s, op.op, m) && HeldElsewhere(s, s.header[m]) :: Live(Apply(s, op), s.header[m])
  }

  predicate HeldElsewhere(s: System, o: int)
    requires InRange(s) && IsObject(s, o)
  {
    s.created[o] || o in s.handles || s.borrowed[o] > 0
  }

  lemma {:induction false} RunHandsOverLive(s: System, ops: seq<Operation>)
    requires SystemInvariant(s) && RunEnabled(s, ops)
    ensures HandsOverLive(s, ops)
    decreases ops
  {
    if ops != [] {
      ApplyKeeps(s, ops[0]);
      StepIsLive(s, ops[0]);
      hide SystemInvariant, Enabled, Apply, StepHandsOverLive;
      RunHandsOverLive(Apply(s, ops[0]), ops[1..]);
    }
  }

  lemma StepIsLive(s: System, op: Operation)
    requires SystemInvariant(s) && Enabled(s, op)
    ensures StepHandsOverLive(s, op)
  {
    hide KernelInvariant, WellFormed, Dispatched;
    if op.Dispatch? {
      forall m | HandsOver(s, op.op, m) && HeldElsewhere(s, s.header[m]) ensures Live(Apply(s, op), s.header[m]) {
        HandOffSurvivesIff(s, op.op, m);
      }
    }
  }

  /** An object whose creator never drops its reference stays live over every run, whatever the processes and
      the dispatcher do. */
  lemma {:induction false} CreatorKeepsAlive(s: System, ops: seq<Operation>, o: int)
    requires SystemInvariant(s) && RunEnabled(s, ops) && IsObject(s, o) && s.created[o] && Disown(o) !in ops
    ensures Live(Run(s, ops), o)
    decreases ops
  {
    if ops == [] {
      FreedIffUnreferenced(s, o);
    } else {
      ApplyKeeps(s, ops[0]);
      CreatorKept(s, ops[0], o);
      hide SystemInvariant, Enabled, Apply, Live;
      CreatorKeepsAlive(Apply(s, ops[0]), ops[1..], o);
    }
  }

  lemma CreatorKept(s: System, op: Operation, o: int)
    requires SystemInvariant(s) && Enabled(s, op) && IsObject(s, o) && s.created[o] && op != Disown(o)
    ensures IsObject(Apply(s, op), o) && Apply(s, op).created[o]
  {
    hide KernelInvariant, WellFormed, Owed, Counted;
    match op
    case Destroy(p) => DestroyEffect(s, p, 0);
    case _ =>
  }

  /** A freed object is never counted again. */
  lemma FreedStaysFreed(s: System, op: Operation, o: int)
    requires Conserved(s) && Enabled(s, op) && IsObject(s, o) && !Live(s, o)
    ensures IsObject(Apply(s, op), o) && !Live(Apply(s, op), o)
  {
    FreedIffUnreferenced(s, o);
    hide Owed, WellFormed;
    match op
    case Destroy(p) => ClosingSpares(s, p, 0, o);
    case Dispatch(op) =>
    case _ =>
  }

  lemma {:induction false} ClosingSpares(s: System, p: nat, h: nat, o: int)
    requires InRange(s) && p < MAX_PROCESSES && h <= MAX_HANDLES && IsObject(s, o) && o !in s.handles
    ensures Destroyed(s, p, h).counts[o] == s.counts[o]
    decreases MAX_HANDLES - h
  {
    hide WellFormed;
    if h < MAX_HANDLES {
      ClosingSpares(Closed(s, p, h), p, h + 1, o);
    }
  }

  ghost predicate RunEnabled(s: System, ops: seq<Operation>)
    requires SystemInvariant(s)
    decreases ops
  {
    ops != [] ==> Enabled(s, ops[0]) && (ApplyKeeps(s, ops[0]); RunEnabled(Apply(s, ops[0]), ops[1..]))
  }

  ghost function Run(s: System, ops: seq<Operation>): (s': System)
    requires SystemInvariant(s) && RunEnabled(s, ops)
    decreases ops
  {
    if ops == [] then s
    else
      ApplyKeeps(s, ops[0]);
      Run(Apply(s, ops[0]), ops[1..])
  }

  /** Over every run of the dispatcher and the handle tables together, the counters are exact, the dispatcher's
      invariant holds, and a freed object is never counted again. */
  lemma {:induction false} RunConserves(s: System, ops: seq<Operation>)
    requires SystemInvariant(s) && RunEnabled(s, ops)
    ensures SystemInvariant(Run(s, ops))
    ensures forall o | IsObject(s, o) && !Live(s, o) :: IsObject(Run(s, ops), o) && !Live(Run(s, ops), o)
    decreases ops
  {
    if ops != [] {
      ApplyKeeps(s, ops[0]);
      hide SystemInvariant, Enabled, Apply, Live;
      RunConserves(Apply(s, ops[0]), ops[1..]);
      forall o | IsObject(s, o) && !Live(s, o) ensures IsObject(Run(s, ops), o) && !Live(Run(s, ops), o) {
        StaysFreed(s, ops[0], o);
      }
    }
  }

  lemma StaysFreed(s: System, op: Operation, o: int)
    requires SystemInvariant(s) && Enabled(s, op) && IsObject(s, o) && !Live(s, o)
    ensures IsObject(Apply(s, op), o) && !Live(Apply(s, op), o)
  {
    FreedStaysFreed(s, op, o);
  }

  /** The system as main starts it, before the first mutex is created. */
  function Started(events: nat): System {
    System(DispatcherRuns.Booted(0, events), seq(events, e => 1), seq(SLOTS, i => NULL), seq(events, e => NULL), [],
           seq(events, e => true), seq(events, e => 0))
  }

  lemma StartedKeeps(events: nat)
    ensures SystemInvariant(Started(events))
  {
    DispatcherRuns.BootedKeeps(0, events);
    hide WellFormed;
    var s := Started(events);
    forall o | IsObject(s, o) ensures s.counts[o] == Owed(s, o) {
      assert o !in s.handles;
    }
  }
}
