/** The object manager of BLUE_KERNEL/BlueKernel_lvl3.c in place, over the dispatcher whose mutexes it counts
    references to: each function proved against the operation of References that it carries out. */
module ObjectManagers {
  import opened ReadyQueues
  import opened ReadyTables
  import opened Kernels
  import opened Inheritance
  import opened Dispatchers
  import opened References
  import DispatcherRuns

  class ObjectManager {
    const dispatcher: Dispatcher
    const handles: array<int>
    var counts: seq<int>
    var mutexOf: seq<int>
    var header: seq<int>
    ghost var created: seq<bool>
    ghost var borrowed: seq<nat>

    /** The handle tables are no part of the dispatcher. */
    ghost predicate Separate()
      reads this, dispatcher
    {
      && this !in dispatcher.ready.Repr && handles !in dispatcher.ready.Repr
      && (handles as object) != dispatcher.ready.table
    }

    ghost predicate Valid()
      reads this, handles, dispatcher, dispatcher.ready, dispatcher.ready.Repr, dispatcher.ready.table
    {
      Separate() && dispatcher.Valid() && SystemInvariant(State())
    }

    ghost function State(): System
      requires dispatcher.ready.Shape()
      reads this, handles, dispatcher, dispatcher.ready, dispatcher.ready.Repr
    {
      System(dispatcher.State(), counts, handles[..], mutexOf, header, created, borrowed)
    }

    constructor (dispatcher: Dispatcher)
      requires dispatcher.Valid() && KernelInvariant(dispatcher.State())
      requires dispatcher.mutexes == [] && dispatcher.events == []
      ensures Valid() && this.dispatcher == dispatcher && fresh(handles)
      ensures State() == System(dispatcher.State(), [], seq(SLOTS, i => NULL), [], [], [], [])
    {
      this.dispatcher := dispatcher;
      handles := new int[SLOTS](i => NULL);
      counts, mutexOf, header, created, borrowed := [], [], [], [], [];
    }

    /** What the methods below read off the invariant before and after they change the state. */
    lemma Ranges(s: System)
      requires SystemInvariant(s)
      ensures WellFormed(s.kernel) && KernelInvariant(s.kernel) && InRange(s) && Conserved(s) && |s.handles| == SLOTS
      ensures |s.created| == |s.borrowed| == |s.counts| && |s.header| == |s.kernel.mutexes|
      ensures forall i | 0 <= i < SLOTS :: s.handles[i] == NULL || IsObject(s, s.handles[i])
      ensures forall m | IsMutex(s.kernel, m) :: IsObject(s, s.header[m])
    {
    }

    /** Counters are exact, so an object is freed when its counter reaches zero. */
    lemma ZeroIsFreed(s: System, o: int)
      requires SystemInvariant(s) && IsObject(s, o)
      ensures s.counts[o] >= 0 && (s.counts[o] == 0 <==> !Live(s, o))
    {
      assert s.counts[o] == Owed(s, o);
    }

    method CreateMutexObject() returns (o: int)
      requires Valid()
      modifies this, dispatcher`mutexes
      ensures Valid() && State() == CreatedMutex(old(State())) && o == |old(counts)|
    {
      hide SystemInvariant, WellFormed, KernelInvariant, ReadyTable.Valid;
      ghost var s := State();
      ApplyKeeps(s, CreateMutex);
      Ranges(CreatedMutex(s));
      o := |counts|;
      mutexOf, header := mutexOf + [|dispatcher.mutexes|], header + [o];
      dispatcher.mutexes := dispatcher.mutexes + [Mutex(false, NONE, [])];
      counts, created, borrowed := counts + [1], created + [true], borrowed + [0];
      assert State() == CreatedMutex(s);
    }

    method InitEvent() returns (o: int)
      requires Valid()
      modifies this, dispatcher`events
      ensures Valid() && State() == CreatedEvent(old(State())) && o == |old(counts)|
    {
      hide SystemInvariant, WellFormed, KernelInvariant, ReadyTable.Valid;
      ghost var s := State();
      ApplyKeeps(s, CreateEvent);
      Ranges(CreatedEvent(s));
      o := |counts|;
      dispatcher.events := dispatcher.events + [Event(false, [])];
      counts, mutexOf := counts + [1], mutexOf + [NULL];
      created, borrowed := created + [true], borrowed + [0];
      assert State() == CreatedEvent(s);
    }

    /** ObDereferenceObject, by the creator or by a caller that looked the object up. */
    method Dereference(o: int, ghost creator: bool) returns (freed: bool)
      requires Valid() && Enabled(State(), if creator then Disown(o) else Return(o))
      modifies `counts, `created, `borrowed
      ensures Valid() && State() == Apply(old(State()), if creator then Disown(o) else Return(o))
      ensures freed <==> !Live(State(), o)
    {
      hide SystemInvariant, InRange, WellFormed, KernelInvariant, Conserved, Dispatcher.Valid, Dispatcher.State;
      ghost var s := State();
      ApplyKeeps(s, if creator then Disown(o) else Return(o));
      Ranges(s);
      counts := counts[o := counts[o] - 1];
      if creator {
        created := created[o := false];
      } else {
        borrowed := borrowed[o := borrowed[o] - 1];
      }
      assert State() == Apply(s, if creator then Disown(o) else Return(o));
      ZeroIsFreed(State(), o);
      freed := counts[o] == 0;
    }

    /** The caller's own reference moves with the call: borrowed and created are what it holds elsewhere. */
    method InsertHandle(p: nat, o: int) returns (h: nat)
      requires Valid() && Enabled(State(), Insert(p, o))
      modifies `counts, handles
      ensures Valid() && State() == Inserted(old(State()), p, o) && Named(State(), p, h) == o
    {
      hide SystemInvariant, InRange, WellFormed, KernelInvariant, Conserved, Dispatcher.Valid, Dispatcher.State;
      ghost var s := State();
      ApplyKeeps(s, Insert(p, o));
      Ranges(s);
      Ranges(Inserted(s, p, o));
      h := 0;
      while handles[SlotOf(p, h)] != NULL
        invariant h < MAX_HANDLES && FirstEmpty(s.handles, p, 0) == FirstEmpty(s.handles, p, h)
        decreases MAX_HANDLES - h
      {
        h := h + 1;
      }
      handles[SlotOf(p, h)] := o;
      counts := counts[o := counts[o] + 1];
      assert State() == Inserted(s, p, o);
    }

    method ReferenceByHandle(p: nat, h: int) returns (o: int)
      requires Valid() && p < MAX_PROCESSES
      modifies `counts, `borrowed
      ensures Valid() && State() == LookedUp(old(State()), p, h) && o == Named(old(State()), p, h)
      ensures o != NULL ==> Live(old(State()), o)
    {
      hide SystemInvariant, InRange, WellFormed, KernelInvariant, Conserved, Dispatcher.Valid, Dispatcher.State;
      ghost var s := State();
      ApplyKeeps(s, Lookup(p, h));
      Ranges(s);
      CloseConserves(s, p, h);
      if h < 0 || h >= MAX_HANDLES {
        return NULL;
      }
      o := handles[SlotOf(p, h)];
      if o == NULL {
        return NULL;
      }
      counts := counts[o := counts[o] + 1];
      borrowed := borrowed[o := borrowed[o] + 1];
      assert State() == LookedUp(s, p, h);
    }

    method CloseHandle(p: nat, h: int)
      requires Valid() && p < MAX_PROCESSES
      modifies `counts, handles
      ensures Valid() && State() == Closed(old(State()), p, h)
    {
      hide SystemInvariant, InRange, WellFormed, KernelInvariant, Conserved, Dispatcher.Valid, Dispatcher.State;
      ghost var s := State();
      ApplyKeeps(s, Close(p, h));
      Ranges(s);
      if h < 0 || h >= MAX_HANDLES {
        return;
      }
      var o := handles[SlotOf(p, h)];
      if o == NULL {
        return;
      }
      handles[SlotOf(p, h)] := NULL;
      counts := counts[o := counts[o] - 1];
      assert State() == Closed(s, p, h);
    }

    method DestroyProcess(p: nat)
      requires Valid() && p < MAX_PROCESSES
      modifies `counts, handles
      ensures Valid() && State() == Destroyed(old(State()), p, 0)
    {
      hide SystemInvariant, InRange, WellFormed, KernelInvariant, Conserved, Dispatcher.Valid, Dispatcher.State, ObjectManager.State, Closed, Separate;
      ghost var s := State();
      Ranges(s);
      for h := 0 to MAX_HANDLES
        invariant Valid() && InRange(State()) && Destroyed(State(), p, h) == Destroyed(s, p, 0)
      {
        CloseHandle(p, h);
        Ranges(State());
      }
    }

    // ----- Mutexes -----

    lemma AcquireAllowed(s: System, m: int)
      requires SystemInvariant(s) && Enabled(s, Dispatch(DispatcherRuns.AcquireOp(m)))
      ensures InRange(s) && DispatcherRuns.Enabled(s.kernel, DispatcherRuns.AcquireOp(m))
      ensures KernelInvariant(s.kernel) && WellFormed(s.kernel) && IsMutex(s.kernel, m)
      ensures s.kernel.irql == PASSIVE_LEVEL && DispatcherRuns.CurrentRuns(s.kernel)
      ensures |s.header| == |s.kernel.mutexes| && IsObject(s, s.header[m])
      ensures Dispatched(s, DispatcherRuns.AcquireOp(m)) ==
              var o := s.header[m];
              s.(kernel := Acquired(s.kernel, m),
                 counts := if s.kernel.mutexes[m].locked then s.counts[o := s.counts[o] + 1] else s.counts)
      ensures |Acquired(s.kernel, m).mutexes| == |s.kernel.mutexes|
    {
      AcquireWaiters(s.kernel, m);
      hide Acquired;
    }

    /** AcquireMutex: a caller that blocks holds a reference while it waits. */
    method AcquireMutex(m: int)
      requires Valid() && Enabled(State(), Dispatch(DispatcherRuns.AcquireOp(m)))
      modifies `counts, dispatcher, dispatcher.ready, dispatcher.ready.Repr
      ensures Valid() && State() == Dispatched(old(State()), DispatcherRuns.AcquireOp(m))
      ensures 0 <= m < |dispatcher.mutexes| == |header|
      ensures dispatcher.mutexes[m].waiters != [] ==> Live(State(), header[m])
    {
      hide SystemInvariant, InRange, WellFormed, KernelInvariant, Conserved, Dispatcher.Valid, Dispatched, Enabled;
      hide Acquired;
      ghost var s := State();
      ApplyKeeps(s, Dispatch(DispatcherRuns.AcquireOp(m)));
      AcquireAllowed(s, m);
      if dispatcher.mutexes[m].locked {
        var o := header[m];
        counts := counts[o := counts[o] + 1];
      }
      dispatcher.AcquireMutex(m);
      assert State() == Dispatched(s, DispatcherRuns.AcquireOp(m));
      WaitedOnIsLive(State());
    }

    lemma ReleaseAllowed(s: System, m: int)
      requires SystemInvariant(s) && Enabled(s, Dispatch(DispatcherRuns.ReleaseOp(m)))
      ensures InRange(s) && DispatcherRuns.Enabled(s.kernel, DispatcherRuns.ReleaseOp(m))
      ensures KernelInvariant(s.kernel) && WellFormed(s.kernel) && IsMutex(s.kernel, m)
      ensures DispatcherRuns.CurrentRuns(s.kernel) && s.kernel.mutexes[m].owner == s.kernel.current
      ensures |s.header| == |s.kernel.mutexes| && IsObject(s, s.header[m])
      ensures Dispatched(s, DispatcherRuns.ReleaseOp(m)) ==
              s.(kernel := Released(s.kernel, m), counts := HandedOver(s, m))
      ensures |Released(s.kernel, m).mutexes| == |s.kernel.mutexes|
    {
      ReleaseWaiters(s.kernel, m);
      hide Released;
    }

    /** ReleaseMutex: the waiter that gets the mutex gives its reference up. */
    method ReleaseMutex(m: int)
      requires Valid() && Enabled(State(), Dispatch(DispatcherRuns.ReleaseOp(m)))
      modifies `counts, dispatcher, dispatcher.ready, dispatcher.ready.Repr
      ensures Valid() && State() == Dispatched(old(State()), DispatcherRuns.ReleaseOp(m))
      ensures 0 <= m < |dispatcher.mutexes| == |header|
      ensures dispatcher.mutexes[m].waiters != [] ==> Live(State(), header[m])
    {
      hide SystemInvariant, InRange, WellFormed, KernelInvariant, Conserved, Dispatcher.Valid, Dispatched, Enabled;
      hide Released, HandedOver;
      ghost var s := State();
      ApplyKeeps(s, Dispatch(DispatcherRuns.ReleaseOp(m)));
      ReleaseAllowed(s, m);
      HandOver(m);
      dispatcher.ReleaseMutex(m);
      assert State() == Dispatched(s, DispatcherRuns.ReleaseOp(m));
      WaitedOnIsLive(State());
    }

    /** The reference the woken waiter held. */
    method HandOver(m: int)
      requires dispatcher.Valid() && InRange(State()) && IsMutex(State().kernel, m)
      modifies `counts
      ensures counts == HandedOver(old(State()), m)
    {
      if dispatcher.mutexes[m].waiters != [] {
        var o := header[m];
        counts := counts[o := counts[o] - 1];
      }
    }

    lemma TerminateAllowed(s: System, t: int)
      requires SystemInvariant(s) && Enabled(s, Dispatch(DispatcherRuns.TerminateOp(t)))
      ensures InRange(s) && DispatcherRuns.Enabled(s.kernel, DispatcherRuns.TerminateOp(t))
      ensures KernelInvariant(s.kernel) && WellFormed(s.kernel) && IsThread(s.kernel, t)
      ensures var owned := s.kernel.threads[t].owned;
              && (owned != NONE ==>
                    IsMutex(s.kernel, owned) && t == s.kernel.current && DispatcherRuns.CurrentRuns(s.kernel)
                    && s.kernel.mutexes[owned].owner == t)
              && Dispatched(s, DispatcherRuns.TerminateOp(t)) ==
                 s.(kernel := TerminatedThread(s.kernel, t),
                    counts := if owned == NONE then s.counts else HandedOver(s, owned))
    {
      hide TerminatedThread;
    }

    method TerminateThread(t: int)
      requires Valid() && Enabled(State(), Dispatch(DispatcherRuns.TerminateOp(t)))
      modifies `counts, dispatcher, dispatcher.ready, dispatcher.ready.Repr
      ensures Valid() && State() == Dispatched(old(State()), DispatcherRuns.TerminateOp(t))
    {
      hide SystemInvariant, InRange, WellFormed, KernelInvariant, Conserved, Dispatcher.Valid, Dispatched, Enabled;
      hide TerminatedThread, HandedOver;
      ghost var s := State();
      ApplyKeeps(s, Dispatch(DispatcherRuns.TerminateOp(t)));
      TerminateAllowed(s, t);
      var owned := dispatcher.threads[t].owned;
      if owned != NONE {
        HandOver(owned);
      }
      dispatcher.TerminateThread(t);
      assert State() == Dispatched(s, DispatcherRuns.TerminateOp(t));
    }
  }
}
