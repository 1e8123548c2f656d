/** What each object-manager function of BLUE_KERNEL/BlueKernel_lvl3.c does to counters and handle tables, and
    that a reference taken keeps its object alive until it is given back. */
module ReferenceEffects {
  import opened Kernels
  import opened Inheritance
  import opened References
  import DispatcherRuns

  /** Only object o's counter changed, by n. */
  predicate CountedBy(s: System, s': System, o: int, n: int) {
    && |s'.counts| == |s.counts|
    && forall x | 0 <= x < |s.counts| :: s'.counts[x] == s.counts[x] + if x == o then n else 0
  }

  predicate RestSame(s: System, s': System) {
    s'.kernel == s.kernel && s'.mutexOf == s.mutexOf && s'.header == s.header
  }

  /** CreateMutexObject: one more object, counted once, and one more mutex, free and with nobody waiting. */
  lemma CreateMutexOutcome(s: System)
    requires InRange(s)
    ensures var s' := CreatedMutex(s);
            var o, m := |s.counts|, |s.kernel.mutexes|;
            && s'.counts == s.counts + [1] && s'.handles == s.handles
            && s'.created == s.created + [true] && s'.borrowed == s.borrowed + [0]
            && |s'.kernel.mutexes| == m + 1 && s'.kernel.mutexes[..m] == s.kernel.mutexes
            && !s'.kernel.mutexes[m].locked && s'.kernel.mutexes[m].owner == NONE && s'.kernel.mutexes[m].waiters == []
            && s'.header == s.header + [o] && s'.mutexOf == s.mutexOf + [m]
            && s'.kernel == s.kernel.(mutexes := s'.kernel.mutexes)
  {
    hide WellFormed;
  }

  lemma CreateEventOutcome(s: System)
    requires InRange(s)
    ensures var s' := CreatedEvent(s);
            var e := |s.kernel.events|;
            && s'.counts == s.counts + [1] && s'.handles == s.handles
            && s'.created == s.created + [true] && s'.borrowed == s.borrowed + [0]
            && |s'.kernel.events| == e + 1 && s'.kernel.events[..e] == s.kernel.events
            && !s'.kernel.events[e].signaled && s'.kernel.events[e].waiters == []
            && s'.header == s.header && s'.mutexOf == s.mutexOf + [NULL]
            && s'.kernel == s.kernel.(events := s'.kernel.events)
  {
    hide WellFormed;
  }

  /** Handle h of process p: thirty-two to a process, one process after the other. */
  function Entry(handles: seq<int>, p: nat, h: nat): int
    requires |handles| == 320 && p < 10 && h < 32
  {
    handles[32 * p + h]
  }

  /** ObInsertHandle: the lowest empty handle of the process names the object, which is counted once more. */
  lemma InsertOutcome(s: System, p: nat, o: int) returns (h: nat)
    requires InRange(s) && p < MAX_PROCESSES && IsObject(s, o) && FirstEmpty(s.handles, p, 0) < MAX_HANDLES
    ensures var s' := Inserted(s, p, o);
            && h < 32 && Entry(s.handles, p, h) == NULL && (forall g | 0 <= g < h :: Entry(s.handles, p, g) != NULL)
            && s'.handles == s.handles[32 * p + h := o]
            && CountedBy(s, s', o, 1) && RestSame(s, s') && s'.created == s.created && s'.borrowed == s.borrowed
  {
    hide WellFormed, Headed, FirstEmpty;
    h := FirstEmpty(s.handles, p, 0);
    NothingBefore(s.handles, p, 0);
  }

  lemma {:induction false} NothingBefore(handles: seq<int>, p: nat, h: nat)
    requires |handles| == SLOTS && p < MAX_PROCESSES && h <= MAX_HANDLES
    ensures forall g | h <= g < FirstEmpty(handles, p, h) :: Entry(handles, p, g) != NULL
    decreases MAX_HANDLES - h
  {
    if h < MAX_HANDLES && handles[SlotOf(p, h)] != NULL {
      assert Entry(handles, p, h) != NULL;
      NothingBefore(handles, p, h + 1);
    }
  }

  /** The table is full exactly when no handle is empty. */
  lemma FullIff(s: System, p: nat)
    requires InRange(s) && p < MAX_PROCESSES
    ensures FirstEmpty(s.handles, p, 0) == 32 <==> forall h | 0 <= h < 32 :: Entry(s.handles, p, h) != NULL
  {
    hide WellFormed, Headed;
    NothingBefore(s.handles, p, 0);
    if FirstEmpty(s.handles, p, 0) < 32 {
      assert Entry(s.handles, p, FirstEmpty(s.handles, p, 0)) == NULL;
    }
  }

  /** ObReferenceObjectByHandle: the object named is counted once more and is now held by the caller; an empty
      or invalid handle changes nothing. */
  lemma LookupOutcome(s: System, p: nat, h: int)
    requires InRange(s) && p < MAX_PROCESSES
    ensures var s' := LookedUp(s, p, h);
            if 0 <= h < 32 && s.handles[32 * p + h] != NULL then
              var o := s.handles[32 * p + h];
              && CountedBy(s, s', o, 1) && RestSame(s, s') && s'.handles == s.handles && s'.created == s.created
              && s'.borrowed == s.borrowed[o := s.borrowed[o] + 1]
            else s' == s
  {
    hide WellFormed;
  }

  /** ObCloseHandle: the handle is empty and the object counted once less. */
  lemma CloseOutcome(s: System, p: nat, h: int)
    requires InRange(s) && p < MAX_PROCESSES
    ensures var s' := Closed(s, p, h);
            if 0 <= h < 32 && s.handles[32 * p + h] != NULL then
              && CountedBy(s, s', s.handles[32 * p + h], -1) && s'.handles == s.handles[32 * p + h := NULL]
              && RestSame(s, s') && s'.created == s.created && s'.borrowed == s.borrowed
            else s' == s
  {
    hide WellFormed;
  }

  /** ObDereferenceObject: counted once less. It is freed exactly when that was the last reference. */
  lemma DereferenceOutcome(s: System, o: int)
    requires Conserved(s) && IsObject(s, o)
    ensures s.borrowed[o] > 0 ==>
              var s' := Returned(s, o);
              && CountedBy(s, s', o, -1) && s'.borrowed == s.borrowed[o := s.borrowed[o] - 1]
              && RestSame(s, s') && s'.handles == s.handles && s'.created == s.created
    ensures s.created[o] ==>
              var s' := Disowned(s, o);
              && CountedBy(s, s', o, -1) && s'.created == s.created[o := false]
              && RestSame(s, s') && s'.handles == s.handles && s'.borrowed == s.borrowed
  {
    hide WellFormed;
  }

  /** The two steps of the dispatcher that count: a caller that blocks on a mutex, and a hand-off. */
  lemma BlockOutcome(s: System, m: int)
    requires InRange(s) && DispatcherRuns.Enabled(s.kernel, DispatcherRuns.AcquireOp(m))
    ensures CountedBy(s, Dispatched(s, DispatcherRuns.AcquireOp(m)), s.header[m], if s.kernel.mutexes[m].locked then 1 else 0)
  {
    hide DispatcherRuns.Apply, WellFormed;
  }

  lemma HandOffOutcome(s: System, op: DispatcherRuns.Operation, m: int)
    requires InRange(s) && DispatcherRuns.Enabled(s.kernel, op) && HandsOver(s, op, m)
    ensures CountedBy(s, Dispatched(s, op), s.header[m], -1)
  {
    hide DispatcherRuns.Apply, WellFormed;
  }

  // ----- A reference keeps its object alive -----

  /** Whatever else happens, an object looked up by a caller that never gives the reference back stays live. */
  lemma {:induction false} BorrowKeepsAlive(s: System, ops: seq<Operation>, o: int)
    requires SystemInvariant(s) && RunEnabled(s, ops) && IsObject(s, o) && s.borrowed[o] > 0 && Return(o) !in ops
    ensures Live(Run(s, ops), o)
    decreases ops
  {
    if ops == [] {
      FreedIffUnreferenced(s, o);
    } else {
      ApplyKeeps(s, ops[0]);
      BorrowKept(s, ops[0], o);
      hide SystemInvariant, Enabled, Apply, Live;
      BorrowKeepsAlive(Apply(s, ops[0]), ops[1..], o);
    }
  }

  lemma BorrowKept(s: System, op: Operation, o: int)
    requires SystemInvariant(s) && Enabled(s, op) && IsObject(s, o) && s.borrowed[o] > 0 && op != Return(o)
    ensures IsObject(Apply(s, op), o) && Apply(s, op).borrowed[o] > 0
  {
    hide KernelInvariant, WellFormed, Owed, Counted;
    match op
    case Destroy(p) => DestroyEffect(s, p, 0);
    case _ =>
  }

  /** An object looked up by handle is live at the end of every run that starts with the lookup and never returns
      the reference; its handles may be closed, its process destroyed and its creator gone. */
  lemma LookupKeepsAlive(s: System, ops: seq<Operation>, p: nat, h: int, o: int)
    requires SystemInvariant(s) && RunEnabled(s, ops) && p < MAX_PROCESSES && Named(s, p, h) == o != NULL
    requires ops != [] && ops[0] == Lookup(p, h) && Return(o) !in ops[1..]
    ensures Live(Run(s, ops), o)
  {
    ApplyKeeps(s, ops[0]);
    LookupBorrows(s, p, h);
    hide SystemInvariant, Enabled, Apply, Live;
    BorrowKeepsAlive(Apply(s, ops[0]), ops[1..], o);
  }

  lemma LookupBorrows(s: System, p: nat, h: int)
    requires SystemInvariant(s) && p < MAX_PROCESSES && Named(s, p, h) != NULL
    ensures var o := Named(s, p, h);
            IsObject(s, o) && IsObject(LookedUp(s, p, h), o) && LookedUp(s, p, h).borrowed[o] > 0
  {
    hide KernelInvariant, WellFormed, Owed;
  }

  /** A handle keeps its object alive until it is closed or its process destroyed. */
  lemma {:induction false} HandleKeepsAlive(s: System, ops: seq<Operation>, p: nat, h: nat)
    requires SystemInvariant(s) && RunEnabled(s, ops) && p < MAX_PROCESSES && h < MAX_HANDLES
    requires Named(s, p, h) != NULL && Close(p, h) !in ops && Destroy(p) !in ops
    ensures InRange(Run(s, ops)) && Named(Run(s, ops), p, h) == Named(s, p, h) && Live(Run(s, ops), Named(s, p, h))
    decreases ops
  {
    if ops == [] {
      CloseConserves(s, p, h);
    } else {
      ApplyKeeps(s, ops[0]);
      HandleKept(s, ops[0], p, h);
      hide SystemInvariant, Enabled, Apply, Live, Named;
      HandleKeepsAlive(Apply(s, ops[0]), ops[1..], p, h);
    }
  }

  lemma HandleKept(s: System, op: Operation, p: nat, h: nat)
    requires SystemInvariant(s) && Enabled(s, op) && p < MAX_PROCESSES && h < MAX_HANDLES
    requires Named(s, p, h) != NULL && op != Close(p, h) && op != Destroy(p) && InRange(Apply(s, op))
    ensures Named(Apply(s, op), p, h) == Named(s, p, h)
  {
    hide KernelInvariant, WellFormed, Owed, Counted;
    match op
    case Destroy(q) => DestroyEffect(s, q, 0);
    case _ =>
  }
}
