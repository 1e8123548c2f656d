/** Nested interrupts and deferred procedure calls in BLUE_KERNEL/BlueKernel_lvl3.c: the IRQL stack, and the
    DPC ring that is drained on the way down from a device level. */
module Irql {
  const PASSIVE_LEVEL := 0
  const DISPATCH_LEVEL := 2
  const MACHINE_CHECK := 5
  const MAX_NESTING := 8
  const MAX_QUEUE := 16

  /** What a service routine does: queue DPCs and trigger interrupts, whose routines may nest to any depth. */
  datatype Isr =
    | Done
    | Queue(dpc: int, rest: Isr)
    | Trigger(level: int, isr: Isr, rest: Isr)

  /** The levels pushed, the current level, the DPCs waiting, and the DPCs run so far with the level each ran
      at. */
  datatype State = State(stack: seq<int>, level: int, pending: seq<int>, ran: seq<(int, int)>)

  function Top(stack: seq<int>): int {
    if stack == [] then PASSIVE_LEVEL else stack[|stack| - 1]
  }

  /** PushIrql, with no bugcheck: room on the stack and a higher level. */
  predicate CanPush(s: State, level: int) {
    |s.stack| < MAX_NESTING && (s.stack != [] ==> level > Top(s.stack))
  }

  function Pushed(s: State, level: int): State {
    s.(stack := s.stack + [level], level := level)
  }

  function At(dpcs: seq<int>, level: int): (r: seq<(int, int)>)
    ensures |r| == |dpcs| && forall i | 0 <= i < |r| :: r[i] == (dpcs[i], level)
  {
    seq(|dpcs|, i requires 0 <= i < |dpcs| => (dpcs[i], level))
  }

  /** PopIrql: a return from above DISPATCH_LEVEL to below it runs every waiting DPC at DISPATCH_LEVEL. */
  function Popped(s: State): State
    requires s.stack != []
  {
    var stack := s.stack[..|s.stack| - 1];
    if s.level > DISPATCH_LEVEL && Top(stack) < DISPATCH_LEVEL then
      State(stack, Top(stack), [], s.ran + At(s.pending, DISPATCH_LEVEL))
    else s.(stack := stack, level := Top(stack))
  }

  /** Running a service routine; TriggerInterrupt masks what is not above the current level. */
  function Served(s: State, isr: Isr): (s': State)
    decreases isr, 0
  {
    match isr
    case Done => s
    case Queue(d, rest) => Served(s.(pending := s.pending + [d]), rest)
    case Trigger(level, body, rest) => Served(Triggered(s, level, body), rest)
  }

  function Triggered(s: State, level: int, isr: Isr): (s': State)
    decreases isr, 1
  {
    if level <= s.level then s
    else
      var s1 := Served(Pushed(s, level), isr);
      if s1.stack == [] then s1 else Popped(s1)
  }

  /** The DPCs a routine queues, in order, when it runs at a level. */
  function Queued(isr: Isr, level: int): seq<int> {
    match isr
    case Done => []
    case Queue(d, rest) => [d] + Queued(rest, level)
    case Trigger(l, body, rest) => (if l <= level then [] else Queued(body, l)) + Queued(rest, level)
  }

  predicate Levels(isr: Isr) {
    match isr
    case Done => true
    case Queue(_, rest) => Levels(rest)
    case Trigger(l, body, rest) => l <= MACHINE_CHECK && Levels(body) && Levels(rest)
  }

  /** The levels at which a routine tree triggers interrupts. */
  function LevelsOf(isr: Isr): set<int> {
    match isr
    case Done => {}
    case Queue(_, rest) => LevelsOf(rest)
    case Trigger(l, body, rest) => {l} + LevelsOf(body) + LevelsOf(rest)
  }

  predicate Bounded(levels: set<int>) {
    forall l | l in levels :: l <= MACHINE_CHECK
  }

  lemma SplitBound(a: set<int>, b: set<int>)
    ensures Bounded(a + b) <==> Bounded(a) && Bounded(b)
  {
    if Bounded(a + b) {
      assert forall l | l in a :: l in a + b;
      assert forall l | l in b :: l in a + b;
    }
  }

  lemma NothingBounded()
    ensures Bounded({})
  {
  }

  lemma OneBounded(l: int)
    ensures Bounded({l}) <==> l <= MACHINE_CHECK
  {
    assert l in {l};
  }

  /** Any tree of triggers up to MACHINE_CHECK is allowed. */
  lemma {:induction false} LevelsIff(isr: Isr)
    ensures Levels(isr) <==> Bounded(LevelsOf(isr))
  {
    hide Bounded;
    match isr
    case Done => NothingBounded();
    case Queue(_, rest) =>
      LevelsIff(rest);
      assert LevelsOf(isr) == LevelsOf(rest);
    case Trigger(l, body, rest) =>
      LevelsIff(body);
      LevelsIff(rest);
      SplitBound({l}, LevelsOf(body) + LevelsOf(rest));
      SplitBound(LevelsOf(body), LevelsOf(rest));
      assert LevelsOf(isr) == {l} + (LevelsOf(body) + LevelsOf(rest));
      OneBounded(l);
  }

  /** The stack is strictly increasing above PASSIVE_LEVEL, and the current level is its top. */
  ghost predicate Nested(s: State) {
    && s.level == Top(s.stack)
    && (forall i | 0 <= i < |s.stack| :: PASSIVE_LEVEL < s.stack[i] <= MACHINE_CHECK)
    && (forall i, j | 0 <= i < j < |s.stack| :: s.stack[i] < s.stack[j])
  }

  lemma {:induction false} IncreasingStackFits(stack: seq<int>, top: int)
    requires forall i | 0 <= i < |stack| :: PASSIVE_LEVEL < stack[i] <= top
    requires forall i, j | 0 <= i < j < |stack| :: stack[i] < stack[j]
    ensures |stack| <= if top < 0 then 0 else top
    decreases |stack|
  {
    if stack != [] {
      IncreasingStackFits(stack[..|stack| - 1], stack[|stack| - 1] - 1);
    }
  }

  /** A trigger that is not masked never overflows the stack and always raises the level. */
  lemma UnmaskedPushes(s: State, level: int)
    requires Nested(s) && s.level < level <= MACHINE_CHECK
    ensures CanPush(s, level) && Nested(Pushed(s, level))
  {
    IncreasingStackFits(s.stack, MACHINE_CHECK);
  }

  /** Every routine returns at the level, and with the stack, it started with. */
  lemma {:induction false} ServedRestores(s: State, isr: Isr)
    requires Nested(s) && Levels(isr)
    ensures Served(s, isr).stack == s.stack && Served(s, isr).level == s.level
    decreases isr, 0
  {
    match isr
    case Done =>
    case Queue(d, rest) => ServedRestores(s.(pending := s.pending + [d]), rest);
    case Trigger(level, body, rest) =>
      TriggeredRestores(s, level, body);
      ServedRestores(Triggered(s, level, body), rest);
  }

  lemma {:induction false} TriggeredRestores(s: State, level: int, isr: Isr)
    requires Nested(s) && level <= MACHINE_CHECK && Levels(isr)
    ensures Triggered(s, level, isr).stack == s.stack && Triggered(s, level, isr).level == s.level
    decreases isr, 1
  {
    if level > s.level {
      UnmaskedPushes(s, level);
      ServedRestores(Pushed(s, level), isr);
    }
  }

  /** The DPCs that have run or still wait, oldest first. */
  function Dpcs(ran: seq<(int, int)>): seq<int> {
    seq(|ran|, i requires 0 <= i < |ran| => ran[i].0)
  }

  function Accounted(s: State): seq<int> {
    Dpcs(s.ran) + s.pending
  }

  /** Every DPC so far ran at DISPATCH_LEVEL. */
  predicate RanAtDispatch(s: State) {
    forall i | 0 <= i < |s.ran| :: s.ran[i].1 == DISPATCH_LEVEL
  }

  /** Each queued DPC runs at most once, in the order queued, and is waiting until it has run. */
  lemma {:induction false} ServedConserves(s: State, isr: Isr)
    requires Nested(s) && Levels(isr) && RanAtDispatch(s)
    ensures Accounted(Served(s, isr)) == Accounted(s) + Queued(isr, s.level) && RanAtDispatch(Served(s, isr))
    decreases isr, 0
  {
    match isr
    case Done =>
    case Queue(d, rest) =>
      ServedConserves(s.(pending := s.pending + [d]), rest);
    case Trigger(level, body, rest) =>
      TriggeredRestores(s, level, body);
      TriggeredConserves(s, level, body);
      ServedConserves(Triggered(s, level, body), rest);
  }

  lemma {:induction false} TriggeredConserves(s: State, level: int, isr: Isr)
    requires Nested(s) && level <= MACHINE_CHECK && Levels(isr) && RanAtDispatch(s)
    ensures Accounted(Triggered(s, level, isr)) ==
            Accounted(s) + if level <= s.level then [] else Queued(isr, level)
    ensures RanAtDispatch(Triggered(s, level, isr))
    decreases isr, 1
  {
    if level > s.level {
      UnmaskedPushes(s, level);
      ServedRestores(Pushed(s, level), isr);
      ServedConserves(Pushed(s, level), isr);
      PopConserves(Served(Pushed(s, level), isr));
    }
  }

  lemma PopConserves(s: State)
    requires s.stack != []
    ensures Accounted(Popped(s)) == Accounted(s)
    ensures RanAtDispatch(s) ==> RanAtDispatch(Popped(s))
  {
  }

  /** At or above DISPATCH_LEVEL nothing runs: what a routine queues is appended and left waiting. */
  lemma {:induction false} ServedDefers(s: State, isr: Isr)
    requires Nested(s) && Levels(isr) && s.level >= DISPATCH_LEVEL
    ensures Served(s, isr) == s.(pending := s.pending + Queued(isr, s.level))
    decreases isr, 0
  {
    hide Nested, Triggered, Popped;
    match isr
    case Done => assert s.pending + [] == s.pending;
    case Queue(d, rest) =>
      NestedIgnoresPending(s, s.pending + [d]);
      ServedDefers(s.(pending := s.pending + [d]), rest);
      Regroup(s.pending, [d], Queued(rest, s.level));
    case Trigger(level, body, rest) =>
      var queued := if level <= s.level then [] else Queued(body, level);
      TriggeredDefers(s, level, body);
      NestedIgnoresPending(s, s.pending + queued);
      ServedDefers(s.(pending := s.pending + queued), rest);
      Regroup(s.pending, queued, Queued(rest, s.level));
  }

  lemma NestedIgnoresPending(s: State, pending: seq<int>)
    requires Nested(s)
    ensures Nested(s.(pending := pending))
  {
  }

  lemma Regroup(a: seq<int>, b: seq<int>, c: seq<int>)
    ensures (a + b) + c == a + (b + c)
  {
  }

  lemma {:induction false} TriggeredDefers(s: State, level: int, isr: Isr)
    requires Nested(s) && level <= MACHINE_CHECK && Levels(isr) && s.level >= DISPATCH_LEVEL
    ensures Triggered(s, level, isr) ==
            s.(pending := s.pending + if level <= s.level then [] else Queued(isr, level))
    decreases isr, 1
  {
    if level > s.level {
      UnmaskedPushes(s, level);
      ServedDefers(Pushed(s, level), isr);
      hide Served, Queued, Nested;
      assert Pushed(s, level).stack[..|s.stack|] == s.stack;
    } else {
      assert s.pending + [] == s.pending;
    }
  }

  /** A device interrupt taken below DISPATCH_LEVEL: after the outermost routine has returned, all its DPCs,
      and those of every routine nested in it, have run once each, in order, at DISPATCH_LEVEL. */
  lemma DeviceInterruptRunsAll(s: State, level: int, isr: Isr)
    requires Nested(s) && Levels(isr) && s.level < DISPATCH_LEVEL < level <= MACHINE_CHECK
    ensures Triggered(s, level, isr) ==
            State(s.stack, s.level, [], s.ran + At(s.pending + Queued(isr, level), DISPATCH_LEVEL))
  {
    UnmaskedPushes(s, level);
    ServedDefers(Pushed(s, level), isr);
    assert Pushed(s, level).stack[..|s.stack|] == s.stack;
  }

  /** From PASSIVE_LEVEL, an interrupt at or above DISPATCH_LEVEL leaves no DPC waiting exactly when it is
      above it, unless there was none to run: returning from DISPATCH_LEVEL itself drains nothing. */
  lemma DrainedIff(s: State, level: int, isr: Isr)
    requires Nested(s) && Levels(isr) && s.level < DISPATCH_LEVEL <= level <= MACHINE_CHECK
    ensures Triggered(s, level, isr).pending == [] <==>
            level > DISPATCH_LEVEL || s.pending + Queued(isr, level) == []
  {
    UnmaskedPushes(s, level);
    ServedDefers(Pushed(s, level), isr);
  }

  // ----- In place -----

  class Cpu {
    const irqlStack: array<int>
    var irqlTop: int
    var currentIrql: int
    const dpcQueue: array<int>
    var dpcHead: nat
    var dpcTail: nat
    var dpcCount: nat
    var ran: seq<(int, int)>

    ghost predicate Valid()
      reads this
    {
      && irqlStack.Length == MAX_NESTING && -1 <= irqlTop < MAX_NESTING && irqlStack != dpcQueue
      && dpcQueue.Length == MAX_QUEUE && dpcHead < MAX_QUEUE && dpcCount <= MAX_QUEUE
      && dpcTail == Slot(dpcHead, dpcCount)
    }

    static function Slot(head: nat, k: nat): (s: nat)
      requires head < MAX_QUEUE && k <= MAX_QUEUE
      ensures s == if head + k < MAX_QUEUE then head + k else head + k - MAX_QUEUE
    {
      (head + k) % MAX_QUEUE
    }

    ghost function Pending(): (q: seq<int>)
      requires Valid()
      reads this, dpcQueue
      ensures |q| == dpcCount
    {
      seq(dpcCount, k requires 0 <= k < dpcCount && Valid() reads this, dpcQueue => dpcQueue[Slot(dpcHead, k)])
    }

    ghost function Abs(): State
      requires Valid()
      reads this, irqlStack, dpcQueue
    {
      State(irqlStack[..irqlTop + 1], currentIrql, Pending(), ran)
    }

    constructor ()
      ensures Valid() && fresh(irqlStack) && fresh(dpcQueue)
      ensures Abs() == State([], PASSIVE_LEVEL, [], []) && Nested(Abs())
    {
      irqlStack := new int[MAX_NESTING];
      dpcQueue := new int[MAX_QUEUE];
      irqlTop, currentIrql, dpcHead, dpcTail, dpcCount, ran := -1, PASSIVE_LEVEL, 0, 0, 0, [];
    }

    method QueueDpc(d: int)
      requires Valid() && |Abs().pending| < MAX_QUEUE
      modifies `dpcTail, `dpcCount, dpcQueue
      ensures Valid() && Abs() == old(Abs()).(pending := old(Abs()).pending + [d])
    {
      dpcQueue[dpcTail] := d;
      dpcTail := Slot(dpcTail, 1);
      dpcCount := dpcCount + 1;
      assert forall k | 0 <= k < dpcCount - 1 :: Slot(dpcHead, k) != Slot(dpcHead, dpcCount - 1);
    }

    method DrainDpcQueue()
      requires Valid()
      modifies `dpcHead, `dpcCount, `ran
      ensures Valid()
      ensures Abs() == if currentIrql != DISPATCH_LEVEL then old(Abs())
                       else old(Abs()).(pending := [], ran := old(ran) + At(old(Pending()), DISPATCH_LEVEL))
    {
      if currentIrql != DISPATCH_LEVEL {
        return;
      }
      hide At;
      ghost var q := Pending();
      ghost var n := 0;
      NoneRun();
      while dpcCount > 0
        invariant Valid() && n + dpcCount == |q| && Pending() == q[n..]
        invariant ran == old(ran) + At(q[..n], DISPATCH_LEVEL)
      {
        var routine := TakeDpc();
        ran := ran + [(routine, currentIrql)];
        NextRun(q, n);
        n := n + 1;
      }
      assert q[..n] == q;
    }

    lemma NoneRun()
      ensures At([], DISPATCH_LEVEL) == []
    {
    }

    lemma NextRun(q: seq<int>, n: nat)
      requires n < |q|
      ensures At(q[..n + 1], DISPATCH_LEVEL) == At(q[..n], DISPATCH_LEVEL) + [(q[n], DISPATCH_LEVEL)]
    {
    }

    method TakeDpc() returns (routine: int)
      requires Valid() && dpcCount > 0
      modifies `dpcHead, `dpcCount
      ensures Valid() && dpcCount == old(dpcCount) - 1
      ensures routine == old(Pending())[0] && Pending() == old(Pending())[1..]
    {
      routine := dpcQueue[dpcHead];
      ghost var first := dpcHead;
      dpcHead := Slot(dpcHead, 1);
      dpcCount := dpcCount - 1;
      assert forall k | 0 <= k < dpcCount :: Slot(dpcHead, k) == Slot(first, k + 1);
    }

    method PushIrql(level: int)
      requires Valid() && CanPush(Abs(), level)
      modifies `irqlTop, `currentIrql, irqlStack
      ensures Valid() && Abs() == Pushed(old(Abs()), level)
    {
      irqlTop := irqlTop + 1;
      irqlStack[irqlTop] := level;
      currentIrql := level;
    }

    method PopIrql()
      requires Valid() && Abs().stack != []
      modifies `irqlTop, `currentIrql, `dpcHead, `dpcCount, `ran
      ensures Valid() && Abs() == Popped(old(Abs()))
    {
      var oldLevel := currentIrql;
      irqlTop := irqlTop - 1;
      var newLevel := if irqlTop >= 0 then irqlStack[irqlTop] else PASSIVE_LEVEL;
      currentIrql := newLevel;
      if oldLevel > DISPATCH_LEVEL && newLevel < DISPATCH_LEVEL {
        currentIrql := DISPATCH_LEVEL;
        DrainDpcQueue();
        currentIrql := newLevel;
      }
      assert Abs().stack == old(Abs()).stack[..irqlTop + 1];
    }

    /** TriggerInterrupt. With room for every DPC the routine queues, no bugcheck can fire. */
    method TriggerInterrupt(level: int, isr: Isr)
      requires Valid() && Nested(Abs()) && level <= MACHINE_CHECK && Levels(isr)
      requires level > currentIrql ==> dpcCount + |Queued(isr, level)| <= MAX_QUEUE
      modifies this, irqlStack, dpcQueue
      ensures Valid() && Abs() == Triggered(old(Abs()), level, isr)
      decreases isr, 1
    {
      if level <= currentIrql {
        return;
      }
      UnmaskedPushes(Abs(), level);
      ServedRestores(Pushed(Abs(), level), isr);
      PushIrql(level);
      RunIsr(isr);
      PopIrql();
    }

    method RunIsr(isr: Isr)
      requires Valid() && Nested(Abs()) && Levels(isr)
      requires dpcCount + |Queued(isr, currentIrql)| <= MAX_QUEUE
      modifies this, irqlStack, dpcQueue
      ensures Valid() && Abs() == Served(old(Abs()), isr)
      decreases isr, 0
    {
      match isr
      case Done =>
      case Queue(d, rest) =>
        QueueDpc(d);
        RunIsr(rest);
      case Trigger(level, body, rest) =>
        ghost var s := Abs();
        TriggeredRestores(s, level, body);
        TriggeredNeedsRoom(s, level, body);
        TriggerInterrupt(level, body);
        RunIsr(rest);
    }

    /** Draining only makes room: a trigger adds at most what it queues. */
    lemma TriggeredNeedsRoom(s: State, level: int, isr: Isr)
      requires Nested(s) && level <= MACHINE_CHECK && Levels(isr)
      ensures |Triggered(s, level, isr).pending| <=
              |s.pending| + if level <= s.level then 0 else |Queued(isr, level)|
      decreases isr, 1
    {
      if level > s.level {
        UnmaskedPushes(s, level);
        ServedRestores(Pushed(s, level), isr);
        ServedNeedsRoom(Pushed(s, level), isr);
      }
    }

    lemma ServedNeedsRoom(s: State, isr: Isr)
      requires Nested(s) && Levels(isr)
      ensures |Served(s, isr).pending| <= |s.pending| + |Queued(isr, s.level)|
      decreases isr, 0
    {
      match isr
      case Done =>
      case Queue(d, rest) => ServedNeedsRoom(s.(pending := s.pending + [d]), rest);
      case Trigger(level, body, rest) =>
        TriggeredRestores(s, level, body);
        TriggeredNeedsRoom(s, level, body);
        ServedNeedsRoom(Triggered(s, level, body), rest);
    }
  }
}
