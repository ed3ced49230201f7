/** One operating-system alarm for a whole timer queue: it must never be set later than the earliest
    queued deadline, although several operations leave it alone. */
module TimerAlarms {
  import opened Wrappers
  import opened Sets
  import opened TimeVals
  import opened HeapSpec
  import opened TimerQueues

  /** The timers, the alarm's setting, and whether the alarm has gone off without that having been processed. */
  datatype Alarm = Alarm(ts: Timers, armed: Option<int>, fired: bool, now: int)

  const OFF := Alarm(Timers([], map[]), None, false, 0)

  /** The slot of a timer in the heap, or -1: its handle's index. */
  function Slot(heap: seq<Node<TimerId>>, id: TimerId): (i: int)
    ensures -1 <= i < |heap| && (i >= 0 ==> heap[i].hnd == id)
    ensures i == -1 ==> forall j :: 0 <= j < |heap| ==> heap[j].hnd != id
  {
    if heap == [] then -1
    else if heap[|heap| - 1].hnd == id then |heap| - 1
    else Slot(heap[..|heap| - 1], id)
  }

  /** `set_timer_from_queue`: the alarm is set for the root. A setting of zero switches it off; one before zero is
      refused and leaves it as it was. */
  function ArmFromQueue(a: Alarm): Alarm {
    if a.ts.heap == [] || a.ts.heap[0].prio.p == 0 then a.(armed := None, fired := false)
    else if a.ts.heap[0].prio.p < 0 then a
    else a.(armed := Some(a.ts.heap[0].prio.p), fired := false)
  }

  datatype Step =
    | Set(id: TimerId, deadline: int, interval: TimeVal, enable: bool)
    | Stop(id: TimerId)
    | Remove(id: TimerId)
    | Process
    | Tick(now: int)

  /** The heap after `set_timer`. */
  function Placed(heap: seq<Node<TimerId>>, id: TimerId, deadline: int): seq<Node<TimerId>> {
    var i := Slot(heap, id);
    if i >= 0 then Reprioritised(heap, i, Prio(deadline, 0)) else Inserted(heap, Entry(deadline, id))
  }

  /** What the queue's `set_priority` or `insert` answers. */
  predicate ReportsRoot(heap: seq<Node<TimerId>>, id: TimerId, deadline: int) {
    var i := Slot(heap, id);
    if i >= 0 then
      !Lt(heap[i].prio, Prio(deadline, 0)) && RiseEnd(heap[i := heap[i].(prio := Prio(deadline, 0))], i) == 0
    else RiseEnd(heap + [Entry(deadline, id)], |heap|) == 0
  }

  function Cut(heap: seq<Node<TimerId>>, id: TimerId): seq<Node<TimerId>> {
    if Slot(heap, id) >= 0 then Removed(heap, Slot(heap, id)) else heap
  }

  /** The data after `set_timer`: what waits for the callback stays. */
  function WithTimer(data: map<TimerId, Timer>, id: TimerId, interval: TimeVal, enable: bool): map<TimerId, Timer> {
    data[id := Timer(interval, 0, enable, if id in data then data[id].intervals else 0)]
  }

  predicate Possible(a: Alarm, s: Step) {
    match s
    case Set(_, _, interval, _) => 0 <= interval.ns < BILLION && Nanos(interval) >= 0
    case Tick(now) => now >= a.now
    case _ => true
  }

  ghost function TimersAfter(a: Alarm, s: Step): Timers {
    match s
    case Set(id, deadline, interval, enable) =>
      Timers(Placed(a.ts.heap, id, deadline), WithTimer(a.ts.data, id, interval, enable))
    case Stop(id) => a.ts.(heap := Cut(a.ts.heap, id))
    case Remove(id) => Timers(Cut(a.ts.heap, id), a.ts.data - {id})
    case Process => if TimersOk(a.ts) then Processed(a.ts, a.now) else a.ts
    case Tick(_) => a.ts
  }

  /** Is the alarm set anew? Not when a deadline is raised, a later timer stopped, or any timer removed. */
  predicate Rearms(a: Alarm, s: Step) {
    match s
    case Set(id, deadline, _, _) => ReportsRoot(a.ts.heap, id, deadline)
    case Stop(id) => Slot(a.ts.heap, id) == 0
    case Process => true
    case _ => false
  }

  ghost function Take(a: Alarm, s: Step): (b: Alarm)
    ensures b.ts == TimersAfter(a, s)
  {
    if s.Tick? then
      if a.armed.Some? && a.armed.value <= s.now then a.(armed := None, fired := true, now := s.now)
      else a.(now := s.now)
    else
      var b := a.(ts := TimersAfter(a, s));
      if Rearms(a, s) then ArmFromQueue(b) else b
  }

  // ---------- The queue's contents ----------

  lemma SlotIsOnly(heap: seq<Node<TimerId>>, id: TimerId)
    requires UniqueIds(multiset(heap))
    ensures Slot(heap, id) >= 0 ==> forall n :: n in multiset(heap) && n.hnd == id ==> n == heap[Slot(heap, id)]
    ensures Slot(heap, id) < 0 ==> forall n :: n in multiset(heap) ==> n.hnd != id
  {
    if Slot(heap, id) >= 0 {
      assert heap[Slot(heap, id)] in multiset(heap);
    }
  }

  lemma PlacedMultiset(heap: seq<Node<TimerId>>, id: TimerId, deadline: int)
    ensures var i := Slot(heap, id);
      multiset(Placed(heap, id, deadline))
      == (if i >= 0 then multiset(heap) - multiset{heap[i]} else multiset(heap)) + multiset{Entry(deadline, id)}
  {
    var i := Slot(heap, id);
    if i >= 0 {
      var g1 := heap[i := heap[i].(prio := Prio(deadline, 0))];
      UpdateMultiset(heap, i, g1[i]);
      if Lt(heap[i].prio, Prio(deadline, 0)) {
        SinkMultiset(g1, i);
      } else {
        RiseMultiset(g1, i);
      }
    } else {
      RiseMultiset(heap + [Entry(deadline, id)], |heap|);
    }
  }

  lemma StepKeepsTimers(a: Alarm, s: Step)
    requires TimersOk(a.ts) && Possible(a, s)
    ensures TimersOk(TimersAfter(a, s))
  {
    match s
    case Set(id, deadline, interval, enable) => PlacedIsOk(a.ts, id, deadline, interval, enable);
    case Stop(id) => CutIsUnique(a.ts.heap, id);
    case Remove(id) => CutIsUnique(a.ts.heap, id);
    case Process => ProcessedIsDone(a.ts, a.now);
    case Tick(_) =>
  }

  lemma PlacedIsOk(ts: Timers, id: TimerId, deadline: int, interval: TimeVal, enable: bool)
    requires TimersOk(ts) && Normal(interval) && Nanos(interval) >= 0
    ensures TimersOk(Timers(Placed(ts.heap, id, deadline), WithTimer(ts.data, id, interval, enable)))
  {
    var m, x, i := multiset(ts.heap), Entry(deadline, id), Slot(ts.heap, id);
    PlacedMultiset(ts.heap, id, deadline);
    SlotIsOnly(ts.heap, id);
    PlacedIsUnique(m, id, deadline);
    var m' := multiset(Placed(ts.heap, id, deadline));
    if i >= 0 {
      assert ts.heap[i] in m;
      assert m' == m - multiset{ts.heap[i]} + multiset{x};
    } else {
      assert m' == m + multiset{x};
    }
    assert UniqueIds(m') && forall n :: n in m' ==> n == x || n in m;
  }

  lemma PlacedIsUnique(m: multiset<Node<TimerId>>, id: TimerId, deadline: int)
    requires UniqueIds(m)
    ensures forall n :: n in m && n.hnd == id ==> UniqueIds(m - multiset{n} + multiset{Entry(deadline, id)})
    ensures (forall n :: n in m ==> n.hnd != id) ==> UniqueIds(m + multiset{Entry(deadline, id)})
  {
  }

  lemma CutIsUnique(heap: seq<Node<TimerId>>, id: TimerId)
    requires UniqueIds(multiset(heap))
    ensures UniqueIds(multiset(Cut(heap, id)))
    ensures forall n :: n in multiset(Cut(heap, id)) ==> n in multiset(heap) && n.hnd != id
  {
    var i := Slot(heap, id);
    SlotIsOnly(heap, id);
    if i >= 0 {
      RemovedMultiset(heap, i);
    }
  }

  // ---------- The order of the heap ----------

  ghost predicate InOrder(a: Alarm) { Ordered(a.ts.heap, |a.ts.heap|) }

  /** What a caller must see to: a timer is stopped or removed only from the root, from the last slot, or where the
      last node is not earlier than the slot's parent; and a deadline is raised only where that does not pass
      over the last node. */
  predicate KeepsOrder(a: Alarm, s: Step) {
    var heap := a.ts.heap;
    match s
    case Set(id, deadline, _, _) => RaiseKeepsOrder(heap, Slot(heap, id), deadline)
    case Stop(id) => CutKeepsOrder(heap, Slot(heap, id))
    case Remove(id) => CutKeepsOrder(heap, Slot(heap, id))
    case _ => true
  }

  predicate RaiseKeepsOrder(heap: seq<Node<TimerId>>, i: int, deadline: int)
    requires i < |heap|
  {
    i >= 0 && Lt(heap[i].prio, Prio(deadline, 0)) ==>
      !LastPassedOver(heap[i := heap[i].(prio := Prio(deadline, 0))], i)
  }

  predicate CutKeepsOrder(heap: seq<Node<TimerId>>, i: int)
    requires i < |heap|
  {
    i > 0 ==> i == |heap| - 1 || !Lt(heap[|heap| - 1].prio, heap[Parent(i)].prio)
  }

  /** Each step keeps the heap in order exactly under that condition. */
  lemma StepOrderedIff(a: Alarm, s: Step)
    requires TimersOk(a.ts) && InOrder(a) && Possible(a, s)
    ensures InOrder(Take(a, s)) <==> KeepsOrder(a, s)
  {
    match s
    case Set(id, deadline, _, _) => PlacedOrderedIff(a.ts.heap, id, deadline);
    case Stop(id) => CutOrderedIff(a.ts.heap, id);
    case Remove(id) => CutOrderedIff(a.ts.heap, id);
    case Process => ProcessedIsDone(a.ts, a.now);
    case Tick(_) =>
  }

  lemma PlacedOrderedIff(heap: seq<Node<TimerId>>, id: TimerId, deadline: int)
    requires Ordered(heap, |heap|)
    ensures Ordered(Placed(heap, id, deadline), |Placed(heap, id, deadline)|)
       <==> RaiseKeepsOrder(heap, Slot(heap, id), deadline)
  {
    var i := Slot(heap, id);
    if i >= 0 {
      ReprioritisedOrderedIff(heap, i, Prio(deadline, 0));
    } else {
      InsertedOrdered(heap, Entry(deadline, id));
    }
  }

  lemma CutOrderedIff(heap: seq<Node<TimerId>>, id: TimerId)
    requires Ordered(heap, |heap|)
    ensures Ordered(Cut(heap, id), |Cut(heap, id)|) <==> CutKeepsOrder(heap, Slot(heap, id))
  {
    if Slot(heap, id) >= 0 {
      RemovedOrderedIff(heap, Slot(heap, id));
    }
  }

  // ---------- The alarm ----------

  /** The alarm has gone off, or is set no later than the root's deadline. */
  ghost predicate NeverLate(a: Alarm) {
    a.ts.heap != [] ==> a.fired || (a.armed.Some? && a.armed.value <= a.ts.heap[0].prio.p)
  }

  /** Arming from the queue leaves the alarm in time exactly when the root's deadline is after zero, or before zero
      with the alarm in time already. */
  lemma ArmingIsInTimeIff(a: Alarm)
    ensures NeverLate(ArmFromQueue(a))
       <==> a.ts.heap == [] || a.ts.heap[0].prio.p > 0 || (a.ts.heap[0].prio.p < 0 && NeverLate(a))
  {
  }

  /** Every deadline is after zero, and the clock has not been before zero. */
  ghost predicate Positive(a: Alarm) {
    a.now >= 0 && forall n :: n in multiset(a.ts.heap) ==> n.prio.p > 0
  }

  ghost predicate Ok(a: Alarm) { TimersOk(a.ts) && InOrder(a) && NeverLate(a) && Positive(a) }

  /** Leaving the alarm alone is right when the root has become no earlier. */
  lemma LeftAloneIsInTime(a: Alarm, b: Alarm)
    requires NeverLate(a) && b.armed == a.armed && b.fired == a.fired
    requires b.ts.heap != [] ==> a.ts.heap != [] && a.ts.heap[0].prio.p <= b.ts.heap[0].prio.p
    ensures NeverLate(b)
  {
  }

  /** A timer that is not reported as the root, or whose deadline is raised, leaves no earlier root behind. */
  lemma UnreportedIsNoEarlier(heap: seq<Node<TimerId>>, id: TimerId, deadline: int)
    requires Ordered(heap, |heap|) && !ReportsRoot(heap, id, deadline) && forall n :: n in heap ==> n.prio.order == 0
    ensures heap != [] && Placed(heap, id, deadline) != [] && heap[0].prio.p <= Placed(heap, id, deadline)[0].prio.p
  {
    var i, prio := Slot(heap, id), Prio(deadline, 0);
    if i < 0 {
      RiseBelowRoot(heap + [Entry(deadline, id)], |heap|);
    } else {
      var g1 := heap[i := heap[i].(prio := prio)];
      if !Lt(heap[i].prio, prio) {
        RiseBelowRoot(g1, i);
      } else {
        RaisedRoot(heap, i, prio);
      }
    }
  }

  lemma {:induction false} RiseBelowRoot(g: seq<Node<TimerId>>, pos: int)
    requires 0 <= pos < |g| && RiseEnd(g, pos) != 0
    ensures Rise(g, pos)[0] == g[0] && pos > 0
    decreases pos
  {
    if pos > 0 && Lt(g[pos].prio, g[Parent(pos)].prio) {
      RiseBelowRoot(Swap(g, pos, Parent(pos)), Parent(pos));
    }
  }

  lemma RaisedRoot(heap: seq<Node<TimerId>>, i: int, prio: Prio)
    requires 0 <= i < |heap| && Ordered(heap, |heap|) && Lt(heap[i].prio, prio)
    requires prio.order == 0 && forall n :: n in heap ==> n.prio.order == 0
    ensures heap[0].prio.p <= Sink(heap[i := heap[i].(prio := prio)], i)[0].prio.p
  {
    var g1 := heap[i := heap[i].(prio := prio)];
    var g2 := Sink(g1, i);
    SinkMultiset(g1, i);
    assert g2[0] in multiset(g2) && g2[0] in multiset(g1);
    var j :| 0 <= j < |g1| && g1[j] == g2[0];
    RootIsLeast(heap, j);
    assert heap[j] in heap && heap[0] in heap;
  }

  /** The new root after any removal is no earlier. */
  lemma CutRootIsNoEarlier(heap: seq<Node<TimerId>>, id: TimerId)
    requires Ordered(heap, |heap|) && forall n :: n in heap ==> n.prio.order == 0
    ensures Cut(heap, id) != [] ==> heap != [] && heap[0].prio.p <= Cut(heap, id)[0].prio.p
  {
    var c := Cut(heap, id);
    if c != [] && Slot(heap, id) >= 0 {
      RemovedMultiset(heap, Slot(heap, id));
      assert c[0] in multiset(c) && c[0] in multiset(heap);
      var j :| 0 <= j < |heap| && heap[j] == c[0];
      RootIsLeast(heap, j);
      assert heap[j] in heap && heap[0] in heap;
    }
  }

  /** Setting, stopping, removing, processing and the passing of time keep the alarm in time. */
  lemma StepKeepsOk(a: Alarm, s: Step)
    requires Ok(a) && Possible(a, s) && KeepsOrder(a, s) && (s.Set? ==> s.deadline > 0)
    ensures Ok(Take(a, s))
  {
    StepKeepsTimers(a, s);
    StepOrderedIff(a, s);
    StepKeepsPositive(a, s);
    StepKeepsInTime(a, s);
  }

  lemma StepKeepsPositive(a: Alarm, s: Step)
    requires Ok(a) && Possible(a, s) && (s.Set? ==> s.deadline > 0)
    ensures Positive(Take(a, s))
  {
    DeadlinesAfter(a, s);
  }

  lemma DeadlinesAfter(a: Alarm, s: Step)
    requires Ok(a) && Possible(a, s) && (s.Set? ==> s.deadline > 0)
    ensures forall n :: n in multiset(TimersAfter(a, s).heap) ==> n.prio.p > 0
  {
    match s
    case Set(id, deadline, _, _) => PlacedIsPositive(a.ts.heap, id, deadline);
    case Stop(id) => CutIsUnique(a.ts.heap, id);
    case Remove(id) => CutIsUnique(a.ts.heap, id);
    case Process => ProcessedIsLater(a.ts, a.now);
    case Tick(_) =>
  }

  lemma PlacedIsPositive(heap: seq<Node<TimerId>>, id: TimerId, deadline: int)
    requires deadline > 0 && forall n :: n in multiset(heap) ==> n.prio.p > 0
    ensures forall n :: n in multiset(Placed(heap, id, deadline)) ==> n.prio.p > 0
  {
    PlacedMultiset(heap, id, deadline);
    var i, m, m' := Slot(heap, id), multiset(heap), multiset(Placed(heap, id, deadline));
    if i >= 0 {
      assert m' == m - multiset{heap[i]} + multiset{Entry(deadline, id)};
    }
    assert forall n :: n in m' ==> n in m || n == Entry(deadline, id);
  }

  lemma ProcessedIsLater(ts: Timers, now: int)
    requires TimersOk(ts) && Ordered(ts.heap, |ts.heap|)
    ensures forall n :: n in multiset(Processed(ts, now).heap) ==> n.prio.p > now
  {
    ProcessedIsDone(ts, now);
    var heap := Processed(ts, now).heap;
    forall n: Node<TimerId> | n in multiset(heap)
      ensures n.prio.p > now
    {
      assert n in heap;
      assert n.prio.p <= now ==> n.hnd in Due(heap, now);
    }
  }

  lemma StepKeepsInTime(a: Alarm, s: Step)
    requires Ok(a) && Possible(a, s) && Positive(Take(a, s))
    ensures NeverLate(Take(a, s))
  {
    var b := Take(a, s);
    HeapIsPlain(a.ts);
    if b.ts.heap != [] {
      assert b.ts.heap[0] in multiset(b.ts.heap);
    }
    match s
    case Set(id, deadline, _, _) =>
      if !ReportsRoot(a.ts.heap, id, deadline) {
        UnreportedIsNoEarlier(a.ts.heap, id, deadline);
        LeftAloneIsInTime(a, b);
      }
    case Stop(id) =>
      CutRootIsNoEarlier(a.ts.heap, id);
      if !Rearms(a, s) {
        LeftAloneIsInTime(a, b);
      }
    case Remove(id) =>
      CutRootIsNoEarlier(a.ts.heap, id);
      LeftAloneIsInTime(a, b);
    case Process =>
    case Tick(_) =>
  }

  lemma HeapIsPlain(ts: Timers)
    requires TimersOk(ts)
    ensures forall n :: n in ts.heap ==> n.prio.order == 0
  {
    assert forall n :: n in ts.heap ==> n in multiset(ts.heap);
  }

  // ---------- What the operations mean to a caller ----------

  /** Timer `id`, and no other, has been set: for this deadline, interval and reporting, with no expiries saved up
      and what waits for its callback kept. The alarm is touched only when the timer has come to the root. */
  ghost predicate IsSet(a: Alarm, b: Alarm, id: TimerId, deadline: int, interval: TimeVal, enable: bool) {
    && b.ts.data.Keys == a.ts.data.Keys + {id}
    && b.ts.data[id].interval == interval && b.ts.data[id].enabled == enable && b.ts.data[id].expiryCount == 0
    && b.ts.data[id].intervals == (if id in a.ts.data then a.ts.data[id].intervals else 0)
    && (forall x :: x in a.ts.data && x != id ==> b.ts.data[x] == a.ts.data[x])
    && (forall n :: n in b.ts.heap <==> n == Entry(deadline, id) || (n in a.ts.heap && n.hnd != id))
    && b.ts.heap != [] && b.now == a.now
    && (b.ts.heap[0].hnd != id ==> b.armed == a.armed && b.fired == a.fired)
  }

  lemma SetMeans(a: Alarm, id: TimerId, deadline: int, interval: TimeVal, enable: bool)
    requires TimersOk(a.ts)
    ensures IsSet(a, Take(a, Set(id, deadline, interval, enable)), id, deadline, interval, enable)
  {
    PlacedContents(a.ts.heap, id, deadline);
    if ReportsRoot(a.ts.heap, id, deadline) {
      ReportedIsRoot(a.ts.heap, id, deadline);
    }
  }

  lemma PlacedContents(heap: seq<Node<TimerId>>, id: TimerId, deadline: int)
    requires UniqueIds(multiset(heap))
    ensures Placed(heap, id, deadline) != []
    ensures forall n :: n in Placed(heap, id, deadline) <==> n == Entry(deadline, id) || (n in heap && n.hnd != id)
  {
    var i, h := Slot(heap, id), Placed(heap, id, deadline);
    PlacedMultiset(heap, id, deadline);
    SlotIsOnly(heap, id);
    assert forall n :: n in h <==> n in multiset(h);
    assert forall n :: n in heap <==> n in multiset(heap);
    if i >= 0 {
      assert heap[i] in multiset(heap) && multiset(heap)[heap[i]] == 1;
    }
    assert Entry(deadline, id) in h;
  }

  lemma ReportedIsRoot(heap: seq<Node<TimerId>>, id: TimerId, deadline: int)
    requires ReportsRoot(heap, id, deadline)
    ensures Placed(heap, id, deadline) != [] && Placed(heap, id, deadline)[0].hnd == id
  {
    var i := Slot(heap, id);
    if i >= 0 {
      RiseMultiset(heap[i := heap[i].(prio := Prio(deadline, 0))], i);
    } else {
      RiseMultiset(heap + [Entry(deadline, id)], |heap|);
    }
  }

  /** Timer `id` is no longer queued and everything else is as it was. The alarm is touched only when the timer was
      the root. */
  ghost predicate IsStopped(a: Alarm, b: Alarm, id: TimerId) {
    && b.ts.data == a.ts.data && b.now == a.now
    && (forall n :: n in b.ts.heap <==> n in a.ts.heap && n.hnd != id)
    && (a.ts.heap == [] || a.ts.heap[0].hnd != id ==> b.armed == a.armed && b.fired == a.fired)
  }

  lemma StopMeans(a: Alarm, id: TimerId)
    requires TimersOk(a.ts)
    ensures IsStopped(a, Take(a, Stop(id)), id)
  {
    CutContents(a.ts.heap, id);
  }

  /** A removed timer leaves nothing behind, and the alarm is not touched. */
  lemma RemoveMeans(a: Alarm, id: TimerId)
    requires TimersOk(a.ts)
    ensures var b := Take(a, Remove(id));
      && b.ts.data == a.ts.data - {id} && b.now == a.now && b.armed == a.armed && b.fired == a.fired
      && (forall n :: n in b.ts.heap <==> n in a.ts.heap && n.hnd != id)
  {
    CutContents(a.ts.heap, id);
  }

  lemma CutContents(heap: seq<Node<TimerId>>, id: TimerId)
    requires UniqueIds(multiset(heap))
    ensures forall n :: n in Cut(heap, id) <==> n in heap && n.hnd != id
  {
    var i, h := Slot(heap, id), Cut(heap, id);
    CutIsUnique(heap, id);
    SlotIsOnly(heap, id);
    assert forall n :: n in h <==> n in multiset(h);
    assert forall n :: n in heap <==> n in multiset(heap);
    if i >= 0 {
      RemovedMultiset(heap, i);
    }
  }

  /** Whenever the alarm is set anew, it is set for exactly the earliest queued deadline. */
  lemma RearmIsExact(a: Alarm, s: Step)
    requires Rearms(a, s) && InOrder(Take(a, s)) && Positive(Take(a, s)) && TimersOk(Take(a, s).ts)
    ensures var b := Take(a, s);
      if b.ts.heap == [] then b.armed.None?
      else && b.armed.Some? && !b.fired && (exists n :: n in b.ts.heap && n.prio.p == b.armed.value)
           && forall n :: n in b.ts.heap ==> b.armed.value <= n.prio.p
  {
    var b := Take(a, s);
    if b.ts.heap != [] {
      assert b.ts.heap[0] in multiset(b.ts.heap) && b.ts.heap[0] in b.ts.heap;
      RootIsEarliest(b.ts);
    }
  }

  /** After the alarm is set anew it goes off exactly when some queued timer is due, neither sooner nor later, and
      then does not go off again by itself. */
  lemma FiresExactlyWhenDue(a: Alarm, s: Step, now: int)
    requires Rearms(a, s) && InOrder(Take(a, s)) && Positive(Take(a, s)) && TimersOk(Take(a, s).ts)
    ensures var b := Take(a, s);
      var c := Take(b, Tick(now));
      && (c.fired <==> exists n :: n in b.ts.heap && n.prio.p <= now)
      && (c.fired ==> c.armed.None?) && (!c.fired ==> c.armed == b.armed)
      && c.ts == b.ts && c.now == now
  {
    RearmIsExact(a, s);
  }

  lemma RootIsEarliest(ts: Timers)
    requires TimersOk(ts) && ts.heap != [] && Ordered(ts.heap, |ts.heap|)
    ensures forall n :: n in ts.heap ==> ts.heap[0].prio.p <= n.prio.p
  {
    HeapIsPlain(ts);
    forall n | n in ts.heap
      ensures ts.heap[0].prio.p <= n.prio.p
    {
      var i :| 0 <= i < |ts.heap| && ts.heap[i] == n;
      RootIsLeast(ts.heap, i);
      assert ts.heap[0] in ts.heap;
    }
  }

  /** From the clock to the watcher: when the clock reaches the deadline of a queued timer the alarm has gone off, and
      processing then expires the timer. An enabled one has its watcher told and is disabled, a disabled one saves the
      expiries up; a one-shot timer is gone from the queue and a periodic one is queued again. */
  lemma DueIsReported(a: Alarm, n: Node<TimerId>, now: int)
    requires Ok(a) && n in a.ts.heap && n.prio.p <= now && a.now <= now
    ensures var b := Take(a, Tick(now));
      var c := Take(b, Process);
      && b.fired && n.hnd in a.ts.data && n.hnd in c.ts.data
      && var t, t' := a.ts.data[n.hnd], c.ts.data[n.hnd];
         && (t.enabled ==> !t'.enabled && t'.intervals > t.intervals + t.expiryCount)
         && (!t.enabled ==> !t'.enabled && t'.intervals == t.intervals && t'.expiryCount > t.expiryCount)
         && (Queued(c.ts.heap, n.hnd) <==> !OneShot(t))
         && (OneShot(t) ==> t'.intervals + t'.expiryCount == t.intervals + t.expiryCount + 1)
  {
    var id, e := n.hnd, Expiries(a.ts, now, n.hnd);
    assert n in multiset(a.ts.heap);
    RootIsEarliest(a.ts);
    DueTimersExpire(a.ts, now, n);
    ProcessedReports(a.ts, now, id);
    SumIsPositive(e);
    SumIsPositive(e[1..]);
  }

  lemma {:induction false} SumIsPositive(e: seq<int>)
    requires forall i :: 0 <= i < |e| ==> e[i] >= 1
    ensures Sum(e) >= |e|
  {
    if e != [] {
      SumIsPositive(e[1..]);
    }
  }

  /** A timer set in an empty queue and processed at its deadline or later is reported exactly when reporting was
      asked for, and stays queued exactly when it was given an interval. */
  lemma SetThenProcessed(a: Alarm, id: TimerId, deadline: int, interval: TimeVal, enable: bool)
    requires a.ts.heap == [] && TimersOk(a.ts) && Possible(a, Set(id, deadline, interval, enable)) && deadline <= a.now
    ensures var b := Take(Take(a, Set(id, deadline, interval, enable)), Process);
      && id in b.ts.data
      && (b.ts.data[id].intervals > (if id in a.ts.data then a.ts.data[id].intervals else 0) <==> enable)
      && (Queued(b.ts.heap, id) <==> Nanos(interval) > 0)
  {
    var s := Set(id, deadline, interval, enable);
    var b := Take(a, s);
    SetMeans(a, id, deadline, interval, enable);
    StepKeepsTimers(a, s);
    AloneInHeap(a.ts.heap, id, deadline);
    LoneTimerExpires(b.ts, id, deadline, a.now);
  }

  lemma AloneInHeap(heap: seq<Node<TimerId>>, id: TimerId, deadline: int)
    requires heap == []
    ensures Placed(heap, id, deadline) == [Entry(deadline, id)]
  {
    assert [] + [Entry(deadline, id)] == [Entry(deadline, id)];
  }

  lemma LoneTimerExpires(ts: Timers, id: TimerId, deadline: int, now: int)
    requires TimersOk(ts) && ts.heap == [Entry(deadline, id)] && deadline <= now && id in ts.data
    requires ts.data[id].expiryCount == 0
    ensures var ts' := Processed(ts, now);
      && id in ts'.data && (ts'.data[id].intervals > ts.data[id].intervals <==> ts.data[id].enabled)
      && (Queued(ts'.heap, id) <==> Nanos(ts.data[id].interval) > 0)
  {
    assert Entry(deadline, id) in ts.heap;
    DueTimersExpire(ts, now, Entry(deadline, id));
    ProcessedReports(ts, now, id);
    assert Nanos(ts.data[id].interval) >= 0;
    OneShotIffZero(ts.data[id]);
  }

  lemma OneShotIffZero(t: Timer)
    requires Normal(t.interval) && Nanos(t.interval) >= 0
    ensures OneShot(t) <==> Nanos(t.interval) == 0
  {
  }

  // ---------- Every run ----------

  predicate Good(a: Alarm, s: Step) {
    Possible(a, s) && (s.Set? ==> s.deadline > 0)
  }

  /** Any run whose deadlines are after zero. */
  ghost predicate PossibleRun(a: Alarm, run: seq<Step>)
    decreases |run|
  {
    run == [] || (Good(a, run[0]) && PossibleRun(Take(a, run[0]), run[1..]))
  }

  ghost function After(a: Alarm, run: seq<Step>): Alarm
    decreases |run|
  {
    if run == [] then a else After(Take(a, run[0]), run[1..])
  }

  ghost predicate KeepsOrderThroughout(a: Alarm, run: seq<Step>)
    decreases |run|
  {
    run == [] || (KeepsOrder(a, run[0]) && KeepsOrderThroughout(Take(a, run[0]), run[1..]))
  }

  ghost predicate InOrderThroughout(a: Alarm, run: seq<Step>)
    decreases |run|
  {
    InOrder(a) && (run == [] || InOrderThroughout(Take(a, run[0]), run[1..]))
  }

  // ---------- A stopped timer is silent ----------

  lemma UnqueuedStaysSilent(a: Alarm, s: Step, id: TimerId)
    requires TimersOk(a.ts) && Possible(a, s) && id in a.ts.data && !Queued(a.ts.heap, id)
    requires !(s.Set? && s.id == id) && s != Remove(id)
    ensures !Queued(Take(a, s).ts.heap, id) && id in Take(a, s).ts.data
    ensures Take(a, s).ts.data[id] == a.ts.data[id]
  {
    match s
    case Set(x, deadline, interval, enable) => PlacedContents(a.ts.heap, x, deadline);
    case Stop(x) => CutContents(a.ts.heap, x);
    case Remove(x) => CutContents(a.ts.heap, x);
    case Process =>
      ProcessedReports(a.ts, a.now, id);
      ProcessedIsDone(a.ts, a.now);
    case Tick(_) =>
  }

  /** A timer that is not queued, because it was stopped or has expired for good, is not queued and not reported in
      any continuation until it is set again. */
  lemma {:induction false} UnqueuedIsSilent(a: Alarm, run: seq<Step>, id: TimerId)
    requires TimersOk(a.ts) && PossibleRun(a, run) && id in a.ts.data && !Queued(a.ts.heap, id)
    requires forall s :: s in run ==> !(s.Set? && s.id == id) && s != Remove(id)
    ensures var b := After(a, run);
      !Queued(b.ts.heap, id) && id in b.ts.data && b.ts.data[id] == a.ts.data[id]
    decreases |run|
  {
    if run != [] {
      assert run[0] in run;
      UnqueuedStaysSilent(a, run[0], id);
      StepKeepsTimers(a, run[0]);
      assert forall s :: s in run[1..] ==> s in run;
      UnqueuedIsSilent(Take(a, run[0]), run[1..], id);
    }
  }

  lemma StoppedIsSilent(a: Alarm, run: seq<Step>, id: TimerId)
    requires TimersOk(a.ts) && id in a.ts.data && PossibleRun(Take(a, Stop(id)), run)
    requires forall s :: s in run ==> !(s.Set? && s.id == id) && s != Remove(id)
    ensures var b := After(Take(a, Stop(id)), run);
      !Queued(b.ts.heap, id) && id in b.ts.data && b.ts.data[id] == a.ts.data[id]
  {
    StopMeans(a, id);
    StepKeepsTimers(a, Stop(id));
    UnqueuedIsSilent(Take(a, Stop(id)), run, id);
  }

  /** Over every run the heap stays in order exactly when every stop, removal and raised deadline keeps it so. */
  lemma {:induction false} OrderKeptIff(a: Alarm, run: seq<Step>)
    requires TimersOk(a.ts) && InOrder(a) && PossibleRun(a, run)
    ensures InOrderThroughout(a, run) <==> KeepsOrderThroughout(a, run)
    decreases |run|
  {
    if run != [] {
      StepKeepsTimers(a, run[0]);
      StepOrderedIff(a, run[0]);
      if KeepsOrder(a, run[0]) {
        OrderKeptIff(Take(a, run[0]), run[1..]);
      }
    }
  }

  lemma {:induction false} RunKeepsOk(a: Alarm, run: seq<Step>)
    requires Ok(a) && PossibleRun(a, run) && KeepsOrderThroughout(a, run)
    ensures Ok(After(a, run))
    decreases |run|
  {
    if run != [] {
      StepKeepsOk(a, run[0]);
      RunKeepsOk(Take(a, run[0]), run[1..]);
    }
  }

  /** In every run that keeps the heap in order, no queued deadline is before the alarm's setting, unless the alarm
      has gone off and is waiting to be processed. */
  lemma AlarmIsNeverLate(run: seq<Step>, n: Node<TimerId>)
    requires PossibleRun(OFF, run) && KeepsOrderThroughout(OFF, run) && n in After(OFF, run).ts.heap
    ensures var a := After(OFF, run); a.fired || (a.armed.Some? && a.armed.value <= n.prio.p)
  {
    RunKeepsOk(OFF, run);
    var a := After(OFF, run);
    var i :| 0 <= i < |a.ts.heap| && a.ts.heap[i] == n;
    RootIsLeast(a.ts.heap, i);
  }

  // ---------- A late alarm ----------

  /** Some queued deadline is before the alarm's setting, and the alarm has not gone off. */
  ghost predicate Late(a: Alarm) {
    !a.fired && exists n :: n in a.ts.heap && (a.armed.None? || n.prio.p < a.armed.value)
  }

  /** Some continuation in which every step keeps the rule makes the alarm late. */
  ghost predicate CanBeLate(a: Alarm) {
    exists run :: PossibleRun(a, run) && KeepsOrderThroughout(a, run) && Late(After(a, run))
  }

  lemma LateLater(a: Alarm, s: Step)
    requires Good(a, s) && KeepsOrder(a, s) && CanBeLate(Take(a, s))
    ensures CanBeLate(a)
  {
    var b := Take(a, s);
    var rest :| PossibleRun(b, rest) && KeepsOrderThroughout(b, rest) && Late(After(b, rest));
    var run := [s] + rest;
    assert run[1..] == rest && run[0] == s;
    assert PossibleRun(a, run) && KeepsOrderThroughout(a, run) && After(a, run) == After(b, rest);
  }

  /** Slot `r` holds an earlier deadline than the slot above it. */
  predicate Inverted(g: seq<Node<TimerId>>, r: int) {
    0 < r < |g| && g[r].prio.p < g[Parent(r)].prio.p
  }

  /** No deadline is after `top`, the last node's; and below a deadline of `top` there is no other. */
  ghost predicate Topped(g: seq<Node<TimerId>>, top: int) {
    && |g| > 1 && g[|g| - 1].prio.p == top
    && (forall i :: 0 <= i < |g| ==> g[i].prio.p <= top && g[i].prio.order == 0)
    && (forall i {:trigger Parent(i)} :: 0 < i < |g| && g[Parent(i)].prio.p == top ==> g[i].prio.p == top)
  }

  /** A node that is not before the sinking one stays where it is. */
  lemma {:induction false} SinkLeavesLater<H>(g: seq<Node<H>>, pos: int, i: int)
    requires 0 <= pos < |g| && 0 <= i < |g| && i != pos && !Lt(g[i].prio, g[pos].prio)
    ensures Sink(g, pos)[i] == g[i]
    decreases |g| - pos
  {
    if pos * N + 1 < |g| && Lt(g[Chosen(g, pos)].prio, g[pos].prio) {
      SinkLeavesLater(Swap(g, pos, Chosen(g, pos)), Chosen(g, pos), i);
    }
  }

  /** Topped but for the children of `pos`, which holds a node due at `top` below an earlier one. */
  ghost predicate ToppedBelow(g: seq<Node<TimerId>>, pos: int, top: int) {
    && |g| > 1 && 0 <= pos < |g| && g[|g| - 1].prio.p == top && g[pos].prio == Prio(top, 0)
    && (pos > 0 ==> g[Parent(pos)].prio.p < top)
    && (forall i :: 0 <= i < |g| ==> g[i].prio.p <= top && g[i].prio.order == 0)
    && (forall i {:trigger Parent(i)} ::
          0 < i < |g| && Parent(i) != pos && g[Parent(i)].prio.p == top ==> g[i].prio.p == top)
  }

  lemma ToppedStep(g: seq<Node<TimerId>>, pos: int, top: int)
    requires ToppedBelow(g, pos, top) && pos * N + 1 < |g| && Lt(g[Chosen(g, pos)].prio, g[pos].prio)
    ensures ToppedBelow(Swap(g, pos, Chosen(g, pos)), Chosen(g, pos), top)
  {
    var c := Chosen(g, pos);
    var g' := Swap(g, pos, c);
    assert c != |g| - 1;
    forall i | 0 < i < |g| && Parent(i) != c && g'[Parent(i)].prio.p == top
      ensures g'[i].prio.p == top
    {
      assert Parent(i) != pos && i != pos;
    }
  }

  lemma {:induction false} SinkTops(g: seq<Node<TimerId>>, pos: int, top: int)
    requires ToppedBelow(g, pos, top)
    ensures Topped(Sink(g, pos), top)
    decreases |g| - pos
  {
    if pos * N + 1 < |g| && Lt(g[Chosen(g, pos)].prio, g[pos].prio) {
      ToppedStep(g, pos, top);
      SinkTops(Swap(g, pos, Chosen(g, pos)), Chosen(g, pos), top);
    } else {
      if pos * N + 1 < |g| {
        ChosenIsLeast(g, pos);
      }
      forall i | 0 < i < |g| && g[Parent(i)].prio.p == top
        ensures g[i].prio.p == top
      {
        if Parent(i) == pos {
          assert pos * N + 1 <= i < pos * N + 1 + N;
          assert i == |g| - 1 || !Lt(g[i].prio, g[Chosen(g, pos)].prio);
        }
      }
    }
  }

  /** While a latest node sinks, a node with an earlier child stays such a node, in its slot or one further up. */
  lemma {:induction false} SinkKeepsInversion(g: seq<Node<TimerId>>, pos: int, r: int, top: int) returns (r': int)
    requires ToppedBelow(g, pos, top) && Inverted(g, r) && Parent(r) != pos
    ensures Inverted(Sink(g, pos), r')
    decreases |g| - pos
  {
    var q := Parent(r);
    if pos * N + 1 < |g| && Lt(g[Chosen(g, pos)].prio, g[pos].prio) {
      var c := Chosen(g, pos);
      var g' := Swap(g, pos, c);
      ToppedStep(g, pos, top);
      if c == q {
        ChosenIsLeast(g', q);
        MovedUp(g', q, r, top);
        r' := q;
      } else {
        r' := SinkKeepsInversion(g', c, r, top);
      }
    } else {
      r' := r;
    }
  }

  /** The slot just left is filled by one of its children, no later than the earlier one. */
  lemma MovedUp(g: seq<Node<TimerId>>, q: int, r: int, top: int)
    requires ToppedBelow(g, q, top) && 0 < q < r < |g| - 1 && Parent(r) == q && g[r].prio.p < g[Parent(q)].prio.p
    ensures Inverted(Sink(g, q), q)
  {
    var c := Chosen(g, q);
    ChosenIsLeast(g, q);
    assert q * N + 1 <= r < q * N + 1 + N;
    assert g[c].prio.p <= g[r].prio.p;
    var g' := Swap(g, q, c);
    SinkMultiset(g', c);
    assert Sink(g, q)[q] == g[c] && Sink(g, q)[Parent(q)] == g[Parent(q)];
  }

  /** A heap with an inversion, each timer once, and every deadline after zero. */
  ghost predicate Broken(g: seq<Node<TimerId>>, r: int, top: int) {
    && Topped(g, top) && top > 0 && Inverted(g, r)
    && UniqueIds(multiset(g)) && forall n :: n in multiset(g) ==> n.prio.p > 0
  }

  /** The root is due before `top`, since something below it is. */
  lemma {:induction false} RootIsBelowTop(g: seq<Node<TimerId>>, i: int, top: int)
    requires Topped(g, top) && 0 <= i < |g| && g[i].prio.p < top
    ensures g[0].prio.p < top
    decreases i
  {
    if i > 0 {
      RootIsBelowTop(g, Parent(i), top);
    }
  }

  /** The root's deadline is raised to `top`: the rule allows it, the inversion stays, and less is left to raise. */
  lemma RaiseRoot(g: seq<Node<TimerId>>, r: int, top: int) returns (r': int)
    requires Topped(g, top) && Inverted(g, r) && Parent(r) > 0 && UniqueIds(multiset(g))
    ensures var h := Placed(g, g[0].hnd, top);
      && Slot(g, g[0].hnd) == 0 && RaiseKeepsOrder(g, 0, top) && !ReportsRoot(g, g[0].hnd, top)
      && Topped(h, top) && Inverted(h, r') && Lateness(h, top - 1) < Lateness(g, top - 1)
  {
    var g1 := g[0 := g[0].(prio := Prio(top, 0))];
    RootIsBelowTop(g, r, top);
    OnlySlot(g, 0);
    SinkTops(g1, 0, top);
    r' := SinkKeepsInversion(g1, 0, r, top);
    RaiseLessens(g, top);
  }

  lemma OnlySlot(g: seq<Node<TimerId>>, i: int)
    requires 0 <= i < |g| && UniqueIds(multiset(g))
    ensures Slot(g, g[i].hnd) == i
  {
    var j := Slot(g, g[i].hnd);
    assert g[i] in multiset(g) && g[j] in multiset(g);
    if i < j {
      CountTwo(g, i, j);
    } else if j < i {
      CountTwo(g, j, i);
    }
  }

  lemma CountTwo<T>(g: seq<T>, i: int, j: int)
    requires 0 <= i < j < |g|
    ensures multiset(g)[g[i]] >= if g[i] == g[j] then 2 else 1
  {
    assert g == (g[..i] + [g[i]] + g[i + 1..j]) + ([g[j]] + g[j + 1..]);
  }

  lemma RaiseLessens(g: seq<Node<TimerId>>, top: int)
    requires g != [] && g[0].prio.p < top && g[0].prio.order == 0 && Slot(g, g[0].hnd) == 0
    ensures Lateness(Placed(g, g[0].hnd, top), top - 1) < Lateness(g, top - 1)
  {
    var h := Placed(g, g[0].hnd, top);
    PlacedMultiset(g, g[0].hnd, top);
    TailMultiset(g);
    assert multiset(h) == multiset(g[1..]) + multiset{Entry(top, g[0].hnd)};
    LatenessOfOneMore(h, g[1..], Entry(top, g[0].hnd), top - 1);
  }

  /** From every broken heap: raise the root until the later node of an inversion is there, then set it once more. */
  lemma {:induction false} BrokenIsLate(a: Alarm, r: int, top: int)
    requires Broken(a.ts.heap, r, top)
    ensures CanBeLate(a)
    decreases Lateness(a.ts.heap, top - 1)
  {
    var g := a.ts.heap;
    assert g[0] in multiset(g);
    if Parent(r) == 0 {
      SettledRoot(a, r);
    } else {
      var r' := RaiseRoot(g, r, top);
      RaisedIsBroken(g, r, r', top);
      SetEffect(a, g[0].hnd, top);
      BrokenIsLate(Take(a, Set(g[0].hnd, top, TimeVal(0, 0), true)), r', top);
      LateLater(a, Set(g[0].hnd, top, TimeVal(0, 0), true));
    }
  }

  lemma RaisedIsBroken(g: seq<Node<TimerId>>, r: int, r': int, top: int)
    requires Broken(g, r, top) && Slot(g, g[0].hnd) == 0
    requires var h := Placed(g, g[0].hnd, top); Topped(h, top) && Inverted(h, r')
    ensures Broken(Placed(g, g[0].hnd, top), r', top)
  {
    PlacedMultiset(g, g[0].hnd, top);
    PlacedIsPositive(g, g[0].hnd, top);
    PlacedIsUnique(multiset(g), g[0].hnd, top);
    assert g[0] in multiset(g);
  }

  /** Setting the root to its own deadline arms the alarm for it, with an earlier one queued. */
  lemma SettledRoot(a: Alarm, r: int)
    requires Inverted(a.ts.heap, r) && Parent(r) == 0 && UniqueIds(multiset(a.ts.heap))
    requires a.ts.heap[0].prio.order == 0 && a.ts.heap[0].prio.p > 0
    ensures CanBeLate(a)
  {
    var g := a.ts.heap;
    var s := Set(g[0].hnd, g[0].prio.p, TimeVal(0, 0), true);
    OnlySlot(g, 0);
    assert g[0 := g[0].(prio := Prio(g[0].prio.p, 0))] == g;
    var b := Take(a, s);
    assert b.ts.heap == g && b.armed == Some(g[0].prio.p) && !b.fired;
    assert g[r] in b.ts.heap;
    assert PossibleRun(b, []) && KeepsOrderThroughout(b, []) && Late(After(b, []));
    LateLater(a, s);
  }

  // ---------- Exactly the steps that break the rule can make the alarm late ----------

  /** A heap out of order gets a timer later than all others at its end. */
  lemma DisorderIsLate(a: Alarm)
    requires TimersOk(a.ts) && Positive(a) && !InOrder(a)
    ensures CanBeLate(a)
  {
    var g := a.ts.heap;
    var r :| 0 < r < |g| && !Edge(g, r);
    var top := Above(g);
    var id := FreshNat(set n | n in g :: n.hnd);
    var s := Set(id, top, TimeVal(0, 0), true);
    assert forall n :: n in g ==> n in multiset(g);
    AppendedTop(g, id, top);
    AppendedIsBroken(g, id, top, r);
    SetEffect(a, id, top);
    BrokenIsLate(Take(a, s), r, top);
    LateLater(a, s);
  }

  lemma {:induction false} Above(g: seq<Node<TimerId>>) returns (top: int)
    ensures top > 0 && forall n :: n in g ==> n.prio.p < top
  {
    if g == [] {
      top := 1;
    } else {
      var t := Above(g[1..]);
      top := if t > g[0].prio.p then t else g[0].prio.p + 1;
      assert g == [g[0]] + g[1..];
    }
  }

  lemma AppendedTop(g: seq<Node<TimerId>>, id: TimerId, top: int)
    requires g != [] && (forall n :: n in g ==> n.prio.p < top && n.prio.order == 0 && n.hnd != id)
    ensures Slot(g, id) == -1 && Placed(g, id, top) == g + [Entry(top, id)] && !ReportsRoot(g, id, top)
  {
    var h := g + [Entry(top, id)];
    assert forall j :: 0 <= j < |g| ==> g[j] in g;
    assert h[Parent(|g|)] == g[Parent(|g|)];
  }

  lemma AppendedIsBroken(g: seq<Node<TimerId>>, id: TimerId, top: int, r: int)
    requires UniqueIds(multiset(g)) && top > 0 && 0 < r < |g| && !Edge(g, r)
    requires forall n :: n in g ==> n.prio.p > 0 && n.prio.order == 0 && n.prio.p < top && n.hnd != id
    ensures Broken(g + [Entry(top, id)], r, top)
  {
    var h := g + [Entry(top, id)];
    forall i | 0 <= i < |g|
      ensures h[i] == g[i] && g[i].prio.p < top && g[i].prio.order == 0
    {
      assert g[i] in g;
    }
    assert forall n :: n in multiset(g) ==> n in g;
    PlacedIsUnique(multiset(g), id, top);
    assert multiset(h) == multiset(g) + multiset{Entry(top, id)};
  }

  /** From every state in which all is well: after a step, some continuation that keeps the rule makes the alarm late
      exactly when the step broke the rule. */
  lemma AlarmCanBeLateIff(a: Alarm, s: Step)
    requires Ok(a) && Good(a, s)
    ensures CanBeLate(Take(a, s)) <==> !KeepsOrder(a, s)
  {
    var b := Take(a, s);
    StepKeepsTimers(a, s);
    StepOrderedIff(a, s);
    if KeepsOrder(a, s) {
      StepKeepsOk(a, s);
      forall run | PossibleRun(b, run) && KeepsOrderThroughout(b, run)
        ensures !Late(After(b, run))
      {
        RunKeepsOk(b, run);
        OkIsNotLate(After(b, run));
      }
    } else {
      StepKeepsPositive(a, s);
      DisorderIsLate(b);
    }
  }

  lemma OkIsNotLate(a: Alarm)
    requires Ok(a)
    ensures !Late(a)
  {
    forall n | n in a.ts.heap
      ensures a.fired || (a.armed.Some? && a.armed.value <= n.prio.p)
    {
      var i :| 0 <= i < |a.ts.heap| && a.ts.heap[i] == n;
      RootIsLeast(a.ts.heap, i);
      assert n in multiset(a.ts.heap) && a.ts.heap[0] in multiset(a.ts.heap);
    }
  }

  // ---------- Such a state is reached ----------

  lemma {:induction false} AfterOneMore(a: Alarm, run: seq<Step>, s: Step)
    requires PossibleRun(a, run) && Good(After(a, run), s)
    ensures PossibleRun(a, run + [s]) && After(a, run + [s]) == Take(After(a, run), s)
    decreases |run|
  {
    if run == [] {
      assert run + [s] == [s] && [s][1..] == [];
    } else {
      assert (run + [s])[1..] == run[1..] + [s] && (run + [s])[0] == run[0];
      AfterOneMore(Take(a, run[0]), run[1..], s);
    }
  }

  /** One-shot timers set in the order of the heap's slots. */
  function SetAll(g: seq<Node<TimerId>>): seq<Step> {
    if g == [] then []
    else SetAll(g[..|g| - 1]) + [Set(g[|g| - 1].hnd, g[|g| - 1].prio.p, TimeVal(0, 0), true)]
  }

  ghost predicate Settable(g: seq<Node<TimerId>>) {
    && Ordered(g, |g|) && UniqueIds(multiset(g))
    && forall n :: n in g ==> n.prio.order == 0 && n.prio.p > 0
  }

  /** Every heap in order, with every deadline after zero, comes about by setting its timers slot by slot, and the
      alarm is then set for its root. */
  lemma {:induction false} HeapIsReachable(g: seq<Node<TimerId>>)
    requires Settable(g)
    ensures PossibleRun(OFF, SetAll(g))
    ensures var a := After(OFF, SetAll(g));
      && a.ts.heap == g && !a.fired && a.now == 0
      && a.armed == if g == [] then None else Some(g[0].prio.p)
  {
    if g != [] {
      var f, x := g[..|g| - 1], g[|g| - 1];
      Shorter(g);
      HeapIsReachable(f);
      PlacedLast(g);
      AfterOneMore(OFF, SetAll(f), Set(x.hnd, x.prio.p, TimeVal(0, 0), true));
      SetEffect(After(OFF, SetAll(f)), x.hnd, x.prio.p);
    }
  }

  lemma SetEffect(a: Alarm, id: TimerId, deadline: int)
    ensures var b := Take(a, Set(id, deadline, TimeVal(0, 0), true));
      && b.ts.heap == Placed(a.ts.heap, id, deadline) && b.now == a.now
      && (if ReportsRoot(a.ts.heap, id, deadline) then b == ArmFromQueue(b)
          else b.fired == a.fired && b.armed == a.armed)
  {
  }

  lemma Shorter(g: seq<Node<TimerId>>)
    requires Settable(g) && g != []
    ensures Settable(g[..|g| - 1]) && g[|g| - 1] in g
    ensures Slot(g[..|g| - 1], g[|g| - 1].hnd) == -1
  {
    var f, x := g[..|g| - 1], g[|g| - 1];
    assert g == f + [x];
    UniqueRest(multiset(g), multiset(f), x);
    forall i | 0 < i < |f|
      ensures Edge(f, i)
    {
      assert Edge(g, i);
    }
    forall n | n in f
      ensures n in g && n.hnd != x.hnd
    {
      assert n in multiset(f);
    }
  }

  /** A node that belongs in the last slot is inserted there, and is the root only when it is the first. */
  lemma PlacedLast(g: seq<Node<TimerId>>)
    requires Settable(g) && g != []
    ensures var f, x := g[..|g| - 1], g[|g| - 1];
      Placed(f, x.hnd, x.prio.p) == g && (ReportsRoot(f, x.hnd, x.prio.p) <==> |g| == 1)
  {
    var f, x := g[..|g| - 1], g[|g| - 1];
    Shorter(g);
    assert x == Entry(x.prio.p, x.hnd) && f + [x] == g;
    if |g| > 1 {
      assert Edge(g, |g| - 1);
    }
  }

  /** Ten timers; timer 9, due at 3, is below timer 2, due at 2. */
  const TEN: seq<Node<TimerId>> :=
    [Entry(1, 0), Entry(10, 1), Entry(2, 2), Entry(30, 3), Entry(40, 4),
     Entry(20, 5), Entry(20, 6), Entry(20, 7), Entry(20, 8), Entry(3, 9)]

  lemma TenIsSettable(ten: seq<Node<TimerId>>)
    requires ten == TEN
    ensures Settable(ten) && |ten| == 10 && ten[5].hnd == 5 && Lt(ten[9].prio, ten[Parent(5)].prio)
  {
    assert forall i :: 0 <= i < |ten| ==> ten[i].hnd == i && ten[i].prio.order == 0 && ten[i].prio.p > 0;
    IdsByIndex(ten);
    TenIsOrdered(ten);
  }

  lemma TenIsOrdered(ten: seq<Node<TimerId>>)
    requires ten == TEN
    ensures Ordered(ten, 10)
  {
    assert ten[0].prio.p == 1 && ten[1].prio.p == 10 && ten[2].prio.p == 2;
    assert forall i :: 0 < i < 10 ==> Parent(i) == (if i <= 4 then 0 else if i <= 8 then 1 else 2);
  }

  lemma {:induction false} IdsByIndex(g: seq<Node<TimerId>>)
    requires forall i :: 0 <= i < |g| ==> g[i].hnd == i
    ensures UniqueIds(multiset(g)) && forall n :: n in multiset(g) ==> n.hnd < |g|
  {
    if g != [] {
      var f, x := g[..|g| - 1], g[|g| - 1];
      IdsByIndex(f);
      assert g == f + [x];
    }
  }

  /** In every heap that is in order: timers are set slot by slot, and one is stopped in a slot whose parent is later
      than the last node. The alarm can then be late although every step from then on keeps the rule. */
  lemma StoppingIsLate(g: seq<Node<TimerId>>, i: int) returns (a: Alarm)
    requires Settable(g) && 0 < i < |g| - 1 && Lt(g[|g| - 1].prio, g[Parent(i)].prio)
    ensures PossibleRun(OFF, SetAll(g)) && a == After(OFF, SetAll(g)) && CanBeLate(Take(a, Stop(g[i].hnd)))
  {
    a := Reached(g);
    StopInTheMiddle(a, i);
  }

  lemma StopInTheMiddle(a: Alarm, i: int)
    requires Ok(a) && 0 < i < |a.ts.heap| - 1 && Lt(a.ts.heap[|a.ts.heap| - 1].prio, a.ts.heap[Parent(i)].prio)
    ensures CanBeLate(Take(a, Stop(a.ts.heap[i].hnd)))
  {
    var id := a.ts.heap[i].hnd;
    OnlySlot(a.ts.heap, i);
    assert !KeepsOrder(a, Stop(id));
    AlarmCanBeLateIff(a, Stop(id));
  }

  lemma Reached(g: seq<Node<TimerId>>) returns (a: Alarm)
    requires Settable(g) && g != []
    ensures PossibleRun(OFF, SetAll(g)) && a == After(OFF, SetAll(g)) && a.ts.heap == g && Ok(a)
  {
    HeapIsReachable(g);
    a := After(OFF, SetAll(g));
    RunKeepsTimers(OFF, SetAll(g));
    ReachedIsOk(a, g);
  }

  /** There is such a heap: with ten timers, stopping timer 5, below timer 1, puts timer 9 there. */
  lemma StoppingCanMakeTheAlarmLate()
    ensures exists g :: PossibleRun(OFF, SetAll(g)) && CanBeLate(Take(After(OFF, SetAll(g)), Stop(5)))
  {
    var ten := TEN;
    TenIsSettable(ten);
    var _ := StoppingIsLate(ten, 5);
  }

  lemma ReachedIsOk(a: Alarm, g: seq<Node<TimerId>>)
    requires Settable(g) && g != [] && a.ts.heap == g && TimersOk(a.ts) && a.now == 0 && a.armed == Some(g[0].prio.p)
    ensures Ok(a)
  {
    assert forall n :: n in multiset(g) ==> n in g;
  }

  lemma {:induction false} RunKeepsTimers(a: Alarm, run: seq<Step>)
    requires TimersOk(a.ts) && PossibleRun(a, run)
    ensures TimersOk(After(a, run).ts)
    decreases |run|
  {
    if run != [] {
      StepKeepsTimers(a, run[0]);
      RunKeepsTimers(Take(a, run[0]), run[1..]);
    }
  }

  // ---------- The object the source updates in place ----------

  lemma StaysInTime(a: Alarm, s: Step)
    requires Possible(a, s)
    ensures Ok(a) && (s.Set? ==> s.deadline > 0) ==> NeverLate(Take(a, s))
  {
    if Ok(a) && (s.Set? ==> s.deadline > 0) {
      StepKeepsPositive(a, s);
      StepKeepsInTime(a, s);
    }
  }

  lemma ProcessingIsDone(a: Alarm)
    requires TimersOk(a.ts)
    ensures TimersOk(Take(a, Process).ts)
    ensures Ok(a) ==> Ok(Take(a, Process)) && Due(Take(a, Process).ts.heap, a.now) == {}
  {
    ProcessedIsDone(a.ts, a.now);
    if Ok(a) {
      StepKeepsOk(a, Process);
    }
  }

  class TimerFd {
    var ts: Timers
    var armed: Option<int>
    var fired: bool
    var now: int  // what `clock_gettime` returns

    ghost function Abs(): Alarm
      reads this
    {
      Alarm(ts, armed, fired, now)
    }

    ghost predicate Valid()
      reads this
    {
      TimersOk(ts)
    }

    constructor ()
      ensures Valid() && Abs() == OFF
    {
      ts, armed, fired, now := Timers([], map[]), None, false, 0;
    }

    method SetTimerFromQueue()
      modifies `armed, `fired
      ensures Abs() == ArmFromQueue(old(Abs()))
    {
      var setting := 0;
      if ts.heap != [] {
        setting := ts.heap[0].prio.p;
      }
      if setting >= 0 {
        fired := false;
        armed := if setting == 0 then None else Some(setting);
      }
    }

    /** `set_timer`: the queue's answer decides whether the alarm is set anew; with the heap in order the alarm stays
        in time. */
    method SetTimer(id: TimerId, deadline: int, interval: TimeVal, enable: bool)
      requires Valid() && Possible(Abs(), Set(id, deadline, interval, enable))
      modifies this
      ensures Valid() && Abs() == Take(old(Abs()), Set(id, deadline, interval, enable))
      ensures IsSet(old(Abs()), Abs(), id, deadline, interval, enable)
      ensures old(Ok(Abs())) && deadline > 0 ==> NeverLate(Abs())
    {
      ghost var s := Set(id, deadline, interval, enable);
      SetMeans(Abs(), id, deadline, interval, enable);
      StepKeepsTimers(Abs(), s);
      StaysInTime(Abs(), s);
      var heap, i := ts.heap, Slot(ts.heap, id);
      var root := ReportsRoot(heap, id, deadline);
      var data := WithTimer(ts.data, id, interval, enable);
      if i >= 0 {
        ts := Timers(Reprioritised(heap, i, Prio(deadline, 0)), data);
      } else {
        ts := Timers(Inserted(heap, Entry(deadline, id)), data);
      }
      if root {
        SetTimerFromQueue();
      }
    }

    /** `stop_timer_nolock`: sets the alarm anew only when the first timer was stopped. */
    method StopTimer(id: TimerId)
      requires Valid()
      modifies this
      ensures Valid() && Abs() == Take(old(Abs()), Stop(id)) && IsStopped(old(Abs()), Abs(), id)
      ensures old(Ok(Abs())) ==> NeverLate(Abs())
    {
      StepKeepsTimers(Abs(), Stop(id));
      StopMeans(Abs(), id);
      StaysInTime(Abs(), Stop(id));
      var i := Slot(ts.heap, id);
      if i >= 0 {
        ts := ts.(heap := Removed(ts.heap, i));
        if i == 0 {
          SetTimerFromQueue();
        }
      }
    }

    /** `process_timer`: with the heap in order nothing due is left, and the alarm is set for the first of the rest. */
    method ProcessTimer()
      requires Valid()
      modifies this
      ensures Valid() && Abs() == Take(old(Abs()), Process)
      ensures old(Ok(Abs())) ==> Ok(Abs()) && Due(ts.heap, now) == {}
    {
      ProcessingIsDone(Abs());
      ts := ProcessTimerQueue(ts, TimeOf(now));
      SetTimerFromQueue();
    }
  }
}
