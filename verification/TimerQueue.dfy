/** The expiry loop of the timer queue, for any number of timers. */
module TimerQueues {
  import opened TimeVals
  import opened HeapSpec

  type TimerId = nat

  /** `timer_data` and what its watcher has been told: `intervals` waits for the callback. */
  datatype Timer = Timer(interval: TimeVal, expiryCount: int, enabled: bool, intervals: int)

  /** The d-ary heap of timers by deadline, in nanoseconds, and the data of each timer. */
  datatype Timers = Timers(heap: seq<Node<TimerId>>, data: map<TimerId, Timer>)

  function Entry(deadline: int, id: TimerId): Node<TimerId> { Node(Prio(deadline, 0), id) }

  /** A deadline as the normalised time value it stands for. */
  function TimeOf(nanos: int): (t: TimeVal)
    ensures Normal(t) && Nanos(t) == nanos
  {
    TimeVal(nanos / BILLION, nanos % BILLION)
  }

  predicate OneShot(t: Timer) {
    t.interval.s == 0 && t.interval.ns == 0
  }

  /** `receive_timer_expiry`, guarded by the timer being enabled. */
  function Report(t: Timer): Timer {
    if t.enabled then t.(enabled := false, expiryCount := 0, intervals := t.intervals + t.expiryCount) else t
  }

  /** No timer is queued twice. */
  ghost predicate UniqueIds(m: multiset<Node<TimerId>>) {
    && (forall a :: m[a] <= 1)
    && (forall a, b :: a in m && b in m && a.hnd == b.hnd ==> a == b)
  }

  /** Each timer is queued at most once and has its data; nothing is said of the heap's order. */
  ghost predicate TimersOk(ts: Timers) {
    && UniqueIds(multiset(ts.heap))
    && (forall n :: n in multiset(ts.heap) ==> n.hnd in ts.data && n.prio.order == 0)
    && (forall x :: x in ts.data ==> Normal(ts.data[x].interval) && Nanos(ts.data[x].interval) >= 0)
  }

  /** The next deadline of a periodic timer measured from `reference`, in nanoseconds. */
  function NextAt(reference: int, interval: int, now: int): int
    requires interval > 0
  {
    reference + (Quotient(now - reference, interval) + 1) * interval
  }

  /** The new deadline of an expired periodic timer: `reference` is what the root slot of the queue holds
      after the timer has been pulled from it. */
  method NextDeadline(reference: TimeVal, interval: TimeVal, now: TimeVal) returns (count: int, next: TimeVal)
    requires Normal(reference) && Normal(interval) && Normal(now) && Nanos(interval) > 0
    ensures Normal(next) && count == Quotient(Nanos(now) - Nanos(reference), Nanos(interval)) >= 0
    ensures Nanos(next) == NextAt(Nanos(reference), Nanos(interval), Nanos(now)) >= Nanos(reference) + Nanos(interval)
    ensures Nanos(next) > Nanos(now) <==> !UnderCounts(Nanos(now) - Nanos(reference), Nanos(interval))
  {
    var overrun := Sub(now, reference);
    var rem;
    count, rem := Divide(overrun, interval);
    next := Sub(Add(now, interval), rem);
    Products(count, 1, Nanos(interval));
    assert count * Nanos(interval) >= 0;
  }

  // ---------- A timer alone in its queue ----------

  datatype Solo = Solo(deadline: int, t: Timer)

  ghost predicate SoloOk(s: Solo) {
    Nanos(s.t.interval) > 0
  }

  /** One expiry of a periodic timer alone in the queue. */
  function ExpireOnce(s: Solo, now: int): Solo
    requires SoloOk(s)
  {
    Solo(NextAt(s.deadline, Nanos(s.t.interval), now),
         Report(s.t.(expiryCount := s.t.expiryCount + 1 + Quotient(now - s.deadline, Nanos(s.t.interval)))))
  }

  lemma NextIsLater(reference: int, interval: int, now: int)
    requires interval > 0
    ensures NextAt(reference, interval, now) >= reference + interval
  {
    var c := Quotient(now - reference, interval);
    assert c >= 0;
    assert c * interval >= 0;
    Products(c, 1, interval);
  }

  /** What a poll does to a periodic timer alone in the queue: it expires until it is no longer due. */
  function ExpireAll(s: Solo, now: int): Solo
    requires SoloOk(s)
    decreases now - s.deadline
  {
    if s.deadline > now then s
    else
      NextIsLater(s.deadline, Nanos(s.t.interval), now);
      ExpireAll(ExpireOnce(s, now), now)
  }

  // ---------- One round of the loop ----------

  /** The deadline a periodic root is measured from: what slot 0 holds after the root has been pulled, which is
      the next root's, or still its own when it was alone. */
  function Reference(heap: seq<Node<TimerId>>): int
    requires heap != []
  {
    if |heap| == 1 then heap[0].prio.p else Removed(heap, 0)[0].prio.p
  }

  predicate RootOk(ts: Timers) {
    ts.heap != [] && ts.heap[0].hnd in ts.data
    && (OneShot(ts.data[ts.heap[0].hnd]) || Nanos(ts.data[ts.heap[0].hnd].interval) > 0)
  }

  /** A one-shot timer leaves the queue; a periodic one is counted and queued again. */
  function Round(ts: Timers, now: int): Timers
    requires RootOk(ts)
  {
    var root, rest := ts.heap[0].hnd, Removed(ts.heap, 0);
    var t := ts.data[root];
    if OneShot(t) then Timers(rest, ts.data[root := Report(t.(expiryCount := t.expiryCount + 1))])
    else
      var r, i := Reference(ts.heap), Nanos(t.interval);
      Timers(Inserted(rest, Entry(NextAt(r, i, now), root)),
             ts.data[root := Report(t.(expiryCount := t.expiryCount + 1 + Quotient(now - r, i)))])
  }

  predicate RootDue(ts: Timers, now: int) {
    ts.heap != [] && ts.heap[0].prio.p <= now
  }

  lemma RootIsOk(ts: Timers)
    requires TimersOk(ts) && ts.heap != []
    ensures RootOk(ts)
  {
    assert ts.heap[0] in multiset(ts.heap);
    var t := ts.data[ts.heap[0].hnd];
    assert OneShot(t) || t.interval.s != 0 || t.interval.ns != 0;
  }

  /** A node that does not come before the root stays below it. */
  lemma {:induction false} RiseKeepsRoot<H>(g: seq<Node<H>>, pos: int)
    requires 0 < pos < |g| && !Lt(g[pos].prio, g[0].prio)
    ensures Rise(g, pos)[0] == g[0]
    decreases pos
  {
    if Lt(g[pos].prio, g[Parent(pos)].prio) {
      RiseKeepsRoot(Swap(g, pos, Parent(pos)), Parent(pos));
    }
  }

  /** The same timers, with the root taken out and, if periodic, put back. */
  lemma RoundMultiset(ts: Timers, now: int)
    requires TimersOk(ts) && ts.heap != [] && RootOk(ts)
    ensures var root, rest, ts' := ts.heap[0], Removed(ts.heap, 0), Round(ts, now);
      && multiset(ts.heap) == multiset(rest) + multiset{root}
      && (if OneShot(ts.data[root.hnd]) then ts'.heap == rest
          else multiset(ts'.heap) == multiset(rest)
                 + multiset{Entry(NextAt(Reference(ts.heap), Nanos(ts.data[root.hnd].interval), now), root.hnd)})
  {
    var root, rest := ts.heap[0], Removed(ts.heap, 0);
    RemovedMultiset(ts.heap, 0);
    if !OneShot(ts.data[root.hnd]) {
      var x := Entry(NextAt(Reference(ts.heap), Nanos(ts.data[root.hnd].interval), now), root.hnd);
      RiseMultiset(rest + [x], |rest|);
    }
  }

  lemma RoundKeepsOk(ts: Timers, now: int)
    requires TimersOk(ts) && RootOk(ts)
    ensures TimersOk(Round(ts, now)) && Round(ts, now).data.Keys == ts.data.Keys
    ensures forall x :: x in ts.data && x != ts.heap[0].hnd ==> Round(ts, now).data[x] == ts.data[x]
  {
    RoundMultiset(ts, now);
    UniqueRest(multiset(ts.heap), multiset(Removed(ts.heap, 0)), ts.heap[0]);
    assert ts.heap[0] in multiset(ts.heap);
  }

  lemma UniqueRest(m: multiset<Node<TimerId>>, rest: multiset<Node<TimerId>>, root: Node<TimerId>)
    requires UniqueIds(m) && m == rest + multiset{root}
    ensures UniqueIds(rest) && (forall n :: n in rest ==> n in m && n.hnd != root.hnd)
    ensures forall x: Node<TimerId> :: x.hnd == root.hnd ==> UniqueIds(rest + multiset{x})
  {
    forall n | n in rest
      ensures n in m && n.hnd != root.hnd
    {
      assert n == root ==> m[root] >= 2;
    }
  }

  // ---------- The loop ends, in order or not ----------

  ghost function Late(n: Node<TimerId>, now: int): nat {
    if n.prio.p <= now then now - n.prio.p + 1 else 0
  }

  ghost function Lateness(heap: seq<Node<TimerId>>, now: int): nat {
    if heap == [] then 0 else Late(heap[0], now) + Lateness(heap[1..], now)
  }

  lemma {:induction false} LatenessOfParts(a: seq<Node<TimerId>>, b: seq<Node<TimerId>>, now: int)
    ensures Lateness(a + b, now) == Lateness(a, now) + Lateness(b, now)
  {
    if a == [] {
      assert a + b == b;
    } else {
      LatenessOfParts(a[1..], b, now);
      assert (a + b)[1..] == a[1..] + b;
    }
  }

  /** Lateness depends only on what is queued. */
  lemma {:induction false} LatenessOfMultiset(a: seq<Node<TimerId>>, b: seq<Node<TimerId>>, now: int)
    requires multiset(a) == multiset(b)
    ensures Lateness(a, now) == Lateness(b, now)
    decreases |a|
  {
    if a == [] {
      assert |multiset(b)| == 0;
    } else {
      assert a[0] in multiset(b);
      var i :| 0 <= i < |b| && b[i] == a[0];
      var rest := b[..i] + b[i + 1..];
      assert b == b[..i] + ([b[i]] + b[i + 1..]);
      assert multiset(b) == multiset(rest) + multiset{b[i]};
      TailMultiset(a);
      Cancelled(multiset(a[1..]), multiset(rest), multiset{a[0]});
      LatenessOfMultiset(a[1..], rest, now);
      LatenessOfParts(b[..i], [b[i]] + b[i + 1..], now);
      LatenessOfParts([b[i]], b[i + 1..], now);
      LatenessOfParts(b[..i], b[i + 1..], now);
      assert Lateness([b[i]], now) == Late(b[i], now);
    }
  }

  lemma TailMultiset<T>(s: seq<T>)
    requires s != []
    ensures multiset(s) == multiset(s[1..]) + multiset{s[0]}
  {
    assert s == [s[0]] + s[1..];
  }

  lemma Cancelled<T>(a: multiset<T>, b: multiset<T>, c: multiset<T>)
    requires a + c == b + c
    ensures a == b
  {
    assert a == (a + c) - c && b == (b + c) - c;
  }

  lemma LatenessOfOneMore(a: seq<Node<TimerId>>, b: seq<Node<TimerId>>, x: Node<TimerId>, now: int)
    requires multiset(a) == multiset(b) + multiset{x}
    ensures Lateness(a, now) == Lateness(b, now) + Late(x, now)
  {
    LatenessOfMultiset(a, [x] + b, now);
    assert ([x] + b)[1..] == b;
  }

  /** How late everything below a due root is, or the root itself when it is alone. */
  ghost function Measure(ts: Timers, now: int): nat {
    if !RootDue(ts, now) then 0
    else 1 + if |ts.heap| == 1 then Late(ts.heap[0], now) else Lateness(ts.heap[1..], now)
  }

  /** A round takes a timer out for good, or moves one to after the next root. So the loop ends for every heap,
      even one that is out of order. */
  lemma RoundProgresses(ts: Timers, now: int)
    requires TimersOk(ts) && RootOk(ts) && RootDue(ts, now)
    ensures var ts' := Round(ts, now);
      |ts'.heap| < |ts.heap| || (|ts'.heap| == |ts.heap| && Measure(ts', now) < Measure(ts, now))
  {
    var rest, t := Removed(ts.heap, 0), ts.data[ts.heap[0].hnd];
    if !OneShot(t) {
      NextIsLater(Reference(ts.heap), Nanos(t.interval), now);
      if rest != [] {
        RequeueProgresses(ts, now);
      }
    }
  }

  lemma RequeueProgresses(ts: Timers, now: int)
    requires TimersOk(ts) && RootOk(ts) && RootDue(ts, now) && |ts.heap| > 1 && !OneShot(ts.data[ts.heap[0].hnd])
    ensures Measure(Round(ts, now), now) < Measure(ts, now)
  {
    var heap, rest := ts.heap, Removed(ts.heap, 0);
    var x := Entry(NextAt(Reference(heap), Nanos(ts.data[heap[0].hnd].interval), now), heap[0].hnd);
    var heap' := Inserted(rest, x);
    NextIsLater(Reference(heap), Nanos(ts.data[heap[0].hnd].interval), now);
    RoundMultiset(ts, now);
    NextRootStays(rest, x);
    TailsAfterRequeue(heap, rest, x, heap');
    LatenessOfOneMore(heap[1..], rest[1..], rest[0], now);
    LatenessOfOneMore(heap'[1..], rest[1..], x, now);
  }

  lemma TailsAfterRequeue<T>(heap: seq<T>, rest: seq<T>, x: T, heap': seq<T>)
    requires heap != [] && rest != [] && heap' != [] && heap'[0] == rest[0]
    requires multiset(heap) == multiset(rest) + multiset{heap[0]} && multiset(heap') == multiset(rest) + multiset{x}
    ensures multiset(heap[1..]) == multiset(rest[1..]) + multiset{rest[0]}
    ensures multiset(heap'[1..]) == multiset(rest[1..]) + multiset{x}
  {
    TailMultiset(heap);
    TailMultiset(rest);
    TailMultiset(heap');
    Cancelled(multiset(heap[1..]), multiset(rest), multiset{heap[0]});
    Cancelled(multiset(heap'[1..]), multiset(rest[1..]) + multiset{x}, multiset{rest[0]});
  }

  lemma NextRootStays(rest: seq<Node<TimerId>>, x: Node<TimerId>)
    requires rest != [] && rest[0].prio.p < x.prio.p
    ensures Inserted(rest, x)[0] == rest[0]
  {
    RiseKeepsRoot(rest + [x], |rest|);
  }

  // ---------- The whole loop ----------

  /** `process_timer_queue`, round by round. */
  ghost function Processed(ts: Timers, now: int): Timers
    requires TimersOk(ts)
    decreases |ts.heap|, Measure(ts, now)
  {
    if !RootDue(ts, now) then ts
    else
      RootIsOk(ts);
      RoundKeepsOk(ts, now);
      RoundProgresses(ts, now);
      Processed(Round(ts, now), now)
  }

  /** The timers due at `now`. */
  ghost function Due(heap: seq<Node<TimerId>>, now: int): set<TimerId> {
    set n | n in heap && n.prio.p <= now :: n.hnd
  }

  lemma RoundKeepsDue(ts: Timers, now: int)
    requires TimersOk(ts) && RootOk(ts) && RootDue(ts, now)
    ensures Due(Round(ts, now).heap, now) <= Due(ts.heap, now) && ts.heap[0].hnd in Due(ts.heap, now)
  {
    RoundMultiset(ts, now);
    var ts' := Round(ts, now);
    assert ts.heap[0] in ts.heap;
    forall n | n in ts'.heap && n.prio.p <= now
      ensures n.hnd in Due(ts.heap, now)
    {
      assert n in multiset(ts'.heap);
      if n.hnd != ts.heap[0].hnd {
        assert n in multiset(ts.heap) && n in ts.heap;
      }
    }
  }

  lemma RoundKeepsOrder(ts: Timers, now: int)
    requires RootOk(ts) && Ordered(ts.heap, |ts.heap|)
    ensures Ordered(Round(ts, now).heap, |Round(ts, now).heap|)
  {
    var rest, t := Removed(ts.heap, 0), ts.data[ts.heap[0].hnd];
    RemovedOrderedIff(ts.heap, 0);
    if !OneShot(t) {
      InsertedOrdered(rest, Entry(NextAt(Reference(ts.heap), Nanos(t.interval), now), ts.heap[0].hnd));
    }
  }

  /** For every queue the loop ends with the root not due, having changed only timers that were due; and in a heap
      that is in order nothing due is left. */
  lemma {:induction false} ProcessedIsDone(ts: Timers, now: int)
    requires TimersOk(ts)
    ensures var ts' := Processed(ts, now);
      && TimersOk(ts') && ts'.data.Keys == ts.data.Keys && !RootDue(ts', now)
      && (forall x :: x in ts.data && x !in Due(ts.heap, now) ==> ts'.data[x] == ts.data[x])
      && (Ordered(ts.heap, |ts.heap|) ==> Ordered(ts'.heap, |ts'.heap|) && Due(ts'.heap, now) == {})
    decreases |ts.heap|, Measure(ts, now)
  {
    if RootDue(ts, now) {
      RootIsOk(ts);
      RoundKeepsOk(ts, now);
      RoundProgresses(ts, now);
      RoundKeepsDue(ts, now);
      if Ordered(ts.heap, |ts.heap|) {
        RoundKeepsOrder(ts, now);
      }
      ProcessedIsDone(Round(ts, now), now);
    } else if Ordered(ts.heap, |ts.heap|) {
      forall n | n in ts.heap
        ensures n.prio.p > now
      {
        var i :| 0 <= i < |ts.heap| && ts.heap[i] == n;
        RootIsLeast(ts.heap, i);
      }
    }
  }

  // ---------- What is reported ----------

  /** How often the root has expired when it is pulled: once, and for a periodic timer once more for each further
      interval since the deadline it is measured from. */
  ghost function RootExpiries(ts: Timers, now: int): int
    requires RootOk(ts)
  {
    var t := ts.data[ts.heap[0].hnd];
    if OneShot(t) then 1 else 1 + Quotient(now - Reference(ts.heap), Nanos(t.interval))
  }

  /** The expiries of timer `x`, one entry for each time the loop pulls it. */
  ghost function Expiries(ts: Timers, now: int, x: TimerId): seq<int>
    requires TimersOk(ts)
    decreases |ts.heap|, Measure(ts, now)
  {
    if !RootDue(ts, now) then []
    else
      RootIsOk(ts);
      RoundKeepsOk(ts, now);
      RoundProgresses(ts, now);
      (if ts.heap[0].hnd == x then [RootExpiries(ts, now)] else []) + Expiries(Round(ts, now), now, x)
  }

  ghost function Sum(s: seq<int>): int {
    if s == [] then 0 else s[0] + Sum(s[1..])
  }

  /** `x` is in the queue. */
  ghost predicate Queued(heap: seq<Node<TimerId>>, x: TimerId) {
    exists n :: n in heap && n.hnd == x
  }

  /** What expiring does to a timer: an enabled one is disabled and its watcher told what was saved up and the first
      expiries; later ones, and all of a disabled timer's, are saved up. */
  ghost predicate Reported(t: Timer, t': Timer, expiries: seq<int>) {
    && t'.interval == t.interval
    && (expiries == [] ==> t' == t)
    && (expiries != [] && t.enabled ==>
          && !t'.enabled && t'.intervals == t.intervals + t.expiryCount + expiries[0]
          && t'.expiryCount == Sum(expiries[1..]))
    && (expiries != [] && !t.enabled ==>
          !t'.enabled && t'.intervals == t.intervals && t'.expiryCount == t.expiryCount + Sum(expiries))
  }

  /** One round reports the root and leaves the other timers as they were. */
  lemma RoundReports(ts: Timers, now: int, x: TimerId)
    requires RootOk(ts) && x in ts.data
    ensures var t' := Round(ts, now).data[x];
      if x == ts.heap[0].hnd then RootExpiries(ts, now) >= 1 && Reported(ts.data[x], t', [RootExpiries(ts, now)])
      else t' == ts.data[x]
  {
    var t, e := ts.data[ts.heap[0].hnd], RootExpiries(ts, now);
    if !OneShot(t) {
      QuotientIsNotNegative(now - Reference(ts.heap), Nanos(t.interval));
    }
    ReportIs(t, e);
    RootData(ts, now);
  }

  lemma QuotientIsNotNegative(num: int, den: int)
    requires den > 0
    ensures Quotient(num, den) >= 0
  {
  }

  lemma RootData(ts: Timers, now: int)
    requires RootOk(ts)
    ensures var root := ts.heap[0].hnd;
      Round(ts, now).data
      == ts.data[root := Report(ts.data[root].(expiryCount := ts.data[root].expiryCount + RootExpiries(ts, now)))]
  {
  }

  lemma ReportIs(t: Timer, e: int)
    ensures Reported(t, Report(t.(expiryCount := t.expiryCount + e)), [e])
  {
    assert [e][1..] == [] && Sum([e]) == e;
  }

  /** A round takes a one-shot root out of the queue, puts a periodic one back, and leaves the others queued. */
  lemma RoundQueues(ts: Timers, now: int, x: TimerId)
    requires TimersOk(ts) && RootOk(ts)
    ensures Queued(Round(ts, now).heap, x)
       <==> Queued(ts.heap, x) && !(x == ts.heap[0].hnd && OneShot(ts.data[x]))
  {
    var root, rest, ts' := ts.heap[0], Removed(ts.heap, 0), Round(ts, now);
    RoundMultiset(ts, now);
    UniqueRest(multiset(ts.heap), multiset(rest), root);
    QueuedInMultiset(ts.heap, x);
    QueuedInMultiset(ts'.heap, x);
    assert root in multiset(ts.heap);
    if OneShot(ts.data[root.hnd]) {
      assert forall n :: n in multiset(ts'.heap) <==> n in multiset(rest);
    } else {
      var next := Entry(NextAt(Reference(ts.heap), Nanos(ts.data[root.hnd].interval), now), root.hnd);
      assert next in multiset(ts'.heap);
    }
  }

  lemma QueuedInMultiset(heap: seq<Node<TimerId>>, x: TimerId)
    ensures Queued(heap, x) <==> exists n :: n in multiset(heap) && n.hnd == x
  {
    assert forall n :: n in heap <==> n in multiset(heap);
  }

  lemma ReportedTwice(t: Timer, t1: Timer, t2: Timer, e: int, rest: seq<int>)
    requires Reported(t, t1, [e]) && Reported(t1, t2, rest)
    ensures Reported(t, t2, [e] + rest)
  {
    assert ([e] + rest)[1..] == rest && [e][1..] == [] && Sum([e]) == e;
  }

  /** What becomes of timer `x` with these expiries. */
  ghost predicate Outcome(ts: Timers, ts': Timers, x: TimerId, e: seq<int>) {
    && x in ts.data && x in ts'.data && Reported(ts.data[x], ts'.data[x], e)
    && (forall i :: 0 <= i < |e| ==> e[i] >= 1)
    && (e != [] ==> Queued(ts.heap, x))
    && (if OneShot(ts.data[x]) then e == [] || (e == [1] && !Queued(ts'.heap, x))
        else Queued(ts'.heap, x) == Queued(ts.heap, x))
    && (e == [] ==> Queued(ts'.heap, x) == Queued(ts.heap, x))
  }

  lemma OutcomesJoin(ts: Timers, ts1: Timers, ts2: Timers, x: TimerId, k: int, e: seq<int>)
    requires Outcome(ts, ts1, x, [k]) && Outcome(ts1, ts2, x, e)
    ensures Outcome(ts, ts2, x, [k] + e)
  {
    ReportedTwice(ts.data[x], ts1.data[x], ts2.data[x], k, e);
    if OneShot(ts.data[x]) {
      assert [k] == [1] && [k][0] == 1 && [k] + e == [1];
    }
  }

  lemma RoundOutcome(ts: Timers, now: int, x: TimerId)
    requires TimersOk(ts) && RootOk(ts) && x in ts.data
    ensures Outcome(ts, Round(ts, now), x, if ts.heap[0].hnd == x then [RootExpiries(ts, now)] else [])
  {
    RoundReports(ts, now, x);
    RoundQueues(ts, now, x);
    assert ts.heap[0] in ts.heap;
  }

  /** Every expiry is counted, for every queue and every timer: what the loop does to a timer's data is what its
      expiries ask for; a one-shot timer expires at most once, by exactly one, and is then gone; a periodic one stays
      queued. */
  lemma {:induction false} ProcessedReports(ts: Timers, now: int, x: TimerId)
    requires TimersOk(ts) && x in ts.data
    ensures Outcome(ts, Processed(ts, now), x, Expiries(ts, now, x))
    decreases |ts.heap|, Measure(ts, now)
  {
    if RootDue(ts, now) {
      RootIsOk(ts);
      RoundKeepsOk(ts, now);
      RoundProgresses(ts, now);
      RoundOutcome(ts, now, x);
      var ts1 := Round(ts, now);
      ProcessedReports(ts1, now, x);
      if ts.heap[0].hnd == x {
        OutcomesJoin(ts, ts1, Processed(ts1, now), x, RootExpiries(ts, now), Expiries(ts1, now, x));
      } else {
        assert Expiries(ts, now, x) == Expiries(ts1, now, x);
      }
    }
  }

  /** In a heap that is in order exactly the timers that are due expire. */
  lemma DueTimersExpire(ts: Timers, now: int, n: Node<TimerId>)
    requires TimersOk(ts) && Ordered(ts.heap, |ts.heap|) && n in ts.heap
    ensures Expiries(ts, now, n.hnd) != [] <==> n.prio.p <= now
  {
    var ts' := Processed(ts, now);
    assert n in multiset(ts.heap);
    ProcessedIsDone(ts, now);
    ProcessedReports(ts, now, n.hnd);
    if n.prio.p <= now {
      StaysOrExpires(ts, now, n);
      assert n in ts'.heap ==> n.hnd in Due(ts'.heap, now);
    } else {
      OnlyDueExpire(ts, now, n);
    }
  }

  /** A timer that does not expire keeps its place in the queue. */
  lemma {:induction false} StaysOrExpires(ts: Timers, now: int, n: Node<TimerId>)
    requires TimersOk(ts) && n in ts.heap
    ensures Expiries(ts, now, n.hnd) == [] ==> n in Processed(ts, now).heap
    decreases |ts.heap|, Measure(ts, now)
  {
    if RootDue(ts, now) {
      RootIsOk(ts);
      RoundKeepsOk(ts, now);
      RoundProgresses(ts, now);
      RoundMultiset(ts, now);
      if ts.heap[0].hnd != n.hnd {
        assert n in multiset(ts.heap) && n in multiset(Round(ts, now).heap);
        StaysOrExpires(Round(ts, now), now, n);
      }
    }
  }

  lemma {:induction false} OnlyDueExpire(ts: Timers, now: int, n: Node<TimerId>)
    requires TimersOk(ts) && n in ts.heap && n.prio.p > now
    ensures Expiries(ts, now, n.hnd) == []
    decreases |ts.heap|, Measure(ts, now)
  {
    if RootDue(ts, now) {
      RootIsOk(ts);
      RoundKeepsOk(ts, now);
      RoundProgresses(ts, now);
      RoundMultiset(ts, now);
      assert n in multiset(ts.heap) && ts.heap[0] in multiset(ts.heap);
      assert ts.heap[0].hnd != n.hnd;
      assert n in multiset(Round(ts, now).heap);
      OnlyDueExpire(Round(ts, now), now, n);
    }
  }

  /** A timer alone in its queue expires as `ExpireAll` says. */
  lemma {:induction false} ProcessedAlone(ts: Timers, now: int)
    requires TimersOk(ts) && |ts.heap| == 1 && RootOk(ts) && Nanos(ts.data[ts.heap[0].hnd].interval) > 0
    ensures var id, ts' := ts.heap[0].hnd, Processed(ts, now);
      && |ts'.heap| == 1 && ts'.heap[0].hnd == id && id in ts'.data
      && Solo(ts'.heap[0].prio.p, ts'.data[id]) == ExpireAll(Solo(ts.heap[0].prio.p, ts.data[id]), now)
    decreases |ts.heap|, Measure(ts, now)
  {
    if RootDue(ts, now) {
      RoundKeepsOk(ts, now);
      RoundProgresses(ts, now);
      ProcessedAlone(Round(ts, now), now);
    }
  }

  // ---------- In place, with time values ----------

  /** One pass of the loop body. */
  method ExpireRoot(ts: Timers, now: TimeVal) returns (ts': Timers)
    requires TimersOk(ts) && Normal(now) && RootDue(ts, Nanos(now))
    ensures RootOk(ts) && ts' == Round(ts, Nanos(now))
  {
    RootIsOk(ts);
    assert ts.heap[0] in multiset(ts.heap);
    var id := ts.heap[0].hnd;
    var t := ts.data[id].(expiryCount := ts.data[id].expiryCount + 1);
    var rest := Removed(ts.heap, 0);
    if OneShot(t) {
      return Timers(rest, ts.data[id := Report(t)]);
    }
    var timeout := TimeOf(Reference(ts.heap));
    var count, next := NextDeadline(timeout, t.interval, now);
    t := t.(expiryCount := t.expiryCount + count);
    ts' := Timers(Inserted(rest, Entry(Nanos(next), id)), ts.data[id := Report(t)]);
  }

  /** `process_timer_queue`. */
  method ProcessTimerQueue(ts: Timers, now: TimeVal) returns (ts': Timers)
    requires TimersOk(ts) && Normal(now)
    ensures ts' == Processed(ts, Nanos(now))
  {
    ts' := ts;
    if ts'.heap == [] {
      return;
    }
    while ts'.heap != [] && AtMost(TimeOf(ts'.heap[0].prio.p), now)
      invariant TimersOk(ts') && Processed(ts', Nanos(now)) == Processed(ts, Nanos(now))
      decreases |ts'.heap|, Measure(ts', Nanos(now))
    {
      ComparisonsAgree(TimeOf(ts'.heap[0].prio.p), now);
      RootIsOk(ts');
      RoundKeepsOk(ts', Nanos(now));
      RoundProgresses(ts', Nanos(now));
      ts' := ExpireRoot(ts', now);
    }
    if ts'.heap != [] {
      ComparisonsAgree(TimeOf(ts'.heap[0].prio.p), now);
    }
  }

  // ---------- The reference deadline ----------

  /** A round keeps the root on its own grid exactly when the deadline it is measured from, another timer's unless it
      is alone, differs from its own by whole periods. */
  lemma PeriodKeptIff(ts: Timers, now: int, n: Node<TimerId>)
    requires TimersOk(ts) && RootOk(ts) && !OneShot(ts.data[ts.heap[0].hnd])
    requires n in Round(ts, now).heap && n.hnd == ts.heap[0].hnd
    ensures var own, i := ts.heap[0].prio.p, Nanos(ts.data[ts.heap[0].hnd].interval);
      (n.prio.p - own) % i == 0 <==> (Reference(ts.heap) - own) % i == 0
  {
    var r, i := Reference(ts.heap), Nanos(ts.data[ts.heap[0].hnd].interval);
    RootRequeued(ts, now, n);
    ModuloShift(r - ts.heap[0].prio.p, Quotient(now - r, i) + 1, i);
  }

  lemma RootRequeued(ts: Timers, now: int, n: Node<TimerId>)
    requires TimersOk(ts) && RootOk(ts) && !OneShot(ts.data[ts.heap[0].hnd])
    requires n in Round(ts, now).heap && n.hnd == ts.heap[0].hnd
    ensures n.prio.p == NextAt(Reference(ts.heap), Nanos(ts.data[ts.heap[0].hnd].interval), now)
  {
    RoundMultiset(ts, now);
    UniqueRest(multiset(ts.heap), multiset(Removed(ts.heap, 0)), ts.heap[0]);
    assert n in multiset(Round(ts, now).heap);
  }

  lemma ModuloShift(a: int, c: int, interval: int)
    requires interval > 0
    ensures (a + c * interval) % interval == a % interval
  {
    var q, r := a / interval, a % interval;
    Products(q, c, interval);
    assert a + c * interval == (q + c) * interval + r;
    RemainderUnique(a + c * interval, interval, q + c, r);
  }

  lemma RemainderUnique(num: int, den: int, q: int, rem: int)
    requires den > 0 && num == q * den + rem && 0 <= rem < den
    ensures num % den == rem
  {
    QuotientUnique(num, den, q, rem);
  }

  /** A timer due at 10 s with a period of 5 s is next set for 15 s when alone in the queue, but for 105 s when
      another timer is queued for 100 s. */
  lemma AnotherTimerShiftsThePeriod(a: TimerId, b: TimerId, data: map<TimerId, Timer>)
    requires a in data && data[a].interval == TimeVal(5, 0)
    ensures var due, other := Entry(10 * BILLION, a), Entry(100 * BILLION, b);
      && Round(Timers([due], data), 10 * BILLION).heap == [Entry(15 * BILLION, a)]
      && Round(Timers([due, other], data), 10 * BILLION).heap == [other, Entry(105 * BILLION, a)]
  {
    var due, other := Entry(10 * BILLION, a), Entry(100 * BILLION, b);
    assert Removed([due], 0) == [] && Removed([due, other], 0) == [other];
    var alone, next := Entry(15 * BILLION, a), Entry(105 * BILLION, a);
    assert [] + [alone] == [alone] && [other] + [next] == [other, next];
    assert Inserted([], alone) == [alone] && Inserted([other], next) == [other, next];
  }
}
