/** Counting the intervals of a periodic timer, from the clock to the callback. */
module TimerCounts {
  import opened Wrappers
  import opened Sets
  import opened TimeVals
  import opened TimerQueues
  import opened Rearming

  type Tid = nat

  /** Where a dispatch of the timer's watcher stands: pulled from the queue, its count read but not yet cleared
      (neither happens under the lock), or in the handler. */
  datatype Phase = Pulled | Read(report: int) | Handling

  /** `solo.t.intervals` waits in the watcher; `reported` has been given to the callback. Several threads may be
      dispatching the watcher at once: pulling it from the queue does not ask whether it is active. */
  datatype Periodic = Periodic(first: int, solo: Solo, reported: int, queued: bool, phases: map<Tid, Phase>,
                               polled: Option<int>)

  function Period(p: Periodic): int { Nanos(p.solo.t.interval) }

  function Total(p: Periodic): int { p.reported + p.solo.t.intervals + p.solo.t.expiryCount }

  function Armed(first: int, interval: TimeVal, enabled: bool): Periodic {
    Periodic(first, Solo(first, Timer(interval, 0, enabled, 0)), 0, false, map[], None)
  }

  datatype Step =
    | Poll(now: int)
    | SetEnabled(enable: bool)
    | Begin(t: Tid)
    | ReadCount(t: Tid)
    | ClearCount(t: Tid)
    | Finish(t: Tid, rearm: Rearm)

  /** `enable_timer_nolock`: a timer with expiries saved up reports them at once instead. */
  function Enable(p: Periodic, enable: bool): Periodic {
    var t := p.solo.t;
    if t.expiryCount != 0 && enable then
      p.(solo := p.solo.(t := t.(expiryCount := 0, intervals := t.intervals + t.expiryCount)), queued := true)
    else p.(solo := p.solo.(t := t.(enabled := enable)))
  }

  predicate Possible(p: Periodic, a: Step) {
    match a
    case Poll(now) => p.polled.Some? ==> p.polled.value <= now
    case SetEnabled(_) => true
    case Begin(t) => p.queued && t !in p.phases
    case ReadCount(t) => t in p.phases && p.phases[t] == Pulled
    case ClearCount(t) => t in p.phases && p.phases[t].Read?
    case Finish(t, rearm) => t in p.phases && p.phases[t] == Handling && rearm != REMOVE && rearm != REMOVED
  }

  /** The client enables the timer only while its watcher is neither queued nor being dispatched. */
  predicate Disciplined(p: Periodic, a: Step) {
    a == SetEnabled(true) ==> !p.queued && p.phases == map[]
  }

  /** What a thread has read and not yet cleared. */
  function ReadBy(p: Periodic, t: Tid): int {
    if t in p.phases && p.phases[t].Read? then p.phases[t].report else 0
  }

  function Take(p: Periodic, a: Step): Periodic
    requires Period(p) > 0
  {
    match a
    case Poll(now) =>
      var solo := ExpireAll(p.solo, now);
      p.(solo := solo, polled := Some(now), queued := p.queued || (p.solo.t.enabled && !solo.t.enabled))
    case SetEnabled(enable) => if enable then Enable(p, true) else Enable(p, false).(queued := false)
    case Begin(t) => p.(queued := false, phases := p.phases[t := Pulled])
    case ReadCount(t) => p.(phases := p.phases[t := Read(p.solo.t.intervals)])
    case ClearCount(t) =>
      p.(solo := p.solo.(t := p.solo.t.(intervals := 0)), reported := p.reported + ReadBy(p, t),
         phases := p.phases[t := Handling])
    case Finish(t, rearm) =>
      var r := p.(phases := p.phases - {t});
      (match rearm
       case REARM => Enable(r, true)
       case DISARM => Enable(r, false)
       case REQUEUE => r.(queued := true)
       case _ => r)
  }

  // ---------- What every poll counts ----------

  /** A poll leaves the deadline on the timer's own grid, at its first point after `now`, and adds to the
      counts exactly the number of points it passed, even where one division under-counts. */
  lemma {:induction false} PollCounts(s: Solo, now: int)
    requires SoloOk(s)
    ensures var s', i := ExpireAll(s, now), Nanos(s.t.interval);
      && s'.t.interval == s.t.interval && s'.deadline > now
      && (s.deadline <= now ==> s'.deadline - i <= now && s'.t.enabled == false)
      && (s.deadline > now ==> s' == s)
      && (s'.deadline - s.deadline)
         == (s'.t.intervals + s'.t.expiryCount - s.t.intervals - s.t.expiryCount) * i
      && (!s.t.enabled ==> !s'.t.enabled && s'.t.intervals == s.t.intervals)
    decreases now - s.deadline
  {
    var i := Nanos(s.t.interval);
    if s.deadline <= now {
      var n := ExpireOnce(s, now);
      NextIsLater(s.deadline, i, now);
      PollCounts(n, now);
      var s' := ExpireAll(s, now);
      var c := Quotient(now - s.deadline, i) + 1;
      Products(c, s'.t.intervals + s'.t.expiryCount - n.t.intervals - n.t.expiryCount, i);
      if n.deadline > now {
        LastPoint(s.deadline, i, now);
      }
    }
  }

  lemma LastPoint(d: int, i: int, now: int)
    requires i > 0 && d <= now
    ensures NextAt(d, i, now) - i <= now
  {
    var q := Quotient(now - d, i);
    Products(q, 1, i);
    assert q * i <= now - d;
  }

  /** Only an enabled timer has no expiries saved up, and none are ever owed. */
  ghost predicate Backlog(t: Timer) {
    t.expiryCount >= 0 && (t.enabled ==> t.expiryCount == 0)
  }

  /** A poll passes intervals to the watcher exactly when the timer is enabled and due. */
  lemma {:induction false} PollReceives(s: Solo, now: int)
    requires SoloOk(s) && Backlog(s.t)
    ensures var s' := ExpireAll(s, now);
      && Backlog(s'.t) && s'.deadline >= s.deadline
      && (if s.t.enabled && s.deadline <= now then s'.t.intervals > s.t.intervals else s'.t.intervals == s.t.intervals)
    decreases now - s.deadline
  {
    if s.deadline <= now {
      var n := ExpireOnce(s, now);
      NextIsLater(s.deadline, Nanos(s.t.interval), now);
      assert Quotient(now - s.deadline, Nanos(s.t.interval)) >= 0;
      PollReceives(n, now);
    }
  }

  // ---------- Runs ----------

  /** Any run of polls, enables, disables and dispatches, whatever the client does. */
  predicate PossibleRun(p: Periodic, run: seq<Step>)
    requires Period(p) > 0
    decreases |run|
  {
    run == [] || (Possible(p, run[0]) && Period(Take(p, run[0])) > 0 && PossibleRun(Take(p, run[0]), run[1..]))
  }

  function After(p: Periodic, run: seq<Step>): Periodic
    requires Period(p) > 0 && PossibleRun(p, run)
    decreases |run|
  {
    if run == [] then p else After(Take(p, run[0]), run[1..])
  }

  /** What one step loses: a thread that clears the count takes with it what is there beyond its own reading, or
      reports again what another thread has cleared already. */
  function LostBy(p: Periodic, a: Step): int {
    if a.ClearCount? then p.solo.t.intervals - ReadBy(p, a.t) else 0
  }

  function Lost(p: Periodic, run: seq<Step>): int
    requires Period(p) > 0 && PossibleRun(p, run)
    decreases |run|
  {
    if run == [] then 0 else LostBy(p, run[0]) + Lost(Take(p, run[0]), run[1..])
  }

  // ---------- The count, with no rule for the client ----------

  /** With `lost` intervals lost so far, the deadline is the first one after the latest poll. */
  ghost predicate Ok(p: Periodic, lost: int) {
    var n := Total(p) + lost;
    && Period(p) > 0 && Backlog(p.solo.t)
    && p.solo.deadline == p.first + n * Period(p) && n >= 0
    && (if p.polled.Some? then
          p.polled.value < p.solo.deadline && (n > 0 ==> p.solo.deadline - Period(p) <= p.polled.value)
        else n == 0)
  }

  lemma PollKeepsOk(p: Periodic, now: int, lost: int)
    requires Ok(p, lost) && Possible(p, Poll(now))
    ensures Ok(Take(p, Poll(now)), lost)
  {
    PollCounts(p.solo, now);
    PollReceives(p.solo, now);
    var p' := Take(p, Poll(now));
    Products(Total(p) + lost, Total(p') - Total(p), Period(p));
    NonNegative(Total(p) + lost, Total(p') + lost, Period(p), p'.solo.deadline - p.solo.deadline);
  }

  lemma NonNegative(a: int, b: int, i: int, d: int)
    requires i > 0 && a >= 0 && d >= 0 && d == (b - a) * i
    ensures b >= a
  {
    Multiple(b - a, i);
  }

  /** Polls count, clearing loses, and nothing else changes the total. */
  lemma StepKeepsOk(p: Periodic, a: Step, lost: int)
    requires Ok(p, lost) && Possible(p, a)
    ensures Ok(Take(p, a), lost + LostBy(p, a))
    ensures Take(p, a).first == p.first && Period(Take(p, a)) == Period(p)
  {
    if a.Poll? {
      PollKeepsOk(p, a.now, lost);
      PollCounts(p.solo, a.now);
    } else {
      assert Total(Take(p, a)) == Total(p) - LostBy(p, a);
    }
  }

  lemma {:induction false} RunKeepsOk(p: Periodic, run: seq<Step>, lost: int)
    requires Ok(p, lost) && PossibleRun(p, run)
    ensures Ok(After(p, run), lost + Lost(p, run))
    ensures After(p, run).first == p.first && Period(After(p, run)) == Period(p)
    decreases |run|
  {
    if run != [] {
      StepKeepsOk(p, run[0], lost);
      RunKeepsOk(Take(p, run[0]), run[1..], lost + LostBy(p, run[0]));
    }
  }

  /** The number of deadlines passed at the latest poll. */
  function Passed(p: Periodic, first: int, interval: int): int
    requires interval > 0
  {
    if p.polled.Some? && p.polled.value >= first then (p.polled.value - first) / interval + 1 else 0
  }

  /** Counting over every run, whatever the client does: what has been reported, what waits in the watcher, what
      the timer has saved up and what clearings have lost together are the number of deadlines passed at the
      latest poll, and the deadline is the next one. */
  lemma CountWithLosses(first: int, interval: TimeVal, enabled: bool, run: seq<Step>)
    requires Nanos(interval) > 0 && PossibleRun(Armed(first, interval, enabled), run)
    ensures var p0, i := Armed(first, interval, enabled), Nanos(interval);
      var p := After(p0, run);
      Total(p) + Lost(p0, run) == Passed(p, first, i) && p.solo.deadline == first + Passed(p, first, i) * i
  {
    var p0 := Armed(first, interval, enabled);
    RunKeepsOk(p0, run, 0);
    var p := After(p0, run);
    if p.polled.Some? {
      PointsPassed(first, Nanos(interval), Total(p) + Lost(p0, run), p.polled.value);
    }
  }

  /** The number of points of the grid up to `now`, from the first point after it. */
  lemma PointsPassed(first: int, i: int, n: int, now: int)
    requires i > 0 && n >= 0 && now < first + n * i && (n > 0 ==> first + n * i - i <= now)
    ensures n == if now >= first then (now - first) / i + 1 else 0
  {
    if n > 0 {
      Products(n, -1, i);
      assert (n - 1) * i >= 0;
      QuotientUnique(now - first, i, n - 1, now - first - (n - 1) * i);
    }
  }

  // ---------- A rule the client can keep ----------

  /** While the watcher is queued or being dispatched the timer is disabled; one thread at most dispatches it, and
      then it is not queued and what that thread has read is still all there is. */
  ghost predicate Quiet(p: Periodic) {
    && Period(p) > 0 && Backlog(p.solo.t) && p.solo.t.intervals >= 0
    && (p.queued || p.phases != map[] ==> !p.solo.t.enabled)
    && (p.phases != map[] ==> !p.queued)
    && (forall t, u :: t in p.phases && u in p.phases ==> t == u)
    && (forall t :: t in p.phases && p.phases[t].Read? ==> p.phases[t].report == p.solo.t.intervals)
  }

  lemma StepKeepsQuiet(p: Periodic, a: Step)
    requires Quiet(p) && Possible(p, a) && Disciplined(p, a)
    ensures LostBy(p, a) == 0 && Quiet(Take(p, a))
  {
    if a.Poll? {
      PollReceives(p.solo, a.now);
      PollCounts(p.solo, a.now);
    } else if a.Begin? {
      assert p.phases == map[];
    }
  }

  predicate DisciplinedRun(p: Periodic, run: seq<Step>)
    requires Period(p) > 0 && PossibleRun(p, run)
    decreases |run|
  {
    run == [] || (Disciplined(p, run[0]) && DisciplinedRun(Take(p, run[0]), run[1..]))
  }

  lemma {:induction false} DisciplinedLosesNothing(p: Periodic, run: seq<Step>)
    requires Quiet(p) && PossibleRun(p, run) && DisciplinedRun(p, run)
    ensures Lost(p, run) == 0 && Quiet(After(p, run))
    decreases |run|
  {
    if run != [] {
      StepKeepsQuiet(p, run[0]);
      DisciplinedLosesNothing(Take(p, run[0]), run[1..]);
    }
  }

  /** Exact counting for a client that enables the timer only while its watcher is neither queued nor being
      dispatched, after any mix of polls, enables, disables and dispatches by any number of threads. */
  lemma CountIsExact(first: int, interval: TimeVal, enabled: bool, run: seq<Step>)
    requires Nanos(interval) > 0 && PossibleRun(Armed(first, interval, enabled), run)
    requires DisciplinedRun(Armed(first, interval, enabled), run)
    ensures var p := After(Armed(first, interval, enabled), run);
      Total(p) == Passed(p, first, Nanos(interval)) && p.solo.deadline == first + Total(p) * Nanos(interval)
  {
    DisciplinedLosesNothing(Armed(first, interval, enabled), run);
    CountWithLosses(first, interval, enabled, run);
  }

  // ---------- Disabled timers are silent, enabled ones are not ----------

  /** The timer may report again after such a step. */
  predicate Enables(a: Step) {
    a == SetEnabled(true) || (a.Finish? && (a.rearm == REARM || a.rearm == REQUEUE))
  }

  predicate NeverEnables(run: seq<Step>) {
    forall i :: 0 <= i < |run| ==> !Enables(run[i])
  }

  /** In every run without an enabling, no dispatch of the watcher can begin and nothing reaches it or its callback;
      what expires meanwhile is saved up. */
  lemma {:induction false} SilentRun(p: Periodic, run: seq<Step>, t: Tid)
    requires Period(p) > 0 && Backlog(p.solo.t) && !p.solo.t.enabled && !p.queued && p.phases == map[]
    requires PossibleRun(p, run) && NeverEnables(run)
    ensures var q := After(p, run);
      && !Possible(q, Begin(t)) && q.reported == p.reported && q.solo.t.intervals == p.solo.t.intervals
      && !q.solo.t.enabled && Lost(p, run) == 0
    decreases |run|
  {
    if run != [] {
      if run[0].Poll? {
        PollReceives(p.solo, run[0].now);
        PollCounts(p.solo, run[0].now);
      }
      SilentRun(Take(p, run[0]), run[1..], t);
    }
  }

  /** After the client disables the timer, with no dispatch under way, there is silence until it is enabled. */
  lemma DisabledIsSilent(p: Periodic, run: seq<Step>, t: Tid)
    requires Quiet(p) && p.phases == map[]
    requires PossibleRun(Take(p, SetEnabled(false)), run) && NeverEnables(run)
    ensures var q := After(Take(p, SetEnabled(false)), run);
      !Possible(q, Begin(t)) && q.reported == p.reported && q.solo.t.intervals == p.solo.t.intervals
  {
    SilentRun(Take(p, SetEnabled(false)), run, t);
  }

  /** So there is after the only dispatch ends with DISARM or NOOP. */
  lemma DisarmedIsSilent(p: Periodic, u: Tid, rearm: Rearm, run: seq<Step>, t: Tid)
    requires Quiet(p) && Possible(p, Finish(u, rearm)) && (rearm == DISARM || rearm == NOOP)
    requires PossibleRun(Take(p, Finish(u, rearm)), run) && NeverEnables(run)
    ensures var q := After(Take(p, Finish(u, rearm)), run);
      !Possible(q, Begin(t)) && q.reported == p.reported && q.solo.t.intervals == p.solo.t.intervals
  {
    assert p.phases - {u} == map[];
    SilentRun(Take(p, Finish(u, rearm)), run, t);
  }

  /** After enabling, by the client or by a handler that ends with REARM, a poll at the deadline or later has the
      watcher dispatched; so does a handler that ends with REQUEUE, at once. */
  lemma EnabledIsDispatched(p: Periodic, a: Step, now: int, t: Tid)
    requires Period(p) > 0 && Backlog(p.solo.t) && Possible(p, a) && Enables(a)
    requires p.solo.deadline <= now && (p.polled.Some? ==> p.polled.value <= now) && t !in p.phases
    ensures Period(Take(p, a)) > 0 && Possible(Take(p, a), Poll(now)) && Possible(Take(Take(p, a), Poll(now)), Begin(t))
    ensures a.Finish? && a.rearm == REQUEUE ==> Possible(Take(p, a), Begin(t))
  {
    var q := Take(p, a);
    PollReceives(q.solo, now);
    PollCounts(q.solo, now);
  }

  /** Expiries saved up while the timer was disabled are handed to its watcher when it is enabled. */
  lemma SavedUpIsHandedOver(p: Periodic, t: Tid)
    requires Period(p) > 0 && p.solo.t.expiryCount != 0 && t !in p.phases
    ensures var q := Take(p, SetEnabled(true));
      && q.solo.t.intervals == p.solo.t.intervals + p.solo.t.expiryCount && q.solo.t.expiryCount == 0
      && Possible(q, Begin(t))
  {
  }

  // ---------- Exactly when breaking the rule can cost ----------

  /** Some continuation in which the client keeps the rule from now on miscounts. */
  ghost predicate CanMiscount(p: Periodic)
    requires Period(p) > 0
  {
    exists run :: PossibleRun(p, run) && DisciplinedRun(p, run) && Lost(p, run) != 0
  }

  lemma Unfolded(p: Periodic, a: Step, rest: seq<Step>)
    requires Period(p) > 0 && Possible(p, a) && Period(Take(p, a)) > 0 && PossibleRun(Take(p, a), rest)
    ensures PossibleRun(p, [a] + rest) && Lost(p, [a] + rest) == LostBy(p, a) + Lost(Take(p, a), rest)
    ensures After(p, [a] + rest) == After(Take(p, a), rest)
    ensures Disciplined(p, a) && DisciplinedRun(Take(p, a), rest) ==> DisciplinedRun(p, [a] + rest)
  {
    assert ([a] + rest)[1..] == rest;
  }

  /** A run of steps none of which loses, then one that does. */
  lemma CostsLater(p: Periodic, a: Step)
    requires Period(p) > 0 && Possible(p, a) && Disciplined(p, a) && LostBy(p, a) == 0
    requires Period(Take(p, a)) > 0 && CanMiscount(Take(p, a))
    ensures CanMiscount(p)
  {
    var rest :| PossibleRun(Take(p, a), rest) && DisciplinedRun(Take(p, a), rest) && Lost(Take(p, a), rest) != 0;
    Unfolded(p, a, rest);
  }

  lemma CostsNow(p: Periodic, a: Step)
    requires Period(p) > 0 && Possible(p, a) && Disciplined(p, a) && LostBy(p, a) != 0 && Period(Take(p, a)) > 0
    ensures CanMiscount(p)
  {
    Unfolded(p, a, []);
    assert PossibleRun(p, [a] + []) && DisciplinedRun(p, [a] + []) && Lost(p, [a] + []) != 0;
  }

  /** The clock can still come to the deadline. */
  ghost predicate Awaits(p: Periodic) {
    Period(p) > 0 && Backlog(p.solo.t) && (p.polled.Some? ==> p.polled.value <= p.solo.deadline)
  }

  /** An enabled timer that expires between the reading and the clearing of its count loses the expiry. */
  lemma ExpiryWhileRead(p: Periodic, t: Tid)
    requires Awaits(p) && p.solo.t.enabled && t in p.phases && p.phases[t] == Read(p.solo.t.intervals)
    ensures CanMiscount(p)
  {
    var poll := Poll(p.solo.deadline);
    PollReceives(p.solo, p.solo.deadline);
    PollCounts(p.solo, p.solo.deadline);
    CostsNow(Take(p, poll), ClearCount(t));
    CostsLater(p, poll);
  }

  lemma ExpiryWhilePulled(p: Periodic, t: Tid)
    requires Awaits(p) && p.solo.t.enabled && t in p.phases && p.phases[t] == Pulled
    ensures CanMiscount(p)
  {
    ExpiryWhileRead(Take(p, ReadCount(t)), t);
    CostsLater(p, ReadCount(t));
  }

  lemma ExpiryWhileQueued(p: Periodic)
    requires Awaits(p) && p.solo.t.enabled && p.queued
    ensures CanMiscount(p)
  {
    var t := FreshNat(p.phases.Keys);
    ExpiryWhilePulled(Take(p, Begin(t)), t);
    CostsLater(p, Begin(t));
  }

  /** Two threads that read the same count both report it. */
  lemma ReportedTwice(p: Periodic, t: Tid)
    requires Awaits(p) && p.queued && p.solo.t.intervals != 0 && t in p.phases && p.phases[t] == Pulled
    ensures CanMiscount(p)
  {
    var u := FreshNat(p.phases.Keys);
    var p1 := Take(p, Begin(u));
    var p2 := Take(p1, ReadCount(t));
    var p3 := Take(p2, ReadCount(u));
    var p4 := Take(p3, ClearCount(t));
    CostsNow(p4, ClearCount(u));
    CostsLater(p3, ClearCount(t));
    CostsLater(p2, ReadCount(u));
    CostsLater(p1, ReadCount(t));
    CostsLater(p, Begin(u));
  }

  /** A handler that ends with REARM while another thread has read the count enables the timer under it. */
  lemma RearmWhileRead(p: Periodic, t: Tid)
    requires Awaits(p) && p.queued && p.solo.t.expiryCount == 0 && t in p.phases && p.phases[t] == Handling
    ensures CanMiscount(p)
  {
    var u := FreshNat(p.phases.Keys);
    var p1 := Take(p, Begin(u));
    var p2 := Take(p1, ReadCount(u));
    var p3 := Take(p2, Finish(t, REARM));
    ExpiryWhileRead(p3, u);
    CostsLater(p2, Finish(t, REARM));
    CostsLater(p1, ReadCount(u));
    CostsLater(p, Begin(u));
  }

  /** An enabled timer that expires during its handler is dispatched again beside it. */
  lemma ExpiryWhileHandling(p: Periodic, t: Tid)
    requires Awaits(p) && p.solo.t.enabled && !p.queued && t in p.phases && p.phases[t] == Handling
    ensures CanMiscount(p)
  {
    var poll := Poll(p.solo.deadline);
    var p1 := Take(p, poll);
    PollReceives(p.solo, p.solo.deadline);
    PollCounts(p.solo, p.solo.deadline);
    FirstExpiry(p.solo);
    RearmWhileRead(p1, t);
    CostsLater(p, poll);
  }

  /** Is a dispatch under way, or the watcher queued with nothing saved up in the timer? */
  predicate Risky(p: Periodic) {
    p.phases != map[] || (p.queued && p.solo.t.expiryCount == 0)
  }

  /** From every state that a client keeping the rule can reach: after it enables the timer, some continuation in
      which it keeps the rule miscounts exactly when a dispatch is under way, or the watcher is queued and the timer
      has no expiries saved up. */
  lemma EnablingMiscountsIff(p: Periodic)
    requires Quiet(p) && (p.polled.Some? ==> p.polled.value < p.solo.deadline)
    ensures CanMiscount(Take(p, SetEnabled(true))) <==> Risky(p)
  {
    var q := Take(p, SetEnabled(true));
    if !Risky(p) {
      assert Quiet(q);
      forall run | PossibleRun(q, run) && DisciplinedRun(q, run)
        ensures Lost(q, run) == 0
      {
        DisciplinedLosesNothing(q, run);
      }
    } else if p.phases == map[] {
      ExpiryWhileQueued(q);
    } else {
      var t := SomeElement(p.phases.Keys);
      match p.phases[t] {
        case Pulled => if q.solo.t.enabled { ExpiryWhilePulled(q, t); } else { ReportedTwice(q, t); }
        case Read(_) => if q.solo.t.enabled { ExpiryWhileRead(q, t); } else { CostsNow(q, ClearCount(t)); }
        case Handling => if q.solo.t.enabled { ExpiryWhileHandling(q, t); } else { RearmWhileRead(q, t); }
      }
    }
  }

  /** The rule asks for a little more: enabling a queued timer with expiries saved up does not miscount, but inserts
      the watcher into the queue it is already in. */
  predicate QueuesAgain(p: Periodic, a: Step) {
    p.queued && a == SetEnabled(true) && p.solo.t.expiryCount != 0
  }

  lemma RuleIsExact(p: Periodic)
    requires Quiet(p)
    ensures !Disciplined(p, SetEnabled(true)) <==> Risky(p) || QueuesAgain(p, SetEnabled(true))
  {
  }

  // ---------- Two runs ----------

  /** An enabled timer polled exactly at its deadline passes on one interval. */
  lemma FirstExpiry(s: Solo)
    requires SoloOk(s) && s.t.enabled
    ensures ExpireAll(s, s.deadline) ==
      Solo(s.deadline + Nanos(s.t.interval),
           s.t.(enabled := false, expiryCount := 0, intervals := s.t.intervals + s.t.expiryCount + 1))
  {
    QuotientUnique(0, Nanos(s.t.interval), 0, 0);
    var n := ExpireOnce(s, s.deadline);
    assert ExpireAll(n, s.deadline) == n;
  }

  /** The timer expires, its watcher is dispatched, and the client enables the timer between the reading and the
      clearing of its count: the next expiry is lost. */
  lemma EnablingDuringDispatchLosesCounts(first: int, interval: TimeVal) returns (run: seq<Step>)
    requires Nanos(interval) > 0
    ensures PossibleRun(Armed(first, interval, true), run) && Lost(Armed(first, interval, true), run) == 1
  {
    var p0 := Armed(first, interval, true);
    FirstExpiry(p0.solo);
    var p1 := Take(p0, Poll(first));
    var p2 := Take(p1, Begin(0));
    var p3 := Take(p2, ReadCount(0));
    var p4 := Take(p3, SetEnabled(true));
    FirstExpiry(p4.solo);
    var p5 := Take(p4, Poll(p4.solo.deadline));
    Unfolded(p5, ClearCount(0), []);
    Unfolded(p4, Poll(p4.solo.deadline), [ClearCount(0)] + []);
    run := [Poll(p4.solo.deadline)] + ([ClearCount(0)] + []);
    Unfolded(p3, SetEnabled(true), run);
    run := [SetEnabled(true)] + run;
    Unfolded(p2, ReadCount(0), run);
    run := [ReadCount(0)] + run;
    Unfolded(p1, Begin(0), run);
    run := [Begin(0)] + run;
    Unfolded(p0, Poll(first), run);
    run := [Poll(first)] + run;
  }

  /** The timer is enabled while thread 0 is about to read its count, expires, and is pulled by thread 1 as well;
      both read, both clear: two intervals have passed and four are reported. */
  lemma DispatchedTwiceOvercounts(first: int, interval: TimeVal) returns (run: seq<Step>)
    requires Nanos(interval) > 0
    ensures PossibleRun(Armed(first, interval, true), run) && Lost(Armed(first, interval, true), run) == -2
    ensures After(Armed(first, interval, true), run).reported == 4
  {
    var p0 := Armed(first, interval, true);
    FirstExpiry(p0.solo);
    var p1 := Take(p0, Poll(first));
    var p2 := Take(p1, Begin(0));
    var p3 := Take(p2, SetEnabled(true));
    FirstExpiry(p3.solo);
    var p4 := Take(p3, Poll(p3.solo.deadline));
    run := BothReport(p4);
    Unfolded(p3, Poll(p3.solo.deadline), run);
    run := [Poll(p3.solo.deadline)] + run;
    Unfolded(p2, SetEnabled(true), run);
    run := [SetEnabled(true)] + run;
    Unfolded(p1, Begin(0), run);
    run := [Begin(0)] + run;
    Unfolded(p0, Poll(first), run);
    run := [Poll(first)] + run;
  }

  lemma BothReport(p: Periodic) returns (run: seq<Step>)
    requires Period(p) > 0 && p.queued && p.phases == map[0 := Pulled]
    ensures PossibleRun(p, run) && Lost(p, run) == -p.solo.t.intervals
    ensures After(p, run).reported == p.reported + 2 * p.solo.t.intervals
  {
    var p1 := Take(p, Begin(1));
    var p2 := Take(p1, ReadCount(0));
    var p3 := Take(p2, ReadCount(1));
    var p4 := Take(p3, ClearCount(0));
    run := [ClearCount(1)] + [];
    Unfolded(p4, ClearCount(1), []);
    Unfolded(p3, ClearCount(0), run);
    run := [ClearCount(0)] + run;
    Unfolded(p2, ReadCount(1), run);
    run := [ReadCount(1)] + run;
    Unfolded(p1, ReadCount(0), run);
    run := [ReadCount(0)] + run;
    Unfolded(p, Begin(1), run);
    run := [Begin(1)] + run;
  }
}
