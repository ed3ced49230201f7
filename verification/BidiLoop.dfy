/** The bidirectional watcher among threads: who may fetch, deliver and delete is decided by the attention
    lock, and that nothing is in flight when the watcher is deleted follows from it. */
module BidiLoops {
  import opened Wrappers
  import opened AttnLock
  import opened Rearming
  import opened BidiWatchers

  /** `batch` is the thread that has fetched events and not yet delivered them, `deleter` the thread that is
      deregistering, until it has issued the deletion. */
  datatype Loop = Loop(lock: LockState, s: Bidi, batch: Option<Tid>, deleter: Option<Tid>)

  datatype Move =
    | Lock(la: LockStep)
    | Poll(t: Tid, inn: bool, out: bool)
    | Deliver(t: Tid)
    | Deregister(t: Tid)
    | Delete(t: Tid)
    | Act(a: Step)

  function Boot(sep: bool, inn: bool, out: bool): Loop { Loop(START, New(sep, inn, out), None, None) }

  /** A thread fetches only with the lock and delivers its batch before it releases; it deregisters by taking
      the attention lock, and then deletes. Everything else is done by dispatching threads and the client. */
  predicate Can(u: Loop, m: Move) {
    match m
    case Lock(la) =>
      && Enabled(u.lock, la)
      && (u.deleter == Some(la.t) ==> la.LockAttn? || la.Wake?)
      && (la.Unlock? ==> u.batch != Some(la.t))
    case Poll(t, i, o) =>
      && Thread(u.lock, t).Holding? && u.deleter != Some(t) && u.batch != Some(t)
      && (i || o) && (i ==> u.s.p.here.armed) && (o ==> u.s.p.there.armed)
    case Deliver(t) => u.batch == Some(t)
    case Deregister(t) => Thread(u.lock, t).Idle? && !u.s.unwatched
    case Delete(t) => u.deleter == Some(t) && Thread(u.lock, t).Holding?
    case Act(a) => !a.TFetch? && !a.TReceive? && !a.TUnwatch? && !a.TDelete? && Possible(u.s, a)
  }

  /** The step of the watcher's own machine, if any. */
  function StepOf(m: Move): seq<Step> {
    match m
    case Lock(_) => []
    case Poll(_, i, o) => [TFetch(i, o)]
    case Deliver(_) => [TReceive]
    case Deregister(_) => [TUnwatch]
    case Delete(_) => [TDelete]
    case Act(a) => [a]
  }

  function Do(u: Loop, m: Move): Loop
    requires Can(u, m)
  {
    match m
    case Lock(la) => u.(lock := Apply(u.lock, la))
    case Poll(t, i, o) => u.(s := Take(u.s, TFetch(i, o)), batch := Some(t))
    case Deliver(_) => u.(s := Take(u.s, TReceive), batch := None)
    case Deregister(t) => u.(s := Take(u.s, TUnwatch), deleter := Some(t))
    case Delete(_) => u.(s := Take(u.s, TDelete), deleter := None)
    case Act(a) => u.(s := Take(u.s, a))
  }

  /** Whoever has a batch holds the lock and is not deregistering, and only then is anything in flight. */
  ghost predicate LoopOk(u: Loop) {
    && Inv(u.lock)
    && (u.batch.Some? ==> Thread(u.lock, u.batch.value).Holding? && u.deleter != u.batch)
    && (u.batch.None? <==> NothingInFlight(u.s))
    && (u.deleter.Some? ==> u.s.unwatched && !u.s.issued)
    && (u.s.issued ==> u.s.unwatched)
  }

  /** What the watcher's machine asks of each step is met, the deletion's condition by way of the lock. */
  lemma MoveIsPossible(u: Loop, m: Move)
    requires LoopOk(u) && Can(u, m)
    ensures forall i :: 0 <= i < |StepOf(m)| ==> Possible(u.s, StepOf(m)[i])
  {
    if (m.Poll? || m.Delete?) && u.batch.Some? {
      HolderIsHead(u.lock, m.t);
      HolderIsHead(u.lock, u.batch.value);
    }
  }

  lemma ActKeepsFlight(s: Bidi, a: Step)
    requires !a.TFetch? && !a.TReceive?
    ensures NothingInFlight(Take(s, a)) == NothingInFlight(s)
  {
    match a
    case TFinish(d, rearm) => FinishKeepsFetched(s.sep, Facing(s.p, d), rearm);
    case _ =>
  }

  lemma FinishKeepsFetched(sep: bool, p: Pair, returned: Rearm)
    ensures var q := Finish(sep, p, returned);
      q.here.fetched == p.here.fetched && q.there.fetched == p.there.fetched
  {
    if returned != REMOVED {
      var rearm := if p.here.deleteme then REMOVE else returned;
      RearmKeepsFetched(sep, p.(here := p.here.(active := false)), rearm);
    }
  }

  lemma RearmKeepsFetched(sep: bool, p: Pair, rearm: Rearm)
    ensures var q := RearmHere(sep, p, rearm);
      q.here.fetched == p.here.fetched && q.there.fetched == p.there.fetched
  {
    match rearm {
      case REMOVE =>
      case DISARM =>
      case REARM =>
      case _ =>
    }
  }

  lemma MoveKeepsOk(u: Loop, m: Move)
    requires LoopOk(u) && Can(u, m)
    ensures LoopOk(Do(u, m))
  {
    match m
    case Lock(la) =>
      StepKeepsInv(u.lock, la);
      if u.batch.Some? {
        HolderKeepsLock(u.lock, la, u.batch.value);
      }
    case Act(a) =>
      ActKeepsFlight(u.s, a);
    case Deregister(_) =>
      ActKeepsFlight(u.s, TUnwatch);
    case Delete(t) =>
      MoveIsPossible(u, m);
      ActKeepsFlight(u.s, TDelete);
    case Poll(_, _, _) =>
    case Deliver(_) =>
  }

  predicate Runs(u: Loop, run: seq<Move>)
    decreases |run|
  {
    run == [] || (Can(u, run[0]) && Runs(Do(u, run[0]), run[1..]))
  }

  function End(u: Loop, run: seq<Move>): Loop
    requires Runs(u, run)
    decreases |run|
  {
    if run == [] then u else End(Do(u, run[0]), run[1..])
  }

  /** The steps the watcher sees of a run of the loop. */
  function Projected(run: seq<Move>): seq<Step>
    decreases |run|
  {
    if run == [] then [] else StepOf(run[0]) + Projected(run[1..])
  }

  predicate CallsWellThroughout(s: Bidi, run: seq<Step>)
    decreases |run|
  {
    run == [] || (CallsWell(s, run[0]) && CallsWellThroughout(Take(s, run[0]), run[1..]))
  }

  /** Every run of the threads is, for the watcher, a run of its own machine. */
  lemma {:induction false} ThreadsGiveOrderlyRuns(u: Loop, run: seq<Move>)
    requires LoopOk(u) && Runs(u, run) && CallsWellThroughout(u.s, Projected(run))
    ensures Orderly(u.s, Projected(run)) && After(u.s, Projected(run)) == End(u, run).s
    decreases |run|
  {
    if run != [] {
      var m, rest := run[0], run[1..];
      MoveIsPossible(u, m);
      MoveKeepsOk(u, m);
      if m.Lock? {
        assert Projected(run) == Projected(rest);
      } else {
        assert Projected(run)[1..] == Projected(rest) && Projected(run)[0] == StepOf(m)[0];
      }
      ThreadsGiveOrderlyRuns(Do(u, m), rest);
    }
  }

  /** Safe removal of bidirectional watchers over every multi-threaded run: once `watch_removed` has been
      called it has been called once, and nothing the threads can still do touches the watcher. */
  lemma SafeAfterBidiRemoval(sep: bool, inn: bool, out: bool, run: seq<Move>, m: Move)
    requires var u := Boot(sep, inn, out);
      && Runs(u, run) && CallsWellThroughout(u.s, Projected(run))
      && NoLateRemoval(u.s, Projected(run)) && CleanThroughout(u.s, Projected(run))
      && End(u, run).s.p.removals > 0 && Can(End(u, run), m)
    ensures var u := End(Boot(sep, inn, out), run);
      && u.s.p.removals == 1
      && (m.Lock? || (m.Deregister? && !CallsWell(u.s, TUnwatch)) || (m.Act? && !CallsWell(u.s, m.a)))
  {
    var u := Boot(sep, inn, out);
    ThreadsGiveOrderlyRuns(u, run);
    RunKeepsLoopOk(u, run);
    WatchRemovedExactlyOnce(sep, inn, out, Projected(run));
    MoveIsPossible(End(u, run), m);
    if !m.Lock? {
      RemovedBidiIsUntouchable(sep, inn, out, Projected(run), StepOf(m)[0]);
    }
  }

  lemma {:induction false} RunKeepsLoopOk(u: Loop, run: seq<Move>)
    requires LoopOk(u) && Runs(u, run)
    ensures LoopOk(End(u, run))
    decreases |run|
  {
    if run != [] {
      MoveKeepsOk(u, run[0]);
      RunKeepsLoopOk(Do(u, run[0]), run[1..]);
    }
  }
}
