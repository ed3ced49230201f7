/** When a watcher can fire: what enabling and disabling it, and the value its handler returns, achieve.

    A watcher is one-shot: once an event of it has been fetched it stays silent until its handler, or the client,
    arms it again. */
module Firing {
  import opened AttnLock
  import opened Rearming
  import opened SafeRemoval

  /** Thread `t` is free to fetch events. */
  predicate Free(s: Loop, t: Tid) {
    Thread(s.lock, t).Holding? && t !in s.dereg && Batch(s.batches, t) == {}
  }

  /** The backend can report an event of the watcher to thread `t`. */
  predicate CanFire(s: Loop, t: Tid, w: Wid) {
    Possible(s, Fetch(t, {w}))
  }

  /** The steps that let the watcher fire once more. */
  predicate Revives(a: Step, w: Wid) {
    match a
    case SetEnabled(x, enable) => x == w && enable
    case Finish(x, rearm) => x == w && (rearm == REARM || rearm == REQUEUE)
    case _ => false
  }

  predicate Fetches(a: Step, w: Wid) {
    a.Fetch? && w in a.events
  }

  function FetchCount(run: seq<Step>, w: Wid): nat {
    if run == [] then 0 else (if Fetches(run[0], w) then 1 else 0) + FetchCount(run[1..], w)
  }

  function DispatchCount(run: seq<Step>, w: Wid): nat {
    if run == [] then 0 else (if run[0] == Dispatch(w) then 1 else 0) + DispatchCount(run[1..], w)
  }

  // ---------- What one call lets happen ----------

  /** The end of a dispatch, for every returned value: the watcher can be fetched exactly after REARM while it is
      registered, dispatched exactly after REQUEUE if it is not marked, and `watch_removed` has been called exactly
      after REMOVE or for a marked watcher; REMOVED does none of this. Nothing else in the loop changes. */
  lemma FinishMeans(s: Loop, w: Wid, r: Rearm, t: Tid)
    requires LoopOk(s) && Possible(s, Finish(w, r)) && Free(s, t)
    ensures var s', v := Take(s, Finish(w, r)), s.watchers[w];
      && Free(s', t) && w in s'.watchers
      && (CanFire(s', t, w) <==> r == REARM && v.registered)
      && (Possible(s', Dispatch(w)) <==> r == REQUEUE && !v.deleteme)
      && (s'.watchers[w].removals == 1 <==> r != REMOVED && (r == REMOVE || v.deleteme))
      && (s'.watchers[w].active <==> r == REMOVED)
      && (s'.watchers[w].registered <==> v.registered && r != REMOVE)
      && forall r' :: !Possible(s', Finish(w, r'))
    ensures var s' := Take(s, Finish(w, r));
      && s'.lock == s.lock && s'.batches == s.batches && s'.dereg == s.dereg
      && s'.watchers - {w} == s.watchers - {w}
  {
    assert WatcherOk(s, w);
  }

  /** Enabling makes a registered watcher fetchable and leaves a queued one queued; disabling ends both, however the
      watcher stood; an unregistered watcher stays unfetchable. */
  lemma SetEnabledMeans(s: Loop, w: Wid, enable: bool, t: Tid)
    requires LoopOk(s) && w in s.watchers && Free(s, t)
    ensures var s', v := Take(s, SetEnabled(w, enable)), s.watchers[w];
      && (CanFire(s', t, w) <==> enable && v.registered)
      && (Possible(s', Dispatch(w)) <==> enable && v.queued)
      && (forall r :: Possible(s', Finish(w, r)) <==> Possible(s, Finish(w, r)))
      && (w in s'.watchers && s'.watchers[w].registered <==> v.registered)
    ensures var s' := Take(s, SetEnabled(w, enable));
      && s'.lock == s.lock && s'.batches == s.batches && s'.dereg == s.dereg
      && s'.watchers - {w} == s.watchers - {w}
  {
    assert WatcherOk(s, w);
  }

  /** A new watcher can be fetched exactly when it was registered as enabled. */
  lemma RegisterMeans(s: Loop, w: Wid, enabled: bool, t: Tid)
    requires LoopOk(s) && w !in s.watchers && Free(s, t)
    ensures var s' := Take(s, Register(w, enabled));
      && (CanFire(s', t, w) <==> enabled)
      && !Possible(s', Dispatch(w))
      && !InFlight(s'.batches, w)
  {
    forall u
      ensures w !in Batch(s.batches, u)
    {
      assert ThreadOk(s, u);
    }
  }

  /** A reported event reaches the handler: fetched, it can be received, then dispatched, and the handler can return
      what it likes, the thread being free to fetch again. */
  lemma ReportedIsHandled(s: Loop, w: Wid, t: Tid, r: Rearm) returns (s1: Loop, s2: Loop, s3: Loop)
    requires LoopOk(s) && CanFire(s, t, w)
    ensures s1 == Take(s, Fetch(t, {w})) && LoopOk(s1) && InFlight(s1.batches, w)
    ensures Possible(s1, Receive(t, w)) && s2 == Take(s1, Receive(t, w)) && LoopOk(s2)
    ensures Possible(s2, Dispatch(w)) && s3 == Take(s2, Dispatch(w)) && LoopOk(s3)
    ensures Possible(s3, Finish(w, r)) && Free(s3, t)
    ensures s3.watchers[w].registered && !s3.watchers[w].deleteme && !Possible(s3, Dispatch(w))
  {
    assert w in {w} && WatcherOk(s, w);
    FetchKeepsOk(s, t, {w});
    s1 := Take(s, Fetch(t, {w}));
    assert w in Batch(s1.batches, t) && w in s1.watchers;
    ReceiveKeepsOk(s1, t, w);
    s2 := Take(s1, Receive(t, w));
    assert Batch(s2.batches, t) == {};
    StepKeepsOk(s2, Dispatch(w));
    s3 := Take(s2, Dispatch(w));
    assert s1.watchers[w].registered && s2.watchers[w].registered;
    assert WatcherOk(s3, w);
  }

  // ---------- One event for one arming, over every run ----------

  predicate Armed(s: Loop, w: Wid) {
    w in s.watchers && s.watchers[w].armed
  }

  /** An event is queued or fetched. */
  ghost predicate EventWaits(s: Loop, w: Wid) {
    InFlight(s.batches, w) || (w in s.watchers && s.watchers[w].queued)
  }

  ghost function Credit(s: Loop, w: Wid): nat {
    if Armed(s, w) || EventWaits(s, w) then 1 else 0
  }

  lemma FetchSpends(s: Loop, a: Step, w: Wid)
    requires LoopOk(s) && w in s.watchers && a.Fetch? && Possible(s, a)
    ensures Armed(Take(s, a), w) <==> Armed(s, w) && !Fetches(a, w)
    ensures EventWaits(Take(s, a), w) <==> EventWaits(s, w) || Fetches(a, w)
    ensures Fetches(a, w) ==> Armed(s, w)
  {
    var s' := Take(s, a);
    if Fetches(a, w) {
      assert w in Batch(s'.batches, a.t);
    }
    forall u
      ensures u != a.t ==> Batch(s'.batches, u) == Batch(s.batches, u)
    {
    }
    if EventWaits(s, w) && InFlight(s.batches, w) {
      var u :| w in Batch(s.batches, u);
      assert w in Batch(s'.batches, u);
    }
  }

  lemma ReceiveSpends(s: Loop, a: Step, w: Wid)
    requires LoopOk(s) && w in s.watchers && a.Receive? && Possible(s, a)
    ensures Armed(Take(s, a), w) <==> Armed(s, w)
    ensures EventWaits(Take(s, a), w) ==> EventWaits(s, w)
  {
    var s' := Take(s, a);
    if InFlight(s'.batches, w) {
      var u :| w in Batch(s'.batches, u);
      assert w in Batch(s.batches, u);
    }
  }

  /** No step but a reviving one arms the watcher or brings it an event it was not armed for; a dispatch uses the
      event up. */
  lemma StepSpends(s: Loop, a: Step, w: Wid)
    requires LoopOk(s) && w in s.watchers && Possible(s, a) && !Revives(a, w)
    ensures w in Take(s, a).watchers
    ensures (if Fetches(a, w) then 1 else 0) + (if Armed(Take(s, a), w) then 1 else 0)
         <= (if Armed(s, w) then 1 else 0)
    ensures (if a == Dispatch(w) then 1 else 0) + Credit(Take(s, a), w) <= Credit(s, w)
  {
    assert WatcherOk(s, w);
    if a.Fetch? {
      FetchSpends(s, a, w);
    } else if a.Receive? {
      ReceiveSpends(s, a, w);
    } else {
      OtherSpends(s, a, w);
    }
  }

  lemma OtherSpends(s: Loop, a: Step, w: Wid)
    requires LoopOk(s) && w in s.watchers && Possible(s, a) && !Revives(a, w) && !a.Fetch? && !a.Receive?
    ensures w in Take(s, a).watchers
    ensures Armed(Take(s, a), w) ==> Armed(s, w)
    ensures EventWaits(Take(s, a), w) ==> EventWaits(s, w)
    ensures a == Dispatch(w) ==> EventWaits(s, w) && Credit(Take(s, a), w) == 0
  {
    assert WatcherOk(s, w);
    assert Take(s, a).batches == s.batches;
  }

  /** One-shot delivery: in every run that does not revive the watcher, the backend reports it at most once, and only
      if it was armed; its handler is started at most once, and only if it was armed or an event of it was fetched or
      queued. */
  lemma {:induction false} OneEventPerArming(s: Loop, run: seq<Step>, w: Wid)
    requires LoopOk(s) && w in s.watchers && LegalRun(s, run)
    requires forall a :: a in run ==> !Revives(a, w)
    ensures w in After(s, run).watchers
    ensures FetchCount(run, w) + (if Armed(After(s, run), w) then 1 else 0) <= (if Armed(s, w) then 1 else 0)
    ensures DispatchCount(run, w) + Credit(After(s, run), w) <= Credit(s, w)
    decreases |run|
  {
    if run != [] {
      StepSpends(s, run[0], w);
      StepKeepsOk(s, run[0]);
      assert forall a :: a in run[1..] ==> a in run;
      OneEventPerArming(Take(s, run[0]), run[1..], w);
    }
  }

  /** After a handler has returned anything but REARM or REQUEUE, or for a marked watcher, no continuation reports,
      receives or dispatches the watcher until it is revived. */
  lemma {:induction false} FinishSilences(s: Loop, w: Wid, r: Rearm, run: seq<Step>, t: Tid)
    requires LoopOk(s) && Possible(s, Finish(w, r)) && Disciplined(s, Finish(w, r))
    requires (r != REARM && r != REQUEUE) || s.watchers[w].deleteme
    requires LegalRun(Take(s, Finish(w, r)), run) && forall b :: b in run ==> !Revives(b, w)
    ensures FetchCount(run, w) == 0 && DispatchCount(run, w) == 0
    ensures var s' := After(Take(s, Finish(w, r)), run);
      !CanFire(s', t, w) && !Possible(s', Receive(t, w)) && !Possible(s', Dispatch(w))
  {
    assert WatcherOk(s, w);
    StepKeepsOk(s, Finish(w, r));
    var s1 := Take(s, Finish(w, r));
    assert s1.batches == s.batches;
    assert WatcherOk(s1, w);
    OneEventPerArming(s1, run, w);
    NoCreditIsSilent(After(s1, run), w, t);
  }

  lemma NoCreditIsSilent(s: Loop, w: Wid, t: Tid)
    requires Credit(s, w) == 0
    ensures !CanFire(s, t, w) && !Possible(s, Receive(t, w)) && !Possible(s, Dispatch(w))
  {
    assert w in {w};
  }

  /** After disabling, no continuation reports the watcher until it is revived, and its handler is started at most
      once, for an event that was already fetched; with none in flight it is not started at all. */
  lemma {:induction false} DisablingSilences(s: Loop, w: Wid, run: seq<Step>, t: Tid)
    requires LoopOk(s) && w in s.watchers && Disciplined(s, SetEnabled(w, false))
    requires LegalRun(Take(s, SetEnabled(w, false)), run) && forall b :: b in run ==> !Revives(b, w)
    ensures FetchCount(run, w) == 0 && !CanFire(After(Take(s, SetEnabled(w, false)), run), t, w)
    ensures DispatchCount(run, w) <= if InFlight(s.batches, w) then 1 else 0
    ensures !InFlight(s.batches, w) ==>
      var s' := After(Take(s, SetEnabled(w, false)), run);
      !Possible(s', Receive(t, w)) && !Possible(s', Dispatch(w))
  {
    StepKeepsOk(s, SetEnabled(w, false));
    var s1 := Take(s, SetEnabled(w, false));
    assert s1.batches == s.batches;
    OneEventPerArming(s1, run, w);
    var s' := After(s1, run);
    assert w in {w};
    if !InFlight(s.batches, w) {
      NoCreditIsSilent(s', w, t);
    }
  }

  /** The exception is real: an event fetched before the watcher was disabled can still be received and dispatched. */
  lemma FetchedBeforeDisablingIsHandled(s: Loop, w: Wid, t: Tid)
    requires LoopOk(s) && w in s.watchers && w in Batch(s.batches, t)
    ensures var s1 := Take(s, SetEnabled(w, false));
      Possible(s1, Receive(t, w)) && Possible(Take(s1, Receive(t, w)), Dispatch(w))
  {
  }

  /** A handler that re-arms its registered watcher is called again for the next event, however the loop stands. */
  lemma RearmedIsHandledAgain(s: Loop, w: Wid, t: Tid, r: Rearm) returns (s1: Loop, s2: Loop, s3: Loop)
    requires LoopOk(s) && Possible(s, Finish(w, REARM)) && Free(s, t) && s.watchers[w].registered
    ensures Possible(Take(s, Finish(w, REARM)), Fetch(t, {w}))
    ensures s1 == Take(Take(s, Finish(w, REARM)), Fetch(t, {w}))
    ensures Possible(s1, Receive(t, w)) && s2 == Take(s1, Receive(t, w))
    ensures Possible(s2, Dispatch(w)) && s3 == Take(s2, Dispatch(w))
    ensures Possible(s3, Finish(w, r)) && Free(s3, t) && LoopOk(s3)
  {
    FinishMeans(s, w, REARM, t);
    StepKeepsOk(s, Finish(w, REARM));
    s1, s2, s3 := ReportedIsHandled(Take(s, Finish(w, REARM)), w, t, r);
  }

  lemma RequestStays(s: Loop, a: Step, w: Wid)
    requires w in s.watchers && s.watchers[w].requested && Possible(s, a)
    ensures w in Take(s, a).watchers && Take(s, a).watchers[w].requested
  {
  }

  /** Once its removal is asked for, a watcher is reported no more, whatever is done with it. */
  lemma {:induction false} RequestedIsNotReported(s: Loop, w: Wid, run: seq<Step>, t: Tid)
    requires LoopOk(s) && w in s.watchers && s.watchers[w].requested && LegalRun(s, run)
    ensures FetchCount(run, w) == 0 && !CanFire(After(s, run), t, w)
    decreases |run|
  {
    assert WatcherOk(s, w);
    assert !Armed(s, w);
    if run == [] {
      assert w in {w};
    } else {
      RequestStays(s, run[0], w);
      StepKeepsOk(s, run[0]);
      RequestedIsNotReported(Take(s, run[0]), w, run[1..], t);
    }
  }
}
