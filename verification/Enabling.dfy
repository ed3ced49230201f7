/** Why a client must not enable a watcher that has an event pending: exactly then the loop can come to
    dispatch it after `watch_removed`. */
module Enabling {
  import opened Sets
  import opened AttnLock
  import opened Rearming
  import opened SafeRemoval

  /** The watcher is in its handler after `watch_removed`. */
  predicate Violated(s: Loop, w: Wid) {
    w in s.watchers && s.watchers[w].removals > 0 && s.watchers[w].handling
  }

  /** Some continuation in which the client keeps its promises comes to that. */
  ghost predicate CanBeViolated(s: Loop, w: Wid) {
    exists run :: LegalRun(s, run) && Violated(After(s, run), w)
  }

  /** An event of the watcher is fetched, queued or being handled. */
  ghost predicate Pending(s: Loop, w: Wid)
    requires w in s.watchers
  {
    InFlight(s.batches, w) || s.watchers[w].queued || s.watchers[w].active
  }

  // ---------- Runs piece by piece ----------

  lemma {:induction false} RunsJoin(s: Loop, a: seq<Step>, b: seq<Step>)
    requires LegalRun(s, a) && LegalRun(After(s, a), b)
    ensures LegalRun(s, a + b) && After(s, a + b) == After(After(s, a), b)
    decreases |a|
  {
    if a == [] {
      assert a + b == b;
    } else {
      assert (a + b)[1..] == a[1..] + b;
      RunsJoin(Take(s, a[0]), a[1..], b);
    }
  }

  lemma OneStep(s: Loop, a: Step)
    requires Possible(s, a) && Disciplined(s, a)
    ensures LegalRun(s, [a]) && After(s, [a]) == Take(s, a)
  {
    assert [a][1..] == [];
  }

  lemma Then(s: Loop, run: seq<Step>, a: Step)
    requires LegalRun(s, run) && Possible(After(s, run), a) && Disciplined(After(s, run), a)
    ensures LegalRun(s, run + [a]) && After(s, run + [a]) == Take(After(s, run), a)
  {
    OneStep(After(s, run), a);
    RunsJoin(s, run, [a]);
  }

  // ---------- Somebody gets the lock ----------

  /** Thread `t` may fetch, once its batch is handed over. */
  ghost predicate Polls(s: Loop, t: Tid) {
    Thread(s.lock, t).Holding? && t !in s.dereg
  }

  /** What the run has left of the watcher's world: the watcher as it was, and every batch. */
  ghost predicate Same(s: Loop, s': Loop, w: Wid)
    requires w in s.watchers
  {
    s'.watchers.Keys == s.watchers.Keys && s'.watchers[w] == s.watchers[w] && s'.batches == s.batches
  }

  /** From every state that meets the invariant some thread comes to hold the lock, free to fetch. */
  lemma SomebodyPolls(s: Loop, s1: Loop, w: Wid) returns (run: seq<Step>, t: Tid)
    requires LoopOk(s) && w in s.watchers && s.watchers[w].registered
    requires s1 == Update(s, w, Toggled(s.watchers[w], true))
    ensures LegalRun(s1, run) && Polls(After(s1, run), t) && Same(s1, After(s1, run), w)
    ensures forall u :: Batch(s.batches, u) != {} ==> u == t
  {
    assert WatcherOk(s, w);
    if s.lock.q.attn == [] {
      t := FreshNat(s.dereg.Keys);
      NobodyHolds(s);
      OneStep(s1, LockProtocol(LockPoll(t)));
      run := [LockProtocol(LockPoll(t))];
    } else {
      t := s.lock.q.attn[0];
      BatchIsHeads(s);
      run := [];
      if !Thread(s1.lock, t).Holding? {
        OneStep(s1, LockProtocol(Wake(t)));
        run := [LockProtocol(Wake(t))];
      }
      var s2 := After(s1, run);
      if t in s2.dereg {
        assert ThreadOk(s, t) && Deregistering(s.dereg, s.dereg[t]);
        assert s.dereg[t] != w;
        Then(s1, run, IssueDelete(t));
        run := run + [IssueDelete(t)];
      }
    }
  }

  lemma NobodyHolds(s: Loop)
    requires LoopOk(s) && s.lock.q.attn == []
    ensures forall u :: Thread(s.lock, u).Idle? && Batch(s.batches, u) == {}
  {
    forall u
      ensures Thread(s.lock, u).Idle? && Batch(s.batches, u) == {}
    {
      assert ThreadOk(s, u);
    }
  }

  lemma BatchIsHeads(s: Loop)
    requires LoopOk(s) && s.lock.q.attn != []
    ensures forall u :: Batch(s.batches, u) != {} ==> u == s.lock.q.attn[0]
  {
    forall u | Batch(s.batches, u) != {}
      ensures u == s.lock.q.attn[0]
    {
      assert ThreadOk(s, u);
      HolderIsHead(s.lock, u);
    }
  }

  // ---------- Its batch is handed over ----------

  lemma {:induction false} HandOver(s: Loop, t: Tid, w: Wid) returns (run: seq<Step>)
    requires Polls(s, t) && w in s.watchers && Batch(s.batches, t) <= s.watchers.Keys
    ensures LegalRun(s, run)
    ensures var s' := After(s, run);
      && Polls(s', t) && Batch(s'.batches, t) == {} && w in s'.watchers
      && s'.watchers[w] == if w in Batch(s.batches, t) then Received(s.watchers[w]) else s.watchers[w]
    decreases |Batch(s.batches, t)|
  {
    var batch := Batch(s.batches, t);
    if batch == {} {
      run := [];
    } else {
      var x := SomeElement(batch);
      var s1 := Take(s, Receive(t, x));
      assert Batch(s1.batches, t) == batch - {x} && s1.watchers.Keys == s.watchers.Keys;
      OneStep(s, Receive(t, x));
      var rest := HandOver(s1, t, w);
      RunsJoin(s, [Receive(t, x)], rest);
      run := [Receive(t, x)] + rest;
    }
  }

  // ---------- The watcher is fetched again while its handler runs ----------

  lemma FetchedWhileHandled(s: Loop, t: Tid, w: Wid) returns (run: seq<Step>)
    requires Polls(s, t) && Batch(s.batches, t) == {} && w in s.watchers
    requires s.watchers[w].armed && s.watchers[w].handling && !s.watchers[w].requested && !s.watchers[w].deleteme
    ensures LegalRun(s, run) && Violated(After(s, run), w)
  {
    var s1 := Take(s, Fetch(t, {w}));
    assert w in Batch(s1.batches, t) && s1.watchers[w] == Fetched(s.watchers[w]);
    var s2 := Take(s1, Finish(w, REMOVE));
    var s3 := Take(s2, Receive(t, w));
    run := [Fetch(t, {w})];
    OneStep(s, Fetch(t, {w}));
    Then(s, run, Finish(w, REMOVE));
    run := run + [Finish(w, REMOVE)];
    Then(s, run, Receive(t, w));
    run := run + [Receive(t, w)];
    Then(s, run, Dispatch(w));
    run := run + [Dispatch(w)];
  }

  lemma PendingLeadsToViolation(s: Loop, w: Wid) returns (run: seq<Step>)
    requires LoopOk(s) && w in s.watchers && s.watchers[w].registered && Pending(s, w)
    ensures var s1 := Update(s, w, Toggled(s.watchers[w], true)); LegalRun(s1, run) && Violated(After(s1, run), w)
  {
    var s1 := Update(s, w, Toggled(s.watchers[w], true));
    assert WatcherOk(s, w);
    var a, t := SomebodyPolls(s, s1, w);
    var s2 := After(s1, a);
    assert ThreadOk(s, t);
    var b := HandOver(s2, t, w);
    RunsJoin(s1, a, b);
    run := a + b;
    var s3 := After(s2, b);
    if s3.watchers[w].queued {
      Then(s1, run, Dispatch(w));
      run := run + [Dispatch(w)];
    }
    var c := FetchedWhileHandled(After(s1, run), t, w);
    RunsJoin(s1, run, c);
    run := run + c;
  }

  /** After enabling a registered watcher, a loop whose client keeps its promises from then on can come to dispatch
      the watcher after `watch_removed` exactly when an event of it was pending. */
  lemma EnablingIsSafeIff(s: Loop, w: Wid)
    requires LoopOk(s) && w in s.watchers && s.watchers[w].registered
    ensures CanBeViolated(Take(s, SetEnabled(w, true)), w) <==> Pending(s, w)
  {
    var s1 := Take(s, SetEnabled(w, true));
    if Pending(s, w) {
      var run := PendingLeadsToViolation(s, w);
      assert LegalRun(s1, run) && Violated(After(s1, run), w);
    } else {
      WatcherStepKeepsOk(s, w, Toggled(s.watchers[w], true));
      forall run | LegalRun(s1, run)
        ensures !Violated(After(s1, run), w)
      {
        RunKeepsOk(s1, run);
        assert w in After(s1, run).watchers ==> WatcherOk(After(s1, run), w);
      }
    }
  }

  /** A disciplined client reaches a state in which the watcher is neither queued nor active, as far as the client
      can see, but sits in a poller's fetched batch. */
  lemma InFlightIsReachable()
    ensures var run := [Register(0, true), LockProtocol(LockPoll(7)), Fetch(7, {0})];
      && LegalRun(BOOT, run)
      && var s := After(BOOT, run);
         && 0 in s.watchers && s.watchers[0].registered && !s.watchers[0].queued && !s.watchers[0].active
         && InFlight(s.batches, 0)
  {
    var run := [Register(0, true), LockProtocol(LockPoll(7)), Fetch(7, {0})];
    var s1 := Take(BOOT, run[0]);
    var s2 := Take(s1, run[1]);
    assert Thread(s2.lock, 7).Holding?;
    var s3 := Take(s2, run[2]);
    assert 0 in Batch(s3.batches, 7);
    OneStep(BOOT, run[0]);
    Then(BOOT, [run[0]], run[1]);
    Then(BOOT, [run[0]] + [run[1]], run[2]);
    assert run == [run[0]] + [run[1]] + [run[2]];
  }
}
