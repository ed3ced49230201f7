/** File-descriptor watchers under any number of polling, dispatching and deregistering threads.

    The base lock makes each critical section one step; the attention lock decides who may fetch
    events and who may delete. `watch_removed` promises that the watcher is never touched again. */
module SafeRemoval {
  import opened AttnLock
  import opened Rearming

  /** A watcher and its backend registration. `removals` counts `watch_removed` calls, `handling`
      says that a handler is running, `requested` that the client has asked for removal. */
  datatype Watcher = Watcher(registered: bool, armed: bool, queued: bool, active: bool, deleteme: bool,
                             handling: bool, requested: bool, removals: nat)

  // ---------- One critical section on one watcher ----------

  function Fetched(w: Watcher): Watcher { w.(armed := false) }

  function Received(w: Watcher): Watcher { w.(queued := true) }

  function Dispatched(w: Watcher): Watcher { w.(queued := false, active := true, handling := true) }

  function Toggled(w: Watcher, enable: bool): Watcher {
    if enable then w.(armed := w.registered) else w.(armed := false, queued := false)
  }

  function Unwatched(w: Watcher): Watcher { w.(registered := false, armed := false, requested := true) }

  function Deleted(w: Watcher): Watcher {
    if w.active then w.(deleteme := true) else w.(queued := false, removals := w.removals + 1)
  }

  function Finished(w: Watcher, r: Rearm): Watcher {
    if r == REMOVED then w.(handling := false)
    else
      var r' := if w.deleteme then REMOVE else r;
      var v := w.(handling := false, active := false);
      match r'
      case REARM => v.(armed := v.registered)
      case DISARM => v.(armed := false)
      case REMOVE => v.(registered := false, armed := false, requested := true, removals := v.removals + 1)
      case REQUEUE => v.(queued := true)
      case _ => v
  }

  /** The backend's one-shot registration of one descriptor; arming it when unregistered does nothing. */
  class BackendWatch {
    var registered: bool
    var armed: bool

    constructor (enabled: bool)
      ensures registered && armed == enabled
    {
      registered, armed := true, enabled;
    }

    method Arm()
      modifies this`armed
      ensures armed == (registered || old(armed))
    {
      if registered { armed := true; }
    }

    method Disarm()
      modifies this`armed
      ensures !armed
    {
      armed := false;
    }

    method Remove()
      modifies this
      ensures !registered && !armed
    {
      registered, armed := false, false;
    }
  }

  /** The watcher object with the flags the source updates in place. */
  class FdWatcher {
    const backend: BackendWatch
    var queued: bool
    var active: bool
    var deleteme: bool
    var watchRemovedCalls: nat
    ghost var handling: bool
    ghost var requested: bool

    ghost function Abs(): Watcher
      reads this, backend
    {
      Watcher(backend.registered, backend.armed, queued, active, deleteme, handling, requested,
              watchRemovedCalls)
    }

    constructor (enabled: bool)
      ensures Abs() == Watcher(true, enabled, false, false, false, false, false, 0)
      ensures fresh(backend)
    {
      backend := new BackendWatch(enabled);
      queued, active, deleteme, watchRemovedCalls := false, false, false, 0;
      handling, requested := false, false;
    }

    method ReceiveFdEvent()
      modifies this
      ensures Abs() == Received(old(Abs()))
    {
      queued := true;
    }

    /** `process_events` pulls the watcher from the queue and marks it before running its handler. */
    method BeginDispatch()
      requires queued
      modifies this
      ensures Abs() == Dispatched(old(Abs()))
    {
      queued := false;
      active := true;
      handling := true;
    }

    method SetEnabled(enable: bool)
      requires !backend.registered ==> !backend.armed
      modifies this, backend
      ensures Abs() == Toggled(old(Abs()), enable)
    {
      if enable {
        backend.Arm();
      } else {
        backend.Disarm();
      }
      if !enable {
        queued := false;
      }
    }

    /** `deregister` up to its request for the attention lock. */
    method Unwatch()
      modifies this, backend
      ensures Abs() == Unwatched(old(Abs()))
    {
      backend.Remove();
      requested := true;
    }

    /** `issue_delete`: an active watcher is only marked, any other is removed now. */
    method IssueDelete()
      modifies this
      ensures Abs() == Deleted(old(Abs()))
    {
      if active {
        deleteme := true;
      } else {
        queued := false;
        watchRemovedCalls := watchRemovedCalls + 1;
      }
    }

    /** The critical section at the end of `dispatch`: a marked watcher must not re-arm itself. */
    method FinishDispatch(returned: Rearm)
      requires !backend.registered ==> !backend.armed
      modifies this, backend
      ensures Abs() == Finished(old(Abs()), returned)
    {
      handling := false;
      var rearm := returned;
      if rearm != REMOVED {
        active := false;
        if deleteme {
          rearm := REMOVE;
        }
        // process_fd_rearm
        if rearm == REARM {
          backend.Arm();
        } else if rearm == DISARM {
          backend.Disarm();
        } else if rearm == REMOVE {
          backend.Remove();
          requested := true;
        }
        // post_dispatch
        if rearm == REMOVE {
          watchRemovedCalls := watchRemovedCalls + 1;
        } else if rearm == REQUEUE {
          queued := true;
        }
      }
    }
  }

  // ---------- The whole loop ----------

  type Wid = nat

  /** `batches` holds what each thread has fetched from the backend and not yet received; `dereg`
      the watcher each thread is deregistering, until it has issued the deletion. */
  datatype Loop = Loop(lock: LockState, watchers: map<Wid, Watcher>, batches: map<Tid, set<Wid>>,
                       dereg: map<Tid, Wid>)

  const BOOT := Loop(START, map[], map[], map[])

  function Batch(batches: map<Tid, set<Wid>>, t: Tid): set<Wid> {
    if t in batches then batches[t] else {}
  }

  datatype Step =
    | LockProtocol(a: LockStep)
    | Register(w: Wid, enabled: bool)
    | SetEnabled(w: Wid, enable: bool)
    | Fetch(t: Tid, events: set<Wid>)
    | Receive(t: Tid, w: Wid)
    | Dispatch(w: Wid)
    | Finish(w: Wid, rearm: Rearm)
    | BeginDeregister(t: Tid, w: Wid)
    | IssueDelete(t: Tid)

  /** What the loop and the kernel can do. A thread fetches only while it has the lock, hands over its
      whole batch before releasing, and deregisters by taking the attention lock and then deleting. */
  predicate Possible(s: Loop, a: Step) {
    match a
    case LockProtocol(la) =>
      && Enabled(s.lock, la)
      && (la.t in s.dereg ==> la.LockAttn? || la.Wake?)
      && (la.Unlock? ==> Batch(s.batches, la.t) == {})
    case Register(w, _) => w !in s.watchers
    case SetEnabled(w, _) => w in s.watchers
    case Fetch(t, events) =>
      && Thread(s.lock, t).Holding? && t !in s.dereg && Batch(s.batches, t) == {}
      && forall w :: w in events ==> w in s.watchers && s.watchers[w].armed
    case Receive(t, w) => w in Batch(s.batches, t) && w in s.watchers
    case Dispatch(w) => w in s.watchers && s.watchers[w].queued
    case Finish(w, _) => w in s.watchers && s.watchers[w].handling
    case BeginDeregister(t, w) => w in s.watchers && t !in s.dereg && Thread(s.lock, t).Idle?
    case IssueDelete(t) => t in s.dereg && s.dereg[t] in s.watchers && Thread(s.lock, t).Holding?
  }

  ghost predicate InFlight(batches: map<Tid, set<Wid>>, w: Wid) {
    exists t :: w in Batch(batches, t)
  }

  /** What the client promises: it enables no watcher with an event pending, requests removal once,
      leaves a removed watcher alone, and returns REMOVED only for a watcher already marked. */
  ghost predicate Disciplined(s: Loop, a: Step) {
    match a
    case SetEnabled(w, enable) =>
      w in s.watchers ==>
        && s.watchers[w].removals == 0
        && (enable ==> !InFlight(s.batches, w) && !s.watchers[w].queued && !s.watchers[w].active)
    case Finish(w, rearm) =>
      w in s.watchers ==>
        && (rearm == REMOVE ==> s.watchers[w].deleteme || !s.watchers[w].requested)
        && (rearm == REMOVED ==> s.watchers[w].deleteme)
    case BeginDeregister(_, w) => w in s.watchers ==> !s.watchers[w].requested
    case _ => true
  }

  function Update(s: Loop, w: Wid, v: Watcher): Loop {
    s.(watchers := s.watchers[w := v])
  }

  function Take(s: Loop, a: Step): Loop
    requires Possible(s, a)
  {
    match a
    case LockProtocol(la) => s.(lock := Apply(s.lock, la))
    case Register(w, enabled) =>
      Update(s, w, Watcher(true, enabled, false, false, false, false, false, 0))
    case SetEnabled(w, enable) => Update(s, w, Toggled(s.watchers[w], enable))
    case Fetch(t, events) =>
      s.(watchers := map w | w in s.watchers ::
           if w in events then Fetched(s.watchers[w]) else s.watchers[w],
         batches := s.batches[t := events])
    case Receive(t, w) =>
      Update(s, w, Received(s.watchers[w])).(batches := s.batches[t := Batch(s.batches, t) - {w}])
    case Dispatch(w) => Update(s, w, Dispatched(s.watchers[w]))
    case Finish(w, rearm) => Update(s, w, Finished(s.watchers[w], rearm))
    case BeginDeregister(t, w) => Update(s, w, Unwatched(s.watchers[w])).(dereg := s.dereg[t := w])
    case IssueDelete(t) =>
      Update(s, s.dereg[t], Deleted(s.watchers[s.dereg[t]])).(dereg := s.dereg - {t})
  }

  // ---------- The invariant ----------

  ghost predicate Deregistering(dereg: map<Tid, Wid>, w: Wid) {
    exists t :: t in dereg && dereg[t] == w
  }

  /** An event is in at most one place: armed, fetched, queued or being handled. */
  ghost predicate OnePlace(s: Loop, w: Wid)
    requires w in s.watchers
  {
    var v := s.watchers[w];
    && (v.armed ==> v.registered && !v.queued && !v.active && !InFlight(s.batches, w))
    && (InFlight(s.batches, w) ==> !v.queued && !v.active)
    && (v.queued ==> !v.active)
    && (v.handling ==> v.active)
  }

  /** A removal request is in exactly one place: deregistering, marked on an active watcher, or done. */
  ghost predicate RemovalTracked(s: Loop, w: Wid)
    requires w in s.watchers
  {
    var v := s.watchers[w];
    && (v.requested ==> !v.registered)
    && (v.requested <==> Deregistering(s.dereg, w) || v.deleteme || v.removals > 0)
    && (Deregistering(s.dereg, w) ==> !v.deleteme && v.removals == 0)
    && (v.deleteme && v.removals == 0 ==> v.active)
    && (v.active && !v.handling ==> v.deleteme)
  }

  ghost predicate Gone(s: Loop, w: Wid)
    requires w in s.watchers
  {
    var v := s.watchers[w];
    && !v.registered && !v.armed && !v.queued && !v.active && !v.handling
    && !InFlight(s.batches, w) && !Deregistering(s.dereg, w)
  }

  ghost predicate WatcherOk(s: Loop, w: Wid)
    requires w in s.watchers
  {
    && OnePlace(s, w)
    && RemovalTracked(s, w)
    && (s.watchers[w].removals > 0 ==> s.watchers[w].removals == 1 && Gone(s, w))
  }

  ghost predicate ThreadOk(s: Loop, t: Tid) {
    && (Batch(s.batches, t) != {} ==> Thread(s.lock, t).Holding? && t !in s.dereg)
    && (forall w :: w in Batch(s.batches, t) ==> w in s.watchers)
    && (t in s.dereg ==> s.dereg[t] in s.watchers)
    && (forall u :: t in s.dereg && u in s.dereg && s.dereg[t] == s.dereg[u] ==> t == u)
  }

  ghost predicate LoopOk(s: Loop) {
    && Inv(s.lock)
    && (forall w :: w in s.watchers ==> WatcherOk(s, w))
    && (forall t :: ThreadOk(s, t))
  }

  // ---------- Every step keeps it ----------

  lemma WatcherStepKeepsOk(s: Loop, w: Wid, v: Watcher)
    requires LoopOk(s) && w in s.watchers && WatcherOk(Update(s, w, v), w)
    ensures LoopOk(Update(s, w, v))
  {
    var s' := Update(s, w, v);
    forall x | x in s'.watchers
      ensures WatcherOk(s', x)
    {
      assert x != w ==> WatcherOk(s, x);
    }
    forall t
      ensures ThreadOk(s', t)
    {
      assert ThreadOk(s, t);
    }
  }

  lemma LockStepKeepsOk(s: Loop, la: LockStep)
    requires LoopOk(s) && Possible(s, LockProtocol(la))
    ensures LoopOk(Take(s, LockProtocol(la)))
  {
    StepKeepsInv(s.lock, la);
    var s' := Take(s, LockProtocol(la));
    forall t
      ensures ThreadOk(s', t)
    {
      assert ThreadOk(s, t);
      if Batch(s.batches, t) != {} {
        HolderKeepsLock(s.lock, la, t);
      }
    }
    forall x | x in s'.watchers
      ensures WatcherOk(s', x)
    {
      assert WatcherOk(s, x);
    }
  }

  lemma RegisterKeepsOk(s: Loop, w: Wid, enabled: bool)
    requires LoopOk(s) && Possible(s, Register(w, enabled))
    ensures LoopOk(Take(s, Register(w, enabled)))
  {
    var s' := Take(s, Register(w, enabled));
    forall t
      ensures ThreadOk(s', t)
    {
      assert ThreadOk(s, t);
    }
    forall t
      ensures w !in Batch(s.batches, t) && (t in s.dereg ==> s.dereg[t] != w)
    {
      assert ThreadOk(s, t);
    }
    forall x | x in s'.watchers
      ensures WatcherOk(s', x)
    {
      if x != w {
        assert WatcherOk(s, x);
      }
    }
  }

  lemma FetchKeepsOk(s: Loop, t: Tid, events: set<Wid>)
    requires LoopOk(s) && Possible(s, Fetch(t, events))
    ensures LoopOk(Take(s, Fetch(t, events)))
  {
    var s' := Take(s, Fetch(t, events));
    forall u
      ensures ThreadOk(s', u)
    {
      assert ThreadOk(s, u);
    }
    forall x | x in s'.watchers
      ensures WatcherOk(s', x)
    {
      assert WatcherOk(s, x);
      forall u | x in Batch(s'.batches, u)
        ensures x in events || x in Batch(s.batches, u)
      {
      }
      if InFlight(s'.batches, x) && x !in events {
        assert InFlight(s.batches, x);
      }
    }
  }

  lemma ReceiveKeepsOk(s: Loop, t: Tid, w: Wid)
    requires LoopOk(s) && Possible(s, Receive(t, w))
    ensures LoopOk(Take(s, Receive(t, w)))
  {
    var s' := Take(s, Receive(t, w));
    assert InFlight(s.batches, w) && WatcherOk(s, w) && ThreadOk(s, t);
    forall u
      ensures ThreadOk(s', u)
    {
      assert ThreadOk(s, u);
      OnlyOneBatch(s, t, u);
    }
    forall x | x in s'.watchers
      ensures WatcherOk(s', x)
    {
      assert WatcherOk(s, x);
      if InFlight(s'.batches, x) {
        var u :| x in Batch(s'.batches, u);
        assert x in Batch(s.batches, u);
        OnlyOneBatch(s, t, u);
      }
    }
  }

  lemma OnlyOneBatch(s: Loop, t: Tid, u: Tid)
    requires LoopOk(s)
    ensures Batch(s.batches, t) != {} && Batch(s.batches, u) != {} ==> t == u
  {
    assert ThreadOk(s, t) && ThreadOk(s, u);
    if Batch(s.batches, t) != {} && Batch(s.batches, u) != {} {
      HolderIsHead(s.lock, t);
      HolderIsHead(s.lock, u);
    }
  }

  lemma BeginDeregisterKeepsOk(s: Loop, t: Tid, w: Wid)
    requires LoopOk(s) && Possible(s, BeginDeregister(t, w)) && Disciplined(s, BeginDeregister(t, w))
    ensures LoopOk(Take(s, BeginDeregister(t, w)))
  {
    var s' := Take(s, BeginDeregister(t, w));
    assert WatcherOk(s, w) && ThreadOk(s, t);
    assert s'.dereg[t] == w;
    forall u
      ensures ThreadOk(s', u)
    {
      assert ThreadOk(s, u);
    }
    forall x | x in s'.watchers
      ensures WatcherOk(s', x)
    {
      assert WatcherOk(s, x);
      if Deregistering(s.dereg, x) {
        var u :| u in s.dereg && s.dereg[u] == x;
        assert u in s'.dereg && s'.dereg[u] == x;
      }
    }
  }

  /** The heart of the matter: a thread that deletes has the attention lock, so no batch is in flight. */
  lemma NoBatchWhileDeleting(s: Loop, t: Tid, w: Wid)
    requires LoopOk(s) && Possible(s, IssueDelete(t))
    ensures !InFlight(s.batches, w)
  {
    if InFlight(s.batches, w) {
      var u :| w in Batch(s.batches, u);
      assert ThreadOk(s, u);
      HolderIsHead(s.lock, t);
      HolderIsHead(s.lock, u);
      assert false;
    }
  }

  lemma IssueDeleteKeepsOk(s: Loop, t: Tid)
    requires LoopOk(s) && Possible(s, IssueDelete(t))
    ensures LoopOk(Take(s, IssueDelete(t)))
  {
    var s', w := Take(s, IssueDelete(t)), s.dereg[t];
    NoBatchWhileDeleting(s, t, w);
    assert WatcherOk(s, w) && ThreadOk(s, t) && Deregistering(s.dereg, w);
    assert !Deregistering(s'.dereg, w);
    forall u
      ensures ThreadOk(s', u)
    {
      assert ThreadOk(s, u);
    }
    forall x | x in s'.watchers
      ensures WatcherOk(s', x)
    {
      assert WatcherOk(s, x);
      if x != w && Deregistering(s.dereg, x) {
        var u :| u in s.dereg && s.dereg[u] == x;
        assert u in s'.dereg && s'.dereg[u] == x;
      }
    }
  }

  lemma StepKeepsOk(s: Loop, a: Step)
    requires LoopOk(s) && Possible(s, a) && Disciplined(s, a)
    ensures LoopOk(Take(s, a))
  {
    match a
    case LockProtocol(la) => LockStepKeepsOk(s, la);
    case Register(w, enabled) => RegisterKeepsOk(s, w, enabled);
    case SetEnabled(w, enable) =>
      assert WatcherOk(s, w);
      WatcherStepKeepsOk(s, w, Toggled(s.watchers[w], enable));
    case Fetch(t, events) => FetchKeepsOk(s, t, events);
    case Receive(t, w) => ReceiveKeepsOk(s, t, w);
    case Dispatch(w) =>
      assert WatcherOk(s, w);
      WatcherStepKeepsOk(s, w, Dispatched(s.watchers[w]));
    case Finish(w, rearm) =>
      assert WatcherOk(s, w);
      WatcherStepKeepsOk(s, w, Finished(s.watchers[w], rearm));
    case BeginDeregister(t, w) => BeginDeregisterKeepsOk(s, t, w);
    case IssueDelete(t) => IssueDeleteKeepsOk(s, t);
  }

  // ---------- Every run ----------

  ghost predicate LegalRun(s: Loop, run: seq<Step>)
    decreases |run|
  {
    run == [] || (Possible(s, run[0]) && Disciplined(s, run[0]) && LegalRun(Take(s, run[0]), run[1..]))
  }

  ghost function After(s: Loop, run: seq<Step>): Loop
    requires LegalRun(s, run)
    decreases |run|
  {
    if run == [] then s else After(Take(s, run[0]), run[1..])
  }

  lemma {:induction false} RunKeepsOk(s: Loop, run: seq<Step>)
    requires LoopOk(s) && LegalRun(s, run)
    ensures LoopOk(After(s, run))
    decreases |run|
  {
    if run != [] {
      StepKeepsOk(s, run[0]);
      RunKeepsOk(Take(s, run[0]), run[1..]);
    }
  }

  /** The steps in which the loop, or the client through the loop, touches the watcher's memory. */
  predicate Touches(s: Loop, a: Step, w: Wid) {
    match a
    case SetEnabled(x, _) => x == w
    case Fetch(_, events) => w in events
    case Receive(_, x) => x == w
    case Dispatch(x) => x == w
    case Finish(x, _) => x == w
    case BeginDeregister(_, x) => x == w
    case IssueDelete(t) => t in s.dereg && s.dereg[t] == w
    case _ => false
  }

  lemma RemovedIsUntouchable(s: Loop, a: Step, w: Wid)
    requires LoopOk(s) && w in s.watchers && s.watchers[w].removals > 0
    requires Possible(s, a) && Disciplined(s, a)
    ensures !Touches(s, a, w) && w in Take(s, a).watchers && Take(s, a).watchers[w] == s.watchers[w]
  {
    assert WatcherOk(s, w);
  }

  /** Safe removal: in every run, once `watch_removed` has been called for a watcher it has been called
      exactly once, the watcher is not registered, armed, fetched, queued, active or being deleted, and
      no step of any continuation touches it or changes it. */
  lemma {:induction false} SafeAfterRemoval(run: seq<Step>, w: Wid, later: seq<Step>, a: Step)
    requires LegalRun(BOOT, run)
    requires w in After(BOOT, run).watchers && After(BOOT, run).watchers[w].removals > 0
    requires LegalRun(After(BOOT, run), later)
    requires Possible(After(After(BOOT, run), later), a) && Disciplined(After(After(BOOT, run), later), a)
    ensures var s := After(BOOT, run);
      && s.watchers[w].removals == 1 && Gone(s, w)
      && var s' := After(s, later);
         w in s'.watchers && s'.watchers[w] == s.watchers[w] && !Touches(s', a, w)
  {
    RunKeepsOk(BOOT, run);
    var s := After(BOOT, run);
    assert WatcherOk(s, w);
    RemovedStaysUntouched(s, w, later, a);
  }

  lemma {:induction false} RemovedStaysUntouched(s: Loop, w: Wid, later: seq<Step>, a: Step)
    requires LoopOk(s) && w in s.watchers && s.watchers[w].removals > 0 && LegalRun(s, later)
    requires Possible(After(s, later), a) && Disciplined(After(s, later), a)
    ensures var s' := After(s, later);
      w in s'.watchers && s'.watchers[w] == s.watchers[w] && !Touches(s', a, w)
    decreases |later|
  {
    if later == [] {
      RemovedIsUntouchable(s, a, w);
    } else {
      RemovedIsUntouchable(s, later[0], w);
      StepKeepsOk(s, later[0]);
      RemovedStaysUntouched(Take(s, later[0]), w, later[1..], a);
    }
  }

  /** No removal is lost: in every run, a requested removal with no deregistration still under way and
      no handler still running has been delivered, unless the handler itself returned REMOVED. */
  lemma RemovalIsNotLost(run: seq<Step>, w: Wid)
    requires LegalRun(BOOT, run) && w in After(BOOT, run).watchers
    requires var s := After(BOOT, run);
      s.watchers[w].requested && !Deregistering(s.dereg, w) && !s.watchers[w].active
    ensures After(BOOT, run).watchers[w].removals == 1
  {
    RunKeepsOk(BOOT, run);
    assert WatcherOk(After(BOOT, run), w);
  }
}
