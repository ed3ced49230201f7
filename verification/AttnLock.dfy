/** The attention/poll lock: two wait queues under one mutex decide which thread may poll.

    One step of the machine is one critical section of the mutex `wait_lock`. */
module AttnLock {
  import opened WaitQueues

  datatype Kind = Attn | Poll

  /** What the mutex protects. `interrupted` records that the backend's wait has been interrupted
      since the present head became the head. */
  datatype Queues<T> = Queues(attn: seq<T>, waitq: seq<T>, longPoll: bool, interrupted: bool)

  function EnterAttn<T>(q: Queues<T>, t: T): Queues<T> {
    q.(attn := q.attn + [t],
       interrupted := if q.attn == [] then false else q.interrupted || (q.longPoll && |q.attn| == 1))
  }

  function EnterAttnQuietly<T>(q: Queues<T>, t: T): Queues<T> {
    q.(attn := q.attn + [t], interrupted := q.attn != [] && q.interrupted)
  }

  function EnterPoll<T>(q: Queues<T>, t: T): Queues<T> {
    if q.attn == [] then q.(attn := [t], longPoll := true, interrupted := false)
    else q.(waitq := q.waitq + [t])
  }

  function Leave<T>(q: Queues<T>): Queues<T>
    requires q.attn != []
  {
    if |q.attn| > 1 then Queues(q.attn[1..], q.waitq, false, false)
    else if q.waitq != [] then Queues([q.waitq[0]], q.waitq[1..], true, false)
    else Queues([], [], false, false)
  }

  // ---------- The critical sections as the source writes them ----------

  class EventLoopLock {
    var longPollRunning: bool
    const attnQueue: WaitQueue
    const waitQueue: WaitQueue
    /** Calls made to the backend's `interrupt_wait`. */
    var interrupts: nat
    /** The value of `interrupts` when the present head became the head. */
    ghost var interruptsAtHead: nat

    ghost predicate QueuesValid()
      reads this, attnQueue, waitQueue, attnQueue.nodes, waitQueue.nodes
    {
      && attnQueue != waitQueue
      && attnQueue.Valid() && waitQueue.Valid()
      && Apart(attnQueue.nodes, waitQueue.nodes)
      && interruptsAtHead <= interrupts
    }

    ghost predicate Valid()
      reads this, attnQueue, waitQueue, attnQueue.nodes, waitQueue.nodes
    {
      && QueuesValid()
      && (attnQueue.nodes == [] ==> waitQueue.nodes == [] && !longPollRunning)
    }

    ghost function Abs(): Queues<WaitNode>
      reads this, attnQueue, waitQueue
    {
      Queues(attnQueue.nodes, waitQueue.nodes, longPollRunning, interruptsAtHead < interrupts)
    }

    constructor ()
      ensures Valid() && Abs() == Queues([], [], false, false)
    {
      longPollRunning, interrupts, interruptsAtHead := false, 0, 0;
      attnQueue := new WaitQueue();
      waitQueue := new WaitQueue();
    }

    /** `get_attn_lock` up to its first wait: `held` says whether the thread may go on at once. */
    method GetAttnLock(node: WaitNode) returns (held: bool)
      requires Valid() && node !in attnQueue.nodes && node !in waitQueue.nodes
      modifies this, attnQueue, node`next, attnQueue.nodes`next
      ensures Valid() && Abs() == EnterAttn(old(Abs()), node)
      ensures held <==> Abs().attn[0] == node
      ensures interrupts - old(interrupts)
           == if old(Abs()).longPoll && |old(Abs()).attn| == 1 then 1 else 0
    {
      attnQueue.Queue(node);
      held := attnQueue.CheckHead(node);
      if !held {
        if longPollRunning {
          var second := attnQueue.GetSecond();
          if second == node {
            interrupts := interrupts + 1;
          }
        }
      } else {
        interruptsAtHead := interrupts;
      }
    }

    /** `poll_attn_lock` up to its first wait; `entered` is false when a long poll is running. */
    method PollAttnLock(node: WaitNode) returns (entered: bool, held: bool)
      requires Valid() && node !in attnQueue.nodes && node !in waitQueue.nodes
      modifies this, attnQueue, node`next, attnQueue.nodes`next
      ensures Valid() && interrupts == old(interrupts)
      ensures entered <==> !old(longPollRunning)
      ensures Abs() == if entered then EnterAttnQuietly(old(Abs()), node) else old(Abs())
      ensures held <==> entered && Abs().attn[0] == node
    {
      if longPollRunning {
        return false, false;
      }
      attnQueue.Queue(node);
      held := attnQueue.CheckHead(node);
      if held {
        interruptsAtHead := interrupts;
      }
      entered := true;
    }

    /** `get_pollwait_lock` up to its first wait. */
    method GetPollwaitLock(node: WaitNode) returns (held: bool)
      requires Valid() && node !in attnQueue.nodes && node !in waitQueue.nodes
      modifies this, attnQueue, waitQueue, node`next, attnQueue.nodes`next, waitQueue.nodes`next
      ensures Valid() && Abs() == EnterPoll(old(Abs()), node) && interrupts == old(interrupts)
      ensures held <==> Abs().attn[0] == node
    {
      var empty := attnQueue.IsEmpty();
      if empty {
        attnQueue.Queue(node);
        interruptsAtHead := interrupts;
      } else {
        waitQueue.Queue(node);
      }
      held := attnQueue.CheckHead(node);
      if held {
        longPollRunning := true;
      }
    }

    /** One pass of a wait loop: the notification is consumed, the head is tested again, and a
        poll-waiter that finds itself at the head declares its poll. */
    method WakeUp(node: WaitNode, kind: Kind) returns (held: bool)
      requires Valid() && (node in attnQueue.nodes || node in waitQueue.nodes)
      modifies this`longPollRunning, node`signalled
      ensures Valid() && !node.signalled
      ensures held <==> Abs().attn[0] == node
      ensures Abs() == old(Abs()).(longPoll := if held && kind == Poll then true else old(Abs()).longPoll)
    {
      node.signalled := false;
      held := attnQueue.CheckHead(node);
      if held && kind == Poll {
        longPollRunning := true;
      }
    }

    /** The second half of `release_lock`: with no attention waiter left, the first poll-waiter is
        moved to the attention queue and so obtains the lock. */
    method PromotePoller()
      requires QueuesValid() && attnQueue.nodes == [] && !longPollRunning && interruptsAtHead == interrupts
      modifies this`longPollRunning, attnQueue, waitQueue, waitQueue.nodes
      ensures Valid() && interrupts == old(interrupts)
      ensures Abs().attn != [] ==> Abs().attn[0].signalled
      ensures Abs() == if old(Abs()).waitq == [] then old(Abs())
                       else Queues(old(Abs()).waitq[..1], old(Abs()).waitq[1..], true, false)
    {
      var noPoller := waitQueue.IsEmpty();
      if !noPoller {
        var poller := waitQueue.head;
        var _ := waitQueue.Unqueue();
        attnQueue.Queue(poller);
        longPollRunning := true;
        poller.signalled := true;
      }
    }

    /** `release_lock`: passes the lock to the next attention waiter, else to the first poll-waiter. */
    method ReleaseLock(node: WaitNode)
      requires Valid() && attnQueue.nodes != [] && attnQueue.nodes[0] == node
      modifies this, attnQueue, waitQueue, attnQueue.nodes, waitQueue.nodes
      ensures Valid() && Abs() == Leave(old(Abs())) && interrupts == old(interrupts)
      ensures Abs().attn != [] ==> Abs().attn[0].signalled
    {
      longPollRunning := false;
      interruptsAtHead := interrupts;
      var nhead := attnQueue.Unqueue();
      if nhead != null {
        nhead.signalled := true;
      } else {
        PromotePoller();
      }
    }
  }

  // ---------- The protocol as a machine over all threads ----------

  type Tid = nat

  datatype ThreadState = Idle | Waiting(kind: Kind, signalled: bool) | Holding(kind: Kind)

  /** `arrivals` and `grants` log the poll-waiters in order of arrival and of obtaining the lock. */
  datatype LockState = LockState(q: Queues<Tid>, threads: map<Tid, ThreadState>,
                                 arrivals: seq<Tid>, grants: seq<Tid>)

  function Thread(s: LockState, t: Tid): ThreadState {
    if t in s.threads then s.threads[t] else Idle
  }

  const START := LockState(Queues([], [], false, false), map[], [], [])

  datatype LockStep =
    | LockAttn(t: Tid)
    | TryAttn(t: Tid)
    | LockPoll(t: Tid)
    | Wake(t: Tid)
    | Unlock(t: Tid)

  /** A thread asks for the lock when it is not already asking; it releases only what it holds;
      it may wake at any time while waiting, signalled or not. */
  predicate Enabled(s: LockState, a: LockStep) {
    match a
    case LockAttn(t) => Thread(s, t).Idle?
    case TryAttn(t) => Thread(s, t).Idle?
    case LockPoll(t) => Thread(s, t).Idle?
    case Wake(t) => Thread(s, t).Waiting?
    case Unlock(t) => Thread(s, t).Holding?
  }

  function AfterEntry(q: Queues<Tid>, t: Tid, kind: Kind): ThreadState {
    if q.attn != [] && q.attn[0] == t then Holding(kind) else Waiting(kind, false)
  }

  function Signal(threads: map<Tid, ThreadState>, t: Tid): map<Tid, ThreadState> {
    if t in threads && threads[t].Waiting? then threads[t := threads[t].(signalled := true)] else threads
  }

  function Apply(s: LockState, a: LockStep): LockState
    requires Enabled(s, a)
  {
    match a
    case LockAttn(t) =>
      var q := EnterAttn(s.q, t);
      s.(q := q, threads := s.threads[t := AfterEntry(q, t, Attn)])
    case TryAttn(t) =>
      if s.q.longPoll then s
      else
        var q := EnterAttnQuietly(s.q, t);
        s.(q := q, threads := s.threads[t := AfterEntry(q, t, Attn)])
    case LockPoll(t) =>
      var q := EnterPoll(s.q, t);
      LockState(q, s.threads[t := AfterEntry(q, t, Poll)], s.arrivals + [t],
                if s.q.attn == [] then s.grants + [t] else s.grants)
    case Wake(t) =>
      var kind := s.threads[t].kind;
      var held := s.q.attn != [] && s.q.attn[0] == t;
      s.(threads := s.threads[t := AfterEntry(s.q, t, kind)],
         q := if held && kind == Poll then s.q.(longPoll := true) else s.q)
    case Unlock(t) =>
      if s.q.attn == [] then s
      else
        var q := Leave(s.q);
        var idle := s.threads[t := Idle];
        LockState(q, if q.attn == [] then idle else Signal(idle, q.attn[0]), s.arrivals,
                  if |s.q.attn| == 1 && s.q.waitq != [] then s.grants + [s.q.waitq[0]] else s.grants)
  }

  predicate Legal(s: LockState, run: seq<LockStep>)
    decreases |run|
  {
    run == [] || (Enabled(s, run[0]) && Legal(Apply(s, run[0]), run[1..]))
  }

  function Exec(s: LockState, run: seq<LockStep>): LockState
    requires Legal(s, run)
    decreases |run|
  {
    if run == [] then s else Exec(Apply(s, run[0]), run[1..])
  }

  function Releases(run: seq<LockStep>): nat {
    if run == [] then 0 else (if run[0].Unlock? then 1 else 0) + Releases(run[1..])
  }

  // ---------- What every critical section keeps ----------

  ghost predicate QueuesWellFormed(q: Queues<Tid>) {
    && Distinct(q.attn) && Distinct(q.waitq) && Apart(q.attn, q.waitq)
    && (q.attn == [] ==> q.waitq == [])
  }

  /** Queue membership and thread states agree, and only the head can hold. */
  ghost predicate ThreadsAgree(s: LockState) {
    && (forall t :: Thread(s, t).Idle? <==> t !in s.q.attn && t !in s.q.waitq)
    && (forall i :: 0 < i < |s.q.attn| ==>
          Thread(s, s.q.attn[i]).Waiting? && Thread(s, s.q.attn[i]).kind == Attn)
    && (forall i :: 0 <= i < |s.q.waitq| ==>
          Thread(s, s.q.waitq[i]).Waiting? && Thread(s, s.q.waitq[i]).kind == Poll)
  }

  ghost predicate HeadRuns(s: LockState) {
    s.q.attn != [] ==>
      var h := Thread(s, s.q.attn[0]);
      && (h.Holding? || (h.Waiting? && h.signalled))
      && (s.q.longPoll <==> h.kind == Poll)
      && (h.kind == Poll && |s.q.attn| > 1 ==> s.q.interrupted)
  }

  ghost predicate Inv(s: LockState) {
    && QueuesWellFormed(s.q)
    && ThreadsAgree(s)
    && HeadRuns(s)
    && (s.q.attn == [] ==> !s.q.longPoll)
    && s.arrivals == s.grants + s.q.waitq
  }

  lemma HolderIsHead(s: LockState, t: Tid)
    requires Inv(s) && Thread(s, t).Holding?
    ensures s.q.attn != [] && s.q.attn[0] == t
  {
  }

  /** Nobody but the holder takes the lock away from it. */
  lemma HolderKeepsLock(s: LockState, la: LockStep, t: Tid)
    requires Inv(s) && Enabled(s, la) && Thread(s, t).Holding? && la != Unlock(t)
    ensures Thread(Apply(s, la), t).Holding?
  {
    HolderIsHead(s, t);
    if la.Unlock? {
      HolderIsHead(s, la.t);
    }
  }

  lemma AttnEntryKeepsInv(s: LockState, a: LockStep)
    requires Inv(s) && Enabled(s, a) && (a.LockAttn? || a.TryAttn?)
    ensures Inv(Apply(s, a))
  {
    var s', t := Apply(s, a), a.t;
    if s' != s {
      assert s'.q.attn == s.q.attn + [t];
      assert t !in s.q.attn && t !in s.q.waitq;
      assert forall x :: x in s'.q.attn <==> x == t || x in s.q.attn;
      assert forall x :: x != t ==> Thread(s', x) == Thread(s, x);
    }
  }

  lemma PollEntryKeepsInv(s: LockState, t: Tid)
    requires Inv(s) && Enabled(s, LockPoll(t))
    ensures Inv(Apply(s, LockPoll(t)))
  {
    var s' := Apply(s, LockPoll(t));
    assert t !in s.q.attn && t !in s.q.waitq;
    assert forall x :: x != t ==> Thread(s', x) == Thread(s, x);
    if s.q.attn != [] {
      assert s'.q.waitq == s.q.waitq + [t];
      assert forall x :: x in s'.q.waitq <==> x == t || x in s.q.waitq;
    }
  }

  lemma WakeKeepsInv(s: LockState, t: Tid)
    requires Inv(s) && Enabled(s, Wake(t))
    ensures Inv(Apply(s, Wake(t)))
  {
    var s' := Apply(s, Wake(t));
    assert forall x :: x != t ==> Thread(s', x) == Thread(s, x);
    assert Thread(s', t).kind == Thread(s, t).kind;
  }

  lemma UnlockToAttnKeepsInv(s: LockState, t: Tid)
    requires Inv(s) && Enabled(s, Unlock(t)) && |s.q.attn| > 1
    ensures Inv(Apply(s, Unlock(t)))
  {
    HolderIsHead(s, t);
    var s' := Apply(s, Unlock(t));
    assert s'.q.attn == s.q.attn[1..] && s'.q.waitq == s.q.waitq;
    assert forall x :: x in s.q.attn <==> x == t || x in s'.q.attn;
    assert forall x :: x != t && x != s'.q.attn[0] ==> Thread(s', x) == Thread(s, x);
    assert Thread(s', s'.q.attn[0]) == Thread(s, s.q.attn[1]).(signalled := true);
  }

  lemma UnlockToPollerKeepsInv(s: LockState, t: Tid)
    requires Inv(s) && Enabled(s, Unlock(t)) && |s.q.attn| <= 1
    ensures Inv(Apply(s, Unlock(t)))
  {
    HolderIsHead(s, t);
    var s' := Apply(s, Unlock(t));
    assert s.q.attn == [t];
    if s.q.waitq != [] {
      var p := s.q.waitq[0];
      assert forall x :: x in s.q.waitq <==> x == p || x in s'.q.waitq;
      assert forall x :: x != t && x != p ==> Thread(s', x) == Thread(s, x);
    }
  }

  lemma StepKeepsInv(s: LockState, a: LockStep)
    requires Inv(s) && Enabled(s, a)
    ensures Inv(Apply(s, a))
  {
    match a
    case LockAttn(t) => AttnEntryKeepsInv(s, a);
    case TryAttn(t) => AttnEntryKeepsInv(s, a);
    case LockPoll(t) => PollEntryKeepsInv(s, t);
    case Wake(t) => WakeKeepsInv(s, t);
    case Unlock(t) =>
      if |s.q.attn| > 1 {
        UnlockToAttnKeepsInv(s, t);
      } else {
        UnlockToPollerKeepsInv(s, t);
      }
  }

  // ---------- Every run ----------

  lemma {:induction false} RunKeepsInv(s: LockState, run: seq<LockStep>)
    requires Inv(s) && Legal(s, run)
    ensures Inv(Exec(s, run))
    decreases |run|
  {
    if run != [] {
      StepKeepsInv(s, run[0]);
      RunKeepsInv(Apply(s, run[0]), run[1..]);
    }
  }

  /** In every reachable state: at most one thread holds, it is the head of the attention queue, a
      poll-waiter is only ever at its head, the flag says exactly that, and poll-waiters wait only
      while somebody has the lock. */
  lemma LockProtocolInvariant(run: seq<LockStep>, t: Tid, u: Tid, i: nat)
    requires Legal(START, run)
    ensures var s := Exec(START, run);
      && QueuesWellFormed(s.q)
      && (Thread(s, t).Holding? ==> s.q.attn != [] && s.q.attn[0] == t)
      && (Thread(s, t).Holding? && Thread(s, u).Holding? ==> t == u)
      && (s.q.longPoll ==> s.q.attn != [])
      && (i < |s.q.attn| ==>
            var h := Thread(s, s.q.attn[i]);
            !h.Idle? && (h.kind == Poll <==> i == 0 && s.q.longPoll))
  {
    RunKeepsInv(START, run);
    InvGivesProtocol(Exec(START, run), t, u, i);
  }

  lemma InvGivesProtocol(s: LockState, t: Tid, u: Tid, i: nat)
    requires Inv(s)
    ensures Thread(s, t).Holding? ==> s.q.attn != [] && s.q.attn[0] == t
    ensures Thread(s, t).Holding? && Thread(s, u).Holding? ==> t == u
    ensures i < |s.q.attn| ==>
      var h := Thread(s, s.q.attn[i]);
      !h.Idle? && (h.kind == Poll <==> i == 0 && s.q.longPoll)
  {
    if Thread(s, t).Holding? {
      HolderIsHead(s, t);
    }
    if Thread(s, u).Holding? {
      HolderIsHead(s, u);
    }
    if 0 < i < |s.q.attn| {
      assert Thread(s, s.q.attn[i]).Waiting?;
    }
  }

  /** No lost wakeup: whenever some thread waits, the head's thread runs or has been signalled; and a
      poller with anyone behind it has been interrupted since it became the head. */
  lemma NoLostWakeup(run: seq<LockStep>, t: Tid)
    requires Legal(START, run) && Thread(Exec(START, run), t).Waiting?
    ensures var s := Exec(START, run);
      && s.q.attn != []
      && var h := Thread(s, s.q.attn[0]);
         && (h.Holding? || (h.Waiting? && h.signalled))
         && (h.kind == Poll && |s.q.attn| > 1 ==> s.q.interrupted)
  {
    RunKeepsInv(START, run);
    HeadOfWaiters(Exec(START, run), t);
  }

  lemma HeadOfWaiters(s: LockState, t: Tid)
    requires Inv(s) && Thread(s, t).Waiting?
    ensures s.q.attn != [] && HeadRuns(s)
  {
    assert !Thread(s, t).Idle?;
  }

  /** Poll-waiters obtain the lock strictly in arrival order, and exactly those still in the
      low-priority queue are yet to obtain it. */
  lemma PollersAreServedInOrder(run: seq<LockStep>)
    requires Legal(START, run)
    ensures var s := Exec(START, run);
      s.grants <= s.arrivals && s.arrivals[|s.grants|..] == s.q.waitq
  {
    RunKeepsInv(START, run);
  }

  /** One step moves the attention queue by dropping its head (a release) or by appending. */
  lemma StepMovesQueue(s: LockState, a: LockStep)
    requires Inv(s) && Enabled(s, a)
    ensures var s' := Apply(s, a);
      if a.Unlock? then s.q.attn != [] && (|s.q.attn| > 1 ==> s'.q.attn == s.q.attn[1..])
      else s.q.attn <= s'.q.attn
  {
    if a.Unlock? {
      HolderIsHead(s, a.t);
    }
  }

  /** Bounded acquisition: a thread k places from the head is k - r places from it after r <= k
      releases, with exactly the threads that were ahead of it still ahead, so no poll-waiter and no
      later arrival overtakes it, and after k releases it is the head. */
  lemma {:induction false} AcquisitionIsBounded(s: LockState, run: seq<LockStep>, k: nat)
    requires Inv(s) && Legal(s, run) && k < |s.q.attn| && Releases(run) <= k
    ensures var s', r := Exec(s, run), Releases(run);
      k - r < |s'.q.attn| && s'.q.attn[..k - r + 1] == s.q.attn[r..k + 1]
    decreases |run|
  {
    if run != [] {
      var a := run[0];
      StepKeepsInv(s, a);
      StepMovesQueue(s, a);
      var s1 := Apply(s, a);
      var k1 := if a.Unlock? then k - 1 else k;
      AcquisitionIsBounded(s1, run[1..], k1);
      assert s1.q.attn[..k1 + 1] == if a.Unlock? then s.q.attn[1..k + 1] else s.q.attn[..k + 1];
      assert s1.q.attn[Releases(run[1..])..k1 + 1] == s.q.attn[Releases(run)..k + 1];
    }
  }

  // ---------- Who obtains the lock, and when ----------

  /** A request obtains the lock at once exactly when nobody has it; otherwise the thread waits, except that
      `poll_attn_lock` gives up exactly during a long poll. No other thread is affected. */
  lemma RequestMeans(s: LockState, a: LockStep, u: Tid)
    requires Inv(s) && Enabled(s, a) && !a.Wake? && !a.Unlock?
    ensures var s' := Apply(s, a);
      && (Thread(s', a.t).Holding? <==> s.q.attn == [])
      && (Thread(s', a.t).Idle? <==> a.TryAttn? && s.q.longPoll)
      && (!Thread(s', a.t).Idle? ==> Thread(s', a.t).kind == if a.LockPoll? then Poll else Attn)
      && (u != a.t ==> Thread(s', u) == Thread(s, u))
  {
    assert a.t !in s.q.attn;
  }

  /** A waiting thread that wakes has the lock exactly when it is the head. */
  lemma WakeMeans(s: LockState, t: Tid, u: Tid)
    requires Inv(s) && Enabled(s, Wake(t))
    ensures var s' := Apply(s, Wake(t));
      && s.q.attn != []
      && (Thread(s', t).Holding? <==> s.q.attn[0] == t)
      && s'.q.attn == s.q.attn && s'.q.waitq == s.q.waitq
      && (u != t ==> Thread(s', u) == Thread(s, u))
  {
    HeadOfWaiters(s, t);
  }

  /** A release leaves its thread idle and passes the lock to the next attention waiter, to the first poll-waiter
      exactly when there is none, and to nobody exactly when nobody waits. */
  lemma UnlockMeans(s: LockState, t: Tid)
    requires Inv(s) && Enabled(s, Unlock(t))
    ensures var s' := Apply(s, Unlock(t));
      && s.q.attn != [] && Thread(s', t).Idle?
      && (s'.q.attn == [] <==> |s.q.attn| == 1 && s.q.waitq == [])
      && (s'.q.attn != [] ==> s'.q.attn[0] == if |s.q.attn| > 1 then s.q.attn[1] else s.q.waitq[0])
      && s'.grants == s.grants + (if s'.q.attn != [] && Thread(s', s'.q.attn[0]).kind == Poll then s'.q.attn else [])
  {
    HolderIsHead(s, t);
    var s' := Apply(s, Unlock(t));
    StepKeepsInv(s, Unlock(t));
    assert t !in s'.q.attn && t !in s'.q.waitq;
  }

  /** An attention request made with k threads queued is granted by the k-th release after it, neither later nor
      sooner: until then waking does not help, and from then on the thread holds the lock as soon as it wakes. */
  lemma AttnIsGrantedIff(s: LockState, a: LockStep, run: seq<LockStep>)
    requires Inv(s) && Enabled(s, a) && (a.LockAttn? || (a.TryAttn? && !s.q.longPoll))
    requires Legal(Apply(s, a), run) && Releases(run) <= |s.q.attn|
    ensures var s', t := Exec(Apply(s, a), run), a.t;
      && (Thread(s', t).Holding? || Enabled(s', Wake(t)))
      && (Thread(s', t).Holding? || Thread(Apply(s', Wake(t)), t).Holding? <==> Releases(run) == |s.q.attn|)
  {
    var s1, t, k, r := Apply(s, a), a.t, |s.q.attn|, Releases(run);
    assert s1.q.attn == s.q.attn + [t];
    StepKeepsInv(s, a);
    RunKeepsInv(s1, run);
    AcquisitionIsBounded(s1, run, k);
    var s' := Exec(s1, run);
    assert s'.q.attn[..k - r + 1][k - r] == s1.q.attn[r..k + 1][k - r];
    assert s'.q.attn[k - r] == t;
    PlaceDecides(s', t, k - r);
  }

  lemma PlaceDecides(s: LockState, t: Tid, i: nat)
    requires Inv(s) && i < |s.q.attn| && s.q.attn[i] == t
    ensures Thread(s, t).Holding? || Enabled(s, Wake(t))
    ensures Thread(s, t).Holding? || Thread(Apply(s, Wake(t)), t).Holding? <==> i == 0
  {
    assert !Thread(s, t).Idle?;
    if i > 0 {
      assert s.q.attn[0] != t;
    }
  }

  lemma {:induction false} LogsGrow(s: LockState, run: seq<LockStep>)
    requires Legal(s, run)
    ensures s.arrivals <= Exec(s, run).arrivals && s.grants <= Exec(s, run).grants
    decreases |run|
  {
    if run != [] {
      LogsGrow(Apply(s, run[0]), run[1..]);
    }
  }

  /** The n-th poll request is the n-th poll grant: over every run it still waits, in its place, exactly as long as
      no more than the earlier requests have been granted. */
  lemma PollIsGrantedInTurn(s: LockState, t: Tid, run: seq<LockStep>)
    requires Inv(s) && Enabled(s, LockPoll(t)) && Legal(Apply(s, LockPoll(t)), run)
    ensures var s', n := Exec(Apply(s, LockPoll(t)), run), |s.arrivals|;
      if |s'.grants| <= n then
        n - |s'.grants| < |s'.q.waitq| && s'.q.waitq[n - |s'.grants|] == t && Thread(s', t).Waiting?
      else s'.grants[n] == t
  {
    var s1, n := Apply(s, LockPoll(t)), |s.arrivals|;
    StepKeepsInv(s, LockPoll(t));
    RunKeepsInv(s1, run);
    LogsGrow(s1, run);
    var s' := Exec(s1, run);
    assert s1.arrivals[n] == t && s'.arrivals[n] == t;
    assert s'.arrivals == s'.grants + s'.q.waitq;
  }
}
