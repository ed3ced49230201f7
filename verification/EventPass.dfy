/** One pass of the loop over its queued events. */
module EventPasses {
  import opened HeapSpec
  import opened StableHeaps

  /** What gets queued during the k-th dispatch, by the handler, its watcher or another thread. */
  function During<H>(script: seq<seq<Waiting<H>>>, k: nat): seq<Waiting<H>> {
    if k < |script| then script[k] else []
  }

  /** The most events a pass may dispatch: a negative limit becomes a huge unsigned number. */
  function Allowed(limit: int, queued: nat): nat {
    if limit < 0 || queued < limit then queued else limit
  }

  // ---------- The pass on the list ----------

  /** The watchers dispatched by a pass of at most `m` events, the next one being the k-th. */
  function Dispatched<H>(w: seq<Waiting<H>>, script: seq<seq<Waiting<H>>>, k: nat, m: nat): seq<H>
    decreases m
  {
    if m == 0 || w == [] then []
    else [w[First(w)].hnd] + Dispatched(Without(w, First(w)) + During(script, k), script, k + 1, m - 1)
  }

  function Remaining<H>(w: seq<Waiting<H>>, script: seq<seq<Waiting<H>>>, k: nat, m: nat): seq<Waiting<H>>
    decreases m
  {
    if m == 0 || w == [] then w
    else Remaining(Without(w, First(w)) + During(script, k), script, k + 1, m - 1)
  }

  /** A pass of `m` events that will have dispatched `all` and leave `rest` has dispatched `done`, and the
      queue is `w`. */
  ghost predicate Midway<H>(all: seq<H>, rest: seq<Waiting<H>>, m: nat, script: seq<seq<Waiting<H>>>,
                            done: seq<H>, w: seq<Waiting<H>>) {
    && |done| <= m
    && all == done + Dispatched(w, script, |done|, m - |done|)
    && rest == Remaining(w, script, |done|, m - |done|)
  }

  lemma Unfold<H>(w: seq<Waiting<H>>, script: seq<seq<Waiting<H>>>, k: nat, m: nat)
    requires m > 0 && w != []
    ensures var w' := Without(w, First(w)) + During(script, k);
      && Dispatched(w, script, k, m) == [w[First(w)].hnd] + Dispatched(w', script, k + 1, m - 1)
      && Remaining(w, script, k, m) == Remaining(w', script, k + 1, m - 1)
  {
  }

  lemma PassAdvances<H>(all: seq<H>, rest: seq<Waiting<H>>, m: nat, script: seq<seq<Waiting<H>>>,
                        done: seq<H>, w: seq<Waiting<H>>, x: H, w': seq<Waiting<H>>)
    requires Midway(all, rest, m, script, done, w) && |done| < m
    requires Dispatched(w, script, |done|, m - |done|) == [x] + Dispatched(w', script, |done| + 1, m - |done| - 1)
    requires Remaining(w, script, |done|, m - |done|) == Remaining(w', script, |done| + 1, m - |done| - 1)
    ensures Midway(all, rest, m, script, done + [x], w')
  {
    Grouping(done, [x], Dispatched(w', script, |done| + 1, m - |done| - 1));
  }

  lemma Grouping<T>(a: seq<T>, b: seq<T>, c: seq<T>)
    ensures a + (b + c) == (a + b) + c
  {
  }

  /** How many are queued during `m` dispatches, the first being the k-th. */
  function Arrivals<H>(script: seq<seq<Waiting<H>>>, k: nat, m: nat): nat
    decreases m
  {
    if m == 0 then 0 else |During(script, k)| + Arrivals(script, k + 1, m - 1)
  }

  /** A pass dispatches exactly as many as it may; everything else queued before or meanwhile is still there. */
  lemma {:induction false} PassCount<H>(w: seq<Waiting<H>>, script: seq<seq<Waiting<H>>>, k: nat, m: nat)
    requires m <= |w|
    ensures |Dispatched(w, script, k, m)| == m
    ensures |Remaining(w, script, k, m)| == |w| - m + Arrivals(script, k, m)
    decreases m
  {
    if m > 0 {
      PassCount(Without(w, First(w)) + During(script, k), script, k + 1, m - 1);
    }
  }

  /** With a positive limit that many at most, with a negative one all that were queued at entry. */
  lemma LimitedPass<H>(w: seq<Waiting<H>>, script: seq<seq<Waiting<H>>>, limit: int)
    ensures var r, rest := Dispatched(w, script, 0, Allowed(limit, |w|)), Remaining(w, script, 0, Allowed(limit, |w|));
      && (limit < 0 ==> |r| == |w|) && (limit > 0 ==> |r| == if |w| < limit then |w| else limit)
      && |rest| + |r| == |w| + Arrivals(script, 0, |r|)
  {
    PassCount(w, script, 0, Allowed(limit, |w|));
  }

  /** Nothing in `v` goes before anything in `w`. */
  ghost predicate NoBetter<H>(w: seq<Waiting<H>>, v: seq<Waiting<H>>) {
    forall i, j :: 0 <= i < |w| && 0 <= j < |v| ==> w[i].p <= v[j].p
  }

  lemma FirstOfEarlier<H>(w: seq<Waiting<H>>, v: seq<Waiting<H>>)
    requires w != [] && NoBetter(w, v)
    ensures First(w + v) == First(w) && Without(w + v, First(w)) == Without(w, First(w)) + v
  {
    FirstIsLeastThenEarliest(w, First(w));
    FirstIsLeastThenEarliest(w + v, First(w));
  }

  ghost predicate NeverBetter<H>(w: seq<Waiting<H>>, script: seq<seq<Waiting<H>>>) {
    forall k :: 0 <= k < |script| ==> NoBetter(w, script[k])
  }

  lemma NoBetterKept<H>(w: seq<Waiting<H>>, i: nat, v: seq<Waiting<H>>, d: seq<Waiting<H>>)
    requires i < |w| && NoBetter(w, v) && NoBetter(w, d)
    ensures NoBetter(Without(w, i), v + d)
  {
    var w', v' := Without(w, i), v + d;
    forall a, b | 0 <= a < |w'| && 0 <= b < |v'|
      ensures w'[a].p <= v'[b].p
    {
      var x := if a < i then a else a + 1;
      assert w'[a] == w[x];
      assert if b < |v| then v'[b] == v[b] else v'[b] == d[b - |v|];
    }
  }

  lemma NeverBetterKept<H>(w: seq<Waiting<H>>, i: nat, script: seq<seq<Waiting<H>>>)
    requires i < |w| && NeverBetter(w, script)
    ensures NeverBetter(Without(w, i), script)
  {
    forall k | 0 <= k < |script|
      ensures NoBetter(Without(w, i), script[k])
    {
      assert script[k] + [] == script[k];
      NoBetterKept(w, i, script[k], []);
    }
  }

  /** The first `m` of a list in the order in which they go. */
  function Drained<H>(w: seq<Waiting<H>>, m: nat): (r: seq<H>)
    requires m <= |w|
    ensures |r| == m
    decreases m
  {
    if m == 0 then [] else [w[First(w)].hnd] + Drained(Without(w, First(w)), m - 1)
  }

  /** A pass hands out the watchers queued at entry and no others, in their own order, whatever is
      queued meanwhile, as long as nothing of better priority arrives. */
  lemma {:induction false} LateArrivalsWait<H>(w: seq<Waiting<H>>, v: seq<Waiting<H>>,
                                               script: seq<seq<Waiting<H>>>, k: nat, m: nat)
    requires m <= |w| && NoBetter(w, v) && NeverBetter(w, script)
    ensures Dispatched(w + v, script, k, m) == Drained(w, m)
    decreases m
  {
    if m > 0 {
      var w', v' := LateStep(w, v, script, k);
      Unfold(w + v, script, k, m);
      LateArrivalsWait(w', v', script, k + 1, m - 1);
    }
  }

  lemma LateStep<H>(w: seq<Waiting<H>>, v: seq<Waiting<H>>, script: seq<seq<Waiting<H>>>, k: nat)
    returns (w': seq<Waiting<H>>, v': seq<Waiting<H>>)
    requires w != [] && NoBetter(w, v) && NeverBetter(w, script)
    ensures w' == Without(w, First(w)) && NoBetter(w', v') && NeverBetter(w', script)
    ensures First(w + v) == First(w) && (w + v)[First(w)] == w[First(w)]
    ensures Without(w + v, First(w)) + During(script, k) == w' + v'
  {
    var d := During(script, k);
    w', v' := Without(w, First(w)), v + d;
    FirstOfEarlier(w, v);
    NoBetterKept(w, First(w), v, d);
    NeverBetterKept(w, First(w), script);
  }

  ghost predicate AllAt<H>(w: seq<Waiting<H>>, p: int) {
    forall i :: 0 <= i < |w| ==> w[i].p == p
  }

  /** With one priority for all, a pass dispatches the first watchers queued at entry in arrival order,
      even if every handler queues its watcher again. */
  lemma {:induction false} FairPass<H>(w: seq<Waiting<H>>, script: seq<seq<Waiting<H>>>, p: int, limit: int)
    requires limit != 0 && AllAt(w, p) && forall i :: 0 <= i < |script| ==> AllAt(script[i], p)
    ensures var r := Dispatched(w, script, 0, Allowed(limit, |w|));
      && (limit < 0 ==> |r| == |w|) && (limit > 0 ==> |r| == if |w| < limit then |w| else limit)
      && |r| <= |w| && forall i :: 0 <= i < |r| ==> r[i] == w[i].hnd
  {
    var m := Allowed(limit, |w|);
    assert w + [] == w;
    LateArrivalsWait(w, [], script, 0, m);
    forall i | 0 <= i < m
      ensures Drained(w, m)[i] == w[i].hnd
    {
      DrainsInOrder(w, p, m, i);
    }
  }

  lemma {:induction false} DrainsInOrder<H>(w: seq<Waiting<H>>, p: int, m: nat, i: nat)
    requires i < m <= |w| && AllAt(w, p)
    ensures Drained(w, m)[i] == w[i].hnd
    decreases m
  {
    EqualPrioritiesAreFifo(w);
    if i > 0 {
      DrainsInOrder(w[1..], p, m - 1, i - 1);
    }
  }

  /** A watcher of better priority that keeps queueing itself takes every turn of the pass. */
  lemma {:induction false} BetterPriorityStarves<H>(w: seq<Waiting<H>>, x: Waiting<H>, script: seq<seq<Waiting<H>>>,
                                                    k: nat, m: nat)
    requires forall i :: 0 <= i < |w| ==> x.p < w[i].p
    requires k + m <= |script| && forall i :: 0 <= i < |script| ==> script[i] == [x]
    ensures Dispatched(w + [x], script, k, m) == seq(m, i => x.hnd)
    decreases m
  {
    if m > 0 {
      FirstIsLeastThenEarliest(w + [x], |w|);
      assert Without(w + [x], |w|) == w;
      BetterPriorityStarves(w, x, script, k + 1, m - 1);
    }
  }

  // ---------- The pass on the heap ----------

  function PutAll<H>(q: Queue<H>, ins: seq<Waiting<H>>): Queue<H>
    decreases |ins|
  {
    if ins == [] then q else PutAll(Put(q, ins[0].p, ins[0].hnd), ins[1..])
  }

  lemma {:induction false} PutAllRefines<H>(q: Queue<H>, ns: seq<Node<H>>, w: seq<Waiting<H>>, ins: seq<Waiting<H>>)
    returns (ns': seq<Node<H>>)
    requires Refines(q, ns, w)
    ensures Refines(PutAll(q, ins), ns', w + ins)
    decreases |ins|
  {
    if ins == [] {
      ns' := ns;
      assert w + ins == w;
    } else {
      var x := ins[0];
      PutRefines(q, ns, w, x.p, x.hnd);
      ns' := PutAllRefines(Put(q, x.p, x.hnd), ns + [Node(Prio(x.p, q.sequence), x.hnd)], w + [x], ins[1..]);
      assert w + [x] + ins[1..] == w + ins;
    }
  }

  class EventQueue<H> {
    var queue: Queue<H>
    var locked: bool
    ghost var nodes: seq<Node<H>>
    ghost var waiting: seq<Waiting<H>>

    ghost predicate Valid()
      reads this
    {
      Refines(queue, nodes, waiting) && |queue.heap| == |waiting|
    }

    constructor ()
      ensures Valid() && waiting == [] && !locked
    {
      queue := Queue([], 0);
      locked := false;
      nodes := [];
      waiting := [];
    }

    /** `pull_queued_event`, on a queue that is not empty. */
    method PullEvent() returns (h: H)
      requires Valid() && queue.heap != []
      modifies this
      ensures Valid() && locked == old(locked) && old(waiting) != []
      ensures h == old(waiting)[First(old(waiting))].hnd
      ensures waiting == Without(old(waiting), First(old(waiting)))
    {
      RootIsFirst(queue, nodes, waiting);
      PullRefines(queue, nodes, waiting);
      h := queue.heap[0].hnd;
      queue := Pull(queue);
      nodes := Without(nodes, First(waiting));
      waiting := Without(waiting, First(waiting));
      SameLength(queue.heap, nodes);
    }

    /** A dispatch, as far as the queue is concerned. */
    method Dispatch(ins: seq<Waiting<H>>)
      requires Valid()
      modifies this
      ensures Valid() && locked == old(locked) && waiting == old(waiting) + ins
    {
      ghost var ns := PutAllRefines(queue, nodes, waiting, ins);
      queue := PutAll(queue, ins);
      nodes := ns;
      waiting := waiting + ins;
      SameLength(queue.heap, nodes);
    }

    /** The loop of `process_events`, which may dispatch `allowed` events. */
    method DispatchAllowed(allowed: nat, script: seq<seq<Waiting<H>>>) returns (any: bool, dispatched: seq<H>)
      requires Valid() && allowed <= |waiting| && (allowed == 0 <==> waiting == [])
      modifies this
      ensures Valid() && locked == old(locked) && any == (dispatched != [])
      ensures dispatched == Dispatched(old(waiting), script, 0, allowed)
      ensures waiting == Remaining(old(waiting), script, 0, allowed)
    {
      var left := allowed;
      any, dispatched := false, [];
      ghost var all, rest := Dispatched(waiting, script, 0, left), Remaining(waiting, script, 0, left);
      assert [] + all == all;
      while queue.heap != []
        invariant Valid() && locked == old(locked) && any == (dispatched != [])
        invariant left + |dispatched| == allowed && left <= |waiting| && (left == 0 <==> waiting == [])
        invariant Midway(all, rest, allowed, script, dispatched, waiting)
        decreases left
      {
        Unfold(waiting, script, |dispatched|, left);
        PassAdvances(all, rest, allowed, script, dispatched, waiting, waiting[First(waiting)].hnd,
                     Without(waiting, First(waiting)) + During(script, |dispatched|));
        var h := PullEvent();
        any := true;
        Dispatch(During(script, |dispatched|));
        dispatched := dispatched + [h];
        if left > 0 {
          left := left - 1;
          if left == 0 {
            break;
          }
        }
      }
      assert dispatched + [] == dispatched;
    }

    /** `process_events`. With a limit of zero it returns with the lock still held. */
    method ProcessEvents(limit: int, script: seq<seq<Waiting<H>>>) returns (any: bool, dispatched: seq<H>)
      requires Valid() && !locked
      modifies this
      ensures Valid() && locked == (limit == 0)
      ensures limit == 0 ==> !any && dispatched == [] && waiting == old(waiting)
      ensures limit != 0 ==>
        && any == (old(waiting) != [])
        && dispatched == Dispatched(old(waiting), script, 0, Allowed(limit, |old(waiting)|))
        && waiting == Remaining(old(waiting), script, 0, Allowed(limit, |old(waiting)|))
      ensures limit > 0 ==> |dispatched| == if |old(waiting)| < limit then |old(waiting)| else limit
      ensures limit < 0 ==> |dispatched| == |old(waiting)|
      ensures limit != 0 ==> |waiting| + |dispatched| == |old(waiting)| + Arrivals(script, 0, |dispatched|)
    {
      locked := true;
      if limit == 0 {
        return false, [];
      }
      LimitedPass(waiting, script, limit);
      any, dispatched := DispatchAllowed(Allowed(limit, |queue.heap|), script);
      locked := false;
    }
  }
}
