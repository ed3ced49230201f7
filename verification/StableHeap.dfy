/** The stable queue: a counter as second key turns the heap into a queue that keeps arrival order. */
module StableHeaps {
  import opened HeapSpec
  import opened DaryHeaps

  /** The heap with the wrapper's counter. */
  datatype Queue<H> = Queue(heap: seq<Node<H>>, sequence: nat)

  function Put<H>(q: Queue<H>, p: int, h: H): Queue<H> {
    Queue(Inserted(q.heap, Node(Prio(p, q.sequence), h)), q.sequence + 1)
  }

  function Pull<H>(q: Queue<H>): Queue<H>
    requires q.heap != []
  {
    q.(heap := Removed(q.heap, 0))
  }

  // ---------- The reference: a list in arrival order ----------

  datatype Waiting<H> = Waiting(p: int, hnd: H)

  /** Who goes next: the earliest arrival among those of least priority value. */
  function First<H>(w: seq<Waiting<H>>): (r: nat)
    requires w != []
    ensures r < |w|
  {
    if |w| == 1 then 0
    else
      var r := 1 + First(w[1..]);
      if w[r].p < w[0].p then r else 0
  }

  function Without<T>(s: seq<T>, i: nat): seq<T>
    requires i < |s|
  {
    s[..i] + s[i + 1..]
  }

  lemma {:induction false} FirstIsLeastThenEarliest<H>(w: seq<Waiting<H>>, i: nat)
    requires i < |w|
    ensures i == First(w)
       <==> (forall j :: 0 <= j < |w| ==> w[i].p <= w[j].p) && (forall j :: 0 <= j < i ==> w[i].p < w[j].p)
  {
    if |w| > 1 {
      var v, r := w[1..], First(w[1..]);
      FirstIsLeastThenEarliest(v, r);
      assert forall j :: 0 < j < |w| ==> w[j] == v[j - 1];
      if i > 0 {
        FirstIsLeastThenEarliest(v, i - 1);
      }
    }
  }

  // ---------- The heap refines the list ----------

  /** `ns` lists the heap's nodes by arrival; `w` is what the list shows of them. */
  ghost predicate Refines<H>(q: Queue<H>, ns: seq<Node<H>>, w: seq<Waiting<H>>) {
    && Ordered(q.heap, |q.heap|) && multiset(q.heap) == multiset(ns)
    && Ascending(ns) && (forall i :: 0 <= i < |ns| ==> ns[i].prio.order < q.sequence)
    && Shows(ns, w)
  }

  ghost predicate Ascending<H>(ns: seq<Node<H>>) {
    forall i, j :: 0 <= i < j < |ns| ==> ns[i].prio.order < ns[j].prio.order
  }

  ghost predicate Shows<H>(ns: seq<Node<H>>, w: seq<Waiting<H>>) {
    |w| == |ns| && forall i :: 0 <= i < |ns| ==> w[i] == Waiting(ns[i].prio.p, ns[i].hnd)
  }

  lemma PutRefines<H>(q: Queue<H>, ns: seq<Node<H>>, w: seq<Waiting<H>>, p: int, h: H)
    requires Refines(q, ns, w)
    ensures Refines(Put(q, p, h), ns + [Node(Prio(p, q.sequence), h)], w + [Waiting(p, h)])
  {
    InsertedOrdered(q.heap, Node(Prio(p, q.sequence), h));
  }

  /** The root of the heap is the one whose turn it is. */
  lemma RootIsFirst<H>(q: Queue<H>, ns: seq<Node<H>>, w: seq<Waiting<H>>)
    requires Refines(q, ns, w) && w != []
    ensures q.heap != [] && q.heap[0] == ns[First(w)]
  {
    SameLength(q.heap, ns);
    var root := q.heap[0];
    assert root in multiset(ns);
    var i :| 0 <= i < |ns| && ns[i] == root;
    forall j | 0 <= j < |ns|
      ensures !Lt(ns[j].prio, root.prio)
    {
      assert ns[j] in multiset(q.heap);
      var k :| 0 <= k < |q.heap| && q.heap[k] == ns[j];
      RootIsLeast(q.heap, k);
    }
    FirstIsLeastThenEarliest(w, i);
  }

  lemma SameLength<T>(a: seq<T>, b: seq<T>)
    requires multiset(a) == multiset(b)
    ensures |a| == |b|
  {
    assert |multiset(a)| == |a| && |multiset(b)| == |b|;
  }

  lemma WithoutMultiset<T>(s: seq<T>, i: nat)
    requires i < |s|
    ensures multiset(Without(s, i)) == multiset(s) - multiset{s[i]}
  {
    assert s == s[..i] + [s[i]] + s[i + 1..];
  }

  lemma PullRefines<H>(q: Queue<H>, ns: seq<Node<H>>, w: seq<Waiting<H>>)
    requires Refines(q, ns, w) && w != []
    ensures q.heap != [] && Refines(Pull(q), Without(ns, First(w)), Without(w, First(w)))
  {
    RootIsFirst(q, ns, w);
    RemovedMultiset(q.heap, 0);
    RemovedOrderedIff(q.heap, 0);
    WithoutMultiset(ns, First(w));
    WithoutKeepsList(ns, w, First(w));
  }

  lemma WithoutKeepsList<H>(ns: seq<Node<H>>, w: seq<Waiting<H>>, i: nat)
    requires Ascending(ns) && Shows(ns, w) && i < |w|
    ensures Ascending(Without(ns, i)) && Shows(Without(ns, i), Without(w, i))
    ensures forall j :: 0 <= j < |ns| - 1 ==> Without(ns, i)[j] == ns[if j < i then j else j + 1]
  {
  }

  // ---------- Whole runs ----------

  datatype Op<H> = PutOp(p: int, hnd: H) | PullOp

  /** What the heap hands out over a run, pulling only while something is queued. */
  function Handed<H>(q: Queue<H>, run: seq<Op<H>>): seq<H>
    decreases |run|
  {
    if run == [] then []
    else if run[0].PutOp? then Handed(Put(q, run[0].p, run[0].hnd), run[1..])
    else if q.heap == [] then Handed(q, run[1..])
    else [q.heap[0].hnd] + Handed(Pull(q), run[1..])
  }

  /** What the list hands out. */
  function Due<H>(w: seq<Waiting<H>>, run: seq<Op<H>>): seq<H>
    decreases |run|
  {
    if run == [] then []
    else if run[0].PutOp? then Due(w + [Waiting(run[0].p, run[0].hnd)], run[1..])
    else if w == [] then Due(w, run[1..])
    else [w[First(w)].hnd] + Due(Without(w, First(w)), run[1..])
  }

  lemma {:induction false} RunRefines<H>(q: Queue<H>, ns: seq<Node<H>>, w: seq<Waiting<H>>, run: seq<Op<H>>)
    requires Refines(q, ns, w)
    ensures Handed(q, run) == Due(w, run)
    decreases |run|
  {
    if run != [] {
      SameLength(q.heap, ns);
      if run[0].PutOp? {
        PutRefines(q, ns, w, run[0].p, run[0].hnd);
        RunRefines(Put(q, run[0].p, run[0].hnd), ns + [Node(Prio(run[0].p, q.sequence), run[0].hnd)],
                   w + [Waiting(run[0].p, run[0].hnd)], run[1..]);
      } else if w == [] {
        RunRefines(q, ns, w, run[1..]);
      } else {
        RootIsFirst(q, ns, w);
        PullRefines(q, ns, w);
        RunRefines(Pull(q), Without(ns, First(w)), Without(w, First(w)), run[1..]);
      }
    }
  }

  /** Over every run of insertions and pulls the heap hands out what the list does: the least priority
      value, and among equals the one that has waited longest. */
  lemma StableOrder<H>(run: seq<Op<H>>)
    ensures Handed(Queue([], 0), run) == Due([], run)
  {
    RunRefines(Queue([], 0), [], [], run);
  }

  /** With one priority for all, elements come out in the order they went in. */
  lemma {:induction false} EqualPrioritiesAreFifo<H>(w: seq<Waiting<H>>)
    requires w != [] && forall i :: 0 <= i < |w| ==> w[i].p == w[0].p
    ensures First(w) == 0 && Without(w, First(w)) == w[1..]
  {
    FirstIsLeastThenEarliest(w, 0);
  }

  // ---------- In place ----------

  class StableHeap {
    const heap: DaryHeap
    var sequence: nat

    ghost function Value(): Queue<Handle?>
      requires heap.hvec.Valid()
      reads this, heap.hvec, heap.hvec.buf
    {
      Queue(heap.Contents(), sequence)
    }

    constructor (max: nat)
      requires max >= 8
      ensures heap.Valid() && fresh(heap) && Value() == Queue([], 0)
    {
      heap := new DaryHeap(max);
      sequence := 0;
    }

    method Insert(h: Handle, p: int, granted: bool) returns (root: bool)
      requires heap.Valid() && h in heap.handles && h.heapIndex == -1
      modifies this, heap.hvec, heap.hvec.buf, heap.handles
      ensures heap.Valid() && heap.hvec.buf == old(heap.hvec.buf)
      ensures Value() == Put(old(Value()), p, h) && root == (Value().heap[0].hnd == h)
    {
      var sp := Prio(p, sequence);
      sequence := sequence + 1;
      root := heap.Insert(h, sp, granted);
    }

    method PullRoot() returns (h: Handle)
      requires heap.Valid() && heap.hvec.size > 0
      modifies heap.hvec, heap.hvec.buf, heap.handles
      ensures heap.Valid() && heap.hvec.buf == old(heap.hvec.buf)
      ensures h == old(Value()).heap[0].hnd && h in heap.Idle() && Value() == Pull(old(Value()))
    {
      h := heap.GetRoot();
      heap.PullRoot();
    }
  }
}
