/** How much the heap's vector moves over a whole run of allocations and deallocations. */
module Storages {

  /** `nodes` are allocated, `size` of them queued; `moved` counts elements copied to new storage. */
  datatype Storage = Storage(nodes: nat, size: nat, capacity: nat, moved: nat, max: nat)

  predicate StorageOk(s: Storage) {
    s.size <= s.nodes <= s.capacity <= s.max
  }

  /** What `allocate` asks for first. */
  function Wanted(s: Storage): nat {
    if s.nodes + 1 < s.max / 2 then (s.nodes + 1) * 2 else s.max
  }

  /** `dary_heap::allocate`: `first` and `second` say whether the request for the wanted capacity and the
      request for exactly one more node are granted. */
  function Allocate(s: Storage, first: bool, second: bool): Storage {
    if s.nodes == s.max then s
    else if s.nodes + 1 <= s.capacity then s.(nodes := s.nodes + 1)
    else if first then s.(nodes := s.nodes + 1, capacity := Wanted(s), moved := s.moved + s.size)
    else if second then s.(nodes := s.nodes + 1, capacity := s.nodes + 1, moved := s.moved + s.size)
    else s
  }

  /** `dary_heap::deallocate`. */
  function Deallocate(s: Storage, granted: bool): Storage
    requires s.nodes > 0
  {
    var n := s.nodes - 1;
    if n < s.capacity / 4 && granted then s.(nodes := n, capacity := n * 2, moved := s.moved + s.size)
    else s.(nodes := n)
  }

  datatype Step = Alloc(first: bool, second: bool) | Dealloc(granted: bool) | Insert | Pull

  /** Only an unqueued node is deallocated or inserted, only a queued one is pulled. */
  predicate Possible(s: Storage, a: Step) {
    match a
    case Alloc(_, _) => true
    case Dealloc(_) => s.size < s.nodes
    case Insert => s.size < s.nodes
    case Pull => s.size > 0
  }

  function Take(s: Storage, a: Step): Storage
    requires Possible(s, a)
  {
    match a
    case Alloc(first, second) => Allocate(s, first, second)
    case Dealloc(granted) => Deallocate(s, granted)
    case Insert => s.(size := s.size + 1)
    case Pull => s.(size := s.size - 1)
  }

  /** Inserting an allocated node that is not queued always finds room already there. */
  lemma StepKeepsOk(s: Storage, a: Step)
    requires StorageOk(s) && Possible(s, a)
    ensures StorageOk(Take(s, a)) && Take(s, a).max == s.max
    ensures a.Insert? ==> s.size < s.capacity
  {
  }

  predicate Legal(s: Storage, run: seq<Step>)
    decreases |run|
  {
    run == [] || (Possible(s, run[0]) && Legal(Take(s, run[0]), run[1..]))
  }

  function After(s: Storage, run: seq<Step>): Storage
    requires Legal(s, run)
    decreases |run|
  {
    if run == [] then s else After(Take(s, run[0]), run[1..])
  }

  lemma {:induction false} RunKeepsOk(s: Storage, run: seq<Step>)
    requires StorageOk(s) && Legal(s, run)
    ensures StorageOk(After(s, run)) && After(s, run).max == s.max
    decreases |run|
  {
    if run != [] {
      StepKeepsOk(s, run[0]);
      RunKeepsOk(Take(s, run[0]), run[1..]);
    }
  }

  /** An allocation succeeds exactly when fewer than the maximum are allocated and there is room or either request is
      granted. Storage moves only when it is full, and then, if the first request is granted, at least doubles or
      becomes all there can be. */
  lemma AllocateMeans(s: Storage, first: bool, second: bool)
    requires StorageOk(s)
    ensures var s' := Allocate(s, first, second);
      && s'.size == s.size
      && s'.nodes - s.nodes == (if s.nodes < s.max && (s.nodes < s.capacity || first || second) then 1 else 0)
      && (s'.moved != s.moved || s'.capacity != s.capacity ==> s.nodes == s.capacity && s'.nodes == s.nodes + 1)
      && (s'.nodes > s.capacity && first ==> s'.capacity >= 2 * s.capacity || s'.capacity == s.max)
      && (s'.nodes > s.capacity && !first ==> s'.capacity == s'.nodes)
  {
  }

  // ---------- Nothing kept for long ----------

  /** Every request to shrink is granted. */
  predicate ShrinksGranted(run: seq<Step>) {
    forall i :: 0 <= i < |run| && run[i].Dealloc? ==> run[i].granted
  }

  /** With shrinking granted, the capacity is never much more than four times the nodes allocated. */
  lemma {:induction false} CapacityIsProportional(s: Storage, run: seq<Step>)
    requires StorageOk(s) && s.capacity <= 4 * s.nodes + 3 && Legal(s, run) && ShrinksGranted(run)
    ensures After(s, run).capacity <= 4 * After(s, run).nodes + 3
    decreases |run|
  {
    if run != [] {
      StepKeepsOk(s, run[0]);
      CapacityIsProportional(Take(s, run[0]), run[1..]);
    }
  }

  // ---------- Amortised cost ----------

  function Allocates(run: seq<Step>): nat {
    if run == [] then 0 else (if run[0].Alloc? then 1 else 0) + Allocates(run[1..])
  }

  function Deallocates(run: seq<Step>): nat {
    if run == [] then 0 else (if run[0].Dealloc? then 1 else 0) + Deallocates(run[1..])
  }

  /** Every allocation that needs memory gets what it first asks for, or fails outright. */
  predicate Ample(run: seq<Step>) {
    forall i :: 0 <= i < |run| && run[i].Alloc? ==> run[i].first || !run[i].second
  }

  /** What must have been paid in by now: the distance from the balance point, half the capacity. Full-size
      storage never grows again, so nothing is owed for approaching its end. */
  function Owed(s: Storage): int {
    var m := s.capacity / 2;
    if s.nodes < m then m - s.nodes
    else if s.capacity == s.max then 0
    else 2 * (s.nodes - m)
  }

  ghost predicate Even(s: Storage) {
    s.capacity % 2 == 0 || s.capacity == s.max
  }

  lemma StepIsPaidFor(s: Storage, a: Step)
    requires StorageOk(s) && Even(s) && Possible(s, a) && Ample([a])
    ensures Even(Take(s, a))
    ensures Take(s, a).moved + Owed(Take(s, a))
         <= s.moved + Owed(s) + (if a.Alloc? then 2 else 0) + (if a.Dealloc? then 1 else 0)
  {
    if a.Alloc? {
      assert [a][0] == a;
    }
  }

  lemma {:induction false} RunIsPaidFor(s: Storage, run: seq<Step>)
    requires StorageOk(s) && Even(s) && Legal(s, run) && Ample(run)
    ensures After(s, run).moved + Owed(After(s, run)) <= s.moved + Owed(s) + 2 * Allocates(run) + Deallocates(run)
    decreases |run|
  {
    if run != [] {
      StepKeepsOk(s, run[0]);
      StepIsPaidFor(s, run[0]);
      RunIsPaidFor(Take(s, run[0]), run[1..]);
    }
  }

  /** Starting empty, all the elements ever moved are at most two per allocate and one per deallocate,
      at every size and even when shrinking is refused. */
  lemma MovesAreAmortised(max: nat, run: seq<Step>)
    requires Legal(Storage(0, 0, 0, 0, max), run) && Ample(run)
    ensures After(Storage(0, 0, 0, 0, max), run).moved <= 2 * Allocates(run) + Deallocates(run)
  {
    var s := Storage(0, 0, 0, 0, max);
    RunKeepsOk(s, run);
    RunIsPaidFor(s, run);
  }

  // ---------- When only the smallest request is granted ----------

  /** `k` times: allocate with the first request refused and the second granted, then insert. */
  function Starved(k: nat): seq<Step> {
    if k == 0 then [] else Starved(k - 1) + [Alloc(false, true), Insert]
  }

  lemma {:induction false} AfterConcat(s: Storage, a: seq<Step>, b: seq<Step>)
    requires Legal(s, a) && Legal(After(s, a), b)
    ensures Legal(s, a + b) && After(s, a + b) == After(After(s, a), b)
    decreases |a|
  {
    if a == [] {
      assert a + b == b;
    } else {
      assert (a + b)[1..] == a[1..] + b;
      AfterConcat(Take(s, a[0]), a[1..], b);
    }
  }

  /** The bound needs its condition: then every allocation moves everything queued. */
  lemma {:induction false} StarvedMovesQuadratically(k: nat, max: nat)
    requires k <= max
    ensures Legal(Storage(0, 0, 0, 0, max), Starved(k))
    ensures After(Storage(0, 0, 0, 0, max), Starved(k)) == Storage(k, k, k, k * (k - 1) / 2, max)
  {
    if k > 0 {
      StarvedMovesQuadratically(k - 1, max);
      var s, s0 := Storage(k - 1, k - 1, k - 1, (k - 1) * (k - 2) / 2, max), Storage(0, 0, 0, 0, max);
      var pair := [Alloc(false, true), Insert];
      var s1 := Take(s, pair[0]);
      assert pair[1..] == [Insert] && pair[1..][1..] == [];
      assert After(s1, [Insert]) == Take(s1, Insert);
      assert Legal(s, pair);
      AfterConcat(s0, Starved(k - 1), pair);
      assert k * (k - 1) == (k - 1) * (k - 2) + 2 * (k - 1);
    }
  }
}
