/** The d-ary heap as sequences: what sifting does to the order and to the contents. */
module HeapSpec {

  /** Fan-out. */
  const N := 4

  /** A priority with its insertion number; smaller comes first, equal priorities in insertion order. */
  datatype Prio = Prio(p: int, order: nat)

  predicate Lt(a: Prio, b: Prio) {
    if a.p < b.p then true
    else if b.p < a.p then false
    else a.order < b.order
  }

  datatype Node<H> = Node(prio: Prio, hnd: H)

  function Parent(i: int): int
    requires i > 0
  {
    (i - 1) / N
  }

  predicate Edge<H>(g: seq<Node<H>>, i: int)
    requires 0 < i < |g|
  {
    !Lt(g[i].prio, g[Parent(i)].prio)
  }

  /** Heap order over the first `n` slots. */
  ghost predicate Ordered<H>(g: seq<Node<H>>, n: int)
    requires n <= |g|
  {
    forall i {:trigger Edge(g, i)} :: 0 < i < n ==> Edge(g, i)
  }

  function Swap<H>(g: seq<Node<H>>, i: int, j: int): seq<Node<H>>
    requires 0 <= i < |g| && 0 <= j < |g|
  {
    g[i := g[j]][j := g[i]]
  }

  lemma SwapMultiset<H>(g: seq<Node<H>>, i: int, j: int)
    requires 0 <= i < |g| && 0 <= j < |g|
    ensures multiset(Swap(g, i, j)) == multiset(g)
  {
  }

  // ---------- Towards the root ----------

  /** `bubble_down`: the slot the node at `pos` ends in. */
  function RiseEnd<H>(g: seq<Node<H>>, pos: int): (r: int)
    requires 0 <= pos < |g|
    ensures 0 <= r <= pos
    decreases pos
  {
    if pos > 0 && Lt(g[pos].prio, g[Parent(pos)].prio) then RiseEnd(Swap(g, pos, Parent(pos)), Parent(pos)) else pos
  }

  function Rise<H>(g: seq<Node<H>>, pos: int): (r: seq<Node<H>>)
    requires 0 <= pos < |g|
    ensures |r| == |g|
    decreases pos
  {
    if pos > 0 && Lt(g[pos].prio, g[Parent(pos)].prio) then Rise(Swap(g, pos, Parent(pos)), Parent(pos)) else g
  }

  lemma {:induction false} RiseMultiset<H>(g: seq<Node<H>>, pos: int)
    requires 0 <= pos < |g|
    ensures multiset(Rise(g, pos)) == multiset(g) && Rise(g, pos)[RiseEnd(g, pos)] == g[pos]
    decreases pos
  {
    if pos > 0 && Lt(g[pos].prio, g[Parent(pos)].prio) {
      SwapMultiset(g, pos, Parent(pos));
      RiseMultiset(Swap(g, pos, Parent(pos)), Parent(pos));
    }
  }

  /** Ordered but for the slot `pos`, whose children are in order with its parent. */
  ghost predicate RisesFrom<H>(g: seq<Node<H>>, pos: int)
    requires 0 <= pos < |g|
  {
    && (forall i {:trigger Edge(g, i)} :: 0 < i < |g| && i != pos ==> Edge(g, i))
    && (pos > 0 ==> forall i {:trigger Parent(i)} ::
          0 < i < |g| && Parent(i) == pos ==> !Lt(g[i].prio, g[Parent(pos)].prio))
  }

  /** Moving a node towards the root restores the order. */
  lemma {:induction false} RiseOrders<H>(g: seq<Node<H>>, pos: int)
    requires 0 <= pos < |g| && RisesFrom(g, pos)
    ensures Ordered(Rise(g, pos), |g|)
    decreases pos
  {
    if pos > 0 && Lt(g[pos].prio, g[Parent(pos)].prio) {
      var p := Parent(pos);
      var g' := Swap(g, pos, p);
      forall i | 0 < i < |g| && i != p
        ensures Edge(g', i)
      {
        assert i != pos ==> Edge(g, i);
        if Parent(i) == pos {
          assert Edge(g, i);
        }
      }
      if p > 0 {
        assert Edge(g, p);
        forall i | 0 < i < |g| && Parent(i) == p
          ensures !Lt(g'[i].prio, g'[Parent(p)].prio)
        {
          assert i != pos ==> Edge(g, i);
        }
      }
      RiseOrders(g', p);
    } else {
      forall i | 0 < i < |g|
        ensures Edge(g, i)
      {
        assert i != pos ==> Edge(g, i);
      }
    }
  }

  function Inserted<H>(g: seq<Node<H>>, x: Node<H>): (r: seq<Node<H>>)
    ensures |r| == |g| + 1
  {
    Rise(g + [x], |g|)
  }

  /** Insertion adds the node and keeps heap order. */
  lemma InsertedOrdered<H>(g: seq<Node<H>>, x: Node<H>)
    requires Ordered(g, |g|)
    ensures Ordered(Inserted(g, x), |g| + 1) && multiset(Inserted(g, x)) == multiset(g) + multiset{x}
  {
    var g1 := g + [x];
    forall i | 0 < i < |g|
      ensures Edge(g1, i)
    {
      assert Edge(g, i);
    }
    RiseOrders(g1, |g|);
    RiseMultiset(g1, |g|);
  }

  /** Decreasing a key keeps heap order. */
  lemma DecreasedOrdered<H>(g: seq<Node<H>>, pos: int, prio: Prio)
    requires 0 <= pos < |g| && Ordered(g, |g|) && !Lt(g[pos].prio, prio)
    ensures Ordered(Rise(g[pos := g[pos].(prio := prio)], pos), |g|)
  {
    var g1 := g[pos := g[pos].(prio := prio)];
    forall i | 0 < i < |g| && i != pos
      ensures Edge(g1, i)
    {
      assert Edge(g, i);
    }
    if pos > 0 {
      forall i | 0 < i < |g| && Parent(i) == pos
        ensures !Lt(g1[i].prio, g1[Parent(pos)].prio)
      {
        assert Edge(g, i) && Edge(g, pos);
      }
    }
    RiseOrders(g1, pos);
  }

  /** In an ordered heap no node comes before the root. */
  lemma {:induction false} RootIsLeast<H>(g: seq<Node<H>>, i: int)
    requires 0 <= i < |g| && Ordered(g, |g|)
    ensures !Lt(g[i].prio, g[0].prio)
    decreases i
  {
    if i > 0 {
      assert Edge(g, i);
      RootIsLeast(g, Parent(i));
    }
  }

  // ---------- Away from the root ----------

  /** The child that `bubble_up` compares with: the least of those before the last slot, or the first
      child when that is the last slot. */
  function LeastChild<H>(g: seq<Node<H>>, from: int, upto: int, best: int): (r: int)
    requires 0 <= best < |g| && 0 <= from && upto <= |g|
    ensures 0 <= r < |g| && (r == best || from <= r < upto)
    decreases upto - from
  {
    if from >= upto then best
    else LeastChild(g, from + 1, upto, if Lt(g[from].prio, g[best].prio) then from else best)
  }

  lemma {:induction false} LeastChildIsLeast<H>(g: seq<Node<H>>, from: int, upto: int, best: int)
    requires 0 <= best < |g| && 0 <= from && upto <= |g|
    ensures var r := LeastChild(g, from, upto, best);
      !Lt(g[best].prio, g[r].prio) && forall i :: from <= i < upto ==> !Lt(g[i].prio, g[r].prio)
    decreases upto - from
  {
    if from < upto {
      LeastChildIsLeast(g, from + 1, upto, if Lt(g[from].prio, g[best].prio) then from else best);
    }
  }

  function Chosen<H>(g: seq<Node<H>>, pos: int): (r: int)
    requires 0 <= pos && pos * N + 1 < |g|
    ensures pos * N + 1 <= r < |g| && Parent(r) == pos
    ensures r == pos * N + 1 || r < |g| - 1
  {
    var l := pos * N + 1;
    LeastChild(g, l + 1, if l + N < |g| - 1 then l + N else |g| - 1, l)
  }

  lemma ChosenIsLeast<H>(g: seq<Node<H>>, pos: int)
    requires 0 <= pos && pos * N + 1 < |g|
    ensures var r := Chosen(g, pos);
      forall i :: pos * N + 1 <= i < |g| - 1 && i < pos * N + 1 + N ==> !Lt(g[i].prio, g[r].prio)
  {
    var l := pos * N + 1;
    LeastChildIsLeast(g, l + 1, if l + N < |g| - 1 then l + N else |g| - 1, l);
  }

  function Sink<H>(g: seq<Node<H>>, pos: int): (r: seq<Node<H>>)
    requires 0 <= pos < |g|
    ensures |r| == |g|
    decreases |g| - pos
  {
    if pos * N + 1 < |g| && Lt(g[Chosen(g, pos)].prio, g[pos].prio) then
      Sink(Swap(g, pos, Chosen(g, pos)), Chosen(g, pos))
    else g
  }

  function SinkEnd<H>(g: seq<Node<H>>, pos: int): (r: int)
    requires 0 <= pos < |g|
    ensures pos <= r < |g|
    decreases |g| - pos
  {
    if pos * N + 1 < |g| && Lt(g[Chosen(g, pos)].prio, g[pos].prio) then
      SinkEnd(Swap(g, pos, Chosen(g, pos)), Chosen(g, pos))
    else pos
  }

  lemma {:induction false} SinkMultiset<H>(g: seq<Node<H>>, pos: int)
    requires 0 <= pos < |g|
    ensures multiset(Sink(g, pos)) == multiset(g) && Sink(g, pos)[SinkEnd(g, pos)] == g[pos]
    ensures forall i :: 0 <= i < pos ==> Sink(g, pos)[i] == g[i]
    decreases |g| - pos
  {
    if pos * N + 1 < |g| && Lt(g[Chosen(g, pos)].prio, g[pos].prio) {
      SwapMultiset(g, pos, Chosen(g, pos));
      SinkMultiset(Swap(g, pos, Chosen(g, pos)), Chosen(g, pos));
    }
  }

  /** Ordered before the last slot but for the children of `pos`, all of whose children are in order with
      its parent. */
  ghost predicate SinksFrom<H>(g: seq<Node<H>>, pos: int)
    requires 0 <= pos < |g|
  {
    && (forall i {:trigger Edge(g, i)} :: 0 < i < |g| - 1 && Parent(i) != pos ==> Edge(g, i))
    && (pos > 0 ==> forall i {:trigger Parent(i)} ::
          0 < i < |g| && Parent(i) == pos ==> !Lt(g[i].prio, g[Parent(pos)].prio))
  }

  /** The last slot holds the moved priority itself, or is in order with a parent still to come. */
  ghost predicate LastOk<H>(g: seq<Node<H>>, pos: int)
    requires 0 <= pos < |g|
  {
    |g| > 1 ==> g[|g| - 1].prio == g[pos].prio || (Parent(|g| - 1) > pos ==> Edge(g, |g| - 1))
  }

  lemma SinkStep<H>(g: seq<Node<H>>, pos: int)
    requires 0 <= pos < |g| && SinksFrom(g, pos) && LastOk(g, pos)
    requires pos * N + 1 < |g| && Lt(g[Chosen(g, pos)].prio, g[pos].prio)
    ensures var g', c := Swap(g, pos, Chosen(g, pos)), Chosen(g, pos);
      SinksFrom(g', c) && LastOk(g', c)
  {
    var c := Chosen(g, pos);
    ChosenIsLeast(g, pos);
    var g' := Swap(g, pos, c);
    forall i | 0 < i < |g| - 1 && Parent(i) != c
      ensures Edge(g', i)
    {
      SinkStepEdge(g, pos, c, i);
    }
    SinkStepLast(g, pos, c);
  }

  lemma SinkStepLast<H>(g: seq<Node<H>>, pos: int, c: int)
    requires 0 <= pos < c < |g| && Parent(c) == pos && SinksFrom(g, pos) && LastOk(g, pos)
    requires Lt(g[c].prio, g[pos].prio) && (c == pos * N + 1 || c < |g| - 1)
    ensures LastOk(Swap(g, pos, c), c)
    ensures forall i {:trigger Parent(i)} ::
      0 < i < |g| && Parent(i) == c ==> !Lt(Swap(g, pos, c)[i].prio, g[c].prio)
  {
    forall i | 0 < i < |g| && Parent(i) == c
      ensures !Lt(Swap(g, pos, c)[i].prio, g[c].prio)
    {
      assert i == |g| - 1 || Edge(g, i);
    }
  }

  lemma SinkStepEdge<H>(g: seq<Node<H>>, pos: int, c: int, i: int)
    requires 0 <= pos < c < |g| && Parent(c) == pos && SinksFrom(g, pos) && Lt(g[c].prio, g[pos].prio)
    requires forall j :: pos * N + 1 <= j < |g| - 1 && j < pos * N + 1 + N ==> !Lt(g[j].prio, g[c].prio)
    requires 0 < i < |g| - 1 && Parent(i) != c
    ensures Edge(Swap(g, pos, c), i)
  {
    if Parent(i) == pos {
      assert pos * N + 1 <= i < pos * N + 1 + N;
    } else if i != pos {
      assert Edge(g, i);
    }
  }

  /** Moving a node away from the root restores the order of all slots before the last. */
  lemma {:induction false} SinkOrders<H>(g: seq<Node<H>>, pos: int)
    requires 0 <= pos < |g| && SinksFrom(g, pos) && LastOk(g, pos)
    ensures Ordered(Sink(g, pos), |g| - 1)
    decreases |g| - pos
  {
    if pos * N + 1 < |g| && Lt(g[Chosen(g, pos)].prio, g[pos].prio) {
      SinkStep(g, pos);
      SinkOrders(Swap(g, pos, Chosen(g, pos)), Chosen(g, pos));
    } else {
      if pos * N + 1 < |g| {
        ChosenIsLeast(g, pos);
      }
      forall i | 0 < i < |g| - 1
        ensures Edge(g, i)
      {
        if Parent(i) == pos {
          assert pos * N + 1 <= i < pos * N + 1 + N;
        } else {
          assert Edge(g, i);
        }
      }
    }
  }

  /** The last slot keeps a copy of the moved node throughout. */
  lemma {:induction false} SinkKeepsLast<H>(g: seq<Node<H>>, pos: int)
    requires 0 <= pos < |g| - 1 && g[|g| - 1].prio == g[pos].prio
    ensures Sink(g, pos)[|g| - 1] == g[|g| - 1] && SinkEnd(g, pos) < |g| - 1
    decreases |g| - pos
  {
    if pos * N + 1 < |g| && Lt(g[Chosen(g, pos)].prio, g[pos].prio) {
      SinkKeepsLast(Swap(g, pos, Chosen(g, pos)), Chosen(g, pos));
    }
  }

  // ---------- Removal at any slot ----------

  /** `remove_h` before the last slot is given up: the last node takes the vacated slot and sinks. */
  function Filled<H>(g: seq<Node<H>>, idx: int): (r: seq<Node<H>>)
    requires 0 <= idx < |g|
    ensures |r| == |g|
  {
    if idx == |g| - 1 then g else Sink(g[idx := g[|g| - 1]], idx)
  }

  function Removed<H>(g: seq<Node<H>>, idx: int): (r: seq<Node<H>>)
    requires 0 <= idx < |g|
    ensures |r| == |g| - 1
  {
    Filled(g, idx)[..|g| - 1]
  }

  lemma RemovedMultiset<H>(g: seq<Node<H>>, idx: int)
    requires 0 <= idx < |g|
    ensures multiset(Removed(g, idx)) == multiset(g) - multiset{g[idx]}
  {
    if idx == |g| - 1 {
      DropLastMultiset(g);
    } else {
      var h := g[idx := g[|g| - 1]];
      SinkMultiset(h, idx);
      SinkKeepsLast(h, idx);
      UpdateMultiset(g, idx, g[|g| - 1]);
      DropLastMultiset(Sink(h, idx));
    }
  }

  lemma DropLastMultiset<T>(s: seq<T>)
    requires s != []
    ensures multiset(s[..|s| - 1]) == multiset(s) - multiset{s[|s| - 1]}
  {
    assert s == s[..|s| - 1] + [s[|s| - 1]];
  }

  lemma UpdateMultiset<T>(s: seq<T>, i: int, x: T)
    requires 0 <= i < |s|
    ensures multiset(s[i := x]) == multiset(s) - multiset{s[i]} + multiset{x}
  {
  }

  /** Removal keeps heap order exactly when the node moved in is not below the vacated slot's parent. */
  lemma RemovedOrderedIff<H>(g: seq<Node<H>>, idx: int)
    requires 0 <= idx < |g| && Ordered(g, |g|)
    ensures Ordered(Removed(g, idx), |g| - 1)
       <==> idx == 0 || idx == |g| - 1 || !Lt(g[|g| - 1].prio, g[Parent(idx)].prio)
  {
    var last := |g| - 1;
    if idx == last {
      RemoveLastOrdered(g);
    } else if idx == 0 || !Lt(g[last].prio, g[Parent(idx)].prio) {
      RemovedOrdered(g, idx);
    } else {
      RemovedDisordered(g, idx);
    }
  }

  lemma RemoveLastOrdered<H>(g: seq<Node<H>>)
    requires |g| > 0 && Ordered(g, |g|)
    ensures Ordered(Removed(g, |g| - 1), |g| - 1)
  {
    var r := g[..|g| - 1];
    forall i | 0 < i < |r|
      ensures Edge(r, i)
    {
      assert Edge(g, i);
    }
  }

  lemma RemovedOrdered<H>(g: seq<Node<H>>, idx: int)
    requires 0 <= idx < |g| - 1 && Ordered(g, |g|)
    requires idx == 0 || !Lt(g[|g| - 1].prio, g[Parent(idx)].prio)
    ensures Ordered(Removed(g, idx), |g| - 1)
  {
    var last := |g| - 1;
    var h := g[idx := g[last]];
    forall i | 0 < i < last && Parent(i) != idx
      ensures Edge(h, i)
    {
      assert Edge(g, i);
    }
    if idx > 0 {
      forall i | 0 < i < |h| && Parent(i) == idx
        ensures !Lt(h[i].prio, h[Parent(idx)].prio)
      {
        assert Edge(g, i) && Edge(g, idx);
      }
    }
    SinkOrders(h, idx);
    var s := Sink(h, idx);
    forall i | 0 < i < last
      ensures Edge(s[..last], i)
    {
      assert Edge(s, i);
    }
  }

  lemma RemovedDisordered<H>(g: seq<Node<H>>, idx: int)
    requires 0 < idx < |g| - 1 && Ordered(g, |g|) && Lt(g[|g| - 1].prio, g[Parent(idx)].prio)
    ensures !Ordered(Removed(g, idx), |g| - 1)
  {
    var last := |g| - 1;
    var h := g[idx := g[last]];
    assert Edge(g, idx);
    if idx * N + 1 < |h| {
      var c := Chosen(h, idx);
      assert Edge(g, c);
      assert !Lt(h[c].prio, h[idx].prio);
    }
    assert Sink(h, idx) == h;
    assert !Edge(Removed(g, idx), idx);
  }

  // ---------- Raising a key ----------

  /** Does the node sinking from `pos` come to slot `target`? */
  predicate Reaches<H>(g: seq<Node<H>>, pos: int, target: int)
    requires 0 <= pos < |g|
    decreases |g| - pos
  {
    pos == target
    || (pos * N + 1 < |g| && Lt(g[Chosen(g, pos)].prio, g[pos].prio)
        && Reaches(Swap(g, pos, Chosen(g, pos)), Chosen(g, pos), target))
  }

  /** The last node is passed over: it is not a first child, its parent's slot is reached, and it should
      have come before both the sinking node and all its own siblings. */
  predicate LastPassedOver<H>(g: seq<Node<H>>, pos: int)
    requires 0 <= pos < |g|
  {
    |g| > 1 &&
    var last, p := |g| - 1, Parent(|g| - 1);
    && last != p * N + 1 && Reaches(g, pos, p) && Lt(g[last].prio, g[pos].prio)
    && forall i :: p * N + 1 <= i < last ==> Lt(g[last].prio, g[i].prio)
  }

  lemma {:induction false} ReachesOnlyBelow<H>(g: seq<Node<H>>, pos: int, target: int)
    requires 0 <= pos < |g| && target < pos
    ensures !Reaches(g, pos, target)
    decreases |g| - pos
  {
    if pos * N + 1 < |g| && Lt(g[Chosen(g, pos)].prio, g[pos].prio) {
      ReachesOnlyBelow(Swap(g, pos, Chosen(g, pos)), Chosen(g, pos), target);
    }
  }

  /** At the last node's parent: its edge is broken exactly when it is passed over. */
  lemma LastEdgeAtParent<H>(g: seq<Node<H>>, pos: int)
    requires 0 <= pos < |g| && |g| > 1 && Parent(|g| - 1) == pos
    ensures Edge(Sink(g, pos), |g| - 1) <==> !LastPassedOver(g, pos)
  {
    var last, c := |g| - 1, Chosen(g, pos);
    ChosenIsLeast(g, pos);
    if Lt(g[c].prio, g[pos].prio) {
      var g' := Swap(g, pos, c);
      SinkMultiset(g', c);
      SinkLeavesLast(g', c);
    }
  }

  /** Beyond the last node's parent there are no children. */
  lemma SinkLeavesLast<H>(g: seq<Node<H>>, pos: int)
    requires 0 <= pos < |g| && |g| > 1 && Parent(|g| - 1) < pos
    ensures pos * N + 1 >= |g| && Sink(g, pos) == g
  {
  }

  lemma PassedOverStep<H>(g: seq<Node<H>>, pos: int)
    requires 0 <= pos < |g| && pos * N + 1 < |g| && Lt(g[Chosen(g, pos)].prio, g[pos].prio)
    requires Parent(|g| - 1) != pos && pos != |g| - 1
    ensures LastPassedOver(Swap(g, pos, Chosen(g, pos)), Chosen(g, pos)) == LastPassedOver(g, pos)
  {
    var last, p, c := |g| - 1, Parent(|g| - 1), Chosen(g, pos);
    var g' := Swap(g, pos, c);
    assert p > pos && c != last;
    forall i | p * N + 1 <= i < last
      ensures g'[i] == g[i]
    {
      assert Parent(i) == p;
    }
    assert Reaches(g, pos, p) == Reaches(g', c, p);
  }

  lemma {:induction false} LastEdgeIff<H>(g: seq<Node<H>>, pos: int)
    requires 0 <= pos < |g| && |g| > 1 && (Parent(|g| - 1) != pos ==> Edge(g, |g| - 1)) && pos != |g| - 1
    ensures Edge(Sink(g, pos), |g| - 1) <==> !LastPassedOver(g, pos)
    decreases |g| - pos
  {
    if Parent(|g| - 1) == pos {
      LastEdgeAtParent(g, pos);
    } else if pos * N + 1 < |g| && Lt(g[Chosen(g, pos)].prio, g[pos].prio) {
      LastEdgeMoves(g, pos);
      LastEdgeIff(Swap(g, pos, Chosen(g, pos)), Chosen(g, pos));
      PassedOverStep(g, pos);
    }
  }

  lemma LastEdgeMoves<H>(g: seq<Node<H>>, pos: int)
    requires 0 <= pos < |g| && pos * N + 1 < |g| && Parent(|g| - 1) != pos && pos != |g| - 1 && Edge(g, |g| - 1)
    ensures var g', c := Swap(g, pos, Chosen(g, pos)), Chosen(g, pos);
      c != |g| - 1 && (Parent(|g| - 1) != c ==> Edge(g', |g| - 1))
  {
  }

  /** Increasing a key keeps heap order exactly when the last node is not passed over. */
  lemma IncreasedOrderedIff<H>(g: seq<Node<H>>, pos: int, prio: Prio)
    requires 0 <= pos < |g| && Ordered(g, |g|) && Lt(g[pos].prio, prio)
    ensures var g1 := g[pos := g[pos].(prio := prio)];
      Ordered(Sink(g1, pos), |g|) <==> !LastPassedOver(g1, pos)
  {
    var g1, last := g[pos := g[pos].(prio := prio)], |g| - 1;
    if |g| > 1 {
      RaisedSinks(g, pos, prio);
      SinkOrders(g1, pos);
      if pos == last {
        assert Edge(g, last);
        if last != Parent(last) {
          ReachesOnlyBelow(g1, pos, Parent(last));
        }
      } else {
        if Parent(last) != pos {
          assert Edge(g, last);
        }
        LastEdgeIff(g1, pos);
      }
      var s := Sink(g1, pos);
      assert Ordered(s, |g|) <==> Edge(s, last) by {
        if Edge(s, last) {
          forall i | 0 < i < |s|
            ensures Edge(s, i)
          {
            assert i == last || Edge(s, i);
          }
        }
      }
    }
  }

  lemma RaisedSinks<H>(g: seq<Node<H>>, pos: int, prio: Prio)
    requires 0 <= pos < |g| && Ordered(g, |g|) && Lt(g[pos].prio, prio)
    ensures var g1 := g[pos := g[pos].(prio := prio)]; SinksFrom(g1, pos) && LastOk(g1, pos)
  {
    var g1, last := g[pos := g[pos].(prio := prio)], |g| - 1;
    forall i | 0 < i < last && Parent(i) != pos
      ensures Edge(g1, i)
    {
      assert Edge(g, i);
    }
    if pos > 0 {
      forall i | 0 < i < |g| && Parent(i) == pos
        ensures !Lt(g1[i].prio, g1[Parent(pos)].prio)
      {
        assert Edge(g, i) && Edge(g, pos);
      }
    }
    if last > 0 {
      assert Edge(g, last);
    }
  }

  /** `set_priority`. */
  function Reprioritised<H>(g: seq<Node<H>>, pos: int, prio: Prio): (r: seq<Node<H>>)
    requires 0 <= pos < |g|
    ensures |r| == |g|
  {
    var g1 := g[pos := g[pos].(prio := prio)];
    if Lt(g[pos].prio, prio) then Sink(g1, pos) else Rise(g1, pos)
  }

  /** A new priority changes one node, and breaks heap order only by passing over the last node. */
  lemma ReprioritisedOrderedIff<H>(g: seq<Node<H>>, pos: int, prio: Prio)
    requires 0 <= pos < |g| && Ordered(g, |g|)
    ensures var x := g[pos].(prio := prio);
      && multiset(Reprioritised(g, pos, prio)) == multiset(g) - multiset{g[pos]} + multiset{x}
      && (Ordered(Reprioritised(g, pos, prio), |g|)
          <==> !(Lt(g[pos].prio, prio) && LastPassedOver(g[pos := x], pos)))
  {
    var g1 := g[pos := g[pos].(prio := prio)];
    if Lt(g[pos].prio, prio) {
      IncreasedOrderedIff(g, pos, prio);
      SinkMultiset(g1, pos);
    } else {
      DecreasedOrdered(g, pos, prio);
      RiseMultiset(g1, pos);
    }
  }

  /** Ten nodes whose root has the children 10, 1, 30 and 40; the last node, 2, is below 1. */
  function TenNodes(): (g: seq<Node<int>>)
    ensures |g| == 10 && Ordered(g, 10)
  {
    [Node(Prio(0, 0), 0), Node(Prio(10, 0), 1), Node(Prio(1, 0), 2), Node(Prio(30, 0), 3), Node(Prio(40, 0), 4),
     Node(Prio(20, 0), 5), Node(Prio(20, 1), 6), Node(Prio(20, 2), 7), Node(Prio(20, 3), 8), Node(Prio(2, 0), 9)]
  }

  /** Removing the first child of 10 puts 2 below 10. */
  lemma RemovalCanBreakOrder()
    ensures !Ordered(Removed(TenNodes(), 5), 9)
  {
    RemovedOrderedIff(TenNodes(), 5);
  }

  /** In a heap of three, raising the root to 9 swaps it with 8 although the last node, 1, is lower. */
  lemma IncreaseCanBreakOrder()
    ensures var g := [Node(Prio(0, 0), 0), Node(Prio(8, 0), 1), Node(Prio(1, 0), 2)];
      Ordered(g, 3) && !Ordered(Reprioritised(g, 0, Prio(9, 0)), 3)
  {
    var g := [Node(Prio(0, 0), 0), Node(Prio(8, 0), 1), Node(Prio(1, 0), 2)];
    assert Ordered(g, 3);
    var g1 := g[0 := g[0].(prio := Prio(9, 0))];
    assert LastPassedOver(g1, 0);
    ReprioritisedOrderedIff(g, 0, Prio(9, 0));
  }
}
