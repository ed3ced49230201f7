/** The d-ary heap in place: nodes in a vector, each node's handle holding its index. */
module DaryHeaps {
  import opened HeapSpec
  import opened SVectors
  import Storages

  class Handle {
    var heapIndex: int

    constructor ()
      ensures heapIndex == -1
    {
      heapIndex := -1;
    }
  }

  type HeapNode = Node<Handle?>

  class DaryHeap {
    const hvec: SVector<HeapNode>
    var numNodes: nat
    ghost var handles: set<Handle>  // the allocated handles

    /** A queued handle's index leads back to it, in a slot below `n` other than `pos`. */
    ghost predicate PointsBack(k: Handle, n: int, pos: int)
      requires n <= hvec.buf.Length
      reads hvec, hvec.buf, k
    {
      k.heapIndex != -1 ==> 0 <= k.heapIndex < n && k.heapIndex != pos && hvec.buf[k.heapIndex].hnd == k
    }

    /** The first `n` slots but for `pos` and the handles other than `h` point at each other. */
    ghost predicate Linked(n: int, pos: int, h: Handle?)
      requires n <= hvec.buf.Length
      reads this`handles, hvec, hvec.buf, handles
    {
      && (forall i {:trigger hvec.buf[i]} :: 0 <= i < n && i != pos ==>
            && hvec.buf[i].hnd != null && hvec.buf[i].hnd in handles && hvec.buf[i].hnd != h
            && hvec.buf[i].hnd.heapIndex == i)
      && (forall k {:trigger PointsBack(k, n, pos)} :: k in handles && k != h ==> PointsBack(k, n, pos))
    }

    ghost function Idle(): set<Handle>
      reads this`handles, handles
    {
      set k | k in handles && k.heapIndex == -1
    }

    ghost predicate Queued(h: Handle)
      requires hvec.Valid()
      reads this`handles, hvec, hvec.buf, h
    {
      h in handles && 0 <= h.heapIndex < hvec.size && hvec.buf[h.heapIndex].hnd == h
    }

    ghost predicate Valid()
      reads this, hvec, hvec.buf, handles
    {
      && hvec.Valid()
      && |handles| == numNodes <= hvec.buf.Length
      && Linked(hvec.size, -1, null)
    }

    ghost function Contents(): (g: seq<HeapNode>)
      requires hvec.Valid()
      reads hvec, hvec.buf
      ensures |g| == hvec.size
    {
      hvec.Contents()
    }

    ghost function Storage(): Storages.Storage
      reads this, hvec
    {
      Storages.Storage(numNodes, hvec.size, hvec.buf.Length, hvec.moved, hvec.max)
    }

    constructor (max: nat)
      requires max >= 8
      ensures Valid() && fresh(hvec) && fresh(hvec.buf) && handles == {} && Contents() == []
      ensures Storage() == Storages.Storage(0, 0, 0, 0, max)
    {
      hvec := new SVector(max);
      numNodes := 0;
      handles := {};
    }

    // ---------- Sifting ----------

    /** Moves the node at `from` into the hole at `pos`; the hole is then at `from`. */
    method MoveNode(from: nat, pos: nat, n: nat, ghost h: Handle)
      requires hvec.Valid() && n <= hvec.size && from < n && pos < n && from != pos && Linked(n, pos, h)
      modifies hvec.buf, handles
      ensures Linked(n, from, h) && Contents() == old(Contents())[pos := old(Contents())[from]]
      ensures old(Idle()) - {h} <= Idle()
    {
      var a := hvec.buf;
      a[pos] := a[from];
      a[pos].hnd.heapIndex := pos;
      forall k | k in handles && k != h
        ensures PointsBack(k, n, from)
      {
        assert old(PointsBack(k, n, pos));
      }
    }

    /** Fills the hole at `pos`. */
    method PutNode(pos: nat, n: nat, h: Handle, p: Prio)
      requires hvec.Valid() && n <= hvec.size && pos < n && h in handles && Linked(n, pos, h)
      modifies hvec.buf, handles
      ensures Linked(n, -1, null) && Contents() == old(Contents())[pos := Node(p, h)]
      ensures h.heapIndex == pos
      ensures old(Idle()) - {h} <= Idle()
    {
      hvec.buf[pos] := Node(p, h);
      h.heapIndex := pos;
      forall k | k in handles
        ensures PointsBack(k, n, -1)
      {
        assert k != h ==> old(PointsBack(k, n, pos));
      }
    }

    /** Moves the hole at `start` towards the root until `op` fits, and puts the node there. */
    method BubbleDown(start: nat, ohndl: Handle, op: Prio) returns (root: bool)
      requires hvec.Valid() && start < hvec.size && ohndl in handles && Linked(hvec.size, start, ohndl)
      modifies hvec.buf, handles
      ensures Linked(hvec.size, -1, null)
      ensures old(Idle()) - {ohndl} <= Idle()
      ensures Contents() == Rise(old(Contents())[start := Node(op, ohndl)], start)
      ensures ohndl.heapIndex == RiseEnd(old(Contents())[start := Node(op, ohndl)], start)
      ensures root == (ohndl.heapIndex == 0)
    {
      var pos := start;
      ghost var x: HeapNode := Node(op, ohndl);
      ghost var g0 := Contents()[start := x];
      while pos > 0
        invariant 0 <= pos < hvec.size && Linked(hvec.size, pos, ohndl)
        invariant old(Idle()) - {ohndl} <= Idle()
        invariant Rise(Contents()[pos := x], pos) == Rise(g0, start)
        invariant RiseEnd(Contents()[pos := x], pos) == RiseEnd(g0, start)
      {
        var parent := Parent(pos);
        if !Lt(op, hvec.buf[parent].prio) {
          break;
        }
        ghost var g := Contents();
        MoveNode(parent, pos, hvec.size, ohndl);
        assert Contents()[parent := x] == Swap(g[pos := x], pos, parent);
        pos := parent;
      }
      PutNode(pos, hvec.size, ohndl, op);
      root := pos == 0;
    }

    /** The child that is compared with the sinking node. */
    method SelectChild(pos: nat) returns (c: nat)
      requires hvec.Valid() && pos * N + 1 < hvec.size
      ensures IsChosen(Contents(), pos, c)
    {
      var a, lchild, rmax := hvec.buf, pos * N + 1, hvec.size - 1;
      ghost var g := Contents();
      var rchild := if lchild + N < rmax then lchild + N else rmax;
      c := lchild;
      var i := lchild + 1;
      while i < rchild
        invariant lchild < i && lchild <= c < hvec.size
        invariant LeastChild(g, i, rchild, c) == LeastChild(g, lchild + 1, rchild, lchild)
      {
        assert a[i] == g[i] && a[c] == g[c];
        if Lt(a[i].prio, a[c].prio) {
          c := i;
        }
        i := i + 1;
      }
    }

    /** The first `n` slots are in use: all of them, or all but the last, which then holds a copy of the
        sinking node. */
    ghost predicate InUse(n: nat, p: Prio)
      reads hvec, hvec.buf
    {
      hvec.Valid() && n <= hvec.size && (n == hvec.size || (n == hvec.size - 1 && hvec.buf[n].prio == p))
    }

    /** Where `bubble_up` moves the hole next: to the selected child, or nowhere when the node fits. */
    method NextHole(pos: nat, n: nat, h: Handle, p: Prio) returns (next: nat)
      requires InUse(n, p) && pos < n && pos * N + 1 < hvec.size
      ensures pos <= next < n
      ensures var g, x: HeapNode := Contents(), Node(p, h);
        if next == pos then SinkEnd(g[pos := x], pos) == pos
        else SameSink(g[pos := g[next]][next := x], next, g[pos := x], pos)
    {
      var c := SelectChild(pos);
      ghost var g, x: HeapNode := Contents(), Node(p, h);
      ChosenBounds(g, pos, c);
      assert hvec.buf[c] == g[c];
      if Lt(hvec.buf[c].prio, p) {
        SinkMoves(g, pos, c, x);
        next := c;
      } else {
        SinkStays(g, pos, c, x);
        next := pos;
      }
    }

    /** One step of `bubble_up`: the hole moves to `next`, or stays where the node belongs. */
    method SinkOnce(pos: nat, n: nat, h: Handle, p: Prio) returns (next: nat)
      requires InUse(n, p) && pos < n && pos * N + 1 < hvec.size && Linked(n, pos, h)
      modifies hvec.buf, handles
      ensures InUse(n, p) && pos <= next < n && Linked(n, next, h) && old(Idle()) - {h} <= Idle()
      ensures SameSink(Contents()[next := Node(p, h)], next, old(Contents())[pos := Node(p, h)], pos)
      ensures next == pos ==> SinkEnd(Contents()[pos := Node(p, h)], pos) == pos
    {
      next := NextHole(pos, n, h, p);
      if next != pos {
        ghost var g := Contents();
        assert n < hvec.size ==> hvec.buf[n] == g[n];
        MoveNode(next, pos, n, h);
        assert Contents() == g[pos := g[next]];
        assert n < hvec.size ==> hvec.buf[n] == Contents()[n] == g[n];
      }
    }

    /** Moves the hole at `start` away from the root until `p` fits, and puts the node there. */
    method BubbleUp(start: nat, n: nat, h: Handle, p: Prio)
      requires InUse(n, p) && start < n && h in handles && Linked(n, start, h)
      requires n == hvec.size == 1 ==> hvec.buf[0].prio == p && hvec.buf[0].hnd == h && h.heapIndex == 0
      modifies hvec.buf, handles
      ensures Linked(n, -1, null)
      ensures old(Idle()) - {h} <= Idle()
      ensures Contents() == Sink(old(Contents())[start := Node(p, h)], start)
      ensures h.heapIndex == SinkEnd(old(Contents())[start := Node(p, h)], start)
    {
      var rmax := hvec.size - 1;
      if rmax == 0 {
        assert Contents() == Contents()[start := Node(p, h)];
        forall k | k in handles
          ensures PointsBack(k, n, -1)
        {
          assert k != h ==> PointsBack(k, n, start);
        }
        return;
      }
      var max, pos := (rmax - 1) / N, start;
      ghost var x: HeapNode := Node(p, h);
      ghost var g0 := Contents()[start := x];
      while pos <= max
        invariant InUse(n, p) && 0 <= pos < n && Linked(n, pos, h)
        invariant old(Idle()) - {h} <= Idle()
        invariant SameSink(Contents()[pos := x], pos, g0, start)
        decreases n - pos
      {
        var next := SinkOnce(pos, n, h, p);
        if next == pos {
          break;
        }
        pos := next;
      }
      SinkSettled(Contents()[pos := x], pos);
      PutNode(pos, n, h, p);
    }

    // ---------- Memory ----------

    /** `first` and `second` are the allocator's answers to the two requests; false means an exception. */
    method Allocate(h: Handle, first: bool, second: bool) returns (ok: bool)
      requires Valid() && h !in handles
      modifies this, hvec, h
      ensures Valid() && Contents() == old(Contents()) && (hvec.buf == old(hvec.buf) || fresh(hvec.buf))
      ensures Storage() == Storages.Allocate(old(Storage()), first, second)
      ensures ok <==> numNodes == old(numNodes) + 1
      ensures if ok then handles == old(handles) + {h} && h.heapIndex == -1
              else handles == old(handles) && h.heapIndex == old(h.heapIndex)
    {
      if numNodes == hvec.max {
        return false;
      }
      numNodes := numNodes + 1;
      if hvec.buf.Length < numNodes {
        ok := MakeRoom(first, second);
        if !ok {
          numNodes := numNodes - 1;
          return;
        }
      }
      Adopt(h);
      ok := true;
    }

    method Adopt(h: Handle)
      requires hvec.Valid() && Linked(hvec.size, -1, null) && h !in handles
      modifies this`handles, h
      ensures handles == old(handles) + {h} && h.heapIndex == -1 && Linked(hvec.size, -1, null)
    {
      handles := handles + {h};
      h.heapIndex := -1;
      forall k | k in handles
        ensures PointsBack(k, hvec.size, -1)
      {
        assert k != h ==> old(PointsBack(k, hvec.size, -1));
      }
    }

    /** Asks for twice the nodes, and when that is refused for just enough. */
    method MakeRoom(first: bool, second: bool) returns (ok: bool)
      requires hvec.Valid() && hvec.buf.Length < numNodes <= hvec.max && Linked(hvec.size, -1, null)
      modifies hvec
      ensures hvec.Valid() && hvec.size == old(hvec.size) && Contents() == old(Contents())
      ensures Linked(hvec.size, -1, null)
      ensures ok <==> first || second
      ensures if !ok then hvec.buf == old(hvec.buf) && hvec.moved == old(hvec.moved)
              else fresh(hvec.buf) && hvec.moved == old(hvec.moved) + hvec.size
      ensures ok ==> hvec.buf.Length == if !first then numNodes
                                        else if numNodes < hvec.max / 2 then numNodes * 2 else hvec.max
    {
      var half := hvec.max / 2;
      ok := hvec.Reserve(if numNodes < half then numNodes * 2 else hvec.max, first);
      if !ok {
        ok := hvec.Reserve(numNodes, second);
      }
      assert forall i :: 0 <= i < hvec.size ==> hvec.buf[i] == Contents()[i] == old(Contents())[i] == old(hvec.buf[i]);
      forall k | k in handles
        ensures PointsBack(k, hvec.size, -1)
      {
        assert old(PointsBack(k, hvec.size, -1));
      }
    }

    method Deallocate(h: Handle, granted: bool)
      requires Valid() && h in handles && h.heapIndex == -1
      modifies this, hvec
      ensures Valid() && Contents() == old(Contents()) && (hvec.buf == old(hvec.buf) || fresh(hvec.buf))
      ensures Storage() == Storages.Deallocate(old(Storage()), granted) && handles == old(handles) - {h}
      ensures granted ==> hvec.buf.Length <= 4 * numNodes + 3
    {
      QueuedFit(handles - {h});
      numNodes := numNodes - 1;
      handles := handles - {h};
      if numNodes < hvec.buf.Length / 4 {
        hvec.ShrinkTo(numNodes * 2, granted);
      }
      assert forall i :: 0 <= i < hvec.size ==> hvec.buf[i] == Contents()[i] == old(Contents())[i] == old(hvec.buf[i]);
      forall k | k in handles
        ensures PointsBack(k, hvec.size, -1)
      {
        assert old(PointsBack(k, hvec.size, -1));
      }
    }

    /** Any set of handles that holds all the queued ones is at least as large as the queue. */
    lemma QueuedFit(s: set<Handle>)
      requires Valid() && s <= handles && handles - Idle() <= s
      ensures hvec.size <= |s|
    {
      var g := Contents();
      forall i | 0 <= i < hvec.size
        ensures g[i].hnd in s && g[i].hnd.heapIndex == i
      {
        assert hvec.buf[i] == g[i];
      }
      DistinctFit(g, s);
    }

    // ---------- Queue operations ----------

    /** Inserting never asks for memory, whatever the allocator would answer. */
    method Insert(h: Handle, p: Prio, granted: bool) returns (root: bool)
      requires Valid() && h in handles && h.heapIndex == -1
      modifies hvec, hvec.buf, handles
      ensures Valid() && hvec.buf == old(hvec.buf) && hvec.moved == old(hvec.moved)
      ensures Contents() == Inserted(old(Contents()), Node(p, h)) && old(Idle()) - {h} <= Idle()
      ensures root == (Contents()[0].hnd == h)
    {
      QueuedFit(handles - {h});
      AppendSlot(h, granted);
      assert Contents()[|old(Contents())| := Node(p, h)] == old(Contents()) + [Node(p, h)];
      root := BubbleDown(hvec.size - 1, h, p);
      assert Contents()[0] == hvec.buf[0] && PointsBack(h, hvec.size, -1);
    }

    /** Adds an empty slot for `h` at the end. */
    method AppendSlot(h: Handle, granted: bool)
      requires Valid() && h in handles && h.heapIndex == -1 && hvec.size < hvec.buf.Length
      modifies hvec, hvec.buf, h
      ensures hvec.Valid() && hvec.buf == old(hvec.buf) && hvec.moved == old(hvec.moved)
      ensures hvec.size == old(hvec.size) + 1 && Contents()[..old(hvec.size)] == old(Contents())
      ensures Linked(hvec.size, old(hvec.size), h) && old(Idle()) - {h} <= Idle()
    {
      h.heapIndex := hvec.size;
      var _ := hvec.EmplaceBack(Node(Prio(0, 0), null), granted);
      assert forall i :: 0 <= i < old(hvec.size) ==>
        hvec.buf[i] == Contents()[i] == old(Contents())[i] == old(hvec.buf[i]);
      forall k | k in handles && k != h
        ensures PointsBack(k, hvec.size, hvec.size - 1)
      {
        assert old(PointsBack(k, hvec.size, -1));
      }
    }

    /** `remove_h`: the last node takes the slot of the removed one and is moved away from the root. */
    method RemoveAt(hidx: nat)
      requires Valid() && hidx < hvec.size
      modifies hvec, hvec.buf, handles
      ensures Valid() && hvec.buf == old(hvec.buf) && hvec.moved == old(hvec.moved)
      ensures Contents() == Removed(old(Contents()), hidx)
      ensures old(Idle()) + {old(hvec.buf[hidx].hnd)} <= Idle()
    {
      if hvec.size != hidx + 1 {
        SinkLast(hidx);
      } else {
        DropHandle();
      }
      DropLast();
    }

    /** The handle at `hidx` leaves the queue and the last node sinks from there, its old slot unchanged. */
    method SinkLast(hidx: nat)
      requires Valid() && hidx < hvec.size - 1
      modifies hvec.buf, handles
      ensures Linked(hvec.size - 1, -1, null) && old(Idle()) + {old(hvec.buf[hidx].hnd)} <= Idle()
      ensures Contents() == Filled(old(Contents()), hidx)
    {
      ghost var g := Contents();
      var last := Vacate(hidx);
      assert Contents() == g && last == g[|g| - 1];
      FillHole(hidx, last);
    }

    method FillHole(hidx: nat, last: HeapNode)
      requires hvec.Valid() && hidx < hvec.size - 1 && last == hvec.buf[hvec.size - 1] && last.hnd != null
      requires last.hnd in handles && last.hnd !in Idle() && Linked(hvec.size - 1, hidx, last.hnd)
      modifies hvec.buf, handles
      ensures Linked(hvec.size - 1, -1, null) && old(Idle()) <= Idle()
      ensures Contents() == Sink(old(Contents())[hidx := last], hidx)
    {
      BubbleUp(hidx, hvec.size - 1, last.hnd, last.prio);
    }

    method DropHandle()
      requires Valid() && hvec.size > 0
      modifies handles
      ensures Linked(hvec.size - 1, -1, null) && old(Idle()) + {hvec.buf[hvec.size - 1].hnd} <= Idle()
      ensures Contents() == Filled(Contents(), hvec.size - 1)
    {
      var _ := Vacate(hvec.size - 1);
    }

    /** Gives up the last slot, which no handle points at any more. */
    method DropLast()
      requires hvec.Valid() && hvec.size > 0 && Linked(hvec.size - 1, -1, null)
      modifies hvec
      ensures hvec.Valid() && hvec.buf == old(hvec.buf) && hvec.moved == old(hvec.moved)
      ensures hvec.size == old(hvec.size) - 1 && Contents() == old(Contents())[..hvec.size]
      ensures Linked(hvec.size, -1, null) && Idle() == old(Idle())
    {
      hvec.PopBack();
      forall k | k in handles
        ensures PointsBack(k, hvec.size, -1)
      {
        assert old(PointsBack(k, hvec.size - 1, -1));
      }
    }

    method GetRoot() returns (h: Handle)
      requires Valid() && hvec.size > 0
      ensures h == Contents()[0].hnd && h in handles && h !in Idle()
      ensures Ordered(Contents(), hvec.size) ==>
        forall i :: 0 <= i < hvec.size ==> !Lt(Contents()[i].prio, Contents()[0].prio)
    {
      h := hvec.buf[0].hnd;
      if Ordered(Contents(), hvec.size) {
        forall i | 0 <= i < hvec.size
          ensures !Lt(Contents()[i].prio, Contents()[0].prio)
        {
          RootIsLeast(Contents(), i);
        }
      }
    }

    method PullRoot()
      requires Valid() && hvec.size > 0
      modifies hvec, hvec.buf, handles
      ensures Valid() && hvec.buf == old(hvec.buf) && hvec.moved == old(hvec.moved)
      ensures Contents() == Removed(old(Contents()), 0)
      ensures old(Idle()) + {old(hvec.buf[0].hnd)} <= Idle()
    {
      RemoveAt(0);
    }

    method Remove(h: Handle)
      requires Valid() && Queued(h)
      modifies hvec, hvec.buf, handles
      ensures Valid() && hvec.buf == old(hvec.buf) && hvec.moved == old(hvec.moved)
      ensures Contents() == Removed(old(Contents()), old(h.heapIndex))
      ensures old(Idle()) + {h} <= Idle()
    {
      RemoveAt(h.heapIndex);
    }

    /** A handle is queued exactly when one of the nodes is its own. */
    method IsQueued(h: Handle) returns (r: bool)
      requires Valid() && h in handles
      ensures r <==> exists i :: 0 <= i < hvec.size && Contents()[i].hnd == h
    {
      assert PointsBack(h, hvec.size, -1);
      r := h.heapIndex != -1;
      if r {
        assert Contents()[h.heapIndex] == hvec.buf[h.heapIndex];
      }
      assert forall i :: 0 <= i < hvec.size ==> Contents()[i] == hvec.buf[i];
    }

    /** Returns whether a decreased key ends at the root; never for an increased one. */
    method SetPriority(h: Handle, p: Prio) returns (root: bool)
      requires Valid() && Queued(h)
      modifies hvec.buf, handles
      ensures Valid() && old(Idle()) <= Idle()
      ensures Contents() == Reprioritised(old(Contents()), old(h.heapIndex), p)
      ensures root <==> !Lt(old(Contents())[old(h.heapIndex)].prio, p) && h.heapIndex == 0
    {
      var at, size := h.heapIndex, hvec.size;
      ghost var g := Contents();
      assert hvec.buf[at] == g[at];
      var increase := Lt(hvec.buf[at].prio, p);
      hvec.buf[at] := hvec.buf[at].(prio := p);
      assert Contents() == g[at := g[at].(prio := p)];
      assert Contents() == Contents()[at := Node(p, h)];
      forall k | k in handles && k != h
        ensures PointsBack(k, size, at)
      {
        assert old(PointsBack(k, hvec.size, -1));
      }
      if increase {
        BubbleUp(at, size, h, p);
        root := false;
      } else {
        root := BubbleDown(at, h, p);
      }
    }

    /** The handle at `hidx` leaves the queue; slot `hidx` becomes a hole for the last node. */
    method Vacate(hidx: nat) returns (last: HeapNode)
      requires Valid() && hidx < hvec.size
      modifies handles
      ensures last == hvec.buf[hvec.size - 1] && last.hnd != null && last.hnd in handles
      ensures if hidx == hvec.size - 1 then Linked(hvec.size - 1, -1, null)
              else Linked(hvec.size - 1, hidx, last.hnd) && last.hnd !in Idle()
      ensures old(Idle()) + {hvec.buf[hidx].hnd} <= Idle()
    {
      last := hvec.buf[hvec.size - 1];
      hvec.buf[hidx].hnd.heapIndex := -1;
      forall k | k in handles
        ensures hidx == hvec.size - 1 ==> PointsBack(k, hvec.size - 1, -1)
        ensures hidx < hvec.size - 1 && k != last.hnd ==> PointsBack(k, hvec.size - 1, hidx)
      {
        assert old(PointsBack(k, hvec.size, -1));
      }
    }
  }

  lemma {:induction false} DistinctFit(g: seq<HeapNode>, s: set<Handle>)
    requires forall i :: 0 <= i < |g| ==> g[i].hnd in s
    requires forall i, j :: 0 <= i < j < |g| ==> g[i].hnd != g[j].hnd
    ensures |g| <= |s|
  {
    if g != [] {
      var last := |g| - 1;
      DistinctFit(g[..last], s - {g[last].hnd});
    }
  }

  lemma SinkSettled<H>(g: seq<Node<H>>, pos: int)
    requires 0 <= pos < |g| && (pos * N + 1 < |g| ==> SinkEnd(g, pos) == pos)
    ensures Sink(g, pos) == g && SinkEnd(g, pos) == pos
  {
  }

  ghost predicate SameSink<H>(g: seq<Node<H>>, pos: int, g0: seq<Node<H>>, start: int) {
    && 0 <= pos < |g| && 0 <= start < |g0|
    && Sink(g, pos) == Sink(g0, start) && SinkEnd(g, pos) == SinkEnd(g0, start)
  }

  ghost predicate IsChosen<H>(g: seq<Node<H>>, pos: int, c: int) {
    0 <= pos && pos * N + 1 < |g| && c == Chosen(g, pos)
  }

  lemma SinkStays<H>(g: seq<Node<H>>, pos: int, c: int, x: Node<H>)
    requires IsChosen(g, pos, c) && !Lt(g[c].prio, x.prio)
    ensures SinkEnd(g[pos := x], pos) == pos
  {
    ChosenIgnoresSlot(g, pos, x);
  }

  lemma SinkMoves<H>(g: seq<Node<H>>, pos: int, c: int, x: Node<H>)
    requires IsChosen(g, pos, c) && Lt(g[c].prio, x.prio)
    ensures SameSink(g[pos := g[c]][c := x], c, g[pos := x], pos)
  {
    ChosenIgnoresSlot(g, pos, x);
    assert g[pos := g[c]][c := x] == Swap(g[pos := x], pos, c);
  }

  lemma ChosenBounds<H>(g: seq<Node<H>>, pos: int, c: int)
    requires IsChosen(g, pos, c)
    ensures pos < c < |g|
  {
  }

  lemma {:induction false} LeastChildIgnoresSlot<H>(g: seq<Node<H>>, from: int, upto: int, best: int, pos: int,
                                                    x: Node<H>)
    requires 0 <= pos < best < |g| && pos < from && upto <= |g|
    ensures LeastChild(g[pos := x], from, upto, best) == LeastChild(g, from, upto, best)
    decreases upto - from
  {
    if from < upto {
      LeastChildIgnoresSlot(g, from + 1, upto, if Lt(g[from].prio, g[best].prio) then from else best, pos, x);
    }
  }

  lemma ChosenIgnoresSlot<H>(g: seq<Node<H>>, pos: int, x: Node<H>)
    requires 0 <= pos && pos * N + 1 < |g|
    ensures Chosen(g[pos := x], pos) == Chosen(g, pos)
  {
    var l := pos * N + 1;
    LeastChildIgnoresSlot(g, l + 1, if l + N < |g| - 1 then l + N else |g| - 1, l, pos, x);
  }
}
