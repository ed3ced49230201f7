/** The linked wait queue of the event loop: threads queue a stack-allocated node and sleep on it. */
module WaitQueues {

  ghost predicate Distinct<T>(s: seq<T>) {
    forall i, j :: 0 <= i < j < |s| ==> s[i] != s[j]
  }

  ghost predicate Apart<T>(a: seq<T>, b: seq<T>) {
    forall i, j :: 0 <= i < |a| && 0 <= j < |b| ==> a[i] != b[j]
  }

  /** A waiting thread's node; `signalled` records a condition-variable notification not yet consumed. */
  class WaitNode {
    var next: WaitNode?
    var signalled: bool

    constructor ()
      ensures next == null && !signalled
    {
      next, signalled := null, false;
    }
  }

  class WaitQueue {
    var head: WaitNode?
    var tail: WaitNode?
    ghost var nodes: seq<WaitNode>

    ghost predicate Valid()
      reads this, nodes
    {
      && Distinct(nodes)
      && (nodes == [] ==> head == null && tail == null)
      && (nodes != [] ==> head == nodes[0] && tail == nodes[|nodes| - 1] && tail.next == null)
      && (forall i :: 0 <= i < |nodes| - 1 ==> nodes[i].next == nodes[i + 1])
    }

    constructor ()
      ensures Valid() && nodes == []
    {
      head, tail, nodes := null, null, [];
    }

    /** Removes the head and returns the new head; the removed node keeps its stale link. */
    method Unqueue() returns (newHead: WaitNode?)
      requires Valid() && nodes != []
      modifies this
      ensures Valid() && nodes == old(nodes)[1..]
      ensures newHead == if nodes == [] then null else nodes[0]
    {
      head := head.next;
      if head == null {
        tail := null;
      }
      nodes := nodes[1..];
      newHead := head;
    }

    method GetSecond() returns (second: WaitNode?)
      requires Valid() && nodes != []
      ensures second == if |nodes| > 1 then nodes[1] else null
    {
      second := head.next;
    }

    method CheckHead(node: WaitNode) returns (isHead: bool)
      requires Valid()
      ensures isHead <==> nodes != [] && nodes[0] == node
    {
      isHead := head == node;
    }

    method IsEmpty() returns (empty: bool)
      requires Valid()
      ensures empty <==> nodes == []
    {
      empty := head == null;
    }

    /** Appends a node; only the node and the old tail are written. */
    method Queue(node: WaitNode)
      requires Valid() && node !in nodes
      modifies this, node`next, nodes`next
      ensures Valid() && nodes == old(nodes) + [node]
    {
      node.next := null;
      if tail != null {
        tail.next := node;
      } else {
        head := node;
      }
      tail := node;
      nodes := nodes + [node];
    }
  }
}
