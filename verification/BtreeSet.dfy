/** The pre-allocating set itself: nodes are put by when handles are allocated, so that inserting an
    allocated handle cannot fail. */
module BtreeSets {
  import opened Wrappers
  import opened Sets
  import opened BtreeModel
  import opened BtreeOps
  import BtreeCount
  import Removal = BtreeRemoval

  /** Nodes that must exist for a number of allocated handles. */
  function Needed(count: nat): nat {
    (count + HALF - 1) / HALF
  }

  lemma {:induction false} InjectionCount(keys: set<int>, m: map<int, Handle>, s: set<Handle>)
    requires Injective(m) && keys == m.Keys && forall k :: k in keys ==> m[k] in s
    ensures |keys| <= |s|
    decreases |keys|
  {
    if keys != {} {
      var k := SomeElement(keys);
      InjectionCount(keys - {k}, m - {k}, s - {m[k]});
    }
  }

  /** With every value filed under an allocated handle and one handle to spare, the nodes suffice for
      one more value; and giving a handle back leaves enough for the values there are. */
  lemma RoomForOne(t: Tree, sh: Shape, m: map<int, Handle>, s: set<Handle>, h: Handle, septs: nat)
    requires WellFormed(t, sh, m) && h in s && Needed(|s|) <= septs
    requires forall k :: k in m ==> m[k] in s && m[k] != h
    ensures HALF * septs >= |m| + 1 && |t.mem| <= Needed(|s| - 1)
  {
    InjectionCount(m.Keys, m, s - {h});
    assert |m| == |m.Keys|;
    if t.mem != map[] {
      BtreeCount.NodesNeeded(t, sh, m);
    }
  }

  /** The counters of `alloc_slot` and `deallocate`. */
  datatype Counts = Counts(alloced: nat, septs: nat, needed: nat, next: nat)

  predicate CountsOk(c: Counts) {
    c.needed == Needed(c.alloced) && c.needed <= c.septs && c.next == 1 + HALF * c.needed
  }

  /** Tree nodes and reserve together are all the nodes there are, and enough for every handle. */
  ghost predicate SetOk(t: Tree, reserve: seq<Ptr>, c: Counts, sh: Shape, m: map<int, Handle>, hs: set<Handle>) {
    && WellFormed(t, sh, m)
    && ReserveOk(t, reserve)
    && |t.mem| + |reserve| == c.septs
    && c.alloced == |hs| && CountsOk(c)
    && (forall k :: k in m ==> m[k] in hs)
  }

  /** A new tree for other contents, with the same number of nodes in all. */
  lemma SetKept(t: Tree, reserve: seq<Ptr>, c: Counts, sh: Shape, m: map<int, Handle>, hs: set<Handle>,
                t': Tree, reserve': seq<Ptr>, sh': Shape, m': map<int, Handle>)
    requires SetOk(t, reserve, c, sh, m, hs) && WellFormed(t', sh', m') && ReserveOk(t', reserve')
    requires |t'.mem| + |reserve'| == |t.mem| + |reserve| && forall k :: k in m' ==> m'[k] in hs
    ensures SetOk(t', reserve', c, sh', m', hs)
  {
  }

  /** `alloc_slot`, but for the reserve: `grew` says that a node was requested and given. */
  method CountOneMore(counts: Counts, memory: bool) returns (ok: bool, c: Counts, grew: bool)
    requires CountsOk(counts)
    ensures ok <==> memory || Needed(counts.alloced + 1) <= counts.septs
    ensures if ok then
              CountsOk(c) && c.alloced == counts.alloced + 1 && c.septs == counts.septs + (if grew then 1 else 0)
            else !grew && c == counts
    ensures grew <==> memory && Needed(counts.alloced + 1) > counts.septs
  {
    ok, c, grew := true, counts.(alloced := counts.alloced + 1), false;
    if c.alloced == c.next {
      c := c.(needed := c.needed + 1);
      if c.needed > c.septs {
        if !memory {
          return false, counts, false;
        }
        c, grew := c.(septs := c.septs + 1), true;
      }
      c := c.(next := c.next + HALF);
    }
  }

  /** One more handle, with a node added to the reserve when the counters say so. */
  lemma Allocated(t: Tree, reserve: seq<Ptr>, c: Counts, sh: Shape, m: map<int, Handle>, hs: set<Handle>, h: Handle,
                  memory: Ptr, reserve': seq<Ptr>, c': Counts)
    requires SetOk(t, reserve, c, sh, m, hs) && h !in hs
    requires reserve' == reserve
          || (reserve' == [memory] + reserve && memory != 0 && memory !in t.mem && memory !in reserve)
    requires c'.alloced == c.alloced + 1 && CountsOk(c') && c'.septs - c.septs == |reserve'| - |reserve|
    ensures SetOk(t, reserve', c', sh, m, hs + {h})
  {
  }

  class BtreeSet {
    var tree: Tree
    var reserve: seq<Ptr>
    var counts: Counts
    ghost var shape: Shape
    ghost var contents: map<int, Handle>
    ghost var handles: set<Handle>
    ghost var everInserted: set<Handle>

    ghost predicate Valid()
      reads this
    {
      SetOk(tree, reserve, counts, shape, contents, handles) && everInserted == tree.owner.Keys
    }

    constructor ()
      ensures Valid() && contents == map[] && handles == {} && everInserted == {}
    {
      tree, reserve, counts := EMPTY, [], Counts(0, 0, 0, 1);
      shape, contents, handles, everInserted := map[], map[], {}, {};
    }

    /** `allocate`: may need one more node; `memory` is where the system would put it, 0 if it has none.
        On failure nothing changes. */
    method Allocate(h: Handle, memory: Ptr) returns (ok: bool)
      requires Valid() && h !in handles
      requires memory != 0 ==> memory !in tree.mem && memory !in reserve
      modifies `counts, `reserve, `handles
      ensures Valid()
      ensures ok <==> memory != 0 || Needed(old(counts).alloced + 1) <= old(counts).septs
      ensures !ok ==> handles == old(handles) && reserve == old(reserve) && counts == old(counts)
      ensures ok ==> handles == old(handles) + {h} && counts.alloced == old(counts).alloced + 1
      ensures ok ==> reserve == if Needed(old(counts).alloced + 1) > old(counts).septs then [memory] + old(reserve)
                                else old(reserve)
    {
      var c, grew;
      ok, c, grew := CountOneMore(counts, memory != 0);
      if ok {
        ghost var before := reserve;
        if grew {
          reserve := [memory] + reserve;
        }
        Allocated(tree, before, counts, shape, contents, handles, h, memory, reserve, c);
        counts := c;
        handles := handles + {h};
      }
    }

    /** `deallocate`: gives back one node when fewer are needed than before and more than one would be to spare; the
        reserve always has it. */
    method Deallocate(h: Handle)
      requires Valid() && h in handles && (forall k :: k in contents ==> contents[k] != h)
      modifies `counts, `reserve, `handles
      ensures Valid() && handles == old(handles) - {h} && counts.alloced == old(counts).alloced - 1
      ensures var needed, septs := Needed(old(counts).alloced - 1), old(counts).septs;
        if needed < Needed(old(counts).alloced) && needed < septs - 1 then
          counts.septs == septs - 1 && old(reserve) != [] && reserve == old(reserve)[1..]
        else counts.septs == septs && reserve == old(reserve)
    {
      RoomForOne(tree, shape, contents, handles, h, counts.septs);
      var c := counts.(alloced := counts.alloced - 1);
      if c.alloced < c.next - HALF {
        c := c.(next := c.next - HALF, needed := c.needed - 1);
        if c.needed < c.septs - 1 {
          reserve := reserve[1..];
          c := c.(septs := c.septs - 1);
        }
      }
      counts := c;
      handles := handles - {h};
    }

    /** `insert`: cannot fail; a value already present changes nothing. */
    method Insert(h: Handle, k: int) returns (inserted: bool)
      requires Valid() && h in handles && (forall x :: x in contents ==> contents[x] != h)
      modifies `tree, `reserve, `shape, `contents, `everInserted
      ensures Valid()
      ensures inserted <==> k !in old(contents)
      ensures everInserted == if inserted then old(everInserted) + {h} else old(everInserted)
      ensures contents == if inserted then old(contents)[k := h] else old(contents)
      ensures !inserted ==> tree == old(tree) && reserve == old(reserve)
    {
      RoomForOne(tree, shape, contents, handles, h, counts.septs);
      var t, free;
      ghost var sh;
      inserted, t, free, sh := InsertValue(tree, reserve, h, k, shape, contents);
      ghost var m := if inserted then contents[k := h] else contents;
      SetKept(tree, reserve, counts, shape, contents, handles, t, free, sh, m);
      everInserted := if inserted then everInserted + {h} else everInserted;
      tree, reserve, shape, contents := t, free, sh, m;
    }

    /** `remove`: exactly the handle's value goes; the handle still looks queued afterwards. */
    method Remove(h: Handle)
      requires Valid() && exists k :: k in contents && contents[k] == h
      modifies `tree, `reserve, `shape, `contents
      ensures Valid()
      ensures forall k :: k in old(contents) && old(contents)[k] == h ==> contents == old(contents) - {k}
      ensures h in everInserted && everInserted == old(everInserted)
    {
      ghost var k :| k in contents && contents[k] == h;
      HasHome(tree, contents, k);
      var t, free;
      ghost var sh;
      t, free, sh := Removal.Remove(tree, reserve, h, k, shape, contents);
      SetKept(tree, reserve, counts, shape, contents, handles, t, free, sh, contents - {k});
      tree, reserve, shape, contents := t, free, sh, contents - {k};
    }

    method Find(k: int) returns (r: Option<Handle>)
      requires Valid()
      ensures r == if k in contents then Some(contents[k]) else None
    {
      r := BtreeOps.Find(tree, k, shape, contents);
    }

    /** `is_queued` tests the handle's node link, which `remove` does not clear: exactly the handles that were
        ever inserted pass, those queued now among them. */
    method IsQueued(h: Handle) returns (queued: bool)
      requires Valid()
      ensures queued <==> h in everInserted
      ensures (exists k :: k in contents && contents[k] == h) ==> queued
    {
      queued := h in tree.owner;
      if k :| k in contents && contents[k] == h {
        HasHome(tree, contents, k);
      }
    }
  }

  /** The first lines of `insert`: an empty set gets a root from the reserve. */
  method NewRoot(t: Tree, reserve: seq<Ptr>, ghost m: map<int, Handle>)
    returns (t': Tree, reserve': seq<Ptr>, ghost sh': Shape)
    requires t.mem == map[] && Holds(t, m) && ReserveOk(t, reserve) && reserve != []
    ensures Shaped(t', sh') && Holds(t', m) && Sized(t', 0, t'.root) && t'.root in t'.mem
    ensures t'.mem[t'.root].keys == [] && sh'[t'.root].lvl == 0 && t'.owner == t.owner
    ensures ReserveOk(t', reserve') && |t'.mem| + |reserve'| == |t.mem| + |reserve|
  {
    EmptyHoldsNothing(t, m);
    var r := reserve[0];
    t' := Tree(map[r := Node([], [], [], 0)], r, r, t.owner);
    reserve' := reserve[1..];
    sh' := map[r := Place(0, Inf, Inf)];
    assert NodeOk(t', sh', r);
    assert t'.mem.Keys == {r};
  }

  /** `insert` into any tree. */
  method InsertValue(t: Tree, reserve: seq<Ptr>, h: Handle, k: int, ghost sh: Shape, ghost m: map<int, Handle>)
    returns (inserted: bool, t': Tree, reserve': seq<Ptr>, ghost sh': Shape)
    requires WellFormed(t, sh, m) && ReserveOk(t, reserve) && HALF * (|t.mem| + |reserve|) >= |m| + 1
    requires forall x :: x in m ==> m[x] != h
    ensures inserted <==> k !in m
    ensures !inserted ==> t' == t && reserve' == reserve
    ensures WellFormed(t', sh', if inserted then m[k := h] else m)
    ensures inserted ==> t'.owner.Keys == t.owner.Keys + {h}
    ensures ReserveOk(t', reserve') && |t'.mem| + |reserve'| == |t.mem| + |reserve|
  {
    if t.root == 0 {
      EmptyHoldsNothing(t, m);
      t', reserve', sh' := NewRoot(t, reserve, m);
      inserted, t', reserve', sh' := InsertBelowRoot(t', reserve', h, k, sh', m, t'.root);
    } else {
      inserted, t', reserve', sh' := InsertBelowRoot(t, reserve, h, k, sh, m, 0);
    }
  }
}
