/** `remove` on the node store, with its loops, against the finite map it implements. */
module BtreeRemoval {
  import opened BtreeModel
  import opened BtreeInsert
  import opened BtreeTakeOut
  import opened BtreeRepair
  import opened BtreeNodeOps
  import opened BtreeOps

  /** In order, but for one node that may hold one value too few. */
  ghost predicate Short(t: Tree, sh: Shape, m: map<int, Handle>, u: Ptr) {
    Shaped(t, sh) && Holds(t, m) && Sized(t, 0, u)
  }

  /** `release_sept` for the addresses of `old` that `t` no longer uses. */
  ghost predicate Released(t0: Tree, reserve0: seq<Ptr>, t: Tree, reserve: seq<Ptr>) {
    ReserveOk(t, reserve) && |t.mem| + |reserve| == |t0.mem| + |reserve0|
  }

  lemma ReleaseOne(t: Tree, reserve: seq<Ptr>, r: Ptr, t': Tree)
    requires ReserveOk(t, reserve) && r in t.mem && r != 0 && t'.mem.Keys == t.mem.Keys - {r}
    ensures Released(t, reserve, t', [r] + reserve)
  {
    assert |t'.mem.Keys| == |t.mem.Keys| - 1;
    assert |t'.mem| == |t'.mem.Keys| && |t.mem| == |t.mem.Keys|;
  }

  // ---------- Taking the value out ----------

  /** Goes down the leftmost children from the child right of the i-th value of `p`. */
  method Successor(t: Tree, p: Ptr, i: int, ghost sh: Shape, ghost m: map<int, Handle>) returns (leaf: Ptr)
    requires WellFormed(t, sh, m) && p in t.mem && sh[p].lvl > 0 && 0 <= i < |t.mem[p].keys|
    ensures CanPromote(t, sh, m, p, i, leaf)
  {
    assert NodeOk(t, sh, p);
    assert KidAt(t, sh, p, i + 1);
    leaf := t.mem[p].kids[i + 1];
    assert NodeOk(t, sh, leaf);
    while t.mem[leaf].kids != []
      invariant leaf in t.mem && NodeOk(t, sh, leaf) && sh[leaf].lvl < sh[p].lvl
      invariant sh[leaf].lo == Key(t.mem[p].keys[i])
      invariant forall x :: Within(sh[leaf], x) ==> Within(Slot(t.mem[p].keys, sh[p], i + 1), x)
      decreases sh[leaf].lvl
    {
      assert KidAt(t, sh, leaf, 0);
      forall x | Within(sh[t.mem[leaf].kids[0]], x)
        ensures Within(sh[leaf], x)
      {
        SlotWithin(t.mem[leaf], sh[leaf], 0, x);
      }
      leaf := t.mem[leaf].kids[0];
      assert NodeOk(t, sh, leaf);
    }
    assert Within(sh[leaf], t.mem[leaf].keys[0]);
  }

  /** The first half of `remove`: the value leaves the tree, and `u` is the leaf that lost a slot. */
  method TakeOut(t: Tree, h: Handle, ghost k: int, ghost sh: Shape, ghost m: map<int, Handle>)
    returns (t': Tree, u: Ptr, ghost sh': Shape)
    requires WellFormed(t, sh, m) && k in m && m[k] == h
    ensures Short(t', sh', m - {k}, u) && u in t'.mem && t'.mem.Keys == t.mem.Keys
    ensures t'.mem[u].kids == [] && t'.root == t.root && t'.owner.Keys == t.owner.Keys
  {
    HasHome(t, m, k);
    var p := t.owner[h];
    assert NodeOk(t, sh, p);
    var at := HandleIndex(t, sh, m, p, k);
    var i := IndexOf(t.mem[p].hs, h);
    if t.mem[p].kids == [] {
      LeafDropShaped(t, sh, p, i);
      LeafDropHolds(t, sh, m, p, i);
      t', u, sh' := LeafDrop(t, p, i), p, sh;
    } else {
      var leaf := Successor(t, p, i, sh, m);
      PromoteShaped(t, sh, m, p, i, leaf);
      PromoteHolds(t, sh, m, p, i, leaf);
      assert NodeOk(t, sh, leaf) && ValueAt(t, m, leaf, 0);
      t', u, sh' := Promote(t, p, i, leaf), leaf, PromoteShape(sh, t.mem[p].keys[i], t.mem[leaf].keys[0]);
    }
  }

  /** The handle of `k` sits in its node at the same index as `k`, and nowhere else. */
  lemma HandleIndex(t: Tree, sh: Shape, m: map<int, Handle>, p: Ptr, k: int) returns (i: int)
    requires Shaped(t, sh) && Holds(t, m) && k in m && Located(t, m, k) && p == t.owner[m[k]]
    ensures |t.mem[p].keys| == |t.mem[p].hs| && 0 <= i < |t.mem[p].hs|
    ensures t.mem[p].keys[i] == k && t.mem[p].hs[i] == m[k]
    ensures forall j :: 0 <= j < |t.mem[p].hs| && t.mem[p].hs[j] == m[k] ==> j == i
  {
    i :| 0 <= i < |t.mem[p].keys| && t.mem[p].keys[i] == k;
    assert ValueAt(t, m, p, i);
    forall j | 0 <= j < |t.mem[p].hs| && t.mem[p].hs[j] == m[k]
      ensures j == i
    {
      HandleOnce(t, sh, m, p, i, p, j);
    }
  }

  // ---------- Merging and borrowing ----------

  lemma MergeKeeps(t: Tree, sh: Shape, m: map<int, Handle>, p: Ptr, i: int, l: Ptr, r: Ptr, u: Ptr)
    requires Short(t, sh, m, u) && Neighbours(t, sh, p, i, l, r) && (u == l || u == r)
    requires |JoinKeys(t, p, i, l, r)| <= N
    ensures Short(Merge(t, p, i, l, r), MergeShape(sh, l, r), m, p)
    ensures Merge(t, p, i, l, r).mem.Keys == t.mem.Keys - {r} && Merge(t, p, i, l, r).root == t.root
    ensures p in Merge(t, p, i, l, r).mem && sh[p] == MergeShape(sh, l, r)[p] && sh[p].lvl > sh[u].lvl
  {
    var t', sh' := Merge(t, p, i, l, r), MergeShape(sh, l, r);
    MergeIsDone(t, sh, p, i, l, r);
    MergeShaped(t, sh, p, i, l, r, t', sh');
    MergeSized(t, sh, p, i, l, r, t', sh', u);
    MergeHolds(t, sh, m, p, i, l, r, t', sh');
  }

  lemma RecutKeeps(t: Tree, sh: Shape, m: map<int, Handle>, p: Ptr, i: int, l: Ptr, r: Ptr, c: int, u: Ptr)
    requires Short(t, sh, m, u) && Neighbours(t, sh, p, i, l, r) && (u == l || u == r)
    requires HALF <= c <= N && HALF <= |JoinKeys(t, p, i, l, r)| - 1 - c <= N
    ensures WellFormed(Recut(t, p, i, l, r, c), RecutShape(t, sh, p, i, l, r, c), m)
    ensures Recut(t, p, i, l, r, c).mem.Keys == t.mem.Keys && Recut(t, p, i, l, r, c).owner.Keys == t.owner.Keys
  {
    var t', sh' := Recut(t, p, i, l, r, c), RecutShape(t, sh, p, i, l, r, c);
    RecutIsDone(t, sh, p, i, l, r, c);
    RecutShaped(t, sh, p, i, l, r, c, t', sh');
    RecutSized(t, sh, p, i, l, r, c, t', sh', u);
    RecutOwnersDone(t, sh, m, p, i, l, r, c);
    RecutHolds(t, sh, m, p, i, l, r, c, t', sh');
    var _, _ := JoinValueAt(t, sh, m, p, i, l, r, c);
  }

  lemma CollapseKeeps(t: Tree, sh: Shape, m: map<int, Handle>)
    requires Short(t, sh, m, t.root) && t.root in t.mem && t.mem[t.root].keys == [] && sh[t.root].lvl > 0
    ensures |t.mem[t.root].kids| == 1 && t.mem[t.root].kids[0] in t.mem && t.mem[t.root].kids[0] != t.root
    ensures WellFormed(Collapse(t), sh - {t.root}, m) && Collapse(t).mem.Keys == t.mem.Keys - {t.root}
  {
    CollapseShaped(t, sh);
    CollapseHolds(t, m);
    KidLevel(t, sh, t.root, t.mem[t.root].kids[0]);
  }

  /** A node short of a value, seen with a neighbour: both together have enough to share or little
      enough to merge. */
  lemma ShortPair(t: Tree, sh: Shape, m: map<int, Handle>, p: Ptr, i: int, l: Ptr, r: Ptr, u: Ptr)
    requires Short(t, sh, m, u) && Neighbours(t, sh, p, i, l, r) && (u == l || u == r) && |t.mem[u].keys| < HALF
    ensures |t.mem[u].keys| == HALF - 1 && HALF <= |t.mem[if u == l then r else l].keys| <= N
  {
  }

  /** `merge`: one node is released, and a second when the parent was a root with one value. */
  method MergeNodes(t: Tree, reserve: seq<Ptr>, p: Ptr, i: int, l: Ptr, r: Ptr,
                    ghost sh: Shape, ghost m: map<int, Handle>, ghost u: Ptr)
    returns (t': Tree, reserve': seq<Ptr>, newRoot: bool, ghost sh': Shape)
    requires Short(t, sh, m, u) && Neighbours(t, sh, p, i, l, r) && (u == l || u == r)
    requires |JoinKeys(t, p, i, l, r)| <= N && ReserveOk(t, reserve)
    ensures Released(t, reserve, t', reserve')
    ensures newRoot ==> WellFormed(t', sh', m)
    ensures !newRoot ==> && Short(t', sh', m, p) && p in t'.mem && t'.mem[p].keys != []
                         && t'.root == t.root && sh'[t.root] == sh[t.root] && sh'[p] == sh[p]
    ensures sh[p].lvl > sh[u].lvl && t'.owner.Keys == t.owner.Keys
  {
    MergeKeeps(t, sh, m, p, i, l, r, u);
    t', sh' := Merge(t, p, i, l, r), MergeShape(sh, l, r);
    reserve' := [r] + reserve;
    ReleaseOne(t, reserve, r, t');
    newRoot := t'.mem[p].keys == [];
    if newRoot {
      assert p == t'.root;
      CollapseKeeps(t', sh', m);
      ghost var merged, mergedReserve := t', reserve';
      reserve' := [p] + reserve';
      t', sh' := Collapse(t'), sh' - {p};
      ReleaseOne(merged, mergedReserve, p, t');
    } else {
      assert NodeOk(t, sh, t.root);
    }
  }

  lemma OnlyNode(t: Tree, sh: Shape, m: map<int, Handle>, u: Ptr)
    requires Shaped(t, sh) && Holds(t, m) && u == t.root && u in t.mem && t.mem[u].keys == [] && t.mem[u].kids == []
    ensures t.mem.Keys == {u} && m == map[]
  {
    assert NodeOk(t, sh, u);
    forall q | q in t.mem
      ensures q == u
    {
      OnlyLeaf(t, sh, q);
    }
    forall k | k in m
      ensures false
    {
      HasHome(t, m, k);
    }
  }

  /** The end of `repop_node` at the root: an empty root goes, and with it the tree. */
  method RepairRoot(t: Tree, reserve: seq<Ptr>, u: Ptr, ghost sh: Shape, ghost m: map<int, Handle>)
    returns (t': Tree, reserve': seq<Ptr>, ghost sh': Shape)
    requires Short(t, sh, m, u) && ReserveOk(t, reserve) && u == t.root && u in t.mem
    requires t.mem[u].keys == [] ==> t.mem[u].kids == []
    ensures WellFormed(t', sh', m) && Released(t, reserve, t', reserve') && t'.owner.Keys == t.owner.Keys
  {
    if t.mem[u].keys == [] {
      OnlyNode(t, sh, m, u);
      t', sh' := Tree(map[], 0, 0, t.owner), map[];
      reserve' := [u] + reserve;
      ReleaseOne(t, reserve, u, t');
    } else {
      t', reserve', sh' := t, reserve, sh;
    }
  }

  /** The neighbours `repop_node` chooses: the right one for a first child, else the left one. */
  method ChooseSibling(t: Tree, u: Ptr, ghost sh: Shape, ghost m: map<int, Handle>) returns (i: int, l: Ptr, r: Ptr)
    requires Short(t, sh, m, u) && u in t.mem && u != t.root
    ensures Neighbours(t, sh, t.mem[u].parent, i, l, r) && (u == l || u == r)
  {
    ghost var at := KidIndex(t, sh, u);
    var p := t.mem[u].parent;
    assert NodeOk(t, sh, p);
    assert t.mem[p].kids[at] == u;
    if t.mem[p].kids[0] == u {
      i, l, r := 0, u, t.mem[p].kids[1];
    } else {
      var c := IndexOf(t.mem[p].kids, u);
      i, l, r := c - 1, t.mem[p].kids[c - 1], u;
    }
    AreNeighbours(t, sh, p, i);
  }

  /** The borrowing branches of `repop_node`: one value moves over through the parent. */
  method Borrow(t: Tree, p: Ptr, i: int, l: Ptr, r: Ptr, u: Ptr, ghost sh: Shape, ghost m: map<int, Handle>)
    returns (t': Tree, ghost sh': Shape)
    requires Short(t, sh, m, u) && Neighbours(t, sh, p, i, l, r) && (u == l || u == r)
    requires |t.mem[u].keys| == HALF - 1 && |t.mem[l].keys| + |t.mem[r].keys| + 1 > N
    ensures WellFormed(t', sh', m) && t'.mem.Keys == t.mem.Keys && |t'.mem| == |t.mem|
    ensures t'.owner.Keys == t.owner.Keys
  {
    var c := if u == l then |t.mem[l].keys| + 1 else |t.mem[l].keys| - 1;
    RecutKeeps(t, sh, m, p, i, l, r, c, u);
    t', sh' := Recut(t, p, i, l, r, c), RecutShape(t, sh, p, i, l, r, c);
    assert |t'.mem| == |t'.mem.Keys| == |t.mem.Keys| == |t.mem|;
  }

  lemma LevelBelowRoot(t: Tree, sh: Shape, p: Ptr)
    requires Shaped(t, sh) && p in t.mem
    ensures sh[p].lvl <= sh[t.root].lvl && (t.mem[p].parent == 0 <==> p == t.root)
  {
    assert NodeOk(t, sh, p);
  }

  lemma EnoughIsWellFormed(t: Tree, sh: Shape, m: map<int, Handle>, p: Ptr)
    requires Short(t, sh, m, p) && p in t.mem && |t.mem[p].keys| >= HALF
    ensures WellFormed(t, sh, m)
  {
  }

  /** `repop_node`: merges up the tree until a node can borrow, has enough, or is the root. */
  method Repair(t: Tree, reserve: seq<Ptr>, start: Ptr, ghost sh: Shape, ghost m: map<int, Handle>)
    returns (t': Tree, reserve': seq<Ptr>, ghost sh': Shape)
    requires Short(t, sh, m, start) && ReserveOk(t, reserve) && start in t.mem && |t.mem[start].keys| < HALF
    requires t.mem[start].kids == []
    ensures WellFormed(t', sh', m) && Released(t, reserve, t', reserve') && t'.owner.Keys == t.owner.Keys
  {
    LevelBelowRoot(t, sh, start);
    var u := start;
    t', reserve', sh' := t, reserve, sh;
    while true
      invariant Short(t', sh', m, u) && Released(t, reserve, t', reserve') && t'.owner.Keys == t.owner.Keys
      invariant u in t'.mem && |t'.mem[u].keys| < HALF && (t'.mem[u].keys == [] ==> t'.mem[u].kids == [])
      invariant t'.root == t.root && sh'[t.root] == sh[t.root] && sh'[u].lvl <= sh[t.root].lvl
      decreases sh[t.root].lvl - sh'[u].lvl
    {
      LevelBelowRoot(t', sh', u);
      var p := t'.mem[u].parent;
      if p == 0 {
        t', reserve', sh' := RepairRoot(t', reserve', u, sh', m);
        return;
      }
      var i, l, r := ChooseSibling(t', u, sh', m);
      ShortPair(t', sh', m, p, i, l, r, u);
      if |t'.mem[l].keys| + |t'.mem[r].keys| + 1 <= N {
        var newRoot;
        t', reserve', newRoot, sh' := MergeNodes(t', reserve', p, i, l, r, sh', m, u);
        if newRoot {
          return;
        }
        LevelBelowRoot(t', sh', p);
        if |t'.mem[p].keys| >= HALF {
          EnoughIsWellFormed(t', sh', m, p);
          return;
        }
        u := p;
      } else {
        t', sh' := Borrow(t', p, i, l, r, u, sh', m);
        return;
      }
    }
  }

  /** `remove`: the handle's value leaves the set and nothing else does. */
  method Remove(t: Tree, reserve: seq<Ptr>, h: Handle, ghost k: int, ghost sh: Shape, ghost m: map<int, Handle>)
    returns (t': Tree, reserve': seq<Ptr>, ghost sh': Shape)
    requires WellFormed(t, sh, m) && ReserveOk(t, reserve) && k in m && m[k] == h
    ensures WellFormed(t', sh', m - {k}) && Released(t, reserve, t', reserve')
    ensures t'.owner.Keys == t.owner.Keys
  {
    var u;
    t', u, sh' := TakeOut(t, h, k, sh, m);
    reserve' := reserve;
    assert |t'.mem| == |t'.mem.Keys| == |t.mem.Keys| == |t.mem|;
    if |t'.mem[u].keys| < HALF {
      t', reserve', sh' := Repair(t', reserve, u, sh', m - {k});
    }
  }
}
