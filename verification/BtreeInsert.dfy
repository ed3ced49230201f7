/** Insertion into the B-tree, seen logically: the value goes into its leaf, which may then hold one
    value too many; splitting passes the excess to the parent, and at the root adds a level. */
module BtreeInsert {
  import opened BtreeModel

  function Insert<T>(s: seq<T>, j: int, x: T): seq<T>
    requires 0 <= j <= |s|
  {
    s[..j] + [x] + s[j..]
  }

  /** The number of keys below `k`: where `k` belongs. */
  ghost predicate IsPosition(keys: seq<int>, j: int, k: int) {
    && 0 <= j <= |keys|
    && (forall i :: 0 <= i < j ==> keys[i] < k)
    && (forall i :: j <= i < |keys| ==> k < keys[i])
  }

  // ---------- The leaf ----------

  function LeafInsert(t: Tree, p: Ptr, j: int, k: int, h: Handle): Tree
    requires p in t.mem && 0 <= j <= |t.mem[p].keys| == |t.mem[p].hs|
  {
    var n := t.mem[p];
    t.(mem := t.mem[p := n.(keys := Insert(n.keys, j, k), hs := Insert(n.hs, j, h))],
       owner := t.owner[h := p])
  }

  lemma LeafInsertShaped(t: Tree, sh: Shape, p: Ptr, j: int, k: int, h: Handle)
    requires Shaped(t, sh) && p in t.mem && sh[p].lvl == 0 && Within(sh[p], k)
    requires |t.mem[p].keys| == |t.mem[p].hs| && IsPosition(t.mem[p].keys, j, k)
    ensures Shaped(LeafInsert(t, p, j, k, h), sh)
  {
    var t' := LeafInsert(t, p, j, k, h);
    assert NodeOk(t, sh, p);
    forall q | q in t'.mem
      ensures NodeOk(t', sh, q)
    {
      assert NodeOk(t, sh, q);
      if q != p {
        forall i | 0 <= i < |t.mem[q].kids|
          ensures KidKept(t, sh, t', sh, q, t.mem[q].kids[i])
        {
          assert KidAt(t, sh, q, i);
        }
        SameNode(t, sh, t', sh, q);
      }
    }
  }

  lemma LeafInsertHolds(t: Tree, m: map<int, Handle>, p: Ptr, j: int, k: int, h: Handle)
    requires Holds(t, m) && p in t.mem && 0 <= j <= |t.mem[p].keys| == |t.mem[p].hs|
    requires k !in m && (forall x :: x in m ==> m[x] != h)
    ensures Holds(LeafInsert(t, p, j, k, h), m[k := h])
  {
    var t', m' := LeafInsert(t, p, j, k, h), m[k := h];
    forall q, i | q in t'.mem && 0 <= i < |t'.mem[q].keys|
      ensures ValueAt(t', m', q, i)
    {
      if q != p {
        assert ValueAt(t, m, q, i);
      } else if i != j {
        assert ValueAt(t, m, q, if i < j then i else i - 1);
      }
    }
    forall x | x in m'
      ensures Located(t', m', x)
    {
      if x == k {
        assert t'.mem[p].keys[j] == k;
      } else {
        assert Located(t, m, x);
        if t.owner[m[x]] == p {
          var i :| 0 <= i < |t.mem[p].keys| && t.mem[p].keys[i] == x;
          assert t'.mem[p].keys[if i < j then i else i + 1] == x;
        }
      }
    }
  }

  // ---------- Splitting an overfull node ----------

  /** Makes `p` the parent of the given children. */
  function Reparent(mem: map<Ptr, Node>, kids: seq<Ptr>, p: Ptr): map<Ptr, Node> {
    map q | q in mem :: if q in kids then mem[q].(parent := p) else mem[q]
  }

  function Reown(owner: map<Handle, Ptr>, hs: seq<Handle>, p: Ptr): map<Handle, Ptr> {
    map h | h in owner :: if h in hs then p else owner[h]
  }

  function LeftHalf(n: Node): Node
    requires |n.keys| == |n.hs| == N + 1 && (n.kids == [] || |n.kids| == N + 2)
  {
    Node(n.keys[..HALF], n.hs[..HALF], if n.kids == [] then [] else n.kids[..HALF + 1], n.parent)
  }

  function RightHalf(n: Node): Node
    requires |n.keys| == |n.hs| == N + 1 && (n.kids == [] || |n.kids| == N + 2)
  {
    Node(n.keys[HALF + 1..], n.hs[HALF + 1..], if n.kids == [] then [] else n.kids[HALF + 1..], n.parent)
  }

  /** The two halves in place, before the middle value reaches the parent. */
  function Halved(t: Tree, o: Ptr, s: Ptr): Tree
    requires o in t.mem && s !in t.mem
    requires |t.mem[o].keys| == |t.mem[o].hs| == N + 1
    requires t.mem[o].kids == [] || |t.mem[o].kids| == N + 2
  {
    var n := t.mem[o];
    var r := RightHalf(n);
    t.(mem := Reparent(t.mem[o := LeftHalf(n)], r.kids, s)[s := r],
       owner := Reown(t.owner, r.hs, s))
  }

  /** Gives node `p` the value and the new right child after child `j`. */
  function Adopt(t: Tree, p: Ptr, j: int, k: int, h: Handle, s: Ptr): Tree
    requires p in t.mem && 0 <= j < |t.mem[p].kids| == |t.mem[p].keys| + 1 && |t.mem[p].keys| == |t.mem[p].hs|
  {
    var n := t.mem[p];
    t.(mem := t.mem[p := Node(Insert(n.keys, j, k), Insert(n.hs, j, h), Insert(n.kids, j + 1, s), n.parent)],
       owner := t.owner[h := p])
  }

  /** Splits `o` under its parent, whose j-th child it is. */
  function Split(t: Tree, o: Ptr, s: Ptr, j: int): Tree
    requires o in t.mem && s !in t.mem
    requires |t.mem[o].keys| == |t.mem[o].hs| == N + 1
    requires t.mem[o].kids == [] || |t.mem[o].kids| == N + 2
    requires var p := t.mem[o].parent;
      p in t.mem && p != o && 0 <= j < |t.mem[p].kids| == |t.mem[p].keys| + 1 && |t.mem[p].keys| == |t.mem[p].hs|
  {
    Adopt(Halved(t, o, s), t.mem[o].parent, j, t.mem[o].keys[HALF], t.mem[o].hs[HALF], s)
  }

  function SplitShape(t: Tree, sh: Shape, o: Ptr, s: Ptr): Shape
    requires o in t.mem && o in sh && |t.mem[o].keys| == N + 1
  {
    var up := Key(t.mem[o].keys[HALF]);
    sh[o := sh[o].(hi := up)][s := sh[o].(lo := up)]
  }

  /** `o` is overfull, is the j-th child of `p`, and `s` is a new address. */
  ghost predicate CanSplit(t: Tree, sh: Shape, o: Ptr, s: Ptr, p: Ptr, j: int) {
    && Shaped(t, sh) && o in t.mem && o != t.root && s !in t.mem && s != 0
    && |t.mem[o].keys| == N + 1 && |t.mem[o].hs| == N + 1
    && (t.mem[o].kids == [] || |t.mem[o].kids| == N + 2)
    && p != o && p == t.mem[o].parent && p in t.mem && 0 <= j < |t.mem[p].kids| && t.mem[p].kids[j] == o
    && |t.mem[p].kids| == |t.mem[p].keys| + 1 && |t.mem[p].keys| == |t.mem[p].hs|
    && sh[p].lvl == sh[o].lvl + 1 && sh[o] == Slot(t.mem[p].keys, sh[p], j)
  }

  lemma CanSplitNonRoot(t: Tree, sh: Shape, o: Ptr, s: Ptr) returns (j: int)
    requires Shaped(t, sh) && o in t.mem && o != t.root && s !in t.mem && s != 0
    requires |t.mem[o].keys| == N + 1
    ensures CanSplit(t, sh, o, s, t.mem[o].parent, j)
  {
    assert NodeOk(t, sh, o);
    j := KidIndex(t, sh, o);
    assert NodeOk(t, sh, t.mem[o].parent);
  }

  /** What a split leaves in memory, and the new places. */
  ghost predicate SplitDone(t: Tree, sh: Shape, o: Ptr, s: Ptr, p: Ptr, j: int, t': Tree, sh': Shape)
    requires CanSplit(t, sh, o, s, p, j)
  {
    var n, m := t.mem[o], t.mem[p];
    && t'.root == t.root && t'.left == t.left
    && t'.mem.Keys == t.mem.Keys + {s}
    && t'.mem[o] == LeftHalf(n) && t'.mem[s] == RightHalf(n)
    && t'.mem[p] == Node(Insert(m.keys, j, n.keys[HALF]), Insert(m.hs, j, n.hs[HALF]),
                         Insert(m.kids, j + 1, s), m.parent)
    && (forall q :: q in t.mem && q != o && q != p ==>
          && t'.mem[q] == t.mem[q].(parent := t'.mem[q].parent)
          && (t.mem[q].parent != o ==> t'.mem[q].parent == t.mem[q].parent))
    && (forall i :: 0 <= i < |n.kids| ==>
          n.kids[i] in t'.mem && t'.mem[n.kids[i]].parent == if i <= HALF then o else s)
    && sh' == sh[o := sh[o].(hi := Key(n.keys[HALF]))][s := sh[o].(lo := Key(n.keys[HALF]))]
  }

  lemma SplitIsDone(t: Tree, sh: Shape, o: Ptr, s: Ptr, p: Ptr, j: int)
    requires CanSplit(t, sh, o, s, p, j)
    ensures SplitDone(t, sh, o, s, p, j, Split(t, o, s, j), SplitShape(t, sh, o, s))
  {
    var n, r, t' := t.mem[o], RightHalf(t.mem[o]), Split(t, o, s, j);
    forall q | q in r.kids
      ensures q in t.mem && q != o && q != p && t.mem[q].parent == o
    {
      KidLevel(t, sh, o, q);
    }
    forall i | 0 <= i < |n.kids|
      ensures n.kids[i] in t'.mem && t'.mem[n.kids[i]].parent == if i <= HALF then o else s
    {
      KidLevel(t, sh, o, n.kids[i]);
      RightKids(t, sh, o, i);
    }
  }

  lemma RightKids(t: Tree, sh: Shape, o: Ptr, i: int)
    requires Shaped(t, sh) && o in t.mem && |t.mem[o].keys| == |t.mem[o].hs| == N + 1
    requires |t.mem[o].kids| == N + 2 && 0 <= i < N + 2
    ensures t.mem[o].kids[i] in RightHalf(t.mem[o]).kids <==> i > HALF
  {
    var r := RightHalf(t.mem[o]);
    if i > HALF {
      assert r.kids[i - HALF - 1] == t.mem[o].kids[i];
    } else if t.mem[o].kids[i] in r.kids {
      var k :| 0 <= k < |r.kids| && r.kids[k] == t.mem[o].kids[i];
      KidOnce(t, sh, o, i, k + HALF + 1);
    }
  }

  /** The left half, at the old address. */
  lemma SplitLeftOk(t: Tree, sh: Shape, o: Ptr, s: Ptr, p: Ptr, j: int, t': Tree, sh': Shape)
    requires CanSplit(t, sh, o, s, p, j) && SplitDone(t, sh, o, s, p, j, t', sh')
    ensures NodeOk(t', sh', o)
  {
    assert NodeOk(t, sh, o);
    assert t'.mem[p].kids[j] == o;
    forall i | 0 <= i < |t'.mem[o].kids|
      ensures KidAt(t', sh', o, i)
    {
      SplitKid(t, sh, o, s, p, j, t', sh', i);
    }
  }

  /** A child of a split node keeps its place and is handed to the half that has it. */
  lemma SplitKid(t: Tree, sh: Shape, o: Ptr, s: Ptr, p: Ptr, j: int, t': Tree, sh': Shape, i: int)
    requires CanSplit(t, sh, o, s, p, j) && SplitDone(t, sh, o, s, p, j, t', sh')
    requires 0 <= i < |t.mem[o].kids|
    ensures var q := t.mem[o].kids[i];
      && q in t'.mem && q in sh' && sh[o].lvl > 0 && sh'[q] == Slot(t.mem[o].keys, sh[o], i)
      && t'.mem[q].parent == if i <= HALF then o else s
  {
    assert NodeOk(t, sh, o) && KidAt(t, sh, o, i);
    KidLevel(t, sh, o, t.mem[o].kids[i]);
  }

  /** The right half, at the new address. */
  lemma SplitRightOk(t: Tree, sh: Shape, o: Ptr, s: Ptr, p: Ptr, j: int, t': Tree, sh': Shape)
    requires CanSplit(t, sh, o, s, p, j) && SplitDone(t, sh, o, s, p, j, t', sh')
    ensures NodeOk(t', sh', s)
  {
    assert NodeOk(t, sh, o);
    assert t'.mem[p].kids[j + 1] == s;
    forall i | 0 <= i < |t'.mem[s].kids|
      ensures KidAt(t', sh', s, i)
    {
      SplitKid(t, sh, o, s, p, j, t', sh', i + HALF + 1);
    }
  }

  /** The parent, with the middle value and one more child. */
  lemma SplitParentOk(t: Tree, sh: Shape, o: Ptr, s: Ptr, p: Ptr, j: int, t': Tree, sh': Shape)
    requires CanSplit(t, sh, o, s, p, j) && SplitDone(t, sh, o, s, p, j, t', sh')
    ensures KeysOk(t'.mem[p], sh'[p]) && KidsOk(t', sh', p)
  {
    var up := t.mem[o].keys[HALF];
    assert NodeOk(t, sh, o) && NodeOk(t, sh, p);
    assert Within(sh[o], up);
    SlotWithin(t.mem[p], sh[p], j, up);
    InsertSorted(t.mem[p].keys, sh[p], j, up);
    forall i | 0 <= i < |t'.mem[p].kids|
      ensures KidAt(t', sh', p, i)
    {
      SplitSibling(t, sh, o, s, p, j, t', sh', i);
    }
  }

  lemma InsertSorted(keys: seq<int>, pl: Place, j: int, up: int)
    requires Sorted(keys) && pl.lvl > 0 && 0 <= j <= |keys| && Within(Slot(keys, pl, j), up)
    ensures Sorted(Insert(keys, j, up)) && IsPosition(keys, j, up)
  {
  }

  lemma InsertSlot(keys: seq<int>, pl: Place, j: int, up: int, i: int)
    requires pl.lvl > 0 && 0 <= j <= |keys| && 0 <= i <= |keys| + 1
    ensures var slot := Slot(Insert(keys, j, up), pl, i);
      if i < j then slot == Slot(keys, pl, i)
      else if i == j then slot == Slot(keys, pl, j).(hi := Key(up))
      else if i == j + 1 then slot == Slot(keys, pl, j).(lo := Key(up))
      else slot == Slot(keys, pl, i - 1)
  {
  }

  lemma SplitSibling(t: Tree, sh: Shape, o: Ptr, s: Ptr, p: Ptr, j: int, t': Tree, sh': Shape, i: int)
    requires CanSplit(t, sh, o, s, p, j) && SplitDone(t, sh, o, s, p, j, t', sh')
    requires 0 <= i < |t'.mem[p].kids| && sh'[p].lvl > 0 && |t'.mem[p].kids| == |t'.mem[p].keys| + 1
    ensures KidAt(t', sh', p, i)
  {
    InsertSlot(t.mem[p].keys, sh[p], j, t.mem[o].keys[HALF], i);
    if i != j && i != j + 1 {
      var was := if i < j then i else i - 1;
      assert NodeOk(t, sh, p) && KidAt(t, sh, p, was);
      if t.mem[p].kids[was] == o {
        KidOnce(t, sh, p, was, j);
      }
      KidLevel(t, sh, p, t.mem[p].kids[was]);
      assert t'.mem[p].kids[i] == t.mem[p].kids[was];
    }
  }

  /** Every other node keeps its values and children. */
  lemma SplitOtherOk(t: Tree, sh: Shape, o: Ptr, s: Ptr, p: Ptr, j: int, t': Tree, sh': Shape, q: Ptr)
    requires CanSplit(t, sh, o, s, p, j) && SplitDone(t, sh, o, s, p, j, t', sh')
    requires q in t.mem && q != o && q != p
    ensures KeysOk(t'.mem[q], sh'[q]) && KidsOk(t', sh', q)
  {
    assert NodeOk(t, sh, q);
    forall i | 0 <= i < |t.mem[q].kids|
      ensures KidKept(t, sh, t', sh', q, t.mem[q].kids[i])
    {
      KidLevel(t, sh, q, t.mem[q].kids[i]);
    }
    SameNode(t, sh, t', sh', q);
  }

  lemma SplitUpOk(t: Tree, sh: Shape, o: Ptr, s: Ptr, p: Ptr, j: int, t': Tree, sh': Shape, q: Ptr)
    requires CanSplit(t, sh, o, s, p, j) && SplitDone(t, sh, o, s, p, j, t', sh')
    requires q in t.mem && q != o
    ensures UpOk(t', sh', q)
  {
    assert NodeOk(t, sh, q) && NodeOk(t, sh, t.root);
    if q != t.root {
      var i := KidIndex(t, sh, q);
      SplitKidIsListed(t, sh, o, s, p, j, t', sh', q, i);
    }
  }

  lemma SplitKidIsListed(t: Tree, sh: Shape, o: Ptr, s: Ptr, p: Ptr, j: int, t': Tree, sh': Shape, q: Ptr, i: int)
    requires CanSplit(t, sh, o, s, p, j) && SplitDone(t, sh, o, s, p, j, t', sh')
    requires q in t.mem && q != o && t.mem[q].parent in t.mem
    requires 0 <= i < |t.mem[t.mem[q].parent].kids| && t.mem[t.mem[q].parent].kids[i] == q
    ensures t'.mem[q].parent in t'.mem && q in t'.mem[t'.mem[q].parent].kids
  {
    var u := t.mem[q].parent;
    if u == o {
      KidLevel(t, sh, o, q);
      assert i <= HALF ==> t'.mem[o].kids[i] == q;
      assert i > HALF ==> t'.mem[s].kids[i - HALF - 1] == q;
    } else if u == p {
      assert t'.mem[p].kids[if i <= j then i else i + 1] == q;
    }
  }

  lemma SplitNodeOk(t: Tree, sh: Shape, o: Ptr, s: Ptr, p: Ptr, j: int, t': Tree, sh': Shape, q: Ptr)
    requires CanSplit(t, sh, o, s, p, j) && SplitDone(t, sh, o, s, p, j, t', sh') && q in t'.mem
    ensures NodeOk(t', sh', q)
  {
    if q == o {
      SplitLeftOk(t, sh, o, s, p, j, t', sh');
    } else if q == s {
      SplitRightOk(t, sh, o, s, p, j, t', sh');
    } else {
      SplitUpOk(t, sh, o, s, p, j, t', sh', q);
      if q == p {
        SplitParentOk(t, sh, o, s, p, j, t', sh');
      } else {
        SplitOtherOk(t, sh, o, s, p, j, t', sh', q);
      }
    }
  }

  lemma SplitFrame(t: Tree, sh: Shape, o: Ptr, s: Ptr, p: Ptr, j: int, t': Tree, sh': Shape)
    requires CanSplit(t, sh, o, s, p, j) && SplitDone(t, sh, o, s, p, j, t', sh')
    ensures t'.mem.Keys == sh'.Keys && 0 !in t'.mem && o in t'.mem && t'.root in t'.mem
    ensures t'.left in t'.mem && sh'[t'.left].lvl == 0 && sh'[t'.left].lo == Inf
  {
  }

  /** A split keeps order, depth and links. */
  lemma SplitShaped(t: Tree, sh: Shape, o: Ptr, s: Ptr, p: Ptr, j: int, t': Tree, sh': Shape)
    requires CanSplit(t, sh, o, s, p, j) && SplitDone(t, sh, o, s, p, j, t', sh')
    ensures Shaped(t', sh')
  {
    SplitFrame(t, sh, o, s, p, j, t', sh');
    forall q | q in t'.mem
      ensures NodeOk(t', sh', q)
    {
      SplitNodeOk(t, sh, o, s, p, j, t', sh', q);
    }
  }

  lemma SplitSized(t: Tree, sh: Shape, o: Ptr, s: Ptr, p: Ptr, j: int, t': Tree, sh': Shape, u: Ptr)
    requires CanSplit(t, sh, o, s, p, j) && SplitDone(t, sh, o, s, p, j, t', sh')
    requires Sized(t, o, u) && (u == 0 || u == p)
    ensures Sized(t', p, 0)
  {
  }

  ghost predicate SplitOwners(t: Tree, o: Ptr, s: Ptr, p: Ptr, t': Tree)
    requires o in t.mem && |t.mem[o].hs| == N + 1
  {
    && (forall h :: h in t.owner && t.owner[h] != o ==> h in t'.owner && t'.owner[h] == t.owner[h])
    && (forall i :: 0 <= i < N + 1 ==> var h := t.mem[o].hs[i];
          h in t'.owner && t'.owner[h] == if i < HALF then o else if i == HALF then p else s)
  }

  lemma SplitOwnersDone(t: Tree, sh: Shape, m: map<int, Handle>, o: Ptr, s: Ptr, p: Ptr, j: int)
    requires CanSplit(t, sh, o, s, p, j) && Holds(t, m)
    ensures SplitOwners(t, o, s, p, Split(t, o, s, j))
  {
    var n, t', r := t.mem[o], Split(t, o, s, j), RightHalf(t.mem[o]);
    forall i | 0 <= i < N + 1
      ensures n.hs[i] in t.owner && t.owner[n.hs[i]] == o && (n.hs[i] in r.hs <==> i > HALF)
      ensures n.hs[i] == n.hs[HALF] ==> i == HALF
    {
      assert ValueAt(t, m, o, i);
      if i > HALF {
        assert r.hs[i - HALF - 1] == n.hs[i];
      } else if n.hs[i] in r.hs {
        var k :| 0 <= k < |r.hs| && r.hs[k] == n.hs[i];
        HandleOnce(t, sh, m, o, i, o, k + HALF + 1);
      }
      if n.hs[i] == n.hs[HALF] {
        HandleOnce(t, sh, m, o, i, o, HALF);
      }
    }
  }

  /** A split moves values but neither adds nor loses any. */
  lemma SplitHolds(t: Tree, sh: Shape, m: map<int, Handle>, o: Ptr, s: Ptr, p: Ptr, j: int, t': Tree, sh': Shape)
    requires CanSplit(t, sh, o, s, p, j) && SplitDone(t, sh, o, s, p, j, t', sh')
    requires Holds(t, m) && SplitOwners(t, o, s, p, t')
    ensures Holds(t', m)
  {
    forall q, i | q in t'.mem && 0 <= i < |t'.mem[q].keys|
      ensures ValueAt(t', m, q, i)
    {
      SplitValueAt(t, sh, m, o, s, p, j, t', sh', q, i);
    }
    forall k | k in m
      ensures Located(t', m, k)
    {
      SplitLocated(t, sh, m, o, s, p, j, t', sh', k);
    }
  }

  lemma SplitValueAt(t: Tree, sh: Shape, m: map<int, Handle>, o: Ptr, s: Ptr, p: Ptr, j: int, t': Tree,
                     sh': Shape, q: Ptr, i: int)
    requires CanSplit(t, sh, o, s, p, j) && SplitDone(t, sh, o, s, p, j, t', sh')
    requires Holds(t, m) && SplitOwners(t, o, s, p, t') && q in t'.mem && 0 <= i < |t'.mem[q].keys|
    ensures |t'.mem[q].keys| == |t'.mem[q].hs| && ValueAt(t', m, q, i)
  {
    if q == o {
      assert ValueAt(t, m, o, i);
    } else if q == s {
      assert ValueAt(t, m, o, i + HALF + 1);
    } else if q == p && i == j {
      assert ValueAt(t, m, o, HALF);
    } else if q == p {
      assert ValueAt(t, m, p, if i < j then i else i - 1);
    } else {
      assert ValueAt(t, m, q, i);
    }
  }

  lemma SplitLocated(t: Tree, sh: Shape, m: map<int, Handle>, o: Ptr, s: Ptr, p: Ptr, j: int, t': Tree,
                     sh': Shape, k: int)
    requires CanSplit(t, sh, o, s, p, j) && SplitDone(t, sh, o, s, p, j, t', sh')
    requires Holds(t, m) && SplitOwners(t, o, s, p, t') && k in m
    ensures Located(t', m, k)
  {
    assert Located(t, m, k);
    var q := t.owner[m[k]];
    var i :| 0 <= i < |t.mem[q].keys| && t.mem[q].keys[i] == k;
    assert ValueAt(t, m, q, i);
    if q == o {
      if i < HALF {
        assert t'.mem[o].keys[i] == k;
      } else if i == HALF {
        assert t'.mem[p].keys[j] == k;
      } else {
        assert t'.mem[s].keys[i - HALF - 1] == k;
      }
    } else if q == p {
      assert t'.mem[p].keys[if i < j then i else i + 1] == k;
    }
  }

  // ---------- A new root ----------

  /** Puts an empty root above the old one, so that the old root can be split under it. */
  function Grow(t: Tree, r: Ptr): Tree
    requires t.root in t.mem && r !in t.mem
  {
    t.(mem := t.mem[t.root := t.mem[t.root].(parent := r)][r := Node([], [], [t.root], 0)], root := r)
  }

  function GrowShape(t: Tree, sh: Shape, r: Ptr): Shape
    requires t.root in sh
  {
    sh[r := Place(sh[t.root].lvl + 1, Inf, Inf)]
  }

  lemma GrowShaped(t: Tree, sh: Shape, r: Ptr)
    requires Shaped(t, sh) && t.root in t.mem && r !in t.mem && r != 0
    ensures Shaped(Grow(t, r), GrowShape(t, sh, r))
  {
    var t', sh' := Grow(t, r), GrowShape(t, sh, r);
    assert NodeOk(t, sh, t.root);
    forall q | q in t'.mem
      ensures NodeOk(t', sh', q)
    {
      if q == r {
        assert KidAt(t', sh', r, 0);
      } else {
        assert NodeOk(t, sh, q);
        forall i | 0 <= i < |t.mem[q].kids|
          ensures KidKept(t, sh, t', sh', q, t.mem[q].kids[i])
        {
          KidLevel(t, sh, q, t.mem[q].kids[i]);
        }
        SameNode(t, sh, t', sh', q);
        assert t'.mem[r].kids[0] == t.root;
      }
    }
  }

  lemma GrowHolds(t: Tree, sh: Shape, m: map<int, Handle>, r: Ptr)
    requires Shaped(t, sh) && Holds(t, m) && t.root in t.mem && r !in t.mem
    ensures Holds(Grow(t, r), m)
  {
    var t' := Grow(t, r);
    forall q, i | q in t'.mem && 0 <= i < |t'.mem[q].keys|
      ensures ValueAt(t', m, q, i)
    {
      assert ValueAt(t, m, q, i);
    }
    forall k | k in m
      ensures Located(t', m, k)
    {
      assert Located(t, m, k);
    }
  }
}
