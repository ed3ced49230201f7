/** Repairing a node that holds one value too few: two neighbours and the value between them in their
    parent are either cut elsewhere (borrowing) or made one node (merging). */
module BtreeRepair {
  import opened BtreeModel
  import opened BtreeInsert
  import opened BtreeTakeOut

  // ---------- Two neighbours read as one ----------

  /** `l` and `r` are the children of `p` on either side of its i-th value. */
  ghost predicate Neighbours(t: Tree, sh: Shape, p: Ptr, i: int, l: Ptr, r: Ptr) {
    && Shaped(t, sh) && p in t.mem && l in t.mem && r in t.mem && l != r && l != p && r != p
    && 0 <= i < |t.mem[p].keys| && |t.mem[p].kids| == |t.mem[p].keys| + 1 && |t.mem[p].keys| == |t.mem[p].hs|
    && t.mem[p].kids[i] == l && t.mem[p].kids[i + 1] == r
    && sh[p].lvl > 0 && sh[l] == Slot(t.mem[p].keys, sh[p], i) && sh[r] == Slot(t.mem[p].keys, sh[p], i + 1)
    && t.mem[l].parent == p && t.mem[r].parent == p && l != t.root && r != t.root
    && |t.mem[l].keys| == |t.mem[l].hs| && |t.mem[r].keys| == |t.mem[r].hs|
    && (if sh[l].lvl == 0 then t.mem[l].kids == [] && t.mem[r].kids == []
        else |t.mem[l].kids| == |t.mem[l].keys| + 1 && |t.mem[r].kids| == |t.mem[r].keys| + 1)
  }

  lemma AreNeighbours(t: Tree, sh: Shape, p: Ptr, i: int)
    requires Shaped(t, sh) && p in t.mem && 0 <= i < |t.mem[p].kids| - 1
    ensures Neighbours(t, sh, p, i, t.mem[p].kids[i], t.mem[p].kids[i + 1])
  {
    var l, r := t.mem[p].kids[i], t.mem[p].kids[i + 1];
    assert NodeOk(t, sh, p) && KidAt(t, sh, p, i) && KidAt(t, sh, p, i + 1);
    if l == r {
      KidOnce(t, sh, p, i, i + 1);
    }
    assert NodeOk(t, sh, l) && NodeOk(t, sh, r) && NodeOk(t, sh, t.root);
  }

  function JoinKeys(t: Tree, p: Ptr, i: int, l: Ptr, r: Ptr): seq<int>
    requires p in t.mem && l in t.mem && r in t.mem && 0 <= i < |t.mem[p].keys|
  {
    t.mem[l].keys + [t.mem[p].keys[i]] + t.mem[r].keys
  }

  function JoinHandles(t: Tree, p: Ptr, i: int, l: Ptr, r: Ptr): seq<Handle>
    requires p in t.mem && l in t.mem && r in t.mem && 0 <= i < |t.mem[p].hs|
  {
    t.mem[l].hs + [t.mem[p].hs[i]] + t.mem[r].hs
  }

  function JoinKids(t: Tree, l: Ptr, r: Ptr): seq<Ptr>
    requires l in t.mem && r in t.mem
  {
    t.mem[l].kids + t.mem[r].kids
  }

  function JoinPlace(sh: Shape, l: Ptr, r: Ptr): Place
    requires l in sh && r in sh
  {
    sh[l].(hi := sh[r].hi)
  }

  lemma JoinKeysOk(t: Tree, sh: Shape, p: Ptr, i: int, l: Ptr, r: Ptr)
    requires Neighbours(t, sh, p, i, l, r)
    ensures Sorted(JoinKeys(t, p, i, l, r))
    ensures forall c :: 0 <= c < |JoinKeys(t, p, i, l, r)| ==>
      Within(JoinPlace(sh, l, r), JoinKeys(t, p, i, l, r)[c])
  {
    assert NodeOk(t, sh, l) && NodeOk(t, sh, r) && NodeOk(t, sh, p);
    var sep := t.mem[p].keys[i];
    assert sh[l].hi == Key(sep) && sh[r].lo == Key(sep);
    assert forall c :: 0 <= c < |t.mem[l].keys| ==> t.mem[l].keys[c] < sep;
    assert forall c :: 0 <= c < |t.mem[r].keys| ==> sep < t.mem[r].keys[c];
    assert sh[l].lo.Key? ==> sh[l].lo.k < sep by {
      if i > 0 {
        assert t.mem[p].keys[i - 1] < sep;
      } else {
        assert Within(sh[p], sep);
      }
    }
    assert sh[r].hi.Key? ==> sep < sh[r].hi.k by {
      if i + 1 < |t.mem[p].keys| {
        assert sep < t.mem[p].keys[i + 1];
      } else {
        assert Within(sh[p], sep);
      }
    }
  }

  /** The children of both neighbours stand in the slots of the joined values. */
  lemma JoinKid(t: Tree, sh: Shape, p: Ptr, i: int, l: Ptr, r: Ptr, c: int)
    requires Neighbours(t, sh, p, i, l, r) && 0 <= c < |JoinKids(t, l, r)|
    ensures sh[l].lvl > 0 && |JoinKids(t, l, r)| == |JoinKeys(t, p, i, l, r)| + 1
    ensures var q := JoinKids(t, l, r)[c];
      && q in t.mem && q != l && q != r && q != p && (t.mem[q].parent == l || t.mem[q].parent == r)
      && sh[q] == Slot(JoinKeys(t, p, i, l, r), JoinPlace(sh, l, r), c)
  {
    assert NodeOk(t, sh, l) && NodeOk(t, sh, r);
    var nl := |t.mem[l].kids|;
    if c < nl {
      assert KidAt(t, sh, l, c);
      KidLevel(t, sh, l, t.mem[l].kids[c]);
    } else {
      assert KidAt(t, sh, r, c - nl);
      KidLevel(t, sh, r, t.mem[r].kids[c - nl]);
    }
  }

  lemma JoinKidOnce(t: Tree, sh: Shape, p: Ptr, i: int, l: Ptr, r: Ptr, c: int, d: int)
    requires Neighbours(t, sh, p, i, l, r) && 0 <= c < |JoinKids(t, l, r)| && 0 <= d < |JoinKids(t, l, r)|
    requires JoinKids(t, l, r)[c] == JoinKids(t, l, r)[d]
    ensures c == d
  {
    JoinKid(t, sh, p, i, l, r, c);
    JoinKid(t, sh, p, i, l, r, d);
    JoinKeysOk(t, sh, p, i, l, r);
  }

  // ---------- Borrowing: the cut moves ----------

  function Part<T>(s: seq<T>, a: int, b: int): seq<T> {
    if 0 <= a <= b <= |s| then s[a..b] else []
  }

  function ReparentTwo(mem: map<Ptr, Node>, a: seq<Ptr>, l: Ptr, b: seq<Ptr>, r: Ptr): map<Ptr, Node> {
    map q | q in mem ::
      if q in a then mem[q].(parent := l) else if q in b then mem[q].(parent := r) else mem[q]
  }

  function ReownTwo(owner: map<Handle, Ptr>, a: seq<Handle>, l: Ptr, b: seq<Handle>, r: Ptr): map<Handle, Ptr> {
    map h | h in owner :: if h in a then l else if h in b then r else owner[h]
  }

  /** Cuts the joined values after the first `c`. */
  function Recut(t: Tree, p: Ptr, i: int, l: Ptr, r: Ptr, c: int): Tree
    requires p in t.mem && l in t.mem && r in t.mem && 0 <= i < |t.mem[p].keys| == |t.mem[p].hs|
    requires 0 <= c < |JoinKeys(t, p, i, l, r)| == |JoinHandles(t, p, i, l, r)|
  {
    var ks, hs, kids := JoinKeys(t, p, i, l, r), JoinHandles(t, p, i, l, r), JoinKids(t, l, r);
    var m := t.mem[p];
    var mem1 := t.mem[l := Node(ks[..c], hs[..c], Part(kids, 0, c + 1), p)]
                     [r := Node(ks[c + 1..], hs[c + 1..], Part(kids, c + 1, |kids|), p)]
                     [p := m.(keys := m.keys[i := ks[c]], hs := m.hs[i := hs[c]])];
    t.(mem := ReparentTwo(mem1, Part(kids, 0, c + 1), l, Part(kids, c + 1, |kids|), r),
       owner := ReownTwo(t.owner, hs[..c], l, hs[c + 1..], r)[hs[c] := p])
  }

  function RecutShape(t: Tree, sh: Shape, p: Ptr, i: int, l: Ptr, r: Ptr, c: int): Shape
    requires p in t.mem && l in t.mem && r in t.mem && 0 <= i < |t.mem[p].keys| && l in sh && r in sh
    requires 0 <= c < |JoinKeys(t, p, i, l, r)|
  {
    var sep := Key(JoinKeys(t, p, i, l, r)[c]);
    sh[l := sh[l].(hi := sep)][r := sh[r].(lo := sep)]
  }

  /** What a new cut leaves in memory, and the new places. */
  ghost predicate RecutDone(t: Tree, sh: Shape, p: Ptr, i: int, l: Ptr, r: Ptr, c: int, t': Tree, sh': Shape)
    requires Neighbours(t, sh, p, i, l, r)
  {
    var ks, hs, kids, m := JoinKeys(t, p, i, l, r), JoinHandles(t, p, i, l, r), JoinKids(t, l, r), t.mem[p];
    && 0 <= c < |ks| && (kids != [] ==> |kids| == |ks| + 1)
    && t'.root == t.root && t'.left == t.left && t'.mem.Keys == t.mem.Keys
    && t'.mem[l] == Node(ks[..c], hs[..c], Part(kids, 0, c + 1), p)
    && t'.mem[r] == Node(ks[c + 1..], hs[c + 1..], Part(kids, c + 1, |kids|), p)
    && t'.mem[p] == m.(keys := m.keys[i := ks[c]], hs := m.hs[i := hs[c]])
    && (forall q :: q in t.mem && q != l && q != r && q != p ==>
          && t'.mem[q] == t.mem[q].(parent := t'.mem[q].parent)
          && (t.mem[q].parent != l && t.mem[q].parent != r ==> t'.mem[q].parent == t.mem[q].parent))
    && (forall d :: 0 <= d < |kids| ==>
          kids[d] in t'.mem && t'.mem[kids[d]].parent == if d <= c then l else r)
    && sh' == RecutShape(t, sh, p, i, l, r, c)
  }

  lemma RecutIsDone(t: Tree, sh: Shape, p: Ptr, i: int, l: Ptr, r: Ptr, c: int)
    requires Neighbours(t, sh, p, i, l, r) && 0 <= c < |JoinKeys(t, p, i, l, r)|
    ensures RecutDone(t, sh, p, i, l, r, c, Recut(t, p, i, l, r, c), RecutShape(t, sh, p, i, l, r, c))
  {
    var kids, t' := JoinKids(t, l, r), Recut(t, p, i, l, r, c);
    if kids != [] {
      JoinKid(t, sh, p, i, l, r, 0);
    }
    forall q | q in Part(kids, 0, c + 1) || q in Part(kids, c + 1, |kids|)
      ensures q in t.mem && q != l && q != r && q != p && (t.mem[q].parent == l || t.mem[q].parent == r)
    {
      var d :| 0 <= d < |kids| && kids[d] == q;
      JoinKid(t, sh, p, i, l, r, d);
    }
    RecutMemory(t, p, i, l, r, c);
    forall d | 0 <= d < |kids|
      ensures kids[d] in t'.mem && t'.mem[kids[d]].parent == if d <= c then l else r
    {
      RecutKidParent(t, sh, p, i, l, r, c, d);
    }
  }

  lemma RecutMemory(t: Tree, p: Ptr, i: int, l: Ptr, r: Ptr, c: int)
    requires p in t.mem && l in t.mem && r in t.mem && l != r && l != p && r != p
    requires 0 <= i < |t.mem[p].keys| == |t.mem[p].hs|
    requires 0 <= c < |JoinKeys(t, p, i, l, r)| == |JoinHandles(t, p, i, l, r)|
    requires var kids := JoinKids(t, l, r);
      forall q :: q in Part(kids, 0, c + 1) || q in Part(kids, c + 1, |kids|) ==>
        q in t.mem && q != l && q != r && q != p && (t.mem[q].parent == l || t.mem[q].parent == r)
    ensures var ks, hs, kids, m, t' := JoinKeys(t, p, i, l, r), JoinHandles(t, p, i, l, r), JoinKids(t, l, r), t.mem[p],
                                       Recut(t, p, i, l, r, c);
      && t'.mem.Keys == t.mem.Keys
      && t'.mem[l] == Node(ks[..c], hs[..c], Part(kids, 0, c + 1), p)
      && t'.mem[r] == Node(ks[c + 1..], hs[c + 1..], Part(kids, c + 1, |kids|), p)
      && t'.mem[p] == m.(keys := m.keys[i := ks[c]], hs := m.hs[i := hs[c]])
      && forall q :: q in t.mem && q != l && q != r && q != p ==>
           && t'.mem[q] == t.mem[q].(parent := t'.mem[q].parent)
           && (t.mem[q].parent != l && t.mem[q].parent != r ==> t'.mem[q].parent == t.mem[q].parent)
  {
  }

  lemma RecutKidParent(t: Tree, sh: Shape, p: Ptr, i: int, l: Ptr, r: Ptr, c: int, d: int)
    requires Neighbours(t, sh, p, i, l, r) && 0 <= c < |JoinKeys(t, p, i, l, r)| && 0 <= d < |JoinKids(t, l, r)|
    ensures var q, t' := JoinKids(t, l, r)[d], Recut(t, p, i, l, r, c);
      q in t'.mem && t'.mem[q].parent == if d <= c then l else r
  {
    JoinKid(t, sh, p, i, l, r, d);
    PartMember(t, sh, p, i, l, r, 0, c + 1, d);
    PartMember(t, sh, p, i, l, r, c + 1, |JoinKids(t, l, r)|, d);
  }

  lemma PartMember(t: Tree, sh: Shape, p: Ptr, i: int, l: Ptr, r: Ptr, a: int, b: int, d: int)
    requires Neighbours(t, sh, p, i, l, r) && 0 <= d < |JoinKids(t, l, r)| && 0 <= a <= b <= |JoinKids(t, l, r)|
    ensures JoinKids(t, l, r)[d] in Part(JoinKids(t, l, r), a, b) <==> a <= d < b
  {
    var kids := JoinKids(t, l, r);
    var part := kids[a..b];
    if a <= d < b {
      assert part[d - a] == kids[d];
    }
    if kids[d] in part {
      var e :| 0 <= e < |part| && part[e] == kids[d];
      JoinKidOnce(t, sh, p, i, l, r, a + e, d);
    }
  }

  lemma RecutLeftOk(t: Tree, sh: Shape, p: Ptr, i: int, l: Ptr, r: Ptr, c: int, t': Tree, sh': Shape)
    requires Neighbours(t, sh, p, i, l, r) && RecutDone(t, sh, p, i, l, r, c, t', sh')
    ensures KeysOk(t'.mem[l], sh'[l]) && KidsOk(t', sh', l)
  {
    JoinKeysOk(t, sh, p, i, l, r);
    forall d | 0 <= d < |t'.mem[l].kids|
      ensures KidAt(t', sh', l, d)
    {
      JoinKid(t, sh, p, i, l, r, d);
      assert t'.mem[l].kids[d] == JoinKids(t, l, r)[d];
    }
  }

  lemma RecutRightOk(t: Tree, sh: Shape, p: Ptr, i: int, l: Ptr, r: Ptr, c: int, t': Tree, sh': Shape)
    requires Neighbours(t, sh, p, i, l, r) && RecutDone(t, sh, p, i, l, r, c, t', sh')
    ensures KeysOk(t'.mem[r], sh'[r]) && KidsOk(t', sh', r)
  {
    JoinKeysOk(t, sh, p, i, l, r);
    forall d | 0 <= d < |t'.mem[r].kids|
      ensures KidAt(t', sh', r, d)
    {
      JoinKid(t, sh, p, i, l, r, c + 1 + d);
      assert t'.mem[r].kids[d] == JoinKids(t, l, r)[c + 1 + d];
    }
  }

  lemma RecutParentOk(t: Tree, sh: Shape, p: Ptr, i: int, l: Ptr, r: Ptr, c: int, t': Tree, sh': Shape)
    requires Neighbours(t, sh, p, i, l, r) && RecutDone(t, sh, p, i, l, r, c, t', sh')
    ensures KeysOk(t'.mem[p], sh'[p]) && KidsOk(t', sh', p)
  {
    RecutSeparator(t, sh, p, i, l, r, c);
    assert NodeOk(t, sh, p);
    forall d | 0 <= d < |t'.mem[p].kids|
      ensures KidAt(t', sh', p, d)
    {
      RecutSibling(t, sh, p, i, l, r, c, t', sh', d);
    }
  }

  lemma RecutSeparator(t: Tree, sh: Shape, p: Ptr, i: int, l: Ptr, r: Ptr, c: int)
    requires Neighbours(t, sh, p, i, l, r) && 0 <= c < |JoinKeys(t, p, i, l, r)|
    ensures var sep := JoinKeys(t, p, i, l, r)[c];
      Within(sh[p], sep) && Sorted(t.mem[p].keys[i := sep])
  {
    JoinKeysOk(t, sh, p, i, l, r);
    assert NodeOk(t, sh, p);
    assert Within(JoinPlace(sh, l, r), JoinKeys(t, p, i, l, r)[c]);
  }

  lemma RecutSibling(t: Tree, sh: Shape, p: Ptr, i: int, l: Ptr, r: Ptr, c: int, t': Tree, sh': Shape, d: int)
    requires Neighbours(t, sh, p, i, l, r) && RecutDone(t, sh, p, i, l, r, c, t', sh')
    requires 0 <= d < |t'.mem[p].kids|
    ensures KidAt(t', sh', p, d)
  {
    assert NodeOk(t, sh, p) && KidAt(t, sh, p, d);
    var q := t.mem[p].kids[d];
    if q == l {
      KidOnce(t, sh, p, d, i);
    } else if q == r {
      KidOnce(t, sh, p, d, i + 1);
    } else {
      KidLevel(t, sh, p, q);
    }
  }

  lemma RecutOtherOk(t: Tree, sh: Shape, p: Ptr, i: int, l: Ptr, r: Ptr, c: int, t': Tree, sh': Shape, q: Ptr)
    requires Neighbours(t, sh, p, i, l, r) && RecutDone(t, sh, p, i, l, r, c, t', sh')
    requires q in t.mem && q != l && q != r && q != p
    ensures KeysOk(t'.mem[q], sh'[q]) && KidsOk(t', sh', q)
  {
    assert NodeOk(t, sh, q);
    forall d | 0 <= d < |t.mem[q].kids|
      ensures KidKept(t, sh, t', sh', q, t.mem[q].kids[d])
    {
      KidLevel(t, sh, q, t.mem[q].kids[d]);
    }
    SameNode(t, sh, t', sh', q);
  }

  lemma RecutUpOk(t: Tree, sh: Shape, p: Ptr, i: int, l: Ptr, r: Ptr, c: int, t': Tree, sh': Shape, q: Ptr)
    requires Neighbours(t, sh, p, i, l, r) && RecutDone(t, sh, p, i, l, r, c, t', sh') && q in t.mem
    ensures UpOk(t', sh', q)
  {
    assert NodeOk(t, sh, q) && NodeOk(t, sh, t.root);
    if q == l || q == r {
      assert t'.mem[p].kids[i] == l && t'.mem[p].kids[i + 1] == r;
    } else if q != t.root {
      var d := KidIndex(t, sh, q);
      var u := t.mem[q].parent;
      if u == l || u == r {
        var e := if u == l then d else d + |t.mem[l].kids|;
        assert JoinKids(t, l, r)[e] == q;
        assert e <= c ==> t'.mem[l].kids[e] == q;
        assert e > c ==> t'.mem[r].kids[e - c - 1] == q;
      } else if u == p {
        assert t'.mem[p].kids[d] == q;
      }
    }
  }

  lemma RecutNodeOk(t: Tree, sh: Shape, p: Ptr, i: int, l: Ptr, r: Ptr, c: int, t': Tree, sh': Shape, q: Ptr)
    requires Neighbours(t, sh, p, i, l, r) && RecutDone(t, sh, p, i, l, r, c, t', sh') && q in t.mem
    ensures NodeOk(t', sh', q)
  {
    RecutUpOk(t, sh, p, i, l, r, c, t', sh', q);
    if q == l {
      RecutLeftOk(t, sh, p, i, l, r, c, t', sh');
    } else if q == r {
      RecutRightOk(t, sh, p, i, l, r, c, t', sh');
    } else if q == p {
      RecutParentOk(t, sh, p, i, l, r, c, t', sh');
    } else {
      RecutOtherOk(t, sh, p, i, l, r, c, t', sh', q);
    }
  }

  lemma RecutFrame(t: Tree, sh: Shape, p: Ptr, i: int, l: Ptr, r: Ptr, c: int, t': Tree, sh': Shape)
    requires Neighbours(t, sh, p, i, l, r) && RecutDone(t, sh, p, i, l, r, c, t', sh')
    ensures t'.mem.Keys == sh'.Keys && 0 !in t'.mem && p in t'.mem && t'.root in t'.mem
    ensures t'.left in t'.mem && sh'[t'.left].lvl == 0 && sh'[t'.left].lo == Inf
  {
    assert sh[r].lo.Key?;
    assert t.left != r;
  }

  /** Borrowing keeps order, depth and links. */
  lemma RecutShaped(t: Tree, sh: Shape, p: Ptr, i: int, l: Ptr, r: Ptr, c: int, t': Tree, sh': Shape)
    requires Neighbours(t, sh, p, i, l, r) && RecutDone(t, sh, p, i, l, r, c, t', sh')
    ensures Shaped(t', sh')
  {
    RecutFrame(t, sh, p, i, l, r, c, t', sh');
    forall q | q in t'.mem
      ensures NodeOk(t', sh', q)
    {
      RecutNodeOk(t, sh, p, i, l, r, c, t', sh', q);
    }
  }

  lemma RecutSized(t: Tree, sh: Shape, p: Ptr, i: int, l: Ptr, r: Ptr, c: int, t': Tree, sh': Shape, u: Ptr)
    requires Neighbours(t, sh, p, i, l, r) && RecutDone(t, sh, p, i, l, r, c, t', sh')
    requires Sized(t, 0, u) && (u == l || u == r)
    requires HALF <= c <= N && HALF <= |JoinKeys(t, p, i, l, r)| - 1 - c <= N
    ensures Sized(t', 0, 0)
  {
  }

  ghost predicate RecutOwners(t: Tree, p: Ptr, i: int, l: Ptr, r: Ptr, c: int, t': Tree)
    requires p in t.mem && l in t.mem && r in t.mem && 0 <= i < |t.mem[p].hs|
  {
    var hs := JoinHandles(t, p, i, l, r);
    && (forall h :: h in t.owner && h !in hs ==> h in t'.owner && t'.owner[h] == t.owner[h])
    && (forall d :: 0 <= d < |hs| ==>
          hs[d] in t'.owner && t'.owner[hs[d]] == if d < c then l else if d == c then p else r)
  }

  /** Where a joined value was before. */
  lemma JoinValueAt(t: Tree, sh: Shape, m: map<int, Handle>, p: Ptr, i: int, l: Ptr, r: Ptr, d: int)
    returns (q: Ptr, e: int)
    requires Neighbours(t, sh, p, i, l, r) && Holds(t, m) && 0 <= d < |JoinKeys(t, p, i, l, r)|
    ensures |JoinHandles(t, p, i, l, r)| == |JoinKeys(t, p, i, l, r)|
    ensures q in t.mem && 0 <= e < |t.mem[q].keys| == |t.mem[q].hs| && ValueAt(t, m, q, e)
    ensures t.mem[q].keys[e] == JoinKeys(t, p, i, l, r)[d] && t.mem[q].hs[e] == JoinHandles(t, p, i, l, r)[d]
    ensures (q == l && e == d) || (q == p && e == i && d == |t.mem[l].keys|)
         || (q == r && e == d - |t.mem[l].keys| - 1)
  {
    var nl := |t.mem[l].keys|;
    if d < nl {
      q, e := l, d;
    } else if d == nl {
      q, e := p, i;
    } else {
      q, e := r, d - nl - 1;
    }
    assert ValueAt(t, m, q, e);
  }

  lemma JoinHandleOnce(t: Tree, sh: Shape, m: map<int, Handle>, p: Ptr, i: int, l: Ptr, r: Ptr, d: int, e: int)
    requires Neighbours(t, sh, p, i, l, r) && Holds(t, m)
    requires 0 <= d < |JoinHandles(t, p, i, l, r)| && 0 <= e < |JoinHandles(t, p, i, l, r)|
    requires JoinHandles(t, p, i, l, r)[d] == JoinHandles(t, p, i, l, r)[e]
    ensures d == e
  {
    var q, x := JoinValueAt(t, sh, m, p, i, l, r, d);
    var q', x' := JoinValueAt(t, sh, m, p, i, l, r, e);
    HandleOnce(t, sh, m, q, x, q', x');
  }

  lemma RecutOwnersDone(t: Tree, sh: Shape, m: map<int, Handle>, p: Ptr, i: int, l: Ptr, r: Ptr, c: int)
    requires Neighbours(t, sh, p, i, l, r) && Holds(t, m) && 0 <= c < |JoinKeys(t, p, i, l, r)|
    ensures RecutOwners(t, p, i, l, r, c, Recut(t, p, i, l, r, c))
  {
    var hs := JoinHandles(t, p, i, l, r);
    var a, b := hs[..c], hs[c + 1..];
    forall d | 0 <= d < |hs|
      ensures hs[d] in t.owner && (hs[d] in a <==> d < c) && (hs[d] in b <==> d > c)
      ensures hs[d] == hs[c] ==> d == c
    {
      var q, e := JoinValueAt(t, sh, m, p, i, l, r, d);
      assert d < c ==> a[d] == hs[d];
      assert d > c ==> b[d - c - 1] == hs[d];
      if hs[d] in a {
        var x :| 0 <= x < |a| && a[x] == hs[d];
        JoinHandleOnce(t, sh, m, p, i, l, r, x, d);
      }
      if hs[d] in b {
        var x :| 0 <= x < |b| && b[x] == hs[d];
        JoinHandleOnce(t, sh, m, p, i, l, r, x + c + 1, d);
      }
      if hs[d] == hs[c] {
        JoinHandleOnce(t, sh, m, p, i, l, r, d, c);
      }
    }
  }

  lemma RecutValueAt(t: Tree, sh: Shape, m: map<int, Handle>, p: Ptr, i: int, l: Ptr, r: Ptr, c: int, t': Tree,
                     sh': Shape, q: Ptr, d: int)
    requires Neighbours(t, sh, p, i, l, r) && RecutDone(t, sh, p, i, l, r, c, t', sh')
    requires Holds(t, m) && RecutOwners(t, p, i, l, r, c, t') && q in t'.mem && 0 <= d < |t'.mem[q].keys|
    ensures |t'.mem[q].keys| == |t'.mem[q].hs| && ValueAt(t', m, q, d)
  {
    if q == l || q == r || (q == p && d == i) {
      var e := if q == l then d else if q == r then d + c + 1 else c;
      var x, y := JoinValueAt(t, sh, m, p, i, l, r, e);
    } else {
      assert ValueAt(t, m, q, d);
      if t.mem[q].hs[d] in JoinHandles(t, p, i, l, r) {
        var e :| 0 <= e < |JoinHandles(t, p, i, l, r)| && JoinHandles(t, p, i, l, r)[e] == t.mem[q].hs[d];
        var x, y := JoinValueAt(t, sh, m, p, i, l, r, e);
        HandleOnce(t, sh, m, q, d, x, y);
      }
    }
  }

  lemma RecutLocated(t: Tree, sh: Shape, m: map<int, Handle>, p: Ptr, i: int, l: Ptr, r: Ptr, c: int, t': Tree,
                     sh': Shape, k: int)
    requires Neighbours(t, sh, p, i, l, r) && RecutDone(t, sh, p, i, l, r, c, t', sh')
    requires Holds(t, m) && RecutOwners(t, p, i, l, r, c, t') && k in m
    ensures Located(t', m, k)
  {
    assert Located(t, m, k);
    var q := t.owner[m[k]];
    var d :| 0 <= d < |t.mem[q].keys| && t.mem[q].keys[d] == k;
    assert ValueAt(t, m, q, d);
    if q == l || q == r || (q == p && d == i) {
      var nl := |t.mem[l].keys|;
      var e := if q == l then d else if q == r then d + nl + 1 else nl;
      assert JoinKeys(t, p, i, l, r)[e] == k && JoinHandles(t, p, i, l, r)[e] == m[k];
      RecutLocatedJoin(t, sh, p, i, l, r, c, t', sh', e);
    } else {
      var hs := JoinHandles(t, p, i, l, r);
      if m[k] in hs {
        var e :| 0 <= e < |hs| && hs[e] == m[k];
        var x, y := JoinValueAt(t, sh, m, p, i, l, r, e);
        HandleOnce(t, sh, m, q, d, x, y);
      }
      assert t'.mem[q].keys[d] == k;
    }
  }

  lemma RecutLocatedJoin(t: Tree, sh: Shape, p: Ptr, i: int, l: Ptr, r: Ptr, c: int, t': Tree, sh': Shape, e: int)
    requires Neighbours(t, sh, p, i, l, r) && RecutDone(t, sh, p, i, l, r, c, t', sh')
    requires RecutOwners(t, p, i, l, r, c, t') && 0 <= e < |JoinKeys(t, p, i, l, r)|
    ensures |JoinKeys(t, p, i, l, r)| == |JoinHandles(t, p, i, l, r)|
    ensures var h := JoinHandles(t, p, i, l, r)[e];
      h in t'.owner && t'.owner[h] in t'.mem && JoinKeys(t, p, i, l, r)[e] in t'.mem[t'.owner[h]].keys
  {
    var k := JoinKeys(t, p, i, l, r)[e];
    if e < c {
      assert t'.mem[l].keys[e] == k;
    } else if e == c {
      assert t'.mem[p].keys[i] == k;
    } else {
      assert t'.mem[r].keys[e - c - 1] == k;
    }
  }

  /** Borrowing moves values but neither adds nor loses any. */
  lemma RecutHolds(t: Tree, sh: Shape, m: map<int, Handle>, p: Ptr, i: int, l: Ptr, r: Ptr, c: int, t': Tree,
                   sh': Shape)
    requires Neighbours(t, sh, p, i, l, r) && RecutDone(t, sh, p, i, l, r, c, t', sh')
    requires Holds(t, m) && RecutOwners(t, p, i, l, r, c, t')
    ensures Holds(t', m)
  {
    forall q, d | q in t'.mem && 0 <= d < |t'.mem[q].keys|
      ensures ValueAt(t', m, q, d)
    {
      RecutValueAt(t, sh, m, p, i, l, r, c, t', sh', q, d);
    }
    forall k | k in m
      ensures Located(t', m, k)
    {
      RecutLocated(t, sh, m, p, i, l, r, c, t', sh', k);
    }
  }

  // ---------- Merging ----------

  /** Makes one node, at `l`, of both neighbours and the value between them. */
  function Merge(t: Tree, p: Ptr, i: int, l: Ptr, r: Ptr): Tree
    requires p in t.mem && l in t.mem && r in t.mem && 0 <= i < |t.mem[p].keys| == |t.mem[p].hs|
    requires |t.mem[p].kids| == |t.mem[p].keys| + 1
  {
    var m := t.mem[p];
    var mem1 := t.mem[l := Node(JoinKeys(t, p, i, l, r), JoinHandles(t, p, i, l, r), JoinKids(t, l, r), p)]
                     [p := Node(Drop(m.keys, i), Drop(m.hs, i), Drop(m.kids, i + 1), m.parent)];
    t.(mem := Reparent(mem1, JoinKids(t, l, r), l) - {r},
       owner := Reown(t.owner, JoinHandles(t, p, i, l, r), l))
  }

  function MergeShape(sh: Shape, l: Ptr, r: Ptr): Shape
    requires l in sh && r in sh
  {
    sh[l := JoinPlace(sh, l, r)] - {r}
  }

  /** What a merge leaves in memory, and the new places. */
  ghost predicate MergeDone(t: Tree, sh: Shape, p: Ptr, i: int, l: Ptr, r: Ptr, t': Tree, sh': Shape)
    requires Neighbours(t, sh, p, i, l, r)
  {
    var m := t.mem[p];
    && t'.root == t.root && t'.left == t.left && t'.mem.Keys == t.mem.Keys - {r}
    && t'.mem[l] == Node(JoinKeys(t, p, i, l, r), JoinHandles(t, p, i, l, r), JoinKids(t, l, r), p)
    && t'.mem[p] == Node(Drop(m.keys, i), Drop(m.hs, i), Drop(m.kids, i + 1), m.parent)
    && (forall q :: q in t.mem && q != l && q != r && q != p ==>
          && t'.mem[q] == t.mem[q].(parent := t'.mem[q].parent)
          && (t.mem[q].parent != l && t.mem[q].parent != r ==> t'.mem[q].parent == t.mem[q].parent))
    && (forall d :: 0 <= d < |JoinKids(t, l, r)| ==>
          JoinKids(t, l, r)[d] in t'.mem && t'.mem[JoinKids(t, l, r)[d]].parent == l)
    && sh' == MergeShape(sh, l, r)
  }

  lemma MergeIsDone(t: Tree, sh: Shape, p: Ptr, i: int, l: Ptr, r: Ptr)
    requires Neighbours(t, sh, p, i, l, r)
    ensures MergeDone(t, sh, p, i, l, r, Merge(t, p, i, l, r), MergeShape(sh, l, r))
  {
    var kids := JoinKids(t, l, r);
    forall d | 0 <= d < |kids|
      ensures var q := kids[d];
        q in t.mem && q != l && q != r && q != p && (t.mem[q].parent == l || t.mem[q].parent == r)
    {
      JoinKid(t, sh, p, i, l, r, d);
    }
    MergeMemory(t, p, i, l, r);
  }

  lemma MergeMemory(t: Tree, p: Ptr, i: int, l: Ptr, r: Ptr)
    requires p in t.mem && l in t.mem && r in t.mem && l != r && l != p && r != p
    requires 0 <= i < |t.mem[p].keys| == |t.mem[p].hs| && |t.mem[p].kids| == |t.mem[p].keys| + 1
    requires var kids := JoinKids(t, l, r);
      forall d :: 0 <= d < |kids| ==>
        var q := kids[d];
        q in t.mem && q != l && q != r && q != p && (t.mem[q].parent == l || t.mem[q].parent == r)
    ensures var m, t' := t.mem[p], Merge(t, p, i, l, r);
      && t'.mem.Keys == t.mem.Keys - {r}
      && t'.mem[l] == Node(JoinKeys(t, p, i, l, r), JoinHandles(t, p, i, l, r), JoinKids(t, l, r), p)
      && t'.mem[p] == Node(Drop(m.keys, i), Drop(m.hs, i), Drop(m.kids, i + 1), m.parent)
      && (forall q :: q in t.mem && q != l && q != r && q != p ==>
            && t'.mem[q] == t.mem[q].(parent := t'.mem[q].parent)
            && (t.mem[q].parent != l && t.mem[q].parent != r ==> t'.mem[q].parent == t.mem[q].parent))
      && forall d :: 0 <= d < |JoinKids(t, l, r)| ==>
           JoinKids(t, l, r)[d] in t'.mem && t'.mem[JoinKids(t, l, r)[d]].parent == l
  {
  }

  lemma MergeLeftOk(t: Tree, sh: Shape, p: Ptr, i: int, l: Ptr, r: Ptr, t': Tree, sh': Shape)
    requires Neighbours(t, sh, p, i, l, r) && MergeDone(t, sh, p, i, l, r, t', sh')
    ensures KeysOk(t'.mem[l], sh'[l]) && KidsOk(t', sh', l)
  {
    JoinKeysOk(t, sh, p, i, l, r);
    forall d | 0 <= d < |t'.mem[l].kids|
      ensures KidAt(t', sh', l, d)
    {
      JoinKid(t, sh, p, i, l, r, d);
    }
  }

  lemma MergeSibling(t: Tree, sh: Shape, p: Ptr, i: int, l: Ptr, r: Ptr, t': Tree, sh': Shape, d: int)
    requires Neighbours(t, sh, p, i, l, r) && MergeDone(t, sh, p, i, l, r, t', sh')
    requires 0 <= d < |t'.mem[p].kids|
    ensures KidAt(t', sh', p, d)
  {
    var e := if d <= i then d else d + 1;
    assert NodeOk(t, sh, p) && KidAt(t, sh, p, e);
    var q := t.mem[p].kids[e];
    assert t'.mem[p].kids[d] == q;
    KidLevel(t, sh, p, q);
    if q == l {
      KidOnce(t, sh, p, e, i);
    } else if q == r {
      KidOnce(t, sh, p, e, i + 1);
    }
  }

  lemma MergeParentOk(t: Tree, sh: Shape, p: Ptr, i: int, l: Ptr, r: Ptr, t': Tree, sh': Shape)
    requires Neighbours(t, sh, p, i, l, r) && MergeDone(t, sh, p, i, l, r, t', sh')
    ensures KeysOk(t'.mem[p], sh'[p]) && KidsOk(t', sh', p)
  {
    assert NodeOk(t, sh, p);
    forall d | 0 <= d < |t'.mem[p].kids|
      ensures KidAt(t', sh', p, d)
    {
      MergeSibling(t, sh, p, i, l, r, t', sh', d);
    }
  }

  lemma MergeOtherOk(t: Tree, sh: Shape, p: Ptr, i: int, l: Ptr, r: Ptr, t': Tree, sh': Shape, q: Ptr)
    requires Neighbours(t, sh, p, i, l, r) && MergeDone(t, sh, p, i, l, r, t', sh')
    requires q in t.mem && q != l && q != r && q != p
    ensures KeysOk(t'.mem[q], sh'[q]) && KidsOk(t', sh', q)
  {
    assert NodeOk(t, sh, q);
    forall d | 0 <= d < |t.mem[q].kids|
      ensures KidKept(t, sh, t', sh', q, t.mem[q].kids[d])
    {
      KidLevel(t, sh, q, t.mem[q].kids[d]);
    }
    SameNode(t, sh, t', sh', q);
  }

  lemma MergeUpOk(t: Tree, sh: Shape, p: Ptr, i: int, l: Ptr, r: Ptr, t': Tree, sh': Shape, q: Ptr)
    requires Neighbours(t, sh, p, i, l, r) && MergeDone(t, sh, p, i, l, r, t', sh') && q in t'.mem
    ensures UpOk(t', sh', q)
  {
    assert NodeOk(t, sh, q) && NodeOk(t, sh, t.root);
    if q != t.root {
      var d := KidIndex(t, sh, q);
      var u := t.mem[q].parent;
      if u == l || u == r {
        var e := if u == l then d else d + |t.mem[l].kids|;
        assert JoinKids(t, l, r)[e] == q;
        JoinKid(t, sh, p, i, l, r, e);
      } else if u == p {
        if q == l {
          assert t'.mem[p].kids[i] == q;
        } else {
          assert d != i + 1;
          assert t'.mem[p].kids[if d <= i then d else d - 1] == q;
        }
      }
    }
  }

  lemma MergeNodeOk(t: Tree, sh: Shape, p: Ptr, i: int, l: Ptr, r: Ptr, t': Tree, sh': Shape, q: Ptr)
    requires Neighbours(t, sh, p, i, l, r) && MergeDone(t, sh, p, i, l, r, t', sh') && q in t'.mem
    ensures NodeOk(t', sh', q)
  {
    MergeUpOk(t, sh, p, i, l, r, t', sh', q);
    if q == l {
      MergeLeftOk(t, sh, p, i, l, r, t', sh');
    } else if q == p {
      MergeParentOk(t, sh, p, i, l, r, t', sh');
    } else {
      MergeOtherOk(t, sh, p, i, l, r, t', sh', q);
    }
  }

  lemma MergeFrame(t: Tree, sh: Shape, p: Ptr, i: int, l: Ptr, r: Ptr, t': Tree, sh': Shape)
    requires Neighbours(t, sh, p, i, l, r) && MergeDone(t, sh, p, i, l, r, t', sh')
    ensures t'.mem.Keys == sh'.Keys && 0 !in t'.mem && p in t'.mem && t'.root in t'.mem
    ensures t'.left in t'.mem && sh'[t'.left].lvl == 0 && sh'[t'.left].lo == Inf
  {
    assert sh[r].lo.Key?;
    assert t.left != r;
  }

  /** Merging keeps order, depth and links. */
  lemma MergeShaped(t: Tree, sh: Shape, p: Ptr, i: int, l: Ptr, r: Ptr, t': Tree, sh': Shape)
    requires Neighbours(t, sh, p, i, l, r) && MergeDone(t, sh, p, i, l, r, t', sh')
    ensures Shaped(t', sh')
  {
    MergeFrame(t, sh, p, i, l, r, t', sh');
    forall q | q in t'.mem
      ensures NodeOk(t', sh', q)
    {
      MergeNodeOk(t, sh, p, i, l, r, t', sh', q);
    }
  }

  lemma MergeSized(t: Tree, sh: Shape, p: Ptr, i: int, l: Ptr, r: Ptr, t': Tree, sh': Shape, u: Ptr)
    requires Neighbours(t, sh, p, i, l, r) && MergeDone(t, sh, p, i, l, r, t', sh')
    requires Sized(t, 0, u) && (u == l || u == r) && |JoinKeys(t, p, i, l, r)| <= N
    ensures Sized(t', 0, p)
  {
  }

  ghost predicate MergeOwners(t: Tree, p: Ptr, i: int, l: Ptr, r: Ptr, t': Tree)
    requires p in t.mem && l in t.mem && r in t.mem && 0 <= i < |t.mem[p].hs|
  {
    forall h :: h in t.owner ==>
      h in t'.owner && t'.owner[h] == if h in JoinHandles(t, p, i, l, r) then l else t.owner[h]
  }

  lemma MergeValueAt(t: Tree, sh: Shape, m: map<int, Handle>, p: Ptr, i: int, l: Ptr, r: Ptr, t': Tree,
                     sh': Shape, q: Ptr, d: int)
    requires Neighbours(t, sh, p, i, l, r) && MergeDone(t, sh, p, i, l, r, t', sh')
    requires Holds(t, m) && MergeOwners(t, p, i, l, r, t') && q in t'.mem && 0 <= d < |t'.mem[q].keys|
    ensures |t'.mem[q].keys| == |t'.mem[q].hs| && ValueAt(t', m, q, d)
  {
    if q == l {
      var x, y := JoinValueAt(t, sh, m, p, i, l, r, d);
    } else {
      var e := if q == p && d >= i then d + 1 else d;
      assert ValueAt(t, m, q, e);
      var hs := JoinHandles(t, p, i, l, r);
      if t.mem[q].hs[e] in hs {
        var f :| 0 <= f < |hs| && hs[f] == t.mem[q].hs[e];
        var x, y := JoinValueAt(t, sh, m, p, i, l, r, f);
        HandleOnce(t, sh, m, q, e, x, y);
      }
    }
  }

  lemma MergeLocated(t: Tree, sh: Shape, m: map<int, Handle>, p: Ptr, i: int, l: Ptr, r: Ptr, t': Tree,
                     sh': Shape, k: int)
    requires Neighbours(t, sh, p, i, l, r) && MergeDone(t, sh, p, i, l, r, t', sh')
    requires Holds(t, m) && MergeOwners(t, p, i, l, r, t') && k in m
    ensures Located(t', m, k)
  {
    assert Located(t, m, k);
    var q := t.owner[m[k]];
    var d :| 0 <= d < |t.mem[q].keys| && t.mem[q].keys[d] == k;
    assert ValueAt(t, m, q, d);
    var hs, nl := JoinHandles(t, p, i, l, r), |t.mem[l].keys|;
    if q == l || q == r || (q == p && d == i) {
      var e := if q == l then d else if q == r then d + nl + 1 else nl;
      assert hs[e] == m[k] && t'.mem[l].keys[e] == k;
    } else {
      NotJoined(t, sh, m, p, i, l, r, q, d);
      assert t'.mem[q].keys[if q == p && d > i then d - 1 else d] == k;
    }
  }

  /** A value elsewhere is not among those joined. */
  lemma NotJoined(t: Tree, sh: Shape, m: map<int, Handle>, p: Ptr, i: int, l: Ptr, r: Ptr, q: Ptr, d: int)
    requires Neighbours(t, sh, p, i, l, r) && Holds(t, m) && q in t.mem && 0 <= d < |t.mem[q].keys| == |t.mem[q].hs|
    requires q != l && q != r && !(q == p && d == i)
    ensures t.mem[q].hs[d] !in JoinHandles(t, p, i, l, r)
  {
    var hs := JoinHandles(t, p, i, l, r);
    if t.mem[q].hs[d] in hs {
      var e :| 0 <= e < |hs| && hs[e] == t.mem[q].hs[d];
      var x, y := JoinValueAt(t, sh, m, p, i, l, r, e);
      HandleOnce(t, sh, m, q, d, x, y);
    }
  }

  /** Merging moves values but neither adds nor loses any. */
  lemma MergeHolds(t: Tree, sh: Shape, m: map<int, Handle>, p: Ptr, i: int, l: Ptr, r: Ptr, t': Tree, sh': Shape)
    requires Neighbours(t, sh, p, i, l, r) && MergeDone(t, sh, p, i, l, r, t', sh')
    requires Holds(t, m) && MergeOwners(t, p, i, l, r, t')
    ensures Holds(t', m)
  {
    forall q, d | q in t'.mem && 0 <= d < |t'.mem[q].keys|
      ensures ValueAt(t', m, q, d)
    {
      MergeValueAt(t, sh, m, p, i, l, r, t', sh', q, d);
    }
    forall k | k in m
      ensures Located(t', m, k)
    {
      MergeLocated(t, sh, m, p, i, l, r, t', sh', k);
    }
  }

  // ---------- The root goes ----------

  /** The only child of an empty root becomes the root. */
  function Collapse(t: Tree): Tree
    requires t.root in t.mem && |t.mem[t.root].kids| > 0 && t.mem[t.root].kids[0] in t.mem
  {
    var l := t.mem[t.root].kids[0];
    t.(mem := t.mem[l := t.mem[l].(parent := 0)] - {t.root}, root := l)
  }

  lemma CollapseShaped(t: Tree, sh: Shape)
    requires Shaped(t, sh) && t.root in t.mem && t.mem[t.root].keys == [] && sh[t.root].lvl > 0
    ensures |t.mem[t.root].kids| == 1 && t.mem[t.root].kids[0] in t.mem
    ensures Shaped(Collapse(t), sh - {t.root})
  {
    assert NodeOk(t, sh, t.root) && KidAt(t, sh, t.root, 0);
    var t', sh', l := Collapse(t), sh - {t.root}, t.mem[t.root].kids[0];
    KidLevel(t, sh, t.root, l);
    forall q | q in t'.mem
      ensures NodeOk(t', sh', q)
    {
      assert NodeOk(t, sh, q);
      forall d | 0 <= d < |t.mem[q].kids|
        ensures KidKept(t, sh, t', sh', q, t.mem[q].kids[d])
      {
        KidLevel(t, sh, q, t.mem[q].kids[d]);
        assert UpOk(t, sh, t.root);
      }
      SameNode(t, sh, t', sh', q);
      if q != l {
        CollapseUpOk(t, sh, q);
      }
    }
  }

  lemma CollapseUpOk(t: Tree, sh: Shape, q: Ptr)
    requires Shaped(t, sh) && t.root in t.mem && t.mem[t.root].keys == [] && sh[t.root].lvl > 0
    requires |t.mem[t.root].kids| == 1 && t.mem[t.root].kids[0] in t.mem
    requires q in t.mem && q != t.root && q != t.mem[t.root].kids[0] && t.mem[t.root].kids[0] != t.root
    ensures UpOk(Collapse(t), sh - {t.root}, q)
  {
    assert NodeOk(t, sh, q);
    var l := t.mem[t.root].kids[0];
    KidLevel(t, sh, t.root, l);
    var d := KidIndex(t, sh, q);
    assert NodeOk(t, sh, t.mem[q].parent);
  }

  lemma CollapseHolds(t: Tree, m: map<int, Handle>)
    requires Holds(t, m) && t.root in t.mem && t.mem[t.root].keys == []
    requires |t.mem[t.root].kids| > 0 && t.mem[t.root].kids[0] in t.mem
    ensures Holds(Collapse(t), m)
  {
    var t' := Collapse(t);
    forall q, i | q in t'.mem && 0 <= i < |t'.mem[q].keys|
      ensures ValueAt(t', m, q, i)
    {
      assert ValueAt(t, m, q, i);
    }
    forall k | k in m
      ensures Located(t', m, k)
    {
      assert Located(t, m, k);
    }
  }
}
