/** The node store of the pre-allocating B-tree: nodes live at addresses and point to each other, so
    parent links and aliasing are explicit. A node keeps the valid prefix of its arrays. */
module BtreeModel {

  /** Values per node; every node but the root is at least half full. */
  const N := 8
  const HALF := 4

  /** Addresses; 0 is the null pointer. */
  type Ptr = nat
  type Handle = nat

  datatype Node = Node(keys: seq<int>, hs: seq<Handle>, kids: seq<Ptr>, parent: Ptr)

  /** `owner` is each handle's `parent` field; `left` is the cached leftmost leaf. */
  datatype Tree = Tree(mem: map<Ptr, Node>, root: Ptr, left: Ptr, owner: map<Handle, Ptr>)

  const EMPTY := Tree(map[], 0, 0, map[])

  // ---------- Where a node stands ----------

  /** An end of a key interval: unbounded, or just beside a key. */
  datatype Bound = Inf | Key(k: int)

  /** A node's height above the leaves and the open interval its keys lie in. */
  datatype Place = Place(lvl: nat, lo: Bound, hi: Bound)

  type Shape = map<Ptr, Place>

  predicate Within(pl: Place, x: int) {
    (pl.lo.Inf? || pl.lo.k < x) && (pl.hi.Inf? || x < pl.hi.k)
  }

  predicate Sorted(keys: seq<int>) {
    forall i, j :: 0 <= i < j < |keys| ==> keys[i] < keys[j]
  }

  function SlotLo(keys: seq<int>, lo: Bound, i: int): Bound
    requires 0 <= i <= |keys|
  {
    if i == 0 then lo else Key(keys[i - 1])
  }

  function SlotHi(keys: seq<int>, hi: Bound, i: int): Bound
    requires 0 <= i <= |keys|
  {
    if i == |keys| then hi else Key(keys[i])
  }

  /** The place of the i-th child of a node with these keys at place `pl`. */
  function Slot(keys: seq<int>, pl: Place, i: int): Place
    requires 0 <= i <= |keys| && pl.lvl > 0
  {
    Place(pl.lvl - 1, SlotLo(keys, pl.lo, i), SlotHi(keys, pl.hi, i))
  }

  // ---------- Shape: ordering, equal depth, exact parent links ----------

  ghost predicate KeysOk(n: Node, pl: Place) {
    && |n.keys| == |n.hs|
    && Sorted(n.keys)
    && (forall i :: 0 <= i < |n.keys| ==> Within(pl, n.keys[i]))
  }

  ghost predicate KidAt(t: Tree, sh: Shape, p: Ptr, i: int)
    requires p in t.mem && p in sh && sh[p].lvl > 0
    requires 0 <= i < |t.mem[p].kids| == |t.mem[p].keys| + 1
  {
    var q := t.mem[p].kids[i];
    q in t.mem && q in sh && t.mem[q].parent == p && sh[q] == Slot(t.mem[p].keys, sh[p], i)
  }

  ghost predicate KidsOk(t: Tree, sh: Shape, p: Ptr)
    requires p in t.mem && p in sh
  {
    && (sh[p].lvl == 0 ==> t.mem[p].kids == [])
    && (sh[p].lvl > 0 ==>
          && |t.mem[p].kids| == |t.mem[p].keys| + 1
          && forall i {:trigger KidAt(t, sh, p, i)} :: 0 <= i < |t.mem[p].kids| ==> KidAt(t, sh, p, i))
  }

  ghost predicate UpOk(t: Tree, sh: Shape, p: Ptr)
    requires p in t.mem && p in sh && t.root in sh
  {
    if p == t.root then t.mem[p].parent == 0 && sh[p].lo == Inf && sh[p].hi == Inf
    else
      && t.mem[p].parent in t.mem && p in t.mem[t.mem[p].parent].kids
      && sh[p].lvl < sh[t.root].lvl
  }

  ghost predicate NodeOk(t: Tree, sh: Shape, p: Ptr)
    requires p in t.mem && p in sh && t.root in sh
  {
    KeysOk(t.mem[p], sh[p]) && KidsOk(t, sh, p) && UpOk(t, sh, p)
  }

  ghost predicate Shaped(t: Tree, sh: Shape) {
    && t.mem.Keys == sh.Keys
    && 0 !in t.mem
    && (t.mem == map[] ==> t.root == 0 && t.left == 0)
    && (t.mem != map[] ==>
          && t.root in t.mem
          && t.left in t.mem && sh[t.left].lvl == 0 && sh[t.left].lo == Inf
          && forall p {:trigger NodeOk(t, sh, p)} :: p in t.mem ==> NodeOk(t, sh, p))
  }

  /** Every node within its limits, but for one that may hold one value too many and one that may hold
      one too few. */
  ghost predicate Sized(t: Tree, over: Ptr, under: Ptr) {
    forall p :: p in t.mem ==>
      && |t.mem[p].keys| <= (if p == over then N + 1 else N)
      && |t.mem[p].keys| >= (if p == t.root then 1 else HALF) - (if p == under then 1 else 0)
  }

  // ---------- Contents ----------

  ghost predicate ValueAt(t: Tree, m: map<int, Handle>, p: Ptr, i: int)
    requires p in t.mem && 0 <= i < |t.mem[p].keys| == |t.mem[p].hs|
  {
    var k, h := t.mem[p].keys[i], t.mem[p].hs[i];
    k in m && m[k] == h && h in t.owner && t.owner[h] == p
  }

  ghost predicate Located(t: Tree, m: map<int, Handle>, k: int)
    requires k in m
  {
    m[k] in t.owner && t.owner[m[k]] in t.mem && k in t.mem[t.owner[m[k]]].keys
  }

  ghost predicate Injective(m: map<int, Handle>) {
    forall j, k :: j in m && k in m && m[j] == m[k] ==> j == k
  }

  /** The tree holds exactly the values of `m`, each once, and every handle knows its node. */
  ghost predicate Holds(t: Tree, m: map<int, Handle>) {
    && Injective(m)
    && (forall p :: p in t.mem ==> |t.mem[p].keys| == |t.mem[p].hs|)
    && (forall p, i {:trigger ValueAt(t, m, p, i)} ::
          p in t.mem && 0 <= i < |t.mem[p].keys| ==> ValueAt(t, m, p, i))
    && (forall k {:trigger Located(t, m, k)} :: k in m ==> Located(t, m, k))
  }

  /** A handle occurs once. */
  lemma HandleOnce(t: Tree, sh: Shape, m: map<int, Handle>, p: Ptr, i: int, q: Ptr, j: int)
    requires Shaped(t, sh) && Holds(t, m) && p in t.mem && q in t.mem
    requires 0 <= i < |t.mem[p].keys| == |t.mem[p].hs| && 0 <= j < |t.mem[q].keys| == |t.mem[q].hs|
    requires t.mem[p].hs[i] == t.mem[q].hs[j]
    ensures p == q && i == j
  {
    assert ValueAt(t, m, p, i) && ValueAt(t, m, q, j) && NodeOk(t, sh, p);
  }

  // ---------- Navigation facts ----------

  lemma KidIndex(t: Tree, sh: Shape, q: Ptr) returns (i: int)
    requires Shaped(t, sh) && q in t.mem && q != t.root
    ensures var p := t.mem[q].parent;
      p in t.mem && sh[p].lvl == sh[q].lvl + 1 && 0 <= i < |t.mem[p].kids| == |t.mem[p].keys| + 1
      && t.mem[p].kids[i] == q && sh[q] == Slot(t.mem[p].keys, sh[p], i)
  {
    assert NodeOk(t, sh, q);
    var p := t.mem[q].parent;
    assert NodeOk(t, sh, p);
    i :| 0 <= i < |t.mem[p].kids| && t.mem[p].kids[i] == q;
    assert KidAt(t, sh, p, i);
  }

  /** A child stands one level below its parent. */
  lemma KidLevel(t: Tree, sh: Shape, o: Ptr, q: Ptr)
    requires Shaped(t, sh) && o in t.mem && q in t.mem[o].kids
    ensures q in t.mem && t.mem[q].parent == o && sh[o].lvl > 0 && sh[q].lvl == sh[o].lvl - 1
  {
    assert NodeOk(t, sh, o);
    var i :| 0 <= i < |t.mem[o].kids| && t.mem[o].kids[i] == q;
    assert KidAt(t, sh, o, i);
  }

  /** A child occurs once among its parent's children. */
  lemma KidOnce(t: Tree, sh: Shape, o: Ptr, i: int, k: int)
    requires Shaped(t, sh) && o in t.mem && 0 <= i < |t.mem[o].kids| && 0 <= k < |t.mem[o].kids|
    requires t.mem[o].kids[i] == t.mem[o].kids[k]
    ensures i == k
  {
    assert NodeOk(t, sh, o);
    assert KidAt(t, sh, o, i) && KidAt(t, sh, o, k);
  }

  /** The child `q` of node `p` is untouched between two states. */
  ghost predicate KidKept(t: Tree, sh: Shape, t': Tree, sh': Shape, p: Ptr, q: Ptr) {
    q in t'.mem && q in sh && q in sh' && t'.mem[q].parent == p && sh'[q] == sh[q]
  }

  /** A node that keeps its values, place and children stays well placed. */
  lemma SameNode(t: Tree, sh: Shape, t': Tree, sh': Shape, p: Ptr)
    requires p in t.mem && p in sh && p in t'.mem && p in sh'
    requires KeysOk(t.mem[p], sh[p]) && KidsOk(t, sh, p)
    requires sh'[p] == sh[p] && t'.mem[p] == t.mem[p].(parent := t'.mem[p].parent)
    requires forall i {:trigger KidKept(t, sh, t', sh', p, t.mem[p].kids[i])} ::
      0 <= i < |t.mem[p].kids| ==> KidKept(t, sh, t', sh', p, t.mem[p].kids[i])
    ensures KeysOk(t'.mem[p], sh'[p]) && KidsOk(t', sh', p)
  {
    if sh[p].lvl > 0 {
      forall i | 0 <= i < |t'.mem[p].kids|
        ensures KidAt(t', sh', p, i)
      {
        assert KidAt(t, sh, p, i);
        assert KidKept(t, sh, t', sh', p, t.mem[p].kids[i]);
      }
    }
  }

  /** A child's interval lies in its parent's. */
  lemma SlotWithin(n: Node, pl: Place, i: int, x: int)
    requires KeysOk(n, pl) && pl.lvl > 0 && 0 <= i <= |n.keys| && Within(Slot(n.keys, pl, i), x)
    ensures Within(pl, x)
  {
  }

  lemma SlotsApart(keys: seq<int>, pl: Place, i: int, j: int, x: int)
    requires Sorted(keys) && pl.lvl > 0 && 0 <= i < j <= |keys|
    ensures !(Within(Slot(keys, pl, i), x) && Within(Slot(keys, pl, j), x))
  {
  }

  /** Two nodes of one level have disjoint intervals. */
  lemma {:induction false} LevelApart(t: Tree, sh: Shape, p: Ptr, q: Ptr, x: int)
    requires Shaped(t, sh) && p in t.mem && q in t.mem && sh[p].lvl == sh[q].lvl
    requires Within(sh[p], x) && Within(sh[q], x)
    ensures p == q
    decreases sh[t.root].lvl - sh[p].lvl
  {
    assert NodeOk(t, sh, p) && NodeOk(t, sh, q);
    if p != t.root && q != t.root {
      var i := KidIndex(t, sh, p);
      var j := KidIndex(t, sh, q);
      var pp, qq := t.mem[p].parent, t.mem[q].parent;
      assert NodeOk(t, sh, pp) && NodeOk(t, sh, qq);
      SlotWithin(t.mem[pp], sh[pp], i, x);
      SlotWithin(t.mem[qq], sh[qq], j, x);
      LevelApart(t, sh, pp, qq, x);
      if i < j {
        SlotsApart(t.mem[pp].keys, sh[pp], i, j, x);
      } else if j < i {
        SlotsApart(t.mem[pp].keys, sh[pp], j, i, x);
      }
    }
  }

  /** A value lies at or below the node whose interval a search for it has reached. */
  lemma SearchGoesDown(t: Tree, sh: Shape, m: map<int, Handle>, p: Ptr, k: int)
    requires Shaped(t, sh) && Holds(t, m) && p in t.mem && Within(sh[p], k) && k in m
    requires Located(t, m, k) && sh[t.owner[m[k]]].lvl <= sh[p].lvl
    ensures sh[t.owner[m[k]]].lvl == sh[p].lvl ==> k in t.mem[p].keys
  {
    var q := t.owner[m[k]];
    if sh[q].lvl == sh[p].lvl {
      assert NodeOk(t, sh, q);
      LevelApart(t, sh, p, q, k);
    }
  }
}
