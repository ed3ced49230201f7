/** Removal from the B-tree, seen logically: the value (or its successor's slot in a leaf) goes, and a
    node left with one value too few borrows from a sibling or merges with it. */
module BtreeTakeOut {
  import opened BtreeModel
  import opened BtreeInsert

  function Drop<T>(s: seq<T>, i: int): seq<T>
    requires 0 <= i < |s|
  {
    s[..i] + s[i + 1..]
  }

  // ---------- A value in a leaf ----------

  function LeafDrop(t: Tree, p: Ptr, i: int): Tree
    requires p in t.mem && 0 <= i < |t.mem[p].keys| == |t.mem[p].hs|
  {
    var n := t.mem[p];
    t.(mem := t.mem[p := n.(keys := Drop(n.keys, i), hs := Drop(n.hs, i))])
  }

  lemma LeafDropShaped(t: Tree, sh: Shape, p: Ptr, i: int)
    requires Shaped(t, sh) && p in t.mem && sh[p].lvl == 0 && 0 <= i < |t.mem[p].keys| == |t.mem[p].hs|
    ensures Shaped(LeafDrop(t, p, i), sh)
  {
    var t' := LeafDrop(t, p, i);
    assert NodeOk(t, sh, p);
    forall q | q in t'.mem
      ensures NodeOk(t', sh, q)
    {
      assert NodeOk(t, sh, q);
      if q != p {
        forall c | 0 <= c < |t.mem[q].kids|
          ensures KidKept(t, sh, t', sh, q, t.mem[q].kids[c])
        {
          assert KidAt(t, sh, q, c);
        }
        SameNode(t, sh, t', sh, q);
      }
    }
  }

  lemma LeafDropHolds(t: Tree, sh: Shape, m: map<int, Handle>, p: Ptr, i: int)
    requires Shaped(t, sh) && Holds(t, m) && p in t.mem && 0 <= i < |t.mem[p].keys| == |t.mem[p].hs|
    ensures Holds(LeafDrop(t, p, i), m - {t.mem[p].keys[i]})
  {
    var t', k := LeafDrop(t, p, i), t.mem[p].keys[i];
    var m' := m - {k};
    assert NodeOk(t, sh, p) && ValueAt(t, m, p, i);
    forall q, c | q in t'.mem && 0 <= c < |t'.mem[q].keys|
      ensures ValueAt(t', m', q, c)
    {
      var d := if q == p && c >= i then c + 1 else c;
      assert ValueAt(t, m, q, d);
      if t.mem[q].keys[d] == k {
        HandleOnce(t, sh, m, q, d, p, i);
      }
    }
    forall x | x in m'
      ensures Located(t', m', x)
    {
      assert Located(t, m, x);
      if t.owner[m[x]] == p {
        var d :| 0 <= d < |t.mem[p].keys| && t.mem[p].keys[d] == x;
        assert t'.mem[p].keys[if d < i then d else d - 1] == x;
      }
    }
  }

  // ---------- A value in an inner node: its successor takes its slot ----------

  /** The leaf just right of key `k` has the least key above it, and no inner node does. */
  lemma {:induction false} NextKey(t: Tree, sh: Shape, leaf: Ptr, k: int, q: Ptr)
    requires Shaped(t, sh) && leaf in t.mem && q in t.mem && sh[leaf].lvl == 0
    requires sh[leaf].lo == Key(k) && sh[q].lo == Key(k)
    requires forall x :: x in t.mem ==> t.mem[x].keys != []
    ensures q == leaf || t.mem[leaf].keys[0] < t.mem[q].keys[0]
    decreases sh[q].lvl
  {
    assert NodeOk(t, sh, q) && NodeOk(t, sh, leaf);
    var a, b := t.mem[leaf].keys[0], t.mem[q].keys[0];
    if sh[q].lvl == 0 {
      LevelApart0(t, sh, leaf, q, if a <= b then a else b);
    } else {
      var c := t.mem[q].kids[0];
      assert KidAt(t, sh, q, 0);
      NextKey(t, sh, leaf, k, c);
      assert NodeOk(t, sh, c);
      assert Within(sh[c], t.mem[c].keys[0]);
    }
  }

  lemma LevelApart0(t: Tree, sh: Shape, p: Ptr, q: Ptr, x: int)
    requires Shaped(t, sh) && p in t.mem && q in t.mem && sh[p].lvl == sh[q].lvl
    ensures Within(sh[p], x) && Within(sh[q], x) ==> p == q
  {
    if Within(sh[p], x) && Within(sh[q], x) {
      LevelApart(t, sh, p, q, x);
    }
  }

  function Promote(t: Tree, p: Ptr, i: int, leaf: Ptr): Tree
    requires p in t.mem && leaf in t.mem && p != leaf && 0 <= i < |t.mem[p].keys| == |t.mem[p].hs|
    requires 0 < |t.mem[leaf].keys| == |t.mem[leaf].hs|
  {
    var n, l := t.mem[p], t.mem[leaf];
    t.(mem := t.mem[p := n.(keys := n.keys[i := l.keys[0]], hs := n.hs[i := l.hs[0]])]
                   [leaf := l.(keys := l.keys[1..], hs := l.hs[1..])],
       owner := t.owner[l.hs[0] := p])
  }

  function Move(b: Bound, k: int, k': int): Bound {
    if b == Key(k) then Key(k') else b
  }

  function MovePlace(pl: Place, k: int, k': int): Place {
    Place(pl.lvl, Move(pl.lo, k, k'), Move(pl.hi, k, k'))
  }

  function PromoteShape(sh: Shape, k: int, k': int): Shape {
    map q | q in sh :: MovePlace(sh[q], k, k')
  }

  /** `leaf` is the leftmost leaf below the child right of the i-th key of the inner node `p`. */
  ghost predicate CanPromote(t: Tree, sh: Shape, m: map<int, Handle>, p: Ptr, i: int, leaf: Ptr) {
    && Shaped(t, sh) && Holds(t, m) && p in t.mem && leaf in t.mem && p != leaf
    && (forall x :: x in t.mem ==> t.mem[x].keys != [])
    && 0 <= i < |t.mem[p].keys| == |t.mem[p].hs| && |t.mem[leaf].keys| == |t.mem[leaf].hs|
    && sh[p].lvl > 0 && sh[leaf].lvl == 0 && sh[leaf].lo == Key(t.mem[p].keys[i])
    && Within(Slot(t.mem[p].keys, sh[p], i + 1), t.mem[leaf].keys[0])
  }

  lemma KeyElsewhere(t: Tree, sh: Shape, m: map<int, Handle>, p: Ptr, i: int, q: Ptr, c: int)
    requires Shaped(t, sh) && Holds(t, m) && p in t.mem && q in t.mem
    requires 0 <= i < |t.mem[p].keys| == |t.mem[p].hs| && 0 <= c < |t.mem[q].keys| == |t.mem[q].hs|
    requires t.mem[p].keys[i] == t.mem[q].keys[c]
    ensures p == q && i == c
  {
    assert ValueAt(t, m, p, i) && ValueAt(t, m, q, c) && NodeOk(t, sh, p);
  }

  lemma PromoteKeysOk(t: Tree, sh: Shape, m: map<int, Handle>, p: Ptr, i: int, leaf: Ptr, q: Ptr)
    requires CanPromote(t, sh, m, p, i, leaf) && q in t.mem
    ensures var t', sh' := Promote(t, p, i, leaf), PromoteShape(sh, t.mem[p].keys[i], t.mem[leaf].keys[0]);
      KeysOk(t'.mem[q], sh'[q])
  {
    var k, k' := t.mem[p].keys[i], t.mem[leaf].keys[0];
    assert NodeOk(t, sh, q) && NodeOk(t, sh, p) && NodeOk(t, sh, leaf);
    if q == p {
      ReplacedKeyOk(t.mem[p], sh[p], i, k', t.mem[leaf].hs[0]);
    } else {
      if sh[q].lo == Key(k) {
        NextKey(t, sh, leaf, k, q);
      }
      MovedKeysOk(t.mem[q], sh[q], k, k', q == leaf);
    }
  }

  /** A key replaced by one from the interval to its right. */
  lemma ReplacedKeyOk(n: Node, pl: Place, i: int, k': int, h: Handle)
    requires KeysOk(n, pl) && pl.lvl > 0 && 0 <= i < |n.keys| && Within(Slot(n.keys, pl, i + 1), k')
    ensures KeysOk(n.(keys := n.keys[i := k'], hs := n.hs[i := h]), MovePlace(pl, n.keys[i], k'))
  {
    assert Within(pl, n.keys[i]);
    SlotWithin(n, pl, i + 1, k');
  }

  /** A bound moved up to `k'`: the keys above the old bound are above the new one, or the first of them is it. */
  lemma MovedKeysOk(n: Node, pl: Place, k: int, k': int, first: bool)
    requires KeysOk(n, pl) && n.keys != [] && k < k'
    requires if first then n.keys[0] == k' && pl.lo == Key(k) else pl.lo == Key(k) ==> k' < n.keys[0]
    ensures KeysOk(if first then n.(keys := n.keys[1..], hs := n.hs[1..]) else n, MovePlace(pl, k, k'))
  {
    forall j | 0 <= j < |n.keys|
      ensures Within(pl, n.keys[j]) && (j > 0 ==> n.keys[0] < n.keys[j])
    {
    }
  }

  lemma PromoteKidsOk(t: Tree, sh: Shape, m: map<int, Handle>, p: Ptr, i: int, leaf: Ptr, q: Ptr)
    requires CanPromote(t, sh, m, p, i, leaf) && q in t.mem
    ensures var t', sh' := Promote(t, p, i, leaf), PromoteShape(sh, t.mem[p].keys[i], t.mem[leaf].keys[0]);
      KidsOk(t', sh', q)
  {
    var k, k' := t.mem[p].keys[i], t.mem[leaf].keys[0];
    var t', sh' := Promote(t, p, i, leaf), PromoteShape(sh, k, k');
    assert NodeOk(t, sh, q) && NodeOk(t, sh, leaf);
    if sh[q].lvl > 0 {
      forall c | 0 <= c < |t'.mem[q].kids|
        ensures KidAt(t', sh', q, c)
      {
        assert KidAt(t, sh, q, c);
        PromoteSlot(t, sh, m, p, i, leaf, q, c);
      }
    }
  }

  lemma PromoteSlot(t: Tree, sh: Shape, m: map<int, Handle>, p: Ptr, i: int, leaf: Ptr, q: Ptr, c: int)
    requires CanPromote(t, sh, m, p, i, leaf) && q in t.mem && sh[q].lvl > 0 && 0 <= c <= |t.mem[q].keys|
    ensures var k, k' := t.mem[p].keys[i], t.mem[leaf].keys[0];
      var keys' := Promote(t, p, i, leaf).mem[q].keys;
      && |keys'| == |t.mem[q].keys|
      && Slot(keys', MovePlace(sh[q], k, k'), c) == MovePlace(Slot(t.mem[q].keys, sh[q], c), k, k')
  {
    assert NodeOk(t, sh, q) && NodeOk(t, sh, p) && NodeOk(t, sh, leaf);
    var k := t.mem[p].keys[i];
    forall d | 0 <= d < |t.mem[q].keys| && t.mem[q].keys[d] == k
      ensures q == p && d == i
    {
      KeyElsewhere(t, sh, m, q, d, p, i);
    }
  }

  lemma PromoteShaped(t: Tree, sh: Shape, m: map<int, Handle>, p: Ptr, i: int, leaf: Ptr)
    requires CanPromote(t, sh, m, p, i, leaf)
    ensures Shaped(Promote(t, p, i, leaf), PromoteShape(sh, t.mem[p].keys[i], t.mem[leaf].keys[0]))
  {
    var t', sh' := Promote(t, p, i, leaf), PromoteShape(sh, t.mem[p].keys[i], t.mem[leaf].keys[0]);
    forall q | q in t'.mem
      ensures NodeOk(t', sh', q)
    {
      PromoteKeysOk(t, sh, m, p, i, leaf, q);
      PromoteKidsOk(t, sh, m, p, i, leaf, q);
      assert NodeOk(t, sh, q);
    }
  }

  lemma PromoteHolds(t: Tree, sh: Shape, m: map<int, Handle>, p: Ptr, i: int, leaf: Ptr)
    requires CanPromote(t, sh, m, p, i, leaf)
    ensures Holds(Promote(t, p, i, leaf), m - {t.mem[p].keys[i]})
  {
    var t', k, h' := Promote(t, p, i, leaf), t.mem[p].keys[i], t.mem[leaf].hs[0];
    var m' := m - {k};
    assert ValueAt(t, m, leaf, 0) && ValueAt(t, m, p, i) && NodeOk(t, sh, p) && NodeOk(t, sh, leaf);
    assert t.mem[leaf].keys[0] != k;
    forall q, c | q in t'.mem && 0 <= c < |t'.mem[q].keys|
      ensures ValueAt(t', m', q, c)
    {
      if !(q == p && c == i) {
        var d := if q == leaf then c + 1 else c;
        assert ValueAt(t, m, q, d);
        if t.mem[q].keys[d] == k {
          KeyElsewhere(t, sh, m, q, d, p, i);
        }
        if t.mem[q].hs[d] == h' {
          HandleOnce(t, sh, m, q, d, leaf, 0);
        }
      }
    }
    forall x | x in m'
      ensures Located(t', m', x)
    {
      assert Located(t, m, x);
      var q := t.owner[m[x]];
      var d :| 0 <= d < |t.mem[q].keys| && t.mem[q].keys[d] == x;
      assert ValueAt(t, m, q, d);
      if q == leaf && d == 0 {
        assert t'.mem[p].keys[i] == x;
      } else if q == leaf {
        assert t'.mem[leaf].keys[d - 1] == x;
      } else {
        assert t'.mem[q].keys[d] == x;
      }
    }
  }
}
