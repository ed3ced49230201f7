/** `find` and `insert` on the node store, with their loops, against the finite map they implement. */
module BtreeOps {
  import opened Wrappers
  import opened BtreeModel
  import opened BtreeInsert
  import opened BtreeNodeOps
  import opened BtreeCount

  ghost predicate WellFormed(t: Tree, sh: Shape, m: map<int, Handle>) {
    Shaped(t, sh) && Sized(t, 0, 0) && Holds(t, m)
  }

  // ---------- Searching ----------

  lemma GoDown(t: Tree, sh: Shape, m: map<int, Handle>, p: Ptr, k: int, pos: int)
    requires Shaped(t, sh) && Holds(t, m) && p in t.mem && sh[p].lvl > 0 && Within(sh[p], k)
    requires IsPosition(t.mem[p].keys, pos, k)
    requires k in m ==> Located(t, m, k) && sh[t.owner[m[k]]].lvl <= sh[p].lvl
    ensures pos < |t.mem[p].kids|
    ensures var q := t.mem[p].kids[pos];
      && q in t.mem && Within(sh[q], k) && sh[q].lvl == sh[p].lvl - 1
      && (k in m ==> sh[t.owner[m[k]]].lvl <= sh[q].lvl)
  {
    assert NodeOk(t, sh, p) && KidAt(t, sh, p, pos);
    if k in m {
      SearchGoesDown(t, sh, m, p, k);
    }
  }

  lemma StartAtRoot(t: Tree, sh: Shape, m: map<int, Handle>, k: int)
    requires Shaped(t, sh) && Holds(t, m) && t.mem != map[]
    ensures t.root in t.mem && NodeOk(t, sh, t.root) && Within(sh[t.root], k)
    ensures k in m ==> Located(t, m, k) && sh[t.owner[m[k]]].lvl <= sh[t.root].lvl
  {
    assert NodeOk(t, sh, t.root);
    if k in m {
      assert Located(t, m, k);
      assert NodeOk(t, sh, t.owner[m[k]]);
    }
  }

  lemma NotInLeaf(t: Tree, sh: Shape, m: map<int, Handle>, p: Ptr, k: int)
    requires Shaped(t, sh) && Holds(t, m) && p in t.mem && sh[p].lvl == 0 && Within(sh[p], k)
    requires k in m ==> Located(t, m, k) && sh[t.owner[m[k]]].lvl <= sh[p].lvl
    ensures k in m <==> k in t.mem[p].keys
  {
    if k in m {
      SearchGoesDown(t, sh, m, p, k);
    }
    if k in t.mem[p].keys {
      var i :| 0 <= i < |t.mem[p].keys| && t.mem[p].keys[i] == k;
      assert ValueAt(t, m, p, i);
    }
  }

  lemma HasHome(t: Tree, m: map<int, Handle>, k: int)
    requires Holds(t, m) && k in m
    ensures Located(t, m, k)
  {
    assert Located(t, m, k);
  }

  lemma EmptyHoldsNothing(t: Tree, m: map<int, Handle>)
    requires Holds(t, m) && t.mem == map[]
    ensures forall k :: k !in m
  {
    forall k | k in m
      ensures false
    {
      HasHome(t, m, k);
    }
  }

  /** `find`: the handle filed under `k`, if there is one. */
  method Find(t: Tree, k: int, ghost sh: Shape, ghost m: map<int, Handle>) returns (r: Option<Handle>)
    requires Shaped(t, sh) && Holds(t, m)
    ensures r == if k in m then Some(m[k]) else None
  {
    if t.root == 0 {
      EmptyHoldsNothing(t, m);
      return None;
    }
    StartAtRoot(t, sh, m, k);
    var p := t.root;
    while true
      invariant p in t.mem && Within(sh[p], k)
      invariant k in m ==> Located(t, m, k) && sh[t.owner[m[k]]].lvl <= sh[p].lvl
      decreases sh[p].lvl
    {
      assert NodeOk(t, sh, p);
      var found, i := Scan(t.mem[p].keys, k);
      if found {
        assert ValueAt(t, m, p, i);
        return Some(t.mem[p].hs[i]);
      }
      if t.mem[p].kids == [] {
        NotInLeaf(t, sh, m, p, k);
        return None;
      }
      GoDown(t, sh, m, p, k, i);
      p := t.mem[p].kids[i];
    }
  }

  /** The search of `insert`: is `k` present, and if not, in which leaf does it belong? */
  method FindLeaf(t: Tree, k: int, ghost sh: Shape, ghost m: map<int, Handle>) returns (found: bool, p: Ptr)
    requires Shaped(t, sh) && Holds(t, m) && t.mem != map[]
    requires forall q :: q in t.mem ==> |t.mem[q].keys| <= N
    ensures found <==> k in m
    ensures !found ==> p in t.mem && sh[p].lvl == 0 && Within(sh[p], k) && k !in t.mem[p].keys
  {
    StartAtRoot(t, sh, m, k);
    p := t.root;
    while t.mem[p].kids != []
      invariant p in t.mem && Within(sh[p], k)
      invariant k in m ==> Located(t, m, k) && sh[t.owner[m[k]]].lvl <= sh[p].lvl
      decreases sh[p].lvl
    {
      assert NodeOk(t, sh, p);
      var here, i := Search(t.mem[p].keys, N, k);
      if here {
        var c :| 0 <= c < |t.mem[p].keys| && t.mem[p].keys[c] == k;
        assert ValueAt(t, m, p, c);
        return true, p;
      }
      GoDown(t, sh, m, p, k, i);
      p := t.mem[p].kids[i];
    }
    assert NodeOk(t, sh, p);
    NotInLeaf(t, sh, m, p, k);
    var here, _ := Search(t.mem[p].keys, |t.mem[p].keys|, k);
    found := here;
  }

  // ---------- Splitting upwards ----------

  /** `cur` is the store while a value waits to go into node `p` at `j`; `g` is the tree that would
      result from putting it in at once. */
  ghost predicate Pending(cur: Tree, g: Tree, p: Ptr, j: int, k: int, h: Handle, l: Ptr, r: Ptr) {
    && p in cur.mem && |cur.mem[p].keys| == |cur.mem[p].hs|
    && (cur.mem[p].kids == [] || |cur.mem[p].kids| == |cur.mem[p].keys| + 1)
    && IsPosition(cur.mem[p].keys, j, k) && Sorted(cur.mem[p].keys)
    && g == Tree(cur.mem[p := Overfull(cur.mem[p], j, k, h, l, r)], cur.root, cur.left, cur.owner[h := p])
  }

  function SplitReal(cur: Tree, p: Ptr, s: Ptr, left: Node, right: Node, h: Handle, up: Handle): Tree {
    cur.(mem := Reparent(cur.mem[p := left], right.kids, s)[s := right],
          owner := Reown(if up == h then cur.owner else cur.owner[h := p], right.hs, s))
  }

  lemma SplitRealMemory(cur: Tree, g: Tree, p: Ptr, j: int, k: int, h: Handle, l: Ptr, r: Ptr, s: Ptr)
    requires Pending(cur, g, p, j, k, h, l, r) && s !in g.mem && |g.mem[p].keys| == |g.mem[p].hs| == N + 1
    requires g.mem[p].kids == [] || |g.mem[p].kids| == N + 2
    ensures var n := g.mem[p];
      Halved(g, p, s).mem == SplitReal(cur, p, s, LeftHalf(n), RightHalf(n), h, n.hs[HALF]).mem
  {
    var n := g.mem[p];
    assert g.mem[p := LeftHalf(n)] == cur.mem[p := LeftHalf(n)];
  }

  lemma SplitRealPending(cur: Tree, g: Tree, sh: Shape, p: Ptr, j: int, k: int, h: Handle, l: Ptr, r: Ptr,
                         s: Ptr, q: Ptr, jj: int)
    requires Pending(cur, g, p, j, k, h, l, r) && CanSplit(g, sh, p, s, q, jj)
    ensures var n := g.mem[p];
      Pending(SplitReal(cur, p, s, LeftHalf(n), RightHalf(n), h, n.hs[HALF]), Split(g, p, s, jj), q, jj,
              n.keys[HALF], n.hs[HALF], p, s)
  {
    var n := g.mem[p];
    var cur' := SplitReal(cur, p, s, LeftHalf(n), RightHalf(n), h, n.hs[HALF]);
    SplitRealMemory(cur, g, p, j, k, h, l, r, s);
    assert NodeOk(g, sh, q) && NodeOk(g, sh, p);
    assert Within(sh[p], n.keys[HALF]);
    InsertSorted(g.mem[q].keys, sh[q], jj, n.keys[HALF]);
    AdoptIsOverfull(Halved(g, p, s), cur', q, jj, n.keys[HALF], n.hs[HALF], p, s);
    SplitRealOwner(cur.owner, p, s, RightHalf(n).hs, h, n.hs[HALF], q);
  }

  lemma SplitRealOwner(owner: map<Handle, Ptr>, p: Ptr, s: Ptr, right: seq<Handle>, h: Handle, up: Handle, q: Ptr)
    ensures Reown(owner[h := p], right, s)[up := q]
         == Reown(if up == h then owner else owner[h := p], right, s)[up := q]
  {
  }

  lemma AdoptIsOverfull(t: Tree, cur: Tree, q: Ptr, jj: int, k: int, h: Handle, l: Ptr, s: Ptr)
    requires t.mem == cur.mem && q in t.mem && 0 <= jj < |t.mem[q].kids| == |t.mem[q].keys| + 1
    requires |t.mem[q].keys| == |t.mem[q].hs| && t.mem[q].kids[jj] == l
    ensures Adopt(t, q, jj, k, h, s).mem == cur.mem[q := Overfull(cur.mem[q], jj, k, h, l, s)]
  {
    assert Insert(t.mem[q].kids, jj + 1, s) == t.mem[q].kids[..jj] + [l, s] + t.mem[q].kids[jj + 1..];
  }

  function GrowReal(cur: Tree, p: Ptr, nr: Ptr): Tree
    requires p in cur.mem
  {
    cur.(mem := cur.mem[p := cur.mem[p].(parent := nr)][nr := Node([], [], [p], 0)], root := nr)
  }

  lemma GrowRealPending(cur: Tree, g: Tree, p: Ptr, j: int, k: int, h: Handle, l: Ptr, r: Ptr, nr: Ptr)
    requires Pending(cur, g, p, j, k, h, l, r) && p == cur.root && nr !in cur.mem
    ensures Pending(GrowReal(cur, p, nr), Grow(g, nr), p, j, k, h, l, r)
  {
    var cur', g' := GrowReal(cur, p, nr), Grow(g, nr);
    assert g'.mem == cur'.mem[p := Overfull(cur'.mem[p], j, k, h, l, r)];
  }

  /** The reserve list: distinct addresses outside the tree. */
  ghost predicate ReserveOk(t: Tree, reserve: seq<Ptr>) {
    && (forall i, j :: 0 <= i < j < |reserve| ==> reserve[i] != reserve[j])
    && (forall i :: 0 <= i < |reserve| ==> reserve[i] != 0 && reserve[i] !in t.mem)
  }

  /** The logical tree while a value waits at `p`: in order, with at most that node overfull. */
  ghost predicate Waiting(g: Tree, sh: Shape, m: map<int, Handle>, p: Ptr) {
    Shaped(g, sh) && Holds(g, m) && Sized(g, p, 0)
  }

  /** One pass of the split loop under an existing parent. */
  lemma SplitKeeps(g: Tree, sh: Shape, m: map<int, Handle>, p: Ptr, s: Ptr, q: Ptr, jj: int, u: Ptr)
    requires Shaped(g, sh) && Holds(g, m) && Sized(g, p, u) && (u == 0 || u == q)
    requires CanSplit(g, sh, p, s, q, jj)
    ensures Waiting(Split(g, p, s, jj), SplitShape(g, sh, p, s), m, q)
    ensures Split(g, p, s, jj).owner.Keys == g.owner.Keys
  {
    assert ValueAt(g, m, p, HALF);
    var g', sh' := Split(g, p, s, jj), SplitShape(g, sh, p, s);
    SplitIsDone(g, sh, p, s, q, jj);
    SplitOwnersDone(g, sh, m, p, s, q, jj);
    SplitShaped(g, sh, p, s, q, jj, g', sh');
    SplitSized(g, sh, p, s, q, jj, g', sh', u);
    SplitHolds(g, sh, m, p, s, q, jj, g', sh');
  }

  lemma GrowKeeps(g: Tree, sh: Shape, m: map<int, Handle>, nr: Ptr)
    requires Waiting(g, sh, m, g.root) && g.root in g.mem && nr !in g.mem && nr != 0
    requires |g.mem[g.root].keys| >= HALF
    ensures Shaped(Grow(g, nr), GrowShape(g, sh, nr)) && Holds(Grow(g, nr), m)
    ensures Sized(Grow(g, nr), g.root, nr)
  {
    GrowShaped(g, sh, nr);
    GrowHolds(g, sh, m, nr);
  }

  /** The reserve has the one node a split needs, or the two when the root splits. */
  lemma ReserveSuffices(g: Tree, sh: Shape, m: map<int, Handle>, p: Ptr, reserve: seq<Ptr>)
    requires Waiting(g, sh, m, p) && p in g.mem && |g.mem[p].keys| == N + 1
    requires HALF * (|g.mem| + |reserve|) >= |m|
    ensures |reserve| >= if p == g.root then 2 else 1
  {
    NodesNeededToSplit(g, sh, m, p);
  }

  /** What one split does to the store and to the tree it stands for. */
  lemma SplitAdvances(cur: Tree, g: Tree, sh: Shape, m: map<int, Handle>, p: Ptr, j: int, k: int, h: Handle, l: Ptr,
                      r: Ptr, s: Ptr, u: Ptr) returns (jj: int)
    requires Pending(cur, g, p, j, k, h, l, r) && |cur.mem[p].keys| == N && p != g.root
    requires Shaped(g, sh) && Holds(g, m) && Sized(g, p, u) && (u == 0 || u == g.mem[p].parent)
    requires s !in cur.mem && s != 0
    ensures var n, q := g.mem[p], g.mem[p].parent;
      && CanSplit(g, sh, p, s, q, jj) && n == Overfull(cur.mem[p], j, k, h, l, r)
      && q == cur.mem[p].parent && q in cur.mem
      && Pending(SplitReal(cur, p, s, LeftHalf(n), RightHalf(n), h, n.hs[HALF]), Split(g, p, s, jj), q, jj,
                 n.keys[HALF], n.hs[HALF], p, s)
      && Waiting(Split(g, p, s, jj), SplitShape(g, sh, p, s), m, q) && Split(g, p, s, jj).owner.Keys == g.owner.Keys
  {
    jj := CanSplitNonRoot(g, sh, p, s);
    SplitRealPending(cur, g, sh, p, j, k, h, l, r, s, g.mem[p].parent, jj);
    SplitKeeps(g, sh, m, p, s, g.mem[p].parent, jj, u);
  }

  /** The body of the split loop of `insert` for a full node under a parent. */
  method SplitUnderParent(cur: Tree, p: Ptr, k: int, h: Handle, l: Ptr, r: Ptr, s: Ptr,
                          ghost j: int, ghost g: Tree, ghost sh: Shape, ghost m: map<int, Handle>, ghost u: Ptr)
    returns (cur': Tree, k': int, h': Handle, ghost j': int, ghost g': Tree, ghost sh': Shape)
    requires Pending(cur, g, p, j, k, h, l, r) && |cur.mem[p].keys| == N && p != g.root
    requires Shaped(g, sh) && Holds(g, m) && Sized(g, p, u) && (u == 0 || u == g.mem[p].parent)
    requires s !in cur.mem && s != 0
    ensures var q := cur.mem[p].parent;
      && Pending(cur', g', q, j', k', h', p, s) && Waiting(g', sh', m, q)
      && q in sh && sh[q].lvl == sh[p].lvl + 1 && sh' == SplitShape(g, sh, p, s)
    ensures cur'.mem.Keys == cur.mem.Keys + {s} && cur'.root == cur.root && g'.owner.Keys == g.owner.Keys
    ensures var q := cur.mem[p].parent; q in cur.mem && q != p && cur'.mem[q].keys == cur.mem[q].keys
  {
    j' := SplitAdvances(cur, g, sh, m, p, j, k, h, l, r, s, u);
    var left, right, upKey, upHandle := SplitFull(cur.mem[p], k, h, l, r, j);
    k', h' := upKey, upHandle;
    cur' := SplitReal(cur, p, s, left, right, h, h');
    g', sh' := Split(g, p, s, j'), SplitShape(g, sh, p, s);
  }

  /** How far the split loop can still climb from `p`. */
  ghost function Climb(t: Tree, sh: Shape, p: Ptr): nat
    requires p in t.mem && p in sh && t.root in sh
  {
    if t.mem[p].keys == [] || sh[t.root].lvl < sh[p].lvl then 0 else 1 + sh[t.root].lvl - sh[p].lvl
  }

  lemma TakeFromReserve(t: Tree, reserve: seq<Ptr>, t': Tree)
    requires ReserveOk(t, reserve) && reserve != [] && t'.mem.Keys == t.mem.Keys + {reserve[0]}
    ensures ReserveOk(t', reserve[1..]) && |t'.mem| + |reserve[1..]| == |t.mem| + |reserve|
  {
    assert |t'.mem.Keys| == |t.mem.Keys| + 1;
    assert |t'.mem| == |t'.mem.Keys| && |t.mem| == |t.mem.Keys|;
  }

  /** One pass of the split loop below the root: it takes one node from the reserve. */
  method SplitInner(cur: Tree, reserve: seq<Ptr>, p: Ptr, k: int, h: Handle, l: Ptr, r: Ptr,
                    ghost j: int, ghost g: Tree, ghost sh: Shape, ghost m: map<int, Handle>)
    returns (cur': Tree, k': int, h': Handle, ghost j': int, ghost g': Tree, ghost sh': Shape)
    requires Pending(cur, g, p, j, k, h, l, r) && Waiting(g, sh, m, p) && |cur.mem[p].keys| == N
    requires ReserveOk(cur, reserve) && reserve != [] && p != cur.root
    ensures Pending(cur', g', cur.mem[p].parent, j', k', h', p, reserve[0])
    ensures Waiting(g', sh', m, cur.mem[p].parent)
    ensures ReserveOk(cur', reserve[1..]) && |cur'.mem| == |cur.mem| + 1
    ensures Climb(cur', sh', cur.mem[p].parent) < Climb(cur, sh, p) && g'.owner.Keys == g.owner.Keys
  {
    assert NodeOk(g, sh, p);
    cur', k', h', j', g', sh' := SplitUnderParent(cur, p, k, h, l, r, reserve[0], j, g, sh, m, 0);
    TakeFromReserve(cur, reserve, cur');
  }

  /** The pass that splits the root: it takes two nodes, the second for the new root. */
  method SplitRoot(cur: Tree, reserve: seq<Ptr>, p: Ptr, k: int, h: Handle, l: Ptr, r: Ptr,
                   ghost j: int, ghost g: Tree, ghost sh: Shape, ghost m: map<int, Handle>)
    returns (cur': Tree, k': int, h': Handle, ghost j': int, ghost g': Tree, ghost sh': Shape)
    requires Pending(cur, g, p, j, k, h, l, r) && Waiting(g, sh, m, p) && |cur.mem[p].keys| == N
    requires ReserveOk(cur, reserve) && |reserve| >= 2 && p == cur.root
    ensures Pending(cur', g', reserve[1], j', k', h', p, reserve[0])
    ensures Waiting(g', sh', m, reserve[1])
    ensures ReserveOk(cur', reserve[2..]) && |cur'.mem| == |cur.mem| + 2
    ensures cur'.mem[reserve[1]].keys == [] && g'.owner.Keys == g.owner.Keys
  {
    var s, nr := reserve[0], reserve[1];
    var grown := GrowReal(cur, p, nr);
    GrowRealPending(cur, g, p, j, k, h, l, r, nr);
    GrowKeeps(g, sh, m, nr);
    cur', k', h', j', g', sh' :=
      SplitUnderParent(grown, p, k, h, l, r, s, j, Grow(g, nr), GrowShape(g, sh, nr), m, nr);
    TakeTwo(cur, reserve, cur');
  }

  lemma TakeTwo(t: Tree, reserve: seq<Ptr>, t': Tree)
    requires ReserveOk(t, reserve) && |reserve| >= 2 && t'.mem.Keys == t.mem.Keys + {reserve[1]} + {reserve[0]}
    ensures ReserveOk(t', reserve[2..]) && |t'.mem| == |t.mem| + 2
  {
    assert |t'.mem.Keys| == |t.mem.Keys| + 2;
    assert |t'.mem| == |t'.mem.Keys| && |t.mem| == |t.mem.Keys|;
  }

  // ---------- insert ----------

  lemma LeafPending(t: Tree, sh: Shape, m: map<int, Handle>, p: Ptr, j: int, k: int, h: Handle, u: Ptr)
    requires Shaped(t, sh) && Holds(t, m) && Sized(t, 0, u) && (u == 0 || u == p)
    requires p in t.mem && sh[p].lvl == 0 && Within(sh[p], k) && IsPosition(t.mem[p].keys, j, k)
    requires k !in m && (forall x :: x in m ==> m[x] != h)
    ensures |t.mem[p].keys| == |t.mem[p].hs|
    ensures Pending(t, LeafInsert(t, p, j, k, h), p, j, k, h, 0, 0)
    ensures Waiting(LeafInsert(t, p, j, k, h), sh, m[k := h], p)
  {
    assert NodeOk(t, sh, p);
    LeafInsertShaped(t, sh, p, j, k, h);
    LeafInsertHolds(t, m, p, j, k, h);
  }

  lemma PlacedIsWellFormed(g: Tree, sh: Shape, m: map<int, Handle>, p: Ptr)
    requires Waiting(g, sh, m, p) && p in g.mem && |g.mem[p].keys| <= N
    ensures WellFormed(g, sh, m)
  {
  }

  /** `insert` into a tree that has a root: a new value is added under its handle, a value already
      present changes nothing, and the reserve never runs out. */
  method InsertBelowRoot(t: Tree, reserve: seq<Ptr>, h: Handle, k: int,
                         ghost sh: Shape, ghost m: map<int, Handle>, ghost u: Ptr)
    returns (inserted: bool, t': Tree, reserve': seq<Ptr>, ghost sh': Shape)
    requires Shaped(t, sh) && Holds(t, m) && Sized(t, 0, u) && t.mem != map[]
    requires u == 0 || (u == t.root && t.mem[u].keys == [] && sh[u].lvl == 0)
    requires ReserveOk(t, reserve) && HALF * (|t.mem| + |reserve|) >= |m| + 1
    requires forall x :: x in m ==> m[x] != h
    ensures inserted <==> k !in m
    ensures !inserted ==> t' == t && reserve' == reserve && sh' == sh
    ensures inserted ==> WellFormed(t', sh', m[k := h]) && t'.owner.Keys == t.owner.Keys + {h}
    ensures ReserveOk(t', reserve') && |t'.mem| + |reserve'| == |t.mem| + |reserve|
  {
    var found, p := FindLeaf(t, k, sh, m);
    if found {
      return false, t, reserve, sh;
    }
    if u != 0 {
      OnlyLeaf(t, sh, p);
    }
    assert NodeOk(t, sh, p);
    var pos := InsertPosition(t.mem[p].keys, k);
    LeafPending(t, sh, m, p, pos, k, h, u);
    t', reserve', sh' := InsertAndSplit(t, reserve, p, k, h, pos, LeafInsert(t, p, pos, k, h), sh, m[k := h]);
    inserted := true;
  }

  /** In a tree whose root is a leaf there is no other leaf. */
  lemma OnlyLeaf(t: Tree, sh: Shape, p: Ptr)
    requires Shaped(t, sh) && p in t.mem && sh[t.root].lvl == 0
    ensures p == t.root
  {
    assert NodeOk(t, sh, p);
  }

  /** The split loop of `insert` and the final placement. */
  method InsertAndSplit(t: Tree, reserve: seq<Ptr>, leaf: Ptr, k: int, h: Handle, ghost pos: int,
                        ghost g0: Tree, ghost sh: Shape, ghost m: map<int, Handle>)
    returns (t': Tree, reserve': seq<Ptr>, ghost sh': Shape)
    requires Pending(t, g0, leaf, pos, k, h, 0, 0) && Waiting(g0, sh, m, leaf)
    requires ReserveOk(t, reserve) && HALF * (|t.mem| + |reserve|) >= |m|
    ensures WellFormed(t', sh', m) && t'.owner.Keys == t.owner.Keys + {h}
    ensures ReserveOk(t', reserve') && |t'.mem| + |reserve'| == |t.mem| + |reserve|
  {
    var p, key, hndl, leftDown, rightDown := leaf, k, h, 0, 0;
    ghost var j, g := pos, g0;
    t', reserve', sh' := t, reserve, sh;
    while |t'.mem[p].keys| == N
      invariant Pending(t', g, p, j, key, hndl, leftDown, rightDown) && Waiting(g, sh', m, p)
      invariant g.owner.Keys == t.owner.Keys + {h}
      invariant ReserveOk(t', reserve') && |t'.mem| + |reserve'| == |t.mem| + |reserve|
      decreases Climb(t', sh', p)
    {
      RoomToSplit(t', g, sh', m, p, j, key, hndl, leftDown, rightDown, reserve');
      ghost var before := Climb(t', sh', p);
      var s := reserve'[0];
      if t'.mem[p].parent == 0 {
        var nr, rest := reserve'[1], reserve'[2..];
        t', key, hndl, j, g, sh' := SplitRoot(t', reserve', p, key, hndl, leftDown, rightDown, j, g, sh', m);
        leftDown, rightDown, p, reserve' := p, s, nr, rest;
      } else {
        var parent, rest := t'.mem[p].parent, reserve'[1..];
        t', key, hndl, j, g, sh' := SplitInner(t', reserve', p, key, hndl, leftDown, rightDown, j, g, sh', m);
        leftDown, rightDown, p, reserve' := p, s, parent, rest;
      }
    }
    t' := PlaceValue(t', p, key, hndl, leftDown, rightDown, j, g, sh', m);
  }

  lemma PositionUnique(keys: seq<int>, i: int, j: int, k: int)
    requires IsPosition(keys, i, k) && IsPosition(keys, j, k)
    ensures i == j
  {
    var below := set e | 0 <= e < |keys| && keys[e] < k;
    assert forall e :: e in below <==> 0 <= e < i;
    assert forall e :: e in below <==> 0 <= e < j;
    assert i > 0 ==> i - 1 in below;
    assert j > 0 ==> j - 1 in below;
  }

  /** The end of `insert`: the pending value goes into a node that has room. */
  method PlaceValue(cur: Tree, p: Ptr, k: int, h: Handle, l: Ptr, r: Ptr,
                    ghost j: int, ghost g: Tree, ghost sh: Shape, ghost m: map<int, Handle>)
    returns (t': Tree)
    requires Pending(cur, g, p, j, k, h, l, r) && Waiting(g, sh, m, p) && |cur.mem[p].keys| != N
    ensures WellFormed(t', sh, m) && t'.mem.Keys == cur.mem.Keys && |t'.mem| == |cur.mem| && t'.owner == g.owner
  {
    assert NodeOk(g, sh, p);
    var at := InsertPosition(cur.mem[p].keys, k);
    PositionUnique(cur.mem[p].keys, at, j, k);
    t' := Tree(cur.mem[p := Overfull(cur.mem[p], at, k, h, l, r)], cur.root, cur.left, cur.owner[h := p]);
    PlacedIsWellFormed(g, sh, m, p);
    assert t'.mem.Keys == cur.mem.Keys;
    assert |t'.mem| == |t'.mem.Keys| == |cur.mem.Keys| == |cur.mem|;
  }

  lemma RoomToSplit(cur: Tree, g: Tree, sh: Shape, m: map<int, Handle>, p: Ptr, j: int, k: int, h: Handle,
                    l: Ptr, r: Ptr, reserve: seq<Ptr>)
    requires Pending(cur, g, p, j, k, h, l, r) && Waiting(g, sh, m, p) && |cur.mem[p].keys| == N
    requires HALF * (|cur.mem| + |reserve|) >= |m|
    ensures cur.mem[p].parent == 0 <==> p == cur.root
    ensures |reserve| >= if p == cur.root then 2 else 1
    ensures p in sh && cur.root in sh && Climb(cur, sh, p) > 0
  {
    assert NodeOk(g, sh, p);
    assert g.mem.Keys == cur.mem.Keys;
    assert |g.mem| == |g.mem.Keys| == |cur.mem.Keys| == |cur.mem|;
    ReserveSuffices(g, sh, m, p, reserve);
  }
}
