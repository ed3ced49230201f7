/** The loops of `btree_set` that work inside one node. */
module BtreeNodeOps {
  import opened BtreeModel
  import opened BtreeInsert

  /** The binary search of `insert` in an inner node, over all N slots, where an empty slot compares as
      above every value; in a leaf the same search runs over the occupied slots only. */
  method Search(keys: seq<int>, slots: nat, k: int) returns (found: bool, pos: int)
    requires Sorted(keys) && |keys| <= slots
    ensures found <==> k in keys
    ensures !found ==> IsPosition(keys, pos, k)
  {
    var min, max := 0, slots - 1;
    while min <= max
      invariant 0 <= min <= max + 1 <= slots && min <= |keys|
      invariant forall i :: 0 <= i < min ==> keys[i] < k
      invariant forall i :: max < i < |keys| ==> k < keys[i]
      decreases max - min
    {
      var i := (min + max) / 2;
      if i >= |keys| || k < keys[i] {
        max := i - 1;
      } else if keys[i] == k {
        return true, i;
      } else {
        min := i + 1;
      }
    }
    found, pos := false, max + 1;
  }

  /** The scan of `insert` from the right of a node that has room. */
  method InsertPosition(keys: seq<int>, k: int) returns (pos: int)
    requires Sorted(keys) && k !in keys
    ensures IsPosition(keys, pos, k)
  {
    pos := |keys|;
    while pos > 0 && keys[pos - 1] > k
      invariant 0 <= pos <= |keys|
      invariant forall i :: pos <= i < |keys| ==> k < keys[i]
    {
      pos := pos - 1;
    }
  }

  /** The scan of `find`: the slot that holds `k`, or the child to go on with. */
  method Scan(keys: seq<int>, k: int) returns (found: bool, pos: int)
    requires Sorted(keys)
    ensures found <==> k in keys
    ensures found ==> 0 <= pos < |keys| && keys[pos] == k
    ensures !found ==> IsPosition(keys, pos, k)
  {
    pos := 0;
    while pos < |keys|
      invariant 0 <= pos <= |keys|
      invariant forall i :: 0 <= i < pos ==> keys[i] < k
    {
      if keys[pos] == k {
        return true, pos;
      }
      if keys[pos] > k {
        break;
      }
      pos := pos + 1;
    }
    found := false;
  }

  method IndexOf<T(==)>(s: seq<T>, x: T) returns (i: int)
    requires x in s
    ensures 0 <= i < |s| && s[i] == x && x !in s[..i]
  {
    ghost var at :| 0 <= at < |s| && s[at] == x;
    i := 0;
    while s[i] != x
      invariant 0 <= i <= at && forall e :: 0 <= e < i ==> s[e] != x
      decreases at - i
    {
      i := i + 1;
    }
  }

  /** A node with the pending value put in at `j`, its j-th child giving way to the pair `l`, `r`. */
  function Overfull(n: Node, j: int, k: int, h: Handle, l: Ptr, r: Ptr): Node
    requires 0 <= j <= |n.keys| == |n.hs| && (n.kids == [] || |n.kids| == |n.keys| + 1)
  {
    Node(Insert(n.keys, j, k), Insert(n.hs, j, h),
         if n.kids == [] then [] else n.kids[..j] + [l, r] + n.kids[j + 1..], n.parent)
  }

  lemma CutAfterInsert<T>(s: seq<T>, j: int, x: T)
    requires |s| == N && 0 <= j <= N
    ensures var o := Insert(s, j, x);
      if j < HALF then
        o[..HALF] == s[..j] + [x] + s[j..HALF - 1] && o[HALF] == s[HALF - 1] && o[HALF + 1..] == s[HALF..]
      else if j == HALF then
        o[..HALF] == s[..HALF] && o[HALF] == x && o[HALF + 1..] == s[HALF..]
      else
        o[..HALF] == s[..HALF] && o[HALF] == s[HALF] && o[HALF + 1..] == s[HALF + 1..j] + [x] + s[j..]
  {
  }

  lemma CutAfterPair(kids: seq<Ptr>, j: int, l: Ptr, r: Ptr)
    requires |kids| == N + 1 && 0 <= j <= N
    ensures var o := kids[..j] + [l, r] + kids[j + 1..];
      if j < HALF then o[..HALF + 1] == kids[..j] + [l, r] + kids[j + 1..HALF] && o[HALF + 1..] == kids[HALF..]
      else if j == HALF then o[..HALF + 1] == kids[..HALF] + [l] && o[HALF + 1..] == [r] + kids[HALF + 1..]
      else o[..HALF + 1] == kids[..HALF + 1] && o[HALF + 1..] == kids[HALF + 1..j] + [l, r] + kids[j + 1..]
  {
  }

  /** The three-way split of a full node: the pending value goes left, right, or straight up. */
  method SplitFull(n: Node, k: int, h: Handle, l: Ptr, r: Ptr, ghost j: int)
    returns (left: Node, right: Node, upKey: int, upHandle: Handle)
    requires |n.keys| == |n.hs| == N && (n.kids == [] || |n.kids| == N + 1)
    requires Sorted(n.keys) && IsPosition(n.keys, j, k)
    ensures var o := Overfull(n, j, k, h, l, r);
      left == LeftHalf(o) && right == RightHalf(o) && upKey == o.keys[HALF] && upHandle == o.hs[HALF]
  {
    CutAfterInsert(n.keys, j, k);
    CutAfterInsert(n.hs, j, h);
    if n.kids != [] {
      CutAfterPair(n.kids, j, l, r);
    }
    var leaf := n.kids == [];
    if k < n.keys[HALF - 1] {
      upKey, upHandle := n.keys[HALF - 1], n.hs[HALF - 1];
      right := Node(n.keys[HALF..], n.hs[HALF..], if leaf then [] else n.kids[HALF..], n.parent);
      var i := HALF - 1;
      while i > 0 && k < n.keys[i - 1]
        invariant j <= i < HALF
      {
        i := i - 1;
      }
      left := Node(n.keys[..i] + [k] + n.keys[i..HALF - 1], n.hs[..i] + [h] + n.hs[i..HALF - 1],
                   if leaf then [] else n.kids[..i] + [l, r] + n.kids[i + 1..HALF], n.parent);
    } else if k < n.keys[HALF] {
      upKey, upHandle := k, h;
      left := Node(n.keys[..HALF], n.hs[..HALF], if leaf then [] else n.kids[..HALF] + [l], n.parent);
      right := Node(n.keys[HALF..], n.hs[HALF..], if leaf then [] else [r] + n.kids[HALF + 1..], n.parent);
    } else {
      upKey, upHandle := n.keys[HALF], n.hs[HALF];
      left := Node(n.keys[..HALF], n.hs[..HALF], if leaf then [] else n.kids[..HALF + 1], n.parent);
      var i := HALF + 1;
      while i < N && n.keys[i] < k
        invariant HALF < i <= j
      {
        i := i + 1;
      }
      right := Node(n.keys[HALF + 1..i] + [k] + n.keys[i..], n.hs[HALF + 1..i] + [h] + n.hs[i..],
                    if leaf then [] else n.kids[HALF + 1..i] + [l, r] + n.kids[i + 1..], n.parent);
    }
  }
}
