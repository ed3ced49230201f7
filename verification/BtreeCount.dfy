/** How many nodes a B-tree of a given number of values can need. */
module BtreeCount {
  import opened BtreeModel

  /** The values held in the nodes of `s`. */
  ghost function KeysIn(t: Tree, m: map<int, Handle>, s: set<Ptr>): set<int>
    requires Holds(t, m)
  {
    set k | k in m && Home(t, m, k) in s
  }

  ghost function Home(t: Tree, m: map<int, Handle>, k: int): Ptr
    requires Holds(t, m) && k in m
  {
    assert Located(t, m, k);
    t.owner[m[k]]
  }

  lemma {:induction false} DistinctCount(keys: seq<int>)
    requires Sorted(keys)
    ensures |set k | k in keys| == |keys|
  {
    if keys != [] {
      var rest, last := keys[..|keys| - 1], keys[|keys| - 1];
      DistinctCount(rest);
      assert (set k | k in keys) == (set k | k in rest) + {last};
    }
  }

  lemma KeysAdd(t: Tree, sh: Shape, m: map<int, Handle>, s: set<Ptr>, p: Ptr)
    requires Shaped(t, sh) && Holds(t, m) && p in t.mem && p !in s
    ensures |KeysIn(t, m, s + {p})| == |KeysIn(t, m, s)| + |t.mem[p].keys|
  {
    var own := set k | k in t.mem[p].keys;
    forall k
      ensures k in KeysIn(t, m, {p}) <==> k in own
    {
      if k in m {
        assert Located(t, m, k);
      }
      if k in own {
        var i :| 0 <= i < |t.mem[p].keys| && t.mem[p].keys[i] == k;
        assert ValueAt(t, m, p, i);
      }
    }
    assert KeysIn(t, m, {p}) == own;
    assert KeysIn(t, m, s + {p}) == KeysIn(t, m, s) + KeysIn(t, m, {p});
    assert KeysIn(t, m, s) !! KeysIn(t, m, {p});
    assert NodeOk(t, sh, p);
    DistinctCount(t.mem[p].keys);
  }

  lemma {:induction false} KeysAtLeast(t: Tree, sh: Shape, m: map<int, Handle>, s: set<Ptr>)
    requires Shaped(t, sh) && Holds(t, m) && s <= t.mem.Keys
    requires forall p :: p in s ==> |t.mem[p].keys| >= HALF
    ensures |KeysIn(t, m, s)| >= HALF * |s|
    decreases s
  {
    if s != {} {
      var p :| p in s;
      KeysAtLeast(t, sh, m, s - {p});
      KeysAdd(t, sh, m, s - {p}, p);
      assert s - {p} + {p} == s;
    }
  }

  lemma AllKeys(t: Tree, m: map<int, Handle>)
    requires Holds(t, m)
    ensures KeysIn(t, m, t.mem.Keys) == m.Keys
  {
    forall k | k in m
      ensures k in KeysIn(t, m, t.mem.Keys)
    {
      assert Located(t, m, k);
    }
  }

  /** A tree in order needs at most one node for the root and one for every further HALF values. */
  lemma NodesNeeded(t: Tree, sh: Shape, m: map<int, Handle>)
    requires Shaped(t, sh) && Holds(t, m) && Sized(t, 0, 0) && t.mem != map[]
    ensures |m| >= HALF * (|t.mem| - 1) + 1
  {
    var rest := t.mem.Keys - {t.root};
    KeysAtLeast(t, sh, m, rest);
    KeysAdd(t, sh, m, rest, t.root);
    assert rest + {t.root} == t.mem.Keys;
    AllKeys(t, m);
    assert |m.Keys| == |m| && |t.mem.Keys| == |t.mem|;
  }

  /** An overfull node leaves room for its split: one more node, or two when it is the root. */
  lemma NodesNeededToSplit(t: Tree, sh: Shape, m: map<int, Handle>, o: Ptr)
    requires Shaped(t, sh) && Holds(t, m) && Sized(t, o, 0) && o in t.mem && |t.mem[o].keys| == N + 1
    ensures |m| >= HALF * (|t.mem| + (if o == t.root then 1 else 0)) + 1
  {
    var rest := t.mem.Keys - {t.root, o};
    KeysAtLeast(t, sh, m, rest);
    KeysAdd(t, sh, m, rest, o);
    if o != t.root {
      KeysAdd(t, sh, m, rest + {o}, t.root);
      assert rest + {o} + {t.root} == t.mem.Keys;
    } else {
      assert rest + {o} == t.mem.Keys;
    }
    AllKeys(t, m);
    assert |m.Keys| == |m| && |t.mem.Keys| == |t.mem|;
  }
}
