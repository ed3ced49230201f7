/** The pairing heap in memory: every node holds its next sibling, its first child, and either its
    previous sibling or, for a first child, its parent. */
module PairingHeaps {
  import opened PairingSpec

  datatype Cell = Cell(prio: int, next: nat, prev: nat, child: nat)

  type Mem = map<nat, Cell>

  /** The cells hold the list of trees `f`, whose first root's backward link is `prev`. */
  ghost predicate Rep(mem: Mem, f: Forest, prev: nat) {
    f.Cons? ==>
      && f.at in mem && mem[f.at] == Cell(f.prio, Head(f.rest), prev, Head(f.kids))
      && Rep(mem, f.kids, f.at) && Rep(mem, f.rest, f.at)
  }

  /** The cells of `f` are the same but for the first root's backward link, now `q`. */
  ghost predicate Moved(mem: Mem, mem': Mem, f: Forest, q: nat) {
    forall x :: x in Nodes(f) ==>
      x in mem && x in mem' && mem'[x] == if x == Head(f) then mem[x].(prev := q) else mem[x]
  }

  lemma {:induction false} RepMoved(mem: Mem, mem': Mem, f: Forest, p: nat, q: nat)
    requires Rep(mem, f, p) && Distinct(f) && Moved(mem, mem', f, q)
    ensures Rep(mem', f, q)
  {
    if f.Cons? {
      NodesOf(f);
      InnerMoved(mem, mem', f, f.kids, q);
      InnerMoved(mem, mem', f, f.rest, q);
      RepMoved(mem, mem', f.kids, f.at, f.at);
      RepMoved(mem, mem', f.rest, f.at, f.at);
      assert f.at in Nodes(f);
    }
  }

  lemma InnerMoved(mem: Mem, mem': Mem, f: Forest, g: Forest, q: nat)
    requires f.Cons? && f.at !in Nodes(g) && Nodes(g) <= Nodes(f) && Rep(mem, g, f.at) && Moved(mem, mem', f, q)
    ensures Moved(mem, mem', g, f.at)
  {
    forall x | x in Nodes(g)
      ensures x in mem && x in mem' && mem'[x] == if x == Head(g) then mem[x].(prev := f.at) else mem[x]
    {
      assert x in Nodes(f) && x != f.at;
    }
  }

  /** The two melded trees in memory, given what became of each part. */
  lemma MeldRep(mem: Mem, mem': Mem, f: Forest, p: nat)
    requires f.Cons? && f.rest.Cons? && Distinct(f) && Rep(mem, f, p)
    requires var g, m := f.rest, Meld(f);
      && m.at in mem' && mem'[m.at] == Cell(m.prio, Head(g.rest), p, m.kids.at)
      && m.kids.at in mem'
      && mem'[m.kids.at] == Cell(m.kids.prio, Head(m.kids.rest), m.at, Head(m.kids.kids))
      && Moved(mem, mem', m.kids.kids, m.kids.at) && Moved(mem, mem', m.kids.rest, m.kids.at)
      && Moved(mem, mem', g.rest, m.at)
    ensures Rep(mem', Meld(f), p)
  {
    var g, m := f.rest, Meld(f);
    assert Rep(mem, g, f.at) && Distinct(g);
    RepMoved(mem, mem', g.rest, g.at, m.at);
    if g.prio < f.prio {
      RepMoved(mem, mem', f.kids, f.at, f.at);
      RepMoved(mem, mem', g.kids, g.at, f.at);
    } else {
      RepMoved(mem, mem', g.kids, g.at, g.at);
      RepMoved(mem, mem', f.kids, f.at, g.at);
    }
    assert Rep(mem', m.kids, m.at);
  }

  function SetNext(mem: Mem, x: nat, v: nat): Mem
    requires x in mem
  {
    mem[x := mem[x].(next := v)]
  }

  function SetPrev(mem: Mem, x: nat, v: nat): Mem
    requires x in mem
  {
    mem[x := mem[x].(prev := v)]
  }

  function SetChild(mem: Mem, x: nat, v: nat): Mem
    requires x in mem
  {
    mem[x := mem[x].(child := v)]
  }

  /** The same cells, changed at most within `s`. */
  ghost predicate Untouched(mem: Mem, mem': Mem, s: set<nat>) {
    mem'.Keys == mem.Keys && forall x :: x in mem && x !in s ==> mem'[x] == mem[x]
  }

  lemma {:induction false} RepNodes(mem: Mem, f: Forest, p: nat)
    requires Rep(mem, f, p)
    ensures Nodes(f) <= mem.Keys
  {
    if f.Cons? {
      RepNodes(mem, f.kids, f.at);
      RepNodes(mem, f.rest, f.at);
    }
  }

  /** Where only the first root's cell may have changed, and that only in its backward link. */
  lemma MovedWithin(mem: Mem, mem': Mem, f: Forest, q: nat, s: set<nat>)
    requires Untouched(mem, mem', s) && Nodes(f) <= mem.Keys
    requires forall x :: x in s && x in Nodes(f) ==> x == f.at
    requires f.Cons? ==> mem'[f.at] == mem[f.at].(prev := q)
    ensures Moved(mem, mem', f, q)
  {
  }

  /** The first two trees of a list, in memory. */
  ghost predicate PairAt(mem: Mem, f: Forest, p: nat) {
    f.Cons? && f.rest.Cons? && NULL !in mem && Distinct(f) && Rep(mem, f, p)
  }

  lemma PairCells(mem: Mem, f: Forest, p: nat)
    requires PairAt(mem, f, p)
    ensures var g := f.rest;
      && Nodes(f) <= mem.Keys && Nodes(f) == {f.at, g.at} + Nodes(f.kids) + Nodes(g.kids) + Nodes(g.rest)
      && mem[f.at] == Cell(f.prio, g.at, p, Head(f.kids)) && mem[g.at] == Cell(g.prio, Head(g.rest), f.at, Head(g.kids))
      && (f.kids.Cons? ==> f.kids.at in Nodes(f.kids) && mem[f.kids.at].prev == f.at)
      && (g.kids.Cons? ==> g.kids.at in Nodes(g.kids) && mem[g.kids.at].prev == g.at)
      && (g.rest.Cons? ==> g.rest.at in Nodes(g.rest) && mem[g.rest.at].prev == g.at)
  {
    var g := f.rest;
    RepNodes(mem, f, p);
    PairNodes(f);
    RepHead(mem, f, p);
    RepHead(mem, g, f.at);
    RepHead(mem, f.kids, f.at);
    RepHead(mem, g.kids, g.at);
    RepHead(mem, g.rest, g.at);
  }

  lemma PairDistinct(f: Forest)
    requires f.Cons? && f.rest.Cons? && Distinct(f)
    ensures var g := f.rest;
      && f.at != NULL && g.at != NULL && f.at != g.at
      && f.at !in Nodes(f.kids) + Nodes(g.kids) + Nodes(g.rest)
      && g.at !in Nodes(f.kids) + Nodes(g.kids) + Nodes(g.rest)
      && Nodes(f.kids) !! Nodes(g.kids) && Nodes(f.kids) !! Nodes(g.rest) && Nodes(g.kids) !! Nodes(g.rest)
  {
    PairNodes(f);
    NodesOf(f.rest);
    assert Distinct(f.rest);
  }

  lemma PairNodes(f: Forest)
    requires f.Cons? && f.rest.Cons?
    ensures var g := f.rest; Nodes(f) == {f.at, g.at} + Nodes(f.kids) + Nodes(g.kids) + Nodes(g.rest)
  {
    var g := f.rest;
    NodesOf(f);
    NodesOf(g);
    Flat(f.at, g.at, Nodes(f.kids), Nodes(g.kids), Nodes(g.rest));
  }

  lemma Flat(a: nat, b: nat, ka: set<nat>, kb: set<nat>, r: set<nat>)
    ensures {a} + ka + ({b} + kb + r) == {a, b} + ka + kb + r
  {
  }

  lemma RepHead(mem: Mem, f: Forest, p: nat)
    requires Rep(mem, f, p)
    ensures f.Cons? ==> f.at in Nodes(f) && f.at in mem && mem[f.at] == Cell(f.prio, Head(f.rest), p, Head(f.kids))
    ensures f.Cons? ==> Rep(mem, f.kids, f.at) && Rep(mem, f.rest, f.at)
  {
  }

  /** Memory after the first root has taken the second as its child. */
  lemma FirstWins(mem: Mem, mem': Mem, f: Forest, p: nat)
    requires PairAt(mem, f, p) && f.rest.prio >= f.prio
    requires var g := f.rest;
      && Untouched(mem, mem', {f.at, g.at, Head(f.kids), Head(g.rest)})
      && f.at in mem' && mem'[f.at] == Cell(f.prio, Head(g.rest), p, g.at)
      && g.at in mem' && mem'[g.at] == Cell(g.prio, Head(f.kids), f.at, Head(g.kids))
      && (f.kids.Cons? ==> f.kids.at in mem && f.kids.at in mem' && mem'[f.kids.at] == mem[f.kids.at].(prev := g.at))
      && (g.rest.Cons? ==> g.rest.at in mem && g.rest.at in mem' && mem'[g.rest.at] == mem[g.rest.at].(prev := f.at))
    ensures Rep(mem', Meld(f), p) && Untouched(mem, mem', Nodes(f))
  {
    var g := f.rest;
    PairCells(mem, f, p);
    assert Distinct(g);
    var s := {f.at, g.at, Head(f.kids), Head(g.rest)};
    MovedWithin(mem, mem', f.kids, g.at, s);
    MovedWithin(mem, mem', g.kids, g.at, s);
    MovedWithin(mem, mem', g.rest, f.at, s);
    MeldRep(mem, mem', f, p);
  }

  /** Memory after the second root has taken the first as its child and its place in the list. */
  lemma SecondWins(mem: Mem, mem': Mem, f: Forest, p: nat)
    requires PairAt(mem, f, p) && f.rest.prio < f.prio && p !in Nodes(f)
    requires var g := f.rest;
      && Untouched(mem, mem', {f.at, g.at, Head(g.kids), p})
      && g.at in mem' && mem'[g.at] == Cell(g.prio, Head(g.rest), p, f.at)
      && f.at in mem' && mem'[f.at] == Cell(f.prio, Head(g.kids), g.at, Head(f.kids))
      && (g.kids.Cons? ==> g.kids.at in mem && g.kids.at in mem' && mem'[g.kids.at] == mem[g.kids.at].(prev := f.at))
    ensures Rep(mem', Meld(f), p) && Untouched(mem, mem', Nodes(f) + {p})
  {
    var g := f.rest;
    PairCells(mem, f, p);
    assert Distinct(g);
    var s := {f.at, g.at, Head(g.kids), p};
    MovedWithin(mem, mem', f.kids, f.at, s);
    MovedWithin(mem, mem', g.kids, f.at, s);
    MovedWithin(mem, mem', g.rest, g.at, s);
    MeldRep(mem, mem', f, p);
  }

  /** A list kept whole by a change elsewhere. */
  lemma RepElsewhere(mem: Mem, mem': Mem, f: Forest, p: nat, s: set<nat>)
    requires Rep(mem, f, p) && Distinct(f) && Untouched(mem, mem', s) && Nodes(f) !! s
    ensures Rep(mem', f, p)
  {
    RepNodes(mem, f, p);
    RepHead(mem, f, p);
    MovedWithin(mem, mem', f, p, s);
    RepMoved(mem, mem', f, p, p);
  }

  /** The first tree of `m` has been put in front of the list `d`. */
  lemma PushRep(mem: Mem, mem': Mem, m: Forest, d: Forest, p: nat)
    requires m.Cons? && Apart(m, d) && Rep(mem, m, p) && Rep(mem, d, NULL)
    requires Untouched(mem, mem', {m.at, Head(d), Head(m.rest)})
    requires m.at in mem' && mem'[m.at] == Cell(m.prio, Head(d), NULL, Head(m.kids))
    requires d.Cons? ==> d.at in mem && d.at in mem' && mem'[d.at] == mem[d.at].(prev := m.at)
    requires m.rest.Cons? ==>
      m.rest.at in mem && m.rest.at in mem' && mem'[m.rest.at] == mem[m.rest.at].(prev := NULL)
    requires NULL !in mem
    ensures Rep(mem', m.(rest := d), NULL) && Rep(mem', m.rest, NULL)
    ensures Untouched(mem, mem', Nodes(m) + Nodes(d))
  {
    var s := {m.at, Head(d), Head(m.rest)};
    RepHead(mem, m, p);
    PushApart(m, d);
    RepElsewhere(mem, mem', m.kids, m.at, s);
    PartMoved(mem, mem', m.rest, m.at, NULL, s);
    PartMoved(mem, mem', d, NULL, m.at, s);
  }

  lemma PushApart(m: Forest, d: Forest)
    requires m.Cons? && Apart(m, d)
    ensures Nodes(m.kids) !! {m.at, Head(d), Head(m.rest)}
    ensures Nodes(m.rest) !! {m.at, Head(d)} && Nodes(d) !! {m.at, Head(m.rest)}
    ensures {m.at, Head(d), Head(m.rest)} <= Nodes(m) + Nodes(d) + {NULL}
  {
    NodesOf(m);
    NoNull(m);
    NoNull(d);
    HeadIn(m.rest);
    HeadIn(d);
  }

  lemma {:induction false} NoNull(f: Forest)
    requires Distinct(f)
    ensures NULL !in Nodes(f)
  {
    if f.Cons? {
      NoNull(f.kids);
      NoNull(f.rest);
    }
  }

  lemma PartMoved(mem: Mem, mem': Mem, f: Forest, p: nat, q: nat, s: set<nat>)
    requires Rep(mem, f, p) && Distinct(f) && Untouched(mem, mem', s)
    requires forall x :: x in s && x in Nodes(f) ==> x == f.at && x in mem && x in mem' && mem'[x] == mem[x].(prev := q)
    requires p == q || Head(f) in s
    ensures Rep(mem', f, q)
  {
    RepNodes(mem, f, p);
    RepHead(mem, f, p);
    HeadIn(f);
    MovedWithin(mem, mem', f, q, s);
    RepMoved(mem, mem', f, p, q);
  }

  lemma HeadIn(f: Forest)
    ensures if f.Nil? then Head(f) == NULL && Nodes(f) == {} else Head(f) in Nodes(f)
  {
  }

  /** The first pass under way: `f` is still to be paired, `d` is done. */
  ghost predicate Pairing(mem: Mem, f: Forest, d: Forest, p: nat) {
    NULL !in mem && Apart(f, d) && Rep(mem, f, p) && Rep(mem, d, NULL)
  }

  /** What precedes the first two trees is touched when the second root is the lesser. */
  ghost function Before(f: Forest, p: nat): set<nat> {
    if f.Cons? && f.rest.Cons? && f.rest.prio < f.prio then {p} else {}
  }

  /** What precedes the list, when it has to be touched, is no part of it. */
  ghost predicate Outside(mem: Mem, f: Forest, p: nat) {
    Before(f, p) != {} ==> p !in Nodes(f) && (p == NULL || p in mem)
  }

  /** At most the child link of `p` differs. */
  ghost predicate ChildOnly(mem: Mem, mem': Mem, p: nat) {
    p in mem && p in mem' && mem'[p] == mem[p].(child := mem'[p].child)
  }

  /** What `merge_pairs` of the list `f` may change: its cells, and when it must the link leading to it. */
  ghost predicate Changed(mem: Mem, mem': Mem, f: Forest, p: nat) {
    && Untouched(mem, mem', Nodes(f) + Before(f, p))
    && (p in mem && p !in Nodes(f) && mem[p].child == Head(f) ==> ChildOnly(mem, mem', p))
  }

  lemma ChangedFurther(mem: Mem, mem1: Mem, mem2: Mem, f: Forest, p: nat)
    requires Changed(mem, mem1, f, p) && Untouched(mem1, mem2, Nodes(f) + {NULL}) && NULL !in mem
    ensures Changed(mem, mem2, f, p)
  {
  }

  /** The first pass over `f` has come to `l`, with `d` done. */
  ghost predicate Round(mem: Mem, f: Forest, p: nat, l: Forest, d: Forest, q: nat) {
    && Pairing(mem, l, d, q) && Nodes(l) + Nodes(d) == Nodes(f) && Pairs(l, d) == Pairs(f, Nil)
    && if d.Nil? then l == f && q == p else q == NULL
  }

  class PairingHeap {
    var mem: Mem
    var root: nat
    ghost var tree: Forest

    /** `i2` becomes the first child of `i1`. */
    method TakeChild(i1: nat, i2: nat)
      requires i1 in mem && i2 in mem && i1 != i2
      requires mem[i1].child != NULL ==> mem[i1].child in mem && mem[i1].child != i1 && mem[i1].child != i2
      modifies this`mem
      ensures var m, c := old(mem), old(mem)[i1].child;
        && Untouched(m, mem, {i1, i2, c})
        && mem[i1] == m[i1].(child := i2) && mem[i2] == m[i2].(next := c, prev := i1)
        && (c != NULL ==> mem[c] == m[c].(prev := i2))
    {
      var c := mem[i1].child;
      mem := SetNext(mem, i2, c);
      if c != NULL {
        mem := SetPrev(mem, c, i2);
      }
      mem := SetChild(mem, i1, i2);
      mem := SetPrev(mem, i2, i1);
    }

    /** `after` becomes the next sibling of `x`. */
    method LinkNext(x: nat, after: nat)
      requires x in mem && (after != NULL ==> after in mem && after != x)
      modifies this`mem
      ensures Untouched(old(mem), mem, {x, after}) && mem[x] == old(mem)[x].(next := after)
      ensures after != NULL ==> mem[after] == old(mem)[after].(prev := x)
    {
      mem := SetNext(mem, x, after);
      if after != NULL {
        mem := SetPrev(mem, after, x);
      }
    }

    /** What precedes the pair is pointed at its new first node. */
    method Replace(before: nat, i1: nat, i2: nat)
      requires i1 in mem && (before != NULL ==> before in mem && before != i1)
      modifies this`mem
      ensures Untouched(old(mem), mem, {i1, before}) && mem[i1] == old(mem)[i1].(prev := before)
      ensures before != NULL ==> mem[before] == if old(mem)[before].child == i2 then old(mem)[before].(child := i1)
                                                else old(mem)[before].(next := i1)
    {
      if before != NULL {
        if mem[before].child == i2 {
          mem := SetChild(mem, before, i1);
        } else {
          mem := SetNext(mem, before, i1);
        }
      }
      mem := SetPrev(mem, i1, before);
    }

    /** `merge_pair`: the first two trees of a list are melded. What precedes them is looked at only when the
        second root is the lesser. */
    method MergePair(a: nat, b: nat, ghost f: Forest, ghost p: nat) returns (r: nat)
      requires PairAt(mem, f, p) && a == f.at && b == f.rest.at
      requires Outside(mem, f, p)
      modifies this`mem
      ensures r == Meld(f).at && Rep(mem, Meld(f), p)
      ensures Changed(old(mem), mem, f, p)
    {
      RepHead(mem, f, p);
      RepHead(mem, f.rest, a);
      if mem[b].prio < mem[a].prio {
        MergeSecond(a, b, f, p);
        return b;
      } else {
        MergeFirst(a, b, f, p);
        return a;
      }
    }

    method MergeSecond(a: nat, b: nat, ghost f: Forest, ghost p: nat)
      requires PairAt(mem, f, p) && a == f.at && b == f.rest.at
      requires f.rest.prio < f.prio && p !in Nodes(f) && (p == NULL || p in mem)
      modifies this`mem
      ensures Rep(mem, Meld(f), p) && Untouched(old(mem), mem, Nodes(f) + {p})
      ensures p != NULL && old(mem)[p].child == a ==> mem[p] == old(mem)[p].(child := b)
    {
      PairCells(mem, f, p);
      PairDistinct(f);
      Replace(mem[a].prev, b, a);
      TakeChild(b, a);
      SecondWins(old(mem), mem, f, p);
    }

    method MergeFirst(a: nat, b: nat, ghost f: Forest, ghost p: nat)
      requires PairAt(mem, f, p) && a == f.at && b == f.rest.at && f.rest.prio >= f.prio
      modifies this`mem
      ensures Rep(mem, Meld(f), p) && Untouched(old(mem), mem, Nodes(f))
    {
      PairCells(mem, f, p);
      PairDistinct(f);
      LinkNext(a, mem[b].next);
      TakeChild(a, b);
      FirstWins(old(mem), mem, f, p);
    }

    /** The tree at `x` leaves its list and is put in front of the list at `top`. */
    method Push(x: nat, top: nat, ghost m: Forest, ghost d: Forest, ghost p: nat) returns (node: nat)
      requires NULL !in mem && m.Cons? && Apart(m, d) && Rep(mem, m, p) && Rep(mem, d, NULL)
      requires x == m.at && top == Head(d)
      modifies this`mem
      ensures node == Head(m.rest) && Rep(mem, m.(rest := d), NULL) && Rep(mem, m.rest, NULL)
      ensures Untouched(old(mem), mem, Nodes(m) + Nodes(d))
    {
      RepHead(mem, m, p);
      RepHead(mem, m.rest, x);
      RepHead(mem, d, NULL);
      HeadIn(d);
      HeadIn(m.rest);
      node := mem[x].next;
      LinkNext(x, top);
      mem := SetPrev(mem, x, NULL);
      if node != NULL {
        mem := SetPrev(mem, node, NULL);
      }
      PushRep(old(mem), mem, m, d, p);
    }

    /** One round of the first pass: the first two trees are melded and put in front of the list at `top`. */
    method PairUp(a: nat, b: nat, top: nat, ghost f: Forest, ghost d: Forest, ghost p: nat)
      returns (r: nat, node: nat)
      requires Pairing(mem, f, d, p) && f.Cons? && f.rest.Cons? && a == f.at && b == f.rest.at && top == Head(d)
      requires Outside(mem, f, p) && p !in Nodes(d)
      modifies this`mem
      ensures node == Head(f.rest.rest)
      ensures var m := Meld(f); r == m.at && Pairing(mem, f.rest.rest, m.(rest := d), NULL)
      ensures if d.Nil? then Changed(old(mem), mem, f, p)
              else Untouched(old(mem), mem, Nodes(f) + Nodes(d) + Before(f, p))
    {
      ghost var m := Meld(f);
      MeldItems(f);
      MeldDistinct(f);
      r := MergePair(a, b, f, p);
      RepElsewhere(old(mem), mem, d, NULL, Nodes(f) + Before(f, p));
      node := Push(r, top, m, d, p);
      PushPair(f, d);
    }

    method NextRound(a: nat, b: nat, top: nat,
                     ghost f: Forest, ghost p: nat, ghost l: Forest, ghost d: Forest, ghost q: nat)
      returns (r: nat, node: nat)
      requires Round(mem, f, p, l, d, q) && l.Cons? && l.rest.Cons? && a == l.at && b == l.rest.at && top == Head(d)
      requires Outside(mem, f, p)
      modifies this`mem
      ensures var m := Meld(l); r == m.at && Round(mem, f, p, l.rest.rest, m.(rest := d), NULL)
      ensures node == Head(l.rest.rest)
      ensures if d.Nil? then Changed(old(mem), mem, f, p) else Untouched(old(mem), mem, Nodes(f) + {NULL})
    {
      PushPair(l, d);
      NoNull(l);
      NoNull(d);
      r, node := PairUp(a, b, top, l, d, q);
    }

    /** The first pass, left to right; a tree left over goes in front. */
    method FirstPass(first: nat, ghost f: Forest, ghost p: nat) returns (top: nat)
      requires PairAt(mem, f, p) && first == f.at && Outside(mem, f, p)
      modifies this`mem
      ensures top == Head(Pairs(f, Nil)) && Rep(mem, Pairs(f, Nil), NULL) && Changed(old(mem), mem, f, p)
    {
      ghost var l, d, q := f, Nil, p;
      RepHead(mem, f, p);
      var node, sibling := first, mem[first].next;
      top := NULL;
      while sibling != NULL
        invariant Round(mem, f, p, l, d, q) && Changed(old(mem), mem, f, p) && (d.Nil? ==> mem == old(mem))
        invariant node == Head(l) && top == Head(d) && sibling == (if l.Nil? then NULL else Head(l.rest))
        decreases l
      {
        ghost var m, before := Meld(l), mem;
        top, node := NextRound(node, sibling, top, f, p, l, d, q);
        if d.Cons? {
          ChangedFurther(old(mem), before, mem, f, p);
        }
        l, d, q := l.rest.rest, m.(rest := d), NULL;
        RepHead(mem, l, NULL);
        sibling := if node != NULL then mem[node].next else NULL;
      }
      if node != NULL {
        ghost var before := mem;
        var _ := Push(node, top, l, d, q);
        ChangedFurther(old(mem), before, mem, f, p);
        top := node;
      } else {
        RepHead(mem, d, NULL);
        ghost var before := mem;
        mem := SetPrev(mem, top, NULL);
        assert mem == before;
      }
    }

    /** The second pass: the trees are melded one after another into the first. */
    method SecondPass(top: nat, ghost f: Forest) returns (node: nat)
      requires NULL !in mem && f.Cons? && Distinct(f) && Rep(mem, f, NULL) && top == f.at
      modifies this`mem
      ensures node == Head(Fold(f)) && Rep(mem, Fold(f), NULL) && Untouched(old(mem), mem, Nodes(f) + {NULL})
    {
      node := top;
      ghost var l := f;
      RepHead(mem, f, NULL);
      var sibling := mem[node].next;
      while sibling != NULL
        invariant NULL !in mem && l.Cons? && Distinct(l) && Rep(mem, l, NULL)
        invariant Nodes(l) == Nodes(f) && Fold(l) == Fold(f)
        invariant node == l.at && sibling == Head(l.rest) && Untouched(old(mem), mem, Nodes(f) + {NULL})
        decreases Length(l)
      {
        MeldItems(l);
        MeldDistinct(l);
        NoNull(l);
        MeldShortens(l);
        node := MergePair(node, sibling, l, NULL);
        l := Meld(l);
        RepHead(mem, l, NULL);
        sibling := mem[node].next;
      }
    }

    /** `merge_pairs`. A lone tree is returned as it is, its backward link still leading outside. */
    method MergePairs(first: nat, ghost f: Forest, ghost p: nat) returns (r: nat)
      requires NULL !in mem && Distinct(f) && Rep(mem, f, p) && first == Head(f) && Outside(mem, f, p)
      modifies this`mem
      ensures r == Head(PairingSpec.MergePairs(f)) && Changed(old(mem), mem, f, p)
      ensures Rep(mem, PairingSpec.MergePairs(f), if f.Cons? && f.rest.Nil? then p else NULL)
    {
      if first == NULL {
        NoNull(f);
        HeadIn(f);
        return NULL;
      }
      RepHead(mem, f, p);
      if mem[first].next == NULL {
        return first;
      }
      var top := FirstPass(first, f, p);
      ghost var e := PairsOfAll(f);
      ghost var before := mem;
      r := SecondPass(top, e);
      ChangedFurther(old(mem), before, mem, f, p);
    }

    // ---------- Queue operations ----------

    /** The cells are one heap-ordered tree, whose root's backward link may be stale, and handles that are
        not queued, without siblings and children. */
    ghost predicate Valid()
      reads this
    {
      root == Head(tree) && HeapOrdered(tree) && HeapAt(mem, tree)
    }

    constructor ()
      ensures Valid() && mem == map[] && tree == Nil
    {
      mem := map[];
      root := NULL;
      tree := Nil;
    }

    method Allocate(x: nat)
      requires Valid() && x != NULL && x !in mem
      modifies this
      ensures Valid() && mem == old(mem)[x := Cell(0, NULL, NULL, NULL)] && tree == old(tree)
    {
      if tree.Cons? {
        RepNodes(mem, tree, mem[tree.at].prev);
      }
      ghost var m := mem;
      mem := mem[x := Cell(0, NULL, NULL, NULL)];
      if tree.Cons? {
        assert Moved(m, mem, tree, m[tree.at].prev);
        RepMoved(m, mem, tree, m[tree.at].prev, m[tree.at].prev);
      }
    }

    /** `insert`: a handle that is not queued becomes a child of the root, or the root. */
    method Insert(x: nat, p: int) returns (first: bool)
      requires Valid() && x in mem && x !in Nodes(tree)
      modifies this
      ensures Valid() && mem.Keys == old(mem).Keys && tree == Joined(old(tree), x, p)
      ensures Items(tree) == old(Items(tree)) + multiset{Item(x, p)} && Nodes(tree) == old(Nodes(tree)) + {x}
      ensures first == (root == x)
    {
      JoinedKeeps(tree, x, p);
      PrioSet(mem, tree, x, p);
      mem := mem[x := mem[x].(prio := p)];
      first := Merge(x);
      tree := Joined(tree, x, p);
    }

    /** `merge`: of two roots of equal priority the new one is kept. */
    method Merge(x: nat) returns (first: bool)
      requires HeapAt(mem, tree) && root == Head(tree) && x in mem && x !in Nodes(tree)
      modifies this`mem, this`root
      ensures var r := Joined(tree, x, old(mem)[x].prio);
        HeapAt(mem, r) && root == Head(r) && mem.Keys == old(mem).Keys
      ensures first == (root == x)
    {
      ghost var m, p := mem, mem[x].prio;
      NoNull(tree);
      HeadIn(tree);
      if root == NULL {
        root := x;
        return true;
      }
      RepHead(m, tree, m[root].prev);
      RepHead(m, tree.kids, root);
      HeadIn(tree.kids);
      if mem[root].prio < mem[x].prio {
        TakeChild(root, x);
        JoinedBelow(m, mem, tree, x, p);
        return false;
      }
      LinkNext(root, mem[x].child);
      mem := SetChild(mem, x, root);
      mem := SetPrev(mem, root, x);
      JoinedAbove(m, mem, tree, x, p);
      root := x;
      return true;
    }

    /** `pull_root`: the root, which no queued node comes before, leaves; its children are merged into one
        tree. An only child keeps its backward link to the node pulled. */
    method PullRoot() returns (top: nat)
      requires Valid() && root != NULL
      modifies this
      ensures Valid() && top == root && mem.Keys == old(mem).Keys
      ensures var x, p := old(root), old(tree.prio);
        && tree == PairingSpec.MergePairs(old(tree).kids) && Nodes(tree) == old(Nodes(tree)) - {x}
        && old(Items(tree)) == Items(tree) + multiset{Item(x, p)} && (forall i :: i in Items(tree) ==> p <= i.prio)
        && mem[x].prev == old(mem)[x].prev
        && (root != NULL ==> mem[root].prev == if old(tree).kids.rest.Nil? then x else NULL)
    {
      ghost var m, f, x := mem, tree, root;
      RepHead(mem, f, mem[x].prev);
      PulledItems(f);
      top := MergePairs(mem[root].child, f.kids, root);
      ghost var m1 := mem;
      mem := SetChild(mem, root, NULL);
      PulledAt(m, m1, f);
      root := top;
      tree := PairingSpec.MergePairs(f.kids);
    }

    /** `remove`: any queued node leaves. Its children are merged with the root, whose stale backward link is
        not followed, since no child comes before it. */
    method Remove(x: nat)
      requires Valid() && x in Nodes(tree)
      modifies this
      ensures Valid() && mem.Keys == old(mem).Keys && Nodes(tree) == old(Nodes(tree)) - {x}
      ensures old(Items(tree)) == Items(tree) + multiset{Item(x, PrioOf(old(tree), x))}
      ensures x in mem && (x != old(root) ==> mem[x].prev == NULL)
    {
      if x == root {
        var _ := PullRoot();
        return;
      }
      LeftKeeps(tree, x);
      RemoveInner(x);
      tree := Left(tree, x);
    }

    method RemoveInner(x: nat)
      requires Valid() && x in Nodes(tree) && x != root
      modifies this`mem, this`root
      ensures HeapAt(mem, Left(tree, x)) && root == Head(Left(tree, x)) && mem.Keys == old(mem).Keys
      ensures x in mem && mem[x].prev == NULL
    {
      ghost var c, k := Cut(tree, x), KidsOf(tree, x);
      CutShape(tree, x);
      CutParts(tree, x);
      var child := Unlink(x);
      HeadIn(k);
      NoNull(k);
      if child != NULL {
        MergeKids(child, c, k, x);
      }
    }

    /** `set_priority`: removal and insertion. */
    method SetPriority(x: nat, p: int) returns (first: bool)
      requires Valid() && x in Nodes(tree)
      modifies this
      ensures Valid() && mem.Keys == old(mem).Keys && Nodes(tree) == old(Nodes(tree))
      ensures Items(tree) == old(Items(tree)) - multiset{Item(x, PrioOf(old(tree), x))} + multiset{Item(x, p)}
      ensures first == (root == x)
    {
      ghost var n, i, gone := Nodes(tree), Items(tree), multiset{Item(x, PrioOf(tree, x))};
      Remove(x);
      Exchanged(n, x, i, Items(tree), gone);
      first := Insert(x, p);
    }

    /** Takes `x` out of its list of siblings and clears its links. */
    method Unlink(x: nat) returns (child: nat)
      requires HeapAt(mem, tree) && root == Head(tree) && x in Nodes(tree) && x != root
      modifies this`mem
      ensures child == Head(KidsOf(tree, x)) && mem.Keys == old(mem).Keys && x in mem && mem[x].prev == NULL
      ensures TwoLists(mem, Cut(tree, x), KidsOf(tree, x), x)
    {
      ghost var p := mem[root].prev;
      LinksInside(mem, tree, p, x);
      RepNodes(mem, tree, p);
      child := mem[x].child;
      var before, next := mem[x].prev, mem[x].next;
      if mem[before].child == x {
        mem := SetChild(mem, before, next);
      } else {
        mem := SetNext(mem, before, next);
      }
      if next != NULL {
        mem := SetPrev(mem, next, before);
      }
      mem := mem[x := mem[x].(next := NULL, prev := NULL, child := NULL)];
      CutRep(old(mem), mem, tree, p, x);
      CutLists(old(mem), mem, tree, p, x);
    }

    /** The children of the removed node are put after the root and merged with it. */
    method MergeKids(child: nat, ghost c: Forest, ghost k: Forest, ghost x: nat)
      requires TwoLists(mem, c, k, x) && k.Cons? && Apart(c, k) && child == k.at && root == c.at && c.prio <= k.prio
      modifies this`mem, this`root
      ensures var r := PairingSpec.MergePairs(c.(rest := k));
        HeapAt(mem, r) && root == Head(r) && mem.Keys == old(mem).Keys
      ensures x in mem && mem[x] == old(mem)[x]
    {
      ghost var p, f := mem[root].prev, c.(rest := k);
      RepHead(mem, c, p);
      RepHead(mem, k, x);
      LinkNext(root, child);
      LinkedRep(old(mem), mem, c, k, x, p);
      ghost var m := mem;
      root := MergePairs(root, f, p);
      MergedAt(old(mem), m, mem, c, k, x, p);
    }

    /** `is_queued` holds of every queued handle, and of one that is not queued exactly when a backward link
        was left in it. */
    method IsQueued(x: nat) returns (r: bool)
      requires Valid() && x in mem
      ensures r <==> x in Nodes(tree) || mem[x].prev != NULL
    {
      r := mem[x].prev != NULL || root == x;
      if x in Nodes(tree) && x != root {
        LinksInside(mem, tree, mem[root].prev, x);
      }
    }
  }

  lemma Exchanged(n: set<nat>, x: nat, i: multiset<Item>, j: multiset<Item>, gone: multiset<Item>)
    requires x in n && i == j + gone
    ensures n - {x} + {x} == n && j == i - gone
  {
  }

  /** Two handles are queued, the second below the first, and both pulled: the second still claims to be
      queued, by the link left from being an only child. */
  method PulledHandleLooksQueued() returns (h: PairingHeap, claims: bool)
    ensures fresh(h) && h.Valid() && h.tree == Nil && 2 in h.mem && claims
  {
    h := new PairingHeap();
    h.Allocate(1);
    h.Allocate(2);
    var _ := h.Insert(1, 0);
    var _ := h.Insert(2, 5);
    assert h.tree == Cons(1, 0, Cons(2, 5, Nil, Nil), Nil);
    var _ := h.PullRoot();
    assert h.mem[2].prev == 1;
    var _ := h.PullRoot();
    claims := h.IsQueued(2);
  }

  /** The heap `f` after the removal of `x`, which is not its root. */
  function Left(f: Forest, x: nat): Forest {
    var c, k := Cut(f, x), KidsOf(f, x);
    if c.Nil? || k.Nil? then c else MergePairs(c.(rest := k))
  }

  /** Cutting leaves the root in place, and cuts off nothing that comes before it. */
  lemma CutShape(f: Forest, x: nat)
    requires f.Cons? && f.rest.Nil? && HeapOrdered(f) && x in Nodes(f) && x != f.at
    ensures var c, k := Cut(f, x), KidsOf(f, x);
      c == Cons(f.at, f.prio, Cut(f.kids, x), Nil) && HeapOrdered(c) && HeapOrdered(k) && AtLeast(k, f.prio)
  {
    NodesOf(f);
    CutOrder(f.kids, x, f.prio);
  }

  lemma LeftKeeps(f: Forest, x: nat)
    requires f.Cons? && f.rest.Nil? && Distinct(f) && HeapOrdered(f) && x in Nodes(f) && x != f.at
    ensures var r := Left(f, x);
      HeapOrdered(r) && Nodes(r) == Nodes(f) - {x} && Items(f) == Items(r) + multiset{Item(x, PrioOf(f, x))}
  {
    CutShape(f, x);
    CutParts(f, x);
    PartsMerged(f, x, PrioOf(f, x), Cut(f, x), KidsOf(f, x));
  }

  lemma PartsMerged(f: Forest, x: nat, p: int, c: Forest, k: Forest)
    requires Parts(f, x, p, c, k) && c.Cons? && c.rest.Nil? && HeapOrdered(c) && HeapOrdered(k)
    ensures var r := if k.Nil? then c else MergePairs(c.(rest := k));
      HeapOrdered(r) && Nodes(r) == Nodes(f) - {x} && Items(f) == Items(r) + multiset{Item(x, p)}
  {
    WithList(c, k);
    if k.Cons? {
      MergePairsKeeps(c.(rest := k));
    }
  }

  lemma WithList(c: Forest, k: Forest)
    requires c.Cons? && c.rest.Nil? && Apart(c, k)
    ensures var f := c.(rest := k);
      && Distinct(f) && Nodes(f) == Nodes(c) + Nodes(k) && Items(f) == Items(c) + Items(k)
      && (HeapOrdered(c) && HeapOrdered(k) ==> HeapOrdered(f))
  {
    NodesOf(c);
    NodesOf(c.(rest := k));
  }

  /** A tree, a list of trees cut off from below `x`, and handles without siblings and children. */
  ghost predicate TwoLists(mem: Mem, c: Forest, k: Forest, x: nat) {
    && NULL !in mem && c.Cons? && c.rest.Nil? && c.at in mem && Rep(mem, c, mem[c.at].prev) && Rep(mem, k, x)
    && x in mem && x !in Nodes(c) && x !in Nodes(k)
    && (forall y :: y in mem && y !in Nodes(c) && y !in Nodes(k) ==> mem[y].next == NULL && mem[y].child == NULL)
  }

  lemma MergedAt(mem: Mem, mem1: Mem, mem2: Mem, c: Forest, k: Forest, x: nat, p: nat)
    requires TwoLists(mem, c, k, x) && k.Cons? && c.prio <= k.prio && Untouched(mem, mem1, {c.at, k.at})
    requires var f := c.(rest := k);
      && Distinct(f) && Nodes(f) == Nodes(c) + Nodes(k) && Changed(mem1, mem2, f, p) && Rep(mem2, MergePairs(f), NULL)
    ensures HeapAt(mem2, MergePairs(c.(rest := k))) && x in mem2 && mem2[x] == mem[x]
  {
    var f := c.(rest := k);
    MergePairsKeeps(f);
    RepHead(mem2, MergePairs(f), NULL);
    HeadIn(c);
    HeadIn(k);
    assert Before(f, p) == {};
  }

  // ---------- Unlinking ----------

  /** The links of `x` lead into `s`. */
  ghost predicate LinksIn(mem: Mem, x: nat, s: set<nat>) {
    x in mem &&
    var b, n := mem[x].prev, mem[x].next;
    b in s && b in mem && b != x && (n != NULL ==> n in s && n in mem && n != x && n != b)
  }

  /** The links of a node other than the first stay within the list. */
  lemma {:induction false} LinksInside(mem: Mem, f: Forest, p: nat, x: nat)
    requires NULL !in mem && Rep(mem, f, p) && Distinct(f) && x in Nodes(f) && x != Head(f)
    ensures LinksIn(mem, x, Nodes(f)) && mem[x].next != Head(f)
  {
    RepHead(mem, f, p);
    NodesOf(f);
    var g := if x in Nodes(f.kids) then f.kids else f.rest;
    if x == g.at {
      FirstLinks(mem, g, f.at);
    } else {
      LinksInside(mem, g, f.at, x);
    }
  }

  lemma FirstLinks(mem: Mem, g: Forest, p: nat)
    requires NULL !in mem && Rep(mem, g, p) && Distinct(g) && g.Cons? && p !in Nodes(g) && p in mem
    ensures LinksIn(mem, g.at, Nodes(g) + {p}) && mem[g.at].prev == p && mem[g.at].next != p
  {
    RepHead(mem, g, p);
    RepHead(mem, g.rest, g.at);
    NodesOf(g);
    HeadIn(g.rest);
  }

  /** What unlinking `x` writes. */
  ghost predicate Unlinked(mem: Mem, mem': Mem, x: nat)
    requires LinksIn(mem, x, mem.Keys)
  {
    var b, n := mem[x].prev, mem[x].next;
    && Untouched(mem, mem', {x, b, n})
    && mem'[x] == mem[x].(next := NULL, prev := NULL, child := NULL)
    && mem'[b] == (if mem[b].child == x then mem[b].(child := n) else mem[b].(next := n))
    && (n != NULL ==> mem'[n] == mem[n].(prev := b))
  }

  /** Unlinking the first of the list `g` that follows `p`. */
  lemma CutFirst(mem: Mem, mem': Mem, g: Forest, p: nat)
    requires NULL !in mem && Rep(mem, g, p) && Distinct(g) && g.Cons? && p !in Nodes(g) && p in mem
    requires LinksIn(mem, g.at, mem.Keys) && Unlinked(mem, mem', g.at)
    ensures Rep(mem', g.rest, p) && Rep(mem', g.kids, g.at)
  {
    var s := {g.at, p, Head(g.rest)};
    RepHead(mem, g, p);
    NodesOf(g);
    HeadIn(g.rest);
    NoNull(g);
    PartMoved(mem, mem', g.rest, g.at, p, s);
    RepElsewhere(mem, mem', g.kids, g.at, s);
  }

  /** A list apart from the unlinked node and its neighbours stays as it is. */
  lemma ElsewhereUnlinked(mem: Mem, mem': Mem, h: Forest, p: nat, x: nat, ns: set<nat>)
    requires NULL !in mem && Rep(mem, h, p) && Distinct(h) && Nodes(h) !! ns
    requires x in ns && LinksIn(mem, x, ns) && ns <= mem.Keys && Unlinked(mem, mem', x)
    ensures Rep(mem', h, p)
  {
    NoNull(h);
    RepElsewhere(mem, mem', h, p, {x, mem[x].prev, mem[x].next});
  }

  /** The unlinked node's list without it, and its children, in memory. */
  lemma {:induction false} CutRep(mem: Mem, mem': Mem, f: Forest, p: nat, x: nat)
    requires NULL !in mem && Rep(mem, f, p) && Distinct(f) && x in Nodes(f) && x != Head(f)
    requires LinksIn(mem, x, mem.Keys) && Unlinked(mem, mem', x)
    ensures Rep(mem', Cut(f, x), p) && Rep(mem', KidsOf(f, x), x) && Head(Cut(f, x)) == f.at
  {
    RepHead(mem, f, p);
    NodesOf(f);
    if x in Nodes(f.kids) {
      CutMisses(f.rest, x);
      if x == f.kids.at {
        CutFirstKid(mem, mem', f, p);
      } else {
        LinksInside(mem, f.kids, f.at, x);
        CutRep(mem, mem', f.kids, f.at, x);
        CutBelowKids(mem, mem', f, p, x, Cut(f.kids, x));
      }
    } else {
      CutMisses(f.kids, x);
      if x == f.rest.at {
        CutNext(mem, mem', f, p);
      } else {
        LinksInside(mem, f.rest, f.at, x);
        CutRep(mem, mem', f.rest, f.at, x);
        CutBelowRest(mem, mem', f, p, x, Cut(f.rest, x));
      }
    }
  }

  ghost predicate ListAt(mem: Mem, f: Forest, p: nat) {
    f.Cons? && NULL !in mem && Rep(mem, f, p) && Distinct(f)
  }

  lemma CutFirstKid(mem: Mem, mem': Mem, f: Forest, p: nat)
    requires ListAt(mem, f, p) && f.kids.Cons? && LinksIn(mem, f.kids.at, mem.Keys) && Unlinked(mem, mem', f.kids.at)
    ensures Rep(mem', f.(kids := f.kids.rest), p) && Rep(mem', f.kids.kids, f.kids.at)
  {
    var g := f.kids;
    RepHead(mem, f, p);
    RepHead(mem, g, f.at);
    RepNodes(mem, g, f.at);
    FirstLinks(mem, g, f.at);
    CutFirst(mem, mem', g, f.at);
    ElsewhereUnlinked(mem, mem', f.rest, f.at, g.at, Nodes(g) + {f.at});
  }

  lemma CutNext(mem: Mem, mem': Mem, f: Forest, p: nat)
    requires ListAt(mem, f, p) && f.rest.Cons? && LinksIn(mem, f.rest.at, mem.Keys) && Unlinked(mem, mem', f.rest.at)
    ensures Rep(mem', f.(rest := f.rest.rest), p) && Rep(mem', f.rest.kids, f.rest.at)
  {
    var g := f.rest;
    RepHead(mem, f, p);
    RepHead(mem, g, f.at);
    RepNodes(mem, g, f.at);
    HeadIn(f.kids);
    FirstLinks(mem, g, f.at);
    CutFirst(mem, mem', g, f.at);
    ElsewhereUnlinked(mem, mem', f.kids, f.at, g.at, Nodes(g) + {f.at});
  }

  lemma CutBelowKids(mem: Mem, mem': Mem, f: Forest, p: nat, x: nat, c: Forest)
    requires ListAt(mem, f, p) && x in Nodes(f.kids) && LinksIn(mem, x, Nodes(f.kids))
    requires LinksIn(mem, x, mem.Keys) && Unlinked(mem, mem', x) && Rep(mem', c, f.at) && Head(c) == Head(f.kids)
    ensures Rep(mem', f.(kids := c), p)
  {
    RepHead(mem, f, p);
    RepNodes(mem, f.kids, f.at);
    ElsewhereUnlinked(mem, mem', f.rest, f.at, x, Nodes(f.kids));
  }

  lemma CutBelowRest(mem: Mem, mem': Mem, f: Forest, p: nat, x: nat, c: Forest)
    requires ListAt(mem, f, p) && x in Nodes(f.rest) && LinksIn(mem, x, Nodes(f.rest))
    requires LinksIn(mem, x, mem.Keys) && Unlinked(mem, mem', x) && Rep(mem', c, f.at) && Head(c) == Head(f.rest)
    ensures Rep(mem', f.(rest := c), p)
  {
    RepHead(mem, f, p);
    RepNodes(mem, f.rest, f.at);
    ElsewhereUnlinked(mem, mem', f.kids, f.at, x, Nodes(f.rest));
  }

  lemma CutLists(mem: Mem, mem': Mem, f: Forest, p: nat, x: nat)
    requires HeapAt(mem, f) && f.Cons? && x in Nodes(f) && x != f.at && p == mem[f.at].prev
    requires LinksIn(mem, x, Nodes(f)) && Nodes(f) <= mem.Keys && Unlinked(mem, mem', x)
    requires Rep(mem', Cut(f, x), p) && Rep(mem', KidsOf(f, x), x)
    ensures TwoLists(mem', Cut(f, x), KidsOf(f, x), x) && mem[x].child == Head(KidsOf(f, x))
  {
    CutParts(f, x);
    CutRep(mem, mem', f, p, x);
    RepHead(mem', Cut(f, x), p);
    ChildOf(mem, f, p, x);
    forall y | y in mem' && y !in Nodes(Cut(f, x)) && y !in Nodes(KidsOf(f, x))
      ensures mem'[y].next == NULL && mem'[y].child == NULL
    {
      assert y == x || y !in Nodes(f);
    }
  }

  lemma {:induction false} ChildOf(mem: Mem, f: Forest, p: nat, x: nat)
    requires Rep(mem, f, p) && x in Nodes(f)
    ensures x in mem && mem[x].child == Head(KidsOf(f, x))
  {
    RepHead(mem, f, p);
    if x != f.at {
      if x in Nodes(f.kids) {
        ChildOf(mem, f.kids, f.at, x);
      } else {
        ChildOf(mem, f.rest, f.at, x);
      }
    }
  }

  lemma LinkedRep(mem: Mem, mem': Mem, c: Forest, k: Forest, x: nat, p: nat)
    requires NULL !in mem && c.Cons? && c.rest.Nil? && k.Cons? && Apart(c, k) && Rep(mem, c, p) && Rep(mem, k, x)
    requires Untouched(mem, mem', {c.at, k.at}) && c.at in mem && k.at in mem
    requires mem'[c.at] == mem[c.at].(next := k.at) && mem'[k.at] == mem[k.at].(prev := c.at)
    ensures PairAt(mem', c.(rest := k), p) && Nodes(c.(rest := k)) == Nodes(c) + Nodes(k)
  {
    RepHead(mem, c, p);
    NodesOf(c);
    HeadIn(k);
    NodesOf(c.(rest := k));
    PartMoved(mem, mem', k, x, c.at, {c.at, k.at});
    RepElsewhere(mem, mem', c.kids, c.at, {c.at, k.at});
  }

  lemma {:induction false} AtLeastItems(f: Forest, p: int)
    requires AtLeast(f, p)
    ensures forall i :: i in Items(f) ==> p <= i.prio
  {
    if f.Cons? {
      AtLeastItems(f.kids, p);
      AtLeastItems(f.rest, p);
    }
  }

  /** Pulling takes the least item and no other. */
  lemma PulledItems(f: Forest)
    requires f.Cons? && f.rest.Nil? && Distinct(f) && HeapOrdered(f)
    ensures var r := MergePairs(f.kids);
      && HeapOrdered(r) && Nodes(r) == Nodes(f) - {f.at} && f.at !in Nodes(f.kids)
      && Items(f) == Items(r) + multiset{Item(f.at, f.prio)} && (forall i :: i in Items(r) ==> f.prio <= i.prio)
  {
    NodesOf(f);
    MergePairsKeeps(f.kids);
    AtLeastItems(f.kids, f.prio);
  }

  lemma PulledAt(mem: Mem, mem1: Mem, f: Forest)
    requires HeapAt(mem, f) && f.Cons? && Changed(mem, mem1, f.kids, f.at)
    requires Rep(mem1, MergePairs(f.kids), if f.kids.Cons? && f.kids.rest.Nil? then f.at else NULL)
    ensures f.at in mem1 && HeapAt(SetChild(mem1, f.at, NULL), MergePairs(f.kids))
    ensures mem1[f.at].prev == mem[f.at].prev
    ensures f.kids.Cons? ==> var r := MergePairs(f.kids);
      r.Cons? && r.at in mem1 && r.at != f.at && mem1[r.at].prev == if f.kids.rest.Nil? then f.at else NULL
  {
    var r, q := MergePairs(f.kids), if f.kids.Cons? && f.kids.rest.Nil? then f.at else NULL;
    MergePairsKeeps(f.kids);
    NodesOf(f);
    RepHead(mem, f, mem[f.at].prev);
    RepHead(mem1, r, q);
    RepElsewhere(mem1, SetChild(mem1, f.at, NULL), r, q, {f.at});
  }

  /** Handles that are not queued have no siblings and no children. */
  ghost predicate IdleOk(mem: Mem, f: Forest) {
    forall x :: x in mem && x !in Nodes(f) ==> mem[x].next == NULL && mem[x].child == NULL
  }

  /** A new node joins the heap `f`. */
  function Joined(f: Forest, x: nat, p: int): (r: Forest)
    ensures r.Cons?
  {
    if f.Nil? then Cons(x, p, Nil, Nil)
    else if f.prio < p then f.(kids := Cons(x, p, Nil, f.kids))
    else Cons(x, p, f, Nil)
  }

  lemma JoinedKeeps(f: Forest, x: nat, p: int)
    requires Distinct(f) && HeapOrdered(f) && x !in Nodes(f) && x != NULL && (f.Cons? ==> f.rest.Nil?)
    ensures var r := Joined(f, x, p);
      && Distinct(r) && HeapOrdered(r) && r.rest.Nil?
      && Items(r) == Items(f) + multiset{Item(x, p)} && Nodes(r) == Nodes(f) + {x}
  {
    if f.Cons? {
      JoinedItems(f, x, p);
      JoinedOrder(f, x, p);
    }
  }

  lemma JoinedItems(f: Forest, x: nat, p: int)
    requires Distinct(f) && x !in Nodes(f) && x != NULL && f.Cons? && f.rest.Nil?
    ensures var r := Joined(f, x, p);
      Distinct(r) && Items(r) == Items(f) + multiset{Item(x, p)} && Nodes(r) == Nodes(f) + {x}
  {
    var r := Joined(f, x, p);
    NodesOf(f);
    NodesOf(r);
    NodesOf(r.kids);
    assert f.prio < p ==> Distinct(r.kids);
  }

  lemma JoinedOrder(f: Forest, x: nat, p: int)
    requires HeapOrdered(f) && f.Cons? && f.rest.Nil?
    ensures HeapOrdered(Joined(f, x, p))
  {
    var r := Joined(f, x, p);
    if f.prio < p {
      assert HeapOrdered(r.kids) && AtLeast(r.kids, f.prio);
    } else {
      AtLeastWeaker(f.kids, f.prio, p);
    }
  }

  /** One tree and handles that are not queued. */
  ghost predicate HeapAt(mem: Mem, f: Forest) {
    && NULL !in mem && Distinct(f) && IdleOk(mem, f)
    && (f.Cons? ==> f.rest.Nil? && f.at in mem && Rep(mem, f, mem[f.at].prev))
  }

  lemma PrioSet(mem: Mem, f: Forest, x: nat, p: int)
    requires HeapAt(mem, f) && x in mem && x !in Nodes(f)
    ensures HeapAt(mem[x := mem[x].(prio := p)], f)
  {
    var mem' := mem[x := mem[x].(prio := p)];
    HeadIn(f);
    if f.Cons? {
      RepElsewhere(mem, mem', f, mem[f.at].prev, {x});
    }
  }

  lemma JoinedBelow(mem: Mem, mem': Mem, f: Forest, x: nat, p: int)
    requires HeapAt(mem, f) && f.Cons? && f.prio < p && x in mem && x !in Nodes(f)
    requires && Untouched(mem, mem', {f.at, x, Head(f.kids)}) && mem'[f.at] == mem[f.at].(child := x)
             && mem'[x] == Cell(p, Head(f.kids), f.at, NULL)
             && (f.kids.Cons? ==> f.kids.at in mem && mem'[f.kids.at] == mem[f.kids.at].(prev := x))
    ensures HeapAt(mem', Joined(f, x, p))
  {
    var q, k := mem[f.at].prev, f.kids;
    var s := {f.at, x, Head(k)};
    RepHead(mem, f, q);
    NodesOf(f);
    HeadIn(k);
    NoNull(k);
    PartMoved(mem, mem', k, f.at, x, s);
    var r := Cons(x, p, Nil, k);
    assert Rep(mem', r, f.at);
    NodesOf(r);
    NodesOf(f.(kids := r));
  }

  lemma JoinedAbove(mem: Mem, mem': Mem, f: Forest, x: nat, p: int)
    requires HeapAt(mem, f) && f.Cons? && f.prio >= p && x in mem && x !in Nodes(f)
    requires && Untouched(mem, mem', {f.at, x}) && mem'[f.at] == mem[f.at].(prev := x)
             && mem'[x] == mem[x].(prio := p, child := f.at)
    ensures HeapAt(mem', Joined(f, x, p))
  {
    HeadIn(f);
    PartMoved(mem, mem', f, mem[f.at].prev, x, {f.at, x});
    NodesOf(Cons(x, p, f, Nil));
  }

  lemma MeldShortens(f: Forest)
    requires f.Cons? && f.rest.Cons?
    ensures Length(Meld(f)) < Length(f)
  {
    var m := Meld(f);
    assert Length(f) == 1 + Length(f.rest) == 2 + Length(m.rest);
  }
}
