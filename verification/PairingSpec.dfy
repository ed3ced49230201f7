/** The pairing heap as trees: melding, the two passes of `merge_pairs`, and removal. */
module PairingSpec {

  /** A list of trees: the first tree's root and children, then its later siblings. */
  datatype Forest = Nil | Cons(at: nat, prio: int, kids: Forest, rest: Forest)

  datatype Item = Item(at: nat, prio: int)

  /** Handle addresses start at one; zero is the null pointer. */
  const NULL: nat := 0

  function Head(f: Forest): nat {
    if f.Nil? then NULL else f.at
  }

  function Nodes(f: Forest): set<nat> {
    if f.Nil? then {} else {f.at} + Nodes(f.kids) + Nodes(f.rest)
  }

  /** Each node with its priority. */
  ghost function Items(f: Forest): multiset<Item> {
    if f.Nil? then multiset{} else multiset{Item(f.at, f.prio)} + Items(f.kids) + Items(f.rest)
  }

  /** No node occurs twice, and none is null. */
  ghost predicate Distinct(f: Forest) {
    f.Cons? ==>
      && f.at != NULL && f.at !in Nodes(f.kids) && f.at !in Nodes(f.rest) && Nodes(f.kids) !! Nodes(f.rest)
      && Distinct(f.kids) && Distinct(f.rest)
  }

  ghost predicate AtLeast(f: Forest, p: int) {
    f.Cons? ==> p <= f.prio && AtLeast(f.kids, p) && AtLeast(f.rest, p)
  }

  /** No node comes before the root of its tree. */
  ghost predicate HeapOrdered(f: Forest) {
    f.Cons? ==> AtLeast(f.kids, f.prio) && HeapOrdered(f.kids) && HeapOrdered(f.rest)
  }

  predicate Single(f: Forest) {
    f.Cons? && f.rest.Nil?
  }

  // ---------- Melding ----------

  /** The first two trees of a list become one: the lesser root gets the other tree as its first child. */
  function Meld(f: Forest): (r: Forest)
    requires f.Cons? && f.rest.Cons?
    ensures r.Cons? && r.rest == f.rest.rest
  {
    var g := f.rest;
    if g.prio < f.prio then Cons(g.at, g.prio, Cons(f.at, f.prio, f.kids, g.kids), g.rest)
    else Cons(f.at, f.prio, Cons(g.at, g.prio, g.kids, f.kids), g.rest)
  }

  function Length(f: Forest): nat {
    if f.Nil? then 0 else 1 + Length(f.rest)
  }

  /** First pass: pairs are melded left to right onto `done`, which so comes out reversed. */
  function Pairs(f: Forest, done: Forest): Forest
  {
    if f.Nil? then done
    else if f.rest.Nil? then f.(rest := done)
    else
      var m := Meld(f);
      Pairs(f.rest.rest, m.(rest := done))
  }

  /** Second pass: everything is melded into one tree. */
  function Fold(f: Forest): Forest
    decreases Length(f)
  {
    if f.Nil? || f.rest.Nil? then f
    else
      var m := Meld(f);
      assert Length(f) == 1 + Length(f.rest) == 2 + Length(m.rest);
      Fold(m)
  }

  function MergePairs(f: Forest): Forest {
    if f.Nil? || f.rest.Nil? then f else Fold(Pairs(f, Nil))
  }

  // ---------- Melding keeps everything ----------

  /** The same nodes with the same priorities, each once, in heap order. */
  ghost predicate Kept(f: Forest, f': Forest) {
    && Nodes(f') == Nodes(f) && Items(f') == Items(f)
    && (Distinct(f) ==> Distinct(f'))
    && (HeapOrdered(f) ==> HeapOrdered(f'))
    && (forall p :: AtLeast(f, p) ==> AtLeast(f', p))
  }

  lemma {:induction false} AtLeastWeaker(f: Forest, p: int, q: int)
    requires AtLeast(f, p) && q <= p
    ensures AtLeast(f, q)
  {
    if f.Cons? {
      AtLeastWeaker(f.kids, p, q);
      AtLeastWeaker(f.rest, p, q);
    }
  }

  lemma MeldKeeps(f: Forest)
    requires f.Cons? && f.rest.Cons?
    ensures Kept(f, Meld(f))
  {
    MeldItems(f);
    if Distinct(f) {
      MeldDistinct(f);
    }
    MeldOrder(f);
  }

  lemma MeldItems(f: Forest)
    requires f.Cons? && f.rest.Cons?
    ensures Nodes(Meld(f)) == Nodes(f) && Items(Meld(f)) == Items(f)
  {
    var g, m := f.rest, Meld(f);
    NodesOf(f);
    NodesOf(g);
    NodesOf(m);
    NodesOf(m.kids);
    Shuffled({f.at}, Nodes(f.kids), {g.at}, Nodes(g.kids), Nodes(g.rest));
    ShuffledItems(multiset{Item(f.at, f.prio)}, Items(f.kids), multiset{Item(g.at, g.prio)}, Items(g.kids),
                  Items(g.rest));
  }

  lemma Shuffled(a: set<nat>, ka: set<nat>, b: set<nat>, kb: set<nat>, r: set<nat>)
    ensures a + ka + (b + kb + r) == b + (a + ka + kb) + r == a + (b + kb + ka) + r
  {
  }

  lemma ShuffledItems(a: multiset<Item>, ka: multiset<Item>, b: multiset<Item>, kb: multiset<Item>, r: multiset<Item>)
    ensures a + ka + (b + kb + r) == b + (a + ka + kb) + r == a + (b + kb + ka) + r
  {
  }

  lemma NodesOf(f: Forest)
    requires f.Cons?
    ensures Nodes(f) == {f.at} + Nodes(f.kids) + Nodes(f.rest)
    ensures Items(f) == multiset{Item(f.at, f.prio)} + Items(f.kids) + Items(f.rest)
  {
  }

  lemma {:induction false} MeldDistinct(f: Forest)
    requires f.Cons? && f.rest.Cons? && Distinct(f)
    ensures Distinct(Meld(f))
  {
    var g := f.rest;
    NodesOf(f);
    NodesOf(g);
    assert Distinct(g);
    if g.prio < f.prio {
      UnderRoot(g.at, g.prio, g.rest, Cons(f.at, f.prio, f.kids, g.kids));
    } else {
      UnderRoot(f.at, f.prio, g.rest, Cons(g.at, g.prio, g.kids, f.kids));
    }
  }

  lemma {:induction false} UnderRoot(at: nat, prio: int, rest: Forest, k: Forest)
    requires k.Cons? && at != NULL && k.at != NULL && at != k.at
    requires Distinct(k.kids) && Distinct(k.rest) && Distinct(rest)
    requires k.at !in Nodes(k.kids) && k.at !in Nodes(k.rest) && k.at !in Nodes(rest)
    requires at !in Nodes(k.kids) && at !in Nodes(k.rest) && at !in Nodes(rest)
    requires Nodes(k.kids) !! Nodes(k.rest) && Nodes(k.kids) !! Nodes(rest) && Nodes(k.rest) !! Nodes(rest)
    ensures Distinct(Cons(at, prio, k, rest))
  {
    NodesOf(k);
    assert Distinct(k);
  }

  lemma MeldOrder(f: Forest)
    requires f.Cons? && f.rest.Cons?
    ensures HeapOrdered(f) ==> HeapOrdered(Meld(f))
    ensures forall p :: AtLeast(f, p) ==> AtLeast(Meld(f), p)
  {
    var g, m := f.rest, Meld(f);
    if HeapOrdered(f) {
      assert HeapOrdered(g) && HeapOrdered(m.kids);
      if g.prio < f.prio {
        AtLeastWeaker(f.kids, f.prio, g.prio);
      } else {
        AtLeastWeaker(g.kids, g.prio, f.prio);
      }
      assert AtLeast(m.kids, m.prio);
    }
    forall p | AtLeast(f, p)
      ensures AtLeast(m, p)
    {
      assert AtLeast(g, p) && AtLeast(m.kids, p);
    }
  }

  // ---------- Both passes keep everything ----------

  /** The two lists share no node and are fit to be one heap. */
  ghost predicate Apart(f: Forest, g: Forest) {
    Distinct(f) && Distinct(g) && Nodes(f) !! Nodes(g)
  }

  lemma PushPair(f: Forest, done: Forest)
    requires f.Cons? && f.rest.Cons? && Apart(f, done)
    ensures var m := Meld(f);
      var d := m.(rest := done);
      && Apart(f.rest.rest, d)
      && Nodes(f.rest.rest) + Nodes(d) == Nodes(f) + Nodes(done)
      && Items(f.rest.rest) + Items(d) == Items(f) + Items(done)
  {
    var m := Meld(f);
    var d := m.(rest := done);
    MeldItems(f);
    MeldDistinct(f);
    NodesOf(m);
    NodesOf(d);
  }

  lemma {:induction false} PairsKeep(f: Forest, done: Forest)
    requires Apart(f, done)
    ensures var r := Pairs(f, done);
      Distinct(r) && Nodes(r) == Nodes(f) + Nodes(done) && Items(r) == Items(f) + Items(done)
    ensures HeapOrdered(f) && HeapOrdered(done) ==> HeapOrdered(Pairs(f, done))
    ensures f.Cons? || done.Cons? ==> Pairs(f, done).Cons?
  {
    if f.Cons? {
      if f.rest.Nil? {
        NodesOf(f);
        NodesOf(f.(rest := done));
      } else {
        var m := Meld(f);
        PushPair(f, done);
        MeldOrder(f);
        PairsKeep(f.rest.rest, m.(rest := done));
        assert HeapOrdered(f) ==> HeapOrdered(f.rest);
      }
    }
  }

  lemma {:induction false} FoldKeeps(f: Forest)
    requires f.Cons? && Distinct(f)
    ensures var r := Fold(f); Single(r) && Distinct(r) && Nodes(r) == Nodes(f) && Items(r) == Items(f)
    ensures HeapOrdered(f) ==> HeapOrdered(Fold(f))
    decreases Length(f)
  {
    if f.rest.Cons? {
      var m := Meld(f);
      assert Length(f) == 1 + Length(f.rest) == 2 + Length(m.rest);
      MeldKeeps(f);
      FoldKeeps(m);
    }
  }

  /** `merge_pairs` makes one tree of any list of trees, with the same nodes, in heap order. */
  lemma MergePairsKeeps(f: Forest)
    requires Distinct(f)
    ensures var r := MergePairs(f);
      (f.Cons? ==> Single(r)) && Distinct(r) && Nodes(r) == Nodes(f) && Items(r) == Items(f)
    ensures HeapOrdered(f) ==> HeapOrdered(MergePairs(f))
  {
    if f.Cons? && f.rest.Cons? {
      var r := PairsOfAll(f);
      FoldKeeps(r);
    }
  }

  lemma PairsOfAll(f: Forest) returns (r: Forest)
    requires Distinct(f) && f.Cons?
    ensures r == Pairs(f, Nil) && r.Cons? && Distinct(r) && Nodes(r) == Nodes(f) && Items(r) == Items(f)
    ensures HeapOrdered(f) ==> HeapOrdered(r)
  {
    r := Pairs(f, Nil);
    PairsKeep(f, Nil);
  }

  // ---------- Cutting a node out ----------

  /** The list without node `x`, whose children are cut off with it. */
  function Cut(f: Forest, x: nat): Forest {
    if f.Nil? then Nil
    else if f.at == x then f.rest
    else f.(kids := Cut(f.kids, x), rest := Cut(f.rest, x))
  }

  function KidsOf(f: Forest, x: nat): Forest {
    if f.Nil? then Nil
    else if f.at == x then f.kids
    else if x in Nodes(f.kids) then KidsOf(f.kids, x)
    else KidsOf(f.rest, x)
  }

  function PrioOf(f: Forest, x: nat): int {
    if f.Nil? then 0
    else if f.at == x then f.prio
    else if x in Nodes(f.kids) then PrioOf(f.kids, x)
    else PrioOf(f.rest, x)
  }

  lemma {:induction false} CutMisses(f: Forest, x: nat)
    requires x !in Nodes(f)
    ensures Cut(f, x) == f
  {
    if f.Cons? {
      CutMisses(f.kids, x);
      CutMisses(f.rest, x);
    }
  }

  /** Cutting parts the nodes into the cut node, its children and the others. */
  lemma {:induction false} CutParts(f: Forest, x: nat)
    requires Distinct(f) && x in Nodes(f)
    ensures Parts(f, x, PrioOf(f, x), Cut(f, x), KidsOf(f, x))
  {
    NodesOf(f);
    if f.at != x {
      if x in Nodes(f.kids) {
        CutParts(f.kids, x);
        CutMisses(f.rest, x);
        PartsInKids(f, x, Cut(f.kids, x), KidsOf(f.kids, x), PrioOf(f.kids, x));
      } else {
        CutParts(f.rest, x);
        CutMisses(f.kids, x);
        PartsInRest(f, x, Cut(f.rest, x), KidsOf(f.rest, x), PrioOf(f.rest, x));
      }
    } else {
      assert Items(f) == Items(f.rest) + Items(f.kids) + multiset{Item(x, f.prio)};
    }
  }

  /** `f` parts into `c`, the children `k` of `x`, and `x` itself. */
  ghost predicate Parts(f: Forest, x: nat, p: int, c: Forest, k: Forest) {
    && Apart(c, k) && x !in Nodes(c) && x !in Nodes(k)
    && Nodes(f) == Nodes(c) + Nodes(k) + {x}
    && Items(f) == Items(c) + Items(k) + multiset{Item(x, p)}
  }

  lemma PartsInKids(f: Forest, x: nat, c: Forest, k: Forest, p: int)
    requires f.Cons? && Distinct(f) && x in Nodes(f.kids) && Parts(f.kids, x, p, c, k)
    ensures Parts(f, x, p, f.(kids := c), k)
  {
    var g := f.(kids := c);
    NodesOf(f);
    NodesOf(g);
    Regrouped({f.at}, Nodes(c), Nodes(k), {x}, Nodes(f.rest));
    RegroupedItems(multiset{Item(f.at, f.prio)}, Items(c), Items(k), multiset{Item(x, p)}, Items(f.rest));
    assert Nodes(c) <= Nodes(f.kids) && Nodes(k) <= Nodes(f.kids);
    assert Distinct(g);
  }

  lemma PartsInRest(f: Forest, x: nat, c: Forest, k: Forest, p: int)
    requires f.Cons? && Distinct(f) && x in Nodes(f.rest) && Parts(f.rest, x, p, c, k)
    ensures Parts(f, x, p, f.(rest := c), k)
  {
    var g := f.(rest := c);
    NodesOf(f);
    NodesOf(g);
    Grouped({f.at} + Nodes(f.kids), Nodes(c), Nodes(k), {x});
    GroupedItems(multiset{Item(f.at, f.prio)} + Items(f.kids), Items(c), Items(k), multiset{Item(x, p)});
    assert Nodes(c) <= Nodes(f.rest) && Nodes(k) <= Nodes(f.rest);
    assert Distinct(g);
  }

  lemma Grouped(a: set<nat>, c: set<nat>, k: set<nat>, x: set<nat>)
    ensures a + (c + k + x) == (a + c) + k + x
  {
  }

  lemma GroupedItems(a: multiset<Item>, c: multiset<Item>, k: multiset<Item>, x: multiset<Item>)
    ensures a + (c + k + x) == (a + c) + k + x
  {
  }

  lemma Regrouped(a: set<nat>, c: set<nat>, k: set<nat>, x: set<nat>, r: set<nat>)
    ensures a + (c + k + x) + r == (a + c + r) + k + x
  {
  }

  lemma RegroupedItems(a: multiset<Item>, c: multiset<Item>, k: multiset<Item>, x: multiset<Item>, r: multiset<Item>)
    ensures a + (c + k + x) + r == (a + c + r) + k + x
  {
  }

  lemma {:induction false} CutOrder(f: Forest, x: nat, p: int)
    ensures HeapOrdered(f) ==> HeapOrdered(Cut(f, x)) && HeapOrdered(KidsOf(f, x))
    ensures AtLeast(f, p) ==> AtLeast(Cut(f, x), p) && AtLeast(KidsOf(f, x), p)
  {
    if f.Cons? {
      CutOrder(f.kids, x, p);
      CutOrder(f.rest, x, p);
      CutOrder(f.kids, x, f.prio);
    }
  }
}
