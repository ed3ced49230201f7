/** Facts about finite sets. */
module Sets {

  lemma SomeElement<T>(s: set<T>) returns (x: T)
    requires s != {}
    ensures x in s
  {
    x :| x in s;
  }

  /** There is always a number not yet used. */
  lemma {:induction false} FreshNat(used: set<nat>) returns (n: nat)
    ensures n !in used && forall k :: k in used ==> k < n
    decreases |used|
  {
    if used == {} {
      n := 0;
    } else {
      var k := SomeElement(used);
      var m := FreshNat(used - {k});
      n := if m > k then m else k + 1;
      assert forall x :: x in used ==> x == k || x in used - {k};
    }
  }
}
