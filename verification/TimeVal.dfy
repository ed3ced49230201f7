/** Seconds-and-nanoseconds arithmetic, and the shift-and-subtract division of timer overruns. */
module TimeVals {

  const BILLION := 1_000_000_000

  datatype TimeVal = TimeVal(s: int, ns: int)

  ghost predicate Normal(t: TimeVal) {
    0 <= t.ns < BILLION
  }

  /** The time in nanoseconds. */
  function Nanos(t: TimeVal): int {
    t.s * BILLION + t.ns
  }

  function Sub(a: TimeVal, b: TimeVal): (r: TimeVal)
    requires Normal(a) && Normal(b)
    ensures Normal(r) && Nanos(r) == Nanos(a) - Nanos(b)
  {
    if a.ns >= b.ns then TimeVal(a.s - b.s, a.ns - b.ns)
    else TimeVal(a.s - b.s - 1, BILLION - b.ns + a.ns)
  }

  function Add(a: TimeVal, b: TimeVal): (r: TimeVal)
    requires Normal(a) && Normal(b)
    ensures Normal(r) && Nanos(r) == Nanos(a) + Nanos(b)
  {
    if a.ns + b.ns >= BILLION then TimeVal(a.s + b.s + 1, a.ns + b.ns - BILLION)
    else TimeVal(a.s + b.s, a.ns + b.ns)
  }

  predicate Less(a: TimeVal, b: TimeVal) {
    a.s < b.s || (a.s == b.s && a.ns < b.ns)
  }

  predicate AtMost(a: TimeVal, b: TimeVal) {
    a.s < b.s || (a.s == b.s && a.ns <= b.ns)
  }

  /** The field-wise comparisons order times by their nanoseconds. */
  lemma ComparisonsAgree(a: TimeVal, b: TimeVal)
    requires Normal(a) && Normal(b)
    ensures Less(a, b) <==> Nanos(a) < Nanos(b)
    ensures AtMost(a, b) <==> Nanos(a) <= Nanos(b)
    ensures Nanos(a) == Nanos(b) <==> a == b
  {
  }

  function Pow2(n: nat): (r: int)
    ensures r > 0
  {
    if n == 0 then 1 else 2 * Pow2(n - 1)
  }

  /** `<<=` multiplies by a power of two. */
  method ShiftLeft(t: TimeVal, n: nat) returns (r: TimeVal)
    requires Normal(t)
    ensures Normal(r) && Nanos(r) == Pow2(n) * Nanos(t)
  {
    r := t;
    var i := 0;
    while i < n
      invariant 0 <= i <= n && Normal(r) && Nanos(r) == Pow2(i) * Nanos(t)
    {
      ghost var was := r;
      r := TimeVal(r.s * 2, r.ns * 2);
      if r.ns >= BILLION {
        r := TimeVal(r.s + 1, r.ns - BILLION);
      }
      assert Nanos(r) == 2 * Nanos(was);
      i := i + 1;
    }
  }

  /** `>>=` divides a non-negative time by a power of two, rounding down. */
  method ShiftRight(t: TimeVal, n: nat) returns (r: TimeVal)
    requires Normal(t) && t.s >= 0
    ensures Normal(r) && r.s >= 0
    ensures Pow2(n) * Nanos(r) <= Nanos(t) < Pow2(n) * (Nanos(r) + 1)
  {
    r := t;
    var i := 0;
    while i < n
      invariant 0 <= i <= n && Normal(r) && r.s >= 0
      invariant Pow2(i) * Nanos(r) <= Nanos(t) < Pow2(i) * (Nanos(r) + 1)
    {
      ghost var was := r;
      var low := r.s % 2 == 1;
      r := TimeVal(r.s / 2, r.ns / 2 + if low then 500_000_000 else 0);
      HalvingBound(Pow2(i), Nanos(was), Nanos(r), Nanos(t));
      i := i + 1;
    }
  }

  lemma HalvingBound(p: int, was: int, now: int, t: int)
    requires was == 2 * now || was == 2 * now + 1
    requires p > 0 && p * was <= t < p * (was + 1)
    ensures 2 * p * now <= t < 2 * p * (now + 1)
  {
    assert p * was >= p * (2 * now);
    assert p * (was + 1) <= p * (2 * now + 2);
  }

  // ---------- Division ----------

  /** The overruns for which the quotient comes out too small: a divisor below one second, a first
      difference below one second, and at least three divisors in the numerator. */
  predicate UnderCounts(num: int, den: int) {
    den < BILLION <= num && num - den < BILLION && num >= 3 * den
  }

  /** What the division returns. */
  function Quotient(num: int, den: int): int
    requires den > 0
  {
    if num < 0 then 0 else if UnderCounts(num, den) then 2 else num / den
  }

  lemma Products(a: int, b: int, c: int)
    ensures (a + b) * c == a * c + b * c
  {
  }

  lemma Multiple(x: int, den: int)
    requires den > 0
    ensures x > 0 ==> x * den >= den
    ensures x < 0 ==> x * den <= -den
  {
    if x > 0 {
      assert (x - 1) * den >= 0;
    } else if x < 0 {
      assert (-x - 1) * den >= 0;
    }
  }

  lemma QuotientUnique(num: int, den: int, q: int, rem: int)
    requires den > 0 && num == q * den + rem && 0 <= rem < den
    ensures q == num / den
  {
    var p, m := num / den, num % den;
    assert num == p * den + m && 0 <= m < den;
    Products(q, -p, den);
    assert (q - p) * den == m - rem;
    Multiple(q - p, den);
  }

  /** The scaling loop: doubles the divisor until its seconds reach those of what is left. */
  method ScaleUp(d0: TimeVal, r: TimeVal) returns (d: TimeVal, nval: int, ghost e: nat)
    requires Normal(d0) && Normal(r) && Nanos(d0) > 0 && r.s >= 0
    ensures Normal(d) && nval == Pow2(e) && Nanos(d) == nval * Nanos(d0) && r.s <= d.s
    ensures e == 0 ==> d == d0
    ensures e > 0 ==> Nanos(d) <= 2 * Nanos(r) && r.s >= 1
    ensures e == 0 <==> r.s <= d0.s
  {
    d, nval, e := d0, 1, 0;
    while d.s < r.s
      invariant Normal(d) && nval == Pow2(e) && Nanos(d) == nval * Nanos(d0) && Nanos(d) > 0
      invariant e == 0 ==> d == d0
      invariant e > 0 ==> Nanos(d) <= 2 * Nanos(r) && d0.s < r.s
      decreases Nanos(r) - Nanos(d)
    {
      ghost var was := d;
      d := ShiftLeft(d, 1);
      assert Pow2(1) == 2;
      assert Nanos(d) == 2 * Nanos(was);
      nval := nval * 2;
      e := e + 1;
    }
  }

  /** The subtracting loop: takes off the scaled divisor at each power of two. */
  method SubtractDown(d1: TimeVal, n1: int, r1: TimeVal, ghost e1: nat, ghost den: int)
    returns (q: int, rem: TimeVal)
    requires Normal(d1) && Normal(r1) && den > 0 && n1 == Pow2(e1) && Nanos(d1) == n1 * den && Nanos(r1) >= 0
    ensures Normal(rem) && q >= 0 && Nanos(rem) >= 0 && Nanos(r1) == q * den + Nanos(rem)
    ensures Nanos(r1) < 2 * Nanos(d1) ==> Nanos(rem) < den
    ensures e1 == 0 ==> q <= 1 && (den <= Nanos(r1) ==> q == 1)
  {
    var d, nval := d1, n1;
    ghost var e: int := e1;
    q, rem := 0, r1;
    while nval > 0
      invariant Normal(d) && Normal(rem) && -1 <= e <= e1 && nval == (if e < 0 then 0 else Pow2(e))
      invariant nval > 0 ==> Nanos(d) == nval * den
      invariant e == e1 ==> q == 0 && rem == r1 && d == d1
      invariant PassOk(Nanos(r1), Nanos(d1), den, q, Nanos(rem), if nval > 0 then 2 * Nanos(d) else den)
      invariant e1 == 0 && e < 0 ==> q <= 1 && (den <= Nanos(r1) ==> q == 1)
      decreases nval
    {
      ComparisonsAgree(d, rem);
      Pass(Nanos(r1), Nanos(d1), den, q, Nanos(rem), nval, Nanos(d));
      if AtMost(d, rem) {
        rem := Sub(rem, d);
        q := q + nval;
      }
      d, nval := Halve(d, nval, e, den);
      e := e - 1;
    }
  }

  /** The scale and the scaled divisor are halved; at a scale of one the loop is over. */
  method Halve(d: TimeVal, nval: int, ghost e: nat, ghost den: int) returns (d': TimeVal, nval': int)
    requires Normal(d) && den > 0 && nval == Pow2(e) && Nanos(d) == nval * den
    ensures Normal(d') && nval' == if e == 0 then 0 else Pow2(e - 1)
    ensures e > 0 ==> Nanos(d') == nval' * den && Nanos(d) == 2 * Nanos(d')
    ensures e == 0 ==> Nanos(d) == den
    ensures nval' < nval
  {
    d' := ShiftRight(d, 1);
    assert Pow2(1) == 2;
    if e > 0 {
      HalfOfScaled(Pow2(e - 1), den, Nanos(d), Nanos(d'));
    }
    nval' := nval / 2;
  }

  /** With `q` divisors taken off so far, `rem` is left, below `bound` when the scale sufficed. */
  ghost predicate PassOk(r1: int, d1: int, den: int, q: int, rem: int, bound: int) {
    q >= 0 && rem >= 0 && r1 == q * den + rem && (r1 < 2 * d1 ==> rem < bound)
  }

  /** One pass: a scaled divisor that fits is taken off. */
  lemma Pass(r1: int, d1: int, den: int, q: int, rem: int, nval: int, d: int)
    requires den > 0 && nval > 0 && d == nval * den && PassOk(r1, d1, den, q, rem, 2 * d)
    ensures d >= den
    ensures if d <= rem then PassOk(r1, d1, den, q + nval, rem - d, d) else PassOk(r1, d1, den, q, rem, d)
  {
    Multiple(nval, den);
    Products(q, nval, den);
  }

  lemma HalfOfScaled(half: int, den: int, was: int, now: int)
    requires was == 2 * half * den && 2 * now <= was < 2 * (now + 1)
    ensures now == half * den && was == 2 * now
  {
    assert was == 2 * (half * den);
  }

  /** `divide_timespec`: an exact decomposition for every numerator and positive divisor, with the
      remainder below the divisor exactly when the operands are not of the under-counting kind. */
  method Divide(num: TimeVal, den: TimeVal) returns (q: int, rem: TimeVal)
    requires Normal(num) && Normal(den) && Nanos(den) > 0
    ensures Normal(rem) && Nanos(num) == q * Nanos(den) + Nanos(rem) && q >= 0
    ensures Nanos(num) >= 0 ==> Nanos(rem) >= 0
    ensures Nanos(rem) < Nanos(den) <==> !UnderCounts(Nanos(num), Nanos(den))
    ensures q == Quotient(Nanos(num), Nanos(den))
  {
    ghost var n, dn := Nanos(num), Nanos(den);
    if num.s < den.s {
      SmallNumerator(num, den);
      return 0, num;
    }
    if num.s == den.s {
      if num.ns < den.ns {
        SmallNumerator(num, den);
        return 0, num;
      }
      if num.s == 0 {
        return num.ns / den.ns, TimeVal(0, num.ns % den.ns);
      }
      QuotientUnique(n, dn, 1, num.ns - den.ns);
      return 1, TimeVal(0, num.ns - den.ns);
    }
    q, rem := DivideLarge(num, den);
  }

  lemma SmallNumerator(num: TimeVal, den: TimeVal)
    requires Normal(num) && Normal(den) && Nanos(den) > 0 && Nanos(num) < Nanos(den)
    ensures Quotient(Nanos(num), Nanos(den)) == 0 && !UnderCounts(Nanos(num), Nanos(den))
  {
    if Nanos(num) >= 0 {
      QuotientUnique(Nanos(num), Nanos(den), 0, Nanos(num));
    }
  }

  /** The general case of `divide_timespec`: more whole seconds in the numerator. */
  method DivideLarge(num: TimeVal, den: TimeVal) returns (q: int, rem: TimeVal)
    requires Normal(num) && Normal(den) && Nanos(den) > 0 && num.s > den.s
    ensures Normal(rem) && Nanos(num) == q * Nanos(den) + Nanos(rem) && q >= 0
    ensures Nanos(rem) >= 0
    ensures Nanos(rem) < Nanos(den) <==> !UnderCounts(Nanos(num), Nanos(den))
    ensures q == Quotient(Nanos(num), Nanos(den))
  {
    ghost var n, dn := Nanos(num), Nanos(den);
    var r := Sub(num, den);
    ComparisonsAgree(r, den);
    if Less(r, den) {
      QuotientUnique(n, dn, 1, Nanos(r));
      return 1, r;
    }
    var d, nval;
    ghost var e;
    d, nval, e := ScaleUp(den, r);
    var q1;
    q1, rem := SubtractDown(d, nval, r, e, dn);
    q := 1 + q1;
    Products(1, q1, dn);
    if UnderCounts(n, dn) {
      assert e == 0;
    } else {
      assert Nanos(r) < 2 * Nanos(d);
      QuotientUnique(n, dn, q, Nanos(rem));
    }
  }
}
