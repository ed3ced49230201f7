/** The vector under the heap: its capacity changes only on request, and never on `pop_back`. */
module SVectors {

  /** The capacity `ensure_capacity` asks for when `c` does not fit. */
  function Request(capacity: nat, c: nat, exact: bool, max: nat): nat {
    if exact then c
    else if max / 2 <= capacity then max
    else if capacity == 0 then 4
    else capacity * 2
  }

  /** Below the maximum a request always makes room for one more element. */
  lemma RequestMakesRoom(capacity: nat, max: nat)
    requires capacity < max && max >= 8
    ensures capacity + 1 <= Request(capacity, capacity + 1, false, max) <= max
  {
  }

  /** A request that is not exact at least doubles the capacity, or takes all there can be. */
  lemma RequestDoubles(capacity: nat, c: nat, max: nat)
    requires capacity < max
    ensures var r := Request(capacity, c, false, max); r >= 2 * capacity || r == max
  {
  }

  class SVector<T(0)> {
    var buf: array<T>
    var size: nat
    const max: nat
    ghost var moved: nat  // elements copied to new storage so far

    ghost predicate Valid()
      reads this
    {
      size <= buf.Length <= max && max >= 8
    }

    ghost function Contents(): (s: seq<T>)
      requires Valid()
      reads this, buf
      ensures |s| == size
    {
      buf[..size]
    }

    constructor (max: nat)
      requires max >= 8
      ensures Valid() && fresh(buf) && this.max == max && buf.Length == 0 && size == 0 && moved == 0
    {
      this.max := max;
      buf := new T[0];
      size := 0;
      moved := 0;
    }

    /** `granted` is the answer of the memory allocator. */
    method ChangeCapacity(c: nat, granted: bool) returns (ok: bool)
      requires Valid() && size <= c <= max
      modifies this
      ensures Valid() && ok == granted && size == old(size) && Contents() == old(Contents())
      ensures if ok then fresh(buf) && buf.Length == c && moved == old(moved) + size
              else buf == old(buf) && moved == old(moved)
    {
      if !granted {
        return false;
      }
      var storage := new T[c];
      for i := 0 to size
        invariant unchanged(this) && fresh(storage)
        invariant storage[..i] == buf[..i]
      {
        storage[i] := buf[i];
      }
      buf := storage;
      moved := moved + size;
      return true;
    }

    method EnsureCapacity(c: nat, exact: bool, granted: bool) returns (ok: bool)
      requires Valid() && (exact || c == size + 1)
      modifies this
      ensures Valid() && size == old(size) && Contents() == old(Contents())
      ensures ok <==> c <= old(buf.Length) || (c <= max && granted)
      ensures if !ok || c <= old(buf.Length) then buf == old(buf) && moved == old(moved)
              else && fresh(buf) && moved == old(moved) + size
                   && c <= buf.Length == Request(old(buf.Length), c, exact, max)
    {
      if buf.Length >= c {
        return true;
      }
      if c > max {
        return false;
      }
      if !exact {
        RequestMakesRoom(buf.Length, max);
      }
      ok := ChangeCapacity(Request(buf.Length, c, exact, max), granted);
    }

    /** Appends; with spare capacity no memory is asked for and nothing moves. */
    method EmplaceBack(t: T, granted: bool) returns (ok: bool)
      requires Valid()
      modifies this, buf
      ensures Valid() && (ok <==> old(size) < old(buf.Length) || (old(size) < max && granted))
      ensures Contents() == if ok then old(Contents()) + [t] else old(Contents())
      ensures old(size) < old(buf.Length) ==> buf == old(buf) && moved == old(moved)
      ensures buf == old(buf) || fresh(buf)
    {
      ok := EnsureCapacity(size + 1, false, granted);
      if ok {
        buf[size] := t;
        size := size + 1;
      }
    }

    method PopBack()
      requires Valid() && size > 0
      modifies this`size
      ensures Valid() && size == old(size) - 1 && Contents() == old(Contents())[..size]
    {
      size := size - 1;
    }

    method Reserve(amount: nat, granted: bool) returns (ok: bool)
      requires Valid()
      modifies this
      ensures Valid() && size == old(size) && Contents() == old(Contents())
      ensures ok <==> amount <= old(buf.Length) || (amount <= max && granted)
      ensures if !ok || amount <= old(buf.Length) then buf == old(buf) && moved == old(moved)
              else fresh(buf) && buf.Length == amount && moved == old(moved) + size
    {
      ok := EnsureCapacity(amount, true, granted);
    }

    /** A refused request leaves the storage as it is. */
    method ShrinkTo(amount: nat, granted: bool)
      requires Valid() && size <= amount
      modifies this
      ensures Valid() && size == old(size) && Contents() == old(Contents())
      ensures if amount < old(buf.Length) && granted
              then fresh(buf) && buf.Length == amount && moved == old(moved) + size
              else buf == old(buf) && moved == old(moved)
    {
      if buf.Length > amount {
        var _ := ChangeCapacity(amount, granted);
      }
    }
  }
}
