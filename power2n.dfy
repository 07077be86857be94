/**
 * Four ways of computing 2^n: the power operator, doubling by addition,
 * doubling by multiplication, and recursion memoised in a 1000-slot list.
 */
module Power2 {

  /** Python's `b ** e` on integers with a non-negative exponent. */
  function Exp(b: int, e: nat): int
  {
    if e == 0 then 1 else b * Exp(b, e - 1)
  }

  /** `power2na`: the power operator itself. */
  function Power2A(n: nat): int
  {
    Exp(2, n)
  }

  /** `power2nb`: two recursive calls whose results are added. */
  function Power2B(n: nat): int
  {
    if n == 0 then 1 else Power2B(n - 1) + Power2B(n - 1)
  }

  /** `power2nc`: one recursive call whose result is doubled. */
  function Power2C(n: nat): int
  {
    if n == 0 then 1 else 2 * Power2C(n - 1)
  }

  lemma {:induction false} Power2BIsExp(n: nat)
    ensures Power2B(n) == Exp(2, n)
  {
    if n > 0 {
      Power2BIsExp(n - 1);
    }
  }

  lemma {:induction false} Power2CIsExp(n: nat)
    ensures Power2C(n) == Exp(2, n)
  {
    if n > 0 {
      Power2CIsExp(n - 1);
    }
  }

  /** The three functional versions agree on every non-negative exponent. */
  lemma {:induction false} Power2Agree(n: nat)
    ensures Power2A(n) == Power2B(n) == Power2C(n)
  {
    Power2BIsExp(n);
    Power2CIsExp(n);
  }

  /** Number of slots of the memo list. */
  const TableSize: nat := 1000

  /** A slot of the memo list: Python's `None` or a stored value. */
  datatype Slot = Empty | Filled(value: int)

  /** What `power2nd` produces: a value, or the `IndexError` of an out-of-range list index. */
  datatype Lookup = Value(v: int) | IndexError

  /** Python list indexing: an index in [-size, size) selects a slot, a negative one counting from the end. */
  predicate IndexInRange(n: int)
  {
    -(TableSize as int) <= n < TableSize
  }

  function SlotOf(n: int): (k: nat)
    requires IndexInRange(n)
    ensures k < TableSize
    ensures n >= 0 ==> k == n
    ensures n < 0 ==> k == n + TableSize
  {
    if n < 0 then n + TableSize else n
  }

  /** A filled slot is preceded only by filled slots. */
  ghost predicate DownwardClosed(s: seq<Slot>)
  {
    forall k :: 0 < k < |s| && s[k].Filled? ==> s[k - 1].Filled?
  }

  lemma {:induction false} FilledPrefix(s: seq<Slot>, i: nat)
    requires DownwardClosed(s) && i < |s| && s[i].Filled?
    ensures forall k :: 0 <= k <= i ==> s[k].Filled?
  {
    if i > 0 {
      FilledPrefix(s, i - 1);
    }
  }

  /** The global list `pow2` together with `power2nd`, which fills it in place. */
  class Pow2Table {
    var slots: array<Slot>

    /**
     * Every filled slot k holds 2^k, slots 0 and 1 are always filled,
     * and the filled slots form a prefix of the list.
     */
    ghost predicate Valid()
      reads this, slots
    {
      && slots.Length == TableSize
      && slots[0] == Filled(1)
      && slots[1] == Filled(2)
      && (forall k :: 0 <= k < TableSize && slots[k].Filled? ==> slots[k].value == Exp(2, k))
      && DownwardClosed(slots[..])
    }

    /** `pow2 = [None]*1000; pow2[0] = 1; pow2[1] = 2` */
    constructor ()
      ensures Valid() && fresh(slots)
      ensures forall k :: 2 <= k < TableSize ==> slots[k] == Empty
    {
      var a := new Slot[TableSize](_ => Empty);
      a[0] := Filled(1);
      a[1] := Filled(2);
      slots := a;
    }

    /**
     * `power2nd(n)`: returns the slot value when it is filled, otherwise fills it
     * with twice `power2nd(n - 1)`. A negative n indexes from the end of the
     * list, so its slot is n + 1000 and the value stored there is 2^(n + 1000).
     */
    method Power2D(n: int) returns (r: Lookup)
      requires Valid()
      modifies slots
      ensures Valid()
      ensures r == if IndexInRange(n) then Value(Exp(2, SlotOf(n))) else IndexError
      ensures IndexInRange(n) ==> forall k :: 0 <= k <= SlotOf(n) ==> slots[k].Filled?
      ensures forall k :: 0 <= k < TableSize && old(slots[k]).Filled? ==> slots[k] == old(slots[k])
      ensures forall k :: 0 <= k < TableSize && (!IndexInRange(n) || k > SlotOf(n)) ==> slots[k] == old(slots[k])
      decreases if n < 0 then n + TableSize else n
    {
      if !IndexInRange(n) {
        return IndexError;
      }
      var i := SlotOf(n);
      if slots[i].Filled? {
        FilledPrefix(slots[..], i);
        return Value(slots[i].value);
      }
      var half := Power2D(n - 1);
      slots[i] := Filled(2 * half.v);
      r := Value(slots[i].value);
    }
  }

  /** The call made at module level: `print(power2nd(100))` on a fresh list. */
  method Power2DHundred() returns (r: Lookup)
    ensures r == Value(Exp(2, 100))
  {
    var table := new Pow2Table();
    r := table.Power2D(100);
  }
}
