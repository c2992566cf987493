/**
 * Arithmetic on a ring of `size` positions, shared by the wheels and the
 * consoles: the one-step advance that both `Wheel.rotate` and
 * `Console.increment_position` perform, and the holding-position test of
 * `Wheel.is_holding_position`.
 *
 * Dafny's `%` is Euclidean; for the positive divisors used here it agrees
 * with Python's floored `%`.
 */
module Rings {

  /** Advances `value` by one position on a ring of `size` positions. */
  function Advance(value: int, size: int): (r: int)
    requires size > 0
    ensures 0 <= r < size
    ensures 0 <= value < size ==> r == if value == size - 1 then 0 else value + 1
  {
    (value + 1) % size
  }

  /** `Advance` applied `k` times. */
  function AdvanceTimes(value: int, size: int, k: nat): int
    requires size > 0
  {
    if k == 0 then value else Advance(AdvanceTimes(value, size, k - 1), size)
  }

  /** Within one turn, `k` advances move a value `k` positions on, wrapping once. */
  lemma {:induction false} AdvanceTimesWraps(value: int, size: int, k: nat)
    requires size > 0 && 0 <= value < size && k <= size
    ensures AdvanceTimes(value, size, k) == if value + k < size then value + k else value + k - size
  {
    if k > 0 {
      AdvanceTimesWraps(value, size, k - 1);
    }
  }

  /** Advancing `size` times restores the starting value: the ring is cyclic of order `size`. */
  lemma AdvanceCycle(value: int, size: int)
    requires size > 0 && 0 <= value < size
    ensures AdvanceTimes(value, size, size) == value
    ensures forall k :: 0 < k < size ==> AdvanceTimes(value, size, k) != value
  {
    AdvanceTimesWraps(value, size, size);
    forall k | 0 < k < size
      ensures AdvanceTimes(value, size, k) != value
    {
      AdvanceTimesWraps(value, size, k);
    }
  }

  /**
   * The raw (wheel-fixed) index that the position `position` faces when the
   * wheel has turned by `rotation`.
   */
  function RawIndex(size: int, rotation: int, position: int): int
    requires size > 0
  {
    (position + (size - rotation)) % size
  }

  /** Whether the ball can rest at `position` of a wheel turned by `rotation`. */
  predicate IsHolding(size: int, holding: set<int>, rotation: int, position: int)
    requires size > 0
  {
    RawIndex(size, rotation, position) in holding
  }

  /** The Euclidean remainder is the only remainder in `[0, n)`. */
  lemma ModUnique(x: int, n: int, q: int, m: int)
    requires n > 0 && x == q * n + m && 0 <= m < n
    ensures x % n == m
  {
    var q', m' := x / n, x % n;
    assert x == q' * n + m';
    var d := q' - q;
    assert d * n == m - m' by {
      assert q' * n == (q + d) * n == q * n + d * n;
    }
    if d > 0 {
      assert false;
    } else if d < 0 {
      assert false;
    }
  }

  /** Adding a multiple of `n` does not change the remainder. */
  lemma ModAddMultiple(x: int, k: int, n: int)
    requires n > 0
    ensures (x + k * n) % n == x % n
  {
    assert x == (x / n) * n + x % n;
    assert x + k * n == (x / n + k) * n + x % n;
    ModUnique(x + k * n, n, x / n + k, x % n);
  }

  /** Reducing a summand first does not change the remainder of a sum. */
  lemma ModSum(a: int, b: int, n: int)
    requires n > 0
    ensures (a % n + b) % n == (a + b) % n
  {
    assert a % n + b == (a + b) + (-(a / n)) * n;
    ModAddMultiple(a + b, -(a / n), n);
  }

  /** The holding test depends only on `(position - rotation) mod size`. */
  lemma HoldingByOffset(size: int, holding: set<int>, rotation: int, position: int)
    requires size > 0
    ensures RawIndex(size, rotation, position) == (position - rotation) % size
    ensures IsHolding(size, holding, rotation, position) <==> (position - rotation) % size in holding
  {
    ModAddMultiple(position - rotation, 1, size);
  }

  /**
   * After one rotation, position `p` is a holding position exactly when
   * `(p - 1) mod size` was one before it.
   */
  lemma HoldingAfterRotate(size: int, holding: set<int>, rotation: int, position: int)
    requires size > 0 && 0 <= rotation < size
    ensures IsHolding(size, holding, Advance(rotation, size), position)
        <==> IsHolding(size, holding, rotation, (position - 1) % size)
  {
    var r' := Advance(rotation, size);
    HoldingByOffset(size, holding, r', position);
    HoldingByOffset(size, holding, rotation, (position - 1) % size);
    ModSum(position - 1, -rotation, size);
    if rotation == size - 1 {
      ModAddMultiple(position - r', -1, size);
    }
  }

  /**
   * A move turns the wheel one step and shifts the ball back one step; the
   * raw index the ball faces therefore moves back by two, not by zero.
   */
  lemma RawIndexAfterMove(size: int, rotation: int, position: int)
    requires size > 0 && 0 <= rotation < size
    ensures RawIndex(size, Advance(rotation, size), (position + (size - 1)) % size)
         == (RawIndex(size, rotation, position) + (size - 2)) % size
  {
    var r' := Advance(rotation, size);
    var p' := (position + (size - 1)) % size;
    HoldingByOffset(size, {}, r', p');
    HoldingByOffset(size, {}, rotation, position);
    // p' - r' differs from position - rotation - 2 by a multiple of size
    ModSum(position + (size - 1), -r', size);
    ModSum(position - rotation, size - 2, size);
    if rotation == size - 1 {
      assert position + (size - 1) - r' == (position - rotation + (size - 2)) + 1 * size;
      ModAddMultiple(position - rotation + (size - 2), 1, size);
    } else {
      assert position + (size - 1) - r' == position - rotation + (size - 2);
    }
  }
}
