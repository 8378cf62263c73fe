/** Round-robin index arithmetic shared by the animation trigger and the
    face swapper: `index = (index + 1) % count` with C#'s `%`. */
module IndexCycling {

  function Abs(n: int): (m: int)
    ensures m >= 0 && (m == n || m == -n)
  {
    if n < 0 then -n else n
  }

  /** C#'s `%` on `int`: the remainder of division truncated toward zero,
      which takes the sign of the dividend whatever the divisor's sign.
      On a non-negative dividend it agrees with Dafny's Euclidean `%`. */
  function CsRem(a: int, b: int): (r: int)
    requires b != 0
    ensures a >= 0 ==> 0 <= r < Abs(b) && r == a % Abs(b)
    ensures a < 0 ==> -Abs(b) < r <= 0
  {
    var m := Abs(b);
    if a >= 0 then a % m else -((-a) % m)
  }

  /** One step of the cycle. */
  function Next(i: int, count: int): int
    requires count != 0
  {
    CsRem(i + 1, count)
  }

  /** `k` steps of the cycle from `i`. */
  function Advance(i: int, count: int, k: nat): int
    requires count != 0
  {
    if k == 0 then i else Next(Advance(i, count, k - 1), count)
  }

  /** From an index in range, a step goes to the next index and wraps from
      the last one to 0; in particular it stays in `[0, |count|)`. */
  lemma NextStep(i: int, count: int)
    requires count != 0 && 0 <= i < Abs(count)
    ensures Next(i, count) == if i + 1 < Abs(count) then i + 1 else 0
    ensures 0 <= Next(i, count) < Abs(count)
  {
    var m := Abs(count);
    if i + 1 < m {
      ModBelow(i + 1, m);
    } else {
      ModSelf(m);
    }
  }

  lemma ModBelow(a: int, m: int)
    requires 0 <= a < m
    ensures a % m == a
  {
  }

  lemma ModSelf(m: int)
    requires m > 0
    ensures m % m == 0
  {
  }

  /** Steps compose. */
  lemma {:induction false} AdvanceAdd(i: int, count: int, a: nat, b: nat)
    requires count != 0
    ensures Advance(i, count, a + b) == Advance(Advance(i, count, a), count, b)
  {
    if b > 0 {
      AdvanceAdd(i, count, a, b - 1);
    }
  }

  /** Before the wrap the index just counts up. */
  lemma {:induction false} AdvanceCountsUp(i: int, count: int, k: nat)
    requires count != 0 && 0 <= i && i + k < Abs(count)
    ensures Advance(i, count, k) == i + k
  {
    if k > 0 {
      AdvanceCountsUp(i, count, k - 1);
      NextStep(i + k - 1, count);
    }
  }

  /** Every cycle stays in range. */
  lemma {:induction false} AdvanceInRange(i: int, count: int, k: nat)
    requires count != 0 && 0 <= i < Abs(count)
    ensures 0 <= Advance(i, count, k) < Abs(count)
  {
    if k > 0 {
      AdvanceInRange(i, count, k - 1);
      NextStep(Advance(i, count, k - 1), count);
    }
  }

  /** After `|count|` steps the index is back where it started. */
  lemma Periodic(i: int, count: int)
    requires count != 0 && 0 <= i < Abs(count)
    ensures Advance(i, count, Abs(count)) == i
  {
    var m := Abs(count);
    AdvanceCountsUp(i, count, m - 1 - i);
    NextStep(m - 1, count);
    assert Advance(i, count, m - i) == 0;
    AdvanceAdd(i, count, m - i, i);
    AdvanceCountsUp(0, count, i);
  }

  /** Every index is reached within `|count|` steps, whatever the start. */
  lemma VisitsEveryIndex(i: int, count: int, j: int)
    requires count != 0 && 0 <= i < Abs(count) && 0 <= j < Abs(count)
    ensures exists k: nat :: k < Abs(count) && Advance(i, count, k) == j
  {
    var m := Abs(count);
    if j >= i {
      AdvanceCountsUp(i, count, j - i);
      assert Advance(i, count, j - i) == j;
    } else {
      AdvanceCountsUp(i, count, m - 1 - i);
      NextStep(m - 1, count);
      assert Advance(i, count, m - i) == 0;
      AdvanceAdd(i, count, m - i, j);
      AdvanceCountsUp(0, count, j);
      assert Advance(i, count, m - i + j) == j;
    }
  }
}
