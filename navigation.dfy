/** Index arithmetic of the prompt browser's "next" and "previous" buttons.
    Both step through a non-empty list of `n` cards and wrap around at the ends. */
module Navigation {

  /** The index after pressing "next": `(i + 1) % n`. The list is never empty,
      so `n > 0`; for an index in range the result is the following card, or
      the first card after the last one. */
  function Next(i: nat, n: nat): (r: nat)
    requires 0 < n
    ensures r < n
    ensures i < n ==> (i == n - 1 ==> r == 0) && (i < n - 1 ==> r == i + 1)
  {
    (i + 1) % n
  }

  /** The index after pressing "previous": the last card from the first one,
      otherwise the card before. */
  function Previous(i: nat, n: nat): (r: nat)
    requires 0 < n
    ensures i < n ==> r < n
    ensures i == 0 ==> r == n - 1
    ensures 0 < i ==> r + 1 == i
  {
    if i == 0 then n - 1 else i - 1
  }

  /** "previous" undoes "next". */
  lemma PreviousNext(i: nat, n: nat)
    requires i < n
    ensures Previous(Next(i, n), n) == i
  {
  }

  /** "next" undoes "previous". */
  lemma NextPrevious(i: nat, n: nat)
    requires i < n
    ensures Next(Previous(i, n), n) == i
  {
  }

  /** The index after pressing "next" `k` times. */
  function NextTimes(i: nat, n: nat, k: nat): (r: nat)
    requires 0 < n
    ensures i < n ==> r < n
  {
    if k == 0 then i else Next(NextTimes(i, n, k - 1), n)
  }

  /** The index after pressing "previous" `k` times. */
  function PreviousTimes(i: nat, n: nat, k: nat): (r: nat)
    requires 0 < n
    ensures i < n ==> r < n
    decreases k
  {
    if k == 0 then i else PreviousTimes(Previous(i, n), n, k - 1)
  }

  /** Pressing "next" `a` times and then `b` times is pressing it `a + b` times. */
  lemma {:induction false} NextTimesAdd(i: nat, n: nat, a: nat, b: nat)
    requires 0 < n
    ensures NextTimes(i, n, a + b) == NextTimes(NextTimes(i, n, a), n, b)
  {
    if b > 0 {
      NextTimesAdd(i, n, a, b - 1);
    }
  }

  /** Before the wrap-around, `k` presses of "next" advance the index by `k`. */
  lemma {:induction false} NextTimesNoWrap(i: nat, n: nat, k: nat)
    requires i + k < n
    ensures NextTimes(i, n, k) == i + k
  {
    if k > 0 {
      NextTimesNoWrap(i, n, k - 1);
    }
  }

  /** From any card, `n - i` presses of "next" land on the first card. */
  lemma WrapToFirst(i: nat, n: nat)
    requires i < n
    ensures NextTimes(i, n, n - i) == 0
  {
    NextTimesNoWrap(i, n, n - i - 1);
  }

  /** Pressing "next" `n` times returns to the starting card. */
  lemma NextCycle(i: nat, n: nat)
    requires i < n
    ensures NextTimes(i, n, n) == i
  {
    NextTimesAdd(i, n, n - i, i);
    WrapToFirst(i, n);
    NextTimesNoWrap(0, n, i);
  }

  /** For an index in range, `k` presses of "next" give `(i + k) % n`. */
  lemma {:induction false} NextTimesMod(i: nat, n: nat, k: nat)
    requires i < n
    ensures NextTimes(i, n, k) == (i + k) % n
    decreases k
  {
    if k < n - i {
      NextTimesNoWrap(i, n, k);
      ModUnique(i + k, n, 0, i + k);
    } else if k < n {
      NextTimesAdd(i, n, n - i, k - (n - i));
      WrapToFirst(i, n);
      NextTimesNoWrap(0, n, k - (n - i));
      ModUnique(i + k, n, 1, k - (n - i));
    } else {
      NextTimesAdd(i, n, n, k - n);
      NextCycle(i, n);
      NextTimesMod(i, n, k - n);
      ModAddTurn(i + (k - n), n);
    }
  }

  /** Going once more around the list does not change the card. */
  lemma ModAddTurn(x: nat, n: nat)
    requires 0 < n
    ensures (x + n) % n == x % n
  {
    var q, r := x / n, x % n;
    assert x == q * n + r;
    assert x + n == (q + 1) * n + r;
    ModUnique(x + n, n, q + 1, r);
  }

  /** The remainder is determined by any quotient-remainder decomposition. */
  lemma ModUnique(y: nat, n: nat, q: int, r: int)
    requires 0 < n && 0 <= r < n && y == q * n + r
    ensures y % n == r
  {
    var q', r' := y / n, y % n;
    assert y == q' * n + r';
    assert (q - q') * n == r' - r;
    if q > q' {
      MulAtLeast(q - q', n);
    } else if q < q' {
      MulAtLeast(q' - q, n);
    }
  }

  lemma {:induction false} MulAtLeast(d: int, n: int)
    requires 1 <= d && 0 < n
    ensures n <= d * n
    decreases d
  {
    if d > 1 {
      MulAtLeast(d - 1, n);
      assert d * n == (d - 1) * n + n;
    }
  }

  /** `k` presses of "previous" undo `k` presses of "next". */
  lemma {:induction false} PreviousTimesNextTimes(i: nat, n: nat, k: nat)
    requires i < n
    ensures PreviousTimes(NextTimes(i, n, k), n, k) == i
  {
    if k > 0 {
      PreviousNext(NextTimes(i, n, k - 1), n);
      PreviousTimesNextTimes(i, n, k - 1);
    }
  }

  /** Pressing "previous" `n` times returns to the starting card. */
  lemma PreviousCycle(i: nat, n: nat)
    requires i < n
    ensures PreviousTimes(i, n, n) == i
  {
    NextCycle(i, n);
    PreviousTimesNextTimes(i, n, n);
  }

  /** With a single card both buttons stay on it. */
  lemma SingleCard(i: nat)
    requires i < 1
    ensures Next(i, 1) == 0 && Previous(i, 1) == 0
  {
  }
}
