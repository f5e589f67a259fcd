/**
 Wrap-around index arithmetic of the carousel: the updaters passed to
 `setCurrentSlide` by `nextSlide`, `prevSlide` and the autoplay interval.
 Operands are never negative (the index is always in `[0, n)` and `i - 1 + n >= 0`),
 so JavaScript's truncating `%` agrees with Dafny's Euclidean `%` here.
 */
module Navigation {

  /** `(prev + 1) % n`: one step forward, wrapping from the last slide to the first. */
  function NextIndex(i: nat, n: nat): (r: nat)
    requires i < n
    ensures r < n
    ensures r == if i == n - 1 then 0 else i + 1
  {
    (i + 1) % n
  }

  /** `(prev - 1 + n) % n`: one step back, wrapping from the first slide to the last. */
  function PrevIndex(i: nat, n: nat): (r: nat)
    requires i < n
    ensures r < n
    ensures r == if i == 0 then n - 1 else i - 1
  {
    (i - 1 + n) % n
  }

  /** Stepping forward and stepping back undo each other. */
  lemma NextPrevInverse(i: nat, n: nat)
    requires i < n
    ensures PrevIndex(NextIndex(i, n), n) == i
    ensures NextIndex(PrevIndex(i, n), n) == i
  {
  }

  /** The index after `k` forward steps from `i`. */
  function NextN(i: nat, k: nat, n: nat): (r: nat)
    requires i < n
    ensures r < n
  {
    if k == 0 then i else NextIndex(NextN(i, k - 1, n), n)
  }

  /** The index after `k` backward steps from `i`. */
  function PrevN(i: nat, k: nat, n: nat): (r: nat)
    requires i < n
    ensures r < n
  {
    if k == 0 then i else PrevIndex(PrevN(i, k - 1, n), n)
  }

  /** Division with remainder by a positive `n` is unique. */
  lemma ModUnique(x: int, n: nat, q: int, r: int)
    requires 0 < n && 0 <= r < n && x == q * n + r
    ensures x % n == r
  {
    var d := q - x / n;
    assert d * n == x % n - r by {
      assert x == (x / n) * n + x % n;
      assert d * n == q * n - (x / n) * n;
    }
    if d > 0 {
      MulAtLeast(d, n);
    } else if d < 0 {
      MulAtLeast(-d, n);
    }
  }

  /** A positive multiple of `n` is at least `n`. */
  lemma MulAtLeast(d: int, n: nat)
    requires d >= 1
    ensures d * n >= n
  {
  }

  /** One more forward step on `x % n` is the same as stepping `x` itself. */
  lemma ModSucc(x: int, n: nat)
    requires 0 < n
    ensures NextIndex(x % n, n) == (x + 1) % n
  {
    var q := x / n;
    if x % n == n - 1 {
      ModUnique(x + 1, n, q + 1, 0);
    } else {
      ModUnique(x + 1, n, q, x % n + 1);
    }
  }

  /** One more backward step on `x % n` is the same as stepping `x` itself. */
  lemma ModPred(x: int, n: nat)
    requires 0 < n
    ensures PrevIndex(x % n, n) == (x - 1) % n
  {
    var q := x / n;
    if x % n == 0 {
      ModUnique(x - 1, n, q - 1, n - 1);
    } else {
      ModUnique(x - 1, n, q, x % n - 1);
    }
  }

  /** `k` forward steps from `i` land on `(i + k) mod n`. */
  lemma {:induction false} NextNIsModularSum(i: nat, k: nat, n: nat)
    requires i < n
    ensures NextN(i, k, n) == (i + k) % n
  {
    if k == 0 {
      ModUnique(i, n, 0, i);
    } else {
      NextNIsModularSum(i, k - 1, n);
      ModSucc(i + k - 1, n);
    }
  }

  /** `k` backward steps from `i` land on `(i - k) mod n`; Dafny's `%` is
      Euclidean, so this is never negative even when `k > i`. */
  lemma {:induction false} PrevNIsModularDifference(i: nat, k: nat, n: nat)
    requires i < n
    ensures PrevN(i, k, n) == (i - k) % n
  {
    if k == 0 {
      ModUnique(i, n, 0, i);
    } else {
      PrevNIsModularDifference(i, k - 1, n);
      ModPred(i - (k - 1), n);
    }
  }

  /** A full round of `n` forward steps returns to the starting slide. */
  lemma FullCycle(i: nat, n: nat)
    requires i < n
    ensures NextN(i, n, n) == i
    ensures PrevN(i, n, n) == i
  {
    NextNIsModularSum(i, n, n);
    ModUnique(i + n, n, 1, i);
    PrevNIsModularDifference(i, n, n);
    ModUnique(i - n, n, -1, i);
  }

  /** Taking the first of `k + 1` forward steps separately. */
  lemma {:induction false} NextNShift(i: nat, k: nat, n: nat)
    requires i < n
    ensures NextN(NextIndex(i, n), k, n) == NextN(i, k + 1, n)
  {
    if k > 0 {
      NextNShift(i, k - 1, n);
    }
  }
}
