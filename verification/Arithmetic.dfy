/** Small facts about division and remainder used by several components. */
module Arithmetic {

  lemma DivModEquation(x: int, k: int)
    requires 0 < k
    ensures x == x / k * k + x % k && 0 <= x % k < k
  {}

  lemma ProductAtLeast(a: nat, b: nat)
    requires 0 < a
    ensures a * b >= b
  {}

  lemma ProductMonotone(p: int, q: int, b: nat)
    requires p <= q
    ensures p * b <= q * b
  {
    assert q * b - p * b == (q - p) * b;
  }

  lemma NextMultiple(p: int, b: int)
    ensures (p + 1) * b == p * b + b
  {}

  /** What it means for a quotient to be at most q. */
  lemma DivAtMost(a: int, b: int, q: int)
    requires b > 0
    ensures a / b <= q <==> a < (q + 1) * b
  {
    var d := a / b;
    DivModEquation(a, b);
    NextMultiple(d, b);
    if d <= q {
      ProductMonotone(d + 1, q + 1, b);
    } else {
      ProductMonotone(q + 1, d, b);
    }
  }

  /** What it means for a quotient to be at least q. */
  lemma DivAtLeast(a: int, b: int, q: int)
    requires b > 0
    ensures q <= a / b <==> q * b <= a
  {
    DivAtMost(a, b, q - 1);
  }

  /** Quotient and remainder are determined by the equation they solve. */
  lemma DivModUnique(x: int, k: int, q: int, r: int)
    requires 0 < k && x == q * k + r && 0 <= r < k
    ensures x / k == q && x % k == r
  {
    var d := x / k - q;
    assert d >= 1 ==> d * k >= k;
    assert d <= -1 ==> d * k <= -k;
    assert x == x / k * k + x % k;
    assert d * k == r - x % k by { assert (x / k - q) * k == x / k * k - q * k; }
  }

  /** Counting one further either stays in the same block of k or opens the next. */
  lemma DivModStep(x: nat, k: nat)
    requires 0 < k
    ensures x % k == k - 1 ==> (x + 1) / k == x / k + 1 && (x + 1) % k == 0
    ensures x % k != k - 1 ==> (x + 1) / k == x / k && (x + 1) % k == x % k + 1
  {
    assert x == x / k * k + x % k;
    if x % k == k - 1 {
      assert (x / k + 1) * k == x / k * k + k;
      DivModUnique(x + 1, k, x / k + 1, 0);
    } else {
      DivModUnique(x + 1, k, x / k, x % k + 1);
    }
  }

  /** Reducing before adding makes no difference to the remainder. */
  lemma ModAdd(a: int, b: int, k: int)
    requires 0 < k
    ensures (a % k + b) % k == (a + b) % k
  {
    var s := a % k + b;
    assert a == a / k * k + a % k;
    assert s == s / k * k + s % k;
    assert a + b == (a / k + s / k) * k + s % k by {
      assert (a / k + s / k) * k == a / k * k + s / k * k;
    }
    DivModUnique(a + b, k, a / k + s / k, s % k);
  }

  /** Adding a multiple of the modulus makes no difference to the remainder. */
  lemma ModMultiple(a: int, m: int, k: int)
    requires 0 < k
    ensures (a + m * k) % k == a % k && (a + m * k) / k == a / k + m
  {
    assert a == a / k * k + a % k;
    assert a + m * k == (a / k + m) * k + a % k by {
      assert (a / k + m) * k == a / k * k + m * k;
    }
    DivModUnique(a + m * k, k, a / k + m, a % k);
  }

  /** The i-th stop of a ring scan that starts at idx. */
  function RingStop(idx: nat, i: nat, n: nat): (r: nat)
    requires idx < n && i < n
    ensures r < n && (i == 0 ==> r == idx) && (i > 0 ==> r != idx)
  {
    DivModUnique(idx + i, n, if idx + i < n then 0 else 1, if idx + i < n then idx + i else idx + i - n);
    (idx + i) % n
  }

  /** Where on the ring scan from idx the worker w is met. */
  function RingDistance(idx: nat, w: nat, n: nat): (i: nat)
    requires idx < n && w < n
    ensures i < n && RingStop(idx, i, n) == w
  {
    var i := if w >= idx then w - idx else w + n - idx;
    DivModUnique(idx + i, n, if w >= idx then 0 else 1, w);
    i
  }

  /** A full ring scan meets every worker, and none of them twice. */
  lemma RingScanIsBijection(idx: nat, n: nat, i: nat, w: nat)
    requires idx < n && i < n && w < n
    ensures RingStop(idx, i, n) == w <==> i == RingDistance(idx, w, n)
  {
    var j := RingDistance(idx, w, n);
    DivModUnique(idx + i, n, if idx + i < n then 0 else 1, if idx + i < n then idx + i else idx + i - n);
    DivModUnique(idx + j, n, if idx + j < n then 0 else 1, if idx + j < n then idx + j else idx + j - n);
  }
}
