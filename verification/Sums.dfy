/** Finite sums, and when two of them are equal. */
module Sums {

  /** The sum of f(0) to f(n - 1). */
  function Total(f: int -> int, n: nat): int {
    if n == 0 then 0 else Total(f, n - 1) + f(n - 1)
  }

  lemma {:induction false} SameTotal(f: int -> int, g: int -> int, n: nat)
    requires forall i :: 0 <= i < n ==> f(i) == g(i)
    ensures Total(f, n) == Total(g, n)
  {
    if n > 0 {
      SameTotal(f, g, n - 1);
    }
  }

  lemma {:induction false} TotalOfNothing(f: int -> int, n: nat)
    requires forall i :: 0 <= i < n ==> f(i) == 0
    ensures Total(f, n) == 0
  {
    if n > 0 {
      TotalOfNothing(f, n - 1);
    }
  }

  /** The sum goes on from a. */
  lemma {:induction false} TotalSplit(f: int -> int, from: int -> int, a: nat, b: nat)
    requires forall i :: 0 <= i < b ==> from(i) == f(a + i)
    ensures Total(f, a + b) == Total(f, a) + Total(from, b)
  {
    if b > 0 {
      TotalSplit(f, from, a, b - 1);
    }
  }

  lemma SumGoesOn(f: int -> int, here: int -> int, left: nat, width: nat, sum: int)
    requires sum == Total(here, width) && forall i :: 0 <= i < width ==> here(i) == f(left + i)
    ensures Total(f, left + width) == Total(f, left) + sum
  {
    TotalSplit(f, here, left, width);
  }

  lemma {:induction false} TotalPlus(f: int -> int, g: int -> int, h: int -> int, n: nat)
    requires forall i :: 0 <= i < n ==> h(i) == f(i) + g(i)
    ensures Total(h, n) == Total(f, n) + Total(g, n)
  {
    if n > 0 {
      TotalPlus(f, g, h, n - 1);
    }
  }

  /** Row i of a table. */
  function Row(f: (int, int) -> int, i: int): int -> int {
    j => f(i, j)
  }

  /** The sum over all i < a and j < b. */
  function Total2(f: (int, int) -> int, a: nat, b: nat): int {
    if a == 0 then 0 else Total2(f, a - 1, b) + Total(Row(f, a - 1), b)
  }

  lemma {:induction false} Total2Plus(f: (int, int) -> int, g: (int, int) -> int, h: (int, int) -> int, a: nat, b: nat)
    requires forall i, j :: 0 <= i < a && 0 <= j < b ==> h(i, j) == f(i, j) + g(i, j)
    ensures Total2(h, a, b) == Total2(f, a, b) + Total2(g, a, b)
  {
    if a > 0 {
      Total2Plus(f, g, h, a - 1, b);
      TotalPlus(Row(f, a - 1), Row(g, a - 1), Row(h, a - 1), b);
    }
  }

  /** The last column on its own. */
  lemma {:induction false} LastColumn(f: (int, int) -> int, a: nat, b: nat)
    requires b > 0
    ensures Total2(f, a, b) == Total2(f, a, b - 1) + Total(i => f(i, b - 1), a)
  {
    if a > 0 {
      LastColumn(f, a - 1, b);
      SameTotal(i => f(i, b - 1), i => f(i, b - 1), a - 1);
    }
  }

  /** Summing by rows or by columns makes no difference. */
  lemma {:induction false} SwapTotals(f: (int, int) -> int, g: (int, int) -> int, a: nat, b: nat)
    requires forall i, j :: 0 <= i < a && 0 <= j < b ==> f(i, j) == g(j, i)
    ensures Total2(f, a, b) == Total2(g, b, a)
  {
    if b == 0 {
      NoColumns(f, a);
    } else {
      SwapTotals(f, g, a, b - 1);
      LastColumn(f, a, b);
      SameTotal(i => f(i, b - 1), Row(g, b - 1), a);
    }
  }

  lemma {:induction false} NoColumns(f: (int, int) -> int, a: nat)
    ensures Total2(f, a, 0) == 0
  {
    if a > 0 {
      NoColumns(f, a - 1);
    }
  }

  /** The rows go on from a. */
  lemma {:induction false} Total2Split(f: (int, int) -> int, from: (int, int) -> int, a: nat, b: nat, w: nat)
    requires forall i, j :: 0 <= i < b && 0 <= j < w ==> from(i, j) == f(a + i, j)
    ensures Total2(f, a + b, w) == Total2(f, a, w) + Total2(from, b, w)
  {
    if b > 0 {
      Total2Split(f, from, a, b - 1, w);
      SameTotal(Row(f, a + b - 1), Row(from, b - 1), w);
    }
  }

  /** From one edge to the next the sum of f grows by the block between them. */
  ghost predicate Grows(f: int -> int, block: int -> int, edge: int -> nat, c: int) {
    Total(f, edge(c + 1)) == Total(f, edge(c)) + block(c)
  }

  lemma GrowsBy(f: int -> int, block: int -> int, edge: int -> nat, c: int, left: nat, width: nat)
    requires edge(c) == left && edge(c + 1) == left + width
    requires Total(f, left + width) == Total(f, left) + block(c)
    ensures Grows(f, block, edge, c)
  {}

  /** Summing block by block. */
  lemma {:induction false} ByBlocks(f: int -> int, block: int -> int, edge: int -> nat, n: nat)
    requires edge(0) == 0 && forall c :: 0 <= c < n ==> Grows(f, block, edge, c)
    ensures Total(block, n) == Total(f, edge(n))
  {
    if n > 0 {
      ByBlocks(f, block, edge, n - 1);
      assert Grows(f, block, edge, n - 1);
    }
  }

  /** The sums of the rows of a table. */
  function RowTotals(f: (int, int) -> int, b: nat): int -> int {
    i => Total(Row(f, i), b)
  }

  lemma {:induction false} TotalOfRows(f: (int, int) -> int, a: nat, b: nat)
    ensures Total2(f, a, b) == Total(RowTotals(f, b), a)
  {
    if a > 0 {
      TotalOfRows(f, a - 1, b);
    }
  }

  /** Blocks that are the rows of a table. */
  lemma TotalOfTable(block: int -> int, f: (int, int) -> int, a: nat, b: nat)
    requires forall i :: 0 <= i < a ==> block(i) == RowTotals(f, b)(i)
    ensures Total(block, a) == Total2(f, a, b)
  {
    SameTotal(block, RowTotals(f, b), a);
    TotalOfRows(f, a, b);
  }
}
