/**
 The slider puzzle's candidates: a list of tile swaps, applied one after another
 to the identity arrangement.
 */
module Swaps {
  import opened Wrappers

  datatype SwapError = BadTileCount | OddLength | OutOfRange

  datatype Swap = Swap(left: int, right: int)

  /** The flat list of positions read as pairs; an odd last entry is ignored. */
  function Pairs(swaps: seq<int>): (ps: seq<Swap>)
    ensures |ps| == |swaps| / 2
    ensures forall k :: 0 <= k < |ps| ==> ps[k] == Swap(swaps[2 * k], swaps[2 * k + 1])
  {
    seq(|swaps| / 2, k requires 0 <= k < |swaps| / 2 => Swap(swaps[2 * k], swaps[2 * k + 1]))
  }

  function Identity(n: nat): (m: seq<int>)
    ensures |m| == n && forall i :: 0 <= i < n ==> m[i] == i
  {
    seq(n, i => i)
  }

  predicate InRange(p: Swap, n: nat) {
    0 <= p.left < n && 0 <= p.right < n
  }

  /** All positions are in an arrangement of n tiles. */
  predicate Valid(ps: seq<Swap>, n: nat) {
    forall k :: 0 <= k < |ps| ==> InRange(ps[k], n)
  }

  function Swapped(m: seq<int>, p: Swap): (r: seq<int>)
    requires InRange(p, |m|)
    ensures |r| == |m| && r[p.left] == m[p.right] && r[p.right] == m[p.left]
    ensures forall k :: 0 <= k < |m| && k != p.left && k != p.right ==> r[k] == m[k]
  {
    m[p.left := m[p.right]][p.right := m[p.left]]
  }

  /** The arrangement after all swaps, first pair first. */
  function Applied(m: seq<int>, ps: seq<Swap>): (r: seq<int>)
    requires Valid(ps, |m|)
    ensures |r| == |m|
  {
    if ps == [] then m else Swapped(Applied(m, ps[..|ps| - 1]), ps[|ps| - 1])
  }

  lemma ValidLast(ps: seq<Swap>, n: nat, k: nat)
    requires k < |ps| && Valid(ps[..k], n) && InRange(ps[k], n)
    ensures Valid(ps[..k + 1], n)
  {
    assert forall i :: 0 <= i < k ==> ps[..k + 1][i] == ps[..k][i];
  }

  /** One more pair, one more swap. */
  lemma AppliedLast(m: seq<int>, ps: seq<Swap>, k: nat)
    requires k < |ps| && Valid(ps[..k + 1], |m|) && Valid(ps[..k], |m|) && InRange(ps[k], |m|)
    ensures Applied(m, ps[..k + 1]) == Swapped(Applied(m, ps[..k]), ps[k])
  {
    assert ps[..k + 1][..k] == ps[..k];
  }

  lemma BadPairSpoils(ps: seq<Swap>, n: nat, k: nat)
    requires k < |ps| && !InRange(ps[k], n)
    ensures !Valid(ps, n)
  {}

  /** The list read backwards. */
  function Reversed(ps: seq<Swap>): (r: seq<Swap>)
    ensures |r| == |ps|
    ensures forall k :: 0 <= k < |r| ==> r[k] == Swap(ps[|ps| - 1 - k].right, ps[|ps| - 1 - k].left)
  {
    seq(|ps|, k requires 0 <= k < |ps| => Swap(ps[|ps| - 1 - k].right, ps[|ps| - 1 - k].left))
  }

  /** Each value below the length is there exactly once. */
  ghost predicate IsPermutation(m: seq<int>) {
    && (forall i :: 0 <= i < |m| ==> 0 <= m[i] < |m|)
    && (forall i, j :: 0 <= i < j < |m| ==> m[i] != m[j])
    && (forall v :: 0 <= v < |m| ==> v in m)
  }

  lemma SwappedIsPermutation(m: seq<int>, p: Swap)
    requires IsPermutation(m) && InRange(p, |m|)
    ensures IsPermutation(Swapped(m, p))
  {
    var r := Swapped(m, p);
    forall v | 0 <= v < |r| ensures v in r {
      assert v in m;
      var k :| 0 <= k < |m| && m[k] == v;
      assert r[if k == p.left then p.right else if k == p.right then p.left else k] == v;
    }
  }

  /** Every valid list of swaps rearranges the tiles. */
  lemma {:induction false} AppliedIsPermutation(m: seq<int>, ps: seq<Swap>)
    requires IsPermutation(m) && Valid(ps, |m|)
    ensures IsPermutation(Applied(m, ps))
  {
    if ps != [] {
      AppliedIsPermutation(m, ps[..|ps| - 1]);
      SwappedIsPermutation(Applied(m, ps[..|ps| - 1]), ps[|ps| - 1]);
    }
  }

  /** Every candidate is an arrangement of all g * g tiles. */
  lemma CandidateIsPermutation(n: nat, ps: seq<Swap>)
    requires Valid(ps, n)
    ensures IsPermutation(Applied(Identity(n), ps))
  {
    forall v | 0 <= v < n ensures v in Identity(n) {
      assert Identity(n)[v] == v;
    }
    AppliedIsPermutation(Identity(n), ps);
  }

  lemma {:induction false} AppliedFirst(m: seq<int>, p: Swap, rest: seq<Swap>)
    requires InRange(p, |m|) && Valid(rest, |m|)
    ensures Applied(m, [p] + rest) == Applied(Swapped(m, p), rest)
  {
    var all := [p] + rest;
    if rest == [] {
      assert all[..0] == [];
    } else {
      AppliedFirst(m, p, rest[..|rest| - 1]);
      assert all[..|all| - 1] == [p] + rest[..|rest| - 1];
    }
  }

  /** Applying the list backwards undoes it. */
  lemma {:induction false} ReversedUndoes(m: seq<int>, ps: seq<Swap>)
    requires Valid(ps, |m|)
    ensures Applied(Applied(m, ps), Reversed(ps)) == m
  {
    if ps != [] {
      var p, prefix := ps[|ps| - 1], ps[..|ps| - 1];
      var back := Swap(p.right, p.left);
      ReversedUndoes(m, prefix);
      assert Reversed(ps) == [back] + Reversed(prefix);
      AppliedFirst(Applied(m, ps), back, Reversed(prefix));
      assert Swapped(Applied(m, ps), back) == Applied(m, prefix);
    }
  }

  /** The flat list read backwards is the reversed list of pairs. */
  lemma ReversedFlat(swaps: seq<int>, back: seq<int>)
    requires |swaps| % 2 == 0 && |back| == |swaps|
    requires forall k :: 0 <= k < |back| ==> back[k] == swaps[|swaps| - 1 - k]
    ensures Pairs(back) == Reversed(Pairs(swaps))
  {
    forall k | 0 <= k < |swaps| / 2 ensures Pairs(back)[k] == Reversed(Pairs(swaps))[k] {
      assert back[2 * k] == swaps[|swaps| - 1 - 2 * k] && back[2 * k + 1] == swaps[|swaps| - 2 - 2 * k];
      assert 2 * (|swaps| / 2 - 1 - k) == |swaps| - 2 - 2 * k;
    }
  }

  /** The swaps of candidate number `index`: the first `index` pairs. */
  function ActiveSwaps(swaps: seq<int>, index: int): seq<int> {
    if index <= 0 then []
    else swaps[..if index * 2 > |swaps| then |swaps| else index * 2]
  }

  lemma ActivePairs(swaps: seq<int>, index: nat)
    requires index <= |swaps| / 2
    ensures Pairs(ActiveSwaps(swaps, index)) == Pairs(swaps)[..index] && |ActiveSwaps(swaps, index)| == 2 * index
  {}

  lemma ValidPrefix(ps: seq<Swap>, n: nat, k: nat)
    requires k <= |ps| && Valid(ps, n)
    ensures Valid(ps[..k], n)
  {}

  /** Each candidate is one swap away from the one before it. */
  lemma NextCandidate(m: seq<int>, swaps: seq<int>, index: nat)
    requires 1 <= index <= |swaps| / 2 && Valid(Pairs(swaps), |m|)
    ensures Valid(Pairs(ActiveSwaps(swaps, index)), |m|) && Valid(Pairs(ActiveSwaps(swaps, index - 1)), |m|)
    ensures Applied(m, Pairs(ActiveSwaps(swaps, index)))
         == Swapped(Applied(m, Pairs(ActiveSwaps(swaps, index - 1))), Pairs(swaps)[index - 1])
  {
    ActivePairs(swaps, index);
    ActivePairs(swaps, index - 1);
    ValidPrefix(Pairs(swaps), |m|, index);
    ValidPrefix(Pairs(swaps), |m|, index - 1);
    AppliedLast(m, Pairs(swaps), index - 1);
  }

  lemma SquareIsPositive(x: int)
    ensures x == 0 <==> x * x <= 0
  {
    assert x > 0 ==> x * x > 0;
    assert x < 0 ==> x * x > 0;
  }

  /** The loop that swaps array cells in place; it fails exactly on an empty grid or an invalid list. */
  method ApplySliderSwaps(gridSize: int, swaps: seq<int>) returns (r: Result<array<int>, SwapError>)
    ensures r == Err(BadTileCount) <==> gridSize == 0
    ensures r == Err(OddLength) <==> gridSize != 0 && |swaps| % 2 != 0
    ensures r.Ok? <==> gridSize != 0 && |swaps| % 2 == 0 && Valid(Pairs(swaps), gridSize * gridSize)
    ensures r.Ok? ==> r.value[..] == Applied(Identity(gridSize * gridSize), Pairs(swaps))
  {
    SquareIsPositive(gridSize);
    var tileCount := gridSize * gridSize;
    if tileCount <= 0 {
      return Err(BadTileCount);
    }
    if |swaps| % 2 != 0 {
      return Err(OddLength);
    }
    r := SwapCells(tileCount, swaps);
  }

  method SwapPair(mapping: array<int>, p: Swap)
    requires InRange(p, mapping.Length)
    modifies mapping
    ensures mapping[..] == Swapped(old(mapping[..]), p)
  {
    mapping[p.left], mapping[p.right] := mapping[p.right], mapping[p.left];
  }

  /** The loop over the pairs, in place; it stops at the first pair that is out of range. */
  method SwapCells(tileCount: nat, swaps: seq<int>) returns (r: Result<array<int>, SwapError>)
    requires |swaps| % 2 == 0
    ensures r == (if r.Ok? then r else Err(OutOfRange))
    ensures r.Ok? <==> Valid(Pairs(swaps), tileCount)
    ensures r.Ok? ==> r.value[..] == Applied(Identity(tileCount), Pairs(swaps))
  {
    var mapping := new int[tileCount](i => i);
    ghost var ps := Pairs(swaps);
    assert mapping[..] == Identity(tileCount);
    var i := 0;
    ghost var k := 0;
    while i < |swaps|
      invariant 0 <= k <= |ps| && i == 2 * k && Valid(ps[..k], tileCount)
      invariant mapping.Length == tileCount && mapping[..] == Applied(Identity(tileCount), ps[..k])
    {
      var left, right := swaps[i], swaps[i + 1];
      if left < 0 || right < 0 || left >= tileCount || right >= tileCount {
        BadPairSpoils(ps, tileCount, k);
        return Err(OutOfRange);
      }
      ValidLast(ps, tileCount, k);
      AppliedLast(Identity(tileCount), ps, k);
      SwapPair(mapping, Swap(left, right));
      i, k := i + 2, k + 1;
    }
    assert ps[..k] == ps;
    r := Ok(mapping);
  }
}
