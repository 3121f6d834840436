/**
 Sorting candidates by scores, ties broken by their index, and what the place of
 a candidate in such an order means.
 */
module Sorting {

  /** Candidates are compared by the first score, then the second, then their index. */
  datatype Keys = Keys(first: int -> int, second: int -> int)

  function By(score: int -> int): Keys {
    Keys(score, score)
  }

  predicate Before(k: Keys, a: int, b: int) {
    if k.first(a) != k.first(b) then k.first(a) < k.first(b)
    else if k.second(a) != k.second(b) then k.second(a) < k.second(b)
    else a < b
  }

  /** Each element comes before all later ones; in particular, no element is there twice. */
  ghost predicate Ordered(k: Keys, s: seq<int>) {
    forall i, j :: 0 <= i < j < |s| ==> Before(k, s[i], s[j])
  }

  ghost predicate Distinct(s: seq<int>) {
    forall i, j :: 0 <= i < j < |s| ==> s[i] != s[j]
  }

  function Elems(s: seq<int>): set<int> {
    set x | x in s
  }

  /** s lists the members of u, each once. */
  ghost predicate Lists(s: seq<int>, u: set<int>) {
    Distinct(s) && Elems(s) == u
  }

  lemma {:induction false} ListLength(s: seq<int>)
    requires Distinct(s)
    ensures |Elems(s)| == |s|
  {
    if s == [] {
      assert Elems(s) == {};
    } else {
      var front, last := s[..|s| - 1], s[|s| - 1];
      ListLength(front);
      assert Elems(s) == Elems(front) + {last};
    }
  }

  /** The elements of s that are in u, in the same order. */
  function Filter(s: seq<int>, u: set<int>): (r: seq<int>) {
    if s == [] then []
    else Filter(s[..|s| - 1], u) + if s[|s| - 1] in u then [s[|s| - 1]] else []
  }

  lemma {:induction false} FilterLists(s: seq<int>, u: set<int>)
    requires Distinct(s)
    ensures Lists(Filter(s, u), Elems(s) * u)
  {
    if s != [] {
      var front, last := s[..|s| - 1], s[|s| - 1];
      FilterLists(front, u);
      assert Elems(s) == Elems(front) + {last};
      assert last !in Elems(Filter(front, u));
      assert Elems(Filter(s, u)) == Elems(Filter(front, u)) + if last in u then {last} else {};
    }
  }

  // ---------------------------------------------------------------------
  // Stable sort, as its result
  // ---------------------------------------------------------------------

  function Insert(k: Keys, x: int, s: seq<int>): (r: seq<int>) {
    if s == [] || Before(k, x, s[0]) then [x] + s else [s[0]] + Insert(k, x, s[1..])
  }

  function SortedBy(k: Keys, items: seq<int>): (r: seq<int>) {
    if items == [] then [] else Insert(k, items[0], SortedBy(k, items[1..]))
  }

  lemma {:induction false} InsertKeeps(k: Keys, x: int, s: seq<int>)
    requires Ordered(k, s) && x !in s
    ensures Ordered(k, Insert(k, x, s)) && Elems(Insert(k, x, s)) == Elems(s) + {x}
  {
    var r := Insert(k, x, s);
    if s == [] || Before(k, x, s[0]) {
      assert forall j :: 1 <= j < |r| ==> r[j] == s[j - 1];
    } else {
      InsertKeeps(k, x, s[1..]);
      var rest := Insert(k, x, s[1..]);
      assert s == [s[0]] + s[1..];
      assert Elems(r) == {s[0]} + Elems(rest);
      assert Elems(s) == {s[0]} + Elems(s[1..]);
      forall j | 0 <= j < |rest| ensures Before(k, s[0], rest[j]) {
        assert rest[j] in Elems(rest);
        assert rest[j] == x || rest[j] in s[1..];
      }
    }
  }

  /** Sorting lists the same candidates in order. */
  lemma {:induction false} SortedByIsOrdered(k: Keys, items: seq<int>)
    requires Distinct(items)
    ensures Ordered(k, SortedBy(k, items)) && Elems(SortedBy(k, items)) == Elems(items)
  {
    if items != [] {
      SortedByIsOrdered(k, items[1..]);
      assert items == [items[0]] + items[1..];
      assert items[0] !in Elems(items[1..]);
      InsertKeeps(k, items[0], SortedBy(k, items[1..]));
    }
  }

  // ---------------------------------------------------------------------
  // Ranks
  // ---------------------------------------------------------------------

  /** How many members of u come before i. */
  function Rank(k: Keys, u: set<int>, i: int): nat {
    |set j | j in u && Before(k, j, i)|
  }

  lemma SubsetSize(a: set<int>, b: set<int>)
    requires a <= b
    ensures |a| <= |b| && (a != b ==> |a| < |b|)
  {
    assert b == a + (b - a);
  }

  /** Ranks go up along the order, and stay below the number of members. */
  lemma RankClimbs(k: Keys, u: set<int>, i: int, j: int)
    requires i in u
    ensures Rank(k, u, i) < |u|
    ensures Before(k, i, j) ==> Rank(k, u, i) < Rank(k, u, j)
  {
    var below, belowJ := set x | x in u && Before(k, x, i), set x | x in u && Before(k, x, j);
    assert i !in below;
    SubsetSize(below, u);
    if Before(k, i, j) {
      assert i in belowJ;
      SubsetSize(below, belowJ);
    }
  }

  lemma UnionSize(a: set<int>, b: set<int>)
    ensures |a + b| <= |a| + |b|
  {
    assert |a + b| + |a * b| == |a| + |b|;
  }

  /** Leaving out one place that is not in u, the places before and the members of u behind are enough to hold u. */
  lemma SplitCount(s: seq<int>, p: nat, u: set<int>)
    requires Distinct(s) && u <= Elems(s) && p < |s| && s[p] !in u
    ensures |u| <= p + |Filter(s[p + 1..], u)|
  {
    var behind := Filter(s[p + 1..], u);
    FilterLists(s[p + 1..], u);
    ListLength(behind);
    ListLength(s[..p]);
    forall i | i in u ensures i in Elems(s[..p]) + Elems(behind) {
      var j :| 0 <= j < |s| && s[j] == i;
      if j < p {
        assert s[..p][j] == i;
      } else {
        assert s[p + 1..][j - p - 1] == i;
      }
    }
    SubsetSize(u, Elems(s[..p]) + Elems(behind));
    UnionSize(Elems(s[..p]), Elems(behind));
  }

  /** Different members have different ranks. */
  lemma RankIsInjective(k: Keys, u: set<int>, i: int, j: int)
    requires i in u && j in u
    ensures Rank(k, u, i) == Rank(k, u, j) <==> i == j
    ensures Rank(k, u, i) < Rank(k, u, j) <==> Before(k, i, j)
  {
    RankClimbs(k, u, i, j);
    RankClimbs(k, u, j, i);
  }

  /** In an ordered list, the place of a candidate is its rank. */
  lemma PlaceIsRank(k: Keys, s: seq<int>, r: nat)
    requires Ordered(k, s) && r < |s|
    ensures Rank(k, Elems(s), s[r]) == r
  {
    var below := set j | j in Elems(s) && Before(k, j, s[r]);
    forall x ensures x in below <==> x in Elems(s[..r]) {
      if x in below {
        var i :| 0 <= i < |s| && s[i] == x;
        assert i < r;
        assert s[..r][i] == x;
      }
    }
    assert below == Elems(s[..r]);
    ListLength(s[..r]);
  }

  /** There is only one way to put a set of candidates in order, whatever algorithm finds it. */
  lemma OrderIsUnique(k: Keys, s: seq<int>, t: seq<int>)
    requires Ordered(k, s) && Ordered(k, t) && Elems(s) == Elems(t)
    ensures s == t
  {
    ListLength(s);
    ListLength(t);
    forall i | 0 <= i < |s| ensures s[i] == t[i] {
      assert s[i] in Elems(t);
      var j :| 0 <= j < |t| && t[j] == s[i];
      PlaceIsRank(k, s, i);
      PlaceIsRank(k, t, j);
    }
  }

  /** The result of sorting does not depend on the order of the input. */
  lemma SortForgetsTheOrder(k: Keys, a: seq<int>, b: seq<int>)
    requires Distinct(a) && Distinct(b) && Elems(a) == Elems(b)
    ensures SortedBy(k, a) == SortedBy(k, b)
  {
    SortedByIsOrdered(k, a);
    SortedByIsOrdered(k, b);
    OrderIsUnique(k, SortedBy(k, a), SortedBy(k, b));
  }

  /** Scores that agree on the candidates sort them alike. */
  lemma SortSeesItsItems(k: Keys, l: Keys, items: seq<int>)
    requires Distinct(items)
    requires forall i :: i in Elems(items) ==> k.first(i) == l.first(i) && k.second(i) == l.second(i)
    ensures SortedBy(k, items) == SortedBy(l, items)
  {
    SortedByIsOrdered(k, items);
    SortedByIsOrdered(l, items);
    var s := SortedBy(k, items);
    forall i, j | 0 <= i < j < |s| ensures Before(l, s[i], s[j]) {
      assert Before(k, s[i], s[j]) && s[i] in Elems(s) && s[j] in Elems(s);
    }
    OrderIsUnique(l, s, SortedBy(l, items));
  }
}
