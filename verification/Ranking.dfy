/**
 The two-stage ranking of the slider puzzle's candidates: all of them by their
 luma score, the best twelve also by colour and by text, and the sum of the ranks
 decides.
 */
module Ranking {
  import opened Arithmetic
  import opened Sorting

  const STAGE2_MAX := 12

  function Upto(n: nat): (s: seq<int>)
    ensures |s| == n && forall i :: 0 <= i < n ==> s[i] == i
  {
    seq(n, i => i)
  }

  function All(n: nat): (u: set<int>) {
    Elems(Upto(n))
  }

  lemma AllMembers(n: nat)
    ensures forall i :: i in All(n) <==> 0 <= i < n
    ensures |All(n)| == n
  {
    ListLength(Upto(n));
    forall i | 0 <= i < n ensures i in All(n) {
      assert Upto(n)[i] == i;
    }
  }

  // ---------------------------------------------------------------------
  // What the ranking means
  // ---------------------------------------------------------------------

  /** The scores of the candidates; smaller is better. */
  datatype Scores = Scores(luma: int -> int, rgb: int -> int, text: int -> int)

  /** The twelve candidates with the best luma score. */
  function Stage2(n: nat, luma: int -> int): set<int> {
    set i | i in All(n) && Rank(By(luma), All(n), i) < STAGE2_MAX
  }

  /** The sum of a candidate's ranks; n stands for the two ranks of those left out of the second stage. */
  function Consensus(n: nat, sc: Scores, i: int): int {
    var stage2 := Stage2(n, sc.luma);
    Rank(By(sc.luma), All(n), i)
    + if i in stage2 then Rank(By(sc.rgb), stage2, i) + Rank(By(sc.text), stage2, i) else n
  }

  function FinalKeys(n: nat, sc: Scores): Keys {
    Keys(i => Consensus(n, sc, i), sc.luma)
  }

  /** The candidates, best first. */
  function Ranked(n: nat, sc: Scores): seq<int> {
    SortedBy(FinalKeys(n, sc), Upto(n))
  }

  /** The ranking lists every candidate once, by consensus, then luma score, then index. */
  lemma RankedIsOrdered(n: nat, sc: Scores)
    ensures Ordered(FinalKeys(n, sc), Ranked(n, sc))
    ensures Lists(Ranked(n, sc), All(n)) && |Ranked(n, sc)| == n
  {
    SortedByIsOrdered(FinalKeys(n, sc), Upto(n));
    ListLength(Ranked(n, sc));
    AllMembers(n);
  }

  // ---------------------------------------------------------------------
  // The second stage
  // ---------------------------------------------------------------------

  lemma {:induction false} SortedPrefixIsStage2(n: nat, luma: int -> int)
    ensures var order := SortedBy(By(luma), Upto(n));
            var count := if n > STAGE2_MAX then STAGE2_MAX else n;
            |order| == n && Elems(order[..count]) == Stage2(n, luma)
  {
    var order := SortedBy(By(luma), Upto(n));
    var count := if n > STAGE2_MAX then STAGE2_MAX else n;
    SortedByIsOrdered(By(luma), Upto(n));
    ListLength(order);
    AllMembers(n);
    forall i ensures i in Elems(order[..count]) <==> i in Stage2(n, luma) {
      if i in All(n) {
        var p :| 0 <= p < |order| && order[p] == i;
        PlaceIsRank(By(luma), order, p);
        if p < count {
          assert order[..count][p] == i;
        }
      }
    }
  }

  lemma Stage2Size(n: nat, luma: int -> int)
    ensures |Stage2(n, luma)| == if n > STAGE2_MAX then STAGE2_MAX else n
  {
    SortedPrefixIsStage2(n, luma);
    SortedByIsOrdered(By(luma), Upto(n));
    ListLength(SortedBy(By(luma), Upto(n))[..if n > STAGE2_MAX then STAGE2_MAX else n]);
  }

  /** Scores of the second stage that agree on its members give the same ranking. */
  lemma OnlyStage2IsCompared(n: nat, sc: Scores, other: Scores)
    requires sc.luma == other.luma
    requires forall i :: i in Stage2(n, sc.luma) ==> sc.rgb(i) == other.rgb(i) && sc.text(i) == other.text(i)
    ensures Ranked(n, sc) == Ranked(n, other)
  {
    forall i ensures Consensus(n, sc, i) == Consensus(n, other, i) {
      if i in Stage2(n, sc.luma) {
        SameRank(By(sc.rgb), By(other.rgb), Stage2(n, sc.luma), i);
        SameRank(By(sc.text), By(other.text), Stage2(n, sc.luma), i);
      }
    }
    RankedIsOrdered(n, sc);
    RankedIsOrdered(n, other);
    assert Ordered(FinalKeys(n, sc), Ranked(n, other));
    OrderIsUnique(FinalKeys(n, sc), Ranked(n, sc), Ranked(n, other));
  }

  lemma SameRank(k: Keys, l: Keys, u: set<int>, i: int)
    requires i in u && forall j :: j in u ==> k.first(j) == l.first(j) && k.second(j) == l.second(j)
    ensures Rank(k, u, i) == Rank(l, u, i)
  {
    assert (set j | j in u && Before(k, j, i)) == (set j | j in u && Before(l, j, i));
  }

  // ---------------------------------------------------------------------
  // Sums of distinct ranks
  // ---------------------------------------------------------------------

  function Sum(s: seq<int>): int {
    if s == [] then 0 else Sum(s[..|s| - 1]) + s[|s| - 1]
  }

  lemma {:induction false} SumWithout(s: seq<int>, j: nat)
    requires j < |s|
    ensures Sum(s) == s[j] + Sum(s[..j] + s[j + 1..])
  {
    var rest := s[..j] + s[j + 1..];
    if j == |s| - 1 {
      assert rest == s[..|s| - 1];
    } else {
      var front := s[..|s| - 1];
      SumWithout(front, j);
      assert rest[..|rest| - 1] == front[..j] + front[j + 1..];
    }
  }

  /** The sum of the k largest numbers below b. */
  function TopSum(b: int, k: nat): int
    decreases k
  {
    if k == 0 then 0 else b - 1 + TopSum(b - 1, k - 1)
  }

  lemma {:induction false} TopSumGrows(b: int, k: nat)
    ensures TopSum(b, k) <= TopSum(b + 1, k)
    decreases k
  {
    if k > 0 {
      TopSumGrows(b - 1, k - 1);
    }
  }

  /** Different numbers below b add up to at most as much as the largest ones. */
  lemma {:induction false} DistinctSum(s: seq<int>, b: nat)
    requires Distinct(s) && forall i :: 0 <= i < |s| ==> 0 <= s[i] < b
    ensures Sum(s) <= TopSum(b, |s|)
    decreases b
  {
    if |s| > 0 {
      assert 0 <= s[0] < b;
      if j: int :| 0 <= j < |s| && s[j] == b - 1 {
        SumWithout(s, j);
        DistinctSum(s[..j] + s[j + 1..], b - 1);
      } else {
        DistinctSum(s, b - 1);
        TopSumGrows(b - 1, |s|);
      }
    }
  }

  function RanksOf(k: Keys, u: set<int>, s: seq<int>): (r: seq<int>)
    ensures |r| == |s| && forall i :: 0 <= i < |s| ==> r[i] == Rank(k, u, s[i])
  {
    seq(|s|, i requires 0 <= i < |s| => Rank(k, u, s[i]))
  }

  /** The ranks of some members of a set are different, so their sum is bounded. */
  lemma RankSum(k: Keys, u: set<int>, s: seq<int>)
    requires Distinct(s) && Elems(s) <= u
    ensures Sum(RanksOf(k, u, s)) <= TopSum(|u|, |s|)
  {
    var r := RanksOf(k, u, s);
    assert forall i :: 0 <= i < |s| ==> s[i] in Elems(s);
    forall i, j | 0 <= i < j < |s| ensures r[i] != r[j] {
      RankIsInjective(k, u, s[i], s[j]);
    }
    forall i | 0 <= i < |s| ensures 0 <= r[i] < |u| {
      RankClimbs(k, u, s[i], s[i]);
    }
    DistinctSum(r, |u|);
  }

  lemma {:induction false} SumOfThree(a: seq<int>, b: seq<int>, c: seq<int>, least: int)
    requires |a| == |b| == |c| && forall i :: 0 <= i < |a| ==> a[i] + b[i] + c[i] >= least
    ensures Sum(a) + Sum(b) + Sum(c) >= |a| * least
    decreases |a|
  {
    if |a| > 0 {
      SumOfThree(a[..|a| - 1], b[..|a| - 1], c[..|a| - 1], least);
      assert |a| * least == (|a| - 1) * least + least;
    }
  }

  /** 33, 63, 90 ...: the most that k of twelve candidates can have as consensus ranks together. */
  lemma TopSums(k: nat)
    requires k <= 12
    ensures 2 * TopSum(12, k) == 23 * k - k * k
  {
    if k > 0 {
      TopSums(k - 1);
      TopSumLast(12, k);
    }
  }

  lemma {:induction false} TopSumLast(b: int, k: nat)
    requires k > 0
    ensures TopSum(b, k) == TopSum(b, k - 1) + b - k
    decreases k
  {
    if k > 1 {
      TopSumLast(b - 1, k - 1);
    }
  }

  // ---------------------------------------------------------------------
  // The head of the ranking
  // ---------------------------------------------------------------------

  /** How many places at the head are sure to go to candidates of the second stage. */
  function Head(n: nat): nat {
    if n <= 12 then n
    else if n <= 20 then 11 - 2 * (20 - n) / 3
    else 12
  }

  /** Candidates of the second stage that some outsider precedes are few. */
  lemma FewLosers(n: nat, sc: Scores, losers: seq<int>)
    requires n > 12 && Distinct(losers) && Elems(losers) <= Stage2(n, sc.luma)
    requires forall i :: 0 <= i < |losers| ==> Consensus(n, sc, losers[i]) >= n + 13
    ensures |losers| <= 12 - Head(n)
  {
    var u := Stage2(n, sc.luma);
    var a, b, c := RanksOf(By(sc.luma), u, losers), RanksOf(By(sc.rgb), u, losers), RanksOf(By(sc.text), u, losers);
    Stage2Size(n, sc.luma);
    ListLength(losers);
    SubsetSize(Elems(losers), u);
    RankSum(By(sc.luma), u, losers);
    RankSum(By(sc.rgb), u, losers);
    RankSum(By(sc.text), u, losers);
    forall i | 0 <= i < |losers| ensures a[i] + b[i] + c[i] >= n + 13 {
      assert losers[i] in Elems(losers);
      LumaRankInStage2(n, sc.luma, losers[i]);
    }
    SumOfThree(a, b, c, n + 13);
    TopSums(|losers|);
    CountLosers(n, |losers|);
  }

  /** Among the twelve best, the luma rank is the rank among all. */
  lemma LumaRankInStage2(n: nat, luma: int -> int, i: int)
    requires i in Stage2(n, luma)
    ensures Rank(By(luma), Stage2(n, luma), i) == Rank(By(luma), All(n), i)
  {
    forall j | j in All(n) && Before(By(luma), j, i) ensures j in Stage2(n, luma) {
      RankClimbs(By(luma), All(n), j, i);
    }
    assert (set j | j in Stage2(n, luma) && Before(By(luma), j, i)) == (set j | j in All(n) && Before(By(luma), j, i));
  }

  lemma CountLosers(n: nat, k: nat)
    requires n > 12 && k <= 12 && 2 * (k * (n + 13)) <= 3 * (23 * k - k * k)
    ensures k <= 12 - Head(n)
  {
    assert (2 * n + 26) * k <= (69 - 3 * k) * k;
    if k > 0 {
      CancelFactor(2 * n + 26, 69 - 3 * k, k);
    }
  }

  lemma CancelFactor(a: int, b: int, k: nat)
    requires k > 0 && a * k <= b * k
    ensures a <= b
  {
    if a > b {
      ProductMonotone(b + 1, a, k);
      NextMultiple(b, k);
    }
  }

  /** The first m places go to candidates of the second stage. */
  ghost predicate Lead(n: nat, sc: Scores, m: nat) {
    m <= |Ranked(n, sc)| && forall q :: 0 <= q < m ==> Ranked(n, sc)[q] in Stage2(n, sc.luma)
  }

  /** A candidate of the second stage that an outsider precedes has a large consensus rank. */
  lemma LoserIsFarBehind(n: nat, sc: Scores, outsider: int, loser: int)
    requires outsider in All(n) && outsider !in Stage2(n, sc.luma) && loser in Stage2(n, sc.luma)
    requires Before(FinalKeys(n, sc), outsider, loser)
    ensures Consensus(n, sc, loser) >= n + 13
  {
    RankIsInjective(By(sc.luma), All(n), loser, outsider);
  }

  lemma LosersBehind(n: nat, sc: Scores, p: nat)
    requires n > 12 && p < |Ranked(n, sc)| && Ranked(n, sc)[p] !in Stage2(n, sc.luma)
    ensures |Filter(Ranked(n, sc)[p + 1..], Stage2(n, sc.luma))| <= 12 - Head(n)
  {
    var out, stage2 := Ranked(n, sc), Stage2(n, sc.luma);
    var losers := Filter(out[p + 1..], stage2);
    RankedIsOrdered(n, sc);
    FilterLists(out[p + 1..], stage2);
    forall i | 0 <= i < |losers| ensures Consensus(n, sc, losers[i]) >= n + 13 {
      assert losers[i] in Elems(losers);
      var j :| 0 <= j < |out[p + 1..]| && out[p + 1..][j] == losers[i];
      assert Before(FinalKeys(n, sc), out[p], out[p + 1 + j]);
      LoserIsFarBehind(n, sc, out[p], losers[i]);
    }
    FewLosers(n, sc, losers);
  }

  /** The first outsider comes after the head. */
  lemma FirstOutsider(n: nat, sc: Scores, p: nat)
    requires n > 12 && p < |Ranked(n, sc)| && Ranked(n, sc)[p] !in Stage2(n, sc.luma)
    ensures p >= Head(n)
  {
    RankedIsOrdered(n, sc);
    LosersBehind(n, sc, p);
    Stage2Size(n, sc.luma);
    SplitCount(Ranked(n, sc), p, Stage2(n, sc.luma));
  }

  lemma FewHaveNoOutsiders(n: nat, luma: int -> int, i: int)
    requires n <= 12 && i in All(n)
    ensures i in Stage2(n, luma)
  {
    AllMembers(n);
    RankClimbs(By(luma), All(n), i, i);
  }

  /** How many places that is: at least seven of them, and twelve for up to twelve or at least twenty-one candidates. */
  lemma HeadIsLong(n: nat)
    ensures Head(n) <= n
    ensures Head(n) >= if n < 7 then n else 7
    ensures Head(n) >= (if n < 12 then n else 12) <==> n <= 12 || n >= 21
  {}

  /**
   Whatever the scores are, the head of the ranking is made up of candidates that
   were compared in full.
   */
  lemma HeadIsStage2(n: nat, sc: Scores, m: nat)
    requires m <= Head(n)
    ensures Lead(n, sc, m)
  {
    RankedIsOrdered(n, sc);
    HeadIsLong(n);
    forall q | 0 <= q < m ensures Ranked(n, sc)[q] in Stage2(n, sc.luma) {
      HeadPlace(n, sc, q);
    }
  }

  lemma HeadPlace(n: nat, sc: Scores, q: nat)
    requires q < Head(n) && q < |Ranked(n, sc)|
    ensures Ranked(n, sc)[q] in Stage2(n, sc.luma)
  {
    var i := Ranked(n, sc)[q];
    if n > 12 {
      if i !in Stage2(n, sc.luma) {
        FirstOutsider(n, sc, q);
      }
    } else {
      RankedIsOrdered(n, sc);
      assert i in Elems(Ranked(n, sc));
      FewHaveNoOutsiders(n, sc.luma, i);
    }
  }

  // ---------------------------------------------------------------------
  // The head is exact
  // ---------------------------------------------------------------------

  /** The same score for everybody: ties leave the candidates in the order of their numbers. */
  function Flat(i: int): int {
    0
  }

  lemma FlatRank(n: nat, i: nat)
    requires i < n
    ensures Rank(By(Flat), All(n), i) == i
  {
    assert Ordered(By(Flat), Upto(n));
    PlaceIsRank(By(Flat), Upto(n), i);
  }

  lemma FlatStage2(n: nat)
    requires n >= 12
    ensures Stage2(n, Flat) == All(12)
  {
    AllMembers(n);
    AllMembers(12);
    forall i | 0 <= i < n ensures i in Stage2(n, Flat) <==> i < 12 {
      FlatRank(n, i);
    }
  }

  /** The last k of the second stage have such consensus ranks that the first outsider precedes them. */
  ghost predicate LastFallBehind(n: nat, sc: Scores, k: nat) {
    forall i :: 12 - k <= i < 12 ==> Consensus(n, sc, i) >= n + 13
  }

  /** Only the others of the second stage can precede the first outsider. */
  lemma BeforeOutsider(n: nat, sc: Scores, k: nat, j: int)
    requires n > 12 && sc.luma == Flat && k <= 12 && LastFallBehind(n, sc, k)
    requires j in All(n) && Before(FinalKeys(n, sc), j, 12)
    ensures j in All(12 - k)
  {
    AllMembers(n);
    AllMembers(12);
    AllMembers(12 - k);
    FlatStage2(n);
    FlatRank(n, j);
    FlatRank(n, 12);
    assert 12 - k <= j < 12 ==> Consensus(n, sc, j) >= n + 13;
  }

  lemma OutsiderPlace(n: nat, sc: Scores, k: nat)
    requires n > 12 && sc.luma == Flat && k <= 12 && LastFallBehind(n, sc, k)
    ensures Rank(FinalKeys(n, sc), All(n), 12) <= 12 - k
  {
    var below := set j | j in All(n) && Before(FinalKeys(n, sc), j, 12);
    forall j | j in below ensures j in All(12 - k) {
      BeforeOutsider(n, sc, k, j);
    }
    AllMembers(12 - k);
    SubsetSize(below, All(12 - k));
  }

  /** So no more than the others lead. */
  lemma OutsiderInHead(n: nat, sc: Scores, k: nat)
    requires n > 12 && sc.luma == Flat && k <= 12 && LastFallBehind(n, sc, k)
    ensures !Lead(n, sc, 12 - k + 1)
  {
    var out := Ranked(n, sc);
    RankedIsOrdered(n, sc);
    OutsiderPlace(n, sc, k);
    AllMembers(n);
    AllMembers(12);
    FlatStage2(n);
    assert 12 in Elems(out);
    var p :| 0 <= p < n && out[p] == 12;
    PlaceIsRank(FinalKeys(n, sc), out, p);
    assert out[p] !in Stage2(n, sc.luma);
  }

  /** An image of one colour scores all candidates alike. */
  function Level(): Scores {
    Scores(Flat, Flat, Flat)
  }

  /** From thirteen to twenty candidates, equal scores let an outsider precede one that was compared in full. */
  lemma TwelfthCanFallBack(n: nat)
    requires 13 <= n <= 20
    ensures !Lead(n, Level(), 12)
  {
    FlatStage2(n);
    FlatRank(n, 11);
    FlatRank(12, 11);
    AllMembers(12);
    assert Consensus(n, Level(), 11) == 33;
    OutsiderInHead(n, Level(), 1);
  }

  /** Where i is in the list. */
  function PlaceIn(order: seq<int>, i: int): nat {
    if order == [] || order[0] == i then 0 else 1 + PlaceIn(order[1..], i)
  }

  lemma {:induction false} PlaceAt(order: seq<int>, r: nat)
    requires Distinct(order) && r < |order|
    ensures PlaceIn(order, order[r]) == r
  {
    if r > 0 {
      PlaceAt(order[1..], r - 1);
    }
  }

  /** The score that puts the candidates in that order. */
  function ScoreBy(order: seq<int>): int -> int {
    i => PlaceIn(order, i)
  }

  lemma RankInOrder(order: seq<int>, u: set<int>, r: nat)
    requires Lists(order, u) && r < |order|
    ensures Rank(By(ScoreBy(order)), u, order[r]) == r
  {
    forall i, j | 0 <= i < j < |order| ensures Before(By(ScoreBy(order)), order[i], order[j]) {
      PlaceAt(order, i);
      PlaceAt(order, j);
    }
    PlaceIsRank(By(ScoreBy(order)), order, r);
  }

  /** The twelve of the second stage, the last k of them rearranged. */
  function Rearranged(k: nat, tail: seq<int>): (order: seq<int>)
    requires k == |tail| <= 12
    ensures |order| == 12 && forall j :: 0 <= j < k ==> order[12 - k + j] == tail[j]
  {
    Upto(12 - k) + tail
  }

  lemma RearrangedLists(k: nat, tail: seq<int>)
    requires k == |tail| <= 12 && Distinct(tail) && forall j :: 0 <= j < k ==> 12 - k <= tail[j] < 12
    ensures Lists(Rearranged(k, tail), All(12))
  {
    var order := Rearranged(k, tail);
    AllMembers(12);
    ListLength(order);
    SubsetSize(Elems(order), All(12));
  }

  /** How the colour and the text score order the last k, so that each of them does badly by all three scores. */
  function Tails(k: nat): (t: (seq<int>, seq<int>))
    requires 1 <= k <= 5
    ensures |t.0| == |t.1| == k
  {
    if k == 1 then ([11], [11])
    else if k == 2 then ([11, 10], [10, 11])
    else if k == 3 then ([11, 9, 10], [10, 11, 9])
    else if k == 4 then ([11, 9, 10, 8], [10, 8, 11, 9])
    else ([11, 9, 7, 10, 8], [10, 8, 11, 9, 7])
  }

  lemma TailsAreLists(k: nat)
    requires 1 <= k <= 5
    ensures Lists(Rearranged(k, Tails(k).0), All(12)) && Lists(Rearranged(k, Tails(k).1), All(12))
  {
    RearrangedLists(k, Tails(k).0);
    RearrangedLists(k, Tails(k).1);
  }

  /** The consensus rank of a candidate at place a of one tail and b of the other. */
  lemma TailSum(k: nat, a: nat, b: nat)
    requires 1 <= k <= 5 && a < k && b < k && Tails(k).0[a] == Tails(k).1[b]
    ensures Tails(k).0[a] + (12 - k + a) + (12 - k + b)
         >= if k == 1 then 33 else if k == 2 then 31 else if k == 3 then 30 else if k == 4 then 28 else 27
  {}

  function Losers(n: nat): (k: nat)
    requires 13 <= n <= 20
    ensures 1 <= k <= 5
  {
    12 - Head(n)
  }

  function Worst(n: nat): Scores
    requires 13 <= n <= 20
  {
    var k := Losers(n);
    Scores(Flat, ScoreBy(Rearranged(k, Tails(k).0)), ScoreBy(Rearranged(k, Tails(k).1)))
  }

  lemma InTail(k: nat, tail: seq<int>, i: int) returns (j: nat)
    requires k == |tail| <= 12 && Lists(Rearranged(k, tail), All(12)) && 12 - k <= i < 12
    ensures j < k && tail[j] == i
  {
    AllMembers(12);
    var order := Rearranged(k, tail);
    assert i in Elems(order);
    var r :| 0 <= r < 12 && order[r] == i;
    j := r - (12 - k);
  }

  lemma FlatConsensus(n: nat, sc: Scores, i: nat)
    requires n >= 12 && sc.luma == Flat && i < 12
    ensures Consensus(n, sc, i) == i + Rank(By(sc.rgb), All(12), i) + Rank(By(sc.text), All(12), i)
  {
    FlatStage2(n);
    FlatRank(n, i);
    AllMembers(12);
  }

  lemma RankInTail(k: nat, tail: seq<int>, i: nat) returns (j: nat)
    requires k == |tail| <= 12 && Lists(Rearranged(k, tail), All(12)) && 12 - k <= i < 12
    ensures j < k && tail[j] == i && Rank(By(ScoreBy(Rearranged(k, tail))), All(12), i) == 12 - k + j
  {
    j := InTail(k, tail, i);
    RankInOrder(Rearranged(k, tail), All(12), 12 - k + j);
  }

  lemma WorstConsensus(n: nat, i: nat)
    requires 13 <= n <= 20 && 12 - Losers(n) <= i < 12
    ensures Consensus(n, Worst(n), i) >= n + 13
  {
    var k := Losers(n);
    TailsAreLists(k);
    var a := RankInTail(k, Tails(k).0, i);
    var b := RankInTail(k, Tails(k).1, i);
    FlatConsensus(n, Worst(n), i);
    TailSum(k, a, b);
  }

  /** From thirteen to twenty candidates, some scores let an outsider take the place right behind the head. */
  lemma HeadCanEnd(n: nat)
    requires 13 <= n <= 20
    ensures !Lead(n, Worst(n), Head(n) + 1)
  {
    forall i: int | 12 - Losers(n) <= i < 12 ensures Consensus(n, Worst(n), i) >= n + 13 {
      WorstConsensus(n, i);
    }
    OutsiderInHead(n, Worst(n), Losers(n));
  }

  /** There are only so many candidates in the second stage. */
  lemma LeadIsShort(n: nat, sc: Scores, m: nat)
    requires Lead(n, sc, m)
    ensures m <= |Stage2(n, sc.luma)|
  {
    RankedIsOrdered(n, sc);
    ListLength(Ranked(n, sc)[..m]);
    SubsetSize(Elems(Ranked(n, sc)[..m]), Stage2(n, sc.luma));
  }

  /**
   A number of places goes to fully compared candidates for all scores exactly when
   it is at most that of the head.
   */
  lemma HeadIsExact(n: nat, m: nat)
    requires m <= n
    ensures (forall sc: Scores :: Lead(n, sc, m)) <==> m <= Head(n)
  {
    if m <= Head(n) {
      forall sc: Scores ensures Lead(n, sc, m) {
        HeadIsStage2(n, sc, m);
      }
    } else if n <= 20 {
      HeadCanEnd(n);
      assert !Lead(n, Worst(n), m);
    } else {
      Stage2Size(n, Flat);
      assert !Lead(n, Level(), m) by {
        if Lead(n, Level(), m) {
          LeadIsShort(n, Level(), m);
        }
      }
    }
  }

  ghost predicate AllTwelveLead(n: nat, sc: Scores) {
    Lead(n, sc, if n < 12 then n else 12)
  }

  /** In particular, all of the second stage leads for all scores exactly when outsiders are none or enough. */
  lemma WhenAllTwelveLead(n: nat)
    ensures (forall sc: Scores :: AllTwelveLead(n, sc)) <==> n <= 12 || n >= 21
  {
    var m := if n < 12 then n else 12;
    HeadIsExact(n, m);
    HeadIsLong(n);
    assert forall sc: Scores :: AllTwelveLead(n, sc) <==> Lead(n, sc, m);
  }
}
