/**
 The ranking as it is computed: candidates are scored in a loop, the second stage
 is scored by several workers whose results arrive in any order, and ranks are
 looked up in tables.
 */
module Guesses {
  import opened Ranking
  import opened Sorting
  import opened Swaps
  import opened Wrappers

  const MAX_CHECKS := 2

  datatype Guess = Guess(index: int, swaps: seq<int>, luma: int, rgb: int, text: int, consensus: int)

  datatype RankError = NoCandidates | BadSwaps(error: SwapError)

  function TileCount(gridSize: int): (n: nat)
    ensures n == 0 <==> gridSize == 0
  {
    SquareIsPositive(gridSize);
    gridSize * gridSize
  }

  /** The score of candidate number i + 1: the arrangement after the first i + 1 swaps. */
  function CandidateScore(score: seq<int> -> int, tiles: nat, ps: seq<Swap>, i: int): int {
    if 0 <= i < |ps| && Valid(ps, tiles) then
      ValidPrefix(ps, tiles, i + 1);
      score(Applied(Identity(tiles), ps[..i + 1]))
    else
      0
  }

  function ScoreOf(score: seq<int> -> int, tiles: nat, ps: seq<Swap>): int -> int {
    i => CandidateScore(score, tiles, ps, i)
  }

  // ---------------------------------------------------------------------
  // The first stage
  // ---------------------------------------------------------------------

  /** The candidates as the first loop leaves them. */
  ghost predicate Fresh(guesses: seq<Guess>, swaps: seq<int>, luma: int -> int) {
    forall i :: 0 <= i < |guesses| ==> guesses[i] == Guess(i + 1, ActiveSwaps(swaps, i + 1), luma(i), 0, 0, 0)
  }

  /** Builds and scores all candidates; fails exactly on an empty grid or a pair that is out of range. */
  method ScoreCandidates(gridSize: int, swaps: seq<int>, score: seq<int> -> int)
    returns (r: Result<seq<Guess>, SwapError>)
    requires |swaps| >= 2
    ensures r.Ok? <==> gridSize != 0 && Valid(Pairs(swaps), TileCount(gridSize))
    ensures r.Err? ==> r.error == if gridSize == 0 then BadTileCount else OutOfRange
    ensures r.Ok? ==> |r.value| == |swaps| / 2
                      && Fresh(r.value, swaps, ScoreOf(score, TileCount(gridSize), Pairs(swaps)))
  {
    var count := |swaps| / 2;
    var guesses: seq<Guess> := [];
    var lumas: seq<int> := [];
    ghost var ps := Pairs(swaps);
    var idx := 1;
    while idx <= count
      invariant 1 <= idx <= count + 1 && |guesses| == |lumas| == idx - 1
      invariant idx > 1 ==> gridSize != 0 && Valid(ps[..idx - 1], TileCount(gridSize))
      invariant forall i :: 0 <= i < idx - 1 ==>
                guesses[i] == Guess(i + 1, ActiveSwaps(swaps, i + 1), lumas[i], 0, 0, 0)
      invariant forall i :: 0 <= i < idx - 1 ==> LumaIs(score, TileCount(gridSize), ps, i, lumas[i])
    {
      var active := ActiveSwaps(swaps, idx);
      ActivePairs(swaps, idx);
      var mapping := ApplySliderSwaps(gridSize, active);
      if mapping.Err? {
        PrefixSpoils(ps, TileCount(gridSize), idx);
        return Err(mapping.error);
      }
      var luma := score(mapping.value[..]);
      guesses := guesses + [Guess(idx, active, luma, 0, 0, 0)];
      lumas := lumas + [luma];
      idx := idx + 1;
    }
    assert ps[..count] == ps;
    forall i | 0 <= i < count ensures lumas[i] == CandidateScore(score, TileCount(gridSize), ps, i) {
      assert LumaIs(score, TileCount(gridSize), ps, i, lumas[i]);
    }
    r := Ok(guesses);
  }

  ghost predicate LumaIs(score: seq<int> -> int, tiles: nat, ps: seq<Swap>, i: int, luma: int) {
    0 <= i < |ps| && Valid(ps[..i + 1], tiles) && luma == score(Applied(Identity(tiles), ps[..i + 1]))
  }

  lemma PrefixSpoils(ps: seq<Swap>, tiles: nat, k: nat)
    requires k <= |ps|
    ensures !Valid(ps[..k], tiles) ==> !Valid(ps, tiles)
  {
    if Valid(ps, tiles) {
      ValidPrefix(ps, tiles, k);
    }
  }

  // ---------------------------------------------------------------------
  // Ranks, as tables
  // ---------------------------------------------------------------------

  /** A list of scores as a function of the candidate. */
  function At(s: seq<int>): int -> int {
    i => if 0 <= i < |s| then s[i] else 0
  }

  /** The table holds the rank of each member of u. */
  ghost predicate IsTable(table: map<int, int>, k: Keys, u: set<int>) {
    table.Keys == u && forall i :: i in u ==> i in table && table[i] == Rank(k, u, i)
  }

  /** Sorts the candidates and notes the place of each. */
  method RankTable(k: Keys, items: seq<int>) returns (order: seq<int>, table: map<int, int>)
    requires Distinct(items)
    ensures order == SortedBy(k, items)
    ensures IsTable(table, k, Elems(items))
  {
    order := SortedBy(k, items);
    SortedByIsOrdered(k, items);
    table := map[];
    var rank := 0;
    while rank < |order|
      invariant 0 <= rank <= |order|
      invariant table.Keys == Elems(order[..rank])
      invariant forall i :: i in table ==> table[i] == Rank(k, Elems(items), i)
    {
      PlaceIsRank(k, order, rank);
      table := table[order[rank] := rank];
      assert order[..rank + 1] == order[..rank] + [order[rank]];
      rank := rank + 1;
    }
    assert order[..rank] == order;
  }

  /** The candidates that go on to the second stage. */
  method SelectStage2(order: seq<int>, n: nat) returns (chosen: set<int>)
    requires |order| == n
    ensures chosen == Elems(order[..if n > STAGE2_MAX then STAGE2_MAX else n])
  {
    var count := n;
    if count > STAGE2_MAX {
      count := STAGE2_MAX;
    }
    chosen := {};
    var i := 0;
    while i < count
      invariant 0 <= i <= count && chosen == Elems(order[..i])
    {
      assert order[..i + 1] == order[..i] + [order[i]];
      chosen := chosen + {order[i]};
      i := i + 1;
    }
  }

  /** The members of a set, in the order of the candidates. */
  method InIndexOrder(n: nat, chosen: set<int>) returns (s: seq<int>)
    ensures s == Filter(Upto(n), chosen)
  {
    s := [];
    var i := 0;
    while i < n
      invariant 0 <= i <= n && s == Filter(Upto(n)[..i], chosen)
    {
      assert Upto(n)[..i + 1][..i] == Upto(n)[..i];
      if i in chosen {
        s := s + [i];
      }
      i := i + 1;
    }
    assert Upto(n)[..n] == Upto(n);
  }

  // ---------------------------------------------------------------------
  // The second stage
  // ---------------------------------------------------------------------

  /** Writes the workers' results into the candidates as they arrive. */
  method StoreResults(guesses: array<Guess>, arrival: seq<int>, rgb: int -> int, text: int -> int)
    requires forall a :: a in arrival ==> 0 <= a < guesses.Length
    modifies guesses
    ensures forall i :: 0 <= i < guesses.Length ==>
              guesses[i] == if i in arrival then old(guesses[i]).(rgb := rgb(i), text := text(i)) else old(guesses[i])
  {
    var k := 0;
    while k < |arrival|
      invariant 0 <= k <= |arrival|
      invariant forall i :: 0 <= i < guesses.Length ==>
                  guesses[i] == if i in arrival[..k] then old(guesses[i]).(rgb := rgb(i), text := text(i))
                                else old(guesses[i])
    {
      var index := arrival[k];
      assert index in arrival;
      assert arrival[..k + 1] == arrival[..k] + [index];
      guesses[index] := guesses[index].(rgb := rgb(index));
      guesses[index] := guesses[index].(text := text(index));
      k := k + 1;
    }
    assert arrival[..k] == arrival;
  }

  function SumOf(luma: map<int, int>, stage2: set<int>, rgb: map<int, int>, text: map<int, int>, n: nat, i: int): int
    requires i in luma && (i in stage2 ==> i in rgb && i in text)
  {
    luma[i] + if i in stage2 then rgb[i] + text[i] else n
  }

  /** With correct tables, the sum is the consensus rank. */
  lemma SumIsConsensus(luma: map<int, int>, stage2: set<int>, rgb: map<int, int>, text: map<int, int>,
                       n: nat, sc: Scores, i: int)
    requires 0 <= i < n && stage2 == Stage2(n, sc.luma) && IsTable(luma, By(sc.luma), All(n))
    requires IsTable(rgb, By(sc.rgb), stage2) && IsTable(text, By(sc.text), stage2)
    ensures i in luma && (i in stage2 ==> i in rgb && i in text)
    ensures SumOf(luma, stage2, rgb, text, n, i) == Consensus(n, sc, i)
  {
    AllMembers(n);
  }

  /** Adds up the ranks; candidates outside the second stage get their number instead of the two ranks they lack. */
  method SumRanks(guesses: array<Guess>, luma: map<int, int>, stage2: set<int>, rgb: map<int, int>, text: map<int, int>)
    requires forall i :: 0 <= i < guesses.Length ==> i in luma && (i in stage2 ==> i in rgb && i in text)
    modifies guesses
    ensures forall i :: 0 <= i < guesses.Length ==>
              guesses[i] == old(guesses[i]).(consensus := SumOf(luma, stage2, rgb, text, guesses.Length, i))
  {
    var i := 0;
    while i < guesses.Length
      invariant 0 <= i <= guesses.Length
      invariant forall j :: i <= j < guesses.Length ==> guesses[j] == old(guesses[j])
      invariant forall j :: 0 <= j < i ==>
                  guesses[j] == old(guesses[j]).(consensus := SumOf(luma, stage2, rgb, text, guesses.Length, j))
    {
      var sum := luma[i];
      if i in stage2 {
        sum := sum + (rgb[i] + text[i]);
      } else {
        sum := sum + guesses.Length;
      }
      guesses[i] := guesses[i].(consensus := sum);
      i := i + 1;
    }
  }

  // ---------------------------------------------------------------------
  // The whole ranking
  // ---------------------------------------------------------------------

  /** The table of ranks within the second stage, from the scores stored in the candidates. */
  method Stage2Table(scores: seq<int>, n: nat, stage2: set<int>, ghost key: int -> int) returns (table: map<int, int>)
    requires stage2 <= All(n) && forall i :: i in stage2 ==> At(scores)(i) == key(i)
    ensures IsTable(table, By(key), stage2)
  {
    var items := InIndexOrder(n, stage2);
    FilterLists(Upto(n), stage2);
    assert Elems(items) == stage2;
    var order;
    order, table := RankTable(By(At(scores)), items);
    forall i | i in stage2 ensures table[i] == Rank(By(key), stage2, i) {
      SameRank(By(At(scores)), By(key), stage2, i);
    }
  }

  function Lumas(guesses: seq<Guess>): (s: seq<int>)
    ensures |s| == |guesses| && forall i :: 0 <= i < |s| ==> s[i] == guesses[i].luma
  {
    seq(|guesses|, i requires 0 <= i < |guesses| => guesses[i].luma)
  }

  function Rgbs(guesses: seq<Guess>): (s: seq<int>)
    ensures |s| == |guesses| && forall i :: 0 <= i < |s| ==> s[i] == guesses[i].rgb
  {
    seq(|guesses|, i requires 0 <= i < |guesses| => guesses[i].rgb)
  }

  function Texts(guesses: seq<Guess>): (s: seq<int>)
    ensures |s| == |guesses| && forall i :: 0 <= i < |s| ==> s[i] == guesses[i].text
  {
    seq(|guesses|, i requires 0 <= i < |guesses| => guesses[i].text)
  }

  function Sums(guesses: seq<Guess>): (s: seq<int>)
    ensures |s| == |guesses| && forall i :: 0 <= i < |s| ==> s[i] == guesses[i].consensus
  {
    seq(|guesses|, i requires 0 <= i < |guesses| => guesses[i].consensus)
  }

  /** Luma ranks and the second stage, from the scored candidates. */
  method FirstStage(guesses: seq<Guess>, ghost luma: int -> int) returns (table: map<int, int>, stage2: set<int>)
    requires forall i :: 0 <= i < |guesses| ==> guesses[i].luma == luma(i)
    ensures stage2 == Stage2(|guesses|, luma)
    ensures IsTable(table, By(luma), All(|guesses|))
  {
    var n := |guesses|;
    AllMembers(n);
    var order;
    order, table := RankTable(By(At(Lumas(guesses))), Upto(n));
    forall i | i in All(n) ensures table[i] == Rank(By(luma), All(n), i) {
      SameRank(By(At(Lumas(guesses))), By(luma), All(n), i);
    }
    SortSeesItsItems(By(At(Lumas(guesses))), By(luma), Upto(n));
    SortedPrefixIsStage2(n, luma);
    stage2 := SelectStage2(order, n);
  }

  /** After all results are in, each member of the second stage has its scores and nothing else has changed. */
  method ScoreStage2(guesses: array<Guess>, stage2: set<int>, arrival: seq<int>, rgb: int -> int, text: int -> int)
    requires Lists(arrival, stage2) && forall a :: a in stage2 ==> 0 <= a < guesses.Length
    modifies guesses
    ensures forall i :: 0 <= i < guesses.Length ==>
              guesses[i] == if i in stage2 then old(guesses[i]).(rgb := rgb(i), text := text(i)) else old(guesses[i])
  {
    forall a ensures a in arrival <==> a in stage2 {
      assert a in Elems(arrival) <==> a in arrival;
    }
    StoreResults(guesses, arrival, rgb, text);
  }

  /** The candidates with their consensus ranks. */
  method AddConsensus(guesses: array<Guess>, ghost sc: Scores, arrival: seq<int>, rgb: int -> int, text: int -> int)
    requires sc.rgb == rgb && sc.text == text
    requires forall i :: 0 <= i < guesses.Length ==> guesses[i].luma == sc.luma(i)
    requires Lists(arrival, Stage2(guesses.Length, sc.luma))
    modifies guesses
    ensures forall i :: 0 <= i < guesses.Length ==>
              && guesses[i].luma == sc.luma(i) && guesses[i].consensus == Consensus(guesses.Length, sc, i)
              && guesses[i].index == old(guesses[i].index) && guesses[i].swaps == old(guesses[i].swaps)
  {
    var n := guesses.Length;
    AllMembers(n);
    var lumaTable, stage2 := FirstStage(guesses[..], sc.luma);
    ScoreStage2(guesses, stage2, arrival, rgb, text);
    var rgbTable := Stage2Table(Rgbs(guesses[..]), n, stage2, rgb);
    var textTable := Stage2Table(Texts(guesses[..]), n, stage2, text);
    forall i | 0 <= i < n
      ensures i in lumaTable && (i in stage2 ==> i in rgbTable && i in textTable)
      ensures SumOf(lumaTable, stage2, rgbTable, textTable, n, i) == Consensus(n, sc, i)
    {
      SumIsConsensus(lumaTable, stage2, rgbTable, textTable, n, sc, i);
    }
    SumRanks(guesses, lumaTable, stage2, rgbTable, textTable);
  }

  /**
   Ranks the candidates. The result is the ranking that the scores determine,
   whatever the order in which the workers' results arrived.
   */
  method RankSliderGuesses(gridSize: int, swaps: seq<int>,
                           luma: seq<int> -> int, rgb: seq<int> -> int, text: seq<int> -> int, arrival: seq<int>)
    returns (r: Result<seq<Guess>, RankError>)
    requires Lists(arrival, Stage2(|swaps| / 2, ScoreOf(luma, TileCount(gridSize), Pairs(swaps))))
    ensures r == Err(NoCandidates) <==> |swaps| < 2
    ensures r.Ok? <==> |swaps| >= 2 && gridSize != 0 && Valid(Pairs(swaps), TileCount(gridSize))
    ensures r.Ok? ==> IsRanking(r.value, swaps, AllScores(TileCount(gridSize), Pairs(swaps), luma, rgb, text))
  {
    if |swaps| / 2 == 0 {
      return Err(NoCandidates);
    }
    var scored := ScoreCandidates(gridSize, swaps, luma);
    if scored.Err? {
      return Err(BadSwaps(scored.error));
    }
    var ps := Pairs(swaps);
    var tiles := TileCount(gridSize);
    ghost var sc := AllScores(tiles, ps, luma, rgb, text);
    var guesses := new Guess[|scored.value|](i requires 0 <= i < |scored.value| => scored.value[i]);
    AddConsensus(guesses, sc, arrival, ScoreOf(rgb, tiles, ps), ScoreOf(text, tiles, ps));
    var ranked := InFinalOrder(guesses[..], sc);
    r := Ok(ranked);
  }

  function AllScores(tiles: nat, ps: seq<Swap>, luma: seq<int> -> int, rgb: seq<int> -> int,
                       text: seq<int> -> int): Scores {
    Scores(ScoreOf(luma, tiles, ps), ScoreOf(rgb, tiles, ps), ScoreOf(text, tiles, ps))
  }

  /** The candidates in ranking order, each with its number and its swaps. */
  ghost predicate IsRanking(ranked: seq<Guess>, swaps: seq<int>, sc: Scores) {
    && |ranked| == |Ranked(|swaps| / 2, sc)|
    && forall p :: 0 <= p < |ranked| ==>
         ranked[p].index == Ranked(|swaps| / 2, sc)[p] + 1 && ranked[p].swaps == ActiveSwaps(swaps, ranked[p].index)
  }

  /** The final sort. */
  method InFinalOrder(guesses: seq<Guess>, ghost sc: Scores) returns (ranked: seq<Guess>)
    requires forall i :: 0 <= i < |guesses| ==>
               guesses[i].luma == sc.luma(i) && guesses[i].consensus == Consensus(|guesses|, sc, i)
    ensures |ranked| == |Ranked(|guesses|, sc)| == |guesses|
    ensures forall p :: 0 <= p < |ranked| ==>
              0 <= Ranked(|guesses|, sc)[p] < |guesses| && ranked[p] == guesses[Ranked(|guesses|, sc)[p]]
  {
    var n := |guesses|;
    var keys := Keys(At(Sums(guesses)), At(Lumas(guesses)));
    var order := SortedBy(keys, Upto(n));
    AllMembers(n);
    SortSeesItsItems(keys, FinalKeys(n, sc), Upto(n));
    RankedIsOrdered(n, sc);
    forall p | 0 <= p < n ensures 0 <= order[p] < n {
      assert order[p] in Elems(order);
    }
    ranked := seq(n, p requires 0 <= p < n && 0 <= order[p] < n => guesses[order[p]]);
  }

  /** How many guesses are tried, for an image that allows that many attempts. */
  function Limit(attempts: int, count: nat): (limit: int)
    ensures limit <= attempts && limit <= 2 && limit <= count
    ensures limit == attempts || limit == 2 || limit == count
  {
    var capped := if attempts > MAX_CHECKS then MAX_CHECKS else attempts;
    if capped > count then count else capped
  }

  /** Whatever the scores are, only candidates that were compared in full are ever tried. */
  lemma TriedGuessesAreFullyScored(n: nat, sc: Scores, attempts: int, i: nat)
    requires i < Limit(attempts, n)
    ensures i < |Ranked(n, sc)| && Ranked(n, sc)[i] in Stage2(n, sc.luma)
  {
    HeadIsLong(n);
    HeadIsStage2(n, sc, i + 1);
  }
}
