/**
 The order of the guesses, told from the guesses alone: what decides between two of them
 is how their own arrangements of the tiles score.
 */
module GuessOrder {
  import opened Guesses
  import opened Ranking
  import opened Sorting
  import opened Swaps

  type Score = seq<int> -> int

  /** The puzzle: tiles on the board, the swaps on offer, and the three ways of scoring an arrangement. */
  datatype Puzzle = Puzzle(tiles: nat, swaps: seq<int>, luma: Score, rgb: Score, text: Score) {
    /** How many guesses there are. */
    function Count(): nat {
      |swaps| / 2
    }

    predicate Sound() {
      Valid(Pairs(swaps), tiles)
    }
  }

  /** How a guess with these swaps arranges the tiles. */
  function Arranged(tiles: nat, swaps: seq<int>): seq<int> {
    if Valid(Pairs(swaps), tiles) then Applied(Identity(tiles), Pairs(swaps)) else []
  }

  /** What that scoring says of guess number i + 1. */
  function OwnScore(z: Puzzle, f: Score, i: int): int {
    f(Arranged(z.tiles, ActiveSwaps(z.swaps, i + 1)))
  }

  /** Guess i + 1 does better than guess j + 1; of equals the earlier one does. */
  predicate Beats(z: Puzzle, f: Score, i: int, j: int) {
    OwnScore(z, f, i) < OwnScore(z, f, j) || (OwnScore(z, f, i) == OwnScore(z, f, j) && i < j)
  }

  /** How many guesses of u are better than this one. */
  ghost function Better(z: Puzzle, f: Score, u: set<int>, i: int): nat {
    |set j | j in u && Beats(z, f, j, i)|
  }

  /** The guesses that have fewer than twelve better ones by luma. */
  ghost function Finalists(z: Puzzle): set<int> {
    set i | i in All(z.Count()) && Better(z, z.luma, All(z.Count()), i) < 12
  }

  /** How many are better by luma, and then by colour and by text among the finalists. */
  ghost function Handicap(z: Puzzle, i: int): nat {
    Better(z, z.luma, All(z.Count()), i)
    + if i in Finalists(z) then Better(z, z.rgb, Finalists(z), i) + Better(z, z.text, Finalists(z), i) else z.Count()
  }

  /** Guess i + 1 is tried before guess j + 1. */
  ghost predicate TriedBefore(z: Puzzle, i: int, j: int) {
    || Handicap(z, i) < Handicap(z, j)
    || (Handicap(z, i) == Handicap(z, j) && Beats(z, z.luma, i, j))
  }

  ghost function ScoresOf(z: Puzzle): Scores {
    AllScores(z.tiles, Pairs(z.swaps), z.luma, z.rgb, z.text)
  }

  /** The score that ranks a guess is that of its own swaps. */
  lemma ScoreIsOwn(z: Puzzle, f: Score, i: nat)
    requires z.Sound() && i < z.Count()
    ensures ScoreOf(f, z.tiles, Pairs(z.swaps))(i) == OwnScore(z, f, i)
  {
    ActivePairs(z.swaps, i + 1);
    ValidPrefix(Pairs(z.swaps), z.tiles, i + 1);
  }

  lemma BeatsIsBefore(z: Puzzle, f: Score, i: nat, j: nat)
    requires z.Sound() && i < z.Count() && j < z.Count()
    ensures Beats(z, f, i, j) <==> Before(By(ScoreOf(f, z.tiles, Pairs(z.swaps))), i, j)
  {
    ScoreIsOwn(z, f, i);
    ScoreIsOwn(z, f, j);
  }

  lemma BetterIsRank(z: Puzzle, f: Score, u: set<int>, i: int)
    requires z.Sound() && 0 <= i < z.Count() && forall j :: j in u ==> 0 <= j < z.Count()
    ensures Better(z, f, u, i) == Rank(By(ScoreOf(f, z.tiles, Pairs(z.swaps))), u, i)
  {
    var k := By(ScoreOf(f, z.tiles, Pairs(z.swaps)));
    forall j | j in u ensures Beats(z, f, j, i) <==> Before(k, j, i) {
      BeatsIsBefore(z, f, j, i);
    }
    assert (set j | j in u && Beats(z, f, j, i)) == (set j | j in u && Before(k, j, i));
  }

  lemma FinalistsAreStage2(z: Puzzle)
    requires z.Sound()
    ensures Finalists(z) == Stage2(z.Count(), ScoresOf(z).luma)
  {
    AllMembers(z.Count());
    forall i | i in All(z.Count())
      ensures Better(z, z.luma, All(z.Count()), i) == Rank(By(ScoresOf(z).luma), All(z.Count()), i)
    {
      BetterIsRank(z, z.luma, All(z.Count()), i);
    }
  }

  lemma HandicapIsConsensus(z: Puzzle, i: nat)
    requires z.Sound() && i < z.Count()
    ensures Handicap(z, i) == Consensus(z.Count(), ScoresOf(z), i)
  {
    AllMembers(z.Count());
    FinalistsAreStage2(z);
    BetterIsRank(z, z.luma, All(z.Count()), i);
    BetterIsRank(z, z.rgb, Finalists(z), i);
    BetterIsRank(z, z.text, Finalists(z), i);
  }

  lemma TriedBeforeIsBefore(z: Puzzle, i: nat, j: nat)
    requires z.Sound() && i < z.Count() && j < z.Count()
    ensures TriedBefore(z, i, j) <==> Before(FinalKeys(z.Count(), ScoresOf(z)), i, j)
  {
    HandicapIsConsensus(z, i);
    HandicapIsConsensus(z, j);
    ScoreIsOwn(z, z.luma, i);
    ScoreIsOwn(z, z.luma, j);
  }

  /** Each guess is listed once, with its own swaps, and before all that are to be tried later. */
  ghost predicate InOwnOrder(z: Puzzle, ranked: seq<Guess>) {
    && |ranked| == z.Count()
    && (forall p :: 0 <= p < |ranked| ==>
          1 <= ranked[p].index <= z.Count() && ranked[p].swaps == ActiveSwaps(z.swaps, ranked[p].index))
    && (forall p, q :: 0 <= p < q < |ranked| ==> TriedBefore(z, ranked[p].index - 1, ranked[q].index - 1))
  }

  /** The ranking is the order in which the guesses' own arrangements do better. */
  lemma RankingIsInOwnOrder(z: Puzzle, ranked: seq<Guess>)
    requires z.Sound() && IsRanking(ranked, z.swaps, ScoresOf(z))
    ensures InOwnOrder(z, ranked)
  {
    var n, sc := z.Count(), ScoresOf(z);
    RankedIsOrdered(n, sc);
    AllMembers(n);
    forall p | 0 <= p < n ensures 0 <= Ranked(n, sc)[p] < n {
      assert Ranked(n, sc)[p] in Elems(Ranked(n, sc));
    }
    forall p, q | 0 <= p < q < n ensures TriedBefore(z, ranked[p].index - 1, ranked[q].index - 1) {
      assert Before(FinalKeys(n, sc), Ranked(n, sc)[p], Ranked(n, sc)[q]);
      TriedBeforeIsBefore(z, Ranked(n, sc)[p], Ranked(n, sc)[q]);
    }
  }

  lemma BetterThanBetter(z: Puzzle, f: Score, u: set<int>, i: int, j: int)
    requires Beats(z, f, i, j) && i in u
    ensures Better(z, f, u, i) < Better(z, f, u, j)
  {
    var mine, yours := set x | x in u && Beats(z, f, x, i), set x | x in u && Beats(z, f, x, j);
    assert i in yours && i !in mine;
    SubsetSize(mine, yours);
  }

  /** Of two finalists, one that beats the other by all three scores is tried first. */
  lemma BetterAllRound(z: Puzzle, i: int, j: int)
    requires i in Finalists(z) && j in Finalists(z)
    requires Beats(z, z.luma, i, j) && Beats(z, z.rgb, i, j) && Beats(z, z.text, i, j)
    ensures TriedBefore(z, i, j)
  {
    BetterThanBetter(z, z.luma, All(z.Count()), i, j);
    BetterThanBetter(z, z.rgb, Finalists(z), i, j);
    BetterThanBetter(z, z.text, Finalists(z), i, j);
  }
}
