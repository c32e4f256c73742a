/**
 * `cc_to_score`: per-block cyclomatic-complexity ranks (the letters
 * `cc_rank` returns) become points, A=10 B=8 C=6 D=4 E=2 F=0 and 0 for any
 * other letter, and the score is their mean rounded to two places; no blocks
 * at all score 10.
 */
module Complexity {
  import opened Rounding

  /** The points one rank is worth. */
  function RankPoints(rank: char): (p: nat)
    ensures p <= 10
    ensures p == 10 <==> rank == 'A'
    ensures p > 0 <==> rank in "ABCDE"
  {
    match rank
    case 'A' => 10
    case 'B' => 8
    case 'C' => 6
    case 'D' => 4
    case 'E' => 2
    case 'F' => 0
    case _ => 0
  }

  function PointsSum(ranks: seq<char>): nat
  {
    if |ranks| == 0 then 0 else PointsSum(ranks[..|ranks| - 1]) + RankPoints(ranks[|ranks| - 1])
  }

  predicate AllTop(ranks: seq<char>)
  {
    forall k :: 0 <= k < |ranks| ==> ranks[k] == 'A'
  }

  predicate AllWorthless(ranks: seq<char>)
  {
    forall k :: 0 <= k < |ranks| ==> RankPoints(ranks[k]) == 0
  }

  /** The sum of points lies between 0 and 10 per rank. */
  lemma {:induction false} PointsSumBounds(ranks: seq<char>)
    ensures PointsSum(ranks) <= 10 * |ranks|
  {
    if |ranks| > 0 {
      PointsSumBounds(ranks[..|ranks| - 1]);
    }
  }

  /** The sum reaches its maximum exactly when every rank is A. */
  lemma {:induction false} PointsSumTopIff(ranks: seq<char>)
    ensures PointsSum(ranks) == 10 * |ranks| <==> AllTop(ranks)
  {
    if |ranks| > 0 {
      var init := ranks[..|ranks| - 1];
      PointsSumTopIff(init);
      PointsSumBounds(init);
      if AllTop(ranks) {
        assert AllTop(init) by {
          forall k | 0 <= k < |init| ensures init[k] == 'A' {
            assert init[k] == ranks[k];
          }
        }
      }
      if PointsSum(ranks) == 10 * |ranks| {
        forall k | 0 <= k < |ranks| ensures ranks[k] == 'A' {
          if k < |init| {
            assert init[k] == ranks[k];
          }
        }
      }
    }
  }

  /** The sum is 0 exactly when every rank is worth nothing. */
  lemma {:induction false} PointsSumZeroIff(ranks: seq<char>)
    ensures PointsSum(ranks) == 0 <==> AllWorthless(ranks)
  {
    if |ranks| > 0 {
      var init := ranks[..|ranks| - 1];
      PointsSumZeroIff(init);
      if AllWorthless(ranks) {
        assert AllWorthless(init) by {
          forall k | 0 <= k < |init| ensures RankPoints(init[k]) == 0 {
            assert init[k] == ranks[k];
          }
        }
      }
      if PointsSum(ranks) == 0 {
        forall k | 0 <= k < |ranks| ensures RankPoints(ranks[k]) == 0 {
          if k < |init| {
            assert init[k] == ranks[k];
          }
        }
      }
    }
  }

  /** The unrounded mean of the points. */
  function RankMean(ranks: seq<char>): (m: real)
    requires |ranks| > 0
    ensures 0.0 <= m <= 10.0
    ensures m == 10.0 <==> AllTop(ranks)
    ensures m == 0.0 <==> AllWorthless(ranks)
  {
    PointsSumBounds(ranks);
    PointsSumTopIff(ranks);
    PointsSumZeroIff(ranks);
    MeanOfPoints(PointsSum(ranks), |ranks|);
    PointsSum(ranks) as real / |ranks| as real
  }

  /** The mean of `n` values in [0, 10] with sum `total` is in [0, 10], at an end only when the sum is. */
  lemma MeanOfPoints(total: nat, n: nat)
    requires 0 < n && total <= 10 * n
    ensures var m := total as real / n as real;
      && 0.0 <= m <= 10.0
      && (m == 10.0 <==> total == 10 * n)
      && (m == 0.0 <==> total == 0)
  {
    var t := total as real;
    var d := n as real;
    var m := t / d;
    assert m * d == t;
    assert (10.0 - m) * d == 10.0 * d - t;
    NonNegativeFactor(m, d);
    NonNegativeFactor(10.0 - m, d);
    if m == 10.0 {
      assert t == 10.0 * d;
    }
  }

  /** A factor whose product with a positive number is non-negative is itself non-negative. */
  lemma NonNegativeFactor(x: real, d: real)
    requires d > 0.0 && x * d >= 0.0
    ensures x >= 0.0
  {
  }

  /** `cc_to_score`. */
  function CcScore(ranks: seq<char>): (r: real)
    ensures 0.0 <= r <= 10.0
    ensures |ranks| == 0 ==> r == 10.0
    ensures AllTop(ranks) ==> r == 10.0
    ensures |ranks| > 0 && AllWorthless(ranks) ==> r == 0.0
  {
    if |ranks| == 0 then 10.0
    else
      var m := RankMean(ranks);
      Round2Bounds(m);
      Round2Exact(10.0);
      Round2Exact(0.0);
      Round2(m)
  }

  /** Four blocks ranked A, A, B, F score (10 + 10 + 8 + 0) / 4 = 7. */
  lemma ExampleMixedRanks()
    ensures CcScore("AABF") == 7.0
  {
    assert PointsSum("AABF") == 28 by {
      assert "AABF"[..3] == "AAB" && "AAB"[..2] == "AA" && "AA"[..1] == "A" && "A"[..0] == "";
    }
    Round2Exact(7.0);
  }

  lemma {:induction false} PointsSumAllTop(n: nat)
    ensures PointsSum(seq(n, _ => 'A')) == 10 * n
  {
    if n > 0 {
      assert seq(n, _ => 'A')[..n - 1] == seq(n - 1, _ => 'A');
      PointsSumAllTop(n - 1);
    }
  }

  /**
   * Rounding can hide a weaker block: 999 blocks ranked A and one ranked B
   * have mean 9.998, which rounds to 10.0, so a score of 10 does not by
   * itself mean every block is A.
   */
  lemma RoundingHidesOneB()
    ensures var ranks := seq(999, _ => 'A') + ['B'];
      !AllTop(ranks) && RankMean(ranks) == 9.998 && CcScore(ranks) == 10.0
  {
    var ranks := seq(999, _ => 'A') + ['B'];
    assert ranks[..999] == seq(999, _ => 'A');
    PointsSumAllTop(999);
    assert PointsSum(ranks) == 9998;
    assert ranks[999] == 'B';
  }

  /**
   * Rounding can also hide a block that is worth something: 400 blocks ranked
   * F and one ranked E have mean 2/401, below 0.005, which rounds to 0.0, so a
   * score of 0 does not by itself mean every block is worth nothing.
   */
  lemma RoundingHidesOneE()
    ensures var ranks := seq(400, _ => 'F') + ['E'];
      !AllWorthless(ranks) && RankMean(ranks) == 2.0 / 401.0 && CcScore(ranks) == 0.0
  {
    var ranks := seq(400, _ => 'F') + ['E'];
    var fs := seq(400, _ => 'F');
    assert ranks[..400] == fs;
    PointsSumZeroIff(fs);
    assert PointsSum(ranks) == 2;
    assert RankPoints(ranks[400]) == 2;
    assert Round2(2.0 / 401.0) == 0.0 by {
      var y := 2.0 / 401.0 * 100.0;
      assert 0.0 < y < 0.5;
      assert y.Floor == 0;
    }
  }
}
