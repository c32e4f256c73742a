/**
 * `halstead_scores`: the Halstead extractor's records are an input, each with
 * an optional `effort` and `bugs` (an absent attribute counts as 0.0). The raw
 * effort is the largest effort, the raw bug estimate the sum of the bugs; the
 * effort score falls logarithmically with the raw effort and the bug score
 * linearly with the raw bugs, both clamped to [0, 10] and rounded.
 * `math.log10` is a parameter: nothing about it is assumed except in the
 * lemmas that state an assumption (monotonicity, or one value).
 */
module Halstead {
  import opened Outcomes
  import opened Rounding

  /** One record from the extractor; `None` is an absent attribute. */
  datatype HalsteadRecord = HalsteadRecord(effort: Option<real>, bugs: Option<real>)

  /** The four values `halstead_scores` returns, in its order. */
  datatype HalsteadScores = HalsteadScores(effortScore: real, bugScore: real, rawEffort: real, rawBugs: real)

  function EffortOf(h: HalsteadRecord): real
  {
    h.effort.GetOr(0.0)
  }

  function BugsOf(h: HalsteadRecord): real
  {
    h.bugs.GetOr(0.0)
  }

  /** `max(efforts)`: the largest effort, which is one of the records' efforts. */
  function MaxEffort(hs: seq<HalsteadRecord>): (r: real)
    requires |hs| > 0
    ensures forall k :: 0 <= k < |hs| ==> EffortOf(hs[k]) <= r
    ensures exists k :: 0 <= k < |hs| && r == EffortOf(hs[k])
  {
    if |hs| == 1 then EffortOf(hs[0])
    else
      var rest := MaxEffort(hs[1..]);
      assert forall k :: 1 <= k < |hs| ==> hs[k] == hs[1..][k - 1];
      if EffortOf(hs[0]) >= rest then EffortOf(hs[0]) else rest
  }

  /** `sum(bugs)`, absent values counting as 0.0. */
  function SumBugs(hs: seq<HalsteadRecord>): real
  {
    if |hs| == 0 then 0.0 else SumBugs(hs[..|hs| - 1]) + BugsOf(hs[|hs| - 1])
  }

  /** The bug sum of two runs of records is the sum of their bug sums. */
  lemma {:induction false} SumBugsConcat(a: seq<HalsteadRecord>, b: seq<HalsteadRecord>)
    ensures SumBugs(a + b) == SumBugs(a) + SumBugs(b)
    decreases |b|
  {
    if |b| == 0 {
      assert a + b == a;
    } else {
      var init := b[..|b| - 1];
      assert (a + b)[..|a + b| - 1] == a + init;
      SumBugsConcat(a, init);
    }
  }

  /**
   * The records that carry a `bugs` attribute, in their order: the reference
   * filter against which `SumBugsIgnoresAbsent` states that absent values add nothing.
   */
  function WithBugs(hs: seq<HalsteadRecord>): (r: seq<HalsteadRecord>)
    ensures |r| <= |hs|
    ensures forall k :: 0 <= k < |r| ==> r[k].bugs.Some?
    ensures forall h :: h in r <==> h in hs && h.bugs.Some?
  {
    if |hs| == 0 then []
    else
      var last := hs[|hs| - 1];
      WithBugs(hs[..|hs| - 1]) + (if last.bugs.Some? then [last] else [])
  }

  /** Records without the attribute add nothing to the bug sum, wherever they sit. */
  lemma {:induction false} SumBugsIgnoresAbsent(hs: seq<HalsteadRecord>)
    ensures SumBugs(WithBugs(hs)) == SumBugs(hs)
  {
    if |hs| > 0 {
      var init := hs[..|hs| - 1];
      var last := hs[|hs| - 1];
      SumBugsIgnoresAbsent(init);
      if last.bugs.Some? {
        SumBugsConcat(WithBugs(init), [last]);
        assert SumBugs([last]) == BugsOf(last) by {
          assert [last][..0] == [];
        }
      } else {
        assert WithBugs(hs) == WithBugs(init) + [];
        assert WithBugs(init) + [] == WithBugs(init);
      }
    }
  }

  /** A sum of non-negative bug estimates is non-negative. */
  lemma {:induction false} SumBugsNonNegative(hs: seq<HalsteadRecord>)
    requires forall k :: 0 <= k < |hs| ==> BugsOf(hs[k]) >= 0.0
    ensures SumBugs(hs) >= 0.0
  {
    if |hs| > 0 {
      SumBugsNonNegative(hs[..|hs| - 1]);
    }
  }

  /** `10 - 2 * log10(raw + 1)` clamped, and 10 for a non-positive raw effort. */
  function EffortScore(rawEffort: real, log10: real -> real): (r: real)
    ensures 0.0 <= r <= 10.0
    ensures rawEffort <= 0.0 ==> r == 10.0
  {
    if rawEffort <= 0.0 then 10.0 else Clamp(10.0 - log10(rawEffort + 1.0) * 2.0)
  }

  /** `10 - 10 * raw` clamped. */
  function BugScore(rawBugs: real): (r: real)
    ensures 0.0 <= r <= 10.0
    ensures rawBugs >= 1.0 ==> r == 0.0
    ensures rawBugs <= 0.0 ==> r == 10.0
    ensures 0.0 <= rawBugs <= 1.0 ==> r == 10.0 - 10.0 * rawBugs
  {
    Clamp(10.0 - rawBugs * 10.0)
  }

  ghost predicate Monotone(f: real -> real)
  {
    forall x, y :: x <= y ==> f(x) <= f(y)
  }

  /** With a monotone logarithm, more effort never scores better. */
  lemma EffortScoreAntitone(a: real, b: real, log10: real -> real)
    requires Monotone(log10)
    requires a <= b
    ensures EffortScore(b, log10) <= EffortScore(a, log10)
  {
    if a > 0.0 {
      assert log10(a + 1.0) <= log10(b + 1.0);
      ClampMonotone(10.0 - log10(b + 1.0) * 2.0, 10.0 - log10(a + 1.0) * 2.0);
    }
  }

  /** More predicted bugs never score better. */
  lemma BugScoreAntitone(a: real, b: real)
    requires a <= b
    ensures BugScore(b) <= BugScore(a)
  {
    ClampMonotone(10.0 - b * 10.0, 10.0 - a * 10.0);
  }

  /** `halstead_scores` applied to the extractor's records. */
  function HalsteadScoresOf(hs: seq<HalsteadRecord>, log10: real -> real): (r: HalsteadScores)
    ensures 0.0 <= r.effortScore <= 10.0 && 0.0 <= r.bugScore <= 10.0
    ensures |hs| == 0 ==> r == HalsteadScores(10.0, 10.0, 0.0, 0.0)
    ensures |hs| > 0 ==> forall k :: 0 <= k < |hs| ==> EffortOf(hs[k]) <= r.rawEffort
    ensures |hs| > 0 ==> exists k :: 0 <= k < |hs| && r.rawEffort == EffortOf(hs[k])
    ensures |hs| > 0 ==> r.rawBugs == SumBugs(hs)
    ensures r.rawEffort <= 0.0 ==> r.effortScore == 10.0
    ensures r.rawBugs <= 0.0 ==> r.bugScore == 10.0
    ensures r.rawBugs >= 1.0 ==> r.bugScore == 0.0
  {
    if |hs| == 0 then HalsteadScores(10.0, 10.0, 0.0, 0.0)
    else
      var effort := MaxEffort(hs);
      var bugs := SumBugs(hs);
      var es := EffortScore(effort, log10);
      var bs := BugScore(bugs);
      Round2Bounds(es);
      Round2Bounds(bs);
      Round2Exact(10.0);
      Round2Exact(0.0);
      HalsteadScores(Round2(es), Round2(bs), effort, bugs)
  }

  /** A raw bug estimate of 0.05 scores 9.5. */
  lemma ExampleBugScore()
    ensures Round2(BugScore(0.05)) == 9.5
  {
    Round2Exact(9.5);
  }

  /** A raw bug estimate of 2 is clamped to 0. */
  lemma ExampleBugScoreClamped()
    ensures BugScore(2.0) == 0.0
  {
  }

  /** A raw effort of 999 scores 10 - 2 * log10(1000) = 4 when log10(1000) is 3. */
  lemma ExampleEffortScore(log10: real -> real)
    requires log10(1000.0) == 3.0
    ensures Round2(EffortScore(999.0, log10)) == 4.0
  {
    Round2Exact(4.0);
  }
}
