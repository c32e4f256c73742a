/**
 * The lint stage: running the external linter is an input (`ToolRun`), and the
 * rating is the number the phrase pattern reports, or failing that the number
 * the fraction pattern reports, each searched for at its leftmost position
 * (see `RatingPatterns`). The lemmas here state that choice declaratively,
 * in terms of which match texts occur where in the captured output.
 */
module LintRating {
  import opened Outcomes
  import opened Text
  import opened Rounding
  import opened RatingPatterns

  /** The number the linter's text reports, if either pattern matches it. */
  function RatingValue(output: string): Option<real>
  {
    match FirstRated(output)
    case Some((_, m)) => Some(NumeralValue(m.rating.num))
    case None =>
      match FirstPlain(output)
      case Some((_, m)) => Some(NumeralValue(m.num))
      case None => None
  }

  /** No phrase-pattern match occurs in `s` starting before `i`. */
  ghost predicate NoRatedBefore(s: string, i: nat)
  {
    forall j: nat, m :: j < i && ValidRated(m) ==> !OccursAt(s, j, RatedText(m))
  }

  /** No fraction-pattern match occurs in `s` starting before `i`. */
  ghost predicate NoPlainBefore(s: string, i: nat)
  {
    forall j: nat, m :: j < i && ValidPlain(m) ==> !OccursAt(s, j, PlainText(m))
  }

  /** Soundness read backwards: with no occurrence before `i`, the scanner finds nothing before `i`. */
  lemma NoRatedScan(s: string, i: nat)
    requires NoRatedBefore(s, i)
    ensures forall j :: 0 <= j < i ==> RatedAt(s, j).None?
  {
    forall j | 0 <= j < i
      ensures RatedAt(s, j).None?
    {
      RatedAtSound(s, j);
    }
  }

  lemma NoPlainScan(s: string, i: nat)
    requires NoPlainBefore(s, i)
    ensures forall j :: 0 <= j < i ==> PlainAt(s, j).None?
  {
    forall j | 0 <= j < i
      ensures PlainAt(s, j).None?
    {
      PlainAtSound(s, j);
    }
  }

  /** The phrase pattern wins: the leftmost `rated at N/10` gives N, wherever plain `M/10`s occur. */
  lemma RatedWins(s: string, i: nat, m: RatedMatch)
    requires ValidRated(m) && OccursAt(s, i, RatedText(m))
    requires NoRatedBefore(s, i)
    ensures RatingValue(s) == Some(NumeralValue(m.rating.num))
  {
    RatedAtComplete(s, i, m);
    NoRatedScan(s, i);
    FirstRatedIs(s, i, m);
  }

  /** Without any phrase match, the leftmost `N/10` gives N. */
  lemma PlainFallback(s: string, i: nat, m: PlainMatch)
    requires NoRatedBefore(s, |s| + 1)
    requires ValidPlain(m) && OccursAt(s, i, PlainText(m))
    requires NoPlainBefore(s, i)
    ensures RatingValue(s) == Some(NumeralValue(m.num))
  {
    NoRatedScan(s, |s| + 1);
    assert FirstRated(s).None?;
    PlainAtComplete(s, i, m);
    NoPlainScan(s, i);
    FirstPlainIs(s, i, m);
  }

  /** When the scanner finds no phrase match before `i`, none occurs there. */
  lemma NoRatedFromScan(s: string, i: nat)
    requires forall k :: 0 <= k < i ==> RatedAt(s, k).None?
    ensures NoRatedBefore(s, i)
  {
    forall j: nat, m | j < i && ValidRated(m)
      ensures !OccursAt(s, j, RatedText(m))
    {
      if OccursAt(s, j, RatedText(m)) {
        RatedAtComplete(s, j, m);
      }
    }
  }

  /** When the scanner finds no fraction match before `i`, none occurs there. */
  lemma NoPlainFromScan(s: string, i: nat)
    requires forall k :: 0 <= k < i ==> PlainAt(s, k).None?
    ensures NoPlainBefore(s, i)
  {
    forall j: nat, m | j < i && ValidPlain(m)
      ensures !OccursAt(s, j, PlainText(m))
    {
      if OccursAt(s, j, PlainText(m)) {
        PlainAtComplete(s, j, m);
      }
    }
  }

  /** When nothing is reported, neither pattern occurs anywhere. */
  lemma NoRatingSound(s: string)
    requires RatingValue(s).None?
    ensures NoRatedBefore(s, |s| + 1) && NoPlainBefore(s, |s| + 1)
  {
    NoRatedFromScan(s, |s| + 1);
    NoPlainFromScan(s, |s| + 1);
  }

  /** No number is reported exactly when neither pattern occurs anywhere. */
  lemma NoRatingIff(s: string)
    ensures RatingValue(s).None? <==> NoRatedBefore(s, |s| + 1) && NoPlainBefore(s, |s| + 1)
  {
    if RatingValue(s).None? {
      NoRatingSound(s);
    } else if NoRatedBefore(s, |s| + 1) {
      NoRatedScan(s, |s| + 1);
      if NoPlainBefore(s, |s| + 1) {
        NoPlainScan(s, |s| + 1);
      }
    }
  }

  // ----------------------------------------------------------- the linter

  /** How launching the linter ended: its captured output, or the exception raised. */
  datatype ToolRun = NotFound | TimedOut | Crashed(message: string) | Ran(stdout: string, stderr: string)

  const NotFoundMessage: string := "Pylint not found. Install pylint (`pip install pylint`)."
  const TimeoutMessage: string := "Pylint timed out."
  const CrashPrefix: string := "Pylint error: "

  /** `run_pylint`: the (rounded) rating and the text kept for display. */
  function RunPylint(run: ToolRun): (r: (real, string))
    ensures run.NotFound? ==> r == (0.0, NotFoundMessage)
    ensures run.TimedOut? ==> r == (0.0, TimeoutMessage)
    ensures run.Crashed? ==> r == (0.0, CrashPrefix + run.message)
    ensures run.Ran? ==> r.1 == run.stdout + "\n" + run.stderr
    ensures run.Ran? && RatingValue(r.1).None? ==> r.0 == 0.0
  {
    match run
    case NotFound => (0.0, NotFoundMessage)
    case TimedOut => (0.0, TimeoutMessage)
    case Crashed(e) => (0.0, CrashPrefix + e)
    case Ran(out, err) =>
      var output := out + "\n" + err;
      match RatingValue(output)
      case Some(v) => (Round2(v), output)
      case None => (0.0, output)
  }

  // -------------------------------------------------------------- examples

  /** A phrase match needs eight characters, the first an `r` or `R`. */
  lemma PhraseStart(s: string, k: nat)
    ensures RatedAt(s, k).Some? ==> k + |Phrase| <= |s| && (s[k] == 'r' || s[k] == 'R')
  {
    if RatedAt(s, k).Some? {
      assert Lower(s[k..k + |Phrase|][0]) == Lower(Phrase[0]);
    }
  }

  /** A fraction match starts with a digit, or with a minus and a digit. */
  lemma FractionStart(s: string, k: nat)
    ensures PlainAt(s, k).Some? ==>
      || (k < |s| && IsDigit(s[k]))
      || (k + 1 < |s| && s[k] == '-' && IsDigit(s[k + 1]))
  {
    if PlainAt(s, k).Some? {
      var m := PlainAt(s, k).value;
      PlainAtSound(s, k);
      OccursSplit(s, k, NumeralText(m.num), TailText(m.spaceBefore, m.spaceAfter));
      WholeLayout(s, k, m.num);
    }
  }

  /** No phrase match starts among the first `i` characters when none of them is `r` or `R`. */
  lemma NoPhraseInPrefix(s: string, i: nat)
    requires i <= |s| && 'r' !in s[..i] && 'R' !in s[..i]
    ensures NoRatedBefore(s, i)
  {
    forall k | 0 <= k < i
      ensures RatedAt(s, k).None?
    {
      PhraseStart(s, k);
      assert s[k] == s[..i][k];
    }
    NoRatedFromScan(s, i);
  }

  /** No phrase match occurs in text without `r` or `R`. */
  lemma NoPhraseAnywhere(s: string)
    requires 'r' !in s && 'R' !in s
    ensures NoRatedBefore(s, |s| + 1)
  {
    forall k | 0 <= k <= |s|
      ensures RatedAt(s, k).None?
    {
      PhraseStart(s, k);
    }
    NoRatedFromScan(s, |s| + 1);
  }

  /** No fraction match occurs in text without digits. */
  lemma NoFractionAnywhere(s: string)
    requires forall c :: c in s ==> !IsDigit(c)
    ensures NoPlainBefore(s, |s| + 1)
  {
    forall k | 0 <= k <= |s|
      ensures PlainAt(s, k).None?
    {
      FractionStart(s, k);
      if k < |s| {
        assert s[k] in s;
      }
      if k + 1 < |s| {
        assert s[k + 1] in s;
      }
    }
    NoPlainFromScan(s, |s| + 1);
  }

  /** How `run_pylint` reads a completed run that reports a number: the number, rounded. */
  lemma RanScore(out: string, err: string, v: real)
    requires RatingValue(out + "\n" + err) == Some(v)
    ensures RunPylint(Ran(out, err)) == (Round2(v), out + "\n" + err)
  {
  }

  /** The phrase pattern found at the very start: `rated at 7.5/10` gives 7.5, whatever stderr holds. */
  lemma ExampleRated(err: string)
    ensures RunPylint(Ran("rated at 7.5/10", err)).0 == 7.5
  {
    assert Round2(7.5) == 7.5 by {
      Round2Exact(7.5);
    }
    var s := "rated at 7.5/10" + "\n" + err;
    var p := PlainMatch(Numeral(false, "7", Some("5")), "", "");
    var m := RatedMatch(Phrase, " ", p);
    assert NumeralValue(p.num) == 7.5;
    assert PlainText(p) == "7.5/10";
    assert ValidRated(m);
    assert s[0..15] == RatedText(m);
    RatedWins(s, 0, m);
    RanScore("rated at 7.5/10", err, 7.5);
  }

  /** In text without `r` or `R`, the first fraction match gives the rating. */
  lemma LoneFraction(s: string, m: PlainMatch)
    requires 'r' !in s && 'R' !in s
    requires ValidPlain(m) && OccursAt(s, 0, PlainText(m))
    ensures RatingValue(s) == Some(NumeralValue(m.num))
  {
    NoPhraseAnywhere(s);
    PlainFallback(s, 0, m);
  }

  /** Only a fraction is present: `3/10` gives 3. */
  lemma ExampleFraction()
    ensures RunPylint(Ran("3/10", "")).0 == 3.0
  {
    assert Round2(3.0) == 3.0 by {
      Round2Exact(3.0);
    }
    var s := "3/10\n";
    assert "3/10" + "\n" + "" == s;
    var m := PlainMatch(Numeral(false, "3", None), "", "");
    assert NumeralValue(m.num) == 3.0;
    assert RatingValue(s) == Some(3.0) by {
      assert s[0..4] == PlainText(m);
      LoneFraction(s, m);
    }
    RanScore("3/10", "", 3.0);
  }

  /** Nothing bounds the text after `10`: `3/100` still gives 3. */
  lemma ExampleWideDenominator()
    ensures RunPylint(Ran("3/100", "")).0 == 3.0
  {
    assert Round2(3.0) == 3.0 by {
      Round2Exact(3.0);
    }
    var s := "3/100\n";
    assert "3/100" + "\n" + "" == s;
    var m := PlainMatch(Numeral(false, "3", None), "", "");
    assert NumeralValue(m.num) == 3.0;
    assert RatingValue(s) == Some(3.0) by {
      assert s[0..4] == PlainText(m);
      LoneFraction(s, m);
    }
    RanScore("3/100", "", 3.0);
  }

  /** The rating is not clamped below: `-3.5/10` gives -3.5. */
  lemma ExampleNegative()
    ensures RunPylint(Ran("-3.5/10", "")).0 == -3.5
  {
    assert Round2(-3.5) == -3.5 by {
      Round2Exact(-3.5);
    }
    var s := "-3.5/10\n";
    assert "-3.5/10" + "\n" + "" == s;
    var m := PlainMatch(Numeral(true, "3", Some("5")), "", "");
    assert NumeralValue(m.num) == -3.5;
    assert RatingValue(s) == Some(-3.5) by {
      assert s[0..7] == PlainText(m);
      LoneFraction(s, m);
    }
    RanScore("-3.5/10", "", -3.5);
  }

  /** The digits `100` denote one hundred. */
  lemma HundredValue()
    ensures DigitsValue("100") == 100
  {
    assert "100"[..2] == "10" && "10"[..1] == "1";
    assert DigitsValue("10") == 10;
  }

  /** The rating is not clamped above: `100/10` gives 100. */
  lemma ExampleAboveTen()
    ensures RunPylint(Ran("100/10", "")).0 == 100.0
  {
    assert Round2(100.0) == 100.0 by {
      Round2Exact(100.0);
    }
    var s := "100/10\n";
    assert "100/10" + "\n" + "" == s;
    var m := PlainMatch(Numeral(false, "100", None), "", "");
    assert NumeralValue(m.num) == 100.0 by {
      HundredValue();
    }
    assert RatingValue(s) == Some(100.0) by {
      assert s[0..6] == PlainText(m);
      LoneFraction(s, m);
    }
    RanScore("100/10", "", 100.0);
  }

  /** The number read from `9/10, Rated at  7/10` followed by any stderr is the phrase's 7. */
  lemma PhraseRatingAfterFraction(err: string)
    ensures RatingValue("9/10, Rated at  7/10" + "\n" + err) == Some(7.0)
  {
    var line := "9/10, Rated at  7/10";
    var s := line + "\n" + err;
    var p := PlainMatch(Numeral(false, "7", None), "", "");
    var m := RatedMatch("Rated at", "  ", p);
    assert ValidRated(m);
    assert OccursAt(s, 6, RatedText(m)) by {
      assert PlainText(p) == "7/10";
      assert RatedText(m) == line[6..];
      assert s[6..20] == line[6..];
    }
    assert NoRatedBefore(s, 6) by {
      assert s[..6] == line[..6] == "9/10, ";
      NoPhraseInPrefix(s, 6);
    }
    assert NumeralValue(p.num) == 7.0;
    RatedWins(s, 6, m);
  }

  /** The phrase wins over an earlier fraction: `9/10, Rated at  7/10` gives 7, whatever stderr holds. */
  lemma ExamplePhraseBeatsEarlierFraction(err: string)
    ensures RunPylint(Ran("9/10, Rated at  7/10", err)).0 == 7.0
  {
    assert Round2(7.0) == 7.0 by {
      Round2Exact(7.0);
    }
    PhraseRatingAfterFraction(err);
    RanScore("9/10, Rated at  7/10", err, 7.0);
  }

  /** Text with neither pattern reports 0 and is kept verbatim. */
  lemma ExampleNoRating()
    ensures RunPylint(Ran("all good", "")) == (0.0, "all good\n")
  {
    var s := "all good\n";
    assert "all good" + "\n" + "" == s;
    NoPhraseAnywhere(s);
    NoFractionAnywhere(s);
    NoRatingIff(s);
  }
}
