/**
 * `analyze_code_string`: the three stages run one after another on the
 * same snippet and each failure is contained at its own stage. The linter's
 * run and the two radon extractors are inputs; a failed extractor is
 * `Fail(message)`, where `message` is the text of the exception it raised.
 */
module Analysis {
  import opened Outcomes
  import opened LintRating
  import opened Complexity
  import opened Halstead

  /** The record one submission produces; the field order follows the source's dictionary. */
  datatype AnalysisRecord = AnalysisRecord(
    pylintScore: real,
    pylintOutput: string,
    ccScore: real,
    effortScore: real,
    bugScore: real,
    rawEffort: real,
    rawBugs: real,
    testPassRate: string,
    maintainability: string)

  /** The two placeholder fields, never computed. */
  const Placeholder: string := "10/10"

  const CcErrorPrefix: string := "\nRadon CC error: "
  const HalsteadErrorPrefix: string := "\nHalstead error: "

  /** The log line a failed complexity stage appends, and nothing for a success. */
  function CcLog(cc: Stage<seq<char>>): string
  {
    if cc.Fail? then CcErrorPrefix + cc.message else ""
  }

  /** The log line a failed Halstead stage appends, and nothing for a success. */
  function HalsteadLog(hal: Stage<seq<HalsteadRecord>>): string
  {
    if hal.Fail? then HalsteadErrorPrefix + hal.message else ""
  }

  /** `analyze_code_string` given what the three collaborators produced for the snippet. */
  function Analyze(lint: ToolRun, cc: Stage<seq<char>>, hal: Stage<seq<HalsteadRecord>>,
                   log10: real -> real): (r: AnalysisRecord)
    // the lint stage decides the lint score and opens the log
    ensures r.pylintScore == RunPylint(lint).0
    ensures r.pylintOutput == RunPylint(lint).1 + CcLog(cc) + HalsteadLog(hal)
    // a failed complexity stage scores 0; a successful one is `cc_to_score`
    ensures cc.Fail? ==> r.ccScore == 0.0
    ensures cc.Ok? ==> r.ccScore == CcScore(cc.value)
    // a failed Halstead stage zeroes all four of its fields
    ensures hal.Fail? ==> r.effortScore == 0.0 && r.bugScore == 0.0 && r.rawEffort == 0.0 && r.rawBugs == 0.0
    ensures hal.Ok? ==> var h := HalsteadScoresOf(hal.value, log10);
      r.effortScore == h.effortScore && r.bugScore == h.bugScore
      && r.rawEffort == h.rawEffort && r.rawBugs == h.rawBugs
    // the four stage scores other than the lint score lie in [0, 10]
    ensures 0.0 <= r.ccScore <= 10.0 && 0.0 <= r.effortScore <= 10.0 && 0.0 <= r.bugScore <= 10.0
    ensures r.testPassRate == Placeholder && r.maintainability == Placeholder
  {
    var (lintScore, lintOutput) := RunPylint(lint);
    var ccScore := if cc.Ok? then CcScore(cc.value) else 0.0;
    var h := if hal.Ok? then HalsteadScoresOf(hal.value, log10) else HalsteadScores(0.0, 0.0, 0.0, 0.0);
    AnalysisRecord(
      lintScore, lintOutput + CcLog(cc) + HalsteadLog(hal), ccScore,
      h.effortScore, h.bugScore, h.rawEffort, h.rawBugs,
      Placeholder, Placeholder)
  }

  /** The lint stage's text always opens the log; later stages only append to it. */
  lemma LintOutputIsPrefix(lint: ToolRun, cc: Stage<seq<char>>, hal: Stage<seq<HalsteadRecord>>,
                           log10: real -> real)
    ensures RunPylint(lint).1 <= Analyze(lint, cc, hal, log10).pylintOutput
  {
    var out := RunPylint(lint).1;
    var log := Analyze(lint, cc, hal, log10).pylintOutput;
    assert log == out + (CcLog(cc) + HalsteadLog(hal));
    assert log[..|out|] == out;
  }

  /** With both extractors failing, the complexity line comes before the Halstead line. */
  lemma BothFailLogOrder(lint: ToolRun, e1: string, e2: string, log10: real -> real)
    ensures Analyze(lint, Fail(e1), Fail(e2), log10).pylintOutput
         == RunPylint(lint).1 + CcErrorPrefix + e1 + HalsteadErrorPrefix + e2
  {
    var out := RunPylint(lint).1;
    assert CcLog(Fail(e1)) == CcErrorPrefix + e1;
    assert HalsteadLog(Fail(e2)) == HalsteadErrorPrefix + e2;
    Regroup(out, CcErrorPrefix, e1, HalsteadErrorPrefix, e2);
  }

  /** Appending two log lines, regrouped. */
  lemma Regroup(out: string, p1: string, e1: string, p2: string, e2: string)
    ensures out + (p1 + e1) + (p2 + e2) == out + p1 + e1 + p2 + e2
  {
    assert out + (p1 + e1) == out + p1 + e1;
  }

  /**
   * Stage isolation: the lint run affects only the two lint fields, the
   * complexity outcome only the complexity score and its log line, the
   * Halstead outcome only the four Halstead fields and its log line.
   */
  lemma LintIsolated(l1: ToolRun, l2: ToolRun, cc: Stage<seq<char>>, hal: Stage<seq<HalsteadRecord>>,
                     log10: real -> real)
    ensures var a := Analyze(l1, cc, hal, log10); var b := Analyze(l2, cc, hal, log10);
      a.(pylintScore := 0.0, pylintOutput := []) == b.(pylintScore := 0.0, pylintOutput := [])
  {
  }

  lemma CcIsolated(lint: ToolRun, c1: Stage<seq<char>>, c2: Stage<seq<char>>,
                   hal: Stage<seq<HalsteadRecord>>, log10: real -> real)
    ensures var a := Analyze(lint, c1, hal, log10); var b := Analyze(lint, c2, hal, log10);
      a.(ccScore := 0.0, pylintOutput := []) == b.(ccScore := 0.0, pylintOutput := [])
  {
  }

  lemma HalsteadIsolated(lint: ToolRun, cc: Stage<seq<char>>, h1: Stage<seq<HalsteadRecord>>,
                         h2: Stage<seq<HalsteadRecord>>, log10: real -> real)
    ensures var a := Analyze(lint, cc, h1, log10); var b := Analyze(lint, cc, h2, log10);
      a.(effortScore := 0.0, bugScore := 0.0, rawEffort := 0.0, rawBugs := 0.0, pylintOutput := [])
      == b.(effortScore := 0.0, bugScore := 0.0, rawEffort := 0.0, rawBugs := 0.0, pylintOutput := [])
  {
  }

  /** A missing linter scores the lint stage 0 and leaves the other stages computed as usual. */
  lemma LintUnavailable(cc: Stage<seq<char>>, hal: Stage<seq<HalsteadRecord>>, log10: real -> real)
    ensures var r := Analyze(NotFound, cc, hal, log10);
      && r.pylintScore == 0.0
      && r.pylintOutput == NotFoundMessage + CcLog(cc) + HalsteadLog(hal)
      && (cc.Ok? ==> r.ccScore == CcScore(cc.value))
  {
  }
}
