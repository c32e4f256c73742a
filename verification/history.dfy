/**
 * The `/` route's result history: an append-only sequence of analysis
 * records, created empty with the process. A GET leaves it alone; a POST
 * analyses the stripped `code_text` field and appends the record, unless the
 * stripped text is empty. The table shows row `i` (from 0) numbered `i + 1`.
 * One writer at a time is assumed.
 */
module History {
  import opened Outcomes
  import opened Text
  import opened LintRating
  import opened Halstead
  import opened Analysis

  datatype Request = Get | Post(codeText: Option<string>)

  /**
   * A request as the server meets it: the request, and the hex digits
   * `uuid.uuid4().hex` yields for it should it lead to an analysis.
   */
  datatype Arrival = Arrival(req: Request, uuidHex: string)

  /**
   * The temporary directory, what the external tools produce, and the
   * logarithm in use. The linter is given a file path and that file's
   * contents; the radon extractors are given the snippet itself.
   */
  datatype Collaborators = Collaborators(
    tmpDir: string,
    lint: (string, string) -> ToolRun,
    cc: string -> Stage<seq<char>>,
    halstead: string -> Stage<seq<HalsteadRecord>>,
    log10: real -> real)

  /** `os.path.join(dir, name)` on POSIX, for a relative `name`. */
  function JoinPath(dir: string, name: string): string
  {
    if dir == [] || dir[|dir| - 1] == '/' then dir + name else dir + "/" + name
  }

  /** The file a snippet is written to: `upload_<hex>.py` in the temporary directory. */
  function UploadPath(dir: string, hex: string): (p: string)
    ensures |p| >= |dir| + |hex| + 10 && p[..|dir|] == dir
    ensures p[|p| - 3..] == ".py"
  {
    JoinPath(dir, "upload_" + hex + ".py")
  }

  /** Different uuid draws name different upload files, so no two analyses share a file. */
  lemma UploadPathInjective(dir: string, h1: string, h2: string)
    requires UploadPath(dir, h1) == UploadPath(dir, h2)
    ensures h1 == h2
  {
    var pre := if dir == [] || dir[|dir| - 1] == '/' then dir + "upload_" else dir + "/upload_";
    var p1 := UploadPath(dir, h1);
    assert p1 == pre + h1 + ".py";
    assert UploadPath(dir, h2) == pre + h2 + ".py";
    assert h1 == p1[|pre|..|pre| + |h1|];
  }

  /** `analyze_code_string(code)`, the linter run on the upload file named by `hex`. */
  function AnalyzeSnippet(code: string, hex: string, env: Collaborators): AnalysisRecord
  {
    Analyze(env.lint(UploadPath(env.tmpDir, hex), code), env.cc(code), env.halstead(code), env.log10)
  }

  /** The snippet a request submits for analysis: a POST's stripped text, when non-empty. */
  function Submission(req: Request): (r: Option<string>)
    ensures r.Some? ==> req.Post? && r.value != [] && r.value == Strip(req.codeText.GetOr(""))
    ensures req.Get? ==> r.None?
    ensures req.Post? && r.None? ==> AllSpace(req.codeText.GetOr(""))
  {
    match req
    case Get => None
    case Post(text) =>
      var code := Strip(text.GetOr(""));
      StripEmptyIff(text.GetOr(""));
      if code != [] then Some(code) else None
  }

  /** One request handled by the route. */
  function Handle(history: seq<AnalysisRecord>, a: Arrival, env: Collaborators): (h: seq<AnalysisRecord>)
    ensures Submission(a.req).None? ==> h == history
    ensures Submission(a.req).Some? ==>
      |h| == |history| + 1 && h[..|history|] == history
      && h[|history|] == AnalyzeSnippet(Submission(a.req).value, a.uuidHex, env)
  {
    match Submission(a.req)
    case None => history
    case Some(code) => history + [AnalyzeSnippet(code, a.uuidHex, env)]
  }

  /** The history after a sequence of requests, starting from the empty history of a fresh process. */
  function Replay(arrivals: seq<Arrival>, env: Collaborators): (h: seq<AnalysisRecord>)
    ensures |h| <= |arrivals|
  {
    if |arrivals| == 0 then []
    else Handle(Replay(arrivals[..|arrivals| - 1], env), arrivals[|arrivals| - 1], env)
  }

  /** The snippets the requests submit, in order, each with the uuid hex drawn for its upload file. */
  function Submitted(arrivals: seq<Arrival>): seq<(string, string)>
  {
    if |arrivals| == 0 then []
    else
      var earlier := Submitted(arrivals[..|arrivals| - 1]);
      var last := arrivals[|arrivals| - 1];
      match Submission(last.req)
      case None => earlier
      case Some(code) => earlier + [(code, last.uuidHex)]
  }

  /** Record `i` of the history is the analysis of the `i`-th submitted snippet, linted under its own upload file. */
  lemma {:induction false} ReplayOrder(arrivals: seq<Arrival>, env: Collaborators)
    ensures |Replay(arrivals, env)| == |Submitted(arrivals)|
    ensures forall i :: 0 <= i < |Submitted(arrivals)| ==>
      Replay(arrivals, env)[i] == AnalyzeSnippet(Submitted(arrivals)[i].0, Submitted(arrivals)[i].1, env)
  {
    if |arrivals| > 0 {
      ReplayOrder(arrivals[..|arrivals| - 1], env);
    }
  }

  /** Handling more requests never changes or removes a record already there. */
  lemma {:induction false} ReplayAppendOnly(arrivals: seq<Arrival>, k: nat, env: Collaborators)
    requires k <= |arrivals|
    ensures Replay(arrivals[..k], env) <= Replay(arrivals, env)
    decreases |arrivals| - k
  {
    if k < |arrivals| {
      var init := arrivals[..|arrivals| - 1];
      assert init[..k] == arrivals[..k];
      ReplayAppendOnly(init, k, env);
      var before := Replay(init, env);
      var after := Replay(arrivals, env);
      assert after == Handle(before, arrivals[|arrivals| - 1], env);
      assert after[..|before|] == before;
    } else {
      assert arrivals[..k] == arrivals;
    }
  }

  /** Two records that agree on everything the radon stages decide: all fields but the lint score and the log. */
  predicate SameBeyondLint(r1: AnalysisRecord, r2: AnalysisRecord)
  {
    && r1.ccScore == r2.ccScore && r1.effortScore == r2.effortScore && r1.bugScore == r2.bugScore
    && r1.rawEffort == r2.rawEffort && r1.rawBugs == r2.rawBugs
    && r1.testPassRate == r2.testPassRate && r1.maintainability == r2.maintainability
  }

  /**
   * Submitting the same text twice appends two records that agree beyond the
   * lint fields, and agree entirely exactly when the linter reports the same
   * score and text for both upload files, which their random names need not
   * allow: the report may echo the file's name.
   */
  lemma SameSnippetTwice(history: seq<AnalysisRecord>, text: string, hex1: string, hex2: string, env: Collaborators)
    requires !AllSpace(text)
    ensures var once := Handle(history, Arrival(Post(Some(text)), hex1), env);
      var twice := Handle(once, Arrival(Post(Some(text)), hex2), env);
      && |twice| == |history| + 2
      && SameBeyondLint(twice[|history|], twice[|history| + 1])
      && (RunPylint(env.lint(UploadPath(env.tmpDir, hex1), Strip(text)))
            == RunPylint(env.lint(UploadPath(env.tmpDir, hex2), Strip(text)))
          <==> twice[|history|] == twice[|history| + 1])
  {
    var code := Strip(text);
    StripEmptyIff(text);
    var r1 := AnalyzeSnippet(code, hex1, env);
    var r2 := AnalyzeSnippet(code, hex2, env);
    var c := env.cc(code);
    var h := env.halstead(code);
    if r1 == r2 {
      var o1 := RunPylint(env.lint(UploadPath(env.tmpDir, hex1), code)).1;
      var o2 := RunPylint(env.lint(UploadPath(env.tmpDir, hex2), code)).1;
      var log := r1.pylintOutput;
      assert log == o1 + CcLog(c) + HalsteadLog(h);
      assert log == o2 + CcLog(c) + HalsteadLog(h);
      assert o1 == log[..|o1|] && o2 == log[..|o2|];
    }
  }

  /** The table rows: each record with its 1-based number. */
  function Numbered(history: seq<AnalysisRecord>): (rows: seq<(nat, AnalysisRecord)>)
    ensures |rows| == |history|
    ensures forall i :: 0 <= i < |rows| ==> rows[i] == (i + 1, history[i])
  {
    seq(|history|, i requires 0 <= i < |history| => (i + 1, history[i]))
  }

  /** Appending a record adds one row numbered after all earlier ones, which keep their numbers. */
  lemma NumberedAppend(history: seq<AnalysisRecord>, r: AnalysisRecord)
    ensures Numbered(history + [r]) == Numbered(history) + [(|history| + 1, r)]
  {
  }
}
