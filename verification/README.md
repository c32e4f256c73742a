# Scoring pipeline of the Python code analyzer, modelled in Dafny

The analyzer is a small Flask application (`app.py`). A user pastes a Python
snippet; the server runs pylint on it, asks radon for cyclomatic-complexity
ranks and Halstead metrics, turns these into 0–10 sub-scores, and appends one
result record per submission to a history table kept for the life of the
process. This project models the scoring core as pure functions and proves
what it guarantees:

- `text.dfy` (`Text`): ASCII whitespace and digits, ASCII case folding, and `str.strip()`.
- `rounding.dfy` (`Rounding`): the `max(0.0, min(10.0, x))` clamp and `round(x, 2)`.
- `rating_patterns.dfy` (`RatingPatterns`): the two regular expressions that
  read the lint rating. They are modelled as a syntax of matches (`Numeral`,
  `PlainMatch`, `RatedMatch` and their texts) plus greedy scanners (`PlainAt`,
  `RatedAt`). The scanners are proved sound and complete: a scanner succeeds
  at a position exactly when some match text occurs there, and then it returns
  that very match, so a pattern matches in at most one way at a position.
  `Leftmost` is `re.search`'s left-to-right scan. A matched numeral becomes an
  exact real.
- `lint_rating.dfy` (`LintRating`): `run_pylint`. Which number is reported is
  stated declaratively, in terms of which match texts occur where in the
  captured output.
- `complexity.dfy` (`Complexity`): `cc_to_score` over the rank letters.
- `halstead.dfy` (`Halstead`): `halstead_scores` over the extractor's records.
  `math.log10` is a function parameter. Nothing is assumed about it except in
  the lemmas that state an assumption: its monotonicity, or one of its values.
- `analysis.dfy` (`Analysis`): `analyze_code_string` as a combinator over the
  three stage outcomes, with per-stage degradation and the log lines in order.
- `history.dfy` (`History`): the `/` route's append-only history and the 1-based
  row numbering of the table. Each analysis lints its own upload file,
  `upload_<hex>.py` in the temporary directory, `<hex>` being the request's
  `uuid.uuid4().hex` draw. The linter is given that path as well as the
  snippet, because pylint's report may name the file.

External tools are inputs. The linter's run is a `ToolRun`: it was not found,
it timed out, it raised with a message, or it ran with some stdout and stderr.
The linter's run is a function of the upload path and the snippet.
Each radon extractor's result is a `Stage`: `Ok(value)` or `Fail(message)`,
the message being the text of the exception. Complexity results arrive as
their rank letters. Halstead results arrive as records with an optional
`effort` and an optional `bugs`.

The description of the system says every numeric sub-score lies in [0, 10].
The code does not clamp the lint score, and the model follows the code:
`-3.5/10` gives -3.5 and `100/10` gives 100 (`ExampleNegative`,
`ExampleAboveTen`). Only the complexity, effort and bug scores are proved to
lie in [0, 10].

The complexity score is 10 exactly when every rank is A, and 0 exactly when
every rank is worth nothing, but only for the unrounded mean. `round(..., 2)`
breaks one direction at both ends: a score of 10.0 can hide a B
(`RoundingHidesOneB`), and a score of 0.0 can hide an E (`RoundingHidesOneE`).

## Model

| member | source | states |
|---|---|---|
| Text.Strip | app.py:133 | the stripped text has no whitespace at either end; it is a slice of the input, and everything cut off before and after it is whitespace |
| Text.StripEmptyIff | app.py:133-134 | stripping leaves the empty string exactly when the submitted text is all whitespace |
| Rounding.Clamp | app.py:76-77 | the clamp lands in [0, 10], leaves values inside unchanged, and sends values below to 0 and above to 10 |
| Rounding.ClampMonotone | app.py:76-77 | clamping never reverses the order of two values |
| Rounding.Round2 | app.py:42 | two-place rounding moves a value by at most 0.005 and yields a whole number of hundredths |
| Rounding.Round2Exact | app.py:61 | a value that is already a whole number of hundredths is left unchanged by rounding |
| Rounding.Round2Bounds | app.py:79 | rounding keeps a score inside [0, 10] |
| Text.Run | app.py:38 | a greedy `\d+` or `\s*` run ends at the first character outside the class, and all characters before that are inside it |
| RatingPatterns.NumeralValue | app.py:41 | `float` of a matched group, as an exact real: the whole digits, plus the fraction digits over the matching power of ten, negated under a minus sign; its all-inputs partner is `NumeralMagnitude` |
| RatingPatterns.NumeralMagnitude | app.py:41 | for every numeral, the minus sign negates the value, and the magnitude lies in [whole, whole + 1), equal to the whole part when there is no fraction |
| RatingPatterns.PlainAt | app.py:46 | the fraction pattern tried at one position; its partners are `PlainAtSound` and `PlainAtComplete`, which pin it to the match syntax |
| RatingPatterns.RatedAt | app.py:38 | the phrase pattern tried at one position; its partners are `RatedAtSound` and `RatedAtComplete` |
| RatingPatterns.ScanNumeralSound | app.py:38 | a scanned numeral is well formed (optional minus, digits, optional dot and digits), its text occurs at the scan position, and the scan resumes right after it |
| RatingPatterns.ScanTailSound | app.py:46 | a scanned tail is whitespace, a slash, whitespace and `10`, occurring at the scan position |
| RatingPatterns.PlainAtSound | app.py:46 | a fraction-pattern hit at a position is a well-formed match whose text occurs there |
| RatingPatterns.RatedAtSound | app.py:38 | a phrase-pattern hit is `rated at` in some ASCII case, at least one whitespace, and a fraction-pattern match, occurring there |
| RatingPatterns.ScanNumeralComplete | app.py:38 | a well-formed numeral followed by whitespace or a slash is read back whole |
| RatingPatterns.ScanTailComplete | app.py:46 | any whitespace, slash, whitespace and `10` is read back as exactly those whitespace runs |
| RatingPatterns.PlainAtComplete | app.py:46 | wherever a fraction-pattern match text occurs, the scanner returns exactly that match |
| RatingPatterns.RatedAtComplete | app.py:38 | wherever a phrase-pattern match text occurs, the scanner returns exactly that match |
| RatingPatterns.Leftmost | app.py:38 | the search returns the first position in range where the pattern matches, and reports no match only when there is none at any position |
| RatingPatterns.FirstRated | app.py:38 | `re.search` with the phrase pattern returns its leftmost match |
| RatingPatterns.FirstPlain | app.py:46 | `re.search` with the fraction pattern returns its leftmost match |
| LintRating.RatingValue | app.py:38-51 | the number the captured text reports: the phrase pattern's leftmost match if any, else the fraction pattern's; its declarative reading is `RatedWins`, `PlainFallback` and `NoRatingIff` |
| LintRating.RatedWins | app.py:38-44 | if a phrase match occurs at i and none before, the reported number is that match's number, even when a plain `M/10` occurs earlier |
| LintRating.PlainFallback | app.py:46-51 | if no phrase match occurs anywhere, the reported number is that of the leftmost fraction match |
| LintRating.NoRatingIff | app.py:38-53 | no number is reported exactly when neither pattern occurs anywhere in the text |
| LintRating.RunPylint | app.py:16-53 | a missing tool, a timeout and a crash give 0.0 with their fixed messages; a completed run keeps `stdout + "\n" + stderr` verbatim and scores 0.0 when nothing matches |
| LintRating.RanScore | app.py:38-53 | a completed run whose text reports N scores N rounded to two places, unclamped |
| LintRating.ExampleRated | app.py:38-42 | `rated at 7.5/10` scores 7.5 whatever stderr holds |
| LintRating.ExampleFraction | app.py:46-49 | `3/10` with no phrase scores 3 |
| LintRating.ExampleWideDenominator | app.py:46 | `3/100` scores 3, since nothing bounds the text after `10` |
| LintRating.ExampleNegative | app.py:46-49 | `-3.5/10` scores -3.5 |
| LintRating.ExampleAboveTen | app.py:46-49 | `100/10` scores 100 |
| LintRating.ExamplePhraseBeatsEarlierFraction | app.py:38-44 | in `9/10, Rated at  7/10` the phrase wins and the score is 7 |
| LintRating.ExampleNoRating | app.py:53 | text with no rating scores 0.0 and is returned verbatim |
| Complexity.RankPoints | app.py:57 | a rank is worth at most 10 points, 10 exactly for A, and something exactly for A to E |
| Complexity.PointsSumBounds | app.py:60 | the points of n ranks add up to at most 10n |
| Complexity.PointsSumTopIff | app.py:60 | the points reach 10n exactly when every rank is A |
| Complexity.PointsSumZeroIff | app.py:60 | the points add up to 0 exactly when every rank is worth nothing |
| Complexity.RankMean | app.py:60-61 | the mean lies in [0, 10], equals 10 iff every rank is A, and equals 0 iff every rank is worth nothing |
| Complexity.CcScore | app.py:56-61 | the score lies in [0, 10]; no ranks score 10.0; all A scores 10; all worthless scores 0 |
| Complexity.ExampleMixedRanks | app.py:57-61 | ranks A, A, B, F score 7.0 |
| Complexity.RoundingHidesOneB | app.py:61 | 999 A ranks and one B have mean 9.998, which rounds to a score of 10.0 |
| Complexity.RoundingHidesOneE | app.py:61 | 400 F ranks and one E have mean 2/401, which rounds to a score of 0.0, so a score of 0 does not mean every rank is worth nothing |
| Halstead.MaxEffort | app.py:69-72 | the raw effort is at least every record's effort and equals one of them, absent efforts counting as 0.0 |
| Halstead.SumBugs | app.py:70-73 | `sum(bugs)` with an absent attribute counting as 0.0; its partners are `SumBugsConcat`, `SumBugsIgnoresAbsent` and `SumBugsNonNegative` |
| Halstead.SumBugsConcat | app.py:73 | the bug sum of two runs of records is the sum of their bug sums |
| Halstead.SumBugsIgnoresAbsent | app.py:70-73 | dropping every record without a `bugs` attribute, wherever it sits, leaves the bug sum unchanged |
| Halstead.WithBugs | app.py:70-73 | the reference filter behind `SumBugsIgnoresAbsent`, not a step of the source: a record is kept exactly when it is in the input and carries a `bugs` attribute |
| Halstead.SumBugsNonNegative | app.py:73 | non-negative bug estimates sum to a non-negative raw bug count |
| Halstead.EffortScore | app.py:76 | the effort score lies in [0, 10] and is 10 whenever the raw effort is at most 0 |
| Halstead.BugScore | app.py:77 | the bug score lies in [0, 10]; it is 0 from one bug up, 10 at or below zero, and falls linearly in between |
| Halstead.EffortScoreAntitone | app.py:76 | with a monotone logarithm, more raw effort never gives a higher effort score |
| Halstead.BugScoreAntitone | app.py:77 | more raw bugs never give a higher bug score |
| Halstead.HalsteadScoresOf | app.py:64-79 | no records give (10, 10, 0, 0); otherwise both scores lie in [0, 10], the raw effort is the largest effort and the raw bugs the sum; the branch and clamp facts hold for the raw values |
| Halstead.ExampleBugScore | app.py:77-79 | raw bugs of 0.05 give a bug score of 9.5 |
| Halstead.ExampleBugScoreClamped | app.py:77 | raw bugs of 2 give a bug score of 0 |
| Halstead.ExampleEffortScore | app.py:76-79 | a raw effort of 999 gives an effort score of 4 when log10(1000) is 3 |
| Analysis.Analyze | app.py:90-117 | a failed complexity stage sets the complexity score to 0.0; a failed Halstead stage sets all four Halstead fields to 0.0; each failure appends its line to the lint text in order; the complexity, effort and bug scores lie in [0, 10]; both placeholders are `10/10` |
| Analysis.LintOutputIsPrefix | app.py:91-105 | the lint stage's text is always a prefix of the record's log field |
| Analysis.BothFailLogOrder | app.py:95-105 | with both extractors failing, the complexity line precedes the Halstead line |
| Analysis.LintIsolated | app.py:91 | the lint run changes only the lint score and the log field |
| Analysis.CcIsolated | app.py:92-98 | the complexity outcome changes only the complexity score and the log field |
| Analysis.HalsteadIsolated | app.py:100-105 | the Halstead outcome changes only the four Halstead fields and the log field |
| Analysis.LintUnavailable | app.py:31-32 | a missing linter scores 0 with its message while the complexity score is still computed |
| History.Submission | app.py:132-134 | only a POST whose stripped `code_text` is non-empty submits a snippet, namely that stripped text; a missing field counts as empty |
| History.UploadPath | app.py:84-85 | the upload file lies in the temporary directory (the path starts with it) and ends in `.py` |
| History.UploadPathInjective | app.py:84-85 | different uuid draws name different upload files |
| History.Handle | app.py:132-136 | a GET or a blank POST leaves the history unchanged; otherwise exactly one record is appended, the analysis of the stripped text with the linter run on the upload file named by the request's uuid draw, and earlier records are unchanged |
| History.Replay | app.py:129-136 | a fresh process's history after a sequence of requests holds at most one record per request |
| History.ReplayOrder | app.py:129-136 | starting from an empty history, record i is the analysis of the i-th submitted snippet, linted under that submission's own upload file |
| History.ReplayAppendOnly | app.py:129-136 | handling further requests never changes or removes a record already in the history |
| History.SameSnippetTwice | app.py:84-91 | submitting the same text twice appends two records that agree on the complexity, Halstead and placeholder fields, and agree entirely exactly when the linter reports the same score and text for both upload files |
| History.Numbered | app.py:155 | the table has one row per record, row i showing number i + 1 and record i |
| History.NumberedAppend | app.py:155 | appending a record adds one row numbered after all others, which keep their numbers |

## Left out

- Launching pylint (command line, `--disable=import-error`, the 15-second timeout; app.py:16-29) is not modelled: its outcome is the `ToolRun` input. `result.stdout or ""` is modelled as the captured strings themselves.
- The `except Exception: pass` branches around `float(...)` (app.py:43-44, 50-51) cannot be reached: every matched group is a well-formed decimal numeral.
- Python's `float` is binary floating point. Numerals are exact reals here, and `round(x, 2)` is exact-decimal half-even rounding of that real. Finite results can differ from CPython in the last place, for example where a decimal such as 2.675 has no exact binary form.
- LintRating.RunPylint: a matched numeral at or above about 1.8e308 (309 or more whole digits) makes CPython's `float` return `inf` without raising, and `round(inf, 2)` is `inf`, so the program scores `inf` (app.py:41-42, 49). The model returns the exact finite value, because float overflow is not modelled.
- `math.log10` is an uninterpreted parameter. Only monotonicity, or one given value, is assumed, and only in the lemmas that say so.
- Text.Strip: `str.strip()` (app.py:133) also strips Unicode whitespace such as U+00A0, which this model keeps. ASCII whitespace is modelled exactly.
- History.Submission: because of the line above, a `code_text` made only of Unicode whitespace such as U+00A0 is dropped by the program but submitted here.
- Regex details beyond ASCII are left out. `\s` is ASCII whitespace: tab to carriage return, 0x1C to 0x1F, and space. `\d` is the ASCII digits. IGNORECASE is ASCII case folding. Unicode whitespace and Unicode digits are not modelled.
- radon's `cc_visit`, `cc_rank` and `h_visit` are not part of this model. Complexity results are modelled as their rank letters, and Halstead results as a sequence of records. The model does not use the concrete shape `h_visit` returns.
- Writing the snippet to the upload file (app.py:87-88) and removing it on every exit path (app.py:118-122) are filesystem I/O. The linter is given the snippet as that file's contents. `tempfile.gettempdir()` is the `tmpDir` input, and `uuid.uuid4().hex` is the `uuidHex` each request arrives with. Randomness is not modelled, and nothing assumes two draws differ.
- The dead assignment `cc_results = []` (app.py:96) has no effect on the record.
- Flask request handling and the HTML page (app.py:125-128, 131, 138-189) are presentation. The history starting empty (app.py:129-130) is modelled by `Replay`. The model keeps only the row numbering (app.py:155).
- Concurrent requests appending to `app.all_results` are not modelled. A single writer is assumed.
