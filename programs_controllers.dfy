/**
 * The controllers of programming problems and contests: the evaluation recipe they assemble
 * for a submission, the environment entries they fill in, the checks on submitted files,
 * how a submission's status and score follow its reports, and which reports a viewer sees.
 *
 * The evaluation environment is a dictionary the controllers update in place; it is the
 * class `Environ` here, with one field per key the controllers touch (`None` for a key that
 * is absent). Database rows are values passed in: the reports of the submission and the
 * score reports.
 */
module ProgramsControllers {
  import opened Wrappers
  import opened Text
  import opened Evalmgr

  // ---------------------------------------------------------------------------
  // Report kinds and recipe stages

  const INITIAL := "INITIAL"
  const NORMAL := "NORMAL"
  const HIDDEN := "HIDDEN"
  const FAILURE := "FAILURE"
  const ACTIVE := "ACTIVE"

  const COMPILE := Step("compile", "oioioi.programs.handlers.compile", NoArgs)
  const DELETE_EXECUTABLE := Step("delete_executable", "oioioi.programs.handlers.delete_executable", NoArgs)
  const COLLECT_TESTS := Step("collect_tests", "oioioi.programs.handlers.collect_tests", NoArgs)

  /** The recipe every programming problem starts from: compile, an insertion point, clean-up. */
  const BASE_RECIPE: seq<Stage> := [COMPILE, RecipePlaceholder("after_compile"), DELETE_EXECUTABLE]

  /** The only error handler: the executable is deleted when a stage fails. */
  const ERROR_HANDLERS: seq<Stage> := [DELETE_EXECUTABLE]

  const INITIAL_BLOCK: seq<Stage> := [
    Step("initial_run_tests", "oioioi.programs.handlers.run_tests", KindArg(Some("EXAMPLE"))),
    Step("initial_grade_tests", "oioioi.programs.handlers.grade_tests", NoArgs),
    Step("initial_grade_groups", "oioioi.programs.handlers.grade_groups", NoArgs),
    Step("initial_grade_submission", "oioioi.programs.handlers.grade_submission", KindArg(Some("EXAMPLE"))),
    Step("initial_make_report", "oioioi.programs.handlers.make_report", KindArg(Some(INITIAL))),
    RecipePlaceholder("after_initial_tests")
  ]

  const NORMAL_BLOCK: seq<Stage> := [
    Step("final_run_tests", "oioioi.programs.handlers.run_tests", KindArg(Some(NORMAL))),
    Step("final_grade_tests", "oioioi.programs.handlers.grade_tests", NoArgs),
    Step("final_grade_groups", "oioioi.programs.handlers.grade_groups", NoArgs),
    Step("final_grade_submission", "oioioi.programs.handlers.grade_submission", NoArgs),
    Step("final_make_report", "oioioi.programs.handlers.make_report", NoArgs),
    RecipePlaceholder("after_final_tests")
  ]

  const HIDDEN_BLOCK: seq<Stage> := [
    Step("hidden_run_tests", "oioioi.programs.handlers.run_tests", NoArgs),
    Step("hidden_grade_tests", "oioioi.programs.handlers.grade_tests", NoArgs),
    Step("hidden_grade_groups", "oioioi.programs.handlers.grade_groups", NoArgs),
    Step("hidden_grade_submission", "oioioi.programs.handlers.grade_submission", KindArg(None)),
    Step("hidden_make_report", "oioioi.programs.handlers.make_report", KindArg(Some(HIDDEN))),
    RecipePlaceholder("after_all_tests")
  ]

  const UPDATE_REPORT_STATUSES := Step("update_report_statuses", "oioioi.contests.handlers.update_report_statuses", NoArgs)
  const UPDATE_SUBMISSION_SCORE := Step("update_submission_score", "oioioi.contests.handlers.update_submission_score", NoArgs)

  const MIN_GROUP_SCORER := "oioioi.programs.utils.min_group_scorer"
  const SUM_SCORE_AGGREGATOR := "oioioi.programs.utils.sum_score_aggregator"

  /** The stages run for the requested report kinds, block by block. */
  function RecipeBody(kinds: seq<string>): seq<Stage>
  {
    [COLLECT_TESTS]
    + (if INITIAL in kinds then INITIAL_BLOCK else [])
    + (if NORMAL in kinds || HIDDEN in kinds then [RecipePlaceholder("before_final_tests")] else [])
    + (if NORMAL in kinds then NORMAL_BLOCK else [])
    + (if HIDDEN in kinds then HIDDEN_BLOCK else [])
  }

  /**
   * Where everything sits in a recipe body: `collect_tests` first, then the INITIAL block, the
   * `before_final_tests` placeholder, the NORMAL block and the HIDDEN block last, each present
   * exactly when its kinds are requested.
   */
  lemma RecipeLayout(kinds: seq<string>)
    ensures var r := RecipeBody(kinds);
            var i := if INITIAL in kinds then 7 else 1;
            && |r| == i + (if NORMAL in kinds || HIDDEN in kinds then 1 else 0)
                        + (if NORMAL in kinds then 6 else 0) + (if HIDDEN in kinds then 6 else 0)
            && r[0] == COLLECT_TESTS
            && (INITIAL in kinds ==> r[1..7] == INITIAL_BLOCK)
            && (NORMAL in kinds || HIDDEN in kinds ==> r[i] == Placeholder("before_final_tests"))
            && (NORMAL in kinds ==> r[i + 1..i + 7] == NORMAL_BLOCK)
            && (HIDDEN in kinds ==> r[|r| - 6..] == HIDDEN_BLOCK)
  {
    var a := if INITIAL in kinds then INITIAL_BLOCK else [];
    var b := if NORMAL in kinds || HIDDEN in kinds then [RecipePlaceholder("before_final_tests")] else [];
    var c := if NORMAL in kinds then NORMAL_BLOCK else [];
    var d := if HIDDEN in kinds then HIDDEN_BLOCK else [];
    assert RecipeBody(kinds) == [COLLECT_TESTS] + a + b + c + d;
    ConcatLayout(COLLECT_TESTS, a, b, c, d);
  }

  /** Where each part of `[x] + a + b + c + d` sits. */
  lemma ConcatLayout<T>(x: T, a: seq<T>, b: seq<T>, c: seq<T>, d: seq<T>)
    ensures var r := [x] + a + b + c + d;
            var i := 1 + |a|;
            && |r| == i + |b| + |c| + |d|
            && r[0] == x
            && r[1..i] == a
            && (|b| > 0 ==> r[i] == b[0])
            && r[i + |b|..i + |b| + |c|] == c
            && r[|r| - |d|..] == d
  {
    var r := [x] + a + b + c + d;
    var i := 1 + |a|;
    assert r == ([x] + a) + (b + c + d);
    assert r[1..i] == ([x] + a)[1..];
    assert r == ([x] + a + b) + c + d;
    assert r[i + |b|..i + |b| + |c|] == c;
  }

  /** A stage belongs to the body exactly when it belongs to one of the blocks of the requested kinds. */
  lemma RecipeMembers(kinds: seq<string>, x: Stage)
    ensures x in RecipeBody(kinds) <==>
              || x == COLLECT_TESTS
              || (INITIAL in kinds && x in INITIAL_BLOCK)
              || ((NORMAL in kinds || HIDDEN in kinds) && x == Placeholder("before_final_tests"))
              || (NORMAL in kinds && x in NORMAL_BLOCK)
              || (HIDDEN in kinds && x in HIDDEN_BLOCK)
  {
    var a := if INITIAL in kinds then INITIAL_BLOCK else [];
    var b := if NORMAL in kinds || HIDDEN in kinds then [RecipePlaceholder("before_final_tests")] else [];
    var c := if NORMAL in kinds then NORMAL_BLOCK else [];
    var d := if HIDDEN in kinds then HIDDEN_BLOCK else [];
    assert RecipeBody(kinds) == [COLLECT_TESTS] + a + b + c + d;
  }

  /** Each placeholder of the body is there exactly when the report kinds that need it are requested. */
  lemma RecipePlaceholders(kinds: seq<string>)
    ensures Placeholder("after_initial_tests") in RecipeBody(kinds) <==> INITIAL in kinds
    ensures Placeholder("before_final_tests") in RecipeBody(kinds) <==> NORMAL in kinds || HIDDEN in kinds
    ensures Placeholder("after_final_tests") in RecipeBody(kinds) <==> NORMAL in kinds
    ensures Placeholder("after_all_tests") in RecipeBody(kinds) <==> HIDDEN in kinds
  {
    RecipeMembers(kinds, Placeholder("after_initial_tests"));
    RecipeMembers(kinds, Placeholder("before_final_tests"));
    RecipeMembers(kinds, Placeholder("after_final_tests"));
    RecipeMembers(kinds, Placeholder("after_all_tests"));
    BlockPlaceholder(INITIAL_BLOCK, "after_initial_tests");
    BlockPlaceholder(NORMAL_BLOCK, "after_final_tests");
    BlockPlaceholder(HIDDEN_BLOCK, "after_all_tests");
  }

  /** A block of five steps closed by a placeholder holds that placeholder and no other. */
  lemma BlockPlaceholder(block: seq<Stage>, name: string)
    requires |block| == 6 && block[5] == Placeholder(name)
    requires forall j :: 0 <= j < 5 ==> block[j].Step?
    ensures forall p :: Placeholder(p) in block <==> p == name
  {
    forall p | Placeholder(p) in block ensures p == name {
      var j :| 0 <= j < 6 && block[j] == Placeholder(p);
    }
  }

  /** The recipe of a problem: the body inserted after `after_compile` of the base recipe. */
  function FilledRecipe(kinds: seq<string>): seq<Stage>
  {
    ExtendAfterPlaceholder(BASE_RECIPE, "after_compile", RecipeBody(kinds))
  }

  /** The body sits between the `after_compile` placeholder and the deletion of the executable. */
  lemma FilledRecipeLayout(kinds: seq<string>)
    ensures FilledRecipe(kinds) == [COMPILE, Placeholder("after_compile")] + RecipeBody(kinds) + [DELETE_EXECUTABLE]
  {
    ExtendAfterAt(BASE_RECIPE, "after_compile", RecipeBody(kinds), 1);
  }

  /** What the contest controller does to the recipe once the problem has filled it. */
  function PostProblemRecipe(recipe: seq<Stage>, kinds: seq<string>): seq<Stage>
  {
    if INITIAL in kinds then
      AddBeforePlaceholder(AddBeforePlaceholder(recipe, "after_initial_tests", UPDATE_REPORT_STATUSES),
                           "after_initial_tests", UPDATE_SUBMISSION_SCORE)
    else recipe
  }

  function ContestRecipe(kinds: seq<string>): seq<Stage>
  {
    PostProblemRecipe(FilledRecipe(kinds), kinds)
  }

  /**
   * With INITIAL requested, the status update and then the score update run right before
   * `after_initial_tests`, which stays at the end of the initial block; otherwise the recipe
   * is the problem's.
   */
  lemma ContestRecipeLayout(kinds: seq<string>)
    ensures INITIAL in kinds ==>
              && |FilledRecipe(kinds)| > 8 && FilledRecipe(kinds)[8] == Placeholder("after_initial_tests")
              && ContestRecipe(kinds)
                 == FilledRecipe(kinds)[..8] + [UPDATE_REPORT_STATUSES, UPDATE_SUBMISSION_SCORE] + FilledRecipe(kinds)[8..]
    ensures INITIAL !in kinds ==> ContestRecipe(kinds) == FilledRecipe(kinds)
  {
    if INITIAL in kinds {
      FilledRecipeLayout(kinds);
      RecipeLayout(kinds);
      var f := FilledRecipe(kinds);
      var body := RecipeBody(kinds);
      assert f[..9] == [COMPILE, Placeholder("after_compile")] + body[..7];
      assert FirstAt(f, "after_initial_tests", 8) by {
        assert f[8] == body[6];
        forall j | 0 <= j < 8
          ensures f[j].name != "after_initial_tests"
        {
          assert f[j] == f[..9][j];
        }
      }
      AddBeforeTwice(f, "after_initial_tests", UPDATE_REPORT_STATUSES, UPDATE_SUBMISSION_SCORE, 8);
    }
  }

  // ---------------------------------------------------------------------------
  // The evaluation environment

  class Environ {
    var reportKinds: seq<string>
    var recipe: seq<Stage>
    var errorHandlers: seq<Stage>
    var groupScorer: Option<string>
    var scoreAggregator: Option<string>
    var checker: Option<string>
    var sourceFile: Option<string>
    var language: Option<string>
    var compilationResultSizeLimit: Option<int>

    /** An environment holding the requested report kinds and whatever scorer choices the caller made. */
    constructor(reportKinds: seq<string>, groupScorer: Option<string>, scoreAggregator: Option<string>)
      ensures this.reportKinds == reportKinds && recipe == [] && errorHandlers == []
      ensures this.groupScorer == groupScorer && this.scoreAggregator == scoreAggregator
      ensures checker == None && sourceFile == None && language == None && compilationResultSizeLimit == None
    {
      this.reportKinds := reportKinds;
      recipe := [];
      errorHandlers := [];
      this.groupScorer := groupScorer;
      this.scoreAggregator := scoreAggregator;
      checker := None;
      sourceFile := None;
      language := None;
      compilationResultSizeLimit := None;
    }
  }

  /** `environ.setdefault(key, value)`. */
  function SetDefault(current: Option<string>, value: string): (r: Option<string>)
    ensures current.Some? ==> r == current
    ensures current.None? ==> r == Some(value)
  {
    if current.Some? then current else Some(value)
  }

  class ProgrammingProblemController {
    /** The problem's output-checker executable, `None` when its file field is empty. */
    const checkerExe: Option<string>

    constructor(checkerExe: Option<string>)
      ensures this.checkerExe == checkerExe
    {
      this.checkerExe := checkerExe;
    }

    method GenerateBaseEnviron(env: Environ)
      modifies env
      ensures env.recipe == BASE_RECIPE && env.errorHandlers == ERROR_HANDLERS
      ensures env.reportKinds == old(env.reportKinds) && env.groupScorer == old(env.groupScorer)
      ensures env.scoreAggregator == old(env.scoreAggregator) && env.checker == old(env.checker)
      ensures env.sourceFile == old(env.sourceFile) && env.language == old(env.language)
      ensures env.compilationResultSizeLimit == old(env.compilationResultSizeLimit)
    {
      env.recipe := [COMPILE, RecipePlaceholder("after_compile"), DELETE_EXECUTABLE];
      env.errorHandlers := [DELETE_EXECUTABLE];
    }

    /** The body is built block by block, in the order the report kinds are evaluated. */
    method GenerateRecipe(kinds: seq<string>) returns (body: seq<Stage>)
      ensures body == RecipeBody(kinds)
    {
      body := [COLLECT_TESTS];
      if INITIAL in kinds {
        body := body + INITIAL_BLOCK;
      }
      if NORMAL in kinds || HIDDEN in kinds {
        body := body + [RecipePlaceholder("before_final_tests")];
      }
      if NORMAL in kinds {
        body := body + NORMAL_BLOCK;
      }
      if HIDDEN in kinds {
        body := body + HIDDEN_BLOCK;
      }
    }

    /** Base recipe, the body after `after_compile`, scorer defaults that keep the caller's choice, and the checker when there is one. */
    method FillEvaluationEnviron(env: Environ)
      modifies env
      ensures env.recipe == FilledRecipe(old(env.reportKinds)) && env.errorHandlers == ERROR_HANDLERS
      ensures env.groupScorer == SetDefault(old(env.groupScorer), MIN_GROUP_SCORER)
      ensures env.scoreAggregator == SetDefault(old(env.scoreAggregator), SUM_SCORE_AGGREGATOR)
      ensures env.checker == (if checkerExe.Some? then checkerExe else old(env.checker))
      ensures env.reportKinds == old(env.reportKinds) && env.sourceFile == old(env.sourceFile)
      ensures env.language == old(env.language)
      ensures env.compilationResultSizeLimit == old(env.compilationResultSizeLimit)
    {
      GenerateBaseEnviron(env);
      var body := GenerateRecipe(env.reportKinds);
      env.recipe := ExtendAfterPlaceholder(env.recipe, "after_compile", body);
      env.groupScorer := SetDefault(env.groupScorer, MIN_GROUP_SCORER);
      env.scoreAggregator := SetDefault(env.scoreAggregator, SUM_SCORE_AGGREGATOR);
      if checkerExe.Some? {
        env.checker := checkerExe;
      }
    }
  }

  // ---------------------------------------------------------------------------
  // Submitted files

  const COMPILATION_RESULT_SIZE_LIMIT := 10 * 1024 * 1024
  const SUBMISSION_SIZE_LIMIT := 102400

  /** `os.path.splitext(name)[1][1:]`: the extension without its dot. */
  function Language(fileName: string): (r: string)
    ensures '.' !in r && '/' !in r
  {
    var ext := Extension(fileName);
    if ext == [] then [] else ext[1..]
  }

  /** A file called `<stem>.<ext>` is in language `ext`, provided the stem is a plain name that is not all dots. */
  lemma LanguageOf(stem: string, ext: string)
    requires '/' !in stem && exists i :: 0 <= i < |stem| && stem[i] != '.'
    requires '/' !in ext && '.' !in ext
    ensures Language(stem + "." + ext) == ext
  {
    var tail := ['.'] + ext;
    assert tail[1..] == ext;
    assert stem + "." + ext == stem + tail;
    ExtensionAfterStem(stem, tail);
  }

  /** The size validator: an error message for a file over the limit. */
  function ValidateFileSize(size: int): (err: Option<string>)
    ensures err.None? <==> size <= SUBMISSION_SIZE_LIMIT
  {
    if size > SUBMISSION_SIZE_LIMIT then Some("File size limit exceeded.") else None
  }

  /** The language validator: an error message unless the extension is one of the allowed ones. */
  function ValidateLanguage(fileName: string, allowed: seq<string>): (err: Option<string>)
    ensures err.None? <==> Language(fileName) in allowed
  {
    if Language(fileName) !in allowed then Some("Unknown or not supported file extension.") else None
  }

  /** A plainly named file is accepted exactly when its extension is allowed. */
  lemma ValidateLanguageOf(stem: string, ext: string, allowed: seq<string>)
    requires '/' !in stem && exists i :: 0 <= i < |stem| && stem[i] != '.'
    requires '/' !in ext && '.' !in ext
    ensures ValidateLanguage(stem + "." + ext, allowed).None? <==> ext in allowed
  {
    LanguageOf(stem, ext);
  }

  class ProgrammingContestController {
    constructor()
    {
    }

    /** Source file, language and size limit first, then the problem's entries, then the contest's hooks. */
    method FillEvaluationEnviron(env: Environ, sourceFileName: string, problem: ProgrammingProblemController)
      modifies env
      ensures env.sourceFile == Some(sourceFileName) && env.language == Some(Language(sourceFileName))
      ensures env.compilationResultSizeLimit == Some(COMPILATION_RESULT_SIZE_LIMIT)
      ensures env.recipe == ContestRecipe(old(env.reportKinds)) && env.errorHandlers == ERROR_HANDLERS
      ensures env.groupScorer == SetDefault(old(env.groupScorer), MIN_GROUP_SCORER)
      ensures env.scoreAggregator == SetDefault(old(env.scoreAggregator), SUM_SCORE_AGGREGATOR)
      ensures env.checker == (if problem.checkerExe.Some? then problem.checkerExe else old(env.checker))
      ensures env.reportKinds == old(env.reportKinds)
    {
      env.sourceFile := Some(sourceFileName);
      env.language := Some(Language(sourceFileName));
      env.compilationResultSizeLimit := Some(COMPILATION_RESULT_SIZE_LIMIT);
      problem.FillEvaluationEnviron(env);
      FillEvaluationEnvironPostProblem(env);
    }

    method FillEvaluationEnvironPostProblem(env: Environ)
      modifies env
      ensures env.recipe == PostProblemRecipe(old(env.recipe), old(env.reportKinds))
      ensures env.reportKinds == old(env.reportKinds) && env.errorHandlers == old(env.errorHandlers)
      ensures env.groupScorer == old(env.groupScorer) && env.scoreAggregator == old(env.scoreAggregator)
      ensures env.checker == old(env.checker) && env.sourceFile == old(env.sourceFile)
      ensures env.language == old(env.language)
      ensures env.compilationResultSizeLimit == old(env.compilationResultSizeLimit)
    {
      if INITIAL in env.reportKinds {
        env.recipe := AddBeforePlaceholder(env.recipe, "after_initial_tests", UPDATE_REPORT_STATUSES);
        env.recipe := AddBeforePlaceholder(env.recipe, "after_initial_tests", UPDATE_SUBMISSION_SCORE);
      }
    }

    /** Status from the ACTIVE INITIAL report (or its fallbacks), then score from the ACTIVE NORMAL one. */
    method UpdateSubmissionScore(submission: Submission, reports: seq<SubmissionReport>, scoreReports: seq<ScoreReport>)
      returns (err: Option<LookupError>)
      modifies submission
      ensures StatusAfter(reports, scoreReports).Err? ==>
                && err == Some(StatusAfter(reports, scoreReports).error)
                && submission.status == old(submission.status) && submission.score == old(submission.score)
      ensures StatusAfter(reports, scoreReports).Ok? ==>
                && submission.status == StatusAfter(reports, scoreReports).value
                && (ScoreAfter(reports, scoreReports).Err? ==>
                      err == Some(ScoreAfter(reports, scoreReports).error) && submission.score == old(submission.score))
                && (ScoreAfter(reports, scoreReports).Ok? ==>
                      err == None && submission.score == ScoreAfter(reports, scoreReports).value)
    {
      match Single(ActiveOf(reports, [INITIAL])) {
        case Found(report) =>
          match Single(ScoreReportsFor(scoreReports, report.id)) {
            case Found(scoreReport) =>
              submission.status := MapReportToSubmissionStatus(scoreReport.status);
            case Missing =>
              return Some(DoesNotExist);
            case Several =>
              return Some(MultipleObjectsReturned);
          }
        case Missing =>
          if ActiveOf(reports, [FAILURE]) != [] {
            submission.status := "SE";
          } else {
            submission.status := "?";
          }
        case Several =>
          return Some(MultipleObjectsReturned);
      }

      match Single(ActiveOf(reports, [NORMAL])) {
        case Found(report) =>
          match Single(ScoreReportsFor(scoreReports, report.id)) {
            case Found(scoreReport) =>
              submission.score := scoreReport.score;
            case Missing =>
              return Some(DoesNotExist);
            case Several =>
              return Some(MultipleObjectsReturned);
          }
        case Missing =>
          submission.score := None;
        case Several =>
          return Some(MultipleObjectsReturned);
      }
      return None;
    }
  }

  // ---------------------------------------------------------------------------
  // Reports, status and score

  /** A submission report of the submission at hand. */
  datatype SubmissionReport = SubmissionReport(id: nat, kind: string, status: string)

  /** The score report attached to a submission report. */
  datatype ScoreReport = ScoreReport(submissionReport: nat, status: string, score: Option<int>)

  /** Why a `.get()` on a query raised. */
  datatype LookupError = DoesNotExist | MultipleObjectsReturned

  /** The outcome of `.get()`: the one row, none, or several. */
  datatype Lookup<T> = Found(row: T) | Missing | Several

  function Single<T>(rows: seq<T>): (r: Lookup<T>)
    ensures r.Found? <==> |rows| == 1
    ensures r.Found? ==> r.row == rows[0]
    ensures r.Missing? <==> rows == []
  {
    if rows == [] then Missing else if |rows| == 1 then Found(rows[0]) else Several
  }

  predicate IsActiveOf(report: SubmissionReport, kinds: seq<string>)
  {
    report.status == ACTIVE && report.kind in kinds
  }

  /** `filter(status='ACTIVE', kind__in=kinds)`, in the query's order. */
  function ActiveOf(reports: seq<SubmissionReport>, kinds: seq<string>): (r: seq<SubmissionReport>)
    ensures |r| <= |reports|
    ensures forall x :: x in r <==> x in reports && IsActiveOf(x, kinds)
    ensures r == [] <==> forall x :: x in reports ==> !IsActiveOf(x, kinds)
  {
    if reports == [] then []
    else (if IsActiveOf(reports[0], kinds) then [reports[0]] else []) + ActiveOf(reports[1..], kinds)
  }

  /** `ScoreReport.objects.filter(submission_report=report)`. */
  function ScoreReportsFor(scoreReports: seq<ScoreReport>, id: nat): (r: seq<ScoreReport>)
    ensures |r| <= |scoreReports|
    ensures forall x :: x in r <==> x in scoreReports && x.submissionReport == id
    ensures r == [] <==> forall x :: x in scoreReports ==> x.submissionReport != id
  {
    if scoreReports == [] then []
    else (if scoreReports[0].submissionReport == id then [scoreReports[0]] else [])
         + ScoreReportsFor(scoreReports[1..], id)
  }

  /** The submission status shown for a report status. */
  function MapReportToSubmissionStatus(status: string): (r: string)
    ensures r in {"INI_OK", "CE", "SE", "INI_ERR"}
    ensures r == "INI_OK" <==> status == "OK"
    ensures r == "INI_ERR" <==> status !in {"OK", "CE", "SE"}
    ensures status == "CE" || status == "SE" ==> r == status
  {
    if status == "OK" then "INI_OK"
    else if status == "CE" then "CE"
    else if status == "SE" then "SE"
    else "INI_ERR"
  }

  /** The status `update_submission_score` assigns, or the lookup that raises. */
  function StatusAfter(reports: seq<SubmissionReport>, scoreReports: seq<ScoreReport>): Result<string, LookupError>
  {
    match Single(ActiveOf(reports, [INITIAL]))
    case Found(report) =>
      (match Single(ScoreReportsFor(scoreReports, report.id))
       case Found(scoreReport) => Ok(MapReportToSubmissionStatus(scoreReport.status))
       case Missing => Err(DoesNotExist)
       case Several => Err(MultipleObjectsReturned))
    case Missing => if ActiveOf(reports, [FAILURE]) != [] then Ok("SE") else Ok("?")
    case Several => Err(MultipleObjectsReturned)
  }

  /** The score `update_submission_score` assigns, or the lookup that raises. */
  function ScoreAfter(reports: seq<SubmissionReport>, scoreReports: seq<ScoreReport>): Result<Option<int>, LookupError>
  {
    match Single(ActiveOf(reports, [NORMAL]))
    case Found(report) =>
      (match Single(ScoreReportsFor(scoreReports, report.id))
       case Found(scoreReport) => Ok(scoreReport.score)
       case Missing => Err(DoesNotExist)
       case Several => Err(MultipleObjectsReturned))
    case Missing => Ok(None)
    case Several => Err(MultipleObjectsReturned)
  }

  class Submission {
    var status: string
    var score: Option<int>

    constructor(status: string, score: Option<int>)
      ensures this.status == status && this.score == score
    {
      this.status := status;
      this.score := score;
    }
  }

  /** The only report of a query is the one row that satisfies it. */
  lemma {:induction false} ActiveOfSingle(reports: seq<SubmissionReport>, kinds: seq<string>, i: nat)
    requires i < |reports| && IsActiveOf(reports[i], kinds)
    requires forall j :: 0 <= j < |reports| && j != i ==> !IsActiveOf(reports[j], kinds)
    ensures ActiveOf(reports, kinds) == [reports[i]]
  {
    var rest := ActiveOf(reports[1..], kinds);
    if i == 0 {
      assert forall x :: x in reports[1..] ==> !IsActiveOf(x, kinds) by {
        forall x | x in reports[1..]
          ensures !IsActiveOf(x, kinds)
        {
          var k :| 0 <= k < |reports[1..]| && reports[1..][k] == x;
          assert reports[k + 1] == x;
        }
      }
    } else {
      ActiveOfSingle(reports[1..], kinds, i - 1);
    }
  }

  lemma {:induction false} ScoreReportsForSingle(scoreReports: seq<ScoreReport>, id: nat, i: nat)
    requires i < |scoreReports| && scoreReports[i].submissionReport == id
    requires forall j :: 0 <= j < |scoreReports| && j != i ==> scoreReports[j].submissionReport != id
    ensures ScoreReportsFor(scoreReports, id) == [scoreReports[i]]
  {
    var rest := ScoreReportsFor(scoreReports[1..], id);
    if i == 0 {
      assert forall x :: x in scoreReports[1..] ==> x.submissionReport != id by {
        forall x | x in scoreReports[1..]
          ensures x.submissionReport != id
        {
          var k :| 0 <= k < |scoreReports[1..]| && scoreReports[1..][k] == x;
          assert scoreReports[k + 1] == x;
        }
      }
    } else {
      ScoreReportsForSingle(scoreReports[1..], id, i - 1);
    }
  }

  /** Exactly one ACTIVE report of `kind`, at `i`, with exactly one score report, at `k`. */
  predicate UniqueScored(reports: seq<SubmissionReport>, scoreReports: seq<ScoreReport>, kind: string, i: nat, k: nat)
  {
    && i < |reports| && IsActiveOf(reports[i], [kind])
    && (forall j :: 0 <= j < |reports| && j != i ==> !IsActiveOf(reports[j], [kind]))
    && k < |scoreReports| && scoreReports[k].submissionReport == reports[i].id
    && (forall j :: 0 <= j < |scoreReports| && j != k ==> scoreReports[j].submissionReport != reports[i].id)
  }

  /**
   * The status follows the one ACTIVE INITIAL report's score report; with no ACTIVE INITIAL
   * report it is SE when an ACTIVE FAILURE report exists and `?` otherwise.
   */
  lemma StatusRules(reports: seq<SubmissionReport>, scoreReports: seq<ScoreReport>)
    ensures forall i: nat, k: nat :: UniqueScored(reports, scoreReports, INITIAL, i, k) ==>
              StatusAfter(reports, scoreReports) == Ok(MapReportToSubmissionStatus(scoreReports[k].status))
    ensures (forall x :: x in reports ==> !IsActiveOf(x, [INITIAL])) ==>
              StatusAfter(reports, scoreReports)
              == Ok(if exists x :: x in reports && IsActiveOf(x, [FAILURE]) then "SE" else "?")
  {
    forall i: nat, k: nat | UniqueScored(reports, scoreReports, INITIAL, i, k)
      ensures StatusAfter(reports, scoreReports) == Ok(MapReportToSubmissionStatus(scoreReports[k].status))
    {
      ActiveOfSingle(reports, [INITIAL], i);
      ScoreReportsForSingle(scoreReports, reports[i].id, k);
    }
    if forall x :: x in reports ==> !IsActiveOf(x, [INITIAL]) {
      if exists x :: x in reports && IsActiveOf(x, [FAILURE]) {
        var x :| x in reports && IsActiveOf(x, [FAILURE]);
        assert x in ActiveOf(reports, [FAILURE]);
      }
    }
  }

  /** The score is the one ACTIVE NORMAL report's score, and `None` when there is no ACTIVE NORMAL report. */
  lemma ScoreRules(reports: seq<SubmissionReport>, scoreReports: seq<ScoreReport>)
    ensures forall i: nat, k: nat :: UniqueScored(reports, scoreReports, NORMAL, i, k) ==>
              ScoreAfter(reports, scoreReports) == Ok(scoreReports[k].score)
    ensures (forall x :: x in reports ==> !IsActiveOf(x, [NORMAL])) ==> ScoreAfter(reports, scoreReports) == Ok(None)
  {
    forall i: nat, k: nat | UniqueScored(reports, scoreReports, NORMAL, i, k)
      ensures ScoreAfter(reports, scoreReports) == Ok(scoreReports[k].score)
    {
      ActiveOfSingle(reports, [NORMAL], i);
      ScoreReportsForSingle(scoreReports, reports[i].id, k);
    }
  }

  // ---------------------------------------------------------------------------
  // Visibility

  function VisibleReportsKinds(resultsVisible: bool): (r: seq<string>)
    ensures INITIAL in r && HIDDEN !in r && FAILURE !in r
    ensures NORMAL in r <==> resultsVisible
  {
    if resultsVisible then [INITIAL, NORMAL] else [INITIAL]
  }

  /** Admins see the whole query; everyone else its ACTIVE reports of the visible kinds. */
  function FilterVisibleReports(isAdmin: bool, resultsVisible: bool, reports: seq<SubmissionReport>): (r: seq<SubmissionReport>)
    ensures isAdmin ==> r == reports
    ensures forall x :: x in r <==>
              x in reports && (isAdmin || (x.status == ACTIVE
                                           && (x.kind == INITIAL || (resultsVisible && x.kind == NORMAL))))
  {
    if isAdmin then reports else ActiveOf(reports, VisibleReportsKinds(resultsVisible))
  }
}
