# Sinol packages and programming-contest controllers, modelled in Dafny

This project models two parts of the OIOIOI contest system.

**Sinol problem packages** (`oioioi/sinolpack/package.py`).
- Identifying an uploaded archive: it must hold exactly one slug-named top-level folder with entries under both `in/` and `out/`.
- Ingesting the package into a problem, stage by stage:
  - the tests of `in/`: name parsing, EXAMPLE/NORMAL classification, limits, order, deletion of stale tests and distribution of the total score over the scored groups;
  - the output checker;
  - the extra compilation files;
  - the model solutions;
  - the stored original package.
- Refusing a re-upload that would change a problem's short name.
- Exporting a problem back as an archive.

**Programming problem and contest controllers** (`oioioi/programs/controllers.py`).
- The evaluation recipe built for the requested report kinds, with its named placeholders.
- The entries the controllers fill into the evaluation environment, including the hooks inserted before `after_initial_tests`.
- The checks on a submitted file: size, and language from the extension.
- How a submission's status and score follow its reports.
- Which reports a viewer may see.

## Layout

- `wrappers.dfy`: `Option`, `Result` and `dict.get`.
- `text.dfy`: the parts of Python's string library the rules rely on.
  - character classes;
  - `str.split`, `str.join`, `str.endswith` and substring tests;
  - `rfind` and `os.path.splitext` (POSIX).
- `sinol_names.dfy`: the naming rules as functions of file names.
  - the problem root;
  - the test-file pattern;
  - the model-solution pattern;
  - the checker file names.
- `sinol_scoring.dfy`: natural-order sorting by a given comparator, and the split of the total score over the scored groups.
- `sinol_package.dfy`: ingestion.
  - `Problem` holds the rows a problem owns and the stage methods that update them.
  - `SinolPackage` holds the archive's file list, `FindMainFolder`, `Identify` and `Unpack`.
  - The specification functions `ProcessedTests`, `ScanAll` and `IngestResult` say what those methods compute.
- `sinol_creator.dfy`: `SinolPackageCreator`, which writes the names of the archive members.
- `evalmgr.dfy`: recipe stages and placeholders, and the insertion helpers the controllers call.
- `programs_controllers.dfy`: the controllers, the evaluation environment (`Environ`) and the report rules.

How the inputs are represented:
- The natural-order key is a comparator `before` given by the caller.
- Database rows are maps and sequences of values.
- Directory listings are sequences of names, with a flag for regular files.

## Model

| member | source | states |
|---|---|---|
| SinolNames.MatchTestName | oioioi/sinolpack/package.py:207-226 | A file matches only as `<short><name>.in`. The name is a non-empty digit run followed by a lower-case alphanumeric suffix that does not start with a digit. The basename is `<short><name>`. |
| SinolNames.MatchTestNameComplete | oioioi/sinolpack/package.py:207-226 | Every file of that shape is recognised. Its digit run becomes the group and the rest becomes the suffix. |
| SinolNames.MatchTestNameInjective | oioioi/sinolpack/package.py:207-226 | Two matched files carrying the same test name are the same file. |
| SinolNames.AsWrittenAcceptsAnyCharBeforeIn | oioioi/sinolpack/package.py:207-208 | The pattern as written accepts `abc1xin`, which does not end in `.in`. It gives that file the same test as `abc1.in`. |
| SinolNames.NormalGroupShape | oioioi/sinolpack/package.py:234-241 | A NORMAL test's group is a non-empty digit string other than `0`. |
| SinolNames.ExampleGroupIsNeverScored | oioioi/sinolpack/package.py:234-241 | An EXAMPLE test's group (its whole name) is never the group of a NORMAL test, so examples never share a scored group. |
| SinolNames.FirstPrefix | oioioi/sinolpack/package.py:321-322 | Returns the first alternative of the extension list that the text starts with, or none when no alternative is a prefix. |
| SinolNames.MatchSolutionRest | oioioi/sinolpack/package.py:321-322 | A match carries a marker that is empty, `b` or `s`, and one of the listed extensions. |
| SinolNames.AfterMarkerSound | oioioi/sinolpack/package.py:321-322 | After the marker, a match is a digit run, a dot and the extension. The text before the marker is the leading part. |
| SinolNames.MatchSolutionRestSound | oioioi/sinolpack/package.py:321-322 | A match consists of two digit runs around the marker, then a dot and the extension, all at the start of the text. |
| SinolNames.MatchSolutionName | oioioi/sinolpack/package.py:321-329 | A matched name carries a marker that is empty, `b` or `s`, and one of the source extensions. |
| SinolNames.MatchSolutionNameSound | oioioi/sinolpack/package.py:321-329 | A model-solution name starts with `<short><digits><marker><digits>.<ext>`. Anything may follow, since the pattern is anchored only at the start. |
| SinolNames.MatchSolutionRestNoMarker | oioioi/sinolpack/package.py:321-322 | Digits directly followed by a dot and an extension match with an empty marker. |
| SinolNames.LeadBeforeMarker | oioioi/sinolpack/package.py:321-322 | The first digit run stops right at a `b` or `s` marker. |
| SinolNames.TrailBeforeDot | oioioi/sinolpack/package.py:321-322 | The second digit run stops right at the dot before the extension. |
| SinolNames.MatchSolutionRestMarker | oioioi/sinolpack/package.py:321-322 | A `b` or `s` between two digit runs is taken as the marker. |
| SinolNames.MatchSolutionNameComplete | oioioi/sinolpack/package.py:321-335 | Every name of the documented shape is a model solution, classified by the marker it was written with. |
| SinolScoring.Insert | oioioi/sinolpack/package.py:214-215 | Inserting one element yields a permutation of the sequence plus that element. |
| SinolScoring.InsertionPoint | oioioi/sinolpack/package.py:214-215 | The insertion point is past exactly the leading elements that come strictly before the new one. |
| SinolScoring.InsertSplices | oioioi/sinolpack/package.py:214-215 | The new element lands at its insertion point. The elements ahead of it stay in place and the rest move up one. |
| SinolScoring.InsertKeepsOrder | oioioi/sinolpack/package.py:214-215 | Inserting keeps the relative order of the elements already there. |
| SinolScoring.InsertAheadOfTies | oioioi/sinolpack/package.py:214-215 | The inserted element goes ahead of every element that does not come strictly before it. |
| SinolScoring.NaturalSorted | oioioi/sinolpack/package.py:214-215 | Sorting yields a permutation of its input. |
| SinolScoring.NaturalSortedStable | oioioi/sinolpack/package.py:214-215 | The sort is stable, as Python's `sorted` is: of two elements that tie, the one earlier in the input is earlier in the result. |
| SinolScoring.InsertSorted | oioioi/sinolpack/package.py:214-215 | Insertion keeps a sequence sorted under a strict weak order, the order that comparing sort keys gives. |
| SinolScoring.NaturalSortedIsSorted | oioioi/sinolpack/package.py:214-215 | The sorted listing has no inversion under a strict weak order. |
| SinolScoring.NaturalSortedDistinct | oioioi/sinolpack/package.py:265 | Sorting keeps a repetition-free sequence repetition-free. |
| SinolScoring.InsertDistinct | oioioi/sinolpack/package.py:265 | Inserting a new element keeps a sequence repetition-free. |
| SinolScoring.SortedUnique | oioioi/sinolpack/package.py:265 | Two sorted sequences holding the same elements, none repeated and no two tied, are equal. |
| SinolScoring.SortedHeads | oioioi/sinolpack/package.py:265 | Sorted sequences with the same elements, no two tied, start with the same element. |
| SinolScoring.SameTails | oioioi/sinolpack/package.py:265 | Equal multisets with the same first element have equal tails. |
| SinolScoring.NaturalSortedOrderFree | oioioi/sinolpack/package.py:265 | Sorting distinct elements that the order separates gives the same result in whatever order they arrive. |
| SinolScoring.SameElements | oioioi/sinolpack/package.py:214-215 | A permutation has the same elements. |
| SinolScoring.ExtraCount | oioioi/sinolpack/package.py:263-266 | The number of groups that get an extra point is below the group count. The base scores plus the extras make up the total exactly. |
| SinolScoring.InSuffix | oioioi/sinolpack/package.py:265-269 | Membership in the tail of the sorted groups means sitting at a position inside that tail. |
| SinolScoring.GroupScoreAt | oioioi/sinolpack/package.py:264-270 | The group at position `k` of the natural order gets the base score, plus one exactly when `k` is among the last `ExtraCount` positions. |
| SinolScoring.SumScoresSuffix | oioioi/sinolpack/package.py:264-270 | The scores of the groups from position `k` onwards add up to the matching share of the total. |
| SinolScoring.ScoresSumToTotal | oioioi/sinolpack/package.py:260-272 | The group scores add up to the problem's total score. |
| SinolScoring.ScoreBounds | oioioi/sinolpack/package.py:264-270 | Every group scores `total/n` or `total/n + 1`. It scores the higher value exactly when its position is `>= n - total % n`. |
| SinolPackage.GroupsSeen | oioioi/sinolpack/package.py:234-241 | The scored groups are repetition-free. They are exactly the groups of matched NORMAL tests. |
| SinolPackage.FirstUnrecognized | oioioi/sinolpack/package.py:216-219 | Gives the position of the first file that ends in `.in` without matching the pattern. |
| SinolPackage.ScanStops | oioioi/sinolpack/package.py:214-220 | Once a file has been rejected, the rest of the listing changes nothing. |
| SinolPackage.ScanError | oioioi/sinolpack/package.py:216-219 | The scan fails exactly when a file is rejected, and the error names the first rejected file. |
| SinolPackage.FirstUnrecognizedSnoc | oioioi/sinolpack/package.py:216-219 | With one more file, the first rejected position is unchanged if one was found before. Otherwise it is the new file's position if that file is rejected. |
| SinolPackage.ScanRows | oioioi/sinolpack/package.py:228-252 | During the scan the rows are the existing ones plus the names seen. Rows not seen stay untouched. |
| SinolPackage.ScanNames | oioioi/sinolpack/package.py:214-252 | A scan without error has recorded the name of every matched file and the group of every NORMAL one. |
| SinolPackage.ScanSeen | oioioi/sinolpack/package.py:228-252 | A scan without error has recorded exactly the names of the matched files. |
| SinolPackage.ScanScored | oioioi/sinolpack/package.py:234-241 | A scan without error has collected exactly the groups of the NORMAL tests, in the order first met. |
| SinolPackage.MatchedNamesSnoc | oioioi/sinolpack/package.py:228-252 | One more file adds its test name to the names matched, if it matches. |
| SinolPackage.FirstRowOfName | oioioi/sinolpack/package.py:228-229 | Before the first file of a test is scanned, the test's row is the one that existed before ingestion. |
| SinolPackage.EntryKeepsOtherRow | oioioi/sinolpack/package.py:228-251 | Scanning a file of another test leaves a row as it was. |
| SinolPackage.ScanRecord | oioioi/sinolpack/package.py:228-251 | After the scan, a matched file's row is the existing row (or a new one) updated from that file and its position. |
| SinolPackage.SortedListingFacts | oioioi/sinolpack/package.py:214-215 | Sorting the listing keeps its files, its test names and its freedom from repetition. |
| SinolPackage.ProcessedTestsFails | oioioi/sinolpack/package.py:202-220 | Test ingestion fails if and only if `in/` holds a rejected file. The error names the first rejected file in natural order. |
| SinolPackage.ProcessedTestsNames | oioioi/sinolpack/package.py:252-258 | After ingestion, the problem's tests are exactly those named by matched files. New names are created and all others are deleted. |
| SinolPackage.ScanKeepsNames | oioioi/sinolpack/package.py:228-251 | If every starting row is stored under its own name, so is every row after the scan. |
| SinolPackage.ProcessedTestsKeepNames | oioioi/sinolpack/package.py:228-258 | Ingestion keeps every row stored under its own name, so the name export writes is the row's key. |
| SinolPackage.ScoredGroupsOrderFree | oioioi/sinolpack/package.py:241-265 | Whatever order the set of scored groups iterates in, sorting it gives `ScoredGroups`, provided the order separates every two scored groups. |
| SinolPackage.FinalRow | oioioi/sinolpack/package.py:228-272 | A matched test's final row is its scanned row after score assignment. |
| SinolPackage.ProcessedTestRow | oioioi/sinolpack/package.py:222-251 | A matched test's row records:<br>• the kind (EXAMPLE iff group `0` or suffix containing `ocen`);<br>• the group (the whole name for examples);<br>• `order` equal to its position in the sorted listing;<br>• files `<basename>.in`/`.out`.<br>An existing row keeps its limits. A new row takes `time_limits[name]` or 10000, and memory from the global `memory_limit`, else `memory_limits[name]`, else 66000. |
| SinolPackage.OrdersFollowSortedListing | oioioi/sinolpack/package.py:214-250 | Orders strictly increase along the natural order of the files, with gaps where files were skipped. |
| SinolPackage.RowSource | oioioi/sinolpack/package.py:254-258 | Every remaining row comes from a matched file of the listing. |
| SinolPackage.RowScore | oioioi/sinolpack/package.py:260-272 | With no scored group, a remaining row keeps its previous score, and a new row has none. Otherwise a NORMAL row gets its group's share and any other row gets 0. |
| SinolPackage.ExampleNotScored | oioioi/sinolpack/package.py:234-241 | An EXAMPLE test's name is never among the scored groups. |
| SinolPackage.ProcessedTestsScores | oioioi/sinolpack/package.py:260-272 | Without a NORMAL test, every row keeps its previous score. Otherwise NORMAL tests get their group's share, EXAMPLE tests get 0, and the shares sum to the total. |
| SinolPackage.RowStable | oioioi/sinolpack/package.py:228-272 | Re-saving a scanned and scored row from the same file gives the same row. |
| SinolPackage.RowIdempotent | oioioi/sinolpack/package.py:228-272 | Ingesting the same listing again leaves each row as it is. |
| SinolPackage.ProcessedTestsIdempotent | oioioi/sinolpack/package.py:202-272 | Ingesting the same package twice gives the same tests as ingesting it once. |
| SinolPackage.ExtraScoreGroupsFrom | oioioi/sinolpack/package.py:263-266 | The number of groups that get an extra point is between 0 and the group count, and it is `ExtraCount`. |
| SinolPackage.ScoreStep | oioioi/sinolpack/package.py:267-272 | Giving the next group its score, base or base plus one by its position, extends the scored state by that group. |
| SinolPackage.ScoreOneGroup | oioioi/sinolpack/package.py:267-272 | Scoring one more group changes exactly that group's rows. |
| SinolPackage.ResetScores | oioioi/sinolpack/package.py:262 | The reset to 0 is the state in which no group has been scored yet. |
| SinolPackage.AllGroupsScored | oioioi/sinolpack/package.py:260-272 | Once all scored groups are done, the rows are those of the score specification. |
| SinolPackage.LastFileIn | oioioi/sinolpack/package.py:292-298 | The chosen executable is a candidate that exists, and no later candidate exists. With no candidate present there is no checker. |
| SinolPackage.CheckerChoice | oioioi/sinolpack/package.py:292-306 | The checker is `<short>chk.sh` if present, else `<short>chk.e` if present, else none. |
| SinolPackage.FirstMissing | oioioi/sinolpack/package.py:308-314 | Gives the position of the first listed extra file missing from `prog/`. |
| SinolPackage.ModelSolutionsOf | oioioi/sinolpack/package.py:318-337 | A model solution exists exactly for each regular file of `prog/` matching the pattern. Its kind comes from the marker: empty NORMAL, `s` SLOW, `b` INCORRECT. |
| SinolPackage.ModelSolutionsSnoc | oioioi/sinolpack/package.py:318-337 | One more entry of `prog/` adds a model solution exactly when it is a regular file matching the pattern. |
| SinolPackage.BaseName | oioioi/sinolpack/package.py:342 | The stored package name is the last path component of the uploaded file name. |
| SinolPackage.AfterLast | oioioi/sinolpack/package.py:342 | The text after the last `/` holds no `/` and ends the path. |
| SinolPackage.Problem.constructor | oioioi/sinolpack/package.py:357-360 | A new problem is named after its short name and owns no rows yet. |
| SinolPackage.Problem.ProcessTests | oioioi/sinolpack/package.py:202-272 | On success the tests become `ProcessedTests`. On error they keep what the scan wrote before the rejected file, and only the tests change. |
| SinolPackage.Problem.ScanListing | oioioi/sinolpack/package.py:213-252 | The scan loop's rows, names, scored groups and error are those of `ScanAll`. |
| SinolPackage.Problem.DeleteStaleTests | oioioi/sinolpack/package.py:254-258 | Deletes exactly the rows whose names were not seen. |
| SinolPackage.Problem.AssignGroupScores | oioioi/sinolpack/package.py:260-272 | After the reset and the per-group loop, the rows are `AssignScores` of the pruned rows. |
| SinolPackage.Problem.ProcessCheckers | oioioi/sinolpack/package.py:274-306 | A build happens exactly when some checker source exists. The checker is then the last executable found, or none. |
| SinolPackage.Problem.ProcessExtraFiles | oioioi/sinolpack/package.py:308-316 | The old rows are dropped and the listed files are added in order. The first missing file raises and keeps the rows added before it. |
| SinolPackage.Problem.ProcessModelSolutions | oioioi/sinolpack/package.py:318-337 | The model solutions are replaced by `ModelSolutionsOf(prog)`. |
| SinolPackage.Problem.Ingest | oioioi/sinolpack/package.py:368-381 | Tests, checker, extra files, model solutions and the original package are processed in order. The first error stops it, leaving the rows written so far. |
| SinolPackage.AnyEntryUnder | oioioi/sinolpack/package.py:81-84 | Says whether some entry lies under `<folder>/<sub>`. |
| SinolPackage.HasRequiredSubfolders | oioioi/sinolpack/package.py:80-86 | True exactly when both `in` and `out` have an entry under the folder. |
| SinolPackage.FoldersAmongStep | oioioi/sinolpack/package.py:80-86 | Examining one more candidate adds it exactly when it has both subfolders. |
| SinolPackage.FoldersAmongCandidates | oioioi/sinolpack/package.py:77-86 | Examining every slug-named top-level folder yields the problem folders. |
| SinolPackage.OnlyFolder | oioioi/sinolpack/package.py:87-88 | Answering the single collected folder, and nothing otherwise, is `IsMainFolder`. |
| SinolPackage.SinolPackage.constructor | oioioi/sinolpack/package.py:55-65 | The short name is the main folder as `_find_main_folder` determines it. |
| SinolPackage.SinolPackage.FindMainFolder | oioioi/sinolpack/package.py:67-88 | Returns a folder exactly when there is one problem folder, and then it is that folder. |
| SinolPackage.SinolPackage.Identify | oioioi/sinolpack/package.py:90-91 | The archive is identified exactly when it has a single problem folder. |
| SinolPackage.SinolPackage.Unpack | oioioi/sinolpack/package.py:345-383 | A re-upload under another short name is refused with both names, and nothing is written. Otherwise the existing problem, or a fresh one named after the folder, is ingested as `IngestResult` says. |
| SinolCreator.StatementMembers | oioioi/sinolpack/package.py:406-416 | Gives one member per PDF statement: `doc/<short>zad-<lang>.pdf`, or `doc/<short>zad.pdf` without a language. Other files are skipped. |
| SinolCreator.TestMembersStep | oioioi/sinolpack/package.py:418-424 | Packing one more test adds its input and its output member. |
| SinolCreator.SolutionMembers | oioioi/sinolpack/package.py:426-429 | Gives one member `prog/<name>` per model solution, in order. |
| SinolCreator.SinolPackageCreator.constructor | oioioi/sinolpack/package.py:387-390 | The creator takes the problem's short name and starts with no members. |
| SinolCreator.SinolPackageCreator.PackStatement | oioioi/sinolpack/package.py:406-416 | Appends exactly `StatementMembers`. |
| SinolCreator.SinolPackageCreator.PackTests | oioioi/sinolpack/package.py:418-424 | Keeps the members already written and adds exactly the `in/` and `out/` members of every test. |
| SinolCreator.SinolPackageCreator.PackModelSolutions | oioioi/sinolpack/package.py:426-429 | Appends exactly `SolutionMembers`. |
| SinolCreator.SinolPackageCreator.Pack | oioioi/sinolpack/package.py:431-450 | Returns the stored original when there is one. Otherwise it builds `<short>.zip` with statements first, then the tests, then the model solutions. |
| SinolCreator.JoinedTopLevel | oioioi/sinolpack/package.py:411-429 | A member `<short>/<sub>/<file>` has the problem folder as its top level. |
| SinolCreator.StatementsUnderRoot | oioioi/sinolpack/package.py:406-416 | Every statement member lies under the problem folder. |
| SinolCreator.TestsUnderRoot | oioioi/sinolpack/package.py:418-424 | Every test member lies under the problem folder. |
| SinolCreator.SolutionsUnderRoot | oioioi/sinolpack/package.py:426-429 | Every model-solution member lies under the problem folder. |
| SinolCreator.JoinedFirstTwo | oioioi/sinolpack/package.py:418-424 | A member `<short>/<sub>/<file>` is an entry under `<short>/<sub>`. |
| SinolCreator.NewArchiveRoot | oioioi/sinolpack/package.py:418-448 | A new archive of a problem with at least one test has exactly one problem folder, the short name, so identification accepts it. |
| SinolCreator.ExportedTestReparses | oioioi/sinolpack/package.py:418-424 | The input member written for a test names the file it came from, and that file parses back to the same test. |
| Text.SplitJoin | oioioi/sinolpack/package.py:77 | Splitting a joined path whose parts contain no `/` gives back the parts. |
| Text.SplitJoinHead | oioioi/sinolpack/package.py:77 | The first component of a joined path is its first part. |
| Text.Extension | oioioi/programs/controllers.py:146 | The extension is empty, or it starts with the last dot of the base name and ends the path. |
| Evalmgr.FindEntry | oioioi/programs/controllers.py:22-23 | Finds the first entry carrying the name, or reports that none does. |
| Evalmgr.FindEntryFirstAt | oioioi/programs/controllers.py:22-23 | The lookup finds the first entry of that name. |
| Evalmgr.ExtendAfterAt | oioioi/programs/controllers.py:123 | The new stages go right after the placeholder, and everything else keeps its order. |
| Evalmgr.AddBeforeAt | oioioi/programs/controllers.py:163-169 | Adding before a placeholder at position `i` puts the entry at `i` and shifts the rest. |
| Evalmgr.AddBeforeShifts | oioioi/programs/controllers.py:163-169 | After one insertion the placeholder is found one position later. |
| Evalmgr.AddBeforeTwice | oioioi/programs/controllers.py:163-169 | Two insertions before the same placeholder land right before it, in the order they were made. |
| Evalmgr.MissingPlaceholder | oioioi/programs/controllers.py:22-23 | Without an entry of that name, neither helper changes the recipe. |
| ProgramsControllers.RecipeLayout | oioioi/programs/controllers.py:53-116 | The recipe body is laid out as:<br>1. `collect_tests`;<br>2. the six-stage INITIAL block (EXAMPLE kinds, INITIAL report, `after_initial_tests`), iff INITIAL is requested;<br>3. `before_final_tests`, iff NORMAL or HIDDEN is requested;<br>4. the NORMAL block ending in `after_final_tests`;<br>5. the HIDDEN block (grade kind `None`, HIDDEN report, `after_all_tests`), always last.<br>The length is the sum of the blocks present. |
| ProgramsControllers.RecipeMembers | oioioi/programs/controllers.py:53-116 | A stage is in the body exactly when it is `collect_tests` or belongs to a block of a requested kind. |
| ProgramsControllers.RecipePlaceholders | oioioi/programs/controllers.py:59-116 | Each of the four placeholders is present exactly when its report kinds are requested. |
| ProgramsControllers.BlockPlaceholder | oioioi/programs/controllers.py:59-116 | A report block has exactly one placeholder, its last stage. |
| ProgramsControllers.FilledRecipeLayout | oioioi/programs/controllers.py:118-123 | A problem's recipe is compile, `after_compile`, the body, then `delete_executable`. |
| ProgramsControllers.ContestRecipeLayout | oioioi/programs/controllers.py:148-169 | With INITIAL requested, `update_report_statuses` then `update_submission_score` sit immediately before `after_initial_tests`. Otherwise the problem's recipe is kept. |
| ProgramsControllers.SetDefault | oioioi/programs/controllers.py:125-128 | A value the caller set is kept. Only an absent one gets the default. |
| ProgramsControllers.ProgrammingProblemController.constructor | oioioi/programs/controllers.py:130 | The controller knows its problem's checker executable. |
| ProgramsControllers.ProgrammingProblemController.GenerateBaseEnviron | oioioi/programs/controllers.py:32-43 | The recipe becomes exactly compile, `after_compile`, `delete_executable`. The only error handler is `delete_executable`. Nothing else changes. |
| ProgramsControllers.ProgrammingProblemController.GenerateRecipe | oioioi/programs/controllers.py:53-116 | The body built by successive extends is `RecipeBody`, whose layout `RecipeLayout` states. |
| ProgramsControllers.ProgrammingProblemController.FillEvaluationEnviron | oioioi/programs/controllers.py:118-132 | Sets:<br>• the recipe to `FilledRecipe` and the error handlers to the base ones;<br>• the min group scorer and sum aggregator, only when absent;<br>• the checker, only when the problem has one. |
| ProgramsControllers.Language | oioioi/programs/controllers.py:145-146 | The language is the extension without its dot. It holds no `.` or `/`. |
| Text.ExtensionAfterStem | oioioi/programs/controllers.py:146 | A path `<stem>.<ext>` whose stem has no `/` and is not all dots has extension `.<ext>`. |
| ProgramsControllers.LanguageOf | oioioi/programs/controllers.py:145-146 | A file `<stem>.<ext>` with a plain stem is in language `ext`. |
| ProgramsControllers.ValidateFileSize | oioioi/programs/controllers.py:171-182 | A file is accepted exactly when it is at most 102400 bytes. |
| ProgramsControllers.ValidateLanguage | oioioi/programs/controllers.py:184-188 | A file is accepted exactly when its language is among the allowed extensions. |
| ProgramsControllers.ValidateLanguageOf | oioioi/programs/controllers.py:184-188 | A plainly named file is accepted exactly when its extension is allowed. |
| ProgramsControllers.ProgrammingContestController.FillEvaluationEnviron | oioioi/programs/controllers.py:148-159 | Sets the source file, the language from its extension and the 10 MiB compilation-result limit. Then the problem's entries follow, and the recipe ends as `ContestRecipe`. |
| ProgramsControllers.ProgrammingContestController.FillEvaluationEnvironPostProblem | oioioi/programs/controllers.py:161-169 | Only the recipe changes, as `PostProblemRecipe` says. |
| ProgramsControllers.ProgrammingContestController.UpdateSubmissionScore | oioioi/programs/controllers.py:253-276 | The status is set as `StatusAfter` says, then the score as `ScoreAfter` says. A lookup that raises stops the update there. |
| ProgramsControllers.Single | oioioi/programs/controllers.py:256-257 | `.get()` finds a row exactly when the query has one row, and reports nothing exactly when it is empty. |
| ProgramsControllers.ActiveOf | oioioi/programs/controllers.py:288-290 | The result holds exactly the ACTIVE reports of the given kinds, and is empty exactly when there are none. |
| ProgramsControllers.ScoreReportsFor | oioioi/programs/controllers.py:258 | The result holds exactly the score reports of the given report. |
| ProgramsControllers.MapReportToSubmissionStatus | oioioi/programs/controllers.py:249-251 | The status is one of INI_OK, CE, SE or INI_ERR. It is INI_OK iff the report status is OK, CE for CE, SE for SE, and INI_ERR iff the report status is not OK, CE or SE. |
| ProgramsControllers.ActiveOfSingle | oioioi/programs/controllers.py:256-257 | A query matched by one report yields that report alone. |
| ProgramsControllers.ScoreReportsForSingle | oioioi/programs/controllers.py:258 | A report with one score report yields that score report alone. |
| ProgramsControllers.StatusRules | oioioi/programs/controllers.py:253-266 | With one ACTIVE INITIAL report, the status maps its score report's status. With none, it is SE when an ACTIVE FAILURE report exists, else `?`. |
| ProgramsControllers.ScoreRules | oioioi/programs/controllers.py:268-275 | The score is the single ACTIVE NORMAL report's score, and `None` when there is no ACTIVE NORMAL report. |
| ProgramsControllers.VisibleReportsKinds | oioioi/programs/controllers.py:278-282 | INITIAL is always visible. NORMAL is visible iff results are visible. HIDDEN and FAILURE never are. |
| ProgramsControllers.FilterVisibleReports | oioioi/programs/controllers.py:284-290 | Admins see every report. Other users see exactly the ACTIVE reports that are INITIAL, or NORMAL when results are visible. |

Where the code and its design description differ, the model follows the code:
- The error-handler table is keyed `delete_executable`, not `compile`.
- A missing score report for the single ACTIVE INITIAL or NORMAL report raises out of `update_submission_score`. It is not caught as a missing submission report.

The insertion helpers of the evaluation manager are not part of this model's sources. `Evalmgr` states their assumed behaviour:
- an entry is found by the first stage or placeholder with that name;
- a missing name leaves the recipe unchanged.

## Left out

- Database persistence is not modelled: `get_or_create`, `save`, `delete` and `update` on query sets. Rows are map and sequence values, and `Problem` holds them.
- File and archive I/O is not modelled. This covers:
  - extraction into a temporary directory;
  - reading test, checker and solution files;
  - writing zip members and streaming files.
  Directory listings and file names are inputs, and the creator records member names only.
- External processes are not modelled. `make outgen`, the document build, the makefile extraction and the checker build are left out. The checker build's effect on `prog/` is the parameter `progAfterBuild`.
- `_process_config_yml`, `_detect_full_name`, `_compile_docs`, `_extract_makefiles`, `_process_statements` and `_generate_tests` are left out. They read files, run processes or decode text; the parsed configuration is an input (`Config`).
- `_decode` and the encoding detection are left out (byte decoding through an external library).
- `_stringify_keys` is left out: configuration keys are strings already.
- `naturalsort_key` is left out. It is defined outside these sources, and the order is a caller-supplied comparator. Sortedness is proved for any strict weak order, which is what comparing sort keys gives; stability holds for any comparator.
- `os.path.normcase` / `normpath` are left out. The archive's file list is taken as already normalised.
- `SinolPackage.constructor`: the archive-type detection from the file extension (`.tar.gz` or `splitext`) and the `Archive` object are not modelled. The file list is given.
- `SinolPackage.Problem.ProcessTests`: ingestion matches test files with the corrected pattern `MatchTestName`, whose dot before `in` is literal, not with the pattern as written (see Findings). A file such as `abc1xin` in `in/` of problem `abc` is therefore skipped. The code would take it as test `1`: next to `abc1.in` it re-reads `in/abc1.in`, gives the row that file's order and records the name `1` twice; alone it raises `IOError` opening `in/abc1.in`. Rejection of unrecognised `.in` files is the same under both patterns.
- SinolPackage.RowScore: when two scored groups tie under the natural order (such as `2` and `02` under a key that reads digits as numbers), the one met later in the sorted listing is taken as later in the order, and it is the one that may get the extra point. The code sorts a Python set, so the set's unspecified iteration order decides instead. `ScoredGroupsOrderFree` proves the two agree whenever the order separates the scored groups.
- SinolPackage.ProcessedTestsScores: the same tie rule as `SinolPackage.RowScore`. Groups that tie are ordered as first met in the listing, not in the set's iteration order.
- SinolPackage.Problem.AssignGroupScores: the extra-point slice sorts the scored groups in the order they were first met, not in the iteration order of the code's set. The result differs only for groups that tie under the natural order.
- SinolPackage.Problem.ProcessTests: the tie rule for scored groups is that of `SinolPackage.ProcessedTestsScores`.
- `SinolPackage.Problem.ProcessTests`: the `$` of the test pattern also matching before a final newline is not modelled. File names are taken not to end in a newline.
- `SinolPackage.Problem.ProcessTests`: the `IOError` raised when a matched test's `.out` file is missing is not modelled. File contents are not modelled.
- `SinolPackage.Problem.ProcessExtraFiles`: a listed file is looked up among the direct entries of `prog/` only, so a nested path is reported missing.
- `SinolPackage.SinolPackage.Unpack`: a new problem with no problem folder stops with `NoProblemFolder`, before anything is written. The code goes on with a short name of `None` and raises before any ingestion stage runs.
- `SinolPackage.SinolPackage.Unpack`: the package-backend name stored on the problem and the temporary directory's removal are not modelled.
- `SinolCreator.SinolPackageCreator.PackTests`: only the set of members written is stated, not their order, because the order comes from the query.
- `ProgramsControllers.ProgrammingProblemController.GenerateBaseEnviron`: `exec_mode` and `compiler` are not modelled. They come from settings.
- `ProgramsControllers.ProgrammingProblemController.FillEvaluationEnviron`: `django_to_filetracker_path` is taken as the identity. A missing `OutputChecker` row is not modelled.
- `ProgramsControllers.ProgrammingContestController.FillEvaluationEnviron`: the base contest controller is not part of this model. The model takes it to pass the environment to the problem's controller.
- `ProgramsControllers.ProgrammingContestController.UpdateSubmissionScore`: the final `save()` is not modelled. The reports passed in are those of the submission.
- `update_report_statuses`, `_activate_newest_report`, `results_visible` and `is_contest_admin` are left out. They are calls into other controllers, so their results are boolean inputs.
- `adjust_submission_form` is left out apart from its two validators. This covers form construction, `allow_empty_file`, the admin-only user and kind fields, and `clean_user`.
- `SUBMITTABLE_EXTENSIONS` is a setting and becomes the `allowed` input.
- The following are left out because they render templates or only delegate:
  - `create_submission`;
  - `can_see_submission_status`;
  - `render_submission`, `render_report`, `render_submission_footer`;
  - `valid_kinds_for_submission`;
  - `mixins_for_admin`;
  - the `SinolPackageBackend` wrappers.
- `oioioi/base/processors.py` is not part of this model.

## Findings

| source | as written | input that shows it | evidently intended | confidence | as-written member | corrected member |
|---|---|---|---|---|---|---|
| oioioi/sinolpack/package.py:207-208 | The test pattern ends in `.in$` with an unescaped dot, so any character other than a newline may precede `in`. | In `in/` of problem `abc`, the file `abc1xin` matches as test `1`, exactly like `abc1.in`. The code then opens `abc1.in`. | Only files `<short><name>.in` are tests. The dot is literal. | not executed | SinolNames.AsWrittenAcceptsAnyCharBeforeIn | SinolNames.MatchTestNameComplete |
