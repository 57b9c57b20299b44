/**
 * Ingestion of a Sinol package into a problem's records: the choice of the problem folder,
 * the scan of `in/` that creates, updates, prunes and scores the tests, the choice of the
 * output checker, the extra compilation files, the model solutions and the short-name guard
 * of a re-upload.
 *
 * The database rows of one problem are the fields of a `ProblemStore`; the extracted
 * archive is given as directory listings.
 */
module SinolPackage {
  import opened Wrappers
  import opened Text
  import opened SinolNames
  import opened SinolScoring

  const DEFAULT_TIME_LIMIT: int := 10000
  const DEFAULT_MEMORY_LIMIT: int := 66000
  /** The `total_score` the tests are scored with on ingestion. */
  const DEFAULT_TOTAL_SCORE: nat := 100

  /**
   * A test row. `maxScore` is `None` while the row still holds the score it was created
   * with; ingestion writes it only when it distributes the total score.
   */
  datatype Test = Test(name: string, kind: TestKind, group: string, order: nat,
                       inputFile: string, outputFile: string,
                       timeLimit: int, memoryLimit: int, maxScore: Option<int>)

  /** The keys of `config.yml` that ingestion reads (keys already turned into strings). */
  datatype Config = Config(timeLimits: map<string, int>, memoryLimits: map<string, int>,
                           memoryLimit: Option<int>, extraCompilationFiles: seq<string>)

  /** The `ProblemPackageError`s of ingestion, plus the missing problem folder. */
  datatype PackageError =
    | UnrecognizedTest(file: string)
    | ShortNameChanged(oldName: string, newName: Option<string>)
    | ExtraFileMissing(file: string)
    | NoProblemFolder

  /** One entry of a directory listing, and whether it is a regular file. */
  datatype DirEntry = DirEntry(name: string, isFile: bool)

  datatype ModelSolution = ModelSolution(name: string, kind: SolutionKind)

  // ---------------------------------------------------------------------------
  // Tests

  /** The time limit a new test gets: from `time_limits`, else the default. */
  function NewTimeLimit(name: string, config: Config): int
  {
    GetOr(config.timeLimits, name, DEFAULT_TIME_LIMIT)
  }

  /** The memory limit a new test gets: the global `memory_limit` when present, else from `memory_limits`, else the default. */
  function NewMemoryLimit(name: string, config: Config): int
  {
    match config.memoryLimit
    case Some(limit) => limit
    case None => GetOr(config.memoryLimits, name, DEFAULT_MEMORY_LIMIT)
  }

  /**
   * The row of matched test `t` after it is saved: an existing row keeps its limits and
   * score, a created one gets the limits of the configuration; both get the kind, group,
   * order and files of this scan.
   */
  function Upsert(existing: Option<Test>, t: TestName, order: nat, config: Config): Test
  {
    var kind := KindOf(t);
    var group := GroupOf(t);
    match existing
    case Some(row) =>
      row.(kind := kind, group := group, order := order,
           inputFile := t.basename + ".in", outputFile := t.basename + ".out")
    case None =>
      Test(t.name, kind, group, order, t.basename + ".in", t.basename + ".out",
           NewTimeLimit(t.name, config), NewMemoryLimit(t.name, config), None)
  }

  /** A file of `in/` that is rejected: it ends in `.in` but is not a test of this problem. */
  predicate Unrecognized(short: string, file: string)
  {
    MatchTestName(short, file).None? && EndsWith(file, ".in")
  }

  /** The names of the tests the files of `files` stand for. */
  function MatchedNames(short: string, files: seq<string>): set<string>
  {
    set f | f in files && MatchTestName(short, f).Some? :: MatchTestName(short, f).value.name
  }

  /** The groups of the NORMAL tests among `files`, in the order they are first met. */
  function GroupsSeen(short: string, files: seq<string>): (groups: seq<string>)
    ensures Distinct(groups)
    ensures forall g :: g in groups <==>
              exists f :: f in files && MatchTestName(short, f).Some?
                          && KindOf(MatchTestName(short, f).value) == Normal
                          && MatchTestName(short, f).value.group == g
  {
    if files == [] then []
    else
      var prefix := files[..|files| - 1];
      var last := files[|files| - 1];
      var groups := GroupsSeen(short, prefix);
      assert files == prefix + [last];
      match MatchTestName(short, last)
      case Some(t) =>
        if KindOf(t) == Normal && t.group !in groups then groups + [t.group] else groups
      case None => groups
  }

  /** Position of the first rejected file, or `|files|` when there is none. */
  function FirstUnrecognized(short: string, files: seq<string>): (k: nat)
    ensures k <= |files|
    ensures forall j :: 0 <= j < k ==> !Unrecognized(short, files[j])
    ensures k < |files| ==> Unrecognized(short, files[k])
  {
    if files == [] then 0
    else if Unrecognized(short, files[0]) then 0
    else 1 + FirstUnrecognized(short, files[1..])
  }

  /** The state of the scan of `in/`: rows, names seen, scored groups, and the error that stopped it. */
  datatype Scan = Scan(tests: map<string, Test>, names: seq<string>, scored: seq<string>,
                       error: Option<PackageError>)

  /** One step of the scan: file `file` at position `order` of the sorted listing. */
  function ScanEntry(s: Scan, short: string, file: string, order: nat, config: Config): Scan
  {
    match MatchTestName(short, file)
    case None =>
      if EndsWith(file, ".in") then s.(error := Some(UnrecognizedTest(file))) else s
    case Some(t) =>
      var scored := if KindOf(t) == Normal && t.group !in s.scored then s.scored + [t.group] else s.scored;
      s.(tests := s.tests[t.name := Upsert(Get(s.tests, t.name), t, order, config)],
         names := s.names + [t.name], scored := scored)
  }

  /** The scan of the sorted listing `files`, starting from rows `tests0`; it stops at the first error. */
  function ScanAll(tests0: map<string, Test>, short: string, files: seq<string>, config: Config): Scan
  {
    if files == [] then Scan(tests0, [], [], None)
    else
      var s := ScanAll(tests0, short, files[..|files| - 1], config);
      if s.error.Some? then s else ScanEntry(s, short, files[|files| - 1], |files| - 1, config)
  }

  /** `Test.objects.filter(problem).exclude(name__in=names).delete()`. */
  function Prune(tests: map<string, Test>, names: seq<string>): map<string, Test>
  {
    map n | n in tests && n in names :: tests[n]
  }

  /**
   * When some group is scored: every row's score is reset to 0, then each scored group's
   * rows get that group's score. Otherwise the scores are left as they are.
   */
  function AssignScores(tests: map<string, Test>, scored: seq<string>,
                        before: (string, string) -> bool, total: nat): map<string, Test>
  {
    map n | n in tests :: AssignedRow(tests[n], scored, before, total)
  }

  /** One row after score assignment. */
  function AssignedRow(row: Test, scored: seq<string>, before: (string, string) -> bool, total: nat): Test
  {
    if scored == [] then row
    else
      var sorted := NaturalSorted(scored, before);
      row.(maxScore := Some(if row.group in scored then GroupScore(row.group, sorted, total) else 0))
  }

  /** The scored groups of the sorted listing, in natural order: the order the extra points follow. */
  function ScoredGroups(short: string, listing: seq<string>, before: (string, string) -> bool): seq<string>
  {
    NaturalSorted(GroupsSeen(short, NaturalSorted(listing, before)), before)
  }

  /** The rows after the score reset, once the groups `done` have been given their scores. */
  function ScoredSoFar(tests: map<string, Test>, done: seq<string>, sorted: seq<string>, total: nat): map<string, Test>
    requires |sorted| > 0
  {
    map n | n in tests ::
      tests[n].(maxScore := Some(if tests[n].group in done then GroupScore(tests[n].group, sorted, total) else 0))
  }

  /** `Test.objects.filter(group=g).update(max_score=score)` on the rows `tests`. */
  function WithGroupScore(tests: map<string, Test>, g: string, score: nat): (r: map<string, Test>)
    ensures r.Keys == tests.Keys
    ensures forall n :: n in r ==> r[n] == if tests[n].group == g then tests[n].(maxScore := Some(score)) else tests[n]
  {
    map n | n in tests :: if tests[n].group == g then tests[n].(maxScore := Some(score)) else tests[n]
  }

  /** Giving one more group its score. */
  lemma ScoreOneGroup(tests: map<string, Test>, done: seq<string>, g: string, sorted: seq<string>, total: nat)
    requires |sorted| > 0 && g !in done
    ensures ScoredSoFar(tests, done + [g], sorted, total)
            == WithGroupScore(ScoredSoFar(tests, done, sorted, total), g, GroupScore(g, sorted, total))
  {
  }

  /**
   * One turn of the score loop: with `extra` the last `ExtraCount` groups of the natural order,
   * giving the `i`-th group the base share, plus one when it is in `extra`, scores it as
   * `GroupScore` says.
   */
  lemma ScoreStep(tests: map<string, Test>, groups: seq<string>, i: nat, sorted: seq<string>,
                  total: nat, extra: seq<string>, score: nat)
    requires Distinct(groups) && i < |groups| && |sorted| > 0
    requires extra == sorted[|sorted| - ExtraCount(total, |sorted|)..]
    requires score == if groups[i] in extra then total / |sorted| + 1 else total / |sorted|
    ensures ScoredSoFar(tests, groups[..i + 1], sorted, total)
            == WithGroupScore(ScoredSoFar(tests, groups[..i], sorted, total), groups[i], score)
  {
    var g := groups[i];
    assert g !in groups[..i];
    assert groups[..i + 1] == groups[..i] + [g];
    ScoreOneGroup(tests, groups[..i], g, sorted, total);
  }

  /** `total_score - num_groups * group_score` is `ExtraCount`, so the extra-score slice is well formed. */
  lemma ExtraScoreGroupsFrom(sorted: seq<string>, total: nat)
    requires sorted != []
    ensures var n := |sorted|;
            0 <= total - n * (total / n) < n && total - n * (total / n) == ExtraCount(total, n)
  {
    assert BaseScore(total, |sorted|) == total / |sorted|;
  }

  lemma ResetScores(tests: map<string, Test>, sorted: seq<string>, total: nat)
    requires |sorted| > 0
    ensures (map n | n in tests :: tests[n].(maxScore := Some(0))) == ScoredSoFar(tests, [], sorted, total)
  {
  }

  lemma AllGroupsScored(tests: map<string, Test>, scored: seq<string>, before: (string, string) -> bool, total: nat)
    requires scored != []
    ensures AssignScores(tests, scored, before, total) == ScoredSoFar(tests, scored, NaturalSorted(scored, before), total)
  {
  }

  /** The rows of the problem after `_process_tests`, or the error it raises. */
  function ProcessedTests(tests0: map<string, Test>, short: string, listing: seq<string>, config: Config,
                          before: (string, string) -> bool, total: nat): Result<map<string, Test>, PackageError>
  {
    var s := ScanAll(tests0, short, NaturalSorted(listing, before), config);
    if s.error.Some? then Err(s.error.value)
    else Ok(AssignScores(Prune(s.tests, s.names), s.scored, before, total))
  }

  // ---------------------------------------------------------------------------
  // What the scan computes

  /** Once the scan of a prefix has failed, the rest of the listing changes nothing. */
  lemma {:induction false} ScanStops(tests0: map<string, Test>, short: string, files: seq<string>,
                                     k: nat, config: Config)
    requires k <= |files| && ScanAll(tests0, short, files[..k], config).error.Some?
    ensures ScanAll(tests0, short, files, config) == ScanAll(tests0, short, files[..k], config)
  {
    if |files| > k {
      var prefix := files[..|files| - 1];
      assert prefix[..k] == files[..k];
      ScanStops(tests0, short, prefix, k, config);
    } else {
      assert files[..k] == files;
    }
  }

  /** The scan fails exactly when some file is rejected, and it names the first rejected file. */
  lemma {:induction false} ScanError(tests0: map<string, Test>, short: string, files: seq<string>, config: Config)
    ensures var k := FirstUnrecognized(short, files);
            ScanAll(tests0, short, files, config).error
            == if k < |files| then Some(UnrecognizedTest(files[k])) else None
  {
    if files != [] {
      var m := |files| - 1;
      var prefix := files[..m];
      ScanError(tests0, short, prefix, config);
      assert files == prefix + [files[m]];
      FirstUnrecognizedSnoc(short, prefix, files[m]);
    }
  }

  /** The first rejected file of a listing with one more file. */
  lemma FirstUnrecognizedSnoc(short: string, prefix: seq<string>, last: string)
    ensures var kp := FirstUnrecognized(short, prefix);
            FirstUnrecognized(short, prefix + [last])
            == if kp < |prefix| then kp else if Unrecognized(short, last) then |prefix| else |prefix| + 1
  {
    var files := prefix + [last];
    var kp := FirstUnrecognized(short, prefix);
    var k := FirstUnrecognized(short, files);
    assert forall j :: 0 <= j < |prefix| ==> files[j] == prefix[j];
    if kp < |prefix| {
      assert Unrecognized(short, files[kp]);
    } else {
      assert files[|prefix|] == last;
    }
  }

  /** Which rows exist during the scan: the starting ones plus the names seen; the others are untouched. */
  lemma {:induction false} ScanRows(tests0: map<string, Test>, short: string, files: seq<string>, config: Config)
    ensures var s := ScanAll(tests0, short, files, config);
            && s.tests.Keys == tests0.Keys + Elements(s.names)
            && forall n :: n in tests0 && n !in s.names ==> s.tests[n] == tests0[n]
  {
    if files != [] {
      ScanRows(tests0, short, files[..|files| - 1], config);
    }
  }

  /** A scan without error has seen the name of every matched file, and the groups of every NORMAL one. */
  lemma ScanNames(tests0: map<string, Test>, short: string, files: seq<string>, config: Config)
    ensures var s := ScanAll(tests0, short, files, config);
            s.error.None? ==> Elements(s.names) == MatchedNames(short, files) && s.scored == GroupsSeen(short, files)
  {
    ScanSeen(tests0, short, files, config);
    ScanScored(tests0, short, files, config);
  }

  lemma {:induction false} ScanSeen(tests0: map<string, Test>, short: string, files: seq<string>, config: Config)
    ensures var s := ScanAll(tests0, short, files, config);
            s.error.None? ==> Elements(s.names) == MatchedNames(short, files)
  {
    if files != [] {
      var m := |files| - 1;
      var prefix := files[..m];
      ScanSeen(tests0, short, prefix, config);
      assert files == prefix + [files[m]];
      MatchedNamesSnoc(short, prefix, files[m]);
    }
  }

  lemma {:induction false} ScanScored(tests0: map<string, Test>, short: string, files: seq<string>, config: Config)
    ensures var s := ScanAll(tests0, short, files, config);
            s.error.None? ==> s.scored == GroupsSeen(short, files)
  {
    if files != [] {
      var m := |files| - 1;
      ScanScored(tests0, short, files[..m], config);
    }
  }

  /** The names matched in a listing with one more file. */
  lemma MatchedNamesSnoc(short: string, prefix: seq<string>, last: string)
    ensures var m := MatchTestName(short, last);
            MatchedNames(short, prefix + [last])
            == MatchedNames(short, prefix) + (if m.Some? then {m.value.name} else {})
  {
    var files := prefix + [last];
    forall x | x in MatchedNames(short, files) ensures x in MatchedNames(short, prefix) || x == MatchTestName(short, last).value.name {
      var f :| f in files && MatchTestName(short, f).Some? && MatchTestName(short, f).value.name == x;
      assert f in prefix || f == last;
    }
    assert last in files;
    forall x | x in MatchedNames(short, prefix) ensures x in MatchedNames(short, files) {
      var f :| f in prefix && MatchTestName(short, f).Some? && MatchTestName(short, f).value.name == x;
      assert f in files;
    }
  }

  /** The row of the test in file `files[k]` after a scan without error, for a listing without repetitions. */
  lemma {:induction false} ScanRecord(tests0: map<string, Test>, short: string, files: seq<string>, config: Config,
                                      k: nat, t: TestName)
    requires Distinct(files) && k < |files| && MatchTestName(short, files[k]) == Some(t)
    requires ScanAll(tests0, short, files, config).error.None?
    ensures var s := ScanAll(tests0, short, files, config);
            t.name in s.tests && s.tests[t.name] == Upsert(Get(tests0, t.name), t, k, config)
  {
    var m := |files| - 1;
    var prefix := files[..m];
    var prev := ScanAll(tests0, short, prefix, config);
    assert prev.error.None?;
    assert ScanAll(tests0, short, files, config) == ScanEntry(prev, short, files[m], m, config);
    if k == m {
      assert files == prefix + [files[m]];
      FirstRowOfName(tests0, short, prefix, files[m], config);
    } else {
      ScanRecord(tests0, short, prefix, config, k, t);
      assert prefix[k] == files[k];
      EntryKeepsOtherRow(prev, short, files[m], m, config, t.name);
    }
  }

  /** A step for a file whose test has another name leaves the row of `name` as it was. */
  lemma EntryKeepsOtherRow(s: Scan, short: string, file: string, order: nat, config: Config, name: string)
    requires name in s.tests
    requires MatchTestName(short, file).Some? ==> MatchTestName(short, file).value.name != name
    ensures var next := ScanEntry(s, short, file, order, config);
            name in next.tests && next.tests[name] == s.tests[name]
  {
  }

  /** A file whose name no earlier file of the listing has: its row starts from the starting one. */
  lemma FirstRowOfName(tests0: map<string, Test>, short: string, prefix: seq<string>, last: string, config: Config)
    requires last !in prefix && ScanAll(tests0, short, prefix, config).error.None?
    ensures var prev := ScanAll(tests0, short, prefix, config);
            forall t :: MatchTestName(short, last) == Some(t) ==> Get(prev.tests, t.name) == Get(tests0, t.name)
  {
    var prev := ScanAll(tests0, short, prefix, config);
    ScanNames(tests0, short, prefix, config);
    ScanRows(tests0, short, prefix, config);
    forall t | MatchTestName(short, last) == Some(t) ensures Get(prev.tests, t.name) == Get(tests0, t.name) {
      assert t.name !in MatchedNames(short, prefix) by {
        forall f | f in prefix && MatchTestName(short, f).Some?
          ensures MatchTestName(short, f).value.name != t.name
        {
          assert f != last;
        }
      }
    }
  }

  // ---------------------------------------------------------------------------
  // What `_process_tests` guarantees

  lemma SortedListingFacts(short: string, listing: seq<string>, before: (string, string) -> bool)
    ensures Elements(NaturalSorted(listing, before)) == Elements(listing)
    ensures MatchedNames(short, NaturalSorted(listing, before)) == MatchedNames(short, listing)
    ensures Distinct(listing) ==> Distinct(NaturalSorted(listing, before))
  {
    var sorted := NaturalSorted(listing, before);
    SameElements(listing, sorted);
    forall x ensures x in MatchedNames(short, sorted) <==> x in MatchedNames(short, listing) {
      if x in MatchedNames(short, sorted) {
        var f :| f in sorted && MatchTestName(short, f).Some? && MatchTestName(short, f).value.name == x;
        assert f in Elements(listing);
      }
      if x in MatchedNames(short, listing) {
        var f :| f in listing && MatchTestName(short, f).Some? && MatchTestName(short, f).value.name == x;
        assert f in Elements(sorted);
      }
    }
    if Distinct(listing) {
      NaturalSortedDistinct(listing, before);
    }
  }

  /**
   * Ingestion of the tests fails exactly when `in/` holds a rejected file, and the error
   * names the first rejected file in natural order.
   */
  lemma ProcessedTestsFails(tests0: map<string, Test>, short: string, listing: seq<string>, config: Config,
                            before: (string, string) -> bool, total: nat)
    ensures ProcessedTests(tests0, short, listing, config, before, total).Err?
            <==> exists f :: f in listing && Unrecognized(short, f)
    ensures var sorted := NaturalSorted(listing, before);
            var k := FirstUnrecognized(short, sorted);
            k < |sorted| ==> ProcessedTests(tests0, short, listing, config, before, total) == Err(UnrecognizedTest(sorted[k]))
  {
    var sorted := NaturalSorted(listing, before);
    ScanError(tests0, short, sorted, config);
    SortedListingFacts(short, listing, before);
    if exists f :: f in listing && Unrecognized(short, f) {
      var f :| f in listing && Unrecognized(short, f);
      assert f in Elements(sorted);
      var j :| 0 <= j < |sorted| && sorted[j] == f;
      assert FirstUnrecognized(short, sorted) <= j;
    }
    var k := FirstUnrecognized(short, sorted);
    if k < |sorted| {
      assert sorted[k] in Elements(listing);
    }
  }

  /** After ingestion the problem's tests are exactly those named by the files of `in/`: new ones created, missing ones deleted. */
  lemma ProcessedTestsNames(tests0: map<string, Test>, short: string, listing: seq<string>, config: Config,
                            before: (string, string) -> bool, total: nat)
    requires ProcessedTests(tests0, short, listing, config, before, total).Ok?
    ensures ProcessedTests(tests0, short, listing, config, before, total).value.Keys == MatchedNames(short, listing)
  {
    var sorted := NaturalSorted(listing, before);
    ScanNames(tests0, short, sorted, config);
    ScanRows(tests0, short, sorted, config);
    SortedListingFacts(short, listing, before);
  }

  /** Every row is stored under its own name. */
  predicate NamedByKey(tests: map<string, Test>)
  {
    forall n :: n in tests ==> tests[n].name == n
  }

  /** The scan stores each row it writes under the row's name. */
  lemma {:induction false} ScanKeepsNames(tests0: map<string, Test>, short: string, files: seq<string>, config: Config)
    requires NamedByKey(tests0)
    ensures NamedByKey(ScanAll(tests0, short, files, config).tests)
  {
    if files != [] {
      ScanKeepsNames(tests0, short, files[..|files| - 1], config);
    }
  }

  /** When every row is stored under its name before ingestion, so it is after. */
  lemma ProcessedTestsKeepNames(tests0: map<string, Test>, short: string, listing: seq<string>, config: Config,
                                before: (string, string) -> bool, total: nat)
    requires NamedByKey(tests0) && ProcessedTests(tests0, short, listing, config, before, total).Ok?
    ensures NamedByKey(ProcessedTests(tests0, short, listing, config, before, total).value)
  {
    ScanKeepsNames(tests0, short, NaturalSorted(listing, before), config);
  }

  /**
   * The source sorts the scored groups from a Python set, whose iteration order is not
   * specified. When the order separates every two scored groups, sorting them in any order
   * gives `ScoredGroups`.
   */
  lemma ScoredGroupsOrderFree(short: string, listing: seq<string>, before: (string, string) -> bool,
                              setOrder: seq<string>)
    requires StrictWeakOrder(before)
    requires multiset(setOrder) == multiset(GroupsSeen(short, NaturalSorted(listing, before)))
    requires Separates(before, GroupsSeen(short, NaturalSorted(listing, before)))
    ensures NaturalSorted(setOrder, before) == ScoredGroups(short, listing, before)
  {
    NaturalSortedOrderFree(GroupsSeen(short, NaturalSorted(listing, before)), setOrder, before);
  }

  /** The row of a matched test, score included, in terms of the row it had before. */
  lemma {:induction false} FinalRow(tests0: map<string, Test>, short: string, listing: seq<string>, config: Config,
                                    before: (string, string) -> bool, total: nat, k: nat, t: TestName)
    requires Distinct(listing) && ProcessedTests(tests0, short, listing, config, before, total).Ok?
    requires k < |listing| && MatchTestName(short, NaturalSorted(listing, before)[k]) == Some(t)
    ensures var tests := ProcessedTests(tests0, short, listing, config, before, total).value;
            && t.name in tests
            && tests[t.name] == AssignedRow(Upsert(Get(tests0, t.name), t, k, config),
                                            GroupsSeen(short, NaturalSorted(listing, before)), before, total)
  {
    var sorted := NaturalSorted(listing, before);
    SortedListingFacts(short, listing, before);
    ScanRecord(tests0, short, sorted, config, k, t);
    ScanNames(tests0, short, sorted, config);
    var s := ScanAll(tests0, short, sorted, config);
    assert t.name in MatchedNames(short, sorted) by {
      assert sorted[k] in sorted;
    }
  }

  /**
   * The row of the test in the file at position `k` of the sorted listing: kind, group and
   * files from its name, `order` equal to `k`, and limits that only a newly created row
   * takes from the configuration.
   */
  lemma ProcessedTestRow(tests0: map<string, Test>, short: string, listing: seq<string>, config: Config,
                         before: (string, string) -> bool, total: nat, k: nat, t: TestName)
    requires Distinct(listing) && ProcessedTests(tests0, short, listing, config, before, total).Ok?
    requires k < |listing| && MatchTestName(short, NaturalSorted(listing, before)[k]) == Some(t)
    ensures var tests := ProcessedTests(tests0, short, listing, config, before, total).value;
            && t.name in tests
            && tests[t.name].kind == (if t.group == "0" || Contains(t.suffix, "ocen") then Example else Normal)
            && tests[t.name].group == (if tests[t.name].kind == Example then t.name else t.group)
            && tests[t.name].order == k
            && tests[t.name].inputFile == short + t.name + ".in"
            && tests[t.name].outputFile == short + t.name + ".out"
            && (t.name in tests0 ==>
                  tests[t.name].timeLimit == tests0[t.name].timeLimit
                  && tests[t.name].memoryLimit == tests0[t.name].memoryLimit)
            && (t.name !in tests0 ==>
                  tests[t.name].timeLimit == GetOr(config.timeLimits, t.name, DEFAULT_TIME_LIMIT)
                  && tests[t.name].memoryLimit
                     == (if config.memoryLimit.Some? then config.memoryLimit.value
                         else GetOr(config.memoryLimits, t.name, DEFAULT_MEMORY_LIMIT)))
  {
    FinalRow(tests0, short, listing, config, before, total, k, t);
  }

  /** Orders follow the natural order of the files, with gaps where files were skipped. */
  lemma OrdersFollowSortedListing(tests0: map<string, Test>, short: string, listing: seq<string>, config: Config,
                                  before: (string, string) -> bool, total: nat, i: nat, j: nat)
    requires Distinct(listing) && ProcessedTests(tests0, short, listing, config, before, total).Ok?
    requires i < j < |listing|
    requires MatchTestName(short, NaturalSorted(listing, before)[i]).Some?
    requires MatchTestName(short, NaturalSorted(listing, before)[j]).Some?
    ensures var tests := ProcessedTests(tests0, short, listing, config, before, total).value;
            var sorted := NaturalSorted(listing, before);
            var a := MatchTestName(short, sorted[i]).value.name;
            var b := MatchTestName(short, sorted[j]).value.name;
            a in tests && b in tests && tests[a].order < tests[b].order
  {
    var sorted := NaturalSorted(listing, before);
    ProcessedTestRow(tests0, short, listing, config, before, total, i, MatchTestName(short, sorted[i]).value);
    ProcessedTestRow(tests0, short, listing, config, before, total, j, MatchTestName(short, sorted[j]).value);
  }

  /** Every row of the result comes from a file of the sorted listing. */
  lemma RowSource(tests0: map<string, Test>, short: string, listing: seq<string>, config: Config,
                  before: (string, string) -> bool, total: nat, n: string)
    requires ProcessedTests(tests0, short, listing, config, before, total).Ok?
    requires n in ProcessedTests(tests0, short, listing, config, before, total).value
    ensures exists k :: 0 <= k < |listing| && MatchTestName(short, NaturalSorted(listing, before)[k]).Some?
                        && MatchTestName(short, NaturalSorted(listing, before)[k]).value.name == n
  {
    var sorted := NaturalSorted(listing, before);
    ProcessedTestsNames(tests0, short, listing, config, before, total);
    SortedListingFacts(short, listing, before);
    var f :| f in sorted && MatchTestName(short, f).Some? && MatchTestName(short, f).value.name == n;
    var k :| 0 <= k < |sorted| && sorted[k] == f;
  }

  /**
   * Scores after ingestion. Without NORMAL tests every row keeps the score it had (or was
   * created with). Otherwise every NORMAL test gets its group's share, every EXAMPLE test
   * gets 0, and the shares of the scored groups add up to the total.
   */
  lemma ProcessedTestsScores(tests0: map<string, Test>, short: string, listing: seq<string>, config: Config,
                             before: (string, string) -> bool, total: nat)
    requires Distinct(listing) && ProcessedTests(tests0, short, listing, config, before, total).Ok?
    ensures var tests := ProcessedTests(tests0, short, listing, config, before, total).value;
            var groups := ScoredGroups(short, listing, before);
            && (groups == [] ==>
                  forall n :: n in tests ==> tests[n].maxScore == (if n in tests0 then tests0[n].maxScore else None))
            && (groups != [] ==>
                  forall n :: n in tests ==>
                    tests[n].maxScore == Some(if tests[n].kind == Normal then GroupScore(tests[n].group, groups, total) else 0))
            && (groups != [] ==> SumScores(groups, groups, total) == total)
  {
    var tests := ProcessedTests(tests0, short, listing, config, before, total).value;
    var groups := ScoredGroups(short, listing, before);
    forall n | n in tests
      ensures groups == [] ==> tests[n].maxScore == (if n in tests0 then tests0[n].maxScore else None)
      ensures groups != [] ==>
                tests[n].maxScore == Some(if tests[n].kind == Normal then GroupScore(tests[n].group, groups, total) else 0)
    {
      RowScore(tests0, short, listing, config, before, total, n);
    }
    if groups != [] {
      NaturalSortedDistinct(GroupsSeen(short, NaturalSorted(listing, before)), before);
      ScoresSumToTotal(groups, total);
    }
  }

  /** The score of one row after ingestion. */
  lemma RowScore(tests0: map<string, Test>, short: string, listing: seq<string>, config: Config,
                 before: (string, string) -> bool, total: nat, n: string)
    requires Distinct(listing) && ProcessedTests(tests0, short, listing, config, before, total).Ok?
    requires n in ProcessedTests(tests0, short, listing, config, before, total).value
    ensures var tests := ProcessedTests(tests0, short, listing, config, before, total).value;
            var groups := ScoredGroups(short, listing, before);
            && (groups == [] ==> tests[n].maxScore == (if n in tests0 then tests0[n].maxScore else None))
            && (groups != [] ==>
                  tests[n].maxScore == Some(if tests[n].kind == Normal then GroupScore(tests[n].group, groups, total) else 0))
  {
    var sorted := NaturalSorted(listing, before);
    var seen := GroupsSeen(short, sorted);
    RowSource(tests0, short, listing, config, before, total, n);
    var k :| 0 <= k < |listing| && MatchTestName(short, sorted[k]).Some? && MatchTestName(short, sorted[k]).value.name == n;
    var t := MatchTestName(short, sorted[k]).value;
    FinalRow(tests0, short, listing, config, before, total, k, t);
    var row := Upsert(Get(tests0, n), t, k, config);
    if KindOf(t) == Normal {
      assert sorted[k] in sorted;
      assert t.group in seen;
    } else {
      ExampleNotScored(short, sorted, t);
    }
    AssignedRowScore(row, seen, before, total);
  }

  /** Score assignment on one row whose group is scored exactly when it is NORMAL. */
  lemma AssignedRowScore(row: Test, seen: seq<string>, before: (string, string) -> bool, total: nat)
    requires row.kind == Normal ==> row.group in seen
    requires row.kind == Example ==> row.group !in seen
    ensures var r := AssignedRow(row, seen, before, total);
            var groups := NaturalSorted(seen, before);
            && r.kind == row.kind && r.group == row.group
            && (groups == [] ==> r.maxScore == row.maxScore)
            && (groups != [] ==> r.maxScore == Some(if row.kind == Normal then GroupScore(row.group, groups, total) else 0))
  {
  }

  /** An EXAMPLE test's name is never among the groups seen, so it is never scored. */
  lemma ExampleNotScored(short: string, sorted: seq<string>, t: TestName)
    requires WellFormed(t) && KindOf(t) == Example
    ensures t.name !in GroupsSeen(short, sorted)
  {
    forall g | g in GroupsSeen(short, sorted) ensures g != t.name {
      var f :| f in sorted && MatchTestName(short, f).Some? && KindOf(MatchTestName(short, f).value) == Normal
               && MatchTestName(short, f).value.group == g;
      ExampleGroupIsNeverScored(t, MatchTestName(short, f).value);
    }
  }

  /** Saving a scanned row again with the same file and scores gives the same row. */
  lemma RowStable(existing: Option<Test>, t: TestName, k: nat, config: Config, scored: seq<string>,
                  before: (string, string) -> bool, total: nat)
    ensures var row := AssignedRow(Upsert(existing, t, k, config), scored, before, total);
            AssignedRow(Upsert(Some(row), t, k, config), scored, before, total) == row
  {
  }

  lemma RowIdempotent(tests0: map<string, Test>, tests: map<string, Test>, short: string, listing: seq<string>,
                      config: Config, before: (string, string) -> bool, total: nat, n: string)
    requires Distinct(listing) && ProcessedTests(tests0, short, listing, config, before, total) == Ok(tests)
    requires ProcessedTests(tests, short, listing, config, before, total).Ok?
    requires n in tests
    ensures var again := ProcessedTests(tests, short, listing, config, before, total).value;
            n in again && again[n] == tests[n]
  {
    var sorted := NaturalSorted(listing, before);
    RowSource(tests0, short, listing, config, before, total, n);
    var k :| 0 <= k < |listing| && MatchTestName(short, sorted[k]).Some? && MatchTestName(short, sorted[k]).value.name == n;
    var t := MatchTestName(short, sorted[k]).value;
    FinalRow(tests0, short, listing, config, before, total, k, t);
    FinalRow(tests, short, listing, config, before, total, k, t);
    RowStable(Get(tests0, n), t, k, config, GroupsSeen(short, sorted), before, total);
  }

  /** Ingesting the same package again leaves the tests as they are. */
  lemma ProcessedTestsIdempotent(tests0: map<string, Test>, short: string, listing: seq<string>, config: Config,
                                 before: (string, string) -> bool, total: nat)
    requires Distinct(listing) && ProcessedTests(tests0, short, listing, config, before, total).Ok?
    ensures var tests := ProcessedTests(tests0, short, listing, config, before, total).value;
            ProcessedTests(tests, short, listing, config, before, total) == Ok(tests)
  {
    var tests := ProcessedTests(tests0, short, listing, config, before, total).value;
    var sorted := NaturalSorted(listing, before);
    ScanError(tests0, short, sorted, config);
    ScanError(tests, short, sorted, config);
    var r := ProcessedTests(tests, short, listing, config, before, total);
    assert r.Ok?;
    var again := r.value;
    ProcessedTestsNames(tests0, short, listing, config, before, total);
    ProcessedTestsNames(tests, short, listing, config, before, total);
    forall n | n in tests ensures n in again && again[n] == tests[n] {
      RowIdempotent(tests0, tests, short, listing, config, before, total, n);
    }
    assert again == tests;
  }

  // ---------------------------------------------------------------------------
  // Checker, extra files, model solutions

  /** `os.path.isfile(prog/<name>)`. */
  predicate IsFileIn(entries: seq<DirEntry>, name: string)
  {
    exists e :: e in entries && e.name == name && e.isFile
  }

  /** `os.path.exists(prog/<name>)`. */
  predicate InDir(entries: seq<DirEntry>, name: string)
  {
    exists e :: e in entries && e.name == name
  }

  /** Some checker source is present, so the checker is built before the executables are probed. */
  predicate HasCheckerSource(short: string, entries: seq<DirEntry>)
  {
    exists c :: c in CheckerSources(short) && IsFileIn(entries, c)
  }

  /** The last candidate that is a regular file: each one found overwrites the previous choice. */
  function LastFileIn(candidates: seq<string>, entries: seq<DirEntry>): (r: Option<string>)
    ensures r.Some? ==> r.value in candidates && IsFileIn(entries, r.value)
    ensures r.Some? ==> exists i :: 0 <= i < |candidates| && candidates[i] == r.value
                                    && forall j :: i < j < |candidates| ==> !IsFileIn(entries, candidates[j])
    ensures r.None? <==> forall c :: c in candidates ==> !IsFileIn(entries, c)
  {
    if candidates == [] then None
    else
      var last := candidates[|candidates| - 1];
      var prefix := candidates[..|candidates| - 1];
      assert candidates == prefix + [last];
      if IsFileIn(entries, last) then Some(last) else LastFileIn(prefix, entries)
  }

  /** The checker is `<short>chk.sh` when that file exists, else `<short>chk.e` when that exists, else none. */
  lemma CheckerChoice(short: string, entries: seq<DirEntry>)
    ensures LastFileIn(CheckerExecutables(short), entries)
            == if IsFileIn(entries, short + "chk.sh") then Some(short + "chk.sh")
               else if IsFileIn(entries, short + "chk.e") then Some(short + "chk.e")
               else None
  {
    var cands := CheckerExecutables(short);
    assert cands[..1] == [short + "chk.e"];
    assert cands[..1][..0] == [];
  }

  /** Position of the first extra file that is missing from `prog/`, or `|files|`. */
  function FirstMissing(files: seq<string>, entries: seq<DirEntry>): (k: nat)
    ensures k <= |files|
    ensures forall j :: 0 <= j < k ==> InDir(entries, files[j])
    ensures k < |files| ==> !InDir(entries, files[k])
  {
    if files == [] then 0
    else if !InDir(entries, files[0]) then 0
    else 1 + FirstMissing(files[1..], entries)
  }

  /** `m` is made from a regular file of `prog/` whose name matches the model-solution pattern, with the kind of its marker. */
  predicate IsModelSolution(short: string, entries: seq<DirEntry>, m: ModelSolution)
  {
    exists e :: e in entries && e.isFile && e.name == m.name && MatchSolutionName(short, e.name).Some?
                && m.kind == KindOfMarker(MatchSolutionName(short, e.name).value.marker)
  }

  /** The model solutions created from the listing of `prog/`, in listing order. */
  function ModelSolutionsOf(short: string, entries: seq<DirEntry>): (r: seq<ModelSolution>)
    ensures |r| <= |entries|
    ensures forall m :: m in r <==> IsModelSolution(short, entries, m)
  {
    if entries == [] then []
    else
      var prefix := entries[..|entries| - 1];
      var e := entries[|entries| - 1];
      var prev := ModelSolutionsOf(short, prefix);
      ModelSolutionsSnoc(short, prefix, e);
      var m := MatchSolutionName(short, e.name);
      if e.isFile && m.Some? then prev + [ModelSolution(e.name, KindOfMarker(m.value.marker))] else prev
  }

  /** A model solution of a listing with one more entry comes from the earlier entries or from that one. */
  lemma ModelSolutionsSnoc(short: string, prefix: seq<DirEntry>, e: DirEntry)
    ensures var m := MatchSolutionName(short, e.name);
            forall s :: IsModelSolution(short, prefix + [e], s)
                        <==> IsModelSolution(short, prefix, s)
                             || (e.isFile && m.Some? && s == ModelSolution(e.name, KindOfMarker(m.value.marker)))
  {
    var entries := prefix + [e];
    forall s | IsModelSolution(short, entries, s) && !IsModelSolution(short, prefix, s)
      ensures e.isFile && s == ModelSolution(e.name, KindOfMarker(MatchSolutionName(short, e.name).value.marker))
    {
      var x :| x in entries && x.isFile && x.name == s.name && MatchSolutionName(short, x.name).Some?
               && s.kind == KindOfMarker(MatchSolutionName(short, x.name).value.marker);
      assert x !in prefix;
    }
    forall s | IsModelSolution(short, prefix, s) ensures IsModelSolution(short, entries, s) {
      var x :| x in prefix && x.isFile && x.name == s.name && MatchSolutionName(short, x.name).Some?
               && s.kind == KindOfMarker(MatchSolutionName(short, x.name).value.marker);
      assert x in entries;
    }
    assert e in entries;
  }

  /** `os.path.basename(p)`. */
  function BaseName(p: string): (r: string)
    ensures '/' !in r && EndsWith(p, r)
  {
    var i := RFind(p, '/') + 1;
    AfterLast(p, i);
    p[i..]
  }

  lemma AfterLast(p: string, i: nat)
    requires i <= |p| && forall k :: i <= k < |p| ==> p[k] != '/'
    ensures '/' !in p[i..] && EndsWith(p, p[i..])
  {
    var r := p[i..];
    assert forall j :: 0 <= j < |r| ==> r[j] == p[i + j];
  }

  // ---------------------------------------------------------------------------
  // The problem's rows

  /** The rows of one problem that ingestion writes. */
  datatype ProblemState = ProblemState(tests: map<string, Test>, checker: Option<string>, extraFiles: seq<string>,
                                       modelSolutions: seq<ModelSolution>, originalPackage: Option<string>)

  /** A problem created just now: no tests, no checker file, no extra files, no model solutions, no stored package. */
  function EmptyState(): ProblemState
  {
    ProblemState(map[], None, [], [], None)
  }

  /** The extracted package as ingestion sees it: `config.yml`, the listing of `in/`, and `prog/` before and after the checker build. */
  datatype Extracted = Extracted(config: Config, inListing: seq<string>, prog: seq<DirEntry>, progAfterBuild: seq<DirEntry>)

  /**
   * What ingestion does to a problem whose rows were `s0`: the stages run in order and the
   * first one that raises stops it, leaving the rows written so far.
   */
  ghost predicate IngestResult(s0: ProblemState, s1: ProblemState, short: string, ex: Extracted,
                               before: (string, string) -> bool, packageName: string, err: Option<PackageError>)
  {
    var r := ProcessedTests(s0.tests, short, ex.inListing, ex.config, before, DEFAULT_TOTAL_SCORE);
    if r.Err? then
      err == Some(r.error)
      && s1 == s0.(tests := ScanAll(s0.tests, short, NaturalSorted(ex.inListing, before), ex.config).tests)
    else
      var prog := if HasCheckerSource(short, ex.prog) then ex.progAfterBuild else ex.prog;
      var files := ex.config.extraCompilationFiles;
      var k := FirstMissing(files, prog);
      var s2 := s0.(tests := r.value, checker := LastFileIn(CheckerExecutables(short), prog), extraFiles := files[..k]);
      if k < |files| then err == Some(ExtraFileMissing(files[k])) && s1 == s2
      else err.None? && s1 == s2.(modelSolutions := ModelSolutionsOf(short, prog), originalPackage := Some(packageName))
  }

  class Problem {
    var name: string
    var shortName: string
    var tests: map<string, Test>
    var checker: Option<string>
    var extraFiles: seq<string>
    var modelSolutions: seq<ModelSolution>
    var originalPackage: Option<string>

    function State(): ProblemState
      reads this
    {
      ProblemState(tests, checker, extraFiles, modelSolutions, originalPackage)
    }

    /** `Problem(name=short_name, short_name=short_name)`. */
    constructor(shortName: string)
      ensures this.shortName == shortName && name == shortName && State() == EmptyState()
    {
      this.name := shortName;
      this.shortName := shortName;
      tests := map[];
      checker := None;
      extraFiles := [];
      modelSolutions := [];
      originalPackage := None;
    }

    /** `_process_tests`: scan `in/` in natural order, prune, then distribute `total` over the scored groups. */
    method ProcessTests(listing: seq<string>, config: Config, before: (string, string) -> bool, total: nat)
      returns (err: Option<PackageError>)
      modifies this
      ensures name == old(name) && shortName == old(shortName)
      ensures err.None? <==> ProcessedTests(old(tests), shortName, listing, config, before, total).Ok?
      ensures err.None? ==> State() == old(State()).(tests := ProcessedTests(old(tests), shortName, listing, config, before, total).value)
      ensures err.Some? ==>
                err == Some(ProcessedTests(old(tests), shortName, listing, config, before, total).error)
                && State() == old(State()).(tests := ScanAll(old(tests), shortName, NaturalSorted(listing, before), config).tests)
    {
      var files := NaturalSorted(listing, before);
      var testNames, scoredGroups;
      testNames, scoredGroups, err := ScanListing(files, config);
      if err.Some? {
        return;
      }
      DeleteStaleTests(testNames);
      if scoredGroups != [] {
        AssignGroupScores(scoredGroups, before, total);
      }
    }

    /** The first loop of `_process_tests`: create or update the row of every matched file, in the given order. */
    method ScanListing(files: seq<string>, config: Config)
      returns (testNames: seq<string>, scoredGroups: seq<string>, err: Option<PackageError>)
      modifies this
      ensures name == old(name) && shortName == old(shortName) && State() == old(State()).(tests := tests)
      ensures var s := ScanAll(old(tests), shortName, files, config);
              tests == s.tests && err == s.error
              && (err.None? ==> testNames == s.names && scoredGroups == s.scored && Distinct(scoredGroups))
    {
      ghost var tests0 := tests;
      testNames := [];
      scoredGroups := [];
      for order := 0 to |files|
        invariant name == old(name) && shortName == old(shortName) && State() == old(State()).(tests := tests)
        invariant ScanAll(tests0, shortName, files[..order], config) == Scan(tests, testNames, scoredGroups, None)
      {
        var test := files[order];
        assert files[..order + 1][..order] == files[..order];
        var m := MatchTestName(shortName, test);
        if m.None? {
          if EndsWith(test, ".in") {
            ScanStops(tests0, shortName, files, order + 1, config);
            return testNames, scoredGroups, Some(UnrecognizedTest(test));
          }
        } else {
          var t := m.value;
          tests := tests[t.name := Upsert(Get(tests, t.name), t, order, config)];
          if KindOf(t) == Normal && t.group !in scoredGroups {
            scoredGroups := scoredGroups + [t.group];
          }
          testNames := testNames + [t.name];
        }
      }
      assert files[..|files|] == files;
      ScanNames(tests0, shortName, files, config);
      err := None;
    }

    /** The delete loop of `_process_tests`: every row whose name was not seen goes. */
    method DeleteStaleTests(testNames: seq<string>)
      modifies this
      ensures name == old(name) && shortName == old(shortName) && State() == old(State()).(tests := tests)
      ensures tests == Prune(old(tests), testNames)
    {
      ghost var scanned := tests;
      var stale := tests.Keys - Elements(testNames);
      while stale != {}
        invariant stale !! Elements(testNames)
        invariant tests.Keys == scanned.Keys * Elements(testNames) + stale
        invariant forall n :: n in tests ==> tests[n] == scanned[n]
        invariant name == old(name) && shortName == old(shortName) && State() == old(State()).(tests := tests)
        decreases stale
      {
        var n :| n in stale;
        tests := tests - {n};
        stale := stale - {n};
      }
      assert tests == Prune(scanned, testNames);
    }

    /** The score loop of `_process_tests`: reset every score to 0, then give each scored group its share. */
    method AssignGroupScores(scoredGroups: seq<string>, before: (string, string) -> bool, total: nat)
      requires scoredGroups != [] && Distinct(scoredGroups)
      modifies this
      ensures name == old(name) && shortName == old(shortName) && State() == old(State()).(tests := tests)
      ensures tests == AssignScores(old(tests), scoredGroups, before, total)
    {
      ghost var pruned := tests;
      ghost var sorted := NaturalSorted(scoredGroups, before);
      var numGroups := |scoredGroups|;
      var groupScore := total / numGroups;
      ExtraScoreGroupsFrom(sorted, total);
      var extraScoreGroups := NaturalSorted(scoredGroups, before)[numGroups - (total - numGroups * groupScore)..];
      assert |sorted| == numGroups;
      ResetScores(tests, sorted, total);
      var rows := map n | n in tests :: tests[n].(maxScore := Some(0));
      for i := 0 to |scoredGroups|
        invariant rows == ScoredSoFar(pruned, scoredGroups[..i], sorted, total)
        modifies {}
      {
        var group := scoredGroups[i];
        var score := groupScore;
        if group in extraScoreGroups {
          score := score + 1;
        }
        ScoreStep(pruned, scoredGroups, i, sorted, total, extraScoreGroups, score);
        rows := WithGroupScore(rows, group, score);
      }
      assert scoredGroups[..|scoredGroups|] == scoredGroups;
      tests := rows;
      AllGroupsScored(pruned, scoredGroups, before, total);
    }

    /**
     * `_process_checkers`: probe the sources in order and stop at the first one (it triggers a
     * build, whose outcome is `progAfterBuild`); then probe both executables, the later one
     * found replacing the earlier; with neither, the checker file is cleared.
     */
    method ProcessCheckers(prog: seq<DirEntry>, progAfterBuild: seq<DirEntry>) returns (built: bool)
      modifies this
      ensures name == old(name) && shortName == old(shortName)
      ensures built == HasCheckerSource(shortName, prog)
      ensures State() == old(State()).(checker := LastFileIn(CheckerExecutables(shortName), if built then progAfterBuild else prog))
    {
      var sourceCandidates := CheckerSources(shortName);
      built := false;
      for i := 0 to |sourceCandidates|
        invariant forall j :: 0 <= j < i ==> !IsFileIn(prog, sourceCandidates[j])
      {
        if IsFileIn(prog, sourceCandidates[i]) {
          built := true;
          break;
        }
      }
      var files := if built then progAfterBuild else prog;
      var exeCandidates := CheckerExecutables(shortName);
      var found: Option<string> := None;
      for i := 0 to |exeCandidates|
        invariant found == LastFileIn(exeCandidates[..i], files)
      {
        assert exeCandidates[..i + 1][..i] == exeCandidates[..i];
        if IsFileIn(files, exeCandidates[i]) {
          found := Some(exeCandidates[i]);
        }
      }
      assert exeCandidates[..|exeCandidates|] == exeCandidates;
      checker := found;
    }

    /** `_process_extra_files`: drop the old rows, then add the listed files in order until one is missing. */
    method ProcessExtraFiles(prog: seq<DirEntry>, config: Config) returns (err: Option<PackageError>)
      modifies this
      ensures name == old(name) && shortName == old(shortName)
      ensures var files := config.extraCompilationFiles;
              var k := FirstMissing(files, prog);
              && State() == old(State()).(extraFiles := files[..k])
              && err == if k < |files| then Some(ExtraFileMissing(files[k])) else None
    {
      var files := config.extraCompilationFiles;
      extraFiles := [];
      for i := 0 to |files|
        invariant extraFiles == files[..i]
        invariant forall j :: 0 <= j < i ==> InDir(prog, files[j])
        invariant name == old(name) && shortName == old(shortName) && State() == old(State()).(extraFiles := extraFiles)
      {
        var filename := files[i];
        if !InDir(prog, filename) {
          return Some(ExtraFileMissing(filename));
        }
        extraFiles := extraFiles + [filename];
      }
      assert files[..|files|] == files;
      err := None;
    }

    /** `_process_model_solutions`: drop the old rows, then add one per matching regular file of `prog/`. */
    method ProcessModelSolutions(prog: seq<DirEntry>)
      modifies this
      ensures name == old(name) && shortName == old(shortName)
      ensures State() == old(State()).(modelSolutions := ModelSolutionsOf(shortName, prog))
    {
      modelSolutions := [];
      for i := 0 to |prog|
        invariant modelSolutions == ModelSolutionsOf(shortName, prog[..i])
        invariant name == old(name) && shortName == old(shortName) && State() == old(State()).(modelSolutions := modelSolutions)
      {
        assert prog[..i + 1][..i] == prog[..i];
        var entry := prog[i];
        if !entry.isFile {
          continue;
        }
        var m := MatchSolutionName(shortName, entry.name);
        if m.Some? {
          modelSolutions := modelSolutions + [ModelSolution(entry.name, KindOfMarker(m.value.marker))];
        }
      }
      assert prog[..|prog|] == prog;
    }

    /** The stages of `unpack` that write the problem's rows, in order, stopping at the first error. */
    method Ingest(ex: Extracted, before: (string, string) -> bool, packageName: string) returns (err: Option<PackageError>)
      modifies this
      ensures name == old(name) && shortName == old(shortName)
      ensures IngestResult(old(State()), State(), shortName, ex, before, packageName, err)
    {
      err := ProcessTests(ex.inListing, ex.config, before, DEFAULT_TOTAL_SCORE);
      if err.Some? {
        return;
      }
      var built := ProcessCheckers(ex.prog, ex.progAfterBuild);
      var prog := if built then ex.progAfterBuild else ex.prog;
      err := ProcessExtraFiles(prog, ex.config);
      if err.Some? {
        return;
      }
      ProcessModelSolutions(prog);
      originalPackage := Some(packageName);
    }
  }

  // ---------------------------------------------------------------------------
  // The package

  /** `folder` is what `_find_main_folder` returns: the problem folder when there is exactly one, else nothing. */
  predicate IsMainFolder(files: seq<string>, folder: Option<string>)
  {
    && (folder.Some? <==> |ProblemFolders(files)| == 1)
    && (folder.Some? ==> ProblemFolders(files) == {folder.value})
  }

  /** Whether some entry of `files` lies under `<folder>/<sub>`: the negation of the `all(...)` test. */
  method AnyEntryUnder(files: seq<string>, folder: string, sub: string) returns (present: bool)
    ensures present == HasEntryUnder(files, folder, sub)
  {
    for i := 0 to |files|
      invariant forall j :: 0 <= j < i ==> FirstTwo(Split(files[j], '/')) != [folder, sub]
    {
      if FirstTwo(Split(files[i], '/')) == [folder, sub] {
        return true;
      }
    }
    return false;
  }

  ghost function FoldersAmong(files: seq<string>, names: set<string>): set<string>
  {
    set t | t in names && IsProblemFolder(files, t)
  }

  lemma FoldersAmongStep(files: seq<string>, done: set<string>, c: string)
    requires IsSlug(c)
    ensures FoldersAmong(files, done + {c})
            == FoldersAmong(files, done)
               + (if HasEntryUnder(files, c, "in") && HasEntryUnder(files, c, "out") then {c} else {})
  {
  }

  lemma FoldersAmongCandidates(files: seq<string>, candidates: set<string>)
    requires candidates == set t | t in (set f | f in files :: TopLevel(f)) && IsSlug(t)
    ensures FoldersAmong(files, candidates) == ProblemFolders(files)
  {
  }

  lemma OnlyFolder(files: seq<string>, found: seq<string>)
    requires Distinct(found) && Elements(found) == ProblemFolders(files)
    ensures IsMainFolder(files, if |found| == 1 then Some(found[0]) else None)
  {
    DistinctCard(found);
    if |found| == 1 {
      assert found == [found[0]];
      assert Elements(found) == {found[0]};
    }
  }

  /** The inner `for ... else` of `_find_main_folder`: both `in` and `out` have an entry under `folder`. */
  method HasRequiredSubfolders(files: seq<string>, folder: string) returns (complete: bool)
    ensures complete <==> HasEntryUnder(files, folder, "in") && HasEntryUnder(files, folder, "out")
  {
    var required := ["in", "out"];
    assert required[0] == "in" && required[1] == "out";
    complete := true;
    for i := 0 to |required|
      invariant complete
      invariant forall j :: 0 <= j < i ==> HasEntryUnder(files, folder, required[j])
    {
      var present := AnyEntryUnder(files, folder, required[i]);
      if !present {
        assert !(HasEntryUnder(files, folder, "in") && HasEntryUnder(files, folder, "out"));
        complete := false;
        break;
      }
    }
  }

  class SinolPackage {
    /** The name the package was uploaded under. */
    const filename: string
    /** `archive.filenames()`, already normalised. */
    const files: seq<string>
    var shortName: Option<string>

    constructor(filename: string, files: seq<string>)
      ensures this.filename == filename && this.files == files
      ensures IsMainFolder(files, shortName)
    {
      this.filename := filename;
      this.files := files;
      new;
      shortName := FindMainFolder();
    }

    /** `_find_main_folder`: keep the slug-shaped top-level folders with entries under both `in` and `out`; answer only if one is left. */
    method FindMainFolder() returns (folder: Option<string>)
      ensures IsMainFolder(files, folder)
    {
      var toplevelFolders := set f | f in files :: TopLevel(f);
      var candidates := set t | t in toplevelFolders && IsSlug(t);
      var problemFolders: seq<string> := [];
      var remaining := candidates;
      while remaining != {}
        invariant remaining <= candidates
        invariant Distinct(problemFolders)
        invariant forall t :: t in problemFolders ==> t !in remaining
        invariant Elements(problemFolders) == FoldersAmong(files, candidates - remaining)
        decreases remaining
      {
        var candidate :| candidate in remaining;
        var complete := HasRequiredSubfolders(files, candidate);
        FoldersAmongStep(files, candidates - remaining, candidate);
        assert candidates - (remaining - {candidate}) == (candidates - remaining) + {candidate};
        if complete {
          assert Elements(problemFolders + [candidate]) == Elements(problemFolders) + {candidate};
          problemFolders := problemFolders + [candidate];
        }
        remaining := remaining - {candidate};
      }
      assert candidates - remaining == candidates;
      FoldersAmongCandidates(files, candidates);
      OnlyFolder(files, problemFolders);
      if |problemFolders| == 1 {
        folder := Some(problemFolders[0]);
      } else {
        folder := None;
      }
    }

    /** `identify`: the archive is a Sinol package exactly when it has a single problem folder. */
    method Identify() returns (b: bool)
      ensures b <==> |ProblemFolders(files)| == 1
    {
      var folder := FindMainFolder();
      b := folder.Some?;
    }

    /**
     * `unpack`: find the problem folder again, refuse a re-upload that would change the
     * problem's short name, create the problem when there is none, then ingest.
     */
    method Unpack(existing: Problem?, ex: Extracted, before: (string, string) -> bool)
      returns (problem: Problem?, err: Option<PackageError>)
      modifies this, existing
      ensures IsMainFolder(files, shortName)
      ensures existing != null && Some(old(existing.shortName)) != shortName ==>
                && problem == existing
                && err == Some(ShortNameChanged(old(existing.shortName), shortName))
                && existing.shortName == old(existing.shortName) && existing.State() == old(existing.State())
      ensures existing != null && Some(old(existing.shortName)) == shortName ==>
                && problem == existing && existing.shortName == old(existing.shortName)
                && IngestResult(old(existing.State()), existing.State(), existing.shortName, ex, before, BaseName(filename), err)
      ensures existing == null && shortName.None? ==> problem == null && err == Some(NoProblemFolder)
      ensures existing == null && shortName.Some? ==>
                && problem != null && fresh(problem)
                && problem.shortName == shortName.value && problem.name == shortName.value
                && IngestResult(EmptyState(), problem.State(), problem.shortName, ex, before, BaseName(filename), err)
    {
      shortName := FindMainFolder();
      if existing != null {
        problem := existing;
        if Some(existing.shortName) != shortName {
          return problem, Some(ShortNameChanged(existing.shortName, shortName));
        }
      } else {
        if shortName.None? {
          return null, Some(NoProblemFolder);
        }
        problem := new Problem(shortName.value);
      }
      err := problem.Ingest(ex, before, BaseName(filename));
    }
  }
}
