/**
 * Export of a problem as a Sinol package: the stored original archive when there is one,
 * otherwise a new archive `<short>.zip` holding the PDF statements, the tests and the model
 * solutions under the problem folder. Only the member names are modelled, not their bytes.
 */
module SinolCreator {
  import opened Wrappers
  import opened Text
  import opened SinolNames
  import opened SinolPackage

  /** A statement row: the name of its stored file and its language. */
  datatype Statement = Statement(contentName: string, language: Option<string>)

  /** What `pack` streams back. */
  datatype PackResult = OriginalArchive(fileName: string) | NewArchive(fileName: string, members: seq<string>)

  /** `os.path.join` of relative components. */
  function PathJoin(parts: seq<string>): string
  {
    Join(parts, '/')
  }

  /** A language that is present and not empty: Python's truth test on `statement.language`. */
  predicate HasLanguage(s: Statement)
  {
    s.language.Some? && s.language.value != ""
  }

  function StatementPath(short: string, s: Statement): string
  {
    if HasLanguage(s) then PathJoin([short, "doc", short + "zad-" + s.language.value + ".pdf"])
    else PathJoin([short, "doc", short + "zad.pdf"])
  }

  function TestInputPath(short: string, name: string): string
  {
    PathJoin([short, "in", short + name + ".in"])
  }

  function TestOutputPath(short: string, name: string): string
  {
    PathJoin([short, "out", short + name + ".out"])
  }

  function SolutionPath(short: string, name: string): string
  {
    PathJoin([short, "prog", name])
  }

  /** The members `_pack_statement` writes: one per PDF statement, in order; other files are skipped. */
  function StatementMembers(short: string, statements: seq<Statement>): (r: seq<string>)
    ensures |r| <= |statements|
    ensures forall p :: p in r <==>
              exists s :: s in statements && EndsWith(s.contentName, ".pdf") && p == StatementPath(short, s)
  {
    if statements == [] then []
    else
      var prefix := statements[..|statements| - 1];
      var s := statements[|statements| - 1];
      assert statements == prefix + [s];
      var prev := StatementMembers(short, prefix);
      if EndsWith(s.contentName, ".pdf") then prev + [StatementPath(short, s)] else prev
  }

  /** The members `_pack_tests` writes for the rows keyed by `keys`: an input and an output per test. */
  function TestMembersAmong(short: string, tests: map<string, Test>, keys: set<string>): set<string>
    requires keys <= tests.Keys
  {
    (set n | n in keys :: TestInputPath(short, tests[n].name))
    + (set n | n in keys :: TestOutputPath(short, tests[n].name))
  }

  function TestMembers(short: string, tests: map<string, Test>): set<string>
  {
    TestMembersAmong(short, tests, tests.Keys)
  }

  lemma TestMembersStep(short: string, tests: map<string, Test>, keys: set<string>, n: string)
    requires keys <= tests.Keys && n in tests
    ensures TestMembersAmong(short, tests, keys + {n})
            == TestMembersAmong(short, tests, keys)
               + {TestInputPath(short, tests[n].name), TestOutputPath(short, tests[n].name)}
  {
  }

  /** The members `_pack_model_solutions` writes, in order. */
  function SolutionMembers(short: string, solutions: seq<ModelSolution>): (r: seq<string>)
    ensures |r| == |solutions|
    ensures forall i :: 0 <= i < |r| ==> r[i] == SolutionPath(short, solutions[i].name)
  {
    if solutions == [] then []
    else [SolutionPath(short, solutions[0].name)] + SolutionMembers(short, solutions[1..])
  }

  class SinolPackageCreator {
    const shortName: string
    /** The names of the members written to the archive so far. */
    var zip: seq<string>

    constructor(problem: Problem)
      ensures shortName == problem.shortName && zip == []
    {
      shortName := problem.shortName;
      zip := [];
    }

    method PackStatement(statements: seq<Statement>)
      modifies this
      ensures zip == old(zip) + StatementMembers(shortName, statements)
    {
      for i := 0 to |statements|
        invariant zip == old(zip) + StatementMembers(shortName, statements[..i])
      {
        assert statements[..i + 1][..i] == statements[..i];
        var statement := statements[i];
        if !EndsWith(statement.contentName, ".pdf") {
          continue;
        }
        var filename;
        if HasLanguage(statement) {
          filename := PathJoin([shortName, "doc", shortName + "zad-" + statement.language.value + ".pdf"]);
        } else {
          filename := PathJoin([shortName, "doc", shortName + "zad.pdf"]);
        }
        zip := zip + [filename];
      }
      assert statements[..|statements|] == statements;
    }

    /** The rows are visited in no particular order; each adds its input and its output. */
    method PackTests(tests: map<string, Test>)
      modifies this
      ensures |zip| >= |old(zip)| && zip[..|old(zip)|] == old(zip)
      ensures Elements(zip[|old(zip)|..]) == TestMembers(shortName, tests)
    {
      var remaining := tests.Keys;
      ghost var start := |zip|;
      while remaining != {}
        invariant start == |old(zip)| <= |zip| && zip[..start] == old(zip)
        invariant remaining <= tests.Keys
        invariant Elements(zip[start..]) == TestMembersAmong(shortName, tests, tests.Keys - remaining)
        decreases remaining
      {
        var n :| n in remaining;
        var test := tests[n];
        var basename := shortName + test.name;
        ghost var before := zip;
        zip := zip + [PathJoin([shortName, "in", basename + ".in"]), PathJoin([shortName, "out", basename + ".out"])];
        assert zip[start..] == before[start..] + [TestInputPath(shortName, test.name), TestOutputPath(shortName, test.name)];
        TestMembersStep(shortName, tests, tests.Keys - remaining, n);
        assert tests.Keys - (remaining - {n}) == (tests.Keys - remaining) + {n};
        remaining := remaining - {n};
      }
      assert tests.Keys - remaining == tests.Keys;
    }

    method PackModelSolutions(solutions: seq<ModelSolution>)
      modifies this
      ensures zip == old(zip) + SolutionMembers(shortName, solutions)
    {
      for i := 0 to |solutions|
        invariant zip == old(zip) + SolutionMembers(shortName, solutions[..i])
      {
        SolutionMembersSnoc(shortName, solutions[..i], solutions[i]);
        assert solutions[..i + 1] == solutions[..i] + [solutions[i]];
        zip := zip + [PathJoin([shortName, "prog", solutions[i].name])];
      }
      assert solutions[..|solutions|] == solutions;
    }

    /** `pack`: the stored original when there is one; otherwise statements, tests and model solutions, in that order. */
    method Pack(problem: Problem, statements: seq<Statement>) returns (r: PackResult)
      requires problem.shortName == shortName
      modifies this
      ensures problem.originalPackage.Some? ==> r == OriginalArchive(problem.originalPackage.value) && zip == old(zip)
      ensures problem.originalPackage.None? ==>
                && r == NewArchive(shortName + ".zip", zip)
                && exists testPart :: zip == StatementMembers(shortName, statements) + testPart
                                             + SolutionMembers(shortName, problem.modelSolutions)
                                      && Elements(testPart) == TestMembers(shortName, problem.tests)
    {
      if problem.originalPackage.Some? {
        return OriginalArchive(problem.originalPackage.value);
      }
      zip := [];
      PackStatement(statements);
      ghost var a := zip;
      PackTests(problem.tests);
      ghost var b := zip;
      PackModelSolutions(problem.modelSolutions);
      assert b == a + b[|a|..];
      assert zip == StatementMembers(shortName, statements) + b[|a|..] + SolutionMembers(shortName, problem.modelSolutions);
      r := NewArchive(shortName + ".zip", zip);
    }
  }

  lemma SolutionMembersSnoc(short: string, solutions: seq<ModelSolution>, m: ModelSolution)
    ensures SolutionMembers(short, solutions + [m]) == SolutionMembers(short, solutions) + [SolutionPath(short, m.name)]
  {
  }

  // ---------------------------------------------------------------------------
  // The new archive is a package the ingestion rules accept

  /** Every member path the creator writes lies under the problem folder. */
  lemma JoinedTopLevel(short: string, sub: string, file: string)
    requires '/' !in short
    ensures TopLevel(PathJoin([short, sub, file])) == short
  {
    SplitJoinHead([short, sub, file], '/');
  }

  /** Every statement member lies under the problem folder. */
  lemma StatementsUnderRoot(short: string, statements: seq<Statement>)
    requires '/' !in short
    ensures forall m :: m in StatementMembers(short, statements) ==> TopLevel(m) == short
  {
    forall m | m in StatementMembers(short, statements) ensures TopLevel(m) == short {
      var st :| st in statements && EndsWith(st.contentName, ".pdf") && m == StatementPath(short, st);
      if HasLanguage(st) {
        JoinedTopLevel(short, "doc", short + "zad-" + st.language.value + ".pdf");
      } else {
        JoinedTopLevel(short, "doc", short + "zad.pdf");
      }
    }
  }

  /** Every test member lies under the problem folder. */
  lemma TestsUnderRoot(short: string, tests: map<string, Test>)
    requires '/' !in short
    ensures forall m :: m in TestMembers(short, tests) ==> TopLevel(m) == short
  {
    forall m | m in TestMembers(short, tests) ensures TopLevel(m) == short {
      var n :| n in tests && (m == TestInputPath(short, tests[n].name) || m == TestOutputPath(short, tests[n].name));
      JoinedTopLevel(short, "in", short + tests[n].name + ".in");
      JoinedTopLevel(short, "out", short + tests[n].name + ".out");
    }
  }

  /** Every model-solution member lies under the problem folder. */
  lemma SolutionsUnderRoot(short: string, solutions: seq<ModelSolution>)
    requires '/' !in short
    ensures forall m :: m in SolutionMembers(short, solutions) ==> TopLevel(m) == short
  {
    var sols := SolutionMembers(short, solutions);
    forall m | m in sols ensures TopLevel(m) == short {
      var i :| 0 <= i < |sols| && sols[i] == m;
      JoinedTopLevel(short, "prog", solutions[i].name);
    }
  }

  /** A member `<short>/<sub>/<file>` is an entry under `<short>/<sub>`. */
  lemma JoinedFirstTwo(short: string, sub: string, file: string)
    requires '/' !in short && '/' !in sub
    ensures FirstTwo(Split(PathJoin([short, sub, file]), '/')) == [short, sub]
  {
    assert [short, sub, file][1..] == [sub, file];
    assert [sub, file][1..] == [file];
    assert Join([sub, file], '/') == sub + ['/'] + file;
    assert PathJoin([short, sub, file]) == short + ['/'] + (sub + ['/'] + file);
    SplitAfterHead(short, '/', sub + ['/'] + file);
    SplitAfterHead(sub, '/', file);
  }

  /**
   * A synthesized archive of a problem with at least one test has exactly one problem folder:
   * the problem's short name, which the unpacker then identifies.
   */
  lemma NewArchiveRoot(short: string, statements: seq<Statement>, testPart: seq<string>,
                       tests: map<string, Test>, solutions: seq<ModelSolution>)
    requires IsSlug(short) && |tests| > 0
    requires Elements(testPart) == TestMembers(short, tests)
    ensures ProblemFolders(StatementMembers(short, statements) + testPart + SolutionMembers(short, solutions)) == {short}
  {
    var zip := StatementMembers(short, statements) + testPart + SolutionMembers(short, solutions);
    assert forall i :: 0 <= i < |short| ==> short[i] != '/';
    StatementsUnderRoot(short, statements);
    TestsUnderRoot(short, tests);
    SolutionsUnderRoot(short, solutions);
    assert forall m :: m in zip ==> TopLevel(m) == short;
    var n :| n in tests;
    var input := TestInputPath(short, tests[n].name);
    var output := TestOutputPath(short, tests[n].name);
    assert input in TestMembers(short, tests) && output in TestMembers(short, tests);
    assert input in zip && output in zip;
    JoinedFirstTwo(short, "in", short + tests[n].name + ".in");
    JoinedFirstTwo(short, "out", short + tests[n].name + ".out");
    assert IsProblemFolder(zip, short);
    assert TopLevel(input) == short;
    assert TopLevelFolders(zip) == {short};
  }

  /** The input member written for a test recognised from `file` names that same file, which parses back to the same test. */
  lemma ExportedTestReparses(short: string, file: string, t: TestName)
    requires '/' !in short && '/' !in file
    requires MatchTestName(short, file) == Some(t)
    ensures Split(TestInputPath(short, t.name), '/') == [short, "in", file]
    ensures MatchTestName(short, Split(TestInputPath(short, t.name), '/')[2]) == Some(t)
  {
    assert '/' !in "in";
    SplitJoin([short, "in", file], '/');
  }
}
