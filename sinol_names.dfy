/**
 * The naming rules of a Sinol package, as functions of the file names alone:
 * which top-level folder is the problem root, how a file in `in/` is parsed and
 * classified, how a file in `prog/` is recognised as a model solution, and which
 * files are the checker's source and executable.
 */
module SinolNames {
  import opened Wrappers
  import opened Text

  // ---------------------------------------------------------------------------
  // Problem root

  /** Django's `slug_re`: `[-a-zA-Z0-9_]+`. */
  predicate IsSlugChar(c: char)
  {
    c == '-' || c == '_' || IsDigit(c) || 'a' <= c <= 'z' || 'A' <= c <= 'Z'
  }

  predicate IsSlug(s: string)
  {
    |s| > 0 && forall i :: 0 <= i < |s| ==> IsSlugChar(s[i])
  }

  /** `f.split(os.sep)[0]`. */
  function TopLevel(path: string): string
  {
    Split(path, '/')[0]
  }

  /** `parts[:2]`. */
  function FirstTwo(parts: seq<string>): seq<string>
  {
    if |parts| <= 2 then parts else parts[..2]
  }

  /** Some archive entry lies at or below `<folder>/<sub>`. */
  predicate HasEntryUnder(files: seq<string>, folder: string, sub: string)
  {
    exists f :: f in files && FirstTwo(Split(f, '/')) == [folder, sub]
  }

  function TopLevelFolders(files: seq<string>): set<string>
  {
    set f | f in files :: TopLevel(f)
  }

  /** A slug-shaped top-level name with entries under both its `in` and `out`. */
  predicate IsProblemFolder(files: seq<string>, folder: string)
  {
    IsSlug(folder) && HasEntryUnder(files, folder, "in") && HasEntryUnder(files, folder, "out")
  }

  function ProblemFolders(files: seq<string>): set<string>
  {
    set t | t in TopLevelFolders(files) && IsProblemFolder(files, t)
  }

  // ---------------------------------------------------------------------------
  // Test files

  datatype TestKind = Example | Normal

  /**
   * The groups of a matched test file `odl0ocen.in`: basename `odl0ocen`,
   * name `0ocen`, group `0`, suffix `ocen`.
   */
  datatype TestName = TestName(basename: string, name: string, group: string, suffix: string)

  /** The shape every matched name has: a digit run, then a lower-case alphanumeric tail not starting with a digit. */
  predicate WellFormed(t: TestName)
  {
    && t.name == t.group + t.suffix
    && |t.group| > 0 && AllDigits(t.group)
    && AllLowerAlnum(t.suffix)
    && (t.suffix != [] ==> !IsDigit(t.suffix[0]))
  }

  /** The part between the short name and the three-character tail, parsed as `([0-9]+)([a-z]?[a-z0-9]*)`. */
  function MatchTestBody(short: string, body: string): (r: Option<TestName>)
    ensures r.Some? ==> WellFormed(r.value) && r.value.name == body && r.value.basename == short + body
  {
    var n := LeadingDigits(body);
    if n == 0 || !AllLowerAlnum(body[n..]) then None
    else
      assert body == body[..n] + body[n..];
      Some(TestName(short + body, body, body[..n], body[n..]))
  }

  /**
   * The pattern `^(<short>(([0-9]+)([a-z]?[a-z0-9]*))).in$` exactly as written: the
   * unescaped '.' matches any character except a newline.
   */
  function MatchTestNameAsWritten(short: string, file: string): Option<TestName>
  {
    if |file| < |short| + 4 || !StartsWith(file, short) || file[|file| - 3] == '\n'
       || file[|file| - 2..] != "in"
    then None
    else MatchTestBody(short, file[|short|..|file| - 3])
  }

  /**
   * The test-file pattern with the dot taken literally, `^<short>([0-9]+)([a-z]?[a-z0-9]*)\.in$`:
   * a match is exactly the file `<short><name>.in` for a well-formed name.
   */
  function MatchTestName(short: string, file: string): (r: Option<TestName>)
    ensures r.Some? ==> WellFormed(r.value)
    ensures r.Some? ==> file == short + r.value.name + ".in" && r.value.basename == short + r.value.name
  {
    if |file| < |short| + 4 || !StartsWith(file, short) || !EndsWith(file, ".in") then None
    else
      var body := file[|short|..|file| - 3];
      assert file == file[..|short|] + body + file[|file| - 3..];
      MatchTestBody(short, body)
  }

  /** Every well-formed name is recognised, with its digit run as group and the rest as suffix. */
  lemma MatchTestNameComplete(short: string, group: string, suffix: string)
    requires WellFormed(TestName(short + group + suffix, group + suffix, group, suffix))
    ensures MatchTestName(short, short + group + suffix + ".in")
            == Some(TestName(short + group + suffix, group + suffix, group, suffix))
  {
    var file := short + group + suffix + ".in";
    assert file[..|short|] == short;
    assert file[|file| - 3..] == ".in";
    var body := file[|short|..|file| - 3];
    assert body == group + suffix;
    LeadingDigitsOf(group, suffix);
    assert body[|group|..] == suffix;
    assert body[..|group|] == group;
  }

  /** Two matched files with the same test name are the same file. */
  lemma MatchTestNameInjective(short: string, f1: string, f2: string)
    requires MatchTestName(short, f1).Some? && MatchTestName(short, f2).Some?
    requires MatchTestName(short, f1).value.name == MatchTestName(short, f2).value.name
    ensures f1 == f2
  {
  }

  /**
   * The written pattern accepts a file that does not end in `.in` and gives it the name
   * of another file: `abc1xin` and `abc1.in` are both test `1` of problem `abc`.
   */
  lemma AsWrittenAcceptsAnyCharBeforeIn()
    ensures !EndsWith("abc1xin", ".in")
    ensures MatchTestNameAsWritten("abc", "abc1xin") == Some(TestName("abc1", "1", "1", ""))
    ensures MatchTestNameAsWritten("abc", "abc1.in") == Some(TestName("abc1", "1", "1", ""))
    ensures MatchTestName("abc", "abc1xin") == None
    ensures MatchTestName("abc", "abc1.in") == Some(TestName("abc1", "1", "1", ""))
  {
    assert "abc" + "1" == "abc1";
    assert "abc1xin"[4] == 'x' && "abc1xin"[5..] == "in";
    assert "abc1.in"[4] == '.' && "abc1.in"[5..] == "in";
    assert "abc1xin"[3..4] == "1";
    assert "abc1.in"[3..4] == "1";
    assert LeadingDigits("1") == 1 by {
      LeadingDigitsOf("1", "");
      assert "1" + "" == "1";
    }
    assert "abc1xin"[4..] == "xin";
    assert "abc1xin"[..3] == "abc";
    assert "abc1.in"[..3] == "abc";
    assert "abc1.in"[4..] == ".in";
    assert "1"[1..] == "";
    assert "1"[..1] == "1";
  }

  /** EXAMPLE: group `0`, or a suffix containing `ocen`. */
  predicate IsExample(t: TestName)
  {
    t.group == "0" || Contains(t.suffix, "ocen")
  }

  function KindOf(t: TestName): TestKind
  {
    if IsExample(t) then Example else Normal
  }

  /** An EXAMPLE test is its own group, named by its whole name; a NORMAL test is grouped by its digits. */
  function GroupOf(t: TestName): string
  {
    if IsExample(t) then t.name else t.group
  }

  /** A NORMAL group id is a digit string other than "0". */
  lemma NormalGroupShape(t: TestName)
    requires WellFormed(t) && KindOf(t) == Normal
    ensures AllDigits(GroupOf(t)) && |GroupOf(t)| > 0 && GroupOf(t) != "0"
  {
  }

  /** No EXAMPLE test ever lands in a NORMAL test's group, so EXAMPLE tests never share a scored group. */
  lemma ExampleGroupIsNeverScored(e: TestName, n: TestName)
    requires WellFormed(e) && WellFormed(n)
    requires KindOf(e) == Example && KindOf(n) == Normal
    ensures GroupOf(e) != GroupOf(n)
  {
    if e.suffix == [] {
      assert !Contains(e.suffix, "ocen");
      assert e.name == e.group;
    } else {
      assert e.name[|e.group|] == e.suffix[0];
      assert !IsDigit(e.name[|e.group|]);
    }
  }

  // ---------------------------------------------------------------------------
  // Model solutions

  datatype SolutionKind = NormalSolution | Slow | Incorrect

  /** The pieces of `<short>([0-9]*)([bs]?)([0-9]*)\.(ext)` a solution name was matched with. */
  datatype SolutionMatch = SolutionMatch(lead: string, marker: string, trail: string, ext: string)

  /** The alternatives of `(c|cpp|py|pas|java)`, in the order they are tried. */
  const SourceExtensions: seq<string> := ["c", "cpp", "py", "pas", "java"]

  /** The first alternative that is a prefix of `s`. */
  function FirstPrefix(s: string, alternatives: seq<string>): (r: Option<string>)
    ensures r.Some? ==> r.value in alternatives && StartsWith(s, r.value)
    ensures r.None? ==> forall e :: e in alternatives ==> !StartsWith(s, e)
  {
    if alternatives == [] then None
    else if StartsWith(s, alternatives[0]) then Some(alternatives[0])
    else FirstPrefix(s, alternatives[1..])
  }

  predicate IsMarker(marker: string) { marker == "" || marker == "b" || marker == "s" }

  /** Cutting a string at four points and gluing the pieces back gives its prefix. */
  lemma Pieces(s: string, i: nat, j: nat, k: nat, m: nat)
    requires i <= j <= k < k + 1 + m <= |s|
    ensures s[..k + 1 + m] == s[..i] + s[i..j] + s[j..k] + [s[k]] + s[k + 1..][..m]
  {
    assert s[k + 1..][..m] == s[k + 1..k + 1 + m];
  }

  /** The text a solution match covers: `<lead><marker><trail>.<ext>`. */
  function SolutionPrefix(m: SolutionMatch): string
  {
    m.lead + m.marker + m.trail + "." + m.ext
  }

  /** `[0-9]*([bs]?)[0-9]*\.(c|cpp|py|pas|java)` applied at the start of `rest`, greedily. */
  function MatchSolutionRest(rest: string): (r: Option<SolutionMatch>)
    ensures r.Some? ==> IsMarker(r.value.marker) && r.value.ext in SourceExtensions
  {
    var i := LeadingDigits(rest);
    MatchAfterMarker(rest, i, MarkerAt(rest, i))
  }

  /** `[bs]?` at position `i`: the letter when one is there, otherwise nothing. */
  function MarkerAt(rest: string, i: nat): (m: string)
    requires i <= |rest|
    ensures IsMarker(m) && i + |m| <= |rest| && rest[i..i + |m|] == m
  {
    if i < |rest| && (rest[i] == 'b' || rest[i] == 's') then [rest[i]] else ""
  }

  /** Where the digit run starting at `j` stops. */
  function RunEnd(rest: string, j: nat): (k: nat)
    requires j <= |rest|
    ensures j <= k <= |rest|
  {
    j + LeadingDigits(rest[j..])
  }

  /** The rest of the pattern once the first digit run (up to `i`) and the marker have been taken. */
  function MatchAfterMarker(rest: string, i: nat, marker: string): (r: Option<SolutionMatch>)
    requires i + |marker| <= |rest|
    ensures r.Some? ==> r.value.marker == marker && r.value.ext in SourceExtensions
  {
    var j := i + |marker|;
    var k := RunEnd(rest, j);
    if k < |rest| && rest[k] == '.' then
      match FirstPrefix(rest[k + 1..], SourceExtensions)
      case None => None
      case Some(ext) => Some(SolutionMatch(rest[..i], marker, rest[j..k], ext))
    else None
  }

  /** What the tail of the pattern matched really is the text that follows the first digit run and the marker. */
  lemma AfterMarkerSound(rest: string, i: nat, marker: string)
    requires i + |marker| <= |rest| && rest[i..i + |marker|] == marker
    ensures var r := MatchAfterMarker(rest, i, marker);
            r.Some? ==> r.value.lead == rest[..i] && AllDigits(r.value.trail)
                        && StartsWith(rest, SolutionPrefix(r.value))
  {
    var r := MatchAfterMarker(rest, i, marker);
    if r.Some? {
      var j := i + |marker|;
      var k := RunEnd(rest, j);
      var ext := r.value.ext;
      Pieces(rest, i, j, k, |ext|);
      assert forall m :: j <= m < k ==> rest[j..][m - j] == rest[m];
      assert [rest[k]] == "." && rest[k + 1..][..|ext|] == ext;
      assert SolutionPrefix(r.value) == rest[..k + 1 + |ext|];
    }
  }

  /** A match is made of two digit runs, the marker, a dot and the extension, and it is a prefix of the text. */
  lemma MatchSolutionRestSound(rest: string)
    ensures var r := MatchSolutionRest(rest);
            r.Some? ==> AllDigits(r.value.lead) && AllDigits(r.value.trail)
                        && StartsWith(rest, SolutionPrefix(r.value))
  {
    var i := LeadingDigits(rest);
    AfterMarkerSound(rest, i, MarkerAt(rest, i));
    assert forall m :: 0 <= m < i ==> rest[..i][m] == rest[m];
  }

  /**
   * The model-solution pattern `^<short>[0-9]*([bs]?)[0-9]*\.(c|cpp|py|pas|java)`. It is
   * anchored at the start only, so anything may follow the extension.
   */
  function MatchSolutionName(short: string, name: string): (r: Option<SolutionMatch>)
    ensures r.Some? ==> IsMarker(r.value.marker) && r.value.ext in SourceExtensions
  {
    if !StartsWith(name, short) then None
    else MatchSolutionRest(name[|short|..])
  }

  /** A model-solution name starts with the short name, then the text of the match. */
  lemma MatchSolutionNameSound(short: string, name: string)
    ensures var r := MatchSolutionName(short, name);
            r.Some? ==> AllDigits(r.value.lead) && AllDigits(r.value.trail)
                        && StartsWith(name, short + SolutionPrefix(r.value))
  {
    var r := MatchSolutionName(short, name);
    if r.Some? {
      MatchSolutionRestSound(name[|short|..]);
      StartsWithConcat(name, short, SolutionPrefix(r.value));
    }
  }

  /** The kind table `{'': NORMAL, 's': SLOW, 'b': INCORRECT}`. */
  function KindOfMarker(marker: string): SolutionKind
    requires IsMarker(marker)
  {
    if marker == "s" then Slow else if marker == "b" then Incorrect else NormalSolution
  }

  /** Without a marker, the digits before the dot are all taken by the first run. */
  lemma MatchSolutionRestNoMarker(digits: string, after: string)
    requires AllDigits(digits)
    requires |after| > 0 && after[0] == '.' && FirstPrefix(after[1..], SourceExtensions).Some?
    ensures var r := MatchSolutionRest(digits + after); r.Some? && r.value.marker == ""
  {
    var rest := digits + after;
    var i := |digits|;
    LeadingDigitsOf(digits, after);
    assert rest[i..] == after;
    assert rest[i..i] == "";
    assert RunEnd(rest, i) == i by {
      LeadingDigitsOf("", after);
      assert "" + after == after;
    }
    assert rest[i + 1..] == after[1..];
    assert MarkerAt(rest, i) == "";
    MatchRestAt(rest, i, "", i);
  }

  /** The match, stated on the positions where the two digit runs stop. */
  lemma MatchRestAt(rest: string, i: nat, marker: string, k: nat)
    requires LeadingDigits(rest) == i && marker == MarkerAt(rest, i)
    requires k == RunEnd(rest, i + |marker|) && k < |rest| && rest[k] == '.'
    requires FirstPrefix(rest[k + 1..], SourceExtensions).Some?
    ensures MatchSolutionRest(rest).Some? && MatchSolutionRest(rest).value.marker == marker
  {
    AfterMarkerAt(rest, i, marker, k);
    assert MatchSolutionRest(rest) == MatchAfterMarker(rest, i, marker);
  }

  /** The tail of the pattern matches once the second digit run stops at a dot followed by an extension. */
  lemma AfterMarkerAt(rest: string, i: nat, marker: string, k: nat)
    requires i + |marker| <= |rest|
    requires k == RunEnd(rest, i + |marker|) && k < |rest| && rest[k] == '.'
    requires FirstPrefix(rest[k + 1..], SourceExtensions).Some?
    ensures MatchAfterMarker(rest, i, marker).Some?
  {
  }

  /** The first digit run of `<lead><marker><tail>` stops at the marker. */
  lemma LeadBeforeMarker(lead: string, marker: string, tail: string)
    requires AllDigits(lead) && (marker == "b" || marker == "s")
    ensures var rest := lead + (marker + tail);
            LeadingDigits(rest) == |lead| && rest[|lead|] == marker[0] && [rest[|lead|]] == marker
            && rest[|lead| + 1..] == tail
  {
    LeadingDigitsOf(lead, marker + tail);
    var rest := lead + (marker + tail);
    assert rest[|lead|..] == marker + tail;
  }

  /** The second digit run of `<trail>.<...>` stops at the dot. */
  lemma TrailBeforeDot(trail: string, after: string)
    requires AllDigits(trail) && |after| > 0 && after[0] == '.'
    ensures var tail := trail + after;
            LeadingDigits(tail) == |trail| && tail[|trail|] == '.' && tail[|trail| + 1..] == after[1..]
  {
    LeadingDigitsOf(trail, after);
    var tail := trail + after;
    assert tail[|trail|..] == after;
  }

  /** A `b` or `s` between the two digit runs is taken as the marker. */
  lemma MatchSolutionRestMarker(lead: string, marker: string, trail: string, after: string)
    requires AllDigits(lead) && AllDigits(trail) && (marker == "b" || marker == "s")
    requires |after| > 0 && after[0] == '.' && FirstPrefix(after[1..], SourceExtensions).Some?
    ensures var r := MatchSolutionRest(lead + (marker + (trail + after))); r.Some? && r.value.marker == marker
  {
    var tail := trail + after;
    var rest := lead + (marker + tail);
    LeadBeforeMarker(lead, marker, tail);
    TrailBeforeDot(trail, after);
    var j := |lead| + 1;
    var k := j + |trail|;
    assert rest[j..] == tail;
    assert rest[k] == tail[|trail|];
    assert rest[k + 1..] == tail[|trail| + 1..];
    assert MarkerAt(rest, |lead|) == marker;
    assert RunEnd(rest, j) == k;
    MatchRestAt(rest, |lead|, marker, k);
  }

  /** Every name of the documented shape is a model solution, and its marker is the one it was written with. */
  lemma MatchSolutionNameComplete(short: string, lead: string, marker: string, trail: string,
                                  ext: string, tail: string)
    requires AllDigits(lead) && AllDigits(trail) && IsMarker(marker) && ext in SourceExtensions
    ensures var r := MatchSolutionName(short, short + (lead + (marker + (trail + ("." + (ext + tail))))));
            r.Some? && r.value.marker == marker
  {
    var after := "." + (ext + tail);
    assert after[1..] == ext + tail && StartsWith(ext + tail, ext);
    var rest := lead + (marker + (trail + after));
    if marker == "" {
      assert rest == (lead + trail) + after;
      MatchSolutionRestNoMarker(lead + trail, after);
    } else {
      MatchSolutionRestMarker(lead, marker, trail, after);
    }
    MatchNameAfterShort(short, rest);
  }

  /** A name that starts with the short name is matched on what follows it. */
  lemma MatchNameAfterShort(short: string, rest: string)
    ensures MatchSolutionName(short, short + rest) == MatchSolutionRest(rest)
  {
    assert (short + rest)[|short|..] == rest;
    assert (short + rest)[..|short|] == short;
  }

  // ---------------------------------------------------------------------------
  // Checker

  /** `<short>chk.cpp`, `.c`, `.py`, `.pas`: the sources that trigger a checker build, in the order probed. */
  function CheckerSources(short: string): seq<string>
  {
    [short + "chk.cpp", short + "chk.c", short + "chk.py", short + "chk.pas"]
  }

  /** `<short>chk.e`, `<short>chk.sh`: the executables probed, in order. */
  function CheckerExecutables(short: string): seq<string>
  {
    [short + "chk.e", short + "chk.sh"]
  }
}
