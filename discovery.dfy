/** Path discovery: probing the local paths that Plex media paths map to, summarising
    the probes into a validation report with advice, and proposing mappings for the path
    prefixes of the Plex libraries. The filesystem probes and the container check are
    inputs. */
module Discovery {
  import opened Wrappers
  import opened Strings
  import opened OrderedMaps
  import opened Exceptions
  import PathUtils
  import Constants

  // ---------------------------------------------------------------------------
  // Records
  // ---------------------------------------------------------------------------

  /** What `check_file_permissions` reports for one local path. */
  datatype Permissions = Permissions(pathExists: bool, readable: bool, writable: bool, isFile: bool, isDirectory: bool)

  /** `PathTestResult`: one probed path. */
  datatype PathTestResult = PathTestResult(
    plexPath: string, mappedPath: string,
    pathExists: bool, readable: bool, writable: bool, isFile: bool, isDirectory: bool,
    error: Option<string>)

  /** `ValidationReport`. */
  datatype ValidationReport = ValidationReport(
    valid: bool, tests: seq<PathTestResult>, summary: Dict<string, nat>, suggestions: seq<Advice>)

  datatype LibraryLocation = LibraryLocation(id: string, path: string)

  /** `LibrarySection` as the Plex client lists it. */
  datatype LibrarySection = LibrarySection(
    key: string, title: string, sectionType: string, agent: string, scanner: string, language: string,
    locations: seq<LibraryLocation>)

  datatype Confidence = High | Medium | Low

  /** `PathMappingSuggestion`. */
  datatype PathMappingSuggestion = PathMappingSuggestion(
    plexPrefix: string, suggestedLocalPrefix: string, confidence: Confidence, reason: MappingReason)

  // ---------------------------------------------------------------------------
  // Testing one path
  // ---------------------------------------------------------------------------

  /** `_test_single_path(plex_path)`: map the path, probe it, and record the outcome; an
      exception from the probe gives a result with every flag false. */
  function TestSinglePath(plexPath: string, mappings: Dict<string, string>, probe: string -> Result<Permissions, Error>)
    : (t: PathTestResult)
    ensures t.plexPath == plexPath && t.mappedPath == PathUtils.ApplyPathMappings(plexPath, mappings)
    ensures t.error.Some? <==> !t.pathExists
    ensures probe(t.mappedPath).Ok? ==>
      var p := probe(t.mappedPath).value;
      t.pathExists == p.pathExists && t.readable == p.readable && t.writable == p.writable
      && t.isFile == p.isFile && t.isDirectory == p.isDirectory
    ensures probe(t.mappedPath).Err? ==>
      !t.pathExists && !t.readable && !t.writable && !t.isFile && !t.isDirectory
      && t.error == Some("Error testing path: " + probe(t.mappedPath).error.message)
  {
    var mapped := PathUtils.ApplyPathMappings(plexPath, mappings);
    match probe(mapped)
    case Ok(p) =>
      var error := if !p.pathExists then Some("Path does not exist: " + mapped) else None;
      PathTestResult(plexPath, mapped, p.pathExists, p.readable, p.writable, p.isFile, p.isDirectory, error)
    case Err(e) =>
      PathTestResult(plexPath, mapped, false, false, false, false, false, Some("Error testing path: " + e.message))
  }

  // ---------------------------------------------------------------------------
  // Counting the outcomes
  // ---------------------------------------------------------------------------

  /** A test passes when the mapped path exists and is readable. */
  predicate Passed(t: PathTestResult) {
    t.pathExists && t.readable
  }

  /** The properties the summary counts. */
  datatype Flag = Passes | Accessible | Readable | Writable

  predicate Has(t: PathTestResult, f: Flag) {
    match f
    case Passes => Passed(t)
    case Accessible => t.pathExists
    case Readable => t.readable
    case Writable => t.writable
  }

  /** `sum(1 for t in tests if ...)`. */
  function Count(tests: seq<PathTestResult>, f: Flag): (n: nat)
    ensures n <= |tests|
  {
    if tests == [] then 0
    else Count(tests[..|tests| - 1], f) + (if Has(tests[|tests| - 1], f) then 1 else 0)
  }

  /** The count is the total exactly when every test has the property, and zero exactly
      when none has it. */
  lemma {:induction false} CountExtremes(tests: seq<PathTestResult>, f: Flag)
    ensures Count(tests, f) == |tests| <==> forall i :: 0 <= i < |tests| ==> Has(tests[i], f)
    ensures Count(tests, f) == 0 <==> forall i :: 0 <= i < |tests| ==> !Has(tests[i], f)
  {
    if tests != [] {
      var init := tests[..|tests| - 1];
      CountExtremes(init, f);
      assert forall i :: 0 <= i < |init| ==> init[i] == tests[i];
    }
  }

  /** The summary of a non-empty run. */
  function Summary(tests: seq<PathTestResult>): Dict<string, nat> {
    var passed := Count(tests, Passes);
    [("total", |tests|), ("passed", passed), ("failed", |tests| - passed),
     ("accessible", Count(tests, Accessible)), ("readable", Count(tests, Readable)),
     ("writable", Count(tests, Writable))]
  }

  /** The summary when there is nothing to test. */
  const EmptySummary: Dict<string, nat> := [("total", 0), ("passed", 0), ("failed", 0)]

  // ---------------------------------------------------------------------------
  // Suggestions from the test outcomes
  // ---------------------------------------------------------------------------

  /** One piece of advice in a report; `Text` gives the sentence the report carries. */
  datatype Advice =
    | NoMedia
    | NoTests
    | MissingPrefixes(prefixes: seq<string>)
    | DockerMounts
    | Unreadable
    | Unwritable
    | AllWorking
    | AllWritable
    | SomeNotWritable

  function Text(a: Advice): string {
    match a
    case NoMedia => "No media files found in Plex libraries to test. Add some media to your libraries first."
    case NoTests => "No test paths available. Ensure Plex has media in its libraries."
    case MissingPrefixes(prefixes) =>
      "Mapped paths not found. Plex uses these prefixes: " + Join(prefixes, ", ") + ". Check your PLEX_PATH_MAPPINGS setting."
    case DockerMounts =>
      "Running in Docker container. Ensure your media volume is mounted correctly and the container path matches your PLEX_PATH_MAPPINGS."
    case Unreadable =>
      "Some media files are not readable. Check file permissions and ensure the plexsubs process has read access to your media."
    case Unwritable =>
      "Some media directories are not writable. Subtitle downloads will fail. Ensure plexsubs has write permission to your media directories."
    case AllWorking => "All path mappings are working correctly!"
    case AllWritable => "All media directories are writable. Subtitle downloads should work."
    case SomeNotWritable =>
      "Some directories are not writable. You may need to fix permissions for subtitle downloads to work."
  }

  lemma {:induction false} SplitHead(s: string, sep: char)
    ensures Split(s, sep)[0] == s[..FirstIndex(s, sep)]
  {
    if s != [] && s[0] != sep {
      SplitHead(s[1..], sep);
      assert s[..FirstIndex(s, sep)] == [s[0]] + s[1..][..FirstIndex(s[1..], sep)];
    }
  }

  /** "/" followed by the first segment of the path once its outer slashes are stripped. */
  function UnixPrefix(path: string): (p: string)
    ensures |p| > 0 && p[0] == '/' && '/' !in p[1..]
  {
    var s := StripChar(path, '/');
    SplitHead(s, '/');
    var p := "/" + Split(s, '/')[0];
    assert p[1..] == s[..FirstIndex(s, '/')];
    p
  }

  /** `acc` with `x` added unless it is already there: a Python `set.add`, kept in first-insertion order. */
  function AddNew(acc: seq<string>, x: string): (r: seq<string>)
    ensures x in r && forall y :: y in r <==> y == x || y in acc
  {
    if x in acc then acc else acc + [x]
  }

  predicate NoDuplicates(s: seq<string>) {
    forall i, j :: 0 <= i < j < |s| ==> s[i] != s[j]
  }

  lemma AddNewKeepsDistinct(acc: seq<string>, x: string)
    requires NoDuplicates(acc)
    ensures NoDuplicates(AddNew(acc, x))
  {
  }

  /** The distinct elements of `xs` in first-occurrence order: what adding them one by one
      to a set yields, with the set's iteration order fixed to insertion order. */
  function Dedup(xs: seq<string>): (r: seq<string>)
    ensures NoDuplicates(r)
  {
    if xs == [] then []
    else
      AddNewKeepsDistinct(Dedup(xs[..|xs| - 1]), xs[|xs| - 1]);
      AddNew(Dedup(xs[..|xs| - 1]), xs[|xs| - 1])
  }

  lemma DedupSnoc(xs: seq<string>, x: string)
    ensures Dedup(xs + [x]) == AddNew(Dedup(xs), x)
  {
    assert (xs + [x])[..|xs|] == xs;
  }

  /** Deduplication keeps exactly the elements. */
  lemma {:induction false} DedupMembers(xs: seq<string>)
    ensures forall x :: x in Dedup(xs) <==> x in xs
  {
    if xs != [] {
      var init := xs[..|xs| - 1];
      DedupMembers(init);
      assert xs == init + [xs[|xs| - 1]];
    }
  }

  /** The Plex-path prefixes of some tests, one per test. */
  function PlexPrefixes(tests: seq<PathTestResult>): (r: seq<string>)
    ensures |r| == |tests| && forall i :: 0 <= i < |tests| ==> r[i] == UnixPrefix(tests[i].plexPath)
  {
    if tests == [] then []
    else
      var init := tests[..|tests| - 1];
      assert forall i :: 0 <= i < |init| ==> init[i] == tests[i];
      PlexPrefixes(init) + [UnixPrefix(tests[|tests| - 1].plexPath)]
  }

  lemma {:induction false} PlexPrefixesMembers(tests: seq<PathTestResult>)
    ensures forall x :: x in PlexPrefixes(tests) <==> exists t :: t in tests && x == UnixPrefix(t.plexPath)
  {
    var all := PlexPrefixes(tests);
    forall x | x in all
      ensures exists t :: t in tests && x == UnixPrefix(t.plexPath)
    {
      var k :| 0 <= k < |all| && all[k] == x;
      assert tests[k] in tests && x == UnixPrefix(tests[k].plexPath);
    }
    forall x | exists t :: t in tests && x == UnixPrefix(t.plexPath)
      ensures x in all
    {
      var t :| t in tests && x == UnixPrefix(t.plexPath);
      var k :| 0 <= k < |tests| && tests[k] == t;
      assert all[k] == x;
    }
  }

  /** `[t for t in tests if not t.exists]`. */
  function NotFound(tests: seq<PathTestResult>): seq<PathTestResult> {
    if tests == [] then []
    else
      var last := tests[|tests| - 1];
      NotFound(tests[..|tests| - 1]) + (if last.pathExists then [] else [last])
  }

  /** The missing tests are exactly the tests whose path does not exist. */
  lemma {:induction false} NotFoundMembers(tests: seq<PathTestResult>)
    ensures forall t :: t in NotFound(tests) <==> t in tests && !t.pathExists
    ensures NotFound(tests) == [] <==> forall i :: 0 <= i < |tests| ==> tests[i].pathExists
  {
    if tests != [] {
      var init := tests[..|tests| - 1];
      NotFoundMembers(init);
      assert tests == init + [tests[|tests| - 1]];
      assert forall i :: 0 <= i < |init| ==> init[i] == tests[i];
    }
  }

  /** The distinct prefixes of the missing paths are exactly the prefixes of the Plex paths
      whose mapped path does not exist. */
  lemma MissingPrefixesExact(tests: seq<PathTestResult>)
    ensures forall x :: x in Dedup(PlexPrefixes(NotFound(tests))) <==>
      exists t :: t in tests && !t.pathExists && x == UnixPrefix(t.plexPath)
  {
    DedupMembers(PlexPrefixes(NotFound(tests)));
    PlexPrefixesMembers(NotFound(tests));
    NotFoundMembers(tests);
  }

  /** Some path exists but cannot be read. */
  predicate SomeUnreadable(tests: seq<PathTestResult>) {
    exists i :: 0 <= i < |tests| && tests[i].pathExists && !tests[i].readable
  }

  /** Some path exists but cannot be written. */
  predicate SomeUnwritable(tests: seq<PathTestResult>) {
    exists i :: 0 <= i < |tests| && tests[i].pathExists && !tests[i].writable
  }

  predicate AllPassed(tests: seq<PathTestResult>) {
    forall i :: 0 <= i < |tests| ==> Passed(tests[i])
  }

  predicate AllWritablePaths(tests: seq<PathTestResult>) {
    forall i :: 0 <= i < |tests| ==> tests[i].writable
  }

  /** The advice for missing paths: their Plex prefixes, and a hint when in a container. */
  function MissingAdvice(notFound: seq<PathTestResult>, inDocker: bool): seq<Advice> {
    if notFound == [] then [] else AdviceForPrefixes(Dedup(PlexPrefixes(notFound)), inDocker)
  }

  /** The missing-path advice once the prefixes are collected. */
  function AdviceForPrefixes(prefixes: seq<string>, inDocker: bool): seq<Advice> {
    var head := if prefixes != [] then [MissingPrefixes(prefixes)] else [];
    if inDocker then head + [DockerMounts] else head
  }

  lemma AdviceForPrefixesKinds(prefixes: seq<string>, inDocker: bool)
    ensures var m := AdviceForPrefixes(prefixes, inDocker);
      && (DockerMounts in m <==> inDocker)
      && AllWorking !in m
      && (prefixes != [] ==> |m| > 0 && m[0] == MissingPrefixes(prefixes))
  {
  }

  /** `acc` followed by the advice about access to the paths that were found. */
  function WithAccessAdvice(acc: seq<Advice>, tests: seq<PathTestResult>): (r: seq<Advice>)
    ensures forall a :: a in acc ==> a in r
    ensures Unreadable in r <==> Unreadable in acc || SomeUnreadable(tests)
    ensures Unwritable in r <==> Unwritable in acc || SomeUnwritable(tests)
    ensures AllWorking in r <==> AllWorking in acc || AllPassed(tests)
    ensures DockerMounts in r <==> DockerMounts in acc
    ensures |r| >= |acc| && (|acc| > 0 ==> r[0] == acc[0])
  {
    var a1 := if SomeUnreadable(tests) then acc + [Unreadable] else acc;
    var a2 := if SomeUnwritable(tests) then a1 + [Unwritable] else a1;
    if AllPassed(tests) then a2 + [AllWorking] + [if AllWritablePaths(tests) then AllWritable else SomeNotWritable]
    else a2
  }

  /** What `_generate_suggestions(tests)` returns, with `in_docker` the container check. */
  function SuggestionsFor(tests: seq<PathTestResult>, inDocker: bool): seq<Advice> {
    if tests == [] then [NoTests]
    else WithAccessAdvice(MissingAdvice(NotFound(tests), inDocker), tests)
  }

  /** The loop of `_generate_suggestions` that gathers the prefixes of the missing paths
      into a set, iterated in insertion order. */
  method CollectPrefixes(notFound: seq<PathTestResult>) returns (prefixes: seq<string>)
    ensures prefixes == Dedup(PlexPrefixes(notFound))
  {
    prefixes := [];
    for k := 0 to |notFound|
      invariant prefixes == Dedup(PlexPrefixes(notFound[..k]))
    {
      assert notFound[..k + 1][..k] == notFound[..k];
      DedupSnoc(PlexPrefixes(notFound[..k]), UnixPrefix(notFound[k].plexPath));
      prefixes := AddNew(prefixes, UnixPrefix(notFound[k].plexPath));
    }
    assert notFound[..|notFound|] == notFound;
  }

  /** The first block of `_generate_suggestions`: the advice about missing paths. */
  method MissingSuggestions(notFound: seq<PathTestResult>, inDocker: bool) returns (suggestions: seq<Advice>)
    ensures suggestions == MissingAdvice(notFound, inDocker)
  {
    suggestions := [];
    if notFound != [] {
      var prefixes := CollectPrefixes(notFound);
      if prefixes != [] {
        suggestions := [MissingPrefixes(prefixes)];
      }
      if inDocker {
        suggestions := suggestions + [DockerMounts];
      }
    }
  }

  /** `_generate_suggestions(tests)`: the list of advice, built up piece by piece. */
  method GenerateSuggestions(tests: seq<PathTestResult>, inDocker: bool) returns (suggestions: seq<Advice>)
    ensures suggestions == SuggestionsFor(tests, inDocker)
  {
    if tests == [] {
      suggestions := [NoTests];
      return;
    }
    suggestions := MissingSuggestions(NotFound(tests), inDocker);
    if SomeUnreadable(tests) {
      suggestions := suggestions + [Unreadable];
    }
    if SomeUnwritable(tests) {
      suggestions := suggestions + [Unwritable];
    }
    if AllPassed(tests) {
      suggestions := suggestions + [AllWorking];
      if AllWritablePaths(tests) {
        suggestions := suggestions + [AllWritable];
      } else {
        suggestions := suggestions + [SomeNotWritable];
      }
    }
  }

  /** The missing-path advice is empty without missing paths; otherwise it opens with
      their prefixes, and it holds the container hint exactly when there are missing
      paths and the process runs in a container. */
  lemma MissingAdviceShape(notFound: seq<PathTestResult>, inDocker: bool)
    ensures var m := MissingAdvice(notFound, inDocker);
      && (notFound == [] ==> m == [])
      && (notFound != [] ==> |m| > 0 && m[0] == MissingPrefixes(Dedup(PlexPrefixes(notFound))))
      && (DockerMounts in m <==> notFound != [] && inDocker)
      && AllWorking !in m
  {
    if notFound != [] {
      var all := PlexPrefixes(notFound);
      assert Dedup(all) != [] by {
        DedupMembers(all);
        assert all[0] in Dedup(all);
      }
      AdviceForPrefixesKinds(Dedup(all), inDocker);
    }
  }

  /** With every path working and nothing before it, the access advice is the write
      warning if any, then the all-clear and the verdict on writing. */
  lemma AccessAdviceAllPassed(tests: seq<PathTestResult>)
    requires AllPassed(tests)
    ensures WithAccessAdvice([], tests) ==
      (if SomeUnwritable(tests) then [Unwritable] else []) + [AllWorking, if AllWritablePaths(tests) then AllWritable else SomeNotWritable]
  {
    assert !SomeUnreadable(tests);
    var unwritable: seq<Advice> := if SomeUnwritable(tests) then [Unwritable] else [];
    assert [] + unwritable == unwritable;
  }

  /** The all-clear appears exactly when every path exists and is readable, and it is
      followed by exactly one verdict on writing. */
  lemma AllWorkingIff(tests: seq<PathTestResult>, inDocker: bool)
    requires tests != []
    ensures AllWorking in SuggestionsFor(tests, inDocker) <==> AllPassed(tests)
    ensures AllPassed(tests) ==>
      SuggestionsFor(tests, inDocker) ==
        (if SomeUnwritable(tests) then [Unwritable] else [])
        + [AllWorking, if AllWritablePaths(tests) then AllWritable else SomeNotWritable]
  {
    MissingAdviceShape(NotFound(tests), inDocker);
    if AllPassed(tests) {
      assert NotFound(tests) == [] by {
        NotFoundMembers(tests);
      }
      AccessAdviceAllPassed(tests);
    }
  }

  /** When some path is missing, the advice opens with exactly the Plex prefixes of the
      missing paths, and the container hint is given exactly when running in one. */
  lemma MissingPrefixesAdvice(tests: seq<PathTestResult>, inDocker: bool)
    requires exists i :: 0 <= i < |tests| && !tests[i].pathExists
    ensures
      var prefixes := Dedup(PlexPrefixes(NotFound(tests)));
      |SuggestionsFor(tests, inDocker)| > 0 && SuggestionsFor(tests, inDocker)[0] == MissingPrefixes(prefixes)
      && (DockerMounts in SuggestionsFor(tests, inDocker) <==> inDocker)
      && forall x :: x in prefixes <==> exists t :: t in tests && !t.pathExists && x == UnixPrefix(t.plexPath)
  {
    assert NotFound(tests) != [] by {
      NotFoundMembers(tests);
    }
    MissingAdviceShape(NotFound(tests), inDocker);
    MissingPrefixesExact(tests);
  }

  // ---------------------------------------------------------------------------
  // Sample paths from the libraries
  // ---------------------------------------------------------------------------

  /** Only movie and show libraries are sampled. */
  predicate IsMediaLibrary(l: LibrarySection) {
    l.sectionType == "movie" || l.sectionType == "show"
  }

  /** `items[:3]`. */
  function FirstThree(items: seq<string>): (r: seq<string>)
    ensures |r| == (if |items| < 3 then |items| else 3) && r == items[..|r|]
  {
    if |items| <= 3 then items else items[..3]
  }

  /** The samples the given libraries contribute; `items(key)` is what `_get_library_items`
      yields for a library (no paths whenever the request or the parse fails). */
  function SamplesFrom(libs: seq<LibrarySection>, items: string -> seq<string>): seq<string> {
    if libs == [] then []
    else
      var last := libs[|libs| - 1];
      SamplesFrom(libs[..|libs| - 1], items) + (if IsMediaLibrary(last) then FirstThree(items(last.key)) else [])
  }

  /** `_get_sample_paths_from_libraries()`: a failure to list the libraries gives no samples. */
  function SamplePaths(libraries: Result<seq<LibrarySection>, Error>, items: string -> seq<string>): seq<string> {
    match libraries
    case Err(_) => []
    case Ok(libs) => SamplesFrom(libs, items)
  }

  method SamplePathsFromLibraries(libraries: Result<seq<LibrarySection>, Error>, items: string -> seq<string>)
    returns (samplePaths: seq<string>)
    ensures samplePaths == SamplePaths(libraries, items)
  {
    samplePaths := [];
    if libraries.Err? {
      return;
    }
    var libs := libraries.value;
    for i := 0 to |libs|
      invariant samplePaths == SamplesFrom(libs[..i], items)
    {
      assert libs[..i + 1][..i] == libs[..i];
      if libs[i].sectionType != "movie" && libs[i].sectionType != "show" {
        continue;
      }
      var found := items(libs[i].key);
      if found != [] {
        samplePaths := samplePaths + FirstThree(found);
      }
    }
    assert libs[..|libs|] == libs;
  }

  /** Every sample is one of the first three paths of a movie or show library, and each
      library gives at most three. */
  lemma {:induction false} SamplesOrigin(libs: seq<LibrarySection>, items: string -> seq<string>)
    ensures |SamplesFrom(libs, items)| <= 3 * |libs|
    ensures forall x :: x in SamplesFrom(libs, items) ==>
      exists i :: 0 <= i < |libs| && IsMediaLibrary(libs[i]) && x in FirstThree(items(libs[i].key))
  {
    if libs != [] {
      var init := libs[..|libs| - 1];
      SamplesOrigin(init, items);
      forall x | x in SamplesFrom(libs, items)
        ensures exists i :: 0 <= i < |libs| && IsMediaLibrary(libs[i]) && x in FirstThree(items(libs[i].key))
      {
        if x in SamplesFrom(init, items) {
          var i :| 0 <= i < |init| && IsMediaLibrary(init[i]) && x in FirstThree(items(init[i].key));
          assert libs[i] == init[i];
        } else {
          assert IsMediaLibrary(libs[|libs| - 1]);
        }
      }
    }
  }

  // ---------------------------------------------------------------------------
  // The validation report
  // ---------------------------------------------------------------------------

  /** The paths a validation run tests: the given ones, or the library samples when none
      (or an empty list) were given. */
  function PathsToTest(testPaths: Option<seq<string>>, samples: seq<string>): seq<string> {
    if Truthy(testPaths) then testPaths.value else samples
  }

  /** `[_test_single_path(p) for p in paths]`. */
  function TestsFor(paths: seq<string>, mappings: Dict<string, string>, probe: string -> Result<Permissions, Error>)
    : (r: seq<PathTestResult>)
    ensures |r| == |paths| && forall i :: 0 <= i < |paths| ==> r[i] == TestSinglePath(paths[i], mappings, probe)
  {
    if paths == [] then []
    else TestsFor(paths[..|paths| - 1], mappings, probe) + [TestSinglePath(paths[|paths| - 1], mappings, probe)]
  }

  /** The report `validate_path_mappings` builds for the paths it tests. */
  function ReportFor(paths: seq<string>, mappings: Dict<string, string>, probe: string -> Result<Permissions, Error>,
                     inDocker: bool): ValidationReport
  {
    if paths == [] then ValidationReport(false, [], EmptySummary, [NoMedia])
    else
      var tests := TestsFor(paths, mappings, probe);
      var passed := Count(tests, Passes);
      ValidationReport(|tests| - passed == 0 && passed > 0, tests, Summary(tests), SuggestionsFor(tests, inDocker))
  }

  /** The loop of `validate_path_mappings` that tests each path in turn. */
  method TestEach(paths: seq<string>, mappings: Dict<string, string>, probe: string -> Result<Permissions, Error>)
    returns (tests: seq<PathTestResult>)
    ensures tests == TestsFor(paths, mappings, probe)
  {
    tests := [];
    for i := 0 to |paths|
      invariant tests == TestsFor(paths[..i], mappings, probe)
    {
      assert paths[..i + 1][..i] == paths[..i];
      tests := tests + [TestSinglePath(paths[i], mappings, probe)];
    }
    assert paths[..|paths|] == paths;
  }

  /** `validate_path_mappings(test_paths)`. */
  method ValidatePathMappings(testPaths: Option<seq<string>>, libraries: Result<seq<LibrarySection>, Error>,
                              items: string -> seq<string>, mappings: Dict<string, string>,
                              probe: string -> Result<Permissions, Error>, inDocker: bool)
    returns (report: ValidationReport)
    ensures report == ReportFor(PathsToTest(testPaths, SamplePaths(libraries, items)), mappings, probe, inDocker)
  {
    var paths: seq<string>;
    if !Truthy(testPaths) {
      paths := SamplePathsFromLibraries(libraries, items);
    } else {
      paths := testPaths.value;
    }
    if paths == [] {
      return ValidationReport(false, [], EmptySummary, [NoMedia]);
    }
    var tests := TestEach(paths, mappings, probe);
    var passed := Count(tests, Passes);
    var failed := |tests| - passed;
    var summary := Summary(tests);
    var suggestions := GenerateSuggestions(tests, inDocker);
    report := ValidationReport(failed == 0 && passed > 0, tests, summary, suggestions);
  }

  /** With nothing to test the report is invalid, all totals are zero and the only advice
      is to add media. */
  lemma NothingToTest(mappings: Dict<string, string>, probe: string -> Result<Permissions, Error>, inDocker: bool)
    ensures
      var r := ReportFor([], mappings, probe, inDocker);
      !r.valid && r.tests == [] && r.suggestions == [NoMedia]
      && Keys(r.summary) == ["total", "passed", "failed"] && Values(r.summary) == [0, 0, 0]
  {
  }

  /** The summary counts: `failed` is `total - passed`, and no count exceeds the total. */
  lemma SummaryCounts(tests: seq<PathTestResult>)
    ensures Keys(Summary(tests)) == ["total", "passed", "failed", "accessible", "readable", "writable"]
    ensures
      var v := Values(Summary(tests));
      v[0] == |tests| && v[1] == Count(tests, Passes) && v[2] == |tests| - Count(tests, Passes)
      && forall k :: 0 <= k < |v| ==> v[k] <= |tests|
  {
  }

  /** One test per path, in order, and the report is valid exactly when every test passed. */
  lemma ReportCounts(paths: seq<string>, mappings: Dict<string, string>, probe: string -> Result<Permissions, Error>,
                     inDocker: bool)
    requires paths != []
    ensures
      var r := ReportFor(paths, mappings, probe, inDocker);
      |r.tests| == |paths|
      && (forall i :: 0 <= i < |paths| ==> r.tests[i].plexPath == paths[i])
      && (r.valid <==> forall i :: 0 <= i < |r.tests| ==> Passed(r.tests[i]))
  {
    CountExtremes(TestsFor(paths, mappings, probe), Passes);
  }

  // ---------------------------------------------------------------------------
  // Mapping suggestions
  // ---------------------------------------------------------------------------

  /** The prefix of a library location: "/" plus the first segment of a POSIX path,
      the drive letter and colon of a Windows path, nothing otherwise. */
  function LocationPrefix(path: string): (r: Option<string>)
    ensures StartsWith(path, "/") ==> r == Some(UnixPrefix(path))
    ensures !StartsWith(path, "/") && ':' in path ==>
      r == Some(path[..FirstIndex(path, ':') + 1]) && ':' !in path[..FirstIndex(path, ':')]
    ensures !StartsWith(path, "/") && ':' !in path ==> r.None?
  {
    if StartsWith(path, "/") then Some(UnixPrefix(path))
    else if ':' in path then
      SplitHead(path, ':');
      var drive := Split(path, ':')[0];
      assert drive + ":" == path[..FirstIndex(path, ':') + 1];
      Some(drive + ":")
    else None
  }

  /** `[loc.path for loc in locations]`. */
  function PathsOf(locations: seq<LibraryLocation>): (r: seq<string>)
    ensures |r| == |locations| && forall k :: 0 <= k < |locations| ==> r[k] == locations[k].path
  {
    if locations == [] then []
    else PathsOf(locations[..|locations| - 1]) + [locations[|locations| - 1].path]
  }

  /** Every location path of the libraries, library by library. */
  function LocationPaths(libs: seq<LibrarySection>): seq<string> {
    if libs == [] then []
    else LocationPaths(libs[..|libs| - 1]) + PathsOf(libs[|libs| - 1].locations)
  }

  /** The prefixes of the paths that have one, path by path. */
  function PresentPrefixes(paths: seq<string>): seq<string> {
    if paths == [] then []
    else
      var init := paths[..|paths| - 1];
      PresentPrefixes(init)
      + (match LocationPrefix(paths[|paths| - 1]) case Some(p) => [p] case None => [])
  }

  lemma {:induction false} PresentPrefixesMembers(paths: seq<string>)
    ensures forall x :: x in PresentPrefixes(paths) <==> exists p :: p in paths && LocationPrefix(p) == Some(x)
  {
    if paths != [] {
      var init := paths[..|paths| - 1];
      var last := paths[|paths| - 1];
      PresentPrefixesMembers(init);
      assert paths == init + [last];
      forall x
        ensures x in PresentPrefixes(paths) <==> exists p :: p in paths && LocationPrefix(p) == Some(x)
      {
        if exists p :: p in paths && LocationPrefix(p) == Some(x) {
          var p :| p in paths && LocationPrefix(p) == Some(x);
          if p != last {
            assert p in init;
          }
        }
      }
    }
  }

  /** The distinct prefixes of some location paths, in first-occurrence order. */
  function PrefixesOf(paths: seq<string>): (r: seq<string>)
    ensures NoDuplicates(r)
  {
    Dedup(PresentPrefixes(paths))
  }

  /** A prefix is collected exactly when some location path has it. */
  lemma PrefixesOfMembers(paths: seq<string>)
    ensures forall x :: x in PrefixesOf(paths) <==> exists p :: p in paths && LocationPrefix(p) == Some(x)
  {
    DedupMembers(PresentPrefixes(paths));
    PresentPrefixesMembers(paths);
  }

  /** The first of `mounts` that exists as a directory. */
  function FirstMount(mounts: seq<string>, isDir: string -> bool): (r: Option<string>)
    ensures r.None? <==> forall i :: 0 <= i < |mounts| ==> !isDir(mounts[i])
    ensures r.Some? ==> r.value in mounts && isDir(r.value)
  {
    if mounts == [] then None
    else if isDir(mounts[0]) then Some(mounts[0])
    else FirstMount(mounts[1..], isDir)
  }

  /** Why a mapping is suggested; `ReasonText` is the sentence the API returns. */
  datatype MappingReason =
    | DockerMount(prefix: string, mount: string)
    | DockerDefault(prefix: string)
    | Identity(prefix: string)
    | LocalMount(prefix: string, mount: string)

  function ReasonText(r: MappingReason): string {
    match r
    case DockerMount(prefix, mount) =>
      "Found " + mount + " directory in Docker container. Common pattern: map Plex's '" + prefix
      + "' to container's '" + mount + "'."
    case DockerDefault(prefix) =>
      "Running in Docker. Consider mounting your media to a container path and mapping '" + prefix + "' to that path."
    case Identity(prefix) =>
      "Path '" + prefix + "' exists locally. If Plex and plexsubs are on the same machine with the same paths, use identity mapping."
    case LocalMount(prefix, mount) =>
      "Path '" + prefix + "' not found locally. Check if your media is mounted at " + mount + "."
  }

  /** `_generate_mapping_suggestion(plex_prefix, in_docker)`; `isDir(p)` stands for
      `os.path.exists(p) and os.path.isdir(p)` on this machine. */
  function MappingSuggestion(prefix: string, inDocker: bool, mappings: Dict<string, string>, isDir: string -> bool)
    : (r: Option<PathMappingSuggestion>)
    ensures r.Some? ==> r.value.plexPrefix == prefix
  {
    if prefix in Keys(mappings) then None
    else if inDocker then
      match FirstMount(Constants.CommonMediaMounts, isDir)
      case Some(mount) =>
        Some(PathMappingSuggestion(prefix, mount, Medium, DockerMount(prefix, mount)))
      case None =>
        Some(PathMappingSuggestion(prefix, "/mnt/library", Low, DockerDefault(prefix)))
    else if isDir(prefix) then
      Some(PathMappingSuggestion(prefix, prefix, High, Identity(prefix)))
    else
      match FirstMount(Constants.CommonMediaMounts, isDir)
      case Some(mount) =>
        Some(PathMappingSuggestion(prefix, mount, Low, LocalMount(prefix, mount)))
      case None => None
  }

  /** An already mapped prefix gets nothing; otherwise Docker always gets a guess, never
      of high confidence, and outside Docker there is a suggestion iff the prefix itself
      or one of the common mount points is a directory here, of high confidence exactly
      when the prefix itself is. The suggested local prefix is the prefix, the default
      container path or an existing common mount point. */
  lemma MappingSuggestionCases(prefix: string, inDocker: bool, mappings: Dict<string, string>, isDir: string -> bool)
    ensures var r := MappingSuggestion(prefix, inDocker, mappings, isDir);
      && (prefix in Keys(mappings) ==> r.None?)
      && (prefix !in Keys(mappings) && inDocker ==> r.Some? && r.value.confidence != High)
      && (prefix !in Keys(mappings) && !inDocker ==>
            (r.Some? <==> isDir(prefix) || FirstMount(Constants.CommonMediaMounts, isDir).Some?))
      && (r.Some? && r.value.confidence == High <==> prefix !in Keys(mappings) && !inDocker && isDir(prefix))
      && (r.Some? ==>
            r.value.suggestedLocalPrefix == prefix || r.value.suggestedLocalPrefix == "/mnt/library"
            || (r.value.suggestedLocalPrefix in Constants.CommonMediaMounts && isDir(r.value.suggestedLocalPrefix)))
  {
  }

  /** The suggestions for the prefixes, in order, skipping prefixes that get none. */
  function SuggestionsOf(prefixes: seq<string>, inDocker: bool, mappings: Dict<string, string>, isDir: string -> bool)
    : (r: seq<PathMappingSuggestion>)
    ensures |r| <= |prefixes|
    ensures forall k :: 0 <= k < |r| ==>
      r[k].plexPrefix in prefixes && MappingSuggestion(r[k].plexPrefix, inDocker, mappings, isDir) == Some(r[k])
  {
    if prefixes == [] then []
    else
      var init := prefixes[..|prefixes| - 1];
      var last := prefixes[|prefixes| - 1];
      var acc := SuggestionsOf(init, inDocker, mappings, isDir);
      assert forall x :: x in init ==> x in prefixes;
      acc + (match MappingSuggestion(last, inDocker, mappings, isDir) case Some(s) => [s] case None => [])
  }

  /** What `suggest_path_mappings()` returns; a failure to list the libraries gives none. */
  function SuggestPathMappingsResult(libraries: Result<seq<LibrarySection>, Error>, inDocker: bool,
                                     mappings: Dict<string, string>, isDir: string -> bool)
    : seq<PathMappingSuggestion>
  {
    match libraries
    case Err(_) => []
    case Ok(libs) => SuggestionsOf(PrefixesOf(LocationPaths(libs)), inDocker, mappings, isDir)
  }

  /** The inner loop of `suggest_path_mappings`: add the prefixes of one library's
      locations to those collected from the paths `done`. */
  method AddLocationPrefixes(prefixes: seq<string>, ghost done: seq<string>, locations: seq<LibraryLocation>)
    returns (r: seq<string>)
    requires prefixes == PrefixesOf(done)
    ensures r == PrefixesOf(done + PathsOf(locations))
  {
    r := prefixes;
    assert done + PathsOf(locations[..0]) == done;
    for j := 0 to |locations|
      invariant r == PrefixesOf(done + PathsOf(locations[..j]))
    {
      var path := locations[j].path;
      assert locations[..j + 1][..j] == locations[..j];
      ghost var seen := done + PathsOf(locations[..j]);
      assert done + PathsOf(locations[..j + 1]) == seen + [path];
      assert (seen + [path])[..|seen|] == seen;
      if StartsWith(path, "/") {
        DedupSnoc(PresentPrefixes(seen), UnixPrefix(path));
        r := AddNew(r, UnixPrefix(path));
      } else if ':' in path {
        var drive := Split(path, ':')[0];
        assert LocationPrefix(path) == Some(drive + ":");
        DedupSnoc(PresentPrefixes(seen), drive + ":");
        r := AddNew(r, drive + ":");
      } else {
        assert PresentPrefixes(seen + [path]) == PresentPrefixes(seen);
      }
    }
    assert locations[..|locations|] == locations;
  }

  /** `suggest_path_mappings()`: collect the set of location prefixes over every library,
      then ask for a suggestion for each prefix. */
  method SuggestPathMappings(libraries: Result<seq<LibrarySection>, Error>, inDocker: bool,
                             mappings: Dict<string, string>, isDir: string -> bool)
    returns (suggestions: seq<PathMappingSuggestion>)
    ensures suggestions == SuggestPathMappingsResult(libraries, inDocker, mappings, isDir)
  {
    suggestions := [];
    if libraries.Err? {
      return;
    }
    var prefixes := CollectLocationPrefixes(libraries.value);
    suggestions := SuggestEach(prefixes, inDocker, mappings, isDir);
  }

  /** The outer loop of `suggest_path_mappings`: the location prefixes of every library. */
  method CollectLocationPrefixes(libs: seq<LibrarySection>) returns (prefixes: seq<string>)
    ensures prefixes == PrefixesOf(LocationPaths(libs))
  {
    prefixes := [];
    for i := 0 to |libs|
      invariant prefixes == PrefixesOf(LocationPaths(libs[..i]))
    {
      assert libs[..i + 1][..i] == libs[..i];
      prefixes := AddLocationPrefixes(prefixes, LocationPaths(libs[..i]), libs[i].locations);
    }
    assert libs[..|libs|] == libs;
  }

  /** The suggestion loop of `suggest_path_mappings`. */
  method SuggestEach(prefixes: seq<string>, inDocker: bool, mappings: Dict<string, string>, isDir: string -> bool)
    returns (suggestions: seq<PathMappingSuggestion>)
    ensures suggestions == SuggestionsOf(prefixes, inDocker, mappings, isDir)
  {
    suggestions := [];
    for k := 0 to |prefixes|
      invariant suggestions == SuggestionsOf(prefixes[..k], inDocker, mappings, isDir)
    {
      assert prefixes[..k + 1][..k] == prefixes[..k];
      var suggestion := MappingSuggestion(prefixes[k], inDocker, mappings, isDir);
      if suggestion.Some? {
        suggestions := suggestions + [suggestion.value];
      }
    }
    assert prefixes[..|prefixes|] == prefixes;
  }

  /** Each suggestion is for a distinct, not yet mapped prefix of some library location. */
  lemma SuggestionsAreForUnmappedPrefixes(libraries: Result<seq<LibrarySection>, Error>, inDocker: bool,
                                          mappings: Dict<string, string>, isDir: string -> bool)
    ensures
      var r := SuggestPathMappingsResult(libraries, inDocker, mappings, isDir);
      (libraries.Err? ==> r == [])
      && forall k :: 0 <= k < |r| ==>
        r[k].plexPrefix !in Keys(mappings)
        && exists p :: p in LocationPaths(libraries.value) && LocationPrefix(p) == Some(r[k].plexPrefix)
  {
    var r := SuggestPathMappingsResult(libraries, inDocker, mappings, isDir);
    forall k | 0 <= k < |r|
      ensures r[k].plexPrefix !in Keys(mappings)
      ensures exists p :: p in LocationPaths(libraries.value) && LocationPrefix(p) == Some(r[k].plexPrefix)
    {
      PrefixesOfMembers(LocationPaths(libraries.value));
      MappingSuggestionCases(r[k].plexPrefix, inDocker, mappings, isDir);
    }
  }

  /** A prefix that the configuration already maps never gets a suggestion. */
  lemma MappedPrefixSkipped(libraries: Result<seq<LibrarySection>, Error>, inDocker: bool,
                            mappings: Dict<string, string>, isDir: string -> bool, prefix: string)
    requires prefix in Keys(mappings)
    ensures forall s :: s in SuggestPathMappingsResult(libraries, inDocker, mappings, isDir) ==> s.plexPrefix != prefix
  {
    SuggestionsAreForUnmappedPrefixes(libraries, inDocker, mappings, isDir);
  }
}
