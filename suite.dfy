/**
 The suite runners: the official suite (one test directory) and the
 unofficial suite (one test directory per category, visited in the fixed
 category order). Each test directory is given as the sorted stems of its
 `*.txt` input files and the contents of its `expected_output` directory;
 a directory that does not exist is `None`, or a category missing from the
 map of category directories.
 */
module Suite {
  import opened Wrappers
  import opened TestCase

  const OfficialDir := "official"
  const UnofficialDir := "unofficial"

  /** The unofficial categories, in the order they are run. */
  const Categories: seq<string> :=
    ["global", "local", "propagation", "shadow", "if", "while", "printint", "expr", "edge", "ok"]

  function CategoryDir(category: string): string {
    UnofficialDir + "/" + category
  }

  /** A `tests` directory that exists: the stems of its input files in sorted
      order, and the files of the sibling `expected_output` directory by name. */
  datatype TestDir = TestDir(stems: seq<string>, expected: map<string, FileContent>)

  /** An entry of the `failed_tests` list. */
  datatype FailedTest = FailedTest(stem: string, reason: FailReason)

  /** The counters and the list one test loop builds. */
  datatype Tally = Tally(passed: nat, failed: nat, failedTests: seq<FailedTest>)

  /** An entry of `results_by_category`. */
  datatype CategoryResult = CategoryResult(category: string, passed: nat, failed: nat)

  /** One test's outcome added to the counters and the list. */
  function Record(t: Tally, stem: string, outcome: TestOutcome): Tally {
    match outcome
    case Passed => t.(passed := t.passed + 1)
    case Failed(reason) =>
      t.(failed := t.failed + 1, failedTests := t.failedTests + [FailedTest(stem, reason)])
  }

  /** What the test loop has built after the tests `stems`, taken in order. */
  function TallyOf(dir: string, stems: seq<string>, expected: map<string, FileContent>,
                   analyzer: string -> AnalyzerRun): (t: Tally)
    ensures t.passed + t.failed == |stems|
    ensures t.failed == |t.failedTests|
    decreases |stems|
  {
    if stems == [] then Tally(0, 0, [])
    else
      var stem := stems[|stems| - 1];
      Record(TallyOf(dir, stems[..|stems| - 1], expected, analyzer), stem,
             RunTestCase(dir, stem, expected, analyzer))
  }

  lemma TallyStep(dir: string, stems: seq<string>, expected: map<string, FileContent>,
                  analyzer: string -> AnalyzerRun, i: nat)
    requires i < |stems|
    ensures TallyOf(dir, stems[..i + 1], expected, analyzer)
         == Record(TallyOf(dir, stems[..i], expected, analyzer), stems[i],
                   RunTestCase(dir, stems[i], expected, analyzer))
  {
    assert stems[..i + 1][..i] == stems[..i];
  }

  ghost predicate AllPass(dir: string, stems: seq<string>, expected: map<string, FileContent>,
                          analyzer: string -> AnalyzerRun)
  {
    forall i :: 0 <= i < |stems| ==> RunTestCase(dir, stems[i], expected, analyzer).Passed?
  }

  /** No test of a directory failed iff every one of its tests passed. */
  lemma {:induction false} NoFailuresIffAllPass(dir: string, stems: seq<string>, expected: map<string, FileContent>,
                                                analyzer: string -> AnalyzerRun)
    ensures TallyOf(dir, stems, expected, analyzer).failed == 0 <==> AllPass(dir, stems, expected, analyzer)
    decreases |stems|
  {
    if stems != [] {
      var init := stems[..|stems| - 1];
      NoFailuresIffAllPass(dir, init, expected, analyzer);
      assert forall i :: 0 <= i < |init| ==> init[i] == stems[i];
      if AllPass(dir, init, expected, analyzer) {
        assert forall i :: 0 <= i < |init| ==> RunTestCase(dir, stems[i], expected, analyzer).Passed?;
      }
    }
  }

  /** Every failing test is recorded in `failed_tests` with its reason; in
      particular a test without an expectation file is recorded, not skipped. */
  lemma {:induction false} FailuresRecorded(dir: string, stems: seq<string>, expected: map<string, FileContent>,
                                            analyzer: string -> AnalyzerRun, i: nat)
    requires i < |stems|
    requires RunTestCase(dir, stems[i], expected, analyzer).Failed?
    ensures FailedTest(stems[i], RunTestCase(dir, stems[i], expected, analyzer).reason)
              in TallyOf(dir, stems, expected, analyzer).failedTests
    decreases |stems|
  {
    if i < |stems| - 1 {
      var init := stems[..|stems| - 1];
      assert init[i] == stems[i];
      FailuresRecorded(dir, init, expected, analyzer, i);
    }
  }

  lemma MissingExpectationCounted(dir: string, stems: seq<string>, expected: map<string, FileContent>,
                                  analyzer: string -> AnalyzerRun, i: nat)
    requires i < |stems| && ExpectedFileName(stems[i]) !in expected
    ensures FailedTest(stems[i], ExpectedFileMissing) in TallyOf(dir, stems, expected, analyzer).failedTests
  {
    FailuresRecorded(dir, stems, expected, analyzer, i);
  }

  /** Every entry of `failed_tests` is a test of the directory that failed for that reason. */
  lemma {:induction false} FailuresSound(dir: string, stems: seq<string>, expected: map<string, FileContent>,
                                         analyzer: string -> AnalyzerRun, k: nat)
    requires k < |TallyOf(dir, stems, expected, analyzer).failedTests|
    ensures exists i :: (0 <= i < |stems|
      && stems[i] == TallyOf(dir, stems, expected, analyzer).failedTests[k].stem
      && RunTestCase(dir, stems[i], expected, analyzer)
           == Failed(TallyOf(dir, stems, expected, analyzer).failedTests[k].reason))
    decreases |stems|
  {
    var init := stems[..|stems| - 1];
    var prev := TallyOf(dir, init, expected, analyzer);
    if k < |prev.failedTests| {
      FailuresSound(dir, init, expected, analyzer, k);
      var i :| 0 <= i < |init| && init[i] == prev.failedTests[k].stem
        && RunTestCase(dir, init[i], expected, analyzer) == Failed(prev.failedTests[k].reason);
      assert stems[i] == init[i];
    } else {
      assert stems[|stems| - 1] == TallyOf(dir, stems, expected, analyzer).failedTests[k].stem;
    }
  }

  /** The loop over one test directory (the same loop in both suites). */
  method RunTestDir(dir: string, tests: TestDir, analyzer: string -> AnalyzerRun)
    returns (passed: nat, failed: nat, failedTests: seq<FailedTest>)
    ensures Tally(passed, failed, failedTests) == TallyOf(dir, tests.stems, tests.expected, analyzer)
  {
    passed, failed, failedTests := 0, 0, [];
    for i := 0 to |tests.stems|
      invariant Tally(passed, failed, failedTests) == TallyOf(dir, tests.stems[..i], tests.expected, analyzer)
    {
      TallyStep(dir, tests.stems, tests.expected, analyzer, i);
      var stem := tests.stems[i];
      var expectedFile := ExpectedFileName(stem);
      if expectedFile !in tests.expected {
        assert RunTestCase(dir, stem, tests.expected, analyzer) == Failed(ExpectedFileMissing);
        failed := failed + 1;
        failedTests := failedTests + [FailedTest(stem, ExpectedFileMissing)];
        continue;
      }
      var outcome := RunSingleTest(analyzer(InputPath(dir, stem)), tests.expected[expectedFile]);
      assert RunTestCase(dir, stem, tests.expected, analyzer) == outcome;
      if outcome.Passed? {
        passed := passed + 1;
      } else {
        failed := failed + 1;
        failedTests := failedTests + [FailedTest(stem, outcome.reason)];
      }
    }
    assert tests.stems[..|tests.stems|] == tests.stems;
  }

  /** The tally of the official suite: nothing when its tests directory is missing. */
  function OfficialTally(official: Option<TestDir>, analyzer: string -> AnalyzerRun): Tally {
    if official.None? then Tally(0, 0, [])
    else TallyOf(OfficialDir, official.value.stems, official.value.expected, analyzer)
  }

  method RunOfficialTests(official: Option<TestDir>, analyzer: string -> AnalyzerRun)
    returns (passed: nat, failed: nat)
    ensures passed + failed == if official.None? then 0 else |official.value.stems|
    ensures passed == OfficialTally(official, analyzer).passed
    ensures failed == OfficialTally(official, analyzer).failed
  {
    if official.None? {
      return 0, 0;
    }
    if |official.value.stems| == 0 {
      return 0, 0;
    }
    var failedTests;
    passed, failed, failedTests := RunTestDir(OfficialDir, official.value, analyzer);
  }

  /** The categories a run visits: only the filter when one is given (an
      empty filter counts as none, as in Python), otherwise all of them. */
  function CategoriesToRun(filter: Option<string>): (cats: seq<string>)
    ensures Truthy(filter) ==> cats == [filter.value]
    ensures !Truthy(filter) ==> cats == Categories
  {
    if Truthy(filter) then [filter.value] else Categories
  }

  /** A category contributes to `results_by_category` iff its tests directory
      exists and holds at least one test. */
  predicate Contributes(root: map<string, TestDir>, category: string) {
    category in root && |root[category].stems| > 0
  }

  function CategoryTally(root: map<string, TestDir>, category: string,
                         analyzer: string -> AnalyzerRun): Tally
    requires category in root
  {
    TallyOf(CategoryDir(category), root[category].stems, root[category].expected, analyzer)
  }

  /** The entry a category adds to `results_by_category`: none unless it contributes. */
  function Entry(root: map<string, TestDir>, category: string,
                 analyzer: string -> AnalyzerRun): seq<CategoryResult>
  {
    if Contributes(root, category) then
      var t := CategoryTally(root, category, analyzer);
      [CategoryResult(category, t.passed, t.failed)]
    else []
  }

  /** `results_by_category` after visiting `cats` in order. */
  function Results(root: map<string, TestDir>, cats: seq<string>,
                   analyzer: string -> AnalyzerRun): (rs: seq<CategoryResult>)
    ensures |rs| <= |cats|
    decreases |cats|
  {
    if cats == [] then []
    else Results(root, cats[..|cats| - 1], analyzer) + Entry(root, cats[|cats| - 1], analyzer)
  }

  lemma ResultsStep(root: map<string, TestDir>, cats: seq<string>, analyzer: string -> AnalyzerRun, n: nat)
    requires n < |cats|
    ensures Results(root, cats[..n + 1], analyzer) == Results(root, cats[..n], analyzer) + Entry(root, cats[n], analyzer)
  {
    assert cats[..n + 1][..n] == cats[..n];
  }

  /** Each entry of the results is a visited category that contributes, with
      that category's counts. */
  lemma {:induction false} ResultsEntries(root: map<string, TestDir>, cats: seq<string>,
                                          analyzer: string -> AnalyzerRun, k: nat)
    requires k < |Results(root, cats, analyzer)|
    ensures Results(root, cats, analyzer)[k].category in cats
    ensures Contributes(root, Results(root, cats, analyzer)[k].category)
    ensures Results(root, cats, analyzer)[k].passed
         == CategoryTally(root, Results(root, cats, analyzer)[k].category, analyzer).passed
    ensures Results(root, cats, analyzer)[k].failed
         == CategoryTally(root, Results(root, cats, analyzer)[k].category, analyzer).failed
    decreases |cats|
  {
    var init := cats[..|cats| - 1];
    var prev := Results(root, init, analyzer);
    if k < |prev| {
      ResultsEntries(root, init, analyzer, k);
      assert Results(root, cats, analyzer)[k] == prev[k];
      assert prev[k].category in cats by {
        var i :| 0 <= i < |init| && init[i] == prev[k].category;
        assert cats[i] == init[i];
      }
    } else {
      assert Results(root, cats, analyzer)[k].category == cats[|cats| - 1];
    }
  }

  function SumPassed(rs: seq<CategoryResult>): nat {
    if rs == [] then 0 else SumPassed(rs[..|rs| - 1]) + rs[|rs| - 1].passed
  }

  function SumFailed(rs: seq<CategoryResult>): nat {
    if rs == [] then 0 else SumFailed(rs[..|rs| - 1]) + rs[|rs| - 1].failed
  }

  lemma SumsAppend(rs: seq<CategoryResult>, r: CategoryResult)
    ensures SumPassed(rs + [r]) == SumPassed(rs) + r.passed
    ensures SumFailed(rs + [r]) == SumFailed(rs) + r.failed
  {
    assert (rs + [r])[..|rs|] == rs;
  }

  /** What visiting one category adds to the totals. */
  lemma SumsEntry(rs: seq<CategoryResult>, root: map<string, TestDir>, category: string,
                  analyzer: string -> AnalyzerRun)
    ensures SumPassed(rs + Entry(root, category, analyzer))
         == SumPassed(rs) + if Contributes(root, category) then CategoryTally(root, category, analyzer).passed else 0
    ensures SumFailed(rs + Entry(root, category, analyzer))
         == SumFailed(rs) + if Contributes(root, category) then CategoryTally(root, category, analyzer).failed else 0
  {
    if Contributes(root, category) {
      var t := CategoryTally(root, category, analyzer);
      SumsAppend(rs, CategoryResult(category, t.passed, t.failed));
    } else {
      assert rs + Entry(root, category, analyzer) == rs;
    }
  }

  /** The number of test input files in the categories `cats` whose tests directory exists. */
  function TestCount(root: map<string, TestDir>, cats: seq<string>): nat {
    if cats == [] then 0
    else
      var category := cats[|cats| - 1];
      TestCount(root, cats[..|cats| - 1]) + if category in root then |root[category].stems| else 0
  }

  /** Every visited category that contributes has an entry. */
  lemma {:induction false} ResultsListed(root: map<string, TestDir>, cats: seq<string>,
                                         analyzer: string -> AnalyzerRun, category: string)
    requires category in cats && Contributes(root, category)
    ensures exists k :: 0 <= k < |Results(root, cats, analyzer)| && Results(root, cats, analyzer)[k].category == category
    decreases |cats|
  {
    var init := cats[..|cats| - 1];
    var rs := Results(root, cats, analyzer);
    var prev := Results(root, init, analyzer);
    var entry := Entry(root, cats[|cats| - 1], analyzer);
    assert rs == prev + entry;
    if category == cats[|cats| - 1] {
      assert rs[|rs| - 1] == entry[0];
    } else {
      assert cats == init + [cats[|cats| - 1]];
      ResultsListed(root, init, analyzer, category);
      var k :| 0 <= k < |prev| && prev[k].category == category;
      assert rs[k] == prev[k];
    }
  }

  /** A category appears in the results iff it was visited and contributes. */
  lemma ResultsPresence(root: map<string, TestDir>, cats: seq<string>,
                        analyzer: string -> AnalyzerRun, category: string)
    ensures (exists k :: 0 <= k < |Results(root, cats, analyzer)| && Results(root, cats, analyzer)[k].category == category)
        <==> category in cats && Contributes(root, category)
  {
    var rs := Results(root, cats, analyzer);
    if k :| 0 <= k < |rs| && rs[k].category == category {
      ResultsEntries(root, cats, analyzer, k);
    }
    if category in cats && Contributes(root, category) {
      ResultsListed(root, cats, analyzer, category);
    }
  }

  /** Results appear in the order their categories are visited. */
  lemma {:induction false} ResultsInVisitOrder(root: map<string, TestDir>, cats: seq<string>,
                                               analyzer: string -> AnalyzerRun, k: nat, l: nat)
    requires k < l < |Results(root, cats, analyzer)|
    ensures exists i, j :: (0 <= i < j < |cats|
      && cats[i] == Results(root, cats, analyzer)[k].category
      && cats[j] == Results(root, cats, analyzer)[l].category)
    decreases |cats|
  {
    var init := cats[..|cats| - 1];
    var prev := Results(root, init, analyzer);
    var rs := Results(root, cats, analyzer);
    if l < |prev| {
      assert rs[k] == prev[k] && rs[l] == prev[l];
      ResultsInVisitOrder(root, init, analyzer, k, l);
      var i, j :| 0 <= i < j < |init| && init[i] == prev[k].category && init[j] == prev[l].category;
      assert cats[i] == init[i] && cats[j] == init[j];
    } else {
      assert rs[k] == prev[k];
      ResultsEntries(root, init, analyzer, k);
      var i :| 0 <= i < |init| && init[i] == prev[k].category;
      assert cats[i] == init[i];
      assert cats[|cats| - 1] == rs[l].category;
    }
  }

  /** Every test input file of every visited category is counted exactly once. */
  lemma {:induction false} ResultsCountAllTests(root: map<string, TestDir>, cats: seq<string>,
                                                analyzer: string -> AnalyzerRun)
    ensures SumPassed(Results(root, cats, analyzer)) + SumFailed(Results(root, cats, analyzer))
         == TestCount(root, cats)
    decreases |cats|
  {
    if cats != [] {
      var init := cats[..|cats| - 1];
      ResultsCountAllTests(root, init, analyzer);
      SumsEntry(Results(root, init, analyzer), root, cats[|cats| - 1], analyzer);
    }
  }

  /** Every test of every visited category whose tests directory exists passed. */
  ghost predicate SuitePasses(root: map<string, TestDir>, cats: seq<string>, analyzer: string -> AnalyzerRun) {
    forall c :: c in cats && c in root ==> AllPass(CategoryDir(c), root[c].stems, root[c].expected, analyzer)
  }

  lemma ResultsFailedStep(root: map<string, TestDir>, cats: seq<string>, analyzer: string -> AnalyzerRun)
    requires cats != []
    ensures SumFailed(Results(root, cats, analyzer))
         == SumFailed(Results(root, cats[..|cats| - 1], analyzer))
            + if Contributes(root, cats[|cats| - 1]) then CategoryTally(root, cats[|cats| - 1], analyzer).failed else 0
  {
    SumsEntry(Results(root, cats[..|cats| - 1], analyzer), root, cats[|cats| - 1], analyzer);
  }

  lemma SuitePassesStep(root: map<string, TestDir>, cats: seq<string>, analyzer: string -> AnalyzerRun)
    requires cats != []
    ensures SuitePasses(root, cats, analyzer) <==>
      && SuitePasses(root, cats[..|cats| - 1], analyzer)
      && (var c := cats[|cats| - 1];
          c in root ==> AllPass(CategoryDir(c), root[c].stems, root[c].expected, analyzer))
  {
    assert cats == cats[..|cats| - 1] + [cats[|cats| - 1]];
  }

  /** The suite has no failure iff every test of every visited category passed. */
  lemma {:induction false} ResultsNoFailuresIffAllPass(root: map<string, TestDir>, cats: seq<string>,
                                                       analyzer: string -> AnalyzerRun)
    ensures SumFailed(Results(root, cats, analyzer)) == 0 <==> SuitePasses(root, cats, analyzer)
    decreases |cats|
  {
    if cats != [] {
      var category := cats[|cats| - 1];
      ResultsNoFailuresIffAllPass(root, cats[..|cats| - 1], analyzer);
      ResultsFailedStep(root, cats, analyzer);
      SuitePassesStep(root, cats, analyzer);
      if category in root {
        var d := root[category];
        NoFailuresIffAllPass(CategoryDir(category), d.stems, d.expected, analyzer);
      }
    }
  }

  /** The loop of the unofficial suite over the categories to run. */
  method RunCategories(root: map<string, TestDir>, cats: seq<string>, analyzer: string -> AnalyzerRun)
    returns (totalPassed: nat, totalFailed: nat, results: seq<CategoryResult>)
    ensures results == Results(root, cats, analyzer)
    ensures totalPassed == SumPassed(results) && totalFailed == SumFailed(results)
  {
    totalPassed, totalFailed, results := 0, 0, [];
    for n := 0 to |cats|
      invariant results == Results(root, cats[..n], analyzer)
      invariant totalPassed == SumPassed(results) && totalFailed == SumFailed(results)
    {
      ResultsStep(root, cats, analyzer, n);
      var category := cats[n];
      if category !in root {
        assert Entry(root, category, analyzer) == [];
        continue;
      }
      var tests := root[category];
      if |tests.stems| == 0 {
        assert Entry(root, category, analyzer) == [];
        continue;
      }
      var passed, failed, failedTests := RunTestDir(CategoryDir(category), tests, analyzer);
      SumsEntry(results, root, category, analyzer);
      results := results + [CategoryResult(category, passed, failed)];
      totalPassed := totalPassed + passed;
      totalFailed := totalFailed + failed;
    }
    assert cats[..|cats|] == cats;
  }

  method RunUnofficialTests(unofficial: Option<map<string, TestDir>>, filter: Option<string>,
                            analyzer: string -> AnalyzerRun)
    returns (totalPassed: nat, totalFailed: nat, results: seq<CategoryResult>)
    ensures unofficial.None? ==> results == []
    ensures unofficial.Some? ==> results == Results(unofficial.value, CategoriesToRun(filter), analyzer)
    ensures totalPassed == SumPassed(results) && totalFailed == SumFailed(results)
  {
    if unofficial.None? {
      return 0, 0, [];
    }
    totalPassed, totalFailed, results := RunCategories(unofficial.value, CategoriesToRun(filter), analyzer);
  }
}
