/**
 The test runner's entry point: getting an analyzer (from the local build,
 or by extracting a submission archive and running `make` in it), choosing
 the suites from the command-line flags, running them, and turning the
 failure count into the exit status. The file system, the archive library
 and the processes are not modelled; what they report is an input value.
 */
module Harness {
  import opened Wrappers
  import opened Archive
  import opened TestCase
  import opened Suite
  import opened StudentIds

  /** What the path given with `--zip` turned out to be. An archive lists its
      entry names; `idsText` is the content of its `ids.txt` once extracted,
      `None` when extracting or reading raised. `Corrupt` is an archive whose
      entry list could not be read. */
  datatype ZipPath =
    | Missing
    | NotAZipFile
    | Corrupt
    | ZipArchive(names: seq<string>, idsText: Option<string>)

  /** What running `make` in the extracted `ex4` directory did. */
  datatype BuildRun =
    | MakeExited(code: int, analyzerCreated: bool)
    | MakeTimedOut
    | MakeRaised(message: string)

  /** Why the runner stops with status 1 before running any test. */
  datatype SetupError =
    | ZipNotFound
    | NotAZip
    | ExtractionFailed
    | BadStructure(error: StructureError)
    | MakefileNotFound
    | BuildFailed(code: int)
    | BuildTimedOut
    | BuildRaised(message: string)
    | AnalyzerNotCreated
    | AnalyzerMissing
    | InvalidCategory(category: string)

  datatype Status = Ready | Stopped(error: SetupError)

  /** The flags of the runner's command line (`--verbose` only changes what is printed). */
  datatype Args = Args(official: bool, unofficial: bool, category: Option<string>, zip: Option<string>)

  /** Everything the runner learns from outside: whether the local analyzer
      was built, the archive named by `--zip` and the build in it, the two
      test trees, and what the analyzer in use does on each input path. */
  datatype Env = Env(localAnalyzer: bool, zip: ZipPath, make: BuildRun,
                     official: Option<TestDir>, unofficial: Option<map<string, TestDir>>,
                     analyzer: string -> AnalyzerRun)

  /** Opening, checking and extracting a submission; on success, the student
      IDs listed from its `ids.txt`. */
  function ExtractSubmission(zip: ZipPath): (r: Result<seq<string>, SetupError>)
    ensures r.Success? <==> zip.ZipArchive? && CheckStructure(zip.names).Valid? && zip.idsText.Some?
    ensures zip.ZipArchive? && CheckStructure(zip.names).Invalid? ==>
              r == Failure(BadStructure(CheckStructure(zip.names).error))
  {
    match zip
    case Missing => Failure(ZipNotFound)
    case NotAZipFile => Failure(NotAZip)
    case Corrupt => Failure(ExtractionFailed)
    case ZipArchive(names, idsText) =>
      match CheckStructure(names)
      case Invalid(error) => Failure(BadStructure(error))
      case Valid =>
        if idsText.None? then Failure(ExtractionFailed) else Success(ShownIds(idsText.value))
  }

  /** An archive that passes the structure check and extracts cleanly is
      accepted, and the IDs shown are the non-blank lines of its `ids.txt`. */
  lemma ExtractAccepted(names: seq<string>, idsText: string)
    requires CheckStructure(names).Valid?
    ensures ExtractSubmission(ZipArchive(names, Some(idsText))) == Success(ShownIds(idsText))
  {
  }

  /** Building the analyzer in the extracted directory: it is usable only when
      the Makefile exists, `make` exits with 0 and the analyzer file appeared. */
  function BuildAnalyzer(makefileExists: bool, run: BuildRun): (s: Status)
    ensures s.Ready? <==> makefileExists && run.MakeExited? && run.code == 0 && run.analyzerCreated
    ensures !makefileExists ==> s == Stopped(MakefileNotFound)
    ensures run.MakeExited? && run.code != 0 && makefileExists ==> s == Stopped(BuildFailed(run.code))
  {
    if !makefileExists then Stopped(MakefileNotFound)
    else
      match run
      case MakeTimedOut => Stopped(BuildTimedOut)
      case MakeRaised(message) => Stopped(BuildRaised(message))
      case MakeExited(code, created) =>
        if code != 0 then Stopped(BuildFailed(code))
        else if !created then Stopped(AnalyzerNotCreated)
        else Ready
  }

  /** Getting an analyzer: from the submission when `--zip` is given,
      otherwise the local build. */
  function Prepare(args: Args, env: Env): (s: Status)
    ensures Truthy(args.zip) ==>
      (s.Ready? <==> && ExtractSubmission(env.zip).Success?
                     && env.make.MakeExited? && env.make.code == 0 && env.make.analyzerCreated)
    ensures !Truthy(args.zip) ==> (s.Ready? <==> env.localAnalyzer)
    ensures !Truthy(args.zip) && !env.localAnalyzer ==> s == Stopped(AnalyzerMissing)
  {
    if Truthy(args.zip) then
      match ExtractSubmission(env.zip)
      case Failure(error) => Stopped(error)
      case Success(_) => BuildAnalyzer(Makefile in env.zip.names, env.make)
    else if env.localAnalyzer then Ready
    else Stopped(AnalyzerMissing)
  }

  /** An archive that passed the structure check always has its Makefile, so
      the build step never reports it missing. */
  lemma ZipModeFindsMakefile(args: Args, env: Env)
    requires Truthy(args.zip)
    ensures Prepare(args, env) != Stopped(MakefileNotFound)
  {
    var extracted := ExtractSubmission(env.zip);
    if extracted.Success? {
      assert CheckStructure(env.zip.names).Valid?;
      assert Makefile in env.zip.names;
    } else {
      assert extracted.error != MakefileNotFound;
    }
  }

  datatype Plan = Plan(runOfficial: bool, runUnofficial: bool)

  /** Which suites run. A non-empty `--category` must be one of the known
      categories and then selects the unofficial suite alone; otherwise a
      single suite flag selects that suite and no flag or both select both. */
  function SelectSuites(args: Args): (r: Result<Plan, SetupError>)
    ensures r.Failure? <==> Truthy(args.category) && args.category.value !in Categories
    ensures r.Failure? ==> r.error == InvalidCategory(args.category.value)
    ensures r.Success? ==> r.value.runOfficial || r.value.runUnofficial
    ensures r.Success? && Truthy(args.category) ==> r.value == Plan(false, true)
    ensures !Truthy(args.category) && args.official == args.unofficial ==> r == Success(Plan(true, true))
    ensures !Truthy(args.category) && args.official && !args.unofficial ==> r == Success(Plan(true, false))
    ensures !Truthy(args.category) && !args.official && args.unofficial ==> r == Success(Plan(false, true))
  {
    if Truthy(args.category) then
      if args.category.value !in Categories then Failure(InvalidCategory(args.category.value))
      else Success(Plan(false, true))
    else Success(Plan(!args.unofficial || args.official, !args.official || args.unofficial))
  }

  datatype Totals = Totals(passed: nat, failed: nat)

  /** The totals the official suite contributes when selected. */
  function OfficialTotals(plan: Plan, env: Env): Totals {
    if plan.runOfficial then
      var t := OfficialTally(env.official, env.analyzer);
      Totals(t.passed, t.failed)
    else Totals(0, 0)
  }

  /** The totals the unofficial suite contributes when selected. */
  function UnofficialTotals(plan: Plan, filter: Option<string>, env: Env): Totals {
    if plan.runUnofficial && env.unofficial.Some? then
      var results := Results(env.unofficial.value, CategoriesToRun(filter), env.analyzer);
      Totals(SumPassed(results), SumFailed(results))
    else Totals(0, 0)
  }

  /** The grand totals of the selected suites. */
  function SuiteTotals(plan: Plan, filter: Option<string>, env: Env): Totals {
    var official := OfficialTotals(plan, env);
    var unofficial := UnofficialTotals(plan, filter, env);
    Totals(official.passed + unofficial.passed, official.failed + unofficial.failed)
  }

  /** The number of test input files of the selected suites. */
  function SelectedTestCount(plan: Plan, filter: Option<string>, env: Env): nat {
    (if plan.runOfficial && env.official.Some? then |env.official.value.stems| else 0)
    + (if plan.runUnofficial && env.unofficial.Some?
       then TestCount(env.unofficial.value, CategoriesToRun(filter)) else 0)
  }

  /** Every test of the selected suites passes. */
  ghost predicate SelectedPass(plan: Plan, filter: Option<string>, env: Env) {
    && (plan.runOfficial && env.official.Some? ==>
          AllPass(OfficialDir, env.official.value.stems, env.official.value.expected, env.analyzer))
    && (plan.runUnofficial && env.unofficial.Some? ==>
          SuitePasses(env.unofficial.value, CategoriesToRun(filter), env.analyzer))
  }

  /** Each selected test is counted once, as passed or as failed. */
  lemma TotalsCountSelectedTests(plan: Plan, filter: Option<string>, env: Env)
    ensures SuiteTotals(plan, filter, env).passed + SuiteTotals(plan, filter, env).failed
         == SelectedTestCount(plan, filter, env)
  {
    if plan.runUnofficial && env.unofficial.Some? {
      ResultsCountAllTests(env.unofficial.value, CategoriesToRun(filter), env.analyzer);
    }
  }

  /** No failure is counted iff every selected test passes. */
  lemma NoFailuresIffSelectedPass(plan: Plan, filter: Option<string>, env: Env)
    ensures SuiteTotals(plan, filter, env).failed == 0 <==> SelectedPass(plan, filter, env)
  {
    if plan.runOfficial && env.official.Some? {
      var d := env.official.value;
      NoFailuresIffAllPass(OfficialDir, d.stems, d.expected, env.analyzer);
    }
    if plan.runUnofficial && env.unofficial.Some? {
      ResultsNoFailuresIffAllPass(env.unofficial.value, CategoriesToRun(filter), env.analyzer);
    }
  }

  /** Running the selected suites one after the other, adding up their totals. */
  method RunSelected(plan: Plan, filter: Option<string>, env: Env) returns (totalPassed: nat, totalFailed: nat)
    ensures Totals(totalPassed, totalFailed) == SuiteTotals(plan, filter, env)
  {
    totalPassed, totalFailed := 0, 0;
    if plan.runOfficial {
      var passed, failed := RunOfficialTests(env.official, env.analyzer);
      totalPassed, totalFailed := totalPassed + passed, totalFailed + failed;
    }
    assert Totals(totalPassed, totalFailed) == OfficialTotals(plan, env);
    if plan.runUnofficial {
      var passed, failed, results := RunUnofficialTests(env.unofficial, filter, env.analyzer);
      assert Totals(passed, failed) == UnofficialTotals(plan, filter, env);
      totalPassed, totalFailed := totalPassed + passed, totalFailed + failed;
    }
  }

  /** The runner's `main`: the exit status and the grand totals it reports. */
  method RunTests(args: Args, env: Env) returns (code: int, totalPassed: nat, totalFailed: nat)
    ensures code == 0 || code == 1
    ensures Prepare(args, env).Stopped? ==> code == 1 && totalPassed == 0 && totalFailed == 0
    ensures Prepare(args, env).Ready? && SelectSuites(args).Failure? ==>
              code == 1 && totalPassed == 0 && totalFailed == 0
    ensures Prepare(args, env).Ready? && SelectSuites(args).Success? ==>
              Totals(totalPassed, totalFailed) == SuiteTotals(SelectSuites(args).value, args.category, env)
    ensures code == 0 <==>
      && Prepare(args, env).Ready?
      && SelectSuites(args).Success?
      && SelectedPass(SelectSuites(args).value, args.category, env)
  {
    if Truthy(args.zip) {
      var extracted := ExtractSubmission(env.zip);
      if extracted.Failure? {
        return 1, 0, 0;
      }
      var built := BuildAnalyzer(Makefile in env.zip.names, env.make);
      if built.Stopped? {
        return 1, 0, 0;
      }
    } else if !env.localAnalyzer {
      return 1, 0, 0;
    }

    var runOfficial := !args.unofficial || args.official;
    var runUnofficial := !args.official || args.unofficial;
    if Truthy(args.category) {
      if args.category.value !in Categories {
        return 1, 0, 0;
      }
      runOfficial := false;
      runUnofficial := true;
    }
    var plan := Plan(runOfficial, runUnofficial);
    assert SelectSuites(args) == Success(plan);

    totalPassed, totalFailed := RunSelected(plan, args.category, env);
    NoFailuresIffSelectedPass(plan, args.category, env);
    code := if totalFailed == 0 then 0 else 1;
  }
}
