/**
 One test: look up its expectation file, run the analyzer once, and classify
 the result. The analyzer process is not modelled; what it did (its exit
 status, a timeout or an exception, and the output file it left, if any) is
 an input value.
 */
module TestCase {
  import opened Wrappers
  import opened Text

  /** A file that exists, as reading it turns out: its text, or the message
      of the error that reading it raises (a directory, no permission). */
  datatype FileContent = Contents(text: string) | Unreadable(message: string)

  /** What one analyzer invocation did. `output` is the output file after the
      process ended, `None` when the file was not created. */
  datatype AnalyzerRun =
    | Exited(code: int, stdout: string, stderr: string, output: Option<FileContent>)
    | TimedOut
    | Raised(message: string)

  /** Why a test failed. A nonzero exit keeps the stripped streams that were
      non-empty; a mismatch keeps both texts for the diagnostic. */
  datatype FailReason =
    | NonZeroExit(code: int, stderr: Option<string>, stdout: Option<string>)
    | OutputFileMissing
    | OutputMismatch(expected: string, actual: string)
    | Timeout
    | Exception(message: string)
    | ExpectedFileMissing

  datatype TestOutcome = Passed | Failed(reason: FailReason)

  /** The name of the expectation file of the test whose input file has stem `stem`. */
  function ExpectedFileName(stem: string): (name: string)
    ensures StartsWith(name, stem) && name[|stem|..] == "_Expected_Output.txt"
  {
    stem + "_Expected_Output.txt"
  }

  /** The input file of test `stem` in the test directory `dir`. */
  function InputPath(dir: string, stem: string): string {
    dir + "/tests/" + stem + ".txt"
  }

  /** A captured stream goes into the failure message, stripped, only when it is non-empty. */
  function Captured(stream: string): (r: Option<string>)
    ensures r.None? <==> stream == []
    ensures r.Some? ==> r.value == Strip(stream)
  {
    if stream == [] then None else Some(Strip(stream))
  }

  /** The decision chain of one analyzer run against the expectation file.
      The output file is read before the expectation file, and an error
      while reading either is reported as an exception. */
  function RunSingleTest(run: AnalyzerRun, expected: FileContent): (o: TestOutcome)
    ensures o.Passed? <==>
      && run.Exited? && run.code == 0
      && run.output.Some? && run.output.value.Contents? && expected.Contents?
      && run.output.value.text == expected.text
    ensures run.Exited? && run.code != 0 ==> o.Failed? && o.reason.NonZeroExit?
    ensures o != Failed(ExpectedFileMissing)
  {
    match run
    case TimedOut => Failed(Timeout)
    case Raised(message) => Failed(Exception(message))
    case Exited(code, stdout, stderr, output) =>
      if code != 0 then Failed(NonZeroExit(code, Captured(stderr), Captured(stdout)))
      else if output.None? then Failed(OutputFileMissing)
      else if output.value.Unreadable? then Failed(Exception(output.value.message))
      else if expected.Unreadable? then Failed(Exception(expected.message))
      else if output.value.text == expected.text then Passed
      else Failed(OutputMismatch(expected.text, output.value.text))
  }

  /** One iteration of a test loop: a test without an expectation file fails
      without the analyzer being run; otherwise the analyzer runs on its input. */
  function RunTestCase(dir: string, stem: string, expected: map<string, FileContent>,
                       analyzer: string -> AnalyzerRun): (o: TestOutcome)
    ensures o == Failed(ExpectedFileMissing) <==> ExpectedFileName(stem) !in expected
  {
    var name := ExpectedFileName(stem);
    if name !in expected then Failed(ExpectedFileMissing)
    else RunSingleTest(analyzer(InputPath(dir, stem)), expected[name])
  }

  /** A nonzero exit fails the test whatever the output file holds and
      whatever was expected: the output is never read or compared. */
  lemma NonZeroExitIgnoresOutput(code: int, stdout: string, stderr: string,
                                 output1: Option<FileContent>, output2: Option<FileContent>,
                                 expected1: FileContent, expected2: FileContent)
    requires code != 0
    ensures RunSingleTest(Exited(code, stdout, stderr, output1), expected1)
         == RunSingleTest(Exited(code, stdout, stderr, output2), expected2)
         == Failed(NonZeroExit(code, Captured(stderr), Captured(stdout)))
  {
  }

  /** After a zero exit: no output file is a failure; a file that cannot be
      read, the output or the expectation, is an exception carrying the read
      error; and otherwise any difference between the texts is a mismatch
      carrying both. */
  lemma ZeroExitOutcomes(stdout: string, stderr: string, output: Option<FileContent>, expected: FileContent)
    ensures output.None? ==>
      RunSingleTest(Exited(0, stdout, stderr, output), expected) == Failed(OutputFileMissing)
    ensures output.Some? && output.value.Unreadable? ==>
      RunSingleTest(Exited(0, stdout, stderr, output), expected)
        == Failed(Exception(output.value.message))
    ensures output.Some? && output.value.Contents? && expected.Unreadable? ==>
      RunSingleTest(Exited(0, stdout, stderr, output), expected)
        == Failed(Exception(expected.message))
    ensures output.Some? && output.value.Contents? && expected.Contents? && output.value.text != expected.text ==>
      RunSingleTest(Exited(0, stdout, stderr, output), expected)
        == Failed(OutputMismatch(expected.text, output.value.text))
  {
  }

  /** A timeout or an exception is always a failure. */
  lemma TimeoutAndExceptionFail(message: string, expected: FileContent)
    ensures RunSingleTest(TimedOut, expected) == Failed(Timeout)
    ensures RunSingleTest(Raised(message), expected) == Failed(Exception(message))
  {
  }

  /** A missing expectation file decides the outcome before the analyzer is
      consulted: any two analyzers give the same failure. */
  lemma MissingExpectationSkipsAnalyzer(dir: string, stem: string, expected: map<string, FileContent>,
                                        analyzer1: string -> AnalyzerRun,
                                        analyzer2: string -> AnalyzerRun)
    requires ExpectedFileName(stem) !in expected
    ensures RunTestCase(dir, stem, expected, analyzer1)
         == RunTestCase(dir, stem, expected, analyzer2)
         == Failed(ExpectedFileMissing)
  {
  }

  /** The exact-match law for a whole test: it passes iff its expectation
      file exists and can be read, the analyzer exited 0, and the output file
      can be read and holds exactly the expected text. */
  lemma TestPassesIff(dir: string, stem: string, expected: map<string, FileContent>,
                      analyzer: string -> AnalyzerRun)
    ensures RunTestCase(dir, stem, expected, analyzer).Passed? <==>
      && ExpectedFileName(stem) in expected
      && analyzer(InputPath(dir, stem)).Exited?
      && analyzer(InputPath(dir, stem)).code == 0
      && expected[ExpectedFileName(stem)].Contents?
      && analyzer(InputPath(dir, stem)).output == Some(expected[ExpectedFileName(stem)])
  {
  }
}
