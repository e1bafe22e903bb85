# Ex4 test runner and submission creator, modelled in Dafny

This project models the decision and bookkeeping logic of two Python scripts
that support a compilation-course exercise (an uninitialised-variable
analyzer called `ANALYZER`):

- `run_tests.py` runs the analyzer on every test input of the *official* suite
  and of the *unofficial* suite (one test directory per category, in the fixed
  order `global, local, propagation, shadow, if, while, printint, expr, edge,
  ok`). It compares each output file exactly with the expected text, counts
  passes and failures, and exits with 0 iff nothing failed. With `--zip` it
  first checks and extracts a submission archive, lists the student IDs in it
  and builds the analyzer with `make`.
- `create_submission.py` gathers student IDs (`--id`, else `--ids`, else typed
  lines), keeps the numeric ones, writes `<first ID>.zip` with an `ids.txt`
  manifest and the copied `ex4/` files, and checks the archive it wrote.

Everything outside the scripts' own logic becomes an input value. This covers
whether a file or directory exists, the sorted test stems, the expected-output
files, what the analyzer process did on each input path, what `make` did, the
archive's entry names and the files the copy step produced.

Details of the scripts' behaviour the model keeps:

- a nonzero analyzer exit records both captured streams, stdout as well as
  stderr, each only when non-empty (`TestCase.Captured`);
- an unexpected exception while running a test is a failure kind of its own
  (`Exception`), next to the timeout;
- a build that exits with 0 without producing the analyzer is reported as
  `AnalyzerNotCreated`, separately from a nonzero `make` status; both stop the
  run before any test;
- output files are compared as text read in text mode, not as raw bytes;
- once the analyzer has exited with 0 and left an output file, an output file
  that cannot be read, or else an expectation file that cannot be read (a
  directory, a file without read permission), makes the test fail with that
  read error as an `Exception`; the output file is read first.

Modules, one file each:

| file | module | models |
|---|---|---|
| `text.dfy` | `Text` | Python's `str.strip()`, `isdigit()`, `startswith()` and `split('\n')` |
| `archive.dfy` | `Archive` | the three-step archive structure check that both scripts use |
| `single_test.dfy` | `TestCase` | `run_single_test` and one iteration of a test loop |
| `suite.dfy` | `Suite` | `run_official_tests` and `run_unofficial_tests`, as loops proved against fold functions |
| `harness.dfy` | `Harness` | `main` of `run_tests.py`: extraction, build, suite selection, totals, exit status |
| `student_ids.dfy` | `StudentIds` | `validate_student_ids`, `get_student_ids_interactive`, the `ids.txt` format and its parse |
| `submission.dfy` | `Submission` | ID precedence, `create_submission_zip`, `verify_zip_contents`, `main` of `create_submission.py` |
| `wrappers.dfy` | `Wrappers` | `Option`, `Result` and the truthiness of an optional argument, shared by both scripts |

## Model

| member | source | states |
|---|---|---|
| Text.Strip | create_submission.py:66 | `strip()` drops exactly the leading and trailing whitespace: the result never starts or ends with a whitespace character and is no longer than the input |
| Text.LStripRemovesLeadingSpace | create_submission.py:66 | the part `strip()` removes at the front is a prefix made only of whitespace, and the rest is kept as it was |
| Text.RStripRemovesTrailingSpace | create_submission.py:66 | the part `strip()` removes at the back is a suffix made only of whitespace, and the rest is kept as it was |
| Text.StripIdempotent | create_submission.py:66 | stripping twice is stripping once |
| Text.StripDigits | create_submission.py:69 | a string that passes `isdigit()` is unchanged by `strip()` |
| Text.StripNewlineTerminated | create_submission.py:208 | stripping one line plus its newline gives back the line when the line has no whitespace at either end |
| Text.SplitLines | create_submission.py:266 | `split('\n')` always returns at least one piece and no piece holds a newline |
| Text.JoinSplitLines | create_submission.py:266 | joining the pieces of `split('\n')` with newlines gives back the original string |
| Text.SplitJoinLines | create_submission.py:266 | splitting lines joined with newlines gives back those lines when none holds a newline |
| Archive.SourceEntries | run_tests.py:109 | the `ex4/` entries are exactly the entry names that start with `ex4/` |
| Archive.CheckStructure | run_tests.py:102-116 | an archive is accepted iff `ids.txt` is listed, some entry starts with `ex4/`, and `ex4/Makefile` is listed; it is rejected for `ids.txt` iff `ids.txt` is missing |
| Archive.MakefileImpliesSourceDir | run_tests.py:108-116 | an archive holding `ex4/Makefile` is never rejected for lacking the `ex4/` directory |
| Archive.RejectionReasons | run_tests.py:102-116 | each rejection names the first of the three checks that fails, in both directions |
| TestCase.ExpectedFileName | run_tests.py:281 | the expectation file of a test is its stem followed by `_Expected_Output.txt` |
| TestCase.Captured | run_tests.py:223-226 | a process stream is added to the failure message, stripped, exactly when it is non-empty |
| TestCase.RunSingleTest | run_tests.py:221-253 | a test passes iff the analyzer exited with 0 and left an output file that can be read and equals the text of the readable expectation file; a nonzero exit is always a `NonZeroExit` failure; this step never reports a missing expectation file |
| TestCase.NonZeroExitIgnoresOutput | run_tests.py:221-227 | after a nonzero exit the outcome does not depend on the output file or on the expected text |
| TestCase.ZeroExitOutcomes | run_tests.py:229-253 | after exit 0, a missing output file is a failure; once the output file exists, an output file that cannot be read, or else an expectation file that cannot be read, is an exception carrying that read error (the output file is read first); and any difference from the expected text is a mismatch carrying both texts |
| TestCase.TimeoutAndExceptionFail | run_tests.py:250-253 | a timeout and an exception are always failures |
| TestCase.MissingExpectationSkipsAnalyzer | run_tests.py:283-287 | a test without an expectation file fails with that reason whatever the analyzer would do |
| TestCase.RunTestCase | run_tests.py:281-290 | one loop iteration fails with "expected output file missing" exactly when the expectation file does not exist; otherwise the analyzer runs (see `TestPassesIff` and `MissingExpectationSkipsAnalyzer`) |
| TestCase.TestPassesIff | run_tests.py:281-298 | a test passes iff its expectation file exists and can be read, the analyzer exited with 0 and the output file holds exactly the expected text |
| Suite.TallyOf | run_tests.py:276-298 | after any prefix of the tests, `passed + failed` is the number of tests and `failed` is the length of `failed_tests` |
| Suite.TallyStep | run_tests.py:280-298 | one more test adds its outcome to the counters and, when it failed, one entry to `failed_tests` |
| Suite.NoFailuresIffAllPass | run_tests.py:276-298 | a directory's failure count is 0 iff every one of its tests passes |
| Suite.FailuresRecorded | run_tests.py:295-298 | every failing test appears in `failed_tests` with its reason |
| Suite.MissingExpectationCounted | run_tests.py:283-287 | a test without an expectation file is counted as failed and listed, not skipped |
| Suite.FailuresSound | run_tests.py:283-298 | every entry of `failed_tests` is a test of the directory that failed for exactly that reason |
| Suite.RunTestDir | run_tests.py:276-298 | the loop over one test directory ends with the counters and list of the fold over its sorted stems |
| Suite.RunOfficialTests | run_tests.py:260-306 | the official suite returns `0, 0` when its directory is missing, otherwise the fold's counters, which add up to the number of tests |
| Suite.CategoriesToRun | run_tests.py:317 | only the filter category is visited when a non-empty filter is given, otherwise all ten categories in order |
| Suite.Results | run_tests.py:319-362 | `results_by_category` never has more entries than there are visited categories |
| Suite.ResultsStep | run_tests.py:319-364 | visiting one more category appends its entry when it contributes and nothing otherwise |
| Suite.ResultsEntries | run_tests.py:319-362 | each entry is a visited category whose tests directory exists and holds tests, with that directory's counts |
| Suite.ResultsListed | run_tests.py:324-362 | every visited category whose tests directory exists and holds tests has an entry |
| Suite.ResultsPresence | run_tests.py:324-362 | a category has an entry iff it was visited, its tests directory exists and it holds at least one test |
| Suite.ResultsInVisitOrder | run_tests.py:319-362 | entries appear in the order in which their categories are visited |
| Suite.SumsAppend | run_tests.py:362-364 | the totals after appending an entry are the old totals plus that entry's counts |
| Suite.SumsEntry | run_tests.py:326-364 | a category that is skipped adds 0 to both totals; one that runs adds its counts |
| Suite.ResultsCountAllTests | run_tests.py:319-364 | the unofficial totals count every test input file of every visited category exactly once |
| Suite.ResultsFailedStep | run_tests.py:362-364 | the failure total grows by the failure count of each category that runs |
| Suite.SuitePassesStep | run_tests.py:319 | all tests of the visited categories pass iff they pass in the earlier categories and in the last one |
| Suite.ResultsNoFailuresIffAllPass | run_tests.py:319-364 | the unofficial failure total is 0 iff every test of every visited category passes |
| Suite.RunCategories | run_tests.py:319-364 | the category loop builds exactly `results_by_category`, and the totals are the sums over its entries |
| Suite.RunUnofficialTests | run_tests.py:309-381 | a missing unofficial directory gives no results and zero totals; otherwise the results of the categories to run, with totals equal to the sums over them |
| Harness.ExtractSubmission | run_tests.py:81-138 | a submission is accepted iff the path is a readable zip archive that passes the structure check and extracts; a failed structure check reports its reason |
| Harness.ExtractAccepted | run_tests.py:102-132 | an archive that passes the check and extracts is accepted, and the IDs shown are the non-blank stripped lines of its `ids.txt` |
| Harness.BuildAnalyzer | run_tests.py:143-192 | the build succeeds iff the Makefile exists, `make` exits with 0 and the analyzer file appears; a nonzero `make` status is reported with its code |
| Harness.Prepare | run_tests.py:398-422 | with `--zip` the run can start iff the archive is accepted and the build succeeds; otherwise iff the local analyzer exists |
| Harness.ZipModeFindsMakefile | run_tests.py:114-154 | in `--zip` mode the build never reports a missing Makefile, because the structure check already required it |
| Harness.SelectSuites | run_tests.py:427-437 | a non-empty category that is not one of the ten is rejected; a valid one selects only the unofficial suite; otherwise one flag selects its suite and no flag or both flags select both; some suite is always selected |
| Harness.TotalsCountSelectedTests | run_tests.py:439-449 | the grand totals count every test input file of the selected suites exactly once |
| Harness.NoFailuresIffSelectedPass | run_tests.py:439-459 | the grand failure total is 0 iff every test of the selected suites passes |
| Harness.RunSelected | run_tests.py:439-449 | running the selected suites yields the grand totals of the two suites |
| Harness.RunTests | run_tests.py:384-459 | the exit status is 0 or 1; it is 1 with zero totals when setup or category validation fails; otherwise the totals are those of the selected suites; and it is 0 iff setup succeeded, the selection is valid and every selected test passes |
| StudentIds.ValidIds | create_submission.py:62-73 | validation never lengthens the list |
| StudentIds.ValidateStudentIds | create_submission.py:62-73 | the loop returns the validated list |
| StudentIds.ValidIdsAreNumeric | create_submission.py:62-73 | every kept ID is a digit string |
| StudentIds.ValidIdsAppend | create_submission.py:65-72 | validation works entry by entry: it distributes over concatenation, so input order is kept |
| StudentIds.StrippedEntries | create_submission.py:66 | the stripped form of each entry, position by position |
| StudentIds.ValidIdsMembership | create_submission.py:62-73 | a string is kept iff it is all digits and is the stripped form of some entry |
| StudentIds.ValidIdsKeepsValid | create_submission.py:62-73 | a list of digit strings passes validation unchanged |
| StudentIds.ValidIdsIdempotent | create_submission.py:62-73 | validating twice is validating once |
| StudentIds.Collected | create_submission.py:76-93 | interactive collection keeps no more IDs than there are lines |
| StudentIds.CollectInteractive | create_submission.py:80-93 | the input loop returns the collected IDs, stopping at the first blank line or at the end of input |
| StudentIds.FirstBlank | create_submission.py:82-84 | the index of the first line that is blank after stripping, or the number of lines |
| StudentIds.CollectedIsValidatedPrefix | create_submission.py:80-93 | interactive collection equals validating exactly the lines before the first blank one: it stops there, skips non-numeric lines and keeps numeric ones in order |
| StudentIds.CollectedIsValid | create_submission.py:80-93 | interactively collected IDs pass validation unchanged |
| StudentIds.ParseIds | run_tests.py:128 | reading `ids.txt` back always gives at least one line |
| StudentIds.NonBlank | run_tests.py:130-132 | the listed IDs are non-empty and free of surrounding whitespace, at most one per line; what they are is stated by `NonBlankAppend` and `NonBlankMembership` |
| StudentIds.NonBlankAppend | run_tests.py:130-132 | listing splits over concatenation: the lines are listed one by one, in their order |
| StudentIds.NonBlankMembership | run_tests.py:130-132 | a string is listed iff it is non-empty and the stripped form of some line, numeric or not |
| StudentIds.ShownIds | run_tests.py:128-132 | the runner lists at most one non-empty stripped ID per line of the stripped manifest; with `ShownIdsRoundTrip`, exactly the IDs the creator wrote |
| StudentIds.IdsFileText | create_submission.py:206-208 | the manifest is empty iff there are no IDs, and otherwise starts with the first ID and ends with a newline; with `IdsFileTextIsJoin` and `IdsFileRoundTrip`, it is the IDs joined by newlines plus a final newline, and reads back as the IDs |
| StudentIds.IdsFileTextIsJoin | create_submission.py:206-208 | the manifest is the IDs joined by newlines plus one final newline |
| StudentIds.StripIdsFileText | create_submission.py:206-208 | stripping the manifest removes exactly its final newline |
| StudentIds.IdsFileRoundTrip | create_submission.py:266 | `strip().split('\n')` of the manifest written for a non-empty list of numeric IDs gives back exactly that list |
| StudentIds.NonBlankKeepsIds | run_tests.py:130-132 | a list of digit strings is listed unchanged |
| StudentIds.ShownIdsRoundTrip | run_tests.py:128-132 | the runner lists exactly the numeric IDs the manifest was written with, and none for an empty list |
| Submission.ReadStudentIds | create_submission.py:320-327 | `--id` when non-empty gives a one-element list, else a non-empty `--ids`, else the interactively collected IDs |
| Submission.ChosenIds | create_submission.py:320-330 | the IDs kept are at most one for `--id`, at most as many as given for `--ids`, at most one per typed line otherwise |
| Submission.SingleIdChosen | create_submission.py:321-330 | a single `--id` is kept, stripped, iff it is all digits |
| Submission.InteractiveIdsUnchanged | create_submission.py:325-330 | validating interactively collected IDs changes nothing |
| Submission.ChosenIdsAreNumeric | create_submission.py:320-330 | the IDs the creator ends up with are digit strings |
| Submission.ArchiveName | create_submission.py:187-197 | the archive is named after the first ID followed by `.zip` |
| Submission.Entries | create_submission.py:219-227 | the archive holds `ids.txt` first, then each copied file under `ex4/` |
| Submission.CreateSubmissionZip | create_submission.py:184-231 | an empty ID list is refused; otherwise the archive is named after the first ID, its `ids.txt` is one line per ID, and its entries are `ids.txt` and the copied files |
| Submission.VerifyZipContents | create_submission.py:234-269 | the creator's check passes iff `ids.txt` is listed, some entry starts with `ex4/`, and `ex4/Makefile` is listed, as in the runner |
| Submission.MakefileCopied | create_submission.py:219-227 | a copied top-level `Makefile` becomes the entry `ex4/Makefile` |
| Submission.MakefileFromCopy | create_submission.py:219-227 | the entry `ex4/Makefile` can only come from a copied top-level `Makefile` |
| Submission.CreatedArchiveVerifies | create_submission.py:219-255 | a freshly written archive passes the check iff the copy step produced a top-level `Makefile` |
| Submission.SubmissionAcceptedByRunner | create_submission.py:201-231 | the runner accepts an archive the creator wrote for non-empty numeric IDs with a Makefile, and lists exactly those IDs |
| Submission.CreateSubmission | create_submission.py:312-372 | the exit status is 0 iff the directory is valid, some ID survives validation, and either the user declined to overwrite or the written archive holds a Makefile; an archive is written iff the directory is valid, IDs remain and the user did not decline, and it has the first ID's name, the IDs' manifest and the copied files |

## Left out

- Running `make` and `java -jar`, and their timeouts: what each process did is an input (`BuildRun`, `AnalyzerRun`).
- Opening, listing and extracting zip archives, temporary directories and their cleanup, and deleting the analyzer's output file afterwards: an archive is its entry names and its `ids.txt` text, and an exception while reading it is the `Corrupt` case or a missing `idsText`.
- Directory globbing, sorting and existence checks: a test directory is its already sorted stems plus the expected-output files by name, and a missing directory is `None`.
- The path strings of the real files: the analyzer is looked up by a relative path `<dir>/tests/<stem>.txt`, not by an absolute resolved path.
- Creating the analyzer's `output` directory before each run.
- `copy_required_files`, which relies on library glob matching: the files it copied are an input to `Submission.CreateSubmissionZip`.
- `validate_ex4_directory`, including its `input()` prompt when no source files are found: its verdict is the `directoryValid` input.
- The overwrite prompt of `create_submission.py`: whether the user declined is the `overwriteDeclined` input.
- Exceptions raised while writing the archive: `Submission.CreateSubmissionZip` models only the refusal of an empty ID list.
- Console output (colours, headers, progress lines, verbose printing), and rendering failure reasons as message strings: failures are the structured `FailReason` values.
- `argparse`: the parsed options are the `Args` and `IdArgs` values; `--verbose` and `--output` only change printing and where the archive goes.
- The archive size shown in kilobytes.
- `KeyboardInterrupt` during interactive input, which ends the collection like the end of input.
- Output and expectation files that exist are either read whole or raise a read error (`FileContent`); partial reads are not modelled.
- Text encoding and newline translation: texts are compared as exact character sequences, and `isdigit()` accepts only ASCII digits.
- Harness.ExtractSubmission: the count of extracted `ex4/` files that is printed is not modelled.
- Suite.Results: `results_by_category` is a dictionary in Python; it is modelled as a sequence in insertion order, which is how Python iterates it.
