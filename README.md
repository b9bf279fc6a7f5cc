# Upgrade agent: verified model of the report classifier, repair loop and upgrade run

This project models the deterministic core of two scripts:

- `testcases-fixer-component.py`. It classifies Maven Surefire test reports into all tests and failing
  tests. It locates a test's Java source file and the source of the class under test. It extracts the
  failure text of a failing case. It then asks a code-generation oracle (Gemini) for a replacement test
  file, at most three times per failing test, and overwrites the test file with the first usable reply.
- `or-component.py`. It derives the repository name, owner, token-carrying clone URL and push URL from a
  GitHub URL. It then runs eight commands strictly in order, stopping at the first one that exits
  non-zero: clone, OpenRewrite build, Java 21 recipe, Spring Boot 3.5 recipe, branch checkout, `git add`,
  `git commit`, `git push`. On the way it switches `JAVA_HOME`/`PATH` to JDK 11 and later to JDK 17.

The file system, XML parser, oracle and processes are inputs:

- A report directory is `None` when it is missing. Otherwise it is the listing of its files, each already
  parsed into a report (class name, cases with optional `name`, `<failure>` and `<error>`).
- An `os.walk` tree is the sequence of (directory, file names) entries in walk order.
- The working tree is a map from file paths to contents.
- The oracle is the sequence of its replies in call order, with `None` for a call that raised.
- The commands' exit statuses are a sequence, one per command that can be started (eight); the statuses
  of commands not started are ignored.
- `os.environ` is a map that is threaded through the run.

The loops that decide results are Dafny methods with loop invariants: the report loops, the file search,
the failure-text scan, the retry loop and the loop over failing records. Each of these methods is proved
equal to a specification function, and lemmas state the properties of those functions. The output and
display loops are not modelled. The command steps of `upgrade_repo` (`RunCommand`, `Migrate`, `Publish`)
are proved to start the next commands of the run's plan, the `Plan` function, up to the first failure.
`UpgradeRepo` as a whole is proved equal to the function `ExpectedRun`.

Files:

- `wrappers.dfy`: `Option`.
- `strings.dfy`: the Python `str` operations used (`split`, `replace`, `endswith`, `in`) and their laws.
- `surefire_reports.dfy`: `parse_surefire_reports`.
- `source_lookup.dfy`: `find_java_file` and `get_class_under_test`.
- `test_repair.dfy`: `fix_failing_tests`.
- `upgrade_pipeline.dfy`: `run_command` and `upgrade_repo`.

Behaviour of the code worth stating plainly:

- `parse_surefire_reports` returns `(failing_tests, all_tests)` unsorted. Sorting is only for display.
- The branch name is the fixed default `refactor/upgrade`.
- `fix_failing_tests` does not re-run the tests.
- `upgrade_repo` commits a fixed message and does not delete the clone.
- `upgrade_repo` removes every `.git` from the last URL segment, including one inside the name. For
  `https://github.com/octocat/octocat.github.io.git` the derived name is `octocathub.io`
  (`GitHubPagesName`). The commands after the clone are started in `cwd\octocathub.io`. The clone did not
  create that directory, so `Popen` raises at the build unless such a directory already exists. The push
  URL would name `octocat/octocathub.io.git`.

## Model

| member | source | states |
|---|---|---|
| SurefireReports.ParseSurefireReports | testcases-fixer-component.py:21-54 | a missing directory gives two empty lists; otherwise the nested append loops build exactly `AllTests` and `FailingTests` of the listing, over the `TEST-*.xml` files in listing order |
| SurefireReports.CaseNamesAt | testcases-fixer-component.py:33-37 | one report contributes exactly one `class + "." + method` entry per case, in document order, with a missing name read as `""` |
| SurefireReports.IsReportFile | testcases-fixer-component.py:30 | the glob `TEST-*.xml`: a selected name is `TEST-`, then any text, then `.xml` |
| SurefireReports.ReportFileSelected | testcases-fixer-component.py:30 | every name `TEST-` + anything + `.xml` is selected |
| SurefireReports.CaseFailuresExact | testcases-fixer-component.py:34-39 | one report's failing entries are exactly the `(class, name)` of its cases that have a failure or error marker, and never outnumber its cases |
| SurefireReports.CaseFailuresPositions | testcases-fixer-component.py:34-39 | one report's failing entries, position by position: the i-th entry is `(class, name)` of the i-th failing case in document order, and every failing case has exactly one entry |
| SurefireReports.CaseFailuresCount | testcases-fixer-component.py:34-39 | one report has exactly as many failing entries as failing cases |
| SurefireReports.FailingTestsCount | testcases-fixer-component.py:30-39 | `failing_tests` has exactly one entry per failing case of the selected reports, and `all_tests` has one more entry for each passing case |
| SurefireReports.AllTestsComplete | testcases-fixer-component.py:30-37 | every case of every selected report has its full name in `all_tests` |
| SurefireReports.AllTestsSound | testcases-fixer-component.py:30-37 | every entry of `all_tests` is the full name of some case of a selected report |
| SurefireReports.AllTestsCount | testcases-fixer-component.py:30-37 | `all_tests` has exactly as many entries as the selected reports have cases |
| SurefireReports.FailingTestsExact | testcases-fixer-component.py:34-39 | `(c, m)` is in `failing_tests` iff some selected report of class `c` has a case named `m` with a failure or an error marker |
| SurefireReports.FailingWithinAll | testcases-fixer-component.py:30-39 | `failing_tests` never has more entries than `all_tests`, and each failing `(c, m)` has `c + "." + m` in `all_tests` |
| SourceLookup.JavaFileName | testcases-fixer-component.py:57-60 | `class_name.replace('.', os.sep) + ".java"`, then its last `os.sep` segment: a single file name ending in `.java` |
| SourceLookup.JavaFileNameIsSimpleName | testcases-fixer-component.py:57-60 | for a class name without `\`, the file name searched for is the last dotted segment plus `.java`; package directories play no part |
| SourceLookup.FirstMatchIsFirst | testcases-fixer-component.py:58-62 | the search finds nothing iff no directory holds the file name; otherwise it returns the name in the first directory in walk order that holds it |
| SourceLookup.FindJavaFile | testcases-fixer-component.py:56-62 | the loop with its early return yields the first walk match of the class's file name, or `None` |
| SourceLookup.TestSuffixesExclusive | testcases-fixer-component.py:65-68 | no name ends in both `Test` and `Tests` |
| SourceLookup.StripTestSuffix | testcases-fixer-component.py:65-70 | the result is a prefix of the name, 4 characters shorter after `Test`, 5 shorter after `Tests`, and the name itself otherwise |
| SourceLookup.StripTestSuffixInverse | testcases-fixer-component.py:65-70 | appending `Test` or `Tests` to a name and stripping it gives the name back |
| SourceLookup.GetClassUnderTest | testcases-fixer-component.py:64-72 | returns the first walk match of the stripped name's file name |
| TestRepair.MainCode | testcases-fixer-component.py:117-118 | the source of the class under test: the contents of the first main-tree file, in walk order, named after the test class's simple name without its test suffix; `""` when there is none |
| TestRepair.MessageFromIsLastMarked | testcases-fixer-component.py:124-131 | the case scan gives `""` when no case of that name has a marker, and otherwise the text of the last such case |
| TestRepair.ErrorMessageOfSpec | testcases-fixer-component.py:119-131 | the failure text is `""` when the report file is absent or no case of that name has a marker; otherwise it is the failure text of the last marked case, in preference to its error text, with an empty element giving `""` |
| TestRepair.ErrorMessage | testcases-fixer-component.py:119-131 | the loop that overwrites `error_message` computes `ErrorMessageOf` |
| TestRepair.Usable | testcases-fixer-component.py:135 | a reply is usable iff the call did not raise and the text contains `class`; the emptiness test adds nothing |
| TestRepair.FirstUsable | testcases-fixer-component.py:132-135 | a found offset is below the bound and points at a usable reply (non-empty and containing `class`) |
| TestRepair.FirstUsableIsFirst | testcases-fixer-component.py:132-144 | there is no usable reply iff none of the bounded calls gives one; a found reply is the earliest usable one |
| TestRepair.AskOracle | testcases-fixer-component.py:132-144 | the retry loop sends the same request until the first usable reply, at most 3 times, and reports that reply's offset |
| TestRepair.RepairRecord | testcases-fixer-component.py:110-144 | handling a record never creates or removes files |
| TestRepair.RepairAll | testcases-fixer-component.py:110-144 | handling all records never creates or removes files |
| TestRepair.FixRecord | testcases-fixer-component.py:110-144 | the body for one record yields the tree, call log and outcome of `RepairRecord` |
| TestRepair.FixFailingTests | testcases-fixer-component.py:105-144 | the loop over failing records yields the tree, call log and outcomes of `RepairAll` |
| TestRepair.RepairRecordCounts | testcases-fixer-component.py:110-144 | one record adds one outcome and at most 3 oracle calls; it is skipped iff its test file is not found |
| TestRepair.RepairRecordSpec | testcases-fixer-component.py:110-144 | a record whose test file is not found is skipped with no call and no write; otherwise the oracle gets the same request until the first usable reply (at most 3 calls), that reply alone overwrites the test file, and with no usable reply the tree is unchanged |
| TestRepair.RepairAllOutcomes | testcases-fixer-component.py:110-115 | there is one outcome per failing record, in order, and a record is skipped iff its test file is not found |
| TestRepair.RepairAllCalls | testcases-fixer-component.py:132-144 | the total number of oracle calls is what the outcomes account for, at most 3 per record |
| UpgradePipeline.RepoName | or-component.py:16 | `split("/")[-1]` with every `.git` removed: a single path component, and the last segment itself when that holds no `.git` |
| UpgradePipeline.RepoOwner | or-component.py:17 | `split("/")[-2]`, defined only when the URL has two segments: a single path component |
| UpgradePipeline.AuthUrl | or-component.py:20-22 | every `https://` becomes `https://{token}@`: a URL starting with the scheme gets the token right after it, and a URL without `https://` is unchanged |
| UpgradePipeline.PushUrl | or-component.py:60 | `https://{token}@github.com/{owner}/{name}.git`, from which the owner and name derive back when none of them holds `/` and the name holds no `.git` |
| UpgradePipeline.JoinPath | or-component.py:26 | `os.path.join(os.getcwd(), repo_name)`: starts with the directory and ends with the name |
| UpgradePipeline.AuthUrlLeadingScheme | or-component.py:20-22 | a leading `https://` becomes `https://{token}@` when the rest holds no colon |
| UpgradePipeline.GitHubUrlOwner | or-component.py:17 | the second-to-last `/`-segment of `https://github.com/{owner}/{name}.git` exists and is `owner` |
| UpgradePipeline.GitHubUrlName | or-component.py:16 | the last `/`-segment of such a URL, with `.git` removed, is `name`, when the name holds no `.git` |
| UpgradePipeline.GitHubPagesName | or-component.py:16 | every `.git` is removed, not only the trailing one: `https://github.com/octocat/octocat.github.io.git` gives the name `octocathub.io` |
| UpgradePipeline.GitHubUrlAuth | or-component.py:20-22 | the token-injected form of such a URL is the push URL |
| UpgradePipeline.CanonicalUrl | or-component.py:16-22 | for a canonical GitHub URL whose owner and name hold no `/` or `:` and whose name holds no `.git`, the derived owner and name are the URL's own, and the clone URL equals the push URL |
| UpgradePipeline.WithJdk | or-component.py:28-30 | a JDK switch sets `JAVA_HOME`, prepends `{jdk}\bin;` to `PATH` keeping all earlier entries, and changes no other variable |
| UpgradePipeline.Plan | or-component.py:24-61 | an uninterrupted run starts exactly eight commands |
| UpgradePipeline.PlanJdks | or-component.py:28-50 | the Java 21 recipe runs under JDK 11 and the Spring Boot recipe under JDK 17, with both `bin` directories in front of the original `PATH` |
| UpgradePipeline.PlanBranchAndDirectory | or-component.py:15-61 | the clone runs in the caller's directory and every later command in `cwd/repo_name`; the branch checked out is the branch pushed, to the push URL |
| UpgradePipeline.FirstFailureIsFirst | or-component.py:12-13 | every status before the first failure is 0 |
| UpgradePipeline.FirstFailureAt | or-component.py:12-13 | the first non-zero status is the one the fail-fast rule stops at |
| UpgradePipeline.RunCommand | or-component.py:5-13 | starting a command logs it; the run may go on iff it exits 0, and a failure is the first one of the run |
| UpgradePipeline.Migrate | or-component.py:35-50 | build and the Java 21 recipe under JDK 11, then the switch to JDK 17 and the Spring Boot recipe; stops at the first failure |
| UpgradePipeline.Publish | or-component.py:52-61 | checkout of the branch, add, commit and push in that order; stops at the first failure |
| UpgradePipeline.UpgradeRepo | or-component.py:15-63 | the run's command log, environment and result are those of `ExpectedRun`: the plan up to and including the first failing command |
| UpgradePipeline.UpgradeFailFast | or-component.py:5-63 | every command before the last one started exited 0; the run fails on a command iff the last one started exited non-zero, and nothing after it runs |
| UpgradePipeline.UpgradeOutcomes | or-component.py:15-63 | a URL without an owner segment runs nothing; an unset `PATH` stops after the clone; otherwise the log is a prefix of the plan, and the run completes iff all eight commands exit 0, leaving JDK 17 in front |

## Left out

- Process execution, live output streaming and all `print` diagnostics (`run_command`, `run_maven_tests`,
  the display part of `parse_surefire_reports`). Exit statuses are an input sequence, and `sys.exit` is
  the `CommandFailed` result.
- `run_maven_tests` is not modelled: it only invokes Maven and prints its output.
- XML parsing: reports arrive parsed. A malformed report makes `ET.parse` raise in the source; that
  exception is not modelled. `root.iter("testcase")` also visits nested elements; the model takes the
  cases as one flat sequence in document order.
- `glob`, `os.walk` and `os.path.isfile` are replaced by the given listings. Glob matching on
  case-insensitive file systems is not modelled.
- TestRepair.ReportFor: the model's lookup of `TEST-{class}.xml` (`FindReport`) compares file names
  exactly. The source's `os.path.isfile` ignores case on Windows, so a report whose name differs only in
  case would be found there.
- `read_file_content` and the write of the fixed test use UTF-8; a file that is not valid UTF-8 makes the
  source raise. File contents are modelled as strings, and that exception is not modelled.
- The live output loop of `run_command` (`for line in process.stdout`) and the display loops of
  `parse_surefire_reports` only print, and are not modelled.
- The Gemini call and its prompt wording (`call_gemini_sdk`). The request is logged as the triple of
  test source, source under test and failure text.
- `time.sleep(2)` between attempts is not modelled.
- TestRepair.FixFailingTests requires every walked file to be readable from the working tree. If
  `read_file_content` returned `None` for the test file, the source would raise while building the
  prompt; that path is not modelled.
- UpgradePipeline.JoinPath follows `ntpath.join` only for a repository name without a drive or a leading
  separator, and for a directory that is not a bare drive such as `C:`.
- UpgradePipeline.UpgradeRepo takes exactly eight exit statuses, one per command that can be started.
- SourceLookup.Sep fixes `os.sep` to the Windows separator `\`. On POSIX `os.sep` is `/`. That changes
  `JavaFileName` only for class names that contain `/` or `\`.
- UpgradePipeline.RunCommand: a command that cannot be started (a missing executable or working
  directory) makes `Popen` raise in the source. The model can express that only as a non-zero exit
  status, so such a run ends in `CommandFailed` rather than in an exception.
- The semantics of git, `mod` (OpenRewrite) and Maven, and the contents of the hard-coded Windows paths.
- Timestamp-qualified branch names, re-running tests after repair, and workspace deletion are not in the
  code, so the model does not assert them.
