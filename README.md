# NUnit build tasks, modelled in Dafny

This project models two MSBuild tasks that a build uses to run NUnit and
report on it.

- **GenerateNUnitReports** (`generate_nunit_reports.dfy`, class
  `ReportAggregator`) takes a `;`-separated list of NUnit result files and
  reads them in turn. For each file it:
  - derives a short project name;
  - reads the root counters (`failures`, `errors`, `skipped` or `not-run`,
    `ignored`, `total`) with C#'s wrapping `int` arithmetic;
  - adds the counts to its running totals and lists the projects that have
    failures;
  - logs every `test-case` at any depth, by outcome.

  An unknown outcome, a missing attribute or an unparsable number throws, and
  the throw ends the run. When every file was read, the task logs a summary.
- **NUnit** (`nunit_task.dfy`, class `NUnitRunner`) is the runner task. It:
  - assembles the nunit-console command line from its properties;
  - looks for `nunit-console.exe` in the current ToolPath, then on PATH, then
    under Program Files, then in the registry;
  - splits the captured console output into test lines and lines it logs;
  - builds the result document it writes when the run timed out.
- **TimeoutRoundTrip** (`timeout_round_trip.dfy`) follows the timed-out
  document back through the aggregator.
- **ReportScenario** (`report_scenario.dfy`) runs the aggregator over two
  result files, one per dialect, and states the totals it ends with.

Shared modules:

- `Text`: Split, Join, StartsWith and Trim.
- `Int32`: C# `int`, `ToString` and `Convert.ToInt32`.
- `Paths`: `System.IO.Path`, with '/' and '\\' both treated as separators.
- `XmlTree`: a loaded `XmlDocument` as a tree of elements, text and comments.
- `Logging`: the log as a sequence of (importance, message) entries.
- `Wrappers`: Option and Result.

The machine the runner sees is a `Host` value:

- the Mono path;
- PATH;
- the platform;
- the current directory;
- the Program Files subdirectories;
- the registry's NUnit install directories;
- the set of existing files.

The file system the aggregator sees is a map from path to loaded document.
Exceptions become `ReportError` values.

Where the behaviour described for these tasks and the code differ, the model
follows the code:

- **Negative passes.** A report whose counts give negative passes is accepted,
  not rejected (`NegativePassesAccepted`).
- **Timeout report counts.** The timeout report states `failures=1`,
  `errors=0`, `inconclusive=num` and `not-run=ignored=skipped=0`. It does not
  state `failures=0`, `errors=1` and `not-run=num`.
- **Errors end the run.** Any exception while reading a file ends the whole
  run, so later files are not read (`ReachedStops`). The run does not go on
  with the remaining files.
- **Timeout report times.** The suite's time is the elapsed run time. The
  Timeout case's time is the configured timeout.

## Model

| member | source | states |
|---|---|---|
| GenerateNUnitReports.ParseOutcome | SIL.FwBuildTasks/GenerateNUnitReports.cs:121-138 | a result string is recognised exactly when it is one of the five outcome names, and it maps to the outcome of that name |
| GenerateNUnitReports.ShortProjectNameIsPrefix | SIL.FwBuildTasks/GenerateNUnitReports.cs:162-167 | the project name is the longest prefix of the extension-less file name that has no '-' (the whole name when there is no '-') |
| GenerateNUnitReports.ShortProjectNameOfConvention | SIL.FwBuildTasks/GenerateNUnitReports.cs:164-166 | for "dir/project-rest.xml" the project name is `project`, dots included ("project.dll") |
| GenerateNUnitReports.DisplayNameIsLastSegment | SIL.FwBuildTasks/GenerateNUnitReports.cs:118-119 | a test case's display name is the segment of its full name after the last '.' |
| GenerateNUnitReports.SkippedShadowsNotRun | SIL.FwBuildTasks/GenerateNUnitReports.cs:73-84 | when `skipped` is present, the ignore count does not depend on `not-run` (any value, or absent) |
| GenerateNUnitReports.IgnoredAddsOnTop | SIL.FwBuildTasks/GenerateNUnitReports.cs:85-87 | adding an `ignored` attribute adds its value (wrapping) to the count chosen from `skipped`/`not-run`/0 |
| GenerateNUnitReports.ReadSummary | SIL.FwBuildTasks/GenerateNUnitReports.cs:66-88 | a report only yields counts when its root is `test-results` |
| GenerateNUnitReports.ReadSummaryCounts | SIL.FwBuildTasks/GenerateNUnitReports.cs:67-88 | in a summary that was read: fails = failures + errors; ignores is the ignore count; passes + ignores + fails = total in wrapping arithmetic; the time is the first suite's `time`, or "0" |
| GenerateNUnitReports.ReadSummaryOf | SIL.FwBuildTasks/GenerateNUnitReports.cs:66-88 | conversely, once every count reads, the summary is determined by the counts and the first suite's time |
| GenerateNUnitReports.SkippedNotRunTransparent | SIL.FwBuildTasks/GenerateNUnitReports.cs:73-84 | the same count stated as `skipped` or as `not-run` gives the same summary |
| GenerateNUnitReports.ReadCountOf | SIL.FwBuildTasks/GenerateNUnitReports.cs:71 | an attribute holding Int32.ToString(v) reads back as v |
| GenerateNUnitReports.NegativePassesAccepted | SIL.FwBuildTasks/GenerateNUnitReports.cs:88 | a report with more failures than tests still reads, with negative passes (total - failures) |
| GenerateNUnitReports.CaseEntriesOk | SIL.FwBuildTasks/GenerateNUnitReports.cs:104-153 | a test case logs without throwing iff it has a result (or `success`), a name, a known outcome and, for success or failure, a time; what it logs is non-empty and all at its outcome's importance (Low, Normal, High) |
| GenerateNUnitReports.UnknownResultIsFatal | SIL.FwBuildTasks/GenerateNUnitReports.cs:137-138 | a result outside the five known ones throws an error that names it |
| GenerateNUnitReports.SuccessAttributeMapping | SIL.FwBuildTasks/GenerateNUnitReports.cs:104-117 | without `result`, a case behaves as if `result` were "Success" when `success` is "True" and "Failure" otherwise |
| GenerateNUnitReports.MissingTextIsEmpty | SIL.FwBuildTasks/GenerateNUnitReports.cs:129-160 | for every case that logs, each of reason/message, failure/message and failure/stack-trace is logged on its own line: as "" when that node is missing (whatever else the case holds, e.g. a message without a stack trace), else as its inner text |
| GenerateNUnitReports.WalkWithError | SIL.FwBuildTasks/GenerateNUnitReports.cs:101-140 | the walk over the cases completes iff every case logs; otherwise its error is that of the first case that throws, and every case before it logged |
| GenerateNUnitReports.WalkWithStops | SIL.FwBuildTasks/GenerateNUnitReports.cs:101-140 | after a case throws, the cases after it change nothing |
| GenerateNUnitReports.LogTestCases | SIL.FwBuildTasks/GenerateNUnitReports.cs:101-140 | the foreach over the cases logs and throws exactly as the walk does |
| GenerateNUnitReports.ReportFor | SIL.FwBuildTasks/GenerateNUnitReports.cs:55-141 | a file whose counts were not taken always ended in an exception |
| GenerateNUnitReports.UnknownResultAfterCounting | SIL.FwBuildTasks/GenerateNUnitReports.cs:89-94 | an unknown result anywhere in a report throws after the report's counts were taken |
| GenerateNUnitReports.Reached | SIL.FwBuildTasks/GenerateNUnitReports.cs:47-51 | no more files are reached than were named, and fewer only when the last one reached threw |
| GenerateNUnitReports.ReachedInOrder | SIL.FwBuildTasks/GenerateNUnitReports.cs:47-51 | the k-th report reached is the report of the k-th file |
| GenerateNUnitReports.ReachedOnlyLastThrows | SIL.FwBuildTasks/GenerateNUnitReports.cs:47-51 | of the reports reached, only the last can have thrown |
| GenerateNUnitReports.ReachedStops | SIL.FwBuildTasks/GenerateNUnitReports.cs:47-51 | once a file throws, the files after it are never read |
| GenerateNUnitReports.ReachedExtends | SIL.FwBuildTasks/GenerateNUnitReports.cs:47-51 | after files that all completed, the next file is reached and its error becomes the last one |
| GenerateNUnitReports.FailedProjects | SIL.FwBuildTasks/GenerateNUnitReports.cs:93-94 | every listed failure count is positive, and the list is no longer than the reports read |
| GenerateNUnitReports.FailedProjectsComplete | SIL.FwBuildTasks/GenerateNUnitReports.cs:93-94 | every report with failures is listed with its project and count |
| GenerateNUnitReports.FailedProjectsSound | SIL.FwBuildTasks/GenerateNUnitReports.cs:93-94 | every listed pair is the project and failure count of some report |
| GenerateNUnitReports.FailedProjectsAppend | SIL.FwBuildTasks/GenerateNUnitReports.cs:93-94 | the list keeps processing order: the list for a concatenation is the concatenation of the lists |
| GenerateNUnitReports.Completed | SIL.FwBuildTasks/GenerateNUnitReports.cs:49-50 | no more projects are counted than files were reached |
| GenerateNUnitReports.CompletedReached | SIL.FwBuildTasks/GenerateNUnitReports.cs:49-50 | the project count is the number of files reached, less one when the last of them threw |
| GenerateNUnitReports.FailureLinesInOrder | SIL.FwBuildTasks/GenerateNUnitReports.cs:184-188 | the summary prints two lines per failed project, the project's name and then its count, in list order |
| GenerateNUnitReports.AfterReportsSnoc | SIL.FwBuildTasks/GenerateNUnitReports.cs:47-51 | one more file updates the fields by that file's counts, and the project count grows only when the file completed |
| GenerateNUnitReports.AfterReportsTallies | SIL.FwBuildTasks/GenerateNUnitReports.cs:89-91 | each total grows by exactly the (wrapping) sum of the counts of the reports read |
| GenerateNUnitReports.AfterReportsLists | SIL.FwBuildTasks/GenerateNUnitReports.cs:49-50 | the project count grows by the number of files that completed; the failure list and the log grow by those of the reports, in order |
| GenerateNUnitReports.FinishedSums | SIL.FwBuildTasks/GenerateNUnitReports.cs:43-53 | after a run: each total is the start plus the sum over the files reached; projects counts the completed files; the failure list is rebuilt from this run; the summary is logged iff nothing threw |
| GenerateNUnitReports.ReportAggregator.constructor | SIL.FwBuildTasks/GenerateNUnitReports.cs:17-22 | the counters start at 0; the failure list and the log start empty |
| GenerateNUnitReports.ReportAggregator.GenerateReportFor | SIL.FwBuildTasks/GenerateNUnitReports.cs:55-141 | the fields move from their old state by exactly one file's report; the exception raised is that report's |
| GenerateNUnitReports.ReportAggregator.GenerateReports | SIL.FwBuildTasks/GenerateNUnitReports.cs:43-53 | the fields are the old ones after the files reached, then the summary; the error is that of the last file reached |
| GenerateNUnitReports.ReportAggregator.GenerateSummaryReport | SIL.FwBuildTasks/GenerateNUnitReports.cs:177-190 | appends the totals and then every failed project, in order; nothing else changes |
| GenerateNUnitReports.ReportAggregator.Execute | SIL.FwBuildTasks/GenerateNUnitReports.cs:26-38 | runs GenerateReports over the pieces of ReportFiles split at ';' |
| Int32.AddWraps | SIL.FwBuildTasks/GenerateNUnitReports.cs:89-91 | `+=` on ints is exact when the sum fits and otherwise differs from it by 2^32 |
| Int32.SubWraps | SIL.FwBuildTasks/GenerateNUnitReports.cs:88 | `-` on ints is exact when the difference fits and otherwise differs from it by 2^32 |
| Int32.AddAssociative | SIL.FwBuildTasks/GenerateNUnitReports.cs:89-91 | wrapping accumulation does not depend on grouping |
| Int32.SubAddCancel | SIL.FwBuildTasks/GenerateNUnitReports.cs:88 | subtracting and adding back the same int gives the original, overflow or not |
| Int32.NatToString | SIL.FwBuildTasks/NUnit.cs:286-287 | a number is written as a non-empty string of decimal digits |
| Int32.DigitsValueOfNatToString | SIL.FwBuildTasks/NUnit.cs:286-287 | the digits written denote the number |
| Int32.ParseNeedsDigit | SIL.FwBuildTasks/GenerateNUnitReports.cs:71 | Convert.ToInt32 rejects a string without a decimal digit |
| Int32.ParseIntToString | SIL.FwBuildTasks/NUnit.cs:286-287 | every int written with ToString reads back unchanged with Convert.ToInt32 |
| Text.Split | SIL.FwBuildTasks/GenerateNUnitReports.cs:30 | String.Split gives between 1 and \|s\|+1 pieces, none holding the separator |
| Text.JoinSplit | SIL.FwBuildTasks/GenerateNUnitReports.cs:30 | splitting loses nothing: joining the pieces gives the original string back |
| Text.SplitJoin | SIL.FwBuildTasks/NUnit.cs:152-157 | splitting undoes joining when no piece holds the separator |
| Text.SplitOfFree | SIL.FwBuildTasks/GenerateNUnitReports.cs:119 | a string free of the separator splits into itself alone |
| Text.SplitFirst | SIL.FwBuildTasks/GenerateNUnitReports.cs:166 | the first piece is the longest prefix free of the separator |
| Text.SplitLast | SIL.FwBuildTasks/GenerateNUnitReports.cs:119 | the last piece is the longest suffix free of the separator |
| Text.TrimStartDrops | SIL.FwBuildTasks/NUnit.cs:266 | TrimStart removes exactly the longest white prefix |
| Text.TrimEndDrops | SIL.FwBuildTasks/NUnit.cs:266 | TrimEnd removes exactly the longest white suffix |
| Text.TrimIsInfix | SIL.FwBuildTasks/NUnit.cs:266 | Trim gives the infix between the white runs at each end; it neither starts nor ends with white space |
| Text.TrimUnchanged | SIL.FwBuildTasks/NUnit.cs:266 | a string that neither starts nor ends with white space is left unchanged |
| Text.TrimIdempotent | SIL.FwBuildTasks/NUnit.cs:266 | trimming twice is trimming once |
| Paths.FileNameIsLastSegment | SIL.FwBuildTasks/NUnit.cs:255 | GetFileName is the longest suffix of the path free of separators |
| Paths.FileNameWithoutExtensionIsBase | SIL.FwBuildTasks/NUnit.cs:255 | GetFileNameWithoutExtension drops the last '.' and what follows it from the file name, or nothing when there is no '.' |
| Paths.FileNameAfterSeparator | SIL.FwBuildTasks/GenerateNUnitReports.cs:166 | the file name of "dir/" + name is name when name has no separator |
| Paths.LastIndexOf | SIL.FwBuildTasks/GenerateNUnitReports.cs:166 | the index found holds the character and none follows it; none is found iff the character does not occur |
| Paths.DirectoryName | SIL.FwBuildTasks/NUnit.cs:70 | GetDirectoryName is null exactly for a path that is only a root; otherwise it is a prefix that keeps the whole root and ends either at the root or just before a separator, with no separator after it; a relative name with no separator gives "" |
| Paths.DirectoryNameOfRoots | SIL.FwBuildTasks/NUnit.cs:70 | a file directly under "C:\\" or "/" lies in that root, one after the drive-relative "C:" lies in "C:", and "C:\\" or "/" alone has no directory |
| Paths.CombineShape | SIL.FwBuildTasks/NUnit.cs:119 | Path.Combine ends with the name; it is the name alone when dir is "" or the name is rooted, and otherwise dir, at most one separator, then the name |
| Paths.FullPath | SIL.FwBuildTasks/NUnit.cs:70 | GetFullPath throws iff the path is ""; otherwise the result is rooted and ends with the path |
| XmlTree.ChildElements | SIL.FwBuildTasks/GenerateNUnitReports.cs:66-67 | the child step selects exactly the child elements of that name (only those, and every one), and the first selected is the first such child, as SelectSingleNode takes it |
| XmlTree.ChildElementsAppend | SIL.FwBuildTasks/GenerateNUnitReports.cs:66-67 | selection keeps document order: the matches among a + b are those among a followed by those among b |
| XmlTree.Descendants | SIL.FwBuildTasks/GenerateNUnitReports.cs:101 | `//test-case` selects only test-case elements |
| XmlTree.DescendantsComplete | SIL.FwBuildTasks/GenerateNUnitReports.cs:101 | `//test-case` selects every test-case element, however deep |
| NUnitTask.RenderUsesSwitchChar | SIL.FwBuildTasks/NUnit.cs:158-182 | every switch is written with '-' on Unix and MacOSX and '/' elsewhere; exactly transform, xml and err are wrapped whole in double quotes |
| NUnitTask.AppendSpacedJoin | SIL.FwBuildTasks/NUnit.cs:152-157 | appending items with a space before each except at the start of an empty builder is joining them with single spaces |
| NUnitTask.AppendSpacedSplits | SIL.FwBuildTasks/NUnit.cs:250-257 | non-empty items without spaces, space-joined, split back into the items in order |
| NUnitTask.BaseNames | SIL.FwBuildTasks/NUnit.cs:250-257 | one base name per assembly |
| NUnitTask.BaseNamesInOrder | SIL.FwBuildTasks/NUnit.cs:255 | the k-th base name is the k-th assembly's file name without extension |
| NUnitTask.FirstWhereIsFirst | SIL.FwBuildTasks/NUnit.cs:193-237 | each probe loop stops at the first entry that satisfies its test, and finds none iff none does |
| NUnitTask.PathProbe | SIL.FwBuildTasks/NUnit.cs:193-200 | a PATH directory is chosen only when it holds nunit-console.exe |
| NUnitTask.RegistryProbe | SIL.FwBuildTasks/NUnit.cs:212-237 | the registry is used only on Win32NT, and only for a non-empty InstallDir that holds nunit-console.exe |
| NUnitTask.SearchPath | SIL.FwBuildTasks/NUnit.cs:193-200 | the PATH loop finds the first directory that holds the console |
| NUnitTask.SearchProgramFiles | SIL.FwBuildTasks/NUnit.cs:201-211 | the Program Files loop finds the bin directory of the first NUnit install (as corrected, see Findings) |
| NUnitTask.SearchRegistry | SIL.FwBuildTasks/NUnit.cs:212-237 | the registry loop finds the first registered install dir that holds the console |
| NUnitTask.ProgramFilesProbeFindsConsole | SIL.FwBuildTasks/NUnit.cs:201-211 | the corrected Program Files probe answers a directory that holds nunit-console.exe |
| NUnitTask.ProbeFindsConsole | SIL.FwBuildTasks/NUnit.cs:186-239 | EnsureToolPath leaves a ToolPath that holds nunit-console.exe, or "." when no probe finds it |
| NUnitTask.ProbeIdempotent | SIL.FwBuildTasks/NUnit.cs:188-192 | a second EnsureToolPath changes nothing |
| NUnitTask.PathProbeWins | SIL.FwBuildTasks/NUnit.cs:193-200 | when the current ToolPath fails, the first PATH directory that holds the console is chosen, before Program Files and the registry |
| NUnitTask.Collected | SIL.FwBuildTasks/NUnit.cs:263-271 | every collected line starts with "***** ", and no more lines are collected than were captured |
| NUnitTask.PartitionCounts | SIL.FwBuildTasks/NUnit.cs:263-271 | each captured line is either collected or logged, never both |
| NUnitTask.PartitionAppend | SIL.FwBuildTasks/NUnit.cs:263-271 | the partition keeps order: the collected and logged lines of a concatenation are the concatenations |
| NUnitTask.PartitionMembers | SIL.FwBuildTasks/NUnit.cs:263-271 | a line is collected, trimmed, iff its trimmed form starts with "***** "; every other line is logged unchanged at Normal importance |
| NUnitTask.CompletionLineLogged | SIL.FwBuildTasks/NUnit.cs:123-126 | the SUCCESS line the base class waits for is logged, not collected |
| NUnitTask.CompletionLineNotTest | SIL.FwBuildTasks/NUnit.cs:125 | the SUCCESS line is its own trimmed form and is not a test line |
| NUnitTask.Tried | SIL.FwBuildTasks/NUnit.cs:300-301 | the comment has one line per collected line |
| NUnitTask.TriedDropsPrefix | SIL.FwBuildTasks/NUnit.cs:300-301 | each comment line is its collected line with the 6-character prefix removed |
| NUnitTask.TimeoutReportComment | SIL.FwBuildTasks/NUnit.cs:299-302 | the timeout report's comment is the heading, then every collected line without its prefix, in order |
| NUnitTask.NUnitRunner.constructor | SIL.FwBuildTasks/NUnit.cs:19-109 | every string property starts unset, the flags start false and TestInNewThread starts never set |
| NUnitTask.NUnitRunner.SetTestInNewThread | SIL.FwBuildTasks/NUnit.cs:84-94 | TestInNewThread reads back the value last set |
| NUnitTask.NUnitRunner.RealProgramNameChoice | SIL.FwBuildTasks/NUnit.cs:115-121 | the program ends in nunit-console-x86.exe iff Force32Bit, and in nunit-console.exe iff not |
| NUnitTask.NUnitRunner.SwitchOrder | SIL.FwBuildTasks/NUnit.cs:161-182 | the switches start with nologo, end with labels, and follow the fixed order |
| NUnitTask.NUnitRunner.SwitchPresence | SIL.FwBuildTasks/NUnit.cs:161-182 | nologo and labels always appear; noshadow iff DisableShadowCopy; nothread iff TestInNewThread was set to false; each valued switch iff its property is set, and with that value |
| NUnitTask.NUnitRunner.ArgumentsLayout | SIL.FwBuildTasks/NUnit.cs:152-183 | without Mono, the arguments are the assemblies joined by single spaces, then the switches |
| NUnitTask.NUnitRunner.ArgumentsLayoutMono | SIL.FwBuildTasks/NUnit.cs:145-183 | with Mono, the arguments are "--debug ", the real program, a space, the assemblies joined by single spaces, then the switches |
| NUnitTask.NUnitRunner.ArgumentsEndWithLabels | SIL.FwBuildTasks/NUnit.cs:182 | the arguments always end with the labels switch |
| NUnitTask.NUnitRunner.AppendSwitch | SIL.FwBuildTasks/NUnit.cs:162-182 | one `if` of the switch list appends that switch exactly when it is wanted |
| NUnitTask.NUnitRunner.AppendSwitches | SIL.FwBuildTasks/NUnit.cs:161-182 | the appends of the switch list write the rendering of the wanted switches, in order |
| NUnitTask.NUnitRunner.ProgramArguments | SIL.FwBuildTasks/NUnit.cs:142-184 | the builder's content is the specified argument string; ToolPath is probed only under Mono |
| NUnitTask.NUnitRunner.GetWorkingDirectory | SIL.FwBuildTasks/NUnit.cs:62-72 | WorkingDirectory when set; otherwise the full path of the first assembly's directory, which for a rooted assembly is its directory itself (a drive root keeps its separator); an exception exactly when there is no assembly, the first is a bare root, or it has no directory part |
| NUnitTask.NUnitRunner.GetTestsCompletedString | SIL.FwBuildTasks/NUnit.cs:123-126 | the completion text is never taken for a test line |
| NUnitTask.NUnitRunner.TestProgramNameNamesAssemblies | SIL.FwBuildTasks/NUnit.cs:241-244 | the name is "NUnit (…)" and its inside splits back into the assemblies' base names, in order |
| NUnitTask.NUnitRunner.FixturePath | SIL.FwBuildTasks/NUnit.cs:246-259 | the loop builds the space-joined base names of the assemblies |
| NUnitTask.NUnitRunner.FailedSuiteNames | SIL.FwBuildTasks/NUnit.cs:308-319 | a new array with one entry per assembly: its base name, in order |
| NUnitTask.NUnitRunner.FailedSuitesMakeFixturePath | SIL.FwBuildTasks/NUnit.cs:308-319 | the failed suite names, space-joined, are FixturePath |
| NUnitTask.NUnitRunner.EnsureToolPath | SIL.FwBuildTasks/NUnit.cs:186-239 | ToolPath becomes what the probe order gives: the current one if it holds the console, else PATH, Program Files, the registry, else "." |
| NUnitTask.NUnitRunner.ProgramName | SIL.FwBuildTasks/NUnit.cs:133-140 | under Mono, the Mono path with ToolPath untouched; otherwise the real program after probing ToolPath |
| NUnitTask.NUnitRunner.ProcessOutput | SIL.FwBuildTasks/NUnit.cs:261-306 | the log grows by the non-test lines in order; without a timeout nothing is written; on a timeout the report is built from the collected lines, except that an unset OutputXmlFile makes opening the file throw |
| NUnitTask.NUnitRunner.WriteTimeoutReport | SIL.FwBuildTasks/NUnit.cs:282-303 | the written document is the timeout report of FixturePath and the collected lines |
| NUnitTask.ProgramFilesProbeAsWrittenNeverFires | SIL.FwBuildTasks/NUnit.cs:201-210 | when Program Files lists full paths, the probe as written never answers |
| NUnitTask.RootedIsNotNUnit | SIL.FwBuildTasks/NUnit.cs:203 | a rooted path never starts with "NUnit" |
| NUnitTask.ProgramFilesProbeCounterexample | SIL.FwBuildTasks/NUnit.cs:201-210 | with an NUnit install under Program Files, the probe as written misses it and the corrected probe finds the console |
| NUnitTask.InstalledHostIsCounterexample | SIL.FwBuildTasks/NUnit.cs:201-210 | C:\Program Files\NUnit 2.6.4 with bin\nunit-console.exe meets those conditions |
| NUnitTask.ProgramFilesProbeAsWrittenMissesBin | SIL.FwBuildTasks/NUnit.cs:205-207 | even where the as-written test passes, it answers a directory that does not hold nunit-console.exe |
| TimeoutRoundTrip.TimeoutSummary | SIL.FwBuildTasks/NUnit.cs:284-290 | the aggregator reads the timeout report as 1 failure, 0 ignores and num passes, with the suite's time |
| TimeoutRoundTrip.TimeoutCases | SIL.FwBuildTasks/NUnit.cs:289-298 | the timeout report holds exactly one test case, named Timeout |
| TimeoutRoundTrip.TimeoutCaseEntries | SIL.FwBuildTasks/NUnit.cs:294 | the Timeout case logs as a failure with the timeout's time and an empty message and stack trace |
| TimeoutRoundTrip.TimeoutReportRead | SIL.FwBuildTasks/NUnit.cs:282-303 | read by the aggregator, a timeout report gives its project one failure, logs the Timeout failure after the counts and raises nothing |
| ReportScenario.CountsReportSummary | SIL.FwBuildTasks/GenerateNUnitReports.cs:66-88 | a file stating total, failures, no errors and its ignores as `skipped` or as `not-run` reads as fails = failures, ignores as stated, passes = total - failures - ignores, time "0" |
| ReportScenario.CountsReportIgnores | SIL.FwBuildTasks/GenerateNUnitReports.cs:73-87 | the ignore count of such a file is the one its dialect states |
| ReportScenario.CountsReportHasNoCases | SIL.FwBuildTasks/GenerateNUnitReports.cs:101 | a file without test cases gives the case walk nothing |
| ReportScenario.CountsReportRead | SIL.FwBuildTasks/GenerateNUnitReports.cs:55-141 | read from "out/<project>-nunit-output.xml", such a file reports under <project>, logs its header and counts, and completes |
| ReportScenario.ScenarioNames | SIL.FwBuildTasks/GenerateNUnitReports.cs:30 | ReportFiles "A;B" names file A, then file B |
| ReportScenario.ScenarioReports | SIL.FwBuildTasks/GenerateNUnitReports.cs:55-141 | project A (10 tests, 1 failure, 2 skipped) reads as 1 failure, 2 ignores, 7 passes; project B (5 tests, 1 not run) as 0, 1, 4 |
| ReportScenario.ScenarioReached | SIL.FwBuildTasks/GenerateNUnitReports.cs:47-51 | both files are read to the end, A first |
| ReportScenario.ScenarioFinished | SIL.FwBuildTasks/GenerateNUnitReports.cs:43-53 | from fresh fields, the run ends with 2 projects, 11 passed, 3 ignored, 1 failure, and only ("A", 1) listed |
| ReportScenario.ScenarioRun | SIL.FwBuildTasks/GenerateNUnitReports.cs:26-53 | on the task object itself, Execute with "A;B" raises nothing and leaves those fields |

## Left out

- Reading XML text. A result file is already the tree XmlDocument.Load gives.
  A file that does not load is one missing from the map.
- `m_totalElapsedTestTime` and `Convert.ToDouble(secsToRun)` (GenerateNUnitReports.cs lines 20, 45 and 92) are floating point.
  - The summary's seconds figure is not modelled.
  - A `time` attribute that is not a number, which makes `Convert.ToDouble` throw, is not modelled either.
- Other floating-point and clock values are opaque strings passed in:
  - the elapsed seconds;
  - the timeout in seconds;
  - `DateTime.Now`.
- The formatted text of log messages. Each entry is an importance and a message constructor with its arguments.
- ProcessOutput's file effects are not modelled. These are moving or deleting an old result file and writing with a StreamWriter. The method returns the document the file loads as.
  - XML escaping of attribute values is not modelled.
  - Neither is a test name holding "--", which would end the comment early.
- The TestTask base class is not part of this model. This covers launching the process, waiting for it and capturing the output. The captured lines and the timed-out flag are parameters.
- Environment variables, the platform, the current directory, Program Files, the registry and `File.Exists` come in as a `Host` value.
  - A missing PATH variable, on which `Split` throws, is not modelled.
  - A registry version key without `InstallDir`, on which `ToString()` throws, is not modelled.
  - Errors while enumerating Program Files are not modelled.
- `Paths` treats '/' and '\\' as separators on every platform. GetFullPath does not resolve "." or "..". GetDirectoryName keeps the separators as written rather than turning them into the platform's.
- `Execute`'s early return for an empty list of files is dead code. Split always gives at least one piece.
- `GenerateNUnitReports.ReadSummary`: its own contract states only that a summary comes from a `test-results` root. What it computes is stated by `ReadSummaryCounts` and `ReadSummaryOf`.
- `NUnitTask.NUnitRunner.EnsureToolPath`, `NUnitTask.SearchProgramFiles` and `NUnitTask.ProbeFindsConsole` use or state the corrected Program Files probe (see Findings). The as-written probe is modelled beside them.

## Findings

| source | as written | input that shows it | evidently intended | confidence | as-written member | corrected member |
|---|---|---|---|---|---|---|
| SIL.FwBuildTasks/NUnit.cs:201-210 | the Program Files loop tests `dir.StartsWith("NUnit")` on the full path that EnumerateDirectories returns. When the test passes it sets ToolPath to `dir`, although it checked for `bin\nunit-console.exe` below it. | Program Files holds `C:\Program Files\NUnit 2.6.4` with `bin\nunit-console.exe`. The full path starts with "C:", so the install is never found. | test the directory's own name, and use its `bin` directory as ToolPath so that RealProgramName names an existing file | not executed | NUnitTask.ProgramFilesProbeCounterexample | NUnitTask.ProgramFilesProbeFindsConsole |
