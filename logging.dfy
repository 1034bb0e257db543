/**
 * MSBuild's TaskLoggingHelper as a record of what was logged: each entry has
 * an importance (MessageImportance Low, Normal or High) and a message that
 * names the format string the tasks use and the values put into it.
 */
module Logging {

  datatype Importance = Low | Normal | High

  datatype Message =
    | Blank                                         // " "
    | Banner                                        // 49 '*'
    | WideBanner                                    // 57 '*', around the summary
    | ReportHeader(project: string)                 // "NUnit report for {0}:"
    | ProjectCounts(failures: int, ignored: int, passed: int)
    | ElapsedTime(seconds: string)                  // "     Elapsed time: {0}"
    | CasePassed(name: string, seconds: string)     // "{0} passed in {1} secs."
    | CaseIgnored(name: string)                     // "Ignored testcase {0}."
    | IgnoreReason(reason: string)                  // "     Reason: {0}"
    | CaseFailed(name: string, seconds: string)     // "{0} FAILED in {1} secs."
    | Verbatim(text: string)                        // a failure message, a stack trace, a console line
    | SummaryHeading                                // "NUnit Summary report:"
    | SummaryTotals(projects: int, passed: int, ignored: int, failures: int)
    | FailedProject(project: string)                // "Project {0}"
    | FailureCount(failures: int)                   // "    had {0} test failures."

  datatype LogEntry = LogEntry(importance: Importance, message: Message)
}
