/**
 * The GenerateNUnitReports build task: it reads the NUnit result files of a
 * build one after another, logs a report per test project, keeps running
 * totals in its fields and closes with a summary of all projects.
 *
 * The file system is the map `files` from a path to the document that
 * XmlDocument.Load reads there; a path outside the map is one Load throws on.
 * Every exception the task can raise becomes a ReportError, and processing
 * stops at the first one, as the exception would stop it.
 */
module GenerateNUnitReports {
  import opened Wrappers
  import opened Text
  import Int32
  import opened Paths
  import opened XmlTree
  import opened Logging

  datatype ReportError =
    | FileNotLoaded(file: string)                        // XmlDocument.Load throws
    | MissingNode(path: string)                          // SelectSingleNode gave null: NullReferenceException
    | MissingAttribute(element: string, name: string)    // Attributes[name] gave null: NullReferenceException
    | BadNumber(value: string)                           // Convert.ToInt32 throws
    | UnimplementedResult(result: string)                // "Unimplemented NUnit testresult: {0}"

  /** The test-case results the task knows. */
  datatype Outcome = Success | Skipped | Ignored | Failure | Error

  function OutcomeName(o: Outcome): string
  {
    match o
    case Success => "Success"
    case Skipped => "Skipped"
    case Ignored => "Ignored"
    case Failure => "Failure"
    case Error => "Error"
  }

  /** The switch over a test case's result: exactly the five names are recognised. */
  function ParseOutcome(s: string): (r: Option<Outcome>)
    ensures r.Some? ==> OutcomeName(r.value) == s
    ensures r.None? ==> forall o: Outcome :: OutcomeName(o) != s
  {
    if s == "Success" then Some(Success)
    else if s == "Skipped" then Some(Skipped)
    else if s == "Ignored" then Some(Ignored)
    else if s == "Failure" then Some(Failure)
    else if s == "Error" then Some(Error)
    else None
  }

  /** The importance a test case's messages are logged with. */
  function Tier(o: Outcome): Importance
  {
    match o
    case Success => Low
    case Skipped => Normal
    case Ignored => Normal
    case Failure => High
    case Error => High
  }

  /**
   * GetShortProjectName: the file's base name up to its first '-', so that
   * "Path/project.dll-nunit-output.xml" names the project "project.dll".
   */
  function ShortProjectName(fileName: string): string
  {
    Split(FileNameWithoutExtension(fileName), '-')[0]
  }

  /** The project name is the longest prefix of the base name free of '-'. */
  lemma ShortProjectNameIsPrefix(fileName: string)
    ensures var base := FileNameWithoutExtension(fileName);
      var r := ShortProjectName(fileName);
      StartsWith(base, r) && '-' !in r && (|r| == |base| || base[|r|] == '-')
  {
    SplitFirst(FileNameWithoutExtension(fileName), '-');
  }

  /**
   * The naming convention of the build: for "<dir>/<project>-<rest>.xml" the
   * project is <project>, dots in it included.
   */
  lemma ShortProjectNameOfConvention(dir: string, project: string, rest: string)
    requires '-' !in project
    requires forall i :: 0 <= i < |project| ==> !IsSeparator(project[i])
    requires forall i :: 0 <= i < |rest| ==> !IsSeparator(rest[i]) && rest[i] != '.'
    ensures ShortProjectName(dir + "/" + project + "-" + rest + ".xml") == project
  {
    var stem := project + "-" + rest;
    var name := stem + ".xml";
    assert dir + "/" + project + "-" + rest + ".xml" == (dir + "/") + name;
    forall i | 0 <= i < |name| ensures !IsSeparator(name[i]) {
      if i < |project| {
        assert name[i] == project[i];
      } else if i == |project| {
        assert name[i] == '-';
      } else if i < |stem| {
        assert name[i] == rest[i - |project| - 1];
      }
    }
    FileNameAfterSeparator(dir + "/", name);
    assert "xml" == name[|stem| + 1..];
    LastIndexOfBefore(stem, '.', "xml");
    assert stem + [ '.' ] + "xml" == name;
    assert FileNameWithoutExtension(dir + "/" + project + "-" + rest + ".xml") == stem;
    SplitPrepend(project, "-" + rest, '-');
    assert project + ("-" + rest) == stem;
    assert project + "" == project;
  }

  /** completeTestCaseName.Split('.').Last(): the last dot-separated segment. */
  function DisplayName(fullName: string): string
  {
    var parts := Split(fullName, '.');
    parts[|parts| - 1]
  }

  /** The display name is the longest suffix of the full name free of '.'. */
  lemma DisplayNameIsLastSegment(fullName: string)
    ensures var r := DisplayName(fullName);
      EndsWith(fullName, r) && '.' !in r && (|r| == |fullName| || fullName[|fullName| - |r| - 1] == '.')
  {
    SplitLast(fullName, '.');
  }

  /** ParseCdataNode: the text of a node, "" for a node that is not there. */
  function ParseCdataNode(n: Option<Node>): string
  {
    match n
    case None => ""
    case Some(m) => InnerText(m)
  }

  /** node.Attributes[name].Value, which throws when the attribute is missing. */
  function Required(n: Node, element: string, name: string): Result<string, ReportError>
  {
    match Attr(n, name)
    case None => Err(MissingAttribute(element, name))
    case Some(v) => Ok(v)
  }

  /** Convert.ToInt32(root.Attributes[name].Value). */
  function ReadCount(root: Node, name: string): Result<Int32.Int, ReportError>
  {
    var text :- Required(root, "test-results", name);
    match Int32.ParseInt32(text)
    case None => Err(BadNumber(text))
    case Some(v) => Ok(v)
  }

  /**
   * The ignore count of a report: `skipped` when present, else `not-run`
   * when present, else 0; `ignored`, when present, is added on top.
   */
  function IgnoreCount(root: Node): Result<Int32.Int, ReportError>
  {
    var chosen :- if Attr(root, "skipped").Some? then ReadCount(root, "skipped")
                  else if Attr(root, "not-run").Some? then ReadCount(root, "not-run")
                  else Ok(0);
    var ignored :- if Attr(root, "ignored").Some? then ReadCount(root, "ignored") else Ok(0);
    Ok(Int32.Add(chosen, ignored))
  }

  /** With `skipped` present, `not-run` is never read: whatever it holds, or its absence, changes nothing. */
  lemma SkippedShadowsNotRun(root: Node, v: string)
    requires root.Element? && "skipped" in root.attrs
    ensures IgnoreCount(root.(attrs := root.attrs["not-run" := v])) == IgnoreCount(root)
    ensures IgnoreCount(root.(attrs := root.attrs - {"not-run"})) == IgnoreCount(root)
  {
    var withNotRun := root.(attrs := root.attrs["not-run" := v]);
    var without := root.(attrs := root.attrs - {"not-run"});
    assert Attr(withNotRun, "skipped") == Attr(root, "skipped") == Attr(without, "skipped");
    assert Attr(withNotRun, "ignored") == Attr(root, "ignored") == Attr(without, "ignored");
    assert ReadCount(withNotRun, "skipped") == ReadCount(root, "skipped") == ReadCount(without, "skipped");
    assert ReadCount(withNotRun, "ignored") == ReadCount(root, "ignored") == ReadCount(without, "ignored");
  }

  /** `ignored` is added on top of the count chosen from `skipped` or `not-run`. */
  lemma IgnoredAddsOnTop(root: Node, k: Int32.Int)
    requires root.Element? && "ignored" !in root.attrs && IgnoreCount(root).Ok?
    ensures IgnoreCount(root.(attrs := root.attrs["ignored" := Int32.IntToString(k)]))
         == Ok(Int32.Add(IgnoreCount(root).value, k))
  {
    var withIgnored := root.(attrs := root.attrs["ignored" := Int32.IntToString(k)]);
    Int32.ParseIntToString(k);
    assert ReadCount(withIgnored, "ignored") == Ok(k);
    assert Attr(withIgnored, "skipped") == Attr(root, "skipped");
    assert Attr(withIgnored, "not-run") == Attr(root, "not-run");
    assert ReadCount(withIgnored, "skipped") == ReadCount(root, "skipped");
    assert ReadCount(withIgnored, "not-run") == ReadCount(root, "not-run");
  }

  /** The counts a report's root element states, and the suite's elapsed time as written. */
  datatype Summary = Summary(seconds: string, fails: Int32.Int, ignores: Int32.Int, passes: Int32.Int)

  /**
   * Lines 66-88 of GenerateReportFor: find the test-results root and its
   * first test-suite child, then read failures, errors, the ignore count and
   * total, in that order, with C#'s wrapping int arithmetic.
   */
  function ReadSummary(doc: Node): (r: Result<Summary, ReportError>)
    ensures r.Ok? ==> doc.Element? && doc.tag == "test-results"
  {
    if !(doc.Element? && doc.tag == "test-results") then Err(MissingNode("test-results"))
    else
      var suites := ChildElements(doc.children, "test-suite");
      if suites == [] then Err(MissingNode("test-results/test-suite"))
      else
        var seconds := match Attr(suites[0], "time") case Some(t) => t case None => "0";
        var failures :- ReadCount(doc, "failures");
        var errors :- ReadCount(doc, "errors");
        var fails := Int32.Add(failures, errors);
        var ignores :- IgnoreCount(doc);
        var total :- ReadCount(doc, "total");
        Ok(Summary(seconds, fails, ignores, Int32.Sub(Int32.Sub(total, fails), ignores)))
  }

  /**
   * A summary states failures + errors as its failures, the ignore count as
   * its ignores, and passes, ignores and failures that add up to total (all
   * in wrapping int arithmetic); its time is the first test-suite's, or "0".
   */
  lemma ReadSummaryCounts(doc: Node)
    requires ReadSummary(doc).Ok?
    ensures var s := ReadSummary(doc).value;
      ReadCount(doc, "failures").Ok? && ReadCount(doc, "errors").Ok? && ReadCount(doc, "total").Ok?
      && s.fails == Int32.Add(ReadCount(doc, "failures").value, ReadCount(doc, "errors").value)
      && IgnoreCount(doc) == Ok(s.ignores)
      && Int32.Add(Int32.Add(s.passes, s.ignores), s.fails) == ReadCount(doc, "total").value
      && s.seconds == (match Attr(ChildElements(doc.children, "test-suite")[0], "time")
                       case Some(t) => t case None => "0")
  {
    var s := ReadSummary(doc).value;
    var total := ReadCount(doc, "total").value;
    Int32.SubAddCancel(Int32.Sub(total, s.fails), s.ignores);
    Int32.SubAddCancel(total, s.fails);
  }

  /** A count stated as `skipped` or as `not-run` gives the same summary: the two dialects agree. */
  lemma SkippedNotRunTransparent(root: Node, v: string)
    requires root.Element? && "skipped" !in root.attrs && "not-run" !in root.attrs
    ensures ReadSummary(root.(attrs := root.attrs["skipped" := v]))
         == ReadSummary(root.(attrs := root.attrs["not-run" := v]))
  {
    var a := root.(attrs := root.attrs["skipped" := v]);
    var b := root.(attrs := root.attrs["not-run" := v]);
    assert ReadCount(a, "skipped") == ReadCount(b, "not-run");
    assert IgnoreCount(a) == IgnoreCount(b) by {
      assert Attr(a, "ignored") == Attr(b, "ignored");
      assert ReadCount(a, "ignored") == ReadCount(b, "ignored");
    }
    assert ReadCount(a, "failures") == ReadCount(b, "failures");
    assert ReadCount(a, "errors") == ReadCount(b, "errors");
    assert ReadCount(a, "total") == ReadCount(b, "total");
  }

  /** An attribute written by Int32.ToString reads back as the same count. */
  lemma ReadCountOf(root: Node, name: string, v: Int32.Int)
    requires Attr(root, name) == Some(Int32.IntToString(v))
    ensures ReadCount(root, name) == Ok(v)
  {
    Int32.ParseIntToString(v);
  }

  /**
   * The converse of ReadSummaryCounts: once the counts read, the summary is
   * determined by them and the first suite's time.
   */
  lemma ReadSummaryOf(doc: Node, failures: Int32.Int, errors: Int32.Int, ignores: Int32.Int, total: Int32.Int)
    requires doc.Element? && doc.tag == "test-results" && ChildElements(doc.children, "test-suite") != []
    requires ReadCount(doc, "failures") == Ok(failures) && ReadCount(doc, "errors") == Ok(errors)
    requires IgnoreCount(doc) == Ok(ignores) && ReadCount(doc, "total") == Ok(total)
    ensures var fails := Int32.Add(failures, errors);
      var seconds := match Attr(ChildElements(doc.children, "test-suite")[0], "time") case Some(t) => t case None => "0";
      ReadSummary(doc) == Ok(Summary(seconds, fails, ignores, Int32.Sub(Int32.Sub(total, fails), ignores)))
  {
  }

  /**
   * Nothing checks that passes is not negative: a report stating more
   * failures than tests still reads as a summary, with total - failures passes.
   */
  lemma NegativePassesAccepted(doc: Node, total: nat, failures: nat)
    requires doc.Element? && doc.tag == "test-results" && ChildElements(doc.children, "test-suite") != []
    requires Attr(doc, "total") == Some(Int32.IntToString(total))
    requires Attr(doc, "failures") == Some(Int32.IntToString(failures))
    requires Attr(doc, "errors") == Some(Int32.IntToString(0))
    requires Attr(doc, "skipped").None? && Attr(doc, "not-run").None? && Attr(doc, "ignored").None?
    requires total < failures <= Int32.Max
    ensures ReadSummary(doc).Ok? && ReadSummary(doc).value.fails == failures
    ensures ReadSummary(doc).value.passes == total - failures < 0
  {
    assert ReadCount(doc, "total") == Ok(total) by { ReadCountOf(doc, "total", total); }
    assert ReadCount(doc, "failures") == Ok(failures) by { ReadCountOf(doc, "failures", failures); }
    assert ReadCount(doc, "errors") == Ok(0) by { ReadCountOf(doc, "errors", 0); }
    assert IgnoreCount(doc) == Ok(0);
    ReadSummaryOf(doc, failures, 0, 0, total);
  }

  /**
   * The result string of a test case: the `result` attribute verbatim, or
   * else "Success" when `success` is "True" and "Failure" otherwise.
   */
  function CaseResult(c: Node): Result<string, ReportError>
  {
    match Attr(c, "result")
    case Some(r) => Ok(r)
    case None =>
      match Attr(c, "success")
      case None => Err(MissingAttribute("test-case", "success"))
      case Some(s) => Ok(if s == "True" then "Success" else "Failure")
  }

  predicate NeedsTime(o: Outcome) {
    o == Success || o == Failure || o == Error
  }

  function FailureEntries(name: string, seconds: string, message: string, stack: string): seq<LogEntry>
  {
    [LogEntry(High, Banner), LogEntry(High, CaseFailed(name, seconds)), LogEntry(High, Banner),
     LogEntry(High, Verbatim(message)), LogEntry(High, Verbatim(stack))]
  }

  /**
   * What one test case logs (lines 104-139 and GenerateFailureReport), or the
   * exception it raises: a missing `success`, `name` or `time`, or a result
   * outside the five known ones.
   */
  function CaseEntries(c: Node): Result<seq<LogEntry>, ReportError>
  {
    var result :- CaseResult(c);
    var fullName :- Required(c, "test-case", "name");
    var name := DisplayName(fullName);
    match ParseOutcome(result)
    case None => Err(UnimplementedResult(result))
    case Some(Success) =>
      var seconds :- Required(c, "test-case", "time");
      Ok([LogEntry(Low, CasePassed(name, seconds))])
    case Some(Skipped) | Some(Ignored) =>
      var reason := ParseCdataNode(SelectSingle(c, ["reason", "message"]));
      Ok([LogEntry(Normal, CaseIgnored(name)), LogEntry(Normal, IgnoreReason(reason))])
    case Some(Failure) | Some(Error) =>
      var seconds :- Required(c, "test-case", "time");
      var message := ParseCdataNode(SelectSingle(c, ["failure", "message"]));
      var stack := ParseCdataNode(SelectSingle(c, ["failure", "stack-trace"]));
      Ok(FailureEntries(name, seconds, message, stack))
  }

  /**
   * A test case logs iff it has a result (or `success`), a name, a result
   * among the five known ones and, where the result needs it, a time; what it
   * logs is non-empty and all at the importance of its result's tier.
   */
  lemma CaseEntriesOk(c: Node)
    ensures CaseEntries(c).Ok? <==>
      CaseResult(c).Ok? && Attr(c, "name").Some? && ParseOutcome(CaseResult(c).value).Some?
      && (NeedsTime(ParseOutcome(CaseResult(c).value).value) ==> Attr(c, "time").Some?)
    ensures CaseEntries(c).Ok? ==> |CaseEntries(c).value| > 0 && forall k :: 0 <= k < |CaseEntries(c).value| ==>
      CaseEntries(c).value[k].importance == Tier(ParseOutcome(CaseResult(c).value).value)
  {
  }

  /** A result outside the five known ones is fatal and names the offending value. */
  lemma UnknownResultIsFatal(c: Node, result: string)
    requires c.Element? && c.attrs.Keys >= {"result", "name"} && c.attrs["result"] == result
    requires result !in {"Success", "Skipped", "Ignored", "Failure", "Error"}
    ensures CaseEntries(c) == Err(UnimplementedResult(result))
  {
    assert ParseOutcome(result).None?;
  }

  /** A case with only `success` logs exactly as one whose `result` is the mapped name. */
  lemma SuccessAttributeMapping(c: Node)
    requires c.Element? && "result" !in c.attrs && "success" in c.attrs
    ensures var mapped := if c.attrs["success"] == "True" then "Success" else "Failure";
      CaseEntries(c) == CaseEntries(c.(attrs := c.attrs["result" := mapped]))
  {
    var mapped := if c.attrs["success"] == "True" then "Success" else "Failure";
    var d := c.(attrs := c.attrs["result" := mapped]);
    assert CaseResult(d) == CaseResult(c) == Ok(mapped);
    assert Attr(d, "name") == Attr(c, "name");
    assert Attr(d, "time") == Attr(c, "time");
    SelectSingleOfChildren(d, c, ["failure", "message"]);
    SelectSingleOfChildren(d, c, ["failure", "stack-trace"]);
    SelectSingleOfChildren(d, c, ["reason", "message"]);
  }

  /**
   * Each missing reason/message, failure/message or failure/stack-trace is
   * logged as the empty string, whatever else the case holds; a present one
   * is logged as its text.
   */
  lemma MissingTextIsEmpty(c: Node)
    requires CaseEntries(c).Ok?
    ensures var o := ParseOutcome(CaseResult(c).value).value;
      var es := CaseEntries(c).value;
      var reason := SelectSingle(c, ["reason", "message"]);
      var message := SelectSingle(c, ["failure", "message"]);
      var stack := SelectSingle(c, ["failure", "stack-trace"]);
      (o == Skipped || o == Ignored ==>
         es[1] == LogEntry(Normal, IgnoreReason(if reason.None? then "" else InnerText(reason.value))))
      && (o == Failure || o == Error ==>
            es[3] == LogEntry(High, Verbatim(if message.None? then "" else InnerText(message.value)))
            && es[4] == LogEntry(High, Verbatim(if stack.None? then "" else InnerText(stack.value))))
  {
  }

  /** What the walk over the test cases logged before it finished or threw. */
  datatype Walk = Walk(entries: seq<LogEntry>, error: Option<ReportError>)

  /**
   * A foreach that logs what step gives for each item in turn and stops at
   * the first exception.
   */
  function WalkWith<T>(items: seq<T>, step: T -> Result<seq<LogEntry>, ReportError>): Walk
    decreases |items|
  {
    if items == [] then Walk([], None)
    else
      var before := WalkWith(items[..|items| - 1], step);
      if before.error.Some? then before
      else
        match step(items[|items| - 1])
        case Err(e) => Walk(before.entries, Some(e))
        case Ok(es) => Walk(before.entries + es, None)
  }

  /**
   * The walk completes iff every step succeeds; otherwise its error is that
   * of the first step that fails, and every step before it succeeded.
   */
  lemma {:induction false} WalkWithError<T>(items: seq<T>, step: T -> Result<seq<LogEntry>, ReportError>)
    ensures WalkWith(items, step).error.None? <==> forall k :: 0 <= k < |items| ==> step(items[k]).Ok?
    ensures WalkWith(items, step).error.Some? ==>
      exists k :: (0 <= k < |items| && step(items[k]) == Err(WalkWith(items, step).error.value)
        && forall j :: 0 <= j < k ==> step(items[j]).Ok?)
    decreases |items|
  {
    if items != [] {
      var prefix := items[..|items| - 1];
      WalkWithError(prefix, step);
      assert forall k :: 0 <= k < |prefix| ==> prefix[k] == items[k];
      if WalkWith(prefix, step).error.Some? {
        var k :| 0 <= k < |prefix| && step(prefix[k]) == Err(WalkWith(prefix, step).error.value)
          && forall j :: 0 <= j < k ==> step(prefix[j]).Ok?;
        assert step(items[k]).Err?;
      } else if step(items[|items| - 1]).Err? {
        assert step(items[|items| - 1]) == Err(WalkWith(items, step).error.value);
      }
    }
  }

  /** Once a step has thrown, the items after it change nothing. */
  lemma {:induction false} WalkWithStops<T>(items: seq<T>, step: T -> Result<seq<LogEntry>, ReportError>, j: nat)
    requires j <= |items| && WalkWith(items[..j], step).error.Some?
    ensures WalkWith(items, step) == WalkWith(items[..j], step)
    decreases |items|
  {
    if j < |items| {
      var prefix := items[..|items| - 1];
      assert prefix[..j] == items[..j];
      WalkWithStops(prefix, step, j);
    } else {
      assert items[..j] == items;
    }
  }

  /** The foreach over the test cases (lines 102-140): each case's messages in turn, until one throws. */
  method LogTestCases(cases: seq<Node>) returns (entries: seq<LogEntry>, error: Option<ReportError>)
    ensures WalkWith(cases, CaseEntries) == Walk(entries, error)
  {
    entries := [];
    error := None;
    var i := 0;
    while i < |cases|
      invariant 0 <= i <= |cases|
      invariant WalkWith(cases[..i], CaseEntries) == Walk(entries, None)
    {
      assert cases[..i + 1][..i] == cases[..i];
      var caseLog := CaseEntries(cases[i]);
      if caseLog.Err? {
        error := Some(caseLog.error);
        WalkWithStops(cases, CaseEntries, i + 1);
        return;
      }
      entries := entries + caseLog.value;
      i := i + 1;
    }
    assert cases[..i] == cases;
  }

  function HeaderEntries(project: string): seq<LogEntry>
  {
    [LogEntry(High, Blank), LogEntry(High, Banner), LogEntry(High, ReportHeader(project)), LogEntry(High, Banner)]
  }

  function CountEntries(s: Summary): seq<LogEntry>
  {
    [LogEntry(High, ProjectCounts(s.fails, s.ignores, s.passes)), LogEntry(Normal, ElapsedTime(s.seconds)),
     LogEntry(High, Banner)]
  }

  /**
   * The effect of GenerateReportFor on one file: its project name, the summary
   * whose counts reach the totals (None when it threw before line 89), what it
   * logged and the exception it raised.
   */
  datatype FileReport = FileReport(project: string, summary: Option<Summary>, entries: seq<LogEntry>, error: Option<ReportError>)

  function ReportFor(files: map<string, Node>, fileName: string): (r: FileReport)
    ensures r.summary.None? ==> r.error.Some?
  {
    if fileName !in files then FileReport("", None, [], Some(FileNotLoaded(fileName)))
    else
      var doc := files[fileName];
      var project := ShortProjectName(fileName);
      match ReadSummary(doc)
      case Err(e) => FileReport(project, None, HeaderEntries(project), Some(e))
      case Ok(s) =>
        var walk := WalkWith(Descendants(doc, "test-case"), CaseEntries);
        FileReport(project, Some(s), HeaderEntries(project) + CountEntries(s) + walk.entries, walk.error)
  }

  /** ReportFor with the files fixed, as the step of the walk over the report files. */
  function ReportsIn(files: map<string, Node>): string -> FileReport
  {
    fileName => ReportFor(files, fileName)
  }

  /**
   * An unknown result anywhere in a loaded report stops the run, after the
   * report's counts were taken (so they reach the totals).
   */
  lemma UnknownResultAfterCounting(files: map<string, Node>, fileName: string, k: nat, result: string)
    requires fileName in files && ReadSummary(files[fileName]).Ok?
    requires k < |Descendants(files[fileName], "test-case")|
    requires var c := Descendants(files[fileName], "test-case")[k];
      c.attrs.Keys >= {"result", "name"} && c.attrs["result"] == result
      && result !in {"Success", "Skipped", "Ignored", "Failure", "Error"}
    ensures ReportFor(files, fileName).summary == Some(ReadSummary(files[fileName]).value)
    ensures ReportFor(files, fileName).error.Some?
  {
    var cases := Descendants(files[fileName], "test-case");
    UnknownResultIsFatal(cases[k], result);
    WalkWithError(cases, CaseEntries);
  }

  /** The error a sequence of reports ends with, None when its last report (if any) completed. */
  function LastError(rs: seq<FileReport>): Option<ReportError>
  {
    if rs == [] then None else rs[|rs| - 1].error
  }

  /**
   * The reports GenerateReports gets to, in order: every file up to and
   * including the first that throws.
   */
  function Reached(names: seq<string>, report: string -> FileReport): (r: seq<FileReport>)
    ensures |r| <= |names|
    ensures |r| < |names| ==> LastError(r).Some?
    decreases |names|
  {
    if names == [] then []
    else
      var before := Reached(names[..|names| - 1], report);
      if LastError(before).Some? then before
      else before + [report(names[|names| - 1])]
  }

  /** The reports reached are those of the first files, in order. */
  lemma {:induction false} ReachedInOrder(names: seq<string>, report: string -> FileReport)
    ensures var r := Reached(names, report);
      forall k :: 0 <= k < |r| ==> r[k] == report(names[k])
    decreases |names|
  {
    if names != [] {
      var prefix := names[..|names| - 1];
      ReachedInOrder(prefix, report);
      assert forall k :: 0 <= k < |prefix| ==> prefix[k] == names[k];
    }
  }

  /** Of the reports reached, only the last can have thrown. */
  lemma {:induction false} ReachedOnlyLastThrows(names: seq<string>, report: string -> FileReport)
    ensures forall k :: 0 <= k < |Reached(names, report)| - 1 ==> Reached(names, report)[k].error.None?
    decreases |names|
  {
    if names != [] {
      var prefix := names[..|names| - 1];
      var before := Reached(prefix, report);
      ReachedOnlyLastThrows(prefix, report);
      if LastError(before).None? {
        var r := before + [report(names[|names| - 1])];
        assert Reached(names, report) == r;
        forall k | 0 <= k < |r| - 1 ensures r[k].error.None? {
          assert r[k] == before[k];
          if k == |before| - 1 {
            assert before[k].error == LastError(before);
          }
        }
      }
    }
  }

  /** Once a file has thrown, the files after it change nothing. */
  lemma {:induction false} ReachedStops(names: seq<string>, report: string -> FileReport, j: nat)
    requires j <= |names| && LastError(Reached(names[..j], report)).Some?
    ensures Reached(names, report) == Reached(names[..j], report)
    decreases |names|
  {
    if j < |names| {
      var prefix := names[..|names| - 1];
      assert prefix[..j] == names[..j];
      ReachedStops(prefix, report, j);
    } else {
      assert names[..j] == names;
    }
  }

  /** One more file after a prefix that completed: it is reached, and its error is the last one. */
  lemma ReachedExtends(names: seq<string>, report: string -> FileReport, i: nat)
    requires i < |names|
    requires |Reached(names[..i], report)| == i && LastError(Reached(names[..i], report)).None?
    ensures var rs := Reached(names[..i + 1], report);
      rs == Reached(names[..i], report) + [report(names[i])] && LastError(rs) == report(names[i]).error
  {
    assert names[..i + 1][..i] == names[..i];
    var rs := Reached(names[..i + 1], report);
    assert rs[..|rs| - 1] == Reached(names[..i], report);
  }

  /** Failures, ignores and passes summed, as C# ints, over the reports whose counts were taken. */
  datatype Tally = Tally(passes: Int32.Int, fails: Int32.Int, ignores: Int32.Int)

  function TallyOf(rs: seq<FileReport>): Tally
    decreases |rs|
  {
    if rs == [] then Tally(0, 0, 0)
    else
      var t := TallyOf(rs[..|rs| - 1]);
      match rs[|rs| - 1].summary
      case None => t
      case Some(s) => Tally(Int32.Add(t.passes, s.passes), Int32.Add(t.fails, s.fails), Int32.Add(t.ignores, s.ignores))
  }

  /** The (project, failures) pairs of the reports with failures, in processing order. */
  function FailedProjects(rs: seq<FileReport>): (r: seq<(string, Int32.Int)>)
    ensures forall k :: 0 <= k < |r| ==> r[k].1 > 0
    ensures |r| <= |rs|
    decreases |rs|
  {
    if rs == [] then []
    else
      var before := FailedProjects(rs[..|rs| - 1]);
      var last := rs[|rs| - 1];
      if last.summary.Some? && last.summary.value.fails > 0
      then before + [(last.project, last.summary.value.fails)]
      else before
  }

  /** A report with failures is listed, with its count. */
  lemma {:induction false} FailedProjectsComplete(rs: seq<FileReport>, k: nat)
    requires k < |rs| && rs[k].summary.Some? && rs[k].summary.value.fails > 0
    ensures (rs[k].project, rs[k].summary.value.fails) in FailedProjects(rs)
    decreases |rs|
  {
    if k < |rs| - 1 {
      FailedProjectsComplete(rs[..|rs| - 1], k);
    }
  }

  /** Every listed pair comes from a report with exactly that project and failure count. */
  lemma {:induction false} FailedProjectsSound(rs: seq<FileReport>, k: nat)
    requires k < |FailedProjects(rs)|
    ensures exists j :: (0 <= j < |rs| && rs[j].summary.Some?
      && FailedProjects(rs)[k] == (rs[j].project, rs[j].summary.value.fails))
    decreases |rs|
  {
    var before := FailedProjects(rs[..|rs| - 1]);
    if k < |before| {
      FailedProjectsSound(rs[..|rs| - 1], k);
      var j :| 0 <= j < |rs| - 1 && rs[..|rs| - 1][j].summary.Some?
        && before[k] == (rs[..|rs| - 1][j].project, rs[..|rs| - 1][j].summary.value.fails);
      assert rs[j] == rs[..|rs| - 1][j];
    } else {
      assert FailedProjects(rs)[k] == (rs[|rs| - 1].project, rs[|rs| - 1].summary.value.fails);
    }
  }

  /** Listing keeps processing order: the list of a concatenation is the concatenation of the lists. */
  lemma {:induction false} FailedProjectsAppend(a: seq<FileReport>, b: seq<FileReport>)
    ensures FailedProjects(a + b) == FailedProjects(a) + FailedProjects(b)
    decreases |b|
  {
    if b != [] {
      assert (a + b)[..|a + b| - 1] == a + b[..|b| - 1];
      FailedProjectsAppend(a, b[..|b| - 1]);
    } else {
      assert a + b == a;
    }
  }

  /** The number of files that finished without throwing. */
  function Completed(rs: seq<FileReport>): (n: nat)
    ensures n <= |rs|
    decreases |rs|
  {
    if rs == [] then 0 else Completed(rs[..|rs| - 1]) + (if rs[|rs| - 1].error.None? then 1 else 0)
  }

  /** Of the files reached, all completed but a last one that threw. */
  lemma {:induction false} CompletedReached(rs: seq<FileReport>)
    requires forall k :: 0 <= k < |rs| - 1 ==> rs[k].error.None?
    ensures Completed(rs) == if LastError(rs).Some? then |rs| - 1 else |rs|
    decreases |rs|
  {
    if rs != [] {
      var before := rs[..|rs| - 1];
      CompletedReached(before);
      assert LastError(before).None? by {
        if before != [] {
          assert before[|before| - 1] == rs[|rs| - 2];
        }
      }
    }
  }

  function LogOf(rs: seq<FileReport>): seq<LogEntry>
    decreases |rs|
  {
    if rs == [] then [] else LogOf(rs[..|rs| - 1]) + rs[|rs| - 1].entries
  }

  function FailureLines(failures: seq<(string, Int32.Int)>): seq<LogEntry>
    decreases |failures|
  {
    if failures == [] then []
    else
      var last := failures[|failures| - 1];
      FailureLines(failures[..|failures| - 1])
        + [LogEntry(High, FailedProject(last.0)), LogEntry(High, FailureCount(last.1))]
  }

  /** The summary names each failed project, with its count, in the order of the list. */
  lemma {:induction false} FailureLinesInOrder(failures: seq<(string, Int32.Int)>)
    ensures |FailureLines(failures)| == 2 * |failures|
    ensures forall k :: 0 <= k < |failures| ==>
      FailureLines(failures)[2 * k] == LogEntry(High, FailedProject(failures[k].0))
      && FailureLines(failures)[2 * k + 1] == LogEntry(High, FailureCount(failures[k].1))
    decreases |failures|
  {
    if failures != [] {
      var before := failures[..|failures| - 1];
      FailureLinesInOrder(before);
      forall k | 0 <= k < |before|
        ensures FailureLines(failures)[2 * k] == LogEntry(High, FailedProject(failures[k].0))
        ensures FailureLines(failures)[2 * k + 1] == LogEntry(High, FailureCount(failures[k].1))
      {
        assert failures[k] == before[k];
      }
    }
  }

  function SummaryHead(projects: int, succeed: int, ignore: int, failure: int): seq<LogEntry>
  {
    [LogEntry(High, Blank), LogEntry(High, WideBanner), LogEntry(High, SummaryHeading),
     LogEntry(High, SummaryTotals(projects, succeed, ignore, failure))]
  }

  /** GenerateSummaryReport's messages. */
  function SummaryLog(projects: int, succeed: int, ignore: int, failure: int, failures: seq<(string, Int32.Int)>): seq<LogEntry>
  {
    SummaryHead(projects, succeed, ignore, failure) + FailureLines(failures) + [LogEntry(High, WideBanner)]
  }

  /** The task's fields: its four counters, its list of failed projects and its log. */
  datatype Progress = Progress(succeed: Int32.Int, ignore: Int32.Int, failure: Int32.Int, projects: Int32.Int,
                               failures: seq<(string, Int32.Int)>, log: seq<LogEntry>)

  /**
   * What GenerateReportFor does to the fields for one report: its messages
   * are logged and, once its counts were taken, they are added to the
   * counters and a project with failures is listed.
   */
  function AfterReport(p: Progress, rep: FileReport): Progress
  {
    match rep.summary
    case None => p.(log := p.log + rep.entries)
    case Some(s) =>
      p.(succeed := Int32.Add(p.succeed, s.passes), ignore := Int32.Add(p.ignore, s.ignores),
         failure := Int32.Add(p.failure, s.fails),
         failures := p.failures + (if s.fails > 0 then [(rep.project, s.fails)] else []),
         log := p.log + rep.entries)
  }

  /** The foreach of GenerateReports: each report in turn, and a project counted once its report completed. */
  function AfterReports(p: Progress, rs: seq<FileReport>): Progress
    decreases |rs|
  {
    if rs == [] then p
    else
      var last := rs[|rs| - 1];
      var q := AfterReport(AfterReports(p, rs[..|rs| - 1]), last);
      if last.error.None? then q.(projects := Int32.Add(q.projects, 1)) else q
  }

  /** One more report: it is processed, and its project counted when it completed. */
  lemma AfterReportsSnoc(p: Progress, rs: seq<FileReport>, rep: FileReport)
    ensures var q := AfterReport(AfterReports(p, rs), rep);
      AfterReports(p, rs + [rep]) == if rep.error.None? then q.(projects := Int32.Add(q.projects, 1)) else q
  {
    assert (rs + [rep])[..|rs|] == rs;
  }

  /**
   * Processing reports one by one adds up their counts: each counter grows by
   * the tally of the reports, in wrapping int arithmetic.
   */
  lemma {:induction false} AfterReportsTallies(p: Progress, rs: seq<FileReport>)
    ensures var t := TallyOf(rs);
      var q := AfterReports(p, rs);
      q.succeed == Int32.Add(p.succeed, t.passes) && q.ignore == Int32.Add(p.ignore, t.ignores)
      && q.failure == Int32.Add(p.failure, t.fails)
    decreases |rs|
  {
    if rs != [] {
      var before := rs[..|rs| - 1];
      var last := rs[|rs| - 1];
      AfterReportsTallies(p, before);
      var t := TallyOf(before);
      var r := AfterReport(AfterReports(p, before), last);
      assert AfterReports(p, rs) == if last.error.None? then r.(projects := Int32.Add(r.projects, 1)) else r;
      if last.summary.Some? {
        var s := last.summary.value;
        Int32.AddAssociative(p.succeed, t.passes, s.passes);
        Int32.AddAssociative(p.ignore, t.ignores, s.ignores);
        Int32.AddAssociative(p.failure, t.fails, s.fails);
      }
    }
  }

  /**
   * Processing reports one by one counts the projects that completed, lists
   * the failed projects in order and logs each report's messages in order.
   */
  lemma {:induction false} AfterReportsLists(p: Progress, rs: seq<FileReport>)
    requires |rs| <= Int32.Max
    ensures var q := AfterReports(p, rs);
      q.projects == Int32.Add(p.projects, Completed(rs))
      && q.failures == p.failures + FailedProjects(rs) && q.log == p.log + LogOf(rs)
    decreases |rs|
  {
    if rs == [] {
      assert p.failures + [] == p.failures && p.log + [] == p.log;
    } else {
      var before := rs[..|rs| - 1];
      var last := rs[|rs| - 1];
      AfterReportsLists(p, before);
      var r := AfterReport(AfterReports(p, before), last);
      assert AfterReports(p, rs) == if last.error.None? then r.(projects := Int32.Add(r.projects, 1)) else r;
      Int32.AddAssociative(p.projects, Completed(before), 1);
      assert p.log + LogOf(before) + last.entries == p.log + LogOf(rs);
      assert p.failures + FailedProjects(before) + (if last.summary.Some? && last.summary.value.fails > 0
        then [(last.project, last.summary.value.fails)] else []) == p.failures + FailedProjects(rs);
    }
  }

  /**
   * What GenerateReports does to the fields: the list of failed projects
   * starts afresh, the reports reached are processed in turn and, when none
   * threw, the summary of the new totals is logged.
   */
  function Finished(p: Progress, rs: seq<FileReport>): Progress
  {
    var q := AfterReports(p.(failures := []), rs);
    if LastError(rs).Some? then q
    else q.(log := q.log + SummaryLog(q.projects, q.succeed, q.ignore, q.failure, q.failures))
  }

  /**
   * A run over report files: each counter grows by the tally of the reports
   * reached, the project counter by the number that completed, the list holds
   * exactly their failed projects, and the log their messages followed, when
   * none threw, by the summary of the new totals.
   */
  lemma FinishedSums(p: Progress, names: seq<string>, report: string -> FileReport)
    requires |names| <= Int32.Max
    ensures var rs := Reached(names, report);
      var t := TallyOf(rs);
      var q := Finished(p, rs);
      q.succeed == Int32.Add(p.succeed, t.passes) && q.failure == Int32.Add(p.failure, t.fails)
      && q.ignore == Int32.Add(p.ignore, t.ignores)
      && q.projects == Int32.Add(p.projects, if LastError(rs).Some? then |rs| - 1 else |rs|)
      && q.failures == FailedProjects(rs)
      && q.log == p.log + LogOf(rs)
           + (if LastError(rs).None? then SummaryLog(q.projects, q.succeed, q.ignore, q.failure, q.failures) else [])
  {
    var rs := Reached(names, report);
    AfterReportsTallies(p.(failures := []), rs);
    AfterReportsLists(p.(failures := []), rs);
    ReachedOnlyLastThrows(names, report);
    CompletedReached(rs);
    assert [] + FailedProjects(rs) == FailedProjects(rs);
  }

  /** The task object: its counter fields, its list of failed projects and its log. */
  class ReportAggregator {
    var totalSucceed: Int32.Int
    var totalIgnore: Int32.Int
    var totalFailure: Int32.Int
    var totalTestProjects: Int32.Int
    var projectFailures: seq<(string, Int32.Int)>
    var log: seq<LogEntry>

    ghost function State(): Progress
      reads this
    {
      Progress(totalSucceed, totalIgnore, totalFailure, totalTestProjects, projectFailures, log)
    }

    constructor ()
      ensures State() == Progress(0, 0, 0, 0, [], [])
    {
      totalSucceed, totalIgnore, totalFailure, totalTestProjects := 0, 0, 0, 0;
      projectFailures := [];
      log := [];
    }

    /**
     * One report file: its counts are added to the totals and, with failures,
     * its project is listed; the project counter is left to the caller.
     */
    method GenerateReportFor(files: map<string, Node>, fileName: string) returns (error: Option<ReportError>)
      modifies this
      ensures var rep := ReportFor(files, fileName);
        error == rep.error && State() == AfterReport(old(State()), rep)
    {
      ghost var rep := ReportFor(files, fileName);
      if fileName !in files {
        return Some(FileNotLoaded(fileName));
      }
      var doc := files[fileName];
      var project := ShortProjectName(fileName);
      var summary := ReadSummary(doc);
      if summary.Err? {
        assert rep == FileReport(project, None, HeaderEntries(project), Some(summary.error));
        log := log + HeaderEntries(project);
        return Some(summary.error);
      }
      var s := summary.value;
      var entries;
      entries, error := LogTestCases(Descendants(doc, "test-case"));
      assert rep == FileReport(project, Some(s), HeaderEntries(project) + CountEntries(s) + entries, error);
      totalFailure, totalIgnore, totalSucceed :=
        Int32.Add(totalFailure, s.fails), Int32.Add(totalIgnore, s.ignores), Int32.Add(totalSucceed, s.passes);
      if s.fails > 0 {
        projectFailures := projectFailures + [(project, s.fails)];
      }
      log := log + (HeaderEntries(project) + CountEntries(s) + entries);
    }

    /** The foreach of GenerateReports over the files, then the summary when none threw. */
    method GenerateReports(files: map<string, Node>, names: seq<string>) returns (error: Option<ReportError>)
      modifies this
      ensures var rs := Reached(names, ReportsIn(files));
        error == LastError(rs) && State() == Finished(old(State()), rs)
    {
      projectFailures := [];
      ghost var start := State();
      var i := 0;
      error := None;
      while i < |names| && error.None?
        invariant 0 <= i <= |names|
        invariant var rs := Reached(names[..i], ReportsIn(files));
          |rs| == i && error == LastError(rs) && State() == AfterReports(start, rs)
      {
        ghost var before := Reached(names[..i], ReportsIn(files));
        ghost var rep := ReportFor(files, names[i]);
        assert ReportsIn(files)(names[i]) == rep;
        ReachedExtends(names, ReportsIn(files), i);
        AfterReportsSnoc(start, before, rep);
        error := GenerateReportFor(files, names[i]);
        if error.None? {
          totalTestProjects := Int32.Add(totalTestProjects, 1);
        }
        i := i + 1;
      }
      if error.Some? {
        ReachedStops(names, ReportsIn(files), i);
      } else {
        assert names[..i] == names;
        GenerateSummaryReport();
      }
    }

    /** The summary: the totals, then each failed project in the order it was listed. */
    method GenerateSummaryReport()
      modifies this`log
      ensures log == old(log) + SummaryLog(totalTestProjects, totalSucceed, totalIgnore, totalFailure, projectFailures)
    {
      log := log + SummaryHead(totalTestProjects, totalSucceed, totalIgnore, totalFailure);
      var i := 0;
      while i < |projectFailures|
        invariant 0 <= i <= |projectFailures|
        invariant log == old(log) + SummaryHead(totalTestProjects, totalSucceed, totalIgnore, totalFailure)
          + FailureLines(projectFailures[..i])
      {
        assert projectFailures[..i + 1][..i] == projectFailures[..i];
        log := log + [LogEntry(High, FailedProject(projectFailures[i].0)), LogEntry(High, FailureCount(projectFailures[i].1))];
        i := i + 1;
      }
      assert projectFailures[..i] == projectFailures;
      log := log + [LogEntry(High, WideBanner)];
    }

    /** Execute: the ';'-separated ReportFiles, each in turn; the task succeeds unless something threw. */
    method Execute(files: map<string, Node>, reportFiles: string) returns (error: Option<ReportError>)
      modifies this
      ensures var rs := Reached(Split(reportFiles, ';'), ReportsIn(files));
        error == LastError(rs) && State() == Finished(old(State()), rs)
    {
      var names := Split(reportFiles, ';');
      error := GenerateReports(files, names);
    }
  }
}
