/**
 * A run of GenerateNUnitReports over two result files, one in the NUnit
 * dialect (`skipped`) and one in the unit++ dialect (`not-run`): the totals,
 * the project count and the list of failed projects it ends with.
 */
module ReportScenario {
  import opened Wrappers
  import opened Text
  import Int32
  import opened XmlTree
  import opened GenerateNUnitReports

  /** A result file stating total, failures and no errors, with its ignore count under ignoreAttr; its suite has no time. */
  function CountsReport(total: nat, failures: nat, ignoreAttr: string, ignores: nat): Node
    requires total <= Int32.Max && failures <= Int32.Max && ignores <= Int32.Max
  {
    Element("test-results",
      map["total" := Int32.IntToString(total), "failures" := Int32.IntToString(failures),
          "errors" := Int32.IntToString(0), ignoreAttr := Int32.IntToString(ignores)],
      [Element("test-suite", map[], [])])
  }

  /** The attributes of such a file, as the aggregator looks them up. */
  lemma CountsReportAttrs(total: nat, failures: nat, ignoreAttr: string, ignores: nat)
    requires total <= Int32.Max && failures <= Int32.Max && ignores <= Int32.Max
    requires ignoreAttr == "skipped" || ignoreAttr == "not-run"
    ensures var doc := CountsReport(total, failures, ignoreAttr, ignores);
      Attr(doc, "total") == Some(Int32.IntToString(total))
      && Attr(doc, "failures") == Some(Int32.IntToString(failures))
      && Attr(doc, "errors") == Some(Int32.IntToString(0))
      && Attr(doc, ignoreAttr) == Some(Int32.IntToString(ignores))
      && Attr(doc, "ignored") == None
      && (ignoreAttr == "not-run" ==> Attr(doc, "skipped") == None)
  {
  }

  /** The ignore count of such a file is the one its dialect states. */
  lemma CountsReportIgnores(total: nat, failures: nat, ignoreAttr: string, ignores: nat)
    requires total <= Int32.Max && failures <= Int32.Max && ignores <= Int32.Max
    requires ignoreAttr == "skipped" || ignoreAttr == "not-run"
    ensures IgnoreCount(CountsReport(total, failures, ignoreAttr, ignores)) == Ok(ignores)
  {
    var doc := CountsReport(total, failures, ignoreAttr, ignores);
    CountsReportAttrs(total, failures, ignoreAttr, ignores);
    ReadCountOf(doc, ignoreAttr, ignores);
  }

  /** Such a file reads as its counts, whichever dialect states the ignores, with time "0". */
  lemma CountsReportSummary(total: nat, failures: nat, ignoreAttr: string, ignores: nat)
    requires total <= Int32.Max && failures <= Int32.Max && ignores <= Int32.Max
    requires ignoreAttr == "skipped" || ignoreAttr == "not-run"
    ensures ReadSummary(CountsReport(total, failures, ignoreAttr, ignores))
         == Ok(Summary("0", failures, ignores, Int32.Sub(Int32.Sub(total, failures), ignores)))
  {
    var doc := CountsReport(total, failures, ignoreAttr, ignores);
    CountsReportAttrs(total, failures, ignoreAttr, ignores);
    ReadCountOf(doc, "total", total);
    ReadCountOf(doc, "failures", failures);
    ReadCountOf(doc, "errors", 0);
    CountsReportIgnores(total, failures, ignoreAttr, ignores);
    assert ChildElements(doc.children, "test-suite") == [Element("test-suite", map[], [])] by {
      assert doc.children[1..] == [];
    }
    ReadSummaryOf(doc, failures, 0, ignores, total);
  }

  /** Such a file holds no test case. */
  lemma CountsReportHasNoCases(total: nat, failures: nat, ignoreAttr: string, ignores: nat)
    requires total <= Int32.Max && failures <= Int32.Max && ignores <= Int32.Max
    ensures Descendants(CountsReport(total, failures, ignoreAttr, ignores), "test-case") == []
  {
    var suite := Element("test-suite", map[], []);
    assert Descendants(suite, "test-case") == [] by {
      assert DescendantsAll([], "test-case") == [];
    }
    assert DescendantsAll([suite], "test-case") == [] by {
      assert [suite][1..] == [];
    }
  }

  /** Read as "<dir>/<project>-nunit-output.xml", such a file reports under <project> and completes. */
  lemma CountsReportRead(files: map<string, Node>, project: string,
                         total: nat, failures: nat, ignoreAttr: string, ignores: nat)
    requires total <= Int32.Max && failures <= Int32.Max && ignores <= Int32.Max
    requires ignoreAttr == "skipped" || ignoreAttr == "not-run"
    requires '-' !in project && forall i :: 0 <= i < |project| ==> !Paths.IsSeparator(project[i])
    requires var name := "out" + "/" + project + "-" + "nunit-output" + ".xml";
      name in files && files[name] == CountsReport(total, failures, ignoreAttr, ignores)
    ensures var name := "out" + "/" + project + "-" + "nunit-output" + ".xml";
      var s := Summary("0", failures, ignores, Int32.Sub(Int32.Sub(total, failures), ignores));
      ReportFor(files, name) == FileReport(project, Some(s), HeaderEntries(project) + CountEntries(s), None)
  {
    var name := "out" + "/" + project + "-" + "nunit-output" + ".xml";
    var s := Summary("0", failures, ignores, Int32.Sub(Int32.Sub(total, failures), ignores));
    ShortProjectNameOfConvention("out", project, "nunit-output");
    CountsReportSummary(total, failures, ignoreAttr, ignores);
    CountsReportHasNoCases(total, failures, ignoreAttr, ignores);
    assert WalkWith([], CaseEntries) == Walk([], None);
    assert HeaderEntries(project) + CountEntries(s) + [] == HeaderEntries(project) + CountEntries(s);
  }

  const FileA := "out" + "/" + "A" + "-" + "nunit-output" + ".xml"
  const FileB := "out" + "/" + "B" + "-" + "nunit-output" + ".xml"

  /** Project A: 10 tests, 1 failure, 2 skipped. Project B: 5 tests, none failed, 1 not run. */
  function ScenarioFiles(): map<string, Node>
  {
    map[FileA := CountsReport(10, 1, "skipped", 2), FileB := CountsReport(5, 0, "not-run", 1)]
  }

  function ReportA(): FileReport
  {
    var s := Summary("0", 1, 2, 7);
    FileReport("A", Some(s), HeaderEntries("A") + CountEntries(s), None)
  }

  function ReportB(): FileReport
  {
    var s := Summary("0", 0, 1, 4);
    FileReport("B", Some(s), HeaderEntries("B") + CountEntries(s), None)
  }

  /** ReportFiles names A, then B. */
  lemma ScenarioNames()
    ensures Split(FileA + ";" + FileB, ';') == [FileA, FileB]
  {
    assert Join([FileA, FileB], ';') == FileA + ";" + FileB by {
      assert [FileA, FileB][1..] == [FileB];
    }
    SplitJoin([FileA, FileB], ';');
  }

  /** Each file reports under its project and completes. */
  lemma ScenarioReports()
    ensures ReportFor(ScenarioFiles(), FileA) == ReportA()
    ensures ReportFor(ScenarioFiles(), FileB) == ReportB()
  {
    var files := ScenarioFiles();
    assert FileA != FileB by {
      assert FileA[4] == 'A' && FileB[4] == 'B';
    }
    CountsReportRead(files, "A", 10, 1, "skipped", 2);
    CountsReportRead(files, "B", 5, 0, "not-run", 1);
  }

  /** Both files are read to the end, A first. */
  lemma ScenarioReached()
    ensures Reached([FileA, FileB], ReportsIn(ScenarioFiles())) == [ReportA(), ReportB()]
  {
    var files := ScenarioFiles();
    ScenarioReports();
    assert ReportsIn(files)(FileA) == ReportA() && ReportsIn(files)(FileB) == ReportB();
    var names := [FileA, FileB];
    assert names[..0] == [] && names[..1] == [FileA] && names[..2] == names;
    ReachedExtends(names, ReportsIn(files), 0);
    ReachedExtends(names, ReportsIn(files), 1);
  }

  /**
   * The run from fresh fields: two projects, 11 passed, 3 ignored, 1 failure,
   * and only A listed as failed, with its one failure.
   */
  lemma ScenarioFinished()
    ensures var q := Finished(Progress(0, 0, 0, 0, [], []),
                              Reached(Split(FileA + ";" + FileB, ';'), ReportsIn(ScenarioFiles())));
      q.projects == 2 && q.succeed == 11 && q.ignore == 3 && q.failure == 1 && q.failures == [("A", 1)]
  {
    ScenarioNames();
    ScenarioReached();
    var rs := [ReportA(), ReportB()];
    FinishedSums(Progress(0, 0, 0, 0, [], []), [FileA, FileB], ReportsIn(ScenarioFiles()));
    assert rs[..1] == [ReportA()] && rs[..1][..0] == [];
    assert TallyOf(rs) == Tally(11, 1, 3);
    assert FailedProjects(rs) == [("A", 1)] by {
      FailedProjectsAppend([ReportA()], [ReportB()]);
      assert [ReportA()] + [ReportB()] == rs;
      assert [ReportA()][..0] == [] && [ReportB()][..0] == [];
    }
  }

  /** The task itself, run over the two files: the fields it ends with. */
  method ScenarioRun() returns (projects: int, passed: int, ignored: int, failed: int,
                                failures: seq<(string, int)>, error: Option<ReportError>)
    ensures error == None
    ensures projects == 2 && passed == 11 && ignored == 3 && failed == 1 && failures == [("A", 1)]
  {
    var task := new ReportAggregator();
    error := task.Execute(ScenarioFiles(), FileA + ";" + FileB);
    ScenarioNames();
    ScenarioReached();
    ScenarioFinished();
    projects, passed, ignored, failed := task.totalTestProjects, task.totalSucceed, task.totalIgnore, task.totalFailure;
    failures := task.projectFailures;
  }
}
