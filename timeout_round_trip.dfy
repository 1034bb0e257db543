/**
 * The two build tasks meet in the result files: when a run times out, the
 * NUnit task writes a report of its own, which GenerateNUnitReports later
 * reads like any other. These lemmas follow that report through the
 * aggregator.
 */
module TimeoutRoundTrip {
  import opened Wrappers
  import opened Text
  import Int32
  import opened XmlTree
  import opened Logging
  import opened GenerateNUnitReports
  import opened NUnitTask

  /** The count attributes of the synthetic report's root, as Int32.ToString wrote them. */
  lemma TimeoutCountsText(fixture: string, num: Int32.Int, date: string, clock: string)
    ensures var m := TimeoutCounts(fixture, num, date, clock);
      m.Keys >= {"failures", "errors", "skipped", "ignored", "total"}
      && m["failures"] == Int32.IntToString(1) && m["errors"] == Int32.IntToString(0)
      && m["skipped"] == Int32.IntToString(0) && m["ignored"] == Int32.IntToString(0)
      && m["total"] == Int32.IntToString(Int32.Add(num, 1))
  {
    assert Int32.IntToString(0) == "0" && Int32.IntToString(1) == "1";
  }

  /** The counts of the synthetic report read back: one failure, no ignores, one pass per collected test. */
  lemma TimeoutSummary(fixture: string, collected: seq<string>, date: string, clock: string,
                       suiteSeconds: string, caseSeconds: string)
    requires |collected| <= Int32.Max
    requires forall k :: 0 <= k < |collected| ==> StartsWith(collected[k], TestLinePrefix)
    ensures ReadSummary(TimeoutReport(fixture, collected, date, clock, suiteSeconds, caseSeconds))
         == Ok(Summary(suiteSeconds, 1, 0, |collected|))
  {
    var doc := TimeoutReport(fixture, collected, date, clock, suiteSeconds, caseSeconds);
    var num: Int32.Int := |collected|;
    var total := Int32.Add(num, 1);
    TimeoutCountsText(fixture, num, date, clock);
    assert doc.attrs == TimeoutCounts(fixture, num, date, clock);
    ReadCountOf(doc, "failures", 1);
    ReadCountOf(doc, "errors", 0);
    ReadCountOf(doc, "skipped", 0);
    ReadCountOf(doc, "ignored", 0);
    assert IgnoreCount(doc) == Ok(0);
    ReadCountOf(doc, "total", total);
    var suites := ChildElements(doc.children, "test-suite");
    assert suites == [TimeoutSuite(fixture, suiteSeconds, caseSeconds)] by {
      assert doc.children[1..] == [doc.children[1]];
      assert ChildElements(doc.children[1..], "test-suite") == [];
    }
    ReadSummaryOf(doc, 1, 0, 0, total);
    assert Int32.Sub(Int32.Sub(total, 1), 0) == num;
  }

  /** The walk over `//test-case` meets the one Timeout case and nothing else. */
  lemma TimeoutCases(fixture: string, collected: seq<string>, date: string, clock: string,
                     suiteSeconds: string, caseSeconds: string)
    requires |collected| <= Int32.Max
    requires forall k :: 0 <= k < |collected| ==> StartsWith(collected[k], TestLinePrefix)
    ensures Descendants(TimeoutReport(fixture, collected, date, clock, suiteSeconds, caseSeconds), "test-case")
         == [TimeoutCase(caseSeconds)]
  {
    var tc := TimeoutCase(caseSeconds);
    var results := Element("results", map[], [tc]);
    var inner := Element("test-suite", map["name" := "Timeout"], [results]);
    var outerResults := Element("results", map[], [inner]);
    var suite := TimeoutSuite(fixture, suiteSeconds, caseSeconds);
    var doc := TimeoutReport(fixture, collected, date, clock, suiteSeconds, caseSeconds);
    assert Descendants(tc, "test-case") == [tc] by {
      assert DescendantsAll(tc.children, "test-case") == [];
    }
    assert Descendants(results, "test-case") == [tc] by {
      assert DescendantsAll([tc], "test-case") == [tc] + DescendantsAll([], "test-case");
    }
    assert Descendants(inner, "test-case") == [tc] by {
      assert DescendantsAll([results], "test-case") == [tc] + DescendantsAll([], "test-case");
    }
    assert Descendants(outerResults, "test-case") == [tc] by {
      assert DescendantsAll([inner], "test-case") == [tc] + DescendantsAll([], "test-case");
    }
    assert Descendants(suite, "test-case") == [tc] by {
      assert suite.children == [outerResults];
      assert DescendantsAll([outerResults], "test-case") == [tc] + DescendantsAll([], "test-case");
    }
    var comment := doc.children[1];
    assert doc.children == [suite, comment];
    assert DescendantsAll([comment], "test-case") == [] by {
      assert Descendants(comment, "test-case") == [];
      assert [comment][1..] == [];
    }
    assert DescendantsAll(doc.children, "test-case") == [tc] by {
      assert doc.children[1..] == [comment];
    }
  }

  /** The Timeout case logs as a failure, with its time and no message or stack trace. */
  lemma TimeoutCaseEntries(caseSeconds: string)
    ensures CaseEntries(TimeoutCase(caseSeconds)) == Ok(FailureEntries("Timeout", caseSeconds, "", ""))
  {
    var c := TimeoutCase(caseSeconds);
    TimeoutCaseAttrs(caseSeconds);
    TimeoutDisplayName();
    TimeoutCaseHasNoFailureNode(caseSeconds);
    assert CaseResult(c) == Ok("Failure");
    FailureParses();
  }

  /** The Timeout case has no failure element, so its message and stack trace read as "". */
  lemma TimeoutCaseHasNoFailureNode(caseSeconds: string)
    ensures var c := TimeoutCase(caseSeconds);
      ParseCdataNode(SelectSingle(c, ["failure", "message"])) == ""
      && ParseCdataNode(SelectSingle(c, ["failure", "stack-trace"])) == ""
  {
    var c := TimeoutCase(caseSeconds);
    assert ChildElements(c.children, "failure") == [];
    assert SelectAll([c], ["failure", "message"]) == [];
    assert SelectAll([c], ["failure", "stack-trace"]) == [];
  }

  /** The attributes of the Timeout case the aggregator looks up. */
  lemma TimeoutCaseAttrs(caseSeconds: string)
    ensures var c := TimeoutCase(caseSeconds);
      Attr(c, "result") == None && Attr(c, "success") == Some("False")
      && Attr(c, "name") == Some("Timeout") && Attr(c, "time") == Some(caseSeconds)
  {
  }

  lemma FailureParses()
    ensures ParseOutcome("Failure") == Some(Failure)
  {
  }

  lemma TimeoutDisplayName()
    ensures DisplayName("Timeout") == "Timeout"
  {
    SplitOfFree("Timeout", '.');
  }

  /**
   * A timeout report read by the aggregator: the project counts one failure,
   * no ignores and one pass per test tried, logs the Timeout failure after
   * its counts, and raises nothing, so the files after it are still read.
   */
  lemma TimeoutReportRead(files: map<string, Node>, fileName: string, fixture: string, collected: seq<string>,
                          date: string, clock: string, suiteSeconds: string, caseSeconds: string)
    requires |collected| <= Int32.Max
    requires forall k :: 0 <= k < |collected| ==> StartsWith(collected[k], TestLinePrefix)
    requires fileName in files && files[fileName] == TimeoutReport(fixture, collected, date, clock, suiteSeconds, caseSeconds)
    ensures var s := Summary(suiteSeconds, 1, 0, |collected|);
      var project := ShortProjectName(fileName);
      ReportFor(files, fileName)
        == FileReport(project, Some(s),
                      HeaderEntries(project) + CountEntries(s) + FailureEntries("Timeout", caseSeconds, "", ""),
                      None)
  {
    TimeoutSummary(fixture, collected, date, clock, suiteSeconds, caseSeconds);
    TimeoutCases(fixture, collected, date, clock, suiteSeconds, caseSeconds);
    TimeoutCaseEntries(caseSeconds);
    var tc := TimeoutCase(caseSeconds);
    assert WalkWith([tc], CaseEntries) == Walk(FailureEntries("Timeout", caseSeconds, "", ""), None) by {
      assert [tc][..0] == [];
    }
  }
}
