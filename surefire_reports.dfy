/**
 * Classification of Maven Surefire results (`parse_surefire_reports`).
 *
 * A report directory is the listing of `target/surefire-reports` in the order
 * the file system returns it, each entry already parsed from XML; a missing
 * directory is `None`. A report names its test class, and lists its
 * `<testcase>` elements in document order, each with an optional `name`
 * attribute and optional `<failure>` and `<error>` children.
 */
module SurefireReports {
  import opened Wrappers
  import opened Strings

  /** A `<failure>` or `<error>` element; `text` is absent for an empty element. */
  datatype Marker = Marker(text: Option<string>)

  datatype TestCase = TestCase(name: Option<string>, failure: Option<Marker>, error: Option<Marker>)

  datatype Report = Report(name: Option<string>, cases: seq<TestCase>)

  datatype ReportFile = ReportFile(fileName: string, report: Report)

  type ReportDir = Option<seq<ReportFile>>

  /** The report's `name` attribute, `""` when missing. */
  function ClassName(r: Report): string {
    r.name.GetOr("")
  }

  /** The test case's `name` attribute, `""` when missing. */
  function MethodName(c: TestCase): string {
    c.name.GetOr("")
  }

  /** `f"{class_name}.{method}"` */
  function FullName(cls: string, meth: string): string {
    cls + "." + meth
  }

  /** A case fails when it has a `<failure>` or an `<error>` child. */
  predicate IsFailing(c: TestCase) {
    c.failure.Some? || c.error.Some?
  }

  /** The glob pattern `TEST-*.xml`: a selected name is `TEST-`, any text, then `.xml`. */
  predicate IsReportFile(fileName: string)
    ensures IsReportFile(fileName) ==>
      |fileName| >= 9 && fileName == "TEST-" + fileName[5..|fileName| - 4] + ".xml"
  {
    |fileName| >= 9 && StartsWith(fileName, "TEST-") && EndsWith(fileName, ".xml")
  }

  /** Every name of the form `TEST-*.xml` is selected, whatever stands for the `*`. */
  lemma ReportFileSelected(mid: string)
    ensures IsReportFile("TEST-" + mid + ".xml")
  {
    var f := "TEST-" + mid + ".xml";
    assert f[..5] == "TEST-";
    assert f[|f| - 4..] == ".xml";
  }

  // ---------------------------------------------------------------------
  // What the parse produces, defined case by case in the order it appends.

  /** The `all_tests` entries of one report. */
  function CaseNames(cls: string, cases: seq<TestCase>): seq<string> {
    if cases == [] then []
    else CaseNames(cls, cases[..|cases| - 1]) + [FullName(cls, MethodName(cases[|cases| - 1]))]
  }

  /** The `failing_tests` entries of one report. */
  function CaseFailures(cls: string, cases: seq<TestCase>): seq<(string, string)> {
    if cases == [] then []
    else
      var c := cases[|cases| - 1];
      CaseFailures(cls, cases[..|cases| - 1]) + if IsFailing(c) then [(cls, MethodName(c))] else []
  }

  /** `all_tests` for a directory listing. */
  function AllTests(files: seq<ReportFile>): seq<string> {
    if files == [] then []
    else
      var f := files[|files| - 1];
      AllTests(files[..|files| - 1])
        + if IsReportFile(f.fileName) then CaseNames(ClassName(f.report), f.report.cases) else []
  }

  /** `failing_tests` for a directory listing. */
  function FailingTests(files: seq<ReportFile>): seq<(string, string)> {
    if files == [] then []
    else
      var f := files[|files| - 1];
      FailingTests(files[..|files| - 1])
        + if IsReportFile(f.fileName) then CaseFailures(ClassName(f.report), f.report.cases) else []
  }

  /** The number of test cases in the reports the glob selects. */
  function CaseCount(files: seq<ReportFile>): nat {
    if files == [] then 0
    else
      var f := files[|files| - 1];
      CaseCount(files[..|files| - 1]) + if IsReportFile(f.fileName) then |f.report.cases| else 0
  }

  /** The positions of the failing cases of one report. */
  function FailingPositions(cases: seq<TestCase>): set<nat> {
    set k: nat | k < |cases| && IsFailing(cases[k])
  }

  /** The number of failing test cases in the reports the glob selects. */
  function FailingCaseCount(files: seq<ReportFile>): nat {
    if files == [] then 0
    else
      var f := files[|files| - 1];
      FailingCaseCount(files[..|files| - 1])
        + if IsReportFile(f.fileName) then |FailingPositions(f.report.cases)| else 0
  }

  /** Test case `c` belongs to a selected report whose class name is `cls`. */
  ghost predicate HasCase(files: seq<ReportFile>, cls: string, c: TestCase) {
    exists i :: 0 <= i < |files| && IsReportFile(files[i].fileName)
      && ClassName(files[i].report) == cls && c in files[i].report.cases
  }

  // ---------------------------------------------------------------------
  // The parse itself.

  /**
   * Returns `(failing_tests, all_tests)`: both empty when the directory is
   * missing, otherwise one `all_tests` entry per case and one `failing_tests`
   * entry per failing case, report by report in listing order.
   */
  method ParseSurefireReports(dir: ReportDir) returns (failing: seq<(string, string)>, all: seq<string>)
    ensures dir.None? ==> failing == [] && all == []
    ensures dir.Some? ==> all == AllTests(dir.value) && failing == FailingTests(dir.value)
  {
    if dir.None? {
      return [], [];
    }
    var files := dir.value;
    all, failing := [], [];
    for i := 0 to |files|
      invariant all == AllTests(files[..i])
      invariant failing == FailingTests(files[..i])
    {
      assert files[..i + 1][..i] == files[..i];
      var f := files[i];
      if IsReportFile(f.fileName) {
        var cls := ClassName(f.report);
        var cases := f.report.cases;
        for j := 0 to |cases|
          invariant all == AllTests(files[..i]) + CaseNames(cls, cases[..j])
          invariant failing == FailingTests(files[..i]) + CaseFailures(cls, cases[..j])
        {
          assert cases[..j + 1][..j] == cases[..j];
          var name := MethodName(cases[j]);
          all := all + [FullName(cls, name)];
          if IsFailing(cases[j]) {
            failing := failing + [(cls, name)];
          }
        }
        assert cases[..|cases|] == cases;
      }
    }
    assert files[..|files|] == files;
  }

  // ---------------------------------------------------------------------
  // Properties of the classification.

  /** One report contributes exactly one full name per case, in document order. */
  lemma {:induction false} CaseNamesAt(cls: string, cases: seq<TestCase>)
    ensures |CaseNames(cls, cases)| == |cases|
    ensures forall k :: 0 <= k < |cases| ==> CaseNames(cls, cases)[k] == FullName(cls, MethodName(cases[k]))
    decreases |cases|
  {
    if cases != [] {
      CaseNamesAt(cls, cases[..|cases| - 1]);
    }
  }

  /** One report's failing entries are exactly its failing cases, never more than its cases. */
  lemma {:induction false} CaseFailuresExact(cls: string, cases: seq<TestCase>)
    ensures |CaseFailures(cls, cases)| <= |cases|
    ensures forall p :: p in CaseFailures(cls, cases) <==>
      p.0 == cls && exists c :: c in cases && IsFailing(c) && MethodName(c) == p.1
    decreases |cases|
  {
    if cases != [] {
      var pre := cases[..|cases| - 1];
      var c := cases[|cases| - 1];
      CaseFailuresExact(cls, pre);
      assert cases == pre + [c];
      forall p
        ensures p in CaseFailures(cls, cases) <==>
          p.0 == cls && exists d :: d in cases && IsFailing(d) && MethodName(d) == p.1
      {
        if p.0 == cls && exists d :: d in cases && IsFailing(d) && MethodName(d) == p.1 {
          var d :| d in cases && IsFailing(d) && MethodName(d) == p.1;
          if d != c {
            assert d in pre;
          }
        }
      }
    }
  }

  /**
   * One report's failing entries, position by position: the i-th entry
   * belongs to the i-th failing case in document order, and every failing
   * case has exactly one entry.
   */
  lemma {:induction false} CaseFailuresPositions(cls: string, cases: seq<TestCase>) returns (idx: seq<nat>)
    ensures |idx| == |CaseFailures(cls, cases)|
    ensures forall i, j :: 0 <= i < j < |idx| ==> idx[i] < idx[j]
    ensures forall i :: 0 <= i < |idx| ==>
      idx[i] < |cases| && IsFailing(cases[idx[i]]) && CaseFailures(cls, cases)[i] == (cls, MethodName(cases[idx[i]]))
    ensures forall k :: 0 <= k < |cases| && IsFailing(cases[k]) ==> k in idx
    decreases |cases|
  {
    if cases == [] {
      idx := [];
    } else {
      var n := |cases| - 1;
      var pre := cases[..n];
      var before := CaseFailuresPositions(cls, pre);
      assert forall i :: 0 <= i < |before| ==> cases[before[i]] == pre[before[i]];
      if IsFailing(cases[n]) {
        idx := before + [n];
      } else {
        idx := before;
      }
      forall k | 0 <= k < |cases| && IsFailing(cases[k]) ensures k in idx {
        if k < n {
          assert pre[k] == cases[k];
        }
      }
    }
  }

  /** One report has exactly as many failing entries as failing cases. */
  lemma {:induction false} CaseFailuresCount(cls: string, cases: seq<TestCase>)
    ensures |CaseFailures(cls, cases)| == |FailingPositions(cases)|
    decreases |cases|
  {
    if cases != [] {
      var n := |cases| - 1;
      var pre := cases[..n];
      CaseFailuresCount(cls, pre);
      assert forall k :: 0 <= k < n ==> pre[k] == cases[k];
      if IsFailing(cases[n]) {
        assert FailingPositions(cases) == FailingPositions(pre) + {n};
      } else {
        assert FailingPositions(cases) == FailingPositions(pre);
      }
    }
  }

  /**
   * `failing_tests` has exactly one entry per failing case of the selected
   * reports, and `all_tests` has one more entry for every passing case.
   */
  lemma {:induction false} FailingTestsCount(files: seq<ReportFile>)
    ensures |FailingTests(files)| == FailingCaseCount(files)
    ensures |AllTests(files)| - |FailingTests(files)| == CaseCount(files) - FailingCaseCount(files)
    decreases |files|
  {
    AllTestsCount(files);
    if files != [] {
      var f := files[|files| - 1];
      FailingTestsCount(files[..|files| - 1]);
      CaseFailuresCount(ClassName(f.report), f.report.cases);
    }
  }

  /** Every case of every selected report has its full name in `all_tests`. */
  lemma {:induction false} AllTestsComplete(files: seq<ReportFile>, cls: string, c: TestCase)
    requires HasCase(files, cls, c)
    ensures FullName(cls, MethodName(c)) in AllTests(files)
    decreases |files|
  {
    var pre := files[..|files| - 1];
    var f := files[|files| - 1];
    var i :| 0 <= i < |files| && IsReportFile(files[i].fileName)
      && ClassName(files[i].report) == cls && c in files[i].report.cases;
    if i < |files| - 1 {
      assert pre[i] == files[i];
      AllTestsComplete(pre, cls, c);
    } else {
      var k :| 0 <= k < |f.report.cases| && f.report.cases[k] == c;
      CaseNamesAt(cls, f.report.cases);
      assert CaseNames(cls, f.report.cases)[k] == FullName(cls, MethodName(c));
    }
  }

  /** Every entry of `all_tests` is the full name of some case of a selected report. */
  lemma {:induction false} AllTestsSound(files: seq<ReportFile>, x: string)
    requires x in AllTests(files)
    ensures exists cls, c :: HasCase(files, cls, c) && x == FullName(cls, MethodName(c))
    decreases |files|
  {
    var pre := files[..|files| - 1];
    var f := files[|files| - 1];
    if x in AllTests(pre) {
      AllTestsSound(pre, x);
      var cls, c :| HasCase(pre, cls, c) && x == FullName(cls, MethodName(c));
      var i :| 0 <= i < |pre| && IsReportFile(pre[i].fileName)
        && ClassName(pre[i].report) == cls && c in pre[i].report.cases;
      assert files[i] == pre[i];
      assert HasCase(files, cls, c);
    } else {
      var cls := ClassName(f.report);
      CaseNamesAt(cls, f.report.cases);
      var k :| 0 <= k < |f.report.cases| && CaseNames(cls, f.report.cases)[k] == x;
      var c := f.report.cases[k];
      assert HasCase(files, cls, c);
    }
  }

  /** `all_tests` has exactly as many entries as the selected reports have cases. */
  lemma {:induction false} AllTestsCount(files: seq<ReportFile>)
    ensures |AllTests(files)| == CaseCount(files)
    decreases |files|
  {
    if files != [] {
      var f := files[|files| - 1];
      AllTestsCount(files[..|files| - 1]);
      CaseNamesAt(ClassName(f.report), f.report.cases);
    }
  }

  /**
   * `(cls, m)` is a failing entry exactly when some selected report of class
   * `cls` has a case named `m` with a failure or error marker.
   */
  lemma {:induction false} FailingTestsExact(files: seq<ReportFile>, cls: string, m: string)
    ensures (cls, m) in FailingTests(files) <==>
      exists c :: HasCase(files, cls, c) && IsFailing(c) && MethodName(c) == m
    decreases |files|
  {
    if files != [] {
      var pre := files[..|files| - 1];
      var f := files[|files| - 1];
      FailingTestsExact(pre, cls, m);
      CaseFailuresExact(ClassName(f.report), f.report.cases);
      if (cls, m) in FailingTests(files) {
        if (cls, m) in FailingTests(pre) {
          var c :| HasCase(pre, cls, c) && IsFailing(c) && MethodName(c) == m;
          var i :| 0 <= i < |pre| && IsReportFile(pre[i].fileName)
            && ClassName(pre[i].report) == cls && c in pre[i].report.cases;
          assert files[i] == pre[i];
          assert HasCase(files, cls, c);
        } else {
          var c :| c in f.report.cases && IsFailing(c) && MethodName(c) == m;
          assert HasCase(files, cls, c);
        }
      }
      if exists c :: HasCase(files, cls, c) && IsFailing(c) && MethodName(c) == m {
        var c :| HasCase(files, cls, c) && IsFailing(c) && MethodName(c) == m;
        var i :| 0 <= i < |files| && IsReportFile(files[i].fileName)
          && ClassName(files[i].report) == cls && c in files[i].report.cases;
        if i < |files| - 1 {
          assert pre[i] == files[i];
          assert HasCase(pre, cls, c);
        }
      }
    }
  }

  /**
   * There are never more failing entries than entries, and each failing
   * `(c, m)` has `c + "." + m` among `all_tests`.
   */
  lemma {:induction false} FailingWithinAll(files: seq<ReportFile>)
    ensures |FailingTests(files)| <= |AllTests(files)|
    ensures forall p :: p in FailingTests(files) ==> FullName(p.0, p.1) in AllTests(files)
    decreases |files|
  {
    if files != [] {
      var f := files[|files| - 1];
      FailingWithinAll(files[..|files| - 1]);
      CaseFailuresExact(ClassName(f.report), f.report.cases);
      CaseNamesAt(ClassName(f.report), f.report.cases);
    }
    forall p | p in FailingTests(files)
      ensures FullName(p.0, p.1) in AllTests(files)
    {
      FailingTestsExact(files, p.0, p.1);
      var c :| HasCase(files, p.0, c) && IsFailing(c) && MethodName(c) == p.1;
      AllTestsComplete(files, p.0, c);
    }
  }
}
