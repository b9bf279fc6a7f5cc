/**
 * The repair loop of `fix_failing_tests`.
 *
 * For each failing `(class, method)` record it locates the test source,
 * reads it and the source of the class under test, extracts the failure
 * text from the Surefire report, and asks the code-generation oracle for a
 * replacement at most three times, writing the first usable reply over the
 * test file.
 *
 * The working tree is a map from paths to file contents; the oracle is the
 * sequence of its replies in call order (`None` for a call that raised), so
 * the n-th call anywhere in the run receives reply n. Every call is logged
 * with the request it carried.
 */
module TestRepair {
  import opened Wrappers
  import opened Strings
  import opened SurefireReports
  import opened SourceLookup

  /** Oracle calls allowed per failing record. */
  const MaxAttempts: nat := 3

  type Files = map<FilePath, string>

  /** The inputs `fix_failing_tests` reads besides the working tree. */
  datatype Project = Project(testWalk: seq<WalkEntry>, mainWalk: seq<WalkEntry>, reports: ReportDir)

  /** What one oracle call is given: test source, source under test, failure text. */
  datatype Request = Request(testCode: string, mainCode: string, errorMessage: string)

  /** How one failing record ended. `Fixed(k)`: the k-th call gave a usable reply. */
  datatype Outcome = Skipped | Fixed(attempts: nat) | Exhausted

  /** Working tree, oracle calls so far, and one outcome per record handled. */
  datatype Progress = Progress(files: Files, calls: seq<Request>, outcomes: seq<Outcome>)

  // ---------------------------------------------------------------------
  // Reading files.

  /** Every file a walk lists can be read from the working tree. */
  ghost predicate WalkReadable(walk: seq<WalkEntry>, files: Files) {
    forall k, n :: 0 <= k < |walk| && n in walk[k].files ==> FilePath(walk[k].root, n) in files
  }

  ghost predicate Readable(p: Project, files: Files) {
    WalkReadable(p.testWalk, files) && WalkReadable(p.mainWalk, files)
  }

  /** What a walk finds can be read. */
  lemma FoundIsReadable(walk: seq<WalkEntry>, target: string, files: Files)
    requires WalkReadable(walk, files)
    ensures FirstMatch(walk, target).Some? ==> FirstMatch(walk, target).value in files
  {
    FirstMatchIsFirst(walk, target);
  }

  /** The file name of the class under test: the test class's simple name without its test suffix. */
  function SubjectFileName(cls: string): string {
    JavaFileName(StripTestSuffix(LastSegment(cls, '.')))
  }

  /**
   * The source of the class under test: the contents of the first file in
   * walk order of the main tree named after it, `""` when there is none.
   */
  function MainCode(p: Project, files: Files, cls: string): (r: string)
    requires Readable(p, files)
    ensures var w, t := p.mainWalk, SubjectFileName(cls);
      (forall k :: 0 <= k < |w| ==> t !in w[k].files) ==> r == ""
    ensures var w, t := p.mainWalk, SubjectFileName(cls);
      forall k :: 0 <= k < |w| && t in w[k].files && (forall k' :: 0 <= k' < k ==> t !in w[k'].files)
        ==> FilePath(w[k].root, t) in files && r == files[FilePath(w[k].root, t)]
  {
    var target := SubjectFileName(cls);
    FoundIsReadable(p.mainWalk, target, files);
    FirstMatchIsFirst(p.mainWalk, target);
    match FirstMatch(p.mainWalk, target)
    case None => ""
    case Some(f) => files[f]
  }

  // ---------------------------------------------------------------------
  // The failure text.

  /** The report file `TEST-{class}.xml`, when the report directory holds one. */
  function ReportFor(dir: ReportDir, cls: string): Option<Report> {
    if dir.None? then None else FindReport(dir.value, "TEST-" + cls + ".xml")
  }

  function FindReport(files: seq<ReportFile>, fileName: string): Option<Report> {
    if files == [] then None
    else if files[0].fileName == fileName then Some(files[0].report)
    else FindReport(files[1..], fileName)
  }

  /** `marker.text or ""` */
  function MarkerText(m: Marker): string {
    m.text.GetOr("")
  }

  /**
   * The text a case contributes: its failure text in preference to its error
   * text; nothing when it has neither marker.
   */
  function CaseMessage(c: TestCase): Option<string> {
    if c.failure.Some? then Some(MarkerText(c.failure.value))
    else if c.error.Some? then Some(MarkerText(c.error.value))
    else None
  }

  /** The message left after scanning `cases` for method `m`. */
  function MessageFrom(cases: seq<TestCase>, m: string): string {
    if cases == [] then ""
    else
      var c := cases[|cases| - 1];
      if MethodName(c) == m && CaseMessage(c).Some? then CaseMessage(c).value
      else MessageFrom(cases[..|cases| - 1], m)
  }

  function ErrorMessageOf(dir: ReportDir, cls: string, m: string): string {
    match ReportFor(dir, cls)
    case None => ""
    case Some(r) => MessageFrom(r.cases, m)
  }

  /**
   * The scan keeps no match at all as `""`, and otherwise yields the text of
   * the last case named `m` that carries a failure or an error marker.
   */
  lemma {:induction false} MessageFromIsLastMarked(cases: seq<TestCase>, m: string)
    ensures (forall k :: 0 <= k < |cases| ==> MethodName(cases[k]) != m || CaseMessage(cases[k]).None?)
      ==> MessageFrom(cases, m) == ""
    ensures forall k ::
              0 <= k < |cases| && MethodName(cases[k]) == m && CaseMessage(cases[k]).Some?
              && (forall k' :: k < k' < |cases| ==> MethodName(cases[k']) != m || CaseMessage(cases[k']).None?)
              ==> MessageFrom(cases, m) == CaseMessage(cases[k]).value
    decreases |cases|
  {
    if cases != [] {
      var pre := cases[..|cases| - 1];
      MessageFromIsLastMarked(pre, m);
      assert forall k :: 0 <= k < |pre| ==> pre[k] == cases[k];
    }
  }

  /**
   * The failure text of a record: `""` when the report directory has no
   * `TEST-{class}.xml` or no case of that name carries a marker; otherwise,
   * for the last case named `m` that carries one, its `<failure>` text in
   * preference to its `<error>` text, an empty element giving `""`.
   */
  lemma ErrorMessageOfSpec(dir: ReportDir, cls: string, m: string)
    ensures ReportFor(dir, cls).None? ==> ErrorMessageOf(dir, cls, m) == ""
    ensures ReportFor(dir, cls).Some? ==>
      var cases := ReportFor(dir, cls).value.cases;
      && ((forall k :: 0 <= k < |cases| && MethodName(cases[k]) == m ==>
             cases[k].failure.None? && cases[k].error.None?)
          ==> ErrorMessageOf(dir, cls, m) == "")
      && forall k :: 0 <= k < |cases| && MethodName(cases[k]) == m && IsFailing(cases[k])
           && (forall k' :: k < k' < |cases| ==> MethodName(cases[k']) != m || !IsFailing(cases[k']))
           ==> ErrorMessageOf(dir, cls, m) ==
                 if cases[k].failure.Some? then cases[k].failure.value.text.GetOr("")
                 else cases[k].error.value.text.GetOr("")
  {
    if ReportFor(dir, cls).Some? {
      MessageFromIsLastMarked(ReportFor(dir, cls).value.cases, m);
    }
  }

  /**
   * `error_message` for one failing record: `""` unless the report file of
   * its class exists, else the text of the last case of that name carrying
   * a marker, the failure text in preference to the error text.
   */
  method ErrorMessage(dir: ReportDir, cls: string, m: string) returns (msg: string)
    ensures msg == ErrorMessageOf(dir, cls, m)
  {
    msg := "";
    var report := ReportFor(dir, cls);
    if report.Some? {
      var cases := report.value.cases;
      for j := 0 to |cases|
        invariant msg == MessageFrom(cases[..j], m)
      {
        assert cases[..j + 1][..j] == cases[..j];
        if MethodName(cases[j]) == m {
          var failure, error := cases[j].failure, cases[j].error;
          if failure.Some? {
            msg := MarkerText(failure.value);
          } else if error.Some? {
            msg := MarkerText(error.value);
          }
        }
      }
      assert cases[..|cases|] == cases;
    }
  }

  // ---------------------------------------------------------------------
  // The oracle.

  /** The reply to call number `n`; calls past the given replies raise. */
  function ReplyAt(replies: seq<Option<string>>, n: nat): Option<string> {
    if n < |replies| then replies[n] else None
  }

  /**
   * `fixed_code and "class" in fixed_code`: a reply that raised is never
   * usable, and the emptiness test adds nothing to the `"class"` test.
   */
  predicate Usable(reply: Option<string>)
    ensures Usable(reply) <==> reply.Some? && Contains(reply.value, "class")
  {
    reply.Some? && reply.value != "" && Contains(reply.value, "class")
  }

  /** Offset of the first usable reply among calls `start` .. `start + bound - 1`. */
  function FirstUsable(replies: seq<Option<string>>, start: nat, bound: nat): (r: Option<nat>)
    ensures r.Some? ==> r.value < bound && Usable(ReplyAt(replies, start + r.value))
    decreases bound
  {
    if bound == 0 then None
    else if Usable(ReplyAt(replies, start)) then Some(0)
    else match FirstUsable(replies, start + 1, bound - 1)
      case None => None
      case Some(k) => Some(k + 1)
  }

  /** `FirstUsable` finds the earliest usable reply, and finds none only when there is none. */
  lemma {:induction false} FirstUsableIsFirst(replies: seq<Option<string>>, start: nat, bound: nat)
    ensures FirstUsable(replies, start, bound).None? <==>
      forall j :: start <= j < start + bound ==> !Usable(ReplyAt(replies, j))
    ensures FirstUsable(replies, start, bound).Some? ==>
      forall j :: start <= j < start + FirstUsable(replies, start, bound).value ==> !Usable(ReplyAt(replies, j))
    decreases bound
  {
    if bound > 0 && !Usable(ReplyAt(replies, start)) {
      FirstUsableIsFirst(replies, start + 1, bound - 1);
    }
  }

  // ---------------------------------------------------------------------
  // One record, and all records.

  function Repeat(req: Request, n: nat): (r: seq<Request>)
    ensures |r| == n && forall i :: 0 <= i < n ==> r[i] == req
  {
    seq(n, _ => req)
  }

  /** The effect of handling one failing record `(cls, m)`. */
  function RepairRecord(p: Project, s: Progress, replies: seq<Option<string>>, rec: (string, string)): (r: Progress)
    requires Readable(p, s.files)
    ensures r.files.Keys == s.files.Keys
  {
    var (cls, m) := rec;
    var target := JavaFileName(cls);
    FoundIsReadable(p.testWalk, target, s.files);
    match FirstMatch(p.testWalk, target)
    case None => s.(outcomes := s.outcomes + [Skipped])
    case Some(testFile) =>
      var req := Request(s.files[testFile], MainCode(p, s.files, cls), ErrorMessageOf(p.reports, cls, m));
      match FirstUsable(replies, |s.calls|, MaxAttempts)
      case Some(k) =>
        Progress(s.files[testFile := ReplyAt(replies, |s.calls| + k).value],
                 s.calls + Repeat(req, k + 1), s.outcomes + [Fixed(k + 1)])
      case None =>
        Progress(s.files, s.calls + Repeat(req, MaxAttempts), s.outcomes + [Exhausted])
  }

  /** The effect of handling `recs` in order. */
  function RepairAll(p: Project, s: Progress, replies: seq<Option<string>>, recs: seq<(string, string)>): (r: Progress)
    requires Readable(p, s.files)
    ensures r.files.Keys == s.files.Keys
  {
    if recs == [] then s
    else
      var prev := RepairAll(p, s, replies, recs[..|recs| - 1]);
      assert Readable(p, prev.files);
      RepairRecord(p, prev, replies, recs[|recs| - 1])
  }

  /**
   * The retry loop of `fix_failing_tests`: calls the oracle with `req` until
   * the first usable reply, at most three times. Returns the call log and the
   * offset of the usable reply among this record's calls, if any.
   */
  method AskOracle(req: Request, callsBefore: seq<Request>, replies: seq<Option<string>>)
    returns (calls: seq<Request>, fixedAt: Option<nat>)
    ensures fixedAt == FirstUsable(replies, |callsBefore|, MaxAttempts)
    ensures calls == callsBefore + Repeat(req, if fixedAt.Some? then fixedAt.value + 1 else MaxAttempts)
  {
    calls := callsBefore;
    ghost var start := |calls|;
    FirstUsableIsFirst(replies, start, MaxAttempts);
    for attempt := 0 to MaxAttempts
      invariant calls == callsBefore + Repeat(req, attempt)
      invariant forall j :: start <= j < start + attempt ==> !Usable(ReplyAt(replies, j))
    {
      calls := calls + [req];
      var fixedCode := ReplyAt(replies, |calls| - 1);
      if Usable(fixedCode) {
        assert FirstUsable(replies, start, MaxAttempts) == Some(attempt);
        return calls, Some(attempt);
      }
    }
    return calls, None;
  }

  /**
   * The body of `fix_failing_tests` for one failing record `(cls, m)`:
   * returns the working tree and the oracle-call log afterwards, and how
   * the record ended.
   */
  method FixRecord(p: Project, files: Files, callsBefore: seq<Request>, replies: seq<Option<string>>, cls: string, m: string)
    returns (tree: Files, calls: seq<Request>, outcome: Outcome)
    requires Readable(p, files)
    ensures forall os :: Progress(tree, calls, os + [outcome]) == RepairRecord(p, Progress(files, callsBefore, os), replies, (cls, m))
  {
    tree, calls := files, callsBefore;
    var testFile := FindJavaFile(cls, p.testWalk);
    if testFile.None? {
      return tree, calls, Skipped;
    }
    FoundIsReadable(p.testWalk, JavaFileName(cls), tree);
    var testCode := tree[testFile.value];
    var mainFile := GetClassUnderTest(LastSegment(cls, '.'), p.mainWalk);
    FoundIsReadable(p.mainWalk, SubjectFileName(cls), tree);
    var mainCode := if mainFile.Some? then tree[mainFile.value] else "";
    var errorMessage := ErrorMessage(p.reports, cls, m);
    var req := Request(testCode, mainCode, errorMessage);
    var fixedAt;
    calls, fixedAt := AskOracle(req, calls, replies);
    match fixedAt
    case Some(k) =>
      tree := tree[testFile.value := ReplyAt(replies, |callsBefore| + k).value];
      return tree, calls, Fixed(k + 1);
    case None =>
      return tree, calls, Exhausted;
  }

  /**
   * `fix_failing_tests`: handles the failing records in order and returns
   * the working tree afterwards, the oracle calls made and each record's outcome.
   */
  method FixFailingTests(p: Project, files: Files, replies: seq<Option<string>>, failing: seq<(string, string)>)
    returns (tree: Files, calls: seq<Request>, outcomes: seq<Outcome>)
    requires Readable(p, files)
    ensures Progress(tree, calls, outcomes) == RepairAll(p, Progress(files, [], []), replies, failing)
  {
    tree, calls, outcomes := files, [], [];
    for i := 0 to |failing|
      invariant Readable(p, tree)
      invariant Progress(tree, calls, outcomes) == RepairAll(p, Progress(files, [], []), replies, failing[..i])
    {
      assert failing[..i + 1][..i] == failing[..i];
      var (cls, m) := failing[i];
      var outcome;
      tree, calls, outcome := FixRecord(p, tree, calls, replies, cls, m);
      outcomes := outcomes + [outcome];
    }
    assert failing[..|failing|] == failing;
  }

  // ---------------------------------------------------------------------
  // What the loop guarantees.

  /** Oracle calls a record with this outcome made. */
  function CallsFor(o: Outcome): nat {
    match o
    case Skipped => 0
    case Fixed(k) => k
    case Exhausted => MaxAttempts
  }

  /** One record adds one outcome and as many calls as that outcome accounts for, at most three. */
  lemma RepairRecordCounts(p: Project, s: Progress, replies: seq<Option<string>>, rec: (string, string))
    requires Readable(p, s.files)
    ensures var r := RepairRecord(p, s, replies, rec);
      && r.outcomes == s.outcomes + [r.outcomes[|s.outcomes|]]
      && var o := r.outcomes[|s.outcomes|];
      && |r.calls| == |s.calls| + CallsFor(o)
      && CallsFor(o) <= MaxAttempts
      && (o == Skipped <==> FirstMatch(p.testWalk, JavaFileName(rec.0)).None?)
  {
    FirstUsableIsFirst(replies, |s.calls|, MaxAttempts);
  }

  /**
   * One record: it is skipped, with no oracle call and no write, exactly when
   * its test file is not found; otherwise the oracle is called with the same
   * request (current test source, source under test, failure text) until
   * the first usable reply, at most three times; a usable reply is written
   * over the test file and nothing else changes; with none, the tree is
   * left unchanged.
   */
  lemma RepairRecordSpec(p: Project, s: Progress, replies: seq<Option<string>>, cls: string, m: string)
    requires Readable(p, s.files)
    ensures var r := RepairRecord(p, s, replies, (cls, m));
      var testFile := FirstMatch(p.testWalk, JavaFileName(cls));
      var n := |s.calls|;
      && (testFile.Some? ==> testFile.value in s.files)
      && |r.outcomes| == |s.outcomes| + 1 && r.outcomes[..|s.outcomes|] == s.outcomes
      && var o := r.outcomes[|s.outcomes|];
      && |r.calls| == n + CallsFor(o) && r.calls[..n] == s.calls
      && CallsFor(o) <= MaxAttempts
      && (o == Skipped <==> testFile.None?)
      && (o == Skipped ==> r.files == s.files)
      && (testFile.Some? ==>
            forall j :: n <= j < |r.calls| ==>
              r.calls[j] == Request(s.files[testFile.value], MainCode(p, s.files, cls), ErrorMessageOf(p.reports, cls, m)))
      && (o.Fixed? ==>
            && 1 <= o.attempts
            && Usable(ReplyAt(replies, n + o.attempts - 1))
            && (forall j :: n <= j < n + o.attempts - 1 ==> !Usable(ReplyAt(replies, j)))
            && r.files == s.files[testFile.value := ReplyAt(replies, n + o.attempts - 1).value])
      && (o == Exhausted ==>
            && (forall j :: n <= j < n + MaxAttempts ==> !Usable(ReplyAt(replies, j)))
            && r.files == s.files)
  {
    FoundIsReadable(p.testWalk, JavaFileName(cls), s.files);
    FirstUsableIsFirst(replies, |s.calls|, MaxAttempts);
  }

  /** Total oracle calls of a sequence of outcomes. */
  function TotalCalls(os: seq<Outcome>): nat {
    if os == [] then 0 else TotalCalls(os[..|os| - 1]) + CallsFor(os[|os| - 1])
  }

  /**
   * All records: one outcome per record, in order, and a record is skipped
   * exactly when its test file is not found.
   */
  lemma {:induction false} RepairAllOutcomes(p: Project, s: Progress, replies: seq<Option<string>>, recs: seq<(string, string)>)
    requires Readable(p, s.files) && s.outcomes == []
    ensures var r := RepairAll(p, s, replies, recs);
      |r.outcomes| == |recs| && SkipsMatch(p.testWalk, recs, r.outcomes)
    decreases |recs|
  {
    if recs != [] {
      var pre := recs[..|recs| - 1];
      var prev := RepairAll(p, s, replies, pre);
      RepairAllOutcomes(p, s, replies, pre);
      RepairRecordCounts(p, prev, replies, recs[|recs| - 1]);
      var r := RepairAll(p, s, replies, recs);
      SkipsStep(p.testWalk, recs, prev.outcomes, r.outcomes);
    }
  }

  /** Records are skipped exactly when their test file is missing. */
  ghost predicate SkipsMatch(walk: seq<WalkEntry>, recs: seq<(string, string)>, outcomes: seq<Outcome>)
    requires |outcomes| <= |recs|
  {
    forall i :: 0 <= i < |outcomes| ==>
      (outcomes[i] == Skipped <==> FirstMatch(walk, JavaFileName(recs[i].0)).None?)
  }

  /** One more outcome that matches its record keeps all outcomes matching. */
  lemma SkipsStep(walk: seq<WalkEntry>, recs: seq<(string, string)>, before: seq<Outcome>, after: seq<Outcome>)
    requires |recs| >= 1 && |before| == |recs| - 1
    requires |after| == |recs| && after[..|before|] == before
    requires SkipsMatch(walk, recs[..|recs| - 1], before)
    requires after[|before|] == Skipped <==> FirstMatch(walk, JavaFileName(recs[|before|].0)).None?
    ensures SkipsMatch(walk, recs, after)
  {
    var pre := recs[..|recs| - 1];
    forall i | 0 <= i < |before|
      ensures after[i] == Skipped <==> FirstMatch(walk, JavaFileName(recs[i].0)).None?
    {
      var cls := recs[i].0;
      assert pre[i].0 == cls;
      var missing := FirstMatch(walk, JavaFileName(cls)).None?;
      assert before[i] == Skipped <==> missing;
      assert after[i] == before[i];
    }
  }

  /**
   * All records: the oracle is called exactly as often as the outcomes
   * account for, so at most three times per record.
   */
  lemma {:induction false} RepairAllCalls(p: Project, s: Progress, replies: seq<Option<string>>, recs: seq<(string, string)>)
    requires Readable(p, s.files) && s.outcomes == []
    ensures var r := RepairAll(p, s, replies, recs);
      && |r.calls| == |s.calls| + TotalCalls(r.outcomes)
      && |r.calls| <= |s.calls| + MaxAttempts * |recs|
    decreases |recs|
  {
    if recs != [] {
      var pre := recs[..|recs| - 1];
      var prev := RepairAll(p, s, replies, pre);
      RepairAllCalls(p, s, replies, pre);
      RepairRecordCounts(p, prev, replies, recs[|recs| - 1]);
      var r := RepairAll(p, s, replies, recs);
      assert r.outcomes[..|r.outcomes| - 1] == prev.outcomes;
    }
  }
}
