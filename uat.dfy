/** The UAT phase of src/api.py: for every namespace with a tracking database, the change
    directories the ledger does not name are taken in ascending name order, and the
    `inserts.sql` of each is split into statements and executed as one transaction, committed
    when every statement runs and rolled back otherwise. */
module Uat {
  import opened Yaml
  import opened Sorting
  import opened Store
  import opened Workspace
  import opened Batch

  // ---------------------------------------------------------------------------------------
  // Splitting the SQL text
  // ---------------------------------------------------------------------------------------

  /** Python's `s.split(c)` for a one-character separator: the pieces between the
      separators, so one more piece than there are separators. */
  function Split(s: string, c: char): (r: seq<string>)
    ensures |r| >= 1
    decreases |s|
  {
    if s == [] then [""]
    else
      var rest := Split(s[1..], c);
      if s[0] == c then [""] + rest else [[s[0]] + rest[0]] + rest[1..]
  }

  /** Python's `sep.join(xs)`. */
  function JoinWith(xs: seq<string>, sep: string): string
    decreases |xs|
  {
    if xs == [] then ""
    else if |xs| == 1 then xs[0]
    else xs[0] + sep + JoinWith(xs[1..], sep)
  }

  /** Splitting loses nothing: joining the pieces with the separator gives the text back. */
  lemma {:induction false} SplitJoin(s: string, c: char)
    ensures JoinWith(Split(s, c), [c]) == s
    decreases |s|
  {
    if s != [] {
      var rest := Split(s[1..], c);
      SplitJoin(s[1..], c);
      if s[0] == c {
        assert Split(s, c)[1..] == rest;
      } else {
        var r := Split(s, c);
        assert r[1..] == rest[1..];
        if |rest| == 1 {
          assert JoinWith(r, [c]) == [s[0]] + rest[0];
        } else {
          assert JoinWith(rest, [c]) == rest[0] + [c] + JoinWith(rest[1..], [c]);
          assert JoinWith(r, [c]) == [s[0]] + rest[0] + [c] + JoinWith(rest[1..], [c]);
        }
      }
    }
  }

  /** A piece holds neither the separator nor any character the text does not hold. */
  lemma {:induction false} SplitPieces(s: string, c: char, i: nat, x: char)
    requires i < |Split(s, c)|
    requires x in Split(s, c)[i]
    ensures x != c && x in s
    decreases |s|
  {
    var rest := Split(s[1..], c);
    if s[0] == c {
      SplitPieces(s[1..], c, i - 1, x);
    } else if i == 0 {
      if x != s[0] {
        SplitPieces(s[1..], c, 0, x);
      }
    } else {
      SplitPieces(s[1..], c, i, x);
    }
  }

  /** A character of a joined text comes from one of the parts or from the separator. */
  lemma {:induction false} JoinWithChars(xs: seq<string>, sep: string, x: char)
    requires x in JoinWith(xs, sep)
    ensures x in sep || exists i :: 0 <= i < |xs| && x in xs[i]
    decreases |xs|
  {
    if |xs| > 1 && x !in xs[0] && x !in sep {
      JoinWithChars(xs[1..], sep, x);
      var i :| 0 <= i < |xs[1..]| && x in xs[1..][i];
      assert x in xs[i + 1];
    }
  }

  lemma {:induction false} StripLeftChars(s: string, x: char)
    requires x in StripLeft(s)
    ensures x in s
    decreases |s|
  {
    if |s| > 0 && IsSpace(s[0]) {
      StripLeftChars(s[1..], x);
    }
  }

  lemma {:induction false} StripRightChars(s: string, x: char)
    requires x in StripRight(s)
    ensures x in s
    decreases |s|
  {
    if |s| > 0 && IsSpace(s[|s| - 1]) {
      StripRightChars(s[..|s| - 1], x);
    }
  }

  /** Stripping only removes characters. */
  lemma StripChars(s: string, x: char)
    requires x in Strip(s)
    ensures x in s
  {
    StripRightChars(StripLeft(s), x);
    StripLeftChars(s, x);
  }

  predicate StartsWith(s: string, prefix: string) {
    |prefix| <= |s| && s[..|prefix|] == prefix
  }

  /** A line the cleaning loop keeps: not blank and, once stripped, not a `--` comment. */
  predicate Kept(line: string) {
    Strip(line) != "" && !StartsWith(Strip(line), "--")
  }

  /** `cleaned_lines`: the kept lines, stripped, in order. */
  function CleanLines(lines: seq<string>): seq<string> {
    if lines == [] then []
    else
      var last := lines[|lines| - 1];
      CleanLines(lines[..|lines| - 1]) + (if Kept(last) then [Strip(last)] else [])
  }

  /** The statements of the `;`-separated pieces: each piece stripped, blank ones dropped. */
  function Statements(pieces: seq<string>): seq<string> {
    if pieces == [] then []
    else
      var last := pieces[|pieces| - 1];
      Statements(pieces[..|pieces| - 1]) + (if Strip(last) != "" then [Strip(last)] else [])
  }

  /** The statements of an `inserts.sql` text: its lines without blank and comment lines,
      stripped and joined with spaces, split on `;`, each piece stripped and blank ones
      dropped. */
  function SqlStatements(sql: string): seq<string> {
    Statements(Split(JoinWith(CleanLines(Split(sql, '\n')), " "), ';'))
  }

  /** A cleaned line is a stripped, non-blank, non-comment line of the input, and every such
      line is kept. */
  lemma {:induction false} CleanLinesIff(lines: seq<string>, x: string)
    ensures x in CleanLines(lines) <==> exists l :: l in lines && Kept(l) && Strip(l) == x
    decreases |lines|
  {
    if lines != [] {
      var init := lines[..|lines| - 1];
      CleanLinesIff(init, x);
      assert forall l :: l in lines <==> l in init || l == lines[|lines| - 1];
    }
  }

  /** A statement is a non-blank stripped piece, and every non-blank piece gives one. */
  lemma {:induction false} StatementsIff(pieces: seq<string>, x: string)
    ensures x in Statements(pieces) <==> exists p :: p in pieces && Strip(p) == x && x != ""
    decreases |pieces|
  {
    if pieces != [] {
      var init := pieces[..|pieces| - 1];
      StatementsIff(init, x);
      assert forall p :: p in pieces <==> p in init || p == pieces[|pieces| - 1];
    }
  }

  /** Every statement is non-blank, starts and ends with a non-space character, and holds no
      `;` and no line break: it is a single statement on a single line. */
  lemma SqlStatementsShape(sql: string, x: string)
    requires x in SqlStatements(sql)
    ensures x != "" && !IsSpace(x[0]) && !IsSpace(x[|x| - 1])
    ensures ';' !in x && '\n' !in x
  {
    var lines := Split(sql, '\n');
    var cleaned := CleanLines(lines);
    var joined := JoinWith(cleaned, " ");
    var pieces := Split(joined, ';');
    StatementsIff(pieces, x);
    var p :| p in pieces && Strip(p) == x && x != "";
    var i :| 0 <= i < |pieces| && pieces[i] == p;
    if ';' in x {
      StripChars(p, ';');
      SplitPieces(joined, ';', i, ';');
    }
    if '\n' in x {
      StripChars(p, '\n');
      SplitPieces(joined, ';', i, '\n');
      JoinWithChars(cleaned, " ", '\n');
      var j :| 0 <= j < |cleaned| && '\n' in cleaned[j];
      assert cleaned[j] in cleaned;
      CleanLinesIff(lines, cleaned[j]);
      var l :| l in lines && Kept(l) && Strip(l) == cleaned[j];
      var k :| 0 <= k < |lines| && lines[k] == l;
      StripChars(l, '\n');
      SplitPieces(sql, '\n', k, '\n');
    }
  }

  /** The statement splitting of `process_uat_namespace`: the cleaning loop over the lines,
      then the split. */
  method ReadStatements(sql: string) returns (statements: seq<string>)
    ensures statements == SqlStatements(sql)
  {
    var lines := Split(sql, '\n');
    var cleaned: seq<string> := [];
    for i := 0 to |lines|
      invariant cleaned == CleanLines(lines[..i])
    {
      assert lines[..i + 1][..i] == lines[..i];
      var line := Strip(lines[i]);
      if line != "" && !StartsWith(line, "--") {
        cleaned := cleaned + [line];
      }
    }
    assert lines[..|lines|] == lines;
    statements := Statements(Split(JoinWith(cleaned, " "), ';'));
  }

  // ---------------------------------------------------------------------------------------
  // Executing the changes
  // ---------------------------------------------------------------------------------------

  /** Runs statements in order (`cursor.execute`), stopping at the first that fails. What one
      statement text does to the database is the parameter `run`. */
  function RunAll(st: Store, statements: seq<string>, run: (Store, string) -> Outcome): Outcome
    decreases |statements|
  {
    if statements == [] then Done(st)
    else
      match run(st, statements[0])
      case Failed(e) => Failed(e)
      case Done(st') => RunAll(st', statements[1..], run)
  }

  /** One change of the UAT queue: skipped without `inserts.sql`; otherwise its statements run
      as one transaction, committed (and counted) when all succeed, rolled back when one
      fails. */
  function ExecuteChange(st: Store, d: ChangeDir, run: (Store, string) -> Outcome): (r: (Store, bool))
    ensures !r.1 ==> r.0 == st
  {
    match d.insertsSql
    case None => (st, false)
    case Some(sql) =>
      match RunAll(st, SqlStatements(sql), run)
      case Done(st') => (st', true)
      case Failed(_) => (st, false)
  }

  /** The database and the number of changes executed after a prefix of the queue. */
  datatype Executed = Executed(store: Store, executed: nat)

  function UatStep(e: Executed, d: ChangeDir, run: (Store, string) -> Outcome): Executed {
    var (st', ok) := ExecuteChange(e.store, d, run);
    Executed(st', if ok then e.executed + 1 else e.executed)
  }

  function UatRun(st: Store, queue: seq<ChangeDir>, run: (Store, string) -> Outcome): Executed {
    if queue == [] then Executed(st, 0)
    else UatStep(UatRun(st, queue[..|queue| - 1], run), queue[|queue| - 1], run)
  }

  /** A change that fails (or has no `inserts.sql`) leaves no trace: the rest of the queue
      runs on the database as it was before it, with the same count. */
  lemma {:induction false} FailedChangeLeavesNoTrace(st: Store, d: ChangeDir, rest: seq<ChangeDir>, run: (Store, string) -> Outcome)
    requires !ExecuteChange(st, d, run).1
    ensures UatRun(st, [d] + rest, run) == UatRun(st, rest, run)
    decreases |rest|
  {
    if rest != [] {
      var init := rest[..|rest| - 1];
      FailedChangeLeavesNoTrace(st, d, init, run);
      assert ([d] + rest)[..|[d] + rest| - 1] == [d] + init;
    } else {
      assert UatRun(st, [d], run) == UatStep(UatRun(st, [], run), d, run) by {
        assert [d][..0] == [];
      }
    }
  }

  /** Every change of the queue commits, each on the database its predecessors left. */
  predicate AllCommit(st: Store, queue: seq<ChangeDir>, run: (Store, string) -> Outcome) {
    queue == [] ||
      (AllCommit(st, queue[..|queue| - 1], run)
       && ExecuteChange(UatRun(st, queue[..|queue| - 1], run).store, queue[|queue| - 1], run).1)
  }

  /** No more changes are executed than are queued, and all of them exactly when every one
      commits. */
  lemma {:induction false} UatRunCount(st: Store, queue: seq<ChangeDir>, run: (Store, string) -> Outcome)
    ensures UatRun(st, queue, run).executed <= |queue|
    ensures UatRun(st, queue, run).executed == |queue| <==> AllCommit(st, queue, run)
    decreases |queue|
  {
    if queue != [] {
      UatRunCount(st, queue[..|queue| - 1], run);
    }
  }

  /** The order `new_change_dirs.sort()` puts the directories in: by name. */
  function ByName(a: ChangeDir, b: ChangeDir): bool {
    StrLe(a.name, b.name)
  }

  lemma ByNameTotalPreorder()
    ensures TotalPreorder(ByName)
  {
    StrLeTotalPreorder();
  }

  /** The directories of the `changes` directory (none when it is missing). */
  function ChangeDirectories(env: NsEnv): seq<ChangeDir> {
    if env.changesDirExists then Directories(env.listing) else []
  }

  /** The UAT queue: the directories the ledger does not name, sorted by name. */
  function UatQueue(env: NsEnv): seq<ChangeDir> {
    InsertionSort(Unrecorded(ChangeDirectories(env), env.store.changes.Keys), ByName)
  }

  /** The queue is in ascending name order and holds exactly the directories the ledger does
      not name. */
  lemma UatQueueSpec(env: NsEnv, d: ChangeDir)
    ensures Sorted(UatQueue(env), ByName)
    ensures multiset(UatQueue(env)) == multiset(Unrecorded(ChangeDirectories(env), env.store.changes.Keys))
    ensures d in UatQueue(env) <==> env.changesDirExists && d in env.listing && d.isDir && d.name !in env.store.changes
  {
    var q := Unrecorded(ChangeDirectories(env), env.store.changes.Keys);
    ByNameTotalPreorder();
    InsertionSortSorted(q, ByName);
    assert d in UatQueue(env) <==> d in multiset(q);
    UnrecordedIff(ChangeDirectories(env), env.store.changes.Keys, d);
    if env.changesDirExists {
      DirectoriesIff(env.listing, d);
    }
  }

  datatype UatError = DatabaseMissing

  /** The result of `process_uat_namespace`. The two `found` counts are only reported on
      success; they are `0` here otherwise. */
  datatype UatResult = UatResult(
    namespace: string,
    success: bool,
    error: Option<UatError>,
    changesExecuted: nat,
    exportCreated: bool,
    totalChangesFound: nat,
    newChangesFound: nat)

  /** `process_uat_namespace` as a value: the result and the database afterwards. What the
      export reports for the final database is the parameter `export`. */
  function UatNamespace(ns: string, env: NsEnv, run: (Store, string) -> Outcome, exporter: Store -> bool): (UatResult, Store) {
    if !env.dbExists then (UatResult(ns, false, Some(DatabaseMissing), 0, false, 0, 0), env.store)
    else
      var queue := UatQueue(env);
      var e := UatRun(env.store, queue, run);
      (UatResult(ns, true, None, e.executed, exporter(e.store), |ChangeDirectories(env)|, |queue|), e.store)
  }

  /** A namespace fails exactly when it has no tracking database, and then nothing runs; on
      success the counts are those of the queue. */
  lemma UatNamespaceOutcome(ns: string, env: NsEnv, run: (Store, string) -> Outcome, exporter: Store -> bool)
    ensures var (r, st') := UatNamespace(ns, env, run, exporter);
      && r.namespace == ns
      && (r.success <==> env.dbExists)
      && (r.success <==> r.error.None?)
      && (!r.success ==> r.changesExecuted == 0 && st' == env.store)
      && r.changesExecuted <= r.newChangesFound <= r.totalChangesFound
  {
    if env.dbExists {
      var q := Unrecorded(ChangeDirectories(env), env.store.changes.Keys);
      UatRunCount(env.store, UatQueue(env), run);
      assert |UatQueue(env)| == |q|;
    }
  }

  /** The body of the UAT loop for one change: skip it without `inserts.sql`, else execute
      its statements until one fails, then commit or roll back. */
  method ExecuteChangeDir(st: Store, d: ChangeDir, run: (Store, string) -> Outcome) returns (st': Store, ok: bool)
    ensures (st', ok) == ExecuteChange(st, d, run)
  {
    if d.insertsSql.None? {
      return st, false;
    }
    var statements := ReadStatements(d.insertsSql.value);
    var cur := st;
    ok := true;
    var j := 0;
    while j < |statements| && ok
      invariant 0 <= j <= |statements|
      invariant ok ==> RunAll(st, statements, run) == RunAll(cur, statements[j..], run)
      invariant !ok ==> RunAll(st, statements, run).Failed?
    {
      assert statements[j..] == [statements[j]] + statements[j + 1..];
      match run(cur, statements[j]) {
        case Done(next) =>
          cur := next;
        case Failed(_) =>
          ok := false;
      }
      j := j + 1;
    }
    st' := if ok then cur else st;
  }

  /** `process_uat_namespace` of src/api.py. */
  method ProcessUatNamespace(ns: string, env: NsEnv, run: (Store, string) -> Outcome, exporter: Store -> bool)
    returns (r: UatResult, st': Store)
    ensures (r, st') == UatNamespace(ns, env, run, exporter)
  {
    if !env.dbExists {
      return UatResult(ns, false, Some(DatabaseMissing), 0, false, 0, 0), env.store;
    }
    var dirs := if env.changesDirExists then Directories(env.listing) else [];
    var existing := env.store.changes.Keys;
    var queue := InsertionSort(Unrecorded(dirs, existing), ByName);
    var e := Executed(env.store, 0);
    for i := 0 to |queue|
      invariant e == UatRun(env.store, queue[..i], run)
    {
      UatRunPrefix(env.store, queue, i, run);
      var st1, ok := ExecuteChangeDir(e.store, queue[i], run);
      e := Executed(st1, if ok then e.executed + 1 else e.executed);
    }
    assert queue[..|queue|] == queue;
    r := UatResult(ns, true, None, e.executed, exporter(e.store), |dirs|, |queue|);
    st' := e.store;
  }

  /** One more change of a prefix of the queue is one more step of the run. */
  lemma UatRunPrefix(st: Store, queue: seq<ChangeDir>, i: nat, run: (Store, string) -> Outcome)
    requires i < |queue|
    ensures UatRun(st, queue[..i + 1], run) == UatStep(UatRun(st, queue[..i], run), queue[i], run)
  {
    assert queue[..i + 1][..i] == queue[..i];
  }

  // ---------------------------------------------------------------------------------------
  // The batch
  // ---------------------------------------------------------------------------------------

  function UatReport(r: UatResult): NsReport {
    NsReport(r.namespace, r.success, r.changesExecuted)
  }

  function UatReports(rs: seq<UatResult>): (r: seq<NsReport>)
    ensures |r| == |rs|
    ensures forall i :: 0 <= i < |rs| ==> r[i] == UatReport(rs[i])
  {
    if rs == [] then [] else UatReports(rs[..|rs| - 1]) + [UatReport(rs[|rs| - 1])]
  }

  /** The results of the namespaces, in the order given, each against its own directory. */
  function UatResults(namespaces: seq<string>, env: string -> NsEnv, run: (Store, string) -> Outcome, exporter: Store -> bool)
    : seq<UatResult>
  {
    if namespaces == [] then []
    else
      var ns := namespaces[|namespaces| - 1];
      UatResults(namespaces[..|namespaces| - 1], env, run, exporter) + [UatNamespace(ns, env(ns), run, exporter).0]
  }

  lemma {:induction false} UatResultsAt(namespaces: seq<string>, env: string -> NsEnv, run: (Store, string) -> Outcome, exporter: Store -> bool)
    ensures |UatResults(namespaces, env, run, exporter)| == |namespaces|
    ensures forall i :: 0 <= i < |namespaces| ==>
      UatResults(namespaces, env, run, exporter)[i] == UatNamespace(namespaces[i], env(namespaces[i]), run, exporter).0
    decreases |namespaces|
  {
    if namespaces != [] {
      UatResultsAt(namespaces[..|namespaces| - 1], env, run, exporter);
    }
  }

  lemma UatResultsStep(namespaces: seq<string>, i: nat, env: string -> NsEnv, run: (Store, string) -> Outcome, exporter: Store -> bool)
    requires i < |namespaces|
    ensures UatResults(namespaces[..i + 1], env, run, exporter)
      == UatResults(namespaces[..i], env, run, exporter) + [UatNamespace(namespaces[i], env(namespaces[i]), run, exporter).0]
  {
    assert namespaces[..i + 1][..i] == namespaces[..i];
  }

  /** The batch summary after one more namespace result, as the batch loop tallies it. */
  lemma UatSummaryStep(results: seq<UatResult>, r: UatResult, s: BatchSummary)
    requires s == Summarize(UatReports(results))
    ensures Summarize(UatReports(results + [r])) ==
      if r.success then
        s.(processedNamespaces := s.processedNamespaces + 1, successful := s.successful + [r.namespace],
           totalChanges := s.totalChanges + r.changesExecuted)
      else
        s.(processedNamespaces := s.processedNamespaces + 1, failed := s.failed + [r.namespace],
           totalChanges := s.totalChanges + r.changesExecuted, overallSuccess := false)
  {
    assert UatReports(results + [r]) == UatReports(results) + [UatReport(r)] by {
      assert (results + [r])[..|results|] == results;
    }
    SummarizeAppend(UatReports(results), UatReport(r));
  }

  /** `process_uat_changes` of src/api.py over the namespaces found: each is processed in
      order and the summary tallies `changes_executed`. */
  method ProcessUatChanges(namespaces: seq<string>, env: string -> NsEnv, run: (Store, string) -> Outcome, exporter: Store -> bool)
    returns (summary: BatchSummary, results: seq<UatResult>)
    ensures results == UatResults(namespaces, env, run, exporter)
    ensures summary == Summarize(UatReports(results))
  {
    summary := BatchSummary(0, [], [], 0, true);
    results := [];
    for i := 0 to |namespaces|
      invariant results == UatResults(namespaces[..i], env, run, exporter)
      invariant summary == Summarize(UatReports(results))
    {
      var ns := namespaces[i];
      var r, _ := ProcessUatNamespace(ns, env(ns), run, exporter);
      assert r == UatNamespace(ns, env(ns), run, exporter).0 && r.namespace == ns;
      UatResultsStep(namespaces, i, env, run, exporter);
      UatSummaryStep(results, r, summary);
      if r.success {
        summary := summary.(processedNamespaces := summary.processedNamespaces + 1,
                            successful := summary.successful + [ns],
                            totalChanges := summary.totalChanges + r.changesExecuted);
      } else {
        summary := summary.(processedNamespaces := summary.processedNamespaces + 1,
                            failed := summary.failed + [ns],
                            totalChanges := summary.totalChanges + r.changesExecuted,
                            overallSuccess := false);
      }
      results := results + [r];
    }
    assert namespaces[..|namespaces|] == namespaces;
  }

  /** The UAT batch succeeds exactly when every namespace has a tracking database; the failed
      list names exactly those without one. */
  lemma UatBatchOutcome(namespaces: seq<string>, env: string -> NsEnv, run: (Store, string) -> Outcome, exporter: Store -> bool)
    ensures var s := Summarize(UatReports(UatResults(namespaces, env, run, exporter)));
      && s.processedNamespaces == |namespaces|
      && (s.overallSuccess <==> forall i :: 0 <= i < |namespaces| ==> env(namespaces[i]).dbExists)
      && (forall n :: n in s.failed <==> exists i :: 0 <= i < |namespaces| && namespaces[i] == n && !env(n).dbExists)
  {
    var rs := UatReports(UatResults(namespaces, env, run, exporter));
    UatResultsAt(namespaces, env, run, exporter);
    UatSuccessIff(namespaces, env, run, exporter);
    forall n ensures n in Summarize(rs).failed <==> exists i :: 0 <= i < |namespaces| && namespaces[i] == n && !env(n).dbExists {
      UatFailedAt(namespaces, env, run, exporter, n);
    }
  }

  /** The report of the `i`-th namespace: its name, and success exactly when it has a database. */
  lemma UatReportAt(namespaces: seq<string>, env: string -> NsEnv, run: (Store, string) -> Outcome, exporter: Store -> bool, i: nat)
    requires i < |namespaces|
    ensures var rs := UatReports(UatResults(namespaces, env, run, exporter));
      && |rs| == |namespaces|
      && rs[i].namespace == namespaces[i]
      && (rs[i].success <==> env(namespaces[i]).dbExists)
  {
    UatResultsAt(namespaces, env, run, exporter);
    UatNamespaceOutcome(namespaces[i], env(namespaces[i]), run, exporter);
  }

  /** The batch succeeds exactly when every namespace has a database. */
  lemma UatSuccessIff(namespaces: seq<string>, env: string -> NsEnv, run: (Store, string) -> Outcome, exporter: Store -> bool)
    ensures Summarize(UatReports(UatResults(namespaces, env, run, exporter))).overallSuccess <==>
      forall i :: 0 <= i < |namespaces| ==> env(namespaces[i]).dbExists
  {
    var rs := UatReports(UatResults(namespaces, env, run, exporter));
    UatResultsAt(namespaces, env, run, exporter);
    OverallSuccessIff(rs);
    forall i | 0 <= i < |namespaces| ensures rs[i].success <==> env(namespaces[i]).dbExists {
      UatReportAt(namespaces, env, run, exporter, i);
    }
  }

  /** A name is listed as failed exactly when it is one of the namespaces without a database. */
  lemma UatFailedAt(namespaces: seq<string>, env: string -> NsEnv, run: (Store, string) -> Outcome, exporter: Store -> bool, n: string)
    ensures n in Summarize(UatReports(UatResults(namespaces, env, run, exporter))).failed <==>
      exists i :: 0 <= i < |namespaces| && namespaces[i] == n && !env(n).dbExists
  {
    var rs := UatReports(UatResults(namespaces, env, run, exporter));
    UatResultsAt(namespaces, env, run, exporter);
    SelectIff(rs, false, n);
    if n in Summarize(rs).failed {
      var i :| 0 <= i < |rs| && rs[i].namespace == n && !rs[i].success;
      UatReportAt(namespaces, env, run, exporter, i);
    }
    if exists i :: 0 <= i < |namespaces| && namespaces[i] == n && !env(n).dbExists {
      var i :| 0 <= i < |namespaces| && namespaces[i] == n && !env(n).dbExists;
      UatReportAt(namespaces, env, run, exporter, i);
    }
  }
}
