/** The change-processing driver of src/api.py: `process_new_change_files` generates an
    `inserts.sql` for every change directory the ledger does not name and projects each such
    change into `stats.yaml`, without recording anything in the ledger; `process_namespace`
    prepares the namespace (directories, database, seeding from `init_cdb.sqlite`) on every
    run; `process_all_namespaces` aggregates the namespaces. */
module Pipeline {
  import opened Yaml
  import opened Store
  import opened Change
  import opened Reconcile
  import opened Workspace
  import opened Snapshot
  import opened Importer
  import opened Batch
  import ModelDriver

  /** A generated `inserts.sql`: the change it belongs to, its two parts and its count. */
  datatype SqlFile = SqlFile(change: string, step1: seq<Stmt>, step2: seq<Stmt>, count: int)

  /** One entry of `stat_changes`: the projection summary of a processed change. */
  datatype StatChange = StatChange(change: string, summary: ProjSummary)

  /** The file a directory yields against the store: none without a change file or when the
      generator gives up, else the generator's output. */
  function SqlFileOf(st: Store, d: ChangeDir): (r: Option<SqlFile>)
    ensures r.Some? <==> FindChangeFile(d).Some? && Generable(FindChangeFile(d).value)
    ensures r.Some? ==> r.value.change == d.name && r.value.count >= 0
    ensures r.Some? ==> (r.value.step1, r.value.step2, r.value.count) == GenerateSql(st, d.name, FindChangeFile(d).value)
  {
    match FindChangeFile(d)
    case None => None
    case Some(doc) =>
      var g := GenerateSql(st, d.name, doc);
      if g.2 >= 0 then Some(SqlFile(d.name, g.0, g.1, g.2)) else None
  }

  /** `stats.yaml` after a projection: the written mapping, or the file as it was. */
  function StatsAfter(file: Option<Option<Yaml>>, out: Option<Dict>): Option<Option<Yaml>> {
    match out
    case Some(d) => Some(Some(YMap(d)))
    case None => file
  }

  /** The driver's state after some directories of the queue. */
  datatype Gen = Gen(statsFile: Option<Option<Yaml>>, processed: nat, newChanges: int, files: seq<SqlFile>, statChanges: seq<StatChange>)

  function Begin(file: Option<Option<Yaml>>): Gen {
    Gen(file, 0, 0, [], [])
  }

  /** One directory of the queue: skipped when it yields no file; otherwise its file is
      written, the change projected into `stats.yaml`, and both counted. */
  function GenStep(st: Store, g: Gen, d: ChangeDir): Gen {
    match SqlFileOf(st, d)
    case None => g
    case Some(f) =>
      var p := Project(FindChangeFile(d).value, g.statsFile);
      Gen(StatsAfter(g.statsFile, p.1), g.processed + 1, g.newChanges + f.count, g.files + [f],
          g.statChanges + [StatChange(d.name, p.0)])
  }

  function GenRun(st: Store, g: Gen, queue: seq<ChangeDir>): Gen {
    if queue == [] then g else GenStep(st, GenRun(st, g, queue[..|queue| - 1]), queue[|queue| - 1])
  }

  /** The summary `process_new_change_files` of src/api.py returns. */
  datatype GenSummary = GenSummary(processedFiles: nat, newChanges: int, skippedFiles: int, sqlFilesGenerated: nat, statChanges: seq<StatChange>)

  /** `process_new_change_files` of src/api.py as a value: the summary, the files written and
      `stats.yaml` afterwards. Every file is generated against the store as it was when the
      run began, which the run does not change. */
  function GenerateChanges(st: Store, changesDirExists: bool, listing: seq<ChangeDir>, file: Option<Option<Yaml>>)
    : (GenSummary, seq<SqlFile>, Option<Option<Yaml>>)
  {
    if !changesDirExists then (GenSummary(0, 0, 0, 0, []), [], file)
    else
      var g := GenRun(st, Begin(file), Queue(listing, st.changes.Keys));
      (GenSummary(g.processed, g.newChanges, |Directories(listing)| - g.processed, g.processed, g.statChanges), g.files, g.statsFile)
  }

  function SumCounts(fs: seq<SqlFile>): int {
    if fs == [] then 0 else SumCounts(fs[..|fs| - 1]) + fs[|fs| - 1].count
  }

  /** The bookkeeping of a run agrees with its files: one processed file, and one projection
      summary for the same change, per written file; the new-change count sums their counts. */
  predicate Consistent(g: Gen) {
    && g.processed == |g.files| == |g.statChanges|
    && g.newChanges == SumCounts(g.files)
    && (forall i :: 0 <= i < |g.files| ==> g.statChanges[i].change == g.files[i].change && g.files[i].count >= 0)
  }

  lemma StepConsistent(st: Store, g: Gen, d: ChangeDir)
    requires Consistent(g)
    ensures Consistent(GenStep(st, g, d))
  {
    var g' := GenStep(st, g, d);
    if SqlFileOf(st, d).Some? {
      assert g'.files[..|g'.files| - 1] == g.files;
    }
  }

  lemma {:induction false} GenRunConsistent(st: Store, file: Option<Option<Yaml>>, queue: seq<ChangeDir>)
    ensures Consistent(GenRun(st, Begin(file), queue))
    decreases |queue|
  {
    if queue != [] {
      GenRunConsistent(st, file, queue[..|queue| - 1]);
      StepConsistent(st, GenRun(st, Begin(file), queue[..|queue| - 1]), queue[|queue| - 1]);
    }
  }

  /** The files of a run are exactly those the queued directories yield, in queue order; they
      do not depend on `stats.yaml`. */
  lemma {:induction false} GenRunFiles(st: Store, file: Option<Option<Yaml>>, queue: seq<ChangeDir>, f: SqlFile)
    ensures f in GenRun(st, Begin(file), queue).files <==> exists d :: d in queue && SqlFileOf(st, d) == Some(f)
    ensures GenRun(st, Begin(file), queue).files == GenRun(st, Begin(None), queue).files
    decreases |queue|
  {
    if queue != [] {
      var init := queue[..|queue| - 1];
      var last := queue[|queue| - 1];
      GenRunFiles(st, file, init, f);
      assert forall d :: d in queue <==> d in init || d == last;
    }
  }

  /** The summary and files `process_new_change_files` produces: a directory is processed
      when the ledger does not name it, it has a change file and it generates; the skipped
      count is every other directory; the new-change count sums the processed counts. */
  lemma GenerateChangesSummary(st: Store, listing: seq<ChangeDir>, file: Option<Option<Yaml>>)
    ensures var (s, fs, _) := GenerateChanges(st, true, listing, file);
      && s.processedFiles == s.sqlFilesGenerated == |fs| == |s.statChanges|
      && s.skippedFiles == |Directories(listing)| - |fs| >= 0
      && s.newChanges == SumCounts(fs)
      && (forall i :: 0 <= i < |fs| ==> s.statChanges[i].change == fs[i].change)
      && (forall f :: f in fs <==> exists d :: d in listing && d.isDir && d.name !in st.changes && SqlFileOf(st, d) == Some(f))
  {
    var q := Queue(listing, st.changes.Keys);
    GenRunConsistent(st, file, q);
    GenRunLength(st, file, q);
    forall f ensures f in GenRun(st, Begin(file), q).files <==> exists d :: d in listing && d.isDir && d.name !in st.changes && SqlFileOf(st, d) == Some(f) {
      GenRunFiles(st, file, q, f);
      forall d ensures d in q <==> d in listing && d.isDir && d.name !in st.changes {
        QueueIff(listing, st.changes.Keys, d);
      }
    }
  }

  lemma {:induction false} GenRunLength(st: Store, file: Option<Option<Yaml>>, queue: seq<ChangeDir>)
    ensures |GenRun(st, Begin(file), queue).files| <= |queue|
    decreases |queue|
  {
    if queue != [] {
      GenRunLength(st, file, queue[..|queue| - 1]);
    }
  }

  /** Nothing is recorded in the ledger, so running the driver again over the same store
      writes the same files again, whatever `stats.yaml` holds by then. */
  lemma RerunRegenerates(st: Store, changesDirExists: bool, listing: seq<ChangeDir>, file: Option<Option<Yaml>>)
    ensures var (_, fs, file') := GenerateChanges(st, changesDirExists, listing, file);
      GenerateChanges(st, changesDirExists, listing, file').1 == fs
  {
    if changesDirExists {
      var q := Queue(listing, st.changes.Keys);
      var file' := GenerateChanges(st, changesDirExists, listing, file).2;
      var f: SqlFile :| true;
      GenRunFiles(st, file, q, f);
      GenRunFiles(st, file', q, f);
    }
  }

  /** `stats.yaml` after a run: the projections of the processed changes applied one after
      the other, a failed projection leaving the file as it was. */
  function Projected(file: Option<Option<Yaml>>, docs: seq<Option<Yaml>>): Option<Option<Yaml>> {
    if docs == [] then file
    else
      var before := Projected(file, docs[..|docs| - 1]);
      StatsAfter(before, Project(docs[|docs| - 1], before).1)
  }

  /** The change files of the directories that yield an `inserts.sql`, in queue order. */
  function ProcessedDocs(st: Store, queue: seq<ChangeDir>): seq<Option<Yaml>> {
    if queue == [] then []
    else
      var d := queue[|queue| - 1];
      ProcessedDocs(st, queue[..|queue| - 1]) + (if SqlFileOf(st, d).Some? then [FindChangeFile(d).value] else [])
  }

  /** A change is projected into `stats.yaml` exactly when its `inserts.sql` is written: the
      file after a run is the projection of the processed changes, in order. */
  lemma {:induction false} GenRunProjects(st: Store, file: Option<Option<Yaml>>, queue: seq<ChangeDir>)
    ensures GenRun(st, Begin(file), queue).statsFile == Projected(file, ProcessedDocs(st, queue))
    decreases |queue|
  {
    if queue != [] {
      var init := queue[..|queue| - 1];
      GenRunProjects(st, file, init);
      var docs := ProcessedDocs(st, init);
      var d := queue[|queue| - 1];
      var g := GenRun(st, Begin(file), init);
      if SqlFileOf(st, d).Some? {
        var all := docs + [FindChangeFile(d).value];
        assert ProcessedDocs(st, queue) == all;
        assert all[..|all| - 1] == docs;
        assert GenRun(st, Begin(file), queue) == GenStep(st, g, d);
        assert GenStep(st, g, d).statsFile == StatsAfter(g.statsFile, Project(FindChangeFile(d).value, g.statsFile).1);
      } else {
        assert ProcessedDocs(st, queue) == docs + [];
        assert docs + [] == docs;
      }
    }
  }

  /** One step of the driver by cases: no change file or a failed generation leaves the state
      as it was; otherwise the generated file is appended and the change projected. */
  lemma GenStepCases(st: Store, g: Gen, d: ChangeDir)
    ensures FindChangeFile(d).None? ==> GenStep(st, g, d) == g
    ensures FindChangeFile(d).Some? ==>
      var r := GenerateSql(st, d.name, FindChangeFile(d).value);
      var p := Project(FindChangeFile(d).value, g.statsFile);
      GenStep(st, g, d) == if r.2 < 0 then g else
        Gen(StatsAfter(g.statsFile, p.1), g.processed + 1, g.newChanges + r.2,
            g.files + [SqlFile(d.name, r.0, r.1, r.2)], g.statChanges + [StatChange(d.name, p.0)])
  {
  }

  /** `process_new_change_files` of src/api.py: the ledger snapshot and the listing fix the
      queue; each queued directory with a change file is generated and, on success, written
      and projected into `stats.yaml`. */
  method ProcessNewChangeFiles(st: Store, changesDirExists: bool, listing: seq<ChangeDir>, file: Option<Option<Yaml>>)
    returns (summary: GenSummary, files: seq<SqlFile>, file': Option<Option<Yaml>>)
    ensures (summary, files, file') == GenerateChanges(st, changesDirExists, listing, file)
  {
    if !changesDirExists {
      return GenSummary(0, 0, 0, 0, []), [], file;
    }
    var dirs := Directories(listing);
    var queue := Unrecorded(dirs, st.changes.Keys);
    var g := Begin(file);
    for i := 0 to |queue|
      invariant g == GenRun(st, Begin(file), queue[..i])
    {
      assert queue[..i + 1][..i] == queue[..i];
      var d := queue[i];
      GenStepCases(st, g, d);
      var doc := FindChangeFile(d);
      if doc.Some? {
        var step1, step2, count := GenerateSqlForChangeFile(st, d.name, doc.value);
        if count >= 0 {
          var projection, out := UpdateStatsFileWithChanges(doc.value, g.statsFile);
          g := Gen(StatsAfter(g.statsFile, out), g.processed + 1, g.newChanges + count,
                   g.files + [SqlFile(d.name, step1, step2, count)], g.statChanges + [StatChange(d.name, projection)]);
        }
      }
    }
    assert queue[..|queue|] == queue;
    summary := GenSummary(g.processed, g.newChanges, |dirs| - g.processed, g.processed, g.statChanges);
    files := g.files;
    file' := g.statsFile;
  }

  /** The directories `init_namespace` creates: the `changes` directory exists afterwards,
      empty when it was not there. */
  function InitDirs(env: NsEnv): (r: NsEnv)
    ensures r.changesDirExists
    ensures env.changesDirExists ==> r.listing == env.listing
  {
    env.(changesDirExists := true, listing := if env.changesDirExists then env.listing else [])
  }

  /** `stats.yaml` after the `init_cdb.sqlite` step of `init_namespace`: overwritten with the
      imported mapping when the file is there and the import succeeds. */
  function Seeded(env: NsEnv): (r: NsEnv)
    ensures r.statsFile == env.statsFile || (env.initCdb.Some? && Import(env.initCdb.value).Some?)
    ensures r.(statsFile := env.statsFile) == env
  {
    match env.initCdb
    case Some(c) =>
      (match Import(c)
       case Some(d) => env.(statsFile := Some(Some(YMap(d))))
       case None => env)
    case None => env
  }

  /** `process_namespace` of src/api.py as a value: `init_namespace` runs every time
      (directories; the database, created only when missing, which needs the schema; the
      `init_cdb.sqlite` import), then the generation. A database that cannot be created
      raises, and the namespace fails. */
  function Namespace(ns: string, env: NsEnv, schemaAvailable: bool): (ModelDriver.NsResult, NsEnv) {
    var dirs := InitDirs(env);
    if !dirs.dbExists && !schemaAvailable then
      (ModelDriver.NsResult(ns, false, 0, 0, 0, Some(ModelDriver.SchemaMissing)), dirs)
    else
      var created := if dirs.dbExists then dirs else dirs.(dbExists := true, store := EmptyStore);
      var seeded := Seeded(created);
      var (s, _, file') := GenerateChanges(seeded.store, seeded.changesDirExists, seeded.listing, seeded.statsFile);
      (ModelDriver.NsResult(ns, true, s.processedFiles, s.newChanges, s.skippedFiles, None), seeded.(statsFile := file'))
  }

  /** A namespace fails exactly when its database is missing and cannot be created; success
      leaves the store as it was (or empty when new) and only `stats.yaml` may change. */
  lemma NamespaceOutcome(ns: string, env: NsEnv, schemaAvailable: bool)
    ensures var (r, env') := Namespace(ns, env, schemaAvailable);
      && r.namespace == ns
      && (r.success <==> env.dbExists || schemaAvailable)
      && (r.success <==> r.error.None?)
      && (!r.success ==> r.processedFiles == 0 && r.newChanges == 0 && r.skippedFiles == 0)
      && env'.changesDirExists
      && (r.success ==> env'.dbExists && env'.store == (if env.dbExists then env.store else EmptyStore))
      && env'.listing == InitDirs(env).listing
      && env'.initCdb == env.initCdb
  {
  }

  /** When the database is there or can be created and `init_cdb.sqlite` imports, each run
      starts from the imported mapping: what `stats.yaml` held before the run does not matter, so projections of changes that the
      queue no longer holds are lost. */
  lemma ReseedingForgetsStats(ns: string, env: NsEnv, schemaAvailable: bool, other: Option<Option<Yaml>>)
    requires env.dbExists || schemaAvailable
    requires env.initCdb.Some? && Import(env.initCdb.value).Some?
    ensures Namespace(ns, env, schemaAvailable) == Namespace(ns, env.(statsFile := other), schemaAvailable)
  {
    var env2 := env.(statsFile := other);
    assert InitDirs(env2) == InitDirs(env).(statsFile := other);
    var c1 := if InitDirs(env).dbExists then InitDirs(env) else InitDirs(env).(dbExists := true, store := EmptyStore);
    var c2 := if InitDirs(env2).dbExists then InitDirs(env2) else InitDirs(env2).(dbExists := true, store := EmptyStore);
    assert c2 == c1.(statsFile := other);
    assert Seeded(c2) == Seeded(c1);
  }

  /** `process_namespace` of src/api.py. */
  method ProcessNamespace(ns: string, env: NsEnv, schemaAvailable: bool) returns (r: ModelDriver.NsResult, env': NsEnv)
    ensures (r, env') == Namespace(ns, env, schemaAvailable)
  {
    env' := env.(changesDirExists := true, listing := if env.changesDirExists then env.listing else []);
    if !env'.dbExists {
      if !schemaAvailable {
        return ModelDriver.NsResult(ns, false, 0, 0, 0, Some(ModelDriver.SchemaMissing)), env';
      }
      env' := env'.(dbExists := true, store := EmptyStore);
    }
    if env'.initCdb.Some? {
      var imported := ImportCyclistsFromDb(env'.initCdb.value);
      if imported.Some? {
        env' := env'.(statsFile := Some(Some(YMap(imported.value))));
      }
    }
    var s, _, file' := ProcessNewChangeFiles(env'.store, env'.changesDirExists, env'.listing, env'.statsFile);
    r := ModelDriver.NsResult(ns, s.processedFiles >= 0, s.processedFiles, s.newChanges, s.skippedFiles, None);
    env' := env'.(statsFile := file');
  }

  /** The results of the namespaces, in the order given, each processed against its own
      directory (`env`). */
  function Results(namespaces: seq<string>, env: string -> NsEnv, schemaAvailable: bool): seq<ModelDriver.NsResult> {
    if namespaces == [] then []
    else
      var ns := namespaces[|namespaces| - 1];
      Results(namespaces[..|namespaces| - 1], env, schemaAvailable) + [Namespace(ns, env(ns), schemaAvailable).0]
  }

  lemma {:induction false} ResultsAt(namespaces: seq<string>, env: string -> NsEnv, schemaAvailable: bool)
    ensures |Results(namespaces, env, schemaAvailable)| == |namespaces|
    ensures forall i :: 0 <= i < |namespaces| ==>
      Results(namespaces, env, schemaAvailable)[i] == Namespace(namespaces[i], env(namespaces[i]), schemaAvailable).0
    decreases |namespaces|
  {
    if namespaces != [] {
      ResultsAt(namespaces[..|namespaces| - 1], env, schemaAvailable);
    }
  }

  lemma ResultsStep(namespaces: seq<string>, i: nat, env: string -> NsEnv, schemaAvailable: bool)
    requires i < |namespaces|
    ensures Results(namespaces[..i + 1], env, schemaAvailable)
      == Results(namespaces[..i], env, schemaAvailable) + [Namespace(namespaces[i], env(namespaces[i]), schemaAvailable).0]
  {
    assert namespaces[..i + 1][..i] == namespaces[..i];
  }

  /** `process_all_namespaces` of src/api.py: the namespaces are processed in order and the
      summary aggregates their results. */
  method ProcessAllNamespaces(namespaces: seq<string>, env: string -> NsEnv, schemaAvailable: bool)
    returns (summary: BatchSummary, results: seq<ModelDriver.NsResult>)
    ensures results == Results(namespaces, env, schemaAvailable)
    ensures summary == Summarize(ModelDriver.Reports(results))
  {
    summary := BatchSummary(0, [], [], 0, true);
    results := [];
    for i := 0 to |namespaces|
      invariant results == Results(namespaces[..i], env, schemaAvailable)
      invariant summary == Summarize(ModelDriver.Reports(results))
    {
      var ns := namespaces[i];
      var r, _ := ProcessNamespace(ns, env(ns), schemaAvailable);
      assert r == Namespace(ns, env(ns), schemaAvailable).0 && r.namespace == ns;
      ResultsStep(namespaces, i, env, schemaAvailable);
      ModelDriver.ReportsSummaryStep(results, r, summary);
      if r.success {
        summary := summary.(processedNamespaces := summary.processedNamespaces + 1,
                            successful := summary.successful + [ns],
                            totalChanges := summary.totalChanges + r.newChanges);
      } else {
        summary := summary.(processedNamespaces := summary.processedNamespaces + 1,
                            failed := summary.failed + [ns],
                            totalChanges := summary.totalChanges + r.newChanges,
                            overallSuccess := false);
      }
      results := results + [r];
    }
    assert namespaces[..|namespaces|] == namespaces;
  }

  /** The batch succeeds exactly when every namespace has a database or can create one; the
      failed list names exactly the namespaces that cannot, and the total sums the namespaces'
      new changes. */
  lemma AllNamespacesOutcome(namespaces: seq<string>, env: string -> NsEnv, schemaAvailable: bool)
    ensures var s := Summarize(ModelDriver.Reports(Results(namespaces, env, schemaAvailable)));
      && s.processedNamespaces == |namespaces|
      && (s.overallSuccess <==> schemaAvailable || forall i :: 0 <= i < |namespaces| ==> env(namespaces[i]).dbExists)
      && (forall n :: n in s.failed <==> exists i :: 0 <= i < |namespaces| && namespaces[i] == n && !schemaAvailable && !env(n).dbExists)
  {
    var results := Results(namespaces, env, schemaAvailable);
    ResultsAt(namespaces, env, schemaAvailable);
    var rs := ModelDriver.Reports(results);
    forall i | 0 <= i < |namespaces|
      ensures rs[i].namespace == namespaces[i]
      ensures rs[i].success <==> env(namespaces[i]).dbExists || schemaAvailable
    {
      NamespaceOutcome(namespaces[i], env(namespaces[i]), schemaAvailable);
    }
    OverallSuccessIff(rs);
    forall n ensures n in Summarize(rs).failed <==> exists i :: 0 <= i < |namespaces| && namespaces[i] == n && !schemaAvailable && !env(n).dbExists {
      SelectIff(rs, false, n);
    }
  }
}
