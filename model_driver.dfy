/** The namespace and batch drivers of src/model/api.py: `process_namespace` creates the
    tracking database only when it is missing, then generates the namespace's new changes;
    `process_all_namespaces` runs it for every namespace and aggregates the reports. */
module ModelDriver {
  import opened Yaml
  import opened Store
  import opened Workspace
  import opened Batch
  import opened ModelPipeline

  /** Why a namespace failed: the only failure the driver can meet is that a missing tracking
      database cannot be created because the schema file cannot be read. */
  datatype NsError = SchemaMissing

  /** The result `process_namespace` returns. */
  datatype NsResult = NsResult(
    namespace: string,
    success: bool,
    processedFiles: nat,
    newChanges: int,
    skippedFiles: int,
    error: Option<NsError>)

  /** `init_namespace`, called only when the tracking database is missing: the root and
      `changes` directories are created, then the database, which needs the schema file;
      without it no database is created. */
  function InitNamespace(env: NsEnv, schemaAvailable: bool): (r: NsEnv)
    requires !env.dbExists
    ensures r.changesDirExists
    ensures r.dbExists <==> schemaAvailable
    ensures r.dbExists ==> r.store == EmptyStore
    ensures env.changesDirExists ==> r.listing == env.listing
    ensures r.statsFile == env.statsFile && r.initCdb == env.initCdb
  {
    var dirs := env.(changesDirExists := true, listing := if env.changesDirExists then env.listing else []);
    if schemaAvailable then dirs.(dbExists := true, store := EmptyStore) else dirs
  }

  /** `process_namespace` of src/model/api.py as a value: the result and the namespace
      afterwards. */
  function Namespace(ns: string, env: NsEnv, schemaAvailable: bool): (NsResult, NsEnv) {
    var env1 := if env.dbExists then env else InitNamespace(env, schemaAvailable);
    if !env1.dbExists then
      (NsResult(ns, false, 0, 0, 0, Some(SchemaMissing)), env1)
    else
      var (st', s, _) := GenerateAll(env1.store, env1.changesDirExists, env1.listing);
      (NsResult(ns, true, s.processedFiles, s.newChanges, s.skippedFiles, None), env1.(store := st'))
  }

  /** `process_namespace` of src/model/api.py. */
  method ProcessNamespace(ns: string, env: NsEnv, schemaAvailable: bool) returns (r: NsResult, env': NsEnv)
    ensures (r, env') == Namespace(ns, env, schemaAvailable)
  {
    env' := env;
    if !env.dbExists {
      env' := InitNamespace(env, schemaAvailable);
      if !env'.dbExists {
        return NsResult(ns, false, 0, 0, 0, Some(SchemaMissing)), env';
      }
    }
    var st', s, _ := ProcessNewChangeFiles(env'.store, env'.changesDirExists, env'.listing);
    r := NsResult(ns, s.processedFiles >= 0, s.processedFiles, s.newChanges, s.skippedFiles, None);
    env' := env'.(store := st');
  }

  /** A namespace fails exactly when its database is missing and cannot be created; a
      failure reports zero counts and its error, a success none. */
  lemma NamespaceSuccessIff(ns: string, env: NsEnv, schemaAvailable: bool)
    ensures var (r, _) := Namespace(ns, env, schemaAvailable);
      && r.namespace == ns
      && (r.success <==> env.dbExists || schemaAvailable)
      && (r.success <==> r.error.None?)
      && (!r.success ==> r.processedFiles == 0 && r.newChanges == 0 && r.skippedFiles == 0)
  {
  }

  /** An existing database is used as it is: its cyclists and history are untouched, its
      ledger only grows, and the counts are those of generating over the existing store. */
  lemma ExistingDatabaseKept(ns: string, env: NsEnv, schemaAvailable: bool)
    requires env.dbExists
    ensures var (r, env') := Namespace(ns, env, schemaAvailable);
      && r.success
      && env'.store.cyclists == env.store.cyclists
      && env'.store.history == env.store.history
      && env.store.changes.Keys <= env'.store.changes.Keys
      && env'.listing == env.listing
      && r.processedFiles == GenerateAll(env.store, env.changesDirExists, env.listing).1.processedFiles
  {
    if env.changesDirExists {
      RunKeepsData(env.store, Queue(env.listing, env.store.changes.Keys));
    }
  }

  /** A namespace without a database is generated against an empty store: every directory
      of the listing is new to the ledger. */
  lemma NewDatabaseQueuesAll(ns: string, env: NsEnv, d: ChangeDir)
    requires !env.dbExists && env.changesDirExists
    ensures d in Queue(InitNamespace(env, true).listing, InitNamespace(env, true).store.changes.Keys)
      <==> d in env.listing && d.isDir
  {
    assert EmptyStore.changes.Keys == {};
    QueueIff(env.listing, {}, d);
  }

  /** What the batch loop reads from a namespace result. */
  function Report(r: NsResult): NsReport {
    NsReport(r.namespace, r.success, r.newChanges)
  }

  function Reports(rs: seq<NsResult>): (r: seq<NsReport>)
    ensures |r| == |rs|
    ensures forall i :: 0 <= i < |rs| ==> r[i] == Report(rs[i])
  {
    if rs == [] then [] else Reports(rs[..|rs| - 1]) + [Report(rs[|rs| - 1])]
  }

  /** The batch summary after one more namespace result, as the batch loop tallies it. */
  lemma ReportsSummaryStep(results: seq<NsResult>, r: NsResult, s: BatchSummary)
    requires s == Summarize(Reports(results))
    ensures Summarize(Reports(results + [r])) ==
      if r.success then
        s.(processedNamespaces := s.processedNamespaces + 1, successful := s.successful + [r.namespace],
           totalChanges := s.totalChanges + r.newChanges)
      else
        s.(processedNamespaces := s.processedNamespaces + 1, failed := s.failed + [r.namespace],
           totalChanges := s.totalChanges + r.newChanges, overallSuccess := false)
  {
    assert Reports(results + [r]) == Reports(results) + [Report(r)] by {
      assert (results + [r])[..|results|] == results;
    }
    SummarizeAppend(Reports(results), Report(r));
  }

  /** The results of the namespaces, in the order given, each processed against its own
      directory (`env`). */
  function Results(namespaces: seq<string>, env: string -> NsEnv, schemaAvailable: bool): seq<NsResult> {
    if namespaces == [] then []
    else
      var ns := namespaces[|namespaces| - 1];
      Results(namespaces[..|namespaces| - 1], env, schemaAvailable) + [Namespace(ns, env(ns), schemaAvailable).0]
  }

  lemma {:induction false} ResultsAt(namespaces: seq<string>, env: string -> NsEnv, schemaAvailable: bool)
    ensures |Results(namespaces, env, schemaAvailable)| == |namespaces|
    ensures forall i :: 0 <= i < |namespaces| ==>
      Results(namespaces, env, schemaAvailable)[i] == Namespace(namespaces[i], env(namespaces[i]), schemaAvailable).0
    decreases |namespaces|
  {
    if namespaces != [] {
      ResultsAt(namespaces[..|namespaces| - 1], env, schemaAvailable);
    }
  }

  lemma ResultsStep(namespaces: seq<string>, i: nat, env: string -> NsEnv, schemaAvailable: bool)
    requires i < |namespaces|
    ensures Results(namespaces[..i + 1], env, schemaAvailable)
      == Results(namespaces[..i], env, schemaAvailable) + [Namespace(namespaces[i], env(namespaces[i]), schemaAvailable).0]
  {
    assert namespaces[..i + 1][..i] == namespaces[..i];
  }

  /** `process_all_namespaces` of src/model/api.py: the namespaces are processed in order and
      the summary aggregates their results. */
  method ProcessAllNamespaces(namespaces: seq<string>, env: string -> NsEnv, schemaAvailable: bool)
    returns (summary: BatchSummary, results: seq<NsResult>)
    ensures results == Results(namespaces, env, schemaAvailable)
    ensures summary == Summarize(Reports(results))
  {
    summary := BatchSummary(0, [], [], 0, true);
    results := [];
    for i := 0 to |namespaces|
      invariant results == Results(namespaces[..i], env, schemaAvailable)
      invariant summary == Summarize(Reports(results))
    {
      var ns := namespaces[i];
      var r, _ := ProcessNamespace(ns, env(ns), schemaAvailable);
      assert r == Namespace(ns, env(ns), schemaAvailable).0 && r.namespace == ns;
      ResultsStep(namespaces, i, env, schemaAvailable);
      ReportsSummaryStep(results, r, summary);
      if r.success {
        summary := summary.(processedNamespaces := summary.processedNamespaces + 1,
                            successful := summary.successful + [ns],
                            totalChanges := summary.totalChanges + r.newChanges);
      } else {
        summary := summary.(processedNamespaces := summary.processedNamespaces + 1,
                            failed := summary.failed + [ns],
                            totalChanges := summary.totalChanges + r.newChanges,
                            overallSuccess := false);
      }
      results := results + [r];
    }
    assert namespaces[..|namespaces|] == namespaces;
  }

  /** The batch succeeds exactly when every namespace has a database or can create one; the
      failed list names exactly the namespaces that cannot. */
  lemma AllNamespacesSuccessIff(namespaces: seq<string>, env: string -> NsEnv, schemaAvailable: bool)
    ensures var s := Summarize(Reports(Results(namespaces, env, schemaAvailable)));
      && s.processedNamespaces == |namespaces|
      && (s.overallSuccess <==> schemaAvailable || forall i :: 0 <= i < |namespaces| ==> env(namespaces[i]).dbExists)
      && (forall n :: n in s.failed <==> exists i :: 0 <= i < |namespaces| && namespaces[i] == n && !schemaAvailable && !env(n).dbExists)
  {
    var results := Results(namespaces, env, schemaAvailable);
    ResultsAt(namespaces, env, schemaAvailable);
    var rs := Reports(results);
    forall i | 0 <= i < |namespaces|
      ensures rs[i].namespace == namespaces[i]
      ensures rs[i].success <==> env(namespaces[i]).dbExists || schemaAvailable
    {
      NamespaceSuccessIff(namespaces[i], env(namespaces[i]), schemaAvailable);
    }
    OverallSuccessIff(rs);
    forall n ensures n in Summarize(rs).failed <==> exists i :: 0 <= i < |namespaces| && namespaces[i] == n && !schemaAvailable && !env(n).dbExists {
      SelectIff(rs, false, n);
    }
  }
}
