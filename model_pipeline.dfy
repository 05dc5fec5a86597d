/** The pipeline of src/model/api.py: a generator that writes one statement list per change,
    without de-duplicating cyclists inside a change, and a driver that records each generated
    change in the ledger directly. */
module ModelPipeline {
  import opened Yaml
  import opened Commons
  import opened Store
  import opened Change
  import opened Reconcile
  import opened Workspace
  import opened Batch

  /** What one taking-part entry contributes: its cyclist insert, checked against the store
      only, then its history inserts. */
  function EntryStatements(st: Store, changeName: string, e: Entry): seq<Stmt> {
    OptionToSeq(CyclistInsertIfNotExists(st, PcmOf(e), Get(e, "name"), e))
      + HistoryInserts(st, changeName, EntryAssertions(e, STAT_KEYS))
  }

  /** The statements after the ledger insert, entry by entry. */
  function Statements(st: Store, changeName: string, es: seq<Entry>): seq<Stmt> {
    if es == [] then []
    else
      var e := es[|es| - 1];
      Statements(st, changeName, es[..|es| - 1]) + (if Active(e) then EntryStatements(st, changeName, e) else [])
  }

  /** `_generate_sql_for_change_file` of src/model/api.py as a value: the statements and the
      number of history inserts, or `([], -1)` when the record is unusable. */
  function ModelGenerateSql(st: Store, changeName: string, doc: Option<Yaml>): (r: (seq<Stmt>, int))
    ensures r.1 == -1 <==> !Generable(doc)
    ensures r.1 == -1 ==> r.0 == []
    ensures r.1 >= 0 ==> |r.0| >= 1 && r.0[0] == ChangeInsert(changeName, doc.value.entries)
  {
    if !Generable(doc) then ([], -1)
    else
      var es := EntriesOfDoc(doc);
      ([ChangeInsert(changeName, doc.value.entries)] + Statements(st, changeName, es),
       |HistoryInserts(st, changeName, Assertions(es, STAT_KEYS))|)
  }

  /** The statements of a usable record: the ledger insert, then the entries' statements. */
  lemma ModelGenerateSqlStatements(st: Store, changeName: string, doc: Option<Yaml>)
    requires Generable(doc)
    ensures ModelGenerateSql(st, changeName, doc).0 == [ChangeInsert(changeName, doc.value.entries)] + Statements(st, changeName, EntriesOfDoc(doc))
  {
  }

  lemma StatementsStep(st: Store, changeName: string, es: seq<Entry>, i: nat)
    requires i < |es|
    ensures Statements(st, changeName, es[..i + 1]) == Statements(st, changeName, es[..i])
      + (if Active(es[i]) then EntryStatements(st, changeName, es[i]) else [])
  {
    assert es[..i + 1][..i] == es[..i];
  }

  lemma {:induction false} StatementsAppend(st: Store, changeName: string, es: seq<Entry>, fs: seq<Entry>)
    ensures Statements(st, changeName, es + fs) == Statements(st, changeName, es) + Statements(st, changeName, fs)
    decreases |fs|
  {
    if fs == [] {
      assert es + fs == es;
    } else {
      assert (es + fs)[..|es + fs| - 1] == es + fs[..|fs| - 1];
      StatementsAppend(st, changeName, es, fs[..|fs| - 1]);
    }
  }

  /** The history inserts of a statement list, in order. */
  function HistoryOnly(ss: seq<Stmt>): seq<Stmt> {
    if ss == [] then []
    else HistoryOnly(ss[..|ss| - 1]) + (if ss[|ss| - 1].InsertHistory? then [ss[|ss| - 1]] else [])
  }

  lemma {:induction false} HistoryOnlyAppend(xs: seq<Stmt>, ys: seq<Stmt>)
    ensures HistoryOnly(xs + ys) == HistoryOnly(xs) + HistoryOnly(ys)
    decreases |ys|
  {
    if ys == [] {
      assert xs + ys == xs;
    } else {
      assert (xs + ys)[..|xs + ys| - 1] == xs + ys[..|ys| - 1];
      HistoryOnlyAppend(xs, ys[..|ys| - 1]);
    }
  }

  lemma {:induction false} HistoryOnlyOfHistoryInserts(st: Store, changeName: string, as_: seq<Assertion>)
    ensures HistoryOnly(HistoryInserts(st, changeName, as_)) == HistoryInserts(st, changeName, as_)
    ensures forall s :: s in HistoryInserts(st, changeName, as_) ==> s.InsertHistory?
    decreases |as_|
  {
    if as_ != [] {
      var init := as_[..|as_| - 1];
      var a := as_[|as_| - 1];
      HistoryOnlyOfHistoryInserts(st, changeName, init);
      var tail := if ShouldInsertStatChange(st, a) then [InsertHistory(a.pcm, changeName, a.stat, a.value)] else [];
      HistoryOnlyAppend(HistoryInserts(st, changeName, init), tail);
      assert HistoryOnly(tail) == tail by {
        if tail != [] {
          assert tail[..0] == [];
        }
      }
    }
  }

  /** Filtering the one list down to its history inserts gives the history inserts entry by
      entry. */
  lemma {:induction false} StatementsHistory(st: Store, changeName: string, es: seq<Entry>)
    ensures HistoryOnly(Statements(st, changeName, es)) == HistoryInserts(st, changeName, Assertions(es, STAT_KEYS))
    decreases |es|
  {
    if es != [] {
      var init := es[..|es| - 1];
      var e := es[|es| - 1];
      StatementsHistory(st, changeName, init);
      if Active(e) {
        var c := OptionToSeq(CyclistInsertIfNotExists(st, PcmOf(e), Get(e, "name"), e));
        var ea := EntryAssertions(e, STAT_KEYS);
        var h := HistoryInserts(st, changeName, ea);
        assert HistoryOnly(c) == [] by {
          if c != [] {
            assert c[..0] == [];
          }
        }
        calc {
          HistoryOnly(Statements(st, changeName, es));
          { assert Statements(st, changeName, es) == Statements(st, changeName, init) + (c + h); }
          HistoryOnly(Statements(st, changeName, init) + (c + h));
          { HistoryOnlyAppend(Statements(st, changeName, init), c + h); HistoryOnlyAppend(c, h); }
          HistoryOnly(Statements(st, changeName, init)) + (HistoryOnly(c) + HistoryOnly(h));
          { assert HistoryOnly(c) + HistoryOnly(h) == HistoryOnly(h); }
          HistoryOnly(Statements(st, changeName, init)) + HistoryOnly(h);
          { HistoryOnlyOfHistoryInserts(st, changeName, ea); }
          HistoryOnly(Statements(st, changeName, init)) + h;
          HistoryInserts(st, changeName, Assertions(init, STAT_KEYS)) + h;
          { HistoryInsertsAppend(st, changeName, Assertions(init, STAT_KEYS), ea); }
          HistoryInserts(st, changeName, Assertions(init, STAT_KEYS) + ea);
          { assert Assertions(es, STAT_KEYS) == Assertions(init, STAT_KEYS) + ea; }
          HistoryInserts(st, changeName, Assertions(es, STAT_KEYS));
        }
      } else {
        assert Statements(st, changeName, es) == Statements(st, changeName, init);
        assert Assertions(es, STAT_KEYS) == Assertions(init, STAT_KEYS);
      }
    }
  }

  /** Both generators emit the same history inserts, in the same order, and the count of the
      one-list generator is the number of history inserts in its list. */
  lemma ModelSameHistory(st: Store, changeName: string, doc: Option<Yaml>)
    requires Generable(doc)
    ensures HistoryOnly(ModelGenerateSql(st, changeName, doc).0) == GenerateSql(st, changeName, doc).1
    ensures ModelGenerateSql(st, changeName, doc).1 == |HistoryOnly(ModelGenerateSql(st, changeName, doc).0)|
  {
    var es := EntriesOfDoc(doc);
    var head := [ChangeInsert(changeName, doc.value.entries)];
    StatementsHistory(st, changeName, es);
    HistoryOnlyAppend(head, Statements(st, changeName, es));
    assert head[..0] == [];
  }

  /** A taking-part entry whose cyclist insert is `s`. */
  predicate InsertsCyclist(st: Store, e: Entry, s: Stmt) {
    Active(e) && CyclistInsertIfNotExists(st, PcmOf(e), Get(e, "name"), e) == Some(s)
  }

  /** Every taking-part entry whose `pcm_id` the store lacks adds a cyclist insert, with no
      check against the entries before it; there are no other cyclist inserts. */
  lemma {:induction false} ModelCyclistInsertIff(st: Store, changeName: string, es: seq<Entry>, s: Stmt)
    ensures s in Statements(st, changeName, es) && s.InsertCyclist? <==>
      exists i :: 0 <= i < |es| && InsertsCyclist(st, es[i], s)
    decreases |es|
  {
    if es != [] {
      var init := es[..|es| - 1];
      var e := es[|es| - 1];
      ModelCyclistInsertIff(st, changeName, init, s);
      EntryCyclistInsert(st, changeName, e, s);
      InsertsCyclistSnoc(st, es, init, s);
      assert Statements(st, changeName, es) == Statements(st, changeName, init) + (if Active(e) then EntryStatements(st, changeName, e) else []);
    }
  }

  /** The only cyclist insert an entry contributes is its own. */
  lemma EntryCyclistInsert(st: Store, changeName: string, e: Entry, s: Stmt)
    ensures s in (if Active(e) then EntryStatements(st, changeName, e) else []) && s.InsertCyclist? <==> InsertsCyclist(st, e, s)
  {
    HistoryOnlyOfHistoryInserts(st, changeName, EntryAssertions(e, STAT_KEYS));
  }

  /** Some entry inserts `s` exactly when one before the last does or the last does. */
  lemma InsertsCyclistSnoc(st: Store, es: seq<Entry>, init: seq<Entry>, s: Stmt)
    requires es != [] && init == es[..|es| - 1]
    ensures (exists i :: 0 <= i < |es| && InsertsCyclist(st, es[i], s)) <==>
      (exists i :: 0 <= i < |init| && InsertsCyclist(st, init[i], s)) || InsertsCyclist(st, es[|es| - 1], s)
  {
    if exists i :: 0 <= i < |init| && InsertsCyclist(st, init[i], s) {
      var i :| 0 <= i < |init| && InsertsCyclist(st, init[i], s);
      assert init[i] == es[i];
    }
    if exists i :: 0 <= i < |es| && InsertsCyclist(st, es[i], s) {
      var i :| 0 <= i < |es| && InsertsCyclist(st, es[i], s);
      if i < |init| {
        assert init[i] == es[i];
      }
    }
  }

  /** A change that names the same new cyclist in two taking-part entries produces a list
      that cannot be executed: the second insert of that cyclist clashes with the first. */
  lemma RepeatedNewCyclistFails(st: Store, changeName: string, doc: Option<Yaml>, i: nat, j: nat)
    requires Generable(doc)
    requires i < j < |EntriesOfDoc(doc)|
    requires Active(EntriesOfDoc(doc)[i]) && Active(EntriesOfDoc(doc)[j])
    requires PcmOf(EntriesOfDoc(doc)[i]) == PcmOf(EntriesOfDoc(doc)[j])
    requires ParamId(PcmOf(EntriesOfDoc(doc)[i])) !in st.cyclists
    ensures Exec(st, ModelGenerateSql(st, changeName, doc).0).Failed?
  {
    ModelGenerateSqlStatements(st, changeName, doc);
    RepeatedCyclistInEntriesFails(st, changeName, [ChangeInsert(changeName, doc.value.entries)], EntriesOfDoc(doc), i, j);
  }

  /** The same over the entries, after any leading statements. */
  lemma RepeatedCyclistInEntriesFails(st: Store, changeName: string, first: seq<Stmt>, es: seq<Entry>, i: nat, j: nat)
    requires i < j < |es|
    requires Active(es[i]) && Active(es[j])
    requires PcmOf(es[i]) == PcmOf(es[j])
    requires ParamId(PcmOf(es[i])) !in st.cyclists
    ensures Exec(st, first + Statements(st, changeName, es)).Failed?
  {
    var p := PcmOf(es[i]);
    var xs := es[..j];
    var ys := es[j..];
    assert es == xs + ys;
    StatementsAppend(st, changeName, xs, ys);
    var c1 := CyclistInsertIfNotExists(st, p, Get(es[i], "name"), es[i]).value;
    var c2 := CyclistInsertIfNotExists(st, p, Get(es[j], "name"), es[j]).value;
    assert xs[i] == es[i] && InsertsCyclist(st, xs[i], c1);
    ModelCyclistInsertIff(st, changeName, xs, c1);
    assert ys[0] == es[j] && InsertsCyclist(st, ys[0], c2);
    ModelCyclistInsertIff(st, changeName, ys, c2);
    var sx := Statements(st, changeName, xs);
    var sy := Statements(st, changeName, ys);
    assert first + (sx + sy) == (first + sx) + sy;
    ExecFailsOnRepeatedCyclist(st, first + sx, sy, c1, c2);
  }

  /** The generator of src/model/api.py: one pass over the entries, each taking-part entry
      adding its cyclist insert and then its history inserts in `STAT_KEYS` order. A
      taking-part `pcm_id` that is a list or mapping cannot be bound as a query parameter. */
  method GenerateSqlForChangeFile(st: Store, changeName: string, doc: Option<Yaml>) returns (stmts: seq<Stmt>, count: int)
    ensures (stmts, count) == ModelGenerateSql(st, changeName, doc)
  {
    if !(doc.Some? && doc.value.YMap? && HasKey(doc.value.entries, "date") && HasKey(doc.value.entries, "stats")) {
      return [], -1;
    }
    var m := doc.value.entries;
    var stats := StatsEntries(Get(m, "stats"));
    if stats.None? {
      return [], -1;
    }
    var es := stats.value;
    var rest, n, bindable := ModelPass(st, changeName, es);
    if !bindable {
      return [], -1;
    }
    stmts := [ChangeInsert(changeName, m)] + rest;
    count := n;
  }

  /** The loop of the generator. `bindable` is false where a taking-part `pcm_id` is a list, a
      mapping or an integer outside 64 bits, whose bind raises; the generator then gives up. */
  method ModelPass(st: Store, changeName: string, es: seq<Entry>) returns (stmts: seq<Stmt>, count: int, bindable: bool)
    ensures bindable <==> PcmsBindable(es)
    ensures bindable ==> stmts == Statements(st, changeName, es)
    ensures bindable ==> count == |HistoryInserts(st, changeName, Assertions(es, STAT_KEYS))|
  {
    stmts := [];
    count := 0;
    ghost var history: seq<Stmt> := [];
    var i := 0;
    while i < |es|
      invariant 0 <= i <= |es|
      invariant PcmsBindable(es[..i])
      invariant stmts == Statements(st, changeName, es[..i])
      invariant history == HistoryInserts(st, changeName, Assertions(es[..i], STAT_KEYS))
      invariant count == |history|
    {
      StatementsStep(st, changeName, es, i);
      HistoryStep(st, changeName, es, i);
      PcmsBindableStep(es, i);
      var e := es[i];
      var pcm := Get(e, "pcm_id");
      var name := Get(e, "name");
      if Truthy(pcm) && Truthy(name) {
        if !CanBind(pcm) {
          PrefixNotBindable(es, i + 1);
          return [], -1, false;
        }
        var more, n := EntryPass(st, changeName, e);
        stmts := stmts + more;
        count := count + n;
        history := history + HistoryInserts(st, changeName, EntryAssertions(e, STAT_KEYS));
      }
      i := i + 1;
    }
    assert es[..|es|] == es;
    bindable := true;
  }

  /** One more entry of a prefix adds its history inserts when it takes part. */
  lemma HistoryStep(st: Store, changeName: string, es: seq<Entry>, i: nat)
    requires i < |es|
    ensures HistoryInserts(st, changeName, Assertions(es[..i + 1], STAT_KEYS)) ==
      HistoryInserts(st, changeName, Assertions(es[..i], STAT_KEYS))
      + (if Active(es[i]) then HistoryInserts(st, changeName, EntryAssertions(es[i], STAT_KEYS)) else [])
  {
    AssertionsStep(es, STAT_KEYS, i);
    var ea := if Active(es[i]) then EntryAssertions(es[i], STAT_KEYS) else [];
    HistoryInsertsAppend(st, changeName, Assertions(es[..i], STAT_KEYS), ea);
    if !Active(es[i]) {
      assert Assertions(es[..i], STAT_KEYS) + ea == Assertions(es[..i], STAT_KEYS);
      assert HistoryInserts(st, changeName, []) == [];
    }
  }

  /** The body of the generator's loop for one taking-part entry: the cyclist insert when the
      store lacks the cyclist, then the history inserts. */
  method EntryPass(st: Store, changeName: string, e: Entry) returns (stmts: seq<Stmt>, count: int)
    ensures stmts == EntryStatements(st, changeName, e)
    ensures count == |HistoryInserts(st, changeName, EntryAssertions(e, STAT_KEYS))|
  {
    var c := CyclistInsertIfNotExists(st, Get(e, "pcm_id"), Get(e, "name"), e);
    var inserts;
    inserts, count := EntryHistoryPass(st, changeName, e);
    stmts := OptionToSeq(c) + inserts;
  }

  /** The generator reads the store's cyclists and history, not its ledger. */
  lemma {:induction false} StatementsReadData(st: Store, st': Store, changeName: string, es: seq<Entry>)
    requires st.cyclists == st'.cyclists && st.history == st'.history
    ensures Statements(st, changeName, es) == Statements(st', changeName, es)
    decreases |es|
  {
    if es != [] {
      var e := es[|es| - 1];
      StatementsReadData(st, st', changeName, es[..|es| - 1]);
      HistoryInsertsReadHistory(st, st', changeName, EntryAssertions(e, STAT_KEYS));
    }
  }

  lemma GenerationReadsData(st: Store, st': Store, changeName: string, doc: Option<Yaml>)
    requires st.cyclists == st'.cyclists && st.history == st'.history
    ensures ModelGenerateSql(st, changeName, doc) == ModelGenerateSql(st', changeName, doc)
  {
    if Generable(doc) {
      var es := EntriesOfDoc(doc);
      StatementsReadData(st, st', changeName, es);
      HistoryInsertsReadHistory(st, st', changeName, Assertions(es, STAT_KEYS));
    }
  }

  /** A generated `inserts.sql`: the change it belongs to, its statements and its count. */
  datatype Written = Written(change: string, statements: seq<Stmt>, count: int)

  /** The ledger insert the driver executes itself once a change's file is written, with
      `date` defaulting to `'Unknown'`. */
  function MarkStmt(changeName: string, m: seq<(Key, Yaml)>): (s: Stmt)
    ensures s.InsertChange? && s.changeName == changeName
  {
    InsertChange(changeName, GetOr(m, "description", YStr("")), GetOr(m, "author", YStr("Unknown")),
                 GetOr(m, "date", YStr("Unknown")))
  }

  /** For a record that has a `date`, the row the driver writes is the row the file's first
      statement inserts. */
  lemma MarkStmtIsChangeInsert(changeName: string, m: seq<(Key, Yaml)>)
    requires HasKey(m, "date")
    ensures MarkStmt(changeName, m) == ChangeInsert(changeName, m)
  {
  }

  /** The values of the ledger insert can be bound as query parameters: a list, a mapping or an
      integer outside 64 bits cannot, and the driver then only warns. */
  predicate Bindable(s: Stmt) {
    s.InsertChange? && CanBind(s.description) && CanBind(s.author) && CanBind(s.date)
  }

  /** Executes the driver's ledger insert; when it cannot be bound or fails, the driver only
      warns and the store is unchanged. */
  function MarkLedger(st: Store, s: Stmt): (r: Store)
    requires s.InsertChange?
    ensures r.cyclists == st.cyclists && r.history == st.history
    ensures r.changes.Keys == st.changes.Keys || r.changes.Keys == st.changes.Keys + {s.changeName}
    ensures Bindable(s) ==> s.changeName in r.changes
    ensures !Bindable(s) ==> r == st
  {
    if Bindable(s) then
      match ExecStmt(st, s)
      case Done(st') => st'
      case Failed(_) => st
    else st
  }

  /** The driver's state after some directories of the queue. */
  datatype Progress = Progress(store: Store, processed: nat, newChanges: int, written: seq<Written>)

  function Start(st: Store): Progress {
    Progress(st, 0, 0, [])
  }

  /** The file a directory yields against a store: none without `change.yaml` or when the
      generator gives up, else the generator's statements and count. */
  function FileOf(st: Store, d: ChangeDir): (r: Option<Written>)
    ensures r.Some? <==> d.changeYaml.Some? && Generable(d.changeYaml.value)
    ensures r.Some? ==> r.value.change == d.name && r.value.count >= 0
    ensures r.Some? ==> (r.value.statements, r.value.count) == ModelGenerateSql(st, d.name, d.changeYaml.value)
  {
    match d.changeYaml
    case None => None
    case Some(doc) =>
      var r := ModelGenerateSql(st, d.name, doc);
      if r.1 >= 0 then Some(Written(d.name, r.0, r.1)) else None
  }

  /** One directory of the queue: skipped when it yields no file; otherwise written, counted
      and recorded in the ledger. */
  function Step(p: Progress, d: ChangeDir): Progress {
    match FileOf(p.store, d)
    case None => p
    case Some(w) =>
      Progress(MarkLedger(p.store, MarkStmt(d.name, d.changeYaml.value.value.entries)), p.processed + 1,
               p.newChanges + w.count, p.written + [w])
  }

  function WrittenOf(f: Option<Written>): seq<Written> {
    match f
    case Some(w) => [w]
    case None => []
  }

  lemma StepWritten(p: Progress, d: ChangeDir)
    ensures Step(p, d).written == p.written + WrittenOf(FileOf(p.store, d))
  {
  }

  function Run(p: Progress, queue: seq<ChangeDir>): Progress {
    if queue == [] then p else Step(Run(p, queue[..|queue| - 1]), queue[|queue| - 1])
  }

  /** The summary `process_new_change_files` returns. */
  datatype GenSummary = GenSummary(processedFiles: nat, newChanges: int, skippedFiles: int, sqlFilesGenerated: nat)

  /** `process_new_change_files` of src/model/api.py as a value: the store afterwards, the
      summary and the files written. Without a `changes` directory nothing happens. */
  function GenerateAll(st: Store, changesDirExists: bool, listing: seq<ChangeDir>): (Store, GenSummary, seq<Written>) {
    if !changesDirExists then (st, GenSummary(0, 0, 0, 0), [])
    else
      var p := Run(Start(st), Queue(listing, st.changes.Keys));
      (p.store, GenSummary(p.processed, p.newChanges, |Directories(listing)| - p.processed, p.processed), p.written)
  }

  function SumCounts(ws: seq<Written>): int {
    if ws == [] then 0 else SumCounts(ws[..|ws| - 1]) + ws[|ws| - 1].count
  }

  /** A run changes only the ledger, and never removes from it. */
  lemma {:induction false} RunKeepsData(st: Store, queue: seq<ChangeDir>)
    ensures var p := Run(Start(st), queue);
      p.store.cyclists == st.cyclists && p.store.history == st.history && st.changes.Keys <= p.store.changes.Keys
    decreases |queue|
  {
    if queue != [] {
      RunKeepsData(st, queue[..|queue| - 1]);
    }
  }

  /** The bookkeeping of a run agrees with its files: one processed file per written file,
      the new-change count sums their counts, and none of them is -1. */
  predicate Consistent(p: Progress) {
    && p.processed == |p.written|
    && p.newChanges == SumCounts(p.written)
    && forall i :: 0 <= i < |p.written| ==> p.written[i].count >= 0
  }

  lemma StepConsistent(p: Progress, d: ChangeDir)
    requires Consistent(p)
    ensures Consistent(Step(p, d))
  {
    var p' := Step(p, d);
    match FileOf(p.store, d)
    case None =>
    case Some(w) =>
      assert p'.written[..|p'.written| - 1] == p.written;
  }

  /** Every state a run passes through is consistent, and it writes at most one file per
      queued directory. */
  lemma {:induction false} RunSummary(st: Store, queue: seq<ChangeDir>)
    ensures Consistent(Run(Start(st), queue))
    ensures |Run(Start(st), queue).written| <= |queue|
    decreases |queue|
  {
    if queue != [] {
      var p0 := Run(Start(st), queue[..|queue| - 1]);
      RunSummary(st, queue[..|queue| - 1]);
      StepConsistent(p0, queue[|queue| - 1]);
    }
  }

  /** The files a run writes are exactly those the queued directories produce, judged against
      the store the run started from. */
  lemma {:induction false} RunWrittenIff(st: Store, queue: seq<ChangeDir>, w: Written)
    ensures w in Run(Start(st), queue).written <==> exists d :: d in queue && FileOf(st, d) == Some(w)
    decreases |queue|
  {
    if queue != [] {
      var init := queue[..|queue| - 1];
      var d := queue[|queue| - 1];
      var p0 := Run(Start(st), init);
      var p := Run(Start(st), queue);
      var f := FileOf(st, d);
      RunWrittenIff(st, init, w);
      assert FileOf(p0.store, d) == f by {
        RunKeepsData(st, init);
        if d.changeYaml.Some? {
          GenerationReadsData(p0.store, st, d.name, d.changeYaml.value);
        }
      }
      assert p.written == p0.written + WrittenOf(f) by {
        StepWritten(p0, d);
      }
      assert w in p.written <==> w in p0.written || f == Some(w);
      if exists x :: x in queue && FileOf(st, x) == Some(w) {
        var x :| x in queue && FileOf(st, x) == Some(w);
        if x != d {
          assert x in init;
        }
      }
    }
  }

  /** A queued directory whose file was written, and whose ledger values can be bound, is in
      the ledger afterwards. */
  lemma {:induction false} RunMarks(st: Store, queue: seq<ChangeDir>, d: ChangeDir)
    requires d in queue && d.changeYaml.Some? && Generable(d.changeYaml.value)
    requires Bindable(MarkStmt(d.name, d.changeYaml.value.value.entries))
    ensures d.name in Run(Start(st), queue).store.changes
    decreases |queue|
  {
    var init := queue[..|queue| - 1];
    var last := queue[|queue| - 1];
    RunKeepsData(st, init);
    GenerationReadsData(Run(Start(st), init).store, st, last.name, d.changeYaml.value);
    if d != last {
      assert d in init;
      RunMarks(st, init, d);
    }
  }

  /** The files, summary and store `process_new_change_files` produces: a directory is
      processed when it is new, has a `change.yaml` and generates; the skipped count is every
      other directory; the new-change count sums the processed counts. */
  lemma GenerateAllSummary(st: Store, listing: seq<ChangeDir>)
    ensures var (st', s, ws) := GenerateAll(st, true, listing);
      && st'.cyclists == st.cyclists && st'.history == st.history
      && s.processedFiles == s.sqlFilesGenerated == |ws|
      && s.skippedFiles == |Directories(listing)| - |ws| >= 0
      && s.newChanges == SumCounts(ws)
      && (forall w :: w in ws <==> exists d :: d in listing && d.isDir && d.name !in st.changes && FileOf(st, d) == Some(w))
  {
    var q := Queue(listing, st.changes.Keys);
    RunKeepsData(st, q);
    RunSummary(st, q);
    forall w ensures w in Run(Start(st), q).written <==> exists d :: d in listing && d.isDir && d.name !in st.changes && FileOf(st, d) == Some(w) {
      RunWrittenIff(st, q, w);
      forall d ensures d in q <==> d in listing && d.isDir && d.name !in st.changes {
        QueueIff(listing, st.changes.Keys, d);
      }
    }
  }

  /** Running the driver again over the same directories never rewrites a change that the
      first run wrote and recorded in the ledger. */
  lemma RerunSkipsRecorded(st: Store, listing: seq<ChangeDir>, d: ChangeDir)
    requires d in listing && d.isDir && d.name !in st.changes
    requires d.changeYaml.Some? && Generable(d.changeYaml.value)
    requires Bindable(MarkStmt(d.name, d.changeYaml.value.value.entries))
    ensures var first := GenerateAll(st, true, listing).0;
      forall w :: w in GenerateAll(first, true, listing).2 ==> w.change != d.name
  {
    var q := Queue(listing, st.changes.Keys);
    QueueIff(listing, st.changes.Keys, d);
    RunMarks(st, q, d);
    var first := GenerateAll(st, true, listing).0;
    forall w | w in GenerateAll(first, true, listing).2 ensures w.change != d.name {
      RunWrittenIff(first, Queue(listing, first.changes.Keys), w);
      var d' :| d' in Queue(listing, first.changes.Keys) && FileOf(first, d') == Some(w);
      QueueIff(listing, first.changes.Keys, d');
    }
  }

  /** A written file cannot be executed against the store the driver leaves once its change
      is recorded: its first statement is the ledger insert of a name already there. */
  lemma WrittenFileReplayFails(st: Store, listing: seq<ChangeDir>, w: Written)
    requires w in GenerateAll(st, true, listing).2
    requires w.change in GenerateAll(st, true, listing).0.changes
    ensures Exec(GenerateAll(st, true, listing).0, w.statements) == Failed(DuplicateChange)
  {
    var q := Queue(listing, st.changes.Keys);
    RunWrittenIff(st, q, w);
    var d :| d in q && FileOf(st, d) == Some(w);
    var s := w.statements;
    assert s == [s[0]] + s[1..];
    ReplayFails(GenerateAll(st, true, listing).0, w.change, s[0].description, s[0].author, s[0].date, s[1..]);
  }

  /** One step of the driver by cases: no `change.yaml` or a failed generation leaves the
      progress as it was; otherwise the file is appended and its change marked in the ledger. */
  lemma StepCases(p: Progress, d: ChangeDir)
    ensures d.changeYaml.None? ==> Step(p, d) == p
    ensures d.changeYaml.Some? ==>
      var r := ModelGenerateSql(p.store, d.name, d.changeYaml.value);
      Step(p, d) == if r.1 < 0 then p else
        Progress(MarkLedger(p.store, MarkStmt(d.name, d.changeYaml.value.value.entries)), p.processed + 1,
                 p.newChanges + r.1, p.written + [Written(d.name, r.0, r.1)])
  {
  }

  /** `process_new_change_files` of src/model/api.py: the ledger snapshot and the directory
      listing fix the queue; each queued directory with a `change.yaml` is generated and, on
      success, written and recorded in the ledger. */
  method ProcessNewChangeFiles(st: Store, changesDirExists: bool, listing: seq<ChangeDir>)
    returns (st': Store, summary: GenSummary, written: seq<Written>)
    ensures (st', summary, written) == GenerateAll(st, changesDirExists, listing)
  {
    if !changesDirExists {
      return st, GenSummary(0, 0, 0, 0), [];
    }
    var existing := st.changes.Keys;
    var dirs := Directories(listing);
    var queue := Unrecorded(dirs, existing);
    var p := Start(st);
    var i := 0;
    while i < |queue|
      invariant 0 <= i <= |queue|
      invariant p == Run(Start(st), queue[..i])
    {
      assert queue[..i + 1][..i] == queue[..i];
      var d := queue[i];
      StepCases(p, d);
      if d.changeYaml.Some? {
        var doc := d.changeYaml.value;
        var stmts, count := GenerateSqlForChangeFile(p.store, d.name, doc);
        if count >= 0 {
          p := Progress(MarkLedger(p.store, MarkStmt(d.name, doc.value.entries)), p.processed + 1,
                        p.newChanges + count, p.written + [Written(d.name, stmts, count)]);
        }
      }
      i := i + 1;
    }
    assert queue[..|queue|] == queue;
    st' := p.store;
    summary := GenSummary(p.processed, p.newChanges, |dirs| - p.processed, p.processed);
    written := p.written;
  }
}
