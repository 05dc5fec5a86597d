/** The SQL generator of src/api.py (`_generate_sql_for_change_file`): a ledger insert and the
    cyclist inserts in a first list, de-duplicated by `pcm_id` within the change, and the
    history inserts in a second list. */
module Reconcile {
  import opened Yaml
  import opened Commons
  import opened Store
  import opened Change

  /** The `pcm_id`s of the taking-part entries (`processed_cyclists`). */
  function SeenPcms(es: seq<Entry>): set<Yaml> {
    if es == [] then {}
    else
      var e := es[|es| - 1];
      SeenPcms(es[..|es| - 1]) + (if Active(e) then {PcmOf(e)} else {})
  }

  lemma {:induction false} SeenPcmsIff(es: seq<Entry>, p: Yaml)
    ensures p in SeenPcms(es) <==> exists i :: 0 <= i < |es| && Active(es[i]) && PcmOf(es[i]) == p
    decreases |es|
  {
    if es != [] {
      var init := es[..|es| - 1];
      SeenPcmsIff(init, p);
      assert forall i :: 0 <= i < |init| ==> init[i] == es[i];
    }
  }

  function OptionToSeq(o: Option<Stmt>): seq<Stmt> {
    match o
    case Some(s) => [s]
    case None => []
  }

  /** The cyclist inserts: one per `pcm_id`, on its first taking-part entry, when the store
      does not hold it. */
  function CyclistInserts(st: Store, es: seq<Entry>): seq<Stmt> {
    if es == [] then []
    else
      var init := es[..|es| - 1];
      var e := es[|es| - 1];
      CyclistInserts(st, init)
        + (if Active(e) && PcmOf(e) !in SeenPcms(init)
           then OptionToSeq(CyclistInsertIfNotExists(st, PcmOf(e), Get(e, "name"), e))
           else [])
  }

  lemma CyclistInsertsStep(st: Store, es: seq<Entry>, i: nat)
    requires i < |es|
    ensures SeenPcms(es[..i + 1]) == SeenPcms(es[..i]) + (if Active(es[i]) then {PcmOf(es[i])} else {})
    ensures CyclistInserts(st, es[..i + 1]) == CyclistInserts(st, es[..i])
      + (if Active(es[i]) && PcmOf(es[i]) !in SeenPcms(es[..i])
         then OptionToSeq(CyclistInsertIfNotExists(st, PcmOf(es[i]), Get(es[i], "name"), es[i]))
         else [])
  {
    assert es[..i + 1][..i] == es[..i];
  }

  /** A prefix with a `pcm_id` that cannot be bound spoils the whole list. */
  lemma {:induction false} PrefixNotBindable(es: seq<Entry>, n: nat)
    requires n <= |es| && !PcmsBindable(es[..n])
    ensures !PcmsBindable(es)
    decreases |es| - n
  {
    if n < |es| {
      assert es[..n + 1][..n] == es[..n];
      PrefixNotBindable(es, n + 1);
    } else {
      assert es[..n] == es;
    }
  }

  /** Every cyclist insert is for a `pcm_id` of a taking-part entry. */
  lemma {:induction false} CyclistInsertsFromEntries(st: Store, es: seq<Entry>)
    ensures forall s :: s in CyclistInserts(st, es) ==> s.InsertCyclist? && s.pcm in SeenPcms(es)
    decreases |es|
  {
    if es != [] {
      CyclistInsertsFromEntries(st, es[..|es| - 1]);
    }
  }

  predicate DistinctPcms(r: seq<Stmt>)
    requires forall s :: s in r ==> s.InsertCyclist?
  {
    forall i, j :: 0 <= i < j < |r| ==> r[i].pcm != r[j].pcm
  }

  /** No `pcm_id` gets two cyclist inserts from one change. */
  lemma {:induction false} CyclistInsertsUnique(st: Store, es: seq<Entry>)
    ensures forall s :: s in CyclistInserts(st, es) ==> s.InsertCyclist?
    ensures DistinctPcms(CyclistInserts(st, es))
    decreases |es|
  {
    CyclistInsertsFromEntries(st, es);
    if es != [] {
      var init := es[..|es| - 1];
      var e := es[|es| - 1];
      CyclistInsertsUnique(st, init);
      CyclistInsertsFromEntries(st, init);
      var a := CyclistInserts(st, init);
      var r := CyclistInserts(st, es);
      if |r| > |a| {
        assert r == a + [r[|r| - 1]];
        assert r[|r| - 1].pcm == PcmOf(e) && PcmOf(e) !in SeenPcms(init);
        forall i, j | 0 <= i < j < |r| ensures r[i].pcm != r[j].pcm {
          assert r[i] == a[i];
          if j < |a| {
            assert r[j] == a[j];
          } else {
            assert a[i] in a;
          }
        }
      } else {
        assert r == a;
      }
    }
  }

  /** A `pcm_id` gets a cyclist insert exactly when some taking-part entry carries it and the
      store does not hold it; the insert is built from the first such entry. */
  lemma {:induction false} CyclistInsertsIff(st: Store, es: seq<Entry>, p: Yaml)
    ensures (exists s :: s in CyclistInserts(st, es) && s.InsertCyclist? && s.pcm == p) <==>
      p in SeenPcms(es) && ParamId(p) !in st.cyclists
    ensures forall s :: s in CyclistInserts(st, es) && s.InsertCyclist? && s.pcm == p ==>
      exists i :: 0 <= i < |es| && Active(es[i]) && PcmOf(es[i]) == p && p !in SeenPcms(es[..i])
               && Some(s) == CyclistInsertIfNotExists(st, p, Get(es[i], "name"), es[i])
    decreases |es|
  {
    if es != [] {
      var init := es[..|es| - 1];
      var e := es[|es| - 1];
      CyclistInsertsIff(st, init, p);
      CyclistInsertsFromEntries(st, init);
      SeenPcmsIff(init, p);
      SeenPcmsIff(es, p);
      assert es[..|es| - 1] == init;
      forall i | 0 <= i < |init| ensures init[i] == es[i] && init[..i] == es[..i] {}
      if Active(e) && PcmOf(e) == p && p !in SeenPcms(init) && ParamId(p) !in st.cyclists {
        var s := CyclistInsertIfNotExists(st, p, Get(e, "name"), e).value;
        assert s in CyclistInserts(st, es);
      }
    }
  }

  /** `_generate_sql_for_change_file` of src/api.py as a value: (step-1 statements, step-2
      statements, count), with `([], [], -1)` when the record is unusable. */
  function GenerateSql(st: Store, changeName: string, doc: Option<Yaml>): (r: (seq<Stmt>, seq<Stmt>, int))
    ensures r.2 == -1 <==> !Generable(doc)
    ensures r.2 == -1 ==> r.0 == [] && r.1 == []
    ensures r.2 >= 0 ==> r.2 == |r.1| && |r.0| >= 1 && r.0[0] == ChangeInsert(changeName, doc.value.entries)
    ensures r.2 >= 0 ==> forall i :: 1 <= i < |r.0| ==> r.0[i].InsertCyclist?
  {
    if !Generable(doc) then ([], [], -1)
    else
      var es := EntriesOfDoc(doc);
      var h := HistoryInserts(st, changeName, Assertions(es, STAT_KEYS));
      CyclistInsertsFromEntries(st, es);
      ([ChangeInsert(changeName, doc.value.entries)] + CyclistInserts(st, es), h, |h|)
  }

  /** A parsed change without `date` or without `stats` produces nothing and the count -1. */
  lemma MissingFieldsFail(st: Store, changeName: string, m: seq<(Key, Yaml)>)
    requires !HasKey(m, "date") || !HasKey(m, "stats")
    ensures GenerateSql(st, changeName, Some(YMap(m))) == ([], [], -1)
  {
  }

  /** A history insert is produced exactly for each taking-part entry and stat key whose value is
      given and differs from the stored latest version. */
  lemma HistoryInsertIff(st: Store, changeName: string, doc: Option<Yaml>, s: Stmt)
    requires Generable(doc)
    ensures s in GenerateSql(st, changeName, doc).1 <==>
      exists i, a :: 0 <= i < |EntriesOfDoc(doc)| && Asserts(EntriesOfDoc(doc)[i], STAT_KEYS, a)
        && ShouldInsertStatChange(st, a) && s == InsertHistory(a.pcm, changeName, a.stat, a.value)
  {
    var es := EntriesOfDoc(doc);
    HistoryInsertsIff(st, changeName, Assertions(es, STAT_KEYS), s);
    if s in GenerateSql(st, changeName, doc).1 {
      var a :| a in Assertions(es, STAT_KEYS) && ShouldInsertStatChange(st, a) && s == InsertHistory(a.pcm, changeName, a.stat, a.value);
      AssertionsIff(es, STAT_KEYS, a);
    }
    if exists i, a :: 0 <= i < |es| && Asserts(es[i], STAT_KEYS, a) && ShouldInsertStatChange(st, a)
                      && s == InsertHistory(a.pcm, changeName, a.stat, a.value) {
      var i, a :| 0 <= i < |es| && Asserts(es[i], STAT_KEYS, a) && ShouldInsertStatChange(st, a)
                  && s == InsertHistory(a.pcm, changeName, a.stat, a.value);
      AssertionsIff(es, STAT_KEYS, a);
    }
  }

  /** The generator itself: a first pass over the entries collecting cyclist inserts, then the
      history pass. */
  method GenerateSqlForChangeFile(st: Store, changeName: string, doc: Option<Yaml>)
    returns (step1: seq<Stmt>, step2: seq<Stmt>, count: int)
    ensures (step1, step2, count) == GenerateSql(st, changeName, doc)
  {
    if !(doc.Some? && doc.value.YMap? && HasKey(doc.value.entries, "date") && HasKey(doc.value.entries, "stats")) {
      return [], [], -1;
    }
    var m := doc.value.entries;
    var stats := StatsEntries(Get(m, "stats"));
    if stats.None? {
      return [], [], -1;
    }
    var es := stats.value;
    var cyclists, bindable := CyclistPass(st, es);
    if !bindable {
      return [], [], -1;
    }
    step1 := [ChangeInsert(changeName, m)] + cyclists;
    step2, count := HistoryPass(st, changeName, es);
  }

  /** In a bindable list every seen `pcm_id` can be bound. */
  lemma SeenPcmBindable(es: seq<Entry>, p: Yaml)
    requires PcmsBindable(es) && p in SeenPcms(es)
    ensures CanBind(p)
  {
    SeenPcmsIff(es, p);
    PcmsBindableIff(es);
    var i :| 0 <= i < |es| && Active(es[i]) && PcmOf(es[i]) == p;
  }

  /** The first pass of `_generate_sql_for_change_file`: the set of processed `pcm_id`s decides
      which entries may add a cyclist insert. `bindable` is false where a taking-part `pcm_id`
      is a list or mapping, which the set membership test rejects, or where the first entry
      with a `pcm_id` carries an integer outside 64 bits, whose bind in the store lookup
      raises. */
  method CyclistPass(st: Store, es: seq<Entry>) returns (inserts: seq<Stmt>, bindable: bool)
    ensures bindable <==> PcmsBindable(es)
    ensures bindable ==> inserts == CyclistInserts(st, es)
  {
    inserts := [];
    var processed: set<Yaml> := {};
    var i := 0;
    while i < |es|
      invariant 0 <= i <= |es|
      invariant processed == SeenPcms(es[..i])
      invariant inserts == CyclistInserts(st, es[..i])
      invariant PcmsBindable(es[..i])
    {
      CyclistInsertsStep(st, es, i);
      PcmsBindableStep(es, i);
      var e := es[i];
      var pcm := PcmOf(e);
      var name := Get(e, "name");
      if Truthy(pcm) && Truthy(name) {
        if !IsScalar(pcm) {
          PrefixNotBindable(es, i + 1);
          return [], false;
        }
        if pcm in processed {
          SeenPcmBindable(es[..i], pcm);
        } else {
          if !CanBind(pcm) {
            PrefixNotBindable(es, i + 1);
            return [], false;
          }
          var c := CyclistInsertIfNotExists(st, pcm, name, e);
          if c.Some? {
            inserts := inserts + [c.value];
          }
          processed := processed + {pcm};
        }
      }
      i := i + 1;
    }
    assert es[..|es|] == es;
    bindable := true;
  }

  /** The second pass of `_generate_sql_for_change_file`: for each taking-part entry and each
      stat key in order, a history insert when the value is given and differs from the store. */
  method HistoryPass(st: Store, changeName: string, es: seq<Entry>) returns (step2: seq<Stmt>, count: int)
    ensures step2 == HistoryInserts(st, changeName, Assertions(es, STAT_KEYS))
    ensures count == |step2|
  {
    step2 := [];
    count := 0;
    var i := 0;
    while i < |es|
      invariant 0 <= i <= |es|
      invariant step2 == HistoryInserts(st, changeName, Assertions(es[..i], STAT_KEYS))
      invariant count == |step2|
    {
      AssertionsStep(es, STAT_KEYS, i);
      var e := es[i];
      var pcm := Get(e, "pcm_id");
      var name := Get(e, "name");
      if Truthy(pcm) && Truthy(name) {
        var mine, n := EntryHistoryPass(st, changeName, e);
        step2 := step2 + mine;
        count := count + n;
        HistoryInsertsAppend(st, changeName, Assertions(es[..i], STAT_KEYS), EntryAssertions(e, STAT_KEYS));
      } else {
        assert Assertions(es[..i + 1], STAT_KEYS) == Assertions(es[..i], STAT_KEYS);
      }
      i := i + 1;
    }
    assert es[..|es|] == es;
  }

  /** The inner loop of both generators: for each stat key in order, a history insert when the
      entry gives a value and the store's latest version differs. */
  method EntryHistoryPass(st: Store, changeName: string, e: Entry) returns (inserts: seq<Stmt>, count: int)
    ensures inserts == HistoryInserts(st, changeName, EntryAssertions(e, STAT_KEYS))
    ensures count == |inserts|
  {
    inserts := [];
    count := 0;
    var pcm := Get(e, "pcm_id");
    var j := 0;
    while j < |STAT_KEYS|
      invariant 0 <= j <= |STAT_KEYS|
      invariant inserts == HistoryInserts(st, changeName, EntryAssertions(e, STAT_KEYS[..j]))
      invariant count == |inserts|
    {
      EntryHistoryStep(st, changeName, e, STAT_KEYS, j);
      var k := STAT_KEYS[j];
      var v := Get(e, k);
      if v != YNull && v != YStr("") && ShouldInsertStatChange(st, Assertion(pcm, k, v)) {
        inserts := inserts + [InsertHistory(pcm, changeName, k, v)];
        count := count + 1;
      }
      j := j + 1;
    }
    assert STAT_KEYS[..|STAT_KEYS|] == STAT_KEYS;
  }
}
