/** The layout rule of `_write_stats_yaml_with_flow_style` (src/api.py): a mapping is written
    in flow style exactly when all its keys are stat keys, and every other mapping in block
    style. The serialisation itself is not modelled. */
module StatsWriter {
  import opened Yaml
  import opened Commons
  import opened Change
  import opened Workspace
  import opened Snapshot
  import opened Importer

  /** `represent_dict`'s test: every key is one of the fourteen stat names (the list it tests
      against is `STAT_KEYS`, written out). A key that is not a string is never in it. */
  predicate FlowStyle(d: Dict) {
    forall i :: 0 <= i < |d| ==> d[i].0.KStr? && d[i].0.s in STAT_KEYS
  }

  /** A word of lower-case letters is not an integer literal. */
  lemma LettersAreNotIntegers(s: string)
    requires |s| > 0 && forall i :: 0 <= i < |s| ==> 'a' <= s[i] <= 'z'
    ensures ParseInt(s) == None
  {
    StripNoSpace(s);
    assert !IsDigit(s[|s| - 1]);
  }

  /** No stat key reads as an integer. */
  lemma StatKeysAreNotIntegers(k: string)
    requires k in STAT_KEYS
    ensures ParseInt(k) == None
  {
    LettersAreNotIntegers(k);
  }

  /** A cyclist record, which has a `name`, is written in block style. */
  lemma RecordIsBlock(d: Dict)
    requires HasKey(d, "name")
    ensures !FlowStyle(d)
  {
    FindSpec(d, "name");
    var i :| 0 <= i < |d| && d[i].0 == KStr("name");
  }

  /** A non-empty mapping keyed by integers, as the top of `stats.yaml` is, is written in
      block style. */
  lemma IntKeyedIsBlock(d: Dict)
    requires d != [] && AllIntKeys(d)
    ensures !FlowStyle(d)
  {
    if d[0].0.KStr? && d[0].0.s in STAT_KEYS {
      StatKeysAreNotIntegers(d[0].0.s);
    }
  }

  /** The merged `stats` mapping the projector builds is written in flow style. */
  lemma {:induction false} MergedStatsAreFlow(prior: Dict, e: Entry, keys: seq<string>)
    requires forall k :: k in keys ==> k in STAT_KEYS
    ensures FlowStyle(MergeStats(prior, e, keys).0)
    decreases |keys|
  {
    if keys != [] {
      var init := keys[..|keys| - 1];
      var k := keys[|keys| - 1];
      MergedStatsAreFlow(prior, e, init);
      var d: Dict := MergeStats(prior, e, init).0;
      var p: Dict := StatPair(k, StatUpdate(prior, e, k));
      var r: Dict := d + p;
      forall i | 0 <= i < |r| ensures r[i].0.KStr? && r[i].0.s in STAT_KEYS {
        if i >= |d| {
          assert r[i] == p[i - |d|];
        }
      }
    }
  }

  /** A record the projector writes for a touched cyclist is written in block style, its
      nested `stats` in flow style. */
  lemma ProjectedRecordLayout(prior: Dict, e: Entry)
    requires Record(prior, e).Some?
    ensures var rec := Record(prior, e).value.0;
      && !FlowStyle(rec)
      && (HasKey(rec, "stats") ==> Find(rec, "stats").value.YMap? && FlowStyle(Find(rec, "stats").value.entries))
  {
    var sd := MergeStats(OldStats(prior), e, STAT_KEYS).0;
    RecordFind(prior, e, sd, "name");
    RecordFind(prior, e, sd, "stats");
    RecordIsBlock(Record(prior, e).value.0);
    MergedStatsAreFlow(OldStats(prior), e, STAT_KEYS);
  }

  /** The layout of a record the importer writes: block style, its `stats` in flow style. */
  lemma ImportedRecordLayout(row: CdbRow)
    requires RowRecord(row).Some?
    ensures var rec := RowRecord(row).value;
      && !FlowStyle(rec)
      && (HasKey(rec, "stats") ==> Find(rec, "stats").value.YMap? && FlowStyle(Find(rec, "stats").value.entries))
  {
    RowRecordSpec(row);
    RecordIsBlock(RowRecord(row).value);
    ColumnStatsKeys(row.stats, STAT_KEYS);
    var sd := ColumnStats(row.stats, STAT_KEYS);
    forall i | 0 <= i < |sd| ensures sd[i].0.KStr? && sd[i].0.s in STAT_KEYS {
      assert sd[i] in sd;
    }
  }

  /** Every value the import stores is the record of one of the rows. */
  lemma {:induction false} ImportRowsValues(rows: seq<CdbRow>, x: (Key, Yaml))
    requires ImportRows(rows).Some? && x in ImportRows(rows).value
    ensures exists i :: 0 <= i < |rows| && RowRecord(rows[i]).Some? && x.1 == YMap(RowRecord(rows[i]).value)
    decreases |rows|
  {
    var init := rows[..|rows| - 1];
    var row := rows[|rows| - 1];
    var d := ImportRows(init).value;
    assert ImportRows(rows) == ImportStep(d, row);
    var rec := RowRecord(row).value;
    PutValues(d, PyStr(row.id), YMap(rec), x);
    if x.1 != YMap(rec) {
      ImportRowsValues(init, x);
      var i :| 0 <= i < |init| && RowRecord(init[i]).Some? && x.1 == YMap(RowRecord(init[i]).value);
      assert rows[i] == init[i];
    }
  }

  /** An entry of `d[k] = v` is an entry of `d` or carries `v`. */
  lemma {:induction false} PutValues(m: Dict, k: string, v: Yaml, x: (Key, Yaml))
    requires x in Put(m, k, v)
    ensures x in m || x.1 == v
    decreases |m|
  {
    if |m| > 0 && m[0].0 != KStr(k) && x != m[0] {
      PutValues(m[1..], k, v, x);
    }
  }

  /** The `stats.yaml` the importer writes: the top mapping and each cyclist record in block
      style, each nested `stats` in flow style. */
  lemma ImportedLayout(cdb: CdbFile)
    requires Import(cdb).Some?
    ensures var d := Import(cdb).value;
      && !FlowStyle(d)
      && forall x :: x in d ==>
           && x.1.YMap? && !FlowStyle(x.1.entries)
           && (HasKey(x.1.entries, "stats") ==>
                 Find(x.1.entries, "stats").value.YMap? && FlowStyle(Find(x.1.entries, "stats").value.entries))
  {
    var rows := cdb.rows;
    ImportSpec(cdb);
    var raw := ImportRows(rows).value;
    var d := Import(cdb).value;
    ImportRowsKeys(rows);
    assert RowKey(rows[0]) in RowKeys(rows);
    assert |d| == |raw| > 0;
    forall j | 0 <= j < |d| ensures KeyToInt(d[j].0).Some? {
      assert d[j] in multiset(raw);
      var i :| 0 <= i < |raw| && raw[i] == d[j];
    }
    IntKeyedIsBlock(d);
    forall x | x in d
      ensures x.1.YMap? && !FlowStyle(x.1.entries)
      ensures HasKey(x.1.entries, "stats") ==>
        Find(x.1.entries, "stats").value.YMap? && FlowStyle(Find(x.1.entries, "stats").value.entries)
    {
      assert x in multiset(d);
      ImportRowsValues(rows, x);
      var i :| 0 <= i < |rows| && RowRecord(rows[i]).Some? && x.1 == YMap(RowRecord(rows[i]).value);
      ImportedRecordLayout(rows[i]);
    }
  }
}
