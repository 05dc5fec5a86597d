/** The row-to-record mapping of `import_cyclists_from_db` (src/api.py), which seeds
    `stats.yaml` from the `DYN_cyclist` table of `init_cdb.sqlite`. */
module Importer {
  import opened Yaml
  import opened Sorting
  import opened Commons
  import opened Workspace
  import opened Snapshot

  /** `x or ""` for a text column. */
  function OrEmpty(s: Option<string>): string {
    match s
    case Some(t) => t
    case None => ""
  }

  /** `f"{firstname} {lastname}".strip()`, or `Cyclist <id>` when that is empty. */
  function FullName(row: CdbRow): (r: string)
    ensures r != [] && !IsSpace(r[0])
  {
    var joined := Strip(OrEmpty(row.firstname) + " " + OrEmpty(row.lastname));
    if joined != "" then joined else "Cyclist " + PyStr(row.id)
  }

  /** `int(x)` for a column value: `None` where Python raises. */
  function ToInt(y: Yaml): Option<int> {
    match y
    case YBool(b) => Some(if b then 1 else 0)
    case YInt(i) => Some(i)
    case YStr(s) => ParseInt(s)
    case _ => None
  }

  /** The ability column counts as absent when it is `NULL` or `''`. */
  predicate HasAbility(row: CdbRow) {
    row.ability != YNull && row.ability != YStr("")
  }

  /** The `first_cycling_id` part of the record: empty without an ability value, else its
      integer; `None` where `int()` raises. */
  function AbilityPart(row: CdbRow): Option<Dict> {
    if !HasAbility(row) then Some([])
    else
      match ToInt(row.ability)
      case Some(i) => Some([(KStr("first_cycling_id"), YInt(i))])
      case None => None
  }

  /** The stat column of key number `j` exists and is not `NULL`. */
  predicate HasColumn(cols: seq<Yaml>, j: nat) {
    j < |cols| && cols[j] != YNull
  }

  /** `stats_dict` after the given stat keys: key number `j` takes column `j` when it exists and
      is not `NULL`. */
  function ColumnStats(cols: seq<Yaml>, keys: seq<string>): Dict {
    if keys == [] then []
    else
      var j := |keys| - 1;
      var d := ColumnStats(cols, keys[..j]);
      if HasColumn(cols, j) then Put(d, keys[j], cols[j]) else d
  }

  /** The stats mapping holds, under each of the (distinct) keys, the column of that key when it
      exists and is not `NULL`, and nothing under any other key. */
  lemma {:induction false} ColumnStatsFind(cols: seq<Yaml>, keys: seq<string>, j: nat, k: string)
    requires Distinct(keys)
    requires j < |keys|
    ensures Find(ColumnStats(cols, keys), keys[j]) == if HasColumn(cols, j) then Some(cols[j]) else None
    ensures k !in keys ==> Find(ColumnStats(cols, keys), k) == None
    decreases |keys|
  {
    var n := |keys| - 1;
    var init := keys[..n];
    var d := ColumnStats(cols, init);
    if HasColumn(cols, n) {
      PutFind(d, keys[n], cols[n], keys[j]);
      PutFind(d, keys[n], cols[n], k);
    }
    if n > 0 {
      assert Distinct(init);
      if j < n {
        assert init[j] == keys[j] && keys[j] != keys[n];
        ColumnStatsFind(cols, init, j, k);
      } else {
        assert keys[n] !in init;
        ColumnStatsFind(cols, init, 0, k);
        ColumnStatsFind(cols, init, 0, keys[n]);
      }
    }
  }

  /** Every key of the stats mapping is one of the keys. */
  lemma {:induction false} ColumnStatsKeys(cols: seq<Yaml>, keys: seq<string>)
    ensures forall x :: x in ColumnStats(cols, keys) ==> x.0.KStr? && x.0.s in keys
    decreases |keys|
  {
    if keys != [] {
      var n := |keys| - 1;
      var init := keys[..n];
      ColumnStatsKeys(cols, init);
      var d := ColumnStats(cols, init);
      if HasColumn(cols, n) {
        PutSpec(d, keys[n], cols[n]);
        forall x | x in Put(d, keys[n], cols[n]) ensures x.0.KStr? && x.0.s in keys {
          assert x.0 in KeySet(Put(d, keys[n], cols[n]));
          if x.0 != KStr(keys[n]) {
            assert x.0 in KeySet(d);
            var y :| y in d && y.0 == x.0;
          }
        }
      }
    }
  }

  /** The stats mapping is empty exactly when no column of a key has a value. */
  lemma {:induction false} ColumnStatsEmpty(cols: seq<Yaml>, keys: seq<string>)
    ensures ColumnStats(cols, keys) == [] <==> forall j :: 0 <= j < |keys| ==> !HasColumn(cols, j)
    decreases |keys|
  {
    if keys != [] {
      var n := |keys| - 1;
      ColumnStatsEmpty(cols, keys[..n]);
      if HasColumn(cols, n) {
        PutSpec(ColumnStats(cols, keys[..n]), keys[n], cols[n]);
      }
    }
  }

  /** The record one row yields; `None` where `int()` of the ability value raises. */
  function RowRecord(row: CdbRow): Option<Dict> {
    match AbilityPart(row)
    case None => None
    case Some(fc) => Some([(KStr("name"), YStr(FullName(row)))] + fc + StatsPart(ColumnStats(row.stats, STAT_KEYS)))
  }

  /** A row's record: the row fails only on an ability value `int()` rejects; the name is never
      empty; `first_cycling_id` is the ability's integer when there is one; the `stats` key is
      present only when some stat column has a value, and holds the stats mapping. */
  lemma RowRecordSpec(row: CdbRow)
    ensures RowRecord(row).None? <==> HasAbility(row) && ToInt(row.ability).None?
    ensures RowRecord(row).Some? ==>
      var rec := RowRecord(row).value;
      && Find(rec, "name") == Some(YStr(FullName(row)))
      && Find(rec, "first_cycling_id") == (if HasAbility(row) then Some(YInt(ToInt(row.ability).value)) else None)
      && (HasKey(rec, "stats") <==> exists j :: 0 <= j < |STAT_KEYS| && HasColumn(row.stats, j))
      && (HasKey(rec, "stats") ==> Find(rec, "stats") == Some(YMap(ColumnStats(row.stats, STAT_KEYS))))
  {
    var sd := ColumnStats(row.stats, STAT_KEYS);
    ColumnStatsEmpty(row.stats, STAT_KEYS);
    if RowRecord(row).Some? {
      var fc := AbilityPart(row).value;
      var rec := RowRecord(row).value;
      var tail := fc + StatsPart(sd);
      assert rec == [(KStr("name"), YStr(FullName(row)))] + tail;
      assert rec[1..] == tail;
      FindAppend(fc, StatsPart(sd), "first_cycling_id");
      FindAppend(fc, StatsPart(sd), "stats");
    }
  }

  /** Each stat of a record is its column when that exists and is not `NULL`; a record holds
      no other stat. */
  lemma RowStatsSpec(row: CdbRow, j: nat, k: string)
    requires j < |STAT_KEYS|
    ensures Find(ColumnStats(row.stats, STAT_KEYS), STAT_KEYS[j]) ==
      if HasColumn(row.stats, j) then Some(row.stats[j]) else None
    ensures k !in STAT_KEYS ==> Find(ColumnStats(row.stats, STAT_KEYS), k) == None
  {
    StatKeysDistinct();
    ColumnStatsFind(row.stats, STAT_KEYS, j, k);
  }

  /** One row of the loop: its record stored under `str(IDcyclist)`, replacing an earlier
      record with that key in place; `None` when the row fails. */
  function ImportStep(d: Dict, row: CdbRow): Option<Dict> {
    match RowRecord(row)
    case Some(rec) => Some(Put(d, PyStr(row.id), YMap(rec)))
    case None => None
  }

  /** The mapping `stats_data` after the given rows; `None` as soon as a row fails. */
  function ImportRows(rows: seq<CdbRow>): Option<Dict> {
    if rows == [] then Some([])
    else
      match ImportRows(rows[..|rows| - 1])
      case None => None
      case Some(d) => ImportStep(d, rows[|rows| - 1])
  }

  /** The key a row is stored under. */
  function RowKey(row: CdbRow): Key {
    KStr(PyStr(row.id))
  }

  /** The keys of the rows. */
  function RowKeys(rows: seq<CdbRow>): set<Key> {
    set i | 0 <= i < |rows| :: RowKey(rows[i])
  }

  /** The import of the rows fails exactly when one row fails. */
  lemma {:induction false} ImportRowsFails(rows: seq<CdbRow>)
    ensures ImportRows(rows).None? <==> exists i :: 0 <= i < |rows| && RowRecord(rows[i]).None?
    decreases |rows|
  {
    if rows != [] {
      var init := rows[..|rows| - 1];
      var last := rows[|rows| - 1];
      ImportRowsFails(init);
      assert ImportRows(rows).None? <==> ImportRows(init).None? || RowRecord(last).None?;
      forall i | 0 <= i < |rows| ensures RowRecord(rows[i]).None? <==> (i < |init| && RowRecord(init[i]).None?) || (i == |init| && RowRecord(last).None?) {
        if i < |init| {
          assert init[i] == rows[i];
        }
      }
    }
  }

  /** A mapping whose keys are all different. */
  predicate UniqueKeys(d: Dict) {
    |d| == |KeySet(d)|
  }

  /** A step adds the row's key, and an entry only when the key is new. */
  lemma ImportStepKeys(d: Dict, row: CdbRow)
    requires ImportStep(d, row).Some? && UniqueKeys(d)
    ensures KeySet(ImportStep(d, row).value) == KeySet(d) + {RowKey(row)}
    ensures UniqueKeys(ImportStep(d, row).value)
  {
    var k := PyStr(row.id);
    PutSpec(d, k, YMap(RowRecord(row).value));
    FindSpec(d, k);
    if KStr(k) in KeySet(d) {
      var x :| x in d && x.0 == KStr(k);
      var i :| 0 <= i < |d| && d[i] == x;
      assert KeySet(d) + {KStr(k)} == KeySet(d);
    }
  }

  lemma RowKeysStep(rows: seq<CdbRow>)
    requires rows != []
    ensures RowKeys(rows) == RowKeys(rows[..|rows| - 1]) + {RowKey(rows[|rows| - 1])}
  {
    var init := rows[..|rows| - 1];
    forall k ensures k in RowKeys(rows) <==> k in RowKeys(init) + {RowKey(rows[|rows| - 1])} {
      if k in RowKeys(rows) && k != RowKey(rows[|rows| - 1]) {
        var i :| 0 <= i < |rows| && RowKey(rows[i]) == k;
        assert init[i] == rows[i];
      }
      if k in RowKeys(init) {
        var i :| 0 <= i < |init| && RowKey(init[i]) == k;
        assert rows[i] == init[i];
      }
    }
  }

  /** The imported mapping holds one entry per distinct row key: its keys are exactly those
      of the rows, and no key appears twice. */
  lemma {:induction false} ImportRowsKeys(rows: seq<CdbRow>)
    requires ImportRows(rows).Some?
    ensures KeySet(ImportRows(rows).value) == RowKeys(rows)
    ensures UniqueKeys(ImportRows(rows).value)
    decreases |rows|
  {
    if rows == [] {
      assert KeySet([]) == {};
    } else {
      var init := rows[..|rows| - 1];
      ImportRowsKeys(init);
      ImportStepKeys(ImportRows(init).value, rows[|rows| - 1]);
      RowKeysStep(rows);
    }
  }

  /** The record kept under a key is that of the last row with that key. */
  lemma {:induction false} ImportRowsLast(rows: seq<CdbRow>, i: nat)
    requires ImportRows(rows).Some? && i < |rows|
    requires forall j :: i < j < |rows| ==> RowKey(rows[j]) != RowKey(rows[i])
    ensures RowRecord(rows[i]).Some?
    ensures Find(ImportRows(rows).value, PyStr(rows[i].id)) == Some(YMap(RowRecord(rows[i]).value))
    decreases |rows|
  {
    ImportRowsFails(rows);
    var init := rows[..|rows| - 1];
    var row := rows[|rows| - 1];
    if i < |rows| - 1 {
      assert init[i] == rows[i];
      forall j | i < j < |init| ensures RowKey(init[j]) != RowKey(init[i]) {
        assert init[j] == rows[j];
      }
      ImportRowsLast(init, i);
      PutSpec(ImportRows(init).value, PyStr(row.id), YMap(RowRecord(row).value));
      assert ImportRows(rows) == ImportStep(ImportRows(init).value, row);
    }
  }

  /** `import_cyclists_from_db` as a value: the mapping written to `stats.yaml`, ordered by the
      integer value of its keys; `None` (the function returns `False` and writes nothing) when
      the table is unusable or empty, a row fails or a key is not an integer. */
  function Import(cdb: CdbFile): Option<Dict> {
    match cdb
    case Unusable => None
    case Rows(rows) =>
      if rows == [] then None
      else
        (match ImportRows(rows)
         case Some(d) => SortByInt(d)
         case None => None)
  }

  /** The import succeeds exactly when the table has rows, the rows map (see
      [[ImportRowsFails]]) and every key is an integer; the written mapping is then the imported one ordered by integer key. */
  lemma ImportSpec(cdb: CdbFile)
    ensures Import(cdb).Some? <==>
      && cdb.Rows? && cdb.rows != []
      && ImportRows(cdb.rows).Some?
      && AllIntKeys(ImportRows(cdb.rows).value)
    ensures Import(cdb).Some? ==>
      && Sorted(Import(cdb).value, ByIntKey)
      && multiset(Import(cdb).value) == multiset(ImportRows(cdb.rows).value)
  {
    if Import(cdb).Some? {
      ByIntKeyTotalPreorder();
      InsertionSortSorted(ImportRows(cdb.rows).value, ByIntKey);
    }
  }

  /** With integer `IDcyclist` values and well-formed rows the sort cannot fail: every key is
      the text of an integer. */
  lemma IntegerIdsImport(rows: seq<CdbRow>)
    requires rows != []
    requires forall i :: 0 <= i < |rows| ==> rows[i].id.YInt? && RowRecord(rows[i]).Some?
    ensures Import(Rows(rows)).Some?
  {
    ImportRowsFails(rows);
    var d := ImportRows(rows).value;
    forall j | 0 <= j < |d| ensures KeyToInt(d[j].0).Some? {
      assert d[j].0 in KeySet(d);
      ImportedIdIsInteger(rows, d[j].0);
    }
  }

  /** A key imported from integer `IDcyclist` values reads back as an integer. */
  lemma ImportedIdIsInteger(rows: seq<CdbRow>, k: Key)
    requires ImportRows(rows).Some?
    requires forall i :: 0 <= i < |rows| ==> rows[i].id.YInt?
    requires k in KeySet(ImportRows(rows).value)
    ensures KeyToInt(k).Some?
  {
    ImportRowsKeys(rows);
    var i :| 0 <= i < |rows| && RowKey(rows[i]) == k;
    ParseIntOfIntToString(rows[i].id.i);
  }

  /** The stats mapping of a row, built key by key. */
  method RowStats(cols: seq<Yaml>) returns (sd: Dict)
    ensures sd == ColumnStats(cols, STAT_KEYS)
  {
    sd := [];
    for i := 0 to |STAT_KEYS|
      invariant sd == ColumnStats(cols, STAT_KEYS[..i])
    {
      assert STAT_KEYS[..i + 1][..i] == STAT_KEYS[..i];
      if i < |cols| && cols[i] != YNull {
        sd := Put(sd, STAT_KEYS[i], cols[i]);
      }
    }
    assert STAT_KEYS[..|STAT_KEYS|] == STAT_KEYS;
  }

  /** The record of one row. */
  method BuildRecord(row: CdbRow) returns (rec: Option<Dict>)
    ensures rec == RowRecord(row)
  {
    var fc: Dict := [];
    if row.ability != YNull && row.ability != YStr("") {
      var i := ToInt(row.ability);
      if i.None? {
        return None;
      }
      fc := [(KStr("first_cycling_id"), YInt(i.value))];
    }
    assert AbilityPart(row) == Some(fc);
    var sd := RowStats(row.stats);
    var data := [(KStr("name"), YStr(FullName(row)))] + fc;
    if sd != [] {
      data := data + [(KStr("stats"), YMap(sd))];
    } else {
      assert data + StatsPart(sd) == data;
    }
    rec := Some(data);
  }

  /** `import_cyclists_from_db` of src/api.py: the rows are read into `stats_data` one by one,
      then the mapping is ordered by integer key for writing. */
  method ImportCyclistsFromDb(cdb: CdbFile) returns (written: Option<Dict>)
    ensures written == Import(cdb)
  {
    if cdb.Unusable? || cdb.rows == [] {
      return None;
    }
    var rows := cdb.rows;
    var data: Dict := [];
    var i := 0;
    while i < |rows|
      invariant 0 <= i <= |rows|
      invariant ImportRows(rows[..i]) == Some(data)
    {
      ImportRowsPrefix(rows, i, data);
      var rec := BuildRecord(rows[i]);
      if rec.None? {
        ImportRowsNone(rows, i + 1);
        return None;
      }
      data := Put(data, PyStr(rows[i].id), YMap(rec.value));
      i := i + 1;
    }
    assert rows[..i] == rows;
    written := SortByInt(data);
  }

  /** One more row of a prefix is one more step of the import. */
  lemma ImportRowsPrefix(rows: seq<CdbRow>, i: nat, data: Dict)
    requires i < |rows| && ImportRows(rows[..i]) == Some(data)
    ensures ImportRows(rows[..i + 1]) == ImportStep(data, rows[i])
  {
    assert rows[..i + 1][..i] == rows[..i];
  }

  /** A prefix that fails makes the whole import fail. */
  lemma {:induction false} ImportRowsNone(rows: seq<CdbRow>, n: nat)
    requires n <= |rows| && ImportRows(rows[..n]).None?
    ensures ImportRows(rows).None?
    decreases |rows| - n
  {
    if n < |rows| {
      assert rows[..n + 1][..n] == rows[..n];
      ImportRowsNone(rows, n + 1);
    } else {
      assert rows[..n] == rows;
    }
  }
}
