/** A change record as both SQL generators read it, and the helpers they share
    (`_generate_cyclist_insert_if_not_exists`, `_should_insert_stat_change`): the
    ledger insert, the entries of `stats`, which entries take part, and which stat values
    each entry asserts. */
module Change {
  import opened Yaml
  import opened Commons
  import opened Store

  /** One element of a change's `stats` list. */
  type Entry = seq<(Key, Yaml)>

  /** The mappings of a list, or `None` when one element is not a mapping. */
  function MapsOf(items: seq<Yaml>): (r: Option<seq<Entry>>)
    ensures r.Some? <==> forall i :: 0 <= i < |items| ==> items[i].YMap?
    ensures r.Some? ==> |r.value| == |items| && forall i :: 0 <= i < |items| ==> items[i] == YMap(r.value[i])
  {
    if items == [] then Some([])
    else
      var init := MapsOf(items[..|items| - 1]);
      var last := items[|items| - 1];
      if init.Some? && last.YMap? then Some(init.value + [last.entries])
      else
        assert forall i :: 0 <= i < |items| - 1 ==> items[..|items| - 1][i] == items[i];
        None
  }

  /** `for stat_update in change_data['stats']` followed by `stat_update.get(...)`: the entries,
      or `None` where the iteration or a `.get` raises. An empty string or mapping iterates
      nothing. */
  function StatsEntries(stats: Yaml): (r: Option<seq<Entry>>)
    ensures stats.YList? ==> r == MapsOf(stats.items)
    ensures !stats.YList? ==> (r.Some? <==> stats == YStr("") || stats == YMap([]))
    ensures !stats.YList? && r.Some? ==> r.value == []
  {
    match stats
    case YList(items) => MapsOf(items)
    case YMap(m) => if m == [] then Some([]) else None
    case YStr(s) => if s == "" then Some([]) else None
    case _ => None
  }

  function PcmOf(e: Entry): Yaml {
    Get(e, "pcm_id")
  }

  /** `if not pcm_id or not cyclist_name: continue` — an entry takes part only when both are truthy. */
  predicate Active(e: Entry) {
    Truthy(Get(e, "pcm_id")) && Truthy(Get(e, "name"))
  }

  /** The change-record checks both generators make before any output counts: a mapping with
      `date` and `stats`, whose `stats` iterates as mappings, and whose taking-part entries have a
      `pcm_id` that can be hashed and bound as a query parameter: binding a list or mapping, or
      an integer outside 64 bits, raises, and the generator's `except` turns that into `-1`. */
  predicate Generable(doc: Option<Yaml>) {
    && doc.Some? && doc.value.YMap?
    && HasKey(doc.value.entries, "date") && HasKey(doc.value.entries, "stats")
    && var es := StatsEntries(Get(doc.value.entries, "stats"));
       es.Some? && PcmsBindable(es.value)
  }

  /** Every taking-part entry has a `pcm_id` sqlite3 can bind. */
  predicate PcmsBindable(es: seq<Entry>) {
    if es == [] then true
    else
      var e := es[|es| - 1];
      PcmsBindable(es[..|es| - 1]) && (Active(e) ==> CanBind(PcmOf(e)))
  }

  lemma {:induction false} PcmsBindableIff(es: seq<Entry>)
    ensures PcmsBindable(es) <==> forall i :: 0 <= i < |es| && Active(es[i]) ==> CanBind(PcmOf(es[i]))
    decreases |es|
  {
    if es != [] {
      var p := es[..|es| - 1];
      PcmsBindableIff(p);
      assert forall i :: 0 <= i < |p| ==> p[i] == es[i];
    }
  }

  /** A taking-part entry whose `pcm_id` is an integer outside 64 bits makes the record
      unusable: its bind raises, and both generators answer `-1`. */
  lemma OverflowingIdNotGenerable(doc: Option<Yaml>, k: nat)
    requires doc.Some? && doc.value.YMap? && HasKey(doc.value.entries, "stats")
    requires StatsEntries(Get(doc.value.entries, "stats")).Some?
    requires k < |StatsEntries(Get(doc.value.entries, "stats")).value|
    requires var e := StatsEntries(Get(doc.value.entries, "stats")).value[k];
      Active(e) && PcmOf(e).YInt? && (PcmOf(e).i < INT64_MIN || PcmOf(e).i > INT64_MAX)
    ensures !Generable(doc)
  {
    PcmsBindableIff(StatsEntries(Get(doc.value.entries, "stats")).value);
  }

  /** One more entry of a prefix keeps it bindable unless it takes part with a
      `pcm_id` sqlite3 cannot bind. */
  lemma PcmsBindableStep(es: seq<Entry>, i: nat)
    requires i < |es|
    ensures PcmsBindable(es[..i + 1]) <==> PcmsBindable(es[..i]) && (Active(es[i]) ==> CanBind(PcmOf(es[i])))
  {
    assert es[..i + 1][..i] == es[..i];
  }

  function EntriesOfDoc(doc: Option<Yaml>): seq<Entry>
    requires Generable(doc)
  {
    StatsEntries(Get(doc.value.entries, "stats")).value
  }

  /** The `tbl_changes` insert: named after the change directory, `description` defaulting to
      `''` and `author` to `'Unknown'`. */
  function ChangeInsert(changeName: string, m: seq<(Key, Yaml)>): (s: Stmt)
    ensures s.InsertChange? && s.changeName == changeName
    ensures !HasKey(m, "description") ==> s.description == YStr("")
    ensures !HasKey(m, "author") ==> s.author == YStr("Unknown")
    ensures HasKey(m, "author") ==> Find(m, "author") == Some(s.author)
    ensures HasKey(m, "description") ==> Find(m, "description") == Some(s.description)
  {
    InsertChange(changeName, GetOr(m, "description", YStr("")), GetOr(m, "author", YStr("Unknown")), Get(m, "date"))
  }

  /** `_generate_cyclist_insert_if_not_exists`: an insert only when the store has no cyclist with
      that `pcm_id`; an absent `first_cycling_id` (or the text `NULL`) becomes the SQL `NULL`. */
  function CyclistInsertIfNotExists(st: Store, pcm: Yaml, name: Yaml, e: Entry): (r: Option<Stmt>)
    ensures r.Some? <==> ParamId(pcm) !in st.cyclists
    ensures r.Some? ==> r.value.InsertCyclist? && r.value.pcm == pcm && r.value.cyclistName == name
    ensures r.Some? && !HasKey(e, "first_cycling_id") ==> r.value.firstCyclingId == None
    ensures r.Some? && HasKey(e, "first_cycling_id") ==>
      (r.value.firstCyclingId == None <==> Find(e, "first_cycling_id") == Some(YStr("NULL")))
    ensures r.Some? && HasKey(e, "first_cycling_id") && Find(e, "first_cycling_id") != Some(YStr("NULL")) ==>
      r.value.firstCyclingId == Find(e, "first_cycling_id")
  {
    if ParamId(pcm) in st.cyclists then None
    else
      var fc := GetOr(e, "first_cycling_id", YStr("NULL"));
      Some(InsertCyclist(pcm, name, if fc == YStr("NULL") then None else Some(fc)))
  }

  /** A stat value one entry asserts for a cyclist. */
  datatype Assertion = Assertion(pcm: Yaml, stat: string, value: Yaml)

  /** The store already holds `a.value` as the latest version of that stat. */
  predicate Agrees(st: Store, a: Assertion) {
    match LatestValue(st.history, ParamId(a.pcm), a.stat)
    case Some(x) => a.value == YInt(x)
    case None => false
  }

  /** `_should_insert_stat_change`: no version yet, or the latest one differs. */
  predicate ShouldInsertStatChange(st: Store, a: Assertion) {
    match LatestValue(st.history, ParamId(a.pcm), a.stat)
    case Some(x) => a.value != YInt(x)
    case None => true
  }

  lemma ShouldInsertIffDisagrees(st: Store, a: Assertion)
    ensures ShouldInsertStatChange(st, a) <==> !Agrees(st, a)
  {
  }

  /** `stat_value is None or stat_value == ''` counts as not given. */
  predicate Given(v: Yaml) {
    v != YNull && v != YStr("")
  }

  /** The stats one entry asserts, over `keys` in order. */
  function EntryAssertions(e: Entry, keys: seq<string>): seq<Assertion> {
    if keys == [] then []
    else
      var k := keys[|keys| - 1];
      var v := Get(e, k);
      EntryAssertions(e, keys[..|keys| - 1]) + (if Given(v) then [Assertion(PcmOf(e), k, v)] else [])
  }

  lemma {:induction false} EntryAssertionsIff(e: Entry, keys: seq<string>, a: Assertion)
    ensures a in EntryAssertions(e, keys) <==>
      a.pcm == PcmOf(e) && a.stat in keys && a.value == Get(e, a.stat) && Given(a.value)
    decreases |keys|
  {
    if keys != [] {
      EntryAssertionsIff(e, keys[..|keys| - 1], a);
      assert forall k :: k in keys <==> k in keys[..|keys| - 1] || k == keys[|keys| - 1];
    }
  }

  /** The stats all taking-part entries assert, entry by entry and in `STAT_KEYS` order. */
  function Assertions(es: seq<Entry>, keys: seq<string>): seq<Assertion> {
    if es == [] then []
    else
      var e := es[|es| - 1];
      Assertions(es[..|es| - 1], keys) + (if Active(e) then EntryAssertions(e, keys) else [])
  }

  /** Entry `e` takes part and gives `a.value` for the stat key `a.stat`. */
  predicate Asserts(e: Entry, keys: seq<string>, a: Assertion) {
    Active(e) && a.pcm == PcmOf(e) && a.stat in keys && a.value == Get(e, a.stat) && Given(a.value)
  }

  /** Every assertion comes from a taking-part entry that gives that value for a stat key, and
      every such value is asserted. */
  lemma {:induction false} AssertionsIff(es: seq<Entry>, keys: seq<string>, a: Assertion)
    ensures a in Assertions(es, keys) <==> exists i :: 0 <= i < |es| && Asserts(es[i], keys, a)
    decreases |es|
  {
    if es != [] {
      var p := es[..|es| - 1];
      var e := es[|es| - 1];
      AssertionsIff(p, keys, a);
      EntryAssertionsIff(e, keys, a);
      var tail := if Active(e) then EntryAssertions(e, keys) else [];
      assert Assertions(es, keys) == Assertions(p, keys) + tail;
      assert a in tail <==> Asserts(e, keys, a);
      if a in Assertions(p, keys) {
        var i :| 0 <= i < |p| && Asserts(p[i], keys, a);
        assert p[i] == es[i];
      }
      if exists i :: 0 <= i < |es| && Asserts(es[i], keys, a) {
        var i :| 0 <= i < |es| && Asserts(es[i], keys, a);
        if i < |p| {
          assert p[i] == es[i];
        }
      }
    }
  }

  /** The history inserts for the assertions whose value the store does not already hold. */
  function HistoryInserts(st: Store, changeName: string, as_: seq<Assertion>): (r: seq<Stmt>)
    ensures |r| <= |as_|
  {
    if as_ == [] then []
    else
      var a := as_[|as_| - 1];
      HistoryInserts(st, changeName, as_[..|as_| - 1])
        + (if ShouldInsertStatChange(st, a) then [InsertHistory(a.pcm, changeName, a.stat, a.value)] else [])
  }

  /** A statement is a history insert exactly for an assertion the store disagrees with. */
  lemma {:induction false} HistoryInsertsIff(st: Store, changeName: string, as_: seq<Assertion>, s: Stmt)
    ensures s in HistoryInserts(st, changeName, as_) <==>
      exists a :: a in as_ && ShouldInsertStatChange(st, a) && s == InsertHistory(a.pcm, changeName, a.stat, a.value)
    decreases |as_|
  {
    if as_ != [] {
      var init := as_[..|as_| - 1];
      HistoryInsertsIff(st, changeName, init, s);
      assert forall b :: b in as_ <==> b in init || b == as_[|as_| - 1];
    }
  }

  lemma {:induction false} HistoryInsertsAppend(st: Store, changeName: string, xs: seq<Assertion>, ys: seq<Assertion>)
    ensures HistoryInserts(st, changeName, xs + ys) == HistoryInserts(st, changeName, xs) + HistoryInserts(st, changeName, ys)
    decreases |ys|
  {
    if ys == [] {
      assert xs + ys == xs;
    } else {
      assert (xs + ys)[..|xs + ys| - 1] == xs + ys[..|ys| - 1];
      HistoryInsertsAppend(st, changeName, xs, ys[..|ys| - 1]);
    }
  }

  lemma {:induction false} AssertionsAppend(es: seq<Entry>, fs: seq<Entry>, keys: seq<string>)
    ensures Assertions(es + fs, keys) == Assertions(es, keys) + Assertions(fs, keys)
    decreases |fs|
  {
    if fs == [] {
      assert es + fs == es;
    } else {
      assert (es + fs)[..|es + fs| - 1] == es + fs[..|fs| - 1];
      AssertionsAppend(es, fs[..|fs| - 1], keys);
    }
  }

  lemma EntryAssertionsStep(e: Entry, keys: seq<string>, j: nat)
    requires j < |keys|
    ensures EntryAssertions(e, keys[..j + 1]) == EntryAssertions(e, keys[..j])
      + (if Given(Get(e, keys[j])) then [Assertion(PcmOf(e), keys[j], Get(e, keys[j]))] else [])
  {
    assert keys[..j + 1][..j] == keys[..j];
  }

  lemma AssertionsStep(es: seq<Entry>, keys: seq<string>, i: nat)
    requires i < |es|
    ensures Assertions(es[..i + 1], keys) == Assertions(es[..i], keys)
      + (if Active(es[i]) then EntryAssertions(es[i], keys) else [])
  {
    assert es[..i + 1][..i] == es[..i];
  }

  lemma HistoryInsertsSingle(st: Store, changeName: string, a: Assertion)
    ensures HistoryInserts(st, changeName, [a]) ==
      (if ShouldInsertStatChange(st, a) then [InsertHistory(a.pcm, changeName, a.stat, a.value)] else [])
  {
    assert [a][..0] == [];
  }

  /** One more stat key adds at most the one insert for that key. */
  lemma EntryHistoryStep(st: Store, changeName: string, e: Entry, keys: seq<string>, j: nat)
    requires j < |keys|
    ensures HistoryInserts(st, changeName, EntryAssertions(e, keys[..j + 1])) ==
      HistoryInserts(st, changeName, EntryAssertions(e, keys[..j]))
      + (if Given(Get(e, keys[j])) && ShouldInsertStatChange(st, Assertion(PcmOf(e), keys[j], Get(e, keys[j])))
         then [InsertHistory(PcmOf(e), changeName, keys[j], Get(e, keys[j]))] else [])
  {
    var a := Assertion(PcmOf(e), keys[j], Get(e, keys[j]));
    EntryAssertionsStep(e, keys, j);
    if Given(Get(e, keys[j])) {
      HistoryInsertsAppend(st, changeName, EntryAssertions(e, keys[..j]), [a]);
      HistoryInsertsSingle(st, changeName, a);
    } else {
      assert EntryAssertions(e, keys[..j + 1]) == EntryAssertions(e, keys[..j]);
    }
  }

  /** The history inserts depend on the store's history only. */
  lemma {:induction false} HistoryInsertsReadHistory(st: Store, st': Store, changeName: string, as_: seq<Assertion>)
    requires st.history == st'.history
    ensures HistoryInserts(st, changeName, as_) == HistoryInserts(st', changeName, as_)
    decreases |as_|
  {
    if as_ != [] {
      HistoryInsertsReadHistory(st, st', changeName, as_[..|as_| - 1]);
    }
  }
}
