/** The stats-snapshot projector of src/api.py (`update_stats_file_with_changes`): the entries
    of a change are merged, one by one, into the mapping `stats.yaml` holds, keyed by the text
    of each `pcm_id`; the mapping is then written out ordered by the integer value of its keys. */
module Snapshot {
  import opened Yaml
  import opened Commons
  import opened Sorting
  import opened Change

  /** A mapping as loaded from YAML, in insertion order. */
  type Dict = seq<(Key, Yaml)>

  /** `yaml.safe_load(f) or {}` on `stats.yaml`, or `{}` when it is absent. `None` when the text
      does not parse, and when it loads as a truthy value that is not a mapping: the first `in`,
      item assignment or `.keys()` on such a value raises. */
  function SnapshotOf(file: Option<Option<Yaml>>): Option<Dict> {
    match file
    case None => Some([])
    case Some(None) => None
    case Some(Some(y)) =>
      if !Truthy(y) then Some([])
      else if y.YMap? then Some(y.entries)
      else None
  }

  /** `for stat_update in change_data.get('stats', [])`: the entries of a change file that
      loads as a mapping, or `None` where loading, `.get` or the iteration raises. */
  function ChangeEntries(change: Option<Yaml>): Option<seq<Entry>> {
    match change
    case Some(YMap(m)) => StatsEntries(GetOr(m, "stats", YList([])))
    case _ => None
  }

  /** `str(stat_update.get('pcm_id'))`: the snapshot key of an entry. */
  function PcmKey(e: Entry): string {
    PyStr(PcmOf(e))
  }

  /** The projector skips an entry whose key text is empty or whose name is falsy. */
  predicate Takes(e: Entry) {
    PcmKey(e) != "" && Truthy(Get(e, "name"))
  }

  /** The projector's skip rule tests the key text, not the value: it takes every entry the
      generators take, and also entries whose `pcm_id` is missing, null, `0` or `false`. */
  lemma TakesIff(e: Entry)
    ensures Takes(e) <==> PcmOf(e) != YStr("") && Truthy(Get(e, "name"))
    ensures Active(e) ==> Takes(e)
    ensures Truthy(Get(e, "name")) && !HasKey(e, "pcm_id") ==> Takes(e) && PcmKey(e) == "None"
  {
    PyStrEmpty(PcmOf(e));
  }

  /** The value a snapshot stat takes: a given new value, else the prior value when it is not
      null, else none. */
  function StatUpdate(prior: Dict, e: Entry, k: string): Option<Yaml> {
    if Given(Get(e, k)) then Some(Get(e, k))
    else if Get(prior, k) != YNull then Some(Get(prior, k))
    else None
  }

  /** `1` when a given new value differs from the prior one (`stats_updated += 1`). */
  function Changed(prior: Dict, e: Entry, k: string): nat {
    if Given(Get(e, k)) && Get(prior, k) != Get(e, k) then 1 else 0
  }

  function StatPair(k: string, u: Option<Yaml>): Dict {
    match u
    case Some(v) => [(KStr(k), v)]
    case None => []
  }

  /** The new nested `stats` mapping of one entry over `keys`, and the number of stats that
      changed. */
  function MergeStats(prior: Dict, e: Entry, keys: seq<string>): (Dict, nat) {
    if keys == [] then ([], 0)
    else
      var k := keys[|keys| - 1];
      var r := MergeStats(prior, e, keys[..|keys| - 1]);
      (r.0 + StatPair(k, StatUpdate(prior, e, k)), r.1 + Changed(prior, e, k))
  }

  predicate Distinct(keys: seq<string>) {
    forall i, j :: 0 <= i < j < |keys| ==> keys[i] != keys[j]
  }

  /** Over distinct keys, each key of the new `stats` mapping holds its [[StatUpdate]], and no
      other key is present. */
  lemma {:induction false} MergeStatsFind(prior: Dict, e: Entry, keys: seq<string>, k: string)
    requires Distinct(keys)
    ensures Find(MergeStats(prior, e, keys).0, k) == if k in keys then StatUpdate(prior, e, k) else None
    decreases |keys|
  {
    if keys != [] {
      var init := keys[..|keys| - 1];
      var last := keys[|keys| - 1];
      assert Distinct(init);
      MergeStatsFind(prior, e, init, k);
      FindAppend(MergeStats(prior, e, init).0, StatPair(last, StatUpdate(prior, e, last)), k);
      assert k in keys <==> k in init || k == last;
      if k == last {
        assert k !in init;
      }
    }
  }

  /** The new `stats` mapping is empty exactly when no key has a value to take. */
  lemma {:induction false} MergeStatsEmpty(prior: Dict, e: Entry, keys: seq<string>)
    ensures MergeStats(prior, e, keys).0 == [] <==> forall k :: k in keys ==> StatUpdate(prior, e, k).None?
    decreases |keys|
  {
    if keys != [] {
      var init := keys[..|keys| - 1];
      MergeStatsEmpty(prior, e, init);
      assert forall k :: k in keys <==> k in init || k == keys[|keys| - 1];
    }
  }

  /** The count of updated stats is at most the number of keys, and it is zero exactly when
      every given new value equals the prior one. */
  lemma {:induction false} MergeStatsCount(prior: Dict, e: Entry, keys: seq<string>)
    ensures MergeStats(prior, e, keys).1 <= |keys|
    ensures MergeStats(prior, e, keys).1 == 0 <==>
      forall i :: 0 <= i < |keys| && Given(Get(e, keys[i])) ==> Get(prior, keys[i]) == Get(e, keys[i])
    decreases |keys|
  {
    if keys != [] {
      var init := keys[..|keys| - 1];
      MergeStatsCount(prior, e, init);
      assert forall i :: 0 <= i < |init| ==> init[i] == keys[i];
    }
  }

  /** `first_cycling_id`: the change's value when truthy and not the text `NULL`, else the
      recorded one when the record has it. */
  function FirstCyclingId(prior: Dict, e: Entry): Dict {
    var fc := Get(e, "first_cycling_id");
    if Truthy(fc) && fc != YStr("NULL") then [(KStr("first_cycling_id"), fc)]
    else if HasKey(prior, "first_cycling_id") then [(KStr("first_cycling_id"), Get(prior, "first_cycling_id"))]
    else []
  }

  /** The nested `stats` entry of a record: present only when the merged stats are not empty. */
  function StatsPart(sd: Dict): Dict {
    if sd == [] then [] else [(KStr("stats"), YMap(sd))]
  }

  /** `ordered_cyclist_data`: `name`, then `first_cycling_id` when there is one, then the
      nested `stats`. */
  function RecordOf(prior: Dict, e: Entry, sd: Dict): Dict {
    [(KStr("name"), Get(e, "name"))] + FirstCyclingId(prior, e) + StatsPart(sd)
  }

  /** The record that replaces a cyclist's prior record, with the number of stats updated;
      `None` when the prior `stats` is not a mapping. */
  function Record(prior: Dict, e: Entry): Option<(Dict, nat)> {
    var existing := GetOr(prior, "stats", YMap([]));
    if !existing.YMap? then None
    else
      var r := MergeStats(existing.entries, e, STAT_KEYS);
      Some((RecordOf(prior, e, r.0), r.1))
  }

  /** The prior stats of a record, as the projector reads them. */
  function OldStats(prior: Dict): Dict {
    var existing := GetOr(prior, "stats", YMap([]));
    if existing.YMap? then existing.entries else []
  }

  lemma RecordFind(prior: Dict, e: Entry, sd: Dict, k: string)
    ensures Find(RecordOf(prior, e, sd), k) ==
      if k == "name" then Some(Get(e, "name"))
      else if k == "first_cycling_id" then Find(FirstCyclingId(prior, e), k)
      else if k == "stats" && sd != [] then Some(YMap(sd))
      else None
  {
    var head: Dict := [(KStr("name"), Get(e, "name"))];
    var fcs := FirstCyclingId(prior, e);
    assert RecordOf(prior, e, sd) == head + (fcs + StatsPart(sd));
    FindAppend(head, fcs + StatsPart(sd), k);
    FindAppend(fcs, StatsPart(sd), k);
  }

  /** The new record's `name` is the change's; its `first_cycling_id` is the change's when
      truthy and not `NULL`, else the one recorded before (or none). */
  lemma RecordNameAndId(prior: Dict, e: Entry)
    requires Record(prior, e).Some?
    ensures var rec := Record(prior, e).value.0;
      && Find(rec, "name") == Some(Get(e, "name"))
      && (var fc := Get(e, "first_cycling_id");
          if Truthy(fc) && fc != YStr("NULL") then Find(rec, "first_cycling_id") == Some(fc)
          else Find(rec, "first_cycling_id") == Find(prior, "first_cycling_id"))
  {
    var sd := MergeStats(OldStats(prior), e, STAT_KEYS).0;
    RecordFind(prior, e, sd, "name");
    RecordFind(prior, e, sd, "first_cycling_id");
  }

  /** The new record's `stats` is a mapping, present exactly when some stat has a value, and
      holding each of the fourteen stats by [[StatUpdate]] over the prior nested stats. */
  lemma RecordStats(prior: Dict, e: Entry)
    requires Record(prior, e).Some?
    ensures var rec := Record(prior, e).value.0;
      && GetOr(rec, "stats", YMap([])).YMap?
      && (HasKey(rec, "stats") <==> exists k :: k in STAT_KEYS && StatUpdate(OldStats(prior), e, k).Some?)
      && (forall k :: k in STAT_KEYS ==> Find(OldStats(rec), k) == StatUpdate(OldStats(prior), e, k))
  {
    var sd := MergeStats(OldStats(prior), e, STAT_KEYS).0;
    RecordFind(prior, e, sd, "stats");
    MergeStatsEmpty(OldStats(prior), e, STAT_KEYS);
    StatKeysDistinct();
    forall k | k in STAT_KEYS ensures Find(OldStats(Record(prior, e).value.0), k) == StatUpdate(OldStats(prior), e, k) {
      MergeStatsFind(OldStats(prior), e, STAT_KEYS, k);
    }
  }

  /** A record holds only `name`, `first_cycling_id` and `stats`: stats recorded flat at the
      top of the prior record are dropped. */
  lemma RecordKeys(prior: Dict, e: Entry, sd: Dict)
    ensures forall x :: x in RecordOf(prior, e, sd) ==> x.0 == KStr("name") || x.0 == KStr("first_cycling_id") || x.0 == KStr("stats")
    ensures forall k :: k in STAT_KEYS ==> !HasKey(RecordOf(prior, e, sd), k)
  {
    forall k | k in STAT_KEYS ensures !HasKey(RecordOf(prior, e, sd), k) {
      RecordFind(prior, e, sd, k);
    }
  }

  /** `stats_data[pcm_id] = {}` for a key the mapping does not have. */
  function Seeded(data: Dict, k: string): Dict {
    if HasKey(data, k) then data else data + [(KStr(k), YMap([]))]
  }

  lemma SeededSpec(data: Dict, k: string)
    ensures Find(Seeded(data, k), k) == if HasKey(data, k) then Find(data, k) else Some(YMap([]))
    ensures forall k' :: k' != k ==> Find(Seeded(data, k), k') == Find(data, k')
    ensures |Seeded(data, k)| == |data| + (if HasKey(data, k) then 0 else 1)
    ensures KeySet(Seeded(data, k)) == KeySet(data) + {KStr(k)}
    ensures forall x :: x in data ==> x in Seeded(data, k)
  {
    FindSpec(data, k);
    if !HasKey(data, k) {
      FindAppend(data, [(KStr(k), YMap([]))], k);
      forall k' | k' != k ensures Find(Seeded(data, k), k') == Find(data, k') {
        FindAppend(data, [(KStr(k), YMap([]))], k');
      }
    }
  }

  /** One taken entry: the new mapping, `1` when its key was new, and the updated-stat count;
      `None` when the key's recorded value, or its `stats`, is not a mapping. */
  function Apply(data: Dict, e: Entry): Option<(Dict, nat, nat)> {
    var k := PcmKey(e);
    var d1 := Seeded(data, k);
    match Get(d1, k)
    case YMap(prior) =>
      (match Record(prior, e)
       case Some(r) => Some((Put(d1, k, YMap(r.0)), if HasKey(data, k) then 0 else 1, r.1))
       case None => None)
    case _ => None
  }

  /** The record a key held before an entry is applied (`{}` for a new key). */
  function PriorOf(data: Dict, k: string): Dict {
    if HasKey(data, k) && Get(data, k).YMap? then Get(data, k).entries else []
  }

  /** An entry fails exactly when its key's recorded value, or that value's `stats`, is not a
      mapping. */
  lemma ApplyFails(data: Dict, e: Entry)
    ensures var k := PcmKey(e);
      Apply(data, e).None? <==> HasKey(data, k) && (!Get(data, k).YMap? || !GetOr(Get(data, k).entries, "stats", YMap([])).YMap?)
  {
    SeededSpec(data, PcmKey(e));
  }

  /** A merged entry: its key now holds the record built from the prior one, and
      `cyclists_added` grows by one exactly for a new key. */
  lemma ApplyRecord(data: Dict, e: Entry)
    requires Apply(data, e).Some?
    ensures var k := PcmKey(e);
      var r := Apply(data, e).value;
      && r.1 == (if HasKey(data, k) then 0 else 1)
      && Find(r.0, k).Some? && Find(r.0, k).value.YMap?
      && Record(PriorOf(data, k), e) == Some((Find(r.0, k).value.entries, r.2))
  {
    SeededSpec(data, PcmKey(e));
  }

  /** A merged entry keeps every other key's value and every entry under another key; it adds
      its key, and grows the mapping by one entry exactly for a new key. */
  lemma ApplyKeeps(data: Dict, e: Entry)
    requires Apply(data, e).Some?
    ensures var k := PcmKey(e);
      var r := Apply(data, e).value;
      && |r.0| == |data| + r.1
      && KeySet(r.0) == KeySet(data) + {KStr(k)}
      && (forall k' :: k' != k ==> Find(r.0, k') == Find(data, k'))
      && (forall x :: x in data && x.0 != KStr(k) ==> x in r.0)
  {
    var k := PcmKey(e);
    SeededSpec(data, k);
    var rec := Record(Get(Seeded(data, k), k).entries, e).value.0;
    PutSpec(Seeded(data, k), k, YMap(rec));
  }

  /** Applying the same entry again leaves the mapping as it is and counts nothing: the
      projection of an entry is idempotent. */
  lemma ApplyIdempotent(data: Dict, e: Entry)
    requires Apply(data, e).Some?
    ensures Apply(Apply(data, e).value.0, e) == Some((Apply(data, e).value.0, 0, 0))
  {
    var k := PcmKey(e);
    var d := Apply(data, e).value.0;
    ApplyRecord(data, e);
    var rec := Find(d, k).value.entries;
    RecordAgain(PriorOf(data, k), e);
    assert Seeded(d, k) == d;
    PutSame(d, k, YMap(rec));
  }

  /** The record built from a record it built is itself, with no stat counted. */
  lemma RecordAgain(prior: Dict, e: Entry)
    requires Record(prior, e).Some?
    ensures Record(Record(prior, e).value.0, e) == Some((Record(prior, e).value.0, 0))
  {
    var existing := OldStats(prior);
    var sd := MergeStats(existing, e, STAT_KEYS).0;
    var rec := RecordOf(prior, e, sd);
    RecordFind(prior, e, sd, "stats");
    RecordFind(prior, e, sd, "first_cycling_id");
    assert GetOr(rec, "stats", YMap([])) == YMap(sd);
    assert FirstCyclingId(rec, e) == FirstCyclingId(prior, e);
    StatKeysDistinct();
    forall k | k in STAT_KEYS ensures Get(sd, k) == OrNull(StatUpdate(existing, e, k)) {
      MergeStatsFind(existing, e, STAT_KEYS, k);
    }
    MergeStatsAgain(existing, sd, e, STAT_KEYS);
  }

  function OrNull(u: Option<Yaml>): Yaml {
    match u
    case Some(v) => v
    case None => YNull
  }

  /** Merging into stats that already hold each key's [[StatUpdate]] reproduces them and
      counts nothing. */
  lemma {:induction false} MergeStatsAgain(prior: Dict, again: Dict, e: Entry, keys: seq<string>)
    requires forall k :: k in keys ==> Get(again, k) == OrNull(StatUpdate(prior, e, k))
    ensures MergeStats(again, e, keys) == (MergeStats(prior, e, keys).0, 0)
    decreases |keys|
  {
    if keys != [] {
      var init := keys[..|keys| - 1];
      var last := keys[|keys| - 1];
      assert forall k :: k in init ==> k in keys;
      MergeStatsAgain(prior, again, e, init);
      assert last in keys;
    }
  }

  /** The projector's running state: the mapping and its three counters. */
  datatype Acc = Acc(data: Dict, processed: nat, added: nat, updated: nat)

  /** One entry of the loop: skipped when not taken, else merged and counted. */
  function StepAcc(a: Acc, e: Entry): Option<Acc> {
    if !Takes(e) then Some(a)
    else
      match Apply(a.data, e)
      case None => None
      case Some(r) => Some(Acc(r.0, a.processed + 1, a.added + r.1, a.updated + r.2))
  }

  /** The loop over the change's entries, or `None` when an entry raises. */
  function ProjectEntries(data: Dict, es: seq<Entry>): Option<Acc> {
    if es == [] then Some(Acc(data, 0, 0, 0))
    else
      match ProjectEntries(data, es[..|es| - 1])
      case None => None
      case Some(a) => StepAcc(a, es[|es| - 1])
  }

  /** One step of the loop adds the entry's key when taken, and counts it as added exactly
      when it was new. */
  lemma StepAccSpec(a: Acc, e: Entry)
    requires StepAcc(a, e).Some?
    ensures var b := StepAcc(a, e).value;
      && b.processed == a.processed + (if Takes(e) then 1 else 0)
      && KeySet(b.data) == KeySet(a.data) + (if Takes(e) then {KStr(PcmKey(e))} else {})
      && b.added == a.added + (if Takes(e) && KStr(PcmKey(e)) !in KeySet(a.data) then 1 else 0)
      && |b.data| == |a.data| + (b.added - a.added)
  {
    if Takes(e) {
      ApplyRecord(a.data, e);
      ApplyKeeps(a.data, e);
      FindSpec(a.data, PcmKey(e));
    }
  }

  /** Once an entry raises, the whole loop has raised. */
  lemma {:induction false} ProjectEntriesNone(data: Dict, es: seq<Entry>, i: nat)
    requires i < |es| && ProjectEntries(data, es[..i + 1]).None?
    ensures ProjectEntries(data, es).None?
    decreases |es|
  {
    if i + 1 < |es| {
      var init := es[..|es| - 1];
      assert init[..i + 1] == es[..i + 1];
      ProjectEntriesNone(data, init, i);
    } else {
      assert es[..i + 1] == es;
    }
  }

  /** The keys the taken entries of a change touch. */
  function Touched(es: seq<Entry>): set<Key> {
    if es == [] then {}
    else
      var last := es[|es| - 1];
      Touched(es[..|es| - 1]) + (if Takes(last) then {KStr(PcmKey(last))} else {})
  }

  lemma {:induction false} TouchedIff(es: seq<Entry>, k: Key)
    ensures k in Touched(es) <==> exists i :: 0 <= i < |es| && Takes(es[i]) && k == KStr(PcmKey(es[i]))
    decreases |es|
  {
    if es != [] {
      var init := es[..|es| - 1];
      TouchedIff(init, k);
      assert forall i :: 0 <= i < |init| ==> init[i] == es[i];
    }
  }

  /** The number of entries the projector takes. */
  function TakenCount(es: seq<Entry>): nat {
    if es == [] then 0 else TakenCount(es[..|es| - 1]) + (if Takes(es[|es| - 1]) then 1 else 0)
  }

  /** `cyclists_processed` counts the taken entries. */
  lemma {:induction false} ProjectEntriesCount(data: Dict, es: seq<Entry>)
    requires ProjectEntries(data, es).Some?
    ensures ProjectEntries(data, es).value.processed == TakenCount(es) <= |es|
    decreases |es|
  {
    if es != [] {
      ProjectEntriesCount(data, es[..|es| - 1]);
      StepAccSpec(ProjectEntries(data, es[..|es| - 1]).value, es[|es| - 1]);
    }
  }

  /** The keys after a change are the prior ones plus the touched ones. */
  lemma {:induction false} ProjectEntriesKeySet(data: Dict, es: seq<Entry>)
    requires ProjectEntries(data, es).Some?
    ensures KeySet(ProjectEntries(data, es).value.data) == KeySet(data) + Touched(es)
    decreases |es|
  {
    if es != [] {
      ProjectEntriesKeySet(data, es[..|es| - 1]);
      StepAccSpec(ProjectEntries(data, es[..|es| - 1]).value, es[|es| - 1]);
    }
  }

  /** `cyclists_added` counts the touched keys that were new. */
  lemma {:induction false} ProjectEntriesAdded(data: Dict, es: seq<Entry>)
    requires ProjectEntries(data, es).Some?
    ensures ProjectEntries(data, es).value.added == |Touched(es) - KeySet(data)|
    decreases |es|
  {
    if es != [] {
      var init := es[..|es| - 1];
      var last := es[|es| - 1];
      ProjectEntriesAdded(data, init);
      ProjectEntriesKeySet(data, init);
      var a0 := ProjectEntries(data, init).value;
      StepAccSpec(a0, last);
      if Takes(last) {
        var k := KStr(PcmKey(last));
        assert Touched(es) == Touched(init) + {k};
        DiffStep(Touched(init), KeySet(data), k);
      }
    }
  }

  lemma DiffStep(a: set<Key>, b: set<Key>, k: Key)
    ensures |(a + {k}) - b| == |a - b| + (if k in a + b then 0 else 1)
  {
    if k in a + b {
      assert (a + {k}) - b == a - b;
    } else {
      assert (a + {k}) - b == (a - b) + {k};
    }
  }

  /** The mapping grows by one entry per added key. */
  lemma {:induction false} ProjectEntriesLength(data: Dict, es: seq<Entry>)
    requires ProjectEntries(data, es).Some?
    ensures |ProjectEntries(data, es).value.data| == |data| + ProjectEntries(data, es).value.added
    decreases |es|
  {
    if es != [] {
      ProjectEntriesLength(data, es[..|es| - 1]);
      StepAccSpec(ProjectEntries(data, es[..|es| - 1]).value, es[|es| - 1]);
    }
  }

  /** A key the change does not touch keeps its value, and every entry under such a key is
      kept. */
  lemma {:induction false} ProjectEntriesKeeps(data: Dict, es: seq<Entry>)
    requires ProjectEntries(data, es).Some?
    ensures var a := ProjectEntries(data, es).value;
      && (forall k :: KStr(k) !in Touched(es) ==> Find(a.data, k) == Find(data, k))
      && (forall x :: x in data && x.0 !in Touched(es) ==> x in a.data)
    decreases |es|
  {
    if es != [] {
      var init := es[..|es| - 1];
      var last := es[|es| - 1];
      ProjectEntriesKeeps(data, init);
      if Takes(last) {
        ApplyKeeps(ProjectEntries(data, init).value.data, last);
        assert Touched(es) == Touched(init) + {KStr(PcmKey(last))};
      }
    }
  }

  function IntKey(k: Key): int {
    match KeyToInt(k)
    case Some(i) => i
    case None => 0
  }

  /** The order of `sorted(stats_data.keys(), key=lambda x: int(x))`. */
  function ByIntKey(a: (Key, Yaml), b: (Key, Yaml)): bool {
    IntKey(a.0) <= IntKey(b.0)
  }

  lemma ByIntKeyTotalPreorder()
    ensures TotalPreorder(ByIntKey)
  {
  }

  predicate AllIntKeys(d: Dict) {
    forall i :: 0 <= i < |d| ==> KeyToInt(d[i].0).Some?
  }

  /** The written mapping: its entries ordered by the integer value of their keys; `None` when
      a key is not an integer. */
  function SortByInt(d: Dict): Option<Dict> {
    if AllIntKeys(d) then Some(InsertionSort(d, ByIntKey)) else None
  }

  /** The summary `update_stats_file_with_changes` returns. */
  datatype ProjSummary = ProjSummary(fileUpdated: bool, cyclistsProcessed: nat, cyclistsAdded: nat, statsUpdated: nat)

  const ErrorSummary := ProjSummary(false, 0, 0, 0)

  /** `update_stats_file_with_changes` as a value: the summary and the mapping written to
      `stats.yaml` (`None`: the file is left as it was). */
  function Project(change: Option<Yaml>, file: Option<Option<Yaml>>): (ProjSummary, Option<Dict>) {
    match (ChangeEntries(change), SnapshotOf(file))
    case (Some(es), Some(data)) =>
      (match ProjectEntries(data, es)
       case Some(a) =>
         (match SortByInt(a.data)
          case Some(out) => (ProjSummary(true, a.processed, a.added, a.updated), Some(out))
          case None => (ErrorSummary, None))
       case None => (ErrorSummary, None))
    case _ => (ErrorSummary, None)
  }

  /** The projection succeeds exactly when both files load, every taken entry merges and every
      resulting key is an integer; any failure reports zero counts and writes nothing. */
  lemma ProjectSucceedsIff(change: Option<Yaml>, file: Option<Option<Yaml>>)
    ensures var (s, out) := Project(change, file);
      && (s.fileUpdated <==>
          ChangeEntries(change).Some? && SnapshotOf(file).Some?
          && ProjectEntries(SnapshotOf(file).value, ChangeEntries(change).value).Some?
          && AllIntKeys(ProjectEntries(SnapshotOf(file).value, ChangeEntries(change).value).value.data))
      && (!s.fileUpdated ==> s == ErrorSummary && out.None?)
  {
  }

  /** A successful projection writes the merged mapping ordered by integer key, as a
      permutation of it, and reports the loop's counters. */
  lemma ProjectOutput(change: Option<Yaml>, file: Option<Option<Yaml>>)
    requires Project(change, file).0.fileUpdated
    ensures var (s, out) := Project(change, file);
      var a := ProjectEntries(SnapshotOf(file).value, ChangeEntries(change).value).value;
      && out.Some?
      && Sorted(out.value, ByIntKey)
      && multiset(out.value) == multiset(a.data)
      && s == ProjSummary(true, a.processed, a.added, a.updated)
  {
    var a := ProjectEntries(SnapshotOf(file).value, ChangeEntries(change).value).value;
    ByIntKeyTotalPreorder();
    InsertionSortSorted(a.data, ByIntKey);
  }

  /** A written snapshot: cyclists the change does not touch are there unchanged, and the
      keys are the prior ones plus the touched ones. */
  lemma ProjectKeepsUntouched(change: Option<Yaml>, file: Option<Option<Yaml>>, x: (Key, Yaml))
    requires Project(change, file).0.fileUpdated
    ensures var es := ChangeEntries(change).value;
      var data := SnapshotOf(file).value;
      && (x in data && x.0 !in Touched(es) ==> x in Project(change, file).1.value)
      && KeySet(Project(change, file).1.value) == KeySet(data) + Touched(es)
  {
    var es := ChangeEntries(change).value;
    var data := SnapshotOf(file).value;
    ProjectEntriesKeySet(data, es);
    ProjectEntriesKeeps(data, es);
    var a := ProjectEntries(data, es).value;
    var out := Project(change, file).1.value;
    assert multiset(out) == multiset(a.data);
    forall y ensures y in out <==> y in a.data {
      assert y in out <==> y in multiset(out);
      assert y in a.data <==> y in multiset(a.data);
    }
  }

  /** A taken entry without a `pcm_id` lands under the key `None`, which is not an integer:
      the whole projection fails. */
  lemma MissingPcmIdFails(change: Option<Yaml>, file: Option<Option<Yaml>>, i: nat)
    requires ChangeEntries(change).Some? && i < |ChangeEntries(change).value|
    requires var e := ChangeEntries(change).value[i]; Truthy(Get(e, "name")) && !HasKey(e, "pcm_id")
    ensures Project(change, file) == (ErrorSummary, None)
  {
    var es := ChangeEntries(change).value;
    TakesIff(es[i]);
    if SnapshotOf(file).Some? && ProjectEntries(SnapshotOf(file).value, es).Some? {
      var data := SnapshotOf(file).value;
      ProjectEntriesKeySet(data, es);
      var d := ProjectEntries(data, es).value.data;
      TouchedIff(es, KStr("None"));
      assert KStr("None") in KeySet(d);
      var j :| 0 <= j < |d| && d[j].0 == KStr("None");
      NoneTextIsNotAnInteger();
      assert !AllIntKeys(d);
    }
  }

  /** `update_stats_file_with_changes` of src/api.py: both files are loaded, the entries
      merged into the loaded mapping, and the mapping sorted for writing. */
  method UpdateStatsFileWithChanges(change: Option<Yaml>, file: Option<Option<Yaml>>)
    returns (summary: ProjSummary, out: Option<Dict>)
    ensures (summary, out) == Project(change, file)
  {
    var entries := ChangeEntries(change);
    var loaded := SnapshotOf(file);
    if entries.None? || loaded.None? {
      return ErrorSummary, None;
    }
    var acc := MergeEntries(loaded.value, entries.value);
    if acc.None? {
      return ErrorSummary, None;
    }
    out := SortByInt(acc.value.data);
    if out.None? {
      return ErrorSummary, None;
    }
    summary := ProjSummary(true, acc.value.processed, acc.value.added, acc.value.updated);
  }

  /** The loop over the change's entries: the mapping is updated in place, one entry at a
      time, with the three counters kept alongside. */
  method MergeEntries(loaded: Dict, es: seq<Entry>) returns (acc: Option<Acc>)
    ensures acc == ProjectEntries(loaded, es)
  {
    var data := loaded;
    var processed, added, updated := 0, 0, 0;
    var i := 0;
    while i < |es|
      invariant 0 <= i <= |es|
      invariant ProjectEntries(loaded, es[..i]) == Some(Acc(data, processed, added, updated))
    {
      assert es[..i + 1][..i] == es[..i];
      var e := es[i];
      assert ProjectEntries(loaded, es[..i + 1]) == StepAcc(Acc(data, processed, added, updated), e);
      if Takes(e) {
        var r := MergeEntry(data, e);
        assert StepAcc(Acc(data, processed, added, updated), e) ==
          if r.None? then None else Some(Acc(r.value.0, processed + 1, added + r.value.1, updated + r.value.2));
        if r.None? {
          ProjectEntriesNone(loaded, es, i);
          return None;
        }
        data := r.value.0;
        added := added + r.value.1;
        updated := updated + r.value.2;
        processed := processed + 1;
      }
      i := i + 1;
    }
    assert es[..|es|] == es;
    return Some(Acc(data, processed, added, updated));
  }

  /** The body of the entry loop for a taken entry: the record is rebuilt from the prior one
      and written back under the entry's key. */
  method MergeEntry(data: Dict, e: Entry) returns (r: Option<(Dict, nat, nat)>)
    ensures r == Apply(data, e)
  {
    var k := PcmKey(e);
    var d := data;
    var added := 0;
    if !HasKey(d, k) {
      d := d + [(KStr(k), YMap([]))];
      added := 1;
    }
    var prior := Get(d, k);
    if !prior.YMap? {
      return None;
    }
    var existing := GetOr(prior.entries, "stats", YMap([]));
    if !existing.YMap? {
      return None;
    }
    var stats, n := MergeStatsLoop(existing.entries, e);
    var rec := [(KStr("name"), Get(e, "name"))] + FirstCyclingId(prior.entries, e)
      + (if stats == [] then [] else [(KStr("stats"), YMap(stats))]);
    r := Some((Put(d, k, YMap(rec)), added, n));
  }

  /** The inner loop over `STAT_KEYS` that builds the nested `stats` mapping. */
  method MergeStatsLoop(prior: Dict, e: Entry) returns (stats: Dict, n: nat)
    ensures (stats, n) == MergeStats(prior, e, STAT_KEYS)
  {
    stats, n := [], 0;
    var j := 0;
    while j < |STAT_KEYS|
      invariant 0 <= j <= |STAT_KEYS|
      invariant (stats, n) == MergeStats(prior, e, STAT_KEYS[..j])
    {
      var k := STAT_KEYS[j];
      assert STAT_KEYS[..j + 1][..j] == STAT_KEYS[..j];
      var nv := Get(e, k);
      var ov := Get(prior, k);
      ghost var before := (stats, n);
      assert MergeStats(prior, e, STAT_KEYS[..j + 1]) ==
        (before.0 + StatPair(k, StatUpdate(prior, e, k)), before.1 + Changed(prior, e, k));
      if nv != YNull && nv != YStr("") {
        assert StatUpdate(prior, e, k) == Some(nv);
        assert StatPair(k, Some(nv)) == [(KStr(k), nv)];
        stats := stats + [(KStr(k), nv)];
        if ov != nv {
          n := n + 1;
        }
        assert n == before.1 + Changed(prior, e, k);
      } else if ov != YNull {
        stats := stats + [(KStr(k), ov)];
      }
      assert stats == before.0 + StatPair(k, StatUpdate(prior, e, k));
      assert n == before.1 + Changed(prior, e, k);
      j := j + 1;
    }
    assert STAT_KEYS[..j] == STAT_KEYS;
  }
}
