/** The YAML validators: `(bool, reason)`-returning checks over a parsed change file or stats
    file, each reporting the first violation it meets. Both the validators of src/api.py and
    the older ones of `PCMStatsManager` in src/pcm_cli.py are instances of the checks here. */
module Validators {
  import opened Yaml
  import opened Commons

  /** The reasons a validator gives, without their message text. */
  datatype Reason =
    | MissingFields(fields: seq<string>)
    | StatsNotList
    | StatsEmpty
    | EntryNotDict(index: nat)
    | EntryMissingFields(index: nat, fields: seq<string>)
    | NotADictionary
    | EmptyStatsFile
    | CyclistNotDict(id: Key)
    | CyclistMissingFields(id: Key, fields: seq<string>)
    | CyclistIdNotNumeric(id: Key)
    | CyclistStatsNotDict(id: Key)
    | InvalidStatKey(id: Key, key: Key)
    | StatNotNumeric(id: Key, key: Key)
    | FirstCyclingIdNotNumeric(id: Key)

  /** What a validator does: returns `(True, None)`, returns `(False, reason)`, or lets a
      Python exception escape (`Raise`), which its caller turns into a validation error. */
  datatype Check = Pass | Fail(reason: Reason) | Raise

  /** The early-return loop `for i, x in enumerate(xs)`: the first check from position `i` on
      that does not pass. */
  function Scan<T>(xs: seq<T>, check: (nat, T) -> Check, i: nat): Check
    decreases |xs| - i
  {
    if i >= |xs| then Pass
    else
      match check(i, xs[i])
      case Pass => Scan(xs, check, i + 1)
      case c => c
  }

  /** The loop passes exactly when every element passes, and otherwise reports the outcome of
      the first element that does not. */
  lemma {:induction false} ScanSpec<T>(xs: seq<T>, check: (nat, T) -> Check, i: nat)
    ensures Scan(xs, check, i) == Pass <==> forall j :: i <= j < |xs| ==> check(j, xs[j]) == Pass
    ensures Scan(xs, check, i) != Pass ==>
      exists j :: i <= j < |xs| && Scan(xs, check, i) == check(j, xs[j]) && forall k :: i <= k < j ==> check(k, xs[k]) == Pass
    decreases |xs| - i
  {
    if i < |xs| && check(i, xs[i]) == Pass {
      ScanSpec(xs, check, i + 1);
      if Scan(xs, check, i) != Pass {
        var j :| i + 1 <= j < |xs| && Scan(xs, check, i + 1) == check(j, xs[j])
          && forall k :: i + 1 <= k < j ==> check(k, xs[k]) == Pass;
        assert forall k :: i <= k < j ==> check(k, xs[k]) == Pass;
      }
    }
  }

  predicate OccursAt(k: string, s: string, i: nat) {
    i + |k| <= |s| && s[i..i + |k|] == k
  }

  predicate IsSubstring(k: string, s: string) {
    exists i: nat :: i <= |s| && OccursAt(k, s, i)
  }

  /** Python's `k in data` for a string `k`: a key of a mapping, an element of a list, a
      substring of a string; on anything else it raises (`None`). */
  function Contains(data: Yaml, k: string): Option<bool> {
    match data
    case YMap(es) => Some(HasKey(es, k))
    case YList(items) => Some(YStr(k) in items)
    case YStr(s) => Some(IsSubstring(k, s))
    case _ => None
  }

  /** `[f for f in fields if f not in data]`; `None` when a test raises. */
  function Missing(data: Yaml, fields: seq<string>): Option<seq<string>> {
    if fields == [] then Some([])
    else
      match Missing(data, fields[..|fields| - 1])
      case None => None
      case Some(ms) =>
        var f := fields[|fields| - 1];
        match Contains(data, f)
        case None => None
        case Some(b) => Some(if b then ms else ms + [f])
  }

  /** For a mapping, the missing fields are exactly the listed ones it lacks, in list order. */
  lemma {:induction false} MissingOfMap(es: seq<(Key, Yaml)>, fields: seq<string>, f: string)
    ensures Missing(YMap(es), fields).Some?
    ensures f in Missing(YMap(es), fields).value <==> f in fields && !HasKey(es, f)
    ensures |Missing(YMap(es), fields).value| <= |fields|
    decreases |fields|
  {
    if fields != [] {
      var init := fields[..|fields| - 1];
      MissingOfMap(es, init, f);
      assert forall x :: x in fields <==> x in init || x == fields[|fields| - 1];
    }
  }

  /** The fields a mapping lacks. */
  function MissingKeys(es: seq<(Key, Yaml)>, fields: seq<string>): seq<string> {
    match Missing(YMap(es), fields)
    case Some(ms) => ms
    case None => fields
  }

  const ENTRY_FIELDS: seq<string> := ["pcm_id", "name"]

  /** The check of the `stats` loop for the entry at index `i`. */
  function EntryCheck(i: nat, e: Yaml): Check {
    if !e.YMap? then Fail(EntryNotDict(i))
    else
      var ms := MissingKeys(e.entries, ENTRY_FIELDS);
      if ms != [] then Fail(EntryMissingFields(i, ms)) else Pass
  }

  /** `data[k]` once `k in data` held: a mapping's value; a list or a string raises. */
  function Subscript(data: Yaml, k: string): Option<Yaml> {
    match data
    case YMap(es) => Find(es, k)
    case _ => None
  }

  /** A change-file validator requiring the top-level `required` fields: all missing fields
      reported at once, then `stats` must be a non-empty list of mappings with `pcm_id` and
      `name`, the first offending entry being reported. */
  function ChangeFileCheck(data: Yaml, required: seq<string>): Check {
    match Missing(data, required)
    case None => Raise
    case Some(ms) =>
      if ms != [] then Fail(MissingFields(ms))
      else
        match Subscript(data, "stats")
        case None => Raise
        case Some(stats) =>
          if !stats.YList? then Fail(StatsNotList)
          else if stats.items == [] then Fail(StatsEmpty)
          else Scan(stats.items, EntryCheck, 0)
  }

  /** A well-formed entry of `stats`. */
  predicate GoodEntry(e: Yaml) {
    e.YMap? && HasKey(e.entries, "pcm_id") && HasKey(e.entries, "name")
  }

  /** The shape a change file must have, stated directly. */
  predicate WellFormedChange(data: Yaml, required: seq<string>) {
    && data.YMap?
    && (forall f :: f in required ==> HasKey(data.entries, f))
    && HasKey(data.entries, "stats")
    && Find(data.entries, "stats").value.YList?
    && Find(data.entries, "stats").value.items != []
    && forall i :: 0 <= i < |Find(data.entries, "stats").value.items| ==> GoodEntry(Find(data.entries, "stats").value.items[i])
  }

  lemma EntryCheckPass(i: nat, e: Yaml)
    ensures EntryCheck(i, e) == Pass <==> GoodEntry(e)
    ensures EntryCheck(i, e) != Pass ==> EntryCheck(i, e).Fail? && EntryCheck(i, e).reason.index == i
  {
    if e.YMap? {
      MissingOfMap(e.entries, ENTRY_FIELDS, "pcm_id");
      MissingOfMap(e.entries, ENTRY_FIELDS, "name");
      var ms := MissingKeys(e.entries, ENTRY_FIELDS);
      if ms != [] {
        var f := ms[0];
        assert f in ms;
        MissingOfMap(e.entries, ENTRY_FIELDS, f);
      }
    }
  }

  /** A change file passes exactly when it has the required shape, and a mapping never makes
      the validator raise when `stats` is one of the required fields. */
  lemma ChangeFileCheckPass(data: Yaml, required: seq<string>)
    ensures ChangeFileCheck(data, required) == Pass <==> WellFormedChange(data, required)
    ensures data.YMap? && "stats" in required ==> ChangeFileCheck(data, required) != Raise
  {
    if data.YMap? {
      var es := data.entries;
      MissingOfMap(es, required, "stats");
      var ms := Missing(data, required).value;
      forall f ensures f in ms <==> f in required && !HasKey(es, f) {
        MissingOfMap(es, required, f);
      }
      if ms == [] && HasKey(es, "stats") && Find(es, "stats").value.YList? {
        var items := Find(es, "stats").value.items;
        ScanSpec(items, EntryCheck, 0);
        forall i | 0 <= i < |items| ensures EntryCheck(i, items[i]) == Pass <==> GoodEntry(items[i]) {
          EntryCheckPass(i, items[i]);
        }
        if Scan(items, EntryCheck, 0) != Pass {
          var j :| 0 <= j < |items| && Scan(items, EntryCheck, 0) == EntryCheck(j, items[j]);
          EntryCheckPass(j, items[j]);
        }
      }
      if ms != [] {
        assert ms[0] in ms;
      }
    }
  }

  /** A mapping lacking required fields is rejected with exactly the fields it lacks. */
  lemma ChangeFileMissingFields(es: seq<(Key, Yaml)>, required: seq<string>, f: string)
    requires exists g :: g in required && !HasKey(es, g)
    ensures ChangeFileCheck(YMap(es), required).Fail?
    ensures ChangeFileCheck(YMap(es), required).reason.MissingFields?
    ensures f in ChangeFileCheck(YMap(es), required).reason.fields <==> f in required && !HasKey(es, f)
  {
    var g :| g in required && !HasKey(es, g);
    MissingOfMap(es, required, g);
    MissingOfMap(es, required, f);
  }

  /** An entry of `stats` is reported only when it is the first bad one. */
  lemma ChangeFileFirstBadEntry(data: Yaml, required: seq<string>)
    requires data.YMap? && HasKey(data.entries, "stats") && Find(data.entries, "stats").value.YList?
    requires ChangeFileCheck(data, required).Fail?
    requires ChangeFileCheck(data, required).reason.EntryNotDict? || ChangeFileCheck(data, required).reason.EntryMissingFields?
    ensures var items := Find(data.entries, "stats").value.items; var i := ChangeFileCheck(data, required).reason.index;
      && i < |items| && !GoodEntry(items[i]) && forall k :: 0 <= k < i ==> GoodEntry(items[k])
  {
    var items := Find(data.entries, "stats").value.items;
    MissingOfMap(data.entries, required, "");
    var r := Scan(items, EntryCheck, 0);
    ScanSpec(items, EntryCheck, 0);
    var j :| 0 <= j < |items| && r == EntryCheck(j, items[j]) && forall k :: 0 <= k < j ==> EntryCheck(k, items[k]) == Pass;
    EntryCheckPass(j, items[j]);
    forall k | 0 <= k < j ensures GoodEntry(items[k]) {
      EntryCheckPass(k, items[k]);
    }
  }

  /** `validate_required_fields_change_file` of src/api.py: `date`, `stats` and `author`. */
  function ApiChangeFileCheck(data: Yaml): Check {
    ChangeFileCheck(data, ["date", "stats", "author"])
  }

  /** A stats value `isinstance(v, (int, float))` accepts (a `bool` is an `int`). */
  predicate IsNumber(v: Yaml) {
    v.YInt? || v.YBool?
  }

  /** A `first_cycling_id` `isinstance(v, (int, str))` accepts. */
  predicate IsIntOrStr(v: Yaml) {
    v.YInt? || v.YBool? || v.YStr?
  }

  /** The loop over a cyclist's `stats`: the first key outside `STAT_KEYS` or non-numeric
      value, in order. */
  function StatEntriesCheck(id: Key, es: seq<(Key, Yaml)>): Check
    decreases |es|
  {
    if es == [] then Pass
    else if !(es[0].0.KStr? && es[0].0.s in STAT_KEYS) then Fail(InvalidStatKey(id, es[0].0))
    else if !IsNumber(es[0].1) then Fail(StatNotNumeric(id, es[0].0))
    else StatEntriesCheck(id, es[1..])
  }

  predicate GoodStatEntry(x: (Key, Yaml)) {
    x.0.KStr? && x.0.s in STAT_KEYS && IsNumber(x.1)
  }

  lemma {:induction false} StatEntriesCheckPass(id: Key, es: seq<(Key, Yaml)>)
    ensures StatEntriesCheck(id, es) == Pass <==> forall i :: 0 <= i < |es| ==> GoodStatEntry(es[i])
    ensures StatEntriesCheck(id, es) != Pass ==> StatEntriesCheck(id, es).Fail?
    decreases |es|
  {
    if es != [] {
      StatEntriesCheckPass(id, es[1..]);
      assert forall i :: 1 <= i < |es| ==> es[i] == es[1..][i - 1];
    }
  }

  /** The checks of one cyclist entry. `int(id)` of a null key raises a `TypeError`, which the
      validator does not catch; the stats checks and the `first_cycling_id` check are those
      of src/api.py only (`full`). */
  function CyclistCheck(full: bool, id: Key, cd: Yaml): Check {
    if !cd.YMap? then Fail(CyclistNotDict(id))
    else if !HasKey(cd.entries, "name") then Fail(CyclistMissingFields(id, ["name"]))
    else if id.KNull? then Raise
    else if KeyToInt(id).None? then Fail(CyclistIdNotNumeric(id))
    else if !full then Pass
    else if HasKey(cd.entries, "stats") && !Find(cd.entries, "stats").value.YMap? then Fail(CyclistStatsNotDict(id))
    else
      var s := if HasKey(cd.entries, "stats") then StatEntriesCheck(id, Find(cd.entries, "stats").value.entries) else Pass;
      if s != Pass then s
      else if HasKey(cd.entries, "first_cycling_id") && !IsIntOrStr(Find(cd.entries, "first_cycling_id").value) then
        Fail(FirstCyclingIdNotNumeric(id))
      else Pass
  }

  function ApiCyclistCheck(i: nat, x: (Key, Yaml)): Check {
    CyclistCheck(true, x.0, x.1)
  }

  function CliCyclistCheck(i: nat, x: (Key, Yaml)): Check {
    CyclistCheck(false, x.0, x.1)
  }

  /** A stats-file validator: a non-empty mapping whose entries are checked in order. */
  function StatsFileCheck(data: Yaml, full: bool): Check {
    if !data.YMap? then Fail(NotADictionary)
    else if data.entries == [] then Fail(EmptyStatsFile)
    else Scan(data.entries, if full then ApiCyclistCheck else CliCyclistCheck, 0)
  }

  /** A cyclist entry as a stats file must hold it, stated directly. */
  predicate GoodCyclist(full: bool, id: Key, cd: Yaml) {
    && cd.YMap?
    && HasKey(cd.entries, "name")
    && KeyToInt(id).Some?
    && (full && HasKey(cd.entries, "stats") ==>
          Find(cd.entries, "stats").value.YMap?
          && forall i :: 0 <= i < |Find(cd.entries, "stats").value.entries| ==> GoodStatEntry(Find(cd.entries, "stats").value.entries[i]))
    && (full && HasKey(cd.entries, "first_cycling_id") ==> IsIntOrStr(Find(cd.entries, "first_cycling_id").value))
  }

  lemma CyclistCheckPass(full: bool, id: Key, cd: Yaml)
    ensures CyclistCheck(full, id, cd) == Pass <==> GoodCyclist(full, id, cd)
    ensures CyclistCheck(full, id, cd) == Raise <==> cd.YMap? && HasKey(cd.entries, "name") && id.KNull?
  {
    if cd.YMap? && HasKey(cd.entries, "stats") && Find(cd.entries, "stats").value.YMap? {
      StatEntriesCheckPass(id, Find(cd.entries, "stats").value.entries);
    }
  }

  /** A stats file passes exactly when it is a non-empty mapping of well-formed cyclists; it
      raises only at a cyclist under a null key that is the first bad entry. */
  lemma StatsFileCheckPass(data: Yaml, full: bool)
    ensures StatsFileCheck(data, full) == Pass <==>
      data.YMap? && data.entries != [] && forall i :: 0 <= i < |data.entries| ==> GoodCyclist(full, data.entries[i].0, data.entries[i].1)
    ensures StatsFileCheck(data, full) == Raise ==>
      data.YMap? && exists i :: 0 <= i < |data.entries| && data.entries[i].0.KNull?
  {
    if data.YMap? && data.entries != [] {
      var es := data.entries;
      var check := if full then ApiCyclistCheck else CliCyclistCheck;
      ScanSpec(es, check, 0);
      forall i | 0 <= i < |es| ensures check(i, es[i]) == Pass <==> GoodCyclist(full, es[i].0, es[i].1) {
        CyclistCheckPass(full, es[i].0, es[i].1);
      }
      if Scan(es, check, 0) == Raise {
        var j :| 0 <= j < |es| && Scan(es, check, 0) == check(j, es[j]);
        CyclistCheckPass(full, es[j].0, es[j].1);
      }
    }
  }

  /** `validate_required_fields_stats_file` of src/api.py. */
  function ApiStatsFileCheck(data: Yaml): Check {
    StatsFileCheck(data, true)
  }

  /** The verdict of `validate_single_yaml_file`, without the message texts. */
  datatype FileVerdict =
    | FileValid
    | SyntaxError
    | ChangeFileInvalid(reason: Reason)
    | StatsFileInvalid(reason: Reason)
    | UnknownFileType
    | ValidationError

  /** How a validator's outcome is reported: its reason prefixed by the file kind, an escaped
      exception as a validation error. */
  function Report(c: Check, isChange: bool): FileVerdict {
    match c
    case Pass => FileValid
    case Fail(r) => if isChange then ChangeFileInvalid(r) else StatsFileInvalid(r)
    case Raise => ValidationError
  }

  function LowerChar(c: char): char {
    if 'A' <= c <= 'Z' then (c as int + 32) as char else c
  }

  /** `str.lower()` on ASCII letters. */
  function Lower(s: string): (r: string)
    ensures |r| == |s|
    ensures forall i :: 0 <= i < |s| ==> r[i] == LowerChar(s[i])
  {
    if s == [] then [] else [LowerChar(s[0])] + Lower(s[1..])
  }

  datatype FileKind = ChangeFileKind | StatsFileKind | UnknownKind

  /** `detect_yaml_file_type` of src/api.py: by the file's name, ignoring case. */
  function ApiDetectFileType(isFile: bool, fileName: string): FileKind {
    if isFile && Lower(fileName) in ["change.yaml", "change.yml"] then ChangeFileKind
    else if isFile && Lower(fileName) == "stats.yaml" then StatsFileKind
    else UnknownKind
  }

  /** `validate_single_yaml_file` of src/api.py. `parsed` is the parse result of the file
      (`None` for a YAML syntax error). */
  function ApiValidateFile(isFile: bool, fileName: string, parsed: Option<Yaml>): FileVerdict {
    match parsed
    case None => SyntaxError
    case Some(data) =>
      match ApiDetectFileType(isFile, fileName)
      case ChangeFileKind => Report(ApiChangeFileCheck(data), true)
      case StatsFileKind => Report(ApiStatsFileCheck(data), false)
      case UnknownKind => UnknownFileType
  }

  /** The verdict follows from the syntax, the name and the matching validator alone; a file
      that parses as a mapping never ends in a validation error. */
  lemma ApiValidateFileSpec(isFile: bool, fileName: string, parsed: Option<Yaml>)
    ensures ApiValidateFile(isFile, fileName, parsed) == SyntaxError <==> parsed.None?
    ensures ApiValidateFile(isFile, fileName, parsed) == FileValid <==>
      parsed.Some? &&
      ((ApiDetectFileType(isFile, fileName) == ChangeFileKind && WellFormedChange(parsed.value, ["date", "stats", "author"])) ||
       (ApiDetectFileType(isFile, fileName) == StatsFileKind && StatsFileCheck(parsed.value, true) == Pass))
    ensures parsed.Some? && parsed.value.YMap? && ApiDetectFileType(isFile, fileName) == ChangeFileKind ==>
      ApiValidateFile(isFile, fileName, parsed) != ValidationError
  {
    if parsed.Some? {
      ChangeFileCheckPass(parsed.value, ["date", "stats", "author"]);
    }
  }

  /** An empty `change.yaml` parses as null, and `'date' in None` raises: the file is reported
      as a validation error, not as missing fields. */
  lemma EmptyChangeFileRaises(fileName: string)
    requires Lower(fileName) in ["change.yaml", "change.yml"]
    ensures ApiValidateFile(true, fileName, Some(YNull)) == ValidationError
  {
    assert Missing(YNull, ["date"]) == None;
  }
}
