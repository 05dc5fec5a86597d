/** The checks of `PCMStatsManager` in src/pcm_cli.py: the older validators (a change file
    needs `name` but not `author`; a stats file is only checked for names and numeric ids),
    the structural file-type detector and the dispatch over it, and the exit rule of
    `process_changes`. */
module Cli {
  import opened Yaml
  import opened Snapshot
  import opened Validators
  import opened Batch
  import opened Workspace
  import ModelDriver

  const CHANGE_FIELDS: seq<string> := ["name", "date", "stats"]

  /** `validate_required_fields_change_file` of src/pcm_cli.py. */
  function CliChangeFileCheck(data: Yaml): Check {
    ChangeFileCheck(data, CHANGE_FIELDS)
  }

  /** `validate_required_fields_stats_file` of src/pcm_cli.py. */
  function CliStatsFileCheck(data: Yaml): Check {
    StatsFileCheck(data, false)
  }

  /** A key `isinstance(key, (str, int))` accepts (a `bool` is an `int`). */
  predicate IsStrOrInt(k: Key) {
    !k.KNull?
  }

  /** `detect_yaml_file_type` of src/pcm_cli.py: a mapping with `name`, `date` and `stats` is
      a change file; otherwise a mapping whose keys are all strings or integers and all
      convert with `int` is a stats file; anything else is unknown. */
  function DetectFileType(data: Yaml): FileKind {
    if !data.YMap? then UnknownKind
    else if HasKey(data.entries, "name") && HasKey(data.entries, "date") && HasKey(data.entries, "stats") then ChangeFileKind
    else if (forall i :: 0 <= i < |data.entries| ==> IsStrOrInt(data.entries[i].0)) && AllIntKeys(data.entries) then StatsFileKind
    else UnknownKind
  }

  /** A stats file is detected exactly when the mapping is not a change file and every key
      reads as an integer; in particular the empty mapping is a stats file. */
  lemma DetectFileTypeIff(data: Yaml)
    ensures DetectFileType(data) == ChangeFileKind <==>
      data.YMap? && HasKey(data.entries, "name") && HasKey(data.entries, "date") && HasKey(data.entries, "stats")
    ensures DetectFileType(data) == StatsFileKind <==>
      data.YMap? && !(HasKey(data.entries, "name") && HasKey(data.entries, "date") && HasKey(data.entries, "stats"))
      && forall i :: 0 <= i < |data.entries| ==> KeyToInt(data.entries[i].0).Some?
    ensures data == YMap([]) ==> DetectFileType(data) == StatsFileKind
  {
  }

  /** `validate_single_yaml_file` of src/pcm_cli.py. `parsed` is the parse result of the file
      (`None` for a YAML syntax error). */
  function CliValidateFile(parsed: Option<Yaml>): FileVerdict {
    match parsed
    case None => SyntaxError
    case Some(data) =>
      match DetectFileType(data)
      case ChangeFileKind => Report(CliChangeFileCheck(data), true)
      case StatsFileKind => Report(CliStatsFileCheck(data), false)
      case UnknownKind => UnknownFileType
  }

  /** The verdict is the syntax error, the unknown type, or the matching validator's. */
  lemma CliValidateFileSpec(parsed: Option<Yaml>)
    ensures CliValidateFile(parsed) == SyntaxError <==> parsed.None?
    ensures CliValidateFile(parsed) == UnknownFileType <==> parsed.Some? && DetectFileType(parsed.value) == UnknownKind
    ensures CliValidateFile(parsed) == FileValid <==>
      parsed.Some? &&
      ((DetectFileType(parsed.value) == ChangeFileKind && WellFormedChange(parsed.value, CHANGE_FIELDS)) ||
       (DetectFileType(parsed.value) == StatsFileKind && CliStatsFileCheck(parsed.value) == Pass))
  {
    if parsed.Some? {
      ChangeFileCheckPass(parsed.value, CHANGE_FIELDS);
    }
  }

  /** Detection already demands the change-file fields, so the change-file validator it
      dispatches to never raises and never reports missing top-level fields. */
  lemma CliChangeFileChecked(data: Yaml)
    requires DetectFileType(data) == ChangeFileKind
    ensures CliChangeFileCheck(data) != Raise
    ensures !(CliChangeFileCheck(data).Fail? && CliChangeFileCheck(data).reason.MissingFields?)
  {
    var es := data.entries;
    ChangeFileCheckPass(data, CHANGE_FIELDS);
    MissingOfMap(es, CHANGE_FIELDS, "");
    var ms := Missing(data, CHANGE_FIELDS).value;
    var first := if ms != [] then ms[0] else "";
    MissingOfMap(es, CHANGE_FIELDS, first);
    assert ms == [];
    if Find(es, "stats").value.YList? && Find(es, "stats").value.items != [] {
      var items := Find(es, "stats").value.items;
      ScanSpec(items, EntryCheck, 0);
      var r := Scan(items, EntryCheck, 0);
      if r != Pass {
        var j :| 0 <= j < |items| && r == EntryCheck(j, items[j]);
        EntryCheckPass(j, items[j]);
      }
    }
  }

  /** Detection already demands integer keys, so the stats-file validator it dispatches to
      never raises and never reports a non-numeric cyclist id. */
  lemma CliStatsFileChecked(data: Yaml)
    requires DetectFileType(data) == StatsFileKind
    ensures CliStatsFileCheck(data) != Raise
    ensures !(CliStatsFileCheck(data).Fail? && CliStatsFileCheck(data).reason.CyclistIdNotNumeric?)
  {
    var es := data.entries;
    if es != [] {
      ScanSpec(es, CliCyclistCheck, 0);
      var r := Scan(es, CliCyclistCheck, 0);
      if r != Pass {
        var j :| 0 <= j < |es| && r == CliCyclistCheck(j, es[j]);
        assert KeyToInt(es[j].0).Some?;
      }
    }
  }

  /** A file that parses never ends in a validation error under the CLI's dispatch. */
  lemma CliValidateFileNeverRaises(parsed: Option<Yaml>)
    ensures CliValidateFile(parsed) != ValidationError
  {
    if parsed.Some? {
      match DetectFileType(parsed.value)
      case ChangeFileKind => CliChangeFileChecked(parsed.value);
      case StatsFileKind => CliStatsFileChecked(parsed.value);
      case UnknownKind =>
    }
  }

  /** The exit status of `process_changes`: success when any change was generated, otherwise
      the batch's overall success. */
  function ProcessChangesResult(s: BatchSummary): bool {
    if s.totalChanges > 0 then true else s.overallSuccess
  }

  /** Over the batch of src/model/api.py, `process_changes` succeeds exactly when some change
      was generated or every namespace has (or can create) its database: a failed namespace
      goes unreported whenever another generated a change. */
  lemma ProcessChangesOutcome(namespaces: seq<string>, env: string -> NsEnv, schemaAvailable: bool)
    ensures var s := Summarize(ModelDriver.Reports(ModelDriver.Results(namespaces, env, schemaAvailable)));
      ProcessChangesResult(s) <==>
        s.totalChanges > 0 || schemaAvailable || forall i :: 0 <= i < |namespaces| ==> env(namespaces[i]).dbExists
  {
    ModelDriver.AllNamespacesSuccessIff(namespaces, env, schemaAvailable);
  }
}
