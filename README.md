# PCM stats management: change ingestion and stat versioning

This project is a Dafny model of the change pipeline of the PCM World DB stats repository. Each
namespace (a data set such as `procyclingstats`) has four parts:

- a `changes/` directory with one sub-directory per change, holding a `change.yaml`
  (or `change.yml`);
- a `stats.yaml` snapshot of every cyclist's current record;
- a SQLite tracking database;
- optionally an `init_cdb.sqlite` game database, used to seed the snapshot.

The model covers these parts of the pipeline:

- **Reconciler.** A change record is compared with the tracking store. The result is the
  change-ledger insert, an insert for every cyclist the store does not know, and one history
  insert per stat whose value differs from the latest stored version. Both variants are
  modelled:
  - `src/api.py` uses two statement lists and de-duplicates cyclists within a change
    (module `Reconcile`);
  - `src/model/api.py` uses one list, does not de-duplicate, and writes the ledger row itself
    (module `ModelPipeline`).
- **Store.** The tracking database is a value with a ledger of changes, the cyclists table and
  the history table. It also has an execution semantics: the version of a history row is
  computed when the statement runs, as one more than the highest version stored for that
  (cyclist, stat) pair, or 1 when there is none. Module `Store`.
- **Snapshot projector.** `update_stats_file_with_changes` merges a change's entries into the
  per-cyclist snapshot:
  - the name is overwritten;
  - `first_cycling_id` is overwritten or carried forward;
  - each of the 14 stats is overwritten or carried forward;
  - the counters are kept;
  - the output is sorted by integer id;
  - every exception becomes the error summary.
  Module `Snapshot`, with the flow-style rule of the YAML writer in `StatsWriter`.
- **Seeding.** The row-to-record mapping of `import_cyclists_from_db`. Module `Importer`.
- **Orchestration.** The drivers of both variants:
  - the work queue of change directories not yet in the ledger;
  - per-change skipping and counting;
  - per-namespace failure capture;
  - the batch summary.
  Modules `Workspace`, `Batch`, `ModelDriver` and `Pipeline`.
- **UAT phase.** The still unrecorded changes are executed in name order. Each change's SQL
  text is split into statements, and each change is committed or rolled back on its own.
  Module `Uat`.
- **Validators.** The change-file and stats-file checks of `src/api.py` (module `Validators`).
  The older checks of `src/pcm_cli.py` with its structural file-type detector are in module
  `Cli`, together with the exit rule of `process_changes`.
- **Paths and constants.** `STAT_KEYS`, `get_path` and `get_available_namespaces`. Module
  `Commons`.

Parsed YAML is a generic `Yaml` value with null, bool, int, string, list and mapping cases.
Mappings are insertion-ordered lists of pairs, and a lookup finds the first match. A `YMap`
stands for a dict PyYAML has loaded, whose keys are distinct: for a repeated key PyYAML keeps
the last value, so the first-match rule only matters for pair lists the model builds. This keeps
the source's dynamic-typing behaviour where the outcome depends on it:

- an entry that is not a mapping;
- `str(None)` becoming the key `"None"`;
- a `bool` counting as an `int`;
- a key that `int()` cannot parse.

Each exception that the source catches, including sqlite3's refusal to bind a list, a mapping
or an integer outside the signed 64-bit range, is modelled by the condition that raises it and
the branch the source then takes. That branch is an explicit error result, except for the
driver's ledger mark, which only warns and leaves the store unchanged. The
filesystem, the database, the schema file and the CSV export are inputs or parameters:

- a directory listing is a sequence of `ChangeDir` values, each saying whether its
  `change.yaml`/`change.yml`/`inserts.sql` exist and what they parse to;
- whether the schema file can be read is a boolean;
- SQL execution in the UAT phase is a `run` function;
- the export is an `exporter` function.

Most operations that loop in the source are methods with loops. Each is proved equal to a
specification function, and the properties are proved about those functions. The validators'
loops over entries and stat keys are the exception: they are the recursive function
`Validators.Scan`, because the validators only compute a list of messages.

## Model

| member | source | states |
|---|---|---|
| Commons.StatKeysDistinct | src/utils/commons.py:3 | `STAT_KEYS` has exactly 14 keys, all distinct |
| Commons.Join | src/utils/commons.py:12-20 | joining onto an absolute path yields that path; otherwise the result starts with the base and ends with the second part, with one `/` between them unless the base is empty or already ends in one |
| Commons.GetPath | src/utils/commons.py:7-20 | a path is returned exactly when the path type is one of `PATH_TYPES`; any other type fails the assertion |
| Commons.GetPathUnderRoot | src/utils/commons.py:11-20 | every path of a namespace has the namespace root as a prefix |
| Commons.GetPathLayout | src/utils/commons.py:11-20 | root is `data/<ns>`; the other four types are `changes`, `stats.yaml`, `tracking_db.sqlite` and `cdb` under it |
| Commons.DirNames | src/utils/commons.py:33-37 | at most as many names as listing entries |
| Commons.GetAvailableNamespaces | src/utils/commons.py:23-39 | no data directory gives `[]`; otherwise the result is a sorted permutation of the directory entries' names |
| Sorting.LexLeTotal | src/api.py:1149 | string order is total |
| Sorting.LexLeTransitive | src/api.py:1149 | string order is transitive |
| Sorting.LexLeAntisymmetric | src/api.py:1149 | string order is antisymmetric |
| Sorting.StrLeTotalPreorder | src/utils/commons.py:39 | string order is a total preorder, so sorting by it is well defined |
| Sorting.Insert | src/api.py:217 | insertion adds exactly the one element (same multiset plus it) |
| Sorting.InsertionSort | src/api.py:217 | sorting permutes its input |
| Sorting.InsertSorted | src/api.py:217 | inserting into a sorted sequence keeps it sorted |
| Sorting.InsertionSortSorted | src/api.py:217 | for a total preorder the result is sorted and a permutation of the input |
| Sorting.InsertionSortOfSorted | src/api.py:217 | an already sorted input is returned unchanged |
| Sorting.SortStrings | src/utils/commons.py:39 | `sorted` on strings: a sorted permutation |
| Yaml.FindSpec | src/api.py:153-155 | `dict.get` finds a key exactly when some pair has that key, and returns a value stored under it |
| Yaml.GetOr | src/api.py:378 | `get` with a default: the default when the key is absent, the stored value otherwise |
| Yaml.Put | src/api.py:212 | after `d[k] = v`, `d[k]` is `v` |
| Yaml.PutSpec | src/api.py:162-212 | assignment changes no other key and keeps the other pairs; it grows the mapping only for a new key; the key set gains `k` |
| Yaml.PutFind | src/api.py:212 | after `d[k] = v`, reading `k` gives `v` and reading any other key gives what it gave before |
| Yaml.PutSame | src/api.py:212 | re-assigning the stored value leaves the mapping unchanged |
| Yaml.NatToString | src/api.py:154 | `str` of a natural number is a non-empty string of digits |
| Yaml.StripLeft | src/api.py:961 | left strip is no longer than its input and does not start with whitespace |
| Yaml.StripRight | src/api.py:961 | right strip is no longer than its input and does not end with whitespace |
| Yaml.Strip | src/api.py:961 | a stripped string is empty or has non-space ends |
| Yaml.StripNoSpace | src/api.py:961 | stripping a string without whitespace is the identity |
| Yaml.DigitsValueOfNat | src/api.py:217 | the digits of `str(n)` are valid for `int` and read back as `n` |
| Yaml.ParseIntOfIntToString | src/api.py:154-217 | `int(str(i)) == i` for every integer, so an integer `pcm_id` survives the key conversion and the numeric sort |
| Yaml.NoneTextIsNotAnInteger | src/api.py:154-217 | `int(str(None))` fails, so a missing `pcm_id` makes the numeric sort raise |
| Yaml.PyStrEmpty | src/api.py:154-157 | `str(v)` is empty only for the empty string, so only that `pcm_id` is skipped by `not pcm_id` |
| Yaml.FindAppend | src/api.py:153-155 | lookup in a concatenation finds the first part's value when it has the key |
| Store.ParamIdIsStoredId | src/api.py:439-447 | for int and string ids, the bound query parameter equals the text stored by the insert |
| Store.Top | src/api.py:452-458 | the latest row (`ORDER BY version DESC LIMIT 1`) is a row of the history for that cyclist and stat |
| Store.TopIsMax | src/api.py:452-461 | the latest row is missing exactly when no row matches, and its version is at least every matching row's |
| Store.GetNextVersion | src/model/api.py:263-271 | the next version is at least 1, is 1 without prior rows, and exceeds every stored version of that pair |
| Store.GetNextVersionIsNextVersion | src/model/api.py:263-271 | read over the stat history (in place of the `tbl_change_history` table the query names), `MAX(version) + 1` or 1 is the version the history insert's `COALESCE` subquery computes (src/api.py:422-428) |
| Store.GapFreeTopIsCount | src/api.py:422-428 | in a gap-free history the latest version of a pair is its row count, so the next version is count + 1 |
| Store.ExecAppend | src/api.py:1189-1191 | running statements one after another: a failure stops the rest |
| Store.ExecHistoryVersion | src/api.py:416-429 | a history insert for a known cyclist and change appends one row whose version is the pair's count + 1 |
| Store.ExecStmtValid | src/api.py:416-429 | executing one statement keeps versions gap-free and history rows linked to a cyclist and a change |
| Store.ExecValid | src/api.py:416-429 | executing any statement list keeps versions gap-free and history rows linked |
| Store.ExecGrows | src/api.py:1189-1193 | successful execution only adds: the history is extended and no change or cyclist disappears |
| Store.ExecAddsCyclist | src/api.py:445-447 | after a successful run, every cyclist inserted by the run is in the table |
| Store.ExecFailsOnKnownCyclist | src/api.py:445-447 | inserting a cyclist whose id is already stored makes the run fail |
| Store.ExecFailsOnRepeatedCyclist | src/model/api.py:195-205 | two cyclist inserts with the same id in one run make it fail |
| Store.ReplayFails | src/api.py:377-378 | a change file whose ledger name is already recorded fails on its first statement |
| Change.MapsOf | src/api.py:385-387 | the entries are usable exactly when every element is a mapping, and then they are those mappings |
| Change.StatsEntries | src/api.py:385 | iterating `stats`: a list gives its mappings; `''` and `{}` give no entries; any other value raises |
| Change.PcmsBindableIff | src/api.py:393-397 | the record's ids pass iff every active entry's `pcm_id` can be bound: not a list or mapping, and an integer only within 64 bits |
| Change.OverflowingIdNotGenerable | src/api.py:439-441 | an active entry whose integer `pcm_id` is outside 64 bits makes the record unusable, so both generators answer `-1` |
| Change.ChangeInsert | src/api.py:377-378 | the ledger insert is named after the directory, with `description` defaulting to `''` and `author` to `'Unknown'` |
| Change.CyclistInsertIfNotExists | src/api.py:439-448 | an insert exactly when the id is not stored; it carries the id and name; an absent or `'NULL'` `first_cycling_id` becomes NULL, and any other value is carried over |
| Change.ShouldInsertIffDisagrees | src/api.py:450-461 | a stat change is inserted iff there is no stored value or the latest stored value differs |
| Change.EntryAssertionsIff | src/api.py:408-412 | an entry asserts a stat iff it is a `STAT_KEYS` key with a value that is present and not `''` |
| Change.AssertionsIff | src/api.py:400-412 | the change asserts a value iff some active entry (truthy `pcm_id` and `name`) asserts it |
| Change.HistoryInserts | src/api.py:408-431 | at most one history insert per asserted value |
| Change.HistoryInsertsIff | src/api.py:408-431 | a history insert is emitted iff some assertion disagrees with the store, and it carries that assertion |
| Change.HistoryInsertsAppend | src/api.py:400-431 | the history inserts of consecutive entries concatenate |
| Change.AssertionsAppend | src/api.py:400-412 | the assertions of consecutive entries concatenate |
| Change.HistoryInsertsReadHistory | src/api.py:450-461 | the decision reads only the stored history |
| Workspace.Directories | src/api.py:281-282 | the directory filter never grows the listing |
| Workspace.DirectoriesIff | src/api.py:281-282 | an entry is kept iff it is in the listing and is a directory |
| Workspace.Unrecorded | src/api.py:285 | the ledger filter never grows the list |
| Workspace.UnrecordedIff | src/api.py:285 | a directory is queued iff its name is not in the ledger |
| Workspace.QueueIff | src/api.py:281-285 | the work queue is exactly the listed directories whose names are not in the ledger |
| Workspace.FindChangeFile | src/api.py:7-22 | `change.yaml` is preferred, then `change.yml`; none when neither exists |
| Batch.Names | src/model/api.py:370-371 | one name per report, in order |
| Batch.SelectPartition | src/model/api.py:376-380 | the successful and failed lists together are a permutation of the namespaces |
| Batch.SelectIff | src/model/api.py:376-380 | a namespace is in the successful (failed) list iff its report succeeded (failed) |
| Batch.OverallSuccessIff | src/model/api.py:348-380 | `overall_success` iff every namespace succeeded; no namespaces gives the all-zero, successful summary |
| Batch.Disjoint | src/model/api.py:376-380 | for distinct namespaces no name is both successful and failed |
| Batch.SummarizeAppend | src/model/api.py:370-380 | one more report adds one to the count, its name to one list, its changes to the total, and ANDs its success into `overall_success` |
| Reconcile.SeenPcmsIff | src/api.py:383-397 | the duplicate-tracking set holds exactly the ids of active entries |
| Reconcile.CyclistInsertsFromEntries | src/api.py:383-397 | every step-1 cyclist statement is a cyclist insert for an id some entry named |
| Reconcile.CyclistInsertsUnique | src/api.py:383-397 | at most one cyclist insert per id per change |
| Reconcile.CyclistInsertsIff | src/api.py:383-397 | a cyclist insert for an id exists iff an active entry names it and the store lacks it, built from its first entry |
| Reconcile.GenerateSql | src/api.py:351-437 | error `([], [], -1)` iff the record is unusable (not a mapping, no `date` or `stats`, `stats` not iterable as mappings, or an active `pcm_id` sqlite3 cannot bind: a list, a mapping or an integer outside 64 bits); on success the count is the number of history inserts, and step 1 opens with the ledger insert followed only by cyclist inserts |
| Reconcile.MissingFieldsFail | src/api.py:369-371 | a record lacking `date` or `stats` yields `([], [], -1)` |
| Reconcile.HistoryInsertIff | src/api.py:400-433 | a step-2 statement exists iff some entry asserts a value the store disagrees with |
| Reconcile.GenerateSqlForChangeFile | src/api.py:351-437 | the looping generator computes `GenerateSql` |
| Reconcile.CyclistPass | src/api.py:383-397 | the first loop fails iff some active `pcm_id` cannot be bound (a list or mapping fails the set test, an integer outside 64 bits the lookup on its first entry); otherwise it builds exactly the de-duplicated cyclist inserts |
| Reconcile.HistoryPass | src/api.py:400-433 | the second loop builds the history inserts of all assertions and counts them |
| Reconcile.EntryHistoryPass | src/api.py:408-431 | the inner stat loop builds one entry's history inserts and counts them |
| ModelPipeline.ModelGenerateSql | src/model/api.py:166-237 | error `([], -1)` iff the record is unusable (not a mapping, no `date` or `stats`, `stats` not iterable as mappings, or an active `pcm_id` sqlite3 cannot bind: a list, a mapping or an integer outside 64 bits); otherwise the list opens with the ledger insert |
| ModelPipeline.StatementsAppend | src/model/api.py:195-231 | the statements of consecutive entries concatenate |
| ModelPipeline.HistoryOnlyOfHistoryInserts | src/model/api.py:208-231 | history inserts are exactly history statements |
| ModelPipeline.StatementsHistory | src/model/api.py:195-233 | the history statements of the single list are the history inserts of all assertions, in order |
| ModelPipeline.ModelSameHistory | src/model/api.py:195-233 | the two variants emit the same history inserts, and this variant's count is their number |
| ModelPipeline.ModelCyclistInsertIff | src/model/api.py:195-205 | a cyclist insert appears iff some active entry yields it; nothing is de-duplicated |
| ModelPipeline.RepeatedNewCyclistFails | src/model/api.py:195-205 | two active entries naming the same unknown id make the generated file fail when executed |
| ModelPipeline.GenerateSqlForChangeFile | src/model/api.py:166-237 | the looping generator computes `ModelGenerateSql` |
| ModelPipeline.ModelPass | src/model/api.py:195-233 | the entry loop fails iff some active `pcm_id` cannot be bound (a list, a mapping or an integer outside 64 bits); otherwise it builds the statements and counts the history inserts |
| ModelPipeline.EntryPass | src/model/api.py:196-231 | one entry's statements and history count |
| ModelPipeline.StatementsReadData | src/model/api.py:239-261 | generation reads only the cyclists and the history |
| ModelPipeline.GenerationReadsData | src/model/api.py:239-261 | the ledger does not affect generation |
| ModelPipeline.MarkStmt | src/model/api.py:133-139 | the driver's ledger row is for the change's directory name |
| ModelPipeline.MarkStmtIsChangeInsert | src/model/api.py:133-139 | with a `date`, the driver's ledger row equals the file's first statement (src/model/api.py:190-191) |
| ModelPipeline.MarkLedger | src/model/api.py:127-143 | marking changes only the ledger, by at most the change's name; a row sqlite3 can bind (no list or mapping, integers within 64 bits) is recorded; otherwise the bind raises and the store is unchanged, since the failure only warns |
| ModelPipeline.FileOf | src/model/api.py:107-119 | a file is written iff `change.yaml` exists and generation succeeds; it is named after the directory, and its count is non-negative |
| ModelPipeline.StepWritten | src/model/api.py:118-147 | each directory appends at most its own file |
| ModelPipeline.RunKeepsData | src/model/api.py:107-147 | generation changes only the ledger, which only grows |
| ModelPipeline.StepConsistent | src/model/api.py:145-147 | processed and SQL-file counts equal the files written; new changes are their count sum |
| ModelPipeline.RunSummary | src/model/api.py:103-147 | the counters stay consistent, and at most one file is written per queued directory |
| ModelPipeline.RunWrittenIff | src/model/api.py:107-147 | a file is written iff some queued directory yields it, generated against the original cyclists and history |
| ModelPipeline.RunMarks | src/model/api.py:127-140 | every written change with bindable fields is in the ledger afterwards |
| ModelPipeline.GenerateAllSummary | src/model/api.py:89-155 | `skipped_files` is directories minus processed; `new_changes` is the sum of counts; files are exactly those of unrecorded directories |
| ModelPipeline.RerunSkipsRecorded | src/model/api.py:127-128 | a second run does not regenerate a change marked by the first |
| ModelPipeline.WrittenFileReplayFails | src/model/api.py:127-140 | a file whose change was marked fails on its first statement when executed after marking |
| ModelPipeline.ProcessNewChangeFiles | src/model/api.py:67-164 | the looping driver computes `GenerateAll`; no `changes` directory gives all zeros |
| ModelDriver.InitNamespace | src/model/api.py:6-49 | creates the `changes` directory; a database exists afterwards iff the schema is available, then empty |
| ModelDriver.ProcessNamespace | src/model/api.py:273-332 | the method computes `Namespace` |
| ModelDriver.NamespaceSuccessIff | src/model/api.py:286-330 | success iff the database exists or can be created; the error is set exactly on failure; failure has zero counts |
| ModelDriver.ExistingDatabaseKept | src/model/api.py:288-296 | an existing database is not re-initialised: cyclists and history are kept, the ledger only grows |
| ModelDriver.NewDatabaseQueuesAll | src/model/api.py:288-291 | after creating the database every listed directory is queued |
| ModelDriver.Reports | src/model/api.py:370-380 | one report per result, in order |
| ModelDriver.ReportsSummaryStep | src/model/api.py:370-380 | the summary after one more namespace, from the summary before |
| ModelDriver.ResultsAt | src/model/api.py:370-371 | one result per namespace, each from `process_namespace` on that namespace |
| ModelDriver.ProcessAllNamespaces | src/model/api.py:334-399 | the loop returns the per-namespace results and their summary |
| ModelDriver.AllNamespacesSuccessIff | src/model/api.py:346-380 | one entry per namespace; `overall_success` iff the schema is available or every namespace has a database; the failed list is exactly the others |
| Snapshot.TakesIff | src/api.py:154-158 | an entry is taken iff `str(pcm_id)` is non-empty and `name` is truthy; an entry without `pcm_id` is taken under key `"None"` |
| Snapshot.MergeStatsFind | src/api.py:187-205 | each stat is the new non-empty value, else the prior nested value, else absent; keys outside `STAT_KEYS` are absent |
| Snapshot.MergeStatsEmpty | src/api.py:187-209 | the merged stats are empty iff no stat has a new or prior value |
| Snapshot.MergeStatsCount | src/api.py:192-202 | `stats_updated` grows by at most 14, and by 0 iff every given value equals the prior one |
| Snapshot.RecordFind | src/api.py:167-212 | the projected record holds `name`, optionally `first_cycling_id`, and `stats` only when non-empty |
| Snapshot.RecordNameAndId | src/api.py:169-184 | `name` comes from the change; `first_cycling_id` from the change when truthy and not `'NULL'`, else carried forward |
| Snapshot.RecordStats | src/api.py:186-209 | `stats` is present iff some stat has a value, and each stat follows the merge rule |
| Snapshot.RecordKeys | src/api.py:166-212 | the rebuilt record has only `name`, `first_cycling_id` and `stats`: flat top-level stat keys are dropped |
| Snapshot.SeededSpec | src/api.py:161-163 | seeding adds the empty record only for a new id and changes nothing else |
| Snapshot.ApplyFails | src/api.py:171-190 | an entry raises iff its prior record, or that record's `stats`, is not a mapping |
| Snapshot.ApplyRecord | src/api.py:160-213 | an entry adds 1 to `cyclists_added` exactly for a new id and stores the projected record under its key |
| Snapshot.ApplyKeeps | src/api.py:160-213 | an entry changes no other cyclist; the key set gains its id |
| Snapshot.ApplyIdempotent | src/api.py:153-213 | re-applying an entry changes nothing, adding no cyclists and no stat updates |
| Snapshot.RecordAgain | src/api.py:166-212 | re-projecting a projected record is the identity with zero updates |
| Snapshot.MergeStatsAgain | src/api.py:192-205 | merging again onto merged stats reproduces them with zero updates |
| Snapshot.StepAccSpec | src/api.py:153-213 | the per-entry counter updates: processed for taken entries, added for new ids |
| Snapshot.ProjectEntriesNone | src/api.py:135-247 | an exception at any entry aborts the whole projection |
| Snapshot.TouchedIff | src/api.py:153-162 | the touched ids are exactly the keys of taken entries |
| Snapshot.ProjectEntriesCount | src/api.py:148-213 | `cyclists_processed` counts the taken entries, at most all of them |
| Snapshot.ProjectEntriesKeySet | src/api.py:160-212 | the output ids are the prior ids plus the touched ones |
| Snapshot.ProjectEntriesAdded | src/api.py:161-163 | `cyclists_added` is the number of touched ids not previously present |
| Snapshot.ProjectEntriesLength | src/api.py:161-163 | the snapshot grows by exactly `cyclists_added` |
| Snapshot.ProjectEntriesKeeps | src/api.py:212 | cyclists not mentioned in the change are unchanged |
| Snapshot.ByIntKeyTotalPreorder | src/api.py:217 | ordering by `int(key)` is a total preorder |
| Snapshot.ProjectSucceedsIff | src/api.py:135-247 | `stats_file_updated` iff the files load, every entry merges and every key is an integer; otherwise the zero error summary and no output |
| Snapshot.ProjectOutput | src/api.py:215-229 | the written snapshot is sorted by integer key, a permutation of the merged data, with the merge counters |
| Snapshot.ProjectKeepsUntouched | src/api.py:212-218 | untouched cyclists are in the output; its ids are the prior ones plus the touched ones |
| Snapshot.MissingPcmIdFails | src/api.py:154-247 | an entry with a name and no `pcm_id` makes the whole projection fail |
| Snapshot.UpdateStatsFileWithChanges | src/api.py:122-247 | the method computes `Project` |
| Snapshot.MergeEntries | src/api.py:153-213 | the entry loop computes `ProjectEntries` |
| Snapshot.MergeEntry | src/api.py:154-213 | the loop body computes `Apply` |
| Snapshot.MergeStatsLoop | src/api.py:187-205 | the stat loop computes `MergeStats` over `STAT_KEYS` |
| Importer.FullName | src/api.py:956-963 | the full name is non-empty and starts with a non-space, falling back to `Cyclist <id>` |
| Importer.ColumnStatsFind | src/api.py:974-979 | each stat key maps to its column when present, and other keys are absent |
| Importer.ColumnStatsKeys | src/api.py:977-979 | the stats sub-mapping has only `STAT_KEYS` keys |
| Importer.ColumnStatsEmpty | src/api.py:974-983 | the stats sub-mapping is empty iff no stat column has a value |
| Importer.RowRecordSpec | src/api.py:954-985 | a row fails iff its ability is set but not an integer; otherwise name, optional `first_cycling_id` and a non-empty `stats` |
| Importer.RowStatsSpec | src/api.py:974-983 | the row's stats follow its columns in `STAT_KEYS` order |
| Importer.ImportRowsFails | src/api.py:954-985 | the import fails iff some row fails |
| Importer.ImportStepKeys | src/api.py:985 | a row adds exactly its id key, keeping keys unique |
| Importer.ImportRowsKeys | src/api.py:952-985 | the imported ids are exactly the rows' ids, without duplicates |
| Importer.ImportRowsLast | src/api.py:985 | a repeated id keeps the last row's record |
| Importer.ImportSpec | src/api.py:941-1010 | succeeds iff there are rows, all convert, and all ids are integers; the output is sorted by integer id and a permutation |
| Importer.IntegerIdsImport | src/api.py:954-992 | rows with integer ids that all convert always import |
| Importer.RowStats | src/api.py:975-979 | the stat loop computes the stats sub-mapping |
| Importer.BuildRecord | src/api.py:954-985 | the row loop body computes `RowRecord` |
| Importer.ImportCyclistsFromDb | src/api.py:863-1019 | the method computes `Import` |
| StatsWriter.StatKeysAreNotIntegers | src/api.py:36 | no stat key reads as an integer |
| StatsWriter.RecordIsBlock | src/api.py:36-39 | a record with `name` is not written in flow style |
| StatsWriter.IntKeyedIsBlock | src/api.py:36-39 | a non-empty id-keyed snapshot is not written in flow style |
| StatsWriter.MergedStatsAreFlow | src/api.py:36-37 | merged stats sub-mappings are written in flow style |
| StatsWriter.ProjectedRecordLayout | src/api.py:34-39 | a projected record is block style and its stats are flow style |
| StatsWriter.ImportedRecordLayout | src/api.py:34-39 | an imported record is block style and its stats are flow style |
| StatsWriter.ImportedLayout | src/api.py:34-45 | the seeded file is block style at both levels, with flow-style stats |
| Pipeline.SqlFileOf | src/api.py:294-303 | a file is produced iff a change file exists and generation succeeds; it equals `GenerateSql` |
| Pipeline.StepConsistent | src/api.py:329-331 | processed and generated counts equal the files written, and new changes are their sum |
| Pipeline.GenRunConsistent | src/api.py:287-331 | the driver's counters stay consistent over any queue |
| Pipeline.GenRunFiles | src/api.py:292-332 | a file is written iff some queued directory yields it, and the stats file does not influence which |
| Pipeline.GenerateChangesSummary | src/api.py:261-340 | one stats summary per file in order; `skipped_files` is directories minus processed; files are exactly those of unrecorded directories |
| Pipeline.GenRunLength | src/api.py:292-331 | at most one file per queued directory |
| Pipeline.RerunRegenerates | src/api.py:266-285 | nothing marks the ledger, so a second run writes the same files again |
| Pipeline.GenRunProjects | src/api.py:324-327 | the final `stats.yaml` is the initial one projected through the written change files in order |
| Pipeline.ProcessNewChangeFiles | src/api.py:249-349 | the looping driver computes `GenerateChanges` |
| Pipeline.InitDirs | src/api.py:54-59 | the `changes` directory exists afterwards and an existing listing is kept |
| Pipeline.Seeded | src/api.py:63-75 | `init_cdb` import changes only `stats.yaml`, and only when it succeeds |
| Pipeline.NamespaceOutcome | src/api.py:463-514 | success iff the database exists or can be created; failure has zero counts and an error; success keeps or creates the store |
| Pipeline.ReseedingForgetsStats | src/api.py:63-75 | with a usable `init_cdb.sqlite` the outcome does not depend on the previous `stats.yaml` |
| Pipeline.ProcessNamespace | src/api.py:463-516 | the method computes `Namespace` |
| Pipeline.ResultsAt | src/api.py:550-551 | one result per namespace, each from `process_namespace` |
| Pipeline.ProcessAllNamespaces | src/api.py:518-579 | the loop returns the per-namespace results and their summary |
| Pipeline.AllNamespacesOutcome | src/api.py:526-579 | `overall_success` iff the schema is available or every namespace has a database; the failed list is exactly the others |
| Uat.Split | src/api.py:1177 | `str.split` returns at least one piece |
| Uat.SplitJoin | src/api.py:1177 | joining the pieces with the separator gives back the text |
| Uat.SplitPieces | src/api.py:1186 | no piece contains the separator, and its characters come from the text |
| Uat.JoinWithChars | src/api.py:1185 | a joined string's characters come from the parts or the separator |
| Uat.StripChars | src/api.py:1180-1186 | stripping only removes characters |
| Uat.CleanLinesIff | src/api.py:1177-1182 | the cleaned lines are exactly the stripped, non-empty lines not starting with `--` |
| Uat.StatementsIff | src/api.py:1186 | the statements are exactly the non-empty stripped pieces |
| Uat.SqlStatementsShape | src/api.py:1175-1186 | every statement is non-empty, has non-space ends, and contains no `;` and no newline |
| Uat.ReadStatements | src/api.py:1172-1186 | the loop computes the statement list |
| Uat.ExecuteChange | src/api.py:1169-1200 | a failed change is rolled back: the store is unchanged |
| Uat.FailedChangeLeavesNoTrace | src/api.py:1197-1200 | a failing change leaves no trace and does not stop the later ones |
| Uat.UatRunCount | src/api.py:1155-1200 | `changes_executed` is at most the number queued, equal iff every change commits |
| Uat.ByNameTotalPreorder | src/api.py:1149 | ordering by directory name is a total preorder |
| Uat.UatQueueSpec | src/api.py:1130-1149 | the queue is sorted by name and is a permutation of the unrecorded directories, exactly the listed ones not in the ledger |
| Uat.UatNamespaceOutcome | src/api.py:1096-1237 | success iff the database exists; failure executes nothing and leaves the store; executed ≤ new ≤ total found |
| Uat.ExecuteChangeDir | src/api.py:1158-1200 | one change's statement loop with commit or rollback computes `ExecuteChange` |
| Uat.ProcessUatNamespace | src/api.py:1096-1240 | the method computes `UatNamespace` |
| Uat.UatReports | src/api.py:1065-1075 | one report per result, in order |
| Uat.UatResultsAt | src/api.py:1065-1066 | one result per namespace, each from `process_uat_namespace` |
| Uat.UatSummaryStep | src/api.py:1065-1075 | the summary after one more namespace, from the summary before |
| Uat.ProcessUatChanges | src/api.py:1026-1094 | the loop returns the per-namespace results and their summary |
| Uat.UatBatchOutcome | src/api.py:1040-1094 | `overall_success` iff every namespace has a database; the failed list is exactly those without one |
| Validators.ScanSpec | src/api.py:619-627 | the scan passes iff every element passes, and otherwise reports the first element that does not |
| Validators.MissingOfMap | src/api.py:601-606 | for a mapping the missing fields are exactly the required ones it lacks |
| Validators.EntryCheckPass | src/api.py:619-627 | an entry passes iff it is a mapping with `pcm_id` and `name`; a failure carries its index |
| Validators.ChangeFileCheckPass | src/api.py:597-629 | the change-file check passes iff the file is well formed; a mapping never raises |
| Validators.ChangeFileMissingFields | src/api.py:601-609 | any missing required field fails with exactly the missing names |
| Validators.ChangeFileFirstBadEntry | src/api.py:618-627 | an entry failure reports the first bad entry |
| Validators.StatEntriesCheckPass | src/api.py:662-668 | stats pass iff every key is in `STAT_KEYS` and every value is numeric |
| Validators.CyclistCheckPass | src/api.py:640-673 | a cyclist passes iff well formed; a null id raises |
| Validators.StatsFileCheckPass | src/api.py:631-675 | the stats file passes iff it is a non-empty mapping of good cyclists; a raise needs a null id |
| Validators.Lower | src/api.py:680 | ASCII lower-casing character by character |
| Validators.ApiValidateFileSpec | src/api.py:686-715 | syntax error iff unparsed; valid iff the name-chosen validator passes; a mapping change file never raises |
| Validators.EmptyChangeFileRaises | src/api.py:686-715 | an empty change file is a validation error, not missing fields |
| Cli.DetectFileTypeIff | src/pcm_cli.py:145-160 | change file iff a mapping with `name`, `date` and `stats`; otherwise stats file iff every key is int-parsable, so `{}` is one |
| Cli.CliValidateFileSpec | src/pcm_cli.py:162-191 | syntax error iff unparsed; unknown iff detection says so; valid iff the matching validator passes |
| Cli.CliChangeFileChecked | src/pcm_cli.py:90-116 | after detection the change-file validator never raises and never reports missing top-level fields |
| Cli.CliStatsFileChecked | src/pcm_cli.py:118-143 | after detection the stats validator never raises and never reports a non-numeric id |
| Cli.CliValidateFileNeverRaises | src/pcm_cli.py:162-191 | a parsed file never ends in a validation error under this dispatch |
| Cli.ProcessChangesOutcome | src/pcm_cli.py:54-70 | `process_changes` succeeds iff some change was generated or every namespace has or can create a database, so one namespace's failure goes unreported when another namespace generated changes |

## Left out

- Sorting.InsertionSort: the order it leaves among keys of equal integer value (such as `"1"` and `"01"`) is not stated; Python's `sorted` keeps their original order, but the model proves only that the result is sorted and a permutation.
- Floating-point stat values: values are integers; `isinstance(v, float)` and float/str coercion are not modelled.
- Python's `True == 1` and order-insensitive dict equality: values are compared structurally, so a `bool` and an `int` differ and mappings compare in order.
- Unicode: whitespace and lower-casing cover ASCII and the ASCII control separators only.
- SQL and YAML text: statements are a datatype, not rendered text, and the missing quote escaping of the generated SQL is not modelled. The YAML writer is modelled only by its flow-style rule. Reading a written `stats.yaml` back is taken to return what was written.
- A list or mapping converted with `str()` becomes a fixed placeholder text, not its Python representation.
- File I/O and its errors: directory listings, file presence and parse results are inputs; a file that cannot be read is not modelled separately from one that does not parse.
- The tracking schema: `create_new_database` is modelled as creating an empty store when the schema file is readable (a boolean input). The history table's NOT NULL and foreign-key constraints, and the UNIQUE constraints on `tbl_changes.name` and `tbl_cyclists.pcm_id` (which make a repeated ledger or cyclist insert fail), are assumed, since the schema file is not part of this model.
- Store.GetNextVersion: `_get_next_version` queries `tbl_change_history.cyclist_pcm_id`, a table no other code defines, and nothing calls the function; the model reads the stat history relation in its place.
- UAT SQL execution: each statement is run by a `run` parameter, which this model does not define. The model assumes only that a failing statement aborts the change.
- `export_tracking_data`: the CSV export is an `exporter` parameter.
- `namespace_details`, `output_file` and the printed text of every summary are not modelled.
- `get_available_namespaces` is modelled in `Commons`; the drivers take the namespace list as a parameter.
- `import_cyclists_from_db` database checks (table and column presence) collapse into one "unusable database" case; the ordering loop is modelled as a sort on integer keys.
- `src/cli.py`: it calls `api.validate_update_file` and `commons.STATS_FILE_PATH`, which the other modules do not define.
- `validate_change_files`, `validate_stats_files`, `validate_yaml_files` and the `PCMStatsManager` reporting commands: filesystem walks and printing.
- `Uat.UatNamespace`: when the tracking database is missing, the model reports 0 for `total_changes_found` and `new_changes_found`, keys the source's failure result does not have.
- `Uat.UatQueue`: directory names are assumed unique, so the order by name (a sort stable on equal names) matches Python's `list.sort`.
- `Uat.ExecuteChange`: the contract states only the rollback; what a committed change does is left to the `run` parameter.
- `ModelDriver.Namespace` / `Pipeline.Namespace`: only schema-file absence is modelled as a failure; other exceptions (a corrupt database, a disk error) are not.
