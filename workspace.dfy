/** A namespace on disk as the pipeline sees it: the change directories with the files they
    hold, and the work queue of directories the ledger does not name yet. */
module Workspace {
  import opened Yaml
  import opened Store

  /** One entry of the `changes` directory. A YAML file that is present carries its parse
      result (`None` when the text is not valid YAML); `insertsSql` is the text of
      `inserts.sql`. */
  datatype ChangeDir = ChangeDir(
    name: string,
    isDir: bool,
    changeYaml: Option<Option<Yaml>>,
    changeYml: Option<Option<Yaml>>,
    insertsSql: Option<string>)

  /** The entries that are directories, in listing order (`change_directories`). */
  function Directories(listing: seq<ChangeDir>): (r: seq<ChangeDir>)
    ensures |r| <= |listing|
  {
    if listing == [] then []
    else
      var last := listing[|listing| - 1];
      Directories(listing[..|listing| - 1]) + (if last.isDir then [last] else [])
  }

  lemma {:induction false} DirectoriesIff(listing: seq<ChangeDir>, d: ChangeDir)
    ensures d in Directories(listing) <==> d in listing && d.isDir
    decreases |listing|
  {
    if listing != [] {
      var init := listing[..|listing| - 1];
      DirectoriesIff(init, d);
      assert forall x :: x in listing <==> x in init || x == listing[|listing| - 1];
    }
  }

  /** The directories whose name the ledger snapshot does not hold (`new_change_dirs`). */
  function Unrecorded(dirs: seq<ChangeDir>, ledger: set<string>): (r: seq<ChangeDir>)
    ensures |r| <= |dirs|
  {
    if dirs == [] then []
    else
      var last := dirs[|dirs| - 1];
      Unrecorded(dirs[..|dirs| - 1], ledger) + (if last.name !in ledger then [last] else [])
  }

  lemma {:induction false} UnrecordedIff(dirs: seq<ChangeDir>, ledger: set<string>, d: ChangeDir)
    ensures d in Unrecorded(dirs, ledger) <==> d in dirs && d.name !in ledger
    decreases |dirs|
  {
    if dirs != [] {
      var init := dirs[..|dirs| - 1];
      UnrecordedIff(init, ledger, d);
      assert forall x :: x in dirs <==> x in init || x == dirs[|dirs| - 1];
    }
  }

  /** The work queue: the directories of the listing that the ledger does not name, in listing
      order. */
  function Queue(listing: seq<ChangeDir>, ledger: set<string>): seq<ChangeDir> {
    Unrecorded(Directories(listing), ledger)
  }

  /** A directory is queued exactly when it is a directory of the listing that the ledger does
      not name. */
  lemma QueueIff(listing: seq<ChangeDir>, ledger: set<string>, d: ChangeDir)
    ensures d in Queue(listing, ledger) <==> d in listing && d.isDir && d.name !in ledger
  {
    UnrecordedIff(Directories(listing), ledger, d);
    DirectoriesIff(listing, d);
  }

  /** `_find_change_file`: `change.yaml` when present, else `change.yml`. */
  function FindChangeFile(d: ChangeDir): (r: Option<Option<Yaml>>)
    ensures r.Some? <==> d.changeYaml.Some? || d.changeYml.Some?
    ensures d.changeYaml.Some? ==> r == d.changeYaml
    ensures d.changeYaml.None? ==> r == d.changeYml
  {
    match d.changeYaml
    case Some(f) => Some(f)
    case None => d.changeYml
  }

  /** A row of the `DYN_cyclist` table of `init_cdb.sqlite` as sqlite returns it: `IDcyclist`,
      the two text name columns (`None` is SQL `NULL`), `value_f_current_ability` and the
      fourteen stat columns, selected in `STAT_KEYS` order (`YNull` is SQL `NULL`). */
  datatype CdbRow = CdbRow(
    id: Yaml,
    lastname: Option<string>,
    firstname: Option<string>,
    ability: Yaml,
    stats: seq<Yaml>)

  /** `init_cdb.sqlite` as the importer finds it: `Unusable` when the table or a column is
      missing or the database cannot be read. */
  datatype CdbFile = Unusable | Rows(rows: seq<CdbRow>)

  /** One namespace directory: the tracking database (when present), the `changes`
      directory, `stats.yaml` (absent, unparseable, or its parse result) and
      `init_cdb.sqlite`. */
  datatype NsEnv = NsEnv(
    dbExists: bool,
    store: Store,
    changesDirExists: bool,
    listing: seq<ChangeDir>,
    statsFile: Option<Option<Yaml>>,
    initCdb: Option<CdbFile>)
}
