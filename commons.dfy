/** Shared constants and path helpers of the tool (src/utils/commons.py). */
module Commons {
  import opened Yaml
  import opened Sorting

  /** The fourteen stat keys, in the order every component iterates them. */
  const STAT_KEYS: seq<string> :=
    ["fla", "mo", "mm", "dh", "cob", "tt", "prl", "spr", "acc", "end", "res", "rec", "hil", "att"]

  const DATA_PATH: string := "data"

  const PATH_TYPES: seq<string> := ["root", "changes_dir", "stats_file", "tracking_db", "cdb"]

  lemma StatKeysDistinct()
    ensures |STAT_KEYS| == 14
    ensures forall i, j :: 0 <= i < j < |STAT_KEYS| ==> STAT_KEYS[i] != STAT_KEYS[j]
  {
  }

  /** POSIX `os.path.join(a, b)`: an absolute `b` replaces `a`; otherwise a separator is
      inserted unless `a` is empty or already ends with one. */
  function Join(a: string, b: string): (r: string)
    ensures |b| > 0 && b[0] == '/' ==> r == b
    ensures (|b| == 0 || b[0] != '/') ==> a <= r && |a| + |b| <= |r| <= |a| + |b| + 1 && r[|r| - |b|..] == b
    ensures (|b| == 0 || b[0] != '/') && (a == "" || a[|a| - 1] == '/') ==> |r| == |a| + |b|
    ensures (|b| == 0 || b[0] != '/') && a != "" && a[|a| - 1] != '/' ==> |r| == |a| + |b| + 1 && r[|a|] == '/'
  {
    if |b| > 0 && b[0] == '/' then b
    else if a == "" || a[|a| - 1] == '/' then a + b
    else a + "/" + b
  }

  /** `get_path(namespace, path_type)`; `None` where the source's assertion fails. */
  function GetPath(namespace: string, pathType: string): (r: Option<string>)
    ensures r.Some? <==> pathType in PATH_TYPES
  {
    var root := Join(DATA_PATH, namespace);
    if pathType == "root" then Some(root)
    else if pathType == "changes_dir" then Some(Join(root, "changes"))
    else if pathType == "stats_file" then Some(Join(root, "stats.yaml"))
    else if pathType == "tracking_db" then Some(Join(root, "tracking_db.sqlite"))
    else if pathType == "cdb" then Some(Join(root, "cdb"))
    else None
  }

  /** Every path of a namespace lies under the namespace root. */
  lemma GetPathUnderRoot(namespace: string, pathType: string)
    requires pathType in PATH_TYPES
    ensures GetPath(namespace, "root").Some? && GetPath(namespace, pathType).Some?
    ensures GetPath(namespace, "root").value <= GetPath(namespace, pathType).value
  {
  }

  /** Joining a relative part onto a base that does not end in `/` inserts one separator. */
  lemma JoinRelative(a: string, b: string)
    requires a != "" && a[|a| - 1] != '/' && (b == "" || b[0] != '/')
    ensures Join(a, b) == a + "/" + b
  {
  }

  /** A relative leaf under an ordinary namespace root is `data/<ns>/<leaf>`. */
  lemma LeafLayout(namespace: string, leaf: string)
    requires namespace != "" && namespace[0] != '/' && namespace[|namespace| - 1] != '/'
    requires leaf != "" && leaf[0] != '/'
    ensures Join(DATA_PATH, namespace) == "data/" + namespace
    ensures Join(Join(DATA_PATH, namespace), leaf) == "data/" + namespace + ("/" + leaf)
  {
    var root := "data/" + namespace;
    JoinRelative(DATA_PATH, namespace);
    assert root[|root| - 1] == namespace[|namespace| - 1];
    JoinRelative(root, leaf);
    assert root + "/" + leaf == root + ("/" + leaf);
  }

  /** For an ordinary namespace name the layout is `data/<ns>/...`. */
  lemma GetPathLayout(namespace: string)
    requires namespace != "" && namespace[0] != '/' && namespace[|namespace| - 1] != '/'
    ensures GetPath(namespace, "root") == Some("data/" + namespace)
    ensures GetPath(namespace, "changes_dir") == Some("data/" + namespace + "/changes")
    ensures GetPath(namespace, "stats_file") == Some("data/" + namespace + "/stats.yaml")
    ensures GetPath(namespace, "tracking_db") == Some("data/" + namespace + "/tracking_db.sqlite")
    ensures GetPath(namespace, "cdb") == Some("data/" + namespace + "/cdb")
  {
    LeafLayout(namespace, "changes");
    LeafLayout(namespace, "stats.yaml");
    LeafLayout(namespace, "tracking_db.sqlite");
    LeafLayout(namespace, "cdb");
    assert "/" + "changes" == "/changes";
    assert "/" + "stats.yaml" == "/stats.yaml";
    assert "/" + "tracking_db.sqlite" == "/tracking_db.sqlite";
    assert "/" + "cdb" == "/cdb";
  }

  /** An entry of a directory listing. */
  datatype DirItem = DirItem(name: string, isDir: bool)

  /** The names of the entries that are directories, in listing order. */
  function DirNames(listing: seq<DirItem>): (r: seq<string>)
    ensures |r| <= |listing|
  {
    if listing == [] then []
    else
      var rest := DirNames(listing[..|listing| - 1]);
      var last := listing[|listing| - 1];
      if last.isDir then rest + [last.name] else rest
  }

  /** `get_available_namespaces()`: the directories under the data directory, sorted;
      nothing when the data directory does not exist. */
  method GetAvailableNamespaces(dataExists: bool, listing: seq<DirItem>) returns (namespaces: seq<string>)
    ensures !dataExists ==> namespaces == []
    ensures dataExists ==> multiset(namespaces) == multiset(DirNames(listing))
    ensures Sorted(namespaces, StrLe)
  {
    if !dataExists {
      return [];
    }
    var found: seq<string> := [];
    var i := 0;
    while i < |listing|
      invariant 0 <= i <= |listing|
      invariant found == DirNames(listing[..i])
    {
      assert listing[..i + 1][..i] == listing[..i];
      if listing[i].isDir {
        found := found + [listing[i].name];
      }
      i := i + 1;
    }
    assert listing[..|listing|] == listing;
    namespaces := SortStrings(found);
  }
}
