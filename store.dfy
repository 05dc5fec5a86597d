/** The tracking database of a namespace, as the reconciler sees it: the change ledger
    (`tbl_changes`), the cyclists (`tbl_cyclists`) and the stat history
    (`tbl_change_stat_history`), with the generated statements and what executing them does. */
module Store {
  import opened Yaml

  datatype ChangeRow = ChangeRow(description: Yaml, author: Yaml, date: Yaml)

  /** `firstCyclingId == None` is the SQL `NULL`. */
  datatype CyclistRow = CyclistRow(name: Yaml, firstCyclingId: Option<Yaml>)

  /** One stat version. `cyclist` is the cyclist's `pcm_id` as stored (text). */
  datatype HistRow = HistRow(cyclist: string, change: string, stat: string, value: int, version: nat)

  /** Ledger rows are keyed by change name and cyclists by `pcm_id` (both unique columns). */
  datatype Store = Store(changes: map<string, ChangeRow>, cyclists: map<string, CyclistRow>, history: seq<HistRow>)

  /** A generated statement. Its fields are the values the SQL text embeds; the history
      version is not a field because the statement computes it when it runs. */
  datatype Stmt =
    | InsertChange(changeName: string, description: Yaml, author: Yaml, date: Yaml)
    | InsertCyclist(pcm: Yaml, cyclistName: Yaml, firstCyclingId: Option<Yaml>)
    | InsertHistory(pcm: Yaml, change: string, stat: string, value: Yaml)

  datatype SqlError = DuplicateChange | DuplicateCyclist | UnknownCyclist | UnknownChange | NotAnInteger

  datatype Outcome = Done(store: Store) | Failed(error: SqlError)

  const EmptyStore := Store(map[], map[], [])

  /** The text a `'{pcm_id}'` literal stores. */
  function StoredId(pcm: Yaml): string {
    PyStr(pcm)
  }

  /** The text a bound `pcm_id` parameter is compared as (sqlite binds a Python bool as 1/0). */
  function ParamId(pcm: Yaml): string {
    match pcm
    case YBool(b) => if b then "1" else "0"
    case _ => PyStr(pcm)
  }

  /** The range of a signed 64-bit SQLite integer; sqlite3 raises `OverflowError` when it binds
      a Python `int` outside it. */
  const INT64_MIN: int := -0x8000_0000_0000_0000
  const INT64_MAX: int := 0x7FFF_FFFF_FFFF_FFFF

  /** A value sqlite3 can bind as a query parameter: not a list or mapping, and an integer only
      within 64 bits. */
  predicate CanBind(y: Yaml) {
    IsScalar(y) && (y.YInt? ==> INT64_MIN <= y.i <= INT64_MAX)
  }

  lemma ParamIdIsStoredId(pcm: Yaml)
    requires pcm.YInt? || pcm.YStr?
    ensures ParamId(pcm) == StoredId(pcm)
  {
  }

  predicate Matches(r: HistRow, cyclist: string, stat: string) {
    r.cyclist == cyclist && r.stat == stat
  }

  /** The row `ORDER BY version DESC LIMIT 1` returns for a (cyclist, stat): the highest
      version, the later row on a tie. */
  function Top(h: seq<HistRow>, cyclist: string, stat: string): (r: Option<HistRow>)
    ensures r.Some? ==> r.value in h && Matches(r.value, cyclist, stat)
  {
    if h == [] then None
    else
      var t := Top(h[..|h| - 1], cyclist, stat);
      var last := h[|h| - 1];
      if Matches(last, cyclist, stat) && (t.None? || last.version >= t.value.version) then Some(last) else t
  }

  /** The number of history rows of a (cyclist, stat). */
  function Count(h: seq<HistRow>, cyclist: string, stat: string): nat {
    if h == [] then 0
    else Count(h[..|h| - 1], cyclist, stat) + (if Matches(h[|h| - 1], cyclist, stat) then 1 else 0)
  }

  /** `Top` finds a row exactly when one exists, and no row of that pair has a higher version. */
  lemma {:induction false} TopIsMax(h: seq<HistRow>, cyclist: string, stat: string)
    ensures Top(h, cyclist, stat).None? <==> Count(h, cyclist, stat) == 0
    ensures forall i :: 0 <= i < |h| && Matches(h[i], cyclist, stat) ==>
              Top(h, cyclist, stat).Some? && h[i].version <= Top(h, cyclist, stat).value.version
    decreases |h|
  {
    if h != [] {
      var p := h[..|h| - 1];
      TopIsMax(p, cyclist, stat);
      forall i | 0 <= i < |h| - 1 ensures h[i] == p[i] {}
    }
  }

  /** The latest stored value of a stat (`_should_insert_stat_change`'s query). */
  function LatestValue(h: seq<HistRow>, cyclist: string, stat: string): Option<int> {
    match Top(h, cyclist, stat)
    case Some(r) => Some(r.value)
    case None => None
  }

  /** `COALESCE((SELECT MAX(version) + 1 ...), 1)`. */
  function NextVersion(h: seq<HistRow>, cyclist: string, stat: string): nat {
    match Top(h, cyclist, stat)
    case Some(r) => r.version + 1
    case None => 1
  }

  /** `_get_next_version`: `(MAX(version) or 0) + 1`. The source queries
      `tbl_change_history.cyclist_pcm_id`, a table nothing else defines; the model reads the
      stat history in its place. */
  function GetNextVersion(h: seq<HistRow>, cyclist: string, stat: string): (v: nat)
    ensures v >= 1
    ensures Count(h, cyclist, stat) == 0 ==> v == 1
    ensures forall i :: 0 <= i < |h| && Matches(h[i], cyclist, stat) ==> h[i].version < v
  {
    TopIsMax(h, cyclist, stat);
    var max := match Top(h, cyclist, stat) case Some(r) => r.version case None => 0;
    (if max == 0 then 0 else max) + 1
  }

  /** Read over the stat history, `_get_next_version` gives the version the history insert's
      `COALESCE(MAX(version) + 1, 1)` subquery computes. */
  lemma GetNextVersionIsNextVersion(h: seq<HistRow>, cyclist: string, stat: string)
    ensures GetNextVersion(h, cyclist, stat) == NextVersion(h, cyclist, stat)
  {
  }

  /** The versions of every (cyclist, stat) are 1, 2, 3, ... in insertion order. */
  ghost predicate GapFree(h: seq<HistRow>) {
    forall i :: 0 <= i < |h| ==> h[i].version == Count(h[..i], h[i].cyclist, h[i].stat) + 1
  }

  /** Every history row refers to a stored cyclist and a ledger change. */
  ghost predicate Linked(st: Store) {
    forall i :: 0 <= i < |st.history| ==>
      st.history[i].cyclist in st.cyclists && st.history[i].change in st.changes
  }

  ghost predicate Valid(st: Store) {
    GapFree(st.history) && Linked(st)
  }

  /** In a gap-free history the highest version of a pair is its number of rows. */
  lemma {:induction false} GapFreeTopIsCount(h: seq<HistRow>, cyclist: string, stat: string)
    requires GapFree(h)
    ensures Top(h, cyclist, stat).Some? ==> Top(h, cyclist, stat).value.version == Count(h, cyclist, stat)
    ensures NextVersion(h, cyclist, stat) == Count(h, cyclist, stat) + 1
    decreases |h|
  {
    TopIsMax(h, cyclist, stat);
    if h != [] {
      var p := h[..|h| - 1];
      assert GapFree(p) by {
        forall i | 0 <= i < |p| ensures p[i].version == Count(p[..i], p[i].cyclist, p[i].stat) + 1 {
          assert p[..i] == h[..i];
        }
      }
      GapFreeTopIsCount(p, cyclist, stat);
      assert h[..|h| - 1] == p;
    }
  }

  /** Executes one statement; the constraint violations the schema enforces are errors. */
  function ExecStmt(st: Store, s: Stmt): Outcome {
    match s
    case InsertChange(name, d, a, dt) =>
      if name in st.changes then Failed(DuplicateChange)
      else Done(st.(changes := st.changes[name := ChangeRow(d, a, dt)]))
    case InsertCyclist(pcm, name, fc) =>
      if StoredId(pcm) in st.cyclists then Failed(DuplicateCyclist)
      else Done(st.(cyclists := st.cyclists[StoredId(pcm) := CyclistRow(name, fc)]))
    case InsertHistory(pcm, change, stat, value) =>
      var c := StoredId(pcm);
      if c !in st.cyclists then Failed(UnknownCyclist)
      else if change !in st.changes then Failed(UnknownChange)
      else if !value.YInt? then Failed(NotAnInteger)
      else Done(st.(history := st.history + [HistRow(c, change, stat, value.i, NextVersion(st.history, c, stat))]))
  }

  /** Executes statements in order, stopping at the first error. */
  function Exec(st: Store, ss: seq<Stmt>): Outcome
    decreases |ss|
  {
    if ss == [] then Done(st)
    else
      match ExecStmt(st, ss[0])
      case Failed(e) => Failed(e)
      case Done(st') => Exec(st', ss[1..])
  }

  lemma {:induction false} ExecAppend(st: Store, xs: seq<Stmt>, ys: seq<Stmt>)
    ensures Exec(st, xs + ys) == match Exec(st, xs) case Failed(e) => Failed(e) case Done(st') => Exec(st', ys)
    decreases |xs|
  {
    if xs == [] {
      assert xs + ys == ys;
    } else {
      assert (xs + ys)[0] == xs[0] && (xs + ys)[1..] == xs[1..] + ys;
      match ExecStmt(st, xs[0])
      case Failed(e) =>
      case Done(st') => ExecAppend(st', xs[1..], ys);
    }
  }

  /** A history insert gets the next version of its pair: one more than its number of rows. */
  lemma ExecHistoryVersion(st: Store, pcm: Yaml, change: string, stat: string, v: int)
    requires GapFree(st.history)
    requires StoredId(pcm) in st.cyclists && change in st.changes
    ensures ExecStmt(st, InsertHistory(pcm, change, stat, YInt(v))) ==
      Done(st.(history := st.history + [HistRow(StoredId(pcm), change, stat, v, Count(st.history, StoredId(pcm), stat) + 1)]))
  {
    GapFreeTopIsCount(st.history, StoredId(pcm), stat);
  }

  /** Executing a statement keeps the history gap-free and linked. */
  lemma ExecStmtValid(st: Store, s: Stmt)
    requires Valid(st)
    ensures ExecStmt(st, s).Done? ==> Valid(ExecStmt(st, s).store)
  {
    if s.InsertHistory? && ExecStmt(st, s).Done? {
      var h := st.history;
      var c := StoredId(s.pcm);
      GapFreeTopIsCount(h, c, s.stat);
      var h' := ExecStmt(st, s).store.history;
      forall i | 0 <= i < |h'| ensures h'[i].version == Count(h'[..i], h'[i].cyclist, h'[i].stat) + 1 {
        if i < |h| {
          assert h'[..i] == h[..i];
        } else {
          assert h'[..i] == h;
        }
      }
    }
  }

  /** Executing any statement list keeps the history gap-free and linked. */
  lemma {:induction false} ExecValid(st: Store, ss: seq<Stmt>)
    requires Valid(st)
    ensures Exec(st, ss).Done? ==> Valid(Exec(st, ss).store)
    decreases |ss|
  {
    if ss != [] {
      ExecStmtValid(st, ss[0]);
      match ExecStmt(st, ss[0])
      case Failed(e) =>
      case Done(st') => ExecValid(st', ss[1..]);
    }
  }

  /** Execution only ever appends history and adds ledger and cyclist rows. */
  lemma {:induction false} ExecGrows(st: Store, ss: seq<Stmt>)
    ensures Exec(st, ss).Done? ==>
      var st' := Exec(st, ss).store;
      && st.history <= st'.history
      && st.changes.Keys <= st'.changes.Keys
      && st.cyclists.Keys <= st'.cyclists.Keys
    decreases |ss|
  {
    if ss != [] {
      match ExecStmt(st, ss[0])
      case Failed(e) =>
      case Done(st') => ExecGrows(st', ss[1..]);
    }
  }

  /** After a successful run, every cyclist a run inserted is stored. */
  lemma {:induction false} ExecAddsCyclist(st: Store, xs: seq<Stmt>, s: Stmt)
    requires s in xs && s.InsertCyclist?
    ensures Exec(st, xs).Done? ==> StoredId(s.pcm) in Exec(st, xs).store.cyclists
    decreases |xs|
  {
    match ExecStmt(st, xs[0])
    case Failed(e) =>
    case Done(st') =>
      if s == xs[0] {
        ExecGrows(st', xs[1..]);
      } else {
        assert xs == [xs[0]] + xs[1..];
        ExecAddsCyclist(st', xs[1..], s);
      }
  }

  /** A run that inserts an already stored cyclist fails. */
  lemma {:induction false} ExecFailsOnKnownCyclist(st: Store, xs: seq<Stmt>, s: Stmt)
    requires s in xs && s.InsertCyclist? && StoredId(s.pcm) in st.cyclists
    ensures Exec(st, xs).Failed?
    decreases |xs|
  {
    if s != xs[0] {
      match ExecStmt(st, xs[0])
      case Failed(e) =>
      case Done(st') =>
        assert st.cyclists.Keys <= st'.cyclists.Keys;
        assert xs == [xs[0]] + xs[1..];
        ExecFailsOnKnownCyclist(st', xs[1..], s);
    }
  }

  /** Two inserts of the same cyclist, one in each part of a run, make the run fail. */
  lemma ExecFailsOnRepeatedCyclist(st: Store, xs: seq<Stmt>, ys: seq<Stmt>, s1: Stmt, s2: Stmt)
    requires s1 in xs && s2 in ys && s1.InsertCyclist? && s2.InsertCyclist?
    requires StoredId(s1.pcm) == StoredId(s2.pcm)
    ensures Exec(st, xs + ys).Failed?
  {
    ExecAppend(st, xs, ys);
    ExecAddsCyclist(st, xs, s1);
    if Exec(st, xs).Done? {
      ExecFailsOnKnownCyclist(Exec(st, xs).store, ys, s2);
    }
  }

  /** A change whose name is in the ledger cannot be executed again: its ledger insert fails. */
  lemma ReplayFails(st: Store, name: string, d: Yaml, a: Yaml, dt: Yaml, rest: seq<Stmt>)
    requires name in st.changes
    ensures Exec(st, [InsertChange(name, d, a, dt)] + rest) == Failed(DuplicateChange)
  {
  }
}
