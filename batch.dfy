/** The batch summary every `process_all_*` loop builds from its per-namespace results: the
    namespaces in input order split into successful and failed ones, an overall flag, and a
    sum of the per-namespace change counts. */
module Batch {

  /** What the batch loop reads from one namespace result: its name, `success`, and the count
      it accumulates (`new_changes` or `changes_executed`, `0` when absent). */
  datatype NsReport = NsReport(namespace: string, success: bool, changes: int)

  datatype BatchSummary = BatchSummary(
    processedNamespaces: nat,
    successful: seq<string>,
    failed: seq<string>,
    totalChanges: int,
    overallSuccess: bool)

  function Names(rs: seq<NsReport>): (r: seq<string>)
    ensures |r| == |rs|
    ensures forall i :: 0 <= i < |rs| ==> r[i] == rs[i].namespace
  {
    if rs == [] then [] else Names(rs[..|rs| - 1]) + [rs[|rs| - 1].namespace]
  }

  /** The names of the namespaces with `success == want`, in order. */
  function Select(rs: seq<NsReport>, want: bool): seq<string> {
    if rs == [] then []
    else
      var last := rs[|rs| - 1];
      Select(rs[..|rs| - 1], want) + (if last.success == want then [last.namespace] else [])
  }

  function TotalChanges(rs: seq<NsReport>): int {
    if rs == [] then 0 else TotalChanges(rs[..|rs| - 1]) + rs[|rs| - 1].changes
  }

  /** The summary the loop builds. */
  function Summarize(rs: seq<NsReport>): BatchSummary {
    BatchSummary(|rs|, Select(rs, true), Select(rs, false), TotalChanges(rs), Select(rs, false) == [])
  }

  /** Every namespace lands in exactly one of the two lists: together they hold the input
      names, each list keeps input order, and a name is in a list exactly when a report of
      that outcome has it. */
  lemma {:induction false} SelectPartition(rs: seq<NsReport>)
    ensures multiset(Select(rs, true)) + multiset(Select(rs, false)) == multiset(Names(rs))
    ensures |Select(rs, true)| + |Select(rs, false)| == |rs|
    decreases |rs|
  {
    if rs != [] {
      SelectPartition(rs[..|rs| - 1]);
      assert Names(rs) == Names(rs[..|rs| - 1]) + [rs[|rs| - 1].namespace];
    }
  }

  lemma {:induction false} SelectIff(rs: seq<NsReport>, want: bool, n: string)
    ensures n in Select(rs, want) <==> exists i :: 0 <= i < |rs| && rs[i].namespace == n && rs[i].success == want
    decreases |rs|
  {
    if rs != [] {
      var init := rs[..|rs| - 1];
      SelectIff(init, want, n);
      assert forall i :: 0 <= i < |init| ==> init[i] == rs[i];
    }
  }

  /** `overall_success` holds exactly when no namespace failed; with no namespaces it holds. */
  lemma OverallSuccessIff(rs: seq<NsReport>)
    ensures Summarize(rs).overallSuccess <==> forall i :: 0 <= i < |rs| ==> rs[i].success
    ensures rs == [] ==> Summarize(rs) == BatchSummary(0, [], [], 0, true)
  {
    forall i | 0 <= i < |rs| && !rs[i].success ensures Select(rs, false) != [] {
      SelectIff(rs, false, rs[i].namespace);
    }
    if Select(rs, false) != [] {
      var n := Select(rs, false)[0];
      SelectIff(rs, false, n);
    }
  }

  /** With distinct namespace names, no name is both successful and failed. */
  lemma Disjoint(rs: seq<NsReport>)
    requires forall i, j :: 0 <= i < j < |rs| ==> rs[i].namespace != rs[j].namespace
    ensures forall n :: n in Select(rs, true) ==> n !in Select(rs, false)
  {
    forall n | n in Select(rs, true) ensures n !in Select(rs, false) {
      SelectIff(rs, true, n);
      SelectIff(rs, false, n);
    }
  }

  lemma SummarizeStep(rs: seq<NsReport>, i: nat)
    requires i < |rs|
    ensures Select(rs[..i + 1], true) == Select(rs[..i], true) + (if rs[i].success then [rs[i].namespace] else [])
    ensures Select(rs[..i + 1], false) == Select(rs[..i], false) + (if rs[i].success then [] else [rs[i].namespace])
    ensures TotalChanges(rs[..i + 1]) == TotalChanges(rs[..i]) + rs[i].changes
  {
    assert rs[..i + 1][..i] == rs[..i];
  }

  /** The summary after one more namespace, from the summary before it: the step the batch
      loop takes. */
  lemma SummarizeAppend(rs: seq<NsReport>, x: NsReport)
    ensures var s := Summarize(rs);
      Summarize(rs + [x]) == BatchSummary(
        s.processedNamespaces + 1,
        s.successful + (if x.success then [x.namespace] else []),
        s.failed + (if x.success then [] else [x.namespace]),
        s.totalChanges + x.changes,
        s.overallSuccess && x.success)
  {
    assert (rs + [x])[..|rs|] == rs;
  }
}
