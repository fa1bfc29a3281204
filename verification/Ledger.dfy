/** The run history as a ledger: its totals account for every chunk and every document in the store. */
module Ledger {
  import opened Models
  import opened SourceDiffing
  import opened StoreTables
  import opened SyncPlan
  import opened StoreSteps
  import opened SyncEffects
  import opened Synchronization
  import opened SyncCorpus
  import opened History

  /** The totals that `operational_metrics` reports: counts of the tables and sums over all runs. */
  datatype Metrics = Metrics(
    documents: nat,
    chunks: nat,
    runsSucceeded: nat,
    runsFailed: nat,
    newDocumentsTotal: nat,
    changedDocumentsTotal: nat,
    metadataChangedDocumentsTotal: nat,
    deletedDocumentsTotal: nat,
    unchangedDocumentsTotal: nat,
    embeddedChunksTotal: nat,
    deletedChunksTotal: nat,
    scannedDocumentsTotal: nat,
    scannedBytesTotal: nat,
    embeddingBatchesTotal: nat)

  function Totals(runs: seq<RunRecord>): Metrics {
    if runs == [] then Metrics(0, 0, 0, 0, 0, 0, 0, 0, 0, 0, 0, 0, 0, 0)
    else
      var before, last := Totals(runs[..|runs| - 1]), runs[|runs| - 1];
      Metrics(0, 0,
              before.runsSucceeded + (if last.status.Succeeded? then 1 else 0),
              before.runsFailed + (if last.status.Failed? then 1 else 0),
              before.newDocumentsTotal + last.newDocuments,
              before.changedDocumentsTotal + last.changedDocuments,
              before.metadataChangedDocumentsTotal + last.metadataChangedDocuments,
              before.deletedDocumentsTotal + last.deletedDocuments,
              before.unchangedDocumentsTotal + last.unchangedDocuments,
              before.embeddedChunksTotal + last.embeddedChunks,
              before.deletedChunksTotal + last.deletedChunks,
              before.scannedDocumentsTotal + last.scannedDocuments,
              before.scannedBytesTotal + last.scannedBytes,
              before.embeddingBatchesTotal + last.embeddingBatches)
  }

  /** `operational_metrics`, without times and the latest run */
  function OperationalMetrics(t: Tables): Metrics {
    Totals(t.runs).(documents := |t.documents|, chunks := |t.chunks|)
  }

  /** The total is what adding up the column run by run gives. */
  ghost predicate AddsUp(runs: seq<RunRecord>, column: RunRecord -> nat, total: nat) {
    exists sums: seq<nat> ::
      && |sums| == |runs| + 1 && sums[0] == 0 && sums[|runs|] == total
      && forall i | 0 <= i < |runs| :: sums[i + 1] == sums[i] + column(runs[i])
  }

  lemma NothingAddsUp(column: RunRecord -> nat)
    ensures AddsUp([], column, 0)
  {
    var sums := [0];
    assert |sums| == 1;
  }

  lemma OneMoreAddsUp(runs: seq<RunRecord>, column: RunRecord -> nat, total: nat)
    requires runs != [] && AddsUp(runs[..|runs| - 1], column, total)
    ensures AddsUp(runs, column, total + column(runs[|runs| - 1]))
  {
    var n := |runs| - 1;
    var before: seq<nat> :|
      && |before| == n + 1 && before[0] == 0 && before[n] == total
      && forall i | 0 <= i < n :: before[i + 1] == before[i] + column(runs[..n][i]);
    var sums := before + [total + column(runs[n])];
    assert forall i | 0 <= i < n :: runs[..n][i] == runs[i];
    assert |sums| == n + 2;
  }

  /** The reported totals add up the columns of the history: the documents by kind. */
  lemma {:induction false} DocumentColumnsAddUp(runs: seq<RunRecord>)
    ensures AddsUp(runs, (r: RunRecord) => r.newDocuments, Totals(runs).newDocumentsTotal)
    ensures AddsUp(runs, (r: RunRecord) => r.changedDocuments, Totals(runs).changedDocumentsTotal)
    ensures AddsUp(runs, (r: RunRecord) => r.metadataChangedDocuments, Totals(runs).metadataChangedDocumentsTotal)
    ensures AddsUp(runs, (r: RunRecord) => r.deletedDocuments, Totals(runs).deletedDocumentsTotal)
    ensures AddsUp(runs, (r: RunRecord) => r.unchangedDocuments, Totals(runs).unchangedDocumentsTotal)
  {
    hide AddsUp;
    if runs == [] {
      forall column { NothingAddsUp(column); }
    } else {
      var before := runs[..|runs| - 1];
      DocumentColumnsAddUp(before);
      forall column, total | AddsUp(before, column, total)
        ensures AddsUp(runs, column, total + column(runs[|runs| - 1])) {
        OneMoreAddsUp(runs, column, total);
      }
    }
  }

  /** And so for chunks, scans and batches. */
  lemma {:induction false} WorkColumnsAddUp(runs: seq<RunRecord>)
    ensures AddsUp(runs, (r: RunRecord) => r.embeddedChunks, Totals(runs).embeddedChunksTotal)
    ensures AddsUp(runs, (r: RunRecord) => r.deletedChunks, Totals(runs).deletedChunksTotal)
    ensures AddsUp(runs, (r: RunRecord) => r.scannedDocuments, Totals(runs).scannedDocumentsTotal)
    ensures AddsUp(runs, (r: RunRecord) => r.scannedBytes, Totals(runs).scannedBytesTotal)
    ensures AddsUp(runs, (r: RunRecord) => r.embeddingBatches, Totals(runs).embeddingBatchesTotal)
  {
    hide AddsUp;
    if runs == [] {
      forall column { NothingAddsUp(column); }
    } else {
      var before := runs[..|runs| - 1];
      WorkColumnsAddUp(before);
      forall column, total | AddsUp(before, column, total)
        ensures AddsUp(runs, column, total + column(runs[|runs| - 1])) {
        OneMoreAddsUp(runs, column, total);
      }
    }
  }

  /** The runs are counted by their status. */
  lemma {:induction false} RunsAreCounted(runs: seq<RunRecord>)
    ensures AddsUp(runs, (r: RunRecord) => if r.status == Succeeded then 1 else 0, Totals(runs).runsSucceeded)
    ensures AddsUp(runs, (r: RunRecord) => if r.status == Failed then 1 else 0, Totals(runs).runsFailed)
  {
    hide AddsUp;
    if runs == [] {
      forall column { NothingAddsUp(column); }
    } else {
      var before := runs[..|runs| - 1];
      RunsAreCounted(before);
      forall column, total | AddsUp(before, column, total)
        ensures AddsUp(runs, column, total + column(runs[|runs| - 1])) {
        OneMoreAddsUp(runs, column, total);
      }
    }
  }

  /** New minus deleted documents, over the runs of one status. */
  function NetDocuments(runs: seq<RunRecord>, status: Status): int {
    if runs == [] then 0
    else
      var last := runs[|runs| - 1];
      NetDocuments(runs[..|runs| - 1], status)
      + (if last.status == status then last.newDocuments - last.deletedDocuments else 0)
  }

  lemma {:induction false} NetOfAllRuns(runs: seq<RunRecord>)
    ensures Totals(runs).newDocumentsTotal - Totals(runs).deletedDocumentsTotal
         == NetDocuments(runs, Succeeded) + NetDocuments(runs, Failed)
  {
    if runs != [] { NetOfAllRuns(runs[..|runs| - 1]); }
  }

  lemma OneMoreRun(runs: seq<RunRecord>, run: RunRecord)
    ensures var before, after := Totals(runs), Totals(runs + [run]);
            && after.embeddedChunksTotal == before.embeddedChunksTotal + run.embeddedChunks
            && after.deletedChunksTotal == before.deletedChunksTotal + run.deletedChunks
    ensures NetDocuments(runs + [run], Succeeded)
         == NetDocuments(runs, Succeeded)
            + (if run.status == Succeeded then run.newDocuments - run.deletedDocuments else 0)
  {
  }

  // ---------- Counting documents ----------

  function StoredAmong(paths: seq<Path>, previous: States): set<Path> {
    set p | p in paths && p in previous
  }

  lemma {:induction false} OldClassesCount(scan: Scan, previous: States, paths: seq<Path>)
    requires Distinct(paths) && forall p | p in paths :: p in scan
    ensures |Select(scan, previous, paths, Changed)| + |Select(scan, previous, paths, MetadataChanged)|
            + |Select(scan, previous, paths, Unchanged)| == |StoredAmong(paths, previous)|
  {
    hide Classify, StoredAmong;
    if paths == [] {
      NoneStored(previous);
    } else {
      var before, last := paths[..|paths| - 1], paths[|paths| - 1];
      OldClassesCount(scan, previous, before);
      assert paths == before + [last] && last !in before;
      OneMoreStored(before, last, previous);
      OneOldClass(scan, previous, last);
    }
  }

  lemma NoneStored(previous: States)
    ensures |StoredAmong([], previous)| == 0
  {
  }

  lemma OneMoreStored(paths: seq<Path>, p: Path, previous: States)
    requires p !in paths
    ensures |StoredAmong(paths + [p], previous)| == |StoredAmong(paths, previous)| + (if p in previous then 1 else 0)
  {
    assert StoredAmong(paths + [p], previous) == StoredAmong(paths, previous) + (if p in previous then {p} else {});
  }

  lemma OneOldClass(scan: Scan, previous: States, p: Path)
    requires p in scan
    ensures |SelectOne(scan, previous, p, Changed)| + |SelectOne(scan, previous, p, MetadataChanged)|
            + |SelectOne(scan, previous, p, Unchanged)| == if p in previous then 1 else 0
  {
  }

  lemma KeptOrGone(scan: Scan, previous: States, paths: seq<Path>)
    requires forall p :: p in paths <==> p in scan
    ensures |StoredAmong(paths, previous)| + |previous.Keys - scan.Keys| == |previous|
  {
    var kept, gone := StoredAmong(paths, previous), previous.Keys - scan.Keys;
    assert previous.Keys == kept + gone;
    assert kept !! gone;
  }

  /** The stored documents fall into changed, metadata-changed, unchanged and deleted. */
  lemma PreviousIsCovered(scan: Scan, previous: States)
    ensures var diff := Diff(scan, previous);
            |diff.changedItems| + |diff.metadataItems| + |diff.unchangedItems| + |diff.deletedStates| == |previous|
  {
    hide Classify, PathLe, SortedPaths, Select, StatesAt, Distinct, StoredAmong;
    var paths := SortedPaths(scan.Keys);
    SortedPathsAscend(scan.Keys);
    OldClassesCount(scan, previous, paths);
    StatesAtCount(previous, SortedPaths(previous.Keys - scan.Keys));
    KeptOrGone(scan, previous, paths);
  }

  // ---------- One run ----------

  /** A successful run changes the numbers of chunks and of documents by exactly what it reports. */
  lemma SuccessBalances(t: Tables, job: Job)
    requires ValidTables(t, job.firstId) && KeyedByPath(job.scan) && Feasible(t, job)
    ensures var works := JobWorks(t, job).value;
            var after, run := AfterSuccess(t, job, works), SuccessRun(t, job, works);
            && after.runs == t.runs + [run]
            && |after.chunks| == |t.chunks| + run.embeddedChunks - run.deletedChunks
            && |after.documents| == |t.documents| + run.newDocuments - run.deletedDocuments
  {
    hide ValidTables, KeyedByPath, Reaches, JobWorks, PlannedView, Diff, Storable, Plan, UpToDate, StatesOf;
    FeasibleIsReadable(t, job);
    var works := JobWorks(t, job).value;
    var d := SuccessReaches(t, job);
    ReachedFacts(t, JobOps(t, job, works), job.firstId + |works|,
                 PlannedView(t, job.embedding, job.firstId, JobDiff(t, job), works), d, ChunkCount(works));
    OpsKeepRuns(t, JobOps(t, job, works));
    DiffCounts(job.scan, StatesOf(t));
    PreviousIsCovered(job.scan, StatesOf(t));
    AsManyStates(t);
    SuccessIsUpToDate(t, job);
    UpToDateCounts(AfterSuccess(t, job, works), job.scan);
  }

  lemma AsManyStates(t: Tables)
    ensures |StatesOf(t)| == |t.documents|
  {
    assert StatesOf(t).Keys == t.documents.Keys;
  }

  lemma UpToDateCounts(t: Tables, scan: Scan)
    requires UpToDate(t, scan)
    ensures |t.documents| == |scan|
  {
    forall p ensures p in t.documents <==> p in scan { assert IsCurrentAt(CorpusOf(t), scan, p); }
    assert t.documents.Keys == scan.Keys;
  }

  // ---------- All runs ----------

  ghost predicate Balanced(t: Tables) {
    && |t.chunks| == OperationalMetrics(t).embeddedChunksTotal - OperationalMetrics(t).deletedChunksTotal
    && |t.documents| == NetDocuments(t.runs, Succeeded)
  }

  lemma EventBalances(s: State, ev: Event)
    requires ValidTables(s.tables, s.nextId) && Possible(s, ev) && Balanced(s.tables)
    ensures Balanced(StateAfter(s, ev).tables)
  {
    hide ValidTables, KeyedByPath, JobWorks, AfterSuccess, DeletedByAll, ChunkCount, Batches, Feasible, FailureCounts;
    match ev
    case Success(job, _) =>
      LargerIds(s.tables, s.nextId, job.firstId);
      FeasibleIsReadable(s.tables, job);
      SuccessBalances(s.tables, job);
      OneMoreRun(s.tables.runs, SuccessRun(s.tables, job, JobWorks(s.tables, job).value));
    case Failure(report, _) => OneMoreRun(s.tables.runs, ReportedRun(s.tables, report));
    case Nothing(_) =>
  }

  /** After every history the stored chunks are all embedded minus all deleted ones, over every persisted
      run, and the stored documents are all new minus all deleted ones, over the succeeded runs. */
  lemma {:induction false} LedgerBalances(events: seq<Event>)
    requires PossibleHistory(events)
    ensures var t := Replay(events).tables;
            && OperationalMetrics(t).chunks
               == OperationalMetrics(t).embeddedChunksTotal - OperationalMetrics(t).deletedChunksTotal
            && OperationalMetrics(t).documents == NetDocuments(t.runs, Succeeded)
  {
    hide Possible, StateAfter, ValidTables;
    if events != [] {
      var before := events[..|events| - 1];
      LedgerBalances(before);
      ReplayIsValid(before);
      EventBalances(Replay(before), events[|events| - 1]);
    }
  }

  function Successes(events: seq<Event>): nat {
    if events == [] then 0 else Successes(events[..|events| - 1]) + (if events[|events| - 1].Success? then 1 else 0)
  }

  function Failures(events: seq<Event>): nat {
    if events == [] then 0 else Failures(events[..|events| - 1]) + (if events[|events| - 1].Failure? then 1 else 0)
  }

  lemma EventRecordsItself(s: State, ev: Event)
    requires Possible(s, ev)
    ensures var before, after := Totals(s.tables.runs), Totals(StateAfter(s, ev).tables.runs);
            && after.runsSucceeded == before.runsSucceeded + (if ev.Success? then 1 else 0)
            && after.runsFailed == before.runsFailed + (if ev.Failure? then 1 else 0)
  {
    hide ValidTables, KeyedByPath, JobWorks, DeletedByAll, ChunkCount, Batches, ApplyAll, JobOps, Feasible,
      FailureCounts;
    match ev
    case Success(job, _) =>
      FeasibleIsReadable(s.tables, job);
      var works := JobWorks(s.tables, job).value;
      OpsKeepRuns(s.tables, JobOps(s.tables, job, works));
      assert (s.tables.runs + [SuccessRun(s.tables, job, works)])[..|s.tables.runs|] == s.tables.runs;
    case Failure(report, _) =>
      assert (s.tables.runs + [ReportedRun(s.tables, report)])[..|s.tables.runs|] == s.tables.runs;
    case Nothing(_) =>
  }

  /** There is exactly one succeeded record for each synchronization whose changes were committed, and one
      failed record for each failure that could be recorded. */
  lemma {:induction false} RecordsMatchCommits(events: seq<Event>)
    requires PossibleHistory(events)
    ensures OperationalMetrics(Replay(events).tables).runsSucceeded == Successes(events)
    ensures OperationalMetrics(Replay(events).tables).runsFailed == Failures(events)
  {
    hide Possible, StateAfter;
    if events != [] {
      RecordsMatchCommits(events[..|events| - 1]);
      EventRecordsItself(Replay(events[..|events| - 1]), events[|events| - 1]);
    }
  }

  /** The document totals of `operational_metrics` run over failed runs too, whose counts were never
      applied: they account for the stored documents exactly when those counts cancel out. */
  lemma DocumentTotalsBalance(events: seq<Event>)
    requires PossibleHistory(events)
    ensures var t := Replay(events).tables;
            var m := OperationalMetrics(t);
            m.documents == m.newDocumentsTotal - m.deletedDocumentsTotal <==> NetDocuments(t.runs, Failed) == 0
  {
    LedgerBalances(events);
    NetOfAllRuns(Replay(events).tables.runs);
  }

  // ---------- Run ids ----------

  ghost predicate DistinctRuns(runs: seq<RunRecord>) {
    forall i, j | 0 <= i < j < |runs| :: runs[i].runId != runs[j].runId
  }

  lemma EventKeepsRunsDistinct(s: State, ev: Event)
    requires Possible(s, ev) && DistinctRuns(s.tables.runs)
    ensures DistinctRuns(StateAfter(s, ev).tables.runs)
  {
    hide ValidTables, KeyedByPath, JobWorks, DeletedByAll, ChunkCount, Batches, ApplyAll, JobOps, Feasible,
      FailureCounts;
    if ev.Success? {
      FeasibleIsReadable(s.tables, ev.job);
      OpsKeepRuns(s.tables, JobOps(s.tables, ev.job, JobWorks(s.tables, ev.job).value));
    }
  }

  /** No history stores two records under one run id. */
  lemma {:induction false} RunIdsAreUnique(events: seq<Event>)
    requires PossibleHistory(events)
    ensures DistinctRuns(Replay(events).tables.runs)
  {
    hide Possible, StateAfter;
    if events != [] {
      RunIdsAreUnique(events[..|events| - 1]);
      EventKeepsRunsDistinct(Replay(events[..|events| - 1]), events[|events| - 1]);
    }
  }
}
