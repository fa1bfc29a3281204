/** `SyncPipeline.sync`: lock, scan, one transaction with all work and the run record, and the separate
    transaction that records a failure. */
module Synchronization {
  import opened Strings
  import opened Models
  import opened SourceDiffing
  import opened StoreTables
  import opened PgStore
  import opened SyncPlan
  import opened EmbeddingProvider
  import opened EmbeddingQueue
  import opened StoreSteps
  import opened Pipeline
  import opened SyncEffects

  /** How a call of `sync` ends: it returns a result, or raises SyncFailedError or
      SyncAlreadyRunningError, or lets the error of the lock connection through. */
  datatype Outcome = Completed(run: RunRecord) | SyncFailed | AlreadyRunning | LockFailed

  function WorkItems(diff: SourceDiff): seq<ScannedDocument> {
    diff.newItems + diff.changedItems
  }

  /** The sum of the scanned sizes. */
  function TotalBytes(items: seq<ScannedDocument>): nat {
    if items == [] then 0 else TotalBytes(items[..|items| - 1]) + items[|items| - 1].sizeBytes
  }

  function InOrder(scan: Scan, paths: seq<Path>): seq<ScannedDocument>
    requires forall i | 0 <= i < |paths| :: paths[i] in scan
  {
    seq(|paths|, i requires 0 <= i < |paths| => scan[paths[i]])
  }

  function ScannedBytes(scan: Scan): nat {
    TotalBytes(InOrder(scan, SortedPaths(scan.Keys)))
  }

  /** One synchronization as seen from outside: who runs it, on what, and the ids it may hand out. */
  datatype Job = Job(
    embedding: Embedding,
    batchSize: nat,
    reader: Reader,
    scan: Scan,
    source: string,
    runId: nat,
    firstId: nat)

  function JobDiff(t: Tables, job: Job): SourceDiff {
    Diff(job.scan, StatesOf(t))
  }

  /** The new and changed documents with their chunks; None when one of them cannot be read. */
  function JobWorks(t: Tables, job: Job): Option<seq<Work>> {
    ReadAll(job.reader, WorkItems(JobDiff(t, job)))
  }

  function JobOps(t: Tables, job: Job, works: seq<Work>): seq<Op> {
    Plan(job.embedding, StatesOf(t), job.firstId, JobDiff(t, job), works)
  }

  /** The record of a successful run. */
  function SuccessRun(t: Tables, job: Job, works: seq<Work>): RunRecord
    requires job.batchSize > 0
  {
    var diff := JobDiff(t, job);
    RunRecord(job.runId, job.source, Succeeded,
              |diff.newItems|, |diff.changedItems|, |diff.metadataItems|, |diff.deletedStates|, |diff.unchangedItems|,
              ChunkCount(works), DeletedByAll(t, JobOps(t, job, works)),
              |job.scan|, ScannedBytes(job.scan), |Batches(AllTexts(works), job.batchSize)|)
  }

  /** What a successful synchronization commits: all operations and the run record together. */
  function AfterSuccess(t: Tables, job: Job, works: seq<Work>): Tables
    requires job.batchSize > 0
  {
    WithRun(ApplyAll(t, JobOps(t, job, works)), SuccessRun(t, job, works))
  }

  /** The counters of a run that the failure record keeps. */
  datatype Counts = Counts(
    newDocuments: nat,
    changedDocuments: nat,
    metadataChangedDocuments: nat,
    deletedDocuments: nat,
    unchangedDocuments: nat,
    scannedDocuments: nat,
    scannedBytes: nat)

  const NO_COUNTS := Counts(0, 0, 0, 0, 0, 0, 0)

  function ScanCounts(scan: Scan): Counts {
    NO_COUNTS.(scannedDocuments := |scan|, scannedBytes := ScannedBytes(scan))
  }

  function DiffCountsOf(scan: Scan, diff: SourceDiff): Counts {
    Counts(|diff.newItems|, |diff.changedItems|, |diff.metadataItems|, |diff.deletedStates|, |diff.unchangedItems|,
           |scan|, ScannedBytes(scan))
  }

  /** A failed attempt, as far as its record shows: the scan, if there was one, whether the snapshot of the
      stored documents was read, and the number of embedding calls. */
  datatype Report = Report(scan: Option<Scan>, source: string, runId: nat, snapshot: bool, batches: nat)

  /** What the failure has counted: nothing, the scan, or, once the snapshot was read, the scan and the diff. */
  function FailureCounts(t: Tables, report: Report): Counts {
    match report.scan
    case None => NO_COUNTS
    case Some(scan) =>
      if report.snapshot then DiffCountsOf(scan, Diff(scan, StatesOf(t))) else ScanCounts(scan)
  }

  /** The record of a failed run reports no embedded and no deleted chunks. */
  function FailedRun(runId: nat, source: string, counts: Counts, batches: nat): RunRecord {
    RunRecord(runId, source, Failed,
              counts.newDocuments, counts.changedDocuments, counts.metadataChangedDocuments,
              counts.deletedDocuments, counts.unchangedDocuments,
              0, 0, counts.scannedDocuments, counts.scannedBytes, batches)
  }

  function ReportedRun(t: Tables, report: Report): RunRecord {
    FailedRun(report.runId, report.source, FailureCounts(t, report), report.batches)
  }

  predicate AllPlain(items: seq<ScannedDocument>) {
    forall i | 0 <= i < |items| :: PlainValue(items[i].metadata)
  }

  /** All documents can be read, and the store accepts all texts and metadata. */
  predicate Feasible(t: Tables, job: Job) {
    && job.batchSize > 0
    && Acceptable(job.reader, WorkItems(JobDiff(t, job)))
    && AllPlain(JobDiff(t, job).metadataItems)
  }

  /** Nothing in the inputs prevents success. */
  predicate Doable(t: Tables, job: Job) {
    FreshRun(t, job.runId) && Feasible(t, job)
  }

  /** The tables after a success of the given job. */
  predicate Succeeds(before: Tables, job: Job, after: Tables) {
    Doable(before, job) && after == AfterSuccess(before, job, JobWorks(before, job).value)
  }

  /** Exactly one record was added: it is failed and reports no embedded and no deleted chunks. */
  predicate RecordsFailure(before: Tables, report: Report, after: Tables) {
    FreshRun(before, report.runId) && after == WithRun(before, ReportedRun(before, report))
  }

  /** The embedding calls that a successful job makes. */
  function JobCalls(before: Tables, job: Job): seq<seq<string>>
    requires job.batchSize > 0 && JobWorks(before, job).Some?
  {
    Batches(AllTexts(JobWorks(before, job).value), job.batchSize)
  }

  /** The number of statements for updates, deletions and documents of a successful job. */
  function WorkCount(t: Tables, job: Job): nat
    requires JobWorks(t, job).Some?
  {
    |JobDiff(t, job).metadataItems| + 2 * |JobDiff(t, job).deletedStates|
    + AllStoreCalls(StatesOf(t), JobWorks(t, job).value)
  }

  /** The number of statements from the snapshot to the run record. */
  function StatementCount(t: Tables, job: Job): nat
    requires JobWorks(t, job).Some?
  {
    1 + WorkCount(t, job) + 1
  }

  // ---------- The work inside the transaction ----------

  /** The loop over `diff.metadata_changed`. */
  method ApplyUpdates(store: Store, previous: States, items: seq<ScannedDocument>) returns (ok: bool)
    requires store.Valid() && store.working.Some?
    requires forall i | 0 <= i < |items| :: items[i].path in previous
    modifies store`working, store`calls
    ensures store.Valid() && store.working.Some? && store.calls >= old(store.calls)
    ensures ok ==> store.working.value == ApplyAll(old(store.working.value), UpdateOps(previous, items))
    ensures ok ==> store.calls == old(store.calls) + |items|
    ensures ok <==> && AllEnabled(old(store.working.value), UpdateOps(previous, items))
                    && Quiet(store.fails, old(store.calls), old(store.calls) + |items|)
  {
    hide Apply, ValidTables, PlainValue, HasDocument, ApplyAll, UpdateOps, AllEnabled;
    ghost var t := store.working.value;
    NoUpdatesYet(t, previous, items);
    for i := 0 to |items|
      invariant store.Valid() && store.working.Some?
      invariant store.working.value == ApplyAll(t, UpdateOps(previous, items[..i]))
      invariant store.calls == old(store.calls) + i
      invariant AllEnabled(t, UpdateOps(previous, items[..i])) && Quiet(store.fails, old(store.calls), store.calls)
    {
      var state := previous[items[i].path];
      UpdateNext(t, previous, items, i);
      if AllEnabled(t, UpdateOps(previous, items)) { UpdatesPrefix(t, previous, items, i + 1); }
      ok := store.UpdateDocumentMetadata(state.id, items[i].metadata, items[i].metadataHash);
      if !ok {
        return;
      }
    }
    assert items[..|items|] == items;
    ok := true;
  }

  lemma NoUpdatesYet(t: Tables, previous: States, items: seq<ScannedDocument>)
    ensures ApplyAll(t, UpdateOps(previous, items[..0])) == t && AllEnabled(t, UpdateOps(previous, items[..0]))
  {
  }

  lemma UpdateNext(t: Tables, previous: States, items: seq<ScannedDocument>, i: nat)
    requires i < |items| && items[i].path in previous
    ensures var op := Update(previous[items[i].path].id, items[i].metadata, items[i].metadataHash);
            && UpdateOps(previous, items[..i + 1]) == UpdateOps(previous, items[..i]) + [op]
            && ApplyAll(t, UpdateOps(previous, items[..i + 1]))
                == Apply(ApplyAll(t, UpdateOps(previous, items[..i])), op)
            && (AllEnabled(t, UpdateOps(previous, items[..i + 1])) <==>
                && AllEnabled(t, UpdateOps(previous, items[..i]))
                && Enabled(ApplyAll(t, UpdateOps(previous, items[..i])), op))
  {
    hide Apply, Enabled;
    assert items[..i + 1][..i] == items[..i];
    OneMoreOp(t, UpdateOps(previous, items[..i]), Update(previous[items[i].path].id, items[i].metadata,
          items[i].metadataHash));
  }

  lemma {:induction false} UpdatesPrefix(t: Tables, previous: States, items: seq<ScannedDocument>, n: nat)
    requires n <= |items| && AllEnabled(t, UpdateOps(previous, items))
    ensures AllEnabled(t, UpdateOps(previous, items[..n]))
    decreases |items|
  {
    hide Apply, Enabled;
    if n == |items| {
      assert items[..n] == items;
    } else {
      var before, last := items[..|items| - 1], items[|items| - 1];
      if last.path in previous {
        OneMoreOp(t, UpdateOps(previous, before), Update(previous[last.path].id, last.metadata, last.metadataHash));
      } else {
        assert UpdateOps(previous, items) == UpdateOps(previous, before);
      }
      UpdatesPrefix(t, previous, before, n);
      assert before[..n] == items[..n];
    }
  }

  /** The loop over `diff.deleted`: the number of chunks deleted, or None. */
  method ApplyDeletions(store: Store, states: seq<DocumentState>) returns (deleted: Option<nat>)
    requires store.Valid() && store.working.Some?
    modifies store`working, store`calls
    ensures store.Valid() && store.working.Some? && store.calls >= old(store.calls)
    ensures deleted.Some? ==> store.working.value == ApplyAll(old(store.working.value), DeleteOps(states))
    ensures deleted.Some? ==> deleted.value == DeletedByAll(old(store.working.value), DeleteOps(states))
    ensures deleted.Some? ==> store.calls == old(store.calls) + 2 * |states|
    ensures deleted.Some? <==> Quiet(store.fails, old(store.calls), old(store.calls) + 2 * |states|)
  {
    hide Apply, DeletedBy, ValidTables, Quiet, ApplyAll, DeletedByAll, DeleteOps;
    ghost var t, first := store.working.value, store.calls;
    var total := 0;
    NothingFails(store.fails, first);
    NoDeletionsYet(t, states);
    for i := 0 to |states|
      invariant store.Valid() && store.working.Some?
      invariant store.working.value == ApplyAll(t, DeleteOps(states[..i]))
      invariant total == DeletedByAll(t, DeleteOps(states[..i]))
      invariant store.calls == old(store.calls) + 2 * i && Quiet(store.fails, old(store.calls), store.calls)
    {
      DeletionNext(states, i);
      OneMoreOp(t, DeleteOps(states[..i]), Delete(states[i].id));
      QuietSplit(store.fails, first, first + 2 * i, first + 2 * i + 2);
      QuietSplit(store.fails, first, first + 2 * i + 2, first + 2 * |states|);
      var count := store.DeleteDocument(states[i].id);
      if count.None? {
        return None;
      }
      total := total + count.value;
    }
    assert states[..|states|] == states;
    deleted := Some(total);
  }

  lemma NoDeletionsYet(t: Tables, states: seq<DocumentState>)
    ensures ApplyAll(t, DeleteOps(states[..0])) == t && DeletedByAll(t, DeleteOps(states[..0])) == 0
  {
  }

  lemma DeletionNext(states: seq<DocumentState>, i: nat)
    requires i < |states|
    ensures DeleteOps(states[..i + 1]) == DeleteOps(states[..i]) + [Delete(states[i].id)]
  {
    assert states[..i + 1][..i] == states[..i];
  }

  /** Loading, chunking, embedding and storing: None, or the final counts of deleted and embedded chunks. */
  method Stream(store: Store, embedder: Embedder, batchSize: nat, r: Reader, previous: States,
                items: seq<ScannedDocument>, deletedChunks: nat)
    returns (counted: Option<(nat, nat)>, batches: nat)
    requires batchSize > 0 && store.Valid() && store.working.Some?
    modifies store`working, store`nextId, store`calls, embedder`calls
    ensures store.Valid() && store.working.Some?
    ensures batches == |embedder.calls| - |old(embedder.calls)|
    ensures counted.Some? <==>
              && Acceptable(r, items)
              && var works := ReadAll(r, items).value;
              && Quiet(store.fails, old(store.calls), old(store.calls) + AllStoreCalls(previous, works))
              && Answered(embedder.answers, |old(embedder.calls)|, Batches(AllTexts(works), batchSize))
    ensures counted.Some? ==>
              Progress(store.working.value, store.nextId, counted.value.0, counted.value.1, store.calls)
              == OneByOne(embedder.embedding, previous,
                          Progress(old(store.working.value), old(store.nextId), deletedChunks, 0, old(store.calls)),
                          ReadAll(r, items).value)
    ensures counted.Some? ==>
              embedder.calls[|old(embedder.calls)|..] == Batches(AllTexts(ReadAll(r, items).value), batchSize)
    ensures store.nextId >= old(store.nextId) && store.calls >= old(store.calls)
  {
    hide Buffers.QueueHolds, OneByOne, ValidTables, Batches, AllTexts, Quiet, Answered, AllStoreCalls;
    var b := new Buffers(embedder, batchSize);
    var w := new StoreWriter(store, previous, embedder.embedding, deletedChunks);
    if ReadAll(r, items).Some? { AnsweredServes(b, ReadAll(r, items).value); }
    var ok := StreamAll(b, w, r, items);
    if ok {
      ok := Drain(b, w);
    }
    batches := b.embeddingBatches;
    counted := if ok then Some((w.deletedChunks, w.embeddedChunks)) else None;
  }

  lemma AnsweredServes(b: Buffers, works: seq<Work>)
    requires b.batchSize > 0
    ensures Answered(b.embedder.answers, b.callsBefore, Batches(AllTexts(works), b.batchSize)) ==> b.Serves(works)
  {
    hide Batches, AllTexts, Right;
  }

  // ---------- Why the pieces add up to the plan ----------

  lemma {:induction false} OpsKeepRuns(t: Tables, ops: seq<Op>)
    ensures ApplyAll(t, ops).runs == t.runs
  {
    if ops != [] { OpsKeepRuns(t, ops[..|ops| - 1]); }
  }

  lemma {:induction false} UpdatesDeleteNothing(t: Tables, previous: States, items: seq<ScannedDocument>)
    ensures DeletedByAll(t, UpdateOps(previous, items)) == 0
  {
    hide Apply;
    if items != [] {
      var before, last := items[..|items| - 1], items[|items| - 1];
      UpdatesDeleteNothing(t, previous, before);
      if last.path in previous {
        OneMoreOp(t, UpdateOps(previous, before), Update(previous[last.path].id, last.metadata, last.metadataHash));
      } else {
        assert UpdateOps(previous, items) == UpdateOps(previous, before);
      }
    }
  }

  /** Updates, then deletions, then the documents one by one: that is the plan. */
  lemma PlanInThreeParts(t: Tables, e: Embedding, previous: States, firstId: nat, diff: SourceDiff, works: seq<Work>,
                         calls: nat)
    ensures var updated := ApplyAll(t, UpdateOps(previous, diff.metadataItems));
            var deleted := ApplyAll(updated, DeleteOps(diff.deletedStates));
            var count := DeletedByAll(updated, DeleteOps(diff.deletedStates));
            var plan := Plan(e, previous, firstId, diff, works);
            OneByOne(e, previous, Progress(deleted, firstId, count, 0, calls), works)
            == Progress(ApplyAll(t, plan), firstId + |works|, DeletedByAll(t, plan), ChunkCount(works),
                        calls + AllStoreCalls(previous, works))
  {
    hide ApplyAll, DeletedByAll, OneByOne;
    var updates, deletions := UpdateOps(previous, diff.metadataItems), DeleteOps(diff.deletedStates);
    var updated := ApplyAll(t, updates);
    var deleted := ApplyAll(updated, deletions);
    var count := DeletedByAll(updated, deletions);
    ApplyAllAppend(t, updates, deletions);
    ApplyAllAppend(t, updates + deletions, StoreAllOps(e, previous, firstId, works));
    UpdatesDeleteNothing(t, previous, diff.metadataItems);
    OneByOneRunsTheOps(e, previous, Progress(deleted, firstId, count, 0, calls), works);
  }

  lemma SnapshotIsCurrent(t: Tables)
    ensures Current(IdsOf(t), StatesOf(t)) && StatesKeyedByPath(StatesOf(t))
  {
  }

  lemma {:induction false} StoredCanBeUpdated(ids: map<Path, nat>, items: seq<ScannedDocument>)
    requires AllPlain(items) && forall i | 0 <= i < |items| :: items[i].path in ids
    ensures AllUpdatable(ids, items)
  {
    hide PlainValue;
    if items != [] { StoredCanBeUpdated(ids, items[..|items| - 1]); }
  }

  /** Every metadata change belongs to a stored document. */
  lemma UpdatesHaveStates(t: Tables, scan: Scan)
    requires KeyedByPath(scan)
    ensures var items := Diff(scan, StatesOf(t)).metadataItems;
            forall i | 0 <= i < |items| :: items[i].path in StatesOf(t)
  {
    hide Diff;
    SnapshotIsCurrent(t);
    DiffMembers(scan, StatesOf(t));
    var items := Diff(scan, StatesOf(t)).metadataItems;
    forall i | 0 <= i < |items| ensures items[i].path in StatesOf(t) {
      assert items[i] in items;
      assert IsClass(scan, StatesOf(t), items[i], MetadataChanged);
    }
  }

  lemma {:induction false} UpdatesKeepIds(t: Tables, previous: States, items: seq<ScannedDocument>)
    ensures IdsOf(ApplyAll(t, UpdateOps(previous, items))) == IdsOf(t)
  {
    if items != [] {
      var before, last := items[..|items| - 1], items[|items| - 1];
      UpdatesKeepIds(t, previous, before);
      if last.path in previous {
        OneMoreOp(t, UpdateOps(previous, before), Update(previous[last.path].id, last.metadata, last.metadataHash));
      } else {
        assert UpdateOps(previous, items) == UpdateOps(previous, before);
      }
    }
  }

  /** The row-count check of `update_document_metadata` never fails: every id comes from the snapshot and is
      still there when it is used. */
  lemma RowCountIsOne(t: Tables, scan: Scan, i: nat)
    requires KeyedByPath(scan) && i < |Diff(scan, StatesOf(t)).metadataItems|
    ensures var items := Diff(scan, StatesOf(t)).metadataItems;
            && items[i].path in StatesOf(t)
            && HasDocument(ApplyAll(t, UpdateOps(StatesOf(t), items[..i])), StatesOf(t)[items[i].path].id)
  {
    hide Diff, ApplyAll, UpdateOps;
    var items := Diff(scan, StatesOf(t)).metadataItems;
    UpdatesHaveStates(t, scan);
    UpdatesKeepIds(t, StatesOf(t), items[..i]);
    var after := ApplyAll(t, UpdateOps(StatesOf(t), items[..i]));
    assert items[i].path in IdsOf(after);
  }

  lemma {:induction false} EnabledUpdatesArePlain(t: Tables, previous: States, items: seq<ScannedDocument>)
    requires AllEnabled(t, UpdateOps(previous, items)) && forall i | 0 <= i < |items| :: items[i].path in previous
    ensures AllPlain(items)
  {
    hide Apply, HasDocument, PlainValue;
    if items != [] {
      var before, last := items[..|items| - 1], items[|items| - 1];
      OneMoreOp(t, UpdateOps(previous, before), Update(previous[last.path].id, last.metadata, last.metadataHash));
      EnabledUpdatesArePlain(t, previous, before);
    }
  }

  /** The metadata updates go through exactly when the new metadata can be stored. */
  lemma UpdatesGoThrough(t: Tables, nextId: nat, scan: Scan)
    requires ValidTables(t, nextId) && KeyedByPath(scan)
    ensures var items := Diff(scan, StatesOf(t)).metadataItems;
            AllEnabled(t, UpdateOps(StatesOf(t), items)) <==> AllPlain(items)
  {
    hide Diff, ValidTables, Current, AllUpdated, PlainValue, UpdateOps, AllUpdatable;
    var items := Diff(scan, StatesOf(t)).metadataItems;
    SnapshotIsCurrent(t);
    UpdatesHaveStates(t, scan);
    if AllPlain(items) {
      StoredCanBeUpdated(IdsOf(t), items);
      UpdatePhase(t, nextId, StatesOf(t), items);
    }
    if AllEnabled(t, UpdateOps(StatesOf(t), items)) { EnabledUpdatesArePlain(t, StatesOf(t), items); }
  }

  // ---------- The transaction ----------

  /** The job can be done, and nothing from the environment gets in its way: no statement from the snapshot, call
      number `first`, to the run record fails, and every embedding call is answered with a vector for each text. */
  predicate Unhindered(t: Tables, job: Job, fails: nat -> bool, first: nat, answers: nat -> Answer, calls: nat) {
    && Doable(t, job)
    && Quiet(fails, first, first + StatementCount(t, job))
    && Answered(answers, calls, JobCalls(t, job))
  }

  /** The statements of the work, part by part. */
  lemma WorkFails(t: Tables, job: Job, fails: nat -> bool, first: nat)
    ensures JobWorks(t, job).Some? ==>
              var deletions := first + |JobDiff(t, job).metadataItems|;
              var documents := deletions + 2 * |JobDiff(t, job).deletedStates|;
              && documents + AllStoreCalls(StatesOf(t), JobWorks(t, job).value) == first + WorkCount(t, job)
              && (Quiet(fails, first, first + WorkCount(t, job)) <==>
                  && Quiet(fails, first, deletions) && Quiet(fails, deletions, documents)
                  && Quiet(fails, documents, first + WorkCount(t, job)))
  {
    hide AllStoreCalls, JobDiff, JobWorks, Quiet;
    if JobWorks(t, job).Some? {
      var deletions := first + |JobDiff(t, job).metadataItems|;
      var documents := deletions + 2 * |JobDiff(t, job).deletedStates|;
      QuietSplit(fails, first, deletions, first + WorkCount(t, job));
      QuietSplit(fails, deletions, documents, first + WorkCount(t, job));
    }
  }

  /** Snapshot, work and record. */
  lemma StatementsFail(t: Tables, job: Job, fails: nat -> bool, first: nat)
    ensures JobWorks(t, job).Some? ==>
              var record := first + 1 + WorkCount(t, job);
              && record + 1 == first + StatementCount(t, job)
              && (Quiet(fails, first, record + 1) <==>
                  !fails(first) && Quiet(fails, first + 1, record) && !fails(record))
  {
    hide WorkCount, JobWorks, Quiet;
    if JobWorks(t, job).Some? {
      var record := first + 1 + WorkCount(t, job);
      QuietSplit(fails, first, first + 1, record + 1);
      QuietSplit(fails, first + 1, record, record + 1);
      QuietOne(fails, first);
      QuietOne(fails, record);
    }
  }

  lemma QuietOne(fails: nat -> bool, n: nat)
    ensures Quiet(fails, n, n + 1) <==> !fails(n)
  {
  }

  /** Updates, deletions, and the stream of documents: None, or the final counts of deleted and embedded chunks. */
  method WorkOff(store: Store, embedder: Embedder, job: Job, previous: States, diff: SourceDiff, ghost t: Tables)
    returns (counted: Option<(nat, nat)>, batches: nat)
    requires job.batchSize > 0 && store.Valid() && store.working == Some(t) && KeyedByPath(job.scan)
    requires job.embedding == embedder.embedding && job.firstId == store.nextId
    requires previous == StatesOf(t) && diff == JobDiff(t, job)
    modifies store`working, store`nextId, store`calls, embedder`calls
    ensures store.Valid() && store.working.Some?
    ensures store.nextId >= old(store.nextId) && store.calls >= old(store.calls)
    ensures batches == |embedder.calls| - |old(embedder.calls)|
    ensures counted.Some? <==> && Feasible(t, job)
                               && Quiet(store.fails, old(store.calls), old(store.calls) + WorkCount(t, job))
                               && Answered(embedder.answers, |old(embedder.calls)|, JobCalls(t, job))
    ensures counted.Some? ==>
              var works := JobWorks(t, job).value;
              && store.working == Some(ApplyAll(t, JobOps(t, job, works)))
              && store.nextId == job.firstId + |works|
              && store.calls == old(store.calls) + WorkCount(t, job)
              && counted.value == (DeletedByAll(t, JobOps(t, job, works)), ChunkCount(works))
              && embedder.calls[|old(embedder.calls)|..] == JobCalls(t, job)
  {
    hide ValidTables, Diff, Plan, OneByOne, ReadAll, AllStorable, Batches, AllTexts, KeyedByPath, Storable, AllPlain;
    hide ApplyAll, DeletedByAll, UpdateOps, DeleteOps, AllEnabled, StatesOf, ChunkCount, AllStoreCalls, Quiet, Answered;
    hide WorkCount;
    counted, batches := None, 0;
    ghost var first := store.calls;
    WorkFails(t, job, store.fails, first);
    UpdatesHaveStates(t, job.scan);
    UpdatesGoThrough(t, store.nextId, job.scan);
    var ok := ApplyUpdates(store, previous, diff.metadataItems);
    if !ok {
      return;
    }
    var deleted := ApplyDeletions(store, diff.deletedStates);
    if deleted.None? {
      return;
    }
    ghost var calls := store.calls;
    counted, batches := Stream(store, embedder, job.batchSize, job.reader, previous, WorkItems(diff), deleted.value);
    if counted.Some? {
      PlanInThreeParts(t, job.embedding, previous, job.firstId, diff, JobWorks(t, job).value, calls);
    }
  }

  /** The body of the transaction. It reports the counters as far as they got. */
  method Transact(store: Store, embedder: Embedder, job: Job)
    returns (run: Option<RunRecord>, counts: Counts, batches: nat)
    requires job.batchSize > 0 && store.Valid() && store.working.Some? && KeyedByPath(job.scan)
    requires job.embedding == embedder.embedding && job.firstId == store.nextId
    modifies store`working, store`nextId, store`calls, embedder`calls
    ensures store.Valid() && store.working.Some?
    ensures store.nextId >= old(store.nextId) && store.calls >= old(store.calls)
    ensures batches == |embedder.calls| - |old(embedder.calls)|
    ensures counts == FailureCounts(old(store.working.value),
                                    Report(Some(job.scan), job.source, job.runId, !store.fails(old(store.calls)),
                                           batches))
    ensures store.fails(old(store.calls)) ==> run.None? && batches == 0
    ensures run.Some? <==> Unhindered(old(store.working.value), job, store.fails, old(store.calls),
                                      embedder.answers, |old(embedder.calls)|)
    ensures run.Some? ==>
              var t := old(store.working.value);
              var works := JobWorks(t, job).value;
              && run.value == SuccessRun(t, job, works)
              && store.working == Some(AfterSuccess(t, job, works))
              && store.nextId == job.firstId + |works|
              && store.calls == old(store.calls) + StatementCount(t, job)
              && embedder.calls[|old(embedder.calls)|..] == JobCalls(t, job)
  {
    hide ValidTables, Diff, JobOps, AllStorable, ReadAll, Batches, AllTexts, KeyedByPath, AllPlain, ApplyAll;
    hide DeletedByAll, StatesOf, ScannedBytes, ChunkCount, Quiet, Answered, WorkCount, StatementCount;
    ghost var t, first := store.working.value, store.calls;
    StatementsFail(t, job, store.fails, first);
    run, counts, batches := None, ScanCounts(job.scan), 0;
    var previous := store.DocumentStates();
    if previous.None? {
      return;
    }
    var diff := DiffSource(job.scan, previous.value);
    counts := DiffCountsOf(job.scan, diff);
    var counted;
    counted, batches := WorkOff(store, embedder, job, previous.value, diff, t);
    if counted.None? {
      return;
    }
    OpsKeepRuns(t, JobOps(t, job, JobWorks(t, job).value));
    var result := RunRecord(job.runId, job.source, Succeeded,
      |diff.newItems|, |diff.changedItems|, |diff.metadataItems|, |diff.deletedStates|, |diff.unchangedItems|,
      counted.value.1, counted.value.0, |job.scan|, ScannedBytes(job.scan), batches);
    var ok := store.RecordRun(result);
    if ok {
      run := Some(result);
    }
  }

  // ---------- The whole call ----------

  /** The number of the commit among the database calls, when the transaction begins with call `first`. */
  function CommitCall(t: Tables, job: Job, first: nat): nat {
    if JobWorks(t, job).Some? then first + OPENING + StatementCount(t, job) else 0
  }

  /** An attempt whose transaction begins with call `first` comes to its commit: it has a scan, the store still
      takes transactions and opens this one, and nothing hinders the work. */
  predicate ComesToCommit(t: Tables, job: Job, open: bool, fails: nat -> bool, first: nat, answers: nat -> Answer,
                          calls: nat)
  {
    && open && Quiet(fails, first, first + OPENING)
    && Unhindered(t, job, fails, first + OPENING, answers, calls)
  }

  /** The part of `sync` guarded against exceptions: the scan and the transaction. `reached` says that all
      went well up to the commit. */
  method Attempt(store: Store, embedder: Embedder, job: Job, scanned: bool)
    returns (run: Option<RunRecord>, counts: Counts, batches: nat, ghost reached: bool)
    requires job.batchSize > 0 && store.Valid() && store.working.None? && KeyedByPath(job.scan)
    requires job.embedding == embedder.embedding && job.firstId == store.nextId
    modifies store`working, store`jammed, store`committed, store`nextId, store`calls, embedder`calls
    ensures store.Valid() && store.working.None? && store.nextId >= old(store.nextId)
    ensures store.jammed <==> old(store.jammed) || (scanned && Jams(store.fails, old(store.calls)))
    ensures old(store.calls) <= store.calls
    ensures !old(store.jammed) && store.jammed ==> store.calls == old(store.calls) + 2
    ensures batches == |embedder.calls| - |old(embedder.calls)|
    ensures counts == FailureCounts(old(store.committed),
                                    ReportOf(job, scanned, old(store.jammed), store.fails, old(store.calls), batches))
    ensures !Snapshot(scanned && !old(store.jammed), store.fails, old(store.calls)) ==> batches == 0
    ensures reached <==> ComesToCommit(old(store.committed), job, scanned && !old(store.jammed), store.fails,
                                       old(store.calls), embedder.answers, |old(embedder.calls)|)
    ensures reached ==> store.nextId == job.firstId + |JobWorks(old(store.committed), job).value|
    ensures reached ==> embedder.calls[|old(embedder.calls)|..] == JobCalls(old(store.committed), job)
    ensures store.committed
         == if reached && store.commits(CommitCall(old(store.committed), job, old(store.calls))) != NotApplied
            then AfterSuccess(old(store.committed), job, JobWorks(old(store.committed), job).value)
            else old(store.committed)
    ensures run
         == if reached && store.commits(CommitCall(old(store.committed), job, old(store.calls))) == Applied
            then Some(SuccessRun(old(store.committed), job, JobWorks(old(store.committed), job).value))
            else None
  {
    hide ValidTables, SuccessRun, AfterSuccess, JobWorks, ScanCounts, DiffCountsOf, Doable, KeyedByPath, StatementCount;
    hide JobCalls, Diff, StatesOf, Unhindered, Quiet;
    QuietSplit(store.fails, store.calls, store.calls + OPENING, store.calls + OPENING + 1);
    QuietOne(store.fails, store.calls + OPENING);
    run, counts, batches, reached := None, NO_COUNTS, 0, false;
    if !scanned {
      return;
    }
    counts := ScanCounts(job.scan);
    var ok := store.Begin();
    if !ok {
      return;
    }
    run, counts, batches := Transact(store, embedder, job);
    if run.None? {
      store.Rollback();
      return;
    }
    reached := true;
    UnhinderedIsReadable(old(store.committed), job, store.fails, old(store.calls) + OPENING, embedder.answers,
                         |old(embedder.calls)|);
    var outcome := store.Commit();
    if outcome != Applied {
      run := None;
    }
  }

  lemma UnhinderedIsReadable(t: Tables, job: Job, fails: nat -> bool, first: nat, answers: nat -> Answer, calls: nat)
    requires Unhindered(t, job, fails, first, answers, calls)
    ensures Doable(t, job) && job.batchSize > 0 && JobWorks(t, job).Some?
  {
  }

  lemma DoableIsReadable(t: Tables, job: Job)
    requires Doable(t, job)
    ensures job.batchSize > 0 && JobWorks(t, job).Some?
  {
  }

  /** Whether an attempt whose transaction begins with call `first` reads the snapshot of stored documents. */
  predicate Snapshot(open: bool, fails: nat -> bool, first: nat) {
    open && Quiet(fails, first, first + OPENING + 1)
  }

  function ReportOf(job: Job, scanned: bool, jammed: bool, fails: nat -> bool, first: nat, batches: nat): Report {
    Report(if scanned then Some(job.scan) else None, job.source, job.runId,
           Snapshot(scanned && !jammed, fails, first), batches)
  }

  /** The transaction that begins with call `first` and stores one record is carried out. */
  predicate GoesOnRecord(fails: nat -> bool, commits: nat -> CommitOutcome, first: nat) {
    Quiet(fails, first, first + OPENING + 1) && commits(first + OPENING + 1) != NotApplied
  }

  /** The separate transaction for the failure record; its own failure is only logged. */
  method RecordFailure(store: Store, run: RunRecord)
    requires store.Valid() && store.working.None?
    modifies store`working, store`jammed, store`committed, store`calls
    ensures store.Valid() && store.working.None?
    ensures store.jammed <==> old(store.jammed) || Jams(store.fails, old(store.calls))
    ensures old(store.calls) <= store.calls
    ensures store.committed
         == if && !old(store.jammed) && FreshRun(old(store.committed), run.runId)
               && GoesOnRecord(store.fails, store.commits, old(store.calls))
            then WithRun(old(store.committed), run) else old(store.committed)
  {
    hide ValidTables, FreshRun, Quiet;
    QuietSplit(store.fails, store.calls, store.calls + OPENING, store.calls + OPENING + 1);
    QuietOne(store.fails, store.calls + OPENING);
    var ok := store.Begin();
    if !ok {
      return;
    }
    ok := store.RecordRun(run);
    if !ok {
      store.Rollback();
      return;
    }
    var outcome := store.Commit();
  }

  /** A success leaves its own record; neither an unchanged store nor a failure record looks like it. */
  lemma SuccessIsRecorded(before: Tables, job: Job)
    requires Doable(before, job)
    ensures var after := AfterSuccess(before, job, JobWorks(before, job).value);
            && !FreshRun(after, job.runId) && after != before
            && forall report :: after != WithRun(before, ReportedRun(before, report))
  {
    hide ApplyAll, JobOps, JobDiff, Batches, DeletedByAll, ChunkCount;
    var works := JobWorks(before, job).value;
    var after := AfterSuccess(before, job, works);
    OpsKeepRuns(before, JobOps(before, job, works));
    assert after.runs == before.runs + [SuccessRun(before, job, works)];
    assert after.runs[|after.runs| - 1].runId == job.runId;
  }

  function JobOf(store: Store, embedder: Embedder, batchSize: nat, r: Reader, scan: Option<Scan>, source: string,
                 runId: nat): Job
    reads store`nextId
  {
    Job(embedder.embedding, batchSize, r, if scan.Some? then scan.value else map[], source, runId, store.nextId)
  }

  /** What is committed after `sync` held the lock, and what it returned: a success when its commit was carried
      out, acknowledged or not; otherwise the failure record, if it could be stored, or nothing. */
  predicate Ending(before: Tables, job: Job, report: Report, reached: bool, outcome: CommitOutcome, recorded: bool,
                   after: Tables, run: Option<RunRecord>)
  {
    && (reached ==> report.scan == Some(job.scan) && Doable(before, job))
    && (if reached && outcome != NotApplied then after == AfterSuccess(before, job, JobWorks(before, job).value)
        else if recorded then RecordsFailure(before, report, after)
        else after == before)
    && run == (if reached && outcome == Applied
               then Some(SuccessRun(before, job, JobWorks(before, job).value)) else None)
  }

  /** A failed run gets its record: its id is new, the store still takes transactions after the attempt, and the
      transaction that begins with call `recording` is carried out. */
  predicate FailureIsRecorded(before: Tables, runId: nat, jammed: bool, fails: nat -> bool,
                              commits: nat -> CommitOutcome, recording: nat)
  {
    FreshRun(before, runId) && !jammed && GoesOnRecord(fails, commits, recording)
  }

  /** The part of `sync` that runs while the lock is held. `recording` is the number of the call that follows a
      failed attempt. */
  method SyncLocked(store: Store, embedder: Embedder, job: Job, scanned: bool)
    returns (run: Option<RunRecord>, ghost report: Report, ghost reached: bool, ghost recording: nat)
    requires job.batchSize > 0 && store.Valid() && store.working.None? && KeyedByPath(job.scan)
    requires job.embedding == embedder.embedding && job.firstId == store.nextId
    modifies store`working, store`jammed, store`committed, store`nextId, store`calls, embedder`calls
    ensures store.Valid() && store.working.None? && store.nextId >= old(store.nextId)
    ensures |old(embedder.calls)| <= |embedder.calls| && old(store.calls) <= recording <= store.calls
    ensures scanned && !old(store.jammed) && Jams(store.fails, old(store.calls)) ==> recording == old(store.calls) + 2
    ensures report == ReportOf(job, scanned, old(store.jammed), store.fails, old(store.calls),
                               |embedder.calls| - |old(embedder.calls)|)
    ensures !report.snapshot ==> report.batches == 0
    ensures reached <==> ComesToCommit(old(store.committed), job, scanned && !old(store.jammed), store.fails,
                                       old(store.calls), embedder.answers, |old(embedder.calls)|)
    ensures Ending(old(store.committed), job, report, reached,
                   store.commits(CommitCall(old(store.committed), job, old(store.calls))),
                   FailureIsRecorded(old(store.committed), job.runId,
                                     old(store.jammed) || (scanned && Jams(store.fails, old(store.calls))),
                                     store.fails, store.commits, recording),
                   store.committed, run)
    ensures store.jammed <==> || old(store.jammed) || (scanned && Jams(store.fails, old(store.calls)))
                              || (run.None? && Jams(store.fails, recording))
    ensures reached ==> store.nextId == job.firstId + |JobWorks(old(store.committed), job).value|
    ensures reached ==> embedder.calls[|old(embedder.calls)|..] == JobCalls(old(store.committed), job)
  {
    hide ValidTables, SuccessRun, AfterSuccess, JobWorks, Doable, KeyedByPath, FailureCounts, CommitCall, FreshRun,
      JobCalls, Quiet, Unhindered, GoesOnRecord, Jams;
    ghost var before, first, jammed := store.committed, store.calls, store.jammed;
    ghost var calls := |embedder.calls|;
    var counts, batches;
    run, counts, batches, reached := Attempt(store, embedder, job, scanned);
    report := ReportOf(job, scanned, jammed, store.fails, first, batches);
    recording := store.calls;
    if reached {
      UnhinderedIsReadable(before, job, store.fails, first + OPENING, embedder.answers, calls);
    }
    if run.Some? {
      return;
    }
    if reached { SuccessIsRecorded(before, job); }
    RecordFailure(store, FailedRun(job.runId, job.source, counts, batches));
  }

  /** `sync`. The scan is what `source.scan()` will return, or None when it will raise. The ghost results say
      what a failure can report, whether the commit was reached, and which call followed a failed attempt. */
  method Synchronize(store: Store, embedder: Embedder, batchSize: nat, r: Reader, scan: Option<Scan>,
                     source: string, runId: nat)
    returns (outcome: Outcome, ghost report: Report, ghost reached: bool, ghost recording: nat)
    requires batchSize > 0 && store.Valid() && store.working.None?
    requires scan.Some? ==> KeyedByPath(scan.value)
    modifies store, embedder`calls
    ensures store.Valid() && store.working.None? && store.nextId >= old(store.nextId)
    ensures |old(embedder.calls)| <= |embedder.calls| && old(store.calls) <= recording <= store.calls
    ensures report.scan == scan && report.source == source && report.runId == runId && ProperReport(report)
    // an attempt that does not get the lock changes nothing
    ensures outcome.LockFailed? <==> store.fails(old(store.calls))
    ensures outcome.AlreadyRunning? <==> !store.fails(old(store.calls)) && old(store.locked)
    ensures outcome.AlreadyRunning? || outcome.LockFailed? ==>
              && store.committed == old(store.committed) && store.nextId == old(store.nextId)
              && embedder.calls == old(embedder.calls) && store.locked == old(store.locked)
              && store.jammed == old(store.jammed) && !reached
    ensures outcome.Completed? || outcome.SyncFailed? ==>
              && !store.locked && report.batches == |embedder.calls| - |old(embedder.calls)|
              && report.snapshot == Snapshot(scan.Some? && !old(store.jammed), store.fails, old(store.calls) + 1)
    // the commit is reached exactly when the inputs allow it and no call up to it fails
    ensures outcome.Completed? || outcome.SyncFailed? ==>
              (reached <==> ComesToCommit(old(store.committed),
                old(JobOf(store, embedder, batchSize, r, scan, source, runId)), scan.Some? && !old(store.jammed),
                store.fails, old(store.calls) + 1, embedder.answers, |old(embedder.calls)|))
    // a success commits the whole plan with its record, and makes the calls of the batched texts
    ensures outcome.Completed? <==> reached && CommitReply(store, old(store.committed),
              old(JobOf(store, embedder, batchSize, r, scan, source, runId)), old(store.calls)) == Applied
    ensures reached ==>
              var before, job := old(store.committed), old(JobOf(store, embedder, batchSize, r, scan, source, runId));
              && scan.Some? && Doable(before, job)
              && store.nextId == job.firstId + |JobWorks(before, job).value|
              && embedder.calls[|old(embedder.calls)|..] == JobCalls(before, job)
    ensures outcome.Completed? ==>
              var before, job := old(store.committed), old(JobOf(store, embedder, batchSize, r, scan, source, runId));
              && store.committed == AfterSuccess(before, job, JobWorks(before, job).value)
              && outcome.run == SuccessRun(before, job, JobWorks(before, job).value)
    // a failure changes nothing but adds its own record, if that can be stored, except exactly when the reply to
    // the commit of the whole plan gets lost
    ensures outcome.SyncFailed? ==>
              var before, job := old(store.committed), old(JobOf(store, embedder, batchSize, r, scan, source, runId));
              var lost := reached && CommitReply(store, before, job, old(store.calls)) == AppliedUnacknowledged;
              var jammed := old(store.jammed) || (scan.Some? && Jams(store.fails, old(store.calls) + 1));
              && (lost <==> Succeeds(before, job, store.committed))
              && (!lost ==>
                  if FailureIsRecorded(before, runId, jammed, store.fails, store.commits, recording)
                  then RecordsFailure(before, report, store.committed) else store.committed == before)
    ensures outcome.SyncFailed? && scan.Some? && !old(store.jammed) && Jams(store.fails, old(store.calls) + 1) ==>
              recording == old(store.calls) + 3
    // the store takes no further transaction exactly when a registration failed, in this run or an earlier one
    ensures outcome.Completed? || outcome.SyncFailed? ==>
              (store.jammed <==>
                || old(store.jammed) || (scan.Some? && Jams(store.fails, old(store.calls) + 1))
                || (outcome.SyncFailed? && Jams(store.fails, recording)))
  {
    hide ValidTables, SuccessRun, AfterSuccess, JobWorks, FreshRun, Doable, KeyedByPath, CommitCall, JobCalls,
      ReportedRun, Quiet, Unhindered, GoesOnRecord, Jams, ComesToCommit;
    ghost var before, job := store.committed, JobOf(store, embedder, batchSize, r, scan, source, runId);
    report, reached, recording := Report(scan, source, runId, false, 0), false, store.calls;
    var acquired := store.TryLock();
    if acquired.None? {
      return LockFailed, report, reached, recording;
    }
    if !acquired.value {
      return AlreadyRunning, report, reached, recording;
    }
    EmptyScanIsKeyed();
    var run;
    run, report, reached, recording :=
      SyncLocked(store, embedder, JobOf(store, embedder, batchSize, r, scan, source, runId), scan.Some?);
    store.Unlock();
    if Doable(before, job) {
      SuccessIsRecorded(before, job);
    }
    outcome := if run.Some? then Completed(run.value) else SyncFailed;
  }

  /** How the commit of the whole plan ends, if it is reached. The calls before it, counted from the lock
      attempt, depend on the inputs only. */
  function CommitReply(store: Store, before: Tables, job: Job, calls: nat): CommitOutcome {
    store.commits(CommitCall(before, job, calls + 1))
  }

  /** Only an attempt that read the snapshot can have made embedding calls, and only a scan can lead there. */
  predicate ProperReport(report: Report) {
    && (report.scan.Some? ==> KeyedByPath(report.scan.value))
    && (report.snapshot ==> report.scan.Some?)
    && (!report.snapshot ==> report.batches == 0)
  }

  lemma EmptyScanIsKeyed()
    ensures KeyedByPath(map[])
  {
  }
}
