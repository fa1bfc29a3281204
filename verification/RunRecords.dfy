/** What the record of a run says, from the scan and the tables alone. */
module RunRecords {
  import opened Models
  import opened Sums
  import opened SourceDiffing
  import opened StoreTables
  import opened PgStore
  import opened SyncPlan
  import opened Pipeline
  import opened SyncEffects
  import opened Synchronization
  import opened SyncCorpus
  import opened History
  import Ledger

  // ---------- Documents and bytes ----------

  function SizesOf(scan: Scan): Path -> nat {
    (p: Path) => if p in scan then scan[p].sizeBytes else 0
  }

  /** The counts of documents and bytes that a run over this scan has when it starts on these tables: new paths,
      other content, same content with other metadata, neither, and paths that are gone. */
  ghost predicate CountsAll(t: Tables, scan: Scan, run: RunRecord) {
    && CountsScan(scan, run)
    && run.newDocuments == |set p | p in scan && p !in t.documents|
    && run.changedDocuments
       == |set p | p in scan && p in t.documents && t.documents[p].contentHash != scan[p].contentHash|
    && run.metadataChangedDocuments
       == |set p | && p in scan && p in t.documents && t.documents[p].contentHash == scan[p].contentHash
                   && t.documents[p].metadataHash != scan[p].metadataHash|
    && run.unchangedDocuments
       == |set p | && p in scan && p in t.documents && t.documents[p].contentHash == scan[p].contentHash
                   && t.documents[p].metadataHash == scan[p].metadataHash|
    && run.deletedDocuments == |set p | p in t.documents && p !in scan|
  }

  ghost predicate CountsScan(scan: Scan, run: RunRecord) {
    run.scannedDocuments == |scan| && run.scannedBytes == Total(SizesOf(scan), scan.Keys)
  }

  ghost function SetOf(paths: seq<Path>): set<Path> {
    set p | p in paths
  }

  lemma SetOfSnoc(paths: seq<Path>, p: Path)
    ensures SetOf(paths + [p]) == SetOf(paths) + {p}
  {
  }

  lemma TotalBytesSnoc(scan: Scan, paths: seq<Path>, p: Path)
    requires p in scan && forall i | 0 <= i < |paths| :: paths[i] in scan
    ensures TotalBytes(InOrder(scan, paths + [p])) == TotalBytes(InOrder(scan, paths)) + scan[p].sizeBytes
  {
    assert InOrder(scan, paths + [p])[..|paths|] == InOrder(scan, paths);
  }

  lemma {:induction false} BytesOfPaths(scan: Scan, paths: seq<Path>)
    requires Distinct(paths) && forall i | 0 <= i < |paths| :: paths[i] in scan
    ensures TotalBytes(InOrder(scan, paths)) == Total(SizesOf(scan), SetOf(paths))
  {
    if paths == [] {
      assert SetOf(paths) == {};
    } else {
      var n := |paths| - 1;
      BytesOfPaths(scan, paths[..n]);
      hide SetOf, TotalBytes;
      assert paths == paths[..n] + [paths[n]];
      TotalBytesSnoc(scan, paths[..n], paths[n]);
      SetOfSnoc(paths[..n], paths[n]);
      NotAmong(paths);
      TotalOfMore(SizesOf(scan), SetOf(paths[..n]), paths[n]);
    }
  }

  lemma NotAmong(paths: seq<Path>)
    requires Distinct(paths) && paths != []
    ensures paths[|paths| - 1] !in SetOf(paths[..|paths| - 1])
  {
  }

  /** The scanned bytes are the sum of the sizes. */
  lemma ScannedBytesIsTotal(scan: Scan)
    ensures ScannedBytes(scan) == Total(SizesOf(scan), scan.Keys)
  {
    hide SortedPaths, PathLe, TotalBytes;
    var paths := SortedPaths(scan.Keys);
    SortedPathsAscend(scan.Keys);
    BytesOfPaths(scan, paths);
    assert SetOf(paths) == scan.Keys;
  }

  lemma HashesInStates(t: Tables, scan: Scan)
    ensures (set p | p in scan && p !in StatesOf(t)) == (set p | p in scan && p !in t.documents)
    ensures (set p | p in scan && p in StatesOf(t) && StatesOf(t)[p].contentHash != scan[p].contentHash)
         == (set p | p in scan && p in t.documents && t.documents[p].contentHash != scan[p].contentHash)
    ensures (set p | p in StatesOf(t) && p !in scan) == (set p | p in t.documents && p !in scan)
  {
  }

  lemma MetadataInStates(t: Tables, scan: Scan)
    ensures (set p | && p in scan && p in StatesOf(t) && StatesOf(t)[p].contentHash == scan[p].contentHash
                     && StatesOf(t)[p].metadataHash != scan[p].metadataHash)
         == (set p | && p in scan && p in t.documents && t.documents[p].contentHash == scan[p].contentHash
                     && t.documents[p].metadataHash != scan[p].metadataHash)
    ensures (set p | && p in scan && p in StatesOf(t) && StatesOf(t)[p].contentHash == scan[p].contentHash
                     && StatesOf(t)[p].metadataHash == scan[p].metadataHash)
         == (set p | && p in scan && p in t.documents && t.documents[p].contentHash == scan[p].contentHash
                     && t.documents[p].metadataHash == scan[p].metadataHash)
  {
  }

  lemma CountsOfDiff(t: Tables, scan: Scan, run: RunRecord)
    requires KeyedByPath(scan)
    requires var diff := Diff(scan, StatesOf(t));
             && run.newDocuments == |diff.newItems| && run.changedDocuments == |diff.changedItems|
             && run.metadataChangedDocuments == |diff.metadataItems|
             && run.unchangedDocuments == |diff.unchangedItems| && run.deletedDocuments == |diff.deletedStates|
    requires run.scannedDocuments == |scan| && run.scannedBytes == ScannedBytes(scan)
    ensures CountsAll(t, scan, run)
  {
    hide Diff, StatesOf, ScannedBytes;
    StatesOfAreKeyed(t);
    DiffSizes(scan, StatesOf(t));
    HashesInStates(t, scan);
    MetadataInStates(t, scan);
    ScannedBytesIsTotal(scan);
  }

  /** The record of a failed run: it has counted nothing without a scan, the scan alone without a snapshot of the
      store, and otherwise everything; it claims no chunk. */
  lemma FailedRunIsExact(before: Tables, report: Report, after: Tables)
    requires ProperReport(report) && RecordsFailure(before, report, after)
    ensures |after.runs| == |before.runs| + 1 && before.runs <= after.runs
    ensures var run := after.runs[|before.runs|];
            && run.runId == report.runId && run.source == report.source && run.status == Failed
            && run.embeddedChunks == 0 && run.deletedChunks == 0 && run.embeddingBatches == report.batches
            && (report.scan.Some? && report.snapshot ==> CountsAll(before, report.scan.value, run))
            && (report.scan.Some? && !report.snapshot ==> CountsScan(report.scan.value, run))
            && (!report.snapshot ==> run.newDocuments == run.changedDocuments == run.metadataChangedDocuments == 0)
            && (!report.snapshot ==> run.unchangedDocuments == run.deletedDocuments == 0)
            && (report.scan.None? ==> run.scannedDocuments == run.scannedBytes == 0)
  {
    hide Diff, StatesOf, ScannedBytes, KeyedByPath, FreshRun;
    if report.scan.Some? {
      ScannedBytesIsTotal(report.scan.value);
      if report.snapshot { CountsOfDiff(before, report.scan.value, ReportedRun(before, report)); }
    }
  }

  // ---------- Chunks ----------

  /** The number of chunks that a document is read into. */
  function ReadCount(r: Reader, scan: Scan): Path -> nat {
    (p: Path) => if p in scan && Read(r, scan[p]).Some? then |Read(r, scan[p]).value| else 0
  }

  /** The number of stored chunks of a document. */
  function StoredCount(t: Tables): Path -> nat {
    (p: Path) => if p in t.documents then |RowsOf(t.chunks, t.documents[p].id)| else 0
  }

  /** The scanned documents that are new or have other content. */
  ghost function FreshPaths(t: Tables, scan: Scan): set<Path> {
    set p | p in scan && (p !in t.documents || t.documents[p].contentHash != scan[p].contentHash)
  }

  /** The stored documents that are gone or have other content. */
  ghost function StalePaths(t: Tables, scan: Scan): set<Path> {
    set p | p in t.documents && (p !in scan || scan[p].contentHash != t.documents[p].contentHash)
  }

  ghost function KeptPaths(t: Tables, scan: Scan): set<Path> {
    set p | p in t.documents && p in scan && scan[p].contentHash == t.documents[p].contentHash
  }

  /** The rows that belong to documents at the given paths. */
  ghost function RowsAt(documents: map<Path, DocumentRow>, rows: seq<ChunkRow>, paths: set<Path>): set<int> {
    set i | 0 <= i < |rows| && BelongsTo(documents, rows[i], paths)
  }

  ghost predicate BelongsTo(documents: map<Path, DocumentRow>, row: ChunkRow, paths: set<Path>) {
    exists p | p in paths && p in documents :: documents[p].id == row.documentId
  }

  ghost predicate DistinctIds(documents: map<Path, DocumentRow>) {
    forall p, q | p in documents && q in documents && documents[p].id == documents[q].id :: p == q
  }

  function CountIn(documents: map<Path, DocumentRow>, rows: seq<ChunkRow>): Path -> nat {
    (p: Path) => if p in documents then |RowsOf(rows, documents[p].id)| else 0
  }

  lemma {:induction false} RowsOfSnoc(rows: seq<ChunkRow>, row: ChunkRow, id: nat)
    ensures |RowsOf(rows + [row], id)| == |RowsOf(rows, id)| + (if row.documentId == id then 1 else 0)
  {
    RowsOfAppend(rows, [row], id);
    assert [row][1..] == [];
    assert RowsOf([row][1..], id) == [];
  }

  /** Counting rows and adding up documents is the same. */
  lemma {:induction false} RowsAddUp(documents: map<Path, DocumentRow>, rows: seq<ChunkRow>, paths: set<Path>)
    requires DistinctIds(documents) && forall p | p in paths :: p in documents
    ensures |RowsAt(documents, rows, paths)| == Total(CountIn(documents, rows), paths)
  {
    hide RowsOf, BelongsTo;
    if rows == [] {
      assert RowsAt(documents, rows, paths) == {};
      forall p | p in paths ensures CountIn(documents, rows)(p) == 0 { RowsOfNone([], documents[p].id); }
      TotalOfZeros(CountIn(documents, rows), paths);
    } else {
      var n := |rows| - 1;
      RowsAddUp(documents, rows[..n], paths);
      OneMoreRow(documents, rows[..n], rows[n], paths);
      assert rows == rows[..n] + [rows[n]];
    }
  }

  lemma OneMoreRow(documents: map<Path, DocumentRow>, rows: seq<ChunkRow>, row: ChunkRow, paths: set<Path>)
    requires DistinctIds(documents) && forall p | p in paths :: p in documents
    ensures |RowsAt(documents, rows + [row], paths)|
         == |RowsAt(documents, rows, paths)| + (if BelongsTo(documents, row, paths) then 1 else 0)
    ensures Total(CountIn(documents, rows + [row]), paths)
         == Total(CountIn(documents, rows), paths) + (if BelongsTo(documents, row, paths) then 1 else 0)
  {
    hide RowsOf;
    var all, f, g := rows + [row], CountIn(documents, rows), CountIn(documents, rows + [row]);
    RowsAtSnoc(documents, rows, row, paths);
    forall p | p in paths ensures g(p) == f(p) + (if documents[p].id == row.documentId then 1 else 0) {
      RowsOfSnoc(rows, row, documents[p].id);
    }
    if BelongsTo(documents, row, paths) {
      var p :| p in paths && p in documents && documents[p].id == row.documentId;
      TotalGrows(f, g, paths, p);
    } else {
      TotalsAgree(f, g, paths);
    }
  }

  lemma RowsAtSnoc(documents: map<Path, DocumentRow>, rows: seq<ChunkRow>, row: ChunkRow, paths: set<Path>)
    ensures |RowsAt(documents, rows + [row], paths)|
         == |RowsAt(documents, rows, paths)| + (if BelongsTo(documents, row, paths) then 1 else 0)
  {
    hide BelongsTo;
    var all := rows + [row];
    forall i | 0 <= i < |rows| ensures all[i] == rows[i] {}
    assert all[|rows|] == row;
    assert RowsAt(documents, all, paths)
        == RowsAt(documents, rows, paths) + (if BelongsTo(documents, row, paths) then {|rows|} else {});
  }

  lemma {:induction false} EveryRowCounts(documents: map<Path, DocumentRow>, rows: seq<ChunkRow>, paths: set<Path>)
    requires forall i | 0 <= i < |rows| :: BelongsTo(documents, rows[i], paths)
    ensures |RowsAt(documents, rows, paths)| == |rows|
  {
    hide BelongsTo;
    if rows == [] {
      assert RowsAt(documents, rows, paths) == {};
    } else {
      var n := |rows| - 1;
      EveryRowCounts(documents, rows[..n], paths);
      RowsAtSnoc(documents, rows[..n], rows[n], paths);
      assert rows == rows[..n] + [rows[n]];
    }
  }

  /** Every chunk row belongs to exactly one document. */
  lemma AllRowsAddUp(t: Tables, nextId: nat)
    requires ValidTables(t, nextId)
    ensures |t.chunks| == Total(StoredCount(t), t.documents.Keys)
  {
    hide RowsOf;
    RowsAddUp(t.documents, t.chunks, t.documents.Keys);
    EveryRowCounts(t.documents, t.chunks, t.documents.Keys);
    TotalsAgree(StoredCount(t), CountIn(t.documents, t.chunks), t.documents.Keys);
  }

  ghost function PathsIn(items: seq<ScannedDocument>): set<Path> {
    set d | d in items :: d.path
  }

  lemma PathsInSnoc(items: seq<ScannedDocument>)
    requires items != [] && DistinctPaths(items)
    ensures var n := |items| - 1;
            && PathsIn(items) == PathsIn(items[..n]) + {items[n].path} && items[n].path !in PathsIn(items[..n])
            && DistinctPaths(items[..n])
  {
    var n := |items| - 1;
    assert items == items[..n] + [items[n]];
    forall d | d in items[..n] ensures d.path != items[n].path {
      var i :| 0 <= i < n && items[i] == d;
    }
  }

  lemma {:induction false} ChunksOfWorks(r: Reader, scan: Scan, items: seq<ScannedDocument>, works: seq<Work>)
    requires KeyedByPath(scan) && ReadFrom(r, items, works) && DistinctPaths(items)
    requires forall i | 0 <= i < |items| :: items[i].path in scan && items[i] == scan[items[i].path]
    ensures ChunkCount(works) == Total(ReadCount(r, scan), PathsIn(items))
  {
    hide Read, Total, DistinctPaths, PathsIn;
    if items == [] {
      NoPathsIn();
    } else {
      var n := |items| - 1;
      PathsInSnoc(items);
      ChunksOfWorks(r, scan, items[..n], works[..n]);
      TotalOfMore(ReadCount(r, scan), PathsIn(items[..n]), items[n].path);
    }
  }

  lemma NoPathsIn()
    ensures PathsIn([]) == {}
    ensures forall f: Path -> nat :: Total(f, {}) == 0
  {
  }

  /** The chunks embedded are those of the new and the changed documents. */
  lemma EmbeddedIsTotal(t: Tables, job: Job)
    requires KeyedByPath(job.scan) && JobWorks(t, job).Some?
    ensures ChunkCount(JobWorks(t, job).value)
         == Total(ReadCount(job.reader, job.scan), FreshPaths(t, job.scan))
  {
    hide Diff, StatesOf, ChunkCount, ReadCount, DistinctPaths, ReadFrom, ReadAll;
    var items, works := WorkItems(JobDiff(t, job)), JobWorks(t, job).value;
    ReadAllInOrder(job.reader, items);
    StatesOfAreKeyed(t);
    DiffMembers(job.scan, StatesOf(t));
    DiffByHashes(job.scan, StatesOf(t));
    WorkPaths(t, job.scan);
    ChunksOfWorks(job.reader, job.scan, items, works);
  }

  lemma WorkPaths(t: Tables, scan: Scan)
    requires KeyedByPath(scan)
    ensures var items := WorkItems(Diff(scan, StatesOf(t)));
            && PathsIn(items) == FreshPaths(t, scan)
            && (forall i | 0 <= i < |items| :: items[i].path in scan && items[i] == scan[items[i].path])
  {
    hide Diff;
    StatesOfAreKeyed(t);
    DiffByHashes(scan, StatesOf(t));
    var diff := Diff(scan, StatesOf(t));
    var items := WorkItems(diff);
    forall d | d in items ensures d.path in scan && d == scan[d.path] && d.path in FreshPaths(t, scan) {
      assert d in diff.newItems || d in diff.changedItems;
    }
    forall p | p in FreshPaths(t, scan) ensures p in PathsIn(items) {
      assert scan[p] in diff.newItems || scan[p] in diff.changedItems;
      assert scan[p] in items;
    }
  }

  lemma CorpusCounts(t: Tables, p: Path)
    ensures p in CorpusOf(t) <==> p in t.documents
    ensures p in CorpusOf(t) ==> |CorpusOf(t)[p].chunks| == StoredCount(t)(p)
  {
  }

  lemma ClassOfPath(t: Tables, scan: Scan, p: Path)
    requires p in scan
    ensures var class_ := Classify(scan, StatesOf(t), p);
            && (p in FreshPaths(t, scan) <==> class_ == New || class_ == Changed)
            && (p in KeptPaths(t, scan) <==> class_ == MetadataChanged || class_ == Unchanged)
  {
  }

  lemma FreshCount(e: Embedding, r: Reader, scan: Scan, p: Path)
    requires p in scan && Read(r, scan[p]).Some?
    ensures |Fresh(e, Work(scan[p], Read(r, scan[p]).value)).chunks| == ReadCount(r, scan)(p)
  {
  }

  /** What a success leaves at a path, in numbers of chunks. */
  lemma StoredAfter(t: Tables, job: Job, p: Path)
    requires ValidTables(t, job.firstId) && KeyedByPath(job.scan) && Feasible(t, job)
    ensures var after := AfterSuccess(t, job, JobWorks(t, job).value);
            && (p in after.documents <==> p in job.scan)
            && (p in FreshPaths(t, job.scan) ==> StoredCount(after)(p) == ReadCount(job.reader, job.scan)(p))
            && (p in KeptPaths(t, job.scan) ==> StoredCount(after)(p) == StoredCount(t)(p))
  {
    hide ValidTables, Feasible, JobWorks, AfterSuccess, StoredCount, ReadCount, CorpusOf, StatesOf, Classify, Fresh;
    hide KeptPaths, FreshPaths;
    FeasibleIsReadable(t, job);
    SuccessAdvances(t, job, p);
    CorpusCounts(t, p);
    CorpusCounts(AfterSuccess(t, job, JobWorks(t, job).value), p);
    if p in job.scan {
      ClassOfPath(t, job.scan, p);
      if p in FreshPaths(t, job.scan) { FreshCount(job.embedding, job.reader, job.scan, p); }
    }
    KeptIsScanned(t, job.scan, p);
  }

  lemma KeptIsScanned(t: Tables, scan: Scan, p: Path)
    ensures p in KeptPaths(t, scan) || p in FreshPaths(t, scan) ==> p in scan
  {
  }

  /** Stored and scanned paths, split by what becomes of them. */
  lemma PathsSplit(t: Tables, scan: Scan)
    ensures var read, stale, kept := FreshPaths(t, scan), StalePaths(t, scan), KeptPaths(t, scan);
            t.documents.Keys == stale + kept && scan.Keys == read + kept && stale !! kept && read !! kept
  {
  }

  /** The chunk rows before: those of stale and of kept documents. */
  lemma ChunksBefore(t: Tables, nextId: nat, scan: Scan)
    requires ValidTables(t, nextId)
    ensures |t.chunks| == Total(StoredCount(t), StalePaths(t, scan)) + Total(StoredCount(t), KeptPaths(t, scan))
  {
    hide ValidTables, StalePaths, KeptPaths, FreshPaths, StoredCount;
    AllRowsAddUp(t, nextId);
    PathsSplit(t, scan);
    TotalSplits(StoredCount(t), StalePaths(t, scan), KeptPaths(t, scan));
  }

  /** The chunk rows after a success: those that were read, and those of kept documents. */
  lemma ChunksAfter(t: Tables, job: Job)
    requires ValidTables(t, job.firstId) && KeyedByPath(job.scan) && Feasible(t, job)
    ensures |AfterSuccess(t, job, JobWorks(t, job).value).chunks|
         == Total(ReadCount(job.reader, job.scan), FreshPaths(t, job.scan))
            + Total(StoredCount(t), KeptPaths(t, job.scan))
  {
    hide ValidTables, KeyedByPath, Feasible, JobWorks, AfterSuccess, StoredCount, ReadCount;
    hide FreshPaths, KeptPaths, StalePaths, Total, ApplyAll, JobOps, SuccessRun, Diff, StatesOf, Acceptable;
    FeasibleIsReadable(t, job);
    var works := JobWorks(t, job).value;
    var after, read, kept := AfterSuccess(t, job, works), FreshPaths(t, job.scan), KeptPaths(t, job.scan);
    SuccessIsValid(t, job);
    AllRowsAddUp(after, job.firstId + |works|);
    forall p
      ensures p in after.documents <==> p in job.scan
      ensures p in read ==> StoredCount(after)(p) == ReadCount(job.reader, job.scan)(p)
      ensures p in kept ==> StoredCount(after)(p) == StoredCount(t)(p)
    {
      StoredAfter(t, job, p);
    }
    PathsSplit(t, job.scan);
    assert after.documents.Keys == job.scan.Keys;
    TotalSplits(StoredCount(after), read, kept);
    TotalsAgree(StoredCount(after), ReadCount(job.reader, job.scan), read);
    TotalsAgree(StoredCount(after), StoredCount(t), kept);
  }

  /** The chunks deleted are the stored chunks of the documents that are gone or changed. */
  lemma DeletedIsTotal(t: Tables, job: Job)
    requires ValidTables(t, job.firstId) && KeyedByPath(job.scan) && Feasible(t, job)
    ensures SuccessRun(t, job, JobWorks(t, job).value).deletedChunks
         == Total(StoredCount(t), StalePaths(t, job.scan))
  {
    hide ValidTables, KeyedByPath, Feasible, JobWorks, AfterSuccess, StoredCount, ReadCount, JobOps, JobDiff;
    hide ChunkCount, DeletedByAll, Batches, FreshPaths, StalePaths, KeptPaths, AllTexts, ScannedBytes;
    FeasibleIsReadable(t, job);
    Ledger.SuccessBalances(t, job);
    ChunksBefore(t, job.firstId, job.scan);
    ChunksAfter(t, job);
    EmbeddedIsTotal(t, job);
  }

  lemma {:induction false} TextsAreCounted(works: seq<Work>)
    ensures |AllTexts(works)| == ChunkCount(works)
  {
    if works != [] { TextsAreCounted(works[..|works| - 1]); }
  }

  lemma SuccessRecordIsExact(t: Tables, job: Job)
    requires ValidTables(t, job.firstId) && KeyedByPath(job.scan) && Feasible(t, job)
    ensures var run := SuccessRun(t, job, JobWorks(t, job).value);
            && CountsAll(t, job.scan, run)
            && run.embeddedChunks == Total(ReadCount(job.reader, job.scan), FreshPaths(t, job.scan))
            && run.deletedChunks == |RowsAt(t.documents, t.chunks, StalePaths(t, job.scan))|
            && run.embeddedChunks <= run.embeddingBatches * job.batchSize < run.embeddedChunks + job.batchSize
  {
    hide ValidTables, KeyedByPath, Feasible, JobWorks, Diff, StatesOf, DeletedByAll, ChunkCount, Batches, AllTexts;
    hide JobOps, ScannedBytes, CountsAll, FreshPaths, StalePaths, ReadCount, RowsAt;
    FeasibleIsReadable(t, job);
    var works := JobWorks(t, job).value;
    CountsOfDiff(t, job.scan, SuccessRun(t, job, works));
    EmbeddedIsTotal(t, job);
    DeletedIsTotal(t, job);
    StaleRows(t, job.firstId, job.scan);
    TextsAreCounted(works);
    BatchArithmetic(AllTexts(works), job.batchSize);
  }

  lemma StaleRows(t: Tables, nextId: nat, scan: Scan)
    requires ValidTables(t, nextId)
    ensures |RowsAt(t.documents, t.chunks, StalePaths(t, scan))| == Total(StoredCount(t), StalePaths(t, scan))
  {
    hide RowsOf;
    RowsAddUp(t.documents, t.chunks, StalePaths(t, scan));
    TotalsAgree(StoredCount(t), CountIn(t.documents, t.chunks), StalePaths(t, scan));
  }

  /** The record of a completed run: every count is what the scan, the tables and the documents say. Deleted are
      the rows of documents that are gone or have other content; embedded are the chunks of documents that are new
      or have other content; and the batches are as few as their size allows. */
  lemma CompletedRunIsExact(before: Tables, job: Job, after: Tables)
    requires ValidTables(before, job.firstId) && KeyedByPath(job.scan) && Succeeds(before, job, after)
    ensures |after.runs| == |before.runs| + 1 && before.runs <= after.runs
    ensures var run := after.runs[|before.runs|];
            && run.runId == job.runId && run.source == job.source && run.status == Succeeded
            && CountsAll(before, job.scan, run)
            && run.embeddedChunks == Total(ReadCount(job.reader, job.scan), FreshPaths(before, job.scan))
            && run.deletedChunks == |RowsAt(before.documents, before.chunks, StalePaths(before, job.scan))|
            && run.embeddedChunks <= run.embeddingBatches * job.batchSize < run.embeddedChunks + job.batchSize
  {
    hide ValidTables, KeyedByPath, Feasible, JobWorks, Diff, StatesOf, DeletedByAll, ChunkCount, Batches, AllTexts;
    hide JobOps, ScannedBytes, CountsAll, FreshPaths, StalePaths, ReadCount, RowsAt, ApplyAll;
    FeasibleIsReadable(before, job);
    SuccessRecordIsExact(before, job);
    OpsKeepRuns(before, JobOps(before, job, JobWorks(before, job).value));
  }
}
