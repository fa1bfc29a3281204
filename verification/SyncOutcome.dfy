/** What a successful run leaves in the tables, path by path, and in which order it gets there: from the scan, the
    tables and the documents alone. */
module SyncOutcome {
  import opened Sequences
  import opened Strings
  import opened Models
  import opened SourceDiffing
  import opened StoreTables
  import opened PgStore
  import opened SyncPlan
  import opened StoreSteps
  import opened Pipeline
  import opened SyncEffects
  import opened Synchronization
  import opened SyncCorpus
  import opened History
  import opened RunRecords

  // ---------- Order ----------

  /** The documents are taken up in this order: new ones before changed ones, and each kind by path. */
  lemma WorkOrder(t: Tables, job: Job, i: nat, j: nat)
    requires KeyedByPath(job.scan) && i < j < |WorkItems(JobDiff(t, job))|
    ensures var p, q := WorkItems(JobDiff(t, job))[i].path, WorkItems(JobDiff(t, job))[j].path;
            && p in job.scan && q in job.scan && p != q
            && (p in t.documents ==> q in t.documents)
            && ((p in t.documents <==> q in t.documents) ==> Le(p.text, q.text))
  {
    hide Diff, Le;
    var diff := JobDiff(t, job);
    var items := WorkItems(diff);
    StatesOfAreKeyed(t);
    DiffByHashes(job.scan, StatesOf(t));
    DiffAscends(job.scan, StatesOf(t));
    assert items[i] in diff.newItems || items[i] in diff.changedItems;
    assert items[j] in diff.newItems || items[j] in diff.changedItems;
  }

  /** Each of them is read once, in this order. */
  lemma WorksAreRead(t: Tables, job: Job)
    requires JobWorks(t, job).Some?
    ensures var items, works := WorkItems(JobDiff(t, job)), JobWorks(t, job).value;
            && |works| == |items|
            && forall k | 0 <= k < |works| ::
                 && works[k].item == items[k] && job.reader.load(items[k]).Some?
                 && job.reader.chunk(job.reader.load(items[k]).value) == Some(works[k].chunks)
  {
    hide Diff, StatesOf;
    ReadAllInOrder(job.reader, WorkItems(JobDiff(t, job)));
  }

  /** The embedding calls of a run, taken together, carry the texts of all chunks in order: document after document,
      chunk after chunk. */
  lemma CallsInOrder(t: Tables, job: Job, i: nat, j: nat)
    requires job.batchSize > 0 && JobWorks(t, job).Some?
    requires i < |JobWorks(t, job).value| && j < |JobWorks(t, job).value[i].chunks|
    ensures var works, texts := JobWorks(t, job).value, Flatten(JobCalls(t, job));
            && |texts| == ChunkCount(works) && ChunkCount(works[..i]) + j < |texts|
            && texts[ChunkCount(works[..i]) + j] == works[i].chunks[j].text
  {
    hide JobWorks, Batches, AllTexts;
    var works := JobWorks(t, job).value;
    BatchesFlatten(AllTexts(works), job.batchSize);
    TextsInOrder(works, i, j);
  }

  lemma {:induction false} TextsInOrder(works: seq<Work>, i: nat, j: nat)
    requires i < |works| && j < |works[i].chunks|
    ensures |AllTexts(works)| == ChunkCount(works) && ChunkCount(works[..i]) + j < ChunkCount(works)
    ensures AllTexts(works)[ChunkCount(works[..i]) + j] == works[i].chunks[j].text
  {
    var n := |works| - 1;
    TextsAreCounted(works);
    TextsAreCounted(works[..n]);
    if i < n {
      TextsInOrder(works[..n], i, j);
      assert works[..n][..i] == works[..i];
    }
  }

  lemma {:induction false} UpdateOpsAt(previous: States, items: seq<ScannedDocument>, k: nat)
    requires k < |items| && forall i | 0 <= i < |items| :: items[i].path in previous
    ensures |UpdateOps(previous, items)| == |items|
    ensures UpdateOps(previous, items)[k]
         == Update(previous[items[k].path].id, items[k].metadata, items[k].metadataHash)
    decreases |items|
  {
    var n := |items| - 1;
    if n > 0 { UpdateOpsAt(previous, items[..n], if k < n then k else 0); }
  }

  lemma {:induction false} DeleteOpsAt(states: seq<DocumentState>, k: nat)
    requires k < |states|
    ensures |DeleteOps(states)| == |states| && DeleteOps(states)[k] == Delete(states[k].id)
    decreases |states|
  {
    var n := |states| - 1;
    if n > 0 { DeleteOpsAt(states[..n], if k < n then k else 0); }
  }

  lemma NoOps(previous: States)
    ensures UpdateOps(previous, []) == [] && DeleteOps([]) == []
  {
  }

  /** The plan starts with one update for each document whose metadata alone changed, then comes one deletion for
      each document that is gone, then the documents that are stored. */
  lemma PlanOrder(t: Tables, job: Job, k: nat)
    requires KeyedByPath(job.scan) && JobWorks(t, job).Some?
    ensures var diff, ops := JobDiff(t, job), JobOps(t, job, JobWorks(t, job).value);
            var updates, deletions := |diff.metadataItems|, |diff.deletedStates|;
            && updates + deletions <= |ops|
            && (k < updates ==>
                && diff.metadataItems[k].path in t.documents
                && ops[k] == Update(t.documents[diff.metadataItems[k].path].id, diff.metadataItems[k].metadata,
                                    diff.metadataItems[k].metadataHash))
            && (updates <= k < updates + deletions ==>
                && diff.deletedStates[k - updates].path in t.documents
                && ops[k] == Delete(t.documents[diff.deletedStates[k - updates].path].id))
  {
    hide Diff, StoreAllOps, UpdateOps, DeleteOps, JobWorks;
    var diff, previous := JobDiff(t, job), StatesOf(t);
    var updates := |diff.metadataItems|;
    UpdatesHaveStates(t, job.scan);
    StatesOfAreKeyed(t);
    DiffMembers(job.scan, previous);
    NoOps(previous);
    if updates > 0 { UpdateOpsAt(previous, diff.metadataItems, if k < updates then k else 0); }
    if |diff.deletedStates| > 0 {
      var at := if updates <= k < updates + |diff.deletedStates| then k - updates else 0;
      DeleteOpsAt(diff.deletedStates, at);
      assert diff.deletedStates[at] in diff.deletedStates;
    }
  }

  // ---------- What is stored ----------

  /** A document that is new or has other content is stored as scanned and read: the k-th one taken up gets the
      k-th new id, and its i-th chunk the vector of its own text. */
  predicate StoredAsRead(job: Job, after: Tables, p: Path, k: nat, chunks: seq<Chunk>)
    requires p in job.scan && p in after.documents
  {
    var row, d, doc := after.documents[p], job.scan[p], CorpusOf(after)[p];
    && row.id == job.firstId + k && row.contentHash == d.contentHash && row.mediaType == d.mediaType
    && row.sizeBytes == d.sizeBytes && row.metadata == d.metadata && row.metadataHash == d.metadataHash
    && |doc.chunks| == |chunks|
    && forall i | 0 <= i < |chunks| ::
         && doc.chunks[i].index == chunks[i].index && doc.chunks[i].text == chunks[i].text
         && doc.chunks[i].contentHash == chunks[i].contentHash && doc.chunks[i].model == job.embedding.model
         && doc.chunks[i].vector == job.embedding.vector(chunks[i].text)
  }

  /** A document with the same content keeps its row, its chunks and its id; its metadata is the scanned one when
      the hash differs. */
  predicate KeptAsStored(t: Tables, job: Job, after: Tables, p: Path)
    requires p in job.scan && p in t.documents && p in after.documents
  {
    var row, old_, d := after.documents[p], t.documents[p], job.scan[p];
    && row.id == old_.id && row.contentHash == old_.contentHash && row.mediaType == old_.mediaType
    && row.sizeBytes == old_.sizeBytes && CorpusOf(after)[p].chunks == CorpusOf(t)[p].chunks
    && row.metadataHash == d.metadataHash
    && row.metadata == if old_.metadataHash != d.metadataHash then d.metadata else old_.metadata
  }

  /** The tables after a success, at every path. */
  lemma DocumentAfterSync(t: Tables, job: Job, after: Tables, p: Path) returns (k: nat)
    requires ValidTables(t, job.firstId) && KeyedByPath(job.scan) && Succeeds(t, job, after)
    ensures p in after.documents <==> p in job.scan
    ensures p in job.scan ==>
              var works := JobWorks(t, job).value;
              if p in t.documents && t.documents[p].contentHash == job.scan[p].contentHash
              then KeptAsStored(t, job, after, p)
              else k < |works| && works[k].item.path == p && StoredAsRead(job, after, p, k, works[k].chunks)
  {
    hide ValidTables, Feasible, JobWorks, AfterSuccess, CorpusOf, StatesOf, Classify, Diff, FreshRun, StoredAsRead,
      KeptAsStored, KeyedByPath, CorpusRow;
    FeasibleIsReadable(t, job);
    k := WorkIndex(t, job, p);
    SuccessAdvances(t, job, p);
    SuccessIds(t, job, p, k);
    RowsShow(t, p);
    RowsShow(after, p);
    if p in job.scan {
      ClassShows(t, job.scan, p);
      if p in t.documents && t.documents[p].contentHash == job.scan[p].contentHash {
        KeptShows(t, job, after, p);
      } else {
        StoredShows(t, job, after, p, k);
      }
    }
  }

  lemma WorkIndex(t: Tables, job: Job, p: Path) returns (k: nat)
    requires KeyedByPath(job.scan) && JobWorks(t, job).Some?
    ensures p in job.scan && (p !in t.documents || t.documents[p].contentHash != job.scan[p].contentHash) ==>
              && k < |JobWorks(t, job).value| && JobWorks(t, job).value[k].item == job.scan[p]
              && Read(job.reader, job.scan[p]) == Some(JobWorks(t, job).value[k].chunks)
              && job.scan[p].path == p
  {
    hide Diff, Read, ReadFrom, ReadAll;
    ReadAllInOrder(job.reader, WorkItems(JobDiff(t, job)));
    k := WorkAt(t, job.reader, job.scan, JobWorks(t, job).value, p);
  }

  lemma RowsShow(t: Tables, p: Path)
    ensures p in CorpusOf(t) <==> p in t.documents
    ensures p in t.documents ==>
              var row, doc := t.documents[p], CorpusOf(t)[p];
              && doc.contentHash == row.contentHash && doc.mediaType == row.mediaType && doc.sizeBytes == row.sizeBytes
              && doc.metadata == row.metadata && doc.metadataHash == row.metadataHash
  {
  }

  lemma ClassShows(t: Tables, scan: Scan, p: Path)
    requires p in scan
    ensures Classify(scan, StatesOf(t), p)
         == (if p !in t.documents then New
             else if t.documents[p].contentHash != scan[p].contentHash then Changed
             else if t.documents[p].metadataHash != scan[p].metadataHash then MetadataChanged
             else Unchanged)
  {
  }

  /** Stored documents get the new ids in order; the others keep theirs. */
  lemma SuccessIds(t: Tables, job: Job, p: Path, k: nat)
    requires ValidTables(t, job.firstId) && KeyedByPath(job.scan) && Feasible(t, job)
    ensures var works := JobWorks(t, job).value;
            var after := AfterSuccess(t, job, works);
            && (k < |works| && works[k].item.path == p ==>
                p in after.documents && after.documents[p].id == job.firstId + k)
            && (p in t.documents && p in job.scan && t.documents[p].contentHash == job.scan[p].contentHash ==>
                p in after.documents && after.documents[p].id == t.documents[p].id)
  {
    hide ValidTables, Feasible, JobWorks, CorpusOf, Diff, KeptView, StatesOf, Classify, SuccessRun, Reaches, ApplyAll;
    hide JobOps, AllStored, Storable, ReadFrom, KeyedByPath, AllStorable;
    FeasibleIsReadable(t, job);
    var works := JobWorks(t, job).value;
    var d := SuccessReaches(t, job);
    ReachedFacts(t, JobOps(t, job, works), job.firstId + |works|,
                 PlannedView(t, job.embedding, job.firstId, JobDiff(t, job), works), d, ChunkCount(works));
    var kept := KeptView(t, JobDiff(t, job));
    forall q ensures q in kept.ids <==> q in t.documents && q in job.scan { KeptAt(t, job.scan, q); }
    KeptAt(t, job.scan, p);
    FeasibleIsStorable(t, job);
    WorksAreStoring(t, job.reader, job.scan, works, kept.ids);
    var i := WorkAt(t, job.reader, job.scan, works, p);
    if k < |works| && works[k].item.path == p { StoredAt(kept, job.embedding, job.firstId, works, k); }
    if p in t.documents && p in job.scan && t.documents[p].contentHash == job.scan[p].contentHash {
      ClassShows(t, job.scan, p);
      StoredElsewhere(kept, job.embedding, job.firstId, works, p);
    }
    IdsShow(t, p);
    IdsShow(AfterSuccess(t, job, works), p);
    IdsShow(ApplyAll(t, JobOps(t, job, works)), p);
  }

  lemma FeasibleIsStorable(t: Tables, job: Job)
    requires Feasible(t, job)
    ensures AllStorable(JobWorks(t, job).value)
  {
  }

  lemma IdsShow(t: Tables, p: Path)
    ensures p in IdsOf(t) <==> p in t.documents
    ensures p in t.documents ==> IdsOf(t)[p] == t.documents[p].id
  {
  }

  lemma KeptShows(t: Tables, job: Job, after: Tables, p: Path)
    requires p in job.scan && p in t.documents && p in after.documents
    requires t.documents[p].contentHash == job.scan[p].contentHash && after.documents[p].id == t.documents[p].id
    requires Advances(CorpusOf(t), CorpusOf(after), job.embedding, job.reader, job.scan, StatesOf(t), p)
    ensures KeptAsStored(t, job, after, p)
  {
    hide RowsOf, WithoutIds;
    ClassShows(t, job.scan, p);
    RowsShow(t, p);
    RowsShow(after, p);
  }

  lemma StoredShows(t: Tables, job: Job, after: Tables, p: Path, k: nat)
    requires p in job.scan && p in after.documents && JobWorks(t, job).Some? && k < |JobWorks(t, job).value|
    requires p !in t.documents || t.documents[p].contentHash != job.scan[p].contentHash
    requires after.documents[p].id == job.firstId + k
    requires Read(job.reader, job.scan[p]) == Some(JobWorks(t, job).value[k].chunks)
    requires Advances(CorpusOf(t), CorpusOf(after), job.embedding, job.reader, job.scan, StatesOf(t), p)
    ensures StoredAsRead(job, after, p, k, JobWorks(t, job).value[k].chunks)
  {
    hide RowsOf, Read, JobWorks, CorpusOf;
    ClassShows(t, job.scan, p);
    RowsShow(after, p);
  }

  // ---------- Statements ----------

  /** The works that have chunks. */
  ghost function Chunked(works: seq<Work>): set<int> {
    set k | 0 <= k < |works| && works[k].chunks != []
  }

  /** The works that replace a stored document. */
  ghost function Replacing(previous: States, works: seq<Work>): set<int> {
    set k | 0 <= k < |works| && works[k].item.path in previous
  }

  lemma {:induction false} StoreCallsAddUp(previous: States, works: seq<Work>)
    ensures AllStoreCalls(previous, works) == 2 * |Replacing(previous, works)| + 2 * |works| + |Chunked(works)|
  {
    hide Chunked, Replacing;
    if works == [] {
      NoWorks(previous);
    } else {
      StoreCallsAddUp(previous, works[..|works| - 1]);
      OneMoreChunked(works);
      OneMoreReplacing(previous, works);
    }
  }

  lemma OneMoreChunked(works: seq<Work>)
    requires works != []
    ensures var n := |works| - 1;
            |Chunked(works)| == |Chunked(works[..n])| + (if works[n].chunks != [] then 1 else 0)
  {
    var n := |works| - 1;
    assert forall k | 0 <= k < n :: works[..n][k] == works[k];
    if works[n].chunks != [] {
      assert Chunked(works) == Chunked(works[..n]) + {n};
    } else {
      assert Chunked(works) == Chunked(works[..n]);
    }
  }

  lemma OneMoreReplacing(previous: States, works: seq<Work>)
    requires works != []
    ensures var n := |works| - 1;
            |Replacing(previous, works)|
            == |Replacing(previous, works[..n])| + (if works[n].item.path in previous then 1 else 0)
  {
    var n := |works| - 1;
    assert forall k | 0 <= k < n :: works[..n][k] == works[k];
    if works[n].item.path in previous {
      assert Replacing(previous, works) == Replacing(previous, works[..n]) + {n};
    } else {
      assert Replacing(previous, works) == Replacing(previous, works[..n]);
    }
  }

  lemma NoWorks(previous: States)
    ensures Chunked([]) == {} && Replacing(previous, []) == {}
  {
  }

  /** The statements of a successful job: the snapshot; one for every metadata update; two for every deletion, of a
      document that is gone or replaced; two for every document stored and one more for its chunks, if it has any;
      and the run record. */
  lemma StatementsAddUp(t: Tables, job: Job)
    requires JobWorks(t, job).Some?
    ensures var works := JobWorks(t, job).value;
            StatementCount(t, job)
            == 1 + |JobDiff(t, job).metadataItems|
               + 2 * (|JobDiff(t, job).deletedStates| + |set k | 0 <= k < |works| && works[k].item.path in t.documents|)
               + 2 * |works| + |set k | 0 <= k < |works| && works[k].chunks != []| + 1
  {
    hide Diff, ReadAll, AllStoreCalls;
    var works := JobWorks(t, job).value;
    StoreCallsAddUp(StatesOf(t), works);
    assert Replacing(StatesOf(t), works) == (set k | 0 <= k < |works| && works[k].item.path in t.documents);
  }
}
