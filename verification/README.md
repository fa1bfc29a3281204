# A verified model of ragpipe

ragpipe keeps a PostgreSQL/pgvector database in step with a folder or an S3 prefix: it scans the
source, compares the scan with what is stored, and loads, chunks, embeds and stores what is new or
changed, all in one transaction under an advisory lock. This project models that machinery in Dafny
and proves what it promises. `dafny verify dfyconfig.toml` checks everything.

## How the model is organised

- **Synchronization.** `SourceDiffing` is the five-way diff; `StoreTables` the three tables as a value,
  with the effect of every SQL statement on the corpus; `PgStore` the store as an object with a
  committed and a working copy, statements that may fail, and a commit that may be refused or lose its
  reply; `EmbeddingProvider` a provider that may raise or return the wrong number of vectors.
  `EmbeddingQueue` and `Pipeline` are the two-buffer streaming loop over mutable objects, `Synchronization`
  is `SyncPipeline.sync` as a whole. The specification is `SyncPlan`: the list of store operations that
  loading, chunking, embedding and storing one document at a time would carry out. `SyncOutcome` and
  `RunRecords` say what a run leaves behind, rows and record, from the scan and the tables alone.
- **Effects and histories.** `SyncEffects` and `SyncCorpus` say what the plan does to the corpus, path by
  path. `History` replays arbitrary histories of successes, failures and rejected attempts; `SyncHistory`
  ties every call of the imperative `sync` to one event of a history. On top: `Rebuilding` (incremental
  equals rebuild, what is stored), `Ledger` (the run history accounts for the store). `SyncWitnesses` proves
  what `sync` does on the three inputs named below.
- **Concurrency.** `Protocol` is a step system with any number of processes, crashes and readers;
  `ProtocolProgress` shows that every job that can be done has a way to its commit; `ConcurrentCorpus`
  carries the history theorems over.
- **Chunking.** `Chunking` is `RecursiveCharacterChunker`; `ChunkShape`, `ChunkConservation` and
  `ChunkOptimality` prove length bounds, overlap, conservation of text and optimality of the greedy merge;
  `ChunkCharacters`, `ChunkVanishing`, `ChunkStops` and `ChunkWords` say exactly which characters, documents,
  full stops and words survive; `LineEnds`, `ChunkLevels` and `ChunkGreedy` what each step makes of its input.
- **Metadata and S3.** `CanonicalJson` is the canonical text that is hashed, `JsonReader` an independent reader
  of JSON, and `CanonicalJsonProofs` reads the text back with it. `SafePaths`, `Manifest`, `S3Source`,
  `S3Scans`, `S3Coherence`, `S3Synchronization`: path checks, the metadata manifest, a source whose bucket may
  answer every request differently, what a scan takes from which answer, and `sync` on that source.
- **Retrieval.** `RankedSearch` is exact top-k search, `Evaluation` the evaluator and its metrics.

What a scan, a load, the chunker, each embedding call, each database call and each commit will do is a
parameter, so the theorems hold for every pattern of failures. SHA-256 is an arbitrary function; where a
theorem needs it to have no collisions it says so. The embedding model, media types, text extraction and
JSON decoding are arbitrary functions too.

## What the proofs brought to light

- The length bound of a chunk is not `chunk_size`: it is `chunk_size + overlap + 1` when there is an
  overlap, and that is attained (`ChunkShape.BoundIsAttained`).
- Splitting on `". "` loses full stops: with size 5 and no overlap, `"aaa. bbb"` becomes `"aaa"` and
  `"bbb"` (`ChunkStops.StopsCanBeLost`). Without overlap nothing visible is lost if and only if no line
  longer than the chunk size contains `". "` (`ChunkStops.StopsAreKept`).
- A document whose text is not blank can have no chunks at all, if a separator has no white space at its
  edges (`ChunkVanishing.HarmfulSeparatorSwallows`); for a single separator the condition is exact
  (`ChunkVanishing.OneSeparator`). The default separators are harmless
  (`ChunkVanishing.DefaultsAreHarmless`).
- A text file with the character U+0000 cannot be stored, so its run fails: the TEXT and JSONB columns
  refuse the character, decoding keeps it, and so do the chunks (`Rebuilding.PlainDocumentsAreAcceptable`,
  `ChunkCharacters.CharactersSurvive`).
- The path check of the manifest and of the S3 source accepts `"."` (`SafePaths.AcceptedPaths`).
- `operational_metrics` adds up `new_documents` and `deleted_documents` over failed runs as well, whose
  counts were never applied, so these totals account for the stored documents if and only if they cancel
  out (`Ledger.DocumentTotalsBalance`); they do not after one new document that cannot be read
  (`SyncWitnesses.UnreadableDocument`).
- `transaction()` notes its connection before it registers the vector type on it, and only what comes after is
  guarded. When the registration fails, the store object refuses every further transaction, the failure
  record's included, however reliable the database has become (`SyncWitnesses.SyncOnJammedStore`, with an
  input in `SyncWitnesses.FailedRegistration`). It happens exactly when a registration fails
  (`Synchronization.Synchronize`).
- When the reply to a successful commit gets lost, `sync` raises SyncFailedError although the changes and
  the succeeded record are stored; the failure record is then refused because its id is taken. This happens
  exactly when the commit of the whole plan is reached and its reply gets lost
  (`Synchronization.Synchronize`, on an input in `SyncWitnesses.LostReply`).

## Model

| member | source | states |
|---|---|---|
| SourceDiffing.DiffSource | ragpipe/ingest/source_scanner.py:86-115 | the loop computes the five lists of Diff, in path order |
| SourceDiffing.DiffMembers | ragpipe/ingest/source_scanner.py:95-107 | membership of each class exactly (if and only if), no path twice, deleted = stored but not scanned |
| SourceDiffing.DiffCounts | ragpipe/ingest/source_scanner.py:95-105 | the four scanned classes add up to the scan |
| Ledger.PreviousIsCovered | ragpipe/ingest/source_scanner.py:95-107 | changed, metadata-changed, unchanged and deleted add up to the stored documents |
| SourceDiffing.SortedPathsAscend | ragpipe/ingest/source_scanner.py:95-107 | the paths are visited in strictly ascending code-point order |
| SourceDiffing.DiffAscends | ragpipe/ingest/source_scanner.py:95-107 | each of the five lists ascends strictly by path, in code-point order |
| SourceDiffing.DiffByHashes | ragpipe/ingest/source_scanner.py:95-107 | what is in each list, from presence and the two hashes alone |
| SourceDiffing.DiffSizes | ragpipe/ingest/source_scanner.py:95-107 | the length of each list is the number of paths of that kind |
| Strings.LeByFirstDifference | ragpipe/ingest/source_scanner.py:95-95 | the order of paths: a proper prefix comes first, otherwise the first differing character decides |
| StoreTables.DeleteCorpus | ragpipe/store/pgvector_store.py:197-206 | deleting by id takes exactly one document and its chunks out of the corpus (cascade) |
| StoreTables.DeleteTables | ragpipe/store/pgvector_store.py:197-206 | the other rows stay, the tables stay sound, and the number of chunks falls by the count returned |
| StoreTables.InsertCorpus | ragpipe/store/pgvector_store.py:227-286 | inserting under a fresh id puts exactly the document with its chunks and vectors, in order, into the corpus |
| StoreTables.UpdateCorpus | ragpipe/store/pgvector_store.py:290-314 | a metadata update touches the metadata of one document only; id and chunks stay |
| PgStore.Store.TryLock | ragpipe/store/pgvector_store.py:121-141 | the lock is acquired exactly when nobody holds it; a failed attempt changes nothing |
| PgStore.Store.Begin | ragpipe/store/pgvector_store.py:169-180 | a transaction starts from the committed tables; nested ones are refused, and so is every one after a failed registration |
| PgStore.Store.Commit | ragpipe/store/pgvector_store.py:176-180 | all of the working copy becomes visible, or nothing |
| PgStore.Store.Rollback | ragpipe/store/pgvector_store.py:176-180 | the working copy is dropped, the committed tables stay |
| PgStore.Store.DocumentStates | ragpipe/store/pgvector_store.py:182-195 | the snapshot shows the id and hashes of every stored document; outside a transaction it raises |
| PgStore.Store.DeleteDocument | ragpipe/store/pgvector_store.py:197-206 | the delete operation and the number of chunks it removed, unless one of its two statements fails |
| PgStore.Store.ReplaceDocument | ragpipe/store/pgvector_store.py:208-288 | goes through if and only if no statement fails, chunks and vectors pair up and the schema accepts them; then old version out, new one in under a fresh id; no statement is sent for an empty chunk list |
| PgStore.Store.UpdateDocumentMetadata | ragpipe/store/pgvector_store.py:290-314 | raises unless exactly one row has the id, otherwise the update operation |
| PgStore.Store.RecordRun | ragpipe/store/pgvector_store.py:316-383 | appends the record; a run id that is already there is refused |
| EmbeddingProvider.Embedder.Embed | ragpipe/embedding/base.py:15-15 | one more call with these texts; it may raise or return the wrong number of vectors, and otherwise gives each text its vector |
| EmbeddingQueue.FirstWaiting | ragpipe/pipeline.py:155-160 | giving a vector to the first waiting chunk completes the queue by exactly that chunk |
| EmbeddingQueue.GiveVectors | ragpipe/pipeline.py:155-160 | every pending chunk's vector goes to its own document; only the rest still waits |
| EmbeddingQueue.Push | ragpipe/pipeline.py:195-199 | a new document joins the end of the queue with all its chunks waiting |
| EmbeddingQueue.Pop | ragpipe/pipeline.py:169-174 | a complete document can leave the head without disturbing the rest |
| EmbeddingQueue.Buffers.FlushEmbeddingBatch | ragpipe/pipeline.py:134-162 | nothing pending: no call; otherwise one call with the pending texts, delivered in order, and the batch is emptied |
| EmbeddingQueue.Buffers.PopLeft | ragpipe/pipeline.py:169-175 | the document leaves with the vectors of all its chunks, in chunk order |
| EmbeddingQueue.NonEmptyDocumentsWait | ragpipe/pipeline.py:164-209 | once the head is incomplete, every queued document with chunks has one waiting |
| Pipeline.StoreCompletedDocuments | ragpipe/pipeline.py:164-192 | complete documents are stored in queue order until the head is incomplete |
| Pipeline.HandleDocument | ragpipe/pipeline.py:194-209 | one document: every embedding call is a full batch, less than a batch stays pending, no complete document at the head |
| Pipeline.QueueStaysSmall | ragpipe/pipeline.py:194-209 | bounded memory: between documents the non-empty queued ones are no more than the pending chunks, fewer than a batch |
| Pipeline.DrainedQueueIsEmpty | ragpipe/pipeline.py:211-215 | after the last flush the queue is empty |
| Pipeline.Drain | ragpipe/pipeline.py:211-215 | the guard "Could not map all embeddings" never fires; the calls made are the batches of all texts; it succeeds if and only if all of them are answered and all documents accepted |
| Pipeline.StreamAll | ragpipe/pipeline.py:194-209 | the documents are taken up in the order new, changed, each with the chunks that reading it yields; it fails only when one cannot be read or stored or a full batch is not answered |
| StoreSteps.ReplaceVersion | ragpipe/pipeline.py:175-192 | a stored version is deleted, by its id in the snapshot, before the new one is inserted; deleted chunks are counted |
| Synchronization.ApplyUpdates | ragpipe/pipeline.py:117-126 | all metadata updates in order; it succeeds if and only if all are enabled and no statement fails |
| Synchronization.ApplyDeletions | ragpipe/pipeline.py:128-129 | all deletions in order, and the exact number of chunks deleted, if and only if no statement fails |
| Synchronization.Stream | ragpipe/pipeline.py:131-215 | the buffered loop leaves tables and counters exactly where one document at a time would, for every batch size; it succeeds if and only if all documents can be read and stored, no statement fails, and every batch is answered |
| SyncPlan.OneByOneRunsTheOps | ragpipe/pipeline.py:164-192 | handling one document at a time carries out exactly the operations of the plan, with the same counts |
| Synchronization.PlanInThreeParts | ragpipe/pipeline.py:117-212 | updates, then deletions, then the documents: together the plan, with its deleted and embedded counts |
| SyncPlan.BatchesFlatten | ragpipe/pipeline.py:134-162 | cutting into batches loses and reorders nothing |
| SyncPlan.BatchArithmetic | ragpipe/pipeline.py:134-162 | N texts make ceil(N / B) batches, none empty, all but the last of size B |
| SyncPlan.FullBatchesThenRest | ragpipe/pipeline.py:201-212 | full batches and a final partial one are the batches of the concatenated texts |
| Synchronization.UpdatesGoThrough | ragpipe/pipeline.py:117-126 | the updates planned from the snapshot go through if and only if the new metadata can be stored |
| Synchronization.RowCountIsOne | ragpipe/store/pgvector_store.py:313-314 | the row-count check never fails: every id of the snapshot is still there when used |
| Synchronization.Transact | ragpipe/pipeline.py:107-243 | success, if and only if the job can be done and nothing hinders it: the whole plan and the record with exact counts; failure: the counts of the scan alone when the snapshot failed, otherwise exactly those of scan and diff |
| Synchronization.RecordFailure | ragpipe/pipeline.py:267-279 | adds the failure record exactly when its id is new and its transaction goes through, and otherwise nothing |
| Synchronization.Synchronize | ragpipe/pipeline.py:83-308 | rejected: nothing changes; the commit is reached if and only if the lock is free, the scan succeeds, every document can be read and stored, and no call up to it fails; completed: plan, record and embedding calls; failed: exactly its own record or nothing, by the calls that follow, except exactly when the commit's reply gets lost |
| SyncWitnesses.LostReply | ragpipe/pipeline.py:107-290 | an input on which sync raises SyncFailedError although document and succeeded record are stored |
| SyncWitnesses.SyncOnJammedStore | ragpipe/store/pgvector_store.py:169-180 | after a failed registration no sync on that store object succeeds or leaves a record, whatever its inputs |
| SyncWitnesses.FailedRegistration | ragpipe/store/pgvector_store.py:169-180 | an input where it comes to that: one failing call, and every later run fails |
| SyncEffects.UpdatePhase | ragpipe/pipeline.py:117-126 | all updates go through, ids stay, no chunk is touched |
| SyncEffects.DeletePhase | ragpipe/pipeline.py:128-129 | all deletions go through and the returned counts add up |
| SyncEffects.StorePhase | ragpipe/pipeline.py:175-192 | all new and changed documents go through with the stale ids of the snapshot |
| SyncCorpus.PlanReaches | ragpipe/pipeline.py:107-215 | the whole plan goes through; chunk rows change by embedded minus deleted |
| SyncCorpus.PlanAdvances | ragpipe/pipeline.py:107-215 | the corpus after the plan at every path: gone, stored afresh, metadata refreshed, or untouched |
| SyncOutcome.WorkOrder | ragpipe/pipeline.py:194-209 | documents are taken up new before changed, and each kind by path |
| SyncOutcome.WorksAreRead | ragpipe/pipeline.py:164-209 | each of them is loaded and chunked once, in that order |
| SyncOutcome.CallsInOrder | ragpipe/pipeline.py:134-209 | the embedding calls together carry the texts of all chunks, document after document and chunk after chunk |
| SyncOutcome.PlanOrder | ragpipe/pipeline.py:117-215 | the operations of a run position by position: metadata updates by path, then deletions by path, then the documents |
| SyncOutcome.DocumentAfterSync | ragpipe/store/pgvector_store.py:208-314 | the rows of each document after a success: stored as read under the next free id, kept with the scanned metadata, or gone; nothing else |
| SyncOutcome.StatementsAddUp | ragpipe/store/pgvector_store.py:182-288 | the number of statements of a successful run, by kind |
| RunRecords.CompletedRunIsExact | ragpipe/pipeline.py:107-243 | the record of a completed run from scan and tables alone: the five counts of documents, bytes, embedded and deleted chunks, batches |
| RunRecords.FailedRunIsExact | ragpipe/pipeline.py:242-279 | the same for a failed run: nothing without a scan, the scan alone without a snapshot, no chunks |
| RunRecords.ScannedBytesIsTotal | ragpipe/pipeline.py:104-105 | the scanned bytes are the sum of the sizes |
| History.SuccessIsValid | ragpipe/pipeline.py:107-243 | from every sound state a job that can be done goes through and leaves sound tables |
| History.SyncIsAnEvent | ragpipe/pipeline.py:83-308 | every way in which a call ends is a success, a recorded failure, or nothing |
| SyncHistory.SynchronizeNext | ragpipe/pipeline.py:83-308 | each call of the imperative sync extends the history of its store by one possible event |
| History.ReplayIsValid | ragpipe/store/pgvector_store.py:208-288 | in every reachable state ids are unique and below the next one, and no chunk is orphaned; histories only bound the ids they draw |
| History.SuccessAdvances | ragpipe/pipeline.py:107-215 | a successful run moves the corpus at every path as the diff says |
| History.SecondSyncDoesNothing | ragpipe/pipeline.py:107-215 | idempotence: repeating a scan plans no operation and no embedding call and adds one no-change record |
| Rebuilding.IncrementalEqualsRebuild | ragpipe/pipeline.py:107-215 | after any history that ends in a success the corpus is that of one sync of the same scan into an empty store |
| Rebuilding.CorpusIsLastRebuilt | ragpipe/pipeline.py:107-290 | after any history the corpus is the rebuild of the last success; failures and rejections leave it alone |
| Rebuilding.MetadataChangeIsExact | ragpipe/ingest/source_scanner.py:102-105 | with unchanged content, a metadata change is reported exactly when the JSON values differ |
| Rebuilding.StoredChunksAreWellFormed | ragpipe/store/pgvector_store.py:256-286 | in every reachable state: indexes 0..n-1, no blank chunk, the length bound, right hash and vector, the text of the stored hash |
| Rebuilding.PlainDocumentsAreAcceptable | ragpipe/store/pgvector_store.py:256-286 | readable documents can be stored if and only if none of them contains U+0000, for every recursive chunker whose separators do not drop it |
| Rebuilding.CanonicalHashIsCollisionFree | ragpipe/ingest/metadata.py:17-31 | hashing the canonical text with an injective hash confuses no two metadata objects |
| Ledger.SuccessBalances | ragpipe/pipeline.py:217-243 | a succeeded run changes the numbers of chunks and documents by exactly what it reports |
| Ledger.DocumentColumnsAddUp | ragpipe/store/pgvector_store.py:482-490 | the five reported totals of documents add up the columns of the run history |
| Ledger.WorkColumnsAddUp | ragpipe/store/pgvector_store.py:491-497 | so do those of chunks, scans and batches |
| Ledger.RunsAreCounted | ragpipe/store/pgvector_store.py:474-482 | and the runs are counted by their status |
| Ledger.LedgerBalances | ragpipe/store/pgvector_store.py:449-529 | stored chunks = embedded - deleted over all runs; stored documents = new - deleted over succeeded runs |
| Ledger.RecordsMatchCommits | ragpipe/pipeline.py:236-290 | a succeeded record exists exactly for each committed change, a failed one for each recorded failure |
| Ledger.RunIdsAreUnique | ragpipe/store/pgvector_store.py:316-383 | no history stores two records under one run id |
| Ledger.DocumentTotalsBalance | ragpipe/store/pgvector_store.py:483-489 | the document totals over all runs account for the store if and only if the counts of failed runs cancel out |
| SyncWitnesses.UnreadableDocument | ragpipe/store/pgvector_store.py:483-489 | one new document that cannot be loaded: a run after which they do not |
| Protocol.ReachableIsSound | ragpipe/pipeline.py:100-301 | the invariant of lock, transactions, committed tables and readers holds after any steps of any processes |
| Protocol.MutualExclusion | ragpipe/store/pgvector_store.py:121-162 | at most one process is between acquiring and releasing the lock |
| Protocol.CommittedIsSerial | ragpipe/pipeline.py:100-290 | serializability: what is committed is the logged runs one after another in commit order, despite crashes |
| Protocol.ReadersSeeCommittedStates | ragpipe/store/pgvector_store.py:169-180 | readers see only states of that serial run |
| Protocol.SnapshotStaysCurrent | ragpipe/pipeline.py:107-129 | while a transaction is open its snapshot is still what is committed |
| ProtocolProgress.RejectionsLeaveNoTrace | ragpipe/pipeline.py:292-301 | attempts that find the lock taken leave no trace: striking them all out of a run gives a run to the same state |
| ProtocolProgress.DoableJobsCanCommit | ragpipe/pipeline.py:100-243 | from every reachable state with a free lock, any process can bring any job that can be done to its commit |
| ProtocolProgress.CrashIsRecoverable | ragpipe/store/pgvector_store.py:145-162 | when the holder of the lock crashes, at any point, the same holds, and the result is as if its work had never begun |
| ConcurrentCorpus.CommittedCorpusIsRebuilt | ragpipe/pipeline.py:100-290 | under any interleaving the committed corpus is the rebuild of the last success in commit order |
| ConcurrentCorpus.ReadersSeeRebuiltCorpora | ragpipe/store/pgvector_store.py:169-180 | a reader never sees part of a synchronization |
| ConcurrentCorpus.ConcurrentLedgerBalances | ragpipe/store/pgvector_store.py:449-529 | the ledger balances in every reachable state of any number of processes |
| ConcurrentCorpus.FailuresAreCounted | ragpipe/pipeline.py:242-290 | under any interleaving a process that fails records the counts of its scan against the tables committed at that moment, or fewer if it had come less far |
| Chunking.Make | ragpipe/chunking/chunker.py:15-23 | the constructor accepts exactly chunk_size > overlap >= 0, and keeps the settings |
| Chunking.FirstSeparator | ragpipe/chunking/chunker.py:55-55 | the first non-empty separator that occurs, or none occurs |
| Chunking.MergePieces | ragpipe/chunking/chunker.py:30-45 | the merge loop computes the fold of its step |
| Chunking.ChunkText | ragpipe/chunking/chunker.py:25-50 | the method computes the chunks that the theorems below speak about |
| LineEnds.LineEndsAreLineFeeds | ragpipe/chunking/chunker.py:26-26 | CR LF is one line end, and so is a CR that no LF follows, wherever they occur |
| LineEnds.NothingToNormalize | ragpipe/chunking/chunker.py:26-26 | a text without CR is only stripped |
| ChunkLevels.SplitIsLeveled | ragpipe/chunking/chunker.py:52-64 | the recursive split works level by level: one separator after the other, on the stripped parts that are still too long |
| ChunkGreedy.WindowAt | ragpipe/chunking/chunker.py:57-58 | window i of the hard split starts at i times the step and has `size` characters, or ends with the text |
| ChunkGreedy.WindowCount | ragpipe/chunking/chunker.py:57-58 | there are ceil(length / step) windows |
| ChunkGreedy.ChunksAreGreedy | ragpipe/chunking/chunker.py:30-45 | every chunk is the overlap of its predecessor and a run of consecutive pieces, joined by spaces, and the next piece would not have fitted; the runs use every piece once, in order |
| ChunkWords.WordsStayWhole | ragpipe/chunking/chunker.py:52-64 | with the default separators and white space that is spaces and line ends only, a word that fits is never cut: one chunk holds all of it, up to a final stop |
| ChunkShape.SplitIsGood | ragpipe/chunking/chunker.py:52-64 | the recursive split ends in pieces that are not empty and fit |
| ChunkShape.LengthBound | ragpipe/chunking/chunker.py:25-50 | no chunk is blank; none exceeds size + overlap + 1, or size without overlap |
| ChunkShape.BoundIsAttained | ragpipe/chunking/chunker.py:37-40 | for every size and positive overlap some document has a chunk of exactly that length |
| ChunkShape.OverlapContinuity | ragpipe/chunking/chunker.py:37-40 | each chunk begins with the stripped last `overlap` characters of its predecessor |
| ChunkShape.ElseBranchIsDead | ragpipe/chunking/chunker.py:41-43 | the else branch of the merge is never taken |
| ChunkShape.ChunksAreNumbered | ragpipe/chunking/chunker.py:46-50 | the final filter never acts: chunk i has index i, the i-th text and its hash |
| ChunkConservation.TextIsConserved | ragpipe/chunking/chunker.py:25-64 | up to white space and separator characters the text is a subsequence of its chunks, and equal without overlap |
| ChunkConservation.WindowsCoverText | ragpipe/chunking/chunker.py:56-58 | the windows of the hard split cover the text, and partition it without overlap |
| ChunkConservation.DefaultsDropOnlyStops | ragpipe/chunking/chunker.py:19-19 | with the default separators only white space and the full stop can get lost |
| ChunkCharacters.CharactersSurvive | ragpipe/chunking/chunker.py:25-64 | a character that is neither white space nor in a separator is in the chunks exactly when it is in the text |
| ChunkStops.StopsAreKept | ragpipe/chunking/chunker.py:52-64 | with the default separators everything visible is kept when no over-long line contains ". "; without overlap if and only if |
| ChunkStops.StopsCanBeLost | ragpipe/chunking/chunker.py:59-59 | an input whose stop is in no chunk |
| ChunkVanishing.NoChunksIffBlank | ragpipe/chunking/chunker.py:26-28 | with harmless separators, such as the default ones, a document has no chunks exactly when it is blank |
| ChunkVanishing.HarmfulSeparatorSwallows | ragpipe/chunking/chunker.py:59-59 | every harmful separator that comes into play swallows a document |
| ChunkVanishing.OneSeparator | ragpipe/chunking/chunker.py:59-59 | for a single separator: no document that is not blank vanishes if and only if the separator is harmless |
| ChunkOptimality.GreedyStaysAhead | ragpipe/chunking/chunker.py:30-45 | against any in-order grouping that fits, the greedy merge never has more groups, nor with equally many a longer last one, also when pieces have white space at their edges |
| ChunkOptimality.FewestChunks | ragpipe/chunking/chunker.py:25-50 | without overlap no grouping of the pieces of any text has fewer groups than there are chunks; when no piece has white space at its edges, the chunks are a grouping themselves |
| ChunkOptimality.SeparatedTextIsTidy | ragpipe/chunking/chunker.py:52-64 | no piece has white space at its edges when every white-space character of the text is a separator |
| ChunkOptimality.PlainTextIsSeparated | ragpipe/chunking/chunker.py:19-19 | with the default separators that holds for every text with spaces and line ends only |
| CanonicalJsonProofs.TextDecodes | ragpipe/ingest/metadata.py:20-27 | canonical text can be read back: equal texts come from equal values and go on alike |
| CanonicalJsonProofs.DumpsIsJson | ragpipe/ingest/metadata.py:20-27 | an RFC 8259 reader that knows no white space reads the canonical text as the same value, with the keys of every object in ascending order |
| CanonicalJsonProofs.MetadataHashIsOfJson | ragpipe/ingest/metadata.py:17-31 | what is hashed is such a text for the metadata |
| CanonicalJsonProofs.EscapesAreShortest | ragpipe/ingest/metadata.py:20-27 | no escape that a reader takes for the character is shorter, so characters stand for themselves where they may |
| CanonicalJsonProofs.NonFiniteIsRejected | ragpipe/ingest/metadata.py:20-29 | of decoded values exactly those with a NaN or an infinity at any depth are rejected |
| CanonicalJsonProofs.CanonicalTextIdentifiesValue | ragpipe/ingest/metadata.py:20-27 | two metadata objects have the same canonical text if and only if they are equal as JSON values |
| CanonicalJsonProofs.MetadataHashIdentifiesValue | ragpipe/ingest/metadata.py:17-31 | under an injective hash, equal metadata hashes mean equal values and vice versa |
| CanonicalJsonProofs.KeyOrderIsIrrelevant | ragpipe/ingest/metadata.py:20-24 | reordering keys does not change the canonical text |
| SafePaths.AcceptedPaths | ragpipe/ingest/metadata.py:34-45 | exactly which paths pass: clean components only, and "." |
| SafePaths.NoDoubleSlash | ragpipe/ingest/s3_source.py:119-128 | the extra check for "//" rejects nothing more |
| Manifest.ParseManifest | ragpipe/ingest/metadata.py:68-85 | accepted if and only if every entry is a safe path with a serializable object; then exactly these entries, each with its own value |
| S3Source.DiscoveredDocuments | ragpipe/ingest/s3_source.py:165-204 | the listing yields exactly the supported documents below the prefix, without the manifest |
| S3Scans.EntriesSplit | ragpipe/ingest/s3_source.py:176-186 | the entries are those of all pages, in order; a bad page counts as a bad entry |
| S3Scans.ListingSucceeds | ragpipe/ingest/s3_source.py:176-204 | a listing fails exactly when some entry is malformed or has a key that is neither passed over, nor the manifest, nor a safe path below the prefix |
| S3Scans.ManifestIsLast | ragpipe/ingest/s3_source.py:195-197 | the manifest is the last entry with its key, with the etag listed there; none if and only if there is no such entry |
| S3Scans.ObjectIsLast | ragpipe/ingest/s3_source.py:199-204 | the object of a document is its last entry, with the etag listed there |
| S3Scans.LastMemberWins | ragpipe/ingest/metadata.py:68-85 | the metadata of a path is the value of its last member in the manifest |
| S3Scans.ScanSucceeds | ragpipe/ingest/s3_source.py:162-236 | a scan succeeds if and only if the listing does, the manifest is answered, well-formed and names listed documents only, and every document is answered by its own request, in path order |
| S3Scans.ScanIsExact | ragpipe/ingest/s3_source.py:219-236 | a scan returns exactly the listed documents, each with hash, size, media type and metadata hash from the bytes its own conditional request was answered with, and remembers the last listed version of each |
| S3Scans.MetadataIsExact | ragpipe/ingest/s3_source.py:210-232 | the metadata of a scanned document is what the answered manifest gives its path, and the empty object where it gives none |
| S3Scans.LoadIsExact | ragpipe/ingest/s3_source.py:132-254 | a load asks for the listed version and returns the text of the answered bytes if and only if they have the scanned hash |
| S3Source.S3DocumentSource.ListDocuments | ragpipe/ingest/s3_source.py:176-204 | the loop over pages and entries computes that listing, or fails on the first bad page, entry or path |
| S3Source.S3DocumentSource.ReadDocuments | ragpipe/ingest/s3_source.py:219-232 | succeeds exactly when every document can be read; each is described by the bytes its own request was answered with, and carries its manifest metadata |
| S3Source.S3DocumentSource.Scan | ragpipe/ingest/s3_source.py:162-236 | succeeds exactly when listing, manifest and all documents are answered and the manifest speaks of listed documents only; a failed scan keeps the known objects |
| S3Source.S3DocumentSource.Load | ragpipe/ingest/s3_source.py:238-254 | exactly what LoadAt says of the next request: the text, if the answered bytes have the scanned hash; unknown documents are refused without a request |
| S3Coherence.LoadsAreChecked | ragpipe/ingest/s3_source.py:238-254 | whenever a document is loaded, its text comes from bytes answered for its own key that have the scanned hash |
| S3Coherence.ScansDescribe | ragpipe/ingest/s3_source.py:219-234 | every scanned document describes bytes that were answered during the scan, with well-formed metadata |
| S3Coherence.StoredFromHashedBytes | ragpipe/ingest/s3_source.py:238-254 | however the bucket changes, in every committed state each document's chunks come from bytes that were answered for it and have the stored hash |
| S3Coherence.LoadsAgree | ragpipe/ingest/s3_source.py:247-254 | loads that succeed for the same path and hash return the same text, at any two moments and from any two buckets |
| S3Coherence.S3JobsFit | ragpipe/ingest/s3_source.py:219-254 | scans and loads of an S3 source meet the conditions of the theorems about rebuilding |
| S3Coherence.S3CorpusIsLastRebuilt | ragpipe/ingest/s3_source.py:162-254 | after any history of S3 synchronizations the corpus is the rebuild of the last successful scan |
| S3Synchronization.LoadInOrder | ragpipe/ingest/s3_source.py:238-254 | the sequence of loads: each text is what its own request gives, and the first load that raises is the last one |
| S3Synchronization.ScanAndLoad | ragpipe/ingest/s3_source.py:162-254 | the scan, then the loads of the new and changed documents, each by the next request |
| S3Synchronization.SynchronizeS3 | ragpipe/pipeline.py:100-308 | each sync on an S3 source extends the history by one event and one run with the requests really made, and in its store all chunks come from bytes answered for their document, with the stored hash |
| RankedSearch.TopIsTop | ragpipe/store/pgvector_store.py:581-585 | ordered, as many as asked for, and nothing left out comes before anything listed, for every collation of the paths |
| RankedSearch.TopIsUnique | ragpipe/store/pgvector_store.py:581-585 | a list is a top-k if and only if it is the search result |
| RankedSearch.LargerLimitAppends | ragpipe/store/pgvector_store.py:581-585 | a larger limit only appends results |
| RankedSearch.SearchIsExact | ragpipe/store/pgvector_store.py:530-597 | the result lists chunks of the model by distance, path and index, nearest first, and leaves a chunk out only when the limit is reached and all listed ones precede it |
| Evaluation.EmbedQueries | ragpipe/evaluation.py:124-133 | all queries get their vectors, in the batches of the batch size, if and only if every call is answered with a vector for each query |
| Evaluation.Evaluate | ragpipe/evaluation.py:113-181 | the report is the same for every batch size; there is one if and only if the input is accepted, every call is answered and every search goes through; when evaluation is refused no call is made |
| Evaluation.Rank | ragpipe/evaluation.py:148-151 | the rank is the position of the first match, or there is none |
| Evaluation.ReportIsExact | ragpipe/evaluation.py:139-181 | every case scores 1 / (i + 1) when its document is first found at index i and 0 otherwise; hits, hit rate and MRR are the count and the sum of these by the number of cases |
| Evaluation.MetricBounds | ragpipe/evaluation.py:172-181 | hit rate / k <= MRR <= hit rate <= 1 |
| Evaluation.LargerKKeepsRank | ragpipe/evaluation.py:139-154 | with a larger k a case keeps its rank |
| Evaluation.MetricsGrowWithK | ragpipe/evaluation.py:139-181 | hits, hit rate and MRR never decrease as k grows |

## Left out

- The command line, logging, settings, the WSGI server and Prometheus text: plumbing.
- SQL text, psycopg, the connection pool, Alembic migrations and schema checks: only the effect of each statement is modelled.
- `running` runs, durations, finish times, error text and `sanitize_error`: run records are modelled without them.
- Chunk metadata (`chunk_index`) and the content, metadata and score of search results: they repeat other fields or are not used by the properties.
- JSONB's normalisation of numbers: a stored metadata value is the scanned one up to the order of keys.
- Surrogates and encoding failures: strings are sequences of characters; a failure to encode or decode counts as a failing load or chunking.
- Failure of the unlock query, and loss of the lock's session while its process goes on working in another session, or while a commit of a crashed process is still in flight.
- Ids are drawn from a counter instead of `uuid4`, so that they are fresh by construction.
- `LocalFolderSource`: file-system walking, and that its `load` does not compare the hash again; the theorems about rebuilding assume for local sources that what is loaded has the scanned hash.
- Changing chunker settings or the embedding model between runs: unchanged documents are deliberately not embedded again.
- HNSW approximation, cosine arithmetic and metadata filters of `search`: distances are arbitrary and the ranking is exact.
- Reading JSONL evaluation cases and manifest size and encoding limits: decoding is a parameter that may fail.
- Limits of the columns other than U+0000 in paths, metadata and chunk texts: vector dimension, integer ranges, index sizes, and U+0000 in source labels, model names and media types.
- Floating-point rounding of the metrics: they are real numbers.
- The locals that `sync` shares with its closures are grouped into the objects `Buffers` and `StoreWriter`.
- EmbeddingProvider.Embedder.Embed: a provider that returns as many vectors as texts is taken to return the model's vector for each text.
- Protocol.ReachableIsSound: a process may read its next document before it has applied all updates and deletions; this allows more interleavings than the code has.
- S3Synchronization.ScanAndLoad: the documents are loaded before the transaction instead of between its statements, so a run that fails on the way may make more requests than the code; the answers are the same.
