/** Incremental synchronization agrees with rebuilding from scratch, after every history. */
module Rebuilding {
  import opened Strings
  import opened CanonicalJson
  import opened CanonicalJsonProofs
  import opened Models
  import Chunking
  import ChunkShape
  import opened ChunkConservation
  import opened ChunkCharacters
  import opened SourceDiffing
  import opened StoreTables
  import opened SyncPlan
  import opened StoreSteps
  import opened Pipeline
  import opened SyncEffects
  import opened Synchronization
  import opened SyncCorpus
  import opened History

  /** What stays fixed over a history: the embedding model, the chunker, and what the content hash and the
      path of a document determine. */
  datatype World = World(
    embedding: Embedding,
    chunk: string -> seq<Chunk>,
    content: (Path, Hash) -> string,
    mediaType: Path -> string,
    size: Hash -> nat,
    metadataHash: Value -> Hash)

  /** No two metadata objects share a hash. */
  ghost predicate CollisionFree(w: World) {
    forall u, v | WellFormed(u) && WellFormed(v) && w.metadataHash(u) == w.metadataHash(v) :: u == v
  }

  /** Hashing the canonical text with an injective hash has no collisions. */
  lemma CanonicalHashIsCollisionFree(w: World, sha: string -> Hash)
    requires Injective(sha) && forall v :: w.metadataHash(v) == sha(Text(v))
    ensures CollisionFree(w)
  {
    hide Text, WellFormed;
    forall u, v | WellFormed(u) && WellFormed(v) && w.metadataHash(u) == w.metadataHash(v) ensures u == v {
      assert sha(Text(u)) == sha(Text(v));
      TextDecodes(u, v, "", "");
    }
  }

  predicate ItemFits(w: World, d: ScannedDocument) {
    && d.mediaType == w.mediaType(d.path) && d.sizeBytes == w.size(d.contentHash)
    && d.metadataHash == w.metadataHash(d.metadata) && WellFormed(d.metadata)
  }

  predicate ScanFits(w: World, scan: Scan) {
    KeyedByPath(scan) && forall p | p in scan :: ItemFits(w, scan[p])
  }

  /** Whatever is loaded has the scanned hash, and chunking, when it succeeds, is the fixed chunking. */
  ghost predicate ReaderFits(w: World, r: Reader) {
    && (forall d :: r.load(d).Some? ==> r.load(d).value == w.content(d.path, d.contentHash))
    && (forall text :: r.chunk(text).Some? ==> r.chunk(text).value == w.chunk(text))
  }

  ghost predicate JobFits(w: World, job: Job) {
    job.embedding == w.embedding && ScanFits(w, job.scan) && ReaderFits(w, job.reader)
  }

  ghost predicate HistoryFits(w: World, events: seq<Event>) {
    forall i | 0 <= i < |events| && events[i].Success? :: JobFits(w, events[i].job)
  }

  /** The document that a rebuild stores. */
  function Ideal(w: World, d: ScannedDocument): CorpusDocument {
    Fresh(w.embedding, Work(d, w.chunk(w.content(d.path, d.contentHash))))
  }

  /** The corpus that a rebuild of a scan stores. */
  function Rebuilt(w: World, scan: Scan): Corpus {
    map p | p in scan :: Ideal(w, scan[p])
  }

  /** The scanned document behind a stored one. */
  function ItemOf(p: Path, doc: CorpusDocument): ScannedDocument {
    ScannedDocument(p, doc.contentHash, doc.sizeBytes, doc.mediaType, doc.metadata, doc.metadataHash)
  }

  predicate DocumentFits(w: World, p: Path, doc: CorpusDocument) {
    ItemFits(w, ItemOf(p, doc)) && doc == Ideal(w, ItemOf(p, doc))
  }

  /** Every stored document is what a rebuild of its own version would store. */
  predicate CorpusFits(w: World, corpus: Corpus) {
    forall p | p in corpus :: DocumentFits(w, p, corpus[p])
  }

  lemma SameContentSameItem(w: World, doc: CorpusDocument, d: ScannedDocument)
    requires CollisionFree(w) && ItemFits(w, ItemOf(d.path, doc)) && ItemFits(w, d) && doc.contentHash == d.contentHash
    ensures doc.mediaType == d.mediaType && doc.sizeBytes == d.sizeBytes
    ensures doc.metadataHash == d.metadataHash ==> doc.metadata == d.metadata
  {
  }

  lemma StatesShowHashes(t: Tables, p: Path)
    requires p in t.documents
    ensures CorpusOf(t)[p].contentHash == StatesOf(t)[p].contentHash
    ensures CorpusOf(t)[p].metadataHash == StatesOf(t)[p].metadataHash
  {
  }

  /** Comparing hashes neither misses nor invents a change of metadata: a document with unchanged content is
      reported exactly when the scanned metadata differs from the stored one as a JSON value. */
  lemma MetadataChangeIsExact(w: World, t: Tables, scan: Scan, p: Path)
    requires CollisionFree(w) && ScanFits(w, scan) && CorpusFits(w, CorpusOf(t))
    requires p in scan && p in t.documents && t.documents[p].contentHash == scan[p].contentHash
    ensures Classify(scan, StatesOf(t), p) == MetadataChanged <==> CorpusOf(t)[p].metadata != scan[p].metadata
  {
    hide Ideal, WellFormed;
    StatesShowHashes(t, p);
    var doc := CorpusOf(t)[p];
    assert DocumentFits(w, p, doc) && ItemFits(w, scan[p]);
    SameContentSameItem(w, doc, scan[p]);
  }

  /** One path: whatever the class of the document, the store ends up with the ideal one. */
  lemma AdvanceIsIdeal(w: World, t: Tables, after: Corpus, job: Job, p: Path)
    requires CollisionFree(w) && JobFits(w, job) && CorpusFits(w, CorpusOf(t))
    requires Advances(CorpusOf(t), after, job.embedding, job.reader, job.scan, StatesOf(t), p)
    ensures p in after <==> p in job.scan
    ensures p in after ==> after[p] == Ideal(w, job.scan[p])
  {
  }

  /** One successful synchronization of a store whose documents fit rebuilds the scan. */
  lemma SuccessRebuilds(w: World, t: Tables, job: Job)
    requires ValidTables(t, job.firstId) && Feasible(t, job)
    requires CollisionFree(w) && JobFits(w, job) && CorpusFits(w, CorpusOf(t))
    ensures CorpusOf(AfterSuccess(t, job, JobWorks(t, job).value)) == Rebuilt(w, job.scan)
  {
    hide ValidTables, CollisionFree, CorpusFits, ReaderFits, JobWorks, AfterSuccess, CorpusOf, Advances, Ideal;
    hide Feasible;
    FeasibleIsReadable(t, job);
    var after := CorpusOf(AfterSuccess(t, job, JobWorks(t, job).value));
    forall p ensures p in after <==> p in job.scan
             ensures p in after ==> after[p] == Ideal(w, job.scan[p])
    {
      SuccessAdvances(t, job, p);
      AdvanceIsIdeal(w, t, after, job, p);
    }
  }

  lemma RebuiltFits(w: World, scan: Scan)
    requires ScanFits(w, scan)
    ensures CorpusFits(w, Rebuilt(w, scan))
  {
  }

  /** The invariant of every history. */
  lemma {:induction false} StoredDocumentsFit(w: World, events: seq<Event>)
    requires CollisionFree(w) && PossibleHistory(events) && HistoryFits(w, events)
    ensures CorpusFits(w, CorpusOf(Replay(events).tables))
  {
    hide CollisionFree, CorpusFits, JobFits, Possible, StateAfter, ValidTables, CorpusOf;
    if events == [] {
      NothingStoredYet(w);
    } else {
      var before, ev := events[..|events| - 1], events[|events| - 1];
      StoredDocumentsFit(w, before);
      ReplayIsValid(before);
      EventKeepsFit(w, Replay(before), ev);
    }
  }

  lemma NothingStoredYet(w: World)
    ensures CorpusOf(INITIAL.tables) == map[] && CorpusFits(w, CorpusOf(INITIAL.tables))
  {
  }

  lemma EventKeepsFit(w: World, s: State, ev: Event)
    requires CollisionFree(w) && ValidTables(s.tables, s.nextId) && Possible(s, ev)
    requires ev.Success? ==> JobFits(w, ev.job)
    requires CorpusFits(w, CorpusOf(s.tables))
    ensures CorpusFits(w, CorpusOf(StateAfter(s, ev).tables))
    ensures ev.Success? ==> CorpusOf(StateAfter(s, ev).tables) == Rebuilt(w, ev.job.scan)
    ensures !ev.Success? ==> CorpusOf(StateAfter(s, ev).tables) == CorpusOf(s.tables)
  {
    hide CollisionFree, CorpusFits, ReaderFits, ValidTables, CorpusOf, JobWorks, AfterSuccess, Feasible, ReportedRun;
    match ev
    case Success(job, _) =>
      FeasibleIsReadable(s.tables, job);
      LargerIds(s.tables, s.nextId, job.firstId);
      SuccessRebuilds(w, s.tables, job);
      RebuiltFits(w, job.scan);
    case Failure(report, _) => CorpusIgnoresRuns(s.tables, ReportedRun(s.tables, report));
    case Nothing(_) =>
  }

  /** After every history that ends with a success, however many synchronizations succeeded, failed or were
      rejected before, the corpus is the one that a single synchronization of the same scan stores in an
      empty database: the same paths, hashes, metadata, chunks and vectors. */
  lemma IncrementalEqualsRebuild(w: World, events: seq<Event>, fromScratch: Job, nextId: nat)
    requires CollisionFree(w) && PossibleHistory(events) && HistoryFits(w, events)
    requires events != [] && events[|events| - 1].Success?
    requires JobFits(w, fromScratch) && fromScratch.scan == events[|events| - 1].job.scan
    requires Possible(INITIAL, Success(fromScratch, nextId))
    ensures CorpusOf(Replay(events).tables) == Rebuilt(w, fromScratch.scan)
    ensures CorpusOf(Replay(events).tables) == CorpusOf(StateAfter(INITIAL, Success(fromScratch, nextId)).tables)
  {
    hide CollisionFree, CorpusFits, JobFits, Possible, StateAfter, ValidTables, CorpusOf, Rebuilt;
    var before, ev := events[..|events| - 1], events[|events| - 1];
    StoredDocumentsFit(w, before);
    ReplayIsValid(before);
    EventKeepsFit(w, Replay(before), ev);
    NothingStoredYet(w);
    ReplayIsValid([]);
    EventKeepsFit(w, INITIAL, Success(fromScratch, nextId));
  }

  /** The scan of the last success. */
  function LastScan(events: seq<Event>): Option<Scan> {
    if events == [] then None
    else if events[|events| - 1].Success? then Some(events[|events| - 1].job.scan)
    else LastScan(events[..|events| - 1])
  }

  function LastRebuilt(w: World, events: seq<Event>): Corpus {
    match LastScan(events)
    case None => map[]
    case Some(scan) => Rebuilt(w, scan)
  }

  /** After every history, also one that ends in failures, the corpus is the rebuild of the scan of the last
      success. */
  lemma {:induction false} CorpusIsLastRebuilt(w: World, events: seq<Event>)
    requires CollisionFree(w) && PossibleHistory(events) && HistoryFits(w, events)
    ensures CorpusOf(Replay(events).tables) == LastRebuilt(w, events)
  {
    hide CollisionFree, CorpusFits, JobFits, Possible, StateAfter, ValidTables, CorpusOf, Rebuilt;
    if events == [] {
      NothingStoredYet(w);
    } else {
      var before, ev := events[..|events| - 1], events[|events| - 1];
      CorpusIsLastRebuilt(w, before);
      StoredDocumentsFit(w, before);
      ReplayIsValid(before);
      EventKeepsFit(w, Replay(before), ev);
    }
  }

  // ---------- What is stored ----------

  /** The chunker is the recursive one. */
  ghost predicate ChunksRecursively(w: World, c: Chunking.Chunker, sha: string -> Hash) {
    forall text :: w.chunk(text) == Chunking.Chunks(c, sha, text)
  }

  /** In every reachable state the chunks of a document are numbered 0..n-1, not blank, bounded in length,
      carry the hash of their text and the vector of their text, and come from the content that the
      document's hash stands for. */
  lemma StoredChunksAreWellFormed(w: World, c: Chunking.Chunker, sha: string -> Hash, events: seq<Event>, p: Path,
                                  i: nat)
    requires CollisionFree(w) && PossibleHistory(events) && HistoryFits(w, events) && ChunksRecursively(w, c, sha)
    requires p in CorpusOf(Replay(events).tables)
    requires i < |CorpusOf(Replay(events).tables)[p].chunks|
    ensures var doc := CorpusOf(Replay(events).tables)[p];
            var chunk := doc.chunks[i];
            && chunk.index == i && !Blank(chunk.text) && chunk.contentHash == sha(chunk.text)
            && |chunk.text| <= (if c.overlap == 0 then c.size else c.size + c.overlap + 1)
            && chunk.model == w.embedding.model && chunk.vector == w.embedding.vector(chunk.text)
            && |doc.chunks| == |Chunking.Texts(c, w.content(p, doc.contentHash))|
            && chunk.text == Chunking.Texts(c, w.content(p, doc.contentHash))[i]
  {
    hide CollisionFree, JobFits, Possible, StateAfter, CorpusOf, ItemFits, Chunking.Texts, Chunking.Chunks, Blank;
    StoredDocumentsFit(w, events);
    var doc := CorpusOf(Replay(events).tables)[p];
    var text := w.content(p, doc.contentHash);
    assert DocumentFits(w, p, doc);
    IdealChunk(w, ItemOf(p, doc), i);
    assert w.chunk(text) == Chunking.Chunks(c, sha, text);
    ChunkShape.ChunksAreNumbered(c, sha, text);
    ChunkShape.LengthBound(c, text, i);
  }

  lemma IdealChunk(w: World, d: ScannedDocument, i: nat)
    requires i < |Ideal(w, d).chunks|
    ensures var chunks := w.chunk(w.content(d.path, d.contentHash));
            && |Ideal(w, d).chunks| == |chunks|
            && Ideal(w, d).chunks[i]
               == CorpusChunk(chunks[i].index, chunks[i].text, chunks[i].contentHash, w.embedding.model,
                     w.embedding.vector(chunks[i].text))
  {
  }

  /** What the schema refuses of a document: the character U+0000 in its text, its path or its metadata. */
  predicate PlainDocument(r: Reader, item: ScannedDocument) {
    PlainItem(item) && r.load(item).Some? && Plain(r.load(item).value)
  }

  lemma TextIsPlain(c: Chunking.Chunker, sha: string -> Hash, text: string)
    requires !Droppable('\0', c.separators)
    ensures PlainChunks(Chunking.Chunks(c, sha, text)) <==> Plain(text)
    ensures DistinctIndexes(Chunking.Chunks(c, sha, text))
  {
    hide Chunking.Chunks, Chunking.Texts, Droppable;
    ChunkShape.ChunksAreNumbered(c, sha, text);
    CharactersSurvive(c, text, '\0');
    var texts, chunks := Chunking.Texts(c, text), Chunking.Chunks(c, sha, text);
    assert AllFree('\0', texts) <==> PlainChunks(chunks) by {
      assert forall i | 0 <= i < |texts| :: chunks[i].text == texts[i];
    }
  }

  /** With the recursive chunker and separators without U+0000, the schema accepts documents that can be read if
      and only if none of them contains that character. */
  lemma {:induction false} PlainDocumentsAreAcceptable(w: World, c: Chunking.Chunker, sha: string -> Hash, r: Reader,
                                                       items: seq<ScannedDocument>)
    requires ReaderFits(w, r) && ChunksRecursively(w, c, sha) && ReadAll(r, items).Some?
    requires !Droppable('\0', c.separators)
    ensures Acceptable(r, items) <==> forall i | 0 <= i < |items| :: PlainDocument(r, items[i])
  {
    hide Chunking.Chunks, Chunking.Texts, Droppable, PlainItem, Plain, PlainChunks;
    ReadAllInOrder(r, items);
    var works := ReadAll(r, items).value;
    forall i | 0 <= i < |items| ensures Storable(works[i]) <==> PlainDocument(r, items[i]) {
      var text := r.load(items[i]).value;
      assert works[i].chunks == Chunking.Chunks(c, sha, text);
      TextIsPlain(c, sha, text);
    }
  }
}
