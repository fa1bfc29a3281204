/** Hash and chunk coherence for S3: however the bucket changes between scan and load, what is committed
    for a content hash was made from bytes with that hash. */
module S3Coherence {
  import opened Strings
  import opened CanonicalJson
  import opened CanonicalJsonProofs
  import opened Models
  import opened SourceDiffing
  import opened SafePaths
  import Manifest
  import opened StoreTables
  import opened SyncPlan
  import opened Pipeline
  import opened SyncEffects
  import opened Synchronization
  import opened SyncCorpus
  import opened History
  import opened Rebuilding
  import opened S3Source

  // ---------- Synchronizations of an S3 source ----------

  /** One synchronization as the bucket sees it: the request that starts its scan, the objects that this scan
      finds, and the request that loads each document. The schedule of the loads is free. */
  datatype S3Run = S3Run(
    prefix: string,
    replies: Replies,
    start: nat,
    objects: map<Path, S3Object>,
    schedule: ScannedDocument -> nat)

  /** The run's first requests gave this scan. */
  ghost predicate ScannedBy(env: Environment, run: S3Run, scan: Scan) {
    Scans(env, run.prefix, run.replies, run.start, run.objects, scan)
  }

  /** The job's scan is one of `S3DocumentSource.Scan`, every text it loads is what `S3DocumentSource.Load` returned
      at the scheduled request, and chunking, when it succeeds, is the fixed chunking. */
  ghost predicate IsS3Job(env: Environment, chunk: string -> seq<Chunk>, run: S3Run, job: Job) {
    && ScannedBy(env, run, job.scan)
    && (forall d :: job.reader.load(d).Some? ==>
                      job.reader.load(d) == LoadAt(env, run.replies, run.schedule(d), run.objects, d))
    && (forall text :: job.reader.chunk(text).Some? ==> job.reader.chunk(text).value == chunk(text))
  }

  ghost predicate IsS3History(env: Environment, chunk: string -> seq<Chunk>, runs: seq<S3Run>, events: seq<Event>) {
    && |runs| == |events|
    && forall i | 0 <= i < |events| && events[i].Success? :: IsS3Job(env, chunk, runs[i], events[i].job)
  }

  // ---------- What scans and loads guarantee ----------

  /** The object that the bucket keeps under a document's own key, in some version. */
  function ObjectAt(run: S3Run, p: Path, etag: Option<string>): S3Object {
    S3Object(ListPrefix(run.prefix) + p.text, etag)
  }

  /** The bytes that request n answers for the document itself have the given hash and hold the given text. */
  predicate Answered(env: Environment, run: S3Run, n: nat, p: Path, etag: Option<string>, hash: Hash, text: string) {
    var content := ReadAt(run.replies, n, ObjectAt(run, p, etag));
    content.Some? && env.sha(content.value) == hash && env.extractText(content.value, p) == Some(text)
  }

  /** Objects are found under their own keys, with safe paths. */
  lemma FoundUnderOwnKeys(env: Environment, run: S3Run, scan: Scan, p: Path)
    requires ScannedBy(env, run, scan) && p in run.objects
    ensures run.objects[p] == ObjectAt(run, p, run.objects[p].etag) && SafePath(p.text) && env.supported(p)
  {
    hide SafePath, Describes, AllRead, Discover, EntriesOf;
    DiscoveredDocuments(env, run.prefix, EntriesOf(run.replies.listings(run.start).value));
  }

  /** A loaded text comes from bytes that the bucket answered for the document's own key and that have the
      scanned hash, whenever the load happens and whatever the bucket held at other times. */
  lemma LoadsAreChecked(env: Environment, chunk: string -> seq<Chunk>, run: S3Run, job: Job, d: ScannedDocument)
    requires IsS3Job(env, chunk, run, job) && job.reader.load(d).Some?
    ensures d.path in run.objects
    ensures Answered(env, run, run.schedule(d), d.path, run.objects[d.path].etag, d.contentHash,
                     job.reader.load(d).value)
  {
    hide ScannedBy;
    FoundUnderOwnKeys(env, run, job.scan, d.path);
  }

  /** The manifest's metadata is always well-formed. */
  lemma ManifestIsWellFormed(env: Environment, replies: Replies, n: nat, manifest: Option<S3Object>, p: Path)
    requires ManifestAt(env, replies, n, manifest).Some?
    ensures WellFormed(MetadataFor(ManifestAt(env, replies, n, manifest).value, p))
  {
    hide WellFormed, SafePath, Manifest.EntryValue;
    EmptyIsWellFormed();
    if manifest.Some? {
      var payload := env.decodeJson(ReadAt(replies, n, manifest.value).value).value;
      Manifest.MetadataIsSafe(payload.members);
    }
  }

  lemma EmptyIsWellFormed()
    ensures WellFormed(EMPTY_METADATA)
  {
  }

  /** Every scanned document describes bytes that the scan was answered with. */
  lemma ScansDescribe(env: Environment, run: S3Run, scan: Scan, p: Path) returns (content: Bytes, metadata: Value)
    requires ScannedBy(env, run, scan) && p in scan
    ensures p in run.objects && WellFormed(metadata) && scan[p] == Describe(env, p, content, metadata)
  {
    hide WellFormed, ManifestAt, ListingAt, AllRead, Describe, MetadataFor, SortedPaths, ReadAt, FirstRead;
    var listing := ListingAt(env, run.prefix, run.replies, run.start).value;
    var found := ManifestAt(env, run.replies, run.start + 1, listing.manifest).value;
    var first := FirstRead(run.start, listing.manifest);
    assert p in SortedPaths(run.objects.Keys);
    var i :| 0 <= i < |run.objects| && SortedPaths(run.objects.Keys)[i] == p;
    assert DescribedAt(env, run.replies, first, run.objects, found, i, scan);
    content, metadata := ReadAt(run.replies, first + i, run.objects[p]).value, MetadataFor(found, p);
    ManifestIsWellFormed(env, run.replies, run.start + 1, listing.manifest, p);
  }

  // ---------- What is stored ----------

  /** The stored chunks carry the given texts. */
  predicate SameChunks(stored: seq<CorpusChunk>, chunks: seq<Chunk>) {
    && |stored| == |chunks|
    && forall i | 0 <= i < |chunks| ::
         && stored[i].index == chunks[i].index && stored[i].text == chunks[i].text
         && stored[i].contentHash == chunks[i].contentHash
  }

  /** The chunks are those of bytes that the bucket answered for the document in one of the runs, and whose hash
      is the stored content hash. */
  ghost predicate FromHashedBytes(env: Environment, chunk: string -> seq<Chunk>, runs: seq<S3Run>, p: Path,
                                  doc: CorpusDocument) {
    exists i: nat, n: nat, etag, text | i < |runs| ::
      Answered(env, runs[i], n, p, etag, doc.contentHash, text) && SameChunks(doc.chunks, chunk(text))
  }

  ghost predicate AllFromHashedBytes(env: Environment, chunk: string -> seq<Chunk>, runs: seq<S3Run>, corpus: Corpus) {
    forall p | p in corpus :: FromHashedBytes(env, chunk, runs, p, corpus[p])
  }

  lemma LaterRuns(env: Environment, chunk: string -> seq<Chunk>, runs: seq<S3Run>, run: S3Run, p: Path,
                  doc: CorpusDocument)
    requires FromHashedBytes(env, chunk, runs, p, doc)
    ensures FromHashedBytes(env, chunk, runs + [run], p, doc)
  {
    hide Answered, SameChunks;
    var i: nat, n: nat, etag, text :|
      i < |runs| && Answered(env, runs[i], n, p, etag, doc.contentHash, text) && SameChunks(doc.chunks, chunk(text));
    assert (runs + [run])[i] == runs[i];
  }

  lemma AllLaterRuns(env: Environment, chunk: string -> seq<Chunk>, runs: seq<S3Run>, run: S3Run, corpus: Corpus)
    requires AllFromHashedBytes(env, chunk, runs, corpus)
    ensures AllFromHashedBytes(env, chunk, runs + [run], corpus)
  {
    hide FromHashedBytes;
    forall p | p in corpus ensures FromHashedBytes(env, chunk, runs + [run], p, corpus[p]) {
      LaterRuns(env, chunk, runs, run, p, corpus[p]);
    }
  }

  /** A document stored afresh is made from what the run loaded. */
  lemma FreshFromHashedBytes(env: Environment, chunk: string -> seq<Chunk>, runs: seq<S3Run>, run: S3Run, job: Job,
                             d: ScannedDocument)
    requires IsS3Job(env, chunk, run, job) && Read(job.reader, d).Some?
    ensures FromHashedBytes(env, chunk, runs + [run], d.path, Fresh(job.embedding, Work(d, Read(job.reader, d).value)))
  {
    hide Answered, ScannedBy, LoadAt;
    LoadsAreChecked(env, chunk, run, job, d);
    assert (runs + [run])[|runs|] == run;
    assert SameChunks(Fresh(job.embedding, Work(d, Read(job.reader, d).value)).chunks, chunk(job.reader.load(d).value));
  }

  lemma AdvanceKeepsBytes(env: Environment, chunk: string -> seq<Chunk>, runs: seq<S3Run>, run: S3Run, t: Tables,
                          after: Corpus, job: Job, p: Path)
    requires IsS3Job(env, chunk, run, job) && KeyedByPath(job.scan)
    requires AllFromHashedBytes(env, chunk, runs, CorpusOf(t))
    requires Advances(CorpusOf(t), after, job.embedding, job.reader, job.scan, StatesOf(t), p) && p in after
    ensures FromHashedBytes(env, chunk, runs + [run], p, after[p])
  {
    hide IsS3Job, CorpusOf, StatesOf, Classify, Read, Fresh, Answered, SameChunks;
    match Classify(job.scan, StatesOf(t), p)
    case MetadataChanged => LaterRuns(env, chunk, runs, run, p, CorpusOf(t)[p]);
    case Unchanged => LaterRuns(env, chunk, runs, run, p, CorpusOf(t)[p]);
    case _ => FreshFromHashedBytes(env, chunk, runs, run, job, job.scan[p]);
  }

  lemma EventKeepsBytes(env: Environment, chunk: string -> seq<Chunk>, runs: seq<S3Run>, run: S3Run, s: State,
                        ev: Event)
    requires ValidTables(s.tables, s.nextId) && Possible(s, ev) && (ev.Success? ==> IsS3Job(env, chunk, run, ev.job))
    requires AllFromHashedBytes(env, chunk, runs, CorpusOf(s.tables))
    ensures AllFromHashedBytes(env, chunk, runs + [run], CorpusOf(StateAfter(s, ev).tables))
  {
    hide ValidTables, CorpusOf, FromHashedBytes, IsS3Job, Advances, AfterSuccess, JobWorks, Feasible, ReportedRun;
    match ev
    case Success(job, _) =>
      LargerIds(s.tables, s.nextId, job.firstId);
      FeasibleIsReadable(s.tables, job);
      var after := CorpusOf(StateAfter(s, ev).tables);
      forall p | p in after ensures FromHashedBytes(env, chunk, runs + [run], p, after[p]) {
        SuccessAdvances(s.tables, job, p);
        AdvanceKeepsBytes(env, chunk, runs, run, s.tables, after, job, p);
      }
    case Failure(report, _) =>
      CorpusIgnoresRuns(s.tables, ReportedRun(s.tables, report));
      AllLaterRuns(env, chunk, runs, run, CorpusOf(s.tables));
    case Nothing(_) => AllLaterRuns(env, chunk, runs, run, CorpusOf(s.tables));
  }

  /** In every state that any history of S3 synchronizations reaches, whatever the bucket answered to which
      request, each document's chunks come from bytes that the bucket answered for this very document and whose
      hash is the stored content hash. */
  lemma {:induction false} StoredFromHashedBytes(env: Environment, chunk: string -> seq<Chunk>, runs: seq<S3Run>,
                                                 events: seq<Event>)
    requires PossibleHistory(events) && IsS3History(env, chunk, runs, events)
    ensures AllFromHashedBytes(env, chunk, runs, CorpusOf(Replay(events).tables))
  {
    hide Possible, StateAfter, ValidTables, IsS3Job, FromHashedBytes;
    if events != [] {
      var n := |events| - 1;
      StoredFromHashedBytes(env, chunk, runs[..n], events[..n]);
      ReplayIsValid(events[..n]);
      EventKeepsBytes(env, chunk, runs[..n], runs[n], Replay(events[..n]), events[n]);
      assert runs == runs[..n] + [runs[n]];
    }
  }

  // ---------- S3 is a fixed world ----------

  ghost predicate NoCollisions(env: Environment) {
    && (forall a, b :: env.sha(a) == env.sha(b) ==> a == b)
    && (forall u, v | WellFormed(u) && WellFormed(v) && env.metadataHash(u) == env.metadataHash(v) :: u == v)
  }

  /** The bytes behind a hash, if there are any. */
  ghost function Preimage(env: Environment, h: Hash): Bytes {
    if content :| env.sha(content) == h then content else []
  }

  ghost function TextFor(env: Environment, p: Path, h: Hash): string {
    var text := env.extractText(Preimage(env, h), p);
    if text.Some? then text.value else ""
  }

  /** The world of an S3 source: a content hash determines the bytes, and with the path the text. */
  ghost function S3World(env: Environment, e: Embedding, chunk: string -> seq<Chunk>): World {
    World(e, chunk, (p: Path, h: Hash) => TextFor(env, p, h), env.mediaType, (h: Hash) => |Preimage(env, h)|,
          env.metadataHash)
  }

  /** Two loads that succeed for the same path and content hash return the same text, whenever they happen and
      from whichever bucket. */
  lemma LoadsAgree(env: Environment, replies: Replies, n: nat, objects: map<Path, S3Object>, d: ScannedDocument,
                   replies': Replies, n': nat, objects': map<Path, S3Object>, d': ScannedDocument)
    requires NoCollisions(env) && d.path == d'.path && d.contentHash == d'.contentHash
    requires LoadAt(env, replies, n, objects, d).Some? && LoadAt(env, replies', n', objects', d').Some?
    ensures LoadAt(env, replies, n, objects, d) == LoadAt(env, replies', n', objects', d')
  {
    var content, content' := ReadAt(replies, n, objects[d.path]).value, ReadAt(replies', n', objects'[d.path]).value;
    assert env.sha(content) == env.sha(content');
  }

  lemma LoadIsText(env: Environment, replies: Replies, n: nat, objects: map<Path, S3Object>, d: ScannedDocument)
    requires NoCollisions(env) && LoadAt(env, replies, n, objects, d).Some?
    ensures LoadAt(env, replies, n, objects, d).value == TextFor(env, d.path, d.contentHash)
  {
    var content := ReadAt(replies, n, objects[d.path]).value;
    assert env.sha(content) == env.sha(Preimage(env, d.contentHash));
  }

  /** So the theorems about rebuilding hold for S3 sources. */
  lemma S3JobsFit(env: Environment, e: Embedding, chunk: string -> seq<Chunk>, run: S3Run, job: Job)
    requires NoCollisions(env) && IsS3Job(env, chunk, run, job) && job.embedding == e
    ensures JobFits(S3World(env, e, chunk), job) && CollisionFree(S3World(env, e, chunk))
  {
    hide WellFormed, ScannedBy;
    var w := S3World(env, e, chunk);
    forall p | p in job.scan ensures job.scan[p].path == p && ItemFits(w, job.scan[p]) {
      var content, metadata := ScansDescribe(env, run, job.scan, p);
      assert env.sha(content) == env.sha(Preimage(env, env.sha(content)));
    }
    forall d | job.reader.load(d).Some? ensures job.reader.load(d).value == w.content(d.path, d.contentHash) {
      LoadIsText(env, run.replies, run.schedule(d), run.objects, d);
    }
  }

  /** After every history of S3 synchronizations the corpus is the rebuild of the last successful scan. */
  lemma S3CorpusIsLastRebuilt(env: Environment, e: Embedding, chunk: string -> seq<Chunk>, runs: seq<S3Run>,
                              events: seq<Event>)
    requires NoCollisions(env) && PossibleHistory(events) && IsS3History(env, chunk, runs, events)
    requires forall i | 0 <= i < |events| && events[i].Success? :: events[i].job.embedding == e
    ensures CorpusOf(Replay(events).tables) == LastRebuilt(S3World(env, e, chunk), events)
  {
    hide IsS3Job, JobFits, NoCollisions, CollisionFree, S3World, PossibleHistory, Replay, CorpusOf, LastRebuilt;
    var w := S3World(env, e, chunk);
    forall i | 0 <= i < |events| && events[i].Success? ensures JobFits(w, events[i].job) {
      S3JobsFit(env, e, chunk, runs[i], events[i].job);
    }
    CanonicalMetadata(env, e, chunk);
    CorpusIsLastRebuilt(w, events);
  }

  lemma CanonicalMetadata(env: Environment, e: Embedding, chunk: string -> seq<Chunk>)
    requires NoCollisions(env)
    ensures CollisionFree(S3World(env, e, chunk))
  {
    hide WellFormed;
  }
}
