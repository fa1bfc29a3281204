/** `sync` on an S3 source, request by request. */
module S3Synchronization {
  import opened Strings
  import opened Models
  import opened SourceDiffing
  import opened StoreTables
  import opened PgStore
  import opened EmbeddingProvider
  import opened Pipeline
  import opened Synchronization
  import opened History
  import opened SyncHistory
  import opened S3Source
  import opened S3Coherence

  /** Where a document comes in a list. */
  function Position(items: seq<ScannedDocument>, d: ScannedDocument): (i: nat)
    ensures i <= |items| && (i < |items| ==> items[i] == d)
  {
    if items == [] || items[0] == d then 0 else 1 + Position(items[1..], d)
  }

  /** The n-th document of a list is loaded by the n-th request from `first` on. */
  function InOrder(items: seq<ScannedDocument>, first: nat): ScannedDocument -> nat {
    (d: ScannedDocument) => first + Position(items, d)
  }

  /** The reader of texts that have been loaded in order. */
  function LoadedTexts(items: seq<ScannedDocument>, texts: seq<string>): ScannedDocument -> Option<string> {
    (d: ScannedDocument) => if Position(items, d) < |texts| then Some(texts[Position(items, d)]) else None
  }

  /** The `load` calls for a list of documents; the first one that raises is the last one made. */
  method LoadInOrder(source: S3DocumentSource, items: seq<ScannedDocument>) returns (texts: seq<string>)
    requires forall i | 0 <= i < |items| :: items[i].path in source.objects
    modifies source.bucket
    ensures |texts| <= |items|
    ensures forall i | 0 <= i < |texts| ::
              LoadAt(source.env, source.bucket.replies, old(source.bucket.requests) + i, source.objects, items[i])
              == Some(texts[i])
    ensures |texts| < |items| ==>
              LoadAt(source.env, source.bucket.replies, old(source.bucket.requests) + |texts|, source.objects,
                     items[|texts|]).None?
    ensures source.bucket.requests == old(source.bucket.requests) + |texts| + (if |texts| < |items| then 1 else 0)
  {
    hide LoadAt;
    texts := [];
    for n := 0 to |items|
      invariant |texts| == n && source.bucket.requests == old(source.bucket.requests) + n
      invariant forall i | 0 <= i < n ::
                  LoadAt(source.env, source.bucket.replies, old(source.bucket.requests) + i, source.objects, items[i])
                  == Some(texts[i])
    {
      var text := source.Load(items[n]);
      if text.None? {
        return;
      }
      texts := texts + [text.value];
    }
  }

  lemma ItemsAreScanned(scan: Scan, t: Tables)
    requires KeyedByPath(scan)
    ensures var items := WorkItems(Diff(scan, StatesOf(t)));
            forall i | 0 <= i < |items| :: items[i].path in scan
  {
    hide Diff, StatesOf;
    SnapshotIsCurrent(t);
    DiffMembers(scan, StatesOf(t));
    var diff := Diff(scan, StatesOf(t));
    var items := WorkItems(diff);
    forall i | 0 <= i < |items| ensures items[i].path in scan {
      assert items[i] in diff.newItems || items[i] in diff.changedItems;
      assert IsClass(scan, StatesOf(t), items[i], if items[i] in diff.newItems then New else Changed);
    }
  }

  lemma ScansAreKeyed(env: Environment, run: S3Run, scan: Scan)
    requires ScannedBy(env, run, scan)
    ensures KeyedByPath(scan)
  {
    hide ScannedBy;
    forall p | p in scan ensures scan[p].path == p {
      var content, metadata := ScansDescribe(env, run, scan, p);
    }
  }

  lemma ScannedAreKnown(env: Environment, run: S3Run, scan: Scan)
    requires ScannedBy(env, run, scan)
    ensures scan.Keys == run.objects.Keys
  {
    hide AllRead, ManifestAt, ListingAt;
  }

  /** Every text that the reader gives was returned by `load`, at the scheduled request. */
  ghost predicate LoadsAsScheduled(env: Environment, run: S3Run, load: ScannedDocument -> Option<string>) {
    forall d :: load(d).Some? ==> load(d) == LoadAt(env, run.replies, run.schedule(d), run.objects, d)
  }

  lemma LoadedAsScheduled(env: Environment, run: S3Run, items: seq<ScannedDocument>, first: nat, texts: seq<string>)
    requires run.schedule == InOrder(items, first) && |texts| <= |items|
    requires forall i | 0 <= i < |texts| :: LoadAt(env, run.replies, first + i, run.objects, items[i]) == Some(texts[i])
    ensures LoadsAsScheduled(env, run, LoadedTexts(items, texts))
  {
    hide LoadAt;
    var load := LoadedTexts(items, texts);
    forall d | load(d).Some? ensures load(d) == LoadAt(env, run.replies, run.schedule(d), run.objects, d) {
      var i := Position(items, d);
      assert run.schedule(d) == first + i && items[i] == d;
    }
  }

  lemma LoadedJobIsS3Job(env: Environment, chunking: string -> seq<Chunk>, run: S3Run, job: Job)
    requires ScannedBy(env, run, job.scan) && LoadsAsScheduled(env, run, job.reader.load)
    requires forall text :: job.reader.chunk(text).Some? ==> job.reader.chunk(text).value == chunking(text)
    ensures IsS3Job(env, chunking, run, job)
  {
    hide LoadAt, ScannedBy;
  }

  /** The scan, and the loads that the diff against the committed tables calls for. They are made here before the
      transaction, where the code makes them between its statements; the bucket answers them the same. */
  method ScanAndLoad(source: S3DocumentSource, committed: Tables)
    returns (scan: Option<Scan>, load: ScannedDocument -> Option<string>, ghost run: S3Run)
    modifies source, source.bucket
    ensures scan.Some? <==> CanScan(source.env, source.prefix, source.bucket.replies, old(source.bucket.requests))
    ensures run.prefix == source.prefix && run.replies == source.bucket.replies
    ensures run.start == old(source.bucket.requests) && run.objects == source.objects
    ensures scan.Some? ==>
              && KeyedByPath(scan.value) && ScannedBy(source.env, run, scan.value)
              && run.schedule == InOrder(WorkItems(Diff(scan.value, StatesOf(committed))),
                                         NextAfterScan(source.env, run.prefix, run.replies, run.start))
              && LoadsAsScheduled(source.env, run, load)
  {
    hide CanScan, LoadAt, KeyedByPath, StatesOf, Diff, NextAfterScan, LoadsAsScheduled;
    load := _ => None;
    run := S3Run(source.prefix, source.bucket.replies, source.bucket.requests, source.objects, _ => 0);
    scan := source.Scan();
    run := run.(objects := source.objects);
    if scan.None? {
      return;
    }
    ScansAreKeyed(source.env, run, scan.value);
    ScannedAreKnown(source.env, run, scan.value);
    ItemsAreScanned(scan.value, committed);
    var diff := DiffSource(scan.value, StatesOf(committed));
    var items := WorkItems(diff);
    ghost var first := source.bucket.requests;
    var texts := LoadInOrder(source, items);
    run := run.(schedule := InOrder(items, first));
    load := LoadedTexts(items, texts);
    LoadedAsScheduled(source.env, run, items, first, texts);
  }

  lemma OneMoreRun(env: Environment, chunking: string -> seq<Chunk>, runs: seq<S3Run>, events: seq<Event>, run: S3Run,
                   ev: Event)
    requires IsS3History(env, chunking, runs, events) && (ev.Success? ==> IsS3Job(env, chunking, run, ev.job))
    ensures IsS3History(env, chunking, runs + [run], events + [ev])
  {
    hide IsS3Job;
  }

  /** `sync` on an S3 source whose store is the outcome of a history of such calls: lock, scan, loads in the order of
      the plan, and the rest. It extends the history by one event and one run, with the requests it really made,
      so that in the store all chunks come from bytes answered for their document, with the stored hash. */
  method SynchronizeS3(store: Store, embedder: Embedder, batchSize: nat, source: S3DocumentSource,
                       chunk: string -> Option<seq<Chunk>>, sourceLabel: string, runId: nat,
                       ghost chunking: string -> seq<Chunk>, ghost runs: seq<S3Run>, ghost events: seq<Event>)
    returns (outcome: Outcome, ghost scan: Option<Scan>, ghost run: S3Run, ghost ev: Event)
    requires batchSize > 0 && store.Valid() && store.working.None?
    requires forall text :: chunk(text).Some? ==> chunk(text).value == chunking(text)
    requires PossibleHistory(events) && Replay(events) == State(store.committed, store.nextId)
    requires IsS3History(source.env, chunking, runs, events)
    modifies store, embedder`calls, source, source.bucket
    ensures store.Valid() && store.working.None?
    // only the holder of the lock scans
    ensures scan.Some? <==> && !store.fails(old(store.calls)) && !old(store.locked)
                            && CanScan(source.env, source.prefix, source.bucket.replies, old(source.bucket.requests))
    ensures store.fails(old(store.calls)) || old(store.locked) ==> source.bucket.requests == old(source.bucket.requests)
    // the requests that were made
    ensures run.prefix == source.prefix && run.replies == source.bucket.replies
    ensures run.start == old(source.bucket.requests) && run.objects == source.objects
    ensures scan.Some? ==>
              && ScannedBy(source.env, run, scan.value)
              && run.schedule == InOrder(WorkItems(Diff(scan.value, StatesOf(old(store.committed)))),
                                         NextAfterScan(source.env, run.prefix, run.replies, run.start))
    ensures outcome.Completed? ==> scan.Some? && ev.Success?
    ensures ev.Success? ==> scan.Some? && ev.job.scan == scan.value && IsS3Job(source.env, chunking, run, ev.job)
    // the history goes on, and with it what it guarantees
    ensures PossibleHistory(events + [ev]) && Replay(events + [ev]) == State(store.committed, store.nextId)
    ensures IsS3History(source.env, chunking, runs + [run], events + [ev])
    ensures AllFromHashedBytes(source.env, chunking, runs + [run], CorpusOf(store.committed))
  {
    hide PossibleHistory, Replay, ScannedBy, CanScan, LoadsAsScheduled, KeyedByPath, Diff, CommitReply, NextAfterScan;
    hide AllFromHashedBytes, IsS3Job, IsS3History, JobWorks;
    var found: Option<Scan> := None;
    var load: ScannedDocument -> Option<string> := _ => None;
    run := S3Run(source.prefix, source.bucket.replies, source.bucket.requests, source.objects, _ => 0);
    if !store.fails(store.calls) && !store.locked {
      found, load, run := ScanAndLoad(source, store.committed);
    }
    scan := found;
    ghost var job := JobOf(store, embedder, batchSize, Reader(load, chunk), found, sourceLabel, runId);
    if found.Some? { LoadedJobIsS3Job(source.env, chunking, run, job); }
    outcome, ev := SynchronizeNext(store, embedder, batchSize, Reader(load, chunk), found, sourceLabel, runId, events);
    OneMoreRun(source.env, chunking, runs, events, run, ev);
    StoredFromHashedBytes(source.env, chunking, runs + [run], events + [ev]);
  }
}
