/** The streaming part of `SyncPipeline.sync`: documents are loaded, chunked, embedded in batches that
    cross document boundaries, and stored as soon as they are complete. */
module Pipeline {
  import opened Strings
  import opened Sequences
  import opened Models
  import opened StoreTables
  import opened SyncPlan
  import opened EmbeddingProvider
  import opened EmbeddingQueue
  import opened StoreSteps

  /** The two sides agree on the model and account for the same documents. */
  ghost predicate InStep(b: Buffers, w: StoreWriter)
    reads b, w
  {
    w.embedding == b.embedder.embedding && b.handled == w.stored + b.queued
  }

  /** One round of the loop below: the complete head leaves the queue and goes to the store. */
  method StoreHead(b: Buffers, w: StoreWriter) returns (ok: bool)
    requires b.Valid() && w.Valid() && InStep(b, w)
    requires b.pendingDocuments != [] && |b.pendingDocuments[0].embeddings| == |b.pendingDocuments[0].chunks|
    modifies b`pendingDocuments, b`queued, w, w.store`working, w.store`nextId, w.store`calls
    ensures b.Valid() && InStep(b, w)
    ensures b.pendingDocuments == old(b.pendingDocuments)[1..]
    ensures w.store.Valid() && w.store.working.Some?
    ensures w.store.nextId >= old(w.store.nextId) && w.store.calls >= old(w.store.calls)
    ensures ok ==> w.Valid()
    ensures w.Accepts(b.handled) ==> ok
  {
    hide Buffers.QueueHolds, OneByOne, ValidTables, Flatten, AllTexts, Vectors, StoreWriter.Accepts, Answered;
    var prepared := b.PopLeft();
    var work := Work(prepared.document, prepared.chunks);
    AccountMoves(w.stored, work, b.queued);
    if w.Accepts(b.handled) { w.AcceptsPart(w.stored + [work], b.queued); }
    ok := StoreBeside(b, w, work, prepared.embeddings);
  }

  /** Storing a document leaves the buffers alone. */
  method StoreBeside(b: Buffers, w: StoreWriter, work: Work, vectors: seq<Vector>) returns (ok: bool)
    requires b.Valid() && w.Valid()
    requires vectors == Vectors(w.embedding, TextsOf(work.chunks))
    modifies w, w.store`working, w.store`nextId, w.store`calls
    ensures b.Valid()
    ensures w.store.Valid() && w.store.working.Some?
    ensures w.store.nextId >= old(w.store.nextId) && w.store.calls >= old(w.store.calls)
    ensures w.stored == old(w.stored) + [work]
    ensures ok ==> w.Valid()
    ensures ok <==> w.Accepts(w.stored)
  {
    hide StoreWriter.Accepts, Answered;
    ghost var before := EmbeddingsOf(b.pendingDocuments);
    ok := w.StoreDocument(work, vectors);
    assert EmbeddingsOf(b.pendingDocuments) == before;
  }

  lemma AccountMoves(stored: seq<Work>, work: Work, queued: seq<Work>)
    ensures stored + ([work] + queued) == (stored + [work]) + queued
  {
  }

  lemma HeadIsBounded(b: Buffers)
    requires b.Valid() && b.pendingDocuments != []
    ensures b.pendingDocuments[0] in b.documents
    ensures |b.pendingDocuments[0].embeddings| <= |b.pendingDocuments[0].chunks|
  {
    hide Answered, Flatten, AllTexts;
  }

  /** `store_completed_documents` */
  method StoreCompletedDocuments(b: Buffers, w: StoreWriter) returns (ok: bool)
    requires b.Valid() && w.Valid() && InStep(b, w)
    modifies b`pendingDocuments, b`queued, w, w.store`working, w.store`nextId, w.store`calls
    ensures w.store.Valid() && w.store.working.Some?
    ensures w.store.nextId >= old(w.store.nextId) && w.store.calls >= old(w.store.calls)
    ensures ok ==> b.Valid() && w.Valid() && InStep(b, w) && b.Settled()
    ensures w.Accepts(b.handled) ==> ok
  {
    hide StoreWriter.Accepts, Answered, Buffers.QueueHolds, OneByOne, ValidTables, Flatten, AllTexts;
    while b.pendingDocuments != []
      invariant b.Valid() && w.Valid() && InStep(b, w)
      invariant w.store.nextId >= old(w.store.nextId) && w.store.calls >= old(w.store.calls)
      decreases |b.pendingDocuments|
    {
      var prepared := b.pendingDocuments[0];
      if |prepared.embeddings| != |prepared.chunks| {
        HeadIsBounded(b);
        break;
      }
      ok := StoreHead(b, w);
      if !ok {
        return;
      }
    }
    ok := true;
  }

  // ---------- The streaming loop ----------

  ghost predicate Consistent(b: Buffers, w: StoreWriter)
    reads b, b.embedder, b.documents, w, w.store
  {
    b.Valid() && w.Valid() && InStep(b, w)
  }

  /** A full batch is embedded and what it completes is stored. */
  method FlushAndStore(b: Buffers, w: StoreWriter) returns (ok: bool)
    requires Consistent(b, w)
    modifies b`pendingChunks, b`embeddingBatches, b`pendingDocuments, b`queued, b.embedder`calls, b.documents
    modifies w, w.store`working, w.store`nextId, w.store`calls
    ensures w.store.Valid() && w.store.working.Some?
    ensures w.store.nextId >= old(w.store.nextId) && w.store.calls >= old(w.store.calls)
    ensures b.embeddingBatches == |b.embedder.calls| - b.callsBefore
    ensures ok ==> Consistent(b, w) && b.Settled() && b.pendingChunks == []
    ensures ok ==> b.embedder.calls == old(b.embedder.calls)
                   + (if old(b.pendingChunks) == [] then [] else [PairTexts(old(b.pendingChunks))])
    ensures (&& w.Accepts(b.handled)
             && (old(b.pendingChunks) == []
                 || Right(b.embedder.answers(|old(b.embedder.calls)|), |old(b.pendingChunks)|))) ==> ok
  {
    hide StoreWriter.Accepts, Answered, Right;
    ok := b.FlushEmbeddingBatch();
    if ok {
      ok := StoreCompletedDocuments(b, w);
    }
  }

  /** A full batch that waits is one of the full batches of all texts. */
  lemma NextIsRight(b: Buffers)
    requires b.Valid() && b.Full() && |b.pendingChunks| == b.batchSize && b.Serves(b.handled)
    ensures Right(b.embedder.answers(|b.embedder.calls|), |b.pendingChunks|)
  {
    hide Right, Answered, Buffers.QueueHolds, Batches, AllTexts;
    var calls, batch, rest := b.Calls(), PairTexts(b.pendingChunks), PairTexts(b.unqueued);
    assert PairTexts(b.pendingChunks + b.unqueued) == batch + rest;
    FlattenSnoc(calls, batch);
    assert Flatten(calls + [batch]) + rest == AllTexts(b.handled);
    FullBatchesFirst(calls + [batch], rest, b.batchSize);
    assert (calls + [batch] + Batches(rest, b.batchSize))[|calls|] == batch;
  }

  lemma FlattenSnoc<T>(parts: seq<seq<T>>, part: seq<T>)
    ensures Flatten(parts + [part]) == Flatten(parts) + part
  {
  }

  /** The body of the loop over the chunks of a document. */
  method TakeChunk(b: Buffers, w: StoreWriter, prepared: PreparedDocument, chunk: Chunk) returns (ok: bool)
    requires Consistent(b, w) && b.Full() && |b.pendingChunks| < b.batchSize
    requires b.unqueued != [] && b.unqueued[0] == (prepared, chunk)
    modifies b`pendingChunks, b`unqueued, b`embeddingBatches, b`pendingDocuments, b`queued, b.embedder`calls,
          b.documents
    modifies w, w.store`working, w.store`nextId, w.store`calls
    ensures w.store.Valid() && w.store.working.Some?
    ensures w.store.nextId >= old(w.store.nextId) && w.store.calls >= old(w.store.calls)
    ensures b.embeddingBatches == |b.embedder.calls| - b.callsBefore
    ensures ok ==> Consistent(b, w) && b.Full() && |b.pendingChunks| < b.batchSize && b.unqueued == old(b.unqueued)[1..]
    ensures w.Accepts(b.handled) && b.Serves(b.handled) ==> ok
  {
    hide AllFull, StoreWriter.Accepts, Buffers.QueueHolds, Buffers.Serves, Answered, Right;
    b.AppendChunk(prepared, chunk);
    ok := true;
    if |b.pendingChunks| == b.batchSize {
      ghost var calls, batch := b.embedder.calls, PairTexts(b.pendingChunks);
      if b.Serves(b.handled) { NextIsRight(b); }
      ok := FlushAndStore(b, w);
      if ok {
        AllFullSnoc(calls, batch, b.callsBefore, b.batchSize);
      }
    }
  }

  lemma AllFullSnoc(calls: seq<seq<string>>, batch: seq<string>, from: nat, size: nat)
    requires AllFull(calls, from, size) && |batch| == size
    ensures AllFull(calls + [batch], from, size)
  {
  }

  /** The loop over the chunks of a document. */
  method TakeChunks(b: Buffers, w: StoreWriter, prepared: PreparedDocument) returns (ok: bool)
    requires Consistent(b, w) && b.Full() && |b.pendingChunks| < b.batchSize
    requires b.unqueued == PairsOf(prepared, prepared.chunks)
    modifies b`pendingChunks, b`unqueued, b`embeddingBatches, b`pendingDocuments, b`queued, b.embedder`calls,
          b.documents
    modifies w, w.store`working, w.store`nextId, w.store`calls
    ensures w.store.Valid() && w.store.working.Some?
    ensures w.store.nextId >= old(w.store.nextId) && w.store.calls >= old(w.store.calls)
    ensures b.embeddingBatches == |b.embedder.calls| - b.callsBefore
    ensures ok ==> Consistent(b, w) && b.Full() && |b.pendingChunks| < b.batchSize && b.unqueued == []
    ensures w.Accepts(b.handled) && b.Serves(b.handled) ==> ok
  {
    hide StoreWriter.Accepts, Buffers.Serves, Answered;
    for i := 0 to |prepared.chunks|
      invariant Consistent(b, w) && b.Full() && |b.pendingChunks| < b.batchSize
      invariant b.unqueued == PairsOf(prepared, prepared.chunks)[i..]
      invariant w.store.nextId >= old(w.store.nextId) && w.store.calls >= old(w.store.calls)
    {
      ok := TakeChunk(b, w, prepared, prepared.chunks[i]);
      if !ok {
        return;
      }
    }
    ok := true;
  }

  method AppendDocument(b: Buffers, w: StoreWriter, prepared: PreparedDocument)
    requires Consistent(b, w) && b.unqueued == []
    requires prepared !in b.documents && prepared.embeddings == []
    modifies b`pendingDocuments, b`documents, b`queued, b`handled, b`unqueued
    ensures Consistent(b, w) && b.documents == old(b.documents) + {prepared}
    ensures b.handled == old(b.handled) + [Work(prepared.document, prepared.chunks)]
    ensures b.unqueued == PairsOf(prepared, prepared.chunks)
  {
    hide Holds, Linked, Vectors, OneByOne, Flatten, AllTexts, ValidTables;
    b.Append(prepared);
  }

  /** One document: queue it, embed and store whenever a batch is full, then store what is complete. */
  method HandleDocument(b: Buffers, w: StoreWriter, prepared: PreparedDocument) returns (ok: bool)
    requires Consistent(b, w) && b.Full() && |b.pendingChunks| < b.batchSize && b.unqueued == []
    requires prepared !in b.documents && prepared.embeddings == []
    modifies b, b.embedder`calls, b.documents, prepared
    modifies w, w.store`working, w.store`nextId, w.store`calls
    ensures w.store.Valid() && w.store.working.Some?
    ensures w.store.nextId >= old(w.store.nextId) && w.store.calls >= old(w.store.calls)
    ensures b.embeddingBatches == |b.embedder.calls| - b.callsBefore
    ensures b.documents == old(b.documents) + {prepared}
    ensures b.handled == old(b.handled) + [Work(prepared.document, prepared.chunks)]
    ensures ok ==> Consistent(b, w) && b.Full() && |b.pendingChunks| < b.batchSize && b.unqueued == []
    ensures ok ==> b.Settled()
    ensures w.Accepts(b.handled) && b.Serves(b.handled) ==> ok
  {
    hide Buffers.QueueHolds, InStep, ValidTables, AllFull, OneByOne, Flatten, AllTexts, StoreWriter.Accepts;
    hide Buffers.Serves, Answered;
    AppendDocument(b, w, prepared);
    ok := TakeChunks(b, w, prepared);
    if ok {
      ok := StoreCompletedDocuments(b, w);
    }
  }

  /** Between documents the queue stays small: apart from empty documents it holds no more documents than
      chunks wait, and those are fewer than a batch. */
  lemma QueueStaysSmall(b: Buffers)
    requires b.Valid() && b.Settled() && b.unqueued == [] && |b.pendingChunks| < b.batchSize
    ensures NonEmpty(SlotsOf(b.pendingDocuments, EmbeddingsOf(b.pendingDocuments))) <= |b.pendingChunks| < b.batchSize
  {
    assert b.pendingChunks + b.unqueued == b.pendingChunks;
    NonEmptyDocumentsWait(SlotsOf(b.pendingDocuments, EmbeddingsOf(b.pendingDocuments)));
  }

  /** Once nothing waits for a vector and no complete document is at the head, the queue is empty. */
  lemma DrainedQueueIsEmpty(b: Buffers)
    requires b.Valid() && b.Settled() && b.unqueued == [] && b.pendingChunks == []
    ensures b.pendingDocuments == []
  {
  }

  // ---------- The whole stream ----------

  /** What reading a document yields during one synchronization, which reads every document at most once:
      its text, and the chunks of a text. Both can raise. */
  datatype Reader = Reader(load: ScannedDocument -> Option<string>, chunk: string -> Option<seq<Chunk>>)

  /** None when loading or chunking raises. */
  function Read(r: Reader, item: ScannedDocument): Option<seq<Chunk>> {
    var text := r.load(item);
    if text.None? then None else r.chunk(text.value)
  }

  /** The documents read one after the other; None when one of them cannot be read. */
  function ReadAll(r: Reader, items: seq<ScannedDocument>): Option<seq<Work>> {
    if items == [] then Some([])
    else
      var last := items[|items| - 1];
      var before, chunks := ReadAll(r, items[..|items| - 1]), Read(r, last);
      if before.None? || chunks.None? then None else Some(before.value + [Work(last, chunks.value)])
  }

  /** Every document can be read, and the store accepts what comes out. */
  predicate Acceptable(r: Reader, items: seq<ScannedDocument>) {
    ReadAll(r, items).Some? && AllStorable(ReadAll(r, items).value)
  }

  /** What is read up to some document. */
  lemma {:induction false} ReadAllPrefix(r: Reader, items: seq<ScannedDocument>, n: nat) returns (more: seq<Work>)
    requires ReadAll(r, items).Some? && n <= |items|
    ensures ReadAll(r, items[..n]).Some? && ReadAll(r, items).value == ReadAll(r, items[..n]).value + more
    decreases |items|
  {
    if n == |items| {
      assert items[..n] == items;
      more := [];
    } else {
      var k := |items| - 1;
      more := ReadAllPrefix(r, items[..k], n);
      assert items[..k][..n] == items[..n];
      more := more + [Work(items[k], Read(r, items[k]).value)];
    }
  }

  lemma ServesPart(b: Buffers, works: seq<Work>, more: seq<Work>)
    requires b.Serves(works + more)
    ensures b.Serves(works)
  {
    hide Batches, AllTexts, Right;
    var rest := AllTextsAppend(works, more);
    var batches := Batches(AllTexts(works), b.batchSize);
    forall i | 0 <= i < |batches| && |batches[i]| == b.batchSize
      ensures Right(b.embedder.answers(b.callsBefore + i), b.batchSize)
    {
      FullBatchesStay(AllTexts(works), rest, b.batchSize, i);
    }
  }

  lemma {:induction false} AllTextsAppend(works: seq<Work>, more: seq<Work>) returns (rest: seq<string>)
    ensures AllTexts(works + more) == AllTexts(works) + rest
    decreases |more|
  {
    hide AllTexts;
    if more == [] {
      assert works + more == works;
      rest := [];
    } else {
      var n := |more| - 1;
      rest := AllTextsAppend(works, more[..n]);
      assert works + more == (works + more[..n]) + [more[n]];
      AllTextsSnoc(works + more[..n], more[n]);
      rest := rest + TextsOf(more[n].chunks);
    }
  }

  /** One round of the document loop. */
  method StreamOne(b: Buffers, w: StoreWriter, r: Reader, item: ScannedDocument) returns (ok: bool)
    requires Consistent(b, w) && b.Full() && |b.pendingChunks| < b.batchSize && b.unqueued == []
    modifies b, b.embedder`calls, b.documents
    modifies w, w.store`working, w.store`nextId, w.store`calls
    ensures w.store.Valid() && w.store.working.Some?
    ensures w.store.nextId >= old(w.store.nextId) && w.store.calls >= old(w.store.calls)
    ensures b.embeddingBatches == |b.embedder.calls| - b.callsBefore
    ensures fresh(b.documents - old(b.documents))
    ensures ok ==> Consistent(b, w) && b.Full() && |b.pendingChunks| < b.batchSize && b.unqueued == []
    ensures ok ==> Read(r, item).Some? && b.handled == old(b.handled) + [Work(item, Read(r, item).value)]
    ensures (&& Read(r, item).Some?
             && w.Accepts(old(b.handled) + [Work(item, Read(r, item).value)])
             && b.Serves(old(b.handled) + [Work(item, Read(r, item).value)])) ==> ok
  {
    hide StoreWriter.Accepts, Buffers.Serves, Answered;
    var text := r.load(item);
    if text.None? {
      return false;
    }
    var chunks := r.chunk(text.value);
    if chunks.None? {
      return false;
    }
    var prepared := new PreparedDocument(item, chunks.value);
    ok := HandleDocument(b, w, prepared);
  }

  /** The document loop. */
  method StreamAll(b: Buffers, w: StoreWriter, r: Reader, items: seq<ScannedDocument>) returns (ok: bool)
    requires Consistent(b, w) && b.Full() && b.pendingChunks == [] && b.unqueued == [] && b.handled == []
    modifies b, b.embedder`calls, b.documents
    modifies w, w.store`working, w.store`nextId, w.store`calls
    ensures w.store.Valid() && w.store.working.Some?
    ensures w.store.nextId >= old(w.store.nextId) && w.store.calls >= old(w.store.calls)
    ensures b.embeddingBatches == |b.embedder.calls| - b.callsBefore
    ensures ok ==> Consistent(b, w) && b.Full() && |b.pendingChunks| < b.batchSize && b.unqueued == []
    ensures fresh(b.documents - old(b.documents))
    ensures ok ==> ReadAll(r, items) == Some(b.handled)
    ensures (&& ReadAll(r, items).Some? && w.Accepts(ReadAll(r, items).value)
             && b.Serves(ReadAll(r, items).value)) ==> ok
  {
    hide Buffers.QueueHolds, InStep, ValidTables, AllFull, OneByOne, Flatten, AllTexts, StoreWriter.Accepts;
    hide Buffers.Serves, Answered;
    for i := 0 to |items|
      invariant Consistent(b, w) && b.Full() && |b.pendingChunks| < b.batchSize && b.unqueued == []
      invariant fresh(b.documents - old(b.documents))
      invariant w.store.nextId >= old(w.store.nextId) && w.store.calls >= old(w.store.calls)
      invariant ReadAll(r, items[..i]) == Some(b.handled)
    {
      assert items[..i + 1][..i] == items[..i];
      if ReadAll(r, items).Some? && w.Accepts(ReadAll(r, items).value) && b.Serves(ReadAll(r, items).value) {
        ghost var more := ReadAllPrefix(r, items, i + 1);
        w.AcceptsPart(ReadAll(r, items[..i + 1]).value, more);
        ServesPart(b, ReadAll(r, items[..i + 1]).value, more);
      }
      ok := StreamOne(b, w, r, items[i]);
      if !ok {
        return;
      }
    }
    assert items[..|items|] == items;
    ok := true;
  }

  /** The last flush; the guard after it, "Could not map all embeddings", can never fire. */
  method Drain(b: Buffers, w: StoreWriter) returns (ok: bool)
    requires Consistent(b, w) && b.Full() && b.unqueued == []
    modifies b`pendingChunks, b`embeddingBatches, b`pendingDocuments, b`queued, b.embedder`calls, b.documents
    modifies w, w.store`working, w.store`nextId, w.store`calls
    ensures w.store.Valid() && w.store.working.Some?
    ensures w.store.nextId >= old(w.store.nextId) && w.store.calls >= old(w.store.calls)
    ensures b.embeddingBatches == |b.embedder.calls| - b.callsBefore
    ensures ok ==> w.Valid() && w.stored == b.handled
    ensures ok ==> b.Calls() == Batches(AllTexts(b.handled), b.batchSize)
    ensures ok <==> && w.Accepts(b.handled)
                    && Answered(b.embedder.answers, b.callsBefore, Batches(AllTexts(b.handled), b.batchSize))
  {
    hide StoreWriter.Accepts, Right, Answered, AllFull, Batches, AllTexts, Flatten, OneByOne, ValidTables, PairTexts;
    hide Holds;
    LastCalls(b);
    ghost var all := Batches(AllTexts(b.handled), b.batchSize);
    ghost var calls, from := b.embedder.calls, b.callsBefore;
    ok := FlushAndStore(b, w);
    if ok {
      if b.pendingDocuments != [] {
        DrainedQueueIsEmpty(b);
        assert false;
      }
      CallsFrom(calls, b.embedder.calls, from);
      assert b.Calls() == all;
    }
  }

  lemma CallsFrom(calls: seq<seq<string>>, now: seq<seq<string>>, from: nat)
    requires from <= |calls| && calls <= now
    ensures now[from..] == calls[from..] + now[|calls|..]
  {
  }

  /** The calls made so far, and one for what still waits, are the batches of all texts. */
  lemma LastCalls(b: Buffers)
    requires b.Valid() && b.Full() && b.unqueued == []
    ensures var all := Batches(AllTexts(b.handled), b.batchSize);
            && all == b.Calls() + (if b.pendingChunks == [] then [] else [PairTexts(b.pendingChunks)])
            && (Answered(b.embedder.answers, b.callsBefore, all) <==>
                b.pendingChunks == [] || Right(b.embedder.answers(|b.embedder.calls|), |b.pendingChunks|))
  {
    hide Right, Batches, AllTexts, Flatten, Buffers.QueueHolds;
    var calls, rest := b.Calls(), PairTexts(b.pendingChunks);
    assert b.pendingChunks + b.unqueued == b.pendingChunks;
    FullBatchesThenRest(calls, rest, b.batchSize);
    if b.pendingChunks != [] {
      assert rest != [] && (calls + [rest])[|calls|] == rest;
      if Answered(b.embedder.answers, b.callsBefore, calls + [rest]) {
        assert Right(b.embedder.answers(b.callsBefore + |calls|), |rest|);
      } 
      if Right(b.embedder.answers(|b.embedder.calls|), |rest|) {
        OneMoreAnswered(b.embedder.answers, b.callsBefore, calls, rest);
      }
    }
  }
}
