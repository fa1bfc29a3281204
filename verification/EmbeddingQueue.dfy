/** The two buffers of the pipeline: the FIFO queue of prepared documents, and the chunks waiting for the
    next embedding call. Reasoning about them is done on a value that describes the queue. */
module EmbeddingQueue {
  import opened Strings
  import opened Sequences
  import opened Models
  import opened SyncPlan
  import opened EmbeddingProvider

  class PreparedDocument {
    const document: ScannedDocument
    const chunks: seq<Chunk>
    var embeddings: seq<Vector>

    constructor (document: ScannedDocument, chunks: seq<Chunk>)
      ensures this.document == document && this.chunks == chunks && embeddings == []
    {
      this.document, this.chunks, embeddings := document, chunks, [];
    }
  }

  type Pair = (PreparedDocument, Chunk)

  /** One queued document and how many of its chunks have a vector. */
  datatype Slot = Slot(prepared: PreparedDocument, chunks: seq<Chunk>, embedded: nat)

  /** The vectors that the queued documents have at the moment. */
  ghost function EmbeddingsOf(queue: seq<PreparedDocument>): (r: seq<seq<Vector>>)
    reads queue
    ensures |r| == |queue| && forall i | 0 <= i < |queue| :: r[i] == queue[i].embeddings
  {
    seq(|queue|, i requires 0 <= i < |queue| reads queue => queue[i].embeddings)
  }

  ghost function SlotsOf(queue: seq<PreparedDocument>, vectors: seq<seq<Vector>>): (r: seq<Slot>)
    requires |vectors| == |queue|
    ensures |r| == |queue| && forall i | 0 <= i < |queue| :: r[i] == Slot(queue[i], queue[i].chunks, |vectors[i]|)
  {
    seq(|queue|, i requires 0 <= i < |queue| => Slot(queue[i], queue[i].chunks, |vectors[i]|))
  }

  ghost predicate Bounded(slots: seq<Slot>) {
    forall i | 0 <= i < |slots| :: slots[i].embedded <= |slots[i].chunks|
  }

  ghost function PairsOf(prepared: PreparedDocument, chunks: seq<Chunk>): seq<Pair> {
    seq(|chunks|, i requires 0 <= i < |chunks| => (prepared, chunks[i]))
  }

  /** The chunks that still need a vector, in queue order. */
  ghost function Waiting(slots: seq<Slot>): seq<Pair>
    requires Bounded(slots)
  {
    if slots == [] then []
    else PairsOf(slots[0].prepared, slots[0].chunks[slots[0].embedded..]) + Waiting(slots[1..])
  }

  /** Vectors arrive first in, first out: only the first incomplete document can be partly embedded. */
  ghost predicate Fifo(slots: seq<Slot>) {
    forall i, j | 0 <= i < j < |slots| && slots[j].embedded > 0 :: slots[i].embedded == |slots[i].chunks|
  }

  ghost function OneMore(slots: seq<Slot>, i: nat): seq<Slot>
    requires i < |slots|
  {
    slots[i := slots[i].(embedded := slots[i].embedded + 1)]
  }

  /** Giving a vector to the first waiting chunk completes the queue by exactly that chunk. */
  lemma {:induction false} FirstWaiting(slots: seq<Slot>) returns (i: nat)
    requires Bounded(slots) && Waiting(slots) != []
    ensures i < |slots| && slots[i].embedded < |slots[i].chunks|
    ensures Waiting(slots)[0] == (slots[i].prepared, slots[i].chunks[slots[i].embedded])
    ensures Bounded(OneMore(slots, i)) && Waiting(OneMore(slots, i)) == Waiting(slots)[1..]
    ensures forall j | 0 <= j < i :: slots[j].embedded == |slots[j].chunks|
    decreases |slots|
  {
    var s := slots[0];
    if s.embedded < |s.chunks| {
      i := 0;
      var next := OneMore(slots, 0);
      assert next[1..] == slots[1..];
      assert PairsOf(s.prepared, s.chunks[s.embedded..])[1..] == PairsOf(s.prepared, s.chunks[s.embedded + 1..]);
    } else {
      var k := FirstWaiting(slots[1..]);
      i := k + 1;
      assert OneMore(slots, i)[1..] == OneMore(slots[1..], k);
    }
  }

  lemma {:induction false} WaitingSnoc(slots: seq<Slot>, last: Slot)
    requires Bounded(slots) && last.embedded <= |last.chunks|
    ensures Bounded(slots + [last])
    ensures Waiting(slots + [last]) == Waiting(slots) + PairsOf(last.prepared, last.chunks[last.embedded..])
  {
    hide PairsOf;
    if slots == [] {
      assert (slots + [last])[1..] == [];
    } else {
      assert (slots + [last])[1..] == slots[1..] + [last];
      WaitingSnoc(slots[1..], last);
    }
  }

  /** A queue with nothing waiting holds complete documents only. */
  lemma {:induction false} NothingWaiting(slots: seq<Slot>)
    requires Bounded(slots) && Waiting(slots) == []
    ensures forall i | 0 <= i < |slots| :: slots[i].embedded == |slots[i].chunks|
  {
    if slots != [] {
      assert |PairsOf(slots[0].prepared, slots[0].chunks[slots[0].embedded..])|
          == |slots[0].chunks| - slots[0].embedded;
      NothingWaiting(slots[1..]);
    }
  }

  /** Each queued document occurs once and has the vectors of a prefix of its chunks; the chunks without a
      vector are `waiting`. */
  ghost predicate Holds(e: Embedding, queue: seq<PreparedDocument>, vectors: seq<seq<Vector>>, waiting: seq<Pair>) {
    && |vectors| == |queue|
    && (forall i, j | 0 <= i < j < |queue| :: queue[i] != queue[j])
    && (forall i | 0 <= i < |queue| :: EmbeddedPrefix(e, queue[i].chunks, vectors[i]))
    && Bounded(SlotsOf(queue, vectors)) && Fifo(SlotsOf(queue, vectors))
    && Waiting(SlotsOf(queue, vectors)) == waiting
  }

  ghost predicate EmbeddedPrefix(e: Embedding, chunks: seq<Chunk>, vectors: seq<Vector>) {
    |vectors| <= |chunks| && vectors == Vectors(e, TextsOf(chunks[..|vectors|]))
  }

  /** The queue holds the given documents, in order. */
  ghost predicate Linked(queue: seq<PreparedDocument>, works: seq<Work>) {
    && |queue| == |works|
    && forall i | 0 <= i < |queue| :: Work(queue[i].document, queue[i].chunks) == works[i]
  }

  /** The first waiting chunk gets its vector: what that does to the queue. */
  lemma FirstWaitingEmbedded(e: Embedding, queue: seq<PreparedDocument>, vectors: seq<seq<Vector>>, pair: Pair,
                             rest: seq<Pair>)
    returns (i: nat)
    requires Holds(e, queue, vectors, [pair] + rest)
    ensures i < |queue| && queue[i] == pair.0
    ensures Holds(e, queue, vectors[i := vectors[i] + [e.vector(pair.1.text)]], rest)
  {
    hide Waiting;
    var slots := SlotsOf(queue, vectors);
    i := FirstWaiting(slots);
    var chunks, n := queue[i].chunks, |vectors[i]|;
    assert TextsOf(chunks[..n + 1]) == TextsOf(chunks[..n]) + [pair.1.text];
    assert Vectors(e, TextsOf(chunks[..n + 1])) == vectors[i] + [e.vector(pair.1.text)];
    assert SlotsOf(queue, vectors[i := vectors[i] + [e.vector(pair.1.text)]]) == OneMore(slots, i);
    assert ([pair] + rest)[1..] == rest;
  }

  /** The zip loop of `flush_embedding_batch`: every pending chunk gets its vector. */
  method GiveVectors(e: Embedding, ghost queue: seq<PreparedDocument>, pending: seq<Pair>, vectors: seq<Vector>,
                     ghost rest: seq<Pair>)
    requires Holds(e, queue, EmbeddingsOf(queue), pending + rest)
    requires vectors == Vectors(e, PairTexts(pending))
    modifies queue
    ensures Holds(e, queue, EmbeddingsOf(queue), rest)
  {
    for k := 0 to |pending|
      invariant Holds(e, queue, EmbeddingsOf(queue), pending[k..] + rest)
    {
      assert pending[k..] + rest == [pending[k]] + (pending[k + 1..] + rest);
      ghost var before := EmbeddingsOf(queue);
      ghost var i := FirstWaitingEmbedded(e, queue, before, pending[k], pending[k + 1..] + rest);
      var prepared := pending[k].0;
      prepared.embeddings := prepared.embeddings + [vectors[k]];
      assert EmbeddingsOf(queue) == before[i := before[i] + [vectors[k]]];
    }
    assert pending[|pending|..] + rest == rest;
  }

  /** A complete document can leave the head of the queue. */
  lemma Pop(e: Embedding, queue: seq<PreparedDocument>, vectors: seq<seq<Vector>>, waiting: seq<Pair>, works: seq<Work>)
    requires Holds(e, queue, vectors, waiting) && Linked(queue, works)
    requires queue != [] && |vectors[0]| == |queue[0].chunks|
    ensures Holds(e, queue[1..], vectors[1..], waiting) && Linked(queue[1..], works[1..])
  {
    var slots := SlotsOf(queue, vectors);
    assert SlotsOf(queue[1..], vectors[1..]) == slots[1..];
    assert slots[0].chunks[slots[0].embedded..] == [];
  }

  /** And it has the vectors of all its chunks. */
  lemma HeadIsComplete(e: Embedding, queue: seq<PreparedDocument>, vectors: seq<seq<Vector>>, waiting: seq<Pair>,
                       works: seq<Work>)
    requires Holds(e, queue, vectors, waiting) && Linked(queue, works)
    requires queue != [] && |vectors[0]| == |queue[0].chunks|
    ensures vectors[0] == Vectors(e, TextsOf(queue[0].chunks))
    ensures works != [] && works[0] == Work(queue[0].document, queue[0].chunks)
  {
    hide Waiting, Vectors;
    assert queue[0].chunks[..|vectors[0]|] == queue[0].chunks;
  }

  /** A document just prepared joins the end of the queue; all its chunks wait. */
  lemma Push(e: Embedding, queue: seq<PreparedDocument>, vectors: seq<seq<Vector>>, waiting: seq<Pair>,
             works: seq<Work>,
             d: PreparedDocument)
    requires Holds(e, queue, vectors, waiting) && Linked(queue, works)
    requires d !in queue
    ensures Holds(e, queue + [d], vectors + [[]], waiting + PairsOf(d, d.chunks))
    ensures Linked(queue + [d], works + [Work(d.document, d.chunks)])
  {
    var slots, last := SlotsOf(queue, vectors), Slot(d, d.chunks, 0);
    assert SlotsOf(queue + [d], vectors + [[]]) == slots + [last];
    WaitingSnoc(slots, last);
    assert d.chunks[0..] == d.chunks;
  }

  ghost function NonEmpty(slots: seq<Slot>): nat {
    if slots == [] then 0 else (if slots[0].chunks == [] then 0 else 1) + NonEmpty(slots[1..])
  }

  /** Once the head of the queue is incomplete, every queued document with chunks has one waiting. */
  lemma NonEmptyDocumentsWait(slots: seq<Slot>)
    requires Bounded(slots) && Fifo(slots)
    requires slots != [] ==> slots[0].embedded < |slots[0].chunks|
    ensures NonEmpty(slots) <= |Waiting(slots)|
  {
    if slots != [] {
      assert forall j | 0 < j < |slots| :: slots[j].embedded == 0;
      UntouchedWait(slots[1..]);
    }
  }

  lemma {:induction false} UntouchedWait(slots: seq<Slot>)
    requires forall j | 0 <= j < |slots| :: slots[j].embedded == 0
    ensures NonEmpty(slots) <= |Waiting(slots)|
  {
    if slots != [] { UntouchedWait(slots[1..]); }
  }

  function PairTexts(pairs: seq<Pair>): seq<string> {
    seq(|pairs|, i requires 0 <= i < |pairs| => pairs[i].1.text)
  }

  lemma BatchSent(calls: seq<seq<string>>, pending: seq<Pair>, rest: seq<Pair>)
    ensures Flatten(calls + [PairTexts(pending)]) + PairTexts(rest) == Flatten(calls) + PairTexts(pending + rest)
  {
  }

  /** The embedding side of one synchronization: the queue of prepared documents and the batch being
      filled. */
  class Buffers {
    const embedder: Embedder
    const batchSize: nat
    var pendingDocuments: seq<PreparedDocument>
    var pendingChunks: seq<Pair>
    var embeddingBatches: nat
    ghost var documents: set<PreparedDocument>   // every document object ever queued
    ghost const callsBefore: nat      // embedding calls made before the streaming began
    ghost var handled: seq<Work>      // the documents taken up so far
    ghost var queued: seq<Work>       // those of them still in the queue
    ghost var unqueued: seq<Pair>     // chunks of the last of them not yet in pendingChunks

    constructor (embedder: Embedder, batchSize: nat)
      requires batchSize > 0
      ensures Valid() && Settled() && Full()
      ensures this.embedder == embedder && this.batchSize == batchSize && callsBefore == |embedder.calls|
      ensures pendingDocuments == [] && pendingChunks == [] && handled == [] && queued == [] && unqueued == []
      ensures documents == {}
    {
      this.embedder, this.batchSize := embedder, batchSize;
      pendingDocuments, pendingChunks, embeddingBatches := [], [], 0;
      callsBefore, documents := |embedder.calls|, {};
      handled, queued, unqueued := [], [], [];
    }

    ghost function Calls(): seq<seq<string>>
      requires callsBefore <= |embedder.calls|
      reads embedder
    {
      embedder.calls[callsBefore..]
    }

    /** The calls made and the chunks still to be embedded make up all texts, in document order. */
    ghost predicate CallsAccount(waiting: seq<Pair>)
      reads `handled, `embeddingBatches, embedder
    {
      && callsBefore <= |embedder.calls|
      && embeddingBatches == |embedder.calls| - callsBefore
      && Flatten(Calls()) + PairTexts(waiting) == AllTexts(handled)
    }

    ghost predicate QueueHolds(waiting: seq<Pair>)
      reads `pendingDocuments, `queued, pendingDocuments
    {
      && Linked(pendingDocuments, queued)
      && Holds(embedder.embedding, pendingDocuments, EmbeddingsOf(pendingDocuments), waiting)
    }

    ghost predicate Valid()
      reads this, embedder, documents
    {
      && (forall i | 0 <= i < |pendingDocuments| :: pendingDocuments[i] in documents)
      && 0 < batchSize && |pendingChunks| <= batchSize
      && QueueHolds(pendingChunks + unqueued)
      && CallsAccount(pendingChunks + unqueued)
      && Answered(embedder.answers, callsBefore, Calls())
    }

    /** No complete document waits at the head of the queue. */
    ghost predicate Settled()
      reads this, documents
    {
      pendingDocuments != [] ==>
        pendingDocuments[0] in documents && |pendingDocuments[0].embeddings| < |pendingDocuments[0].chunks|
    }

    /** Every full batch of the documents' texts is answered with a vector for each text. */
    ghost predicate Serves(works: seq<Work>) {
      batchSize > 0
      && FullAnswered(embedder.answers, callsBefore, Batches(AllTexts(works), batchSize), batchSize)
    }

    /** Every call so far was a full batch. */
    ghost predicate Full()
      reads embedder
    {
      AllFull(embedder.calls, callsBefore, batchSize)
    }

    /** The embedding call of a flush; None stands for its exceptions. */
    method EmbedPending() returns (vectors: Option<seq<Vector>>)
      requires QueueHolds(pendingChunks + unqueued) && CallsAccount(pendingChunks + unqueued)
      requires Answered(embedder.answers, callsBefore, Calls())
      modifies `embeddingBatches, embedder`calls
      ensures embeddingBatches == |embedder.calls| - callsBefore
      ensures embedder.calls == old(embedder.calls) + [PairTexts(pendingChunks)]
      ensures QueueHolds(pendingChunks + unqueued) && CallsAccount(unqueued)
      ensures vectors.Some? ==> vectors.value == Vectors(embedder.embedding, PairTexts(pendingChunks))
      ensures vectors.Some? <==> Right(embedder.answers(|old(embedder.calls)|), |pendingChunks|)
      ensures vectors.Some? ==> Answered(embedder.answers, callsBefore, Calls())
    {
      hide Right;
      var batchTexts := PairTexts(pendingChunks);
      BatchSent(Calls(), pendingChunks, unqueued);
      ghost var calls, before := Calls(), EmbeddingsOf(pendingDocuments);
      embeddingBatches := embeddingBatches + 1;
      vectors := embedder.Embed(batchTexts);
      if vectors.Some? && |vectors.value| != |pendingChunks| {
        vectors := None;
      }
      assert Calls() == calls + [batchTexts];
      if vectors.Some? { OneMoreAnswered(embedder.answers, callsBefore, calls, batchTexts); }
      assert EmbeddingsOf(pendingDocuments) == before;
    }

    /** The rest of a flush: the vectors go to their documents and the batch is cleared. */
    method Deliver(vectors: seq<Vector>)
      requires QueueHolds(pendingChunks + unqueued)
      requires vectors == Vectors(embedder.embedding, PairTexts(pendingChunks))
      modifies `pendingChunks, pendingDocuments
      ensures QueueHolds(unqueued) && pendingChunks == []
    {
      GiveVectors(embedder.embedding, pendingDocuments, pendingChunks, vectors, unqueued);
      ghost var after := EmbeddingsOf(pendingDocuments);
      pendingChunks := [];
      assert EmbeddingsOf(pendingDocuments) == after;
    }

    /** `flush_embedding_batch` */
    method FlushEmbeddingBatch() returns (ok: bool)
      requires Valid()
      modifies `pendingChunks, `embeddingBatches, embedder`calls, documents
      ensures embeddingBatches == |embedder.calls| - callsBefore
      ensures ok ==> Valid() && pendingChunks == []
      ensures ok ==> embedder.calls == old(embedder.calls)
                     + (if old(pendingChunks) == [] then [] else [PairTexts(old(pendingChunks))])
      ensures ok <==> old(pendingChunks) == [] || Right(embedder.answers(|old(embedder.calls)|), |old(pendingChunks)|)
    {
      hide Holds, Linked, Vectors, PairTexts, Right, Answered;
      if pendingChunks == [] {
        return true;
      }
      var vectors := EmbedPending();
      if vectors.None? {
        return false;
      }
      Deliver(vectors.value);
      assert pendingChunks + unqueued == unqueued;
      assert CallsAccount(pendingChunks + unqueued);
      ok := true;
    }

    /** `pending_documents.popleft()` of a complete document */
    method PopLeft() returns (prepared: PreparedDocument)
      requires Valid() && pendingDocuments != [] && |pendingDocuments[0].embeddings| == |pendingDocuments[0].chunks|
      modifies `pendingDocuments, `queued
      ensures Valid() && [prepared] + pendingDocuments == old(pendingDocuments)
      ensures [Work(prepared.document, prepared.chunks)] + queued == old(queued)
      ensures prepared.embeddings == Vectors(embedder.embedding, TextsOf(prepared.chunks))
    {
      hide Answered, Flatten, AllTexts, Buffers.CallsAccount, Holds, Linked, Vectors;
      prepared := pendingDocuments[0];
      Pop(embedder.embedding, pendingDocuments, EmbeddingsOf(pendingDocuments), pendingChunks + unqueued, queued);
      HeadIsComplete(embedder.embedding, pendingDocuments, EmbeddingsOf(pendingDocuments), pendingChunks + unqueued,
                     queued);
      assert EmbeddingsOf(pendingDocuments[1..]) == EmbeddingsOf(pendingDocuments)[1..];
      pendingDocuments, queued := pendingDocuments[1..], queued[1..];
    }

    /** `pending_documents.append(prepared)` */
    method Append(prepared: PreparedDocument)
      requires Valid() && prepared !in pendingDocuments && prepared.embeddings == []
      requires unqueued == []
      modifies `pendingDocuments, `documents, `queued, `handled, `unqueued
      ensures Valid() && pendingDocuments == old(pendingDocuments) + [prepared]
      ensures documents == old(documents) + {prepared}
      ensures queued == old(queued) + [Work(prepared.document, prepared.chunks)]
      ensures handled == old(handled) + [Work(prepared.document, prepared.chunks)]
      ensures unqueued == PairsOf(prepared, prepared.chunks)
    {
      hide Holds, Linked, Vectors, Answered, Flatten, AllTexts;
      ghost var work, vectors := Work(prepared.document, prepared.chunks), EmbeddingsOf(pendingDocuments);
      assert pendingChunks + unqueued == pendingChunks;
      Push(embedder.embedding, pendingDocuments, vectors, pendingChunks, queued, prepared);
      TextsOfPairs(pendingChunks, prepared);
      AllTextsSnoc(handled, work);
      pendingDocuments, queued, handled := pendingDocuments + [prepared], queued + [work], handled + [work];
      documents, unqueued := documents + {prepared}, PairsOf(prepared, prepared.chunks);
      assert EmbeddingsOf(pendingDocuments) == vectors + [[]];
    }

    /** `pending_chunks.append((prepared, chunk))` */
    method AppendChunk(prepared: PreparedDocument, chunk: Chunk)
      requires Valid() && |pendingChunks| < batchSize
      requires unqueued != [] && unqueued[0] == (prepared, chunk)
      modifies `pendingChunks, `unqueued
      ensures Valid() && pendingChunks == old(pendingChunks) + [(prepared, chunk)] && unqueued == old(unqueued)[1..]
    {
      assert pendingChunks + unqueued == pendingChunks + [(prepared, chunk)] + unqueued[1..];
      pendingChunks := pendingChunks + [(prepared, chunk)];
      unqueued := unqueued[1..];
    }
  }

  lemma OneMoreAnswered(answers: nat -> Answer, from: nat, calls: seq<seq<string>>, call: seq<string>)
    requires Answered(answers, from, calls) && Right(answers(from + |calls|), |call|)
    ensures Answered(answers, from, calls + [call])
  {
    hide Right;
  }

  predicate FullAnswered(answers: nat -> Answer, from: nat, calls: seq<seq<string>>, size: nat) {
    forall i | 0 <= i < |calls| && |calls[i]| == size :: Right(answers(from + i), size)
  }

  ghost predicate AllFull(calls: seq<seq<string>>, from: nat, size: nat) {
    from <= |calls| && forall i | from <= i < |calls| :: |calls[i]| == size
  }

  lemma AllTextsSnoc(works: seq<Work>, work: Work)
    ensures AllTexts(works + [work]) == AllTexts(works) + TextsOf(work.chunks)
  {
  }

  lemma TextsOfPairs(pending: seq<Pair>, d: PreparedDocument)
    ensures PairTexts(pending + PairsOf(d, d.chunks)) == PairTexts(pending) + TextsOf(d.chunks)
  {
  }
}
