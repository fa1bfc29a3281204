/** Replacing the stored version of one document. */
module StoreSteps {
  import opened Strings
  import opened Models
  import opened SourceDiffing
  import opened StoreTables
  import opened PgStore
  import opened SyncPlan

  /** What the store demands of a document: distinct chunk indexes, and no character U+0000. */
  predicate Storable(work: Work) {
    DistinctIndexes(work.chunks) && PlainItem(work.item) && PlainChunks(work.chunks)
  }

  predicate AllStorable(works: seq<Work>) {
    forall i | 0 <= i < |works| :: Storable(works[i])
  }

  lemma ApplyOne(t: Tables, op: Op)
    ensures ApplyAll(t, [op]) == Apply(t, op)
    ensures DeletedByAll(t, [op]) == DeletedBy(t, op)
  {
  }

  lemma ApplyTwo(t: Tables, a: Op, b: Op)
    ensures ApplyAll(t, [a] + [b]) == Apply(Apply(t, a), b)
    ensures DeletedByAll(t, [a] + [b]) == DeletedBy(t, a) + DeletedBy(Apply(t, a), b)
  {
    ApplyAllAppend(t, [a], [b]);
    ApplyOne(t, a);
    ApplyOne(Apply(t, a), b);
  }

  /** The body of `store_completed_documents` for one document: None is an exception, otherwise the
      number of chunks that went with the previous version. */
  method ReplaceVersion(store: Store, previous: States, work: Work, vectors: seq<Vector>, e: Embedding,
                        ghost p: Progress)
    returns (deleted: Option<nat>)
    requires store.Valid() && store.working == Some(p.tables) && store.nextId == p.nextId && store.calls == p.calls
    requires vectors == Vectors(e, TextsOf(work.chunks))
    modifies store`working, store`nextId, store`calls
    ensures store.Valid() && store.working.Some?
    ensures deleted.Some? ==>
              StoreOne(e, previous, p, work)
              == Progress(store.working.value, store.nextId, p.deleted + deleted.value, p.embedded + |work.chunks|,
                          store.calls)
    ensures deleted.Some? <==>
              Storable(work) && Quiet(store.fails, old(store.calls), old(store.calls) + StoreCalls(previous, work))
    ensures store.nextId >= old(store.nextId) && store.calls >= old(store.calls)
  {
    hide Apply, ApplyAll, DeletedByAll, ValidTables, PlainItem, PlainChunks, DistinctIndexes, Quiet, ReplaceCalls;
    QuietSplit(store.fails, store.calls, store.calls + (if work.item.path in previous then 2 else 0),
               store.calls + StoreCalls(previous, work));
    NothingFails(store.fails, store.calls);
    var item := work.item;
    deleted := Some(0);
    ghost var replace := Replace(store.nextId, item, work.chunks, vectors, e.model);
    if item.path in previous {
      deleted := store.DeleteDocument(previous[item.path].id);
      if deleted.None? {
        return;
      }
      ApplyTwo(p.tables, Delete(previous[item.path].id), replace);
    } else {
      ApplyOne(p.tables, replace);
      assert [] + [replace] == [replace];
    }
    var ok := store.ReplaceDocument(item, work.chunks, vectors, e.model);
    if !ok {
      deleted := None;
    }
  }

  lemma NothingFails(fails: nat -> bool, n: nat)
    ensures Quiet(fails, n, n)
  {
  }

  /** The store side of one synchronization, with the two counters that it keeps. */
  class StoreWriter {
    const store: Store
    const previous: States
    const embedding: Embedding
    var deletedChunks: nat
    var embeddedChunks: nat
    ghost const start: Progress       // the store and the counters when the streaming began
    ghost var stored: seq<Work>       // the documents stored since

    constructor (store: Store, previous: States, embedding: Embedding, deletedChunks: nat)
      requires store.Valid() && store.working.Some?
      ensures Valid() && stored == []
      ensures this.store == store && this.previous == previous && this.embedding == embedding
      ensures start == Progress(store.working.value, store.nextId, deletedChunks, 0, store.calls)
    {
      this.store, this.previous, this.embedding := store, previous, embedding;
      this.deletedChunks, embeddedChunks := deletedChunks, 0;
      start, stored := Progress(store.working.value, store.nextId, deletedChunks, 0, store.calls), [];
    }

    /** The store and the counters are where they would be had the stored documents been handled one at a
        time, and every one of them was accepted. */
    /** The store accepts these documents, and none of the calls for them fails. */
    ghost predicate Accepts(works: seq<Work>) {
      AllStorable(works) && Quiet(store.fails, start.calls, start.calls + AllStoreCalls(previous, works))
    }

    /** What is accepted one document after the other. */
    lemma AcceptsSnoc(works: seq<Work>, work: Work)
      ensures Accepts(works + [work]) <==>
                && Accepts(works) && Storable(work)
                && var done := start.calls + AllStoreCalls(previous, works);
                   Quiet(store.fails, done, done + StoreCalls(previous, work))
    {
      hide Storable, Quiet, StoreCalls;
      var all, done := works + [work], start.calls + AllStoreCalls(previous, works);
      assert all[..|works|] == works && all[|works|] == work;
      QuietSplit(store.fails, start.calls, done, done + StoreCalls(previous, work));
      if AllStorable(all) {
        forall i | 0 <= i < |works| ensures Storable(works[i]) { assert all[i] == works[i]; }
      }
    }

    lemma {:induction false} AcceptsPart(works: seq<Work>, more: seq<Work>)
      requires Accepts(works + more)
      ensures Accepts(works)
      decreases |more|
    {
      hide Accepts;
      if more == [] {
        assert works + more == works;
      } else {
        var n := |more| - 1;
        assert works + more == (works + more[..n]) + [more[n]];
        AcceptsSnoc(works + more[..n], more[n]);
        AcceptsPart(works, more[..n]);
      }
    }

    ghost predicate Valid()
      reads this, store
    {
      && store.Valid() && store.working.Some?
      && Progress(store.working.value, store.nextId, deletedChunks, embeddedChunks, store.calls)
         == OneByOne(embedding, previous, start, stored)
      && Accepts(stored)
    }

    method StoreDocument(work: Work, vectors: seq<Vector>) returns (ok: bool)
      requires Valid()
      requires vectors == Vectors(embedding, TextsOf(work.chunks))
      modifies this, store`working, store`nextId, store`calls
      ensures store.Valid() && store.working.Some?
      ensures stored == old(stored) + [work]
      ensures ok ==> Valid()
      ensures ok <==> Accepts(stored)
      ensures store.nextId >= old(store.nextId) && store.calls >= old(store.calls)
    {
      hide StoreOne, ValidTables, Vectors, Accepts, Storable, StoreCalls;
      ghost var p := Progress(store.working.value, store.nextId, deletedChunks, embeddedChunks, store.calls);
      var deleted := ReplaceVersion(store, previous, work, vectors, embedding, p);
      if deleted.Some? {
        deletedChunks := deletedChunks + deleted.value;
        embeddedChunks := embeddedChunks + |work.chunks|;
      }
      OneByOneSnoc(embedding, previous, start, stored, work);
      OneByOneCalls(embedding, previous, start, stored);
      AcceptsSnoc(stored, work);
      stored := stored + [work];
      ok := deleted.Some?;
    }
  }
}
