/** What one synchronization does to the store, as a list of operations computed from the diff: the
    specification that the two-buffer pipeline is proved against. */
module SyncPlan {
  import opened Sequences
  import opened Models
  import opened SourceDiffing
  import opened StoreTables

  /** The provider's model and the vector it gives each text. */
  datatype Embedding = Embedding(model: string, vector: string -> Vector)

  /** A new or changed document with its chunks. */
  datatype Work = Work(item: ScannedDocument, chunks: seq<Chunk>)

  function TextsOf(chunks: seq<Chunk>): seq<string> {
    seq(|chunks|, i requires 0 <= i < |chunks| => chunks[i].text)
  }

  function Vectors(e: Embedding, texts: seq<string>): seq<Vector> {
    seq(|texts|, i requires 0 <= i < |texts| => e.vector(texts[i]))
  }

  /** Load, chunk, embed and store one document: the old version, if any, is deleted first. */
  function StoreOps(e: Embedding, previous: States, newId: nat, work: Work): seq<Op> {
    (if work.item.path in previous then [Delete(previous[work.item.path].id)] else [])
    + [Replace(newId, work.item, work.chunks, Vectors(e, TextsOf(work.chunks)), e.model)]
  }

  /** One document after the other; ids are handed out in order. */
  function StoreAllOps(e: Embedding, previous: States, firstId: nat, works: seq<Work>): seq<Op> {
    if works == [] then []
    else
      var n := |works| - 1;
      StoreAllOps(e, previous, firstId, works[..n]) + StoreOps(e, previous, firstId + n, works[n])
  }

  function UpdateOps(previous: States, items: seq<ScannedDocument>): seq<Op> {
    if items == [] then []
    else
      var n := |items| - 1;
      UpdateOps(previous, items[..n])
      + (if items[n].path in previous
         then [Update(previous[items[n].path].id, items[n].metadata, items[n].metadataHash)]
         else [])
  }

  function DeleteOps(states: seq<DocumentState>): seq<Op> {
    if states == [] then [] else DeleteOps(states[..|states| - 1]) + [Delete(states[|states| - 1].id)]
  }

  /** Everything a synchronization does to documents and chunks, in order. */
  function Plan(e: Embedding, previous: States, firstId: nat, diff: SourceDiff, works: seq<Work>): seq<Op> {
    UpdateOps(previous, diff.metadataItems) + DeleteOps(diff.deletedStates) + StoreAllOps(e, previous, firstId, works)
  }

  /** What the streaming part of a synchronization changes: the tables, the next id, its counters of deleted
      and embedded chunks, and the number of statements sent. */
  datatype Progress = Progress(tables: Tables, nextId: nat, deleted: nat, embedded: nat, calls: nat)

  /** The statements for one document: two to delete the old version, if any, and those to insert the new one. */
  function StoreCalls(previous: States, work: Work): nat {
    (if work.item.path in previous then 2 else 0) + ReplaceCalls(work.chunks)
  }

  function AllStoreCalls(previous: States, works: seq<Work>): nat {
    if works == [] then 0
    else AllStoreCalls(previous, works[..|works| - 1]) + StoreCalls(previous, works[|works| - 1])
  }

  function StoreOne(e: Embedding, previous: States, p: Progress, work: Work): Progress {
    var ops := StoreOps(e, previous, p.nextId, work);
    Progress(
      ApplyAll(p.tables, ops),
      p.nextId + 1,
      p.deleted + DeletedByAll(p.tables, ops),
      p.embedded + |work.chunks|,
      p.calls + StoreCalls(previous, work))
  }

  /** The simple form of the streaming part: one document after the other, without any buffering. */
  function OneByOne(e: Embedding, previous: States, start: Progress, works: seq<Work>): Progress {
    if works == [] then start
    else StoreOne(e, previous, OneByOne(e, previous, start, works[..|works| - 1]), works[|works| - 1])
  }

  lemma {:induction false} OneByOneCalls(e: Embedding, previous: States, start: Progress, works: seq<Work>)
    ensures OneByOne(e, previous, start, works).calls == start.calls + AllStoreCalls(previous, works)
  {
    hide StoreCalls, StoreOps;
    if works != [] { OneByOneCalls(e, previous, start, works[..|works| - 1]); }
  }

  lemma OneByOneSnoc(e: Embedding, previous: States, start: Progress, works: seq<Work>, work: Work)
    ensures OneByOne(e, previous, start, works + [work])
        == StoreOne(e, previous, OneByOne(e, previous, start, works), work)
  {
  }

  /** The simple form carries out exactly the operations listed by StoreAllOps. */
  lemma {:induction false} OneByOneRunsTheOps(e: Embedding, previous: States, start: Progress, works: seq<Work>)
    ensures OneByOne(e, previous, start, works)
         == AfterOps(previous, start, StoreAllOps(e, previous, start.nextId, works), works)
  {
    hide StoreOps, StoreOne, Apply;
    if works != [] {
      var before := works[..|works| - 1];
      OneByOneRunsTheOps(e, previous, start, before);
      AfterMoreOps(e, previous, start, StoreAllOps(e, previous, start.nextId, before), works);
    }
  }

  function AfterOps(previous: States, start: Progress, ops: seq<Op>, works: seq<Work>): Progress {
    Progress(ApplyAll(start.tables, ops), start.nextId + |works|,
             start.deleted + DeletedByAll(start.tables, ops), start.embedded + ChunkCount(works),
             start.calls + AllStoreCalls(previous, works))
  }

  lemma AfterMoreOps(e: Embedding, previous: States, start: Progress, ops: seq<Op>, works: seq<Work>)
    requires works != []
    ensures var n := |works| - 1;
            StoreOne(e, previous, AfterOps(previous, start, ops, works[..n]), works[n])
            == AfterOps(previous, start, ops + StoreOps(e, previous, start.nextId + n, works[n]), works)
  {
    ApplyAllAppend(start.tables, ops, StoreOps(e, previous, start.nextId + |works| - 1, works[|works| - 1]));
  }

  function AllTexts(works: seq<Work>): seq<string> {
    if works == [] then [] else AllTexts(works[..|works| - 1]) + TextsOf(works[|works| - 1].chunks)
  }

  function ChunkCount(works: seq<Work>): nat {
    if works == [] then 0 else ChunkCount(works[..|works| - 1]) + |works[|works| - 1].chunks|
  }

  // ---------- Batches ----------

  /** The texts cut into batches of `size`, the last one possibly shorter. */
  function Batches(texts: seq<string>, size: nat): seq<seq<string>>
    requires size > 0
  {
    if texts == [] then []
    else if |texts| <= size then [texts]
    else [texts[..size]] + Batches(texts[size..], size)
  }

  /** Cutting into batches loses nothing and reorders nothing. */
  lemma {:induction false} BatchesFlatten(texts: seq<string>, size: nat)
    requires size > 0
    ensures Flatten(Batches(texts, size)) == texts
  {
    if 0 < |texts| <= size {
      FlattenCons(texts, []);
      assert [texts] + [] == [texts];
    } else if texts != [] {
      BatchesFlatten(texts[size..], size);
      FlattenCons(texts[..size], Batches(texts[size..], size));
    }
  }

  /** N texts make ceil(N / size) batches, none empty, all but the last full. */
  lemma {:induction false} BatchArithmetic(texts: seq<string>, size: nat)
    requires size > 0
    ensures |texts| <= |Batches(texts, size)| * size < |texts| + size
    ensures forall i | 0 <= i < |Batches(texts, size)| :: 0 < |Batches(texts, size)[i]| <= size
    ensures forall i | 0 <= i < |Batches(texts, size)| - 1 :: |Batches(texts, size)[i]| == size
  {
    if |texts| > size {
      var rest := Batches(texts[size..], size);
      BatchArithmetic(texts[size..], size);
      assert (1 + |rest|) * size == size + |rest| * size;
    }
  }

  /** Full batches are the first batches of the whole. */
  lemma {:induction false} FullBatchesFirst(full: seq<seq<string>>, rest: seq<string>, size: nat)
    requires size > 0 && forall i | 0 <= i < |full| :: |full[i]| == size
    ensures Batches(Flatten(full) + rest, size) == full + Batches(rest, size)
  {
    var all := Flatten(full) + rest;
    if full == [] {
      assert all == rest;
    } else {
      FlattenCons(full[0], full[1..]);
      assert full == [full[0]] + full[1..];
      FullBatchesFirst(full[1..], rest, size);
      assert all == full[0] + (Flatten(full[1..]) + rest);
      if |all| <= size {
        assert Flatten(full[1..]) + rest == [];
        assert Batches(Flatten(full[1..]) + rest, size) == [];
      } else {
        assert all[..size] == full[0] && all[size..] == Flatten(full[1..]) + rest;
      }
    }
  }

  /** Full batches followed by a rest of at most one batch are the batches of the whole. */
  lemma FullBatchesThenRest(full: seq<seq<string>>, rest: seq<string>, size: nat)
    requires size > 0 && |rest| <= size
    requires forall i | 0 <= i < |full| :: |full[i]| == size
    ensures Batches(Flatten(full) + rest, size) == full + (if rest == [] then [] else [rest])
  {
    FullBatchesFirst(full, rest, size);
  }

  /** A full batch stays what it is when texts are appended. */
  lemma {:induction false} FullBatchesStay(texts: seq<string>, more: seq<string>, size: nat, i: nat)
    requires size > 0 && i < |Batches(texts, size)| && |Batches(texts, size)[i]| == size
    ensures i < |Batches(texts + more, size)| && Batches(texts + more, size)[i] == Batches(texts, size)[i]
    decreases |texts|
  {
    if |texts| > size {
      assert (texts + more)[..size] == texts[..size] && (texts + more)[size..] == texts[size..] + more;
      if i > 0 { FullBatchesStay(texts[size..], more, size, i - 1); }
    } else if more == [] {
      assert texts + more == texts;
    } else {
      assert (texts + more)[..size] == texts;
    }
  }
}
