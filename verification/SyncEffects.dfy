/** What the operations of one synchronization do to the corpus, phase by phase. */
module SyncEffects {
  import opened Models
  import opened SourceDiffing
  import opened StoreTables
  import opened SyncPlan
  import opened StoreSteps

  function IdsOf(t: Tables): map<Path, nat> {
    map p | p in t.documents :: t.documents[p].id
  }

  /** What matters of the tables: the corpus, the ids of its documents, and the run history. */
  datatype View = View(corpus: Corpus, ids: map<Path, nat>, runs: seq<RunRecord>)

  function ViewOf(t: Tables): View {
    View(CorpusOf(t), IdsOf(t), t.runs)
  }

  /** The result of some operations: whether they all went through and left sound tables, what there is to
      see, and how many chunks were deleted and inserted. */
  datatype Summary = Summary(sound: bool, view: View, deleted: nat, inserted: nat)

  ghost function Summarize(t: Tables, ops: seq<Op>, newId: nat): Summary {
    Summary(Sound(t, ops, newId), ViewOf(ApplyAll(t, ops)), DeletedByAll(t, ops), InsertedByAll(ops))
  }

  ghost predicate Sound(t: Tables, ops: seq<Op>, newId: nat) {
    && AllEnabled(t, ops)
    && ValidTables(ApplyAll(t, ops), newId)
    && |ApplyAll(t, ops).chunks| == |t.chunks| - DeletedByAll(t, ops) + InsertedByAll(ops)
  }

  /** The operations all go through and lead to the given view; chunks are counted exactly. */
  ghost predicate Reaches(t: Tables, ops: seq<Op>, newId: nat, v: View, deleted: nat, inserted: nat) {
    Summarize(t, ops, newId) == Summary(true, v, deleted, inserted)
  }

  lemma NothingReaches(t: Tables, nextId: nat)
    requires ValidTables(t, nextId)
    ensures Reaches(t, [], nextId, ViewOf(t), 0, 0)
  {
  }

  lemma OneMoreOp(t: Tables, ops: seq<Op>, op: Op)
    ensures ApplyAll(t, ops + [op]) == Apply(ApplyAll(t, ops), op)
    ensures DeletedByAll(t, ops + [op]) == DeletedByAll(t, ops) + DeletedBy(ApplyAll(t, ops), op)
    ensures InsertedByAll(ops + [op]) == InsertedByAll(ops) + (if op.Replace? then |op.chunks| else 0)
    ensures AllEnabled(t, ops + [op]) <==> AllEnabled(t, ops) && Enabled(ApplyAll(t, ops), op)
  {
  }

  // ---------- Metadata updates ----------

  function Refreshed(doc: CorpusDocument, item: ScannedDocument): CorpusDocument {
    doc.(metadata := item.metadata, metadataHash := item.metadataHash)
  }

  function ViewUpdated(v: View, item: ScannedDocument): View {
    if item.path in v.corpus then v.(corpus := v.corpus[item.path := Refreshed(v.corpus[item.path], item)]) else v
  }

  lemma UpdateOne(t: Tables, nextId: nat, item: ScannedDocument)
    requires ValidTables(t, nextId) && item.path in t.documents && PlainValue(item.metadata)
    ensures var op := Update(t.documents[item.path].id, item.metadata, item.metadataHash);
            && Enabled(t, op) && ValidTables(Apply(t, op), nextId)
            && Apply(t, op).chunks == t.chunks && Apply(t, op).runs == t.runs
            && CorpusOf(Apply(t, op)) == CorpusOf(t)[item.path := Refreshed(CorpusOf(t)[item.path], item)]
            && IdsOf(Apply(t, op)) == IdsOf(t)
  {
    UpdateTables(t, nextId, item.path, item.metadata, item.metadataHash);
    UpdateCorpus(t, nextId, item.path, item.metadata, item.metadataHash);
    UpdateIds(t, nextId, item);
  }

  lemma UpdateIds(t: Tables, nextId: nat, item: ScannedDocument)
    requires ValidTables(t, nextId) && item.path in t.documents
    ensures IdsOf(UpdateMetadata(t, t.documents[item.path].id, item.metadata, item.metadataHash)) == IdsOf(t)
  {
  }

  lemma UpdateStep(t: Tables, ops: seq<Op>, newId: nat, v: View, d: nat, i: nat, item: ScannedDocument)
    requires Reaches(t, ops, newId, v, d, i)
    requires item.path in v.ids && PlainValue(item.metadata)
    ensures item.path in v.corpus
    ensures Reaches(t, ops + [Update(v.ids[item.path], item.metadata, item.metadataHash)], newId, ViewUpdated(v,
          item), d, i)
  {
    var t1 := ApplyAll(t, ops);
    assert item.path in IdsOf(t1);
    UpdateOne(t1, newId, item);
    OneMoreOp(t, ops, Update(v.ids[item.path], item.metadata, item.metadataHash));
  }

  function AllUpdated(v: View, items: seq<ScannedDocument>): View {
    if items == [] then v else ViewUpdated(AllUpdated(v, items[..|items| - 1]), items[|items| - 1])
  }

  /** The snapshot still has the right ids for what is stored. */
  predicate Current(ids: map<Path, nat>, previous: States) {
    forall p | p in ids :: p in previous && previous[p].id == ids[p]
  }

  lemma {:induction false} AllUpdatedKeepsIds(v: View, items: seq<ScannedDocument>)
    ensures AllUpdated(v, items).ids == v.ids && AllUpdated(v, items).runs == v.runs
    ensures AllUpdated(v, items).corpus.Keys == v.corpus.Keys
  {
    if items != [] { AllUpdatedKeepsIds(v, items[..|items| - 1]); }
  }

  predicate AllUpdatable(ids: map<Path, nat>, items: seq<ScannedDocument>) {
    items == []
    || (&& AllUpdatable(ids, items[..|items| - 1])
        && items[|items| - 1].path in ids && PlainValue(items[|items| - 1].metadata))
  }

  /** All metadata updates go through; no chunk is written or deleted. */
  lemma {:induction false} UpdatePhase(t: Tables, nextId: nat, previous: States, items: seq<ScannedDocument>)
    requires ValidTables(t, nextId) && Current(IdsOf(t), previous) && AllUpdatable(IdsOf(t), items)
    ensures Reaches(t, UpdateOps(previous, items), nextId, AllUpdated(ViewOf(t), items), 0, 0)
  {
    if items != [] {
      var n := |items| - 1;
      var before := items[..n];
      UpdatePhase(t, nextId, previous, before);
      AllUpdatedKeepsIds(ViewOf(t), before);
      UpdateStep(t, UpdateOps(previous, before), nextId, AllUpdated(ViewOf(t), before), 0, 0, items[n]);
    }
  }

  // ---------- Deletions ----------

  function ViewWithout(v: View, path: Path): View {
    View(v.corpus - {path}, v.ids - {path}, v.runs)
  }

  lemma DeleteOne(t: Tables, nextId: nat, path: Path)
    requires ValidTables(t, nextId) && path in t.documents
    ensures var op := Delete(t.documents[path].id);
            && ValidTables(Apply(t, op), nextId)
            && DeletedBy(t, op) == |CorpusOf(t)[path].chunks|
            && |Apply(t, op).chunks| == |t.chunks| - DeletedBy(t, op) && Apply(t, op).runs == t.runs
            && CorpusOf(Apply(t, op)) == CorpusOf(t) - {path}
            && IdsOf(Apply(t, op)) == IdsOf(t) - {path}
  {
    hide ValidTables;
    DeleteTables(t, nextId, path);
    DeleteCorpus(t, nextId, path);
    assert IdsOf(DeleteById(t, t.documents[path].id)) == IdsOf(t) - {path};
  }

  lemma DeleteStep(t: Tables, ops: seq<Op>, newId: nat, v: View, d: nat, i: nat, path: Path)
    requires Reaches(t, ops, newId, v, d, i) && path in v.ids
    ensures path in v.corpus
    ensures Reaches(t, ops + [Delete(v.ids[path])], newId, ViewWithout(v, path), d + |v.corpus[path].chunks|, i)
  {
    var t1 := ApplyAll(t, ops);
    assert path in IdsOf(t1);
    DeleteOne(t1, newId, path);
    OneMoreOp(t, ops, Delete(v.ids[path]));
  }

  function AllRemoved(v: View, states: seq<DocumentState>): View {
    if states == [] then v else ViewWithout(AllRemoved(v, states[..|states| - 1]), states[|states| - 1].path)
  }

  /** What is left after the deletions. */
  lemma {:induction false} RemovedMembers(v: View, states: seq<DocumentState>)
    ensures AllRemoved(v, states).runs == v.runs
    ensures forall p ::
              p in AllRemoved(v, states).ids <==> p in v.ids && forall i | 0 <= i < |states| :: states[i].path != p
    ensures forall p | p in AllRemoved(v, states).ids :: AllRemoved(v, states).ids[p] == v.ids[p]
    ensures forall p ::
              p in AllRemoved(v, states).corpus <==>
              p in v.corpus && forall i | 0 <= i < |states| :: states[i].path != p
    ensures forall p | p in AllRemoved(v, states).corpus :: AllRemoved(v, states).corpus[p] == v.corpus[p]
  {
    if states != [] { RemovedMembers(v, states[..|states| - 1]); }
  }

  /** All deletions go through, and the chunk counts they return add up. */
  lemma {:induction false} DeletePhase(t: Tables, nextId: nat, previous: States,
                                       states: seq<DocumentState>) returns (d: nat)
    requires ValidTables(t, nextId) && Current(IdsOf(t), previous)
    requires forall k | 0 <= k < |states| :: states[k].path in t.documents && states[k] == previous[states[k].path]
    requires forall i, j | 0 <= i < j < |states| :: states[i].path != states[j].path
    ensures Reaches(t, DeleteOps(states), nextId, AllRemoved(ViewOf(t), states), d, 0)
  {
    d := 0;
    if states != [] {
      var n := |states| - 1;
      var before := states[..n];
      d := DeletePhase(t, nextId, previous, before);
      RemovedMembers(ViewOf(t), before);
      assert states[n].path in IdsOf(t);
      var v := AllRemoved(ViewOf(t), before);
      DeleteStep(t, DeleteOps(before), nextId, v, d, 0, states[n].path);
      d := d + |v.corpus[states[n].path].chunks|;
    }
  }

  // ---------- New and changed documents ----------

  function Fresh(e: Embedding, work: Work): CorpusDocument {
    StoredDocument(work.item, work.chunks, Vectors(e, TextsOf(work.chunks)), e.model)
  }

  function ViewWith(v: View, e: Embedding, work: Work, id: nat): View {
    View(v.corpus[work.item.path := Fresh(e, work)], v.ids[work.item.path := id], v.runs)
  }

  /** Storing a document at a path not in use. */
  lemma InsertOne(t: Tables, nextId: nat, e: Embedding, work: Work)
    requires ValidTables(t, nextId) && work.item.path !in t.documents && Storable(work)
    ensures var op := Replace(nextId, work.item, work.chunks, Vectors(e, TextsOf(work.chunks)), e.model);
            && Enabled(t, op) && ValidTables(Apply(t, op), nextId + 1)
            && |Apply(t, op).chunks| == |t.chunks| + |work.chunks| && Apply(t, op).runs == t.runs
            && CorpusOf(Apply(t, op)) == CorpusOf(t)[work.item.path := Fresh(e, work)]
            && IdsOf(Apply(t, op)) == IdsOf(t)[work.item.path := nextId]
  {
    InsertCorpus(t, nextId, work.item, work.chunks, Vectors(e, TextsOf(work.chunks)), e.model);
    InsertIds(t, nextId, work.item);
  }

  lemma InsertIds(t: Tables, nextId: nat, item: ScannedDocument)
    ensures IdsOf(InsertDocument(t, nextId, item)) == IdsOf(t)[item.path := nextId]
  {
  }

  lemma InsertStep(t: Tables, ops: seq<Op>, newId: nat, v: View, d: nat, i: nat, e: Embedding, work: Work)
    requires Reaches(t, ops, newId, v, d, i) && work.item.path !in v.ids && Storable(work)
    ensures Reaches(t, ops + [Replace(newId, work.item, work.chunks, Vectors(e, TextsOf(work.chunks)), e.model)],
                    newId + 1, ViewWith(v, e, work, newId), d, i + |work.chunks|)
  {
    hide ValidTables, CorpusOf, Storable, Vectors;
    var t1 := ApplyAll(t, ops);
    assert work.item.path !in IdsOf(t1);
    InsertOne(t1, newId, e, work);
    OneMoreOp(t, ops, Replace(newId, work.item, work.chunks, Vectors(e, TextsOf(work.chunks)), e.model));
  }

  lemma PutAfterRemove<K, V>(m: map<K, V>, k: K, v: V)
    ensures (m - {k})[k := v] == m[k := v]
  {
  }

  /** A new document is inserted; a changed one is deleted, with all its chunks, and inserted again. */
  lemma StoreStep(t: Tables, ops: seq<Op>, newId: nat, v: View, d: nat, i: nat, e: Embedding, previous: States,
                  work: Work)
    returns (d': nat)
    requires Reaches(t, ops, newId, v, d, i) && Storable(work)
    requires work.item.path in v.ids <==> work.item.path in previous
    requires work.item.path in v.ids ==> previous[work.item.path].id == v.ids[work.item.path]
    ensures Reaches(t, ops + StoreOps(e, previous, newId, work), newId + 1, ViewWith(v, e, work, newId), d',
          i + |work.chunks|)
  {
    hide Summarize, Apply, Enabled, DeletedBy, Fresh, CorpusOf, IdsOf, ValidTables;
    var path := work.item.path;
    var replace := Replace(newId, work.item, work.chunks, Vectors(e, TextsOf(work.chunks)), e.model);
    if path in v.ids {
      DeleteStep(t, ops, newId, v, d, i, path);
      d' := d + |v.corpus[path].chunks|;
      InsertStep(t, ops + [Delete(v.ids[path])], newId, ViewWithout(v, path), d', i, e, work);
      PutAfterRemove(v.corpus, path, Fresh(e, work));
      PutAfterRemove(v.ids, path, newId);
      assert ops + StoreOps(e, previous, newId, work) == ops + [Delete(v.ids[path])] + [replace];
    } else {
      d' := d;
      InsertStep(t, ops, newId, v, d, i, e, work);
      assert ops + StoreOps(e, previous, newId, work) == ops + [replace];
    }
  }

  function AllStored(v: View, e: Embedding, firstId: nat, works: seq<Work>): View {
    if works == [] then v
    else
      var n := |works| - 1;
      ViewWith(AllStored(v, e, firstId, works[..n]), e, works[n], firstId + n)
  }

  predicate DistinctWorks(works: seq<Work>) {
    forall i, j | 0 <= i < j < |works| :: works[i].item.path != works[j].item.path
  }

  predicate StoresPath(works: seq<Work>, path: Path) {
    works != [] && (works[|works| - 1].item.path == path || StoresPath(works[..|works| - 1], path))
  }

  /** Where a document was stored, the corpus holds exactly it, under the next id in order. */
  lemma {:induction false} StoredAt(v: View, e: Embedding, firstId: nat, works: seq<Work>, k: nat)
    requires k < |works| && DistinctWorks(works)
    ensures var v' := AllStored(v, e, firstId, works);
            && works[k].item.path in v'.corpus && v'.corpus[works[k].item.path] == Fresh(e, works[k])
            && works[k].item.path in v'.ids && v'.ids[works[k].item.path] == firstId + k
  {
    var n := |works| - 1;
    if k < n {
      assert works[k].item.path != works[n].item.path;
      StoredAt(v, e, firstId, works[..n], k);
    }
  }

  /** Where nothing was stored, nothing changed. */
  lemma {:induction false} StoredElsewhere(v: View, e: Embedding, firstId: nat, works: seq<Work>, path: Path)
    requires !StoresPath(works, path)
    ensures var v' := AllStored(v, e, firstId, works);
            && (path in v'.corpus <==> path in v.corpus) && (path in v.corpus ==> v'.corpus[path] == v.corpus[path])
            && (path in v'.ids <==> path in v.ids) && (path in v.ids ==> v'.ids[path] == v.ids[path])
  {
    if works != [] { StoredElsewhere(v, e, firstId, works[..|works| - 1], path); }
  }

  lemma {:induction false} StoresPathWhich(works: seq<Work>, path: Path)
    ensures StoresPath(works, path) <==> exists k | 0 <= k < |works| :: works[k].item.path == path
  {
    if works != [] {
      var n := |works| - 1;
      StoresPathWhich(works[..n], path);
      if StoresPath(works[..n], path) {
        var k :| 0 <= k < n && works[..n][k].item.path == path;
        assert works[k].item.path == path;
      }
      if !StoresPath(works, path) {
        forall k | 0 <= k < |works| ensures works[k].item.path != path {
          if k < n { assert works[..n][k] == works[k]; }
        }
      }
    }
  }

  lemma {:induction false} StoredRuns(v: View, e: Embedding, firstId: nat, works: seq<Work>)
    ensures AllStored(v, e, firstId, works).runs == v.runs
  {
    if works != [] { StoredRuns(v, e, firstId, works[..|works| - 1]); }
  }

  /** The new and changed documents in order, none twice; the changed ones are those still stored. */
  predicate AllStoring(ids: map<Path, nat>, previous: States, works: seq<Work>) {
    works == []
    || (var work := works[|works| - 1];
        && AllStoring(ids, previous, works[..|works| - 1])
        && !StoresPath(works[..|works| - 1], work.item.path) && Storable(work)
        && (work.item.path in ids <==> work.item.path in previous))
  }

  /** All new and changed documents go through, with the stale ids of the snapshot. */
  lemma {:induction false} StorePhase(t: Tables, nextId: nat, e: Embedding, previous: States, works: seq<Work>)
    returns (d: nat)
    requires ValidTables(t, nextId) && Current(IdsOf(t), previous) && AllStoring(IdsOf(t), previous, works)
    ensures Reaches(t, StoreAllOps(e, previous, nextId, works), nextId + |works|,
                    AllStored(ViewOf(t), e, nextId, works), d, ChunkCount(works))
  {
    hide Reaches, StoreOps, ViewWith, CorpusOf, IdsOf, ValidTables, Storable;
    d := 0;
    if works == [] {
      NothingReaches(t, nextId);
    } else {
      var n := |works| - 1;
      var before, v := works[..n], AllStored(ViewOf(t), e, nextId, works[..n]);
      d := StorePhase(t, nextId, e, previous, before);
      StoredElsewhere(ViewOf(t), e, nextId, before, works[n].item.path);
      d := StoreStep(t, StoreAllOps(e, previous, nextId, before), nextId + n, v, d, ChunkCount(before), e,
            previous, works[n]);
      StoreUnfolds(v, e, nextId, previous, works);
      assert nextId + n + 1 == nextId + |works|;
    }
  }

  lemma StoreUnfolds(v: View, e: Embedding, firstId: nat, previous: States, works: seq<Work>)
    requires works != []
    ensures var n := |works| - 1;
            && StoreAllOps(e, previous, firstId, works)
                == StoreAllOps(e, previous, firstId, works[..n]) + StoreOps(e, previous, firstId + n, works[n])
            && ChunkCount(works) == ChunkCount(works[..n]) + |works[n].chunks|
  {
  }
}
