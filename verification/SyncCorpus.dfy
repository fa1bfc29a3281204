/** What a successful synchronization does to the corpus as a whole, path by path. */
module SyncCorpus {
  import opened Strings
  import opened Models
  import opened SourceDiffing
  import opened StoreTables
  import opened SyncPlan
  import opened StoreSteps
  import opened Pipeline
  import opened SyncEffects
  import opened Synchronization

  // ---------- The three phases in a row ----------

  /** First some operations, then others: they all go through, and the chunk counts add up. */
  lemma ReachesAppend(t: Tables, a: seq<Op>, n: nat, v: View, d: nat, i: nat, b: seq<Op>, n': nat, v': View,
                      d': nat, i': nat)
    requires Reaches(t, a, n, v, d, i)
    requires Reaches(ApplyAll(t, a), b, n', v', d', i')
    ensures Reaches(t, a + b, n', v', d + d', i + i')
  {
    hide Apply, Enabled, DeletedBy, ValidTables, ViewOf;
    ApplyAllAppend(t, a, b);
  }

  /** The works are the given documents, in order, each with the chunks that reading it yields. */
  ghost predicate ReadFrom(r: Reader, items: seq<ScannedDocument>, works: seq<Work>) {
    && |works| == |items|
    && forall k | 0 <= k < |works| :: works[k].item == items[k] && Read(r, items[k]) == Some(works[k].chunks)
  }

  lemma {:induction false} ReadAllInOrder(r: Reader, items: seq<ScannedDocument>)
    requires ReadAll(r, items).Some?
    ensures ReadFrom(r, items, ReadAll(r, items).value)
  {
    hide Read;
    if items != [] { ReadAllInOrder(r, items[..|items| - 1]); }
  }

  lemma {:induction false} DistinctIsStoring(ids: map<Path, nat>, previous: States, works: seq<Work>)
    requires DistinctWorks(works) && AllStorable(works)
    requires forall k | 0 <= k < |works| :: works[k].item.path in ids <==> works[k].item.path in previous
    ensures AllStoring(ids, previous, works)
  {
    hide Storable;
    if works != [] {
      var n := |works| - 1;
      DistinctIsStoring(ids, previous, works[..n]);
      StoresPathWhich(works[..n], works[n].item.path);
    }
  }

  /** The documents to be stored: none twice, and a stored one among them is not one of the deleted. */
  lemma WorksAreStoring(t: Tables, r: Reader, scan: Scan, works: seq<Work>, ids: map<Path, nat>)
    requires KeyedByPath(scan) && AllStorable(works)
    requires ReadFrom(r, WorkItems(Diff(scan, StatesOf(t))), works)
    requires forall p :: p in ids <==> p in t.documents && p in scan
    ensures AllStoring(ids, StatesOf(t), works) && DistinctWorks(works)
  {
    hide Diff, Storable, Read;
    SnapshotIsCurrent(t);
    DiffMembers(scan, StatesOf(t));
    var items := WorkItems(Diff(scan, StatesOf(t)));
    forall k | 0 <= k < |works| ensures works[k].item.path in scan {
      assert items[k] in items;
      assert IsClass(scan, StatesOf(t), items[k], New) || IsClass(scan, StatesOf(t), items[k], Changed);
    }
    DistinctIsStoring(ids, StatesOf(t), works);
  }

  predicate EqualAt<K(==), V(==)>(m: map<K, V>, n: map<K, V>, k: K) {
    k in m && k in n && m[k] == n[k]
  }

  function KeptView(t: Tables, diff: SourceDiff): View {
    AllRemoved(AllUpdated(ViewOf(t), diff.metadataItems), diff.deletedStates)
  }

  /** After updates and deletions the scanned documents are left, under their old ids. */
  lemma KeptAt(t: Tables, scan: Scan, p: Path)
    requires KeyedByPath(scan)
    ensures var diff := Diff(scan, StatesOf(t));
            var kept := KeptView(t, diff);
            && kept.runs == t.runs
            && (p in kept.ids <==> p in t.documents && p in scan)
            && (p in kept.ids ==> EqualAt(kept.ids, IdsOf(t), p))
            && (p in kept.corpus <==> p in t.documents && p in scan)
            && (p in kept.corpus ==> EqualAt(kept.corpus, AllUpdated(ViewOf(t), diff.metadataItems).corpus, p))
  {
    hide Diff, CorpusRow, AllRemoved, AllUpdated, StatesOf, KeyedByPath;
    var diff := Diff(scan, StatesOf(t));
    AllUpdatedKeepsIds(ViewOf(t), diff.metadataItems);
    RemovedMembers(AllUpdated(ViewOf(t), diff.metadataItems), diff.deletedStates);
    assert CorpusOf(t).Keys == t.documents.Keys;
    if p in t.documents { GoneIffUnscanned(t, scan, p); }
  }

  /** What there is to see after the whole plan. */
  function PlannedView(t: Tables, e: Embedding, firstId: nat, diff: SourceDiff, works: seq<Work>): View {
    AllStored(KeptView(t, diff), e, firstId, works)
  }

  lemma GoneIffUnscanned(t: Tables, scan: Scan, p: Path)
    requires KeyedByPath(scan) && p in t.documents
    ensures var gone := Diff(scan, StatesOf(t)).deletedStates;
            p in scan <==> forall i | 0 <= i < |gone| :: gone[i].path != p
  {
    hide Diff;
    SnapshotIsCurrent(t);
    DeletedMembers(scan, StatesOf(t));
    var gone := Diff(scan, StatesOf(t)).deletedStates;
    if p in scan {
      forall i | 0 <= i < |gone| ensures gone[i].path != p { assert gone[i] in gone; }
    } else {
      assert StatesOf(t)[p] in gone;
      var i :| 0 <= i < |gone| && gone[i] == StatesOf(t)[p];
      assert gone[i].path == p;
    }
  }

  lemma ReachedFacts(t: Tables, ops: seq<Op>, n: nat, v: View, d: nat, i: nat)
    requires Reaches(t, ops, n, v, d, i)
    ensures var after := ApplyAll(t, ops);
            && AllEnabled(t, ops) && ValidTables(after, n)
            && CorpusOf(after) == v.corpus && IdsOf(after) == v.ids && after.runs == v.runs && ViewOf(after) == v
            && DeletedByAll(t, ops) == d && InsertedByAll(ops) == i && |after.chunks| == |t.chunks| - d + i
  {
  }

  /** Updates and deletions all go through. */
  lemma KeptReaches(t: Tables, nextId: nat, scan: Scan) returns (d: nat)
    requires ValidTables(t, nextId) && KeyedByPath(scan) && AllPlain(Diff(scan, StatesOf(t)).metadataItems)
    ensures var diff := Diff(scan, StatesOf(t));
            Reaches(t, UpdateOps(StatesOf(t), diff.metadataItems) + DeleteOps(diff.deletedStates), nextId,
                  KeptView(t, diff), d, 0)
  {
    hide AllPlain, Diff, ValidTables, Reaches, ViewOf, StatesOf, UpdateOps, DeleteOps, AllUpdated, AllRemoved, ApplyAll;
    var previous, diff := StatesOf(t), Diff(scan, StatesOf(t));
    SnapshotIsCurrent(t);
    UpdatesAreStored(t, scan);
    UpdatePhase(t, nextId, previous, diff.metadataItems);
    var updates := UpdateOps(previous, diff.metadataItems);
    var updated := ApplyAll(t, updates);
    ReachedFacts(t, updates, nextId, AllUpdated(ViewOf(t), diff.metadataItems), 0, 0);
    AllUpdatedKeepsIds(ViewOf(t), diff.metadataItems);
    IdsOfView(t);
    DeletedMembers(scan, previous);
    forall k | 0 <= k < |diff.deletedStates|
      ensures diff.deletedStates[k].path in updated.documents && diff.deletedStates[k]
          == previous[diff.deletedStates[k].path]
    {
      assert diff.deletedStates[k] in diff.deletedStates;
      StatesAreDocuments(t, diff.deletedStates[k].path);
      assert diff.deletedStates[k].path in IdsOf(updated);
    }
    d := DeletePhase(updated, nextId, previous, diff.deletedStates);
    ReachesAppend(t, updates, nextId, ViewOf(updated), 0, 0, DeleteOps(diff.deletedStates), nextId, KeptView(t,
          diff), d, 0);
  }

  lemma IdsOfView(t: Tables)
    ensures ViewOf(t).ids == IdsOf(t) && ViewOf(t).runs == t.runs && ViewOf(t).corpus == CorpusOf(t)
  {
  }

  lemma StatesAreDocuments(t: Tables, p: Path)
    ensures p in StatesOf(t) <==> p in t.documents
    ensures p in IdsOf(t) <==> p in t.documents
    ensures p in IdsOf(t) ==> StatesOf(t)[p].id == IdsOf(t)[p]
  {
  }

  lemma UpdatesAreStored(t: Tables, scan: Scan)
    requires KeyedByPath(scan) && AllPlain(Diff(scan, StatesOf(t)).metadataItems)
    ensures AllUpdatable(IdsOf(t), Diff(scan, StatesOf(t)).metadataItems)
  {
    hide Diff, PlainValue;
    UpdatesHaveStates(t, scan);
    StoredCanBeUpdated(IdsOf(t), Diff(scan, StatesOf(t)).metadataItems);
  }

  /** The whole plan goes through: every id of the snapshot is still right when it is used, no constraint
      of the schema is hit, and the counts are exact. */
  lemma PlanReaches(t: Tables, nextId: nat, e: Embedding, r: Reader, scan: Scan, works: seq<Work>) returns (d: nat)
    requires ValidTables(t, nextId) && KeyedByPath(scan) && AllStorable(works)
    requires ReadFrom(r, WorkItems(Diff(scan, StatesOf(t))), works)
    requires AllPlain(Diff(scan, StatesOf(t)).metadataItems)
    ensures var diff := Diff(scan, StatesOf(t));
            Reaches(t, Plan(e, StatesOf(t), nextId, diff, works), nextId + |works|,
                    PlannedView(t, e, nextId, diff, works), d, ChunkCount(works))
  {
    hide AllPlain, Diff, ValidTables, Reaches, ViewOf, StatesOf, UpdateOps, DeleteOps, StoreAllOps, KeptView, AllStored;
    hide AllStorable, ReadFrom, ApplyAll, AllStoring, DistinctWorks, ChunkCount, KeyedByPath, WorkItems, IdsOf;
    var previous, diff := StatesOf(t), Diff(scan, StatesOf(t));
    var first := UpdateOps(previous, diff.metadataItems) + DeleteOps(diff.deletedStates);
    d := KeptReaches(t, nextId, scan);
    ReachedFacts(t, first, nextId, KeptView(t, diff), d, 0);
    var kept := ApplyAll(t, first);
    forall p ensures p in IdsOf(kept) <==> p in t.documents && p in scan { KeptAt(t, scan, p); }
    forall p | p in IdsOf(kept) ensures p in previous && previous[p].id == IdsOf(kept)[p] {
      KeptAt(t, scan, p);
      StatesAreDocuments(t, p);
    }
    WorksAreStoring(t, r, scan, works, IdsOf(kept));
    var d' := StorePhase(kept, nextId, e, previous, works);
    ReachesAppend(t, first, nextId, KeptView(t, diff), d, 0,
                  StoreAllOps(e, previous, nextId, works), nextId + |works|, PlannedView(t, e, nextId, diff,
                        works), d', ChunkCount(works));
    d := d + d';
  }

  // ---------- Path by path ----------

  lemma {:induction false} UpdatedElsewhere(v: View, items: seq<ScannedDocument>, p: Path)
    requires forall k | 0 <= k < |items| :: items[k].path != p
    ensures p in AllUpdated(v, items).corpus <==> p in v.corpus
    ensures p in v.corpus ==> EqualAt(AllUpdated(v, items).corpus, v.corpus, p)
  {
    if items != [] { UpdatedElsewhere(v, items[..|items| - 1], p); }
  }

  lemma {:induction false} UpdatedAt(v: View, items: seq<ScannedDocument>, k: nat)
    requires k < |items| && DistinctPaths(items) && items[k].path in v.corpus
    ensures var p := items[k].path;
            p in AllUpdated(v, items).corpus && AllUpdated(v, items).corpus[p] == Refreshed(v.corpus[p], items[k])
  {
    hide Refreshed;
    var n := |items| - 1;
    if k < n {
      UpdatedAt(v, items[..n], k);
      assert items[n].path != items[k].path;
    } else {
      UpdatedElsewhere(v, items[..n], items[k].path);
    }
  }

  /** How the corpus moves at one path: a document not scanned is gone, a new or changed one is stored
      afresh, and the others keep their chunks, with the metadata of the scan. */
  predicate Advances(before: Corpus, after: Corpus, e: Embedding, r: Reader, scan: Scan, previous: States, p: Path) {
    if p !in scan then p !in after
    else
      && p in after
      && match Classify(scan, previous, p)
         case MetadataChanged => p in before && after[p] == Refreshed(before[p], scan[p])
         case Unchanged => p in before && after[p] == before[p]
         case _ => Read(r, scan[p]).Some? && after[p] == Fresh(e, Work(scan[p], Read(r, scan[p]).value))
  }

  predicate IsWork(scan: Scan, previous: States, p: Path) {
    p in scan && (Classify(scan, previous, p) == New || Classify(scan, previous, p) == Changed)
  }

  /** The documents to be stored are exactly the new and the changed ones. */
  lemma WorkAt(t: Tables, r: Reader, scan: Scan, works: seq<Work>, p: Path) returns (k: nat)
    requires KeyedByPath(scan)
    requires ReadFrom(r, WorkItems(Diff(scan, StatesOf(t))), works)
    ensures StoresPath(works, p) <==> IsWork(scan, StatesOf(t), p)
    ensures IsWork(scan, StatesOf(t), p) ==>
              k < |works| && works[k].item == scan[p] && Read(r, scan[p]) == Some(works[k].chunks)
  {
    hide Diff, Read, StatesOf, Classify;
    var items := WorkItems(Diff(scan, StatesOf(t)));
    StatesOfAreKeyed(t);
    DiffMembers(scan, StatesOf(t));
    StoresPathWhich(works, p);
    k := 0;
    if StoresPath(works, p) {
      var i :| 0 <= i < |works| && works[i].item.path == p;
      assert items[i] in items;
      assert IsClass(scan, StatesOf(t), items[i], New) || IsClass(scan, StatesOf(t), items[i], Changed);
    }
    if IsWork(scan, StatesOf(t), p) {
      assert IsClass(scan, StatesOf(t), scan[p], New) || IsClass(scan, StatesOf(t), scan[p], Changed);
      assert scan[p] in items;
      k :| 0 <= k < |items| && items[k] == scan[p];
      assert works[k].item.path == p;
    }
  }

  lemma StatesOfAreKeyed(t: Tables)
    ensures StatesKeyedByPath(StatesOf(t))
  {
  }

  /** After updates and deletions: what is scanned and stored is there, refreshed where its metadata
      changed. */
  lemma KeptCorpusAt(t: Tables, scan: Scan, p: Path)
    requires KeyedByPath(scan)
    ensures var kept := KeptView(t, Diff(scan, StatesOf(t))).corpus;
            && (p in kept <==> p in t.documents && p in scan)
            && (p in kept && Classify(scan, StatesOf(t), p) == MetadataChanged ==>
                kept[p] == Refreshed(CorpusOf(t)[p], scan[p]))
            && (p in kept && Classify(scan, StatesOf(t), p) != MetadataChanged ==> EqualAt(kept, CorpusOf(t), p))
  {
    hide Diff, KeptView, CorpusRow, StatesOf, AllUpdated, Refreshed, Classify;
    var diff := Diff(scan, StatesOf(t));
    KeptAt(t, scan, p);
    if p in t.documents && p in scan {
      StatesOfAreKeyed(t);
      DiffMembers(scan, StatesOf(t));
      if Classify(scan, StatesOf(t), p) == MetadataChanged {
        assert IsClass(scan, StatesOf(t), scan[p], MetadataChanged);
        var k :| 0 <= k < |diff.metadataItems| && diff.metadataItems[k] == scan[p];
        UpdatedAt(ViewOf(t), diff.metadataItems, k);
      } else {
        forall k | 0 <= k < |diff.metadataItems| ensures diff.metadataItems[k].path != p {
          assert IsClass(scan, StatesOf(t), diff.metadataItems[k], MetadataChanged);
        }
        UpdatedElsewhere(ViewOf(t), diff.metadataItems, p);
      }
    }
  }

  /** The corpus after the plan, at every path. */
  lemma PlanAdvances(t: Tables, e: Embedding, firstId: nat, r: Reader, scan: Scan, works: seq<Work>, p: Path)
    requires KeyedByPath(scan) && AllStorable(works)
    requires ReadFrom(r, WorkItems(Diff(scan, StatesOf(t))), works)
    ensures Advances(CorpusOf(t), PlannedView(t, e, firstId, Diff(scan, StatesOf(t)), works).corpus, e, r, scan,
          StatesOf(t), p)
  {
    hide Diff, KeptView, CorpusRow, StatesOf, AllStored, Refreshed, Classify, Fresh, Read, Storable, ReadFrom;
    var kept := KeptView(t, Diff(scan, StatesOf(t)));
    KeptCorpusAt(t, scan, p);
    var k := WorkAt(t, r, scan, works, p);
    if IsWork(scan, StatesOf(t), p) {
      forall q ensures q in kept.ids <==> q in t.documents && q in scan { KeptAt(t, scan, q); }
      WorksAreStoring(t, r, scan, works, kept.ids);
      StoredAt(kept, e, firstId, works, k);
    } else {
      StoredElsewhere(kept, e, firstId, works, p);
      if p in scan { OldClassesAreStored(t, scan, p); }
    }
  }

  lemma OldClassesAreStored(t: Tables, scan: Scan, p: Path)
    requires p in scan
    ensures Classify(scan, StatesOf(t), p) != New <==> p in t.documents
  {
  }
}
