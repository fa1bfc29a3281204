/** `diff_source`: the five-way classification of a scan against the stored document states. */
module SourceDiffing {
  import opened Strings
  import opened Sorting
  import opened Models

  datatype Class = New | Changed | MetadataChanged | Unchanged

  type Scan = map<Path, ScannedDocument>
  type States = map<Path, DocumentState>

  function Classify(scanned: Scan, previous: States, path: Path): Class
    requires path in scanned
  {
    if path !in previous then New
    else if previous[path].contentHash != scanned[path].contentHash then Changed
    else if previous[path].metadataHash != scanned[path].metadataHash then MetadataChanged
    else Unchanged
  }

  /** The items of one class, in the order of the given paths. */
  function Select(scanned: Scan, previous: States, paths: seq<Path>, class_: Class): seq<ScannedDocument> {
    if paths == [] then []
    else
      var n := |paths| - 1;
      Select(scanned, previous, paths[..n], class_) + SelectOne(scanned, previous, paths[n], class_)
  }

  function SelectOne(scanned: Scan, previous: States, path: Path, class_: Class): seq<ScannedDocument> {
    if path in scanned && Classify(scanned, previous, path) == class_ then [scanned[path]] else []
  }

  lemma SelectNext(scanned: Scan, previous: States, paths: seq<Path>, n: nat, class_: Class)
    requires n < |paths| && paths[n] in scanned
    ensures Select(scanned, previous, paths[..n + 1], class_)
         == Select(scanned, previous, paths[..n], class_)
            + (if Classify(scanned, previous, paths[n]) == class_ then [scanned[paths[n]]] else [])
  {
    assert paths[..n + 1][..n] == paths[..n];
  }

  lemma SelectNone(scanned: Scan, previous: States, paths: seq<Path>)
    ensures forall class_: Class :: Select(scanned, previous, paths[..0], class_) == []
  {
  }

  function StatesAt(previous: States, paths: seq<Path>): seq<DocumentState> {
    if paths == [] then []
    else
      var n := |paths| - 1;
      StatesAt(previous, paths[..n]) + (if paths[n] in previous then [previous[paths[n]]] else [])
  }

  predicate PathLe(p: Path, q: Path) {
    Le(p.text, q.text)
  }

  lemma PathLeIsTotalOrder()
    ensures TotalOrder(PathLe)
  {
    forall p, q ensures PathLe(p, q) || PathLe(q, p) { LeTotal(p.text, q.text); }
    forall p, q | PathLe(p, q) && PathLe(q, p) ensures p == q { LeAntisymmetric(p.text, q.text); }
    forall p, q, r | PathLe(p, q) && PathLe(q, r) ensures PathLe(p, r) { LeTransitive(p.text, q.text, r.text); }
  }

  /** `sorted(paths)` */
  function SortedPaths(paths: set<Path>): (r: seq<Path>)
    ensures |r| == |paths|
    ensures forall p :: p in r <==> p in paths
  {
    PathLeIsTotalOrder();
    SortedBy(PathLe, paths)
  }

  predicate Distinct(paths: seq<Path>) {
    forall i, j | 0 <= i < j < |paths| :: paths[i] != paths[j]
  }

  lemma SortedPathsAscend(paths: set<Path>)
    ensures Ascending(PathLe, SortedPaths(paths)) && Distinct(SortedPaths(paths))
  {
    PathLeIsTotalOrder();
    SortedAscends(PathLe, paths);
  }

  function Diff(scanned: Scan, previous: States): SourceDiff {
    var paths := SortedPaths(scanned.Keys);
    SourceDiff(
      Select(scanned, previous, paths, New),
      Select(scanned, previous, paths, Changed),
      StatesAt(previous, SortedPaths(previous.Keys - scanned.Keys)),
      Select(scanned, previous, paths, Unchanged),
      Select(scanned, previous, paths, MetadataChanged))
  }

  /** The list of stored states whose path was not scanned. */
  method DeletedStates(scanned: Scan, previous: States) returns (states: seq<DocumentState>)
    ensures states == StatesAt(previous, SortedPaths(previous.Keys - scanned.Keys))
  {
    hide SortedPaths, PathLe;
    var paths := SortedPaths(previous.Keys - scanned.Keys);
    states := [];
    for i := 0 to |paths|
      invariant states == StatesAt(previous, paths[..i])
    {
      assert paths[..i + 1][..i] == paths[..i];
      assert paths[i] in previous.Keys - scanned.Keys;
      states := states + [previous[paths[i]]];
    }
    assert paths[..|paths|] == paths;
  }

  /** `diff_source` */
  method DiffSource(scanned: Scan, previous: States) returns (diff: SourceDiff)
    ensures diff == Diff(scanned, previous)
  {
    hide SortedPaths, PathLe, StatesAt, Select, SelectOne;
    var newItems: seq<ScannedDocument>, changedItems: seq<ScannedDocument> := [], [];
    var metadataItems: seq<ScannedDocument>, unchangedItems: seq<ScannedDocument> := [], [];
    var paths := SortedPaths(scanned.Keys);
    SelectNone(scanned, previous, paths);
    for i := 0 to |paths|
      invariant newItems == Select(scanned, previous, paths[..i], New)
      invariant changedItems == Select(scanned, previous, paths[..i], Changed)
      invariant metadataItems == Select(scanned, previous, paths[..i], MetadataChanged)
      invariant unchangedItems == Select(scanned, previous, paths[..i], Unchanged)
    {
      var path := paths[i];
      var item := scanned[path];
      SelectNext(scanned, previous, paths, i, New);
      SelectNext(scanned, previous, paths, i, Changed);
      SelectNext(scanned, previous, paths, i, MetadataChanged);
      SelectNext(scanned, previous, paths, i, Unchanged);
      if path !in previous {
        newItems := newItems + [item];
      } else if previous[path].contentHash != item.contentHash {
        changedItems := changedItems + [item];
      } else if previous[path].metadataHash != item.metadataHash {
        metadataItems := metadataItems + [item];
      } else {
        unchangedItems := unchangedItems + [item];
      }
    }
    assert paths[..|paths|] == paths;
    var deletedStates := DeletedStates(scanned, previous);
    diff := SourceDiff(newItems, changedItems, deletedStates, unchangedItems, metadataItems);
  }

  // ---------- The five classes partition the scanned and the stored paths ----------

  /** A scan keys every document by its own path. */
  predicate KeyedByPath(scanned: Scan) {
    forall p | p in scanned :: scanned[p].path == p
  }

  predicate StatesKeyedByPath(previous: States) {
    forall p | p in previous :: previous[p].path == p
  }

  predicate DistinctPaths(items: seq<ScannedDocument>) {
    forall i, j | 0 <= i < j < |items| :: items[i].path != items[j].path
  }

  lemma {:induction false} SelectMembers(scanned: Scan, previous: States, paths: seq<Path>, class_: Class)
    requires KeyedByPath(scanned) && forall p | p in paths :: p in scanned
    requires Distinct(paths)
    ensures var items := Select(scanned, previous, paths, class_);
            && DistinctPaths(items)
            && forall d :: d in items <==>
                 && d.path in paths && d.path in scanned
                 && d == scanned[d.path] && Classify(scanned, previous, d.path) == class_
  {
    hide Classify;
    if paths != [] {
      var n := |paths| - 1;
      SelectMembers(scanned, previous, paths[..n], class_);
      assert paths == paths[..n] + [paths[n]];
      assert paths[n] !in paths[..n];
    }
  }

  lemma {:induction false} SelectCounts(scanned: Scan, previous: States, paths: seq<Path>)
    requires forall p | p in paths :: p in scanned
    ensures |Select(scanned, previous, paths, New)| + |Select(scanned, previous, paths, Changed)|
            + |Select(scanned, previous, paths, MetadataChanged)| + |Select(scanned, previous, paths, Unchanged)|
            == |paths|
  {
    if paths != [] { SelectCounts(scanned, previous, paths[..|paths| - 1]); }
  }

  ghost predicate IsClass(scanned: Scan, previous: States, d: ScannedDocument, class_: Class) {
    d.path in scanned && d == scanned[d.path] && Classify(scanned, previous, d.path) == class_
  }

  lemma DistinctConcat(a: seq<ScannedDocument>, b: seq<ScannedDocument>)
    requires DistinctPaths(a) && DistinctPaths(b)
    requires forall d, e | d in a && e in b :: d.path != e.path
    ensures DistinctPaths(a + b)
  {
  }

  /** The scanned documents in each class, each listed once; the documents reported as deleted are
      exactly the stored ones that were not scanned. */
  lemma DiffMembers(scanned: Scan, previous: States)
    requires KeyedByPath(scanned) && StatesKeyedByPath(previous)
    ensures var diff := Diff(scanned, previous);
            && DistinctPaths(diff.newItems + diff.changedItems)
            && DistinctPaths(diff.metadataItems) && DistinctPaths(diff.unchangedItems)
            && (forall d :: d in diff.newItems <==> IsClass(scanned, previous, d, New))
            && (forall d :: d in diff.changedItems <==> IsClass(scanned, previous, d, Changed))
            && (forall d :: d in diff.metadataItems <==> IsClass(scanned, previous, d, MetadataChanged))
            && (forall d :: d in diff.unchangedItems <==> IsClass(scanned, previous, d, Unchanged))
            && (forall s ::
                  s in diff.deletedStates <==> s.path in previous && s.path !in scanned && s == previous[s.path])
            && (forall i, j | 0 <= i < j < |diff.deletedStates| ::
                  diff.deletedStates[i].path != diff.deletedStates[j].path)
  {
    var paths, diff := SortedPaths(scanned.Keys), Diff(scanned, previous);
    SortedPathsAscend(scanned.Keys);
    SelectMembers(scanned, previous, paths, New);
    SelectMembers(scanned, previous, paths, Changed);
    SelectMembers(scanned, previous, paths, MetadataChanged);
    SelectMembers(scanned, previous, paths, Unchanged);
    DistinctConcat(diff.newItems, diff.changedItems);
    DeletedMembers(scanned, previous);
  }

  lemma {:induction false} StatesAtMembers(previous: States, paths: seq<Path>)
    requires StatesKeyedByPath(previous) && Distinct(paths)
    ensures var states := StatesAt(previous, paths);
            && (forall s :: s in states <==> s.path in paths && s.path in previous && s == previous[s.path])
            && (forall i, j | 0 <= i < j < |states| :: states[i].path != states[j].path)
  {
    if paths != [] {
      var n := |paths| - 1;
      StatesAtMembers(previous, paths[..n]);
      assert paths == paths[..n] + [paths[n]];
      assert paths[n] !in paths[..n];
    }
  }

  lemma DeletedMembers(scanned: Scan, previous: States)
    requires StatesKeyedByPath(previous)
    ensures var gone := Diff(scanned, previous).deletedStates;
            && (forall s :: s in gone <==> s.path in previous && s.path !in scanned && s == previous[s.path])
            && (forall i, j | 0 <= i < j < |gone| :: gone[i].path != gone[j].path)
  {
    var keys := previous.Keys - scanned.Keys;
    SortedPathsAscend(keys);
    StatesAtMembers(previous, SortedPaths(keys));
  }

  /** The four scanned classes add up to the scan. */
  lemma DiffCounts(scanned: Scan, previous: States)
    ensures var diff := Diff(scanned, previous);
            |diff.newItems| + |diff.changedItems| + |diff.metadataItems| + |diff.unchangedItems| == |scanned|
  {
    SelectCounts(scanned, previous, SortedPaths(scanned.Keys));
  }

  // ---------- Order, membership and sizes, without the classification ----------

  /** Strictly ascending by path. */
  predicate ItemsAscend(items: seq<ScannedDocument>) {
    forall i, j | 0 <= i < j < |items| :: Le(items[i].path.text, items[j].path.text) && items[i].path != items[j].path
  }

  predicate StatesAscend(states: seq<DocumentState>) {
    forall i, j | 0 <= i < j < |states| ::
      Le(states[i].path.text, states[j].path.text) && states[i].path != states[j].path
  }

  lemma LastIsGreatest(paths: seq<Path>, p: Path)
    requires paths != [] && Ascending(PathLe, paths) && p in paths[..|paths| - 1]
    ensures Le(p.text, paths[|paths| - 1].text) && p != paths[|paths| - 1]
  {
    var i :| 0 <= i < |paths| - 1 && paths[i] == p;
    assert PathLe(paths[i], paths[|paths| - 1]);
  }

  lemma {:induction false} SelectAscends(scanned: Scan, previous: States, paths: seq<Path>, class_: Class)
    requires KeyedByPath(scanned) && Ascending(PathLe, paths)
    ensures ItemsAscend(Select(scanned, previous, paths, class_))
    ensures forall d: ScannedDocument | d in Select(scanned, previous, paths, class_) :: d.path in paths
  {
    hide Classify, Le;
    if paths != [] {
      var n := |paths| - 1;
      SelectAscends(scanned, previous, paths[..n], class_);
      var before := Select(scanned, previous, paths[..n], class_);
      forall i | 0 <= i < |before| ensures Le(before[i].path.text, paths[n].text) && before[i].path != paths[n] {
        assert before[i] in before;
        LastIsGreatest(paths, before[i].path);
      }
    }
  }

  lemma {:induction false} StatesAtAscends(previous: States, paths: seq<Path>)
    requires StatesKeyedByPath(previous) && Ascending(PathLe, paths)
    ensures StatesAscend(StatesAt(previous, paths))
    ensures forall s: DocumentState | s in StatesAt(previous, paths) :: s.path in paths
  {
    hide Le;
    if paths != [] {
      var n := |paths| - 1;
      StatesAtAscends(previous, paths[..n]);
      var before := StatesAt(previous, paths[..n]);
      forall i | 0 <= i < |before| ensures Le(before[i].path.text, paths[n].text) && before[i].path != paths[n] {
        assert before[i] in before;
        LastIsGreatest(paths, before[i].path);
      }
    }
  }

  /** Each of the five lists is strictly ascending by path. */
  lemma DiffAscends(scanned: Scan, previous: States)
    requires KeyedByPath(scanned) && StatesKeyedByPath(previous)
    ensures var diff := Diff(scanned, previous);
            && ItemsAscend(diff.newItems) && ItemsAscend(diff.changedItems) && ItemsAscend(diff.metadataItems)
            && ItemsAscend(diff.unchangedItems) && StatesAscend(diff.deletedStates)
  {
    hide ItemsAscend, StatesAscend, Select, StatesAt, SortedPaths, PathLe, Ascending;
    var paths := SortedPaths(scanned.Keys);
    SortedPathsAscend(scanned.Keys);
    SortedPathsAscend(previous.Keys - scanned.Keys);
    SelectAscends(scanned, previous, paths, New);
    SelectAscends(scanned, previous, paths, Changed);
    SelectAscends(scanned, previous, paths, MetadataChanged);
    SelectAscends(scanned, previous, paths, Unchanged);
    StatesAtAscends(previous, SortedPaths(previous.Keys - scanned.Keys));
  }

  /** The four lists of scanned documents, by the two hashes alone. */
  lemma DiffByHashes(scanned: Scan, previous: States)
    requires KeyedByPath(scanned) && StatesKeyedByPath(previous)
    ensures var diff := Diff(scanned, previous);
            forall d: ScannedDocument ::
              var p := d.path;
              && (d in diff.newItems <==> p in scanned && d == scanned[p] && p !in previous)
              && (d in diff.changedItems <==>
                  p in scanned && d == scanned[p] && p in previous && previous[p].contentHash != d.contentHash)
              && (d in diff.metadataItems <==>
                  && p in scanned && d == scanned[p] && p in previous
                  && previous[p].contentHash == d.contentHash && previous[p].metadataHash != d.metadataHash)
              && (d in diff.unchangedItems <==>
                  && p in scanned && d == scanned[p] && p in previous
                  && previous[p].contentHash == d.contentHash && previous[p].metadataHash == d.metadataHash)
  {
    hide Diff;
    DiffMembers(scanned, previous);
    var diff := Diff(scanned, previous);
    forall d: ScannedDocument
      ensures d in diff.newItems <==> IsClass(scanned, previous, d, New)
      ensures d in diff.changedItems <==> IsClass(scanned, previous, d, Changed)
      ensures d in diff.metadataItems <==> IsClass(scanned, previous, d, MetadataChanged)
      ensures d in diff.unchangedItems <==> IsClass(scanned, previous, d, Unchanged)
    {
    }
  }

  lemma {:induction false} ItemsCount(items: seq<ScannedDocument>, paths: set<Path>)
    requires DistinctPaths(items)
    requires forall p :: p in paths <==> exists i | 0 <= i < |items| :: items[i].path == p
    ensures |items| == |paths|
  {
    if items == [] {
      assert paths == {};
    } else {
      var n := |items| - 1;
      var rest := paths - {items[n].path};
      forall p ensures p in rest <==> exists i | 0 <= i < n :: items[..n][i].path == p {
        if p in rest {
          var i :| 0 <= i < |items| && items[i].path == p;
          assert items[..n][i].path == p;
        }
        if i :| 0 <= i < n && items[..n][i].path == p {
          assert items[i].path == p;
        }
      }
      ItemsCount(items[..n], rest);
    }
  }

  lemma ItemsCountByMembers(scanned: Scan, items: seq<ScannedDocument>, paths: set<Path>)
    requires KeyedByPath(scanned) && DistinctPaths(items)
    requires forall d: ScannedDocument :: d in items <==> d.path in scanned && d == scanned[d.path] && d.path in paths
    requires forall p | p in paths :: p in scanned
    ensures |items| == |paths|
  {
    forall p ensures p in paths <==> exists i | 0 <= i < |items| :: items[i].path == p {
      if p in paths {
        assert scanned[p] in items;
        var i :| 0 <= i < |items| && items[i] == scanned[p];
        assert items[i].path == p;
      }
      if i :| 0 <= i < |items| && items[i].path == p { assert items[i] in items; }
    }
    ItemsCount(items, paths);
  }

  /** The sizes of the five lists, by the two hashes alone. */
  lemma DiffSizes(scanned: Scan, previous: States)
    requires KeyedByPath(scanned) && StatesKeyedByPath(previous)
    ensures var diff := Diff(scanned, previous);
            && |diff.newItems| == |set p | p in scanned && p !in previous|
            && |diff.changedItems|
               == |set p | p in scanned && p in previous && previous[p].contentHash != scanned[p].contentHash|
            && |diff.metadataItems|
               == |set p | && p in scanned && p in previous && previous[p].contentHash == scanned[p].contentHash
                           && previous[p].metadataHash != scanned[p].metadataHash|
            && |diff.unchangedItems|
               == |set p | && p in scanned && p in previous && previous[p].contentHash == scanned[p].contentHash
                           && previous[p].metadataHash == scanned[p].metadataHash|
            && |diff.deletedStates| == |set p | p in previous && p !in scanned|
  {
    hide Diff;
    NewSize(scanned, previous);
    ChangedSize(scanned, previous);
    MetadataSize(scanned, previous);
    UnchangedSize(scanned, previous);
    DiffDistinct(scanned, previous);
    assert (set p | p in previous && p !in scanned) == previous.Keys - scanned.Keys;
  }

  lemma NewSize(scanned: Scan, previous: States)
    requires KeyedByPath(scanned) && StatesKeyedByPath(previous)
    ensures |Diff(scanned, previous).newItems|
         == |set p | p in scanned && p !in previous|
  {
    hide Diff, DistinctPaths;
    DiffByHashes(scanned, previous);
    DiffDistinct(scanned, previous);
    var paths := set p | p in scanned && p !in previous;
    ItemsCountByMembers(scanned, Diff(scanned, previous).newItems, paths);
  }

  lemma ChangedSize(scanned: Scan, previous: States)
    requires KeyedByPath(scanned) && StatesKeyedByPath(previous)
    ensures |Diff(scanned, previous).changedItems|
         == |set p | p in scanned && p in previous && previous[p].contentHash != scanned[p].contentHash|
  {
    hide Diff, DistinctPaths;
    DiffByHashes(scanned, previous);
    DiffDistinct(scanned, previous);
    var paths := set p | p in scanned && p in previous && previous[p].contentHash != scanned[p].contentHash;
    ItemsCountByMembers(scanned, Diff(scanned, previous).changedItems, paths);
  }

  lemma MetadataSize(scanned: Scan, previous: States)
    requires KeyedByPath(scanned) && StatesKeyedByPath(previous)
    ensures |Diff(scanned, previous).metadataItems|
         == |set p | && p in scanned && p in previous && previous[p].contentHash == scanned[p].contentHash
                            && previous[p].metadataHash != scanned[p].metadataHash|
  {
    hide Diff, DistinctPaths;
    DiffByHashes(scanned, previous);
    DiffDistinct(scanned, previous);
    var paths := set p | && p in scanned && p in previous && previous[p].contentHash == scanned[p].contentHash
                           && previous[p].metadataHash != scanned[p].metadataHash;
    ItemsCountByMembers(scanned, Diff(scanned, previous).metadataItems, paths);
  }

  lemma UnchangedSize(scanned: Scan, previous: States)
    requires KeyedByPath(scanned) && StatesKeyedByPath(previous)
    ensures |Diff(scanned, previous).unchangedItems|
         == |set p | && p in scanned && p in previous && previous[p].contentHash == scanned[p].contentHash
                            && previous[p].metadataHash == scanned[p].metadataHash|
  {
    hide Diff, DistinctPaths;
    DiffByHashes(scanned, previous);
    DiffDistinct(scanned, previous);
    var paths := set p | && p in scanned && p in previous && previous[p].contentHash == scanned[p].contentHash
                           && previous[p].metadataHash == scanned[p].metadataHash;
    ItemsCountByMembers(scanned, Diff(scanned, previous).unchangedItems, paths);
  }

  lemma DiffDistinct(scanned: Scan, previous: States)
    requires KeyedByPath(scanned) && StatesKeyedByPath(previous)
    ensures var diff := Diff(scanned, previous);
            && DistinctPaths(diff.newItems) && DistinctPaths(diff.changedItems)
            && DistinctPaths(diff.metadataItems) && DistinctPaths(diff.unchangedItems)
            && |diff.deletedStates| == |previous.Keys - scanned.Keys|
  {
    DiffAscends(scanned, previous);
    StatesAtCount(previous, SortedPaths(previous.Keys - scanned.Keys));
  }

  lemma {:induction false} StatesAtCount(previous: States, paths: seq<Path>)
    requires forall p | p in paths :: p in previous
    ensures |StatesAt(previous, paths)| == |paths|
  {
    if paths != [] { StatesAtCount(previous, paths[..|paths| - 1]); }
  }
}
