/** Exact search: `ORDER BY distance, path, chunk_index LIMIT k` over the chunks of one embedding model. */
module RankedSearch {
  import opened Strings
  import opened Sorting
  import opened Models
  import opened SourceDiffing
  import opened StoreTables

  /** A row of the result, without content, metadata and score. */
  datatype Hit = Hit(distance: real, path: Path, index: nat)

  /** The collation of the path column: any total order. */
  type Collation = le: (Path, Path) -> bool | TotalOrder(le) ghost witness (PathLeIsTotalOrder(); PathLe)

  /** The order of the result rows. */
  predicate HitLe(collation: Collation, a: Hit, b: Hit) {
    || a.distance < b.distance
    || (a.distance == b.distance && a.path != b.path && collation(a.path, b.path))
    || (a.distance == b.distance && a.path == b.path && a.index <= b.index)
  }

  function RowOrder(collation: Collation): (Hit, Hit) -> bool {
    (a: Hit, b: Hit) => HitLe(collation, a, b)
  }

  lemma RowOrderIsTotal(collation: Collation)
    ensures TotalOrder(RowOrder(collation))
  {
    var le := RowOrder(collation);
    forall a, b ensures le(a, b) || le(b, a) {
      assert collation(a.path, b.path) || collation(b.path, a.path);
    }
    forall a, b | le(a, b) && le(b, a) ensures a == b {}
    forall a, b, c | le(a, b) && le(b, c) ensures le(a, c) {
      assert collation(a.path, b.path) && collation(b.path, c.path) ==> collation(a.path, c.path);
    }
  }

  /** The distance of a query from a vector; its arithmetic is not modelled. */
  type Distance = (Vector, Vector) -> real

  function Candidates(corpus: Corpus, model: string, distance: Distance, query: Vector): set<Hit> {
    set p, i | p in corpus && 0 <= i < |corpus[p].chunks| && corpus[p].chunks[i].model == model ::
      Hit(distance(query, corpus[p].chunks[i].vector), p, corpus[p].chunks[i].index)
  }

  function Ranking(collation: Collation, hits: set<Hit>): (r: seq<Hit>)
    ensures |r| == |hits| && forall h :: h in r <==> h in hits
  {
    RowOrderIsTotal(collation);
    SortedBy(RowOrder(collation), hits)
  }

  function Top(collation: Collation, hits: set<Hit>, k: nat): seq<Hit> {
    if k <= |hits| then Ranking(collation, hits)[..k] else Ranking(collation, hits)
  }

  /** What the database ranks by. */
  datatype Order = Order(distance: Distance, collation: Collation)

  /** `search` without a metadata filter; None is its ValueError. */
  function Search(corpus: Corpus, model: string, order: Order, query: Vector, limit: int): Option<seq<Hit>> {
    if limit <= 0 || query == [] then None
    else Some(Top(order.collation, Candidates(corpus, model, order.distance, query), limit))
  }

  // ---------- What a top-k is ----------

  /** In order, as many as asked for or as there are, and nothing left out comes before anything listed. */
  ghost predicate IsTop(collation: Collation, hits: set<Hit>, k: nat, r: seq<Hit>) {
    && Ascending(RowOrder(collation), r)
    && |r| == (if k <= |hits| then k else |hits|)
    && (forall h | h in r :: h in hits)
    && (forall h, g | h in r && g in hits && g !in r :: RowOrder(collation)(h, g))
  }

  lemma RankingAscends(collation: Collation, hits: set<Hit>)
    ensures Ascending(RowOrder(collation), Ranking(collation, hits))
  {
    RowOrderIsTotal(collation);
    SortedAscends(RowOrder(collation), hits);
  }

  lemma TopIsTop(collation: Collation, hits: set<Hit>, k: nat)
    ensures IsTop(collation, hits, k, Top(collation, hits, k))
  {
    hide HitLe, RowOrder;
    RankingAscends(collation, hits);
    var all, r := Ranking(collation, hits), Top(collation, hits, k);
    forall h, g | h in r && g in hits && g !in r ensures RowOrder(collation)(h, g) {
      var i :| 0 <= i < |r| && r[i] == h;
      assert g in all;
      var j :| 0 <= j < |all| && all[j] == g;
      assert all[i] == h && j >= |r|;
    }
  }

  ghost function Elements(r: seq<Hit>): set<Hit> {
    set h | h in r
  }

  lemma {:induction false} AscendingCounts(collation: Collation, r: seq<Hit>)
    requires Ascending(RowOrder(collation), r)
    ensures |Elements(r)| == |r|
  {
    hide HitLe, RowOrder;
    if r != [] {
      var n := |r| - 1;
      AscendingCounts(collation, r[..n]);
      assert r == r[..n] + [r[n]];
      assert Elements(r) == Elements(r[..n]) + {r[n]};
      forall i | 0 <= i < n ensures r[..n][i] != r[n] { assert r[i] != r[n]; }
    } else {
      assert Elements(r) == {};
    }
  }

  /** Two top-k lists hold the same hits. */
  lemma SameElements(collation: Collation, hits: set<Hit>, k: nat, r: seq<Hit>, s: seq<Hit>)
    requires IsTop(collation, hits, k, r) && IsTop(collation, hits, k, s)
    ensures Elements(r) == Elements(s)
  {
    hide HitLe, RowOrder;
    RowOrderIsTotal(collation);
    AscendingCounts(collation, r);
    AscendingCounts(collation, s);
    NotBelow(collation, hits, k, r, s);
    NotBelow(collation, hits, k, s, r);
  }

  lemma NotBelow(collation: Collation, hits: set<Hit>, k: nat, r: seq<Hit>, s: seq<Hit>)
    requires IsTop(collation, hits, k, r) && IsTop(collation, hits, k, s) && TotalOrder(RowOrder(collation))
    requires |Elements(r)| == |Elements(s)|
    ensures Elements(r) <= Elements(s)
  {
    hide HitLe, RowOrder;
    if x :| x in Elements(r) && x !in Elements(s) {
      Pigeonhole(Elements(r), Elements(s), x);
      var y :| y in Elements(s) && y !in Elements(r);
      NoSwap(collation, hits, k, r, s, x, y);
    }
  }

  lemma NoSwap(collation: Collation, hits: set<Hit>, k: nat, r: seq<Hit>, s: seq<Hit>, x: Hit, y: Hit)
    requires IsTop(collation, hits, k, r) && IsTop(collation, hits, k, s) && TotalOrder(RowOrder(collation))
    requires x in r && x !in s && y in s
    ensures y in r
  {
  }

  lemma Pigeonhole(a: set<Hit>, b: set<Hit>, x: Hit)
    requires |a| == |b| && x in a && x !in b
    ensures exists y :: y in b && y !in a
  {
    if b <= a {
      assert b <= a - {x};
      Subset(b, a - {x});
    }
  }

  lemma {:induction false} Subset(a: set<Hit>, b: set<Hit>)
    requires a <= b
    ensures |a| <= |b|
  {
    assert b == a + (b - a);
  }

  /** The result of a search is determined by being a top-k, whatever plan the database chooses. */
  lemma TopIsUnique(collation: Collation, hits: set<Hit>, k: nat, r: seq<Hit>)
    ensures IsTop(collation, hits, k, r) <==> r == Top(collation, hits, k)
  {
    hide HitLe, Top, RowOrder;
    TopIsTop(collation, hits, k);
    if IsTop(collation, hits, k, r) {
      SameElements(collation, hits, k, r, Top(collation, hits, k));
      RowOrderIsTotal(collation);
      assert forall h :: h in r <==> h in Elements(r);
      AscendingIsUnique(RowOrder(collation), r, Top(collation, hits, k));
    }
  }

  /** A larger limit only appends. */
  lemma LargerLimitAppends(collation: Collation, hits: set<Hit>, k: nat, k': nat)
    requires k <= k'
    ensures Top(collation, hits, k) <= Top(collation, hits, k')
  {
  }

  // ---------- What a search returns ----------

  /** Nearer rows come first; at equal distance the collation of the paths decides, and within one document the
      chunk index. */
  predicate Precedes(collation: Collation, a: Hit, b: Hit) {
    || a.distance < b.distance
    || (a.distance == b.distance && (if a.path == b.path then a.index < b.index else collation(a.path, b.path)))
  }

  /** The row of a chunk that is embedded by the model. */
  predicate IsRow(corpus: Corpus, model: string, order: Order, query: Vector, h: Hit) {
    && h.path in corpus
    && exists i | 0 <= i < |corpus[h.path].chunks| ::
         var chunk := corpus[h.path].chunks[i];
         chunk.model == model && chunk.index == h.index && order.distance(query, chunk.vector) == h.distance
  }

  /** A search with a positive limit and a query returns rows of the model's chunks, at most as many as the limit,
      each before the next; a row is left out only when the limit is reached, and comes after all that are listed. */
  lemma SearchIsExact(corpus: Corpus, model: string, order: Order, query: Vector, limit: int)
    ensures var found := Search(corpus, model, order, query, limit);
            && (found.Some? <==> limit > 0 && query != [])
            && (found.Some? ==>
                  && |found.value| <= limit
                  && (forall i, j | 0 <= i < j < |found.value| ::
                        Precedes(order.collation, found.value[i], found.value[j]))
                  && (forall h | h in found.value :: IsRow(corpus, model, order, query, h))
                  && forall h | IsRow(corpus, model, order, query, h) && h !in found.value ::
                       |found.value| == limit && forall g | g in found.value :: Precedes(order.collation, g, h))
  {
    hide Top, HitLe, Precedes;
    if limit > 0 && query != [] {
      var rows := Candidates(corpus, model, order.distance, query);
      var found := Top(order.collation, rows, limit);
      TopIsTop(order.collation, rows, limit);
      forall a, b { RowOrderPrecedes(order.collation, a, b); }
      forall h ensures h in rows <==> IsRow(corpus, model, order, query, h) {}
      forall h | h in rows && h !in found ensures |found| == limit {
        AscendingCounts(order.collation, found);
        if |found| == |rows| { Subset(Elements(found) + {h}, rows); }
      }
    }
  }

  lemma RowOrderPrecedes(collation: Collation, a: Hit, b: Hit)
    ensures RowOrder(collation)(a, b) && a != b <==> Precedes(collation, a, b)
  {
  }
}
