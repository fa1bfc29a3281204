/** `RetrievalEvaluator.evaluate`: embed the queries in batches, search, and score the first match. */
module Evaluation {
  import opened Strings
  import opened Models
  import opened StoreTables
  import opened SyncPlan
  import opened EmbeddingProvider
  import opened RankedSearch

  datatype Case = Case(query: string, expected: Path)

  datatype CaseResult = CaseResult(
    query: string,
    expected: Path,
    retrieved: seq<Path>,
    rank: Option<nat>,
    reciprocalRank: real,
    hit: bool)

  datatype Report = Report(
    k: nat,
    totalCases: nat,
    hits: nat,
    hitRate: real,
    meanReciprocalRank: real,
    cases: seq<CaseResult>)

  function PathsOf(hits: seq<Hit>): seq<Path> {
    seq(|hits|, i requires 0 <= i < |hits| => hits[i].path)
  }

  /** `retrieved.index(expected) + 1`; None when it is not there. */
  function Rank(retrieved: seq<Path>, expected: Path): (r: Option<nat>)
    ensures r.Some? ==> 0 < r.value <= |retrieved| && retrieved[r.value - 1] == expected
    ensures r.Some? ==> forall i | 0 <= i < r.value - 1 :: retrieved[i] != expected
    ensures r.None? ==> expected !in retrieved
  {
    if retrieved == [] then None
    else if retrieved[0] == expected then Some(1)
    else
      var later := Rank(retrieved[1..], expected);
      if later.None? then None else Some(later.value + 1)
  }

  function Reciprocal(rank: Option<nat>): real
    requires rank.Some? ==> rank.value > 0
  {
    if rank.None? then 0.0 else 1.0 / rank.value as real
  }

  function Score(c: Case, hits: seq<Hit>): CaseResult {
    var retrieved := PathsOf(hits);
    var rank := Rank(retrieved, c.expected);
    CaseResult(c.query, c.expected, retrieved, rank, Reciprocal(rank), rank.Some?)
  }

  function HitCount(results: seq<CaseResult>): nat {
    if results == [] then 0
    else HitCount(results[..|results| - 1]) + (if results[|results| - 1].hit then 1 else 0)
  }

  function ReciprocalSum(results: seq<CaseResult>): real {
    if results == [] then 0.0 else ReciprocalSum(results[..|results| - 1]) + results[|results| - 1].reciprocalRank
  }

  function Summary(k: nat, results: seq<CaseResult>): Report
    requires results != []
  {
    Report(k, |results|, HitCount(results), HitCount(results) as real / |results| as real,
           ReciprocalSum(results) / |results| as real, results)
  }

  /** The corpus that each search sees; it may change between searches. */
  type Snapshots = nat -> Corpus

  /** The result for one case. */
  function ResultFor(e: Embedding, corpora: Snapshots, order: Order, cases: seq<Case>, k: nat, i: nat): CaseResult
    requires i < |cases|
  {
    Score(cases[i], Top(order.collation, Candidates(corpora(i), e.model, order.distance, e.vector(cases[i].query)), k))
  }

  function ResultsFor(e: Embedding, corpora: Snapshots, order: Order, cases: seq<Case>, k: nat): seq<CaseResult> {
    seq(|cases|, i requires 0 <= i < |cases| => ResultFor(e, corpora, order, cases, k, i))
  }

  function Queries(cases: seq<Case>): seq<string> {
    seq(|cases|, i requires 0 <= i < |cases| => cases[i].query)
  }

  /** The batching loop: the vectors of all queries, or None when the provider fails. */
  method EmbedQueries(embedder: Embedder, batchSize: nat, cases: seq<Case>) returns (vectors: Option<seq<Vector>>)
    requires batchSize > 0
    modifies embedder`calls
    ensures vectors.Some? ==> vectors.value == Vectors(embedder.embedding, Queries(cases))
    ensures vectors.Some? ==> embedder.calls == old(embedder.calls) + Batches(Queries(cases), batchSize)
    ensures vectors.Some? <==> Answered(embedder.answers, |old(embedder.calls)|, Batches(Queries(cases), batchSize))
  {
    hide Right, Batches, Answered;
    var embeddings: seq<Vector> := [];
    var start := 0;
    ghost var before, sent := embedder.calls, [];
    ghost var all, rest := Batches(Queries(cases), batchSize), Queries(cases);
    NothingSent(embedder.answers, |before|, batchSize);
    while start < |cases|
      invariant 0 <= start && rest == Queries(cases)[if start <= |cases| then start else |cases|..]
      invariant embeddings == Vectors(embedder.embedding, Queries(cases)[..if start <= |cases| then start else |cases|])
      invariant embedder.calls == before + sent && all == sent + Batches(rest, batchSize)
      invariant Answered(embedder.answers, |before|, sent)
      decreases |cases| - start
    {
      var end := if start + batchSize <= |cases| then start + batchSize else |cases|;
      var batch := cases[start..end];
      NextBatch(cases, start, batchSize);
      rest := Queries(cases)[end..];
      OneMoreCall(embedder.answers, |before|, sent, Queries(batch), Batches(rest, batchSize));
      var answer := embedder.Embed(Queries(batch));
      if answer.None? || |answer.value| != |batch| {
        return None;
      }
      sent := sent + [Queries(batch)];
      assert Vectors(embedder.embedding, Queries(cases)[..end])
          == Vectors(embedder.embedding, Queries(cases)[..start]) + Vectors(embedder.embedding, Queries(batch));
      embeddings := embeddings + answer.value;
      start := start + batchSize;
    }
    assert Queries(cases)[..|cases|] == Queries(cases) && rest == [] && all == sent;
    vectors := Some(embeddings);
  }

  lemma NothingSent(answers: nat -> Answer, from: nat, size: nat)
    requires size > 0
    ensures Answered(answers, from, []) && Batches([], size) == []
  {
  }

  /** With one more call, the calls so far are answered if that one is; otherwise the whole is not. */
  lemma OneMoreCall(answers: nat -> Answer, from: nat, sent: seq<seq<string>>, call: seq<string>,
                    more: seq<seq<string>>)
    requires Answered(answers, from, sent)
    ensures Answered(answers, from, sent + [call]) <==> Right(answers(from + |sent|), |call|)
    ensures sent + ([call] + more) == (sent + [call]) + more
    ensures !Right(answers(from + |sent|), |call|) ==> !Answered(answers, from, sent + ([call] + more))
  {
    hide Right;
    assert (sent + [call])[|sent|] == call && (sent + ([call] + more))[|sent|] == call;
  }

  lemma NextBatch(cases: seq<Case>, start: nat, batchSize: nat)
    requires batchSize > 0 && start < |cases|
    ensures var end := if start + batchSize <= |cases| then start + batchSize else |cases|;
            && Queries(cases[start..end]) == Queries(cases)[start..end]
            && Batches(Queries(cases)[start..], batchSize)
               == [Queries(cases)[start..end]] + Batches(Queries(cases)[end..], batchSize)
  {
    var all, end := Queries(cases), if start + batchSize <= |cases| then start + batchSize else |cases|;
    var rest := all[start..];
    if |rest| <= batchSize {
      assert all[start..end] == rest && all[end..] == [];
    } else {
      assert rest[..batchSize] == all[start..end] && rest[batchSize..] == all[end..];
    }
  }

  /** The search for every case goes through: its query fails neither in the database nor for an empty vector. */
  predicate AllSearched(e: Embedding, fails: nat -> bool, cases: seq<Case>) {
    forall i | 0 <= i < |cases| :: !fails(i) && e.vector(cases[i].query) != []
  }

  /** `evaluate`; None is an exception, and `fails` says which searches raise. The report depends on no batch
      size, and there is one exactly when the input is accepted, every embedding call is answered with a vector for
      each query, and every search goes through. */
  method Evaluate(embedder: Embedder, corpora: Snapshots, fails: nat -> bool, order: Order, batchSize: nat,
                  cases: seq<Case>, k: int)
    returns (report: Option<Report>)
    requires batchSize > 0
    modifies embedder`calls
    ensures cases == [] || k <= 0 || k > 100 ==> report.None? && embedder.calls == old(embedder.calls)
    ensures report.Some? <==>
              && cases != [] && 1 <= k <= 100 && AllSearched(embedder.embedding, fails, cases)
              && Answered(embedder.answers, |old(embedder.calls)|, Batches(Queries(cases), batchSize))
    ensures report.Some? ==>
              && report.value == Summary(k, ResultsFor(embedder.embedding, corpora, order, cases, k))
              && embedder.calls == old(embedder.calls) + Batches(Queries(cases), batchSize)
  {
    hide Top, Candidates, Score, Batches, Answered;
    if cases == [] || k <= 0 || k > 100 {
      return None;
    }
    var vectors := EmbedQueries(embedder, batchSize, cases);
    if vectors.None? {
      return None;
    }
    ghost var all := ResultsFor(embedder.embedding, corpora, order, cases, k);
    var results: seq<CaseResult>, hits, sum := [], 0, 0.0;
    for i := 0 to |cases|
      invariant results == all[..i] && hits == HitCount(results) && sum == ReciprocalSum(results)
      invariant AllSearched(embedder.embedding, fails, cases[..i])
    {
      if fails(i) {
        return None;
      }
      var found := Search(corpora(i), embedder.embedding.model, order, vectors.value[i], k);
      if found.None? {
        return None;
      }
      var result := Score(cases[i], found.value);
      assert (results + [result])[..i] == results;
      hits := hits + (if result.hit then 1 else 0);
      sum := sum + result.reciprocalRank;
      results := results + [result];
    }
    assert all[..|cases|] == all && cases[..|cases|] == cases;
    report := Some(Report(k, |cases|, hits, hits as real / |cases| as real, sum / |cases| as real, results));
  }

  // ---------- Bounds ----------

  /** A result of a search for at most k documents. */
  predicate WithinK(r: CaseResult, k: nat) {
    && r.hit == r.rank.Some?
    && (r.rank.Some? ==> 0 < r.rank.value <= k)
    && r.reciprocalRank == Reciprocal(r.rank)
  }

  lemma OneReciprocal(r: CaseResult, k: nat)
    requires k > 0 && WithinK(r, k)
    ensures (if r.hit then 1.0 else 0.0) / k as real <= r.reciprocalRank <= if r.hit then 1.0 else 0.0
  {
    if r.hit {
      Reciprocals(r.rank.value, k);
      Reciprocals(1, r.rank.value);
    }
  }

  lemma Reciprocals(a: nat, b: nat)
    requires 0 < a <= b
    ensures 1.0 / b as real <= 1.0 / a as real
  {
  }

  lemma Scaled(x: real, y: real, n: real)
    requires x <= y && n > 0.0
    ensures x / n <= y / n
  {
  }

  lemma {:induction false} SumBounds(results: seq<CaseResult>, k: nat)
    requires k > 0 && forall i | 0 <= i < |results| :: WithinK(results[i], k)
    ensures HitCount(results) as real / k as real <= ReciprocalSum(results) <= HitCount(results) as real
    ensures HitCount(results) <= |results|
  {
    hide WithinK;
    if results != [] {
      var n := |results| - 1;
      SumBounds(results[..n], k);
      OneReciprocal(results[n], k);
    }
  }

  /** hit rate / k <= MRR <= hit rate <= 1 */
  lemma MetricBounds(e: Embedding, corpora: Snapshots, order: Order, cases: seq<Case>, k: nat)
    requires cases != [] && k > 0
    ensures var report := Summary(k, ResultsFor(e, corpora, order, cases, k));
            0.0 <= report.hitRate / k as real <= report.meanReciprocalRank <= report.hitRate <= 1.0
  {
    hide Top, Candidates, Score, WithinK, ResultsFor, HitCount, ReciprocalSum;
    var results := ResultsFor(e, corpora, order, cases, k);
    ResultsWithinK(e, corpora, order, cases, k);
    SumBounds(results, k);
    RateBounds(HitCount(results) as real, ReciprocalSum(results), |results| as real, k as real);
  }

  lemma ResultsWithinK(e: Embedding, corpora: Snapshots, order: Order, cases: seq<Case>, k: nat)
    ensures var results := ResultsFor(e, corpora, order, cases, k);
            |results| == |cases| && forall i | 0 <= i < |results| :: WithinK(results[i], k)
  {
  }

  lemma RateBounds(h: real, s: real, n: real, k: real)
    requires n > 0.0 && k > 0.0 && 0.0 <= h <= n && h / k <= s <= h
    ensures 0.0 <= h / n / k <= s / n <= h / n <= 1.0
  {
    Scaled(s, h, n);
    Scaled(h, n, n);
    Scaled(h / k, s, n);
    Swapped(h, k, n);
    Scaled(0.0, h, n);
    Scaled(0.0, h / n, k);
  }

  lemma Swapped(h: real, k: real, n: real)
    requires n > 0.0 && k > 0.0
    ensures h / k / n == h / n / k
  {
  }

  // ---------- Growing k ----------

  lemma {:induction false} RankOfPrefix(retrieved: seq<Path>, more: seq<Path>, expected: Path)
    requires retrieved <= more
    ensures Rank(retrieved, expected).Some? ==> Rank(more, expected) == Rank(retrieved, expected)
  {
  }

  /** With a larger k a case keeps its rank, if it had one. */
  lemma LargerKKeepsRank(e: Embedding, corpora: Snapshots, order: Order, cases: seq<Case>, k: nat, k': nat,
                         i: nat)
    requires 0 < k <= k' && i < |cases|
    ensures var r, r' := ResultFor(e, corpora, order, cases, k, i), ResultFor(e, corpora, order, cases, k', i);
            && (r.hit ==> r'.rank == r.rank) && (r.hit ==> r'.hit) && r.reciprocalRank <= r'.reciprocalRank
  {
    hide Candidates, Top;
    var hits := Candidates(corpora(i), e.model, order.distance, e.vector(cases[i].query));
    LargerLimitAppends(order.collation, hits, k, k');
    var before, after := Top(order.collation, hits, k), Top(order.collation, hits, k');
    assert PathsOf(before) <= PathsOf(after);
    RankOfPrefix(PathsOf(before), PathsOf(after), cases[i].expected);
  }

  lemma {:induction false} SumsGrow(a: seq<CaseResult>, b: seq<CaseResult>)
    requires |a| == |b|
    requires forall i | 0 <= i < |a| :: (a[i].hit ==> b[i].hit) && a[i].reciprocalRank <= b[i].reciprocalRank
    ensures HitCount(a) <= HitCount(b) && ReciprocalSum(a) <= ReciprocalSum(b)
  {
    if a != [] { SumsGrow(a[..|a| - 1], b[..|b| - 1]); }
  }

  /** Hits, hit rate and MRR never decrease as k grows. */
  lemma MetricsGrowWithK(e: Embedding, corpora: Snapshots, order: Order, cases: seq<Case>, k: nat, k': nat)
    requires cases != [] && 0 < k <= k'
    ensures var report := Summary(k, ResultsFor(e, corpora, order, cases, k));
            var larger := Summary(k', ResultsFor(e, corpora, order, cases, k'));
            && report.hits <= larger.hits && report.hitRate <= larger.hitRate
            && report.meanReciprocalRank <= larger.meanReciprocalRank
  {
    hide ResultFor;
    var a, b := ResultsFor(e, corpora, order, cases, k), ResultsFor(e, corpora, order, cases, k');
    forall i | 0 <= i < |a| ensures (a[i].hit ==> b[i].hit) && a[i].reciprocalRank <= b[i].reciprocalRank {
      LargerKKeepsRank(e, corpora, order, cases, k, k', i);
    }
    SumsGrow(a, b);
    Scaled(HitCount(a) as real, HitCount(b) as real, |a| as real);
    Scaled(ReciprocalSum(a), ReciprocalSum(b), |a| as real);
  }

  // ---------- What a report says ----------

  /** The expected document is first found at index j. */
  predicate FirstAt(retrieved: seq<Path>, expected: Path, j: nat) {
    j < |retrieved| && retrieved[j] == expected && forall i | 0 <= i < j :: retrieved[i] != expected
  }

  /** The result is that of a search whose rows have the retrieved paths: the rank counts from one, and the
      reciprocal rank is its inverse, or zero without a rank. */
  ghost predicate IsResult(c: Case, found: Option<seq<Hit>>, r: CaseResult) {
    && r.query == c.query && r.expected == c.expected
    && found.Some? && |r.retrieved| == |found.value|
    && (forall j | 0 <= j < |found.value| :: r.retrieved[j] == found.value[j].path)
    && (forall j: nat | FirstAt(r.retrieved, c.expected, j) ::
          r.hit && r.rank == Some(j + 1) && r.reciprocalRank * (j + 1) as real == 1.0)
    && (c.expected !in r.retrieved ==> !r.hit && r.rank.None? && r.reciprocalRank == 0.0)
  }

  /** The partial sums of the reciprocal ranks, from none of them to all of them. */
  ghost predicate PartialSums(results: seq<CaseResult>, sums: seq<real>) {
    && |sums| == |results| + 1 && sums[0] == 0.0
    && forall i | 0 <= i < |results| :: sums[i + 1] == sums[i] + results[i].reciprocalRank
  }

  lemma FirstIsRanked(retrieved: seq<Path>, expected: Path, j: nat)
    requires FirstAt(retrieved, expected, j)
    ensures Rank(retrieved, expected) == Some(j + 1)
    ensures Reciprocal(Some(j + 1)) * (j + 1) as real == 1.0
  {
  }

  lemma ResultIsExact(e: Embedding, corpora: Snapshots, order: Order, cases: seq<Case>, k: nat, i: nat)
    requires i < |cases| && k > 0 && e.vector(cases[i].query) != []
    ensures IsResult(cases[i], Search(corpora(i), e.model, order, e.vector(cases[i].query), k),
                     ResultFor(e, corpora, order, cases, k, i))
  {
    hide Top, Candidates, Rank, Reciprocal, FirstAt;
    var r := ResultFor(e, corpora, order, cases, k, i);
    forall j: nat | FirstAt(r.retrieved, cases[i].expected, j) { FirstIsRanked(r.retrieved, cases[i].expected, j); }
    NoReciprocal();
  }

  lemma HitsAreFound(e: Embedding, corpora: Snapshots, order: Order, cases: seq<Case>, k: nat, i: nat)
    requires i < |cases|
    ensures var r := ResultFor(e, corpora, order, cases, k, i); r.hit <==> cases[i].expected in r.retrieved
  {
    hide Top, Candidates, Reciprocal;
  }

  /** Every case has the result of its own search; the hits are the cases whose document was retrieved, and the rates
      are the hits and the sum of the reciprocal ranks by the number of cases. */
  lemma ReportIsExact(e: Embedding, corpora: Snapshots, order: Order, cases: seq<Case>, k: nat)
    returns (sums: seq<real>)
    requires cases != [] && k > 0 && forall i | 0 <= i < |cases| :: e.vector(cases[i].query) != []
    ensures var report := Summary(k, ResultsFor(e, corpora, order, cases, k));
            && report.k == k && report.totalCases == |cases| == |report.cases|
            && (forall i | 0 <= i < |cases| ::
                  IsResult(cases[i], Search(corpora(i), e.model, order, e.vector(cases[i].query), k), report.cases[i]))
            && report.hits == |set i | 0 <= i < |cases| && cases[i].expected in report.cases[i].retrieved|
            && report.hitRate * |cases| as real == report.hits as real
            && PartialSums(report.cases, sums) && report.meanReciprocalRank * |cases| as real == sums[|cases|]
  {
    hide ResultFor, Search, IsResult, PartialSums, Summary;
    var results := ResultsFor(e, corpora, order, cases, k);
    forall i | 0 <= i < |cases|
      ensures IsResult(cases[i], Search(corpora(i), e.model, order, e.vector(cases[i].query), k), results[i])
      ensures results[i].hit <==> cases[i].expected in results[i].retrieved {
      ResultIsExact(e, corpora, order, cases, k, i);
      HitsAreFound(e, corpora, order, cases, k, i);
    }
    sums := RatesAreExact(k, results);
    assert (set i | 0 <= i < |cases| && cases[i].expected in results[i].retrieved)
        == (set i | 0 <= i < |results| && results[i].hit);
  }

  lemma RatesAreExact(k: nat, results: seq<CaseResult>) returns (sums: seq<real>)
    requires results != []
    ensures var report := Summary(k, results);
            && report.k == k && report.totalCases == |results| && report.cases == results
            && report.hits == |set i | 0 <= i < |results| && results[i].hit|
            && report.hitRate * |results| as real == report.hits as real
            && PartialSums(results, sums) && report.meanReciprocalRank * |results| as real == sums[|results|]
  {
    hide HitCount, ReciprocalSum;
    CountsHits(results);
    sums := SumsUp(results);
    Shares(HitCount(results) as real, |results| as real);
    Shares(ReciprocalSum(results), |results| as real);
  }

  lemma Shares(x: real, n: real)
    requires n > 0.0
    ensures x / n * n == x
  {
  }

  lemma NoReciprocal()
    ensures Reciprocal(None) == 0.0
  {
  }

  lemma {:induction false} CountsHits(results: seq<CaseResult>)
    ensures HitCount(results) == |set i | 0 <= i < |results| && results[i].hit|
  {
    if results != [] {
      var n := |results| - 1;
      CountsHits(results[..n]);
      var before := set i | 0 <= i < n && results[..n][i].hit;
      assert (set i | 0 <= i < |results| && results[i].hit) == before + if results[n].hit then {n} else {};
    }
  }

  lemma {:induction false} SumsUp(results: seq<CaseResult>) returns (sums: seq<real>)
    ensures PartialSums(results, sums) && sums[|results|] == ReciprocalSum(results)
  {
    if results == [] {
      sums := [0.0];
    } else {
      var n := |results| - 1;
      var before := SumsUp(results[..n]);
      sums := before + [before[n] + results[n].reciprocalRank];
    }
  }
}
