/** Histories of synchronizations over one store, and what holds after every one of them. */
module History {
  import opened Strings
  import opened Models
  import opened SourceDiffing
  import opened StoreTables
  import opened PgStore
  import opened SyncPlan
  import opened StoreSteps
  import opened Pipeline
  import opened SyncEffects
  import opened Synchronization
  import opened SyncCorpus

  /** The committed tables; all ids in use are below `nextId`. */
  datatype State = State(tables: Tables, nextId: nat)

  const INITIAL := State(EMPTY_TABLES, 0)

  /** What one call of `sync` can do to the committed state. `Nothing` is a rejected attempt, or a failure
      that could not be recorded. Ids may be used up in any case. */
  datatype Event = Success(job: Job, nextId: nat) | Failure(report: Report, nextId: nat) | Nothing(nextId: nat)

  function StateAfter(s: State, ev: Event): State {
    match ev
    case Success(job, n) =>
      if job.batchSize > 0 && JobWorks(s.tables, job).Some?
      then State(AfterSuccess(s.tables, job, JobWorks(s.tables, job).value), n)
      else s
    case Failure(report, n) => State(WithRun(s.tables, ReportedRun(s.tables, report)), n)
    case Nothing(n) => State(s.tables, n)
  }

  predicate Possible(s: State, ev: Event) {
    match ev
    case Success(job, n) =>
      && s.nextId <= job.firstId && KeyedByPath(job.scan) && Doable(s.tables, job)
      && job.firstId + |JobWorks(s.tables, job).value| <= n
    case Failure(report, n) => s.nextId <= n && ProperReport(report) && FreshRun(s.tables, report.runId)
    case Nothing(n) => s.nextId <= n
  }

  function Replay(events: seq<Event>): State {
    if events == [] then INITIAL else StateAfter(Replay(events[..|events| - 1]), events[|events| - 1])
  }

  predicate PossibleHistory(events: seq<Event>) {
    events == []
    || (PossibleHistory(events[..|events| - 1]) && Possible(Replay(events[..|events| - 1]), events[|events| - 1]))
  }

  /** Every way in which Synchronize can end is one of these events: the whole plan was committed, or nothing
      but possibly the failure record. */
  lemma SyncIsAnEvent(before: State, after: State, job: Job, report: Report, committed: bool) returns (ev: Event)
    requires before.nextId <= job.firstId && before.nextId <= after.nextId
    requires KeyedByPath(job.scan) && ProperReport(report)
    requires committed ==>
               && Doable(before.tables, job)
               && after.tables == AfterSuccess(before.tables, job, JobWorks(before.tables, job).value)
               && job.firstId + |JobWorks(before.tables, job).value| <= after.nextId
    requires !committed ==> after.tables == before.tables || RecordsFailure(before.tables, report, after.tables)
    ensures Possible(before, ev) && StateAfter(before, ev) == after
    ensures if committed then ev == Success(job, after.nextId) else !ev.Success?
  {
    hide KeyedByPath, AfterSuccess, FreshRun, ReportedRun, JobWorks, Acceptable;
    if committed {
      DoableIsReadable(before.tables, job);
      ev := Success(job, after.nextId);
    } else if after.tables == before.tables {
      ev := Nothing(after.nextId);
    } else {
      ev := Failure(report, after.nextId);
    }
  }

  /** A history goes on with any event that is possible after it. */
  lemma OneMoreEvent(events: seq<Event>, ev: Event)
    ensures Replay(events + [ev]) == StateAfter(Replay(events), ev)
    ensures PossibleHistory(events) && Possible(Replay(events), ev) ==> PossibleHistory(events + [ev])
  {
    hide Possible, StateAfter;
    assert (events + [ev])[..|events|] == events;
  }

  lemma LargerIds(t: Tables, n: nat, m: nat)
    requires ValidTables(t, n) && n <= m
    ensures ValidTables(t, m)
  {
  }

  // ---------- What a success does ----------

  /** The corpus moves at every path as the diff says; the run record counts its chunks exactly. */
  lemma SuccessAdvances(t: Tables, job: Job, p: Path)
    requires ValidTables(t, job.firstId) && KeyedByPath(job.scan) && Feasible(t, job)
    ensures var after := AfterSuccess(t, job, JobWorks(t, job).value);
            Advances(CorpusOf(t), CorpusOf(after), job.embedding, job.reader, job.scan, StatesOf(t), p)
  {
    hide ValidTables, KeyedByPath, Reaches, ReadAll, ReadFrom, Advances, Plan, PlannedView, Diff, Storable, SuccessRun;
    var works := JobWorks(t, job).value;
    var d := SuccessReaches(t, job);
    PlanAdvances(t, job.embedding, job.firstId, job.reader, job.scan, works, p);
    ReachedFacts(t, JobOps(t, job, works), job.firstId + |works|,
                 PlannedView(t, job.embedding, job.firstId, JobDiff(t, job), works), d, ChunkCount(works));
    CorpusIgnoresRuns(ApplyAll(t, JobOps(t, job, works)), SuccessRun(t, job, works));
  }

  lemma SuccessReaches(t: Tables, job: Job) returns (d: nat)
    requires ValidTables(t, job.firstId) && KeyedByPath(job.scan) && Feasible(t, job)
    ensures var works := JobWorks(t, job).value;
            && Reaches(t, JobOps(t, job, works), job.firstId + |works|,
                       PlannedView(t, job.embedding, job.firstId, JobDiff(t, job), works), d, ChunkCount(works))
            && ReadFrom(job.reader, WorkItems(JobDiff(t, job)), works)
  {
    hide ValidTables, KeyedByPath, Reaches, ReadAll, ReadFrom, Plan, PlannedView, Diff, Storable;
    var works := JobWorks(t, job).value;
    ReadAllInOrder(job.reader, WorkItems(JobDiff(t, job)));
    d := PlanReaches(t, job.firstId, job.embedding, job.reader, job.scan, works);
  }

  lemma CorpusIgnoresRuns(t: Tables, run: RunRecord)
    ensures CorpusOf(WithRun(t, run)) == CorpusOf(t) && StatesOf(WithRun(t, run)) == StatesOf(t)
  {
  }

  lemma RunsDoNotMatter(t: Tables, run: RunRecord, nextId: nat)
    ensures ValidTables(WithRun(t, run), nextId) <==> ValidTables(t, nextId)
  {
    assert forall id :: HasDocument(WithRun(t, run), id) <==> HasDocument(t, id);
  }

  /** Whatever the state, a job whose documents can be read and stored meets no constraint of the schema on
      the way, and leaves sound tables: unique ids, and no chunk without its document. */
  lemma SuccessIsValid(t: Tables, job: Job)
    requires ValidTables(t, job.firstId) && KeyedByPath(job.scan) && Feasible(t, job)
    ensures AllEnabled(t, JobOps(t, job, JobWorks(t, job).value))
    ensures var works := JobWorks(t, job).value; ValidTables(AfterSuccess(t, job, works), job.firstId + |works|)
  {
    hide ValidTables, KeyedByPath, Reaches, PlannedView, Feasible, JobOps, JobWorks, JobDiff, SuccessRun, AllEnabled;
    FeasibleIsReadable(t, job);
    var works := JobWorks(t, job).value;
    var d := SuccessReaches(t, job);
    ReachedFacts(t, JobOps(t, job, works), job.firstId + |works|,
                 PlannedView(t, job.embedding, job.firstId, JobDiff(t, job), works), d, ChunkCount(works));
    RunsDoNotMatter(ApplyAll(t, JobOps(t, job, works)), SuccessRun(t, job, works), job.firstId + |works|);
  }

  lemma FeasibleIsReadable(t: Tables, job: Job)
    requires Feasible(t, job)
    ensures job.batchSize > 0 && JobWorks(t, job).Some? && AllStorable(JobWorks(t, job).value)
  {
  }

  lemma EventIsValid(s: State, ev: Event)
    requires ValidTables(s.tables, s.nextId) && Possible(s, ev)
    ensures ValidTables(StateAfter(s, ev).tables, StateAfter(s, ev).nextId) && s.nextId <= StateAfter(s, ev).nextId
  {
    hide ValidTables, KeyedByPath, Feasible, JobWorks, AfterSuccess, ReportedRun, FreshRun, ProperReport;
    match ev
    case Success(job, n) =>
      LargerIds(s.tables, s.nextId, job.firstId);
      SuccessIsValid(s.tables, job);
      FeasibleIsReadable(s.tables, job);
      var works := JobWorks(s.tables, job).value;
      LargerIds(AfterSuccess(s.tables, job, works), job.firstId + |works|, n);
    case Failure(report, n) =>
      LargerIds(s.tables, s.nextId, n);
      RunsDoNotMatter(s.tables, ReportedRun(s.tables, report), n);
    case Nothing(n) => LargerIds(s.tables, s.nextId, n);
  }

  /** In every reachable state all ids are unique and below the next one, and no chunk is orphaned: each event
      keeps the tables sound. */
  lemma {:induction false} ReplayIsValid(events: seq<Event>)
    requires PossibleHistory(events)
    ensures ValidTables(Replay(events).tables, Replay(events).nextId)
  {
    hide Possible, StateAfter, ValidTables;
    if events == [] {
      NothingIsValid();
    } else {
      var before := events[..|events| - 1];
      ReplayIsValid(before);
      EventIsValid(Replay(before), events[|events| - 1]);
    }
  }

  lemma NothingIsValid()
    ensures ValidTables(EMPTY_TABLES, 0)
  {
  }

  // ---------- Idempotence ----------

  /** Everything scanned is stored under its scanned hashes, and nothing else is stored. */
  ghost predicate UpToDate(t: Tables, scan: Scan) {
    forall p :: IsCurrentAt(CorpusOf(t), scan, p)
  }

  predicate IsCurrentAt(corpus: Corpus, scan: Scan, p: Path) {
    && (p in corpus <==> p in scan)
    && (p in scan ==> corpus[p].contentHash == scan[p].contentHash && corpus[p].metadataHash == scan[p].metadataHash)
  }

  lemma SuccessIsUpToDate(t: Tables, job: Job)
    requires ValidTables(t, job.firstId) && KeyedByPath(job.scan) && Feasible(t, job)
    ensures UpToDate(AfterSuccess(t, job, JobWorks(t, job).value), job.scan)
  {
    hide ValidTables, KeyedByPath, AfterSuccess, JobWorks, Advances, Storable, IsCurrentAt;
    FeasibleIsReadable(t, job);
    var after := AfterSuccess(t, job, JobWorks(t, job).value);
    forall p ensures IsCurrentAt(CorpusOf(after), job.scan, p) {
      SuccessAdvances(t, job, p);
      AdvancedIsCurrent(t, CorpusOf(after), job, p);
    }
  }

  lemma AdvancedIsCurrent(t: Tables, after: Corpus, job: Job, p: Path)
    requires Advances(CorpusOf(t), after, job.embedding, job.reader, job.scan, StatesOf(t), p)
    ensures IsCurrentAt(after, job.scan, p)
  {
  }

  lemma {:induction false} NothingSelected(scan: Scan, previous: States, paths: seq<Path>, class_: Class)
    requires forall p | p in scan :: Classify(scan, previous, p) != class_
    ensures Select(scan, previous, paths, class_) == []
  {
    hide Classify;
    if paths != [] { NothingSelected(scan, previous, paths[..|paths| - 1], class_); }
  }

  /** Synchronizing an up-to-date store: no operation, no embedding call, one record that reports no
      change. */
  lemma UpToDateNeedsNothing(t: Tables, job: Job)
    requires job.batchSize > 0 && UpToDate(t, job.scan)
    ensures JobWorks(t, job) == Some([]) && JobOps(t, job, []) == [] && JobCalls(t, job) == []
    ensures AfterSuccess(t, job, [])
         == WithRun(t, RunRecord(job.runId, job.source, Succeeded, 0, 0, 0, 0, |job.scan|, 0, 0, |job.scan|,
               ScannedBytes(job.scan), 0))
  {
    hide ScannedBytes, Diff, StatesOf, UpToDate;
    NothingToDo(t, job.scan);
    assert WorkItems(JobDiff(t, job)) == [];
  }

  /** The diff of a scan against an up-to-date store reports every document as unchanged. */
  lemma NothingToDo(t: Tables, scan: Scan)
    requires UpToDate(t, scan)
    ensures var diff := Diff(scan, StatesOf(t));
            && diff.newItems == [] && diff.changedItems == [] && diff.metadataItems == [] && diff.deletedStates == []
            && |diff.unchangedItems| == |scan|
  {
    hide CorpusOf, StatesOf, Classify, UpToDate;
    var previous, paths := StatesOf(t), SortedPaths(scan.Keys);
    forall p | p in scan ensures Classify(scan, previous, p) == Unchanged { UpToDateIsUnchanged(t, scan, p); }
    NothingSelected(scan, previous, paths, New);
    NothingSelected(scan, previous, paths, Changed);
    NothingSelected(scan, previous, paths, MetadataChanged);
    NothingGone(t, scan);
    DiffCounts(scan, previous);
  }

  lemma NothingGone(t: Tables, scan: Scan)
    requires UpToDate(t, scan)
    ensures StatesOf(t).Keys - scan.Keys == {}
  {
    forall p | p in StatesOf(t) ensures p in scan { assert IsCurrentAt(CorpusOf(t), scan, p); }
  }

  /** A second synchronization of the same scan, with any reader and any batch size, writes no document and
      no chunk and embeds nothing; it only adds a record that reports no change. */
  lemma SecondSyncDoesNothing(t: Tables, job: Job, again: Job)
    requires ValidTables(t, job.firstId) && KeyedByPath(job.scan) && Feasible(t, job)
    requires again.batchSize > 0 && again.scan == job.scan
    ensures var after := AfterSuccess(t, job, JobWorks(t, job).value);
            && JobWorks(after, again) == Some([]) && JobOps(after, again, []) == [] && JobCalls(after, again) == []
            && AfterSuccess(after, again, [])
               == WithRun(after, RunRecord(again.runId, again.source, Succeeded, 0, 0, 0, 0, |job.scan|, 0, 0,
                                           |job.scan|, ScannedBytes(job.scan), 0))
  {
    hide ValidTables, KeyedByPath, JobWorks, JobOps, JobCalls, AfterSuccess, UpToDate, Storable, ScannedBytes;
    FeasibleIsReadable(t, job);
    SuccessIsUpToDate(t, job);
    UpToDateNeedsNothing(AfterSuccess(t, job, JobWorks(t, job).value), again);
  }

  lemma UpToDateIsUnchanged(t: Tables, scan: Scan, p: Path)
    requires p in scan && UpToDate(t, scan)
    ensures Classify(scan, StatesOf(t), p) == Unchanged
  {
    assert IsCurrentAt(CorpusOf(t), scan, p);
  }
}
