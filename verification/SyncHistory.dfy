/** The bridge from the imperative `sync` to the theorems about histories: every call adds one event. */
module SyncHistory {
  import opened Strings
  import opened SourceDiffing
  import opened StoreTables
  import opened PgStore
  import opened EmbeddingProvider
  import opened Pipeline
  import opened Synchronization
  import opened History

  /** `sync`, called on a store whose committed tables are the outcome of a history. The call extends the
      history by what it did: a completed call by its success, and a failed one by a success exactly when the
      reply to its commit got lost. */
  method SynchronizeNext(store: Store, embedder: Embedder, batchSize: nat, r: Reader, scan: Option<Scan>,
                         source: string, runId: nat, ghost events: seq<Event>)
    returns (outcome: Outcome, ghost ev: Event)
    requires batchSize > 0 && store.Valid() && store.working.None?
    requires scan.Some? ==> KeyedByPath(scan.value)
    requires PossibleHistory(events) && Replay(events) == State(store.committed, store.nextId)
    modifies store, embedder`calls
    ensures store.Valid() && store.working.None?
    ensures PossibleHistory(events + [ev]) && Replay(events + [ev]) == State(store.committed, store.nextId)
    ensures outcome.Completed? ==> ev.Success?
    ensures ev.Success? ==>
              ev == Success(old(JobOf(store, embedder, batchSize, r, scan, source, runId)), store.nextId) && scan.Some?
    ensures outcome.SyncFailed? && ev.Success? ==>
              CommitReply(store, old(store.committed), old(JobOf(store, embedder, batchSize, r, scan, source, runId)),
                          old(store.calls)) == AppliedUnacknowledged
    ensures outcome.AlreadyRunning? || outcome.LockFailed? ==> ev.Nothing?
  {
    hide ValidTables, KeyedByPath, Succeeds, PossibleHistory, Replay, Possible, StateAfter, SuccessRun, JobWorks;
    hide Doable, FreshRun, AfterSuccess, RecordsFailure, CommitReply, ProperReport, ComesToCommit, Jams;
    hide FailureIsRecorded;
    ghost var before := State(store.committed, store.nextId);
    ghost var job := JobOf(store, embedder, batchSize, r, scan, source, runId);
    ghost var calls := store.calls;
    EmptyScanIsKeyed();
    ghost var report, reached, recording;
    outcome, report, reached, recording := Synchronize(store, embedder, batchSize, r, scan, source, runId);
    ghost var after := State(store.committed, store.nextId);
    if outcome.Completed? || outcome.SyncFailed? {
      ghost var reply := CommitReply(store, before.tables, job, calls);
      if outcome.SyncFailed? { LostReplyIsSuccess(before.tables, job, after.tables); }
      ev := SyncIsAnEvent(before, after, job, report, reached && reply != NotApplied);
    } else {
      ev := Nothing(after.nextId);
      NothingIsAnEvent(before, after);
    }
    OneMoreEvent(events, ev);
  }

  lemma LostReplyIsSuccess(before: Tables, job: Job, after: Tables)
    ensures Succeeds(before, job, after) ==>
              Doable(before, job) && after == AfterSuccess(before, job, JobWorks(before, job).value)
  {
  }

  lemma NothingIsAnEvent(before: State, after: State)
    requires before.nextId <= after.nextId && after.tables == before.tables
    ensures Possible(before, Nothing(after.nextId)) && StateAfter(before, Nothing(after.nextId)) == after
  {
  }
}
