/** Three inputs on which a promise of `sync`, of its store or of its metrics fails, each with a proof. */
module SyncWitnesses {
  import opened Strings
  import opened CanonicalJson
  import opened Models
  import opened SourceDiffing
  import opened StoreTables
  import opened PgStore
  import opened SyncPlan
  import opened EmbeddingProvider
  import opened Pipeline
  import opened Synchronization
  import opened History
  import opened Ledger

  /** The only document of the source. */
  const NOTE := ScannedDocument(Path("note.txt"), Hash("h"), 0, "text/plain", VObj(map[]), Hash("m"))

  const NOTE_SCAN: Scan := map[NOTE.path := NOTE]

  const NOTE_EMBEDDING := Embedding("model", _ => [])

  const EMPTY_READER := Reader(_ => Some(""), _ => Some([]))

  const FAILING_READER := Reader(_ => None, _ => Some([]))

  const NOTE_JOB := Job(NOTE_EMBEDDING, 1, EMPTY_READER, NOTE_SCAN, "docs", 0, 0)

  lemma NoteScanIsKeyed()
    ensures KeyedByPath(NOTE_SCAN)
  {
  }

  lemma {:induction false} NotesAreAcceptable(items: seq<ScannedDocument>)
    requires forall i | 0 <= i < |items| :: items[i] == NOTE
    ensures Acceptable(EMPTY_READER, items)
    ensures |ReadAll(EMPTY_READER, items).value| == |items|
  {
    if items != [] {
      assert PlainItem(NOTE);
      NotesAreAcceptable(items[..|items| - 1]);
    }
  }

  /** In an empty store the document is new. */
  lemma NoteIsNew()
    ensures var diff := Diff(NOTE_SCAN, StatesOf(EMPTY_TABLES));
            |diff.newItems| == 1 && diff.changedItems == [] && diff.metadataItems == [] && diff.deletedStates == []
  {
    hide PathLe, SortedPaths;
    var scan, previous := NOTE_SCAN, StatesOf(EMPTY_TABLES);
    var paths := SortedPaths(scan.Keys);
    assert Classify(scan, previous, NOTE.path) == New;
    NothingSelected(scan, previous, paths, Changed);
    NothingSelected(scan, previous, paths, MetadataChanged);
    NothingSelected(scan, previous, paths, Unchanged);
    DiffCounts(scan, previous);
    assert previous.Keys - scan.Keys == {};
  }

  /** The job can be done in the empty store. */
  lemma NoteJobIsDoable()
    ensures Doable(EMPTY_TABLES, NOTE_JOB)
  {
    hide Diff, StatesOf;
    var scan, previous := NOTE_SCAN, StatesOf(EMPTY_TABLES);
    SnapshotIsCurrent(EMPTY_TABLES);
    NoteScanIsKeyed();
    NoteIsNew();
    DiffMembers(scan, previous);
    var diff := Diff(scan, previous);
    var items := WorkItems(diff);
    forall i | 0 <= i < |items| ensures items[i] == NOTE {
      assert items[i] in diff.newItems;
      assert IsClass(scan, previous, items[i], New);
    }
    NotesAreAcceptable(WorkItems(diff));
  }

  /** The input on which `sync` reports a failure although it succeeded: nothing fails but the reply to the
      commit. The document and the succeeded record are stored, and there is no failed record. */
  method LostReply() returns (outcome: Outcome, store: Store)
    ensures outcome.SyncFailed?
    ensures NOTE.path in store.committed.documents
    ensures |store.committed.runs| == 1 && store.committed.runs[0].status == Succeeded
  {
    hide Doable, ValidTables, KeyedByPath, AfterSuccess, JobWorks, CommitCall, JobCalls, StatementCount;
    NoteJobIsDoable();
    store := new Store(_ => false, _ => AppliedUnacknowledged);
    var embedder := new Embedder(NOTE_EMBEDDING, _ => Answers);
    NoteScanIsKeyed();
    ghost var report, reached, recording;
    assert JobOf(store, embedder, 1, EMPTY_READER, Some(NOTE_SCAN), "docs", 0) == NOTE_JOB;
    NothingHinders(EMPTY_TABLES, NOTE_JOB, store.fails, 1, embedder.answers, 0);
    outcome, report, reached, recording := Synchronize(store, embedder, 1, EMPTY_READER, Some(NOTE_SCAN), "docs", 0);
    NoteIsStored(store.committed);
  }

  /** Where no call fails, a job that can be done comes to its commit. */
  lemma NothingHinders(t: Tables, job: Job, fails: nat -> bool, first: nat, answers: nat -> Answer, calls: nat)
    requires Doable(t, job) && (forall n :: !fails(n)) && (forall n :: answers(n) == Answers)
    ensures ComesToCommit(t, job, true, fails, first, answers, calls)
  {
    hide JobCalls, StatementCount;
    DoableIsReadable(t, job);
  }

  lemma NoteIsStored(after: Tables)
    requires Succeeds(EMPTY_TABLES, NOTE_JOB, after)
    ensures NOTE.path in after.documents
    ensures |after.runs| == 1 && after.runs[0].status == Succeeded
  {
    hide JobOps, JobDiff, ApplyAll, CorpusOf, Feasible, UpToDate;
    NoteScanIsKeyed();
    NothingIsValid();
    FeasibleIsReadable(EMPTY_TABLES, NOTE_JOB);
    SuccessIsUpToDate(EMPTY_TABLES, NOTE_JOB);
    UpToDateStores(after, NOTE_SCAN, NOTE.path);
    OpsKeepRuns(EMPTY_TABLES, JobOps(EMPTY_TABLES, NOTE_JOB, JobWorks(EMPTY_TABLES, NOTE_JOB).value));
  }

  lemma UpToDateStores(t: Tables, scan: Scan, p: Path)
    requires UpToDate(t, scan) && p in scan
    ensures p in t.documents
  {
    assert IsCurrentAt(CorpusOf(t), scan, p);
  }

  // ---------- A document that cannot be read ----------

  const UNREADABLE_JOB := NOTE_JOB.(reader := FAILING_READER)

  lemma UnreadableIsNotDoable()
    ensures !Doable(EMPTY_TABLES, UNREADABLE_JOB)
  {
    hide Diff, StatesOf;
    NoteIsNew();
    var items := WorkItems(JobDiff(EMPTY_TABLES, UNREADABLE_JOB));
    assert Read(FAILING_READER, items[|items| - 1]).None?;
  }

  /** The input on which the document totals do not account for the store: a new document that cannot be
      loaded. The failed run has counted it, and nothing is stored. */
  method UnreadableDocument() returns (outcome: Outcome, store: Store)
    ensures outcome.SyncFailed?
    ensures OperationalMetrics(store.committed).documents == 0
    ensures OperationalMetrics(store.committed).newDocumentsTotal == 1
    ensures OperationalMetrics(store.committed).deletedDocumentsTotal == 0
  {
    hide Doable, ValidTables, KeyedByPath, AfterSuccess, JobWorks, CommitCall, OperationalMetrics, Succeeds;
    hide ReportedRun;
    UnreadableIsNotDoable();
    store := new Store(_ => false, _ => Applied);
    var embedder := new Embedder(NOTE_EMBEDDING, _ => Answers);
    NoteScanIsKeyed();
    assert JobOf(store, embedder, 1, FAILING_READER, Some(NOTE_SCAN), "docs", 0) == UNREADABLE_JOB;
    ghost var report, reached, recording;
    outcome, report, reached, recording := Synchronize(store, embedder, 1, FAILING_READER, Some(NOTE_SCAN), "docs", 0);
    UnreadableIsCounted(report, store.committed);
  }

  lemma UnreadableIsCounted(report: Report, after: Tables)
    requires report.scan == Some(NOTE_SCAN) && report.snapshot && RecordsFailure(EMPTY_TABLES, report, after)
    ensures OperationalMetrics(after).documents == 0
    ensures OperationalMetrics(after).newDocumentsTotal == 1 && OperationalMetrics(after).deletedDocumentsTotal == 0
  {
    hide Diff, StatesOf, ScannedBytes;
    NoteIsNew();
    var run := ReportedRun(EMPTY_TABLES, report);
    assert after.runs == [run] && [run][..0] == [];
    assert Totals([]).newDocumentsTotal == 0 && Totals([]).deletedDocumentsTotal == 0;
  }

  // ---------- A registration that fails ----------

  /** Once a registration has failed, no call of `sync` on the same store object succeeds or leaves a record,
      whatever the inputs and however reliable the database has become. */
  method SyncOnJammedStore(store: Store, embedder: Embedder, batchSize: nat, r: Reader, scan: Option<Scan>,
                           source: string, runId: nat)
    returns (outcome: Outcome)
    requires batchSize > 0 && store.Valid() && store.working.None? && store.jammed
    requires scan.Some? ==> KeyedByPath(scan.value)
    modifies store, embedder`calls
    ensures store.Valid() && store.working.None? && store.jammed
    ensures store.committed == old(store.committed)
    ensures outcome == if store.fails(old(store.calls)) then LockFailed
                       else if old(store.locked) then AlreadyRunning else SyncFailed
  {
    hide ValidTables, KeyedByPath, Succeeds, Unhindered, RecordsFailure, CommitReply, Jams, Quiet, GoesOnRecord;
    hide ProperReport, AfterSuccess, SuccessRun, JobWorks, Doable, JobCalls;
    ghost var report, reached, recording;
    outcome, report, reached, recording := Synchronize(store, embedder, batchSize, r, scan, source, runId);
  }

  lemma RegistrationFails(t: Tables, job: Job, fails: nat -> bool, first: nat, answers: nat -> Answer, calls: nat)
    requires fails(first + 1)
    ensures !ComesToCommit(t, job, true, fails, first, answers, calls)
  {
    hide Unhindered;
  }

  /** An input on which it comes to that: of all calls only one registration fails, in the first run, which fails
      without a record. So does every run after it, although no call fails any more. */
  method FailedRegistration() returns (first: Outcome, second: Outcome, store: Store)
    ensures first.SyncFailed? && second.SyncFailed?
    ensures store.jammed && store.committed == EMPTY_TABLES
    ensures forall n | n != 2 :: !store.fails(n)
  {
    hide ValidTables, KeyedByPath, Succeeds, Unhindered, RecordsFailure, CommitReply, Quiet, GoesOnRecord;
    hide ProperReport, AfterSuccess, SuccessRun, JobWorks, Doable, JobCalls, ComesToCommit;
    store := new Store(n => n == 2, _ => Applied);
    var embedder := new Embedder(NOTE_EMBEDDING, _ => Answers);
    NoteScanIsKeyed();
    assert JobOf(store, embedder, 1, EMPTY_READER, Some(NOTE_SCAN), "docs", 0) == NOTE_JOB;
    RegistrationFails(EMPTY_TABLES, NOTE_JOB, store.fails, 1, embedder.answers, 0);
    ghost var report, reached, recording;
    first, report, reached, recording := Synchronize(store, embedder, 1, EMPTY_READER, Some(NOTE_SCAN), "docs", 0);
    second := SyncOnJammedStore(store, embedder, 1, EMPTY_READER, Some(NOTE_SCAN), "docs", 1);
  }
}
