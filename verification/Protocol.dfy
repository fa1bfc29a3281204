/** Any number of processes that synchronize the same store, with crashes and readers at any moment: a step
    system over the lock, the transactions and the committed tables. */
module Protocol {
  import opened Strings
  import opened Models
  import opened SourceDiffing
  import opened StoreTables
  import opened PgStore
  import opened SyncPlan
  import opened StoreSteps
  import Pipeline
  import opened SyncEffects
  import opened Synchronization
  import opened History

  /** Where a process is in `sync`. A process holds the lock exactly when it is not idle; `working` is what
      its open transaction would commit. */
  datatype Proc =
    | Idle
    | Locked(source: string, runId: nat)
    | Scanned(job: Job)
    | Working(job: Job, base: Tables, works: seq<Work>, done: nat, working: Tables)
    | Recorded(job: Job, base: Tables, working: Tables)
    | Failing(run: RunRecord, report: Report)
    | Confessing(run: RunRecord, report: Report, base: Tables, working: Tables)
    | Leaving

  /** `log` lists what was committed, in commit order; `observed` what readers have seen. */
  datatype System = System(
    committed: Tables,
    nextId: nat,
    lock: Option<nat>,
    procs: seq<Proc>,
    log: seq<Event>,
    observed: seq<Tables>)

  datatype Step =
    | TryLock(p: nat, source: string, runId: nat)
    | Scan(p: nat, job: Job)
    | Begin(p: nat)
    | ReadNext(p: nat)
    | ApplyNext(p: nat)
    | Record(p: nat)
    | Commit(p: nat)
    | CommitUnacknowledged(p: nat, batches: nat)
    | Fail(p: nat, batches: nat)
    | Confess(p: nat)
    | CommitConfession(p: nat)
    | GiveUp(p: nat)
    | Unlock(p: nat)
    | Crash(p: nat)
    | Observe

  function Start(n: nat): System {
    System(EMPTY_TABLES, 0, None, seq(n, _ => Idle), [], [])
  }

  function Items(proc: Proc): seq<ScannedDocument>
    requires proc.Working?
  {
    WorkItems(JobDiff(proc.base, proc.job))
  }

  /** The operations known so far: updates, deletions, and those of the documents read. */
  function Known(proc: Proc): seq<Op>
    requires proc.Working?
  {
    JobOps(proc.base, proc.job, proc.works)
  }

  predicate CanRead(proc: Proc)
    requires proc.Working?
  {
    && |proc.works| < |Items(proc)|
    && Pipeline.Read(proc.job.reader, Items(proc)[|proc.works|]).Some?
  }

  /** One more document is loaded and chunked. */
  function AfterRead(proc: Proc): (r: Proc)
    requires proc.Working? && CanRead(proc)
    ensures r.Working? && |r.works| == |proc.works| + 1 && r.works[..|proc.works|] == proc.works
  {
    var item := Items(proc)[|proc.works|];
    proc.(works := proc.works + [Work(item, Pipeline.Read(proc.job.reader, item).value)])
  }

  predicate CanApply(proc: Proc)
    requires proc.Working?
  {
    proc.done < |Known(proc)| && Enabled(proc.working, Known(proc)[proc.done])
  }

  /** One more operation of the plan is carried out. */
  function AfterApply(proc: Proc): Proc
    requires proc.Working? && CanApply(proc)
  {
    proc.(working := Apply(proc.working, Known(proc)[proc.done]), done := proc.done + 1)
  }

  predicate CanRecord(proc: Proc)
    requires proc.Working?
  {
    && proc.job.batchSize > 0
    && |proc.works| == |Items(proc)| && proc.done == |Known(proc)|
    && FreshRun(proc.working, proc.job.runId)
  }

  /** The plan is done, and the run record is inserted. */
  function AfterRecord(proc: Proc): Proc
    requires proc.Working? && CanRecord(proc)
  {
    Recorded(proc.job, proc.base, WithRun(proc.working, SuccessRun(proc.base, proc.job, proc.works)))
  }

  predicate MayFail(proc: Proc) {
    proc.Locked? || proc.Scanned? || proc.Working? || proc.Recorded?
  }

  /** What a process that fails now has to report. */
  function FailureReport(proc: Proc, batches: nat): Report
    requires MayFail(proc)
  {
    match proc
    case Locked(source, runId) => Report(None, source, runId, false, 0)
    case Scanned(job) => Report(Some(job.scan), job.source, job.runId, false, 0)
    case _ => Report(Some(proc.job.scan), proc.job.source, proc.job.runId, true, batches)
  }

  /** A process fails: its transaction, if any, rolls back, and it goes on to record the failure. */
  function Failed(s: System, p: nat, batches: nat): Proc
    requires At(s, p) && MayFail(s.procs[p])
  {
    var report := FailureReport(s.procs[p], batches);
    Failing(ReportedRun(s.committed, report), report)
  }

  predicate At(s: System, p: nat) {
    p < |s.procs|
  }

  predicate CanTake(s: System, step: Step) {
    match step
    case TryLock(p, _, _) => At(s, p) && s.procs[p] == Idle
    case Scan(p, job) =>
      At(s, p) && s.procs[p] == Locked(job.source, job.runId) && job.batchSize > 0 && KeyedByPath(job.scan)
    case Begin(p) => At(s, p) && s.procs[p].Scanned?
    case ReadNext(p) => At(s, p) && s.procs[p].Working? && CanRead(s.procs[p])
    case ApplyNext(p) => At(s, p) && s.procs[p].Working? && CanApply(s.procs[p])
    case Record(p) => At(s, p) && s.procs[p].Working? && CanRecord(s.procs[p])
    case Commit(p) => At(s, p) && s.procs[p].Recorded?
    case CommitUnacknowledged(p, _) => At(s, p) && s.procs[p].Recorded?
    case Fail(p, _) => At(s, p) && MayFail(s.procs[p])
    case Confess(p) => At(s, p) && s.procs[p].Failing? && FreshRun(s.committed, s.procs[p].run.runId)
    case CommitConfession(p) => At(s, p) && s.procs[p].Confessing?
    case GiveUp(p) => At(s, p) && (s.procs[p].Failing? || s.procs[p].Confessing?)
    case Unlock(p) => At(s, p) && s.procs[p].Leaving?
    case Crash(p) => At(s, p)
    case Observe => true
  }

  function Move(s: System, p: nat, proc: Proc): System
    requires At(s, p)
  {
    s.(procs := s.procs[p := proc])
  }

  function Publish(s: System, t: Tables, ev: Event): System {
    s.(committed := t, log := s.log + [ev])
  }

  function Take(s: System, step: Step): System
    requires CanTake(s, step)
  {
    match step
    case TryLock(p, source, runId) =>
      if s.lock.None? then Move(s, p, Locked(source, runId)).(lock := Some(p)) else s
    case Scan(p, job) => Move(s, p, Scanned(job))
    case Begin(p) =>
      Move(s, p, Working(s.procs[p].job.(firstId := s.nextId), s.committed, [], 0, s.committed))
    case ReadNext(p) => Move(s, p, AfterRead(s.procs[p])).(nextId := s.nextId + 1)
    case ApplyNext(p) => Move(s, p, AfterApply(s.procs[p]))
    case Record(p) => Move(s, p, AfterRecord(s.procs[p]))
    case Commit(p) =>
      Publish(Move(s, p, Leaving), s.procs[p].working, Success(s.procs[p].job, s.nextId))
    case CommitUnacknowledged(p, batches) =>
      Publish(Move(s, p, Failed(s, p, batches)), s.procs[p].working, Success(s.procs[p].job, s.nextId))
    case Fail(p, batches) => Move(s, p, Failed(s, p, batches))
    case Confess(p) =>
      var run := s.procs[p].run;
      Move(s, p, Confessing(run, s.procs[p].report, s.committed, WithRun(s.committed, run)))
    case CommitConfession(p) =>
      Publish(Move(s, p, Leaving), s.procs[p].working, Failure(s.procs[p].report, s.nextId))
    case GiveUp(p) => Move(s, p, Leaving)
    case Unlock(p) => Move(s, p, Idle).(lock := None)
    case Crash(p) => Move(s, p, Idle).(lock := if s.lock == Some(p) then None else s.lock)
    case Observe => s.(observed := s.observed + [s.committed])
  }

  /** The steps can be taken one after the other. */
  predicate CanRun(s: System, steps: seq<Step>)
    decreases |steps|, 0
  {
    steps == []
    || (CanRun(s, steps[..|steps| - 1]) && CanTake(Run(s, steps[..|steps| - 1]), steps[|steps| - 1]))
  }

  function Run(s: System, steps: seq<Step>): System
    requires CanRun(s, steps)
    decreases |steps|, 1
  {
    if steps == [] then s else Take(Run(s, steps[..|steps| - 1]), steps[|steps| - 1])
  }

  predicate Legal(n: nat, steps: seq<Step>) {
    CanRun(Start(n), steps)
  }

  function Execute(n: nat, steps: seq<Step>): System
    requires Legal(n, steps)
  {
    Run(Start(n), steps)
  }

  // ---------- The invariant ----------

  predicate Holds(proc: Proc) {
    !proc.Idle?
  }

  /** A transaction works on the committed tables as they still are, and has carried out a prefix of its
      plan. */
  predicate WorkingFits(st: State, nextId: nat, proc: Proc)
    requires proc.Working?
  {
    && JobMayRun(st, proc.job, proc.base)
    && proc.job.firstId + |proc.works| == nextId
    && |proc.works| <= |Items(proc)|
    && Pipeline.ReadAll(proc.job.reader, Items(proc)[..|proc.works|]) == Some(proc.works)
    && proc.done <= |Known(proc)|
    && proc.working == ApplyAll(proc.base, Known(proc)[..proc.done])
    && AllEnabled(proc.base, Known(proc)[..proc.done])
  }

  predicate JobMayRun(st: State, job: Job, base: Tables) {
    base == st.tables && job.batchSize > 0 && KeyedByPath(job.scan) && st.nextId <= job.firstId
  }

  predicate ProcFits(st: State, nextId: nat, proc: Proc) {
    match proc
    case Scanned(job) => job.batchSize > 0 && KeyedByPath(job.scan)
    case Working(_, _, _, _, _) => WorkingFits(st, nextId, proc)
    case Recorded(job, base, working) =>
      && JobMayRun(st, job, base) && Succeeds(base, job, working)
      && job.firstId + |JobWorks(base, job).value| == nextId
    case Failing(run, report) =>
      && ProperReport(report) && report.runId == run.runId
      && (FreshRun(st.tables, run.runId) ==> run == ReportedRun(st.tables, report))
    case Confessing(run, report, base, working) =>
      && ProperReport(report) && FreshRun(base, report.runId) && base == st.tables
      && run == ReportedRun(base, report) && working == WithRun(base, run)
    case _ => true
  }

  /** The committed tables are what the log says. */
  predicate LogFits(s: System) {
    && PossibleHistory(s.log)
    && Replay(s.log).tables == s.committed
    && Replay(s.log).nextId <= s.nextId
  }

  ghost predicate Seen(log: seq<Event>, t: Tables) {
    exists n | 0 <= n <= |log| :: Replay(log[..n]).tables == t
  }

  ghost predicate ObservationsFit(s: System) {
    forall i | 0 <= i < |s.observed| :: Seen(s.log, s.observed[i])
  }

  predicate LockFits(s: System) {
    forall p | 0 <= p < |s.procs| :: Holds(s.procs[p]) <==> s.lock == Some(p)
  }

  ghost predicate Sound(s: System) {
    && LogFits(s) && LockFits(s) && ObservationsFit(s)
    && (s.lock.Some? ==> At(s, s.lock.value) && ProcFits(Replay(s.log), s.nextId, s.procs[s.lock.value]))
  }

  /** The holder of the lock moves on, keeps the lock or gives it up, and commits nothing. */
  lemma HolderMoves(s: System, p: nat, proc: Proc, nextId: nat)
    requires Sound(s) && s.lock == Some(p) && nextId >= s.nextId
    requires Holds(proc) ==> ProcFits(Replay(s.log), nextId, proc)
    ensures Sound(s.(procs := s.procs[p := proc], lock := if Holds(proc) then Some(p) else None, nextId := nextId))
  {
  }

  /** The holder commits: the log grows by one possible event. */
  lemma HolderCommits(s: System, p: nat, proc: Proc, t: Tables, ev: Event)
    requires Sound(s) && s.lock == Some(p) && ev.nextId == s.nextId
    requires Possible(Replay(s.log), ev) && StateAfter(Replay(s.log), ev) == State(t, s.nextId)
    requires Holds(proc) && ProcFits(State(t, s.nextId), s.nextId, proc)
    ensures Sound(s.(procs := s.procs[p := proc], committed := t, log := s.log + [ev]))
  {
    hide ProcFits, Possible, StateAfter, PossibleHistory, Replay, Seen;
    var s' := s.(procs := s.procs[p := proc], committed := t, log := s.log + [ev]);
    OneMoreEvent(s.log, ev);
    forall i | 0 <= i < |s'.observed| ensures Seen(s'.log, s'.observed[i]) {
      SeenStays(s.log, ev, s.observed[i]);
    }
  }

  lemma SeenStays(log: seq<Event>, ev: Event, t: Tables)
    requires Seen(log, t)
    ensures Seen(log + [ev], t)
  {
    var n :| 0 <= n <= |log| && Replay(log[..n]).tables == t;
    assert (log + [ev])[..n] == log[..n];
  }

  // ---------- The steps of a transaction ----------

  lemma {:induction false} MoreWorksMoreOps(base: Tables, job: Job, works: seq<Work>, work: Work)
    ensures JobOps(base, job, works + [work])
         == JobOps(base, job, works) + StoreOps(job.embedding, StatesOf(base), job.firstId + |works|, work)
  {
    hide StoreOps, UpdateOps, DeleteOps, Diff, StatesOf;
    assert (works + [work])[..|works|] == works;
  }

  /** Reading one more document extends the plan. */
  lemma ReadNextFits(st: State, nextId: nat, proc: Proc)
    requires proc.Working? && CanRead(proc) && WorkingFits(st, nextId, proc)
    ensures WorkingFits(st, nextId + 1, AfterRead(proc))
  {
    hide JobDiff, JobOps, Pipeline.Read, KeyedByPath, ApplyAll, AllEnabled;
    var more, items, n := AfterRead(proc), Items(proc), |proc.works|;
    MoreWorksMoreOps(proc.base, proc.job, proc.works, more.works[n]);
    assert Known(more)[..proc.done] == Known(proc)[..proc.done];
    assert items[..n + 1][..n] == items[..n];
  }

  lemma ApplyNextFits(st: State, nextId: nat, proc: Proc)
    requires proc.Working? && CanApply(proc) && WorkingFits(st, nextId, proc)
    ensures WorkingFits(st, nextId, AfterApply(proc))
  {
    hide JobDiff, JobOps, JobMayRun, Apply, Enabled, Pipeline.ReadAll;
    var ops, k := Known(proc), proc.done;
    assert ops[..k + 1] == ops[..k] + [ops[k]];
    OneMoreOp(proc.base, ops[..k], ops[k]);
  }

  lemma {:induction false} EnabledWorksAreStorable(t: Tables, e: Embedding, previous: States, firstId: nat,
                                                   works: seq<Work>)
    requires AllEnabled(t, StoreAllOps(e, previous, firstId, works))
    ensures AllStorable(works)
  {
    hide Apply, Vectors, StoreOps, Storable, DistinctIndexes, Enabled;
    if works != [] {
      var n := |works| - 1;
      var before, ops := StoreAllOps(e, previous, firstId, works[..n]), StoreOps(e, previous, firstId + n, works[n]);
      ApplyAllAppend(t, before, ops);
      EnabledWorksAreStorable(t, e, previous, firstId, works[..n]);
      LastOpStores(ApplyAll(t, before), e, previous, firstId + n, works[n]);
    }
  }

  lemma LastOpStores(t: Tables, e: Embedding, previous: States, id: nat, work: Work)
    requires AllEnabled(t, StoreOps(e, previous, id, work))
    ensures Storable(work)
  {
  }

  lemma EnabledPlanIsStorable(t: Tables, job: Job, works: seq<Work>)
    requires AllEnabled(t, JobOps(t, job, works)) && KeyedByPath(job.scan)
    ensures AllStorable(works) && AllPlain(JobDiff(t, job).metadataItems)
  {
    hide Apply, Storable, UpdateOps, DeleteOps, StoreAllOps, Diff, StatesOf, PlainValue, KeyedByPath;
    var diff := JobDiff(t, job);
    var updates, deletions := UpdateOps(StatesOf(t), diff.metadataItems), DeleteOps(diff.deletedStates);
    var stores := StoreAllOps(job.embedding, StatesOf(t), job.firstId, works);
    ApplyAllAppend(t, updates + deletions, stores);
    ApplyAllAppend(t, updates, deletions);
    EnabledWorksAreStorable(ApplyAll(t, updates + deletions), job.embedding, StatesOf(t), job.firstId, works);
    UpdatesHaveStates(t, job.scan);
    EnabledUpdatesArePlain(t, StatesOf(t), diff.metadataItems);
  }

  /** A transaction that has carried out its whole plan and recorded its run is ready to commit a success. */
  lemma RecordFits(st: State, nextId: nat, proc: Proc)
    requires proc.Working? && CanRecord(proc) && WorkingFits(st, nextId, proc)
    ensures JobWorks(proc.base, proc.job) == Some(proc.works)
    ensures Succeeds(proc.base, proc.job, AfterRecord(proc).working)
  {
    hide JobDiff, JobOps, SuccessRun, ApplyAll, AllEnabled, Pipeline.ReadAll, Storable, AllPlain, KeyedByPath;
    var base, job, works := proc.base, proc.job, proc.works;
    assert Known(proc)[..proc.done] == Known(proc) && Items(proc)[..|works|] == Items(proc);
    EnabledPlanIsStorable(base, job, works);
    OpsKeepRuns(base, JobOps(base, job, works));
  }

  // ---------- Every step keeps the invariant ----------

  lemma TryLockKeeps(s: System, step: Step)
    requires step.TryLock? && Sound(s) && CanTake(s, step)
    ensures Sound(Take(s, step))
  {
    hide Replay, PossibleHistory, Seen;
    var s' := Take(s, step);
    assert LogFits(s') && ObservationsFit(s');
  }

  lemma HolderIs(s: System, p: nat)
    requires Sound(s) && At(s, p) && Holds(s.procs[p])
    ensures s.lock == Some(p) && ProcFits(Replay(s.log), s.nextId, s.procs[p])
    ensures PossibleHistory(s.log) && Replay(s.log).tables == s.committed && Replay(s.log).nextId <= s.nextId
  {
    hide ProcFits, Replay, PossibleHistory, ObservationsFit;
  }

  lemma CommitKeeps(s: System, p: nat, next: Proc)
    requires Sound(s) && At(s, p) && s.procs[p].Recorded?
    requires next == Leaving || (exists batches :: next == Failed(s, p, batches))
    ensures Sound(Publish(Move(s, p, next), s.procs[p].working, Success(s.procs[p].job, s.nextId)))
  {
    hide Sound, Replay, PossibleHistory, Doable, KeyedByPath, FreshRun, ReportedRun, AfterSuccess, JobWorks;
    HolderIs(s, p);
    var proc := s.procs[p];
    DoableIsReadable(proc.base, proc.job);
    SuccessIsRecorded(proc.base, proc.job);
    if next != Leaving {
      var batches :| next == Failed(s, p, batches);
      ReportKeepsId(s.committed, FailureReport(proc, batches));
    }
    HolderCommits(s, p, next, proc.working, Success(proc.job, s.nextId));
  }

  lemma CommitConfessionKeeps(s: System, p: nat)
    requires Sound(s) && CanTake(s, CommitConfession(p))
    ensures Sound(Take(s, CommitConfession(p)))
  {
    hide Sound, Replay, PossibleHistory, FreshRun, ProperReport, ReportedRun;
    HolderIs(s, p);
    HolderCommits(s, p, Leaving, s.procs[p].working, Failure(s.procs[p].report, s.nextId));
  }

  lemma RecordKeeps(s: System, p: nat)
    requires Sound(s) && CanTake(s, Record(p))
    ensures Sound(Take(s, Record(p)))
  {
    hide Sound, Replay, PossibleHistory, Succeeds, CanRecord, SuccessRun;
    HolderIs(s, p);
    RecordFits(Replay(s.log), s.nextId, s.procs[p]);
    HolderMoves(s, p, Take(s, Record(p)).procs[p], s.nextId);
  }

  lemma BeginKeeps(s: System, p: nat)
    requires Sound(s) && CanTake(s, Begin(p))
    ensures Sound(Take(s, Begin(p)))
  {
  }

  lemma ReadNextKeeps(s: System, p: nat)
    requires Sound(s) && CanTake(s, ReadNext(p))
    ensures Sound(Take(s, ReadNext(p)))
  {
    hide Sound, Replay, PossibleHistory, WorkingFits, CanRead, AfterRead;
    HolderIs(s, p);
    ReadNextFits(Replay(s.log), s.nextId, s.procs[p]);
    HolderMoves(s, p, AfterRead(s.procs[p]), s.nextId + 1);
  }

  lemma ApplyNextKeeps(s: System, p: nat)
    requires Sound(s) && CanTake(s, ApplyNext(p))
    ensures Sound(Take(s, ApplyNext(p)))
  {
    hide Sound, Replay, PossibleHistory, WorkingFits, CanApply;
    HolderIs(s, p);
    ApplyNextFits(Replay(s.log), s.nextId, s.procs[p]);
    HolderMoves(s, p, AfterApply(s.procs[p]), s.nextId);
  }

  lemma ObserveKeeps(s: System)
    requires CanTake(s, Observe) && Sound(s)
    ensures Sound(Take(s, Observe))
  {
    hide ProcFits, Replay, PossibleHistory;
    assert s.log[..|s.log|] == s.log;
    assert Seen(s.log, s.committed);
  }

  lemma IdleCrashKeeps(s: System, p: nat)
    requires CanTake(s, Crash(p)) && s.procs[p].Idle? && s.lock != Some(p)
    ensures Take(s, Crash(p)) == s
  {
  }

  lemma FailKeeps(s: System, p: nat, batches: nat)
    requires Sound(s) && CanTake(s, Fail(p, batches))
    ensures Sound(Take(s, Fail(p, batches)))
  {
    hide Sound, Replay, PossibleHistory, KeyedByPath, Succeeds, ReportedRun, FreshRun, Items, Known;
    HolderIs(s, p);
    ReportKeepsId(s.committed, FailureReport(s.procs[p], batches));
    HolderMoves(s, p, Failed(s, p, batches), s.nextId);
  }

  lemma ReportKeepsId(t: Tables, report: Report)
    ensures ReportedRun(t, report).runId == report.runId
  {
  }

  lemma ConfessKeeps(s: System, p: nat)
    requires Sound(s) && CanTake(s, Confess(p))
    ensures Sound(Take(s, Confess(p)))
  {
    hide Sound, Replay, PossibleHistory, ProperReport, ReportedRun, FreshRun, WorkingFits;
    HolderIs(s, p);
    HolderMoves(s, p, Take(s, Confess(p)).procs[p], s.nextId);
  }

  lemma OtherStepKeeps(s: System, step: Step)
    requires Sound(s) && CanTake(s, step)
    requires step.Scan? || step.GiveUp? || step.Unlock? || (step.Crash? && !s.procs[step.p].Idle?)
    ensures Sound(Take(s, step))
  {
    hide Sound, Replay, PossibleHistory, KeyedByPath, Succeeds, ReportedRun, FreshRun, WorkingFits;
    HolderIs(s, step.p);
    HolderMoves(s, step.p, Take(s, step).procs[step.p], s.nextId);
  }

  lemma StepKeepsSound(s: System, step: Step)
    requires Sound(s) && CanTake(s, step)
    ensures Sound(Take(s, step))
  {
    hide Sound, CanTake, Take;
    match step
    case TryLock(_, _, _) => TryLockKeeps(s, step);
    case Begin(p) => BeginKeeps(s, p);
    case ReadNext(p) => ReadNextKeeps(s, p);
    case ApplyNext(p) => ApplyNextKeeps(s, p);
    case Record(p) => RecordKeeps(s, p);
    case Commit(p) => CommitStepKeeps(s, step);
    case CommitUnacknowledged(p, _) => CommitStepKeeps(s, step);
    case CommitConfession(p) => CommitConfessionKeeps(s, p);
    case Fail(p, batches) => FailKeeps(s, p, batches);
    case Confess(p) => ConfessKeeps(s, p);
    case Observe => ObserveKeeps(s);
    case Crash(p) => CrashKeeps(s, p);
    case _ => OtherStepKeeps(s, step);
  }

  lemma CommitStepKeeps(s: System, step: Step)
    requires Sound(s) && CanTake(s, step) && (step.Commit? || step.CommitUnacknowledged?)
    ensures Sound(Take(s, step))
  {
    hide Sound;
    CommitKeeps(s, step.p, if step.Commit? then Leaving else Failed(s, step.p, step.batches));
  }

  lemma CrashKeeps(s: System, p: nat)
    requires Sound(s) && CanTake(s, Crash(p))
    ensures Sound(Take(s, Crash(p)))
  {
    hide Take, LogFits, ProcFits, ObservationsFit;
    if s.procs[p].Idle? { IdleCrashKeeps(s, p); } else { OtherStepKeeps(s, Crash(p)); }
  }

  lemma StartIsSound(n: nat)
    ensures Sound(Start(n))
  {
  }

  /** The invariant holds in every reachable state. */
  lemma {:induction false} ReachableIsSound(n: nat, steps: seq<Step>)
    requires Legal(n, steps)
    ensures Sound(Execute(n, steps))
  {
    hide Sound, Take, CanTake, Start;
    if steps == [] {
      StartIsSound(n);
    } else {
      ReachableIsSound(n, steps[..|steps| - 1]);
      StepKeepsSound(Execute(n, steps[..|steps| - 1]), steps[|steps| - 1]);
    }
  }

  // ---------- The guarantees ----------

  /** At most one process is between acquiring and releasing the lock. */
  lemma MutualExclusion(n: nat, steps: seq<Step>, p: nat, q: nat)
    requires Legal(n, steps) && At(Execute(n, steps), p) && At(Execute(n, steps), q)
    requires Holds(Execute(n, steps).procs[p]) && Holds(Execute(n, steps).procs[q])
    ensures p == q && Execute(n, steps).lock == Some(p)
  {
    hide Execute, Sound;
    ReachableIsSound(n, steps);
    HolderIs(Execute(n, steps), p);
    HolderIs(Execute(n, steps), q);
  }

  /** Serializability: whatever the interleaving and the crashes, the committed tables are what the logged
      synchronizations produce when run one after the other, in commit order, from an empty store. */
  lemma CommittedIsSerial(n: nat, steps: seq<Step>)
    requires Legal(n, steps)
    ensures var s := Execute(n, steps); PossibleHistory(s.log) && Replay(s.log).tables == s.committed
  {
    hide Execute, Replay, PossibleHistory, ProcFits;
    ReachableIsSound(n, steps);
  }

  /** Readers see only states of that serial run. */
  lemma ReadersSeeCommittedStates(n: nat, steps: seq<Step>, i: nat) returns (k: nat)
    requires Legal(n, steps) && i < |Execute(n, steps).observed|
    ensures var s := Execute(n, steps); k <= |s.log| && s.observed[i] == Replay(s.log[..k]).tables
  {
    hide Execute, Replay, PossibleHistory, ProcFits;
    ReachableIsSound(n, steps);
    var s := Execute(n, steps);
    assert Seen(s.log, s.observed[i]);
    k :| 0 <= k <= |s.log| && Replay(s.log[..k]).tables == s.observed[i];
  }

  /** While a transaction is open nothing else commits: the snapshot it read, with the ids it uses, is still
      what is committed. */
  lemma SnapshotStaysCurrent(n: nat, steps: seq<Step>, p: nat)
    requires Legal(n, steps) && At(Execute(n, steps), p) && Execute(n, steps).procs[p].Working?
    ensures Execute(n, steps).procs[p].base == Execute(n, steps).committed
  {
    hide Execute, Replay, PossibleHistory, Sound;
    ReachableIsSound(n, steps);
    HolderIs(Execute(n, steps), p);
  }
}
