/** No state is a dead end: from every reachable state, also one in which the holder of the lock has crashed,
    every job that can be done has a way to be committed. */
module ProtocolProgress {
  import opened Strings
  import opened Models
  import opened SourceDiffing
  import opened StoreTables
  import opened StoreSteps
  import Pipeline
  import opened SyncEffects
  import opened Synchronization
  import opened SyncCorpus
  import opened History
  import opened Protocol

  lemma {:induction false} RunAppend(s: System, a: seq<Step>, b: seq<Step>)
    requires CanRun(s, a) && CanRun(Run(s, a), b)
    ensures CanRun(s, a + b) && Run(s, a + b) == Run(Run(s, a), b)
    decreases |b|
  {
    hide CanTake, Take;
    if b == [] {
      assert a + b == a;
    } else {
      var n := |b| - 1;
      RunAppend(s, a, b[..n]);
      assert (a + b)[..|a + b| - 1] == a + b[..n];
    }
  }

  lemma RunOne(s: System, step: Step)
    requires CanTake(s, step)
    ensures CanRun(s, [step]) && Run(s, [step]) == Take(s, step)
  {
    hide CanTake, Take;
    assert [step][..0] == [];
    assert CanRun(s, []) && Run(s, []) == s;
  }

  lemma RunNext(s: System, a: seq<Step>, step: Step)
    requires CanRun(s, a) && CanTake(Run(s, a), step)
    ensures CanRun(s, a + [step]) && Run(s, a + [step]) == Take(Run(s, a), step)
  {
    hide CanTake, Take;
    RunOne(Run(s, a), step);
    RunAppend(s, a, [step]);
  }

  predicate WithoutCrash(steps: seq<Step>) {
    forall i | 0 <= i < |steps| :: !steps[i].Crash?
  }

  /** The system with the process of the holder replaced. */
  function Put(s: System, p: nat, proc: Proc, nextId: nat): System
    requires At(s, p)
  {
    s.(procs := s.procs[p := proc], nextId := nextId)
  }

  function Begun(s: System, job: Job): Proc {
    Working(job.(firstId := s.nextId), s.committed, [], 0, s.committed)
  }

  // ---------- Reading all documents ----------

  lemma ReadablePrefix(r: Pipeline.Reader, items: seq<ScannedDocument>, n: nat)
    requires Pipeline.ReadAll(r, items).Some? && n <= |items|
    ensures Pipeline.ReadAll(r, items[..n]).Some?
    ensures |Pipeline.ReadAll(r, items[..n]).value| == n
  {
    hide Pipeline.ReadAll;
    var more := Pipeline.ReadAllPrefix(r, items, n);
    ReadAllInOrder(r, items[..n]);
  }

  /** The process after reading its first `n` documents, before any operation. */
  function AfterReading(proc: Proc, n: nat): Proc
    requires proc.Working? && n <= |Items(proc)|
  {
    var works := Pipeline.ReadAll(proc.job.reader, Items(proc)[..n]);
    proc.(works := if works.Some? then works.value else [])
  }

  lemma ReadsOneMore(proc: Proc, n: nat)
    requires proc.Working? && n < |Items(proc)| && Pipeline.ReadAll(proc.job.reader, Items(proc)).Some?
    ensures var before := AfterReading(proc, n);
            Items(before) == Items(proc) && CanRead(before) && AfterRead(before) == AfterReading(proc, n + 1)
  {
    hide JobDiff, Pipeline.Read;
    var items := Items(proc);
    ReadablePrefix(proc.job.reader, items, n);
    ReadablePrefix(proc.job.reader, items, n + 1);
    assert items[..n + 1][..n] == items[..n];
  }

  lemma {:induction false} ReadSome(s: System, p: nat, proc: Proc, n: nat) returns (more: seq<Step>)
    requires At(s, p) && s.procs[p] == proc && proc.Working? && proc.works == [] && n <= |Items(proc)|
    requires Pipeline.ReadAll(proc.job.reader, Items(proc)).Some?
    ensures CanRun(s, more) && Run(s, more) == Put(s, p, AfterReading(proc, n), s.nextId + n) && WithoutCrash(more)
  {
    hide Items, CanRead, AfterRead, Pipeline.ReadAll;
    if n == 0 {
      more := [];
      NothingRead(proc);
      assert s.procs[p := proc] == s.procs;
    } else {
      var before := ReadSome(s, p, proc, n - 1);
      ReadsOneMore(proc, n - 1);
      RunNext(s, before, ReadNext(p));
      more := before + [ReadNext(p)];
    }
  }

  lemma NothingRead(proc: Proc)
    requires proc.Working? && proc.works == []
    ensures AfterReading(proc, 0) == proc
  {
    hide Items;
    assert Items(proc)[..0] == [];
  }

  // ---------- Carrying out the plan ----------

  lemma {:induction false} EnabledAt(t: Tables, ops: seq<Op>, k: nat)
    requires AllEnabled(t, ops) && k < |ops|
    ensures Enabled(ApplyAll(t, ops[..k]), ops[k])
    decreases |ops|
  {
    hide Apply, Enabled;
    var n := |ops| - 1;
    if k < n {
      EnabledAt(t, ops[..n], k);
      assert ops[..n][..k] == ops[..k];
    }
  }

  /** The process after the first `k` operations of its plan. */
  function AfterApplying(proc: Proc, k: nat): Proc
    requires proc.Working? && k <= |Known(proc)|
  {
    proc.(done := k, working := ApplyAll(proc.base, Known(proc)[..k]))
  }

  lemma AppliesOneMore(proc: Proc, k: nat)
    requires proc.Working? && k < |Known(proc)| && AllEnabled(proc.base, Known(proc))
    ensures var before := AfterApplying(proc, k);
            Known(before) == Known(proc) && CanApply(before) && AfterApply(before) == AfterApplying(proc, k + 1)
  {
    hide JobOps, Apply, Enabled;
    var ops := Known(proc);
    EnabledAt(proc.base, ops, k);
    assert ops[..k + 1] == ops[..k] + [ops[k]];
    OneMoreOp(proc.base, ops[..k], ops[k]);
  }

  lemma {:induction false} ApplySome(s: System, p: nat, proc: Proc, k: nat) returns (more: seq<Step>)
    requires At(s, p) && s.procs[p] == proc && proc.Working? && proc.done == 0 && proc.working == proc.base
    requires k <= |Known(proc)| && AllEnabled(proc.base, Known(proc))
    ensures CanRun(s, more) && Run(s, more) == Put(s, p, AfterApplying(proc, k), s.nextId) && WithoutCrash(more)
  {
    hide Known, CanApply, AfterApply, ApplyAll, AllEnabled;
    if k == 0 {
      more := [];
      NothingApplied(proc);
      assert s.procs[p := proc] == s.procs;
    } else {
      var before := ApplySome(s, p, proc, k - 1);
      AppliesOneMore(proc, k - 1);
      RunNext(s, before, ApplyNext(p));
      more := before + [ApplyNext(p)];
    }
  }

  lemma NothingApplied(proc: Proc)
    requires proc.Working? && proc.done == 0 && proc.working == proc.base
    ensures AfterApplying(proc, 0) == proc
  {
    hide Known;
    assert Known(proc)[..0] == [];
  }

  // ---------- From the lock to the commit ----------

  lemma EnterTransaction(s: System, p: nat, job: Job) returns (steps: seq<Step>)
    requires At(s, p) && s.procs[p] == Idle && s.lock.None? && job.batchSize > 0 && KeyedByPath(job.scan)
    ensures CanRun(s, steps) && WithoutCrash(steps)
    ensures Run(s, steps) == s.(procs := s.procs[p := Begun(s, job)], lock := Some(p))
  {
    hide CanRun, Run, KeyedByPath;
    var lock, scan, begin := TryLock(p, job.source, job.runId), Step.Scan(p, job), Begin(p);
    RunOne(s, lock);
    RunNext(s, [lock], scan);
    RunNext(s, [lock] + [scan], begin);
    steps := [lock] + [scan] + [begin];
  }

  /** The process once its transaction has done everything. */
  function Done(t: Tables, job: Job): Proc
    requires Doable(t, job)
  {
    var works := JobWorks(t, job).value;
    Working(job, t, works, |JobOps(t, job, works)|, ApplyAll(t, JobOps(t, job, works)))
  }

  lemma DoneCanRecord(t: Tables, job: Job)
    requires Doable(t, job)
    ensures CanRecord(Done(t, job))
    ensures AfterRecord(Done(t, job)).working == AfterSuccess(t, job, JobWorks(t, job).value)
  {
    hide ApplyAll, JobOps, JobDiff, SuccessRun, AllStorable;
    var works := JobWorks(t, job).value;
    ReadAllInOrder(job.reader, WorkItems(JobDiff(t, job)));
    OpsKeepRuns(t, JobOps(t, job, works));
  }

  lemma ReadingLeads(t: Tables, job: Job)
    requires Doable(t, job)
    ensures var begun := Working(job, t, [], 0, t);
            && Pipeline.ReadAll(job.reader, Items(begun)).Some?
            && |Items(begun)| == |JobWorks(t, job).value|
            && AfterReading(begun, |Items(begun)|) == Working(job, t, JobWorks(t, job).value, 0, t)
  {
    hide JobDiff, Pipeline.Read, AllStorable;
    var items := WorkItems(JobDiff(t, job));
    assert items[..|items|] == items;
    ReadAllInOrder(job.reader, items);
  }

  lemma ApplyingLeads(t: Tables, job: Job)
    requires Doable(t, job) && ValidTables(t, job.firstId) && KeyedByPath(job.scan)
    ensures var read := Working(job, t, JobWorks(t, job).value, 0, t);
            AllEnabled(t, Known(read)) && AfterApplying(read, |Known(read)|) == Done(t, job)
  {
    hide JobOps, ValidTables, KeyedByPath, Feasible;
    FeasibleIsReadable(t, job);
    SuccessIsValid(t, job);
    var ops := JobOps(t, job, JobWorks(t, job).value);
    assert ops[..|ops|] == ops;
  }

  /** The whole transaction, from its beginning to the moment before the run record. */
  lemma DoTheWork(s: System, p: nat, job: Job) returns (steps: seq<Step>)
    requires At(s, p) && s.procs[p] == Working(job, s.committed, [], 0, s.committed)
    requires Doable(s.committed, job) && ValidTables(s.committed, job.firstId) && KeyedByPath(job.scan)
    ensures CanRun(s, steps) && WithoutCrash(steps)
    ensures Run(s, steps) == Put(s, p, Done(s.committed, job), s.nextId + |JobWorks(s.committed, job).value|)
  {
    hide CanRun, Run, KeyedByPath, ValidTables, Doable, Items, Known, AfterReading, AfterApplying, Done, JobWorks;
    var t, begun := s.committed, s.procs[p];
    DoableIsReadable(t, job);
    ReadingLeads(t, job);
    var reading := ReadSome(s, p, begun, |Items(begun)|);
    var s' := Run(s, reading);
    var read := s'.procs[p];
    ApplyingLeads(t, job);
    var applying := ApplySome(s', p, read, |Known(read)|);
    RunAppend(s, reading, applying);
    steps := reading + applying;
    assert s.procs[p := read][p := Done(t, job)] == s.procs[p := Done(t, job)];
  }

  /** Recording, committing and unlocking. */
  lemma Finish(s: System, p: nat, job: Job) returns (steps: seq<Step>)
    requires At(s, p) && Doable(s.committed, job) && s.procs[p] == Done(s.committed, job) && s.lock == Some(p)
    ensures CanRun(s, steps) && WithoutCrash(steps)
    ensures JobWorks(s.committed, job).Some? && job.batchSize > 0
    ensures Run(s, steps)
         == s.(procs := s.procs[p := Idle], lock := None, log := s.log + [Success(job, s.nextId)],
               committed := AfterSuccess(s.committed, job, JobWorks(s.committed, job).value))
  {
    hide CanRun, Run, Doable, CanRecord, JobWorks, AfterSuccess, JobOps, ApplyAll, SuccessRun;
    var t := s.committed;
    DoableIsReadable(t, job);
    DoneCanRecord(t, job);
    RunOne(s, Record(p));
    RunNext(s, [Record(p)], Commit(p));
    RunNext(s, [Record(p)] + [Commit(p)], Unlock(p));
    steps := [Record(p)] + [Commit(p)] + [Unlock(p)];
    assert Run(s, steps).procs == s.procs[p := Idle];
  }

  // ---------- The theorems ----------

  /** The state that a job leaves when it alone runs to its end. */
  function AfterJob(s: System, job: Job): System
    requires Doable(s.committed, job)
  {
    var works := JobWorks(s.committed, job).value;
    s.(committed := AfterSuccess(s.committed, job, works), nextId := s.nextId + |works|,
       log := s.log + [Success(job, s.nextId + |works|)])
  }

  lemma {:induction false} JobRuns(s: System, p: nat, job: Job) returns (more: seq<Step>)
    requires Protocol.Sound(s) && At(s, p) && s.lock.None?
    requires KeyedByPath(job.scan) && job.firstId == s.nextId && Doable(s.committed, job)
    ensures CanRun(s, more) && Run(s, more) == AfterJob(s, job) && WithoutCrash(more)
  {
    hide CanRun, Run, KeyedByPath, Doable, Replay, PossibleHistory, ObservationsFit, ProcFits, ValidTables,
      AfterSuccess;
    hide JobWorks, Done;
    assert s.procs[p] == Idle;
    DoableIsReadable(s.committed, job);
    ReplayIsValid(s.log);
    LargerIds(s.committed, Replay(s.log).nextId, s.nextId);
    var enter := EnterTransaction(s, p, job);
    var s1 := Run(s, enter);
    var work := DoTheWork(s1, p, job);
    RunAppend(s, enter, work);
    var s2 := Run(s1, work);
    var finish := Finish(s2, p, job);
    RunAppend(s, enter + work, finish);
    more := enter + work + finish;
    assert Run(s, more).procs == s.procs;
  }

  /** From every reachable state in which the lock is free, any process can commit any job that can be done,
      without anybody crashing. */
  lemma DoableJobsCanCommit(n: nat, steps: seq<Step>, p: nat, job: Job) returns (more: seq<Step>)
    requires Legal(n, steps) && At(Execute(n, steps), p) && Execute(n, steps).lock.None?
    requires KeyedByPath(job.scan) && job.firstId == Execute(n, steps).nextId
    requires Doable(Execute(n, steps).committed, job)
    ensures Legal(n, steps + more) && WithoutCrash(more)
    ensures Execute(n, steps + more) == AfterJob(Execute(n, steps), job)
  {
    hide CanRun, Run, KeyedByPath, Doable, Protocol.Sound, AfterJob, Start;
    ReachableIsSound(n, steps);
    more := JobRuns(Execute(n, steps), p, job);
    RunAppend(Start(n), steps, more);
  }

  /** When the holder of the lock crashes, at whatever point, nothing of its work is left, and the same job,
      or any other, can be committed from there. */
  lemma CrashIsRecoverable(n: nat, steps: seq<Step>, q: nat, p: nat, job: Job) returns (more: seq<Step>)
    requires Legal(n, steps) && At(Execute(n, steps), p) && Execute(n, steps).lock == Some(q)
    requires KeyedByPath(job.scan) && job.firstId == Execute(n, steps).nextId
    requires Doable(Execute(n, steps).committed, job)
    ensures Legal(n, steps + [Crash(q)] + more) && WithoutCrash(more)
    ensures Execute(n, steps + [Crash(q)] + more).committed == AfterJob(Execute(n, steps), job).committed
    ensures Execute(n, steps + [Crash(q)] + more).log == AfterJob(Execute(n, steps), job).log
  {
    hide CanRun, Run, KeyedByPath, Doable, Start, Replay, PossibleHistory, ObservationsFit, ProcFits, AfterSuccess,
      JobWorks;
    ReachableIsSound(n, steps);
    var s := Execute(n, steps);
    DoableIsReadable(s.committed, job);
    RunNext(Start(n), steps, Crash(q));
    more := DoableJobsCanCommit(n, steps + [Crash(q)], p, job);
  }

  predicate IsRejected(s: System, step: Step) {
    step.TryLock? && s.lock.Some?
  }

  /** The same run without the attempts that found the lock taken. */
  function WithoutRejections(s: System, steps: seq<Step>): seq<Step>
    requires CanRun(s, steps)
  {
    if steps == [] then []
    else
      var before, last := steps[..|steps| - 1], steps[|steps| - 1];
      WithoutRejections(s, before) + (if IsRejected(Run(s, before), last) then [] else [last])
  }

  /** Rejected attempts leave no trace: striking all of them out of a run gives a run to the same state, with
      the same corpus, run history and observations. */
  lemma {:induction false} RejectionsLeaveNoTrace(s: System, steps: seq<Step>)
    requires CanRun(s, steps)
    ensures CanRun(s, WithoutRejections(s, steps))
    ensures Run(s, WithoutRejections(s, steps)) == Run(s, steps)
  {
    hide CanTake, Take;
    if steps != [] {
      var before, last := steps[..|steps| - 1], steps[|steps| - 1];
      RejectionsLeaveNoTrace(s, before);
      if IsRejected(Run(s, before), last) {
        RejectedStepDoesNothing(Run(s, before), last);
        assert WithoutRejections(s, before) + [] == WithoutRejections(s, before);
      } else {
        RunNext(s, WithoutRejections(s, before), last);
      }
    }
  }

  lemma RejectedStepDoesNothing(s: System, step: Step)
    requires CanTake(s, step) && IsRejected(s, step)
    ensures Take(s, step) == s
  {
  }
}
