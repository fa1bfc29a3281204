/** What concurrent processes and readers see of the corpus. */
module ConcurrentCorpus {
  import opened Models
  import opened SourceDiffing
  import opened StoreTables
  import opened Synchronization
  import opened History
  import opened Rebuilding
  import opened PgStore
  import opened Protocol
  import opened Ledger
  import opened RunRecords

  /** All processes scan within the same world. */
  ghost predicate StepsFit(w: World, steps: seq<Step>) {
    forall i | 0 <= i < |steps| && steps[i].Scan? :: JobFits(w, steps[i].job)
  }

  ghost predicate ProcJobFits(w: World, proc: Proc) {
    proc.Scanned? || proc.Working? || proc.Recorded? ==> JobFits(w, proc.job)
  }

  ghost predicate SystemFits(w: World, s: System) {
    HistoryFits(w, s.log) && forall p | 0 <= p < |s.procs| :: ProcJobFits(w, s.procs[p])
  }

  lemma StepKeepsFit(w: World, s: System, step: Step)
    requires CanTake(s, step) && SystemFits(w, s) && (step.Scan? ==> JobFits(w, step.job))
    ensures SystemFits(w, Take(s, step))
  {
    hide Items, Known, Enabled, Apply, FreshRun, CanRead, CanApply, CanRecord, ReportedRun, ScanFits,
      ReaderFits, SuccessRun;
  }

  lemma {:induction false} LoggedJobsFit(w: World, n: nat, steps: seq<Step>)
    requires Legal(n, steps) && StepsFit(w, steps)
    ensures SystemFits(w, Execute(n, steps))
  {
    hide Take, CanTake, JobFits;
    if steps != [] {
      var before := steps[..|steps| - 1];
      LoggedJobsFit(w, n, before);
      StepKeepsFit(w, Execute(n, before), steps[|steps| - 1]);
    }
  }

  lemma {:induction false} PossiblePrefix(events: seq<Event>, k: nat)
    requires PossibleHistory(events) && k <= |events|
    ensures PossibleHistory(events[..k])
    decreases |events|
  {
    hide Possible;
    if k == |events| {
      assert events[..k] == events;
    } else {
      PossiblePrefix(events[..|events| - 1], k);
      assert events[..|events| - 1][..k] == events[..k];
    }
  }

  /** Whatever the interleaving and the crashes, the committed corpus is the rebuild of the scan of the last
      success in commit order. */
  lemma CommittedCorpusIsRebuilt(w: World, n: nat, steps: seq<Step>)
    requires CollisionFree(w) && Legal(n, steps) && StepsFit(w, steps)
    ensures CorpusOf(Execute(n, steps).committed) == LastRebuilt(w, Execute(n, steps).log)
  {
    hide Execute, Replay, PossibleHistory, CollisionFree, HistoryFits, LastRebuilt, CorpusOf;
    CommittedIsSerial(n, steps);
    LoggedJobsFit(w, n, steps);
    CorpusIsLastRebuilt(w, Execute(n, steps).log);
  }

  /** A reader never sees part of a synchronization: what it sees is the rebuild of one whole scan, or the
      empty corpus. */
  lemma ReadersSeeRebuiltCorpora(w: World, n: nat, steps: seq<Step>, i: nat) returns (k: nat)
    requires CollisionFree(w) && Legal(n, steps) && StepsFit(w, steps)
    requires i < |Execute(n, steps).observed|
    ensures k <= |Execute(n, steps).log|
    ensures CorpusOf(Execute(n, steps).observed[i]) == LastRebuilt(w, Execute(n, steps).log[..k])
  {
    hide Execute, Replay, PossibleHistory, CollisionFree, JobFits, LastRebuilt, CorpusOf;
    var log := Execute(n, steps).log;
    CommittedIsSerial(n, steps);
    LoggedJobsFit(w, n, steps);
    k := ReadersSeeCommittedStates(n, steps, i);
    PossiblePrefix(log, k);
    CorpusIsLastRebuilt(w, log[..k]);
  }

  /** The ledger balances in every state that any number of processes can reach. */
  lemma ConcurrentLedgerBalances(n: nat, steps: seq<Step>)
    requires Legal(n, steps)
    ensures var m := OperationalMetrics(Execute(n, steps).committed);
            && m.chunks == m.embeddedChunksTotal - m.deletedChunksTotal
            && m.documents == NetDocuments(Execute(n, steps).committed.runs, Succeeded)
            && m.runsSucceeded == Successes(Execute(n, steps).log)
  {
    hide Execute, Replay, PossibleHistory, Totals, NetDocuments;
    CommittedIsSerial(n, steps);
    LedgerBalances(Execute(n, steps).log);
    RecordsMatchCommits(Execute(n, steps).log);
  }

  /** Whatever the other processes do: a process that fails in its transaction goes on to record the counts of its
      scan against the tables that are committed at this moment; before that, those of its scan, or none. */
  lemma FailuresAreCounted(n: nat, steps: seq<Step>, p: nat, batches: nat)
    requires Legal(n, steps) && CanTake(Execute(n, steps), Fail(p, batches))
    ensures var s := Execute(n, steps);
            var proc, next := s.procs[p], Take(s, Fail(p, batches)).procs[p];
            && next.Failing? && next.run.status == Status.Failed
            && next.run.embeddedChunks == next.run.deletedChunks == 0
            && (proc.Working? || proc.Recorded? ==>
                  CountsAll(s.committed, proc.job.scan, next.run) && next.run.embeddingBatches == batches)
            && (proc.Scanned? ==> CountsScan(proc.job.scan, next.run) && next.run.embeddingBatches == 0)
            && (proc.Locked? ==> next.run.scannedDocuments == next.run.scannedBytes == next.run.embeddingBatches == 0)
            && (proc.Locked? || proc.Scanned? ==>
                  && next.run.newDocuments == next.run.changedDocuments == next.run.metadataChangedDocuments == 0
                  && next.run.unchangedDocuments == next.run.deletedDocuments == 0)
  {
    hide Execute, Replay, PossibleHistory, Seen, Succeeds, CountsAll, Diff, ScannedBytes, StatesOf;
    var s := Execute(n, steps);
    ReachableIsSound(n, steps);
    var proc := s.procs[p];
    if !proc.Locked? {
      ScannedBytesIsTotal(proc.job.scan);
    }
    if proc.Working? || proc.Recorded? {
      CountsOfDiff(s.committed, proc.job.scan, Protocol.Failed(s, p, batches).run);
    }
  }
}
