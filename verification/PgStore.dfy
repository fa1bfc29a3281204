/** `PgVectorStore` as an object: the committed tables, the working copy of the open transaction, and calls to the
    database any of which may fail. A method returning false or None has raised. */
module PgStore {
  import opened Strings
  import opened CanonicalJson
  import opened Models
  import opened SourceDiffing
  import opened StoreTables

  /** How a commit can end: acknowledged; refused; or carried out although the reply got lost. */
  datatype CommitOutcome = Applied | NotApplied | AppliedUnacknowledged

  /** None of the calls from number `from` up to number `to` fails. */
  predicate Quiet(fails: nat -> bool, from: nat, to: nat) {
    forall n: nat | from <= n < to :: !fails(n)
  }

  lemma QuietSplit(fails: nat -> bool, from: nat, middle: nat, to: nat)
    requires from <= middle <= to
    ensures Quiet(fails, from, to) <==> Quiet(fails, from, middle) && Quiet(fails, middle, to)
  {
  }

  /** The calls that open a transaction: a connection, the registration of the vector type on it, and BEGIN. */
  const OPENING := 3

  /** The registration fails on a connection that the store has already noted as its own. */
  predicate Jams(fails: nat -> bool, first: nat) {
    !fails(first) && fails(first + 1)
  }

  class Store {
    var committed: Tables
    var working: Option<Tables>    // the open transaction
    var jammed: bool               // `_conn` was left set although no transaction is open
    var nextId: nat                // ids below this one have been handed out
    var locked: bool               // some session holds the synchronization lock
    var calls: nat                 // database calls made so far
    const fails: nat -> bool       // which of the calls fail
    const commits: nat -> CommitOutcome

    constructor (fails: nat -> bool, commits: nat -> CommitOutcome)
      ensures Valid() && committed == EMPTY_TABLES && working == None && !locked && !jammed
      ensures nextId == 0 && calls == 0 && this.fails == fails && this.commits == commits
    {
      this.fails, this.commits := fails, commits;
      committed, working, jammed, nextId, locked, calls := EMPTY_TABLES, None, false, 0, false, 0;
    }

    ghost predicate Valid()
      reads this
    {
      && ValidTables(committed, nextId)
      && (working.Some? ==> ValidTables(working.value, nextId))
    }

    /** Sends one statement; it is refused outside a transaction. */
    method Execute() returns (ok: bool)
      modifies `calls
      ensures ok <==> working.Some? && !fails(old(calls))
      ensures calls == old(calls) + 1
    {
      ok := working.Some? && !fails(calls);
      calls := calls + 1;
    }

    /** `pg_try_advisory_lock`: None when the connection fails, otherwise whether the lock was acquired. */
    method TryLock() returns (acquired: Option<bool>)
      modifies `locked, `calls
      ensures acquired == Some(true) ==> !old(locked) && locked
      ensures acquired != Some(true) ==> locked == old(locked)
      ensures acquired == if fails(old(calls)) then None else Some(!old(locked))
      ensures calls == old(calls) + 1
    {
      if fails(calls) {
        acquired := None;
      } else {
        acquired := Some(!locked);
        locked := true;
      }
      calls := calls + 1;
    }

    method Unlock()
      modifies `locked
      ensures !locked
    {
      locked := false;
    }

    /** Enters `transaction()`, which is refused while `_conn` is set. A failing registration leaves it set for
        good: the code that resets it guards only what comes after. */
    method Begin() returns (ok: bool)
      requires Valid()
      modifies `working, `jammed, `calls
      ensures Valid()
      ensures ok <==> old(working).None? && !old(jammed) && Quiet(fails, old(calls), old(calls) + OPENING)
      ensures working == if ok then Some(committed) else old(working)
      ensures jammed <==> old(jammed) || (old(working).None? && Jams(fails, old(calls)))
      ensures ok ==> calls == old(calls) + OPENING
      ensures old(working).None? && !old(jammed) && Jams(fails, old(calls)) ==> calls == old(calls) + 2
      ensures old(calls) <= calls <= old(calls) + OPENING
    {
      if working.Some? || jammed {
        return false;
      }
      calls := calls + 1;
      if fails(calls - 1) {
        return false;
      }
      calls := calls + 1;
      if fails(calls - 1) {
        jammed := true;
        return false;
      }
      calls := calls + 1;
      if fails(calls - 1) {
        return false;
      }
      working := Some(committed);
      ok := true;
    }

    /** Leaves `transaction()` normally. */
    method Commit() returns (outcome: CommitOutcome)
      requires Valid() && working.Some?
      modifies `working, `committed, `calls
      ensures Valid() && working == None
      ensures committed == if outcome.NotApplied? then old(committed) else old(working.value)
      ensures outcome == commits(old(calls)) && calls == old(calls) + 1
    {
      outcome := commits(calls);
      calls := calls + 1;
      if outcome != NotApplied {
        committed := working.value;
      }
      working := None;
    }

    /** Leaves `transaction()` with an exception. */
    method Rollback()
      requires Valid()
      modifies `working
      ensures Valid() && working == None
    {
      working := None;
    }

    method DocumentStates() returns (states: Option<States>)
      requires Valid()
      modifies `calls
      ensures states == if working.Some? && !fails(old(calls)) then Some(StatesOf(working.value)) else None
      ensures calls == old(calls) + 1
    {
      var ok := Execute();
      states := if ok then Some(StatesOf(working.value)) else None;
    }

    method DeleteDocument(id: nat) returns (count: Option<nat>)
      requires Valid()
      modifies `working, `calls
      ensures Valid()
      ensures working.Some? <==> old(working).Some?
      ensures count.Some? <==> old(working).Some? && Quiet(fails, old(calls), old(calls) + 2)
      ensures count.Some? ==> working == Some(Apply(old(working.value), Delete(id)))
      ensures count.Some? ==> count.value == DeletedBy(old(working.value), Delete(id))
      ensures count.Some? ==> calls == old(calls) + 2
      ensures calls >= old(calls)
    {
      hide ValidTables, DeleteById;
      var counted := Execute();
      if !counted {
        return None;
      }
      count := Some(|RowsOf(working.value.chunks, id)|);
      var deleted := Execute();
      if !deleted {
        return None;
      }
      DeleteIsValid(working.value, nextId, id);
      working := Some(DeleteById(working.value, id));
    }

    method UpdateDocumentMetadata(id: nat, metadata: Value, metadataHash: Hash) returns (ok: bool)
      requires Valid()
      modifies `working, `calls
      ensures Valid()
      ensures working.Some? <==> old(working).Some?
      ensures ok <==> && old(working).Some? && !fails(old(calls))
                      && Enabled(old(working.value), Update(id, metadata, metadataHash))
      ensures ok ==> working == Some(Apply(old(working.value), Update(id, metadata, metadataHash)))
      ensures calls == old(calls) + 1
    {
      hide PlainValue;
      ok := Execute();
      if !ok {
        return;
      }
      if !PlainValue(metadata) || !HasDocument(working.value, id) {
        return false;
      }
      UpdateIsValid(working.value, nextId, id, metadata, metadataHash);
      working := Some(UpdateMetadata(working.value, id, metadata, metadataHash));
    }

    /** The first two statements of `replace_document`: the old row of the path goes, the new one comes. */
    method InsertAfresh(item: ScannedDocument) returns (ok: bool)
      requires Valid()
      modifies `working, `nextId, `calls
      ensures Valid()
      ensures working.Some? <==> old(working).Some?
      ensures ok <==> old(working).Some? && Quiet(fails, old(calls), old(calls) + 2) && PlainItem(item)
      ensures ok ==> nextId == old(nextId) + 1
      ensures ok ==> working == Some(InsertDocument(DeleteByPath(old(working.value), item.path), old(nextId), item))
      ensures ok ==> HasDocument(working.value, old(nextId))
      ensures ok ==> calls == old(calls) + 2
      ensures nextId >= old(nextId) && calls >= old(calls)
    {
      hide DeleteById, InsertDocument, ValidTables, Plain, PlainValue;
      ok := Execute();
      if !ok {
        return;
      }
      if !Plain(item.path.text) {
        return false;
      }
      if item.path in working.value.documents {
        DeleteIsValid(working.value, nextId, working.value.documents[item.path].id);
      }
      working := Some(DeleteByPath(working.value, item.path));
      ok := Execute();
      if !ok {
        return;
      }
      if !PlainValue(item.metadata) {
        return false;
      }
      InsertIsValid(working.value, nextId, item, []);
      InsertedExists(working.value, nextId, item);
      LargerIdsAreValid(committed, nextId);
      working := Some(InsertDocument(working.value, nextId, item));
      nextId := nextId + 1;
    }

    /** When a statement fails, the effects of the earlier ones stay in the doomed transaction. */
    method ReplaceDocument(item: ScannedDocument, chunks: seq<Chunk>, vectors: seq<Vector>, model: string)
      returns (ok: bool)
      requires Valid()
      modifies `working, `nextId, `calls
      ensures Valid()
      ensures working.Some? <==> old(working).Some?
      ensures ok <==> && old(working).Some? && Quiet(fails, old(calls), old(calls) + ReplaceCalls(chunks))
                      && Enabled(old(working.value), Replace(old(nextId), item, chunks, vectors, model))
      ensures ok ==> working == Some(Apply(old(working.value), Replace(old(nextId), item, chunks, vectors, model)))
      ensures ok ==> nextId == old(nextId) + 1 && calls == old(calls) + ReplaceCalls(chunks)
      ensures nextId >= old(nextId) && calls >= old(calls)
    {
      hide DeleteByPath, InsertDocument, ValidTables, PlainItem, Plain;
      if |chunks| != |vectors| {
        return false;
      }
      var id := nextId;
      ok := InsertAfresh(item);
      if !ok {
        return;
      }
      if chunks == [] {
        InsertNothing(working.value, id, vectors, model);
        return;
      }
      ok := Execute();
      if !ok {
        return;
      }
      if !DistinctIndexes(chunks) || !PlainChunks(chunks) {
        return false;
      }
      InsertChunksIsValid(working.value, nextId, id, ChunkRows(id, chunks, vectors, model));
      working := Some(InsertChunks(working.value, ChunkRows(id, chunks, vectors, model)));
    }

    /** `sync_runs.id` is a primary key. */
    method RecordRun(run: RunRecord) returns (ok: bool)
      requires Valid()
      modifies `working, `calls
      ensures Valid()
      ensures working.Some? <==> old(working).Some?
      ensures ok <==> old(working).Some? && !fails(old(calls)) && FreshRun(old(working.value), run.runId)
      ensures ok ==> working == Some(WithRun(old(working.value), run))
      ensures calls == old(calls) + 1
    {
      ok := Execute();
      if ok {
        if FreshRun(working.value, run.runId) {
          working := Some(WithRun(working.value, run));
        } else {
          ok := false;
        }
      }
    }
  }

  predicate FreshRun(t: Tables, runId: nat) {
    forall i | 0 <= i < |t.runs| :: t.runs[i].runId != runId
  }

  function WithRun(t: Tables, run: RunRecord): Tables {
    t.(runs := t.runs + [run])
  }

  lemma LargerIdsAreValid(t: Tables, nextId: nat)
    requires ValidTables(t, nextId)
    ensures ValidTables(t, nextId + 1)
  {
  }

  lemma InsertedExists(t: Tables, id: nat, item: ScannedDocument)
    ensures HasDocument(InsertDocument(t, id, item), id)
  {
    assert InsertDocument(t, id, item).documents[item.path].id == id;
  }

  lemma InsertNothing(t: Tables, id: nat, vectors: seq<Vector>, model: string)
    requires vectors == []
    ensures InsertChunks(t, ChunkRows(id, [], vectors, model)) == t
  {
  }

  lemma InsertChunksIsValid(t: Tables, nextId: nat, id: nat, rows: seq<ChunkRow>)
    requires ValidTables(t, nextId) && HasDocument(t, id)
    requires forall i | 0 <= i < |rows| :: rows[i].documentId == id
    ensures ValidTables(InsertChunks(t, rows), nextId)
  {
  }

  lemma DeleteIsValid(t: Tables, nextId: nat, id: nat)
    requires ValidTables(t, nextId)
    ensures ValidTables(DeleteById(t, id), nextId)
    ensures forall p :: p in DeleteById(t, id).documents <==> p in t.documents && t.documents[p].id != id
  {
    if HasDocument(t, id) {
      var p :| p in t.documents && t.documents[p].id == id;
      DeleteTables(t, nextId, p);
    } else {
      forall i | 0 <= i < |t.chunks| ensures t.chunks[i].documentId != id {
        assert HasDocument(t, t.chunks[i].documentId);
      }
      RowsOfNone(t.chunks, id);
      assert DeleteById(t, id).documents == t.documents;
    }
  }

  lemma UpdateIsValid(t: Tables, nextId: nat, id: nat, metadata: Value, metadataHash: Hash)
    requires ValidTables(t, nextId) && HasDocument(t, id)
    ensures ValidTables(UpdateMetadata(t, id, metadata, metadataHash), nextId)
  {
    var p :| p in t.documents && t.documents[p].id == id;
    UpdateTables(t, nextId, p, metadata, metadataHash);
  }
}
