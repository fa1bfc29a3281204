/** The relational state behind `PgVectorStore`, as values: the three tables, the statements that change
    them, and what each statement does to the corpus. */
module StoreTables {
  import opened CanonicalJson
  import opened Models
  import opened SourceDiffing

  /** A row of `documents`; the table maps its UNIQUE path column to the rest of the row. */
  datatype DocumentRow = DocumentRow(
    id: nat,
    contentHash: Hash,
    mediaType: string,
    sizeBytes: nat,
    metadata: Value,
    metadataHash: Hash)

  datatype ChunkRow = ChunkRow(
    documentId: nat,
    index: nat,
    text: string,
    contentHash: Hash,
    model: string,
    vector: Vector)

  datatype Tables = Tables(documents: map<Path, DocumentRow>, chunks: seq<ChunkRow>, runs: seq<RunRecord>)

  const EMPTY_TABLES := Tables(map[], [], [])

  // ---------- Queries ----------

  /** `document_states` */
  function StatesOf(t: Tables): States {
    map p | p in t.documents ::
      DocumentState(t.documents[p].id, p, t.documents[p].contentHash, t.documents[p].metadataHash)
  }

  function RowsOf(rows: seq<ChunkRow>, id: nat): seq<ChunkRow> {
    if rows == [] then []
    else (if rows[0].documentId == id then [rows[0]] else []) + RowsOf(rows[1..], id)
  }

  function RowsExcept(rows: seq<ChunkRow>, id: nat): seq<ChunkRow> {
    if rows == [] then []
    else (if rows[0].documentId != id then [rows[0]] else []) + RowsExcept(rows[1..], id)
  }

  predicate HasDocument(t: Tables, id: nat) {
    exists p | p in t.documents :: t.documents[p].id == id
  }

  // ---------- Statements ----------

  /** `DELETE FROM documents WHERE id = ...`, cascading to the chunks. */
  function DeleteById(t: Tables, id: nat): Tables {
    t.(documents := map p | p in t.documents && t.documents[p].id != id :: t.documents[p],
       chunks := RowsExcept(t.chunks, id))
  }

  /** `DELETE FROM documents WHERE path = ...`, cascading to the chunks. */
  function DeleteByPath(t: Tables, path: Path): Tables {
    if path in t.documents then DeleteById(t, t.documents[path].id) else t
  }

  function RowOf(id: nat, item: ScannedDocument): DocumentRow {
    DocumentRow(id, item.contentHash, item.mediaType, item.sizeBytes, item.metadata, item.metadataHash)
  }

  function InsertDocument(t: Tables, id: nat, item: ScannedDocument): Tables {
    t.(documents := t.documents[item.path := RowOf(id, item)])
  }

  function ChunkRows(id: nat, chunks: seq<Chunk>, vectors: seq<Vector>, model: string): seq<ChunkRow>
    requires |chunks| == |vectors|
  {
    seq(|chunks|, i requires 0 <= i < |chunks| =>
      ChunkRow(id, chunks[i].index, chunks[i].text, chunks[i].contentHash, model, vectors[i]))
  }

  function InsertChunks(t: Tables, rows: seq<ChunkRow>): Tables {
    t.(chunks := t.chunks + rows)
  }

  /** `UPDATE documents SET metadata = ..., metadata_hash = ... WHERE id = ...` */
  function UpdateMetadata(t: Tables, id: nat, metadata: Value, metadataHash: Hash): Tables {
    t.(documents := map p | p in t.documents ::
         if t.documents[p].id == id
         then t.documents[p].(metadata := metadata, metadataHash := metadataHash)
         else t.documents[p])
  }

  /** UNIQUE(document_id, chunk_index): the chunks of one document carry distinct indexes. */
  predicate DistinctIndexes(chunks: seq<Chunk>) {
    forall i, j | 0 <= i < j < |chunks| :: chunks[i].index != chunks[j].index
  }

  /** TEXT columns refuse the character U+0000. */
  predicate Plain(s: string) {
    '\0' !in s
  }

  /** So do JSONB columns, in every string and key. */
  predicate PlainValue(v: Value) {
    match v
    case VStr(s) => Plain(s)
    case VArr(items) => forall i | 0 <= i < |items| :: PlainValue(items[i])
    case VObj(members) => forall key | key in members :: Plain(key) && PlainValue(members[key])
    case _ => true
  }

  predicate PlainItem(item: ScannedDocument) {
    Plain(item.path.text) && PlainValue(item.metadata)
  }

  predicate PlainChunks(chunks: seq<Chunk>) {
    forall i | 0 <= i < |chunks| :: Plain(chunks[i].text)
  }

  // ---------- Store operations ----------

  /** The corpus-changing operations of the `Store` interface. */
  datatype Op =
    | Update(id: nat, metadata: Value, metadataHash: Hash)
    | Delete(id: nat)
    | Replace(newId: nat, item: ScannedDocument, chunks: seq<Chunk>, vectors: seq<Vector>, model: string)

  /** When the operation goes through: an update hits one row, chunks and vectors pair up, and every
      constraint of the schema and of its column types is met. */
  predicate Enabled(t: Tables, op: Op) {
    match op
    case Update(id, metadata, _) => HasDocument(t, id) && PlainValue(metadata)
    case Delete(_) => true
    case Replace(_, item, chunks, vectors, _) =>
      |chunks| == |vectors| && DistinctIndexes(chunks) && PlainItem(item) && PlainChunks(chunks)
  }

  /** The statements of an insertion: the old row of the path goes, the new one comes, and so do its chunks, for
      which nothing is sent when there are none. */
  function ReplaceCalls(chunks: seq<Chunk>): nat {
    if chunks == [] then 2 else 3
  }

  function Apply(t: Tables, op: Op): Tables {
    match op
    case Update(id, metadata, metadataHash) => UpdateMetadata(t, id, metadata, metadataHash)
    case Delete(id) => DeleteById(t, id)
    case Replace(id, item, chunks, vectors, model) =>
      if |chunks| != |vectors| then t
      else InsertChunks(InsertDocument(DeleteByPath(t, item.path), id, item), ChunkRows(id, chunks, vectors, model))
  }

  function ApplyAll(t: Tables, ops: seq<Op>): Tables {
    if ops == [] then t else Apply(ApplyAll(t, ops[..|ops| - 1]), ops[|ops| - 1])
  }

  /** Every operation goes through when it is its turn. */
  predicate AllEnabled(t: Tables, ops: seq<Op>) {
    ops == [] || (AllEnabled(t, ops[..|ops| - 1]) && Enabled(ApplyAll(t, ops[..|ops| - 1]), ops[|ops| - 1]))
  }

  /** The chunk count that `delete_document` returns. */
  function DeletedBy(t: Tables, op: Op): nat {
    if op.Delete? then |RowsOf(t.chunks, op.id)| else 0
  }

  function DeletedByAll(t: Tables, ops: seq<Op>): nat {
    if ops == [] then 0
    else
      var before := ops[..|ops| - 1];
      DeletedByAll(t, before) + DeletedBy(ApplyAll(t, before), ops[|ops| - 1])
  }

  function InsertedByAll(ops: seq<Op>): nat {
    if ops == [] then 0
    else
      var last := ops[|ops| - 1];
      InsertedByAll(ops[..|ops| - 1]) + (if last.Replace? then |last.chunks| else 0)
  }

  lemma {:induction false} ApplyAllAppend(t: Tables, a: seq<Op>, b: seq<Op>)
    ensures ApplyAll(t, a + b) == ApplyAll(ApplyAll(t, a), b)
    ensures DeletedByAll(t, a + b) == DeletedByAll(t, a) + DeletedByAll(ApplyAll(t, a), b)
    ensures InsertedByAll(a + b) == InsertedByAll(a) + InsertedByAll(b)
    ensures AllEnabled(t, a + b) <==> AllEnabled(t, a) && AllEnabled(ApplyAll(t, a), b)
    decreases |b|
  {
    if b == [] {
      assert a + b == a;
    } else {
      var c := b[..|b| - 1];
      assert (a + b)[..|a + b| - 1] == a + c;
      ApplyAllAppend(t, a, c);
    }
  }

  // ---------- Invariants of the tables ----------

  /** Primary keys are unique and were handed out below `nextId`; every chunk belongs to a document. */
  predicate ValidTables(t: Tables, nextId: nat) {
    && (forall p | p in t.documents :: t.documents[p].id < nextId)
    && (forall p, q | p in t.documents && q in t.documents && t.documents[p].id == t.documents[q].id :: p == q)
    && (forall i | 0 <= i < |t.chunks| :: HasDocument(t, t.chunks[i].documentId))
  }

  lemma RowsExceptUnfolds(rows: seq<ChunkRow>, id: nat)
    requires rows != []
    ensures var kept, rest := RowsExcept(rows, id), RowsExcept(rows[1..], id);
            if rows[0].documentId == id then kept == rest
            else kept == [rows[0]] + rest && kept[1..] == rest
  {
  }

  lemma {:induction false} RowsSplit(rows: seq<ChunkRow>, id: nat)
    ensures |RowsOf(rows, id)| + |RowsExcept(rows, id)| == |rows|
    ensures forall r :: r in RowsExcept(rows, id) <==> r in rows && r.documentId != id
  {
    if rows != [] {
      RowsSplit(rows[1..], id);
      RowsExceptUnfolds(rows, id);
      assert rows == [rows[0]] + rows[1..];
    }
  }

  lemma {:induction false} RowsOfOther(rows: seq<ChunkRow>, id: nat, other: nat)
    requires id != other
    ensures RowsOf(RowsExcept(rows, id), other) == RowsOf(rows, other)
  {
    if rows != [] {
      RowsOfOther(rows[1..], id, other);
      RowsExceptUnfolds(rows, id);
    }
  }

  lemma RowsOfCons(row: ChunkRow, rows: seq<ChunkRow>, id: nat)
    ensures RowsOf([row] + rows, id) == (if row.documentId == id then [row] else []) + RowsOf(rows, id)
  {
    assert ([row] + rows)[1..] == rows;
  }

  lemma {:induction false} RowsOfAppend(rows: seq<ChunkRow>, more: seq<ChunkRow>, id: nat)
    ensures RowsOf(rows + more, id) == RowsOf(rows, id) + RowsOf(more, id)
  {
    hide RowsOf;
    if rows == [] {
      RowsOfNone(rows, id);
      assert rows + more == more;
    } else {
      RowsOfAppend(rows[1..], more, id);
      RowsOfCons(rows[0], rows[1..], id);
      RowsOfCons(rows[0], rows[1..] + more, id);
      assert rows == [rows[0]] + rows[1..] && rows + more == [rows[0]] + (rows[1..] + more);
    }
  }

  lemma {:induction false} RowsOfUniform(rows: seq<ChunkRow>, owner: nat, id: nat)
    requires forall i | 0 <= i < |rows| :: rows[i].documentId == owner
    ensures RowsOf(rows, id) == if id == owner then rows else []
  {
    if rows != [] { RowsOfUniform(rows[1..], owner, id); }
  }

  lemma {:induction false} RowsOfNone(rows: seq<ChunkRow>, id: nat)
    requires forall i | 0 <= i < |rows| :: rows[i].documentId != id
    ensures RowsOf(rows, id) == [] && RowsExcept(rows, id) == rows
  {
    if rows != [] { RowsOfNone(rows[1..], id); }
  }

  // ---------- The corpus ----------

  datatype CorpusChunk = CorpusChunk(index: nat, text: string, contentHash: Hash, model: string, vector: Vector)

  /** A stored document with its chunks, without ids. */
  datatype CorpusDocument = CorpusDocument(
    contentHash: Hash,
    mediaType: string,
    sizeBytes: nat,
    metadata: Value,
    metadataHash: Hash,
    chunks: seq<CorpusChunk>)

  type Corpus = map<Path, CorpusDocument>

  function WithoutIds(rows: seq<ChunkRow>): seq<CorpusChunk> {
    seq(|rows|, i requires 0 <= i < |rows| =>
      CorpusChunk(rows[i].index, rows[i].text, rows[i].contentHash, rows[i].model, rows[i].vector))
  }

  function CorpusRow(row: DocumentRow, rows: seq<ChunkRow>): CorpusDocument {
    CorpusDocument(row.contentHash, row.mediaType, row.sizeBytes, row.metadata, row.metadataHash, WithoutIds(rows))
  }

  function CorpusOf(t: Tables): Corpus {
    map p | p in t.documents :: CorpusRow(t.documents[p], RowsOf(t.chunks, t.documents[p].id))
  }

  function StoredDocument(item: ScannedDocument, chunks: seq<Chunk>, vectors: seq<Vector>,
                          model: string): CorpusDocument
    requires |chunks| == |vectors|
  {
    CorpusRow(RowOf(0, item), ChunkRows(0, chunks, vectors, model))
  }

  lemma DeleteTables(t: Tables, nextId: nat, path: Path)
    requires ValidTables(t, nextId) && path in t.documents
    ensures var t' := DeleteById(t, t.documents[path].id);
            && ValidTables(t', nextId) && t'.runs == t.runs
            && t'.documents == t.documents - {path}
            && |t'.chunks| == |t.chunks| - |RowsOf(t.chunks, t.documents[path].id)|
  {
    var id := t.documents[path].id;
    var t' := DeleteById(t, id);
    RowsSplit(t.chunks, id);
    assert t'.documents == t.documents - {path};
    forall i | 0 <= i < |t'.chunks| ensures HasDocument(t', t'.chunks[i].documentId) {
      assert t'.chunks[i] in t'.chunks;
      assert t'.chunks[i] in t.chunks;
      var p :| p in t.documents && t.documents[p].id == t'.chunks[i].documentId;
      assert p in t'.documents;
    }
  }

  /** Deleting a stored document takes exactly it and its chunks out of the corpus. */
  lemma DeleteCorpus(t: Tables, nextId: nat, path: Path)
    requires ValidTables(t, nextId) && path in t.documents
    ensures CorpusOf(DeleteById(t, t.documents[path].id)) == CorpusOf(t) - {path}
  {
    var id := t.documents[path].id;
    var t' := DeleteById(t, id);
    assert t'.documents == t.documents - {path};
    forall p | p in t'.documents ensures RowsOf(t'.chunks, t.documents[p].id) == RowsOf(t.chunks, t.documents[p].id) {
      RowsOfOther(t.chunks, id, t.documents[p].id);
    }
  }

  lemma NoRowsYet(t: Tables, nextId: nat, id: nat)
    requires ValidTables(t, nextId) && id >= nextId
    ensures forall i | 0 <= i < |t.chunks| :: t.chunks[i].documentId != id
    ensures RowsOf(t.chunks, id) == []
  {
    forall i | 0 <= i < |t.chunks| ensures t.chunks[i].documentId != id {
      assert HasDocument(t, t.chunks[i].documentId);
    }
    RowsOfNone(t.chunks, id);
  }

  lemma CorpusOfInserted(t: Tables, nextId: nat, item: ScannedDocument, rows: seq<ChunkRow>)
    requires ValidTables(t, nextId) && item.path !in t.documents
    requires forall i | 0 <= i < |rows| :: rows[i].documentId == nextId
    ensures CorpusOf(InsertChunks(InsertDocument(t, nextId, item), rows))
         == CorpusOf(t)[item.path := CorpusRow(RowOf(nextId, item), rows)]
  {
    hide RowsOf, CorpusRow;
    var t' := InsertChunks(InsertDocument(t, nextId, item), rows);
    NoRowsYet(t, nextId, nextId);
    forall p | p in t'.documents
      ensures RowsOf(t'.chunks, t'.documents[p].id)
           == if p == item.path then rows else RowsOf(t.chunks, t.documents[p].id)
    {
      RowsOfAppend(t.chunks, rows, t'.documents[p].id);
      RowsOfUniform(rows, nextId, t'.documents[p].id);
    }
  }

  /** Inserting a document with a fresh id at a path not in use puts exactly it into the corpus. */
  lemma InsertCorpus(t: Tables, nextId: nat, item: ScannedDocument, chunks: seq<Chunk>, vectors: seq<Vector>,
                     model: string)
    requires ValidTables(t, nextId) && item.path !in t.documents && |chunks| == |vectors|
    ensures var t' := InsertChunks(InsertDocument(t, nextId, item), ChunkRows(nextId, chunks, vectors, model));
            && ValidTables(t', nextId + 1)
            && CorpusOf(t') == CorpusOf(t)[item.path := StoredDocument(item, chunks, vectors, model)]
  {
    var rows := ChunkRows(nextId, chunks, vectors, model);
    InsertIsValid(t, nextId, item, rows);
    CorpusOfInserted(t, nextId, item, rows);
    assert WithoutIds(rows) == WithoutIds(ChunkRows(0, chunks, vectors, model));
  }

  lemma InsertIsValid(t: Tables, nextId: nat, item: ScannedDocument, rows: seq<ChunkRow>)
    requires ValidTables(t, nextId) && item.path !in t.documents
    requires forall i | 0 <= i < |rows| :: rows[i].documentId == nextId
    ensures ValidTables(InsertDocument(t, nextId, item), nextId + 1)
    ensures ValidTables(InsertChunks(InsertDocument(t, nextId, item), rows), nextId + 1)
  {
    var t1 := InsertDocument(t, nextId, item);
    var t2 := InsertChunks(t1, rows);
    forall id | HasDocument(t, id) || id == nextId ensures HasDocument(t1, id) && HasDocument(t2, id) {
      if id == nextId {
        assert t1.documents[item.path].id == id;
      } else {
        var p :| p in t.documents && t.documents[p].id == id;
        assert p in t1.documents && t1.documents[p].id == id;
      }
    }
    forall i | 0 <= i < |t2.chunks| ensures HasDocument(t2, t2.chunks[i].documentId) {
      assert t2.chunks[i] == if i < |t.chunks| then t.chunks[i] else rows[i - |t.chunks|];
    }
  }

  function WithMetadata(row: DocumentRow, metadata: Value, metadataHash: Hash): DocumentRow {
    row.(metadata := metadata, metadataHash := metadataHash)
  }

  lemma UpdateTables(t: Tables, nextId: nat, path: Path, metadata: Value, metadataHash: Hash)
    requires ValidTables(t, nextId) && path in t.documents
    ensures var t' := UpdateMetadata(t, t.documents[path].id, metadata, metadataHash);
            && ValidTables(t', nextId) && t'.chunks == t.chunks && t'.runs == t.runs
            && t'.documents == t.documents[path := WithMetadata(t.documents[path], metadata, metadataHash)]
  {
    var t' := UpdateMetadata(t, t.documents[path].id, metadata, metadataHash);
    assert t'.documents == t.documents[path := WithMetadata(t.documents[path], metadata, metadataHash)];
    forall i | 0 <= i < |t'.chunks| ensures HasDocument(t', t'.chunks[i].documentId) {
      var p :| p in t.documents && t.documents[p].id == t.chunks[i].documentId;
      assert p in t'.documents && t'.documents[p].id == t.chunks[i].documentId;
    }
  }

  /** A metadata update changes the metadata of one document and nothing else, chunks and id included. */
  lemma UpdateCorpus(t: Tables, nextId: nat, path: Path, metadata: Value, metadataHash: Hash)
    requires ValidTables(t, nextId) && path in t.documents
    ensures var t' := UpdateMetadata(t, t.documents[path].id, metadata, metadataHash);
            CorpusOf(t') == CorpusOf(t)[path := CorpusOf(t)[path].(metadata := metadata, metadataHash := metadataHash)]
  {
  }
}
