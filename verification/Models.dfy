/** The records that ragpipe's components exchange. */
module Models {
  import opened CanonicalJson

  /** A document's stable path relative to the root of its source. */
  datatype Path = Path(text: string)

  /** A SHA-256 digest. */
  datatype Hash = Hash(hex: string)

  type Vector = seq<real>

  datatype Chunk = Chunk(index: nat, text: string, contentHash: Hash)

  /** A document found by a scan. Its metadata is a Python dict: a JSON object up to key order, without NaN
      and infinity, which the scan has rejected. */
  datatype ScannedDocument = ScannedDocument(
    path: Path,
    contentHash: Hash,
    sizeBytes: nat,
    mediaType: string,
    metadata: Value,
    metadataHash: Hash)

  datatype DocumentState = DocumentState(id: nat, path: Path, contentHash: Hash, metadataHash: Hash)

  datatype SourceDiff = SourceDiff(
    newItems: seq<ScannedDocument>,
    changedItems: seq<ScannedDocument>,
    deletedStates: seq<DocumentState>,
    unchangedItems: seq<ScannedDocument>,
    metadataItems: seq<ScannedDocument>)

  datatype Status = Succeeded | Failed

  /** A row of `sync_runs`, without times and error text. */
  datatype RunRecord = RunRecord(
    runId: nat,
    source: string,
    status: Status,
    newDocuments: nat,
    changedDocuments: nat,
    metadataChangedDocuments: nat,
    deletedDocuments: nat,
    unchangedDocuments: nat,
    embeddedChunks: nat,
    deletedChunks: nat,
    scannedDocuments: nat,
    scannedBytes: nat,
    embeddingBatches: nat)
}
