/** `S3DocumentSource` against a bucket that may answer every request differently. */
module S3Source {
  import opened Strings
  import opened CanonicalJson
  import opened Models
  import opened SourceDiffing
  import opened SafePaths
  import Manifest

  type Bytes = seq<bv8>

  /** What the source takes from libraries: SHA-256, the list of supported suffixes, media types, the hash of
      metadata, decoding a manifest, and extracting the text of a document. */
  datatype Environment = Environment(
    sha: Bytes -> Hash,
    supported: Path -> bool,
    mediaType: Path -> string,
    metadataHash: Value -> Hash,
    decodeJson: Bytes -> Option<Json>,
    extractText: (Bytes, Path) -> Option<string>)

  datatype S3Object = S3Object(key: string, etag: Option<string>)

  datatype Entry = Entry(key: Option<string>, etag: Option<string>) | MalformedEntry

  datatype Page = Page(contents: seq<Entry>) | MalformedPage

  /** What each request, numbered in order, is answered with; None is an error. */
  datatype Replies = Replies(
    listings: nat -> Option<seq<Page>>,
    answers: (nat, string, Option<string>) -> Option<Bytes>)

  /** The bucket, which answers as it likes. */
  class Bucket {
    const replies: Replies
    var requests: nat

    constructor (replies: Replies)
      ensures this.replies == replies && requests == 0
    {
      this.replies, requests := replies, 0;
    }

    method List() returns (pages: Option<seq<Page>>)
      modifies this
      ensures pages == replies.listings(old(requests)) && requests == old(requests) + 1
    {
      pages := replies.listings(requests);
      requests := requests + 1;
    }

    method Get(key: string, ifMatch: Option<string>) returns (content: Option<Bytes>)
      modifies this
      ensures content == replies.answers(old(requests), key, ifMatch) && requests == old(requests) + 1
    {
      content := replies.answers(requests, key, ifMatch);
      requests := requests + 1;
    }
  }

  // ---------- Listing ----------

  const METADATA_FILENAME := ".ragpipe-metadata.json"

  datatype Listing = Listing(objects: map<Path, S3Object>, manifest: Option<S3Object>)

  function ListPrefix(prefix: string): string {
    if prefix != "" then prefix + "/" else ""
  }

  /** `_relative_path`; None is its S3SourceError. */
  function RelativePath(prefix: string, key: string): Option<Path> {
    var lead := ListPrefix(prefix);
    if !(lead <= key) then None
    else
      var relative := key[|lead|..];
      if SafePath(relative) && !Contains(relative, "//") then Some(Path(relative)) else None
  }

  predicate Skipped(key: Option<string>) {
    key.None? || key.value == "" || key.value[|key.value| - 1] == '/'
  }

  /** One entry of the listing. */
  function TakeEntry(env: Environment, prefix: string, found: Listing, entry: Entry): Option<Listing> {
    match entry
    case MalformedEntry => None
    case Entry(key, etag) =>
      if Skipped(key) then Some(found)
      else
        var item := S3Object(key.value, etag);
        if key.value == ListPrefix(prefix) + METADATA_FILENAME then Some(found.(manifest := Some(item)))
        else
          var path := RelativePath(prefix, key.value);
          if path.None? then None
          else if !env.supported(path.value) then Some(found)
          else Some(found.(objects := found.objects[path.value := item]))
  }

  function Discover(env: Environment, prefix: string, entries: seq<Entry>): Option<Listing> {
    if entries == [] then Some(Listing(map[], None))
    else
      var before := Discover(env, prefix, entries[..|entries| - 1]);
      if before.None? then None else TakeEntry(env, prefix, before.value, entries[|entries| - 1])
  }

  function EntriesOf(pages: seq<Page>): seq<Entry> {
    if pages == [] then []
    else
      var last := pages[|pages| - 1];
      EntriesOf(pages[..|pages| - 1]) + (if last.Page? then last.contents else [MalformedEntry])
  }

  /** The entry is an object of the source with the given relative path. */
  predicate IsDocument(env: Environment, prefix: string, entry: Entry, p: Path) {
    && entry.Entry? && !Skipped(entry.key) && entry.key.value == ListPrefix(prefix) + p.text
    && p.text != METADATA_FILENAME && SafePath(p.text) && env.supported(p)
  }

  /** The listing holds exactly the supported documents, each under its path below the prefix; the manifest
      is not one of them. */
  lemma {:induction false} DiscoveredDocuments(env: Environment, prefix: string, entries: seq<Entry>)
    requires Discover(env, prefix, entries).Some?
    ensures var objects := Discover(env, prefix, entries).value.objects;
            && (forall p :: p in objects <==> exists i | 0 <= i < |entries| :: IsDocument(env, prefix, entries[i], p))
            && (forall p | p in objects :: objects[p].key == ListPrefix(prefix) + p.text)
  {
    hide SafePath, Contains, Skipped;
    if entries != [] {
      var n := |entries| - 1;
      DiscoveredDocuments(env, prefix, entries[..n]);
      var before := Discover(env, prefix, entries[..n]).value;
      OneEntry(env, prefix, before, entries[n]);
      assert entries == entries[..n] + [entries[n]];
    }
  }

  lemma OneEntry(env: Environment, prefix: string, found: Listing, entry: Entry)
    requires TakeEntry(env, prefix, found, entry).Some?
    ensures var objects := TakeEntry(env, prefix, found, entry).value.objects;
            && (forall p :: p in objects <==> p in found.objects || IsDocument(env, prefix, entry, p))
            && (forall p | p in objects && (p !in found.objects || objects[p] != found.objects[p]) ::
                  objects[p].key == ListPrefix(prefix) + p.text)
  {
    hide SafePath, Contains;
    if entry.Entry? && !Skipped(entry.key) {
      var lead, key := ListPrefix(prefix), entry.key.value;
      forall p: Path | key == lead + p.text ensures lead <= key && key[|lead|..] == p.text {}
      if lead <= key {
        assert key == lead + key[|lead|..];
        if SafePath(key[|lead|..]) { NoDoubleSlash(key[|lead|..]); }
      }
    }
  }

  // ---------- Scanning and loading ----------

  /** What request n answers when it reads an object: the version that was listed, if the listing gave an etag. */
  function ReadAt(replies: Replies, n: nat, item: S3Object): Option<Bytes> {
    replies.answers(n, item.key, if item.etag == Some("") then None else item.etag)
  }

  function ListingAt(env: Environment, prefix: string, replies: Replies, n: nat): Option<Listing> {
    var pages := replies.listings(n);
    if pages.None? then None else Discover(env, prefix, EntriesOf(pages.value))
  }

  /** The manifest's metadata; a source without manifest has none. */
  function ManifestAt(env: Environment, replies: Replies, n: nat, manifest: Option<S3Object>)
    : Option<map<Path, Value>>
  {
    if manifest.None? then Some(map[])
    else
      var content := ReadAt(replies, n, manifest.value);
      var payload := if content.None? then None else env.decodeJson(content.value);
      if payload.None? then None else Manifest.Metadata(payload.value)
  }

  /** The scanned document for some content that was read. */
  function Describe(env: Environment, p: Path, content: Bytes, metadata: Value): ScannedDocument {
    ScannedDocument(p, env.sha(content), |content|, env.mediaType(p), metadata, env.metadataHash(metadata))
  }

  const EMPTY_METADATA := VObj(map[])

  /** `metadata_by_path.get(path, {})` */
  function MetadataFor(metadata: map<Path, Value>, p: Path): Value {
    if p in metadata then metadata[p] else EMPTY_METADATA
  }

  /** Request n + i reads the i-th document in path order, and all of them succeed. */
  ghost predicate AllRead(replies: Replies, n: nat, objects: map<Path, S3Object>) {
    forall i | 0 <= i < |objects| :: ReadAt(replies, n + i, objects[SortedPaths(objects.Keys)[i]]).Some?
  }

  /** The i-th document is described by the bytes that request n + i was answered with, and carries its metadata
      from the manifest. */
  ghost predicate DescribedAt(env: Environment, replies: Replies, n: nat, objects: map<Path, S3Object>,
                              metadata: map<Path, Value>, i: nat, scan: Scan)
    requires i < |objects|
  {
    var p := SortedPaths(objects.Keys)[i];
    var content := ReadAt(replies, n + i, objects[p]);
    content.Some? && p in scan && scan[p] == Describe(env, p, content.value, MetadataFor(metadata, p))
  }

  /** The scan describes every document, each by its own request. */
  ghost predicate Describes(env: Environment, replies: Replies, n: nat, objects: map<Path, S3Object>,
                            metadata: map<Path, Value>, scan: Scan) {
    && scan.Keys == objects.Keys
    && forall i | 0 <= i < |objects| :: DescribedAt(env, replies, n, objects, metadata, i, scan)
  }

  /** The request that reads the first document of a scan that starts with request n. */
  function FirstRead(n: nat, manifest: Option<S3Object>): nat {
    n + 1 + (if manifest.None? then 0 else 1)
  }

  /** What a scan needs: a listing, a manifest that speaks of listed documents only, and every document. */
  ghost predicate CanScan(env: Environment, prefix: string, replies: Replies, n: nat) {
    var listing := ListingAt(env, prefix, replies, n);
    && listing.Some?
    && var metadata := ManifestAt(env, replies, n + 1, listing.value.manifest);
    && metadata.Some? && metadata.value.Keys <= listing.value.objects.Keys
    && AllRead(replies, FirstRead(n, listing.value.manifest), listing.value.objects)
  }

  /** The scan that starts with request n finds these objects and describes them like this. */
  ghost predicate Scans(env: Environment, prefix: string, replies: Replies, n: nat,
                        objects: map<Path, S3Object>, scan: Scan) {
    && CanScan(env, prefix, replies, n)
    && var listing := ListingAt(env, prefix, replies, n).value;
    && objects == listing.objects
    && Describes(env, replies, FirstRead(n, listing.manifest), objects,
                 ManifestAt(env, replies, n + 1, listing.manifest).value, scan)
  }

  /** The request that follows a scan which starts with request n and goes through. */
  function NextAfterScan(env: Environment, prefix: string, replies: Replies, n: nat): nat {
    var listing := ListingAt(env, prefix, replies, n);
    if listing.None? then n + 1 else FirstRead(n, listing.value.manifest) + |listing.value.objects|
  }

  /** What `load` returns when request n reads the document. */
  function LoadAt(env: Environment, replies: Replies, n: nat, objects: map<Path, S3Object>, document: ScannedDocument)
    : Option<string>
  {
    if document.path !in objects then None
    else
      var content := ReadAt(replies, n, objects[document.path]);
      if content.None? || env.sha(content.value) != document.contentHash then None
      else env.extractText(content.value, document.path)
  }

  class S3DocumentSource {
    const prefix: string
    const env: Environment
    const bucket: Bucket
    var objects: map<Path, S3Object>

    constructor (prefix: string, env: Environment, bucket: Bucket)
      ensures this.prefix == prefix && this.env == env && this.bucket == bucket && objects == map[]
    {
      this.prefix, this.env, this.bucket, objects := prefix, env, bucket, map[];
    }

    /** `_read_object` */
    method ReadObject(item: S3Object) returns (content: Option<Bytes>)
      modifies bucket
      ensures content == ReadAt(bucket.replies, old(bucket.requests), item)
      ensures bucket.requests == old(bucket.requests) + 1
    {
      content := bucket.Get(item.key, if item.etag == Some("") then None else item.etag);
    }

    /** The listing loop of `scan`. */
    method ListDocuments(pages: seq<Page>) returns (found: Option<Listing>)
      ensures found == Discover(env, prefix, EntriesOf(pages))
    {
      hide TakeEntry, Discover, EntriesOf;
      var listing := Listing(map[], None);
      NothingListed(env, prefix, pages);
      for i := 0 to |pages|
        invariant Discover(env, prefix, EntriesOf(pages[..i])) == Some(listing)
      {
        ghost var before := EntriesOf(pages[..i]);
        EntriesNext(pages, i);
        if pages[i].MalformedPage? {
          DiscoverNext(env, prefix, before, MalformedEntry);
          MalformedFails(env, prefix, listing);
          DiscoverFails(env, prefix, before + [MalformedEntry], pages, i + 1);
          return None;
        }
        var contents := pages[i].contents;
        assert before + contents[..0] == before;
        for j := 0 to |contents|
          invariant Discover(env, prefix, before + contents[..j]) == Some(listing)
        {
          DiscoverNext(env, prefix, before + contents[..j], contents[j]);
          assert before + contents[..j + 1] == before + contents[..j] + [contents[j]];
          var next := TakeEntry(env, prefix, listing, contents[j]);
          if next.None? {
            DiscoverFailsEarly(env, prefix, before + contents[..j + 1], contents[j + 1..]);
            assert before + contents[..j + 1] + contents[j + 1..] == before + contents;
            DiscoverFails(env, prefix, before + contents, pages, i + 1);
            return None;
          }
          listing := next.value;
        }
        assert contents[..|contents|] == contents;
      }
      assert pages[..|pages|] == pages;
      found := Some(listing);
    }

    /** The loop of `scan` that reads every document once, in path order. */
    method ReadDocuments(discovered: map<Path, S3Object>, metadata: map<Path, Value>) returns (scanned: Option<Scan>)
      modifies bucket
      ensures scanned.Some? <==> AllRead(bucket.replies, old(bucket.requests), discovered)
      ensures scanned.Some? ==>
                && bucket.requests == old(bucket.requests) + |discovered|
                && Describes(env, bucket.replies, old(bucket.requests), discovered, metadata, scanned.value)
    {
      hide PathLe, MetadataFor, ReadAt, Describe, DescribesUpTo, AllRead, Describes;
      var paths := SortedPaths(discovered.Keys);
      ghost var replies, start := bucket.replies, bucket.requests;
      var result: Scan := map[];
      NothingDescribed(env, replies, start, discovered, metadata);
      for i := 0 to |paths|
        invariant bucket.requests == start + i
        invariant DescribesUpTo(env, replies, start, discovered, metadata, i, result)
      {
        var p := paths[i];
        var content := ReadObject(discovered[p]);
        if content.None? {
          OneUnread(replies, start, discovered, i);
          return None;
        }
        OneMoreDescribed(env, replies, start, discovered, metadata, i, result);
        result := result[p := Describe(env, p, content.value, MetadataFor(metadata, p))];
      }
      AllDescribed(env, replies, start, discovered, metadata, result);
      scanned := Some(result);
    }

    /** The manifest part of `scan`. */
    method ReadManifest(manifest: Option<S3Object>) returns (metadata: Option<map<Path, Value>>)
      modifies bucket
      ensures metadata == ManifestAt(env, bucket.replies, old(bucket.requests), manifest)
      ensures bucket.requests == old(bucket.requests) + (if manifest.None? then 0 else 1)
    {
      if manifest.None? {
        return Some(map[]);
      }
      var content := ReadObject(manifest.value);
      if content.None? {
        return None;
      }
      var payload := env.decodeJson(content.value);
      if payload.None? {
        return None;
      }
      metadata := Manifest.ParseManifest(payload.value);
    }

    /** `scan`: it succeeds exactly when everything it needs is answered, and only then are the known objects
        replaced. */
    method Scan() returns (scanned: Option<Scan>)
      modifies this, bucket
      ensures scanned.Some? <==> CanScan(env, prefix, bucket.replies, old(bucket.requests))
      ensures scanned.Some? ==> Scans(env, prefix, bucket.replies, old(bucket.requests), objects, scanned.value)
      ensures scanned.None? ==> objects == old(objects)
      ensures scanned.Some? ==>
                bucket.requests == NextAfterScan(env, prefix, bucket.replies, old(bucket.requests))
    {
      hide AllRead, Describes, Discover, EntriesOf, ManifestAt, CanScan, Scans;
      ghost var replies, start := bucket.replies, bucket.requests;
      var pages := bucket.List();
      if pages.None? {
        NoListing(env, prefix, replies, start);
        return None;
      }
      var found := ListDocuments(pages.value);
      if found.None? {
        NoListing(env, prefix, replies, start);
        return None;
      }
      var discovered := found.value.objects;
      ScanOfListing(env, prefix, replies, start, found.value);
      var metadata := ReadManifest(found.value.manifest);
      if metadata.None? {
        return None;
      }
      NothingUnknown(metadata.value.Keys, discovered.Keys);
      if metadata.value.Keys - discovered.Keys != {} {
        return None;
      }
      scanned := ReadDocuments(discovered, metadata.value);
      if scanned.Some? {
        objects := discovered;
      }
    }

    /** `load` */
    method Load(document: ScannedDocument) returns (text: Option<string>)
      modifies bucket
      ensures text == LoadAt(env, bucket.replies, old(bucket.requests), objects, document)
      ensures bucket.requests == old(bucket.requests) + (if document.path in objects then 1 else 0)
    {
      if document.path !in objects {
        return None;
      }
      var content := ReadObject(objects[document.path]);
      if content.None? {
        return None;
      }
      if env.sha(content.value) != document.contentHash {
        return None;
      }
      text := env.extractText(content.value, document.path);
    }
  }

  /** The first i documents are read and described. */
  ghost predicate DescribesUpTo(env: Environment, replies: Replies, n: nat, objects: map<Path, S3Object>,
                                metadata: map<Path, Value>, i: nat, scan: Scan)
    requires i <= |objects|
  {
    && (forall p :: p in scan <==> p in SortedPaths(objects.Keys)[..i])
    && forall k | 0 <= k < i :: DescribedAt(env, replies, n, objects, metadata, k, scan)
  }

  lemma NothingDescribed(env: Environment, replies: Replies, n: nat, objects: map<Path, S3Object>,
                         metadata: map<Path, Value>)
    ensures DescribesUpTo(env, replies, n, objects, metadata, 0, map[])
  {
  }

  lemma OneMoreDescribed(env: Environment, replies: Replies, n: nat, objects: map<Path, S3Object>,
                         metadata: map<Path, Value>, i: nat, scan: Scan)
    requires i < |objects| && DescribesUpTo(env, replies, n, objects, metadata, i, scan)
    requires ReadAt(replies, n + i, objects[SortedPaths(objects.Keys)[i]]).Some?
    ensures var p := SortedPaths(objects.Keys)[i];
            var content := ReadAt(replies, n + i, objects[p]).value;
            DescribesUpTo(env, replies, n, objects, metadata, i + 1,
                          scan[p := Describe(env, p, content, MetadataFor(metadata, p))])
  {
    hide ReadAt, Describe, MetadataFor, SortedPaths, DescribedAt;
    var paths := SortedPaths(objects.Keys);
    var p := paths[i];
    var next := scan[p := Describe(env, p, ReadAt(replies, n + i, objects[p]).value, MetadataFor(metadata, p))];
    OneMorePath(paths, i);
    forall k | 0 <= k <= i ensures DescribedAt(env, replies, n, objects, metadata, k, next) {
      StillDescribed(env, replies, n, objects, metadata, i, k, scan);
    }
  }

  lemma StillDescribed(env: Environment, replies: Replies, n: nat, objects: map<Path, S3Object>,
                       metadata: map<Path, Value>, i: nat, k: nat, scan: Scan)
    requires k <= i < |objects| && (k == i || DescribedAt(env, replies, n, objects, metadata, k, scan))
    requires ReadAt(replies, n + i, objects[SortedPaths(objects.Keys)[i]]).Some?
    ensures var p := SortedPaths(objects.Keys)[i];
            var content := ReadAt(replies, n + i, objects[p]).value;
            DescribedAt(env, replies, n, objects, metadata, k,
                        scan[p := Describe(env, p, content, MetadataFor(metadata, p))])
  {
    hide ReadAt, Describe, MetadataFor, SortedPaths;
    SortedPathsAscend(objects.Keys);
  }

  lemma OneMorePath(paths: seq<Path>, i: nat)
    requires i < |paths|
    ensures forall p :: p in paths[..i + 1] <==> p in paths[..i] || p == paths[i]
  {
    assert paths[..i + 1] == paths[..i] + [paths[i]];
  }

  lemma OneUnread(replies: Replies, n: nat, objects: map<Path, S3Object>, i: nat)
    requires i < |objects| && ReadAt(replies, n + i, objects[SortedPaths(objects.Keys)[i]]).None?
    ensures !AllRead(replies, n, objects)
  {
  }

  lemma AllDescribed(env: Environment, replies: Replies, n: nat, objects: map<Path, S3Object>,
                     metadata: map<Path, Value>, scan: Scan)
    requires DescribesUpTo(env, replies, n, objects, metadata, |objects|, scan)
    ensures AllRead(replies, n, objects) && Describes(env, replies, n, objects, metadata, scan)
  {
    hide ReadAt, Describe, MetadataFor, SortedPaths;
    var paths := SortedPaths(objects.Keys);
    assert paths[..|objects|] == paths;
    forall i | 0 <= i < |objects| ensures ReadAt(replies, n + i, objects[paths[i]]).Some? {
      assert DescribedAt(env, replies, n, objects, metadata, i, scan);
    }
  }

  lemma NothingUnknown(a: set<Path>, b: set<Path>)
    ensures a - b == {} <==> a <= b
  {
    forall p | a - b == {} && p in a ensures p in b { assert p !in a - b; }
  }

  lemma NoListing(env: Environment, prefix: string, replies: Replies, n: nat)
    requires ListingAt(env, prefix, replies, n).None?
    ensures !CanScan(env, prefix, replies, n)
  {
  }

  lemma ScanOfListing(env: Environment, prefix: string, replies: Replies, n: nat, listing: Listing)
    requires ListingAt(env, prefix, replies, n) == Some(listing)
    ensures var metadata := ManifestAt(env, replies, n + 1, listing.manifest);
            var first := FirstRead(n, listing.manifest);
            && (CanScan(env, prefix, replies, n) <==>
                metadata.Some? && metadata.value.Keys <= listing.objects.Keys
                && AllRead(replies, first, listing.objects))
            && (CanScan(env, prefix, replies, n) ==>
                forall scan | Describes(env, replies, first, listing.objects, metadata.value, scan) ::
                  Scans(env, prefix, replies, n, listing.objects, scan))
  {
    hide ListingAt, ManifestAt, AllRead, Describes;
  }

  lemma NothingListed(env: Environment, prefix: string, pages: seq<Page>)
    ensures Discover(env, prefix, EntriesOf(pages[..0])) == Some(Listing(map[], None))
  {
  }

  lemma EntriesNext(pages: seq<Page>, i: nat)
    requires i < |pages|
    ensures EntriesOf(pages[..i + 1])
         == EntriesOf(pages[..i]) + (if pages[i].Page? then pages[i].contents else [MalformedEntry])
  {
    assert pages[..i + 1][..i] == pages[..i];
  }

  lemma DiscoverNext(env: Environment, prefix: string, entries: seq<Entry>, entry: Entry)
    ensures Discover(env, prefix, entries + [entry])
         == (if Discover(env, prefix, entries).None? then None
             else TakeEntry(env, prefix, Discover(env, prefix, entries).value, entry))
  {
    hide TakeEntry;
    assert (entries + [entry])[..|entries|] == entries;
  }

  lemma MalformedFails(env: Environment, prefix: string, found: Listing)
    ensures TakeEntry(env, prefix, found, MalformedEntry).None?
  {
  }

  lemma {:induction false} DiscoverFailsEarly(env: Environment, prefix: string, entries: seq<Entry>, more: seq<Entry>)
    requires Discover(env, prefix, entries).None?
    ensures Discover(env, prefix, entries + more).None?
    decreases |more|
  {
    hide TakeEntry;
    if more == [] {
      assert entries + more == entries;
    } else {
      DiscoverFailsEarly(env, prefix, entries, more[..|more| - 1]);
      assert (entries + more)[..|entries + more| - 1] == entries + more[..|more| - 1];
    }
  }

  lemma {:induction false} EntriesOfSplits(pages: seq<Page>, n: nat) returns (more: seq<Entry>)
    requires n <= |pages|
    ensures EntriesOf(pages) == EntriesOf(pages[..n]) + more
  {
    if n == |pages| {
      more := [];
      assert pages[..n] == pages;
    } else {
      var k := |pages| - 1;
      more := EntriesOfSplits(pages[..k], n);
      assert pages[..k][..n] == pages[..n];
      var last := if pages[k].Page? then pages[k].contents else [MalformedEntry];
      assert EntriesOf(pages) == EntriesOf(pages[..n]) + more + last;
      more := more + last;
    }
  }

  /** A listing that fails within its first pages fails altogether. */
  lemma DiscoverFails(env: Environment, prefix: string, entries: seq<Entry>, pages: seq<Page>, n: nat)
    requires n <= |pages| && EntriesOf(pages[..n]) == entries && Discover(env, prefix, entries).None?
    ensures Discover(env, prefix, EntriesOf(pages)).None?
  {
    hide TakeEntry;
    var more := EntriesOfSplits(pages, n);
    DiscoverFailsEarly(env, prefix, entries, more);
  }
}
