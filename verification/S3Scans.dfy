/** What a scan of a bucket takes from the listing, from the manifest and from each object: stated by entries of the
    listing and by answers to single requests. */
module S3Scans {
  import opened Strings
  import opened Sorting
  import opened CanonicalJson
  import opened Models
  import opened SourceDiffing
  import opened SafePaths
  import Manifest
  import opened S3Source

  // ---------- Entries ----------

  /** How the keys of the source begin. */
  function Below(prefix: string): string {
    if prefix == "" then "" else prefix + "/"
  }

  predicate IsManifest(prefix: string, entry: Entry) {
    entry.Entry? && entry.key == Some(Below(prefix) + ".ragpipe-metadata.json")
  }

  predicate IsObjectOf(env: Environment, prefix: string, entry: Entry, p: Path) {
    && entry.Entry? && entry.key == Some(Below(prefix) + p.text)
    && p.text != ".ragpipe-metadata.json" && SafePath(p.text) && env.supported(p)
  }

  /** The entry does not make the listing fail: it has no key or the key of a folder, and is passed over; it is the
      manifest; or its key is a safe path below the prefix. */
  predicate Listable(prefix: string, entry: Entry) {
    && entry.Entry?
    && (entry.key.Some? && entry.key.value != "" && entry.key.value[|entry.key.value| - 1] != '/' ==>
          var key := entry.key.value;
          IsManifest(prefix, entry) || (Below(prefix) <= key && SafePath(key[|Below(prefix)|..])))
  }

  /** Entry i is the last one that is the manifest. */
  predicate LastManifest(prefix: string, entries: seq<Entry>, i: nat) {
    i < |entries| && IsManifest(prefix, entries[i]) && forall k | i < k < |entries| :: !IsManifest(prefix, entries[k])
  }

  /** Entry i is the last one for the document. */
  predicate LastObject(env: Environment, prefix: string, entries: seq<Entry>, p: Path, i: nat) {
    && i < |entries| && IsObjectOf(env, prefix, entries[i], p)
    && forall k | i < k < |entries| :: !IsObjectOf(env, prefix, entries[k], p)
  }

  predicate HasManifest(prefix: string, entries: seq<Entry>) {
    exists i | 0 <= i < |entries| :: IsManifest(prefix, entries[i])
  }

  predicate HasObject(env: Environment, prefix: string, entries: seq<Entry>, p: Path) {
    exists i | 0 <= i < |entries| :: IsObjectOf(env, prefix, entries[i], p)
  }

  /** The entries of all pages in order; a page without a list of entries counts as one malformed entry. */
  lemma {:induction false} EntriesSplit(a: seq<Page>, b: seq<Page>)
    ensures EntriesOf(a + b) == EntriesOf(a) + EntriesOf(b)
    ensures |b| == 1 ==> EntriesOf(b) == if b[0].Page? then b[0].contents else [MalformedEntry]
    decreases |b|
  {
    hide EntriesOf;
    NoPages(a);
    if b == [] {
      assert a + b == a;
    } else {
      var n := |b| - 1;
      EntriesSplit(a, b[..n]);
      EntriesNext(a + b, |a| + n);
      EntriesNext(b, n);
      assert b[..n + 1] == b && (n == 0 ==> b[..n] == []);
      assert (a + b)[..|a| + n] == a + b[..n] && (a + b)[..|a| + n + 1] == a + b;
    }
  }

  lemma NoPages(pages: seq<Page>)
    ensures EntriesOf([]) == [] && EntriesOf(pages) + [] == EntriesOf(pages)
  {
  }

  lemma {:induction false} JoinEnds(parts: seq<string>)
    requires parts != [] && forall i | 0 <= i < |parts| :: parts[i] != "" && '/' !in parts[i]
    ensures Join(parts, "/") != "" && Join(parts, "/")[|Join(parts, "/")| - 1] != '/'
  {
    if |parts| > 1 { JoinEnds(parts[1..]); }
  }

  lemma SafeIsNoFolder(path: string)
    requires SafePath(path)
    ensures path != "" && path[|path| - 1] != '/'
  {
    hide KeptParts, SplitOn, Join;
    KeptPartsShrink(SplitOn(path, "/"));
    PartsHaveNoSlash(path);
    if Parts(path) != [] {
      assert forall i | 0 <= i < |Parts(path)| :: Parts(path)[i] in Parts(path);
      JoinEnds(Parts(path));
    }
  }

  // ---------- One entry ----------

  /** What the keys of entries are, in the listing's own terms. */
  lemma KeysOfEntries(env: Environment, prefix: string, entry: Entry, p: Path)
    requires entry.Entry? && entry.key.Some?
    ensures var lead, key := ListPrefix(prefix), entry.key.value;
            && lead == Below(prefix)
            && (IsManifest(prefix, entry) <==> !Skipped(entry.key) && key == lead + METADATA_FILENAME)
            && (IsObjectOf(env, prefix, entry, p) <==>
                && !Skipped(entry.key) && key != lead + METADATA_FILENAME
                && RelativePath(prefix, key) == Some(p) && env.supported(p))
            && (RelativePath(prefix, key).Some? <==> lead <= key && SafePath(key[|lead|..]))
  {
    hide SafePath, Contains;
    var lead, key := Below(prefix), entry.key.value;
    if key == lead + p.text { assert lead <= key && key[|lead|..] == p.text; }
    if lead <= key {
      assert key == lead + key[|lead|..];
      if SafePath(key[|lead|..]) {
        NoDoubleSlash(key[|lead|..]);
        SafeIsNoFolder(key[|lead|..]);
      }
    }
  }

  /** What one entry does to a listing. */
  lemma EntryEffect(env: Environment, prefix: string, found: Listing, entry: Entry, p: Path)
    ensures TakeEntry(env, prefix, found, entry).Some? <==> Listable(prefix, entry)
    ensures TakeEntry(env, prefix, found, entry).Some? ==>
              var next := TakeEntry(env, prefix, found, entry).value;
              && next.manifest == (if IsManifest(prefix, entry) then Some(S3Object(entry.key.value, entry.etag))
                                   else found.manifest)
              && (if IsObjectOf(env, prefix, entry, p)
                  then p in next.objects && next.objects[p] == S3Object(entry.key.value, entry.etag)
                  else SameAt(found.objects, next.objects, p))
  {
    hide SafePath, Contains, RelativePath, ListPrefix, Below;
    if entry.Entry? && entry.key.Some? { KeysOfEntries(env, prefix, entry, p); }
  }

  predicate SameAt(a: map<Path, S3Object>, b: map<Path, S3Object>, p: Path) {
    (p in a <==> p in b) && (p in a ==> a[p] == b[p])
  }

  // ---------- The listing ----------

  /** The listing fails exactly when some entry makes it fail. */
  lemma {:induction false} ListingSucceeds(env: Environment, prefix: string, entries: seq<Entry>)
    ensures Discover(env, prefix, entries).Some? <==> forall i | 0 <= i < |entries| :: Listable(prefix, entries[i])
  {
    hide TakeEntry, Listable;
    if entries != [] {
      var n := |entries| - 1;
      ListingSucceeds(env, prefix, entries[..n]);
      assert forall k | 0 <= k < n :: entries[..n][k] == entries[k];
      if Discover(env, prefix, entries[..n]).Some? {
        EntryEffect(env, prefix, Discover(env, prefix, entries[..n]).value, entries[n], Path(""));
      }
    }
  }

  /** The manifest of a listing is its last manifest entry, with the etag that is listed there; there is none
      exactly when there is no such entry. */
  lemma {:induction false} ManifestIsLast(env: Environment, prefix: string, entries: seq<Entry>)
    requires Discover(env, prefix, entries).Some?
    ensures Discover(env, prefix, entries).value.manifest.Some? <==> HasManifest(prefix, entries)
    ensures forall i: nat | LastManifest(prefix, entries, i) ::
              Discover(env, prefix, entries).value.manifest
              == Some(S3Object(Below(prefix) + ".ragpipe-metadata.json", entries[i].etag))
  {
    hide TakeEntry, Listable, IsObjectOf, SameAt, Below;
    if entries != [] {
      var n := |entries| - 1;
      ManifestIsLast(env, prefix, entries[..n]);
      EntryEffect(env, prefix, Discover(env, prefix, entries[..n]).value, entries[n], Path(""));
      assert forall k | 0 <= k < n :: entries[..n][k] == entries[k];
      forall i: nat | LastManifest(prefix, entries, i) && i < n ensures LastManifest(prefix, entries[..n], i) {}
    }
  }

  /** The objects of a listing are its documents, each with the etag of its last entry. */
  lemma {:induction false} ObjectIsLast(env: Environment, prefix: string, entries: seq<Entry>, p: Path)
    requires Discover(env, prefix, entries).Some?
    ensures var objects := Discover(env, prefix, entries).value.objects;
            && (p in objects <==> HasObject(env, prefix, entries, p))
            && forall i: nat | LastObject(env, prefix, entries, p, i) ::
                 p in objects && objects[p] == S3Object(Below(prefix) + p.text, entries[i].etag)
  {
    hide TakeEntry, SafePath;
    if entries != [] {
      var n := |entries| - 1;
      ObjectIsLast(env, prefix, entries[..n], p);
      EntryEffect(env, prefix, Discover(env, prefix, entries[..n]).value, entries[n], p);
      assert forall k | 0 <= k < n :: entries[..n][k] == entries[k];
      forall i: nat | LastObject(env, prefix, entries, p, i) && i < n
        ensures LastObject(env, prefix, entries[..n], p, i) {}
    }
  }

  lemma {:induction false} SomeLastManifest(prefix: string, entries: seq<Entry>)
    ensures HasManifest(prefix, entries) <==> exists i :: LastManifest(prefix, entries, i)
  {
    hide IsManifest;
    if entries != [] {
      var n := |entries| - 1;
      SomeLastManifest(prefix, entries[..n]);
      assert forall k | 0 <= k < n :: entries[..n][k] == entries[k];
      if IsManifest(prefix, entries[n]) {
        assert LastManifest(prefix, entries, n);
      } else if HasManifest(prefix, entries[..n]) {
        var i :| LastManifest(prefix, entries[..n], i);
        assert LastManifest(prefix, entries, i);
      }
    }
  }

  lemma {:induction false} SomeLastObject(env: Environment, prefix: string, entries: seq<Entry>, p: Path)
    ensures HasObject(env, prefix, entries, p) <==> exists i :: LastObject(env, prefix, entries, p, i)
  {
    hide IsObjectOf;
    if entries != [] {
      var n := |entries| - 1;
      SomeLastObject(env, prefix, entries[..n], p);
      assert forall k | 0 <= k < n :: entries[..n][k] == entries[k];
      if IsObjectOf(env, prefix, entries[n], p) {
        assert LastObject(env, prefix, entries, p, n);
      } else if HasObject(env, prefix, entries[..n], p) {
        var i :| LastObject(env, prefix, entries[..n], p, i);
        assert LastObject(env, prefix, entries, p, i);
      }
    }
  }

  // ---------- The manifest's members ----------

  /** Member i is the last one for the path. */
  predicate LastMember(members: seq<(string, Json)>, p: Path, i: nat) {
    i < |members| && members[i].0 == p.text && forall k | i < k < |members| :: members[k].0 != p.text
  }

  predicate HasMember(members: seq<(string, Json)>, p: Path) {
    exists i | 0 <= i < |members| :: members[i].0 == p.text
  }

  predicate GoodMember(member: (string, Json)) {
    SafePath(member.0) && member.1.Obj? && Serializable(member.1)
  }

  predicate GoodMembers(members: seq<(string, Json)>) {
    forall i | 0 <= i < |members| :: GoodMember(members[i])
  }

  lemma OneMember(member: (string, Json))
    ensures Manifest.EntryValue(member).Some? <==> GoodMember(member)
    ensures GoodMember(member) ==>
              Serializable(member.1) && Manifest.EntryValue(member) == Some(ToValue(member.1))
  {
    hide SafePath, Serializable, ToValue;
  }

  /** Every member must be good. */
  lemma {:induction false} MembersAccepted(members: seq<(string, Json)>)
    ensures Manifest.MetadataOf(members).Some? <==> GoodMembers(members)
  {
    hide GoodMember, Manifest.EntryValue;
    if members != [] {
      var n := |members| - 1;
      MembersAccepted(members[..n]);
      OneMember(members[n]);
      assert forall k | 0 <= k < n :: members[..n][k] == members[k];
    }
  }

  /** The last member for a path gives its metadata. */
  lemma {:induction false} LastMemberWins(members: seq<(string, Json)>, p: Path)
    requires GoodMembers(members)
    ensures Manifest.MetadataOf(members).Some?
    ensures var found := Manifest.MetadataOf(members).value;
            && (p in found <==> HasMember(members, p))
            && forall i: nat | LastMember(members, p, i) ::
                 Serializable(members[i].1) && p in found && found[p] == ToValue(members[i].1)
  {
    hide Serializable, ToValue, GoodMember, Manifest.EntryValue;
    if members != [] {
      var n := |members| - 1;
      OneMember(members[n]);
      assert forall k | 0 <= k < n :: members[..n][k] == members[k];
      LastMemberWins(members[..n], p);
      assert Path(members[n].0) == p <==> members[n].0 == p.text;
      OneMoreMember(members, p);
    }
  }

  lemma OneMoreMember(members: seq<(string, Json)>, p: Path)
    requires members != []
    ensures var n := |members| - 1;
            && (HasMember(members, p) <==> HasMember(members[..n], p) || members[n].0 == p.text)
            && forall i: nat | LastMember(members, p, i) ::
                 if members[n].0 == p.text then i == n else i < n && LastMember(members[..n], p, i)
  {
    assert forall k | 0 <= k < |members| - 1 :: members[..|members| - 1][k] == members[k];
  }

  // ---------- The scan ----------

  /** Request m for the key is answered with the content. It asks for the listed version when the listing gave a
      non-empty etag. */
  predicate AnsweredWith(replies: Replies, m: nat, key: string, etag: Option<string>, content: Bytes) {
    && (etag.Some? && etag.value != "" ==> replies.answers(m, key, etag) == Some(content))
    && (etag.None? || etag.value == "" ==> replies.answers(m, key, None) == Some(content))
  }

  /** Request m reads the manifest, which has the given members. */
  ghost predicate ManifestRead(env: Environment, prefix: string, replies: Replies, m: nat, entries: seq<Entry>,
                               members: seq<(string, Json)>) {
    exists i: nat, content ::
      && LastManifest(prefix, entries, i)
      && AnsweredWith(replies, m, Below(prefix) + ".ragpipe-metadata.json", entries[i].etag, content)
      && env.decodeJson(content) == Some(Obj(members))
  }

  /** Request m reads the document. */
  ghost predicate DocumentRead(env: Environment, prefix: string, replies: Replies, m: nat, entries: seq<Entry>,
                               p: Path, content: Bytes) {
    exists i: nat ::
      && LastObject(env, prefix, entries, p, i)
      && AnsweredWith(replies, m, Below(prefix) + p.text, entries[i].etag, content)
  }

  /** The paths of the listed documents, ascending. */
  ghost predicate DocumentPaths(env: Environment, prefix: string, entries: seq<Entry>, paths: seq<Path>) {
    Ascending(PathLe, paths) && forall p :: p in paths <==> HasObject(env, prefix, entries, p)
  }

  /** The request that reads the first document of a scan whose listing is request n. */
  function FirstDocument(prefix: string, n: nat, entries: seq<Entry>): nat {
    n + (if HasManifest(prefix, entries) then 2 else 1)
  }

  /** The manifest, if there is one, is read by request m, and gives metadata to listed documents only. */
  ghost predicate ManifestFits(env: Environment, prefix: string, replies: Replies, m: nat, entries: seq<Entry>) {
    HasManifest(prefix, entries) ==>
      exists members: seq<(string, Json)> ::
        && ManifestRead(env, prefix, replies, m, entries, members) && GoodMembers(members)
        && forall i | 0 <= i < |members| :: HasObject(env, prefix, entries, Path(members[i].0))
  }

  ghost predicate CanRead(env: Environment, prefix: string, replies: Replies, m: nat, entries: seq<Entry>, p: Path) {
    exists content :: DocumentRead(env, prefix, replies, m, entries, p, content)
  }

  /** The documents are read in the given order from request m on. */
  ghost predicate DocumentsRead(env: Environment, prefix: string, replies: Replies, m: nat, entries: seq<Entry>,
                                paths: seq<Path>) {
    forall i | 0 <= i < |paths| :: CanRead(env, prefix, replies, m + i, entries, paths[i])
  }

  lemma ReadIsAnswered(replies: Replies, m: nat, key: string, etag: Option<string>, content: Bytes)
    ensures ReadAt(replies, m, S3Object(key, etag)) == Some(content) <==> AnsweredWith(replies, m, key, etag, content)
  {
  }

  lemma DocumentIsRead(env: Environment, prefix: string, replies: Replies, m: nat, entries: seq<Entry>, p: Path,
                       content: Bytes)
    requires Discover(env, prefix, entries).Some? && p in Discover(env, prefix, entries).value.objects
    ensures ReadAt(replies, m, Discover(env, prefix, entries).value.objects[p]) == Some(content)
       <==> DocumentRead(env, prefix, replies, m, entries, p, content)
  {
    hide Discover, ReadAt, AnsweredWith, HasObject, LastObject, Below;
    ObjectIsLast(env, prefix, entries, p);
    SomeLastObject(env, prefix, entries, p);
    forall etag { ReadIsAnswered(replies, m, Below(prefix) + p.text, etag, content); }
  }

  lemma ManifestIsRead(env: Environment, prefix: string, replies: Replies, m: nat, entries: seq<Entry>)
    requires Discover(env, prefix, entries).Some?
    ensures var manifest := Discover(env, prefix, entries).value.manifest;
            && (manifest.Some? <==> HasManifest(prefix, entries))
            && (manifest.Some? && ManifestAt(env, replies, m, manifest).Some? ==>
                  exists members :: ManifestRead(env, prefix, replies, m, entries, members))
            && forall members: seq<(string, Json)> | ManifestRead(env, prefix, replies, m, entries, members) ::
                 ManifestAt(env, replies, m, manifest) == Manifest.MetadataOf(members)
  {
    hide Discover, ReadAt, AnsweredWith, HasManifest, Manifest.MetadataOf, Below;
    ManifestIsLast(env, prefix, entries);
    SomeLastManifest(prefix, entries);
    var key, manifest := Below(prefix) + ".ragpipe-metadata.json", Discover(env, prefix, entries).value.manifest;
    forall etag, content { ReadIsAnswered(replies, m, key, etag, content); }
    if manifest.Some? && ManifestAt(env, replies, m, manifest).Some? {
      var i: nat :| LastManifest(prefix, entries, i);
      var content := ReadAt(replies, m, manifest.value).value;
      assert AnsweredWith(replies, m, key, entries[i].etag, content);
      assert ManifestRead(env, prefix, replies, m, entries, env.decodeJson(content).value.members);
    }
  }

  /** A scan succeeds exactly when the listing is answered with entries none of which makes it fail, the manifest is
      read and fits, and then every document is read, in path order, by one request after the other. */
  lemma ScanSucceeds(env: Environment, prefix: string, replies: Replies, n: nat)
    ensures CanScan(env, prefix, replies, n) <==>
              && replies.listings(n).Some?
              && var entries := EntriesOf(replies.listings(n).value);
                 && (forall i | 0 <= i < |entries| :: Listable(prefix, entries[i]))
                 && ManifestFits(env, prefix, replies, n + 1, entries)
                 && exists paths ::
                      && DocumentPaths(env, prefix, entries, paths)
                      && DocumentsRead(env, prefix, replies, FirstDocument(prefix, n, entries), entries, paths)
  {
    hide Listable, ManifestFits, DocumentPaths, DocumentsRead, AllRead, Discover, EntriesOf, ManifestAt, HasManifest;
    if replies.listings(n).Some? {
      var entries := EntriesOf(replies.listings(n).value);
      ListingSucceeds(env, prefix, entries);
      if Discover(env, prefix, entries).Some? {
        var listing := Discover(env, prefix, entries).value;
        ManifestIsRead(env, prefix, replies, n + 1, entries);
        FittingManifest(env, prefix, replies, n + 1, entries);
        DocumentsInOrder(env, prefix, replies, FirstDocument(prefix, n, entries), entries);
        var paths := SortedPaths(listing.objects.Keys);
        forall other | DocumentPaths(env, prefix, entries, other) ensures other == paths {
          OneOrder(env, prefix, entries, other);
        }
      }
    }
  }

  lemma FittingManifest(env: Environment, prefix: string, replies: Replies, m: nat, entries: seq<Entry>)
    requires Discover(env, prefix, entries).Some?
    ensures var listing := Discover(env, prefix, entries).value;
            var metadata := ManifestAt(env, replies, m, listing.manifest);
            metadata.Some? && metadata.value.Keys <= listing.objects.Keys <==>
            ManifestFits(env, prefix, replies, m, entries)
  {
    hide Discover, ReadAt, HasManifest, HasObject, ManifestRead, GoodMembers, Manifest.MetadataOf;
    ManifestIsRead(env, prefix, replies, m, entries);
    var objects := Discover(env, prefix, entries).value.objects;
    forall members: seq<(string, Json)>
      | ManifestRead(env, prefix, replies, m, entries, members) && GoodMembers(members)
      ensures Manifest.MetadataOf(members).Some?
      ensures Manifest.MetadataOf(members).value.Keys <= objects.Keys <==>
              forall i | 0 <= i < |members| :: HasObject(env, prefix, entries, Path(members[i].0)) {
      MembersAreListed(env, prefix, entries, members);
    }
    forall members { MembersAccepted(members); }
  }

  lemma MembersAreListed(env: Environment, prefix: string, entries: seq<Entry>, members: seq<(string, Json)>)
    requires Discover(env, prefix, entries).Some? && GoodMembers(members)
    ensures Manifest.MetadataOf(members).Some?
    ensures Manifest.MetadataOf(members).value.Keys <= Discover(env, prefix, entries).value.objects.Keys <==>
            forall i | 0 <= i < |members| :: HasObject(env, prefix, entries, Path(members[i].0))
  {
    hide Discover, HasObject, GoodMembers, Manifest.MetadataOf;
    MembersAccepted(members);
    var found, objects := Manifest.MetadataOf(members).value, Discover(env, prefix, entries).value.objects;
    forall p ensures p in objects <==> HasObject(env, prefix, entries, p) { ObjectIsLast(env, prefix, entries, p); }
    forall p ensures p in found <==> HasMember(members, p) { LastMemberWins(members, p); }
    forall i | 0 <= i < |members| ensures HasMember(members, Path(members[i].0)) {}
    forall p | HasMember(members, p) ensures exists i :: 0 <= i < |members| && Path(members[i].0) == p {
      var i :| 0 <= i < |members| && members[i].0 == p.text;
      assert Path(members[i].0) == p;
    }
  }

  lemma OneOrder(env: Environment, prefix: string, entries: seq<Entry>, paths: seq<Path>)
    requires Discover(env, prefix, entries).Some?
    ensures DocumentPaths(env, prefix, entries, paths)
       <==> paths == SortedPaths(Discover(env, prefix, entries).value.objects.Keys)
  {
    hide Discover, HasObject, PathLe;
    var objects := Discover(env, prefix, entries).value.objects;
    PathLeIsTotalOrder();
    SortedPathsAscend(objects.Keys);
    forall p ensures p in objects <==> HasObject(env, prefix, entries, p) { ObjectIsLast(env, prefix, entries, p); }
    if DocumentPaths(env, prefix, entries, paths) { AscendingIsUnique(PathLe, paths, SortedPaths(objects.Keys)); }
  }

  lemma ReadableDocument(env: Environment, prefix: string, replies: Replies, m: nat, entries: seq<Entry>, p: Path)
    ensures Discover(env, prefix, entries).Some? ==>
              var objects := Discover(env, prefix, entries).value.objects;
              p in objects ==> (ReadAt(replies, m, objects[p]).Some? <==> CanRead(env, prefix, replies, m, entries, p))
  {
    hide Discover, ReadAt, DocumentRead;
    if Discover(env, prefix, entries).Some? && p in Discover(env, prefix, entries).value.objects {
      var read := ReadAt(replies, m, Discover(env, prefix, entries).value.objects[p]);
      if read.Some? { DocumentIsRead(env, prefix, replies, m, entries, p, read.value); }
      if content :| DocumentRead(env, prefix, replies, m, entries, p, content) {
        DocumentIsRead(env, prefix, replies, m, entries, p, content);
      }
    }
  }

  lemma DocumentsInOrder(env: Environment, prefix: string, replies: Replies, m: nat, entries: seq<Entry>)
    requires Discover(env, prefix, entries).Some?
    ensures var objects := Discover(env, prefix, entries).value.objects;
            var paths := SortedPaths(objects.Keys);
            && DocumentPaths(env, prefix, entries, paths)
            && (AllRead(replies, m, objects) <==> DocumentsRead(env, prefix, replies, m, entries, paths))
  {
    hide Discover, DocumentPaths, ReadAt, CanRead, SortedPaths;
    var objects := Discover(env, prefix, entries).value.objects;
    var paths := SortedPaths(objects.Keys);
    OneOrder(env, prefix, entries, paths);
    forall i | 0 <= i < |paths| { ReadableDocument(env, prefix, replies, m + i, entries, paths[i]); }
  }

  /** What a scan returns: every listed document and no other, described by the bytes that its own request was
      answered with. What it remembers for later loads: the last listed version of each. */
  lemma ScanIsExact(env: Environment, prefix: string, replies: Replies, n: nat, objects: map<Path, S3Object>,
                    scan: Scan, paths: seq<Path>, i: nat) returns (content: Bytes)
    requires Scans(env, prefix, replies, n, objects, scan)
    requires DocumentPaths(env, prefix, EntriesOf(replies.listings(n).value), paths) && i < |paths|
    ensures forall p :: p in scan <==> p in paths
    ensures forall p :: p in objects <==> p in paths
    ensures var entries := EntriesOf(replies.listings(n).value);
            forall e: nat | LastObject(env, prefix, entries, paths[i], e) ::
              objects[paths[i]] == S3Object(Below(prefix) + paths[i].text, entries[e].etag)
    ensures var entries := EntriesOf(replies.listings(n).value);
            DocumentRead(env, prefix, replies, FirstDocument(prefix, n, entries) + i, entries, paths[i], content)
    ensures var item := scan[paths[i]];
            && item.path == paths[i] && item.contentHash == env.sha(content) && item.sizeBytes == |content|
            && item.mediaType == env.mediaType(paths[i]) && item.metadataHash == env.metadataHash(item.metadata)
  {
    hide Discover, EntriesOf, DocumentPaths, DocumentRead, ReadAt, SortedPaths, ManifestAt, MetadataFor, HasManifest,
      AllRead;
    var entries := EntriesOf(replies.listings(n).value);
    var listing, first := Discover(env, prefix, entries).value, FirstDocument(prefix, n, entries);
    OneOrder(env, prefix, entries, paths);
    ManifestIsRead(env, prefix, replies, n + 1, entries);
    assert DescribedAt(env, replies, first, objects, ManifestAt(env, replies, n + 1, listing.manifest).value, i, scan);
    content := ReadAt(replies, first + i, objects[paths[i]]).value;
    assert paths[i] in paths;
    ObjectIsLast(env, prefix, entries, paths[i]);
    DocumentIsRead(env, prefix, replies, first + i, entries, paths[i], content);
  }

  /** The metadata of a scanned document: that of its last member in the manifest, which is read once, by the request
      after the listing; and the empty object where the manifest has no member for it or there is no manifest. */
  lemma MetadataIsExact(env: Environment, prefix: string, replies: Replies, n: nat, objects: map<Path, S3Object>,
                        scan: Scan, p: Path)
    requires Scans(env, prefix, replies, n, objects, scan) && p in scan
    ensures var entries := EntriesOf(replies.listings(n).value);
            if HasManifest(prefix, entries)
            then exists members: seq<(string, Json)> | ManifestRead(env, prefix, replies, n + 1, entries, members) ::
                   if HasMember(members, p)
                   then exists k: nat | LastMember(members, p, k) ::
                          Serializable(members[k].1) && scan[p].metadata == ToValue(members[k].1)
                   else scan[p].metadata == VObj(map[])
            else scan[p].metadata == VObj(map[])
  {
    hide Discover, EntriesOf, ManifestRead, ReadAt, SortedPaths, HasManifest, AllRead, Manifest.MetadataOf, HasMember,
      LastMember, ToValue, Serializable, FirstRead;
    var entries := EntriesOf(replies.listings(n).value);
    var listing := Discover(env, prefix, entries).value;
    var metadata := ManifestAt(env, replies, n + 1, listing.manifest).value;
    ManifestIsRead(env, prefix, replies, n + 1, entries);
    assert p in SortedPaths(objects.Keys);
    var i :| 0 <= i < |objects| && SortedPaths(objects.Keys)[i] == p;
    assert DescribedAt(env, replies, FirstRead(n, listing.manifest), objects, metadata, i, scan);
    if HasManifest(prefix, entries) {
      var members :| ManifestRead(env, prefix, replies, n + 1, entries, members);
      MembersAccepted(members);
      LastMemberWins(members, p);
      SomeLastMember(members, p);
    }
  }

  lemma {:induction false} SomeLastMember(members: seq<(string, Json)>, p: Path)
    ensures HasMember(members, p) <==> exists i :: LastMember(members, p, i)
  {
    if members != [] {
      var n := |members| - 1;
      SomeLastMember(members[..n], p);
      assert forall k | 0 <= k < n :: members[..n][k] == members[k];
      if members[n].0 == p.text {
        assert LastMember(members, p, n);
      } else if HasMember(members[..n], p) {
        var i :| LastMember(members[..n], p, i);
        assert LastMember(members, p, i);
      }
    }
  }

  /** What a load returns: the text of the bytes that its request is answered with, provided they have the scanned
      hash; it asks for the version that the latest scan listed. */
  lemma LoadIsExact(env: Environment, replies: Replies, n: nat, objects: map<Path, S3Object>, d: ScannedDocument,
                    text: string)
    ensures LoadAt(env, replies, n, objects, d) == Some(text) <==>
              && d.path in objects
              && exists content ::
                   && AnsweredWith(replies, n, objects[d.path].key, objects[d.path].etag, content)
                   && env.sha(content) == d.contentHash && env.extractText(content, d.path) == Some(text)
  {
    hide AnsweredWith, ReadAt;
    if d.path in objects {
      forall content { ReadIsAnswered(replies, n, objects[d.path].key, objects[d.path].etag, content); }
      var read := ReadAt(replies, n, objects[d.path]);
      assert read.Some? ==> AnsweredWith(replies, n, objects[d.path].key, objects[d.path].etag, read.value);
    }
  }
}
