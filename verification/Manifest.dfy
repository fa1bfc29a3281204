/** The metadata manifest: `parse_metadata_manifest` from the decoded JSON on. */
module Manifest {
  import opened Strings
  import opened CanonicalJson
  import opened CanonicalJsonProofs
  import opened Models
  import opened SafePaths

  /** One entry of the manifest: None when it is rejected. */
  function EntryValue(member: (string, Json)): Option<Value> {
    if SafePath(member.0) && member.1.Obj? && Serializable(member.1) then Some(ToValue(member.1)) else None
  }

  /** The manifest is an object all of whose entries are accepted. */
  predicate Acceptable(payload: Json) {
    payload.Obj? && forall i | 0 <= i < |payload.members| :: EntryValue(payload.members[i]).Some?
  }

  /** The metadata by path; a path that occurs again is overwritten. */
  function MetadataOf(members: seq<(string, Json)>): Option<map<Path, Value>> {
    if members == [] then Some(map[])
    else
      var last := members[|members| - 1];
      var before, value := MetadataOf(members[..|members| - 1]), EntryValue(last);
      if before.None? || value.None? then None else Some(before.value[Path(last.0) := value.value])
  }

  function Metadata(payload: Json): Option<map<Path, Value>> {
    if payload.Obj? then MetadataOf(payload.members) else None
  }

  lemma {:induction false} OneBadEntry(members: seq<(string, Json)>, i: nat)
    requires i < |members| && EntryValue(members[i]).None?
    ensures MetadataOf(members).None?
  {
    hide EntryValue;
    if i < |members| - 1 { OneBadEntry(members[..|members| - 1], i); }
  }

  /** The paths are those of the entries. */
  ghost predicate HasPathsOf(found: map<Path, Value>, members: seq<(string, Json)>) {
    forall p :: p in found <==> exists i | 0 <= i < |members| :: members[i].0 == p.text
  }

  /** Every path is safe and carries an object. */
  predicate AllSafe(found: map<Path, Value>) {
    forall p | p in found :: SafePath(p.text) && found[p].VObj? && WellFormed(found[p])
  }

  /** Every entry's metadata is found under its path. */
  predicate HasValuesOf(found: map<Path, Value>, members: seq<(string, Json)>) {
    forall i | 0 <= i < |members| ::
      Path(members[i].0) in found && EntryValue(members[i]) == Some(found[Path(members[i].0)])
  }

  lemma OneMorePath(found: map<Path, Value>, members: seq<(string, Json)>, last: (string, Json), value: Value)
    requires HasPathsOf(found, members)
    ensures HasPathsOf(found[Path(last.0) := value], members + [last])
  {
    var all, next := members + [last], found[Path(last.0) := value];
    forall p ensures p in next <==> exists i | 0 <= i < |all| :: all[i].0 == p.text {
      if p in next && p.text != last.0 {
        assert p != Path(last.0);
        var i :| 0 <= i < |members| && members[i].0 == p.text;
        assert all[i].0 == p.text;
      } else if p in next {
        assert all[|members|].0 == p.text;
      }
      if i :| 0 <= i < |all| && all[i].0 == p.text {
        assert i < |members| ==> members[i].0 == p.text;
        assert p == Path(p.text);
      }
    }
  }

  lemma OneMoreValue(found: map<Path, Value>, members: seq<(string, Json)>, last: (string, Json))
    requires HasValuesOf(found, members) && EntryValue(last).Some? && Distinct(members + [last])
    ensures HasValuesOf(found[Path(last.0) := EntryValue(last).value], members + [last])
  {
    hide EntryValue;
    var all, next := members + [last], found[Path(last.0) := EntryValue(last).value];
    forall i | 0 <= i < |all|
      ensures Path(all[i].0) in next && EntryValue(all[i]) == Some(next[Path(all[i].0)]) {
      if i < |members| { assert all[i] == members[i] && all[|members|] == last; }
    }
  }

  /** The metadata of accepted entries: an object for every path and no other, and exactly what each entry
      gives when no path occurs twice. */
  lemma {:induction false} AcceptedEntries(members: seq<(string, Json)>)
    requires forall i | 0 <= i < |members| :: EntryValue(members[i]).Some?
    ensures MetadataOf(members).Some?
    ensures HasPathsOf(MetadataOf(members).value, members) && AllSafe(MetadataOf(members).value)
    ensures Distinct(members) ==> HasValuesOf(MetadataOf(members).value, members)
  {
    hide SafePath, WellFormed, EntryValue, HasPathsOf, HasValuesOf;
    if members == [] {
      NoEntries();
    } else {
      var n := |members| - 1;
      var before, last := members[..n], members[n];
      AcceptedEntries(before);
      ObjectValue(last);
      var was := MetadataOf(before).value;
      assert members == before + [last];
      OneMorePath(was, before, last, EntryValue(last).value);
      if Distinct(members) { OneMoreValue(was, before, last); }
    }
  }

  /** Whatever the parser lets through is safe. */
  lemma {:induction false} MetadataIsSafe(members: seq<(string, Json)>)
    ensures MetadataOf(members).Some? ==> AllSafe(MetadataOf(members).value)
  {
    hide EntryValue, SafePath, WellFormed;
    if members != [] && MetadataOf(members).Some? {
      MetadataIsSafe(members[..|members| - 1]);
      ObjectValue(members[|members| - 1]);
    }
  }

  /** `parse_metadata_manifest`; None is its MetadataManifestError. */
  method ParseManifest(payload: Json) returns (result: Option<map<Path, Value>>)
    ensures result == Metadata(payload)
    ensures result.Some? <==> Acceptable(payload)
    ensures result.Some? ==> HasPathsOf(result.value, payload.members) && AllSafe(result.value)
    ensures result.Some? && Distinct(payload.members) ==> HasValuesOf(result.value, payload.members)
  {
    hide SafePath, Serializable, ToValue, MetadataOf, HasPathsOf, HasValuesOf, AllSafe;
    if !payload.Obj? {
      return None;
    }
    var members := payload.members;
    var found: map<Path, Value> := map[];
    NoEntries();
    for i := 0 to |members|
      invariant forall k | 0 <= k < i :: EntryValue(members[k]).Some?
      invariant MetadataOf(members[..i]) == Some(found)
    {
      var path, metadata := members[i].0, members[i].1;
      if !SafePath(path) {
        OneBadEntry(members, i);
        return None;
      }
      if !metadata.Obj? || !Serializable(metadata) {
        OneBadEntry(members, i);
        return None;
      }
      OneMoreEntry(members, i);
      found := found[Path(path) := ToValue(metadata)];
    }
    assert members[..|members|] == members;
    AcceptedEntries(members);
    result := Some(found);
  }

  lemma NoEntries()
    ensures MetadataOf([]) == Some(map[]) && HasPathsOf(map[], []) && HasValuesOf(map[], [])
  {
  }

  lemma OneMoreEntry(members: seq<(string, Json)>, i: nat)
    requires i < |members| && MetadataOf(members[..i]).Some? && EntryValue(members[i]).Some?
    ensures var before := MetadataOf(members[..i]).value;
            MetadataOf(members[..i + 1]) == Some(before[Path(members[i].0) := EntryValue(members[i]).value])
  {
    hide EntryValue;
    assert members[..i + 1][..i] == members[..i];
  }

  lemma ObjectValue(member: (string, Json))
    requires EntryValue(member).Some?
    ensures Serializable(member.1) && EntryValue(member).value == ToValue(member.1)
    ensures SafePath(member.0) && EntryValue(member).value.VObj? && WellFormed(EntryValue(member).value)
  {
    hide SafePath;
    ToValueIsWellFormed(member.1);
  }

  /** A decoded JSON object holds every key once. */
  predicate Distinct(members: seq<(string, Json)>) {
    forall i, k | 0 <= i < k < |members| :: members[i].0 != members[k].0
  }
}
