/** Which document paths the manifest parser and the S3 source accept. */
module SafePaths {
  import opened Strings

  /** The components that `PurePosixPath` keeps: empty ones and "." are dropped. */
  function KeptParts(parts: seq<string>): seq<string> {
    if parts == [] then []
    else (if parts[0] == "" || parts[0] == "." then [] else [parts[0]]) + KeptParts(parts[1..])
  }

  /** `PurePosixPath(path).parts` for a relative path */
  function Parts(path: string): seq<string> {
    KeptParts(SplitOn(path, "/"))
  }

  /** `PurePosixPath(path).as_posix()` for a relative path */
  function AsPosix(path: string): string {
    if Parts(path) == [] then "." else Join(Parts(path), "/")
  }

  predicate IsAbsolute(path: string) {
    path != "" && path[0] == '/'
  }

  /** The check of `_validate_document_path`, which rejects what fails it. `_relative_path` also asks for the
      absence of "//"; see NoDoubleSlash. */
  predicate SafePath(path: string) {
    && path != "" && '\\' !in path && !IsAbsolute(path)
    && "." !in Parts(path) && ".." !in Parts(path)
    && AsPosix(path) == path
  }

  predicate CleanPart(part: string) {
    part != "" && part != "." && part != ".."
  }

  predicate AllClean(parts: seq<string>) {
    forall i | 0 <= i < |parts| :: CleanPart(parts[i])
  }

  lemma {:induction false} CleanPartsAreKept(parts: seq<string>)
    requires forall i | 0 <= i < |parts| :: parts[i] != "" && parts[i] != "."
    ensures KeptParts(parts) == parts
  {
    if parts != [] { CleanPartsAreKept(parts[1..]); }
  }

  lemma {:induction false} KeptPartsShrink(parts: seq<string>)
    ensures |KeptParts(parts)| <= |parts|
    ensures |KeptParts(parts)| == |parts| ==> KeptParts(parts) == parts
    ensures forall part | part in KeptParts(parts) :: part in parts && part != "" && part != "."
  {
    if parts != [] {
      KeptPartsShrink(parts[1..]);
      assert parts == [parts[0]] + parts[1..];
    }
  }

  /** Text without the separator is one part. */
  lemma SplitOfPlain(text: string, sep: string)
    requires sep != "" && !Contains(text, sep)
    ensures SplitOn(text, sep) == [text]
  {
  }

  lemma {:induction false} PartsHaveNoSlash(text: string)
    ensures forall i | 0 <= i < |SplitOn(text, "/")| :: '/' !in SplitOn(text, "/")[i]
    decreases |text|
  {
    var found, front, rest := SplitOnUnfolds(text, "/");
    if found {
      ContainsCharacter(front, '/');
      PartsHaveNoSlash(rest);
    } else {
      ContainsCharacter(text, '/');
    }
  }

  /** Joining parts without slashes and splitting again gives the parts back. */
  lemma {:induction false} SplitUndoesJoin(parts: seq<string>)
    requires parts != [] && forall i | 0 <= i < |parts| :: '/' !in parts[i]
    ensures SplitOn(Join(parts, "/"), "/") == parts
  {
    if |parts| == 1 {
      ContainsCharacter(parts[0], '/');
      SplitOfPlain(parts[0], "/");
    } else {
      SplitUndoesJoin(parts[1..]);
      SplitAfter(parts[0], Join(parts[1..], "/"), '/');
    }
  }

  lemma Dot()
    ensures SplitOn(".", "/") == ["."] && KeptParts(["."]) == [] && SafePath(".")
  {
    ContainsCharacter(".", '/');
    SplitOfPlain(".", "/");
    assert KeptParts([]) == [];
    assert KeptParts(["."]) == [];
  }

  /** What is accepted: the path "." (an oversight), and otherwise exactly the paths without backslash whose
      slash-separated components are all ordinary names, none of them empty, "." or "..". */
  lemma AcceptedPaths(path: string)
    ensures SafePath(path) <==> path == "." || ('\\' !in path && AllClean(SplitOn(path, "/")))
  {
    hide KeptParts, SplitOn, Join;
    Dot();
    var parts := SplitOn(path, "/");
    JoinUndoesSplit(path, "/");
    KeptPartsShrink(parts);
    PartsHaveNoSlash(path);
    if SafePath(path) && path != "." {
      var kept := KeptParts(parts);
      assert forall i | 0 <= i < |kept| :: kept[i] in kept;
      SplitUndoesJoin(kept);
      assert kept == parts;
    }
    if '\\' !in path && AllClean(parts) {
      CleanPartsAreKept(parts);
      EmptyAndAbsoluteAreUnclean(path);
    }
  }

  lemma EmptyAndAbsoluteAreUnclean(path: string)
    requires AllClean(SplitOn(path, "/"))
    ensures path != "" && !IsAbsolute(path)
  {
    if path == "" {
      ContainsCharacter("", '/');
      SplitOfPlain("", "/");
    }
    if IsAbsolute(path) {
      SplitAfter("", path[1..], '/');
      assert "" + "/" + path[1..] == path;
    }
    assert CleanPart(SplitOn(path, "/")[0]);
  }

  /** The extra check for "//" rejects nothing more. */
  lemma NoDoubleSlash(path: string)
    requires SafePath(path)
    ensures !Contains(path, "//")
  {
    AcceptedPaths(path);
    Dot();
    if Contains(path, "//") { DoubleSlashLeavesEmptyPart(path); }
  }

  lemma DoubleSlashLeavesEmptyPart(path: string)
    requires Contains(path, "//")
    ensures "" in SplitOn(path, "/")
  {
    var i :| 0 <= i <= |path| && OccursAt(path, "//", i);
    EmptyPartBetween(path[..i], path[i + 2..]);
    assert path[i..i + 2] == "//";
    assert path == path[..i] + "//" + path[i + 2..];
  }

  lemma {:induction false} EmptyPartBetween(head: string, tail: string)
    ensures "" in SplitOn(head + "//" + tail, "/")
    decreases |head|
  {
    hide OccursAt, Contains, Find;
    var text := head + "//" + tail;
    if '/' !in head {
      SplitAfter(head, "/" + tail, '/');
      SplitAfter("", tail, '/');
      assert text == head + "/" + ("/" + tail) && "" + "/" + tail == "/" + tail;
      assert SplitOn(text, "/")[1] == "";
    } else {
      ContainsCharacter(head, '/');
      var found, front, rest := SplitOnUnfolds(head, "/");
      ContainsCharacter(front, '/');
      SplitAfter(front, rest + "//" + tail, '/');
      assert text == front + "/" + (rest + "//" + tail);
      EmptyPartBetween(rest, tail);
    }
  }
}
