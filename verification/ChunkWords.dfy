/** Words stay whole: with the default separators no chunk boundary falls inside a word that fits into a chunk. */
module ChunkWords {
  import opened Strings
  import opened Chunking
  import opened ChunkOptimality
  import ChunkShape

  predicate IsWord(w: string) {
    w != "" && forall i | 0 <= i < |w| :: !IsSpace(w[i])
  }

  /** The word stands at position i of the text: white space, or the end of the text, on both sides. */
  predicate WordAt(text: string, w: string, i: nat) {
    && OccursAt(text, w, i) && (i == 0 || IsSpace(text[i - 1]))
    && (i + |w| == |text| || IsSpace(text[i + |w|]))
  }

  /** The word without a final stop, which splitting on ". " drops. */
  function Core(w: string): string {
    if w != "" && w[|w| - 1] == '.' then w[..|w| - 1] else w
  }

  /** White space, or the stop with a space. */
  predicate Gentle(sep: string) {
    Blank(sep) || sep == ". "
  }

  // ---------- One split ----------

  /** A word that stands in a text stands, whole or without its stop, before or after the first separator. */
  lemma WordBesideSeparator(front: string, sep: string, rest: string, w: string, i: nat)
    requires sep != "" && Gentle(sep) && IsWord(w) && WordAt(front + sep + rest, w, i)
    ensures || WordAt(front, w, i)
            || (i >= |front + sep| && WordAt(rest, w, i - |front + sep|))
            || (sep == ". " && (Core(w) == "" || (Core(w) != w && WordAt(front, Core(w), i))))
  {
    hide IsSpace;
    var text := front + sep + rest;
    assert text[i..i + |w|] == w;
    assert forall k | 0 <= k < |w| :: text[i + k] == w[k];
    assert forall k | 0 <= k < |front| :: text[k] == front[k];
    assert forall k | 0 <= k < |sep| :: text[|front| + k] == sep[k];
    assert forall k | 0 <= k < |rest| :: text[|front + sep| + k] == rest[k];
    if i + |w| <= |front| {
      assert front[i..i + |w|] == w;
    } else if i >= |front + sep| {
      var j := i - |front + sep|;
      assert rest[j..j + |w|] == w;
    } else {
      OverlapIsStop(front, sep, rest, w, i);
    }
  }

  lemma NoSpaceWithin(text: string, w: string, i: nat)
    requires IsWord(w) && OccursAt(text, w, i)
    ensures forall y | i <= y < i + |w| :: !IsSpace(text[y])
  {
    forall y | i <= y < i + |w| ensures !IsSpace(text[y]) { assert text[y] == text[i..i + |w|][y - i]; }
  }

  lemma OverlapIsStop(front: string, sep: string, rest: string, w: string, i: nat)
    requires sep != "" && Gentle(sep) && IsWord(w) && WordAt(front + sep + rest, w, i)
    requires |front| < i + |w| && i < |front + sep|
    ensures sep == ". " && (Core(w) == "" || (Core(w) != w && WordAt(front, Core(w), i)))
  {
    var text := front + sep + rest;
    var k := if i >= |front| then i else |front|;
    assert text[i..i + |w|] == w && w[k - i] == text[k] == sep[k - |front|];
    assert sep == ". ";
    assert IsSpace(text[|front| + 1]);
    NoSpaceWithin(text, w, i);
    assert i + |w| == |front| + 1 && w[|w| - 1] == text[|front|] == '.';
    if i < |front| {
      assert front[i..|front|] == text[i..|front|] == w[..|w| - 1];
      if i > 0 { assert front[i - 1] == text[i - 1]; }
    }
  }

  /** The word is still there, or, where a stop may be cut off, its core is. */
  predicate Stands(text: string, w: string, mayCut: bool, i: nat) {
    WordAt(text, w, i) || (mayCut && (Core(w) == "" || (Core(w) != w && WordAt(text, Core(w), i))))
  }

  lemma {:induction false} WordInPart(text: string, sep: string, w: string, i: nat)
    returns (m: nat, j: nat, a: string, b: string)
    requires sep != "" && Gentle(sep) && IsWord(w) && WordAt(text, w, i)
    ensures m < |SplitOn(text, sep)| && Stands(SplitOn(text, sep)[m], w, sep == ". ", j)
    ensures text == a + SplitOn(text, sep)[m] + b
    decreases |text|
  {
    hide WordAt, Core, IsWord, Gentle, Find, OccursAt;
    var found, front, rest := SplitOnUnfolds(text, sep);
    m, j, a, b := 0, i, "", "";
    if found {
      WordBesideSeparator(front, sep, rest, w, i);
      if i >= |front + sep| && WordAt(rest, w, i - |front + sep|) {
        m, j, a, b := WordInPart(rest, sep, w, i - |front + sep|);
        m, a := m + 1, front + sep + a;
      } else {
        b := sep + rest;
      }
    }
  }

  /** Stripping does not touch a word. */
  lemma WordInStripped(part: string, v: string, j: nat) returns (k: nat)
    requires IsWord(v) && WordAt(part, v, j)
    ensures WordAt(Strip(part), v, k)
  {
    hide Strip;
    var front, back := StripSplits(part);
    var s := Strip(part);
    assert part == front + (s + back);
    NoSpaceWithin(part, v, j);
    forall x | 0 <= x < |front| ensures IsSpace(part[x]) { assert part[x] == front[x]; }
    forall x | |front + s| <= x < |part| ensures IsSpace(part[x]) { assert part[x] == back[x - |front + s|]; }
    assert !IsSpace(part[j]) && !IsSpace(part[j + |v| - 1]);
    assert j >= |front| && j + |v| - 1 < |front + s|;
    k := j - |front|;
    assert s[k..k + |v|] == part[j..j + |v|];
    if k > 0 { assert s[k - 1] == part[j - 1]; }
    if k + |v| < |s| { assert s[k + |v|] == part[j + |v|]; }
  }

  lemma {:induction false} NonBlankPartIndex(parts: seq<string>, m: nat) returns (n: nat)
    requires m < |parts| && Strip(parts[m]) != ""
    ensures n < |NonBlankParts(parts)| && NonBlankParts(parts)[n] == Strip(parts[m])
  {
    hide Strip;
    if m == 0 {
      n := 0;
    } else {
      n := NonBlankPartIndex(parts[1..], m - 1);
      if Strip(parts[0]) != "" { n := n + 1; }
    }
  }

  // ---------- The recursive split ----------

  lemma CoreIsWord(w: string)
    requires IsWord(w) && Core(w) != ""
    ensures IsWord(Core(w)) && |Core(w)| <= |w|
  {
  }

  /** A text without white space of its own is the word that stands in it. */
  lemma NothingBesides(text: string, v: string, i: nat)
    requires IsWord(v) && WordAt(text, v, i) && forall k | 0 <= k < |text| :: !IsSpace(text[k])
    ensures text == v
  {
    assert i == 0 && |v| == |text|;
    assert text[0..|v|] == text;
  }

  /** Where no separator occurs in a text, its white space being all separators, it has none. */
  lemma NoSpaces(text: string, separators: seq<string>)
    requires SpacesSeparate(text, separators) && FirstSeparator(text, separators) == None
    ensures forall k | 0 <= k < |text| :: !IsSpace(text[k])
  {
    forall k | 0 <= k < |text| && IsSpace(text[k]) ensures false {
      var s :| 0 <= s < |separators| && separators[s] == [text[k]];
      ContainsCharacter(text, text[k]);
    }
  }

  lemma WithinWhole(a: string, s: string, b: string, sub: string)
    requires Contains(s, sub)
    ensures Contains(a + s + b, sub)
  {
    var i :| 0 <= i <= |s| && OccursAt(s, sub, i);
    assert (a + s + b)[|a| + i..|a| + i + |sub|] == s[i..i + |sub|];
    assert OccursAt(a + s + b, sub, |a| + i);
  }

  lemma CoreWithin(s: string, w: string)
    requires Contains(s, w)
    ensures Contains(s, Core(w))
  {
    var i :| 0 <= i <= |s| && OccursAt(s, w, i);
    assert s[i..i + |Core(w)|] == s[i..i + |w|][..|Core(w)|];
    assert OccursAt(s, Core(w), i);
  }

  /** What becomes of a part: it is a piece itself, or split further. */
  function PiecesOf(c: Chunker, part: string, separators: seq<string>): seq<string> {
    if |part| > c.size then Split(c, part, separators) else [part]
  }

  lemma {:induction false} PieceOfPart(c: Chunker, parts: seq<string>, separators: seq<string>, n: nat, q: nat)
    returns (k: nat)
    requires n < |parts| && q < |PiecesOf(c, parts[n], separators)|
    ensures k < |SplitParts(c, parts, separators)|
    ensures SplitParts(c, parts, separators)[k] == PiecesOf(c, parts[n], separators)[q]
    decreases |parts|
  {
    hide Split;
    if n == 0 {
      k := q;
    } else {
      k := PieceOfPart(c, parts[1..], separators, n - 1, q);
      k := k + |PiecesOf(c, parts[0], separators)|;
    }
  }

  /** The part of a text that holds a word, stripped, and what it holds. */
  lemma PartWithWord(text: string, separators: seq<string>, f: nat, w: string, i: nat)
    returns (n: nat, v: string, j: nat)
    requires SpacesSeparate(text, separators) && FirstSeparator(text, separators) == Some(f)
    requires Gentle(separators[f]) && IsWord(w) && (separators[f] == ". " ==> Core(w) != "") && WordAt(text, w, i)
    ensures var parts := NonBlankParts(SplitOn(text, separators[f]));
            && n < |parts| && IsWord(v) && WordAt(parts[n], v, j)
            && (v == w || (v == Core(w) && separators[f] == ". "))
            && parts[n] != "" && Stripped(parts[n]) && SpacesSeparate(parts[n], separators[f + 1..])
            && (separators[f] == ". " ==> !Contains(parts[n], ". "))
            && (Contains(parts[n], ". ") ==> Contains(text, ". "))
  {
    hide Strip, Core, Gentle, SplitOn, NonBlankParts, Stripped, WordAt, IsWord, SpacesSeparate, Contains;
    var sep := separators[f];
    var m, at, a, b := WordInPart(text, sep, w, i);
    var part := SplitOn(text, sep)[m];
    v := if WordAt(part, w, at) then w else Core(w);
    if v != w { CoreIsWord(w); }
    j := WordInStripped(part, v, at);
    WordIsSomething(Strip(part), v, j);
    n := NonBlankPartIndex(SplitOn(text, sep), m);
    var front, back := StripSplits(part);
    ChunkShape.PartsAreStripped(SplitOn(text, sep));
    SpacesStillSeparate(text, separators, f, Strip(part));
    PartsComeFrom(text, sep);
    if Contains(Strip(part), ". ") {
      WithinWhole(front, Strip(part), back, ". ");
      WithinWhole(a, part, b, ". ");
    }
  }

  lemma WordIsSomething(text: string, v: string, j: nat)
    requires IsWord(v) && WordAt(text, v, j)
    ensures text != ""
  {
  }

  /** Some piece contains the word, or, as long as splitting behind stops is possible, its core. */
  lemma {:induction false} WordInPiece(c: Chunker, text: string, separators: seq<string>, w: string, i: nat, cut: bool)
    returns (k: nat)
    requires text != "" && Stripped(text) && SpacesSeparate(text, separators) && (!cut ==> !Contains(text, ". "))
    requires forall s | 0 <= s < |separators| :: Gentle(separators[s])
    requires IsWord(w) && (cut ==> Core(w) != "") && |w| <= c.size && WordAt(text, w, i)
    ensures k < |Split(c, text, separators)|
    ensures Contains(Split(c, text, separators)[k], if cut then Core(w) else w)
    decreases |separators|, 0
  {
    hide Strip, Gentle, SplitOn, NonBlankParts, Windows, Stripped, SplitParts, SpacesSeparate, Contains, WordAt;
    var f := FirstSeparator(text, separators);
    if |text| <= c.size {
      k := 0;
      WordIsThere(text, w, i);
    } else if f.None? {
      NoSpaces(text, separators);
      NothingBesides(text, w, i);
      assert false;
    } else {
      var n, v, j := PartWithWord(text, separators, f.value, w, i);
      var parts, rest := NonBlankParts(SplitOn(text, separators[f.value])), separators[f.value + 1..];
      var q := 0;
      if |parts[n]| > c.size {
        var again := cut && separators[f.value] != ". ";
        CoreIsShorter(w);
        q := WordInPiece(c, parts[n], rest, v, j, again);
      } else {
        WordIsThere(parts[n], v, j);
      }
      var piece := PiecesOf(c, parts[n], rest)[q];
      if Contains(piece, w) { CoreWithin(piece, w); }
      k := PieceOfPart(c, parts, rest, n, q);
    }
  }

  lemma CoreIsShorter(w: string)
    ensures |Core(w)| <= |w|
  {
  }

  lemma WordIsThere(text: string, w: string, i: nat)
    requires WordAt(text, w, i)
    ensures Contains(text, w) && Contains(text, Core(w))
  {
    assert OccursAt(text, w, i);
    CoreWithin(text, w);
  }

  // ---------- The merge keeps pieces whole ----------

  /** A text that has no white space at its edges survives whole behind another one. */
  lemma SuffixStays(a: string, p: string)
    requires p != "" && Stripped(p)
    ensures Contains(Strip(a + " " + p), p)
  {
    hide Strip;
    var text := a + " " + p;
    var front, back := StripSplits(text);
    var s := Strip(text);
    assert text == front + (s + back);
    assert text[|text| - 1] == p[|p| - 1] && text[|a| + 1] == p[0];
    forall x | 0 <= x < |front| ensures IsSpace(text[x]) { assert text[x] == front[x]; }
    forall x | |front + s| <= x < |text| ensures IsSpace(text[x]) { assert text[x] == back[x - |front + s|]; }
    assert !IsSpace(text[|text| - 1]) && !IsSpace(text[|a| + 1]);
    assert back == "" && |front| <= |a| + 1;
    var i := |a| + 1 - |front|;
    assert s[i..i + |p|] == text[|a| + 1..] == p;
    assert OccursAt(s, p, i);
  }

  lemma PrefixStays(current: string, p: string, sub: string)
    requires current != "" && Stripped(current) && Contains(current, sub)
    ensures Contains(Strip(current + " " + p), sub)
  {
    hide Strip, Contains;
    assert current + " " + p == current + (" " + p);
    StripKeepsFront(current, " " + p);
    var s := Strip(current + " " + p);
    WithinWhole("", current, s[|current|..], sub);
    assert s == "" + current + s[|current|..];
  }

  predicate SomeContains(texts: seq<string>, sub: string) {
    exists k | 0 <= k < |texts| :: Contains(texts[k], sub)
  }

  lemma {:induction false} PieceInMerge(c: Chunker, pieces: seq<string>, m: nat, sub: string)
    requires TidyPieces(c, pieces) && ChunkShape.GoodPieces(c, pieces) && m < |pieces| && Contains(pieces[m], sub)
    ensures var st := MergeAll(c, pieces);
            st.current != "" && Stripped(st.current) && SomeContains(st.merged + [st.current], sub)
    decreases |pieces|
  {
    hide Strip, Contains, MergeAll, SomeContains, Last, IsSpace;
    var n := |pieces| - 1;
    var piece := pieces[n];
    MergeUnfolds(c, pieces);
    MergedIsStripped(c, pieces);
    if n == 0 {
      OneContains([], piece, sub);
    } else {
      MergedIsStripped(c, pieces[..n]);
      var st, next := MergeAll(c, pieces[..n]), MergeAll(c, pieces);
      if m == n {
        LastContains(c, st, piece, sub);
      } else {
        PieceInMerge(c, pieces[..n], m, sub);
        StillContains(c, st, piece, sub);
      }
    }
  }

  lemma OneContains(texts: seq<string>, last: string, sub: string)
    requires Contains(last, sub)
    ensures SomeContains(texts + [last], sub)
  {
    hide Contains;
    assert (texts + [last])[|texts|] == last;
  }

  lemma MergeUnfolds(c: Chunker, pieces: seq<string>)
    requires pieces != []
    ensures var n := |pieces| - 1;
            && MergeAll(c, pieces) == MergeStep(c, MergeAll(c, pieces[..n]), pieces[n])
            && (n == 0 && |pieces[0]| <= c.size ==> MergeAll(c, pieces) == Merging([], pieces[0]))
  {
    if |pieces| == 1 { assert pieces[..0] == []; }
  }

  lemma {:induction false} MergedIsStripped(c: Chunker, pieces: seq<string>)
    requires TidyPieces(c, pieces) && ChunkShape.GoodPieces(c, pieces) && pieces != []
    ensures MergeAll(c, pieces).current != "" && Stripped(MergeAll(c, pieces).current)
    decreases |pieces|
  {
    hide Strip, IsSpace, MergeAll, Last;
    var n := |pieces| - 1;
    MergeUnfolds(c, pieces);
    NeverEmpty(c, pieces);
    if n > 0 {
      MergedIsStripped(c, pieces[..n]);
      var st := MergeAll(c, pieces[..n]);
      var f, b := StripSplits(st.current + " " + pieces[n]);
      var f', b' := StripSplits(Last(st.current, c.overlap) + " " + pieces[n]);
    }
  }

  lemma LastContains(c: Chunker, st: Merging, piece: string, sub: string)
    requires st.current != "" && piece != "" && Stripped(piece) && Contains(piece, sub)
    ensures var next := MergeStep(c, st, piece); SomeContains(next.merged + [next.current], sub)
  {
    hide Strip, Contains, SomeContains, Last, Stripped;
    SuffixStays(st.current, piece);
    SuffixStays(Last(st.current, c.overlap), piece);
    ContainsThrough(Strip(st.current + " " + piece), piece, sub);
    ContainsThrough(Strip(Last(st.current, c.overlap) + " " + piece), piece, sub);
    var next := MergeStep(c, st, piece);
    OneContains(next.merged, next.current, sub);
  }

  lemma ContainsThrough(text: string, middle: string, sub: string)
    requires Contains(text, middle) && Contains(middle, sub)
    ensures Contains(text, sub)
  {
    hide Contains;
    var i := OccurrenceOf(text, middle);
    WithinWhole(text[..i], middle, text[i + |middle|..], sub);
    assert text == text[..i] + middle + text[i + |middle|..];
  }

  lemma OccurrenceOf(text: string, sub: string) returns (i: nat)
    requires Contains(text, sub)
    ensures OccursAt(text, sub, i)
  {
    i :| 0 <= i <= |text| && OccursAt(text, sub, i);
  }

  lemma StillContains(c: Chunker, st: Merging, piece: string, sub: string)
    requires st.current != "" && Stripped(st.current) && SomeContains(st.merged + [st.current], sub)
    ensures var next := MergeStep(c, st, piece); SomeContains(next.merged + [next.current], sub)
  {
    hide Strip, Contains, Last, Stripped;
    var next, texts := MergeStep(c, st, piece), st.merged + [st.current];
    var k :| 0 <= k < |texts| && Contains(texts[k], sub);
    var after := next.merged + [next.current];
    if k < |st.merged| {
      assert after[k] == texts[k];
    } else if |Candidate(st, piece)| <= c.size {
      PrefixStays(st.current, piece, sub);
      assert after[k] == next.current;
    } else {
      assert after[k] == texts[k];
    }
  }

  /** With the default separators, and white space that is all spaces and line ends, every word that fits into a
      chunk is whole in some chunk, up to a final stop. */
  lemma WordsStayWhole(c: Chunker, text: string, w: string, i: nat) returns (k: nat)
    requires c.separators == DEFAULT_SEPARATORS && SpacesSeparate(Normalize(text), c.separators)
    requires IsWord(w) && Core(w) != "" && |w| <= c.size && WordAt(Normalize(text), w, i)
    ensures k < |Texts(c, text)| && Contains(Texts(c, text)[k], Core(w))
  {
    hide Normalize, Split, MergeAll, SpacesSeparate, WordAt, IsWord, Core, Contains, Stripped;
    var t := Normalize(text);
    WordIsSomething(t, w, i);
    SeparatedTextIsTidy(c, text);
    ChunkShape.SplitOfNormalized(c, text);
    NormalizedIsStripped(text);
    DefaultsAreGentle();
    var m := WordInPiece(c, t, c.separators, w, i, true);
    PieceInMerge(c, Split(c, t, c.separators), m, Core(w));
    var st := MergeAll(c, Split(c, t, c.separators));
    k :| 0 <= k < |st.merged + [st.current]| && Contains((st.merged + [st.current])[k], Core(w));
  }

  lemma NormalizedIsStripped(text: string)
    ensures Stripped(Normalize(text))
  {
    hide Strip, Replace;
    var front, back := StripSplits(Replace(Replace(text, "\r\n", "\n"), "\r", "\n"));
  }

  lemma DefaultsAreGentle()
    ensures forall s | 0 <= s < |DEFAULT_SEPARATORS| :: Gentle(DEFAULT_SEPARATORS[s])
  {
  }
}
