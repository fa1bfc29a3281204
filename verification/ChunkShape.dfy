/** What the chunks of a document look like: never blank, numbered 0..n-1, bounded in length, and each
    beginning with the tail of its predecessor. */
module ChunkShape {
  import opened Strings
  import opened Models
  import opened Chunking

  // ---------- Pieces ----------

  /** What `_split` hands to the merge loop: pieces that are not empty and fit, the first not blank. */
  predicate GoodPieces(c: Chunker, pieces: seq<string>) {
    && (forall i | 0 <= i < |pieces| :: 0 < |pieces[i]| <= c.size)
    && (pieces != [] ==> !Blank(pieces[0]))
  }

  lemma {:induction false} PartsAreStripped(parts: seq<string>)
    ensures forall i | 0 <= i < |NonBlankParts(parts)| ::
              Stripped(NonBlankParts(parts)[i]) && !Blank(NonBlankParts(parts)[i])
  {
    if parts != [] {
      PartsAreStripped(parts[1..]);
      var front, back := StripSplits(parts[0]);
      var p := Strip(parts[0]);
      if p != "" { assert !IsSpace(p[0]); }
    }
  }

  lemma {:induction false} WindowsFit(c: Chunker, text: string)
    ensures forall i | 0 <= i < |Windows(c, text)| :: 0 < |Windows(c, text)[i]| <= c.size
    ensures text != "" ==> Windows(c, text) != [] && Windows(c, text)[0][0] == text[0]
    decreases |text|
  {
    if text != "" && c.size - c.overlap < |text| {
      var window := if c.size < |text| then text[..c.size] else text;
      assert Windows(c, text) == [window] + Windows(c, text[c.size - c.overlap..]);
      WindowsFit(c, text[c.size - c.overlap..]);
    }
  }

  lemma {:induction false} SplitIsGood(c: Chunker, text: string, separators: seq<string>)
    requires text != "" && Stripped(text)
    ensures GoodPieces(c, Split(c, text, separators))
    decreases |separators|, 0
  {
    assert !IsSpace(text[0]);
    if |text| > c.size {
      var k := FirstSeparator(text, separators);
      if k.None? {
        WindowsFit(c, text);
      } else {
        var parts := NonBlankParts(SplitOn(text, separators[k.value]));
        PartsAreStripped(SplitOn(text, separators[k.value]));
        SplitPartsIsGood(c, parts, separators[k.value + 1..]);
      }
    }
  }

  lemma {:induction false} SplitPartsIsGood(c: Chunker, parts: seq<string>, separators: seq<string>)
    requires forall i | 0 <= i < |parts| :: Stripped(parts[i]) && !Blank(parts[i])
    ensures GoodPieces(c, SplitParts(c, parts, separators))
    decreases |separators|, |parts| + 1
  {
    if parts != [] {
      if |parts[0]| > c.size {
        SplitIsGood(c, parts[0], separators);
      }
      SplitPartsIsGood(c, parts[1..], separators);
    }
  }

  // ---------- The merge invariant ----------

  function Bound(c: Chunker): int {
    if c.overlap == 0 then c.size else c.size + c.overlap + 1
  }

  /** Bounded texts that are not blank, each beginning with the stripped tail of its predecessor. */
  predicate Chained(c: Chunker, texts: seq<string>) {
    && (forall i | 0 <= i < |texts| :: !Blank(texts[i]) && |texts[i]| <= Bound(c))
    && (forall i | 0 < i < |texts| :: Strip(Last(texts[i - 1], c.overlap)) <= texts[i])
  }

  /** `current` is longer than `chunk_size` only after an overlap was carried over, and is then
      stripped, so that its tail is never blank. */
  predicate MergeInvariant(c: Chunker, st: Merging) {
    && Chained(c, st.merged + [st.current])
    && (|st.current| > c.size || st.merged != [] ==> Stripped(st.current))
  }

  lemma NonBlankAfterStrip(a: string, b: string)
    requires !Blank(a) || !Blank(b)
    ensures !Blank(Strip(a + b))
  {
    var i :| 0 <= i < |a + b| && !IsSpace((a + b)[i]) by {
      if !Blank(a) {
        var i :| 0 <= i < |a| && !IsSpace(a[i]);
        assert (a + b)[i] == a[i];
      } else {
        var i :| 0 <= i < |b| && !IsSpace(b[i]);
        assert (a + b)[|a| + i] == b[i];
      }
    }
    var front, back := StripSplits(a + b);
    var s := Strip(a + b);
    assert !IsSpace(s[0]) && !Blank(s);
  }

  /** Carrying the overlap: never blank, within the bound, and it starts with the stripped overlap. */
  lemma CarryOver(c: Chunker, current: string, piece: string)
    requires |piece| <= c.size
    requires !Blank(current) && |current| <= Bound(c) && (|current| > c.size ==> Stripped(current))
    requires |Strip(current + " " + piece)| > c.size
    ensures var next := Strip(Last(current, c.overlap) + " " + piece);
            && !Blank(next) && Stripped(next) && |next| <= Bound(c)
            && Strip(Last(current, c.overlap)) <= next
  {
    hide Strip, IsSpace, Blank, Stripped;
    var prefix := Last(current, c.overlap);
    var whole := prefix + " " + piece;
    assert whole == prefix + (" " + piece);
    SomethingIsCarried(c, current, piece);
    NonBlankAfterStrip(prefix, " " + piece);
    var front, back := StripSplits(whole);
    StrippedFrontStays(prefix, " " + piece);
    if c.overlap == 0 {
      assert whole == " " + piece;
      BlankFrontIsCut(piece);
      var f, b := StripSplits(piece);
    }
  }

  lemma SomethingIsCarried(c: Chunker, current: string, piece: string)
    requires |piece| <= c.size
    requires !Blank(current) && |current| <= Bound(c) && (|current| > c.size ==> Stripped(current))
    requires |Strip(current + " " + piece)| > c.size
    ensures !Blank(Last(current, c.overlap)) || !Blank(" " + piece)
  {
    hide Strip;
    if Blank(piece) {
      StripDropsBlankTail(current, " " + piece);
      assert current + " " + piece == current + (" " + piece);
      var f, b := StripSplits(current);
      var prefix := Last(current, c.overlap);
      assert prefix[|prefix| - 1] == current[|current| - 1];
      assert !Blank(prefix);
    } else {
      var i :| 0 <= i < |piece| && !IsSpace(piece[i]);
      assert (" " + piece)[i + 1] == piece[i];
    }
  }

  lemma StrippedFrontStays(a: string, b: string)
    ensures Strip(a) <= Strip(a + b)
  {
    hide Strip, IsSpace;
    var front, back := StripSplits(a);
    var p := Strip(a);
    if p != "" {
      assert a + b == front + (p + (back + b));
      StripSkips(front, p + (back + b));
      StripKeepsFront(p, back + b);
    }
  }

  lemma BlankFrontIsCut(text: string)
    ensures Strip(" " + text) == Strip(text)
  {
  }

  lemma StripDropsBlankTail(a: string, b: string)
    requires Blank(b)
    ensures Strip(a + b) == Strip(a)
  {
    var f, t := StripSplits(a);
    var s := Strip(a);
    if s == "" {
      assert Blank(a + b);
      var f', t' := StripSplits(a + b);
    } else {
      assert a + b == f + (s + (t + b));
      StripSkips(f, s + (t + b));
      StripKeepsFront(s, t + b);
    }
  }

  lemma ChainGrows(c: Chunker, texts: seq<string>, next: string)
    requires Chained(c, texts) && !Blank(next) && |next| <= Bound(c)
    requires texts != [] ==> Strip(Last(texts[|texts| - 1], c.overlap)) <= next
    ensures Chained(c, texts + [next])
  {
  }

  lemma MergeStepKeeps(c: Chunker, st: Merging, piece: string)
    requires 0 < |piece| <= c.size && MergeInvariant(c, st)
    ensures MergeInvariant(c, MergeStep(c, st, piece))
  {
    var texts := st.merged + [st.current];
    assert texts[|st.merged|] == st.current && texts[..|st.merged|] == st.merged;
    assert !Blank(st.current) && Blank("");
    assert st.current + " " + piece == st.current + (" " + piece);
    if |Candidate(st, piece)| <= c.size {
      ExtendsCurrent(st.current, " " + piece);
      if st.merged != [] {
        StripKeepsFront(st.current, " " + piece);
        assert st.merged[|st.merged| - 1] == texts[|st.merged| - 1];
      }
      ChainGrows(c, st.merged, Candidate(st, piece));
    } else {
      CarryOver(c, st.current, piece);
      ChainGrows(c, texts, MergeStep(c, st, piece).current);
    }
  }

  lemma ExtendsCurrent(current: string, more: string)
    requires !Blank(current)
    ensures !Blank(Strip(current + more)) && Stripped(Strip(current + more))
  {
    NonBlankAfterStrip(current, more);
    var front, back := StripSplits(current + more);
  }

  lemma {:induction false} MergeAllKeeps(c: Chunker, pieces: seq<string>)
    requires GoodPieces(c, pieces) && pieces != []
    ensures MergeInvariant(c, MergeAll(c, pieces))
  {
    var n := |pieces| - 1;
    if n == 0 {
      assert MergeAll(c, pieces[..0]) == Merging([], "");
    } else {
      MergeAllKeeps(c, pieces[..n]);
      MergeStepKeeps(c, MergeAll(c, pieces[..n]), pieces[n]);
    }
  }

  // ---------- The theorems ----------

  lemma SplitOfNormalized(c: Chunker, text: string)
    requires Normalize(text) != ""
    ensures GoodPieces(c, Split(c, Normalize(text), c.separators))
  {
    var front, back := StripSplits(Replace(Replace(text, "\r\n", "\n"), "\r", "\n"));
    SplitIsGood(c, Normalize(text), c.separators);
  }

  lemma TextsAreChained(c: Chunker, text: string)
    ensures Chained(c, Texts(c, text))
  {
    if Normalize(text) != "" {
      SplitOfNormalized(c, text);
      var pieces := Split(c, Normalize(text), c.separators);
      if pieces != [] {
        MergeAllKeeps(c, pieces);
        var st := MergeAll(c, pieces);
        assert !Blank(st.current) by {
          assert (st.merged + [st.current])[|st.merged|] == st.current;
        }
        assert st.current != "";
      }
    }
  }

  /** No chunk is blank; none is longer than `size + overlap + 1`, or than `size` without overlap. */
  lemma LengthBound(c: Chunker, text: string, i: nat)
    requires i < |Texts(c, text)|
    ensures !Blank(Texts(c, text)[i])
    ensures |Texts(c, text)[i]| <= if c.overlap == 0 then c.size else c.size + c.overlap + 1
  {
    TextsAreChained(c, text);
  }

  /** Each chunk begins with the stripped last `overlap` characters of the one before. */
  lemma OverlapContinuity(c: Chunker, text: string, i: nat)
    requires 0 < i < |Texts(c, text)|
    ensures var before := Texts(c, text)[i - 1];
            var tail := if |before| <= c.overlap then before else before[|before| - c.overlap..];
            Strip(tail) <= Texts(c, text)[i]
  {
    hide Strip, Texts, Bound;
    TextsAreChained(c, text);
  }

  /** The `else` branch of the merge loop is dead: a candidate that does not fit always extends a
      non-empty `current`. */
  lemma ElseBranchIsDead(c: Chunker, text: string, n: nat)
    requires Normalize(text) != "" && n < |Split(c, Normalize(text), c.separators)|
    ensures var pieces := Split(c, Normalize(text), c.separators);
            var st := MergeAll(c, pieces[..n]);
            |Candidate(st, pieces[n])| > c.size ==> st.current != ""
  {
    SplitOfNormalized(c, text);
  }

  lemma {:induction false} NumberedKeepsAll(sha: string -> Hash, texts: seq<string>)
    requires forall i | 0 <= i < |texts| :: texts[i] != ""
    ensures |Numbered(sha, texts)| == |texts|
    ensures forall i | 0 <= i < |texts| :: Numbered(sha, texts)[i] == Chunk(i, texts[i], sha(texts[i]))
  {
    if texts != [] {
      NumberedKeepsAll(sha, texts[..|texts| - 1]);
    }
  }

  /** The final `if value` filter never acts: chunk i carries index i, the i-th text and its hash. */
  lemma ChunksAreNumbered(c: Chunker, sha: string -> Hash, text: string)
    ensures |Chunks(c, sha, text)| == |Texts(c, text)|
    ensures forall i | 0 <= i < |Texts(c, text)| ::
              Chunks(c, sha, text)[i] == Chunk(i, Texts(c, text)[i], sha(Texts(c, text)[i]))
  {
    forall i | 0 <= i < |Texts(c, text)| ensures Texts(c, text)[i] != "" {
      LengthBound(c, text, i);
    }
    NumberedKeepsAll(sha, Texts(c, text));
  }

  // ---------- The bound is attained ----------

  function As(n: nat): string {
    seq(n, _ => 'a')
  }

  lemma NoOccurrence(n: nat, sep: string)
    requires sep != "" && sep[0] != 'a'
    ensures !Contains(As(n), sep) && SplitOn(As(n), sep) == [As(n)]
  {
  }

  lemma {:induction false} MergedOnlyGrows(c: Chunker, pieces: seq<string>, n: nat)
    requires n <= |pieces|
    ensures MergeAll(c, pieces[..n]).merged <= MergeAll(c, pieces).merged
    decreases |pieces| - n
  {
    if n == |pieces| {
      assert pieces[..n] == pieces;
    } else {
      assert pieces[..n + 1][..n] == pieces[..n];
      MergedOnlyGrows(c, pieces, n + 1);
    }
  }

  lemma ANotBlank(s: string)
    requires s != "" && s[0] == 'a'
    ensures !Blank(s)
  {
  }

  lemma AsWindows(c: Chunker) returns (rest: seq<string>)
    requires c.overlap > 0
    ensures rest != [] && !Blank(rest[0])
    ensures Windows(c, As(c.size + (c.size - c.overlap))) == [As(c.size), As(c.size)] + rest
  {
    var step := c.size - c.overlap;
    var text := As(c.size + step);
    hide IsSpace;
    assert text[..c.size] == As(c.size) && text[step..] == As(c.size);
    assert As(c.size)[step..] == As(c.overlap);
    rest := Windows(c, As(c.overlap));
    WindowsFit(c, As(c.overlap));
    ANotBlank(rest[0]);
    assert Windows(c, As(c.size)) == [As(c.size)] + rest;
    assert Windows(c, text) == [As(c.size)] + Windows(c, As(c.size));
  }

  lemma AsMerge(c: Chunker, pieces: seq<string>)
    requires c.overlap > 0 && |pieces| >= 3
    requires pieces[0] == pieces[1] == As(c.size) && !Blank(pieces[2])
    ensures |MergeAll(c, pieces).merged| >= 2 && |MergeAll(c, pieces).merged[1]| == c.size + c.overlap + 1
  {
    var A := As(c.size);
    assert pieces[..1][..0] == [] && pieces[..2][..1] == pieces[..1] && pieces[..3][..2] == pieces[..2];
    assert MergeAll(c, pieces[..1]) == MergeStep(c, Merging([], ""), A) == Merging([], A);
    StrippedIsFixed(A + " " + A);
    var second := Last(A, c.overlap) + " " + A;
    assert second[|second| - 1] == 'a' && second[0] == 'a';
    StrippedIsFixed(second);
    assert MergeAll(c, pieces[..2]) == MergeStep(c, Merging([], A), A) == Merging([A], second);
    StripKeepsFront(second, " " + pieces[2]);
    assert second + " " + pieces[2] == second + (" " + pieces[2]);
    assert MergeAll(c, pieces[..3]).merged == [A, second];
    MergedOnlyGrows(c, pieces, 3);
  }

  /** For every chunk size and positive overlap some document has a chunk of exactly
      `size + overlap + 1` characters: the bound of LengthBound cannot be lowered. */
  lemma BoundIsAttained(c: Chunker)
    requires c.overlap > 0 && c.separators == DEFAULT_SEPARATORS
    ensures exists text, i | 0 <= i < |Texts(c, text)| :: |Texts(c, text)[i]| == c.size + c.overlap + 1
  {
    var n := c.size + (c.size - c.overlap);
    var text := As(n);
    NoOccurrence(n, "\r\n");
    NoOccurrence(n, "\r");
    StrippedIsFixed(text);
    assert Normalize(text) == text;
    forall k | 0 <= k < |c.separators| && c.separators[k] != "" ensures !Contains(text, c.separators[k]) {
      NoOccurrence(n, c.separators[k]);
    }
    var rest := AsWindows(c);
    assert Split(c, text, c.separators) == [As(c.size), As(c.size)] + rest;
    AsMerge(c, [As(c.size), As(c.size)] + rest);
    assert |Texts(c, text)[1]| == c.size + c.overlap + 1;
  }
}
