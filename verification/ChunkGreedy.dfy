/** Which pieces go into which chunk: the windows of the hard split by position, and the merge loop by the pieces that
    each chunk takes. */
module ChunkGreedy {
  import opened Strings
  import opened Chunking
  import ChunkShape

  // ---------- Windows ----------

  lemma WindowsCons(c: Chunker, text: string)
    requires text != ""
    ensures var step := c.size - c.overlap;
            Windows(c, text) == [if c.size < |text| then text[..c.size] else text]
                                + (if step < |text| then Windows(c, text[step..]) else [])
  {
  }

  /** Window i starts i steps into the text and is `size` characters long, or shorter at the end of the text. */
  lemma {:induction false} WindowAt(c: Chunker, text: string, i: nat)
    requires i < |Windows(c, text)|
    ensures var step := c.size - c.overlap;
            var end := if i * step + c.size <= |text| then i * step + c.size else |text|;
            0 <= i * step < end && Windows(c, text)[i] == text[i * step..end]
    decreases i
  {
    hide Windows;
    var step := c.size - c.overlap;
    if text == "" {
      NoWindows(c);
    } else {
      WindowsCons(c, text);
      if i > 0 {
        WindowAt(c, text[step..], i - 1);
        StepOn(text, step, i * step, (i - 1) * step, i);
      }
    }
  }

  lemma NoWindows(c: Chunker)
    ensures Windows(c, "") == []
  {
  }

  lemma StepOn(text: string, step: nat, at: int, before: int, i: nat)
    requires i > 0 && at == i * step && before == (i - 1) * step && step <= |text|
    ensures at == before + step
    ensures forall end | before <= end <= |text| - step :: text[step..][before..end] == text[at..end + step]
  {
  }

  /** There are just enough windows for their steps to reach the end of the text. */
  lemma {:induction false} WindowCount(c: Chunker, text: string)
    requires text != ""
    ensures var step, n := c.size - c.overlap, |Windows(c, text)|;
            (n - 1) * step < |text| <= n * step
    decreases |text|
  {
    hide Windows;
    var step := c.size - c.overlap;
    WindowsCons(c, text);
    if step < |text| {
      var n := |Windows(c, text[step..])|;
      WindowCount(c, text[step..]);
      assert (n + 1) * step == n * step + step && (n - 1) * step + step == n * step;
    }
  }

  // ---------- Merging ----------

  /** `s[-n:]` for n > 0, nothing for n = 0. */
  function Tail(s: string, n: nat): string {
    if |s| <= n then s else s[|s| - n..]
  }

  /** Pieces appended to a text one after the other, each time with a space, and stripped. */
  function Extended(text: string, pieces: seq<string>): string {
    if pieces == [] then text
    else Strip(Extended(text, pieces[..|pieces| - 1]) + " " + pieces[|pieces| - 1])
  }

  /** What a chunk starts from: the first piece, behind the tail of the chunk before, if there is one. */
  function StartsFrom(c: Chunker, chunks: seq<string>, pieces: seq<string>, bounds: seq<nat>, i: nat): string
    requires i < |bounds| && bounds[i] < |pieces| && i <= |chunks|
  {
    if i == 0 then pieces[bounds[i]] else Strip(Tail(chunks[i - 1], c.overlap) + " " + pieces[bounds[i]])
  }

  /** Chunk i takes the pieces from bounds[i] up to bounds[i + 1]: at least one, and as many more as fit. */
  ghost predicate Takes(c: Chunker, chunks: seq<string>, pieces: seq<string>, bounds: seq<nat>, i: nat)
    requires i < |chunks| && |bounds| == |chunks| + 1
  {
    var from, to := bounds[i], bounds[i + 1];
    && from < to <= |pieces|
    && chunks[i] == Extended(StartsFrom(c, chunks, pieces, bounds, i), pieces[from + 1..to])
    && forall m | from + 1 < m <= to :: Fits(c, StartsFrom(c, chunks, pieces, bounds, i), pieces, from, m)
  }

  /** A text with the pieces after number `from` and before number m is not too long. */
  predicate Fits(c: Chunker, start: string, pieces: seq<string>, from: nat, m: nat)
    requires from < m <= |pieces|
  {
    |Extended(start, pieces[from + 1..m])| <= c.size
  }

  /** A chunk is closed only when the next piece does not fit. */
  ghost predicate Full(c: Chunker, chunks: seq<string>, pieces: seq<string>, bounds: seq<nat>, i: nat)
    requires i < |chunks| && |bounds| == |chunks| + 1
  {
    bounds[i + 1] < |pieces| && |Strip(chunks[i] + " " + pieces[bounds[i + 1]])| > c.size
  }

  ghost predicate Greedy(c: Chunker, chunks: seq<string>, pieces: seq<string>, bounds: seq<nat>) {
    && |bounds| == |chunks| + 1 && bounds[0] == 0 && bounds[|chunks|] == |pieces|
    && (forall i | 0 <= i < |chunks| :: Takes(c, chunks, pieces, bounds, i))
    && (forall i | 0 <= i < |chunks| - 1 :: Full(c, chunks, pieces, bounds, i))
  }

  lemma LastIsTail(s: string, n: nat)
    ensures Last(s, n) == Tail(s, n)
  {
  }

  /** What holds of a chunk stays when other chunks and pieces come after it. */
  lemma TakesStays(c: Chunker, chunks: seq<string>, pieces: seq<string>, bounds: seq<nat>, chunks': seq<string>,
                   pieces': seq<string>, bounds': seq<nat>, i: nat)
    requires i < |chunks| && |bounds| == |chunks| + 1 && i < |chunks'| && |bounds'| == |chunks'| + 1
    requires pieces <= pieces' && chunks[..i + 1] == chunks'[..i + 1] && bounds[..i + 2] == bounds'[..i + 2]
    requires Takes(c, chunks, pieces, bounds, i)
    ensures Takes(c, chunks', pieces', bounds', i)
    ensures i < |chunks| - 1 && Full(c, chunks, pieces, bounds, i) ==> Full(c, chunks', pieces', bounds', i)
  {
    hide Extended, Strip, Tail;
    assert chunks[i] == chunks[..i + 1][i] == chunks'[i];
    assert bounds[i] == bounds[..i + 2][i] == bounds'[i];
    assert bounds[i + 1] == bounds[..i + 2][i + 1] == bounds'[i + 1];
    if i > 0 { assert chunks[i - 1] == chunks[..i + 1][i - 1] == chunks'[i - 1]; }
    var from, to := bounds[i], bounds[i + 1];
    SameSlice(pieces, pieces', from, to);
    assert pieces[from] == pieces'[from];
    var start := StartsFrom(c, chunks, pieces, bounds, i);
    assert StartsFrom(c, chunks', pieces', bounds', i) == start;
    forall m | from + 1 < m <= to ensures Fits(c, start, pieces', from, m) {
      assert Fits(c, start, pieces, from, m);
      SameSlice(pieces, pieces', from, m);
    }
  }

  lemma SameSlice(pieces: seq<string>, pieces': seq<string>, from: nat, to: nat)
    requires pieces <= pieces' && from < to <= |pieces|
    ensures pieces[from + 1..to] == pieces'[from + 1..to]
  {
  }

  lemma ExtendedSnoc(text: string, pieces: seq<string>, piece: string)
    ensures Extended(text, pieces + [piece]) == Strip(Extended(text, pieces) + " " + piece)
  {
  }

  /** The next piece fits: the last chunk takes it. */
  lemma GreedyExtends(c: Chunker, chunks: seq<string>, pieces: seq<string>, bounds: seq<nat>, piece: string)
    requires chunks != [] && Greedy(c, chunks, pieces, bounds)
    requires |Strip(chunks[|chunks| - 1] + " " + piece)| <= c.size
    ensures var n := |chunks| - 1;
            Greedy(c, chunks[..n] + [Strip(chunks[n] + " " + piece)], pieces + [piece], bounds[n + 1 := |pieces| + 1])
  {
    hide Strip, Extended, Tail;
    var n := |chunks| - 1;
    var more, all := chunks[..n] + [Strip(chunks[n] + " " + piece)], pieces + [piece];
    var ends := bounds[n + 1 := |pieces| + 1];
    forall i | 0 <= i < n ensures Takes(c, more, all, ends, i) && Full(c, more, all, ends, i) {
      assert bounds[..i + 2] == ends[..i + 2] && chunks[..i + 1] == more[..i + 1];
      TakesStays(c, chunks, pieces, bounds, more, all, ends, i);
      assert Full(c, chunks, pieces, bounds, i);
      if i + 1 == n { assert bounds[i + 1] == ends[i + 1]; }
    }
    assert Takes(c, chunks, pieces, bounds, n);
    var from := bounds[n];
    var start := StartsFrom(c, chunks, pieces, bounds, n);
    assert StartsFrom(c, more, all, ends, n) == start;
    assert all[from + 1..|all|] == pieces[from + 1..] + [piece];
    ExtendedSnoc(start, pieces[from + 1..], piece);
    assert pieces[from + 1..] == pieces[from + 1..bounds[n + 1]];
    forall m | from + 1 < m <= |all| ensures Fits(c, start, all, from, m) {
      if m <= |pieces| {
        assert Fits(c, start, pieces, from, m);
        SameSlice(pieces, all, from, m);
      }
    }
  }

  /** The next piece does not fit: it starts a chunk of its own, behind the tail of the last one. */
  lemma GreedyCloses(c: Chunker, chunks: seq<string>, pieces: seq<string>, bounds: seq<nat>, piece: string)
    requires chunks != [] && Greedy(c, chunks, pieces, bounds)
    requires |Strip(chunks[|chunks| - 1] + " " + piece)| > c.size
    ensures Greedy(c, chunks + [Strip(Tail(chunks[|chunks| - 1], c.overlap) + " " + piece)], pieces + [piece],
                   bounds + [|pieces| + 1])
  {
    hide Strip, Tail;
    var n := |chunks| - 1;
    var next := Strip(Tail(chunks[n], c.overlap) + " " + piece);
    var more, all, ends := chunks + [next], pieces + [piece], bounds + [|pieces| + 1];
    forall i | 0 <= i <= n ensures Takes(c, more, all, ends, i) && Full(c, more, all, ends, i) {
      assert bounds[..i + 2] == ends[..i + 2] && chunks[..i + 1] == more[..i + 1];
      TakesStays(c, chunks, pieces, bounds, more, all, ends, i);
      if i < n { assert Full(c, chunks, pieces, bounds, i); }
    }
    assert all[|pieces| + 1..|all|] == [];
    assert Takes(c, more, all, ends, n + 1);
  }

  lemma OnePiece(c: Chunker, piece: string)
    ensures Greedy(c, [piece], [piece], [0, 1])
  {
    assert [piece][1..1] == [];
    assert Takes(c, [piece], [piece], [0, 1], 0);
  }

  lemma {:induction false} MergeIsGreedy(c: Chunker, pieces: seq<string>) returns (bounds: seq<nat>)
    requires ChunkShape.GoodPieces(c, pieces) && pieces != []
    ensures var st := MergeAll(c, pieces);
            st.current != "" && Greedy(c, st.merged + [st.current], pieces, bounds)
    decreases |pieces|
  {
    hide Strip, Greedy, Last, Tail, MergeAll;
    CurrentIsNotEmpty(c, pieces);
    var n := |pieces| - 1;
    MergeAllUnfolds(c, pieces);
    assert pieces == pieces[..n] + [pieces[n]];
    if n == 0 {
      bounds := [0, 1];
      OnePiece(c, pieces[0]);
      assert pieces == [pieces[0]] && [] + [pieces[0]] == [pieces[0]];
    } else {
      bounds := MergeIsGreedy(c, pieces[..n]);
      var st := MergeAll(c, pieces[..n]);
      var chunks := st.merged + [st.current];
      LastIsTail(st.current, c.overlap);
      GreedyLength(c, chunks, pieces[..n], bounds);
      if |Strip(st.current + " " + pieces[n])| <= c.size {
        GreedyExtends(c, chunks, pieces[..n], bounds, pieces[n]);
        assert chunks[..|chunks| - 1] == st.merged;
        bounds := bounds[|chunks| := n + 1];
      } else {
        GreedyCloses(c, chunks, pieces[..n], bounds, pieces[n]);
        bounds := bounds + [n + 1];
      }
    }
  }

  lemma GreedyLength(c: Chunker, chunks: seq<string>, pieces: seq<string>, bounds: seq<nat>)
    requires Greedy(c, chunks, pieces, bounds)
    ensures |bounds| == |chunks| + 1
  {
  }

  lemma MergeAllUnfolds(c: Chunker, pieces: seq<string>)
    requires ChunkShape.GoodPieces(c, pieces) && pieces != []
    ensures var n := |pieces| - 1;
            && MergeAll(c, pieces) == MergeStep(c, MergeAll(c, pieces[..n]), pieces[n])
            && (n == 0 ==> MergeAll(c, pieces) == Merging([], pieces[0]))
  {
    if |pieces| == 1 { assert pieces[..0] == []; }
  }

  lemma CurrentIsNotEmpty(c: Chunker, pieces: seq<string>)
    requires ChunkShape.GoodPieces(c, pieces) && pieces != []
    ensures MergeAll(c, pieces).current != ""
  {
    hide MergeAll;
    ChunkShape.MergeAllKeeps(c, pieces);
    var st := MergeAll(c, pieces);
    assert (st.merged + [st.current])[|st.merged|] == st.current;
    assert Blank("");
  }

  /** The chunks of a document: each takes the next piece, behind the tail of the chunk before it, and then every
      further piece that fits; it ends only where the next piece does not fit. */
  lemma ChunksAreGreedy(c: Chunker, text: string) returns (bounds: seq<nat>)
    requires Texts(c, text) != []
    ensures Greedy(c, Texts(c, text), Split(c, Normalize(text), c.separators), bounds)
  {
    hide Normalize, Split, MergeAll, Greedy;
    var pieces := Split(c, Normalize(text), c.separators);
    ChunkShape.SplitOfNormalized(c, text);
    if pieces == [] {
      NothingMerged(c);
    } else {
      bounds := MergeIsGreedy(c, pieces);
    }
  }

  lemma NothingMerged(c: Chunker)
    ensures MergeAll(c, []) == Merging([], "")
  {
  }
}
