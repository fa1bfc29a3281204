/** `RecursiveCharacterChunker`: normalise, split recursively on ever finer separators, fall back to a
    sliding window, then merge the pieces greedily while carrying an overlap from chunk to chunk. */
module Chunking {
  import opened Strings
  import opened Models

  datatype Settings = Settings(size: int, overlap: int, separators: seq<string>)

  /** The settings the constructor accepts. */
  type Chunker = c: Settings | c.size > c.overlap >= 0 witness Settings(800, 120, DEFAULT_SEPARATORS)

  const DEFAULT_SEPARATORS: seq<string> := ["\n\n", "\n", ". ", " ", ""]

  /** The constructor; None is its ValueError. */
  function Make(size: int, overlap: int, separators: seq<string>): (r: Option<Chunker>)
    ensures r.Some? <==> size > overlap >= 0
    ensures r.Some? ==> r.value.size == size && r.value.overlap == overlap && r.value.separators == separators
  {
    if size <= 0 || overlap < 0 || overlap >= size then None
    else Some(Settings(size, overlap, separators))
  }

  function Normalize(text: string): string {
    Strip(Replace(Replace(text, "\r\n", "\n"), "\r", "\n"))
  }

  // ---------- Splitting ----------

  /** The position of the first non-empty separator that occurs in the text. */
  function FirstSeparator(text: string, separators: seq<string>): (r: Option<nat>)
    ensures r.Some? ==> r.value < |separators|
    ensures r.Some? ==> separators[r.value] != "" && Contains(text, separators[r.value])
    ensures r.Some? ==> forall k | 0 <= k < r.value :: separators[k] == "" || !Contains(text, separators[k])
    ensures r.None? ==> forall k | 0 <= k < |separators| :: separators[k] == "" || !Contains(text, separators[k])
  {
    if separators == [] then None
    else if separators[0] != "" && Contains(text, separators[0]) then Some(0)
    else
      var later := FirstSeparator(text, separators[1..]);
      if later.None? then None else Some(later.value + 1)
  }

  /** Windows of `size` characters, one every `size - overlap` characters. */
  function Windows(c: Chunker, text: string): seq<string>
    decreases |text|
  {
    if text == "" then []
    else
      var step := c.size - c.overlap;
      [if c.size < |text| then text[..c.size] else text] + (if step < |text| then Windows(c, text[step..]) else [])
  }

  /** The stripped parts, without the blank ones. */
  function NonBlankParts(parts: seq<string>): seq<string> {
    if parts == [] then []
    else (if Strip(parts[0]) != "" then [Strip(parts[0])] else []) + NonBlankParts(parts[1..])
  }

  /** `_split` */
  function Split(c: Chunker, text: string, separators: seq<string>): seq<string>
    decreases |separators|, 0
  {
    if |text| <= c.size then [text]
    else
      var k := FirstSeparator(text, separators);
      if k.None? then Windows(c, text)
      else SplitParts(c, NonBlankParts(SplitOn(text, separators[k.value])), separators[k.value + 1..])
  }

  /** The loop of `_split` over its parts. */
  function SplitParts(c: Chunker, parts: seq<string>, separators: seq<string>): seq<string>
    decreases |separators|, |parts| + 1
  {
    if parts == [] then []
    else
      (if |parts[0]| > c.size then Split(c, parts[0], separators) else [parts[0]])
      + SplitParts(c, parts[1..], separators)
  }

  // ---------- Merging ----------

  datatype Merging = Merging(merged: seq<string>, current: string)

  /** `s[-n:]` for a positive n, and the empty string for n = 0. */
  function Last(s: string, n: nat): string {
    if n <= |s| then s[|s| - n..] else s
  }

  function Candidate(st: Merging, piece: string): string {
    if st.current != "" then Strip(st.current + " " + piece) else piece
  }

  /** One round of the merge loop. */
  function MergeStep(c: Chunker, st: Merging, piece: string): Merging {
    if |Candidate(st, piece)| <= c.size then
      st.(current := Candidate(st, piece))
    else if st.current != "" then
      Merging(st.merged + [st.current], Strip(Last(st.current, c.overlap) + " " + piece))
    else
      Merging(st.merged + [piece[..c.size]], piece[c.size - c.overlap..])
  }

  function MergeAll(c: Chunker, pieces: seq<string>): Merging {
    if pieces == [] then Merging([], "")
    else MergeStep(c, MergeAll(c, pieces[..|pieces| - 1]), pieces[|pieces| - 1])
  }

  function Finish(st: Merging): seq<string> {
    st.merged + (if st.current != "" then [st.current] else [])
  }

  /** The chunk texts of a document. */
  function Texts(c: Chunker, text: string): seq<string> {
    var normalized := Normalize(text);
    if normalized == "" then [] else Finish(MergeAll(c, Split(c, normalized, c.separators)))
  }

  /** The final comprehension: number every text, keep the non-empty ones. */
  function Numbered(sha: string -> Hash, texts: seq<string>): seq<Chunk> {
    if texts == [] then []
    else
      var i := |texts| - 1;
      Numbered(sha, texts[..i]) + (if texts[i] != "" then [Chunk(i, texts[i], sha(texts[i]))] else [])
  }

  function Chunks(c: Chunker, sha: string -> Hash, text: string): seq<Chunk> {
    Numbered(sha, Texts(c, text))
  }

  /** The merge loop of `chunk`. */
  method MergePieces(c: Chunker, pieces: seq<string>) returns (merged: seq<string>)
    ensures merged == Finish(MergeAll(c, pieces))
  {
    merged := [];
    var current := "";
    for n := 0 to |pieces|
      invariant Merging(merged, current) == MergeAll(c, pieces[..n])
    {
      var piece := pieces[n];
      assert pieces[..n + 1][..n] == pieces[..n];
      var candidate := if current != "" then Strip(current + " " + piece) else piece;
      if |candidate| <= c.size {
        current := candidate;
      } else if current != "" {
        merged := merged + [current];
        var prefix := if c.overlap != 0 then Last(current, c.overlap) else "";
        current := Strip(prefix + " " + piece);
      } else {
        merged := merged + [piece[..c.size]];
        current := piece[c.size - c.overlap..];
      }
    }
    assert pieces[..|pieces|] == pieces;
    if current != "" {
      merged := merged + [current];
    }
  }

  /** `chunk` */
  method ChunkText(c: Chunker, sha: string -> Hash, text: string) returns (chunks: seq<Chunk>)
    ensures chunks == Chunks(c, sha, text)
  {
    chunks := [];
    var normalized := Normalize(text);
    if normalized == "" {
      return;
    }
    var merged := MergePieces(c, Split(c, normalized, c.separators));
    for i := 0 to |merged|
      invariant chunks == Numbered(sha, merged[..i])
    {
      assert merged[..i + 1][..i] == merged[..i];
      if merged[i] != "" {
        chunks := chunks + [Chunk(i, merged[i], sha(merged[i]))];
      }
    }
    assert merged[..|merged|] == merged;
  }
}
