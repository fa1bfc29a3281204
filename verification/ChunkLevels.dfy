/** The recursive split, level by level: looking for the first separator that occurs is the same as splitting on every
    separator in turn, and only what no separator can split is cut by position. */
module ChunkLevels {
  import opened Strings
  import opened Chunking
  import ChunkShape
  import ChunkStops

  /** Split on each separator in turn, as long as the text is too long. */
  function Leveled(c: Chunker, text: string, separators: seq<string>): seq<string>
    decreases |separators|, 0
  {
    if |text| <= c.size then [text]
    else if separators == [] then Windows(c, text)
    else if separators[0] == "" then Leveled(c, text, separators[1..])
    else LeveledAll(c, NonBlankParts(SplitOn(text, separators[0])), separators[1..])
  }

  function LeveledAll(c: Chunker, parts: seq<string>, separators: seq<string>): seq<string>
    decreases |separators|, |parts| + 1
  {
    if parts == [] then [] else Leveled(c, parts[0], separators) + LeveledAll(c, parts[1..], separators)
  }

  lemma OneLeveled(c: Chunker, part: string, separators: seq<string>)
    ensures LeveledAll(c, [part], separators) == Leveled(c, part, separators)
  {
    hide Leveled;
    assert LeveledAll(c, [part][1..], separators) == [];
  }

  lemma UnsplitPart(text: string, sep: string)
    requires sep != "" && !Contains(text, sep) && text != "" && Stripped(text)
    ensures NonBlankParts(SplitOn(text, sep)) == [text]
  {
    hide Strip;
    var found, front, rest := SplitOnUnfolds(text, sep);
    StrippedIsFixed(text);
    assert NonBlankParts([]) == [];
  }

  /** Skipping the separators that do not occur changes nothing. */
  lemma {:induction false} SplitIsLeveled(c: Chunker, text: string, separators: seq<string>)
    requires text != "" && Stripped(text)
    ensures Split(c, text, separators) == Leveled(c, text, separators)
    decreases |separators|, 0
  {
    hide SplitOn, NonBlankParts, Contains, Windows, Stripped, Split, SplitParts, LeveledAll;
    if |text| <= c.size {
      ShortText(c, text, separators);
    } else if separators == [] {
      NothingToSplitOn(c, text);
    } else if separators[0] == "" {
      ChunkStops.PassOver(c, text, separators);
      SplitIsLeveled(c, text, separators[1..]);
    } else if Contains(text, separators[0]) {
      ChunkStops.SplitHere(c, text, separators);
      ChunkStops.StrippedParts(SplitOn(text, separators[0]));
      PartsAreLeveled(c, NonBlankParts(SplitOn(text, separators[0])), separators[1..]);
    } else {
      ChunkStops.PassOver(c, text, separators);
      SplitIsLeveled(c, text, separators[1..]);
      UnsplitPart(text, separators[0]);
      OneLeveled(c, text, separators[1..]);
    }
  }

  lemma {:induction false} PartsAreLeveled(c: Chunker, parts: seq<string>, separators: seq<string>)
    requires forall i | 0 <= i < |parts| :: parts[i] != "" && Stripped(parts[i])
    ensures SplitParts(c, parts, separators) == LeveledAll(c, parts, separators)
    decreases |separators|, |parts| + 1
  {
    hide Split, Stripped, Leveled;
    if parts != [] {
      SplitIsLeveled(c, parts[0], separators);
      if |parts[0]| <= c.size { ShortText(c, parts[0], separators); }
      PartsAreLeveled(c, parts[1..], separators);
    }
  }

  lemma ShortText(c: Chunker, text: string, separators: seq<string>)
    requires |text| <= c.size
    ensures Split(c, text, separators) == [text] == Leveled(c, text, separators)
  {
  }

  lemma NothingToSplitOn(c: Chunker, text: string)
    requires |text| > c.size
    ensures Split(c, text, []) == Windows(c, text)
  {
  }
}
