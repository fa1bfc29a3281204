/** Without overlap the greedy merge is optimal: whatever the text and the separators, no in-order grouping of
    the pieces into space-joined groups that fit has fewer groups than the chunker makes chunks. */
module ChunkOptimality {
  import opened Sequences
  import opened Strings
  import opened Chunking
  import ChunkShape

  type Group = seq<string>

  function Joined(group: Group): string {
    Join(group, " ")
  }

  /** The groups list the pieces in order, and the pieces of each, joined by single spaces, fit. */
  predicate Grouping(c: Chunker, groups: seq<Group>, pieces: seq<string>) {
    && Flatten(groups) == pieces
    && forall i | 0 <= i < |groups| :: groups[i] != [] && |Joined(groups[i])| <= c.size
  }

  predicate TidyPieces(c: Chunker, pieces: seq<string>) {
    forall i | 0 <= i < |pieces| :: Stripped(pieces[i]) && 0 < |pieces[i]| <= c.size
  }

  lemma {:induction false} JoinedSnoc(group: Group, piece: string)
    requires group != []
    ensures Joined(group + [piece]) == Joined(group) + " " + piece
  {
    if |group| > 1 {
      assert (group + [piece])[1..] == group[1..] + [piece];
      JoinedSnoc(group[1..], piece);
      assert Joined(group) == group[0] + " " + Joined(group[1..]);
    } else {
      assert (group + [piece])[1..] == [piece] && group == [group[0]];
      assert Join([piece], " ") == piece;
    }
  }

  /** One round of the merge loop when nothing is carried over and no piece has white space at its edges. */
  lemma TidyStep(c: Chunker, st: Merging, piece: string)
    requires c.overlap == 0 && Stripped(piece) && 0 < |piece| <= c.size && Stripped(st.current)
    ensures Stripped(MergeStep(c, st, piece).current)
    ensures MergeStep(c, st, piece)
         == if st.current == "" then Merging(st.merged, piece)
            else if |st.current| + 1 + |piece| <= c.size then Merging(st.merged, st.current + " " + piece)
            else Merging(st.merged + [st.current], piece)
  {
    StrippedIsFixed(piece);
    StripSkips(" ", piece);
    assert "" + " " + piece == " " + piece;
    if st.current != "" {
      StrippedIsFixed(st.current + " " + piece);
    }
  }

  // ---------- Greedy stays ahead ----------

  /** Where the greedy loop stands against a grouping of the same pieces: never more groups, and with
      equally many, never a longer last one. */
  predicate Ahead(c: Chunker, st: Merging, groups: seq<Group>) {
    && st.current != "" && |st.current| <= c.size
    && |st.merged| + 1 <= |groups|
    && (|st.merged| + 1 == |groups| ==> |st.current| <= |Joined(groups[|groups| - 1])|)
  }

  /** One round of the merge loop when nothing is carried over. */
  lemma GreedyStep(c: Chunker, st: Merging, piece: string)
    requires c.overlap == 0 && 0 < |piece| <= c.size && st.current != ""
    ensures var next := MergeStep(c, st, piece);
            || (next.merged == st.merged && |next.current| <= |st.current| + 1 + |piece| && |next.current| <= c.size)
            || (next.merged == st.merged + [st.current] && |next.current| <= |piece|
                && |st.current| + 1 + |piece| > c.size)
  {
    hide Strip;
    var front, back := StripSplits(st.current + " " + piece);
    var front', back' := StripSplits(piece);
    StripSkips(" ", piece);
    assert Last(st.current, 0) + " " + piece == " " + piece;
  }

  /** Taking the last piece away from a grouping leaves a grouping. */
  lemma DropLastPiece(c: Chunker, groups: seq<Group>, pieces: seq<string>) returns (rest: seq<Group>)
    requires Grouping(c, groups, pieces) && pieces != []
    ensures Grouping(c, rest, pieces[..|pieces| - 1])
    ensures groups != []
    ensures var last, piece := groups[|groups| - 1], pieces[|pieces| - 1];
            || (last == [piece] && rest == groups[..|groups| - 1])
            || (|rest| == |groups| && rest[|rest| - 1] != []
                && Joined(last) == Joined(rest[|rest| - 1]) + " " + piece)
  {
    var n, piece := |groups| - 1, pieces[|pieces| - 1];
    var last, before := groups[n], groups[..n];
    assert Flatten(groups) == Flatten(before) + last;
    assert last[|last| - 1] == piece;
    if |last| == 1 {
      rest := before;
      assert Flatten(before) == pieces[..|pieces| - 1];
    } else {
      var shorter := last[..|last| - 1];
      assert last == shorter + [piece];
      JoinedSnoc(shorter, piece);
      rest := before + [shorter];
      assert rest[..n] == before;
      assert Flatten(rest) == pieces[..|pieces| - 1];
    }
  }

  lemma {:induction false} GreedyStaysAhead(c: Chunker, pieces: seq<string>, groups: seq<Group>)
    requires c.overlap == 0 && pieces != [] && ChunkShape.GoodPieces(c, pieces) && Grouping(c, groups, pieces)
    ensures Ahead(c, MergeAll(c, pieces), groups)
    decreases |pieces|
  {
    hide MergeStep, Joined;
    var n := |pieces| - 1;
    var piece, st := pieces[n], MergeAll(c, pieces[..n]);
    var rest := DropLastPiece(c, groups, pieces);
    NeverEmpty(c, pieces);
    if n == 0 {
      FirstStep(c, piece);
      LastGroupStarts(groups, pieces);
    } else {
      GreedyStaysAhead(c, pieces[..n], rest);
      AheadStep(c, st, piece, groups, rest);
    }
  }

  lemma NeverEmpty(c: Chunker, pieces: seq<string>)
    requires ChunkShape.GoodPieces(c, pieces) && pieces != []
    ensures MergeAll(c, pieces).current != ""
  {
    hide MergeAll;
    ChunkShape.MergeAllKeeps(c, pieces);
    var st := MergeAll(c, pieces);
    assert (st.merged + [st.current])[|st.merged|] == st.current;
    assert Blank("");
  }

  lemma FirstStep(c: Chunker, piece: string)
    requires |piece| <= c.size
    ensures MergeStep(c, Merging([], ""), piece) == Merging([], piece)
  {
  }

  lemma LastGroupStarts(groups: seq<Group>, pieces: seq<string>)
    requires Flatten(groups) == pieces && |pieces| == 1 && forall i | 0 <= i < |groups| :: groups[i] != []
    ensures |groups| == 1 && Joined(groups[0]) == pieces[0]
  {
    var n := |groups| - 1;
    assert Flatten(groups[..0]) == [];
    assert groups[n] == pieces;
  }

  lemma AheadStep(c: Chunker, st: Merging, piece: string, groups: seq<Group>, rest: seq<Group>)
    requires c.overlap == 0 && 0 < |piece| <= c.size && MergeStep(c, st, piece).current != ""
    requires groups != [] && |Joined(groups[|groups| - 1])| <= c.size
    requires Ahead(c, st, rest)
    requires || (groups[|groups| - 1] == [piece] && rest == groups[..|groups| - 1])
             || (|rest| == |groups| && Joined(groups[|groups| - 1]) == Joined(rest[|rest| - 1]) + " " + piece)
    ensures Ahead(c, MergeStep(c, st, piece), groups)
  {
    hide MergeStep;
    GreedyStep(c, st, piece);
    assert Joined([piece]) == piece;
  }

  // ---------- The greedy result is itself such a grouping ----------

  ghost function JoinAll(groups: seq<Group>): seq<string> {
    seq(|groups|, i requires 0 <= i < |groups| => Joined(groups[i]))
  }

  lemma GroupAppended(c: Chunker, groups: seq<Group>, pieces: seq<string>, piece: string)
    requires Grouping(c, groups, pieces) && |piece| <= c.size
    ensures Grouping(c, groups + [[piece]], pieces + [piece])
    ensures JoinAll(groups + [[piece]]) == JoinAll(groups) + [piece]
  {
  }

  lemma GroupExtended(c: Chunker, groups: seq<Group>, pieces: seq<string>, piece: string) returns (next: seq<Group>)
    requires Grouping(c, groups, pieces) && groups != []
    requires |Joined(groups[|groups| - 1])| + 1 + |piece| <= c.size
    ensures Grouping(c, next, pieces + [piece])
    ensures JoinAll(next) == JoinAll(groups)[..|groups| - 1] + [Joined(groups[|groups| - 1]) + " " + piece]
  {
    var k := |groups| - 1;
    JoinedSnoc(groups[k], piece);
    next := groups[..k] + [groups[k] + [piece]];
    assert next[..k] == groups[..k];
    assert Flatten(next) == Flatten(groups) + [piece];
  }

  lemma GreedyGroupStep(c: Chunker, st: Merging, piece: string, groups: seq<Group>, pieces: seq<string>)
      returns (next: seq<Group>)
    requires c.overlap == 0 && Stripped(piece) && 0 < |piece| <= c.size && Stripped(st.current)
    requires Grouping(c, groups, pieces) && JoinAll(groups) == Finish(st)
    ensures Grouping(c, next, pieces + [piece]) && JoinAll(next) == Finish(MergeStep(c, st, piece))
  {
    TidyStep(c, st, piece);
    if st.current != "" && |st.current| + 1 + |piece| <= c.size {
      assert JoinAll(groups)[|groups| - 1] == st.current;
      next := GroupExtended(c, groups, pieces, piece);
      assert JoinAll(groups)[..|groups| - 1] == st.merged;
    } else {
      GroupAppended(c, groups, pieces, piece);
      next := groups + [[piece]];
    }
  }

  lemma StrippedEmpty()
    ensures Stripped("")
  {
  }

  lemma {:induction false} GreedyIsAGrouping(c: Chunker, pieces: seq<string>) returns (groups: seq<Group>)
    requires c.overlap == 0 && TidyPieces(c, pieces)
    ensures Grouping(c, groups, pieces)
    ensures JoinAll(groups) == Finish(MergeAll(c, pieces))
    ensures Stripped(MergeAll(c, pieces).current)
    decreases |pieces|
  {
    hide MergeStep, Joined, Stripped;
    groups := [];
    assert JoinAll(groups) == [];
    StrippedEmpty();
    if pieces != [] {
      var n := |pieces| - 1;
      groups := GreedyIsAGrouping(c, pieces[..n]);
      TidyStep(c, MergeAll(c, pieces[..n]), pieces[n]);
      groups := GreedyGroupStep(c, MergeAll(c, pieces[..n]), pieces[n], groups, pieces[..n]);
      assert pieces == pieces[..n] + [pieces[n]];
    }
  }

  // ---------- When pieces are tidy ----------

  /** Every white-space character of the text is a separator on its own: with the default separators,
      any text whose only white space is spaces and line ends. */
  predicate SpacesSeparate(text: string, separators: seq<string>) {
    forall i | 0 <= i < |text| && IsSpace(text[i]) :: [text[i]] in separators
  }

  lemma {:induction false} PartsComeFrom(text: string, sep: string)
    requires sep != ""
    ensures forall k, i | 0 <= k < |SplitOn(text, sep)| && 0 <= i < |SplitOn(text, sep)[k]| ::
              SplitOn(text, sep)[k][i] in text
    ensures forall k | 0 <= k < |SplitOn(text, sep)| :: !Contains(SplitOn(text, sep)[k], sep)
    decreases |text|
  {
    hide OccursAt, Find;
    var found, front, rest := SplitOnUnfolds(text, sep);
    if found {
      PartsComeFrom(rest, sep);
      var parts, later := SplitOn(text, sep), SplitOn(rest, sep);
      forall k | 0 <= k < |parts|
        ensures !Contains(parts[k], sep) && forall i | 0 <= i < |parts[k]| :: parts[k][i] in text
      {
        assert parts[k] == if k == 0 then front else later[k - 1];
        forall i | 0 <= i < |parts[k]| ensures parts[k][i] in text {
          if k > 0 { assert parts[k][i] in rest; }
        }
      }
    }
  }

  lemma {:induction false} StrippedPartsComeFrom(parts: seq<string>, p: string) returns (j: nat)
    requires p in NonBlankParts(parts)
    ensures j < |parts| && p == Strip(parts[j])
  {
    if p == Strip(parts[0]) {
      j := 0;
    } else {
      j := StrippedPartsComeFrom(parts[1..], p);
      j := j + 1;
    }
  }

  lemma SpacesStillSeparate(text: string, separators: seq<string>, k: nat, part: string)
    requires SpacesSeparate(text, separators)
    requires FirstSeparator(text, separators) == Some(k)
    requires part in NonBlankParts(SplitOn(text, separators[k]))
    ensures SpacesSeparate(part, separators[k + 1..])
  {
    hide NonBlankParts, SplitOn, Contains;
    var parts := SplitOn(text, separators[k]);
    PartsComeFrom(text, separators[k]);
    var p := StrippedPartsComeFrom(parts, part);
    var front, back := StripSplits(parts[p]);
    forall i | 0 <= i < |part| && IsSpace(part[i]) ensures [part[i]] in separators[k + 1..] {
      assert parts[p][|front| + i] == part[i];
      LaterSeparator(text, separators, k, parts[p], |front| + i);
    }
  }

  lemma LaterSeparator(text: string, separators: seq<string>, k: nat, part: string, i: nat)
    requires SpacesSeparate(text, separators) && FirstSeparator(text, separators) == Some(k)
    requires i < |part| && part[i] in text && IsSpace(part[i]) && !Contains(part, separators[k])
    ensures [part[i]] in separators[k + 1..]
  {
    ContainsCharacter(part, part[i]);
    var at :| 0 <= at < |text| && text[at] == part[i];
    ContainsCharacter(text, text[at]);
    var s :| 0 <= s < |separators| && separators[s] == [part[i]];
    assert separators[k + 1..][s - k - 1] == [part[i]];
  }

  lemma {:induction false} WindowsComeFrom(c: Chunker, text: string)
    ensures forall k, i | 0 <= k < |Windows(c, text)|
        && 0 <= i < |Windows(c, text)[k]| :: Windows(c, text)[k][i] in text
    decreases |text|
  {
    var step := c.size - c.overlap;
    if text != "" && step < |text| {
      WindowsComeFrom(c, text[step..]);
    }
  }

  lemma {:induction false} SplitIsTidy(c: Chunker, text: string, separators: seq<string>)
    requires text != "" && Stripped(text) && SpacesSeparate(text, separators)
    ensures TidyPieces(c, Split(c, text, separators))
    decreases |separators|, 0
  {
    if |text| > c.size {
      var k := FirstSeparator(text, separators);
      if k.None? {
        WindowsAreTidy(c, text, separators);
      } else {
        var parts := NonBlankParts(SplitOn(text, separators[k.value]));
        ChunkShape.PartsAreStripped(SplitOn(text, separators[k.value]));
        forall j | 0 <= j < |parts| ensures SpacesSeparate(parts[j], separators[k.value + 1..]) {
          SpacesStillSeparate(text, separators, k.value, parts[j]);
        }
        SplitPartsIsTidy(c, parts, separators[k.value + 1..]);
      }
    }
  }

  lemma WindowsAreTidy(c: Chunker, text: string, separators: seq<string>)
    requires SpacesSeparate(text, separators) && FirstSeparator(text, separators) == None
    ensures TidyPieces(c, Windows(c, text))
  {
    var windows := Windows(c, text);
    ChunkShape.WindowsFit(c, text);
    WindowsComeFrom(c, text);
    forall k, i | 0 <= k < |windows| && 0 <= i < |windows[k]| ensures !IsSpace(windows[k][i]) {
      var at :| 0 <= at < |text| && text[at] == windows[k][i];
      ContainsCharacter(text, text[at]);
    }
  }

  lemma {:induction false} SplitPartsIsTidy(c: Chunker, parts: seq<string>, separators: seq<string>)
    requires forall i | 0 <= i < |parts| ::
               Stripped(parts[i]) && !Blank(parts[i]) && SpacesSeparate(parts[i], separators)
    ensures TidyPieces(c, SplitParts(c, parts, separators))
    decreases |separators|, |parts| + 1
  {
    if parts != [] {
      assert parts[0] != "" by {
        if parts[0] == "" { assert Blank(parts[0]); }
      }
      if |parts[0]| > c.size {
        SplitIsTidy(c, parts[0], separators);
      }
      SplitPartsIsTidy(c, parts[1..], separators);
    }
  }

  // ---------- The theorem ----------

  /** Without overlap every document is cut into the fewest chunks: no grouping of its pieces has fewer groups.
      When no piece has white space at its edges, the chunks are the joined groups of a grouping. */
  lemma FewestChunks(c: Chunker, text: string)
    requires c.overlap == 0 && Normalize(text) != ""
    ensures forall groups ::
              Grouping(c, groups, Split(c, Normalize(text), c.separators)) ==> |Texts(c, text)| <= |groups|
    ensures TidyPieces(c, Split(c, Normalize(text), c.separators)) ==>
              exists groups ::
                Grouping(c, groups, Split(c, Normalize(text), c.separators)) && Texts(c, text) == JoinAll(groups)
  {
    hide Normalize, Split, MergeAll;
    var pieces := Split(c, Normalize(text), c.separators);
    ChunkShape.SplitOfNormalized(c, text);
    forall groups | Grouping(c, groups, pieces) ensures |Texts(c, text)| <= |groups| {
      if pieces == [] {
        assert MergeAll(c, []) == Merging([], "") by { NothingMerged(c); }
      } else {
        GreedyStaysAhead(c, pieces, groups);
      }
    }
    if TidyPieces(c, pieces) {
      var mine := GreedyIsAGrouping(c, pieces);
    }
  }

  lemma NothingMerged(c: Chunker)
    ensures MergeAll(c, []) == Merging([], "")
  {
  }

  /** Where every white-space character is a separator on its own, the pieces are like that. */
  lemma SeparatedTextIsTidy(c: Chunker, text: string)
    requires Normalize(text) != "" && SpacesSeparate(Normalize(text), c.separators)
    ensures TidyPieces(c, Split(c, Normalize(text), c.separators))
  {
    var front, back := StripSplits(Replace(Replace(text, "\r\n", "\n"), "\r", "\n"));
    SplitIsTidy(c, Normalize(text), c.separators);
  }

  // ---------- Plain text under the default separators ----------

  lemma {:induction false} ReplaceComesFrom(text: string, old_: string, new_: string)
    requires old_ != ""
    ensures forall i | 0 <= i < |Replace(text, old_, new_)| ::
              var ch := Replace(text, old_, new_)[i];
              ch in new_ || (ch in text && [ch] != old_)
    decreases |text|
  {
    var found, front, rest := SplitOnUnfolds(text, old_);
    var r := Replace(text, old_, new_);
    if found {
      assert SplitOn(text, old_)[1..] == SplitOn(rest, old_);
      ReplaceComesFrom(rest, old_, new_);
      assert r == front + new_ + Replace(rest, old_, new_);
    } else {
      assert r == text;
      front := text;
    }
    forall i | 0 <= i < |front| ensures [front[i]] != old_ {
      ContainsCharacter(front, front[i]);
    }
  }

  /** With the default separators these are the texts whose only white space is spaces, line feeds and carriage
      returns. */
  lemma PlainTextIsSeparated(text: string)
    requires forall i | 0 <= i < |text| && IsSpace(text[i]) :: text[i] in " \r\n"
    ensures SpacesSeparate(Normalize(text), DEFAULT_SEPARATORS)
  {
    hide SplitOn, Join, Find, Strip;
    var once := Replace(text, "\r\n", "\n");
    var twice := Replace(once, "\r", "\n");
    ReplaceComesFrom(text, "\r\n", "\n");
    ReplaceComesFrom(once, "\r", "\n");
    var front, back := StripSplits(twice);
    forall i | 0 <= i < |Normalize(text)| && IsSpace(Normalize(text)[i])
      ensures [Normalize(text)[i]] in DEFAULT_SEPARATORS
    {
      var ch := Normalize(text)[i];
      assert twice == front + (Normalize(text) + back);
      assert ch == twice[|front| + i];
      assert DEFAULT_SEPARATORS[1] == "\n" && DEFAULT_SEPARATORS[3] == " ";
    }
  }
}
