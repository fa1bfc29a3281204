/** What the chunks keep of the text: nothing is lost but white space and separator characters, nothing
    is reordered, and without overlap nothing is repeated. */
module ChunkConservation {
  import opened Strings
  import opened Chunking
  import ChunkShape

  // ---------- What is kept ----------

  /** Characters the chunker may drop: white space, and every character of a separator. */
  predicate Droppable(c: char, separators: seq<string>) {
    IsSpace(c) || exists k | 0 <= k < |separators| :: c in separators[k]
  }

  function Kept(s: string, separators: seq<string>): string {
    if s == "" then ""
    else (if Droppable(s[0], separators) then "" else [s[0]]) + Kept(s[1..], separators)
  }

  function Concat(texts: seq<string>): string {
    if texts == [] then "" else texts[0] + Concat(texts[1..])
  }

  predicate Subsequence(a: string, b: string) {
    a == "" || (b != "" && ((a[0] == b[0] && Subsequence(a[1..], b[1..])) || Subsequence(a, b[1..])))
  }

  /** Everything of `a` is in `b`, in order; and nothing else when there is no overlap. */
  predicate Covers(c: Chunker, a: string, b: string) {
    Subsequence(a, b) && (c.overlap == 0 ==> a == b)
  }

  lemma {:induction false} KeptConcat(a: string, b: string, separators: seq<string>)
    ensures Kept(a + b, separators) == Kept(a, separators) + Kept(b, separators)
  {
    if a == "" {
      assert a + b == b;
    } else {
      assert (a + b)[1..] == a[1..] + b;
      KeptConcat(a[1..], b, separators);
    }
  }

  lemma {:induction false} KeptNothing(s: string, separators: seq<string>)
    requires forall i | 0 <= i < |s| :: Droppable(s[i], separators)
    ensures Kept(s, separators) == ""
  {
    if s != "" { KeptNothing(s[1..], separators); }
  }

  lemma KeptSurrounded(front: string, s: string, back: string, separators: seq<string>)
    requires Blank(front) && Blank(back)
    ensures Kept(front + s + back, separators) == Kept(s, separators)
  {
    KeptConcat(front + s, back, separators);
    KeptConcat(front, s, separators);
    KeptNothing(front, separators);
    KeptNothing(back, separators);
  }

  lemma KeptStrip(s: string, separators: seq<string>)
    ensures Kept(Strip(s), separators) == Kept(s, separators)
  {
    var front, back := StripSplits(s);
    KeptSurrounded(front, Strip(s), back, separators);
  }

  lemma {:induction false} SubsequenceReflexive(a: string)
    ensures Subsequence(a, a)
  {
    if a != "" { SubsequenceReflexive(a[1..]); }
  }

  lemma {:induction false} SubsequenceConcat(a: string, b: string, a': string, b': string)
    requires Subsequence(a, b) && Subsequence(a', b')
    ensures Subsequence(a + a', b + b')
    decreases |b|
  {
    if b == "" {
      assert a + a' == a' && b + b' == b';
    } else {
      assert (b + b')[1..] == b[1..] + b';
      if a == "" {
        SubsequenceConcat("", b[1..], a', b');
        assert a + a' == a';
        assert "" + a' == a';
      } else if a[0] == b[0] && Subsequence(a[1..], b[1..]) {
        assert (a + a')[1..] == a[1..] + a';
        SubsequenceConcat(a[1..], b[1..], a', b');
      } else {
        SubsequenceConcat(a, b[1..], a', b');
      }
    }
  }

  lemma CoversConcat(c: Chunker, a: string, b: string, a': string, b': string)
    requires Covers(c, a, b) && Covers(c, a', b')
    ensures Covers(c, a + a', b + b')
  {
    SubsequenceConcat(a, b, a', b');
  }

  lemma CoversItself(c: Chunker, a: string)
    ensures Covers(c, a, a)
  {
    SubsequenceReflexive(a);
  }

  lemma {:induction false} ConcatAppend(texts: seq<string>, more: seq<string>)
    ensures Concat(texts + more) == Concat(texts) + Concat(more)
  {
    if texts == [] {
      assert texts + more == more;
    } else {
      assert (texts + more)[1..] == texts[1..] + more;
      ConcatAppend(texts[1..], more);
    }
  }

  // ---------- Splitting ----------

  /** Separators used by a recursive call are among those of the chunker. */
  predicate Among(separators: seq<string>, all: seq<string>) {
    forall k | 0 <= k < |separators| :: separators[k] in all
  }

  lemma KeptAround(front: string, dropped: string, back: string, all: seq<string>)
    requires forall i | 0 <= i < |dropped| :: Droppable(dropped[i], all)
    ensures Kept(front + dropped + back, all) == Kept(front, all) + Kept(back, all)
  {
    hide Kept, Droppable;
    KeptConcat(front + dropped, back, all);
    KeptConcat(front, dropped, all);
    KeptNothing(dropped, all);
  }

  lemma NonBlankPartsKeepHead(part: string, parts: seq<string>, all: seq<string>)
    ensures Kept(Concat(NonBlankParts([part] + parts)), all)
        == Kept(part, all) + Kept(Concat(NonBlankParts(parts)), all)
  {
    var head := Strip(part);
    KeptStrip(part, all);
    assert ([part] + parts)[1..] == parts;
    if head == "" {
      assert NonBlankParts([part] + parts) == NonBlankParts(parts);
    } else {
      assert NonBlankParts([part] + parts) == [head] + NonBlankParts(parts);
      KeptConcat(head, Concat(NonBlankParts(parts)), all);
    }
  }

  lemma {:induction false} SplitOnKeeps(text: string, sep: string, all: seq<string>)
    requires sep != "" && sep in all
    ensures Kept(Concat(NonBlankParts(SplitOn(text, sep))), all) == Kept(text, all)
    decreases |text|
  {
    var found, front, rest := SplitOnUnfolds(text, sep);
    if !found {
      NonBlankPartsKeepHead(text, [], all);
      assert [text] + [] == [text];
    } else {
      SplitOnKeeps(rest, sep, all);
      NonBlankPartsKeepHead(front, SplitOn(rest, sep), all);
      KeptAround(front, sep, rest, all);
    }
  }

  /** The first window, and the text it leaves for the windows after it. */
  lemma WindowsUnfold(c: Chunker, text: string) returns (front: string, back: string, rest: string)
    requires text != ""
    ensures text == front + rest && |rest| < |text| && (c.overlap == 0 ==> back == "")
    ensures Windows(c, text) == [front + back] + Windows(c, rest)
  {
    var step := c.size - c.overlap;
    if step < |text| {
      var window := if c.size < |text| then text[..c.size] else text;
      front, back, rest := text[..step], window[step..], text[step..];
      assert window == front + back && text == front + rest;
    } else {
      front, back, rest := text, "", "";
      assert Windows(c, "") == [];
    }
  }

  lemma WindowCovers(c: Chunker, front: string, back: string, text: string, rest: string)
    requires (c.overlap == 0 ==> back == "") && Covers(c, text, rest)
    ensures Covers(c, front + text, front + back + rest)
  {
    hide Covers;
    CoversFront(c, front, back);
    CoversConcat(c, front, front + back, text, rest);
  }

  /** The windows of the hard split cover the text: it is a subsequence of them written one after another, and
      without overlap they are a partition of it. */
  lemma {:induction false} WindowsCoverText(c: Chunker, text: string)
    ensures Covers(c, text, Concat(Windows(c, text)))
    decreases |text|
  {
    hide Covers, Windows;
    if text == "" {
      NoWindows(c);
      CoversItself(c, "");
    } else {
      var front, back, rest := WindowsUnfold(c, text);
      WindowsCoverText(c, rest);
      WindowCovers(c, front, back, rest, Concat(Windows(c, rest)));
      ConcatCons(front + back, Windows(c, rest));
    }
  }

  lemma NoWindows(c: Chunker)
    ensures Concat(Windows(c, "")) == ""
  {
  }

  lemma ConcatCons(text: string, texts: seq<string>)
    ensures Concat([text] + texts) == text + Concat(texts)
  {
  }

  lemma {:induction false} KeptSubsequence(a: string, b: string, all: seq<string>)
    requires Subsequence(a, b)
    ensures Subsequence(Kept(a, all), Kept(b, all))
    decreases |b|
  {
    hide Droppable;
    if a != "" {
      var one := if Droppable(b[0], all) then "" else [b[0]];
      if a[0] == b[0] && Subsequence(a[1..], b[1..]) {
        KeptSubsequence(a[1..], b[1..], all);
        SubsequenceReflexive(one);
        SubsequenceConcat(one, one, Kept(a[1..], all), Kept(b[1..], all));
      } else {
        KeptSubsequence(a, b[1..], all);
        SubsequenceConcat("", one, Kept(a, all), Kept(b[1..], all));
        assert "" + Kept(a, all) == Kept(a, all);
      }
    }
  }

  lemma WindowsKeep(c: Chunker, text: string, all: seq<string>)
    ensures Covers(c, Kept(text, all), Kept(Concat(Windows(c, text)), all))
  {
    hide Windows, Concat, Kept, Subsequence;
    WindowsCoverText(c, text);
    KeptSubsequence(text, Concat(Windows(c, text)), all);
  }

  lemma CoversFront(c: Chunker, a: string, b: string)
    requires c.overlap == 0 ==> b == ""
    ensures Covers(c, a, a + b)
  {
    SubsequenceReflexive(a);
    SubsequenceConcat(a, a, "", b);
    assert a + "" == a;
  }

  lemma {:induction false} SplitKeeps(c: Chunker, text: string, separators: seq<string>, all: seq<string>)
    requires Among(separators, all)
    ensures Covers(c, Kept(text, all), Kept(Concat(Split(c, text, separators)), all))
    decreases |separators|, 0
  {
    if |text| <= c.size {
      assert Concat([text]) == text + Concat([]) == text;
      CoversItself(c, Kept(text, all));
    } else {
      var k := FirstSeparator(text, separators);
      if k.None? {
        WindowsKeep(c, text, all);
      } else {
        SplitOnKeeps(text, separators[k.value], all);
        SplitPartsKeep(c, NonBlankParts(SplitOn(text, separators[k.value])), separators[k.value + 1..], all);
      }
    }
  }

  lemma {:induction false} SplitPartsKeep(c: Chunker, parts: seq<string>, separators: seq<string>, all: seq<string>)
    requires Among(separators, all)
    ensures Covers(c, Kept(Concat(parts), all), Kept(Concat(SplitParts(c, parts, separators)), all))
    decreases |separators|, |parts| + 1
  {
    if parts == [] {
      CoversItself(c, "");
    } else {
      var head := if |parts[0]| > c.size then Split(c, parts[0], separators) else [parts[0]];
      var tail := SplitParts(c, parts[1..], separators);
      if |parts[0]| > c.size {
        SplitKeeps(c, parts[0], separators, all);
      } else {
        assert Concat(head) == parts[0] + Concat([]) == parts[0];
        CoversItself(c, Kept(parts[0], all));
      }
      SplitPartsKeep(c, parts[1..], separators, all);
      ConcatAppend(head, tail);
      KeptConcat(parts[0], Concat(parts[1..]), all);
      KeptConcat(Concat(head), Concat(tail), all);
      CoversConcat(c, Kept(parts[0], all), Kept(Concat(head), all),
                   Kept(Concat(parts[1..]), all), Kept(Concat(tail), all));
    }
  }

  // ---------- Merging ----------

  function Content(st: Merging): string {
    Concat(st.merged) + st.current
  }

  lemma ConcatSnoc(texts: seq<string>, last: string)
    ensures Concat(texts + [last]) == Concat(texts) + last
  {
    ConcatAppend(texts, [last]);
    assert Concat([last]) == last + Concat([]) == last;
  }

  lemma KeptJoined(a: string, b: string, all: seq<string>)
    ensures Kept(Strip(a + " " + b), all) == Kept(a, all) + Kept(b, all)
  {
    KeptStrip(a + " " + b, all);
    KeptConcat(a + " ", b, all);
    KeptSurrounded("", a, " ", all);
    assert "" + a + " " == a + " ";
  }

  lemma MergeStepExtends(c: Chunker, st: Merging, piece: string, all: seq<string>)
    requires |piece| <= c.size && |Candidate(st, piece)| <= c.size
    ensures Kept(Content(MergeStep(c, st, piece)), all) == Kept(Content(st), all) + Kept(piece, all)
  {
    KeptConcat(Concat(st.merged), st.current, all);
    KeptConcat(Concat(st.merged), Candidate(st, piece), all);
    if st.current != "" { KeptJoined(st.current, piece, all); }
  }

  lemma MergeStepOverflows(c: Chunker, st: Merging, piece: string, all: seq<string>)
    requires |piece| <= c.size < |Candidate(st, piece)|
    ensures Kept(Content(MergeStep(c, st, piece)), all)
         == Kept(Content(st), all) + (Kept(Last(st.current, c.overlap), all) + Kept(piece, all))
  {
    var next := MergeStep(c, st, piece);
    KeptConcat(Concat(next.merged), next.current, all);
    KeptJoined(Last(st.current, c.overlap), piece, all);
    ConcatSnoc(st.merged, st.current);
  }

  lemma MergeStepKeepsText(c: Chunker, st: Merging, piece: string, text: string, all: seq<string>)
    requires |piece| <= c.size
    requires Covers(c, text, Kept(Content(st), all))
    ensures Covers(c, text + Kept(piece, all), Kept(Content(MergeStep(c, st, piece)), all))
  {
    var p := Kept(piece, all);
    if |Candidate(st, piece)| <= c.size {
      MergeStepExtends(c, st, piece, all);
      CoversItself(c, p);
      CoversConcat(c, text, Kept(Content(st), all), p, p);
    } else {
      var prefix := Kept(Last(st.current, c.overlap), all);
      MergeStepOverflows(c, st, piece, all);
      CoversBack(c, prefix, p);
      CoversConcat(c, text, Kept(Content(st), all), p, prefix + p);
    }
  }

  lemma CoversBack(c: Chunker, a: string, b: string)
    requires c.overlap == 0 ==> a == ""
    ensures Covers(c, b, a + b)
  {
    SubsequenceReflexive(b);
    SubsequenceConcat("", a, b, b);
    assert "" + b == b;
  }

  lemma {:induction false} MergeAllKeepsText(c: Chunker, pieces: seq<string>, all: seq<string>)
    requires forall i | 0 <= i < |pieces| :: |pieces[i]| <= c.size
    ensures Covers(c, Kept(Concat(pieces), all), Kept(Content(MergeAll(c, pieces)), all))
  {
    if pieces == [] {
      CoversItself(c, "");
    } else {
      var n := |pieces| - 1;
      MergeAllKeepsText(c, pieces[..n], all);
      ConcatSnoc(pieces[..n], pieces[n]);
      assert pieces == pieces[..n] + [pieces[n]];
      KeptConcat(Concat(pieces[..n]), pieces[n], all);
      MergeStepKeepsText(c, MergeAll(c, pieces[..n]), pieces[n], Kept(Concat(pieces[..n]), all), all);
    }
  }

  // ---------- Normalising ----------

  lemma {:induction false} ReplaceKeeps(text: string, old_: string, new_: string, all: seq<string>)
    requires old_ != "" && Blank(old_) && Blank(new_)
    ensures Kept(Replace(text, old_, new_), all) == Kept(text, all)
    decreases |text|
  {
    var found, front, rest := ReplaceUnfolds(text, old_, new_);
    if found {
      ReplaceKeeps(rest, old_, new_, all);
      KeptAround(front, old_, rest, all);
      KeptAround(front, new_, Replace(rest, old_, new_), all);
    }
  }

  lemma NormalizeKeeps(text: string, all: seq<string>)
    ensures Kept(Normalize(text), all) == Kept(text, all)
  {
    var t := Replace(text, "\r\n", "\n");
    ReplaceKeeps(text, "\r\n", "\n", all);
    ReplaceKeeps(t, "\r", "\n", all);
    KeptStrip(Replace(t, "\r", "\n"), all);
  }

  // ---------- The theorems ----------

  /** Whatever the size, the overlap and the separators: leaving droppable characters aside, the text is
      a subsequence of its chunks written one after another, and equal to them when the overlap is 0. */
  lemma TextIsConserved(c: Chunker, text: string)
    ensures Subsequence(Kept(text, c.separators), Kept(Concat(Texts(c, text)), c.separators))
    ensures c.overlap == 0 ==> Kept(text, c.separators) == Kept(Concat(Texts(c, text)), c.separators)
  {
    hide Normalize, Split, Kept, Texts;
    var all, t := c.separators, Normalize(text);
    NormalizeKeeps(text, all);
    if t == "" {
      NoChunksOfNothing(c, text, all);
    } else {
      SplitKeeps(c, t, all, all);
      MergedKeeps(c, text, all);
      SubsequenceTransitive(Kept(t, all), Kept(Concat(Split(c, t, all)), all), Kept(Concat(Texts(c, text)), all));
    }
  }

  lemma NoChunksOfNothing(c: Chunker, text: string, all: seq<string>)
    requires Normalize(text) == ""
    ensures Kept("", all) == "" == Kept(Concat(Texts(c, text)), all)
  {
  }

  /** Merging loses nothing, whatever is regarded. */
  lemma MergedKeeps(c: Chunker, text: string, all: seq<string>)
    requires Normalize(text) != ""
    ensures Covers(c, Kept(Concat(Split(c, Normalize(text), c.separators)), all), Kept(Concat(Texts(c, text)), all))
  {
    hide Kept, Split, Normalize, MergeAll, Covers;
    var pieces := Split(c, Normalize(text), c.separators);
    ChunkShape.SplitOfNormalized(c, text);
    MergeAllKeepsText(c, pieces, all);
    var st := MergeAll(c, pieces);
    if st.current == "" {
      assert Finish(st) == st.merged && Content(st) == Concat(st.merged);
    } else {
      ConcatSnoc(st.merged, st.current);
    }
  }

  lemma {:induction false} SubsequenceTransitive(a: string, b: string, d: string)
    requires Subsequence(a, b) && Subsequence(b, d)
    ensures Subsequence(a, d)
    decreases |d|
  {
    if a != "" {
      if b[0] == d[0] && Subsequence(b[1..], d[1..]) {
        if a[0] == b[0] && Subsequence(a[1..], b[1..]) {
          SubsequenceTransitive(a[1..], b[1..], d[1..]);
        } else {
          SubsequenceTransitive(a, b[1..], d[1..]);
        }
      } else {
        SubsequenceTransitive(a, b, d[1..]);
      }
    }
  }

  /** With the default separators the only visible character that can get lost is the full stop. */
  lemma DefaultsDropOnlyStops(c: char)
    ensures Droppable(c, DEFAULT_SEPARATORS) <==> IsSpace(c) || c == '.'
  {
    if Droppable(c, DEFAULT_SEPARATORS) && !IsSpace(c) {
      var k :| 0 <= k < |DEFAULT_SEPARATORS| && c in DEFAULT_SEPARATORS[k];
      assert c == '.';
    }
    assert '.' in DEFAULT_SEPARATORS[2];
  }
}
