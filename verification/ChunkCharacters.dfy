/** Which characters the chunks of a document contain. */
module ChunkCharacters {
  import opened Strings
  import opened Chunking
  import opened ChunkConservation

  predicate AllFree(ch: char, texts: seq<string>) {
    forall i | 0 <= i < |texts| :: ch !in texts[i]
  }

  lemma StripIsFree(ch: char, s: string)
    requires ch !in s
    ensures ch !in Strip(s)
  {
    hide Strip;
    var front, back := StripSplits(s);
  }

  lemma {:induction false} PartsAreFree(ch: char, text: string, sep: string)
    requires sep != "" && ch !in text
    ensures AllFree(ch, SplitOn(text, sep))
    decreases |text|
  {
    var found, front, rest := SplitOnUnfolds(text, sep);
    if found { PartsAreFree(ch, rest, sep); }
  }

  lemma {:induction false} NonBlankPartsAreFree(ch: char, parts: seq<string>)
    requires AllFree(ch, parts)
    ensures AllFree(ch, NonBlankParts(parts))
  {
    hide Strip;
    if parts != [] {
      StripIsFree(ch, parts[0]);
      NonBlankPartsAreFree(ch, parts[1..]);
    }
  }

  lemma {:induction false} ReplaceIsFree(ch: char, text: string, old_: string, new_: string)
    requires old_ != "" && ch !in text && ch !in new_
    ensures ch !in Replace(text, old_, new_)
    decreases |text|
  {
    hide Replace;
    var found, front, rest := ReplaceUnfolds(text, old_, new_);
    if found { ReplaceIsFree(ch, rest, old_, new_); }
  }

  lemma {:induction false} WindowsAreFree(ch: char, c: Chunker, text: string)
    requires ch !in text
    ensures AllFree(ch, Windows(c, text))
    decreases |text|
  {
    if text != "" && c.size - c.overlap < |text| { WindowsAreFree(ch, c, text[c.size - c.overlap..]); }
  }

  lemma {:induction false} SplitIsFree(ch: char, c: Chunker, text: string, separators: seq<string>)
    requires ch !in text
    ensures AllFree(ch, Split(c, text, separators))
    decreases |separators|, 0
  {
    hide NonBlankParts, SplitOn, Windows;
    if |text| > c.size {
      var k := FirstSeparator(text, separators);
      if k.None? {
        WindowsAreFree(ch, c, text);
      } else {
        PartsAreFree(ch, text, separators[k.value]);
        NonBlankPartsAreFree(ch, SplitOn(text, separators[k.value]));
        SplitPartsAreFree(ch, c, NonBlankParts(SplitOn(text, separators[k.value])), separators[k.value + 1..]);
      }
    }
  }

  lemma {:induction false} SplitPartsAreFree(ch: char, c: Chunker, parts: seq<string>, separators: seq<string>)
    requires AllFree(ch, parts)
    ensures AllFree(ch, SplitParts(c, parts, separators))
    decreases |separators|, |parts| + 1
  {
    if parts != [] {
      if |parts[0]| > c.size { SplitIsFree(ch, c, parts[0], separators); }
      SplitPartsAreFree(ch, c, parts[1..], separators);
    }
  }

  lemma {:induction false} MergeIsFree(ch: char, c: Chunker, pieces: seq<string>)
    requires AllFree(ch, pieces) && ch != ' '
    ensures AllFree(ch, MergeAll(c, pieces).merged) && ch !in MergeAll(c, pieces).current
  {
    hide Strip;
    if pieces != [] {
      var n := |pieces| - 1;
      MergeIsFree(ch, c, pieces[..n]);
      var st := MergeAll(c, pieces[..n]);
      StripIsFree(ch, st.current + " " + pieces[n]);
      StripIsFree(ch, Last(st.current, c.overlap) + " " + pieces[n]);
    }
  }

  lemma TextsAreFree(ch: char, c: Chunker, text: string)
    requires ch !in text && ch != ' ' && ch != '\n'
    ensures AllFree(ch, Texts(c, text))
  {
    hide Replace, Strip, Split, MergeAll;
    var once := Replace(text, "\r\n", "\n");
    ReplaceIsFree(ch, text, "\r\n", "\n");
    ReplaceIsFree(ch, once, "\r", "\n");
    StripIsFree(ch, Replace(once, "\r", "\n"));
    SplitIsFree(ch, c, Normalize(text), c.separators);
    MergeIsFree(ch, c, Split(c, Normalize(text), c.separators));
  }

  lemma {:induction false} KeptMembers(s: string, separators: seq<string>, ch: char)
    requires !Droppable(ch, separators)
    ensures ch in Kept(s, separators) <==> ch in s
  {
    hide Droppable;
    if s != "" {
      KeptMembers(s[1..], separators, ch);
      assert s == [s[0]] + s[1..];
    }
  }

  lemma {:induction false} SubsequenceMembers(a: string, b: string, ch: char)
    requires Subsequence(a, b) && ch in a
    ensures ch in b
  {
    if a[0] == b[0] && Subsequence(a[1..], b[1..]) {
      if ch != a[0] { SubsequenceMembers(a[1..], b[1..], ch); }
    } else {
      SubsequenceMembers(a, b[1..], ch);
    }
  }

  lemma {:induction false} ConcatMembers(texts: seq<string>, ch: char)
    ensures ch in Concat(texts) <==> !AllFree(ch, texts)
  {
    if texts != [] {
      ConcatMembers(texts[1..], ch);
      assert texts == [texts[0]] + texts[1..];
    }
  }

  /** A character that is neither white space nor part of a separator occurs in the chunks of a document exactly
      when it occurs in the document. */
  lemma CharactersSurvive(c: Chunker, text: string, ch: char)
    requires !Droppable(ch, c.separators)
    ensures AllFree(ch, Texts(c, text)) <==> ch !in text
  {
    hide Texts;
    if ch !in text {
      assert IsSpace(' ') && IsSpace('\n');
      TextsAreFree(ch, c, text);
    } else {
      var all, chunks := c.separators, Concat(Texts(c, text));
      TextIsConserved(c, text);
      KeptMembers(text, all, ch);
      SubsequenceMembers(Kept(text, all), Kept(chunks, all), ch);
      KeptMembers(chunks, all, ch);
      ConcatMembers(Texts(c, text), ch);
    }
  }
}
