/** Which documents have no chunks at all. */
module ChunkVanishing {
  import opened Strings
  import opened Chunking
  import opened ChunkCharacters
  import ChunkShape

  // ---------- No document vanishes ----------

  /** A separator that cannot swallow text: it is never used, it cannot occur after normalization, or it has
      white space at one of its edges, as the default ones have. */
  predicate Harmless(sep: string) {
    sep == "" || '\r' in sep || IsSpace(sep[0]) || IsSpace(sep[|sep| - 1])
  }

  predicate AllHarmless(separators: seq<string>) {
    forall k | 0 <= k < |separators| :: Harmless(separators[k])
  }

  lemma {:induction false} FirstPart(text: string, sep: string)
    requires sep != "" && text != "" && text[0] != sep[0]
    ensures var parts := SplitOn(text, sep); parts[0] != "" && parts[0][0] == text[0]
  {
  }

  lemma {:induction false} LastPart(text: string, sep: string)
    requires sep != "" && text != "" && text[|text| - 1] != sep[|sep| - 1]
    ensures var parts := SplitOn(text, sep);
            var last := parts[|parts| - 1];
            last != "" && last[|last| - 1] == text[|text| - 1]
    decreases |text|
  {
    hide OccursAt, Find, Contains;
    var found, front, rest := SplitOnUnfolds(text, sep);
    if found {
      assert rest != "" by {
        assert text == front + (sep + rest);
        assert text[|text| - 1] == (sep + rest)[|sep + rest| - 1];
      }
      LastPart(rest, sep);
      var later := SplitOn(rest, sep);
      assert ([front] + later)[|later|] == later[|later| - 1];
    }
  }

  lemma {:induction false} NonBlankPartSurvives(parts: seq<string>, i: nat)
    requires i < |parts| && !Blank(parts[i])
    ensures NonBlankParts(parts) != []
  {
    if i == 0 {
      var f, b := StripSplits(parts[0]);
    } else {
      NonBlankPartSurvives(parts[1..], i - 1);
    }
  }

  lemma SomePartSurvives(text: string, sep: string)
    requires sep != "" && (IsSpace(sep[0]) || IsSpace(sep[|sep| - 1]))
    requires text != "" && Stripped(text)
    ensures NonBlankParts(SplitOn(text, sep)) != []
  {
    var parts := SplitOn(text, sep);
    if IsSpace(sep[0]) {
      FirstPart(text, sep);
      NonBlankPartSurvives(parts, 0);
    } else {
      LastPart(text, sep);
      NonBlankPartSurvives(parts, |parts| - 1);
    }
  }

  lemma OccurringCharacter(text: string, sep: string, ch: char)
    requires Contains(text, sep) && ch in sep
    ensures ch in text
  {
    var i :| 0 <= i <= |text| && OccursAt(text, sep, i);
    var k :| 0 <= k < |sep| && sep[k] == ch;
    assert text[i + k] == text[i..i + |sep|][k];
  }

  lemma HarmlessPartSurvives(text: string, sep: string)
    requires Harmless(sep) && sep != "" && Contains(text, sep)
    requires '\r' !in text && text != "" && Stripped(text)
    ensures NonBlankParts(SplitOn(text, sep)) != []
    ensures var part := NonBlankParts(SplitOn(text, sep))[0]; '\r' !in part && part != "" && Stripped(part)
  {
    hide NonBlankParts, SplitOn, Contains, IsSpace;
    if '\r' in sep { OccurringCharacter(text, sep, '\r'); }
    SomePartSurvives(text, sep);
    ChunkShape.PartsAreStripped(SplitOn(text, sep));
    PartsAreFree('\r', text, sep);
    NonBlankPartsAreFree('\r', SplitOn(text, sep));
    assert Blank("");
  }

  lemma {:induction false} SplitIsNotEmpty(c: Chunker, text: string, separators: seq<string>)
    requires AllHarmless(separators) && '\r' !in text && text != "" && Stripped(text)
    ensures Split(c, text, separators) != []
    decreases |separators|
  {
    hide Harmless, SplitOn, NonBlankParts, Windows, Stripped, Contains;
    var k := FirstSeparator(text, separators);
    if |text| > c.size && k.None? {
      ChunkShape.WindowsFit(c, text);
    } else if |text| > c.size {
      var parts := NonBlankParts(SplitOn(text, separators[k.value]));
      HarmlessPartSurvives(text, separators[k.value]);
      if |parts[0]| > c.size { SplitIsNotEmpty(c, parts[0], separators[k.value + 1..]); }
    }
  }

  lemma {:induction false} ReplaceBlank(text: string, old_: string, new_: string)
    requires old_ != "" && Blank(old_) && Blank(new_)
    ensures Blank(Replace(text, old_, new_)) <==> Blank(text)
    decreases |text|
  {
    var found, front, rest := ReplaceUnfolds(text, old_, new_);
    if found {
      ReplaceBlank(rest, old_, new_);
      BlankParts(front, old_, rest);
      BlankParts(front, new_, Replace(rest, old_, new_));
    }
  }

  lemma BlankParts(a: string, b: string, d: string)
    requires Blank(b)
    ensures Blank(a + b + d) <==> Blank(a) && Blank(d)
  {
    if Blank(a + b + d) {
      forall i | 0 <= i < |a| ensures IsSpace(a[i]) { assert a[i] == (a + b + d)[i]; }
      forall i | 0 <= i < |d| ensures IsSpace(d[i]) { assert d[i] == (a + b + d)[|a + b| + i]; }
    }
  }

  lemma {:induction false} ReturnsAreReplaced(text: string)
    ensures '\r' !in Replace(text, "\r", "\n")
    decreases |text|
  {
    hide Replace;
    var found, front, rest := ReplaceUnfolds(text, "\r", "\n");
    ContainsCharacter(text, '\r');
    ContainsCharacter(front, '\r');
    if found { ReturnsAreReplaced(rest); }
  }

  lemma NormalizedHasNoReturns(text: string)
    ensures '\r' !in Normalize(text)
  {
    hide Strip, Replace;
    var once := Replace(text, "\r\n", "\n");
    ReturnsAreReplaced(once);
    StripIsFree('\r', Replace(once, "\r", "\n"));
  }

  lemma NormalizedIsBlank(text: string)
    ensures Normalize(text) == "" <==> Blank(text)
    ensures Stripped(Normalize(text))
  {
    hide Strip, Replace;
    var once := Replace(text, "\r\n", "\n");
    ReplaceBlank(text, "\r\n", "\n");
    ReplaceBlank(once, "\r", "\n");
    var f, b := StripSplits(Replace(once, "\r", "\n"));
  }

  /** With harmless separators a document has no chunks exactly when it is blank. */
  lemma NoChunksIffBlank(c: Chunker, text: string)
    requires AllHarmless(c.separators)
    ensures Texts(c, text) == [] <==> Blank(text)
  {
    hide Normalize, Split, AllHarmless, Stripped;
    NormalizedIsBlank(text);
    if Normalize(text) != "" {
      NormalizedHasNoReturns(text);
      SplitIsNotEmpty(c, Normalize(text), c.separators);
      ChunkShape.SplitOfNormalized(c, text);
      var pieces := Split(c, Normalize(text), c.separators);
      ChunkShape.MergeAllKeeps(c, pieces);
      var st := MergeAll(c, pieces);
      assert (st.merged + [st.current])[|st.merged|] == st.current;
    }
  }

  // ---------- Documents that vanish ----------

  function Repeat(s: string, n: nat): string {
    if n == 0 then "" else s + Repeat(s, n - 1)
  }

  lemma {:induction false} RepeatLength(s: string, n: nat)
    requires s != ""
    ensures |Repeat(s, n)| >= n
    ensures n > 0 ==> Repeat(s, n)[0] == s[0] && Repeat(s, n)[|Repeat(s, n)| - 1] == s[|s| - 1]
  {
    if n > 0 { RepeatLength(s, n - 1); }
  }

  lemma {:induction false} RepeatIsFree(s: string, n: nat, ch: char)
    requires ch !in s
    ensures ch !in Repeat(s, n)
  {
    if n > 0 { RepeatIsFree(s, n - 1, ch); }
  }

  lemma FoundAtOnce(sep: string, rest: string)
    requires sep != ""
    ensures SplitOn(sep + rest, sep) == [""] + SplitOn(rest, sep)
  {
    assert OccursAt(sep + rest, sep, 0);
    assert (sep + rest)[..0] == "" && (sep + rest)[|sep|..] == rest;
  }

  lemma {:induction false} RepeatSplits(sep: string, n: nat)
    requires sep != ""
    ensures NonBlankParts(SplitOn(Repeat(sep, n), sep)) == []
  {
    hide OccursAt, Find;
    if n == 0 {
      EmptySplits(sep);
    } else {
      RepeatSplits(sep, n - 1);
      FoundAtOnce(sep, Repeat(sep, n - 1));
      assert ([""] + SplitOn(Repeat(sep, n - 1), sep))[1..] == SplitOn(Repeat(sep, n - 1), sep);
    }
  }

  lemma EmptySplits(sep: string)
    requires sep != ""
    ensures NonBlankParts(SplitOn("", sep)) == []
  {
    assert SplitOn("", sep) == [""];
  }

  lemma RepeatIsNormal(sep: string, n: nat)
    requires !Harmless(sep)
    ensures Normalize(Repeat(sep, n)) == Repeat(sep, n)
  {
    hide Replace, Strip;
    var text := Repeat(sep, n);
    RepeatIsFree(sep, n, '\r');
    UnchangedWithout(text, "\r\n", "\n");
    UnchangedWithout(text, "\r", "\n");
    RepeatLength(sep, n);
    StrippedIsFixed(text);
  }

  lemma UnchangedWithout(text: string, old_: string, new_: string)
    requires '\r' !in text && '\r' in old_
    ensures Replace(text, old_, new_) == text
  {
    hide Replace;
    var found, front, rest := ReplaceUnfolds(text, old_, new_);
    if found { OccurringCharacter(text, old_, '\r'); }
  }

  /** A harmful separator swallows a document that consists of nothing else, when no separator before it
      occurs there. */
  lemma HarmfulSeparatorSwallows(c: Chunker, k: nat)
    requires k < |c.separators| && !Harmless(c.separators[k])
    requires forall j | 0 <= j < k ::
               c.separators[j] == "" || !Contains(Repeat(c.separators[k], c.size + 1), c.separators[j])
    ensures var text := Repeat(c.separators[k], c.size + 1); !Blank(text) && Texts(c, text) == []
  {
    hide Repeat, Normalize, SplitOn, NonBlankParts, Contains, IsSpace;
    var sep := c.separators[k];
    var text := Repeat(sep, c.size + 1);
    RepeatIsNormal(sep, c.size + 1);
    RepeatLength(sep, c.size + 1);
    assert Contains(text, sep) by { RepeatContains(sep, c.size + 1); }
    FirstIs(text, c.separators, k);
    RepeatSplits(sep, c.size + 1);
    assert SplitParts(c, [], c.separators[k + 1..]) == [];
    assert !IsSpace(text[0]);
  }

  lemma RepeatContains(sep: string, n: nat)
    requires n > 0
    ensures Contains(Repeat(sep, n), sep)
  {
    assert OccursAt(Repeat(sep, n), sep, 0);
  }

  lemma FirstIs(text: string, separators: seq<string>, k: nat)
    requires k < |separators| && separators[k] != "" && Contains(text, separators[k])
    requires forall j | 0 <= j < k :: separators[j] == "" || !Contains(text, separators[j])
    ensures FirstSeparator(text, separators) == Some(k)
  {
  }

  /** With one separator the condition is exact: every document that is not blank keeps a chunk if and only if
      the separator is harmless. */
  lemma OneSeparator(c: Chunker, sep: string)
    requires c.separators == [sep]
    ensures Harmless(sep) <==> forall text :: Texts(c, text) == [] ==> Blank(text)
  {
    hide Texts, Blank, Harmless;
    if Harmless(sep) {
      forall text | Texts(c, text) == [] ensures Blank(text) { NoChunksIffBlank(c, text); }
    } else {
      HarmfulSeparatorSwallows(c, 0);
    }
  }

  /** The default separators are harmless. */
  lemma DefaultsAreHarmless()
    ensures AllHarmless(DEFAULT_SEPARATORS)
  {
  }
}
