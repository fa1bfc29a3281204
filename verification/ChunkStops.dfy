/** When full stops get lost: splitting on ". " drops the stop, and with the default separators nothing else
    that is visible can be lost. */
module ChunkStops {
  import opened Strings
  import opened Chunking
  import opened ChunkConservation
  import opened ChunkVanishing
  import ChunkShape

  /** The text without its white space. */
  function Visible(s: string): string {
    Kept(s, [])
  }

  /** The stripped lines that are not blank. */
  function Lines(text: string): seq<string> {
    NonBlankParts(SplitOn(text, "\n"))
  }

  /** A line that the chunker has to split, and splits behind a full stop. */
  predicate LongStop(c: Chunker, line: string) {
    |line| > c.size && Contains(line, ". ")
  }

  predicate AnyLongStop(c: Chunker, lines: seq<string>) {
    exists i | 0 <= i < |lines| :: LongStop(c, lines[i])
  }

  // ---------- Lines ----------

  lemma {:induction false} NonBlankPartsConcat(a: seq<string>, b: seq<string>)
    ensures NonBlankParts(a + b) == NonBlankParts(a) + NonBlankParts(b)
  {
    hide Strip;
    if a == [] {
      assert a + b == b;
    } else {
      assert (a + b)[1..] == a[1..] + b;
      NonBlankPartsConcat(a[1..], b);
    }
  }

  lemma OneLine(text: string)
    requires '\n' !in text
    ensures Lines(text) == if Blank(text) then [] else [Strip(text)]
  {
    hide Strip, Find;
    var f, b := StripSplits(text);
    NotFound(text);
    assert NonBlankParts([text]) == if Strip(text) != "" then [Strip(text)] else [] by {
      assert NonBlankParts([]) == [];
    }
  }

  /** Cutting off the first line. */
  lemma CutLine(text: string) returns (head: string, tail: string)
    requires '\n' in text
    ensures text == head + "\n" + tail && '\n' !in head && |tail| < |text|
  {
    var found, front, rest := SplitOnUnfolds(text, "\n");
    ContainsCharacter(text, '\n');
    ContainsCharacter(front, '\n');
    head, tail := front, rest;
  }

  lemma {:induction false} LinesConcat(a: string, b: string)
    ensures Lines(a + "\n" + b) == Lines(a) + Lines(b)
    decreases |a|
  {
    hide NonBlankParts, SplitOn, Find;
    if '\n' in a {
      var head, tail := CutLine(a);
      assert a + "\n" + b == head + "\n" + (tail + "\n" + b);
      SplitAfter(head, tail + "\n" + b, '\n');
      SplitAfter(head, tail, '\n');
      LinesConcat(tail, b);
      NonBlankPartsConcat([head], SplitOn(tail + "\n" + b, "\n"));
      NonBlankPartsConcat([head], SplitOn(tail, "\n"));
    } else {
      SplitAfter(a, b, '\n');
      NonBlankPartsConcat([a], SplitOn(b, "\n"));
      assert SplitOn(a, "\n") == [a] by { NotFound(a); }
    }
  }

  lemma NotFound(a: string)
    requires '\n' !in a
    ensures SplitOn(a, "\n") == [a]
  {
    ContainsCharacter(a, '\n');
    var found, front, rest := SplitOnUnfolds(a, "\n");
  }

  lemma BlankHasNoLines(text: string)
    requires Blank(text)
    ensures Lines(text) == []
    decreases |text|
  {
    hide NonBlankParts, SplitOn;
    if '\n' in text {
      var head, tail := CutLine(text);
      BlankParts(head, "\n", tail);
      LinesConcat(head, tail);
      BlankHasNoLines(head);
      BlankHasNoLines(tail);
    } else {
      OneLine(text);
    }
  }

  lemma {:induction false} LinesAfterBlank(front: string, text: string)
    requires Blank(front)
    ensures Lines(front + text) == Lines(text)
    decreases |front|
  {
    hide Lines;
    if '\n' in front {
      var head, tail := CutLine(front);
      BlankParts(head, "\n", tail);
      assert front + text == head + "\n" + (tail + text);
      LinesConcat(head, tail + text);
      BlankHasNoLines(head);
      LinesAfterBlank(tail, text);
    } else if '\n' in text {
      var head, tail := CutLine(text);
      assert front + text == (front + head) + "\n" + tail;
      LinesConcat(front + head, tail);
      LinesConcat(head, tail);
      SameLine(front, head, "");
      assert front + head + "" == front + head;
    } else {
      SameLine(front, text, "");
      assert front + text + "" == front + text;
    }
  }

  lemma SameLine(front: string, text: string, back: string)
    requires Blank(front) && Blank(back) && '\n' !in front + text + back
    ensures Lines(front + text + back) == Lines(text)
  {
    hide Lines, Strip, Blank, IsSpace;
    OneLine(front + text + back);
    OneLine(text);
    assert front + text + back == front + (text + back);
    StripSkips(front, text + back);
    ChunkShape.StripDropsBlankTail(text, back);
    var f, b := StripSplits(text);
    var f', b' := StripSplits(front + text + back);
  }

  lemma {:induction false} LinesBeforeBlank(text: string, back: string)
    requires Blank(back)
    ensures Lines(text + back) == Lines(text)
    decreases |text|
  {
    hide Lines;
    if '\n' in text {
      var head, tail := CutLine(text);
      assert text + back == head + "\n" + (tail + back);
      LinesConcat(head, tail + back);
      LinesConcat(head, tail);
      LinesBeforeBlank(tail, back);
    } else if '\n' in back {
      var head, tail := CutLine(back);
      BlankParts(head, "\n", tail);
      assert text + back == (text + head) + "\n" + tail;
      LinesConcat(text + head, tail);
      BlankHasNoLines(tail);
      SameLine("", text, head);
      assert "" + text + head == text + head;
    } else {
      SameLine("", text, back);
      assert "" + text + back == text + back;
    }
  }

  /** Stripping a text does not change its lines. */
  lemma LinesOfStripped(text: string)
    ensures Lines(Strip(text)) == Lines(text)
  {
    hide Lines, Strip;
    var front, back := StripSplits(text);
    LinesAfterBlank(front, Strip(text));
    LinesBeforeBlank(front + Strip(text), back);
  }

  function LinesOf(parts: seq<string>): seq<string> {
    if parts == [] then [] else Lines(parts[0]) + LinesOf(parts[1..])
  }

  lemma LinesOfNonBlank(part: string, parts: seq<string>)
    ensures LinesOf(NonBlankParts([part] + parts)) == Lines(part) + LinesOf(NonBlankParts(parts))
  {
    hide Lines, Strip;
    var f, b := StripSplits(part);
    LinesOfStripped(part);
    assert ([part] + parts)[1..] == parts;
    if Strip(part) == "" {
      BlankHasNoLines(part);
      assert NonBlankParts([part] + parts) == NonBlankParts(parts);
    } else {
      assert NonBlankParts([part] + parts) == [Strip(part)] + NonBlankParts(parts);
    }
  }

  /** The lines of a text are those of its paragraphs. */
  lemma {:induction false} LinesOfParagraphs(text: string)
    ensures LinesOf(NonBlankParts(SplitOn(text, "\n\n"))) == Lines(text)
    decreases |text|
  {
    hide Lines, NonBlankParts;
    var found, front, rest := SplitOnUnfolds(text, "\n\n");
    if found {
      LinesOfParagraphs(rest);
      LinesOfNonBlank(front, SplitOn(rest, "\n\n"));
      assert text == front + "\n" + ("" + "\n" + rest);
      LinesConcat(front, "" + "\n" + rest);
      LinesConcat("", rest);
      BlankHasNoLines("");
    } else {
      LinesOfNonBlank(text, []);
      assert [text] + [] == [text] && NonBlankParts([]) == [] by { NoParts(); }
    }
  }

  lemma NoParts()
    ensures NonBlankParts([]) == [] && Visible(Concat([])) == ""
  {
  }

  // ---------- What is lost ----------

  /** The text before and after a step: nothing visible is lost, or, without overlap, something is. */
  predicate Balance(c: Chunker, before: string, after: string, lossy: bool) {
    && (!lossy ==> Covers(c, Visible(before), Visible(after)))
    && (c.overlap == 0 && lossy ==> |Visible(after)| < |Visible(before)|)
  }

  lemma BalanceConcat(c: Chunker, before: string, after: string, lossy: bool,
                      before': string, after': string, lossy': bool)
    requires Balance(c, before, after, lossy) && Balance(c, before', after', lossy')
    ensures Balance(c, before + before', after + after', lossy || lossy')
  {
    hide Kept, Subsequence;
    KeptConcat(before, before', []);
    KeptConcat(after, after', []);
    if !lossy && !lossy' { CoversConcat(c, Visible(before), Visible(after), Visible(before'), Visible(after')); }
  }

  lemma BalanceItself(c: Chunker, text: string)
    ensures Balance(c, text, text, false)
  {
    CoversItself(c, Visible(text));
  }

  lemma {:induction false} SameKept(s: string, a: seq<string>, b: seq<string>)
    requires forall ch :: Droppable(ch, a) <==> Droppable(ch, b)
    ensures Kept(s, a) == Kept(s, b)
  {
    hide Droppable;
    if s != "" { SameKept(s[1..], a, b); }
  }

  predicate AllBlank(separators: seq<string>) {
    forall k | 0 <= k < |separators| :: Blank(separators[k])
  }

  lemma BlankSeparatorsDropNothing(s: string, separators: seq<string>)
    requires AllBlank(separators)
    ensures Kept(s, separators) == Visible(s)
  {
    assert forall k, ch | 0 <= k < |separators| && ch in separators[k] :: IsSpace(ch);
    assert forall ch :: Droppable(ch, separators) <==> Droppable(ch, []);
    SameKept(s, separators, []);
  }

  /** Splitting on white space alone loses nothing. */
  lemma BlankSplit(c: Chunker, text: string, separators: seq<string>)
    requires AllBlank(separators)
    ensures Balance(c, text, Concat(Split(c, text, separators)), false)
  {
    hide Split, Concat, Kept, Covers;
    SplitKeeps(c, text, separators, separators);
    BlankSeparatorsDropNothing(text, separators);
    BlankSeparatorsDropNothing(Concat(Split(c, text, separators)), separators);
  }

  lemma PartsKeepVisible(text: string, sep: string)
    requires sep != "" && Blank(sep)
    ensures Visible(Concat(NonBlankParts(SplitOn(text, sep)))) == Visible(text)
  {
    hide SplitOn, NonBlankParts, Concat, Kept;
    SplitOnKeeps(text, sep, [sep]);
    BlankSeparatorsDropNothing(text, [sep]);
    BlankSeparatorsDropNothing(Concat(NonBlankParts(SplitOn(text, sep))), [sep]);
  }

  // ---------- Splitting behind stops ----------

  /** A separator ". " takes its stop with it. */
  lemma {:induction false} StopsAreLost(text: string)
    ensures var kept := Visible(Concat(NonBlankParts(SplitOn(text, ". "))));
            |kept| <= |Visible(text)| && (Contains(text, ". ") ==> |kept| < |Visible(text)|)
    decreases |text|
  {
    hide Kept, NonBlankParts, Concat, Find;
    var found, front, rest := SplitOnUnfolds(text, ". ");
    if found {
      StopsAreLost(rest);
      NonBlankPartsKeepHead(front, SplitOn(rest, ". "), []);
      KeptConcat(front + ". ", rest, []);
      KeptConcat(front, ". ", []);
      OneStop();
    } else {
      NonBlankPartsKeepHead(text, [], []);
      NoParts();
      assert [text] + [] == [text];
    }
  }

  lemma OneStop()
    ensures Visible(". ") == "."
  {
    assert !Droppable('.', []) && Droppable(' ', []);
    assert ". "[1..] == " " && " "[1..] == "";
    assert Kept(" ", []) == "";
  }

  const WORDS: seq<string> := [" ", ""]
  const SENTENCES: seq<string> := [". ", " ", ""]
  const LINES: seq<string> := ["\n", ". ", " ", ""]

  /** The separators shrink as the default ones do. */
  lemma Suffixes()
    ensures DEFAULT_SEPARATORS[1..] == LINES && LINES[1..] == SENTENCES && SENTENCES[1..] == WORDS && AllBlank(WORDS)
  {
    assert Blank(" ") && Blank("");
  }

  /** A separator that does not occur is passed over. */
  lemma PassOver(c: Chunker, text: string, separators: seq<string>)
    requires separators != [] && (separators[0] == "" || !Contains(text, separators[0]))
    ensures Split(c, text, separators) == Split(c, text, separators[1..])
  {
    hide Contains, SplitOn, NonBlankParts, Windows;
    var later := FirstSeparator(text, separators[1..]);
    if later.Some? {
      assert separators[1..][later.value] == separators[later.value + 1];
      assert separators[1..][later.value + 1..] == separators[later.value + 1 + 1..];
    }
  }

  /** A separator that occurs is split on. */
  lemma SplitHere(c: Chunker, text: string, separators: seq<string>)
    requires separators != [] && separators[0] != "" && Contains(text, separators[0]) && |text| > c.size
    ensures Split(c, text, separators) == SplitParts(c, NonBlankParts(SplitOn(text, separators[0])), separators[1..])
  {
  }

  /** A line loses a stop exactly when it has to be split behind one. */
  lemma LineBalance(c: Chunker, line: string)
    ensures Balance(c, line, Concat(Split(c, line, SENTENCES)), LongStop(c, line))
  {
    hide Split, SplitParts, NonBlankParts, SplitOn, Contains, Concat, Kept, Covers;
    Suffixes();
    if LongStop(c, line) {
      var parts := NonBlankParts(SplitOn(line, ". "));
      assert SENTENCES[0] == ". ";
      SplitHere(c, line, SENTENCES);
      PartsBalance(c, parts);
      StopsAreLost(line);
    } else if |line| <= c.size {
      ShortSplit(c, line, SENTENCES);
      BalanceItself(c, line);
    } else {
      PassOver(c, line, SENTENCES);
      BlankSplit(c, line, WORDS);
    }
  }

  lemma PartsBalance(c: Chunker, parts: seq<string>)
    ensures Balance(c, Concat(parts), Concat(SplitParts(c, parts, WORDS)), false)
    ensures c.overlap == 0 ==> Visible(Concat(SplitParts(c, parts, WORDS))) == Visible(Concat(parts))
  {
    hide SplitParts, Concat, Kept;
    Suffixes();
    SplitPartsKeep(c, parts, WORDS, WORDS);
    BlankSeparatorsDropNothing(Concat(parts), WORDS);
    BlankSeparatorsDropNothing(Concat(SplitParts(c, parts, WORDS)), WORDS);
  }

  lemma ShortSplit(c: Chunker, text: string, separators: seq<string>)
    requires |text| <= c.size
    ensures Concat(Split(c, text, separators)) == text
  {
    assert Concat([text]) == text + Concat([]) == text;
  }

  // ---------- Lines, paragraphs, texts ----------

  lemma AnyLongStopConcat(c: Chunker, a: seq<string>, b: seq<string>)
    ensures AnyLongStop(c, a + b) <==> AnyLongStop(c, a) || AnyLongStop(c, b)
  {
    hide LongStop;
    if AnyLongStop(c, a) {
      var i :| 0 <= i < |a| && LongStop(c, a[i]);
      assert (a + b)[i] == a[i];
    }
    if AnyLongStop(c, b) {
      var i :| 0 <= i < |b| && LongStop(c, b[i]);
      assert (a + b)[|a| + i] == b[i];
    }
  }

  lemma OneLongStop(c: Chunker, line: string)
    ensures AnyLongStop(c, [line]) <==> LongStop(c, line)
  {
    hide LongStop;
    assert [line][0] == line;
  }

  lemma {:induction false} LinePartsBalance(c: Chunker, parts: seq<string>)
    ensures Balance(c, Concat(parts), Concat(SplitParts(c, parts, SENTENCES)), AnyLongStop(c, parts))
  {
    hide LongStop, Balance, AnyLongStop, Split;
    if parts == [] {
      NoLongStop(c);
      BalanceItself(c, "");
    } else {
      var head := if |parts[0]| > c.size then Split(c, parts[0], SENTENCES) else [parts[0]];
      PartBalance(c, parts[0]);
      LinePartsBalance(c, parts[1..]);
      JoinBalance(c, parts, head, SplitParts(c, parts[1..], SENTENCES), LongStop(c, parts[0]),
                  AnyLongStop(c, parts[1..]));
      OneLongStop(c, parts[0]);
      AnyLongStopConcat(c, [parts[0]], parts[1..]);
      assert parts == [parts[0]] + parts[1..];
    }
  }

  lemma NoLongStop(c: Chunker)
    ensures !AnyLongStop(c, [])
  {
  }

  lemma PartBalance(c: Chunker, part: string)
    ensures Balance(c, part, Concat(if |part| > c.size then Split(c, part, SENTENCES) else [part]), LongStop(c, part))
  {
    hide Balance, Split;
    if |part| > c.size {
      LineBalance(c, part);
    } else {
      assert Concat([part]) == part + Concat([]) == part;
      BalanceItself(c, part);
    }
  }

  lemma JoinBalance(c: Chunker, parts: seq<string>, head: seq<string>, tail: seq<string>, first: bool, later: bool)
    requires parts != []
    requires Balance(c, parts[0], Concat(head), first) && Balance(c, Concat(parts[1..]), Concat(tail), later)
    ensures Balance(c, Concat(parts), Concat(head + tail), first || later)
  {
    hide Balance;
    ConcatAppend(head, tail);
    BalanceConcat(c, parts[0], Concat(head), first, Concat(parts[1..]), Concat(tail), later);
  }

  lemma {:induction false} LinesAreShort(parts: seq<string>, n: nat)
    requires forall i | 0 <= i < |parts| :: |parts[i]| <= n
    ensures forall i | 0 <= i < |NonBlankParts(parts)| :: |NonBlankParts(parts)[i]| <= n
  {
    hide Strip;
    if parts != [] {
      var f, b := StripSplits(parts[0]);
      LinesAreShort(parts[1..], n);
    }
  }

  lemma {:induction false} PartsAreShort(text: string, sep: string)
    requires sep != ""
    ensures forall i | 0 <= i < |SplitOn(text, sep)| :: |SplitOn(text, sep)[i]| <= |text|
    decreases |text|
  {
    hide Find;
    var found, front, rest := SplitOnUnfolds(text, sep);
    if found { PartsAreShort(rest, sep); }
  }

  lemma ShortTextHasNoLongStop(c: Chunker, text: string)
    requires |text| <= c.size
    ensures !AnyLongStop(c, Lines(text))
  {
    hide NonBlankParts, SplitOn, Contains;
    PartsAreShort(text, "\n");
    LinesAreShort(SplitOn(text, "\n"), |text|);
  }

  lemma SameVisible(c: Chunker, before: string, before': string, after: string, lossy: bool)
    requires Balance(c, before, after, lossy) && Visible(before) == Visible(before')
    ensures Balance(c, before', after, lossy)
  {
  }

  lemma ParagraphBalance(c: Chunker, text: string)
    requires text != "" && Stripped(text)
    ensures Balance(c, text, Concat(Split(c, text, LINES)), AnyLongStop(c, Lines(text)))
  {
    hide Balance, Split, SplitParts, NonBlankParts, SplitOn, Contains, Concat, AnyLongStop, LongStop, Visible;
    Suffixes();
    assert LINES[0] == "\n";
    if |text| <= c.size {
      ShortTextHasNoLongStop(c, text);
      ShortSplit(c, text, LINES);
      BalanceItself(c, text);
    } else if Contains(text, "\n") {
      SplitHere(c, text, LINES);
      LinePartsBalance(c, Lines(text));
      PartsKeepVisible(text, "\n");
      SameVisible(c, Concat(Lines(text)), text, Concat(Split(c, text, LINES)), AnyLongStop(c, Lines(text)));
    } else {
      PassOver(c, text, LINES);
      LineBalance(c, text);
      ContainsCharacter(text, '\n');
      OneLine(text);
      StrippedIsFixed(text);
      OneLongStop(c, text);
      assert !IsSpace(text[0]);
    }
  }

  lemma {:induction false} ParagraphPartsBalance(c: Chunker, parts: seq<string>)
    requires forall i | 0 <= i < |parts| :: parts[i] != "" && Stripped(parts[i])
    ensures Balance(c, Concat(parts), Concat(SplitParts(c, parts, LINES)), AnyLongStop(c, LinesOf(parts)))
  {
    hide LongStop, Balance, AnyLongStop, Split, Stripped, Lines;
    if parts == [] {
      NoLongStop(c);
      BalanceItself(c, "");
    } else {
      var head := if |parts[0]| > c.size then Split(c, parts[0], LINES) else [parts[0]];
      ParagraphPartBalance(c, parts[0]);
      ParagraphPartsBalance(c, parts[1..]);
      JoinBalance(c, parts, head, SplitParts(c, parts[1..], LINES),
                  AnyLongStop(c, Lines(parts[0])), AnyLongStop(c, LinesOf(parts[1..])));
      AnyLongStopConcat(c, Lines(parts[0]), LinesOf(parts[1..]));
    }
  }

  lemma ParagraphPartBalance(c: Chunker, part: string)
    requires part != "" && Stripped(part)
    ensures Balance(c, part, Concat(if |part| > c.size then Split(c, part, LINES) else [part]),
                    AnyLongStop(c, Lines(part)))
  {
    hide Balance, Split, AnyLongStop, Lines, Stripped;
    if |part| > c.size {
      ParagraphBalance(c, part);
    } else {
      ShortTextHasNoLongStop(c, part);
      assert Concat([part]) == part + Concat([]) == part;
      BalanceItself(c, part);
    }
  }

  lemma TextBalance(c: Chunker, text: string)
    requires text != "" && Stripped(text)
    ensures Balance(c, text, Concat(Split(c, text, DEFAULT_SEPARATORS)), AnyLongStop(c, Lines(text)))
  {
    hide Balance, Split, SplitParts, NonBlankParts, SplitOn, Contains, Concat, AnyLongStop, Visible, Lines, Stripped;
    Suffixes();
    assert DEFAULT_SEPARATORS[0] == "\n\n";
    if |text| <= c.size {
      ShortTextHasNoLongStop(c, text);
      ShortSplit(c, text, DEFAULT_SEPARATORS);
      BalanceItself(c, text);
    } else if Contains(text, "\n\n") {
      var parts := NonBlankParts(SplitOn(text, "\n\n"));
      SplitHere(c, text, DEFAULT_SEPARATORS);
      StrippedParts(SplitOn(text, "\n\n"));
      ParagraphPartsBalance(c, parts);
      LinesOfParagraphs(text);
      PartsKeepVisible(text, "\n\n");
      SameVisible(c, Concat(parts), text, Concat(Split(c, text, DEFAULT_SEPARATORS)), AnyLongStop(c, Lines(text)));
    } else {
      PassOver(c, text, DEFAULT_SEPARATORS);
      ParagraphBalance(c, text);
    }
  }

  lemma StrippedParts(parts: seq<string>)
    ensures forall i | 0 <= i < |NonBlankParts(parts)| ::
              NonBlankParts(parts)[i] != "" && Stripped(NonBlankParts(parts)[i])
  {
    hide NonBlankParts, Stripped, IsSpace;
    ChunkShape.PartsAreStripped(parts);
    assert Blank("");
  }

  // ---------- The theorem ----------

  /** With the default separators, the chunks hold everything visible of the text when no line that has to be
      split contains ". ". Without overlap this is exact: they hold the visible text, no more and no less, if and
      only if there is no such line; otherwise stops are lost. */
  lemma StopsAreKept(c: Chunker, text: string)
    requires c.separators == DEFAULT_SEPARATORS
    ensures var lossy := AnyLongStop(c, Lines(Normalize(text)));
            && (!lossy ==> Subsequence(Visible(text), Visible(Concat(Texts(c, text)))))
            && (c.overlap == 0 ==> (Visible(Concat(Texts(c, text))) == Visible(text) <==> !lossy))
  {
    hide Texts, Normalize, Lines, AnyLongStop, Kept, Concat, Split, Stripped;
    NormalizeKeeps(text, []);
    NormalizedIsBlank(text);
    var t := Normalize(text);
    if t == "" {
      BlankHasNoLines("");
      NoLongStop(c);
      NoTexts(c, text);
      CoversItself(c, Visible(""));
    } else {
      TextBalance(c, t);
      MergedKeeps(c, text, []);
      var pieces := Split(c, t, c.separators);
      if !AnyLongStop(c, Lines(t)) {
        SubsequenceTransitive(Visible(t), Visible(Concat(pieces)), Visible(Concat(Texts(c, text))));
      }
    }
  }

  lemma NoTexts(c: Chunker, text: string)
    requires Normalize(text) == ""
    ensures Concat(Texts(c, text)) == ""
  {
  }

  lemma StopSplits(a: string, b: string)
    requires '.' !in a + b
    ensures SplitOn(a + ". " + b, ". ") == [a, b]
  {
    hide Find;
    var text := a + ". " + b;
    assert OccursAt(text, ". ", |a|);
    var found, front, rest := SplitOnUnfolds(text, ". ");
    assert text[|front|] == '.' && text[|a|] == '.';
    forall k | 0 <= k < |text| && k != |a| ensures text[k] != '.' {
      if k < |a| {
        assert text[k] == (a + b)[k];
      } else if k > |a| + 1 {
        assert text[k] == (a + b)[k - 2];
      }
    }
    assert |front| == |a|;
    assert front == text[..|a|] == a && rest == text[|a| + 2..] == b;
    var found', front', rest' := SplitOnUnfolds(b, ". ");
    if found' { OccurringCharacter(b, ". ", '.'); }
  }

  lemma TwoWordsNormalize()
    ensures Normalize("aaa. bbb") == "aaa. bbb"
  {
    hide Replace, Strip;
    UnchangedWithout("aaa. bbb", "\r\n", "\n");
    UnchangedWithout("aaa. bbb", "\r", "\n");
    StrippedIsFixed("aaa. bbb");
  }

  lemma TwoWordsSplit(c: Chunker)
    requires c == Settings(5, 0, DEFAULT_SEPARATORS)
    ensures Split(c, "aaa. bbb", DEFAULT_SEPARATORS) == ["aaa", "bbb"]
  {
    hide Split, SplitOn, NonBlankParts, Contains, Strip;
    var text := "aaa. bbb";
    assert text == "aaa" + ". " + "bbb";
    Suffixes();
    if Contains(text, "\n\n") { OccurringCharacter(text, "\n\n", '\n'); }
    ContainsCharacter(text, '\n');
    assert DEFAULT_SEPARATORS[0] == "\n\n" && LINES[0] == "\n" && SENTENCES[0] == ". ";
    PassOver(c, text, DEFAULT_SEPARATORS);
    PassOver(c, text, LINES);
    StopSplits("aaa", "bbb");
    var found, front, rest := SplitOnUnfolds(text, ". ");
    SplitHere(c, text, SENTENCES);
    TwoParts();
    ShortParts(c, "aaa", "bbb", WORDS);
  }

  lemma TwoParts()
    ensures NonBlankParts(["aaa", "bbb"]) == ["aaa", "bbb"]
  {
    hide Strip;
    StrippedIsFixed("aaa");
    StrippedIsFixed("bbb");
    assert ["aaa", "bbb"][1..] == ["bbb"];
    assert NonBlankParts(["bbb"]) == ["bbb"];
  }

  lemma ShortParts(c: Chunker, a: string, b: string, separators: seq<string>)
    requires |a| <= c.size && |b| <= c.size
    ensures SplitParts(c, [a, b], separators) == [a, b]
  {
    assert [a, b][1..] == [b];
    assert SplitParts(c, [b], separators) == [b];
  }

  lemma TwoWordsMerge(c: Chunker)
    requires c == Settings(5, 0, DEFAULT_SEPARATORS)
    ensures Finish(MergeAll(c, ["aaa", "bbb"])) == ["aaa", "bbb"]
  {
    hide Strip;
    StrippedIsFixed("aaa bbb");
    StrippedIsFixed("bbb");
    assert "aaa" + " " + "bbb" == "aaa bbb" && "" + " " + "bbb" == " " + "bbb";
    StripSkips(" ", "bbb");
    assert ["aaa", "bbb"][..1] == ["aaa"] && ["aaa"][..0] == [];
    assert MergeAll(c, []) == Merging([], "");
    assert MergeAll(c, ["aaa"]) == Merging([], "aaa");
    assert Last("aaa", 0) == "";
  }

  /** Chunks of at most five characters: the stop of "aaa. bbb" is in none of them. */
  lemma StopsCanBeLost()
    ensures var c := Settings(5, 0, DEFAULT_SEPARATORS);
            Texts(c, "aaa. bbb") == ["aaa", "bbb"]
            && Visible("aaa. bbb") != Visible(Concat(Texts(c, "aaa. bbb")))
  {
    hide Split, MergeAll, Normalize, Kept, Concat;
    var c := Settings(5, 0, DEFAULT_SEPARATORS);
    TwoWordsNormalize();
    TwoWordsSplit(c);
    TwoWordsMerge(c);
    LongStopOfTwoWords(c);
    StopsAreKept(c, "aaa. bbb");
  }

  lemma LongStopOfTwoWords(c: Chunker)
    requires c.size == 5
    ensures AnyLongStop(c, Lines(Normalize("aaa. bbb")))
  {
    hide Lines, Strip, Contains, Normalize;
    TwoWordsNormalize();
    OneLine("aaa. bbb");
    StrippedIsFixed("aaa. bbb");
    assert !IsSpace("aaa. bbb"[0]);
    assert Contains("aaa. bbb", ". ") by { AnyOccurrence("aaa. bbb", ". ", 3); }
    OneLongStop(c, "aaa. bbb");
  }

  lemma AnyOccurrence(text: string, sub: string, i: nat)
    requires i + |sub| <= |text| && text[i..i + |sub|] == sub
    ensures Contains(text, sub)
  {
    assert OccursAt(text, sub, i);
  }
}
