/** What normalisation does to line ends. */
module LineEnds {
  import opened Strings
  import opened Chunking
  import opened ChunkVanishing

  lemma Shifted(p: string, b: string, old_: string, j: int)
    requires j >= 0
    ensures OccursAt(p + b, old_, |p| + j) <==> OccursAt(b, old_, j)
  {
    if |p| + j + |old_| <= |p + b| { assert (p + b)[|p| + j..|p| + j + |old_|] == b[j..j + |old_|]; }
  }

  lemma FindBehind(p: string, b: string, old_: string)
    requires old_ != "" && forall i | 0 <= i < |p| :: !OccursAt(p + b, old_, i)
    ensures var at, at' := Find(p + b, old_, 0), Find(b, old_, 0);
            at == if at'.None? then None else Some(|p| + at'.value)
  {
    hide OccursAt, Find;
    var at, at' := Find(p + b, old_, 0), Find(b, old_, 0);
    if at'.Some? {
      Shifted(p, b, old_, at'.value);
      Bounded(p + b, old_, |p| + at'.value);
    }
    if at.Some? {
      Shifted(p, b, old_, at.value - |p|);
      Bounded(b, old_, at.value - |p|);
    }
  }

  lemma Bounded(text: string, old_: string, i: int)
    ensures OccursAt(text, old_, i) ==> 0 <= i && i + |old_| <= |text|
  {
  }

  lemma SplitUnfold(text: string, old_: string)
    requires old_ != ""
    ensures var at := Find(text, old_, 0);
            if at.None? then SplitOn(text, old_) == [text]
            else at.value + |old_| <= |text|
                 && SplitOn(text, old_) == [text[..at.value]] + SplitOn(text[at.value + |old_|..], old_)
  {
    hide OccursAt, Find;
    var at := Find(text, old_, 0);
    if at.Some? { Bounded(text, old_, at.value); }
  }

  /** Text in which the pattern does not start stays as it is. */
  lemma ReplaceBehind(p: string, b: string, old_: string, new_: string)
    requires old_ != "" && forall i | 0 <= i < |p| :: !OccursAt(p + b, old_, i)
    ensures Replace(p + b, old_, new_) == p + Replace(b, old_, new_)
  {
    hide Join, SplitOn, OccursAt, Find;
    var text := p + b;
    FindBehind(p, b, old_);
    SplitUnfold(text, old_);
    SplitUnfold(b, old_);
    var at := Find(b, old_, 0);
    if at.Some? {
      var i := at.value;
      assert text[..|p| + i] == p + b[..i] && text[|p| + i + |old_|..] == b[i + |old_|..];
      JoinBehind(p, b[..i], SplitOn(b[i + |old_|..], old_), new_);
    } else {
      OnePart(text, new_);
      OnePart(b, new_);
    }
  }

  lemma JoinBehind(p: string, front: string, later: seq<string>, new_: string)
    requires later != []
    ensures Join([p + front] + later, new_) == p + Join([front] + later, new_)
  {
    assert ([p + front] + later)[1..] == later && ([front] + later)[1..] == later;
  }

  lemma OnePart(text: string, new_: string)
    ensures Join([text], new_) == text
  {
  }

  lemma StartsWithPattern(b: string, old_: string, new_: string)
    requires old_ != ""
    ensures Replace(old_ + b, old_, new_) == new_ + Replace(b, old_, new_)
  {
    hide Join;
    assert OccursAt(old_ + b, old_, 0);
    assert (old_ + b)[..0] == "" && (old_ + b)[|old_|..] == b;
    assert SplitOn(old_ + b, old_) == [""] + SplitOn(b, old_);
    JoinOfNothing(SplitOn(b, old_), new_);
  }

  lemma JoinOfNothing(parts: seq<string>, new_: string)
    requires parts != []
    ensures Join([""] + parts, new_) == new_ + Join(parts, new_)
  {
    assert ([""] + parts)[1..] == parts;
  }

  lemma OccurrenceStarts(text: string, old_: string, i: nat)
    requires old_ != ""
    ensures OccursAt(text, old_, i) ==> i < |text| && text[i] == old_[0]
    ensures OccursAt(text, old_, i) && |old_| > 1 ==> i + 1 < |text| && text[i + 1] == old_[1]
  {
    if OccursAt(text, old_, i) {
      assert text[i] == text[i..i + |old_|][0];
      if |old_| > 1 { assert text[i + 1] == text[i..i + |old_|][1]; }
    }
  }

  lemma NoReturn(p: string, b: string, old_: string)
    requires '\r' !in p && old_ != "" && old_[0] == '\r'
    ensures forall i | 0 <= i < |p| :: !OccursAt(p + b, old_, i)
  {
    forall i | 0 <= i < |p| ensures !OccursAt(p + b, old_, i) {
      OccurrenceStarts(p + b, old_, i);
      assert (p + b)[i] == p[i];
    }
  }

  /** Text without carriage returns is only stripped. */
  lemma NothingToNormalize(text: string)
    requires '\r' !in text
    ensures Normalize(text) == Strip(text)
  {
    hide Strip, Replace;
    UnchangedWithout(text, "\r\n", "\n");
    UnchangedWithout(text, "\r", "\n");
  }

  /** Both other ways to end a line mean a line feed: read from the left, CR LF is one line end, and so is a CR that
      no LF follows. */
  lemma LineEndsAreLineFeeds(a: string, b: string)
    requires '\r' !in a
    ensures Normalize(a + "\r\n" + b) == Normalize(a + "\n" + b)
    ensures b == "" || b[0] != '\n' ==> Normalize(a + "\r" + b) == Normalize(a + "\n" + b)
  {
    hide Strip, Replace;
    var once := Replace(b, "\r\n", "\n");
    assert a + "\r\n" + b == a + ("\r\n" + b) && a + "\n" + b == (a + "\n") + b;
    NoReturn(a, "\r\n" + b, "\r\n");
    NoReturn(a + "\n", b, "\r\n");
    ReplaceBehind(a, "\r\n" + b, "\r\n", "\n");
    StartsWithPattern(b, "\r\n", "\n");
    ReplaceBehind(a + "\n", b, "\r\n", "\n");
    assert a + ("\n" + once) == a + "\n" + once;
    if b == "" || b[0] != '\n' {
      LoneReturn(a, b);
      ReplaceBehind(a + "\r", b, "\r\n", "\n");
      assert a + "\r" + once == a + ("\r" + once) && a + "\n" + once == (a + "\n") + once;
      NoReturn(a, "\r" + once, "\r");
      NoReturn(a + "\n", once, "\r");
      ReplaceBehind(a, "\r" + once, "\r", "\n");
      StartsWithPattern(once, "\r", "\n");
      ReplaceBehind(a + "\n", once, "\r", "\n");
      assert a + ("\n" + Replace(once, "\r", "\n")) == a + "\n" + Replace(once, "\r", "\n");
    }
  }

  lemma LoneReturn(a: string, b: string)
    requires '\r' !in a && (b == "" || b[0] != '\n')
    ensures forall i | 0 <= i < |a + "\r"| :: !OccursAt(a + "\r" + b, "\r\n", i)
  {
    var text := a + "\r" + b;
    forall i | 0 <= i < |a + "\r"| ensures !OccursAt(text, "\r\n", i) {
      OccurrenceStarts(text, "\r\n", i);
      assert i < |a| ==> text[i] == a[i];
      assert i == |a| && i + 1 < |text| ==> text[i + 1] == b[0];
    }
  }
}
