/** The fragment of Python's `str` that ragpipe relies on: stripping white space, splitting on a
    separator, replacing, and ordering by code point. */
module Strings {
  import opened Sorting

  datatype Option<+T> = None | Some(value: T)

  // ---------- White space ----------

  /** The characters for which Python's `str.isspace` holds; `str.strip` removes exactly these. */
  predicate IsSpace(c: char) {
    var n := c as int;
    || 0x09 <= n <= 0x0D || 0x1C <= n <= 0x20 || n == 0x85 || n == 0xA0 || n == 0x1680
    || 0x2000 <= n <= 0x200A || n == 0x2028 || n == 0x2029 || n == 0x202F || n == 0x205F || n == 0x3000
  }

  predicate Blank(s: string) {
    forall i | 0 <= i < |s| :: IsSpace(s[i])
  }

  /** No white space at either edge. */
  predicate Stripped(s: string) {
    s == "" || (!IsSpace(s[0]) && !IsSpace(s[|s| - 1]))
  }

  function LStrip(s: string): string {
    if s != "" && IsSpace(s[0]) then LStrip(s[1..]) else s
  }

  function RStrip(s: string): string {
    if s != "" && IsSpace(s[|s| - 1]) then RStrip(s[..|s| - 1]) else s
  }

  function Strip(s: string): string {
    RStrip(LStrip(s))
  }

  lemma {:induction false} LStripSplits(s: string)
    ensures |LStrip(s)| <= |s|
    ensures Blank(s[..|s| - |LStrip(s)|]) && s == s[..|s| - |LStrip(s)|] + LStrip(s)
    ensures LStrip(s) == "" || !IsSpace(LStrip(s)[0])
  {
    if s != "" && IsSpace(s[0]) {
      LStripSplits(s[1..]);
      var n := |s| - |LStrip(s)|;
      assert s[..n] == [s[0]] + s[1..][..n - 1];
    }
  }

  lemma {:induction false} RStripSplits(s: string)
    ensures RStrip(s) <= s && Blank(s[|RStrip(s)|..])
    ensures RStrip(s) == "" || !IsSpace(RStrip(s)[|RStrip(s)| - 1])
  {
    hide IsSpace, Blank;
    if s != "" && IsSpace(s[|s| - 1]) {
      RStripSplits(s[..|s| - 1]);
      BlankEnd(s, |RStrip(s)|);
    } else {
      NothingIsBlank(s[|s|..]);
    }
  }

  lemma BlankEnd(s: string, n: nat)
    requires n < |s| && Blank(s[..|s| - 1][n..]) && IsSpace(s[|s| - 1])
    ensures Blank(s[n..])
  {
    hide IsSpace;
    forall i | 0 <= i < |s| - n ensures IsSpace(s[n..][i]) {
      if i < |s| - n - 1 { assert s[n..][i] == s[..|s| - 1][n..][i]; }
    }
  }

  lemma NothingIsBlank(s: string)
    requires s == ""
    ensures Blank(s)
  {
  }

  /** `strip` removes white space only, from both edges, and leaves none there. */
  lemma StripSplits(s: string) returns (front: string, back: string)
    ensures s == front + Strip(s) + back
    ensures Blank(front) && Blank(back) && Stripped(Strip(s))
    ensures |Strip(s)| <= |s|
    ensures Strip(s) == "" <==> Blank(s)
  {
    hide IsSpace, LStrip, RStrip;
    var l := LStrip(s);
    LStripSplits(s);
    RStripSplits(l);
    front, back := s[..|s| - |l|], l[|Strip(s)|..];
    assert l == Strip(s) + back;
    if Strip(s) != "" {
      assert l[0] == Strip(s)[0];
      assert s[|front|] == l[0];
    }
    assert s == front + (Strip(s) + back);
  }

  lemma {:induction false} RStripAbsorbs(a: string, b: string)
    requires a != "" && !IsSpace(a[|a| - 1])
    ensures a <= RStrip(a + b)
    ensures Blank(b) ==> RStrip(a + b) == a
    decreases |b|
  {
    if b == "" {
      assert a + b == a;
    } else if IsSpace(b[|b| - 1]) {
      assert (a + b)[..|a + b| - 1] == a + b[..|b| - 1];
      RStripAbsorbs(a, b[..|b| - 1]);
    }
  }

  /** Text that is already stripped survives whole at the front of any later extension. */
  lemma StripKeepsFront(a: string, b: string)
    requires a != "" && Stripped(a)
    ensures a <= Strip(a + b)
    ensures Blank(b) ==> Strip(a + b) == a
  {
    assert (a + b)[0] == a[0];
    assert LStrip(a + b) == a + b;
    RStripAbsorbs(a, b);
  }

  lemma {:induction false} LStripSkips(front: string, s: string)
    requires Blank(front)
    ensures LStrip(front + s) == LStrip(s)
  {
    if front == "" {
      assert front + s == s;
    } else {
      assert (front + s)[1..] == front[1..] + s;
      LStripSkips(front[1..], s);
    }
  }

  lemma StripSkips(front: string, s: string)
    requires Blank(front)
    ensures Strip(front + s) == Strip(s)
  {
    LStripSkips(front, s);
  }

  lemma StrippedIsFixed(s: string)
    requires Stripped(s)
    ensures Strip(s) == s
  {
  }

  // ---------- Searching, splitting, replacing ----------

  predicate OccursAt(text: string, sub: string, i: int) {
    0 <= i && i + |sub| <= |text| && text[i..i + |sub|] == sub
  }

  /** `sub in text` */
  predicate Contains(text: string, sub: string) {
    exists i | 0 <= i <= |text| :: OccursAt(text, sub, i)
  }

  lemma ContainsCharacter(text: string, ch: char)
    ensures Contains(text, [ch]) <==> ch in text
  {
    if ch in text {
      var i :| 0 <= i < |text| && text[i] == ch;
      assert OccursAt(text, [ch], i);
    }
    if Contains(text, [ch]) {
      var i :| 0 <= i <= |text| && OccursAt(text, [ch], i);
      assert text[i] == text[i..i + 1][0];
    }
  }

  /** `text.find(sub, from)`, with None for -1. */
  function Find(text: string, sub: string, from: nat): (r: Option<nat>)
    requires from <= |text|
    ensures r.Some? ==> from <= r.value && OccursAt(text, sub, r.value)
    ensures r.Some? ==> forall j | from <= j < r.value :: !OccursAt(text, sub, j)
    ensures r.None? ==> forall j | from <= j <= |text| :: !OccursAt(text, sub, j)
    decreases |text| - from
  {
    if OccursAt(text, sub, from) then Some(from)
    else if from == |text| then None
    else Find(text, sub, from + 1)
  }

  /** `text.split(sep)` for a non-empty separator. */
  function SplitOn(text: string, sep: string): (parts: seq<string>)
    requires sep != ""
    ensures |parts| > 0
    decreases |text|
  {
    var at := Find(text, sep, 0);
    if at.None? then [text] else [text[..at.value]] + SplitOn(text[at.value + |sep|..], sep)
  }

  /** One step of splitting: either the separator does not occur, or the text goes on after it. */
  lemma SplitOnUnfolds(text: string, sep: string) returns (found: bool, front: string, rest: string)
    requires sep != ""
    ensures found <==> Contains(text, sep)
    ensures !found ==> SplitOn(text, sep) == [text]
    ensures found ==> text == front + sep + rest && |rest| < |text| && !Contains(front, sep)
    ensures found ==> SplitOn(text, sep) == [front] + SplitOn(rest, sep)
  {
    var at := Find(text, sep, 0);
    found, front, rest := at.Some?, "", "";
    if found {
      front, rest := text[..at.value], text[at.value + |sep|..];
      forall i | 0 <= i <= |front| ensures !OccursAt(front, sep, i) {
        if i + |sep| <= |front| {
          assert front[i..i + |sep|] == text[i..i + |sep|];
          assert !OccursAt(text, sep, i);
        }
      }
    }
  }

  /** Splitting at a character that the text starts without. */
  lemma SplitAfter(head: string, tail: string, ch: char)
    requires ch !in head
    ensures SplitOn(head + [ch] + tail, [ch]) == [head] + SplitOn(tail, [ch])
  {
    hide Find;
    var text := head + [ch] + tail;
    assert OccursAt(text, [ch], |head|);
    var found, front, rest := SplitOnUnfolds(text, [ch]);
    ContainsCharacter(front, ch);
    assert forall k | 0 <= k < |head| :: text[k] == head[k];
    assert forall k | 0 <= k < |front| :: text[k] == front[k];
    assert text[|front|] == ch && text[|head|] == ch;
    assert front == text[..|head|] == head && rest == text[|head| + 1..] == tail;
  }

  function Join(parts: seq<string>, sep: string): string {
    if |parts| == 0 then ""
    else if |parts| == 1 then parts[0]
    else parts[0] + sep + Join(parts[1..], sep)
  }

  /** Splitting loses nothing but the separators. */
  lemma {:induction false} JoinUndoesSplit(text: string, sep: string)
    requires sep != ""
    ensures Join(SplitOn(text, sep), sep) == text
    decreases |text|
  {
    var found, front, rest := SplitOnUnfolds(text, sep);
    if found {
      JoinUndoesSplit(rest, sep);
      assert SplitOn(text, sep)[1..] == SplitOn(rest, sep);
    }
  }

  /** `text.replace(old, new)` for a non-empty pattern. */
  function Replace(text: string, old_: string, new_: string): string
    requires old_ != ""
  {
    Join(SplitOn(text, old_), new_)
  }

  lemma ReplaceUnfolds(text: string, old_: string, new_: string) returns (found: bool, front: string, rest: string)
    requires old_ != ""
    ensures found <==> Contains(text, old_)
    ensures !found ==> Replace(text, old_, new_) == text
    ensures found ==> text == front + old_ + rest && |rest| < |text| && !Contains(front, old_)
    ensures found ==> Replace(text, old_, new_) == front + new_ + Replace(rest, old_, new_)
  {
    found, front, rest := SplitOnUnfolds(text, old_);
    if found {
      assert SplitOn(text, old_)[1..] == SplitOn(rest, old_);
    }
  }

  // ---------- Order by code point ----------

  predicate Le(a: string, b: string) {
    a == "" || (b != "" && (a[0] < b[0] || (a[0] == b[0] && Le(a[1..], b[1..]))))
  }

  lemma LeTotal(a: string, b: string)
    ensures Le(a, b) || Le(b, a)
  {
  }

  lemma {:induction false} LeAntisymmetric(a: string, b: string)
    requires Le(a, b) && Le(b, a)
    ensures a == b
  {
    if a != "" && b != "" {
      LeAntisymmetric(a[1..], b[1..]);
      assert a == [a[0]] + a[1..] && b == [b[0]] + b[1..];
    }
  }

  lemma LeTransitive(a: string, b: string, c: string)
    requires Le(a, b) && Le(b, c)
    ensures Le(a, c)
  {
  }

  /** At the first difference the smaller character comes first; a prefix comes before what it begins. */
  lemma {:induction false} LeByFirstDifference(a: string, b: string)
    ensures Le(a, b) <==> a <= b || exists i | 0 <= i < |a| && i < |b| :: a[..i] == b[..i] && a[i] < b[i]
  {
    if a != "" && b != "" {
      LeByFirstDifference(a[1..], b[1..]);
      if a[0] < b[0] {
        assert a[..0] == b[..0];
      } else if a[0] == b[0] {
        assert a <= b <==> a[1..] <= b[1..];
        SameDifference(a, b);
      } else {
        forall i | 0 <= i < |a| && i < |b| ensures a[..i] == b[..i] ==> a[i] >= b[i] { SameStart(a, b, i); }
      }
    }
  }

  lemma SameStart(a: string, b: string, i: nat)
    requires i < |a| && i < |b|
    ensures i > 0 && a[..i] == b[..i] ==> a[0] == b[0]
  {
    if i > 0 { assert a[0] == a[..i][0] && b[0] == b[..i][0]; }
  }

  lemma SameDifference(a: string, b: string)
    requires a != "" && b != "" && a[0] == b[0]
    ensures (exists i | 0 <= i < |a| && i < |b| :: a[..i] == b[..i] && a[i] < b[i])
       <==> (exists i | 0 <= i < |a[1..]| && i < |b[1..]| :: a[1..][..i] == b[1..][..i] && a[1..][i] < b[1..][i])
  {
    if i :| 0 <= i < |a| && i < |b| && a[..i] == b[..i] && a[i] < b[i] {
      assert a[1..][..i - 1] == a[..i][1..] && b[1..][..i - 1] == b[..i][1..];
      assert a[1..][i - 1] < b[1..][i - 1];
    }
    if i :| 0 <= i < |a[1..]| && i < |b[1..]| && a[1..][..i] == b[1..][..i] && a[1..][i] < b[1..][i] {
      assert a[..i + 1] == [a[0]] + a[1..][..i] && b[..i + 1] == [b[0]] + b[1..][..i];
      assert a[i + 1] < b[i + 1];
    }
  }

  lemma LeIsTotalOrder()
    ensures TotalOrder(Le)
  {
    forall a, b ensures Le(a, b) || Le(b, a) { LeTotal(a, b); }
    forall a, b | Le(a, b) && Le(b, a) ensures a == b { LeAntisymmetric(a, b); }
    forall a, b, c | Le(a, b) && Le(b, c) ensures Le(a, c) { LeTransitive(a, b, c); }
  }

  /** `sorted(s)` for a set of strings */
  function Sorted(s: set<string>): (r: seq<string>)
    ensures |r| == |s|
    ensures forall x :: x in r <==> x in s
  {
    LeIsTotalOrder();
    SortedBy(Le, s)
  }
}
