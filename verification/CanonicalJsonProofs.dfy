/** The canonical text of metadata is JSON text for the value, with the keys of every object in order; so it determines
    the value, and nothing but the order of keys is lost. */
module CanonicalJsonProofs {
  import opened Strings
  import opened Sorting
  import opened CanonicalJson
  import opened JsonReader

  // ---------- Dumps factors through ToValue ----------

  lemma {:induction false} DumpsIsText(j: Json)
    requires Serializable(j)
    ensures Dumps(j) == Text(ToValue(j))
    decreases j
  {
    match j
    case Arr(items) =>
      DumpsItemsIsText(j, items, 0);
      var v := ToValue(j);
      assert v.items[0..] == v.items;
    case Obj(members) =>
      DumpsMembersIsText(j, Sorted(Keys(members)));
      ToValueKeys(j);
      ObjectText(j, ToValue(j), Keys(members));
    case _ =>
  }

  lemma ToValueKeys(j: Json)
    requires j.Obj? && Serializable(j)
    ensures ToValue(j).VObj? && ToValue(j).members.Keys == Keys(j.members)
  {
  }

  lemma ObjectText(j: Json, v: Value, keys: set<string>)
    requires j.Obj? && Serializable(j) && v.VObj? && keys == Keys(j.members) == v.members.Keys
    requires DumpsMembers(j, Sorted(keys)) == MembersText(v, Sorted(keys))
    ensures Dumps(j) == Text(v)
  {
  }

  lemma {:induction false} DumpsItemsIsText(j: Json, items: seq<Json>, n: nat)
    requires Serializable(j) && j.Arr? && n + |items| == |j.items| && items == j.items[n..]
    ensures DumpsItems(j, items) == ItemsText(ToValue(j), ToValue(j).items[n..])
    decreases j, |items|
  {
    if items != [] {
      DumpsIsText(items[0]);
      var values := ToValue(j).items[n..];
      assert values[1..] == ToValue(j).items[n + 1..];
      DumpsItemsIsText(j, items[1..], n + 1);
    }
  }

  lemma {:induction false} DumpsMembersIsText(j: Json, keys: seq<string>)
    requires Serializable(j) && j.Obj? && forall i | 0 <= i < |keys| :: keys[i] in Keys(j.members)
    ensures DumpsMembers(j, keys) == MembersText(ToValue(j), keys)
    decreases j, |keys|
  {
    if keys != [] {
      DumpsIsText(j.members[IndexOf(j.members, keys[0])].1);
      DumpsMembersIsText(j, keys[1..]);
    }
  }

  // ---------- Values ----------

  predicate WellFormed(v: Value) {
    match v
    case VFloat(repr) => IsFloatRepr(repr)
    case VArr(items) => forall i | 0 <= i < |items| :: WellFormed(items[i])
    case VObj(members) => forall key | key in members :: WellFormed(members[key])
    case _ => true
  }

  lemma {:induction false} ToValueIsWellFormed(j: Json)
    requires Serializable(j)
    ensures WellFormed(ToValue(j))
  {
    match j
    case Arr(items) =>
      forall i | 0 <= i < |items| ensures WellFormed(ToValue(items[i])) { ToValueIsWellFormed(items[i]); }
    case Obj(members) =>
      forall key | key in Keys(members) ensures WellFormed(ToValue(members[IndexOf(members, key)].1)) {
        ToValueIsWellFormed(members[IndexOf(members, key)].1);
      }
    case _ =>
  }

  /** The value with the keys of every object in order. */
  function Ordered(v: Value): Json
    decreases v
  {
    match v
    case VNull => Null
    case VBool(b) => Bool(b)
    case VInt(n) => Int(n)
    case VFloat(repr) => Float(repr)
    case VStr(s) => Str(s)
    case VArr(items) => Arr(seq(|items|, i requires 0 <= i < |items| => Ordered(items[i])))
    case VObj(members) =>
      var keys := Sorted(members.Keys);
      Obj(seq(|keys|, i requires 0 <= i < |keys| => (keys[i], Ordered(members[keys[i]]))))
  }

  function OrderedItems(items: seq<Value>): seq<Json> {
    seq(|items|, i requires 0 <= i < |items| => Ordered(items[i]))
  }

  function OrderedMembers(v: Value, keys: seq<string>): seq<(string, Json)>
    requires v.VObj? && forall i | 0 <= i < |keys| :: keys[i] in v.members
  {
    seq(|keys|, i requires 0 <= i < |keys| => (keys[i], Ordered(v.members[keys[i]])))
  }

  /** The keys of every object ascend. */
  predicate KeysAscend(j: Json) {
    match j
    case Arr(items) => forall i | 0 <= i < |items| :: KeysAscend(items[i])
    case Obj(members) =>
      && (forall i, k | 0 <= i < k < |members| ::
            Le(members[i].0, members[k].0) && members[i].0 != members[k].0)
      && (forall i | 0 <= i < |members| :: KeysAscend(members[i].1))
    case _ => true
  }

  lemma {:induction false} OrderedIsSame(v: Value)
    requires WellFormed(v)
    ensures Serializable(Ordered(v)) && KeysAscend(Ordered(v)) && ToValue(Ordered(v)) == v
    decreases v
  {
    hide IsFloatRepr, Le;
    match v
    case VArr(items) =>
      forall i | 0 <= i < |items|
        ensures Serializable(Ordered(items[i])) && KeysAscend(Ordered(items[i]))
        ensures ToValue(Ordered(items[i])) == items[i] {
        OrderedIsSame(items[i]);
      }
    case VObj(members) =>
      forall key | key in members
        ensures Serializable(Ordered(members[key])) && KeysAscend(Ordered(members[key]))
        ensures ToValue(Ordered(members[key])) == members[key] {
        OrderedIsSame(members[key]);
      }
      OrderedObject(v);
    case _ =>
  }

  lemma OrderedObject(v: Value)
    requires v.VObj?
    requires forall key | key in v.members ::
               && Serializable(Ordered(v.members[key])) && KeysAscend(Ordered(v.members[key]))
               && ToValue(Ordered(v.members[key])) == v.members[key]
    ensures Serializable(Ordered(v)) && KeysAscend(Ordered(v)) && ToValue(Ordered(v)) == v
  {
    hide Le, Sorted, IndexOf, Keys, ToValue;
    OrderedMembersAre(v);
    OrderedKeys(v);
    OrderedMembersFound(v, Ordered(v).members);
  }

  lemma OrderedMembersAre(v: Value)
    requires v.VObj?
    ensures Ordered(v).Obj?
    ensures var members := Ordered(v).members;
            && (forall i | 0 <= i < |members| ::
                  members[i].0 in v.members && members[i].1 == Ordered(v.members[members[i].0]))
            && forall i, k | 0 <= i < k < |members| ::
                 Le(members[i].0, members[k].0) && members[i].0 != members[k].0
  {
    hide Le, Sorted;
    var keys := Sorted(v.members.Keys);
    SortedKeysAscend(v.members.Keys);
    assert forall i | 0 <= i < |keys| :: keys[i] in keys;
  }

  lemma OrderedMembersFound(v: Value, members: seq<(string, Json)>)
    requires v.VObj? && Ordered(v) == Obj(members) && Serializable(Ordered(v)) && Keys(members) == v.members.Keys
    requires forall i | 0 <= i < |members| ::
               members[i].0 in v.members && ToValue(members[i].1) == v.members[members[i].0]
    ensures ToValue(Ordered(v)) == v
  {
    hide Le, Sorted, Ordered, IsFloatRepr, Keys;
    assert ToValue(Obj(members)).members == v.members;
  }

  lemma SortedKeysAscend(keys: set<string>)
    ensures forall i, k | 0 <= i < k < |Sorted(keys)| ::
              Le(Sorted(keys)[i], Sorted(keys)[k]) && Sorted(keys)[i] != Sorted(keys)[k]
  {
    LeIsTotalOrder();
    SortedAscends(Le, keys);
  }

  lemma OrderedKeys(v: Value)
    requires v.VObj?
    ensures Keys(Ordered(v).members) == v.members.Keys
  {
    hide Sorted;
    var keys, members := Sorted(v.members.Keys), Ordered(v).members;
    assert forall i | 0 <= i < |keys| :: members[i].0 == keys[i] && keys[i] in keys;
    forall key | key in v.members ensures key in Keys(members) {
      var i :| 0 <= i < |keys| && keys[i] == key;
      assert members[i].0 == key;
    }
  }

  // ---------- Reading numbers ----------

  /** What may follow a value inside a larger text. */
  predicate Delimited(rest: string) {
    rest == "" || rest[0] == ',' || rest[0] == ']' || rest[0] == '}'
  }

  lemma {:induction false} NumberEnds(s: string, x: string)
    requires (s == "" || NumberText(s)) && Delimited(x)
    ensures NumberRun(s + x) == |s|
  {
    if s == "" {
      assert s + x == x;
    } else {
      assert (s + x)[1..] == s[1..] + x;
      NumberEnds(s[1..], x);
    }
  }

  lemma {:induction false} DigitsEnd(s: string)
    requires s == "" || Digits(s)
    ensures DigitRun(s) == |s|
  {
    if s != "" { DigitsEnd(s[1..]); }
  }

  lemma {:induction false} NatTextReads(n: nat)
    ensures var s := NatText(n);
            Digits(s) && NatOf(s) == n && (s[0] == '0' ==> |s| == 1 && n == 0)
  {
    if n >= 10 {
      NatTextReads(n / 10);
      assert NatText(n)[..|NatText(n)| - 1] == NatText(n / 10);
    } else {
      assert NatText(n)[..0] == "";
    }
  }

  lemma IntTextReads(n: int)
    ensures NumberText(IntText(n)) && ReadNumber(IntText(n)) == Some(Int(n))
  {
    hide NatText, NatOf;
    var size := if n < 0 then -n else n;
    NatTextReads(size);
    DigitsEnd(NatText(size));
    assert Unsigned(IntText(n)) == NatText(size);
    assert NatText(size)[|NatText(size)|..] == "";
  }

  lemma FloatIsNumber(s: string)
    requires IsFloatRepr(s)
    ensures NumberText(s) && ReadNumber(s) == Some(Float(s))
  {
    var u := Unsigned(s);
    var n := DigitRun(u);
    FractionIsNumber(u[n..]);
    assert u == u[..n] + u[n..];
  }

  lemma FractionIsNumber(s: string)
    requires IsFraction(s)
    ensures NumberText(s)
  {
    if IsExponent(s) {
      ExponentIsNumber(s);
    } else {
      var n := DigitRun(s[1..]);
      if n + 1 < |s| { ExponentIsNumber(s[n + 1..]); }
      assert s == [s[0]] + s[1..][..n] + s[n + 1..];
    }
  }

  lemma ExponentIsNumber(s: string)
    requires IsExponent(s)
    ensures NumberText(s)
  {
    if |s| > 1 && (s[1] == '+' || s[1] == '-') {
      assert s == [s[0], s[1]] + s[2..];
    } else {
      assert s == [s[0]] + s[1..];
    }
  }

  lemma NumberReads(token: string, j: Json, x: string)
    requires NumberText(token) && ReadNumber(token) == Some(j) && Delimited(x)
    ensures ReadValue(token + x) == Some((j, x))
  {
    hide ReadNumber;
    NumberEnds(token, x);
    assert (token + x)[0] == token[0] && NumberChar(token[0]);
    assert (token + x)[..|token|] == token && (token + x)[|token|..] == x;
  }

  // ---------- Reading strings ----------

  lemma CharacterReads(c: char, x: string)
    ensures ReadCharacter(EscapeChar(c) + x) == Some((c, x)) && EscapeChar(c)[0] != '\"'
  {
    var e := EscapeChar(c);
    assert (e + x)[|e|..] == x;
  }

  lemma {:induction false} CharactersRead(s: string, x: string)
    ensures ReadCharacters(Escape(s) + "\"" + x) == Some((s, x))
  {
    hide ReadCharacter, EscapeChar;
    if s == "" {
      assert Escape(s) + "\"" + x == "\"" + x && ("\"" + x)[1..] == x;
    } else {
      var rest := Escape(s[1..]) + "\"" + x;
      CharacterReads(s[0], rest);
      CharactersRead(s[1..], x);
      assert Escape(s) + "\"" + x == EscapeChar(s[0]) + rest;
      assert s == [s[0]] + s[1..];
    }
  }

  lemma QuoteReads(s: string, x: string)
    ensures var w := Quote(s) + x; w[0] == '\"' && ReadCharacters(w[1..]) == Some((s, x))
  {
    hide ReadCharacters, Escape;
    CharactersRead(s, x);
    assert (Quote(s) + x)[1..] == Escape(s) + "\"" + x;
  }

  /** No escape that reads as the character is shorter; so a character stands for itself when it may. */
  lemma EscapesAreShortest(c: char, e: string, x: string)
    requires ReadCharacter(e + x) == Some((c, x))
    ensures |EscapeChar(c)| <= |e|
  {
    assert |e + x| == |e| + |x|;
  }

  // ---------- Reading values ----------

  /** What follows an element: a comma and more of them, or the closing bracket. */
  function After(more: bool, text: string, close: char, rest: string): string {
    (if more then "," else "") + text + [close] + rest
  }

  lemma ItemsUnfold(v: Value, items: seq<Value>, x: string)
    requires v.VArr? && items != [] && forall i | 0 <= i < |items| :: items[i] in v.items
    ensures ItemsText(v, items) + "]" + x == Text(items[0]) + After(|items| > 1, ItemsText(v, items[1..]), ']', x)
  {
  }

  lemma MembersUnfold(v: Value, keys: seq<string>, x: string)
    requires v.VObj? && keys != [] && forall i | 0 <= i < |keys| :: keys[i] in v.members
    ensures MembersText(v, keys) + "}" + x
         == Quote(keys[0]) + (":" + (Text(v.members[keys[0]]) + After(|keys| > 1, MembersText(v, keys[1..]), '}', x)))
  {
    hide Quote, Text;
    Regroup(Quote(keys[0]), Text(v.members[keys[0]]), if |keys| > 1 then "," else "", MembersText(v, keys[1..]), x);
  }

  lemma Regroup(key: string, value: string, comma: string, later: string, x: string)
    ensures key + ":" + value + comma + later + "}" + x == key + (":" + (value + (comma + later + ['}'] + x)))
  {
  }

  lemma AfterOne(more: bool, text: string, close: char, x: string)
    requires !more ==> text == ""
    ensures var w := After(more, text, close, x);
            && w != "" && w[0] == (if more then ',' else close)
            && w[1..] == if more then text + [close] + x else x
  {
  }

  lemma WordsRead(x: string)
    ensures ReadValue("null" + x) == Some((Null, x))
    ensures ReadValue("true" + x) == Some((Bool(true), x)) && ReadValue("false" + x) == Some((Bool(false), x))
    ensures ReadValue("[]" + x) == Some((Arr([]), x)) && ReadValue("{}" + x) == Some((Obj([]), x))
  {
    hide ReadItems, ReadMembers, ReadNumber, NumberRun, ReadCharacters;
    WordStarts("null", x);
    WordStarts("true", x);
    WordStarts("false", x);
    WordStarts("[]", x);
    WordStarts("{}", x);
  }

  lemma WordStarts(word: string, x: string)
    requires word != ""
    ensures word <= word + x && (word + x)[|word|..] == x && (word + x)[0] == word[0]
  {
  }

  lemma ValueStarts(w: string)
    requires ReadValue(w).Some?
    ensures w != "" && w[0] != ']'
  {
  }

  lemma ArrayReads(w: string)
    requires ReadItems(w).Some?
    ensures ReadValue("[" + w) == Some((Arr(ReadItems(w).value.0), ReadItems(w).value.1))
  {
    hide ReadItems;
    assert ("[" + w)[1..] == w;
    ItemsStart(w);
  }

  lemma ItemsStart(w: string)
    requires ReadItems(w).Some?
    ensures w != "" && w[0] != ']'
  {
    hide ReadValue;
    ValueStarts(w);
  }

  lemma ObjectReads(w: string)
    requires ReadMembers(w).Some?
    ensures ReadValue("{" + w) == Some((Obj(ReadMembers(w).value.0), ReadMembers(w).value.1))
  {
    hide ReadMembers;
    assert ("{" + w)[1..] == w;
    MembersStart(w);
  }

  lemma MembersStart(w: string)
    requires ReadMembers(w).Some?
    ensures w != "" && w[0] == '\"'
  {
  }

  /** Reading the canonical text of a value, whatever follows it, gives the value with its keys in order. */
  lemma {:induction false} TextReads(v: Value, x: string)
    requires WellFormed(v) && Delimited(x)
    ensures ReadValue(Text(v) + x) == Some((Ordered(v), x))
    decreases v
  {
    hide IsFloatRepr, ReadNumber, ReadItems, ReadMembers, ReadCharacters, Escape, Sorted;
    match v
    case VInt(n) =>
      IntTextReads(n);
      NumberReads(IntText(n), Int(n), x);
    case VFloat(repr) =>
      FloatIsNumber(repr);
      NumberReads(repr, Float(repr), x);
    case VStr(s) => QuoteReads(s, x);
    case VArr(items) => ArrayTextReads(v, x);
    case VObj(members) => ObjectTextReads(v, x);
    case _ => WordsRead(x);
  }

  lemma {:induction false} ArrayTextReads(v: Value, x: string)
    requires WellFormed(v) && v.VArr?
    ensures ReadValue(Text(v) + x) == Some((Ordered(v), x))
    decreases v, |v.items| + 1
  {
    hide ReadValue, ReadItems, WellFormed;
    var inner := ItemsText(v, v.items) + "]" + x;
    assert Text(v) + x == "[" + inner && Ordered(v).items == OrderedItems(v.items);
    if v.items == [] {
      WordsRead(x);
      assert "[" + inner == "[]" + x;
    } else {
      ItemsRead(v, v.items, x);
      ArrayReads(inner);
    }
  }

  lemma {:induction false} ItemsRead(v: Value, items: seq<Value>, x: string)
    requires WellFormed(v) && v.VArr? && items != [] && forall i | 0 <= i < |items| :: items[i] in v.items
    ensures ReadItems(ItemsText(v, items) + "]" + x)
         == Some((OrderedItems(items), x))
    decreases v, |items|
  {
    hide ReadValue, Text, ItemsText, After;
    var later := ItemsText(v, items[1..]);
    var after := After(|items| > 1, later, ']', x);
    ItemsUnfold(v, items, x);
    NoItems(v);
    assert |items| == 1 ==> items[1..] == [];
    AfterOne(|items| > 1, later, ']', x);
    TextReads(items[0], after);
    if |items| > 1 {
      ItemsRead(v, items[1..], x);
      assert after[1..] == later + "]" + x;
      assert OrderedItems(items) == [Ordered(items[0])] + OrderedItems(items[1..]);
    } else {
      assert OrderedItems(items) == [Ordered(items[0])];
    }
  }

  lemma NoItems(v: Value)
    requires v.VArr?
    ensures ItemsText(v, []) == ""
  {
  }

  lemma {:induction false} ObjectTextReads(v: Value, x: string)
    requires WellFormed(v) && v.VObj?
    ensures ReadValue(Text(v) + x) == Some((Ordered(v), x))
    decreases v, |v.members| + 1
  {
    hide ReadValue, ReadMembers, Sorted;
    var keys := Sorted(v.members.Keys);
    var inner := MembersText(v, keys) + "}" + x;
    assert Text(v) + x == "{" + inner && Ordered(v).members == OrderedMembers(v, keys);
    if keys == [] {
      WordsRead(x);
      assert "{" + inner == "{}" + x;
    } else {
      MembersRead(v, keys, x);
      ObjectReads(inner);
    }
  }

  lemma {:induction false} MembersRead(v: Value, keys: seq<string>, x: string)
    requires WellFormed(v) && v.VObj? && keys != [] && forall i | 0 <= i < |keys| :: keys[i] in v.members
    ensures ReadMembers(MembersText(v, keys) + "}" + x)
         == Some((OrderedMembers(v, keys), x))
    decreases v, |keys|
  {
    hide ReadValue, ReadMember, Quote, Text, MembersText, After;
    var later := MembersText(v, keys[1..]);
    var after := After(|keys| > 1, later, '}', x);
    MembersUnfold(v, keys, x);
    NoMembers(v);
    assert |keys| == 1 ==> keys[1..] == [];
    AfterOne(|keys| > 1, later, '}', x);
    TextReads(v.members[keys[0]], after);
    MemberReads(keys[0], v.members[keys[0]], after);
    var first := (keys[0], Ordered(v.members[keys[0]]));
    if |keys| > 1 {
      MembersRead(v, keys[1..], x);
      assert after[1..] == later + "}" + x;
      assert OrderedMembers(v, keys) == [first] + OrderedMembers(v, keys[1..]);
    } else {
      assert OrderedMembers(v, keys) == [first];
    }
  }

  lemma NoMembers(v: Value)
    requires v.VObj?
    ensures MembersText(v, []) == ""
  {
  }

  lemma MemberReads(key: string, v: Value, x: string)
    requires ReadValue(Text(v) + x) == Some((Ordered(v), x))
    ensures ReadMember(Quote(key) + (":" + (Text(v) + x))) == Some(((key, Ordered(v)), x))
  {
    hide ReadValue, Text, Quote, ReadCharacters, Ordered;
    QuoteReads(key, ":" + (Text(v) + x));
    assert (":" + (Text(v) + x))[1..] == Text(v) + x;
  }

  // ---------- What is rejected ----------

  /** What `json.loads` returns: the keys of every object are distinct, and a finite float has its `repr`. It also
      returns NaN and the infinities. */
  predicate Decoded(j: Json) {
    match j
    case Float(repr) => IsFloatRepr(repr)
    case Arr(items) => forall i | 0 <= i < |items| :: Decoded(items[i])
    case Obj(members) =>
      && (forall i, k | 0 <= i < k < |members| :: members[i].0 != members[k].0)
      && (forall i | 0 <= i < |members| :: Decoded(members[i].1))
    case _ => true
  }

  /** The values inside a value, and itself. */
  predicate Occurs(part: Json, j: Json)
    decreases j
  {
    || part == j
    || (j.Arr? && exists i | 0 <= i < |j.items| :: Occurs(part, j.items[i]))
    || (j.Obj? && exists i | 0 <= i < |j.members| :: Occurs(part, j.members[i].1))
  }

  /** Of decoded values, those and only those with a NaN or an infinity somewhere inside are rejected. */
  lemma {:induction false} NonFiniteIsRejected(j: Json)
    requires Decoded(j)
    ensures Serializable(j) <==> !Occurs(NonFinite, j)
  {
    hide IsFloatRepr;
    match j
    case Arr(items) => forall i | 0 <= i < |items| { NonFiniteIsRejected(items[i]); }
    case Obj(members) => forall i | 0 <= i < |members| { NonFiniteIsRejected(members[i].1); }
    case _ =>
  }

  // ---------- The theorem ----------

  /** The canonical text is JSON text for the value, without white space and with the keys of every object in order. */
  lemma DumpsIsJson(j: Json) returns (k: Json)
    requires Serializable(j)
    ensures Parse(Dumps(j)) == Some(k)
    ensures Serializable(k) && ToValue(k) == ToValue(j) && KeysAscend(k)
  {
    hide ReadValue, Ordered;
    k := Ordered(ToValue(j));
    DumpsIsText(j);
    ToValueIsWellFormed(j);
    TextReads(ToValue(j), "");
    assert Text(ToValue(j)) + "" == Text(ToValue(j));
    OrderedIsSame(ToValue(j));
  }

  /** Two texts that agree up to what follows them come from the same value. */
  lemma TextDecodes(a: Value, b: Value, x: string, y: string)
    requires WellFormed(a) && WellFormed(b) && Delimited(x) && Delimited(y)
    requires Text(a) + x == Text(b) + y
    ensures a == b && x == y
  {
    hide ReadValue, Ordered;
    TextReads(a, x);
    TextReads(b, y);
    OrderedIsSame(a);
    OrderedIsSame(b);
  }

  /** Two metadata objects have the same canonical text exactly when they are equal as JSON values. */
  lemma CanonicalTextIdentifiesValue(j: Json, k: Json)
    requires Serializable(j) && Serializable(k)
    ensures Dumps(j) == Dumps(k) <==> ToValue(j) == ToValue(k)
  {
    DumpsIsText(j);
    DumpsIsText(k);
    ToValueIsWellFormed(j);
    ToValueIsWellFormed(k);
    if Dumps(j) == Dumps(k) {
      TextDecodes(ToValue(j), ToValue(k), "", "");
    }
  }

  ghost predicate Injective<H(!new)>(sha: string -> H) {
    forall s: string, t: string :: sha(s) == sha(t) ==> s == t
  }

  /** Under an injective hash, `metadata_hash` neither misses nor invents a change of metadata. */
  lemma MetadataHashIdentifiesValue<H(!new)>(sha: string -> H, m: Object, n: Object)
    requires Injective(sha) && MetadataHash(sha, m).Some? && MetadataHash(sha, n).Some?
    ensures MetadataHash(sha, m) == MetadataHash(sha, n) <==> MetadataValue(m) == MetadataValue(n)
  {
    CanonicalTextIdentifiesValue(Obj(m), Obj(n));
  }

  /** What is hashed is JSON text for the metadata. */
  lemma MetadataHashIsOfJson<H>(sha: string -> H, m: Object) returns (text: string, k: Json)
    requires MetadataHash(sha, m).Some?
    ensures MetadataHash(sha, m) == Some(sha(text)) && Parse(text) == Some(k)
    ensures Serializable(k) && ToValue(k) == MetadataValue(m) && KeysAscend(k)
  {
    hide Parse;
    text := Dumps(Obj(m));
    k := DumpsIsJson(Obj(m));
  }

  /** Permuting the keys of an object changes neither its canonical text nor its hash. */
  lemma KeyOrderIsIrrelevant(m: Object, n: Object)
    requires Serializable(Obj(m)) && Serializable(Obj(n))
    requires multiset(m) == multiset(n)
    ensures Dumps(Obj(m)) == Dumps(Obj(n))
  {
    hide Dumps, ToValue, Serializable, Keys, IndexOf;
    SameMembersSameValue(m, n);
    CanonicalTextIdentifiesValue(Obj(m), Obj(n));
  }

  lemma SameMembersSameValue(m: Object, n: Object)
    requires Serializable(Obj(m)) && Serializable(Obj(n))
    requires multiset(m) == multiset(n)
    ensures ToValue(Obj(m)) == ToValue(Obj(n))
  {
    SubsetOfKeys(m, n);
    SubsetOfKeys(n, m);
    forall key | key in Keys(m)
      ensures m[IndexOf(m, key)] == n[IndexOf(n, key)]
    {
      SameMember(m, n, key);
    }
  }

  lemma SameMember(m: Object, n: Object, key: string)
    requires Serializable(Obj(n)) && multiset(m) == multiset(n) && key in Keys(m) && key in Keys(n)
    ensures m[IndexOf(m, key)] == n[IndexOf(n, key)]
  {
    var member := m[IndexOf(m, key)];
    assert member in multiset(m);
    assert member in multiset(n);
    var i :| 0 <= i < |n| && n[i] == member;
    var j := IndexOf(n, key);
    assert i == j;
  }

  lemma SubsetOfKeys(m: Object, n: Object)
    requires multiset(m) == multiset(n)
    ensures Keys(m) <= Keys(n)
  {
    forall i | 0 <= i < |m| ensures m[i].0 in Keys(n) {
      assert m[i] in multiset(m);
      assert m[i] in multiset(n);
      var k :| 0 <= k < |n| && n[k] == m[i];
    }
  }
}
