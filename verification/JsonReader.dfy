/** Reading JSON text: RFC 8259 without white space. Of the number texts it takes those with a lower-case exponent, and
    of the escapes in strings those of single characters, no surrogate pairs. */
module JsonReader {
  import opened Strings
  import opened CanonicalJson

  predicate IsHex(c: char) {
    '0' <= c <= '9' || 'a' <= c <= 'f' || 'A' <= c <= 'F'
  }

  function HexValue(c: char): (n: nat)
    requires IsHex(c)
    ensures n < 16
  {
    if c <= '9' then c as int - '0' as int
    else if 'a' <= c then c as int - 'a' as int + 10
    else c as int - 'A' as int + 10
  }

  /** The character that a backslash and this one stand for. */
  function Unescaped(c: char): Option<char> {
    match c
    case '\"' => Some('\"')
    case '\\' => Some('\\')
    case '/' => Some('/')
    case 'b' => Some(8 as char)
    case 'f' => Some(12 as char)
    case 'n' => Some(10 as char)
    case 'r' => Some(13 as char)
    case 't' => Some(9 as char)
    case _ => None
  }

  /** The character with the given four hexadecimal digits. */
  function Coded(digits: string): Option<char>
    requires |digits| == 4
  {
    if !(forall i | 0 <= i < 4 :: IsHex(digits[i])) then None
    else
      var high, low := HexValue(digits[0]) * 16 + HexValue(digits[1]), HexValue(digits[2]) * 16 + HexValue(digits[3]);
      var code := high * 256 + low;
      if 0xD800 <= code < 0xE000 then None else Some(code as char)
  }

  /** One character of a string, plain or escaped: section 7. */
  function ReadCharacter(w: string): (r: Option<(char, string)>)
    ensures r.Some? ==> |r.value.1| < |w|
  {
    if w == "" || w[0] as int < 32 || w[0] == '\"' then None
    else if w[0] != '\\' then Some((w[0], w[1..]))
    else if |w| < 2 then None
    else if w[1] != 'u' then
      var c := Unescaped(w[1]);
      if c.None? then None else Some((c.value, w[2..]))
    else
      var c := if |w| < 6 then None else Coded(w[2..6]);
      if c.None? then None else Some((c.value, w[6..]))
  }

  /** The characters up to the closing quote. */
  function ReadCharacters(w: string): (r: Option<(string, string)>)
    ensures r.Some? ==> |r.value.1| < |w|
    decreases |w|
  {
    if w != "" && w[0] == '\"' then Some(("", w[1..]))
    else
      var c := ReadCharacter(w);
      var more := if c.None? then None else ReadCharacters(c.value.1);
      if more.None? then None else Some(([c.value.0] + more.value.0, more.value.1))
  }

  /** The length of the longest run of number characters at the front. */
  function NumberRun(w: string): (n: nat)
    ensures n <= |w|
  {
    if w != "" && NumberChar(w[0]) then 1 + NumberRun(w[1..]) else 0
  }

  function DigitValue(c: char): nat
    requires Digit(c)
  {
    c as int - '0' as int
  }

  function NatOf(digits: string): nat
    requires forall i | 0 <= i < |digits| :: Digit(digits[i])
  {
    if digits == "" then 0 else NatOf(digits[..|digits| - 1]) * 10 + DigitValue(digits[|digits| - 1])
  }

  /** A number without fraction and exponent: section 6. */
  predicate IsIntText(s: string) {
    var digits := Unsigned(s);
    Digits(digits) && (digits[0] == '0' ==> |digits| == 1)
  }

  function ReadNumber(token: string): Option<Json> {
    if IsFloatRepr(token) then Some(Float(token))
    else if IsIntText(token) then
      var n: int := NatOf(Unsigned(token));
      Some(Int(if token[0] == '-' then -n else n))
    else None
  }

  /** A value at the front, and what follows it. */
  function ReadValue(w: string): (r: Option<(Json, string)>)
    ensures r.Some? ==> |r.value.1| < |w|
    decreases |w|, 0
  {
    if "null" <= w then Some((Null, w[4..]))
    else if "true" <= w then Some((Bool(true), w[4..]))
    else if "false" <= w then Some((Bool(false), w[5..]))
    else if "[]" <= w then Some((Arr([]), w[2..]))
    else if "{}" <= w then Some((Obj([]), w[2..]))
    else if w == "" then None
    else if w[0] == '\"' then
      var s := ReadCharacters(w[1..]);
      if s.None? then None else Some((Str(s.value.0), s.value.1))
    else if w[0] == '[' then
      var items := ReadItems(w[1..]);
      if items.None? then None else Some((Arr(items.value.0), items.value.1))
    else if w[0] == '{' then
      var members := ReadMembers(w[1..]);
      if members.None? then None else Some((Obj(members.value.0), members.value.1))
    else
      var n := NumberRun(w);
      var number := if n == 0 then None else ReadNumber(w[..n]);
      if number.None? then None else Some((number.value, w[n..]))
  }

  /** One or more values, separated by commas, up to the closing bracket. */
  function ReadItems(w: string): (r: Option<(seq<Json>, string)>)
    ensures r.Some? ==> |r.value.1| < |w|
    decreases |w|, 1
  {
    var first := ReadValue(w);
    if first.None? || first.value.1 == "" then None
    else
      var (item, rest) := first.value;
      if rest[0] == ']' then Some(([item], rest[1..]))
      else
        var more := if rest[0] == ',' then ReadItems(rest[1..]) else None;
        if more.None? then None else Some(([item] + more.value.0, more.value.1))
  }

  /** A key and a value. */
  function ReadMember(w: string): (r: Option<((string, Json), string)>)
    ensures r.Some? ==> |r.value.1| < |w|
    decreases |w|, 1
  {
    var key := if w != "" && w[0] == '\"' then ReadCharacters(w[1..]) else None;
    if key.None? || key.value.1 == "" || key.value.1[0] != ':' then None
    else
      var item := ReadValue(key.value.1[1..]);
      if item.None? then None else Some(((key.value.0, item.value.0), item.value.1))
  }

  /** One or more members, separated by commas, up to the closing brace. */
  function ReadMembers(w: string): (r: Option<(seq<(string, Json)>, string)>)
    ensures r.Some? ==> |r.value.1| < |w|
    decreases |w|, 2
  {
    var first := ReadMember(w);
    if first.None? || first.value.1 == "" then None
    else
      var (member, rest) := first.value;
      if rest[0] == '}' then Some(([member], rest[1..]))
      else
        var more := if rest[0] == ',' then ReadMembers(rest[1..]) else None;
        if more.None? then None else Some(([member] + more.value.0, more.value.1))
  }

  /** The value that is the whole text. */
  function Parse(w: string): Option<Json> {
    var r := ReadValue(w);
    if r.None? || r.value.1 != "" then None else Some(r.value.0)
  }
}
