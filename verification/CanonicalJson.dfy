/** Document metadata: JSON values, the canonical text that `metadata_hash` feeds to SHA-256, and the
    proof that this text identifies a value up to the order of object keys. */
module CanonicalJson {
  import opened Strings

  /** A decoded JSON value. Objects are Python dicts: they remember the order of insertion. A finite
      float is given by its `repr`, which identifies it. */
  datatype Json =
    | Null
    | Bool(b: bool)
    | Int(n: int)
    | Float(repr: string)
    | NonFinite
    | Str(s: string)
    | Arr(items: seq<Json>)
    | Obj(members: seq<(string, Json)>)

  /** The same value with the order of keys forgotten; this is what a JSONB column holds. */
  datatype Value =
    | VNull
    | VBool(b: bool)
    | VInt(n: int)
    | VFloat(repr: string)
    | VStr(s: string)
    | VArr(items: seq<Value>)
    | VObj(members: map<string, Value>)

  predicate NumberChar(c: char) {
    '0' <= c <= '9' || c == '+' || c == '-' || c == '.' || c == 'e'
  }

  predicate NumberText(s: string) {
    s != "" && forall i | 0 <= i < |s| :: NumberChar(s[i])
  }

  predicate Digit(c: char) {
    '0' <= c <= '9'
  }

  predicate Digits(s: string) {
    s != "" && forall i | 0 <= i < |s| :: Digit(s[i])
  }

  function DigitRun(s: string): (n: nat)
    ensures n <= |s| && forall i | 0 <= i < n :: Digit(s[i])
  {
    if s != "" && Digit(s[0]) then 1 + DigitRun(s[1..]) else 0
  }

  function Unsigned(s: string): string {
    if s != "" && s[0] == '-' then s[1..] else s
  }

  predicate IsExponent(s: string) {
    s != "" && s[0] == 'e' && Digits(if |s| > 1 && (s[1] == '+' || s[1] == '-') then s[2..] else s[1..])
  }

  /** A fraction, an exponent, or both. */
  predicate IsFraction(s: string) {
    || IsExponent(s)
    || (s != "" && s[0] == '.' && var n := DigitRun(s[1..]); n > 0 && (n + 1 == |s| || IsExponent(s[n + 1..])))
  }

  /** The `repr` of a finite float is a JSON number with a fraction or an exponent: RFC 8259, section 6. */
  predicate IsFloatRepr(s: string) {
    var n := DigitRun(Unsigned(s));
    n > 0 && (Unsigned(s)[0] == '0' ==> n == 1) && IsFraction(Unsigned(s)[n..])
  }

  function Keys(members: seq<(string, Json)>): set<string> {
    set i | 0 <= i < |members| :: members[i].0
  }

  /** The position of the member with the given key. */
  function IndexOf(members: seq<(string, Json)>, key: string): (i: nat)
    requires key in Keys(members)
    ensures i < |members| && members[i].0 == key
  {
    if members[0].0 == key then 0 else IndexOf(members[1..], key) + 1
  }

  /** What `json.loads` can return and `json.dumps(..., allow_nan=False)` accepts: distinct keys in every
      object and no NaN or infinity. */
  predicate Serializable(j: Json) {
    match j
    case Float(repr) => IsFloatRepr(repr)
    case NonFinite => false
    case Arr(items) => forall i | 0 <= i < |items| :: Serializable(items[i])
    case Obj(members) =>
      && (forall i, k | 0 <= i < k < |members| :: members[i].0 != members[k].0)
      && (forall i | 0 <= i < |members| :: Serializable(members[i].1))
    case _ => true
  }

  function ToValue(j: Json): Value
    requires Serializable(j)
  {
    match j
    case Null => VNull
    case Bool(b) => VBool(b)
    case Int(n) => VInt(n)
    case Float(repr) => VFloat(repr)
    case Str(s) => VStr(s)
    case Arr(items) => VArr(seq(|items|, i requires 0 <= i < |items| => ToValue(items[i])))
    case Obj(members) => VObj(map key | key in Keys(members) :: ToValue(members[IndexOf(members, key)].1))
  }

  // ---------- Canonical text ----------

  function HexDigit(n: nat): char
    requires n < 16
  {
    if n < 10 then ('0' as int + n) as char else ('a' as int + n - 10) as char
  }

  /** String escapes with `ensure_ascii=False`: RFC 8259, section 7. */
  function EscapeChar(c: char): string {
    if c == '\"' then "\\\""
    else if c == '\\' then "\\\\"
    else if c == '\n' then "\\n"
    else if c == '\r' then "\\r"
    else if c == '\t' then "\\t"
    else if c as int == 12 then "\\f"
    else if c as int == 8 then "\\b"
    else if c as int < 32 then "\\u00" + [HexDigit(c as int / 16), HexDigit(c as int % 16)]
    else [c]
  }

  function Escape(s: string): string {
    if s == "" then "" else EscapeChar(s[0]) + Escape(s[1..])
  }

  function Quote(s: string): string {
    "\"" + Escape(s) + "\""
  }

  function NatText(n: nat): string {
    if n < 10 then [HexDigit(n)] else NatText(n / 10) + [HexDigit(n % 10)]
  }

  function IntText(n: int): string {
    if n < 0 then "-" + NatText(-n) else NatText(n)
  }

  /** `json.dumps(j, sort_keys=True, separators=(",", ":"), ensure_ascii=False, allow_nan=False)` */
  function Dumps(j: Json): string
    requires Serializable(j)
    decreases j
  {
    match j
    case Null => "null"
    case Bool(b) => if b then "true" else "false"
    case Int(n) => IntText(n)
    case Float(repr) => repr
    case Str(s) => Quote(s)
    case Arr(items) => "[" + DumpsItems(j, items) + "]"
    case Obj(members) => "{" + DumpsMembers(j, Sorted(Keys(members))) + "}"
  }

  function DumpsItems(j: Json, items: seq<Json>): string
    requires j.Arr? && forall i | 0 <= i < |items| :: items[i] in j.items && Serializable(items[i])
    decreases j, |items|
  {
    if items == [] then ""
    else Dumps(items[0]) + (if |items| > 1 then "," else "") + DumpsItems(j, items[1..])
  }

  function DumpsMembers(j: Json, keys: seq<string>): string
    requires j.Obj? && Serializable(j) && forall i | 0 <= i < |keys| :: keys[i] in Keys(j.members)
    decreases j, |keys|
  {
    if keys == [] then ""
    else
      Quote(keys[0]) + ":" + Dumps(j.members[IndexOf(j.members, keys[0])].1)
      + (if |keys| > 1 then "," else "") + DumpsMembers(j, keys[1..])
  }

  /** The canonical text of a value; Dumps factors through it. */
  function Text(v: Value): string
    decreases v
  {
    match v
    case VNull => "null"
    case VBool(b) => if b then "true" else "false"
    case VInt(n) => IntText(n)
    case VFloat(repr) => repr
    case VStr(s) => Quote(s)
    case VArr(items) => "[" + ItemsText(v, items) + "]"
    case VObj(members) => "{" + MembersText(v, Sorted(members.Keys)) + "}"
  }

  function ItemsText(v: Value, items: seq<Value>): string
    requires v.VArr? && forall i | 0 <= i < |items| :: items[i] in v.items
    decreases v, |items|
  {
    if items == [] then ""
    else Text(items[0]) + (if |items| > 1 then "," else "") + ItemsText(v, items[1..])
  }

  function MembersText(v: Value, keys: seq<string>): string
    requires v.VObj? && forall i | 0 <= i < |keys| :: keys[i] in v.members
    decreases v, |keys|
  {
    if keys == [] then ""
    else
      Quote(keys[0]) + ":" + Text(v.members[keys[0]])
      + (if |keys| > 1 then "," else "") + MembersText(v, keys[1..])
  }

  /** Top-level metadata is always an object. */
  type Object = seq<(string, Json)>

  /** `metadata_hash`; None is its MetadataManifestError. */
  function MetadataHash<H>(sha: string -> H, metadata: Object): Option<H> {
    if Serializable(Obj(metadata)) then Some(sha(Dumps(Obj(metadata)))) else None
  }

  function MetadataValue(metadata: Object): Value
    requires Serializable(Obj(metadata))
  {
    ToValue(Obj(metadata))
  }
}
