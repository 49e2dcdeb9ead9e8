/**
 JSON values as the platform hashes them, with objects as lists of members in enumeration order and numbers as
 their shortest decimal tokens, and the text `JSON.stringify` gives them.
 */
module Json {
  import opened CodeUnits

  datatype Value =
    | Undefined
    | Null
    | Bool(b: bool)
    | Number(token: Str)
    | Text(s: Str)
    | Array(items: seq<Value>)
    | Object(members: seq<Member>)

  datatype Member = Member(key: Str, value: Value)

  const QUOTE: CodeUnit := 34
  const BACKSLASH: CodeUnit := 92
  const COMMA: CodeUnit := 44
  const COLON: CodeUnit := 58
  const OPEN_ARRAY: CodeUnit := 91
  const CLOSE_ARRAY: CodeUnit := 93
  const OPEN_OBJECT: CodeUnit := 123
  const CLOSE_OBJECT: CodeUnit := 125
  const LOWER_U: CodeUnit := 117

  // ----- Well-formed values -----

  predicate IsDigit(u: CodeUnit) {
    48 <= u <= 57
  }

  /** Digits, `+`, `-`, `.`, `e` and `E`: every unit a decimal token can hold. */
  predicate IsNumberUnit(u: CodeUnit) {
    IsDigit(u) || u == 43 || u == 45 || u == 46 || u == 101 || u == 69
  }

  predicate IsNumberToken(t: Str) {
    t != [] && (IsDigit(t[0]) || t[0] == 45) && forall i :: 0 <= i < |t| ==> IsNumberUnit(t[i])
  }

  predicate UniqueKeys(ms: seq<Member>) {
    forall i, j :: 0 <= i < j < |ms| ==> ms[i].key != ms[j].key
  }

  /** Every number is a token. */
  predicate Printable(v: Value)
    decreases v
  {
    match v
    case Number(t) => IsNumberToken(t)
    case Array(items) => forall i :: 0 <= i < |items| ==> Printable(items[i])
    case Object(ms) => forall i :: 0 <= i < |ms| ==> Printable(ms[i].value)
    case _ => true
  }

  /** No object lists a key twice. */
  predicate Keyed(v: Value)
    decreases v
  {
    match v
    case Array(items) => forall i :: 0 <= i < |items| ==> Keyed(items[i])
    case Object(ms) => UniqueKeys(ms) && forall i :: 0 <= i < |ms| ==> Keyed(ms[i].value)
    case _ => true
  }

  /** What a JavaScript value built from JSON types always satisfies. */
  predicate WellFormed(v: Value) {
    Printable(v) && Keyed(v)
  }

  // ----- JSON.stringify -----

  predicate IsHighSurrogate(u: CodeUnit) {
    0xD800 <= u < 0xDC00
  }

  predicate IsLowSurrogate(u: CodeUnit) {
    0xDC00 <= u < 0xE000
  }

  function HexDigit(n: int): (u: CodeUnit)
    requires 0 <= n < 16
  {
    if n < 10 then 48 + n else 87 + n
  }

  /** The six units of a `\uXXXX` escape, in lower case. */
  function UnicodeEscape(u: CodeUnit): (r: Str) {
    [BACKSLASH, LOWER_U, HexDigit(u / 4096), HexDigit(u / 256 % 16), HexDigit(u / 16 % 16), HexDigit(u % 16)]
  }

  /** One unit outside a surrogate pair, escaped where section 7 of RFC 8259 asks for it. */
  function EscapeUnit(u: CodeUnit): (r: Str)
    ensures r != []
  {
    if u == QUOTE || u == BACKSLASH then [BACKSLASH, u]
    else if u == 8 then [BACKSLASH, 98]
    else if u == 9 then [BACKSLASH, 116]
    else if u == 10 then [BACKSLASH, 110]
    else if u == 12 then [BACKSLASH, 102]
    else if u == 13 then [BACKSLASH, 114]
    else if u < 32 || IsHighSurrogate(u) || IsLowSurrogate(u) then UnicodeEscape(u)
    else [u]
  }

  /** A string body: surrogate pairs go out verbatim, lone surrogates as escapes. */
  function Escape(s: Str): (r: Str) {
    if s == [] then []
    else if |s| > 1 && IsHighSurrogate(s[0]) && IsLowSurrogate(s[1]) then s[..2] + Escape(s[2..])
    else EscapeUnit(s[0]) + Escape(s[1..])
  }

  function Quote(s: Str): (r: Str) {
    [QUOTE] + Escape(s) + [QUOTE]
  }

  /** `JSON.stringify` of a nested value; `undefined` prints as null inside an array. */
  function Print(v: Value): (r: Str)
    decreases v
  {
    match v
    case Undefined => Lit("null")
    case Null => Lit("null")
    case Bool(b) => if b then Lit("true") else Lit("false")
    case Number(t) => t
    case Text(s) => Quote(s)
    case Array(items) => [OPEN_ARRAY] + PrintItems(items) + [CLOSE_ARRAY]
    case Object(ms) => [OPEN_OBJECT] + PrintMembers(ms) + [CLOSE_OBJECT]
  }

  function PrintItems(items: seq<Value>): (r: Str)
    decreases items
  {
    if items == [] then []
    else Print(items[0]) + (if |items| == 1 then [] else [COMMA] + PrintItems(items[1..]))
  }

  /** Undefined members are skipped. */
  function PrintMembers(ms: seq<Member>): (r: Str)
    decreases ms
  {
    if ms == [] then []
    else if ms[0].value.Undefined? then PrintMembers(ms[1..])
    else
      var rest := PrintMembers(ms[1..]);
      Quote(ms[0].key) + [COLON] + Print(ms[0].value) + (if rest == [] then [] else [COMMA] + rest)
  }

  // ----- What the text says -----

  /** The value a reader gets back: no undefined members, null for undefined items. */
  function Plain(v: Value): (r: Value)
    decreases v
  {
    match v
    case Undefined => Null
    case Array(items) => Array(PlainItems(items))
    case Object(ms) => Object(PlainMembers(ms))
    case _ => v
  }

  function PlainItems(items: seq<Value>): (r: seq<Value>)
    ensures |r| == |items|
    ensures forall i :: 0 <= i < |r| ==> r[i] == Plain(items[i])
    decreases items
  {
    if items == [] then [] else [Plain(items[0])] + PlainItems(items[1..])
  }

  function PlainMembers(ms: seq<Member>): (r: seq<Member>)
    decreases ms
  {
    if ms == [] then []
    else if ms[0].value.Undefined? then PlainMembers(ms[1..])
    else [Member(ms[0].key, Plain(ms[0].value))] + PlainMembers(ms[1..])
  }
}
