/**
 A reader for JSON text, and the proof that it inverts `Json.Print`: the text of a value followed
 by anything that cannot extend a number reads back as exactly that value and that remainder.
 */
module JsonParser {
  import opened CodeUnits
  import opened Prelude
  import opened Json

  type Read<T> = Option<(T, Str)>

  // ----- The reader -----

  function HexValue(u: CodeUnit): (n: Option<int>)
    ensures n.Some? ==> 0 <= n.value < 16
  {
    if 48 <= u <= 57 then Some(u - 48) else if 97 <= u <= 102 then Some(u - 87) else None
  }

  function ReadHex4(s: Str): (r: Read<CodeUnit>)
    ensures r.Some? ==> |s| >= 4 && r.value.1 == s[4..]
  {
    if |s| < 4 then None
    else match (HexValue(s[0]), HexValue(s[1]), HexValue(s[2]), HexValue(s[3]))
      case (Some(a), Some(b), Some(c), Some(d)) => Some((4096 * a + 256 * b + 16 * c + d, s[4..]))
      case _ => None
  }

  function ShortEscape(u: CodeUnit): Option<CodeUnit> {
    if u == QUOTE || u == BACKSLASH then Some(u)
    else if u == 98 then Some(8)
    else if u == 116 then Some(9)
    else if u == 110 then Some(10)
    else if u == 102 then Some(12)
    else if u == 114 then Some(13)
    else None
  }

  /** One unit of a string body. */
  function ReadUnit(s: Str): (r: Read<CodeUnit>)
    ensures r.Some? ==> |r.value.1| < |s|
  {
    if s == [] || s[0] == QUOTE then None
    else if s[0] != BACKSLASH then Some((s[0], s[1..]))
    else if |s| < 2 then None
    else if s[1] == LOWER_U then ReadHex4(s[2..])
    else match ShortEscape(s[1])
      case Some(u) => Some((u, s[2..]))
      case None => None
  }

  /** A string body up to and including its closing quote. */
  function ReadString(s: Str): (r: Read<Str>)
    ensures r.Some? ==> |r.value.1| < |s|
    decreases |s|
  {
    if s == [] then None
    else if s[0] == QUOTE then Some(([], s[1..]))
    else match ReadUnit(s)
      case None => None
      case Some((u, rest)) =>
        match ReadString(rest)
        case None => None
        case Some((tail, after)) => Some(([u] + tail, after))
  }

  /** The length of the longest prefix of number units. */
  function NumberSpan(s: Str): (n: nat)
    ensures n <= |s|
  {
    if s == [] || !IsNumberUnit(s[0]) then 0 else 1 + NumberSpan(s[1..])
  }

  function ReadLiteral(s: Str, word: Str, v: Value): (r: Read<Value>)
    requires word != []
    ensures r.Some? ==> |r.value.1| < |s|
  {
    if word <= s then Some((v, s[|word|..])) else None
  }

  function ReadValue(s: Str): (r: Read<Value>)
    ensures r.Some? ==> |r.value.1| < |s|
    decreases |s|, 1
  {
    if s == [] then None
    else if s[0] == 110 then ReadLiteral(s, Lit("null"), Null)
    else if s[0] == 116 then ReadLiteral(s, Lit("true"), Bool(true))
    else if s[0] == 102 then ReadLiteral(s, Lit("false"), Bool(false))
    else if s[0] == QUOTE then
      match ReadString(s[1..])
      case None => None
      case Some((text, rest)) => Some((Text(text), rest))
    else if s[0] == OPEN_ARRAY then
      if |s| > 1 && s[1] == CLOSE_ARRAY then Some((Array([]), s[2..]))
      else match ReadItems(s[1..])
        case None => None
        case Some((items, rest)) => Some((Array(items), rest))
    else if s[0] == OPEN_OBJECT then
      if |s| > 1 && s[1] == CLOSE_OBJECT then Some((Object([]), s[2..]))
      else match ReadMembers(s[1..])
        case None => None
        case Some((ms, rest)) => Some((Object(ms), rest))
    else if IsDigit(s[0]) || s[0] == 45 then
      Some((Number(s[..NumberSpan(s)]), s[NumberSpan(s)..]))
    else None
  }

  function ReadItems(s: Str): (r: Read<seq<Value>>)
    ensures r.Some? ==> |r.value.1| < |s|
    decreases |s|, 2
  {
    match ReadValue(s)
    case None => None
    case Some((v, rest)) =>
      if rest == [] then None
      else if rest[0] == CLOSE_ARRAY then Some(([v], rest[1..]))
      else if rest[0] == COMMA then
        match ReadItems(rest[1..])
        case None => None
        case Some((items, after)) => Some(([v] + items, after))
      else None
  }

  function ReadMembers(s: Str): (r: Read<seq<Member>>)
    ensures r.Some? ==> |r.value.1| < |s|
    decreases |s|, 2
  {
    match ReadMember(s)
    case None => None
    case Some((m, rest)) =>
      if rest == [] then None
      else if rest[0] == CLOSE_OBJECT then Some(([m], rest[1..]))
      else if rest[0] == COMMA then
        match ReadMembers(rest[1..])
        case None => None
        case Some((ms, after)) => Some(([m] + ms, after))
      else None
  }

  function ReadMember(s: Str): (r: Read<Member>)
    ensures r.Some? ==> |r.value.1| < |s|
    decreases |s|, 1
  {
    if s == [] || s[0] != QUOTE then None
    else match ReadString(s[1..])
      case None => None
      case Some((key, rest)) =>
        if rest == [] || rest[0] != COLON then None
        else match ReadValue(rest[1..])
          case None => None
          case Some((v, after)) => Some((Member(key, v), after))
  }

  /** A whole document: one value and nothing after it. */
  function Parse(s: Str): Option<Value> {
    match ReadValue(s)
    case Some((v, rest)) => if rest == [] then Some(v) else None
    case None => None
  }

  // ----- Strings -----

  lemma HexInverse(n: int)
    requires 0 <= n < 16
    ensures HexValue(HexDigit(n)) == Some(n)
  {
  }

  lemma HexSum(u: CodeUnit)
    ensures 0 <= u / 4096 < 16
    ensures 4096 * (u / 4096) + 256 * (u / 256 % 16) + 16 * (u / 16 % 16) + u % 16 == u
  {
  }

  lemma ReadHex4Inverse(a: int, b: int, c: int, d: int, rest: Str)
    requires 0 <= a < 16 && 0 <= b < 16 && 0 <= c < 16 && 0 <= d < 16
    requires 4096 * a + 256 * b + 16 * c + d < 0x1_0000
    ensures ReadHex4([HexDigit(a), HexDigit(b), HexDigit(c), HexDigit(d)] + rest)
            == Some((4096 * a + 256 * b + 16 * c + d, rest))
  {
    var text := [HexDigit(a), HexDigit(b), HexDigit(c), HexDigit(d)] + rest;
    HexInverse(a);
    HexInverse(b);
    HexInverse(c);
    HexInverse(d);
    assert text[4..] == rest;
  }

  lemma UnicodeEscapeInverse(u: CodeUnit, rest: Str)
    ensures ReadUnit(UnicodeEscape(u) + rest) == Some((u, rest))
  {
    var a, b, c, d := u / 4096, u / 256 % 16, u / 16 % 16, u % 16;
    HexSum(u);
    ReadHex4Inverse(a, b, c, d, rest);
    assert (UnicodeEscape(u) + rest)[2..] == [HexDigit(a), HexDigit(b), HexDigit(c), HexDigit(d)] + rest;
  }

  lemma EscapeUnitInverse(u: CodeUnit, rest: Str)
    ensures ReadUnit(EscapeUnit(u) + rest) == Some((u, rest))
    ensures (EscapeUnit(u) + rest)[0] != QUOTE
  {
    var text := EscapeUnit(u) + rest;
    if EscapeUnit(u) == UnicodeEscape(u) && |EscapeUnit(u)| == 6 {
      UnicodeEscapeInverse(u, rest);
    } else if |EscapeUnit(u)| == 2 {
      assert text[2..] == rest;
    } else {
      assert text[1..] == rest;
    }
  }

  lemma PairInverse(high: CodeUnit, low: CodeUnit, tail: Str, s: Str, rest: Str)
    requires IsHighSurrogate(high) && IsLowSurrogate(low) && ReadString(tail) == Some((s, rest))
    ensures ReadString([high] + ([low] + tail)) == Some(([high] + ([low] + s), rest))
  {
    assert ([high] + ([low] + tail))[1..] == [low] + tail;
    assert ([low] + tail)[1..] == tail;
    assert ReadString([low] + tail) == Some(([low] + s, rest));
  }

  lemma UnitStep(u: CodeUnit, escaped: Str, s: Str, rest: Str)
    requires ReadString(escaped + [QUOTE] + rest) == Some((s, rest))
    ensures ReadString(EscapeUnit(u) + escaped + [QUOTE] + rest) == Some(([u] + s, rest))
  {
    var tail := escaped + [QUOTE] + rest;
    assert EscapeUnit(u) + escaped + [QUOTE] + rest == EscapeUnit(u) + tail;
    EscapeUnitInverse(u, tail);
  }

  lemma PairStep(pair: Str, escaped: Str, s: Str, rest: Str)
    requires |pair| == 2 && IsHighSurrogate(pair[0]) && IsLowSurrogate(pair[1])
    requires ReadString(escaped + [QUOTE] + rest) == Some((s, rest))
    ensures ReadString(pair + escaped + [QUOTE] + rest) == Some((pair + s, rest))
  {
    var tail := escaped + [QUOTE] + rest;
    assert pair + escaped + [QUOTE] + rest == [pair[0]] + ([pair[1]] + tail);
    PairInverse(pair[0], pair[1], tail, s, rest);
    assert pair + s == [pair[0]] + ([pair[1]] + s);
  }

  lemma {:induction false} StringInverse(s: Str, rest: Str)
    ensures ReadString(Escape(s) + [QUOTE] + rest) == Some((s, rest))
    decreases |s|
  {
    if s == [] {
      assert (Escape(s) + [QUOTE] + rest)[1..] == rest;
    } else if |s| > 1 && IsHighSurrogate(s[0]) && IsLowSurrogate(s[1]) {
      StringInverse(s[2..], rest);
      PairStep(s[..2], Escape(s[2..]), s[2..], rest);
      assert s[..2] + s[2..] == s;
    } else {
      StringInverse(s[1..], rest);
      UnitStep(s[0], Escape(s[1..]), s[1..], rest);
      assert [s[0]] + s[1..] == s;
    }
  }

  // ----- Numbers -----

  /** What may follow a printed value without being read as part of a number. */
  predicate Delimited(rest: Str) {
    rest == [] || !IsNumberUnit(rest[0])
  }

  lemma {:induction false} NumberSpanExact(t: Str, rest: Str)
    requires forall i :: 0 <= i < |t| ==> IsNumberUnit(t[i])
    requires Delimited(rest)
    ensures NumberSpan(t + rest) == |t|
  {
    if t == [] {
      assert t + rest == rest;
    } else {
      assert (t + rest)[1..] == t[1..] + rest;
      NumberSpanExact(t[1..], rest);
    }
  }

  // ----- Values -----

  predicate AllPrintable(items: seq<Value>) {
    forall i :: 0 <= i < |items| ==> Printable(items[i])
  }

  predicate MembersPrintable(ms: seq<Member>) {
    forall i :: 0 <= i < |ms| ==> Printable(ms[i].value)
  }

  /** The first unit of a printed value: never a comma, a closing bracket or a colon. */
  lemma PrintStart(v: Value)
    requires Printable(v)
    ensures Print(v) != []
    ensures Print(v)[0] !in {COMMA, COLON, CLOSE_ARRAY, CLOSE_OBJECT}
  {
  }

  lemma ReadPrintNumber(t: Str, rest: Str)
    requires IsNumberToken(t) && Delimited(rest)
    ensures ReadValue(t + rest) == Some((Number(t), rest))
  {
    var text := t + rest;
    assert text[0] == t[0];
    NumberSpanExact(t, rest);
    assert text[..|t|] == t && text[|t|..] == rest;
  }

  lemma ReadPrintText(s: Str, rest: Str)
    ensures ReadValue(Quote(s) + rest) == Some((Text(s), rest))
  {
    assert (Quote(s) + rest)[1..] == Escape(s) + [QUOTE] + rest;
    StringInverse(s, rest);
  }

  lemma ReadPrintNull(rest: Str)
    ensures ReadValue(Lit("null") + rest) == Some((Null, rest))
  {
    var text := Lit("null") + rest;
    assert text[0] == 110 && Lit("null") <= text && text[4..] == rest;
  }

  lemma ReadPrintBool(b: bool, rest: Str)
    ensures ReadValue(Print(Bool(b)) + rest) == Some((Bool(b), rest))
  {
    var text := Print(Bool(b)) + rest;
    if b {
      assert text[0] == 116 && Lit("true") <= text && text[4..] == rest;
    } else {
      assert text[0] == 102 && Lit("false") <= text && text[5..] == rest;
    }
  }

  lemma {:induction false} ReadPrint(v: Value, rest: Str)
    requires Printable(v) && Delimited(rest)
    ensures ReadValue(Print(v) + rest) == Some((Plain(v), rest))
    decreases v, 1
  {
    match v
    case Array(items) => ReadPrintArray(items, rest);
    case Object(ms) => ReadPrintObject(ms, rest);
    case Number(t) => ReadPrintNumber(t, rest);
    case Text(s) => ReadPrintText(s, rest);
    case Bool(b) => ReadPrintBool(b, rest);
    case _ => ReadPrintNull(rest);
  }

  lemma ReadPrintArray(items: seq<Value>, rest: Str)
    requires AllPrintable(items)
    ensures ReadValue(Print(Array(items)) + rest) == Some((Array(PlainItems(items)), rest))
    decreases items, 1
  {
    var text := [OPEN_ARRAY] + PrintItems(items) + [CLOSE_ARRAY] + rest;
    if items == [] {
      assert text[2..] == rest;
    } else {
      assert text[1..] == PrintItems(items) + ([CLOSE_ARRAY] + rest);
      PrintStart(items[0]);
      assert text[1] == Print(items[0])[0];
      ReadPrintItems(items, rest);
    }
  }

  lemma ReadPrintObject(ms: seq<Member>, rest: Str)
    requires MembersPrintable(ms)
    ensures ReadValue(Print(Object(ms)) + rest) == Some((Object(PlainMembers(ms)), rest))
    decreases ms, 1
  {
    var text := [OPEN_OBJECT] + PrintMembers(ms) + [CLOSE_OBJECT] + rest;
    var tail := [CLOSE_OBJECT] + rest;
    assert text[1..] == PrintMembers(ms) + tail;
    PrintMembersStart(ms);
    if PrintMembers(ms) == [] {
      assert text[1..] == tail;
      assert text[2..] == tail[1..] == rest;
    } else {
      assert text[1] == PrintMembers(ms)[0] == QUOTE;
      ReadPrintMembers(ms, rest);
    }
  }

  lemma {:induction false} ReadPrintItems(items: seq<Value>, rest: Str)
    requires items != [] && AllPrintable(items)
    ensures ReadItems(PrintItems(items) + ([CLOSE_ARRAY] + rest)) == Some((PlainItems(items), rest))
    decreases items, 0
  {
    var close := [CLOSE_ARRAY] + rest;
    if |items| == 1 {
      assert PrintItems(items) + close == Print(items[0]) + close;
      ReadPrint(items[0], close);
      assert close[1..] == rest;
      assert PlainItems(items) == [Plain(items[0])];
    } else {
      var tail := PrintItems(items[1..]) + close;
      assert PrintItems(items) + close == Print(items[0]) + ([COMMA] + tail);
      ReadPrint(items[0], [COMMA] + tail);
      assert ([COMMA] + tail)[1..] == tail;
      ReadPrintItems(items[1..], rest);
      assert PlainItems(items) == [Plain(items[0])] + PlainItems(items[1..]);
    }
  }

  lemma {:induction false} PrintMembersStart(ms: seq<Member>)
    ensures PrintMembers(ms) == [] <==> PlainMembers(ms) == []
    ensures PrintMembers(ms) != [] ==> PrintMembers(ms)[0] == QUOTE
  {
    if ms != [] && ms[0].value.Undefined? {
      PrintMembersStart(ms[1..]);
    }
  }

  lemma {:induction false} ReadPrintMembers(ms: seq<Member>, rest: Str)
    requires MembersPrintable(ms) && PrintMembers(ms) != []
    ensures ReadMembers(PrintMembers(ms) + ([CLOSE_OBJECT] + rest)) == Some((PlainMembers(ms), rest))
    decreases ms, 0
  {
    var close := [CLOSE_OBJECT] + rest;
    if ms[0].value.Undefined? {
      ReadPrintMembers(ms[1..], rest);
    } else {
      var later := PrintMembers(ms[1..]);
      var after := if later == [] then close else [COMMA] + (later + close);
      var m := ms[0];
      assert PrintMembers(ms) + close == Quote(m.key) + [COLON] + Print(m.value) + after;
      ReadPrintMember(m, after);
      assert after[1..] == if later == [] then rest else later + close;
      PrintMembersStart(ms[1..]);
      if later == [] {
        assert after[0] == CLOSE_OBJECT;
        assert PlainMembers(ms) == [Member(m.key, Plain(m.value))];
      } else {
        assert after[0] == COMMA;
        ReadPrintMembers(ms[1..], rest);
      }
    }
  }

  lemma ReadMemberParts(key: Str, value: Str, v: Value, after: Str)
    requires ReadValue(value + after) == Some((v, after))
    ensures ReadMember(Quote(key) + [COLON] + value + after) == Some((Member(key, v), after))
  {
    hide Escape, ReadValue;
    var text := Quote(key) + [COLON] + value + after;
    var tail := [COLON] + (value + after);
    assert text == [QUOTE] + (Escape(key) + [QUOTE] + tail);
    assert text[1..] == Escape(key) + [QUOTE] + tail;
    StringInverse(key, tail);
    assert tail[1..] == value + after;
  }

  lemma ReadPrintMember(m: Member, after: Str)
    requires Printable(m.value) && Delimited(after)
    ensures ReadMember(Quote(m.key) + [COLON] + Print(m.value) + after) == Some((Member(m.key, Plain(m.value)), after))
    decreases m.value, 2
  {
    ReadPrint(m.value, after);
    ReadMemberParts(m.key, Print(m.value), Plain(m.value), after);
  }

  /** `JSON.parse(JSON.stringify(v))` is `v` without its undefined members. */
  lemma ParsePrint(v: Value)
    requires Printable(v)
    ensures Parse(Print(v)) == Some(Plain(v))
  {
    assert Print(v) + [] == Print(v);
    ReadPrint(v, []);
  }

  /** Two values print alike exactly when they read back alike. */
  lemma PrintInjective(a: Value, b: Value)
    requires Printable(a) && Printable(b)
    ensures Print(a) == Print(b) <==> Plain(a) == Plain(b)
  {
    ParsePrint(a);
    ParsePrint(b);
    PrintPlain(a);
    PrintPlain(b);
  }

  /** Dropping what does not print leaves the text alone. */
  lemma {:induction false} PrintPlain(v: Value)
    ensures Print(Plain(v)) == Print(v)
    decreases v, 1
  {
    match v
    case Array(items) => PrintPlainItems(items);
    case Object(ms) => PrintPlainMembers(ms);
    case _ =>
  }

  lemma {:induction false} PrintPlainItems(items: seq<Value>)
    ensures PrintItems(PlainItems(items)) == PrintItems(items)
    decreases items, 0
  {
    if items != [] {
      PrintPlain(items[0]);
      PrintPlainItems(items[1..]);
      assert PlainItems(items)[1..] == PlainItems(items[1..]);
    }
  }

  lemma {:induction false} PrintPlainMembers(ms: seq<Member>)
    ensures PrintMembers(PlainMembers(ms)) == PrintMembers(ms)
    decreases ms, 0
  {
    if ms != [] {
      PrintPlainMembers(ms[1..]);
      if !ms[0].value.Undefined? {
        PrintPlain(ms[0].value);
        assert !Plain(ms[0].value).Undefined?;
        assert PlainMembers(ms)[1..] == PlainMembers(ms[1..]);
      }
    }
  }
}
