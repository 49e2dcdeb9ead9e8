/**
 The text `JSON.stringify` gives, said without the printer's own tables: a string body is the shortest one that
 reads back as the string, and arrays and objects are what RFC 8259 puts between their brackets.
 */
module JsonText {
  import opened CodeUnits
  import opened Prelude
  import opened Json
  import opened JsonParser

  // ----- The reader's escapes -----

  /** The escapes of section 7 of RFC 8259, one by one, and the hexadecimal form. */
  lemma ReadsEscapes()
    ensures ReadUnit(Lit("\\\"")) == Some((34, [])) && ReadUnit(Lit("\\\\")) == Some((92, []))
    ensures ReadUnit(Lit("\\b")) == Some((8, [])) && ReadUnit(Lit("\\t")) == Some((9, []))
    ensures ReadUnit(Lit("\\n")) == Some((10, [])) && ReadUnit(Lit("\\f")) == Some((12, []))
    ensures ReadUnit(Lit("\\r")) == Some((13, []))
    ensures ReadUnit(Lit("\\u001f")) == Some((31, [])) && ReadUnit(Lit("\\ud89a")) == Some((0xD89A, []))
  {
    ReadHex4Inverse(0, 0, 1, 15, []);
    ReadHex4Inverse(13, 8, 9, 10, []);
    assert Lit("\\u001f")[2..] == [HexDigit(0), HexDigit(0), HexDigit(1), HexDigit(15)] + [];
    assert Lit("\\ud89a")[2..] == [HexDigit(13), HexDigit(8), HexDigit(9), HexDigit(10)] + [];
  }

  // ----- The shortest string body -----

  /** No unit below 32 and no lone surrogate, as in the text `JSON.stringify` gives. */
  predicate Clean(t: Str) {
    t == []
    || (|t| > 1 && IsHighSurrogate(t[0]) && IsLowSurrogate(t[1]) && Clean(t[2..]))
    || (t[0] >= 32 && !IsHighSurrogate(t[0]) && !IsLowSurrogate(t[0]) && Clean(t[1..]))
  }

  lemma {:induction false} CleanConcat(a: Str, b: Str)
    requires Clean(a) && Clean(b)
    ensures Clean(a + b)
    decreases |a|
  {
    if a == [] {
      assert a + b == b;
    } else if IsHighSurrogate(a[0]) {
      CleanConcat(a[2..], b);
      assert (a + b)[2..] == a[2..] + b;
    } else {
      CleanConcat(a[1..], b);
      assert (a + b)[1..] == a[1..] + b;
    }
  }

  predicate PlainUnit(u: CodeUnit) {
    u >= 32 && !IsHighSurrogate(u) && !IsLowSurrogate(u)
  }

  /** Units that are no surrogates are clean in any number, and so is what follows them. */
  lemma {:induction false} CleanPrefix(t: Str, n: nat)
    requires n <= |t| && forall i :: 0 <= i < n ==> PlainUnit(t[i])
    ensures Clean(t) <==> Clean(t[n..])
  {
    if n == 0 {
      assert t[0..] == t;
    } else {
      CleanPrefix(t[1..], n - 1);
      assert t[1..][n - 1..] == t[n..];
    }
  }

  lemma HexUnique(x: CodeUnit, n: int)
    requires HexValue(x) == Some(n)
    ensures x == HexDigit(n) && PlainUnit(x)
  {
  }

  lemma DigitsOf(a: int, b: int, c: int, d: int, u: int)
    requires 0 <= a < 16 && 0 <= b < 16 && 0 <= c < 16 && 0 <= d < 16 && u == 4096 * a + 256 * b + 16 * c + d
    ensures a == u / 4096 && b == u / 256 % 16 && c == u / 16 % 16 && d == u % 16
  {
    assert u / 16 == 256 * a + 16 * b + c && u % 16 == d by { Divides(16, 256 * a + 16 * b + c, d); }
    assert u / 256 == 16 * a + b by { Divides(256, 16 * a + b, 16 * c + d); }
    assert u / 4096 == a by { Divides(4096, a, 256 * b + 16 * c + d); }
    assert (256 * a + 16 * b + c) % 16 == c by { Divides(16, 16 * a + b, c); }
    assert (16 * a + b) % 16 == b by { Divides(16, a, b); }
  }

  lemma Divides(m: int, q: int, r: int)
    requires 0 <= r < m && 0 <= q
    ensures (m * q + r) / m == q && (m * q + r) % m == r
  {
    var n, k := m * q + r, (m * q + r) / m;
    assert m * (k - q) == r - n % m;
    if k > q {
      Grows(m, 1, k - q);
    } else if k < q {
      Grows(m, 1, q - k);
    }
  }

  lemma Grows(m: int, a: int, b: int)
    requires 0 <= m && a <= b
    ensures m * a <= m * b
  {
  }

  /** There is one hexadecimal form of a unit. */
  lemma HexFormUnique(s: Str, u: CodeUnit, rest: Str)
    requires ReadHex4(s) == Some((u, rest))
    ensures [BACKSLASH, LOWER_U] + s == UnicodeEscape(u) + rest
    ensures forall i :: 0 <= i < 4 ==> PlainUnit(s[i])
  {
    var a, b, c, d := HexValue(s[0]).value, HexValue(s[1]).value, HexValue(s[2]).value, HexValue(s[3]).value;
    DigitsOf(a, b, c, d, u);
    HexUnique(s[0], a);
    HexUnique(s[1], b);
    HexUnique(s[2], c);
    HexUnique(s[3], d);
    assert s == s[..4] + s[4..];
    assert UnicodeEscape(u) == [BACKSLASH, LOWER_U] + s[..4];
  }

  /** An escape spends at least as many units as `EscapeUnit`, and with as many it is that. */
  lemma EscapeSpends(t: Str, u: CodeUnit, rest: Str)
    requires t != [] && t[0] == BACKSLASH && ReadUnit(t) == Some((u, rest))
    ensures |t| - |rest| >= |EscapeUnit(u)|
    ensures |t| - |rest| == |EscapeUnit(u)| ==> t == EscapeUnit(u) + rest
    ensures rest == t[|t| - |rest|..] && forall i :: 0 <= i < |t| - |rest| ==> PlainUnit(t[i])
  {
    if t[1] == LOWER_U {
      HexFormUnique(t[2..], u, rest);
      assert t == [BACKSLASH, LOWER_U] + t[2..];
      assert forall i :: 2 <= i < 6 ==> t[i] == t[2..][i - 2];
      assert t[6..] == t[2..][4..];
    } else {
      assert t == [BACKSLASH, t[1]] + t[2..];
    }
  }

  /** So does any clean first unit that is no surrogate, and what follows it is clean. */
  lemma UnitSpends(t: Str, u: CodeUnit, rest: Str)
    requires Clean(t) && ReadUnit(t) == Some((u, rest)) && !IsHighSurrogate(t[0])
    ensures Clean(rest) && |t| - |rest| >= |EscapeUnit(u)|
    ensures |t| - |rest| == |EscapeUnit(u)| ==> t == EscapeUnit(u) + rest
  {
    if t[0] == BACKSLASH {
      EscapeSpends(t, u, rest);
      CleanPrefix(t, |t| - |rest|);
    } else {
      assert t == [t[0]] + t[1..];
    }
  }

  lemma EscapeUnitClean(u: CodeUnit)
    ensures Clean(EscapeUnit(u))
  {
    var t := EscapeUnit(u);
    if t == UnicodeEscape(u) {
      HexSum(u);
    }
    CleanPrefix(t, |t|);
  }

  /** Of the clean texts that read as one unit, its escape is the shortest, and the only one so short. */
  lemma ShortestUnit(u: CodeUnit, t: Str)
    requires Clean(t) && ReadUnit(t) == Some((u, []))
    ensures Clean(EscapeUnit(u)) && ReadUnit(EscapeUnit(u)) == Some((u, []))
    ensures |EscapeUnit(u)| <= |t| && (|EscapeUnit(u)| == |t| ==> t == EscapeUnit(u))
  {
    EscapeUnitClean(u);
    EscapeUnitInverse(u, []);
    assert EscapeUnit(u) + [] == EscapeUnit(u);
    if IsHighSurrogate(t[0]) {
      assert false;
    } else {
      UnitSpends(t, u, []);
    }
  }

  lemma {:induction false} EscapeClean(s: Str)
    ensures Clean(Escape(s))
    decreases |s|
  {
    if s == [] {
    } else if |s| > 1 && IsHighSurrogate(s[0]) && IsLowSurrogate(s[1]) {
      EscapeClean(s[2..]);
      assert Clean(s[..2]) by { assert s[..2][2..] == []; }
      CleanConcat(s[..2], Escape(s[2..]));
    } else {
      EscapeUnitClean(s[0]);
      EscapeClean(s[1..]);
      CleanConcat(EscapeUnit(s[0]), Escape(s[1..]));
    }
  }

  /** A body without its closing quote. */
  predicate ReadsAs(t: Str, s: Str) {
    ReadString(t + [QUOTE]) == Some((s, []))
  }

  /** A unit is read from its own text: what follows does not matter. */
  lemma ReadUnitPrefix(x: Str, k: nat, u: CodeUnit, tail: Str)
    requires ReadUnit(x) == Some((u, tail)) && |x| - |tail| <= k <= |x|
    ensures tail == x[|x| - |tail|..] && ReadUnit(x[..k]) == Some((u, x[|x| - |tail|..k]))
  {
    var y := x[..k];
    if x[0] == BACKSLASH && x[1] == LOWER_U {
      assert y[2..][4..] == x[6..k] && x[2..][4..] == x[6..];
    } else if x[0] == BACKSLASH {
      assert y[2..] == x[2..k];
    } else {
      assert y[1..] == x[1..k];
    }
  }

  /** What a reading of a body says of its first unit. */
  lemma FirstUnit(t: Str, s: Str) returns (u: CodeUnit, rest: Str)
    requires t != [] && ReadsAs(t, s)
    ensures s != [] && u == s[0] && ReadUnit(t) == Some((u, rest)) && ReadsAs(rest, s[1..])
  {
    var x := t + [QUOTE];
    assert t[0] != QUOTE;
    u := ReadUnit(x).value.0;
    var tail := ReadUnit(x).value.1;
    ReadUnitPrefix(x, |t|, u, tail);
    assert x[..|t|] == t;
    rest := x[|x| - |tail|..|t|];
    assert tail == rest + [QUOTE];
    assert s == [u] + s[1..] && ReadString(tail) == Some((s[1..], []));
  }

  /** The first unit of a clean body is a surrogate only as the first half of a pair, read as it stands. */
  lemma PairSpends(t: Str, s: Str)
    requires Clean(t) && t != [] && IsHighSurrogate(t[0]) && ReadsAs(t, s)
    ensures |s| > 1 && |t| > 1 && s[..2] == t[..2] && IsHighSurrogate(s[0]) && IsLowSurrogate(s[1])
    ensures Clean(t[2..]) && ReadsAs(t[2..], s[2..])
  {
    var high, rest := FirstUnit(t, s);
    assert rest == t[1..];
    var low, after := FirstUnit(rest, s[1..]);
    assert after == t[2..] && s[1..][1..] == s[2..];
  }

  /** An escaped first half is followed by an escaped second half, which takes more than the pair. */
  lemma EscapedHalfSpends(t: Str, s: Str, rest: Str)
    requires Clean(rest) && |s| > 1 && IsHighSurrogate(s[0]) && IsLowSurrogate(s[1])
    requires ReadUnit(t) == Some((s[0], rest)) && ReadsAs(rest, s[1..])
    ensures rest != [] && |t| > |rest|
    ensures exists after :: Clean(after) && ReadsAs(after, s[2..]) && |rest| >= |after| + 6
  {
    assert ReadString([] + [QUOTE]) == Some(([], []));
    var low, after := FirstUnit(rest, s[1..]);
    UnitSpends(rest, low, after);
    assert s[1..][1..] == s[2..];
  }

  /**
   The text between the quotes: of all clean ones that read as the string the shortest, with surrogate pairs as they
   stand, and the only one so short.
   */
  lemma {:induction false} EscapeShortest(s: Str, t: Str)
    requires Clean(t) && ReadsAs(t, s)
    ensures |Escape(s)| <= |t| && (|Escape(s)| == |t| ==> t == Escape(s))
    decreases |t|
  {
    if t == [] {
      assert ReadString([] + [QUOTE]) == Some(([], []));
    } else if IsHighSurrogate(t[0]) {
      PairSpends(t, s);
      EscapeShortest(s[2..], t[2..]);
      assert t == t[..2] + t[2..];
    } else {
      var u, rest := FirstUnit(t, s);
      UnitSpends(t, u, rest);
      if |s| > 1 && IsHighSurrogate(s[0]) && IsLowSurrogate(s[1]) {
        EscapedHalfSpends(t, s, rest);
        var after :| Clean(after) && ReadsAs(after, s[2..]) && |rest| >= |after| + 6;
        EscapeShortest(s[2..], after);
      } else {
        EscapeShortest(s[1..], rest);
      }
    }
  }

  /** And it is such a text itself. */
  lemma EscapeReads(s: Str)
    ensures Clean(Escape(s)) && ReadsAs(Escape(s), s)
  {
    EscapeClean(s);
    StringInverse(s, []);
    assert Escape(s) + [QUOTE] + [] == Escape(s) + [QUOTE];
  }

  // ----- Numbers -----

  /** A number token starts with a digit or a minus sign and is made of the characters of section 6 of RFC 8259. */
  lemma TokensExactly(t: Str, u: CodeUnit)
    ensures IsNumberUnit(u) <==> u in Lit("0123456789+-.eE")
    ensures IsNumberToken(t) <==>
              t != [] && t[0] in Lit("0123456789-") && forall i :: 0 <= i < |t| ==> t[i] in Lit("0123456789+-.eE")
  {
    UnitsExactly(u);
    if t != [] {
      StartsExactly(t[0]);
      forall i | 0 <= i < |t| ensures IsNumberUnit(t[i]) <==> t[i] in Lit("0123456789+-.eE") {
        UnitsExactly(t[i]);
      }
    }
  }

  lemma UnitsExactly(u: CodeUnit)
    ensures IsNumberUnit(u) <==> u in Lit("0123456789+-.eE")
  {
    var units := Lit("0123456789+-.eE");
    if IsDigit(u) {
      assert units[u - 48] == u;
    } else if IsNumberUnit(u) {
      assert units[10] == 43 && units[11] == 45 && units[12] == 46 && units[13] == 101 && units[14] == 69;
    }
  }

  lemma StartsExactly(u: CodeUnit)
    ensures IsDigit(u) || u == 45 <==> u in Lit("0123456789-")
  {
    var units := Lit("0123456789-");
    if IsDigit(u) {
      assert units[u - 48] == u;
    }
    assert units[10] == 45;
  }

  // ----- Arrays and objects -----

  /** The parts with commas between them. */
  function Joined(parts: seq<Str>): (r: Str) {
    if parts == [] then [] else if |parts| == 1 then parts[0] else parts[0] + Lit(",") + Joined(parts[1..])
  }

  function ItemTexts(items: seq<Value>): (r: seq<Str>) {
    seq(|items|, i requires 0 <= i < |items| => Print(items[i]))
  }

  /** A member that is not undefined as its quoted key, a colon and its value. */
  function MemberTexts(ms: seq<Member>): (r: seq<Str>) {
    if ms == [] then []
    else
      var rest := MemberTexts(ms[1..]);
      if ms[0].value.Undefined? then rest
      else [Lit("\"") + Escape(ms[0].key) + Lit("\":") + Print(ms[0].value)] + rest
  }

  /** What the text of a value is, with the literals of RFC 8259. */
  lemma PrintForms(v: Value)
    ensures Print(v) == match v
                        case Undefined => Lit("null")
                        case Null => Lit("null")
                        case Bool(b) => if b then Lit("true") else Lit("false")
                        case Number(t) => t
                        case Text(s) => Lit("\"") + Escape(s) + Lit("\"")
                        case Array(items) => Lit("[") + Joined(ItemTexts(items)) + Lit("]")
                        case Object(ms) => Lit("{") + Joined(MemberTexts(ms)) + Lit("}")
  {
    match v
    case Text(s) => assert Lit("\"") == [QUOTE];
    case Array(items) =>
      ItemsJoined(items);
      assert Lit("[") == [OPEN_ARRAY] && Lit("]") == [CLOSE_ARRAY];
    case Object(ms) =>
      MembersJoined(ms);
      assert Lit("{") == [OPEN_OBJECT] && Lit("}") == [CLOSE_OBJECT];
    case _ =>
  }

  lemma {:induction false} ItemsJoined(items: seq<Value>)
    ensures PrintItems(items) == Joined(ItemTexts(items))
  {
    if items != [] {
      ItemsJoined(items[1..]);
      assert ItemTexts(items)[1..] == ItemTexts(items[1..]);
      assert Lit(",") == [COMMA];
    }
  }

  lemma {:induction false} MembersJoined(ms: seq<Member>)
    ensures PrintMembers(ms) == Joined(MemberTexts(ms))
    ensures PrintMembers(ms) == [] <==> MemberTexts(ms) == []
  {
    if ms != [] {
      MembersJoined(ms[1..]);
      if !ms[0].value.Undefined? {
        MemberJoined(ms[0], MemberTexts(ms[1..]));
      }
    }
  }

  lemma MemberJoined(m: Member, rest: seq<Str>)
    ensures var text := Lit("\"") + Escape(m.key) + Lit("\":") + Print(m.value);
            && text == Quote(m.key) + [COLON] + Print(m.value)
            && Joined([text] + rest) == text + if rest == [] then [] else [COMMA] + Joined(rest)
  {
    var text := Lit("\"") + Escape(m.key) + Lit("\":") + Print(m.value);
    assert Lit("\"") == [QUOTE] && Lit("\":") == [QUOTE] + [COLON] && Lit(",") == [COMMA];
    assert ([text] + rest)[1..] == rest;
  }
}
