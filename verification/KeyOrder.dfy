/**
 The order of object keys in the two languages, by UTF-8 bytes (section 3 of RFC 3629) in the Rust compiler and by
 UTF-16 code units (section 2.1 of RFC 2781) in TypeScript, and on which pairs of keys they agree.
 */
module KeyOrder {
  import opened CodeUnits
  import opened Json

  type CodePoint = c: int | 0 <= c < 0xD800 || 0xE000 <= c < 0x11_0000

  function Utf8(c: CodePoint): (r: seq<int>)
    ensures r != []
  {
    if c < 0x80 then [c]
    else if c < 0x800 then [0xC0 + c / 0x40, 0x80 + c % 0x40]
    else if c < 0x1_0000 then [0xE0 + c / 0x1000, 0x80 + c / 0x40 % 0x40, 0x80 + c % 0x40]
    else [0xF0 + c / 0x4_0000, 0x80 + c / 0x1000 % 0x40, 0x80 + c / 0x40 % 0x40, 0x80 + c % 0x40]
  }

  function Utf16(c: CodePoint): (r: Str)
    ensures r != []
  {
    if c < 0x1_0000 then [c]
    else [0xD800 + (c - 0x1_0000) / 0x400, 0xDC00 + (c - 0x1_0000) % 0x400]
  }

  function EncodeUtf8(s: seq<CodePoint>): (r: seq<int>) {
    if s == [] then [] else Utf8(s[0]) + EncodeUtf8(s[1..])
  }

  function EncodeUtf16(s: seq<CodePoint>): (r: Str) {
    if s == [] then [] else Utf16(s[0]) + EncodeUtf16(s[1..])
  }

  // ----- The encodings -----

  /** The octets of section 3 of RFC 3629: how many there are, what marks them, and the number their free bits spell. */
  lemma Utf8Octets(c: CodePoint)
    ensures |Utf8(c)| == if c <= 0x7F then 1 else if c <= 0x7FF then 2 else if c <= 0xFFFF then 3 else 4
    ensures forall i :: 1 <= i < |Utf8(c)| ==> 0x80 <= Utf8(c)[i] <= 0xBF
    ensures var b := Utf8(c);
            match |b|
            case 1 => b[0] == c
            case 2 => 0xC0 <= b[0] <= 0xDF && c == 64 * (b[0] - 0xC0) + (b[1] - 0x80)
            case 3 => 0xE0 <= b[0] <= 0xEF && c == 64 * (64 * (b[0] - 0xE0) + (b[1] - 0x80)) + (b[2] - 0x80)
            case _ =>
              && 0xF0 <= b[0] <= 0xF7
              && c == 64 * (64 * (64 * (b[0] - 0xF0) + (b[1] - 0x80)) + (b[2] - 0x80)) + (b[3] - 0x80)
  {
    assert c / 0x1000 == c / 0x40 / 0x40 && c / 0x4_0000 == c / 0x1000 / 0x40;
  }

  /** One unit, or the surrogate pair of section 2.1 of RFC 2781 that spells the number above 0xFFFF. */
  lemma Utf16Units(c: CodePoint)
    ensures if c <= 0xFFFF then Utf16(c) == [c]
            else && |Utf16(c)| == 2 && IsHighSurrogate(Utf16(c)[0]) && IsLowSurrogate(Utf16(c)[1])
                 && c == 0x1_0000 + 0x400 * (Utf16(c)[0] as int - 0xD800) + (Utf16(c)[1] as int - 0xDC00)
  {
  }

  // ----- One code point -----

  /** `x` and `y` differ at `i` and not before, so what follows them cannot matter. */
  predicate DivergeAt(x: seq<int>, y: seq<int>, i: nat) {
    i < |x| && i < |y| && x[..i] == y[..i] && x[i] != y[i]
  }

  lemma {:induction false} LexDiverge(x: seq<int>, y: seq<int>, p: seq<int>, q: seq<int>, i: nat)
    requires DivergeAt(x, y, i)
    ensures LexLess(x + p, y + q) <==> x[i] < y[i]
    decreases i
  {
    if i > 0 {
      assert x[0] == x[..i][0] == y[..i][0] == y[0];
      assert x[1..][..i - 1] == x[..i][1..] == y[..i][1..] == y[1..][..i - 1];
      LexDiverge(x[1..], y[1..], p, q, i - 1);
      assert (x + p)[1..] == x[1..] + p && (y + q)[1..] == y[1..] + q;
    }
  }

  lemma {:induction false} LexCommonPrefix(x: seq<int>, p: seq<int>, q: seq<int>)
    ensures LexLess(x + p, x + q) <==> LexLess(p, q)
  {
    if x == [] {
      assert x + p == p && x + q == q;
    } else {
      assert (x + p)[1..] == x[1..] + p && (x + q)[1..] == x[1..] + q;
      LexCommonPrefix(x[1..], p, q);
    }
  }

  /** The base-64 digits of a code point, most significant first. */
  lemma Base64Digits(c: nat)
    ensures c == 0x40 * (c / 0x40) + c % 0x40
    ensures c / 0x40 == 0x40 * (c / 0x1000) + c / 0x40 % 0x40
    ensures c / 0x1000 == 0x40 * (c / 0x4_0000) + c / 0x1000 % 0x40
  {
    assert c / 0x1000 == c / 0x40 / 0x40;
    assert c / 0x4_0000 == c / 0x1000 / 0x40;
  }

  /** Forms of different lengths part at the lead byte. */
  lemma Utf8LeadDiverges(c: CodePoint, d: CodePoint)
    requires c < d && |Utf8(c)| != |Utf8(d)|
    ensures Utf8(c)[0] < Utf8(d)[0]
  {
  }

  /** Where the UTF-8 forms of two code points part, and that they part in code point order. */
  lemma Utf8Diverges(c: CodePoint, d: CodePoint) returns (i: nat)
    requires c < d
    ensures DivergeAt(Utf8(c), Utf8(d), i) && Utf8(c)[i] < Utf8(d)[i]
  {
    var x, y := Utf8(c), Utf8(d);
    i := 0;
    if |x| != |y| {
      Utf8LeadDiverges(c, d);
    } else {
      Base64Digits(c);
      Base64Digits(d);
      if x[0] != y[0] {
      } else if x[1] != y[1] {
        i := 1;
      } else if x[2] != y[2] {
        i := 2;
      } else {
        i := 3;
      }
      PrefixesEqual(x, y, i);
    }
  }

  lemma PrefixesEqual(x: seq<int>, y: seq<int>, i: nat)
    requires i <= |x| && i <= |y| && forall k :: 0 <= k < i ==> x[k] == y[k]
    ensures x[..i] == y[..i]
  {
  }

  /** The code points the two orders disagree on. */
  predicate SwappedPoints(c: CodePoint, d: CodePoint) {
    (c >= 0x1_0000 && 0xE000 <= d < 0x1_0000) || (d >= 0x1_0000 && 0xE000 <= c < 0x1_0000)
  }

  lemma Utf16Diverges(c: CodePoint, d: CodePoint) returns (i: nat)
    requires c < d
    ensures DivergeAt(Utf16(c), Utf16(d), i)
    ensures Utf16(c)[i] < Utf16(d)[i] <==> !SwappedPoints(c, d)
  {
    var x, y := Utf16(c), Utf16(d);
    if x[0] != y[0] {
      i := 0;
    } else {
      i := 1;
      assert x[..1] == y[..1];
    }
  }

  // ----- Whole strings -----

  /** The first differing code points of the strings are a swapped pair. */
  predicate Swapped(a: seq<CodePoint>, b: seq<CodePoint>) {
    a != [] && b != [] && (SwappedPoints(a[0], b[0]) || (a[0] == b[0] && Swapped(a[1..], b[1..])))
  }

  /** UTF-8 byte order is code point order. */
  lemma {:induction false} Utf8Order(a: seq<CodePoint>, b: seq<CodePoint>)
    ensures LexLess(EncodeUtf8(a), EncodeUtf8(b)) <==> LexLess(a, b)
  {
    if a != [] && b != [] {
      if a[0] == b[0] {
        LexCommonPrefix(Utf8(a[0]), EncodeUtf8(a[1..]), EncodeUtf8(b[1..]));
        Utf8Order(a[1..], b[1..]);
      } else if a[0] < b[0] {
        var i := Utf8Diverges(a[0], b[0]);
        LexDiverge(Utf8(a[0]), Utf8(b[0]), EncodeUtf8(a[1..]), EncodeUtf8(b[1..]), i);
      } else {
        var i := Utf8Diverges(b[0], a[0]);
        LexDiverge(Utf8(a[0]), Utf8(b[0]), EncodeUtf8(a[1..]), EncodeUtf8(b[1..]), i);
      }
    }
  }

  /** UTF-16 code-unit order is code point order except on swapped strings, where it is its reverse. */
  lemma {:induction false} Utf16Order(a: seq<CodePoint>, b: seq<CodePoint>)
    ensures LexLess(EncodeUtf16(a), EncodeUtf16(b)) <==> if Swapped(a, b) then LexLess(b, a) else LexLess(a, b)
  {
    if a != [] && b != [] {
      if a[0] == b[0] {
        LexCommonPrefix(Utf16(a[0]), EncodeUtf16(a[1..]), EncodeUtf16(b[1..]));
        Utf16Order(a[1..], b[1..]);
      } else if a[0] < b[0] {
        var i := Utf16Diverges(a[0], b[0]);
        LexDiverge(Utf16(a[0]), Utf16(b[0]), EncodeUtf16(a[1..]), EncodeUtf16(b[1..]), i);
      } else {
        var i := Utf16Diverges(b[0], a[0]);
        LexDiverge(Utf16(a[0]), Utf16(b[0]), EncodeUtf16(a[1..]), EncodeUtf16(b[1..]), i);
      }
    }
  }

  lemma {:induction false} SwappedDiffer(a: seq<CodePoint>, b: seq<CodePoint>)
    requires Swapped(a, b)
    ensures a != b && Swapped(b, a)
  {
    if a[0] == b[0] {
      SwappedDiffer(a[1..], b[1..]);
    }
  }

  /** The two orders agree on a pair of strings exactly when the pair is not swapped. */
  lemma OrdersAgree(a: seq<CodePoint>, b: seq<CodePoint>)
    ensures (LexLess(EncodeUtf16(a), EncodeUtf16(b)) <==> LexLess(EncodeUtf8(a), EncodeUtf8(b))) <==> !Swapped(a, b)
  {
    Utf8Order(a, b);
    Utf16Order(a, b);
    if Swapped(a, b) {
      SwappedDiffer(a, b);
      LexTotal(a, b);
      if LexLess(a, b) {
        LexAsymmetric(a, b);
      }
    }
  }

  /** Strings of the basic multilingual plane are never swapped. */
  lemma {:induction false} BmpNeverSwapped(a: seq<CodePoint>, b: seq<CodePoint>)
    requires forall i :: 0 <= i < |a| ==> a[i] < 0x1_0000
    requires forall i :: 0 <= i < |b| ==> b[i] < 0x1_0000
    ensures !Swapped(a, b)
  {
    if a != [] && b != [] {
      BmpNeverSwapped(a[1..], b[1..]);
    }
  }

  /** U+10000 and U+E000, in opposite orders: the claim that the orders agree for every code point fails. */
  lemma SwappedWitness()
    ensures LexLess(EncodeUtf16([0x1_0000]), EncodeUtf16([0xE000]))
    ensures LexLess(EncodeUtf8([0xE000]), EncodeUtf8([0x1_0000]))
  {
    Utf16Order([0x1_0000], [0xE000]);
    Utf8Order([0xE000], [0x1_0000]);
  }

  // ----- Keys as code points -----

  /** Every surrogate is half of a pair: the strings a Rust `String` can hold. */
  predicate Paired(s: Str) {
    s == []
    || (IsHighSurrogate(s[0]) && |s| > 1 && IsLowSurrogate(s[1]) && Paired(s[2..]))
    || (!IsHighSurrogate(s[0]) && !IsLowSurrogate(s[0]) && Paired(s[1..]))
  }

  function CodePoints(s: Str): (r: seq<CodePoint>)
    requires Paired(s)
  {
    if s == [] then []
    else if IsHighSurrogate(s[0]) then
      [0x1_0000 + (s[0] - 0xD800) as int * 0x400 + (s[1] - 0xDC00) as int] + CodePoints(s[2..])
    else [s[0]] + CodePoints(s[1..])
  }

  lemma {:induction false} CodePointsInverse(s: Str)
    requires Paired(s)
    ensures EncodeUtf16(CodePoints(s)) == s
  {
    if s != [] {
      if IsHighSurrogate(s[0]) {
        CodePointsInverse(s[2..]);
        assert s == s[..2] + s[2..];
      } else {
        CodePointsInverse(s[1..]);
      }
    }
  }

  function KeyBytes(s: Str): (r: seq<int>)
    requires Paired(s)
  {
    EncodeUtf8(CodePoints(s))
  }

  predicate SwappedKeys(a: Str, b: Str)
    requires Paired(a) && Paired(b)
  {
    Swapped(CodePoints(a), CodePoints(b))
  }

  lemma KeyOrdersAgree(a: Str, b: Str)
    requires Paired(a) && Paired(b)
    ensures (LexLess(a, b) <==> LexLess(KeyBytes(a), KeyBytes(b))) <==> !SwappedKeys(a, b)
    ensures KeyBytes(a) == KeyBytes(b) ==> a == b
  {
    CodePointsInverse(a);
    CodePointsInverse(b);
    OrdersAgree(CodePoints(a), CodePoints(b));
    Utf8Order(CodePoints(a), CodePoints(b));
    Utf8Order(CodePoints(b), CodePoints(a));
    LexTotal(CodePoints(a), CodePoints(b));
    LexIrreflexive(KeyBytes(a));
  }
}
