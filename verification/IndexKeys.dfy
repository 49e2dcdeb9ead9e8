/** Which keys JavaScript enumerates as array indices, by the decimal text of the index (section 6.1.7 of ECMA-262). */
module IndexKeys {
  import opened CodeUnits
  import opened Json
  import opened CanonicalJson
  import opened EventChain
  import opened RustCanonical

  /** A number is printed without a leading zero. */
  lemma {:induction false} DigitsDecimal(n: nat)
    ensures IsDecimal(Digits(n)) && (n > 0 ==> Digits(n)[0] != 48)
  {
    DigitsToken(n);
    if n >= 10 {
      DigitsDecimal(n / 10);
      assert Digits(n)[0] == Digits(n / 10)[0];
    }
  }

  /** A key is an array index exactly when it is the decimal text of a number up to 2^32 - 2. */
  lemma IndexKeyExactly(k: Str)
    ensures IsIndexKey(k) <==> exists n: nat :: n <= 4_294_967_294 && k == Digits(n)
  {
    if IsIndexKey(k) {
      var n := DecimalValue(k);
      DigitsDecimal(n);
      DigitsToken(n);
      DecimalInjective(k, Digits(n));
    }
    if n: nat :| n <= 4_294_967_294 && k == Digits(n) {
      DigitsDecimal(n);
      DigitsToken(n);
    }
  }

  /** Indices are enumerated by number and before all other keys, which go by code unit. */
  lemma EnumerationExactly(m: nat, n: nat, a: Str, b: Str)
    requires m <= 4_294_967_294 && n <= 4_294_967_294 && !IsIndexKey(a) && !IsIndexKey(b)
    ensures EnumLess(Digits(m), Digits(n)) <==> m < n
    ensures EnumLess(Digits(m), a) && !EnumLess(a, Digits(m))
    ensures EnumLess(a, b) <==> LexLess(a, b)
  {
    IndexKeyExactly(Digits(m));
    IndexKeyExactly(Digits(n));
    DigitsToken(m);
    DigitsToken(n);
  }
}
