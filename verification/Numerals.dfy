/** Parsing of unsigned numerals with an overflow check, at 32 and 64 bits.
    A string ends at its first NUL; the functions below work on the characters before it. */
module Numerals {
  // The two integer widths the parsers are used at.
  datatype Width = W32 | W64

  // One more than the greatest value of the width.
  function Modulus(w: Width): (m: nat)
    ensures m == 0x1_0000_0000 || m == 0x1_0000_0000_0000_0000
  {
    if w == W32 then 0x1_0000_0000 else 0x1_0000_0000_0000_0000
  }

  predicate Digit(c: char) { '0' <= c <= '9' }

  predicate HexDigit(c: char) { Digit(c) || 'a' <= c <= 'f' || 'A' <= c <= 'F' }

  function DigitValue(c: char): nat
    requires HexDigit(c)
  {
    if Digit(c) then c as int - '0' as int
    else if 'a' <= c <= 'f' then c as int - 'a' as int + 10
    else c as int - 'A' as int + 10
  }

  // The digits, lower case and upper case alike, and their values by position.
  lemma DigitsExactly(c: char, v: nat)
    ensures HexDigit(c) && DigitValue(c) == v <==>
            v < 16 && (c == "0123456789abcdef"[v] || c == "0123456789ABCDEF"[v])
    ensures Digit(c) <==> HexDigit(c) && DigitValue(c) < 10
  {
  }

  ghost predicate AllDigits(s: string) { forall i :: 0 <= i < |s| ==> Digit(s[i]) }

  ghost predicate AllHex(s: string) { forall i :: 0 <= i < |s| ==> HexDigit(s[i]) }

  // The number a numeral denotes in the given base.
  function Value(s: string, base: nat): nat
    requires AllHex(s)
  {
    if s == [] then 0 else Value(s[..|s| - 1], base) * base + DigitValue(s[|s| - 1])
  }

  lemma {:induction false} ValueSnoc(s: string, i: nat, base: nat)
    requires i < |s| && AllHex(s[..i + 1])
    ensures HexDigit(s[i]) && AllHex(s[..i])
    ensures Value(s[..i + 1], base) == Value(s[..i], base) * base + DigitValue(s[i])
  {
    assert s[..i + 1][..i] == s[..i];
    assert s[..i + 1][i] == s[i];
    assert forall k :: 0 <= k < i ==> s[..i][k] == s[..i + 1][k];
  }

  // A longer numeral denotes at least as much.
  lemma {:induction false} ValueGrows(s: string, i: nat, base: nat)
    requires i <= |s| && AllHex(s) && base > 0
    ensures AllHex(s[..i]) && Value(s[..i], base) <= Value(s, base)
    decreases |s|
  {
    if i < |s| {
      var t := s[..|s| - 1];
      ValueGrows(t, i, base);
      assert t[..i] == s[..i];
      assert s[..|s|] == s;
      ValueSnoc(s, |s| - 1, base);
      TimesAtLeast(Value(t, base), base);
    } else {
      assert s[..i] == s;
    }
  }

  lemma TimesAtLeast(a: nat, b: nat)
    requires b > 0
    ensures a <= a * b
  {
  }

  // ----- decimal -----

  /** The accumulator update in wrapping arithmetic: the character code is added before
      48 is taken away, and the sum may wrap in between. */
  function Accumulated(acc: nat, c: char, w: Width): nat
    requires Digit(c)
  {
    ((acc * 10 + c as int) % Modulus(w) - 48) % Modulus(w)
  }

  // The guard: the accumulator times ten plus the digit fits the width.
  predicate DecimalRoom(acc: nat, c: char, w: Width) {
    acc < (Modulus(w) - 1) / 10 || (acc == (Modulus(w) - 1) / 10 && c < '6')
  }

  lemma RoomIsExact(acc: nat, c: char, w: Width)
    requires Digit(c)
    ensures DecimalRoom(acc, c, w) <==> acc * 10 + DigitValue(c) < Modulus(w)
    ensures DecimalRoom(acc, c, w) ==> Accumulated(acc, c, w) == acc * 10 + DigitValue(c)
  {
    if w == W32 { assert (Modulus(w) - 1) / 10 == 429496729; }
    else { assert (Modulus(w) - 1) / 10 == 1844674407370955161; }
    WrapsBack(acc * 10, c as int, Modulus(w));
  }

  // Wrapping in the middle of the expression is undone by the subtraction.
  lemma WrapsBack(a: nat, code: nat, m: nat)
    requires 48 <= code <= 57 && 100 < m
    ensures a + code - 48 < m ==> ((a + code) % m - 48) % m == a + code - 48
  {
    if a + code - 48 < m {
      if a + code < m { Small(a + code, m); Small(a + code - 48, m); }
      else {
        Once(a + code, m);
        assert (a + code) % m == a + code - m;
        Below(a + code - m - 48, m);
      }
    }
  }

  lemma Small(a: nat, m: nat)
    requires a < m
    ensures a % m == a
  {
  }

  lemma Once(a: nat, m: nat)
    requires m <= a < 2 * m
    ensures a % m == a - m
  {
    assert a == 1 * m + (a - m);
  }

  lemma Below(a: int, m: nat)
    requires m > 0 && 0 <= a + m && a < 0
    ensures a % m == a + m
  {
    assert a == -1 * m + (a + m);
  }

  /** What a decimal parse yields: the longest prefix that is all digits and denotes a
      value below the modulus was taken, and `ok` says that it was the whole string. */
  ghost predicate DecimalParse(s: string, w: Width, ok: bool, value: nat, taken: nat) {
    && taken <= |s| && AllHex(s[..taken]) && AllDigits(s[..taken])
    && value == Value(s[..taken], 10) < Modulus(w)
    && ok == (taken == |s|)
    && (taken < |s| ==> !Digit(s[taken]) || value * 10 + DigitValue(s[taken]) >= Modulus(w))
  }

  /** Decimal parsing. */
  method ParseDecimal(s: string, w: Width) returns (ok: bool, value: nat, ghost taken: nat)
    ensures DecimalParse(s, w, ok, value, taken)
    ensures ok <==> AllDigits(s) && AllHex(s) && Value(s, 10) < Modulus(w)
    ensures ok ==> value == Value(s, 10)
  {
    var i := 0;
    ok, value, taken := true, 0, 0;
    while i < |s| && ok
      invariant taken == i <= |s|
      invariant ok ==> AllHex(s[..i]) && AllDigits(s[..i]) && value == Value(s[..i], 10) < Modulus(w)
      invariant !ok ==> DecimalParse(s, w, ok, value, taken)
      decreases |s| - i, ok
    {
      if Digit(s[i]) {
        RoomIsExact(value, s[i], w);
        if DecimalRoom(value, s[i], w) {
          AppendDigit(s, i);
          value := Accumulated(value, s[i], w);
          i := i + 1;
          taken := i;
        } else {
          ok := false;
        }
      } else {
        ok := false;
      }
    }
    if ok { assert s[..i] == s; }
    DecimalParseExact(s, w, ok, value, taken);
  }

  lemma AppendDigit(s: string, i: nat)
    requires i < |s| && AllDigits(s[..i]) && Digit(s[i])
    ensures AllHex(s[..i]) && AllHex(s[..i + 1]) && AllDigits(s[..i + 1])
    ensures Value(s[..i + 1], 10) == Value(s[..i], 10) * 10 + DigitValue(s[i])
  {
    assert forall k :: 0 <= k < i ==> s[..i + 1][k] == s[..i][k];
    ValueSnoc(s, i, 10);
  }

  /** Decimal parsing succeeds exactly on the numerals whose value fits the width, and
      returns that value, although the accumulator update may wrap in the middle. */
  lemma {:induction false} DecimalParseExact(s: string, w: Width, ok: bool, value: nat, taken: nat)
    requires DecimalParse(s, w, ok, value, taken)
    ensures ok <==> AllDigits(s) && AllHex(s) && Value(s, 10) < Modulus(w)
    ensures ok ==> value == Value(s, 10)
  {
    if ok {
      assert s[..taken] == s;
    } else if AllDigits(s) && AllHex(s) {
      assert Digit(s[taken]);
      ValueGrows(s, taken + 1, 10);
      ValueSnoc(s, taken, 10);
    }
  }

  // ----- hexadecimal -----

  /** The accumulator may be shifted only below this limit. The limit is the greatest
      value shifted right by five, although four bits are needed. */
  function HexLimit(w: Width): (l: nat)
    ensures l == Modulus(w) / 32 - 1
  {
    (Modulus(w) - 1) / 32
  }

  ghost predicate HexParse(s: string, w: Width, ok: bool, value: nat, taken: nat) {
    && taken <= |s| && AllHex(s[..taken])
    && value == Value(s[..taken], 16) < Modulus(w)
    && (taken > 0 ==> value / 16 < HexLimit(w))
    && ok == (taken == |s|)
    && (taken < |s| ==> !HexDigit(s[taken]) || value >= HexLimit(w))
  }

  // Lower-case letters are mapped to upper case before the test.
  function Upper(c: char): char { if 'a' <= c <= 'z' then c - ('a' - 'A') else c }

  lemma UpperIsHex(c: char)
    ensures HexDigit(c) <==> Digit(Upper(c)) || 'A' <= Upper(c) <= 'F'
    ensures HexDigit(c) ==> DigitValue(c) == DigitValue(Upper(c)) < 16
  {
  }

  function Shifted(acc: nat, digit: nat, w: Width): nat {
    (acc * 16 % Modulus(w) + digit) % Modulus(w)
  }

  /** Hexadecimal parsing. */
  method ParseHex(s: string, w: Width) returns (ok: bool, value: nat, ghost taken: nat)
    ensures HexParse(s, w, ok, value, taken)
    ensures ok <==> AllHex(s) && (s == [] || Value(s, 16) < 16 * HexLimit(w))
    ensures ok ==> value == Value(s, 16) < Modulus(w)
  {
    var i := 0;
    ok, value, taken := true, 0, 0;
    while i < |s| && ok
      invariant taken == i <= |s|
      invariant ok ==> AllHex(s[..i]) && value == Value(s[..i], 16) < Modulus(w) && (i > 0 ==> value / 16 < HexLimit(w))
      invariant !ok ==> HexParse(s, w, ok, value, taken)
      decreases |s| - i, ok
    {
      var ch := Upper(s[i]);
      UpperIsHex(s[i]);
      if Digit(ch) || 'A' <= ch <= 'F' {
        if value < HexLimit(w) {
          AppendHex(s, i);
          HexStep(value, DigitValue(ch), w);
          value := Shifted(value, DigitValue(ch), w);
          i := i + 1;
          taken := i;
        } else {
          ok := false;
        }
      } else {
        ok := false;
      }
    }
    if ok { assert s[..i] == s; }
    HexParseExact(s, w, ok, value, taken);
  }

  lemma HexStep(acc: nat, digit: nat, w: Width)
    requires acc < HexLimit(w) && digit < 16
    ensures Shifted(acc, digit, w) == acc * 16 + digit < Modulus(w)
    ensures (acc * 16 + digit) / 16 == acc
  {
    Small(acc * 16, Modulus(w));
    Small(acc * 16 + digit, Modulus(w));
  }

  lemma AppendHex(s: string, i: nat)
    requires i < |s| && AllHex(s[..i]) && HexDigit(s[i])
    ensures AllHex(s[..i + 1])
    ensures Value(s[..i + 1], 16) == Value(s[..i], 16) * 16 + DigitValue(s[i])
  {
    assert forall k :: 0 <= k < i ==> s[..i + 1][k] == s[..i][k];
    ValueSnoc(s, i, 16);
  }

  /** Hexadecimal parsing is sound, and complete exactly below 16 times the limit, that
      is for values under half the range less sixteen. */
  lemma {:induction false} HexParseExact(s: string, w: Width, ok: bool, value: nat, taken: nat)
    requires HexParse(s, w, ok, value, taken)
    ensures ok <==> AllHex(s) && (s == [] || Value(s, 16) < 16 * HexLimit(w))
    ensures ok ==> value == Value(s, 16) < Modulus(w)
  {
    if ok {
      assert s[..taken] == s;
    } else if AllHex(s) {
      assert HexDigit(s[taken]);
      ValueGrows(s, taken + 1, 16);
      ValueSnoc(s, taken, 16);
    }
  }

  // ----- every value can be written -----

  function DigitChar(d: nat): (c: char)
    requires d < 16
    ensures HexDigit(c) && DigitValue(c) == d && (d < 10 ==> Digit(c))
  {
    if d < 10 then '0' + d as char else 'A' + (d - 10) as char
  }

  function Numeral(v: nat, base: nat): string
    requires 2 <= base <= 16
    decreases v
  {
    if v < base then [DigitChar(v)]
    else Shrinks(v, base); Numeral(v / base, base) + [DigitChar(v % base)]
  }

  lemma Shrinks(v: nat, base: nat)
    requires 2 <= base <= v
    ensures 0 <= v / base < v && v / base * base + v % base == v
  {
    var q := v / base;
    assert q * base + v % base == v;
    if q >= 1 { Doubles(q, base); }
  }

  lemma Doubles(q: nat, base: nat)
    requires 2 <= base
    ensures q * base >= 2 * q
  {
  }

  /** Round trip: the numeral of a value denotes it. */
  lemma {:induction false} NumeralRoundTrip(v: nat, base: nat)
    requires 2 <= base <= 16
    ensures var s := Numeral(v, base);
            |s| > 0 && AllHex(s) && (base <= 10 ==> AllDigits(s)) && Value(s, base) == v
    decreases v
  {
    var s := Numeral(v, base);
    if v < base {
      assert s[..0] == "";
    } else {
      Shrinks(v, base);
      NumeralRoundTrip(v / base, base);
      var t := Numeral(v / base, base);
      assert s[..|s| - 1] == t && s[|s| - 1] == DigitChar(v % base);
      assert forall i :: 0 <= i < |s| - 1 ==> s[i] == t[i];
    }
  }

  /** Any parse of the decimal numeral of v succeeds exactly when v fits the width, and
      then returns v; any parse of its hexadecimal numeral succeeds only for v below
      sixteen times the limit. */
  lemma {:induction false} WhichValuesParse(v: nat, w: Width, ok: bool, value: nat, taken: nat)
    ensures DecimalParse(Numeral(v, 10), w, ok, value, taken) ==> ok == (v < Modulus(w)) && (ok ==> value == v)
    ensures HexParse(Numeral(v, 16), w, ok, value, taken) ==> ok == (v < 16 * HexLimit(w)) && (ok ==> value == v)
  {
    NumeralRoundTrip(v, 10);
    NumeralRoundTrip(v, 16);
    if DecimalParse(Numeral(v, 10), w, ok, value, taken) { DecimalParseExact(Numeral(v, 10), w, ok, value, taken); }
    if HexParse(Numeral(v, 16), w, ok, value, taken) { HexParseExact(Numeral(v, 16), w, ok, value, taken); }
  }

  // 0x80000000 fits 32 bits, and no parse of its hexadecimal numeral succeeds.
  lemma HexRefusesFittingValue(ok: bool, value: nat, taken: nat)
    requires HexParse(Numeral(0x8000_0000, 16), W32, ok, value, taken)
    ensures 0x8000_0000 < Modulus(W32) && !ok
  {
    WhichValuesParse(0x8000_0000, W32, ok, value, taken);
  }

  // ----- both -----

  predicate Prefixed(s: string) { |s| >= 2 && s[0] == '0' && (s[1] == 'x' || s[1] == 'X') }

  /** The entry point. */
  method ParseNumber(s: string, w: Width) returns (ok: bool, value: nat)
    ensures ok <==>
            if |s| >= 2 && s[0] == '0' && s[1] in {'x', 'X'} then
              |s| > 2 && AllHex(s[2..]) && Value(s[2..], 16) < 16 * HexLimit(w)
            else AllDigits(s) && AllHex(s) && Value(s, 10) < Modulus(w)
    ensures ok ==> value == if |s| >= 2 && s[0] == '0' && s[1] in {'x', 'X'} then Value(s[2..], 16) else Value(s, 10)
    ensures ok ==> value < Modulus(w)
  {
    ghost var taken;
    if Prefixed(s) {
      if |s| == 2 {
        ok, value := false, 0;
      } else {
        ok, value, taken := ParseHex(s[2..], w);
      }
    } else {
      ok, value, taken := ParseDecimal(s, w);
    }
  }
}
