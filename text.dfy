/**
 * String helpers shared by the model: the whitespace sets of ECMAScript's
 * `String.prototype.trim` and Rust's `str::trim`, splitting and joining on one
 * separator character (`String.prototype.split` with a one-character string),
 * `str::trim_end_matches` for one character, and decimal digits.
 */
module Text {

  // ---------------------------------------------------------------- whitespace

  /** WhiteSpace and LineTerminator code points of ECMAScript (what `trim` removes). */
  predicate IsJsSpace(c: char) {
    c == '\t' || c == '\n' || c == '\U{000B}' || c == '\U{000C}' || c == '\r' || c == ' '
    || c == '\U{00A0}' || c == '\U{1680}' || ('\U{2000}' <= c <= '\U{200A}')
    || c == '\U{2028}' || c == '\U{2029}' || c == '\U{202F}' || c == '\U{205F}'
    || c == '\U{3000}' || c == '\U{FEFF}'
  }

  /** Unicode White_Space code points (what Rust's `str::trim` removes). */
  predicate IsRustSpace(c: char) {
    ('\t' <= c <= '\r') || c == ' ' || c == '\U{0085}' || c == '\U{00A0}' || c == '\U{1680}'
    || ('\U{2000}' <= c <= '\U{200A}') || c == '\U{2028}' || c == '\U{2029}'
    || c == '\U{202F}' || c == '\U{205F}' || c == '\U{3000}'
  }

  predicate AllOf(s: string, sp: char -> bool) {
    forall i :: 0 <= i < |s| ==> sp(s[i])
  }

  /** Drops the leading characters that satisfy `sp`. */
  function TrimStart(s: string, sp: char -> bool): (r: string)
    ensures |r| <= |s| && r == s[|s| - |r|..]
    ensures forall i :: 0 <= i < |s| - |r| ==> sp(s[i])
    ensures |r| > 0 ==> !sp(s[|s| - |r|])
  {
    if |s| > 0 && sp(s[0]) then TrimStart(s[1..], sp) else s
  }

  /** Drops the trailing characters that satisfy `sp`. */
  function TrimEnd(s: string, sp: char -> bool): (r: string)
    ensures |r| <= |s| && r == s[..|r|]
    ensures forall i :: |r| <= i < |s| ==> sp(s[i])
    ensures |r| > 0 ==> !sp(s[|r| - 1])
  {
    if |s| > 0 && sp(s[|s| - 1]) then TrimEnd(s[..|s| - 1], sp) else s
  }

  function Trim(s: string, sp: char -> bool): string {
    TrimEnd(TrimStart(s, sp), sp)
  }

  /** `s.trim()` in ECMAScript. */
  function JsTrim(s: string): string { Trim(s, IsJsSpace) }

  /** `s.trim()` in Rust. */
  function RustTrim(s: string): string { Trim(s, IsRustSpace) }

  /** A string trims to the empty string exactly when it is all whitespace. */
  lemma TrimEmptyIff(s: string, sp: char -> bool)
    ensures Trim(s, sp) == [] <==> AllOf(s, sp)
  {
  }

  /**
   * A string trims to the one-character string [c] (c not whitespace) exactly
   * when c occurs at some position and every other character is whitespace.
   */
  lemma TrimSingleIff(s: string, sp: char -> bool, c: char)
    requires !sp(c)
    ensures Trim(s, sp) == [c] <==>
      exists k :: 0 <= k < |s| && s[k] == c && AllOf(s[..k], sp) && AllOf(s[k + 1..], sp)
  {
    if exists k :: 0 <= k < |s| && s[k] == c && AllOf(s[..k], sp) && AllOf(s[k + 1..], sp) {
      var k :| 0 <= k < |s| && s[k] == c && AllOf(s[..k], sp) && AllOf(s[k + 1..], sp);
      TrimSingleFrom(s, sp, c, k);
    }
    if Trim(s, sp) == [c] {
      TrimSingleTo(s, sp, c);
    }
  }

  lemma TrimSingleTo(s: string, sp: char -> bool, c: char)
    requires !sp(c) && Trim(s, sp) == [c]
    ensures exists k :: 0 <= k < |s| && s[k] == c && AllOf(s[..k], sp) && AllOf(s[k + 1..], sp)
  {
    var a := TrimStart(s, sp);
    var k := |s| - |a|;
    assert s[k] == a[0];
    forall i | k + 1 <= i < |s| ensures sp(s[i]) {
      assert s[i] == a[i - k];
    }
    assert AllOf(s[k + 1..], sp);
  }

  lemma TrimSingleFrom(s: string, sp: char -> bool, c: char, k: nat)
    requires !sp(c) && k < |s| && s[k] == c && AllOf(s[..k], sp) && AllOf(s[k + 1..], sp)
    ensures Trim(s, sp) == [c]
  {
    forall i | 0 <= i < k ensures sp(s[i]) {
      assert s[i] == s[..k][i];
    }
    forall i | k + 1 <= i < |s| ensures sp(s[i]) {
      assert s[i] == s[k + 1..][i - k - 1];
    }
    var a := TrimStart(s, sp);
    assert |s| - |a| <= k;
    assert |s| - |a| == k;
    assert a[0] == c;
    forall i | 1 <= i < |a| ensures sp(a[i]) {
      assert a[i] == s[k + i];
    }
    var r := TrimEnd(a, sp);
    assert |r| >= 1;
    assert |r| <= 1;
    assert r == [a[0]];
  }

  // ---------------------------------------------------------------- split and join

  /** `s.split(sep)` for a one-character separator: always at least one segment. */
  function Split(s: string, sep: char): (parts: seq<string>)
    ensures |parts| >= 1
    ensures forall i :: 0 <= i < |parts| ==> sep !in parts[i]
  {
    if s == [] then [[]]
    else
      var rest := Split(s[1..], sep);
      if s[0] == sep then [[]] + rest
      else [[s[0]] + rest[0]] + rest[1..]
  }

  /** `parts.join(sep)`. */
  function Join(parts: seq<string>, sep: char): string {
    if |parts| == 0 then []
    else if |parts| == 1 then parts[0]
    else parts[0] + [sep] + Join(parts[1..], sep)
  }

  lemma {:induction false} SplitNoSep(s: string, sep: char)
    requires sep !in s
    ensures Split(s, sep) == [s]
  {
    if s != [] {
      SplitNoSep(s[1..], sep);
      assert [s[0]] + s[1..] == s;
    }
  }

  /** Splitting around one separator splits each side independently. */
  lemma {:induction false} SplitAround(a: string, b: string, sep: char)
    ensures Split(a + [sep] + b, sep) == Split(a, sep) + Split(b, sep)
  {
    if a == [] {
      assert a + [sep] + b == [sep] + b;
      assert ([sep] + b)[1..] == b;
    } else {
      assert (a + [sep] + b)[1..] == a[1..] + [sep] + b;
      SplitAround(a[1..], b, sep);
    }
  }

  /** Splitting a joined list of separator-free parts gives the parts back. */
  lemma {:induction false} SplitJoin(parts: seq<string>, sep: char)
    requires |parts| >= 1
    requires forall i :: 0 <= i < |parts| ==> sep !in parts[i]
    ensures Split(Join(parts, sep), sep) == parts
  {
    if |parts| == 1 {
      SplitNoSep(parts[0], sep);
    } else {
      SplitJoin(parts[1..], sep);
      SplitNoSep(parts[0], sep);
      SplitAround(parts[0], Join(parts[1..], sep), sep);
    }
  }

  /** Joining the segments of a split gives the original string back. */
  lemma {:induction false} JoinSplit(s: string, sep: char)
    ensures Join(Split(s, sep), sep) == s
  {
    if s != [] {
      var rest := Split(s[1..], sep);
      JoinSplit(s[1..], sep);
      if s[0] == sep {
        assert Split(s, sep)[1..] == rest;
      } else {
        var parts := Split(s, sep);
        if |rest| == 1 {
          assert parts == [[s[0]] + rest[0]];
        } else {
          assert parts[1..] == rest[1..];
          assert Join(rest, sep) == rest[0] + [sep] + Join(rest[1..], sep);
        }
      }
    }
  }

  /** A join splits at any inner boundary. */
  lemma {:induction false} JoinAt(parts: seq<string>, sep: char, k: nat)
    requires 1 <= k < |parts|
    ensures Join(parts, sep) == Join(parts[..k], sep) + [sep] + Join(parts[k..], sep)
  {
    if k == 1 {
      assert parts[..1] == [parts[0]];
    } else {
      JoinAt(parts[1..], sep, k - 1);
      assert parts[1..][..k - 1] == parts[..k][1..];
      assert parts[1..][k - 1..] == parts[k..];
    }
  }

  // ---------------------------------------------------------------- trim_end_matches

  /** `s.trim_end_matches(c)` for one character: every trailing `c` removed. */
  function TrimEndChar(s: string, c: char): (r: string)
    ensures |r| <= |s| && r == s[..|r|]
    ensures forall i :: |r| <= i < |s| ==> s[i] == c
    ensures r == [] || r[|r| - 1] != c
  {
    if |s| > 0 && s[|s| - 1] == c then TrimEndChar(s[..|s| - 1], c) else s
  }

  // ---------------------------------------------------------------- decimal digits

  predicate IsDigit(c: char) { '0' <= c <= '9' }

  predicate AllDigits(s: string) { forall i :: 0 <= i < |s| ==> IsDigit(s[i]) }

  function DigitChar(d: nat): (c: char)
    requires d < 10
    ensures IsDigit(c)
  {
    ['0', '1', '2', '3', '4', '5', '6', '7', '8', '9'][d]
  }

  function DigitValue(c: char): (d: nat)
    requires IsDigit(c)
    ensures d < 10
  {
    c as int - '0' as int
  }

  lemma DigitValueOfChar(d: nat)
    requires d < 10
    ensures DigitValue(DigitChar(d)) == d
  {
  }

  /** The decimal rendering of a natural number, without leading zeros. */
  function NatToDecimal(n: nat): (s: string)
    ensures |s| >= 1 && AllDigits(s)
  {
    if n < 10 then [DigitChar(n)] else NatToDecimal(n / 10) + [DigitChar(n % 10)]
  }

  /** The number a string of decimal digits denotes (leading zeros allowed). */
  function DecimalValue(s: string): nat
    requires AllDigits(s)
  {
    if s == [] then 0 else DecimalValue(s[..|s| - 1]) * 10 + DigitValue(s[|s| - 1])
  }

  lemma {:induction false} DecimalRoundTrip(n: nat)
    ensures DecimalValue(NatToDecimal(n)) == n
  {
    DigitValueOfChar(n % 10);
    if n >= 10 {
      var s := NatToDecimal(n);
      assert s[..|s| - 1] == NatToDecimal(n / 10);
      DecimalRoundTrip(n / 10);
    }
  }

  /** Leading zeros do not change the value of a digit string. */
  lemma {:induction false} DecimalLeadingZero(s: string)
    requires AllDigits(s)
    ensures AllDigits("0" + s) && DecimalValue("0" + s) == DecimalValue(s)
  {
    if s != [] {
      assert ("0" + s)[..|"0" + s| - 1] == "0" + s[..|s| - 1];
      DecimalLeadingZero(s[..|s| - 1]);
    }
  }

  /** `k` zero digits. */
  function Zeros(k: nat): (z: string)
    ensures |z| == k && AllDigits(z)
  {
    if k == 0 then "" else "0" + Zeros(k - 1)
  }

  /** Any number of leading zeros leaves the value of a digit string unchanged. */
  lemma {:induction false} ZerosValue(k: nat, s: string)
    requires AllDigits(s)
    ensures AllDigits(Zeros(k) + s) && DecimalValue(Zeros(k) + s) == DecimalValue(s)
  {
    if k > 0 {
      ZerosValue(k - 1, s);
      assert Zeros(k) + s == "0" + (Zeros(k - 1) + s);
      DecimalLeadingZero(Zeros(k - 1) + s);
    } else {
      assert Zeros(k) + s == s;
    }
  }

  lemma DigitCharOfValue(c: char)
    requires IsDigit(c)
    ensures DigitChar(DigitValue(c)) == c
  {
  }

  /** A digit string that does not start with '0' denotes a positive number. */
  lemma {:induction false} PositiveWithoutLeadingZero(s: string)
    requires AllDigits(s) && |s| >= 1 && s[0] != '0'
    ensures DecimalValue(s) >= 1
  {
    if |s| > 1 {
      PositiveWithoutLeadingZero(s[..|s| - 1]);
    }
  }

  /** A digit string without a leading zero (or the single digit "0") is the rendering of its value. */
  lemma {:induction false} CanonicalDecimal(r: string)
    requires AllDigits(r) && |r| >= 1 && (|r| == 1 || r[0] != '0')
    ensures NatToDecimal(DecimalValue(r)) == r
  {
    var c := r[|r| - 1];
    DigitCharOfValue(c);
    if |r| == 1 {
      assert r[..0] == [];
      assert r == [c];
    } else {
      var init := r[..|r| - 1];
      PositiveWithoutLeadingZero(init);
      CanonicalDecimal(init);
      var v := DecimalValue(r);
      assert v == DecimalValue(init) * 10 + DigitValue(c);
      assert v / 10 == DecimalValue(init) && v % 10 == DigitValue(c);
      assert r == init + [c];
    }
  }

  /** Every non-empty digit string is some zeros followed by the rendering of its value. */
  lemma {:induction false} DigitsCanonical(s: string)
    requires AllDigits(s) && |s| >= 1
    ensures exists k: nat :: s == Zeros(k) + NatToDecimal(DecimalValue(s))
  {
    if |s| == 1 || s[0] != '0' {
      CanonicalDecimal(s);
      assert s == Zeros(0) + NatToDecimal(DecimalValue(s));
    } else {
      var t := s[1..];
      DigitsCanonical(t);
      var k: nat :| t == Zeros(k) + NatToDecimal(DecimalValue(t));
      var d := NatToDecimal(DecimalValue(t));
      assert s == "0" + t;
      DecimalLeadingZero(t);
      assert DecimalValue(s) == DecimalValue(t);
      assert Zeros(k + 1) == "0" + Zeros(k);
      assert s == Zeros(k + 1) + d by {
        assert "0" + (Zeros(k) + d) == ("0" + Zeros(k)) + d;
      }
    }
  }

  /** The value of a concatenation of digit strings. */
  lemma {:induction false} DecimalConcat(a: string, b: string)
    requires AllDigits(a) && AllDigits(b)
    ensures AllDigits(a + b)
    ensures DecimalValue(a + b) == DecimalValue(a) * Pow10(|b|) + DecimalValue(b)
  {
    if b != [] {
      var ab := a + b;
      var init := b[..|b| - 1];
      var d := DigitValue(b[|b| - 1]);
      assert ab[..|ab| - 1] == a + init;
      assert ab[|ab| - 1] == b[|b| - 1];
      DecimalConcat(a, init);
      var va, vi, p := DecimalValue(a), DecimalValue(init), Pow10(|init|);
      assert DecimalValue(ab) == DecimalValue(a + init) * 10 + d;
      assert DecimalValue(b) == vi * 10 + d;
      assert Pow10(|b|) == p * 10;
      ShiftDigit(DecimalValue(ab), DecimalValue(a + init), va, p, vi, d, DecimalValue(b), Pow10(|b|));
    } else {
      assert a + b == a;
    }
  }

  lemma ShiftDigit(vab: int, vai: int, va: int, p: int, vi: int, d: int, vb: int, pb: int)
    requires vab == vai * 10 + d && vai == va * p + vi
    requires vb == vi * 10 + d && pb == p * 10
    ensures vab == va * pb + vb
  {
    calc {
      vab;
      (va * p + vi) * 10 + d;
      va * p * 10 + vi * 10 + d;
      va * (p * 10) + (vi * 10 + d);
    }
  }

  /** The rendering has k digits exactly when 10^(k-1) <= n < 10^k. */
  lemma {:induction false} DecimalLength(n: nat, k: nat)
    requires 1 <= k && (k == 1 || Pow10(k - 1) <= n) && n < Pow10(k)
    ensures |NatToDecimal(n)| == k
  {
    if k > 1 {
      DecimalLength(n / 10, k - 1);
    }
  }

  function Pow10(k: nat): (p: nat)
    ensures p >= 1
  {
    if k == 0 then 1 else 10 * Pow10(k - 1)
  }

  /** `String(i)` in ECMAScript for an integer value. */
  function IntToString(i: int): string {
    if i < 0 then "-" + NatToDecimal(-i) else NatToDecimal(i)
  }

  /** `s.padStart(2, '0')`. */
  function PadStart2(s: string): (r: string)
    ensures |r| == if |s| >= 2 then |s| else 2
  {
    if |s| >= 2 then s else if |s| == 1 then "0" + s else "00"
  }
}
