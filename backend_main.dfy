/**
 * The argument handling of backend/src/main.rs: the fourth command-line
 * argument is the debounce window in milliseconds, parsed with Rust's
 * `str::parse::<u64>()` and defaulting to 150 when it is missing or does not
 * parse.
 */
module BackendMain {
  import opened Wrappers
  import Text

  const DefaultDebounceMs: nat := 150
  const U64Limit: nat := 0x1_0000_0000_0000_0000

  /**
   * `s.parse::<u64>()`: an optional leading '+', then at least one decimal
   * digit (leading zeros allowed), with a value that fits in 64 bits.
   */
  function ParseU64(s: string): (r: Option<nat>)
    ensures r.Some? ==> r.value < U64Limit
  {
    var digits := Unsigned(s);
    if |digits| == 0 || !Text.AllDigits(digits) then None
    else if Text.DecimalValue(digits) < U64Limit then Some(Text.DecimalValue(digits))
    else None
  }

  /** `env::args().nth(4).map(|s| s.parse().unwrap_or(150)).unwrap_or(150)`. */
  function DebounceArg(arg: Option<string>): (ms: nat)
    ensures ms < U64Limit
  {
    match arg
    case None => DefaultDebounceMs
    case Some(s) => ParseU64(s).GetOr(DefaultDebounceMs)
  }

  /** Every number in range, written in decimal with or without '+', parses to itself. */
  lemma ParseRendering(n: nat)
    requires n < U64Limit
    ensures ParseU64(Text.NatToDecimal(n)) == Some(n)
    ensures ParseU64("+" + Text.NatToDecimal(n)) == Some(n)
  {
    Text.DecimalRoundTrip(n);
    var s := Text.NatToDecimal(n);
    assert ("+" + s)[1..] == s;
  }

  /** `n` in decimal, after some leading zeros and an optional '+'. */
  ghost predicate PaddedDecimal(s: string, n: nat) {
    exists k: nat :: s == Text.Zeros(k) + Text.NatToDecimal(n) || s == "+" + Text.Zeros(k) + Text.NatToDecimal(n)
  }

  /**
   * The strings `parse::<u64>()` maps to `n` are exactly the optional '+',
   * any number of leading zeros, and then `n` in decimal, for `n` below 2^64.
   */
  lemma ParseU64Iff(s: string, n: nat)
    ensures ParseU64(s) == Some(n) <==> n < U64Limit && PaddedDecimal(s, n)
  {
    if ParseU64(s) == Some(n) {
      ParsedIsPadded(s, n);
    }
    if n < U64Limit && PaddedDecimal(s, n) {
      var k: nat :| s == Text.Zeros(k) + Text.NatToDecimal(n) || s == "+" + Text.Zeros(k) + Text.NatToDecimal(n);
      PaddedParses(s, k, n);
    }
  }

  lemma ParsedIsPadded(s: string, n: nat)
    requires ParseU64(s) == Some(n)
    ensures PaddedDecimal(s, n)
  {
    var digits := Unsigned(s);
    ParsedDigits(s, n);
    Text.DigitsCanonical(digits);
    var k: nat :| digits == Text.Zeros(k) + Text.NatToDecimal(n);
    if |s| > 0 && s[0] == '+' {
      assert s == "+" + digits;
    }
    PaddedWitness(s, k, n);
  }

  /** `s` without its leading '+', if it has one. */
  function Unsigned(s: string): string {
    if |s| > 0 && s[0] == '+' then s[1..] else s
  }

  lemma ParsedDigits(s: string, n: nat)
    requires ParseU64(s) == Some(n)
    ensures Text.AllDigits(Unsigned(s)) && |Unsigned(s)| >= 1 && Text.DecimalValue(Unsigned(s)) == n
  {
  }

  lemma PaddedWitness(s: string, k: nat, n: nat)
    requires s == Text.Zeros(k) + Text.NatToDecimal(n) || s == "+" + Text.Zeros(k) + Text.NatToDecimal(n)
    ensures PaddedDecimal(s, n)
  {
  }

  lemma PaddedParses(s: string, k: nat, n: nat)
    requires n < U64Limit
    requires s == Text.Zeros(k) + Text.NatToDecimal(n) || s == "+" + Text.Zeros(k) + Text.NatToDecimal(n)
    ensures ParseU64(s) == Some(n)
  {
    var body := Text.Zeros(k) + Text.NatToDecimal(n);
    PaddedDigits(k, n);
    if s != body {
      assert s[1..] == body;
    }
  }

  lemma PaddedDigits(k: nat, n: nat)
    ensures var body := Text.Zeros(k) + Text.NatToDecimal(n);
      |body| > 0 && Text.AllDigits(body) && body[0] != '+' && Text.DecimalValue(body) == n
  {
    var body := Text.Zeros(k) + Text.NatToDecimal(n);
    Text.ZerosValue(k, Text.NatToDecimal(n));
    Text.DecimalRoundTrip(n);
    assert Text.IsDigit(body[0]);
  }

  /** A rejected string: it is empty after the sign, holds a non-digit, or is out of range. */
  lemma ParseRejects(s: string)
    ensures var digits := Unsigned(s);
      ParseU64(s) == None <==>
        |digits| == 0 || (exists i :: 0 <= i < |digits| && !Text.IsDigit(digits[i]))
        || Text.DecimalValue(digits) >= U64Limit
  {
  }

  /** A leading '-' is never accepted for an unsigned type, not even "-0". */
  lemma MinusRejected(s: string)
    requires |s| > 0 && s[0] == '-'
    ensures ParseU64(s) == None
  {
    assert !Text.IsDigit(s[0]);
  }

  /** The window is 150 ms when the argument is missing or does not parse, and the parsed value otherwise. */
  lemma DebounceDefaults(arg: Option<string>)
    ensures arg.None? ==> DebounceArg(arg) == 150
    ensures arg.Some? && ParseU64(arg.value).None? ==> DebounceArg(arg) == 150
    ensures arg.Some? && ParseU64(arg.value).Some? ==> DebounceArg(arg) == ParseU64(arg.value).value
  {
  }

  /** Given as a decimal number in range, the window is that number. */
  lemma DebounceRoundTrip(n: nat)
    requires n < U64Limit
    ensures DebounceArg(Some(Text.NatToDecimal(n))) == n
  {
    ParseRendering(n);
  }

  /** Examples: the empty string, a negative number and "1e3" fall back to 150; "0200" is 200. */
  lemma DebounceExamples()
    ensures DebounceArg(Some("")) == 150
    ensures DebounceArg(Some("-5")) == 150
    ensures DebounceArg(Some("1e3")) == 150
    ensures DebounceArg(Some("0200")) == 200
  {
    assert !Text.IsDigit("1e3"[1]);
    assert "0200"[..3] == "020" && "020"[..2] == "02" && "02"[..1] == "0" && "0"[..0] == "";
  }
}
