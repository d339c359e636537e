/** The parts of Go's strconv package the core relies on: decimal rendering
    (Itoa), decimal parsing with 64-bit range checks (Atoi) and ParseBool.
    Strings are sequences of characters, one character per byte. */
module Strconv {

  const MaxUint64: int := 0xFFFF_FFFF_FFFF_FFFF
  const MaxInt64: int := 0x7FFF_FFFF_FFFF_FFFF
  const MinInt64: int := -0x8000_0000_0000_0000

  predicate IsDigit(c: char) {
    '0' <= c <= '9'
  }

  function DigitValue(c: char): (d: nat)
    requires IsDigit(c)
    ensures d < 10
  {
    (c - '0') as nat
  }

  function DigitChar(d: nat): (c: char)
    requires d < 10
    ensures IsDigit(c) && DigitValue(c) == d
  {
    ('0' as int + d) as char
  }

  predicate AllDigits(s: string) {
    forall i :: 0 <= i < |s| ==> IsDigit(s[i])
  }

  /** The shortest decimal rendering of a natural number. */
  function NatToDecimal(n: nat): (s: string)
    ensures |s| >= 1 && AllDigits(s)
    ensures (|s| == 1) == (n < 10)
    ensures s[0] == '0' ==> n == 0
    decreases n
  {
    if n < 10 then [DigitChar(n)] else NatToDecimal(n / 10) + [DigitChar(n % 10)]
  }

  /** strconv.Itoa: an optional minus sign followed by the decimal digits. */
  function Itoa(i: int): (s: string)
    ensures |s| >= 1
    ensures i < 0 <==> s[0] == '-'
    ensures i >= 0 ==> AllDigits(s)
  {
    if i < 0 then "-" + NatToDecimal(-i) else NatToDecimal(i)
  }

  lemma {:induction false} NatToDecimalInjective(a: nat, b: nat)
    requires NatToDecimal(a) == NatToDecimal(b)
    ensures a == b
    decreases a
  {
    var s := NatToDecimal(a);
    if a >= 10 && b >= 10 {
      assert NatToDecimal(a / 10) == s[..|s| - 1] == NatToDecimal(b / 10);
      NatToDecimalInjective(a / 10, b / 10);
      assert DigitValue(s[|s| - 1]) == a % 10 == b % 10;
    } else if a < 10 && b < 10 {
      assert DigitValue(s[0]) == a == b;
    }
  }

  /** Distinct integers render to distinct strings. */
  lemma ItoaInjective(a: int, b: int)
    requires a != b
    ensures Itoa(a) != Itoa(b)
  {
    if Itoa(a) == Itoa(b) {
      if a < 0 {
        assert Itoa(a)[1..] == NatToDecimal(-a) && Itoa(b)[1..] == NatToDecimal(-b);
        NatToDecimalInjective(-a, -b);
      } else {
        NatToDecimalInjective(a, b);
      }
    }
  }

  /** The outcome of strconv.ParseUint's digit loop in base 10. */
  datatype Scan = Value(n: nat) | BadDigit | Overflow

  /** ParseUint's loop: digits left to right; a non-digit is a syntax error and
      a value past 2^64-1 stops the scan at once with a range error, whatever follows. */
  function ScanDigits(s: string, acc: nat): (r: Scan)
    requires acc <= MaxUint64
    ensures r.Value? ==> r.n <= MaxUint64
    ensures r.Value? ==> AllDigits(s)
    decreases |s|
  {
    if s == [] then Value(acc)
    else if !IsDigit(s[0]) then BadDigit
    else
      var n := acc * 10 + DigitValue(s[0]);
      if n > MaxUint64 then Overflow else ScanDigits(s[1..], n)
  }

  /** The accumulator never shrinks while digits are consumed, and a run of
      digits never stops on a syntax error. */
  lemma {:induction false} ScanDigitsGrows(s: string, acc: nat)
    requires acc <= MaxUint64
    ensures ScanDigits(s, acc).Value? ==> ScanDigits(s, acc).n >= acc
    ensures AllDigits(s) ==> !ScanDigits(s, acc).BadDigit?
    decreases |s|
  {
    if s != [] && IsDigit(s[0]) && acc * 10 + DigitValue(s[0]) <= MaxUint64 {
      ScanDigitsGrows(s[1..], acc * 10 + DigitValue(s[0]));
      assert AllDigits(s) ==> AllDigits(s[1..]);
    }
  }

  /** The text after an optional leading sign. */
  function Body(s: string): (b: string)
    ensures |b| <= |s|
  {
    if s != [] && (s[0] == '+' || s[0] == '-') then s[1..] else s
  }

  /** strconv.Atoi on a 64-bit platform, as (value, ok). An empty body (empty
      text or a lone sign) and a digit scan that stops on a non-digit are
      syntax errors and give (0, false); a scan that runs past the uint64
      range, or a value outside the int64 range, is a range error and gives
      that side's bound with ok == false. */
  function Atoi(s: string): (r: (int, bool))
    ensures MinInt64 <= r.0 <= MaxInt64
    ensures !r.1 ==> r.0 == 0 || r.0 == MaxInt64 || r.0 == MinInt64
    ensures r.1 ==> |s| > 0 && AllDigits(Body(s))
    ensures Body(s) == [] || ScanDigits(Body(s), 0).BadDigit? ==> r == (0, false)
    ensures Body(s) != [] && ScanDigits(Body(s), 0).Overflow? ==> r == (if s[0] == '-' then MinInt64 else MaxInt64, false)
  {
    if s == [] then (0, false)
    else
      var neg := s[0] == '-';
      var body := Body(s);
      if body == [] then (0, false)
      else
        match ScanDigits(body, 0)
        case BadDigit => (0, false)
        case Overflow => if neg then (MinInt64, false) else (MaxInt64, false)
        case Value(u) =>
          if !neg && u > MaxInt64 then (MaxInt64, false)
          else if neg && u > -MinInt64 then (MinInt64, false)
          else (if neg then -(u as int) else u as int, true)
  }

  function Pow10(k: nat): (p: nat)
    ensures p >= 1
  {
    if k == 0 then 1 else 10 * Pow10(k - 1)
  }

  /** A non-digit within reach of the scan: with `acc` small enough that the
      digits before position k cannot pass the uint64 range, the scan stops
      on a syntax error. */
  lemma {:induction false} ScanStopsAtNonDigit(s: string, acc: nat, k: nat)
    requires acc <= MaxUint64 && k < |s| && !IsDigit(s[k])
    requires (acc + 1) * Pow10(k) <= MaxUint64 + 1
    ensures ScanDigits(s, acc).BadDigit?
    decreases k
  {
    if IsDigit(s[0]) {
      var n := acc * 10 + DigitValue(s[0]);
      assert k > 0;
      assert Pow10(k) == 10 * Pow10(k - 1);
      assert n + 1 <= (acc + 1) * 10;
      assert (n + 1) * Pow10(k - 1) <= (acc + 1) * 10 * Pow10(k - 1);
      assert n <= MaxUint64;
      assert s[1..][k - 1] == s[k];
      ScanStopsAtNonDigit(s[1..], n, k - 1);
    }
  }

  /** Any text with a non-digit among the first twenty characters after its
      sign is a syntax error: nineteen digits cannot leave the uint64 range. */
  lemma SyntaxErrorGivesZero(s: string, k: nat)
    requires k < |Body(s)| && k < 20 && !IsDigit(Body(s)[k])
    ensures Atoi(s) == (0, false)
  {
    Pow10Monotone(k, 19);
    assert Pow10(5) == 100000;
    assert Pow10(10) == 10000000000;
    assert Pow10(15) == 1000000000000000;
    assert Pow10(19) == 10000000000000000000;
    ScanStopsAtNonDigit(Body(s), 0, k);
  }

  lemma {:induction false} Pow10Monotone(a: nat, b: nat)
    requires a <= b
    ensures Pow10(a) <= Pow10(b)
    decreases b
  {
    if a < b {
      Pow10Monotone(a, b - 1);
    }
  }

  lemma {:induction false} ScanDigitsSnoc(a: string, c: char, acc: nat)
    requires acc <= MaxUint64
    ensures ScanDigits(a + [c], acc) ==
      match ScanDigits(a, acc)
      case Value(m) =>
        if !IsDigit(c) then BadDigit
        else if m * 10 + DigitValue(c) > MaxUint64 then Overflow
        else Value(m * 10 + DigitValue(c))
      case other => other
    decreases |a|
  {
    if a == [] {
      assert a + [c] == [c];
      assert [c][1..] == [];
    } else {
      assert (a + [c])[0] == a[0];
      assert (a + [c])[1..] == a[1..] + [c];
      if IsDigit(a[0]) && acc * 10 + DigitValue(a[0]) <= MaxUint64 {
        ScanDigitsSnoc(a[1..], c, acc * 10 + DigitValue(a[0]));
      }
    }
  }

  lemma {:induction false} ScanNatToDecimal(n: nat)
    requires n <= MaxUint64
    ensures ScanDigits(NatToDecimal(n), 0) == Value(n)
    decreases n
  {
    if n < 10 {
      assert NatToDecimal(n)[1..] == [];
    } else {
      ScanNatToDecimal(n / 10);
      ScanDigitsSnoc(NatToDecimal(n / 10), DigitChar(n % 10), 0);
    }
  }

  /** Atoi undoes Itoa on the whole int64 range. */
  lemma AtoiItoa(n: int)
    requires MinInt64 <= n <= MaxInt64
    ensures Atoi(Itoa(n)) == (n, true)
  {
    if n < 0 {
      ScanNatToDecimal(-n);
      assert ("-" + NatToDecimal(-n))[1..] == NatToDecimal(-n);
    } else {
      ScanNatToDecimal(n);
    }
  }

  /** strconv.ParseBool, as (value, ok); on failure the value is false. */
  function ParseBool(s: string): (r: (bool, bool))
    ensures r.0 ==> r.1
    ensures r.1 ==> 1 <= |s| <= 5
    ensures r.0 <==> s in {"1", "t", "T", "TRUE", "true", "True"}
    ensures r.1 && !r.0 <==> s in {"0", "f", "F", "FALSE", "false", "False"}
  {
    if s in {"1", "t", "T", "TRUE", "true", "True"} then (true, true)
    else if s in {"0", "f", "F", "FALSE", "false", "False"} then (false, true)
    else (false, false)
  }
}
