/**
 * The parts of Go's `strconv` package that the configuration loader relies on:
 * `Atoi` (parse a decimal `int`) and `Itoa` (render an `int` in decimal).
 * Go's `int` is taken to be 64 bits wide, as on every 64-bit platform.
 */
module Strconv {
  import opened Wrappers

  const MinInt: int := -0x8000_0000_0000_0000
  const MaxInt: int := 0x7FFF_FFFF_FFFF_FFFF

  /** Go's `int` on a 64-bit platform. */
  type GoInt = x: int | MinInt <= x <= MaxInt

  /** The two failures `strconv.Atoi` distinguishes (`strconv.ErrSyntax`, `strconv.ErrRange`). */
  datatype NumError = ErrSyntax | ErrRange

  predicate IsDigit(c: char) {
    '0' <= c <= '9'
  }

  predicate AllDigits(s: string) {
    forall i :: 0 <= i < |s| ==> IsDigit(s[i])
  }

  function DigitValue(c: char): (d: nat)
    requires IsDigit(c)
    ensures d < 10
  {
    c as int - '0' as int
  }

  function DigitChar(d: nat): (c: char)
    requires d < 10
    ensures IsDigit(c) && DigitValue(c) == d
  {
    ('0' as int + d) as char
  }

  /** The number a string of decimal digits denotes, most significant digit first. */
  function DecimalValue(s: string): nat
    requires AllDigits(s)
  {
    if s == [] then 0 else DecimalValue(s[..|s| - 1]) * 10 + DigitValue(s[|s| - 1])
  }

  /** The shortest decimal rendering of a natural number (no leading zeros). */
  function NatToDecimal(n: nat): (s: string)
    ensures |s| >= 1 && AllDigits(s)
    ensures n > 0 ==> s[0] != '0'
    ensures |s| > 1 ==> n > 0
  {
    if n < 10 then [DigitChar(n)] else NatToDecimal(n / 10) + [DigitChar(n % 10)]
  }

  /**
   * `strconv.Itoa`: a minus sign for negative numbers, then the digits of the
   * magnitude, without leading zeros (`%d` renders the same text).
   */
  function Itoa(i: GoInt): (s: string)
    ensures |s| >= 1
    ensures (s[0] == '-') <==> i < 0
    ensures i < 0 ==> |s| >= 2 && AllDigits(s[1..]) && s[1] != '0'
    ensures i >= 0 ==> AllDigits(s) && (|s| > 1 ==> s[0] != '0')
  {
    if i < 0 then "-" + NatToDecimal(-(i as int)) else NatToDecimal(i)
  }

  /** The largest value `strconv.ParseUint` accepts for 64 bits. */
  const MaxUint64: int := 0xFFFF_FFFF_FFFF_FFFF

  /**
   * The digit loop of `strconv.ParseUint` for base 10 and 64 bits, which `Atoi`
   * reaches through `ParseInt`: it reads left to right with accumulator `acc` and
   * stops at the first byte that is not a digit (`ErrSyntax`) or at the first digit
   * that makes the accumulator exceed the 64-bit unsigned range (`ErrRange`),
   * whichever comes first.
   */
  function ScanDecimal(s: string, acc: nat): Result<nat, NumError>
    decreases |s|
  {
    if s == [] then Ok(acc)
    else if !IsDigit(s[0]) then Err(ErrSyntax)
    else
      var next := acc * 10 + DigitValue(s[0]);
      if next > MaxUint64 then Err(ErrRange) else ScanDecimal(s[1..], next)
  }

  /** The text after an optional leading sign. */
  function Unsigned(s: string): string {
    if s != [] && (s[0] == '-' || s[0] == '+') then s[1..] else s
  }

  /** An optional sign followed by one or more decimal digits. */
  predicate WellFormedInt(s: string) {
    Unsigned(s) != [] && AllDigits(Unsigned(s))
  }

  /** The integer a well-formed string denotes, before any range check. */
  function SignedValue(s: string): int
    requires WellFormedInt(s)
  {
    if s[0] == '-' then -(DecimalValue(Unsigned(s)) as int) else DecimalValue(Unsigned(s))
  }

  /**
   * `strconv.Atoi`: `ParseInt(s, 10, 0)`. After an optional `+` or `-`, the digits
   * are read by `ScanDecimal`; the unsigned result must then fit the signed range.
   * (`Atoi`'s fast path for strings of fewer than 19 bytes agrees, since so few
   * digits cannot overflow.) It accepts exactly the well-formed strings whose value
   * is an `int`, gives that value, and reports a well-formed out-of-range string as
   * a range error. A malformed string is a syntax error, unless the digits before
   * its first non-digit already overflow 64 bits, which is a range error.
   */
  function Atoi(s: string): (r: Result<GoInt, NumError>)
    ensures r.Ok? <==> WellFormedInt(s) && MinInt <= SignedValue(s) <= MaxInt
    ensures r.Ok? ==> r.value == SignedValue(s)
    ensures WellFormedInt(s) && !(MinInt <= SignedValue(s) <= MaxInt) ==> r == Err(ErrRange)
  {
    var body := Unsigned(s);
    if body == [] then Err(ErrSyntax)
    else
      AtoiScan(s);
      match ScanDecimal(body, 0)
      case Err(e) => Err(e)
      case Ok(u) =>
        if s[0] == '-' then
          if u <= -MinInt then Ok(-(u as int)) else Err(ErrRange)
        else
          if u <= MaxInt then Ok(u) else Err(ErrRange)
  }

  /** How the digit scan of a non-empty unsigned part relates to its decimal value. */
  lemma AtoiScan(s: string)
    requires Unsigned(s) != []
    ensures WellFormedInt(s) && DecimalValue(Unsigned(s)) <= MaxUint64 ==>
      ScanDecimal(Unsigned(s), 0) == Ok(DecimalValue(Unsigned(s)))
    ensures WellFormedInt(s) && DecimalValue(Unsigned(s)) > MaxUint64 ==>
      ScanDecimal(Unsigned(s), 0) == Err(ErrRange)
    ensures !WellFormedInt(s) ==> ScanDecimal(Unsigned(s), 0).Err?
  {
    var body := Unsigned(s);
    if AllDigits(body) {
      ScanPrefix(body, [], 0);
      assert body + [] == body;
    } else {
      ScanFailsOnNonDigit(body, 0);
    }
  }

  /** A scan over text that holds a non-digit fails. */
  lemma {:induction false} ScanFailsOnNonDigit(s: string, acc: nat)
    requires !AllDigits(s)
    ensures ScanDecimal(s, acc).Err?
    decreases |s|
  {
    if IsDigit(s[0]) {
      var next := acc * 10 + DigitValue(s[0]);
      if next <= MaxUint64 {
        assert !AllDigits(s[1..]) by {
          var i :| 0 <= i < |s| && !IsDigit(s[i]);
          assert i > 0 && s[1..][i - 1] == s[i];
        }
        ScanFailsOnNonDigit(s[1..], next);
      }
    }
  }

  /** The value of a digit string in terms of its first digit. */
  lemma {:induction false} DecimalValueCons(t: string)
    requires |t| >= 1 && AllDigits(t)
    ensures DecimalValue(t) == DigitValue(t[0]) * Pow10(|t| - 1) + DecimalValue(t[1..])
    decreases |t|
  {
    var n := |t|;
    if n == 1 {
      assert t[..0] == [] && t[1..] == [];
    } else {
      var front, tail := t[..n - 1], t[1..];
      assert AllDigits(front) && AllDigits(tail) by {
        forall i | 0 <= i < n - 1 ensures IsDigit(front[i]) && IsDigit(tail[i]) {
          assert front[i] == t[i] && tail[i] == t[i + 1];
        }
      }
      DecimalValueCons(front);
      assert front[0] == t[0] && front[1..] == tail[..n - 2] && tail[n - 2] == t[n - 1];
      var d, p, v, e := DigitValue(t[0]), Pow10(n - 2), DecimalValue(tail[..n - 2]), DigitValue(t[n - 1]);
      assert DecimalValue(t) == DecimalValue(front) * 10 + e;
      assert DecimalValue(front) == d * p + v;
      assert DecimalValue(tail) == v * 10 + e;
      assert Pow10(n - 1) == p * 10;
      ShiftDigit(d, p, v, e);
    }
  }

  lemma ShiftDigit(d: nat, p: nat, v: nat, e: nat)
    ensures (d * p + v) * 10 + e == d * (p * 10) + (v * 10 + e)
  {
  }

  /**
   * Scanning digits `t` then `rest`: the digits of `t` give accumulator
   * `acc * 10^|t| + value(t)`; if that overflows 64 bits the scan is a range error
   * whatever `rest` holds, otherwise the scan continues on `rest`.
   */
  lemma {:induction false} ScanPrefix(t: string, rest: string, acc: nat)
    requires AllDigits(t) && acc <= MaxUint64
    ensures acc * Pow10(|t|) + DecimalValue(t) > MaxUint64 ==> ScanDecimal(t + rest, acc) == Err(ErrRange)
    ensures acc * Pow10(|t|) + DecimalValue(t) <= MaxUint64 ==>
      ScanDecimal(t + rest, acc) == ScanDecimal(rest, acc * Pow10(|t|) + DecimalValue(t))
    decreases |t|
  {
    if t == [] {
      assert t + rest == rest;
    } else {
      var d := DigitValue(t[0]);
      var next := acc * 10 + d;
      var k := |t| - 1;
      var p := Pow10(k);
      DecimalValueCons(t);
      Regroup(acc, d, p);
      assert acc * Pow10(|t|) + DecimalValue(t) == next * p + DecimalValue(t[1..]);
      assert (t + rest)[0] == t[0] && (t + rest)[1..] == t[1..] + rest;
      if next > MaxUint64 {
        AtLeastSelf(next, p);
        assert ScanDecimal(t + rest, acc) == Err(ErrRange);
      } else {
        assert AllDigits(t[1..]) by {
          forall i | 0 <= i < k ensures IsDigit(t[1..][i]) { assert t[1..][i] == t[i + 1]; }
        }
        assert ScanDecimal(t + rest, acc) == ScanDecimal(t[1..] + rest, next);
        ScanPrefix(t[1..], rest, next);
      }
    }
  }

  lemma Regroup(acc: nat, d: nat, p: nat)
    ensures acc * (10 * p) + (d * p) == (acc * 10 + d) * p
  {
  }

  lemma AtLeastSelf(x: nat, p: nat)
    requires p >= 1
    ensures x * p >= x
  {
  }

  lemma {:induction false} DecimalValueNatToDecimal(n: nat)
    ensures DecimalValue(NatToDecimal(n)) == n
  {
    var s := NatToDecimal(n);
    if n < 10 {
      assert s[..|s| - 1] == [];
    } else {
      var t := NatToDecimal(n / 10);
      assert s == t + [DigitChar(n % 10)];
      assert s[..|s| - 1] == t;
      DecimalValueNatToDecimal(n / 10);
    }
  }

  /** Parsing the rendering of any `int` gives that `int` back. */
  lemma AtoiItoa(i: GoInt)
    ensures Atoi(Itoa(i)) == Ok(i)
  {
    var s := Itoa(i);
    if i < 0 {
      assert Unsigned(s) == NatToDecimal(-(i as int));
      DecimalValueNatToDecimal(-(i as int));
    } else {
      assert Unsigned(s) == s;
      DecimalValueNatToDecimal(i);
    }
  }

  /** `Itoa` renders 8080 as the four characters `8080`. */
  lemma ItoaExample()
    ensures Itoa(8080) == "8080"
  {
  }

  /** `Atoi` rejects the empty string, a sign alone, and any non-digit. */
  lemma AtoiSyntaxErrors()
    ensures Atoi("") == Err(ErrSyntax)
    ensures Atoi("-") == Err(ErrSyntax)
    ensures Atoi("+") == Err(ErrSyntax)
    ensures Atoi(" 1") == Err(ErrSyntax)
    ensures Atoi("1_000") == Err(ErrSyntax)
  {
  }

  /** A leading `+` and leading zeros are accepted. */
  lemma AtoiAcceptsPlusAndLeadingZeros()
    ensures Atoi("+007") == Ok(7)
  {
  }

  function Pow10(k: nat): (p: nat)
    ensures p >= 1
  {
    if k == 0 then 1 else 10 * Pow10(k - 1)
  }

  /** A digit string without a leading zero is at least ten to the power of its length minus one. */
  lemma {:induction false} DecimalValueLowerBound(s: string)
    requires |s| >= 1 && AllDigits(s) && s[0] != '0'
    ensures DecimalValue(s) >= Pow10(|s| - 1)
  {
    if |s| > 1 {
      var t := s[..|s| - 1];
      assert t[0] == s[0];
      DecimalValueLowerBound(t);
    }
  }

  /** Twenty or more significant digits never fit an `int`: `Atoi` reports a range error, whatever the sign. */
  lemma AtoiRangeError(s: string)
    requires |s| >= 20 && AllDigits(s) && s[0] != '0'
    ensures Atoi(s) == Err(ErrRange)
    ensures Atoi("-" + s) == Err(ErrRange)
    ensures Atoi("+" + s) == Err(ErrRange)
  {
    DecimalValueLowerBound(s);
    Pow10Monotone(19, |s| - 1);
    assert Pow10(19) == 10000000000000000000 by { assert Pow10(10) == 10000000000; }
    assert ("-" + s)[1..] == s;
    assert ("+" + s)[1..] == s;
  }

  /**
   * `ParseUint` reports an overflow as soon as the digits read so far exceed 64 bits,
   * so digits worth more than 2^64 - 1 give `ErrRange` whatever follows them, even a
   * byte that is not a digit.
   */
  lemma AtoiRangeBeforeSyntax(digits: string, rest: string)
    requires AllDigits(digits) && DecimalValue(digits) > MaxUint64
    ensures Atoi(digits + rest) == Err(ErrRange)
    ensures Atoi("-" + digits + rest) == Err(ErrRange)
  {
    assert digits != [];
    ScanPrefix(digits, rest, 0);
    assert Unsigned(digits + rest) == digits + rest;
    assert Unsigned("-" + digits + rest) == digits + rest;
  }

  /** In particular twenty-one or more significant digits overflow, whatever follows. */
  lemma AtoiLongDigitsRange(digits: string, rest: string)
    requires |digits| >= 21 && AllDigits(digits) && digits[0] != '0'
    ensures Atoi(digits + rest) == Err(ErrRange)
    ensures Atoi("-" + digits + rest) == Err(ErrRange)
  {
    DecimalValueLowerBound(digits);
    Pow10Monotone(20, |digits| - 1);
    assert Pow10(20) == 100000000000000000000 by { assert Pow10(10) == 10000000000; }
    AtoiRangeBeforeSyntax(digits, rest);
  }

  /** The decimal text of 2^64 followed by a stray `x` is a range error, not a syntax error. */
  lemma AtoiEarlyRangeExample()
    ensures Atoi(NatToDecimal(MaxUint64 + 1) + "x") == Err(ErrRange)
  {
    DecimalValueNatToDecimal(MaxUint64 + 1);
    AtoiRangeBeforeSyntax(NatToDecimal(MaxUint64 + 1), "x");
  }

  lemma {:induction false} Pow10Monotone(j: nat, k: nat)
    requires j <= k
    ensures Pow10(j) <= Pow10(k)
  {
    if j < k {
      Pow10Monotone(j, k - 1);
    }
  }
}
