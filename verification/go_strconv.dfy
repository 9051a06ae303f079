/** Go's 64-bit `int`, `strconv.Atoi` and `strconv.Itoa`.
    Integers in the model are unbounded; where the exporter relies on the
    64-bit width (Atoi's clamping, `time.Duration` arithmetic) it is written
    out here. */
module GoStrconv {

  const MaxUint64: int := 0xFFFF_FFFF_FFFF_FFFF
  const MinInt64: int := -0x8000_0000_0000_0000
  const MaxInt64: int := 0x7FFF_FFFF_FFFF_FFFF
  const TwoTo64: int := 0x1_0000_0000_0000_0000

  predicate InInt64(x: int) {
    MinInt64 <= x <= MaxInt64
  }

  /** `a` and `b` are equal modulo 2^64: the same 64-bit pattern. */
  predicate SameMod64(a: int, b: int) {
    (a - b) % TwoTo64 == 0
  }

  /** Two's-complement wrap-around of an `int` (64-bit) result. */
  function Wrap64(x: int): (r: int)
    ensures InInt64(r)
    ensures SameMod64(x, r)
    ensures InInt64(x) ==> r == x
  {
    var m := x % TwoTo64;
    if m > MaxInt64 then m - TwoTo64 else m
  }

  predicate IsDigit(c: char) {
    '0' <= c <= '9'
  }

  function DigitValue(c: char): nat
    requires IsDigit(c)
  {
    c as int - '0' as int
  }

  predicate AllDigits(s: string) {
    forall i :: 0 <= i < |s| ==> IsDigit(s[i])
  }

  /** Decimal value of a digit string read left to right, starting from `acc`. */
  function FoldDigits(acc: nat, s: string): (r: nat)
    requires AllDigits(s)
    ensures r >= acc
    decreases |s|
  {
    if |s| == 0 then acc else FoldDigits(acc * 10 + DigitValue(s[0]), s[1..])
  }

  /** The decimal value of a digit string. */
  function DecimalValue(s: string): nat
    requires AllDigits(s)
  {
    FoldDigits(0, s)
  }

  /** Outcome of `strconv.ParseUint(s, 10, 64)`'s digit loop. */
  datatype UintScan = UintOk(n: nat) | UintSyntax | UintRange

  /** ParseUint's loop: each character is first checked to be a digit, then
      the accumulated value is checked against 2^64-1, so an overflow found
      before a later non-digit is reported as a range error. */
  function ScanDigits(s: string, acc: nat): UintScan
    requires acc <= MaxUint64
  {
    if |s| == 0 then UintOk(acc)
    else if !IsDigit(s[0]) then UintSyntax
    else
      var next := acc * 10 + DigitValue(s[0]);
      if next > MaxUint64 then UintRange else ScanDigits(s[1..], next)
  }

  /** The longest prefix of `s` made of digits. */
  function LeadingDigits(s: string): (p: string)
    ensures p <= s && AllDigits(p)
    ensures |p| < |s| ==> !IsDigit(s[|p|])
  {
    if |s| == 0 || !IsDigit(s[0]) then []
    else
      var rest := LeadingDigits(s[1..]);
      assert AllDigits([s[0]] + rest) by {
        forall i | 0 <= i < |rest| + 1 ensures IsDigit(([s[0]] + rest)[i]) {
          if i > 0 { assert ([s[0]] + rest)[i] == rest[i - 1]; }
        }
      }
      [s[0]] + rest
  }

  /** `strconv.ParseUint(s, 10, 64)`; the empty string is a syntax error. */
  function ParseUint(s: string): UintScan {
    if |s| == 0 then UintSyntax else ScanDigits(s, 0)
  }

  /** The three outcomes of `strconv.Atoi`: a value, a syntax error (value 0),
      or a range error carrying the clamped value Go returns with it. */
  datatype AtoiOutcome = Parsed(value: int) | SyntaxError | RangeError(clamped: int)

  predicate HasSign(s: string) {
    |s| > 0 && (s[0] == '+' || s[0] == '-')
  }

  function Unsigned(s: string): string {
    if HasSign(s) then s[1..] else s
  }

  predicate Negative(s: string) {
    |s| > 0 && s[0] == '-'
  }

  /** Text Atoi accepts syntactically: an optional sign, then one or more digits. */
  predicate WellFormed(s: string) {
    |Unsigned(s)| > 0 && AllDigits(Unsigned(s))
  }

  /** The mathematical value of well-formed text. */
  function SignedValue(s: string): int
    requires WellFormed(s)
  {
    var v: int := DecimalValue(Unsigned(s));
    if Negative(s) then -v else v
  }

  /** `strconv.Atoi` on a 64-bit platform (`ParseInt(s, 10, 0)`). */
  function Atoi(s: string): (r: AtoiOutcome)
    ensures WellFormed(s) && InInt64(SignedValue(s)) ==> r == Parsed(SignedValue(s))
    ensures r.Parsed? ==> WellFormed(s) && r.value == SignedValue(s) && InInt64(r.value)
    ensures WellFormed(s) && SignedValue(s) > MaxInt64 ==> r == RangeError(MaxInt64)
    ensures WellFormed(s) && SignedValue(s) < MinInt64 ==> r == RangeError(MinInt64)
    ensures r.SyntaxError? ==> !WellFormed(s)
    ensures r.RangeError? ==> r.clamped == (if Negative(s) then MinInt64 else MaxInt64)
    ensures !WellFormed(s) && DecimalValue(LeadingDigits(Unsigned(s))) <= MaxUint64 ==> r == SyntaxError
    ensures !WellFormed(s) && DecimalValue(LeadingDigits(Unsigned(s))) > MaxUint64
            ==> r == RangeError(if Negative(s) then MinInt64 else MaxInt64)
  {
    if |s| == 0 then SyntaxError
    else
      var neg := Negative(s);
      var body := Unsigned(s);
      ParseUintValue(body);
      match ParseUint(body)
      case UintSyntax => SyntaxError
      case UintRange => if neg then RangeError(MinInt64) else RangeError(MaxInt64)
      case UintOk(u) =>
        if !neg && u > MaxInt64 then RangeError(MaxInt64)
        else if neg && u > -MinInt64 then RangeError(MinInt64)
        else Parsed(if neg then -(u as int) else u)
  }

  /** The nearest 64-bit integer. */
  function Clamp64(x: int): (r: int)
    ensures InInt64(r)
    ensures InInt64(x) ==> r == x
    ensures x > MaxInt64 ==> r == MaxInt64
    ensures x < MinInt64 ==> r == MinInt64
  {
    if x > MaxInt64 then MaxInt64 else if x < MinInt64 then MinInt64 else x
  }

  /** The value the exporter uses when it discards Atoi's error:
      0 on a syntax error and the clamped value on a range error. */
  function AtoiValue(s: string): (v: int)
    ensures InInt64(v)
    ensures WellFormed(s) ==> v == Clamp64(SignedValue(s))
    ensures !WellFormed(s) ==>
              v == (if DecimalValue(LeadingDigits(Unsigned(s))) <= MaxUint64 then 0
                    else if Negative(s) then MinInt64 else MaxInt64)
  {
    match Atoi(s)
    case Parsed(v) => v
    case SyntaxError => 0
    case RangeError(c) => c
  }

  /** ParseUint agrees with the decimal value of well-formed digit strings. */
  lemma ParseUintValue(s: string)
    ensures |s| > 0 && AllDigits(s) && DecimalValue(s) <= MaxUint64 ==> ParseUint(s) == UintOk(DecimalValue(s))
    ensures |s| > 0 && AllDigits(s) && DecimalValue(s) > MaxUint64 ==> ParseUint(s) == UintRange
    ensures ParseUint(s).UintOk? ==> |s| > 0 && AllDigits(s) && ParseUint(s).n == DecimalValue(s)
    ensures ParseUint(s).UintSyntax? ==> !(|s| > 0 && AllDigits(s))
    ensures !(|s| > 0 && AllDigits(s))
            ==> ParseUint(s) == (if DecimalValue(LeadingDigits(s)) <= MaxUint64 then UintSyntax else UintRange)
  {
    if |s| > 0 {
      ScanDigitsSound(s, 0);
      if !AllDigits(s) {
        ScanDigitsPrefix(s, 0);
      }
    }
  }

  /** On text that is not all digits, the scan stops with a range error when
      the leading digits already exceed 2^64-1, and with a syntax error
      otherwise. */
  lemma {:induction false} ScanDigitsPrefix(s: string, acc: nat)
    requires acc <= MaxUint64 && !AllDigits(s)
    ensures ScanDigits(s, acc) == (if FoldDigits(acc, LeadingDigits(s)) <= MaxUint64 then UintSyntax else UintRange)
  {
    if IsDigit(s[0]) {
      var next := acc * 10 + DigitValue(s[0]);
      var rest := LeadingDigits(s[1..]);
      assert LeadingDigits(s) == [s[0]] + rest;
      assert ([s[0]] + rest)[1..] == rest;
      assert FoldDigits(acc, LeadingDigits(s)) == FoldDigits(next, rest);
      if next <= MaxUint64 {
        AllDigitsCons(s);
        ScanDigitsPrefix(s[1..], next);
      }
    }
  }

  /** ScanDigits computes FoldDigits while the value fits, and reports
      syntax errors only for text that is not all digits. */
  lemma {:induction false} ScanDigitsSound(s: string, acc: nat)
    requires acc <= MaxUint64
    ensures AllDigits(s) && FoldDigits(acc, s) <= MaxUint64 ==> ScanDigits(s, acc) == UintOk(FoldDigits(acc, s))
    ensures AllDigits(s) && FoldDigits(acc, s) > MaxUint64 ==> ScanDigits(s, acc) == UintRange
    ensures ScanDigits(s, acc).UintOk? ==> AllDigits(s) && ScanDigits(s, acc).n == FoldDigits(acc, s)
    ensures ScanDigits(s, acc).UintSyntax? ==> !AllDigits(s)
  {
    if |s| > 0 && IsDigit(s[0]) {
      var next := acc * 10 + DigitValue(s[0]);
      AllDigitsCons(s);
      if next <= MaxUint64 {
        ScanDigitsSound(s[1..], next);
      }
    }
  }

  /** A string that starts with a digit is all digits exactly when its tail is. */
  lemma AllDigitsCons(s: string)
    requires |s| > 0 && IsDigit(s[0])
    ensures AllDigits(s) <==> AllDigits(s[1..])
  {
    forall i | 0 < i < |s| ensures s[i] == s[1..][i - 1] { }
  }

  /** Appending a digit multiplies the folded value by ten and adds the digit. */
  lemma {:induction false} FoldDigitsSnoc(acc: nat, s: string, c: char)
    requires AllDigits(s) && IsDigit(c)
    ensures AllDigits(s + [c])
    ensures FoldDigits(acc, s + [c]) == FoldDigits(acc, s) * 10 + DigitValue(c)
    decreases |s|
  {
    if |s| > 0 {
      assert (s + [c])[1..] == s[1..] + [c];
      FoldDigitsSnoc(acc * 10 + DigitValue(s[0]), s[1..], c);
    }
  }

  function DigitChar(d: nat): (c: char)
    requires d < 10
    ensures IsDigit(c) && DigitValue(c) == d
  {
    ('0' as int + d) as char
  }

  /** Decimal digits of a natural number, without leading zeros. */
  function Digits(n: nat): (r: string)
    ensures |r| > 0 && AllDigits(r)
    ensures r[0] != '+' && r[0] != '-'
    ensures |r| > 1 ==> r[0] != '0'
    ensures n == 0 ==> r == "0"
    decreases n
  {
    if n < 10 then [DigitChar(n)]
    else
      var r := Digits(n / 10) + [DigitChar(n % 10)];
      assert r[0] == Digits(n / 10)[0];
      r
  }

  /** `strconv.Itoa`: decimal text, with a leading '-' for negative values. */
  function Itoa(n: int): (r: string)
    ensures |r| > 0
    ensures (r[0] == '-') <==> n < 0
    ensures r[0] != '+'
    ensures |Unsigned(r)| > 0 && AllDigits(Unsigned(r))
    ensures |Unsigned(r)| > 1 ==> Unsigned(r)[0] != '0'
    ensures n < 0 ==> Unsigned(r) != "0"
  {
    if n < 0 then
      var d := Digits(-n);
      assert ("-" + d)[1..] == d;
      "-" + d
    else Digits(n)
  }

  /** The digits of `n` read back as `n`. */
  lemma {:induction false} DigitsValue(n: nat)
    ensures DecimalValue(Digits(n)) == n
    decreases n
  {
    if n >= 10 {
      DigitsValue(n / 10);
      assert Digits(n) == Digits(n / 10) + [DigitChar(n % 10)];
      FoldDigitsSnoc(0, Digits(n / 10), DigitChar(n % 10));
      assert (n / 10) * 10 + n % 10 == n;
    } else {
      var c := DigitChar(n);
      assert Digits(n) == [c];
      assert [c][1..] == [];
      assert FoldDigits(0, [c]) == FoldDigits(DigitValue(c), []);
    }
  }

  /** Round trip: Atoi parses Itoa's text back to the same 64-bit integer. */
  lemma AtoiItoa(n: int)
    requires InInt64(n)
    ensures Atoi(Itoa(n)) == Parsed(n)
    ensures AtoiValue(Itoa(n)) == n
  {
    var s := Itoa(n);
    if n < 0 {
      DigitsValue(-n);
      assert Unsigned(s) == Digits(-n);
    } else {
      DigitsValue(n);
      assert Unsigned(s) == Digits(n);
    }
  }
}
