/**
 * Go integer semantics that the model needs: the int64 range, division and
 * remainder that truncate toward zero, `strconv.Itoa`/`FormatInt` and
 * `strconv.Atoi` (base 10, optional sign, clamping on range errors).
 */
module GoInt {

  const Int64Min: int := -0x8000_0000_0000_0000
  const Int64Max: int := 0x7fff_ffff_ffff_ffff

  predicate IsInt64(x: int) {
    Int64Min <= x <= Int64Max
  }

  /** Go's `a / b` for a positive divisor: the quotient truncated toward zero. */
  function Quot(a: int, b: int): (q: int)
    requires b > 0
    ensures 0 <= a ==> 0 <= a - q * b < b
    ensures a < 0 ==> -b < a - q * b <= 0
  {
    if a >= 0 then a / b else -((-a) / b)
  }

  /** Go's `a % b` for a positive divisor: the remainder takes the sign of `a`. */
  function Rem(a: int, b: int): (r: int)
    requires b > 0
    ensures a == Quot(a, b) * b + r
    ensures 0 <= a ==> 0 <= r < b
    ensures a < 0 ==> -b < r <= 0
  {
    a - Quot(a, b) * b
  }

  predicate IsDigit(c: char) {
    '0' <= c <= '9'
  }

  predicate AllDigits(s: string) {
    forall i :: 0 <= i < |s| ==> IsDigit(s[i])
  }

  function DigitChar(d: nat): (c: char)
    requires d < 10
    ensures IsDigit(c)
  {
    ('0' as int + d) as char
  }

  function DigitValue(c: char): (d: nat)
    requires IsDigit(c)
    ensures d < 10
  {
    c as int - '0' as int
  }

  function Pow10(k: nat): (p: nat)
    ensures p >= 1
  {
    if k == 0 then 1 else 10 * Pow10(k - 1)
  }

  /** The decimal digits of `n`, most significant first, without leading zeros. */
  function NatDigits(n: nat): (s: string)
    ensures |s| >= 1 && AllDigits(s)
    ensures n < 10 <==> |s| == 1
    decreases n
  {
    if n < 10 then [DigitChar(n)] else NatDigits(n / 10) + [DigitChar(n % 10)]
  }

  /** `strconv.Itoa` / `strconv.FormatInt(x, 10)`. */
  function FormatInt(x: int): (s: string)
    ensures |s| >= 1 && IsDigit(s[|s| - 1])
    ensures x < 0 <==> s[0] == '-'
  {
    if x < 0 then "-" + NatDigits(-x) else NatDigits(x)
  }

  /** The value of a digit string read in base 10. */
  function DigitsValue(s: string): nat
    requires AllDigits(s)
  {
    if s == [] then 0 else 10 * DigitsValue(s[..|s| - 1]) + DigitValue(s[|s| - 1])
  }

  /** What `strconv.Atoi` reports: a value, a syntax error, or a range error with the clamped value. */
  datatype Parsed = Number(value: int) | SyntaxError | RangeError(clamped: int)

  const Uint64Max: int := 0xffff_ffff_ffff_ffff

  /** The run of digits at the front of `s`, up to its first non-digit. */
  function DigitPrefix(s: string): (p: string)
    ensures |p| <= |s| && p == s[..|p|] && AllDigits(p)
    ensures |p| < |s| ==> !IsDigit(s[|p|])
  {
    if s == [] || !IsDigit(s[0]) then [] else [s[0]] + DigitPrefix(s[1..])
  }

  /**
   * `strconv.ParseUint(s, 10, 64)`. The digits are read from the left and
   * every character is checked before it is added, so a value that exceeds
   * 64 bits is reported as a range error as soon as it does, whatever
   * follows; a non-digit reached before that is a syntax error.
   */
  function ParseUint(s: string): (r: Parsed)
    ensures r.Number? ==> 0 <= r.value <= Uint64Max
    ensures r.RangeError? ==> r.clamped == Uint64Max
  {
    var digits := DigitPrefix(s);
    if s == [] then SyntaxError
    else if DigitsValue(digits) > Uint64Max then RangeError(Uint64Max)
    else if |digits| < |s| then SyntaxError
    else Number(DigitsValue(digits))
  }

  /**
   * `strconv.Atoi` on a 64-bit platform, that is `strconv.ParseInt(s, 10, 0)`:
   * an optional `+` or `-`, then `ParseUint` of the rest, then the sign.
   * (Go takes a shortcut for text of fewer than 19 bytes, which can neither
   * overflow nor give another answer.)
   */
  function Atoi(s: string): (r: Parsed)
    ensures r.Number? ==> IsInt64(r.value)
    ensures r.RangeError? ==> r.clamped == Int64Min || r.clamped == Int64Max
    ensures s == [] ==> r.SyntaxError?
  {
    if s == [] then SyntaxError
    else
      var body := if s[0] == '-' || s[0] == '+' then s[1..] else s;
      ApplySign(s[0] == '-', ParseUint(body))
  }

  /**
   * The last step of `ParseInt`: a syntax error stays one (value 0), a range
   * error or a magnitude beyond int64 is clamped by the sign.
   */
  function ApplySign(neg: bool, u: Parsed): (r: Parsed)
    requires u.Number? ==> 0 <= u.value
    ensures r.Number? ==> IsInt64(r.value)
    ensures r.RangeError? ==> r.clamped == if neg then Int64Min else Int64Max
    ensures r.SyntaxError? <==> u.SyntaxError?
  {
    match u
    case SyntaxError => SyntaxError
    case RangeError(_) => if neg then RangeError(Int64Min) else RangeError(Int64Max)
    case Number(v) =>
      if !neg && v > Int64Max then RangeError(Int64Max)
      else if neg && v > -Int64Min then RangeError(Int64Min)
      else Number(if neg then -v else v)
  }

  /** The integer a Go caller gets from `v, _ := strconv.Atoi(s)`. */
  function AtoiIgnoringError(s: string): (v: int)
    ensures IsInt64(v)
    ensures Atoi(s).SyntaxError? ==> v == 0
  {
    match Atoi(s)
    case Number(v) => v
    case SyntaxError => 0
    case RangeError(c) => c
  }

  lemma {:induction false} DigitsValueAppend(a: string, b: string)
    requires AllDigits(a) && AllDigits(b)
    ensures AllDigits(a + b)
    ensures DigitsValue(a + b) == DigitsValue(a) * Pow10(|b|) + DigitsValue(b)
    decreases |b|
  {
    if b == [] {
      assert a + b == a;
    } else {
      var b' := b[..|b| - 1];
      var d := DigitValue(b[|b| - 1]);
      assert (a + b)[..|a + b| - 1] == a + b';
      DigitsValueAppend(a, b');
      Rearrange(DigitsValue(a), Pow10(|b'|), DigitsValue(b'), d);
    }
  }

  lemma Rearrange(x: int, p: int, y: int, d: int)
    ensures 10 * (x * p + y) + d == x * (10 * p) + (10 * y + d)
  {
  }

  /** Reading back the digits of `n` gives `n`. */
  lemma {:induction false} DigitsValueOfNatDigits(n: nat)
    ensures DigitsValue(NatDigits(n)) == n
    decreases n
  {
    if n >= 10 {
      var s := NatDigits(n);
      assert s[..|s| - 1] == NatDigits(n / 10);
      DigitsValueOfNatDigits(n / 10);
    }
  }

  /** Digits in front of `b` are the start of the digit run of the whole text. */
  lemma {:induction false} DigitPrefixAppend(a: string, b: string)
    requires AllDigits(a)
    ensures DigitPrefix(a + b) == a + DigitPrefix(b)
  {
    if a == [] {
      assert a + b == b;
    } else {
      assert (a + b)[0] == a[0] && (a + b)[1..] == a[1..] + b;
      DigitPrefixAppend(a[1..], b);
      assert [a[0]] + (a[1..] + DigitPrefix(b)) == a + DigitPrefix(b);
    }
  }

  /** After an optional sign, `Atoi` hands the rest of the text to `ParseUint`. */
  lemma AtoiSigned(sign: string, d: string, b: string)
    requires sign == "" || sign == "-" || sign == "+"
    requires d != [] && AllDigits(d)
    ensures Atoi(sign + d + b) == ApplySign(sign == "-", ParseUint(d + b))
  {
    var s := sign + d + b;
    if sign == "" {
      assert s == d + b && IsDigit(s[0]);
    } else {
      assert s[0] == sign[0] && s[1..] == d + b;
    }
  }

  /** Digits that fit in 64 bits, alone: `ParseUint` reads their value. */
  lemma ParseUintDigits(d: string)
    requires d != [] && AllDigits(d) && DigitsValue(d) <= Uint64Max
    ensures ParseUint(d) == Number(DigitsValue(d))
  {
    DigitPrefixAppend(d, []);
    assert d + [] == d;
  }

  /** Digits that fit in 64 bits, then a non-digit: `ParseUint` reports a syntax error. */
  lemma ParseUintJunk(d: string, b: string)
    requires d != [] && AllDigits(d) && DigitsValue(d) <= Uint64Max
    requires b != [] && !IsDigit(b[0])
    ensures ParseUint(d + b) == SyntaxError
  {
    DigitPrefixAppend(d, b);
    assert DigitPrefix(b) == [];
    assert d + [] == d;
  }

  /** Digits beyond 64 bits: `ParseUint` reports a range error whatever follows. */
  lemma ParseUintOverflow(d: string, b: string)
    requires AllDigits(d) && DigitsValue(d) > Uint64Max
    ensures ParseUint(d + b) == RangeError(Uint64Max)
  {
    var p := DigitPrefix(b);
    DigitPrefixAppend(d, b);
    DigitsValueAppend(d, p);
    Grows(DigitsValue(d), Pow10(|p|), DigitsValue(p));
    assert d + b != [];
  }

  lemma Grows(x: nat, p: nat, y: nat)
    requires p >= 1
    ensures x * p + y >= x
  {
  }

  /** Round trip: `strconv.Atoi(strconv.Itoa(x)) == x` for every int64 `x`. */
  lemma AtoiFormatInt(x: int)
    requires IsInt64(x)
    ensures Atoi(FormatInt(x)) == Number(x)
  {
    var n: nat := if x < 0 then -x else x;
    var digits := NatDigits(n);
    DigitsValueOfNatDigits(n);
    assert n <= Uint64Max;
    ParseUintDigits(digits);
    assert digits + [] == digits;
    if x < 0 {
      AtoiSigned("-", digits, []);
      assert FormatInt(x) == "-" + digits + [];
    } else {
      AtoiSigned("", digits, []);
      assert FormatInt(x) == "" + digits + [];
    }
  }

  /**
   * A sign, digits that fit in 64 bits, and then a non-digit: `strconv.Atoi`
   * reaches the non-digit and reports a syntax error.
   */
  lemma AtoiTrailingJunk(sign: string, d: string, b: string)
    requires sign == "" || sign == "-" || sign == "+"
    requires d != [] && AllDigits(d) && DigitsValue(d) <= Uint64Max
    requires b != [] && !IsDigit(b[0])
    ensures Atoi(sign + d + b).SyntaxError?
  {
    AtoiSigned(sign, d, b);
    ParseUintJunk(d, b);
  }

  /**
   * A sign and digits that exceed 64 bits: `strconv.Atoi` reports a range
   * error, clamped by the sign, before it looks at anything that follows.
   */
  lemma AtoiOverflowFirst(sign: string, d: string, b: string)
    requires sign == "" || sign == "-" || sign == "+"
    requires d != [] && AllDigits(d) && DigitsValue(d) > Uint64Max
    ensures Atoi(sign + d + b) == RangeError(if sign == "-" then Int64Min else Int64Max)
  {
    AtoiSigned(sign, d, b);
    ParseUintOverflow(d, b);
  }
}
