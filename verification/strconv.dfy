/**
 * The parts of Go's `strconv` package the integrations call: `Atoi`,
 * `ParseFloat` (decimal syntax), `ParseBool`, and decimal formatting of an
 * integer as `%d` and `Itoa` print it.
 */
module GoStrconv {
  import opened Wrappers
  import opened Values

  predicate IsDigit(c: char) {
    '0' <= c <= '9'
  }

  predicate AllDigits(s: string) {
    forall i | 0 <= i < |s| :: IsDigit(s[i])
  }

  /** The value of a run of decimal digits, most significant first. */
  function DigitsValue(s: string): nat
    requires AllDigits(s)
    decreases |s|
  {
    if s == [] then 0 else DigitsValue(s[..|s| - 1]) * 10 + (s[|s| - 1] as int - '0' as int)
  }

  /** The shortest decimal digits of `n`. */
  function NatToDigits(n: nat): (s: string)
    ensures |s| > 0 && AllDigits(s)
    ensures DigitsValue(s) == n
    ensures s[0] == '0' ==> n == 0
  {
    if n < 10 then [('0' as int + n) as char]
    else
      var s := NatToDigits(n / 10) + [('0' as int + n % 10) as char];
      assert s[..|s| - 1] == NatToDigits(n / 10);
      s
  }

  /** `fmt.Sprintf("%d", i)` and `strconv.Itoa(i)`. */
  function FormatInt(i: int): (s: string)
    ensures |s| > 0
    ensures s[0] == '-' <==> i < 0
  {
    if i < 0 then "-" + NatToDigits(-i) else NatToDigits(i)
  }

  /** An optional leading '+' or '-' split off: (is negative, the rest). */
  function SplitSign(s: string): (r: (bool, string))
    ensures r.0 ==> s == "-" + r.1
    ensures !r.0 ==> s == r.1 || s == "+" + r.1
  {
    if |s| > 0 && s[0] == '-' then (true, s[1..])
    else if |s| > 0 && s[0] == '+' then (false, s[1..])
    else (false, s)
  }

  /**
   * `strconv.Atoi`: an optional sign and one or more decimal digits whose
   * value fits in a 64-bit `int`; anything else is an error (None).
   */
  function Atoi(s: string): (r: Option<int>)
    ensures r.Some? <==> IsInteger(s) && InInt64(IntegerValue(s))
    ensures r.Some? ==> r.value == IntegerValue(s)
    ensures r.Some? ==> (r.value < 0 ==> s[0] == '-')
  {
    var (negative, digits) := SplitSign(s);
    if digits == [] || !AllDigits(digits) then None
    else
      var v := if negative then 0 - DigitsValue(digits) as int else DigitsValue(digits);
      if InInt64(v) then Some(v) else None
  }

  /** An optional sign followed by one or more decimal digits, whatever their value. */
  predicate IsInteger(s: string) {
    SplitSign(s).1 != [] && AllDigits(SplitSign(s).1)
  }

  /** The exact value of integer text, negated after a '-'. */
  function IntegerValue(s: string): int
    requires IsInteger(s)
  {
    var (negative, digits) := SplitSign(s);
    if negative then 0 - DigitsValue(digits) as int else DigitsValue(digits)
  }

  /** `Atoi` reads back every 64-bit integer `FormatInt` writes. */
  lemma {:induction false} AtoiFormatInt(i: int)
    requires InInt64(i)
    ensures Atoi(FormatInt(i)) == Some(i)
  {
    if i < 0 {
      assert SplitSign(FormatInt(i)) == (true, NatToDigits(-i));
    } else {
      var s := NatToDigits(i);
      assert s[0] != '-' && s[0] != '+';
      assert SplitSign(FormatInt(i)) == (false, s);
    }
  }

  /** `strconv.ParseBool`: the literals Go accepts, case-sensitively. */
  function ParseBool(s: string): (r: Option<bool>)
    ensures r == Some(true) <==> s in {"1", "t", "T", "TRUE", "true", "True"}
    ensures r == Some(false) <==> s in {"0", "f", "F", "FALSE", "false", "False"}
  {
    if s in {"1", "t", "T", "TRUE", "true", "True"} then Some(true)
    else if s in {"0", "f", "F", "FALSE", "false", "False"} then Some(false)
    else None
  }

  /** Length of the longest prefix of `s` made of decimal digits. */
  function DigitRun(s: string): (n: nat)
    ensures n <= |s| && AllDigits(s[..n])
    ensures n < |s| ==> !IsDigit(s[n])
  {
    if s == [] || !IsDigit(s[0]) then 0
    else
      var n := 1 + DigitRun(s[1..]);
      assert s[..n] == [s[0]] + s[1..][..n - 1];
      n
  }

  /** A decimal literal's value: (-1 if negative) * mantissa * 10^exponent. */
  datatype Decimal = Decimal(negative: bool, mantissa: nat, exponent: int)

  function Pow10(n: nat): (p: nat)
    ensures p >= 1
  {
    if n == 0 then 1 else 10 * Pow10(n - 1)
  }

  function DecimalValue(d: Decimal): real {
    var magnitude :=
      if d.exponent >= 0 then (d.mantissa * Pow10(d.exponent)) as real
      else d.mantissa as real / Pow10(-d.exponent) as real;
    if d.negative then -magnitude else magnitude
  }

  /** The exponent part of a float literal: empty, or [eE][+-]?digits. */
  function ParseExponent(s: string): (r: Option<int>)
    ensures s == [] ==> r == Some(0)
    ensures r.Some? && s != [] ==> s[0] in "eE"
  {
    if s == [] then Some(0)
    else if s[0] != 'e' && s[0] != 'E' then None
    else
      var (negative, digits) := SplitSign(s[1..]);
      if digits == [] || !AllDigits(digits) then None
      else Some(if negative then 0 - DigitsValue(digits) as int else DigitsValue(digits))
  }

  /**
   * The decimal syntax `ParseFloat` reads: an optional sign, digits with at
   * most one '.', at least one digit in all, and an optional exponent.
   */
  function ParseDecimal(s: string): Option<Decimal> {
    var (negative, body) := SplitSign(s);
    var ip := DigitRun(body);
    var rest := body[ip..];
    var hasDot := |rest| > 0 && rest[0] == '.';
    var fp := if hasDot then DigitRun(rest[1..]) else 0;
    var fraction := if hasDot then rest[1..][..fp] else "";
    var tail := if hasDot then rest[1..][fp..] else rest;
    if ip + fp == 0 then None
    else
      match ParseExponent(tail)
      case None => None
      case Some(e) => Some(Decimal(negative, DigitsValue(body[..ip] + fraction), e - fp))
  }

  /**
   * Half-way between the largest finite float64 and 2^1024: a literal at
   * least this large in magnitude rounds to infinity, which `ParseFloat`
   * reports as a range error.
   */
  const Float64Overflow: int := 179769313486231580793728971405303415079934132710037826936173778980444968292764750946649017977587207096330286416692887910946555547851940402630657488671505820681908902000708383676273854845817711531764475730270069855571366959622842914819860834936475292719074168444365510704342711559699508093042880177904174497792

  function AsciiLower(c: char): char {
    if 'A' <= c <= 'Z' then (c as int + 32) as char else c
  }

  function Lower(s: string): (t: string)
    ensures |t| == |s|
  {
    if s == [] then [] else [AsciiLower(s[0])] + Lower(s[1..])
  }

  /** The special spellings `ParseFloat` accepts, in any letter case. */
  function ParseSpecial(s: string): Option<Float> {
    var l := Lower(s);
    if l in {"inf", "+inf", "infinity", "+infinity"} then Some(PosInf)
    else if l in {"-inf", "-infinity"} then Some(NegInf)
    else if l == "nan" then Some(NaN)
    else None
  }

  /** A string whose first letter starts no special spelling is not one. */
  lemma NotSpecial(s: string)
    requires |s| > 0 && AsciiLower(s[0]) !in "+-in"
    ensures ParseSpecial(s) == None
  {
    assert Lower(s)[0] == AsciiLower(s[0]);
  }

  /**
   * `strconv.ParseFloat(s, 64)`: a special spelling, or a decimal literal
   * whose magnitude does not overflow float64.
   */
  function ParseFloat(s: string): (r: Option<Float>)
    ensures r.Some? && r.value.Finite? ==> ParseDecimal(s).Some? && r.value.r == DecimalValue(ParseDecimal(s).value)
    ensures r.Some? && r.value.Finite? ==> InFloat64(r.value.r)
    ensures r.Some? <==> ParseSpecial(s).Some? || (ParseDecimal(s).Some? && InFloat64(DecimalValue(ParseDecimal(s).value)))
    ensures ParseSpecial(s).Some? ==> r == ParseSpecial(s)
  {
    match ParseSpecial(s)
    case Some(f) => Some(f)
    case None =>
      match ParseDecimal(s)
      case None => None
      case Some(d) =>
        var v := DecimalValue(d);
        if InFloat64(v) then Some(Finite(v)) else None
  }

  /** A value whose magnitude does not round to infinity in float64. */
  predicate InFloat64(v: real) {
    -(Float64Overflow as real) < v < Float64Overflow as real
  }

  /** Every string `Atoi` accepts is also a float literal, of the same value. */
  lemma AtoiIsFloat(s: string)
    requires Atoi(s).Some?
    ensures ParseDecimal(s).Some?
    ensures DecimalValue(ParseDecimal(s).value) == Atoi(s).value as real
  {
    IntegerIsDecimal(s);
  }

  /** Integer text of any size is a float literal of the same value. */
  lemma IntegerIsDecimal(s: string)
    requires IsInteger(s)
    ensures ParseDecimal(s).Some?
    ensures DecimalValue(ParseDecimal(s).value) == IntegerValue(s) as real
  {
    var (negative, body) := SplitSign(s);
    DigitRunOfDigits(body);
    assert body[..|body|] + "" == body;
  }

  /** Integer text is no special spelling: it starts with a digit, or with a sign and a digit. */
  lemma IntegerNotSpecial(s: string)
    requires IsInteger(s)
    ensures ParseSpecial(s) == None
  {
    var digits := SplitSign(s).1;
    assert IsDigit(digits[0]);
    if s[0] == '+' || s[0] == '-' {
      assert s[1] == digits[0];
      assert Lower(s)[1] == AsciiLower(s[1]) by {
        assert Lower(s)[1..] == Lower(s[1..]);
      }
      assert Lower(s) !in {"inf", "+inf", "infinity", "+infinity", "-inf", "-infinity", "nan"} by {
        assert Lower(s)[1] != 'i' && Lower(s)[1] != 'n';
      }
    } else {
      assert s[0] == digits[0];
      NotSpecial(s);
    }
  }

  lemma {:induction false} DigitRunOfDigits(s: string)
    requires AllDigits(s)
    ensures DigitRun(s) == |s|
  {
    if s != [] {
      DigitRunOfDigits(s[1..]);
    }
  }
}
