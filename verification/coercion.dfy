/**
 * Value coercion `asValue`, written identically in the Apache and MySQL
 * integrations: the raw text of a status line or SQL row becomes an int, a
 * float64, a bool, or stays the string it was, in that order of preference.
 */
module Coercion {
  import opened Wrappers
  import opened Values
  import opened GoStrconv

  /** `asValue`: integer first, then float, then boolean, else the unchanged string. */
  function AsValue(value: string): (v: Value)
    ensures v.Int? || v.Float64? || v.Bool? || v == Str(value)
    ensures v.Int? <==> Atoi(value).Some?
    ensures v.Int? ==> v.i == Atoi(value).value
    ensures v.Float64? <==> Atoi(value).None? && ParseFloat(value).Some?
    ensures v.Float64? ==> v.f == ParseFloat(value).value
    ensures v.Bool? ==> ParseBool(value) == Some(v.b)
    ensures v.Str? ==> Atoi(value).None? && ParseFloat(value).None? && ParseBool(value).None?
  {
    match Atoi(value)
    case Some(i) => Int(i)
    case None =>
      match ParseFloat(value)
      case Some(f) => Float64(f)
      case None =>
        match ParseBool(value)
        case Some(b) => Bool(b)
        case None => Str(value)
  }

  /** A decimal integer in 64-bit range always coerces to that int. */
  lemma AsValueOfInt(i: int)
    requires InInt64(i)
    ensures AsValue(FormatInt(i)) == Int(i)
  {
    AtoiFormatInt(i);
  }

  /**
   * Integer text too large for 64 bits falls through to the float branch
   * and keeps its value, as long as float64 does not overflow.
   */
  lemma AsValueOfWideInteger(s: string)
    requires IsInteger(s) && !InInt64(IntegerValue(s)) && InFloat64(IntegerValue(s) as real)
    ensures AsValue(s) == Float64(Finite(IntegerValue(s) as real))
  {
    IntegerNotSpecial(s);
    IntegerIsDecimal(s);
  }

  /**
   * Only the letter spellings of `ParseBool` ever become booleans: "1" and
   * "0" are integers first.
   */
  lemma AsValueBoolSpellings(value: string)
    requires AsValue(value).Bool?
    ensures value in {"t", "T", "TRUE", "true", "True", "f", "F", "FALSE", "false", "False"}
  {
    assert Atoi(value).None?;
    DigitLiteralsAreInts();
    LetterSpellings(value);
  }

  /** The digit spellings of `ParseBool` are integers to `Atoi`. */
  lemma DigitLiteralsAreInts()
    ensures Atoi("1") == Some(1) && Atoi("0") == Some(0)
  {
    assert SplitSign("1") == (false, "1") && SplitSign("0") == (false, "0");
    assert "1"[..0] == "0"[..0] == "";
  }

  /** What `ParseBool` accepts, apart from "1" and "0". */
  lemma LetterSpellings(value: string)
    requires ParseBool(value).Some? && value != "1" && value != "0"
    ensures value in {"t", "T", "TRUE", "true", "True", "f", "F", "FALSE", "false", "False"}
  {
  }

  /** The four examples of the MySQL unit test of `asValue`. */
  lemma AsValueExamples()
    ensures AsValue("10") == Int(10)
    ensures AsValue("0.12") == Float64(Finite(0.12))
    ensures AsValue("true") == Bool(true)
    ensures AsValue("test string") == Str("test string")
  {
    IntExample();
    FloatExample();
    BoolExample();
    StringExample();
  }

  lemma IntExample()
    ensures AsValue("10") == Int(10)
  {
    assert "10"[..1] == "1" && "1"[..0] == "";
  }

  lemma StringExample()
    ensures AsValue("test string") == Str("test string")
  {
    NoNumber("test string");
    NotSpecial("test string");
    assert ParseFloat("test string").None?;
    NotBoolLiteral("test string");
  }

  /** Text longer than every `ParseBool` literal is not a boolean. */
  lemma NotBoolLiteral(s: string)
    requires |s| > 5
    ensures ParseBool(s).None?
  {
  }

  /** Text that starts with neither a digit, a sign nor a dot is no number. */
  lemma NoNumber(s: string)
    requires |s| > 0 && !IsDigit(s[0]) && s[0] !in "+-."
    ensures Atoi(s).None? && ParseDecimal(s).None?
  {
    assert SplitSign(s) == (false, s);
    assert DigitRun(s) == 0;
  }

  lemma BoolExample()
    ensures AsValue("true") == Bool(true)
  {
    NotSpecial("true");
    assert DigitRun("true") == 0;
  }

  lemma FloatExample()
    ensures AsValue("0.12") == Float64(Finite(0.12))
  {
    assert Atoi("0.12").None? by {
      assert SplitSign("0.12") == (false, "0.12");
      assert !IsDigit("0.12"[1]);
    }
    FloatLiteralExample();
  }

  /** `ParseFloat("0.12")` is the real 0.12. */
  lemma FloatLiteralExample()
    ensures ParseFloat("0.12") == Some(Finite(0.12))
  {
    NotSpecial("0.12");
    DecimalExample();
    assert DecimalValue(Decimal(false, 12, -2)) == 0.12;
  }

  /** "0.12" is the digits 012 with two of them after the point. */
  lemma DecimalExample()
    ensures ParseDecimal("0.12") == Some(Decimal(false, 12, -2))
  {
    assert SplitSign("0.12") == (false, "0.12");
    assert DigitRun("0.12") == 1;
    assert "0.12"[1..] == ".12" && ".12"[1..] == "12";
    DigitRunOfDigits("12");
    assert "0.12"[..1] == "0" && "12"[..2] == "12" && "12"[2..] == "";
    assert "0" + "12" == "012";
    assert "012"[..2] == "01" && "01"[..1] == "0" && "0"[..0] == "";
    assert DigitsValue("012") == 12;
  }
}
