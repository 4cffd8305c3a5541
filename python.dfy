/** The few pieces of Python's runtime that spriteutil.py relies on: dynamically
    typed argument values, `str()` of an integer, the exceptions it raises, and
    the result of a call that either returns or raises. */
module Python {

  /** A Python argument value. `Int` is an object whose `type()` is exactly `int`;
      everything else (`None`, `True`, floats, strings, tuples, ...) is `Other`,
      carrying the text that `str()` gives for it. */
  datatype Value = Int(i: int) | Other(repr: string)

  /** The exceptions raised by the modelled code. */
  datatype Exception =
    | ValueError(message: string)
    | AttributeError(message: string)
    | StatisticsError(message: string)

  /** A call that returns a value or raises an exception. */
  datatype Result<+T> = Success(value: T) | Failure(error: Exception)

  /** A call that returns nothing or raises an exception. */
  datatype Outcome = Pass | Fail(error: Exception)

  /** The character of a decimal digit. */
  function DigitChar(d: nat): (c: char)
    requires d < 10
    ensures '0' <= c <= '9'
  {
    (('0' as int) + d) as char
  }

  /** The decimal digits of `n`, most significant first, with no sign and no
      leading zeros (`Digits(0) == "0"`). */
  function Digits(n: nat): (s: string)
    ensures |s| >= 1
    decreases n
  {
    if n < 10 then [DigitChar(n)] else Digits(n / 10) + [DigitChar(n % 10)]
  }

  /** `str(i)` for a Python `int`: a minus sign, then the digits of `|i|`. */
  function IntToString(i: int): string
  {
    if i < 0 then "-" + Digits(-i) else Digits(i)
  }

  /** `str(v)` for an argument value. */
  function Str(v: Value): string
  {
    match v
    case Int(i) => IntToString(i)
    case Other(repr) => repr
  }

  /** The digits of a natural number are decimal digits only; no sign among them. */
  lemma {:induction false} NoSignInDigits(n: nat)
    ensures forall k :: 0 <= k < |Digits(n)| ==> '0' <= Digits(n)[k] <= '9'
    decreases n
  {
    if n >= 10 {
      NoSignInDigits(n / 10);
    }
  }

  /** The text of an integer holds a minus sign exactly when the integer is negative. */
  lemma MinusInIntToStringIffNegative(i: int)
    ensures '-' in IntToString(i) <==> i < 0
  {
    if i < 0 {
      assert IntToString(i)[0] == '-';
    } else {
      NoSignInDigits(i);
    }
  }
}
