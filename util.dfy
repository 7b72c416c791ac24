/** Helpers shared by every stage: optional values, the outcome of an operation
    that the C# code lets throw, the ASCII reading of the .NET character tests,
    and decimal text for integers. */
module Util {

  /** A value or nothing; stands for a C# reference that may be null. */
  datatype Option<T> = None | Some(value: T)

  /** The result of an operation that may throw in the source: a value, or a
      fault carrying the exception's message. */
  datatype Outcome<T> = Ok(value: T) | Fault(message: string)
  {
    predicate IsFailure() {
      Fault?
    }

    function PropagateFailure<U>(): Outcome<U>
      requires Fault?
    {
      Fault(message)
    }

    function Extract(): T
      requires Ok?
    {
      value
    }
  }

  /** Concatenation is associative (stated once, so that proofs need not rediscover it). */
  lemma AppendAssoc<T>(a: seq<T>, b: seq<T>, c: seq<T>)
    ensures (a + b) + c == a + (b + c)
  {
  }

  // Char.IsLetter, Char.IsDigit / Char.IsNumber and Char.IsWhiteSpace, read as ASCII tests.

  predicate IsLetter(c: char) {
    'a' <= c <= 'z' || 'A' <= c <= 'Z'
  }

  predicate IsDigit(c: char) {
    '0' <= c <= '9'
  }

  predicate IsLetterOrDigit(c: char) {
    IsLetter(c) || IsDigit(c)
  }

  predicate IsWhiteSpace(c: char) {
    c == ' ' || c == '\t' || c == '\n' || c == '\r' || c == '\U{000B}' || c == '\U{000C}'
  }

  predicate AllDigits(s: string) {
    forall i :: 0 <= i < |s| ==> IsDigit(s[i])
  }

  function DigitChar(d: nat): (c: char)
    requires d < 10
    ensures IsDigit(c) && c as int - '0' as int == d
  {
    ('0' as int + d) as char
  }

  /** Decimal text of a natural number, without leading zeros. */
  function NatToString(n: nat): (s: string)
    ensures |s| >= 1 && AllDigits(s)
    ensures s[0] == '0' ==> n == 0
    decreases n
  {
    if n < 10 then [DigitChar(n)] else NatToString(n / 10) + [DigitChar(n % 10)]
  }

  /** Int32.ToString for the model's unbounded integers: a minus sign for negatives. */
  function IntToString(i: int): string {
    if i < 0 then "-" + NatToString(-i) else NatToString(i)
  }

  /** The value of a string of decimal digits. */
  function DigitsValue(s: string): nat
    requires AllDigits(s)
    decreases |s|
  {
    if s == [] then 0 else DigitsValue(s[..|s| - 1]) * 10 + (s[|s| - 1] as int - '0' as int)
  }

  /** The FormatException message of int.Parse. */
  const NotDigits: string := "Input string was not in a correct format."

  /** int.Parse on the digit strings the scanner produces: anything else throws. */
  function ParseInt(s: string): Outcome<int> {
    if s != [] && AllDigits(s) then Ok(DigitsValue(s))
    else Fault(NotDigits)
  }

  lemma {:induction false} DigitsValueOfNatToString(n: nat)
    ensures DigitsValue(NatToString(n)) == n
    decreases n
  {
    if n >= 10 {
      var s := NatToString(n);
      assert s[..|s| - 1] == NatToString(n / 10);
      DigitsValueOfNatToString(n / 10);
    }
  }

  /** Parsing the decimal text of a natural number gives the number back. */
  lemma ParseIntOfNatToString(n: nat)
    ensures ParseInt(NatToString(n)) == Ok(n)
  {
    DigitsValueOfNatToString(n);
  }
}
