/** The run-time values of the interpreter: the boxed C# `object`s a MiniPL
    variable holds. An `object` that may be null is an `Option<Value>`.
    Integers are 32-bit, with the wrap-around of unchecked C# arithmetic. */
module Values {
  import opened Util

  const MinInt32: int := -0x8000_0000
  const MaxInt32: int := 0x7FFF_FFFF

  type Int32 = x: int | MinInt32 <= x <= MaxInt32

  datatype Value = IntValue(i: Int32) | BoolValue(b: bool) | StringValue(s: string)

  // Messages of the .NET exceptions the interpreter can raise.
  const NullReference: string := "Object reference not set to an instance of an object."
  const InvalidCast: string := "Specified cast is not valid."
  const DivideByZero: string := "Attempted to divide by zero."
  const ArithmeticOverflow: string := "Arithmetic operation resulted in an overflow."
  const ParseOverflow: string := "Value was either too large or too small for an Int32."
  const ArgumentNull: string := "Value cannot be null. (Parameter 'key')"
  const DuplicateKey: string := "An item with the same key has already been added."

  /** Reduce an integer to the 32-bit two's-complement value with the same low bits. */
  function Wrap32(x: int): (r: Int32)
    ensures MinInt32 <= x <= MaxInt32 ==> r == x
    ensures (r - x) % 0x1_0000_0000 == 0
  {
    (x - MinInt32) % 0x1_0000_0000 + MinInt32
  }

  function Abs(x: int): nat {
    if x < 0 then -x else x
  }

  /** C#'s int division: the quotient truncated toward zero (Dafny's `/` is Euclidean). */
  function TruncDiv(a: int, b: int): (q: int)
    requires b != 0
    ensures a >= 0 && b > 0 ==> q == a / b
  {
    if a >= 0 && b > 0 then a / b
    else if a < 0 && b > 0 then -((-a) / b)
    else if a >= 0 then -(a / (-b))
    else (-a) / (-b)
  }

  /** Truncation is symmetric in the signs, so together with the natural case above it
      fixes the quotient of every pair. */
  lemma TruncDivSymmetric(a: int, b: int)
    requires b != 0
    ensures TruncDiv(-a, b) == -TruncDiv(a, b)
    ensures TruncDiv(a, -b) == -TruncDiv(a, b)
  {
    if a == 0 {
      assert 0 / Abs(b) == 0;
    } else if a > 0 && b > 0 {
      assert -a < 0;
    }
  }

  /** Where truncation and Euclidean division part ways. */
  lemma TruncDivExample()
    ensures TruncDiv(-7, 2) == -3 && -7 / 2 == -4
  {
  }

  /** The 32-bit int.Parse of a digit string: its value, or an overflow. */
  function ParseInt32(s: string): (r: Outcome<Int32>)
    ensures r.Ok? <==> ParseInt(s).Ok? && ParseInt(s).value <= MaxInt32
    ensures r.Ok? ==> r.value == ParseInt(s).value
  {
    match ParseInt(s)
    case Fault(m) => Fault(m)
    case Ok(n) => if n <= MaxInt32 then Ok(n) else Fault(ParseOverflow)
  }

  // Unboxing casts `(int)o`, `(bool)o` and the reference cast `(string)o`.

  function AsInt(o: Option<Value>): (r: Outcome<Int32>)
    ensures r.Ok? <==> o.Some? && o.value.IntValue?
    ensures r.Ok? ==> o.value == IntValue(r.value)
  {
    match o
    case None => Fault(NullReference)
    case Some(IntValue(i)) => Ok(i)
    case Some(_) => Fault(InvalidCast)
  }

  function AsBool(o: Option<Value>): (r: Outcome<bool>)
    ensures r.Ok? <==> o.Some? && o.value.BoolValue?
    ensures r.Ok? ==> o.value == BoolValue(r.value)
  {
    match o
    case None => Fault(NullReference)
    case Some(BoolValue(b)) => Ok(b)
    case Some(_) => Fault(InvalidCast)
  }

  /** A null reference survives the cast to string. */
  function AsString(o: Option<Value>): (r: Outcome<Option<string>>)
    ensures r.Ok? <==> o.None? || o.value.StringValue?
    ensures r.Ok? && o.Some? ==> r.value == Some(o.value.s)
    ensures o.None? ==> r == Ok(None)
  {
    match o
    case None => Ok(None)
    case Some(StringValue(s)) => Ok(Some(s))
    case Some(_) => Fault(InvalidCast)
  }

  /** A null string concatenates as the empty string. */
  function OrEmpty(s: Option<string>): string {
    if s.Some? then s.value else ""
  }

  /** Object.ToString of a value; a null reference throws. */
  function ValueText(o: Option<Value>): (r: Outcome<string>)
    ensures r.Ok? <==> o.Some?
    ensures o.Some? && o.value.StringValue? ==> r.value == o.value.s
    ensures o.Some? && o.value.IntValue? ==> r.value == IntToString(o.value.i)
  {
    match o
    case None => Fault(NullReference)
    case Some(IntValue(i)) => Ok(IntToString(i))
    case Some(BoolValue(b)) => Ok(if b then "True" else "False")
    case Some(StringValue(s)) => Ok(s)
  }
}
