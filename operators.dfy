/** The operator vocabulary (models/Operators.cs): the eight operator lexemes and
    the binary/unary membership tests, plus the `Op` datatype that the type table
    and the operator implementations share. */
module Operators {
  import opened Util

  const Addition: string := "+"
  const Subtraction: string := "-"
  const Multiplication: string := "*"
  const Division: string := "/"
  const And: string := "&"
  const Equality: string := "="
  const Less: string := "<"
  const Not: string := "!"

  const BinaryOperators: seq<string> := [Addition, Subtraction, Multiplication, Division, And, Equality, Less]
  const UnaryOperators: seq<string> := [Not]

  predicate IsBinaryOperator(oper: string) {
    oper in BinaryOperators
  }

  predicate IsUnaryOperator(oper: string) {
    oper in UnaryOperators
  }

  /** One operator, whatever table it is looked up in. */
  datatype Op = Add | Sub | Mul | Div | AndOp | Eq | Lt | NotOp

  function Lexeme(op: Op): string {
    match op
    case Add => Addition
    case Sub => Subtraction
    case Mul => Multiplication
    case Div => Division
    case AndOp => And
    case Eq => Equality
    case Lt => Less
    case NotOp => Not
  }

  /** The operator an operator token's lexeme denotes, if any. */
  function OpOfLexeme(s: string): (r: Option<Op>)
    ensures r.Some? ==> Lexeme(r.value) == s
  {
    if s == Addition then Some(Add)
    else if s == Subtraction then Some(Sub)
    else if s == Multiplication then Some(Mul)
    else if s == Division then Some(Div)
    else if s == And then Some(AndOp)
    else if s == Equality then Some(Eq)
    else if s == Less then Some(Lt)
    else if s == Not then Some(NotOp)
    else None
  }

  /** Op and its lexeme are interchangeable. */
  lemma OpOfLexemeRoundTrip(op: Op)
    ensures OpOfLexeme(Lexeme(op)) == Some(op)
  {
  }

  /** The eight constants are distinct one-character strings. */
  lemma OperatorConstantsDistinct()
    ensures forall op: Op :: |Lexeme(op)| == 1
    ensures forall a: Op, b: Op :: Lexeme(a) == Lexeme(b) ==> a == b
  {
    forall a: Op, b: Op | Lexeme(a) == Lexeme(b) ensures a == b {
      OpOfLexemeRoundTrip(a);
      OpOfLexemeRoundTrip(b);
    }
  }

  /** The binary list is exactly the operators other than `!`. */
  lemma BinaryOperatorExactly(s: string)
    ensures IsBinaryOperator(s) <==> OpOfLexeme(s).Some? && OpOfLexeme(s) != Some(NotOp)
  {
  }

  /** The unary list is exactly `!`. */
  lemma UnaryOperatorExactly(s: string)
    ensures IsUnaryOperator(s) <==> OpOfLexeme(s) == Some(NotOp)
  {
  }

  /** No lexeme is both a binary and a unary operator. */
  lemma BinaryAndUnaryDisjoint(s: string)
    ensures !(IsBinaryOperator(s) && IsUnaryOperator(s))
  {
  }
}
