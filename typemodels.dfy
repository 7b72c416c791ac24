/** The operator implementations of the interpreter (interpreter/TypeModels.cs):
    per type binding a default value, a table of binary operator implementations
    and, for `bool` only, a table of unary ones. The implementations unbox their
    operands with C# casts, so a wrong or null operand is a fault. */
module TypeModels {
  import opened Util
  import opened Tokens
  import opened Operators
  import opened Values
  import opened TypeBindings

  /** The default value each model is created with. */
  function DefaultValue(b: TypeBinding): Value {
    match b
    case IntegerBinding => IntValue(0)
    case BooleanBinding => BoolValue(false)
    case StringBinding => StringValue("")
  }

  /** GetDefaultValue: a null binding is not a dictionary key. */
  function GetDefaultValue(b: Option<TypeBinding>): (r: Outcome<Value>)
    ensures r.Ok? <==> b.Some?
  {
    if b.Some? then Ok(DefaultValue(b.value)) else Fault(ArgumentNull)
  }

  /** The keys of each binary implementation table. */
  function BinaryOps(b: TypeBinding): set<Op> {
    match b
    case IntegerBinding => {Add, Sub, Mul, Div, Lt, Eq}
    case BooleanBinding => {Eq, AndOp}
    case StringBinding => {Eq, Add}
  }

  /** Only the boolean model has a unary table; the others leave it null. */
  function UnaryOps(b: TypeBinding): Option<set<Op>> {
    if b == BooleanBinding then Some({NotOp}) else None
  }

  /** The string `==` of C#, which compares null references too. */
  function StringEquals(a: Option<string>, b: Option<string>): bool {
    a == b
  }

  /** The lambda of each binary table entry, with the casts it performs, left operand first. */
  function ApplyBinary(b: TypeBinding, op: Op, left: Option<Value>, right: Option<Value>): Outcome<Option<Value>>
    requires op in BinaryOps(b)
  {
    match b
    case IntegerBinding =>
      var l :- AsInt(left);
      var r :- AsInt(right);
      (match op
       case Add => Ok(Some(IntValue(Wrap32(l + r))))
       case Sub => Ok(Some(IntValue(Wrap32(l - r))))
       case Mul => Ok(Some(IntValue(Wrap32(l * r))))
       case Div =>
         if r == 0 then Fault(DivideByZero)
         else if l == MinInt32 && r == -1 then Fault(ArithmeticOverflow)
         else Ok(Some(IntValue(TruncDiv(l, r) as Int32)))
       case Lt => Ok(Some(BoolValue(l < r)))
       case Eq => Ok(Some(BoolValue(l == r))))
    case BooleanBinding =>
      var l :- AsBool(left);
      if op == AndOp && !l then Ok(Some(BoolValue(false)))
      else
        var r :- AsBool(right);
        if op == AndOp then Ok(Some(BoolValue(r))) else Ok(Some(BoolValue(l == r)))
    case StringBinding =>
      var l :- AsString(left);
      var r :- AsString(right);
      if op == Eq then Ok(Some(BoolValue(StringEquals(l, r))))
      else Ok(Some(StringValue(OrEmpty(l) + OrEmpty(r))))
  }

  /** The TokenCategory name an operator is keyed by, as the fault message prints it. */
  function OperatorCategoryName(op: Op): string {
    match op
    case Add => "Operator_Addition"
    case Sub => "Operator_Substraction"
    case Mul => "Operator_Multiplication"
    case Div => "Operator_Division"
    case AndOp => "Operator_And"
    case Eq => "Operator_Equality"
    case Lt => "Operator_Less"
    case NotOp => "Operator_Not"
  }

  /** What Object.ToString gives for a TypeBinding, which does not override it. */
  const BindingClassName: string := "CompilersProject.TypeBinding"

  function NotImplemented(oper: Token): string {
    var name := if OpOfLexeme(oper.lexeme).Some? then OperatorCategoryName(OpOfLexeme(oper.lexeme).value)
                else CategoryName(oper.category);
    "Type model for type binding " + BindingClassName + " does not implement operator " + name
  }

  /** EvaluateBinaryOperator: dispatch on the binding and the operator token. */
  function EvaluateBinaryOperator(b: Option<TypeBinding>, oper: Token, left: Option<Value>, right: Option<Value>)
    : Outcome<Option<Value>>
  {
    if b.None? then Fault(ArgumentNull)
    else
      var op := OpOfLexeme(oper.lexeme);
      if op.Some? && op.value in BinaryOps(b.value) then ApplyBinary(b.value, op.value, left, right)
      else Fault(NotImplemented(oper))
  }

  /** EvaluateUnaryOperator: a model without a unary table dereferences null. */
  function EvaluateUnaryOperator(b: Option<TypeBinding>, oper: Token, operand: Option<Value>)
    : Outcome<Option<Value>>
  {
    if b.None? then Fault(ArgumentNull)
    else if UnaryOps(b.value).None? then Fault(NullReference)
    else if OpOfLexeme(oper.lexeme) == Some(NotOp) then
      var v :- AsBool(operand);
      Ok(Some(BoolValue(!v)))
    else Fault(NotImplemented(oper))
  }

  // ----- agreement with the type graph -----

  /** A value belongs to a binding. */
  predicate HasType(v: Value, b: TypeBinding) {
    match b
    case IntegerBinding => v.IntValue?
    case BooleanBinding => v.BoolValue?
    case StringBinding => v.StringValue?
  }

  lemma DefaultValueHasType(b: TypeBinding)
    ensures HasType(DefaultValue(b), b)
    ensures GetDefaultValue(Some(b)) == Ok(DefaultValue(b))
    ensures b == IntegerBinding ==> DefaultValue(b) == IntValue(0)
    ensures b == BooleanBinding ==> DefaultValue(b) == BoolValue(false)
    ensures b == StringBinding ==> DefaultValue(b) == StringValue("")
  {
  }

  /** Exactly the binary operators that the type graph types have an implementation. */
  lemma BinaryTablesAgree(b: TypeBinding, op: Op)
    ensures op in BinaryOps(b) <==> op != NotOp && TypeBindings.Operate(b, Lexeme(op)).Some?
  {
    TransitionTable(Lexeme(op));
  }

  /** Exactly the unary operators that the type graph types have an implementation. */
  lemma UnaryTablesAgree(b: TypeBinding, op: Op)
    ensures (UnaryOps(b).Some? && op in UnaryOps(b).value)
        <==> op == NotOp && TypeBindings.Operate(b, Lexeme(op)).Some?
  {
    TransitionTable(Lexeme(op));
  }

  /** A division that faults even on well-typed operands. */
  predicate DivisionFault(op: Op, left: Value, right: Value) {
    op == Div && left.IntValue? && right.IntValue?
    && (right.i == 0 || (left.i == MinInt32 && right.i == -1))
  }

  /** Applied to operands of the binding's type, every implemented binary operator
      succeeds (unless it divides by zero or overflows the division) and its value
      belongs to the result type that the type graph gives. */
  lemma BinarySound(b: TypeBinding, op: Op, left: Value, right: Value)
    requires op in BinaryOps(b) && HasType(left, b) && HasType(right, b)
    ensures TypeBindings.Operate(b, Lexeme(op)).Some?
    ensures var r := ApplyBinary(b, op, Some(left), Some(right));
            (r.Ok? <==> !DivisionFault(op, left, right))
            && (r.Ok? ==> r.value.Some? && HasType(r.value.value, TypeBindings.Operate(b, Lexeme(op)).value))
  {
    BinaryTablesAgree(b, op);
    TransitionTable(Lexeme(op));
  }

  /** Negation of a boolean succeeds with a boolean. */
  lemma UnarySound(b: TypeBinding, oper: Token, v: Value)
    requires TypeBindings.Operate(b, oper.lexeme).Some? && IsUnaryOperator(oper.lexeme) && HasType(v, b)
    ensures EvaluateUnaryOperator(Some(b), oper, Some(v)) == Ok(Some(BoolValue(!v.b)))
    ensures HasType(BoolValue(!v.b), TypeBindings.Operate(b, oper.lexeme).value)
  {
    TransitionTable(oper.lexeme);
  }

  /** The int operators are 32-bit arithmetic and comparison; `/` truncates toward zero. */
  lemma IntegerOperators(l: Int32, r: Int32)
    ensures ApplyBinary(IntegerBinding, Add, Some(IntValue(l)), Some(IntValue(r))) == Ok(Some(IntValue(Wrap32(l + r))))
    ensures ApplyBinary(IntegerBinding, Sub, Some(IntValue(l)), Some(IntValue(r))) == Ok(Some(IntValue(Wrap32(l - r))))
    ensures ApplyBinary(IntegerBinding, Mul, Some(IntValue(l)), Some(IntValue(r))) == Ok(Some(IntValue(Wrap32(l * r))))
    ensures r != 0 && !(l == MinInt32 && r == -1)
        ==> ApplyBinary(IntegerBinding, Div, Some(IntValue(l)), Some(IntValue(r))).value.value.i == TruncDiv(l, r)
    ensures ApplyBinary(IntegerBinding, Lt, Some(IntValue(l)), Some(IntValue(r))) == Ok(Some(BoolValue(l < r)))
    ensures ApplyBinary(IntegerBinding, Eq, Some(IntValue(l)), Some(IntValue(r))) == Ok(Some(BoolValue(l == r)))
  {
  }

  /** `&` is conjunction (its right operand is not even cast when the left is false),
      `=` is equality and `!` is negation. */
  lemma BooleanOperators(l: bool, r: Option<Value>, oper: Token)
    requires OpOfLexeme(oper.lexeme) == Some(NotOp)
    ensures !l ==> ApplyBinary(BooleanBinding, AndOp, Some(BoolValue(l)), r) == Ok(Some(BoolValue(false)))
    ensures r.Some? && r.value.BoolValue?
        ==> (ApplyBinary(BooleanBinding, AndOp, Some(BoolValue(l)), r) == Ok(Some(BoolValue(l && r.value.b)))
             && ApplyBinary(BooleanBinding, Eq, Some(BoolValue(l)), r) == Ok(Some(BoolValue(l == r.value.b))))
    ensures EvaluateUnaryOperator(Some(BooleanBinding), oper, Some(BoolValue(l))) == Ok(Some(BoolValue(!l)))
  {
  }

  /** `+` concatenates strings and `=` compares them. */
  lemma StringOperators(l: string, r: string)
    ensures ApplyBinary(StringBinding, Add, Some(StringValue(l)), Some(StringValue(r))) == Ok(Some(StringValue(l + r)))
    ensures ApplyBinary(StringBinding, Eq, Some(StringValue(l)), Some(StringValue(r))) == Ok(Some(BoolValue(l == r)))
  {
  }

  /** A pair without an implementation faults; int and string have no unary operators at all. */
  lemma MissingImplementationsFault(b: TypeBinding, oper: Token, l: Option<Value>, r: Option<Value>)
    requires OpOfLexeme(oper.lexeme).None? || OpOfLexeme(oper.lexeme).value !in BinaryOps(b)
    ensures EvaluateBinaryOperator(Some(b), oper, l, r) == Fault(NotImplemented(oper))
    ensures b != BooleanBinding ==> EvaluateUnaryOperator(Some(b), oper, l) == Fault(NullReference)
  {
  }
}
