/** The static type graph (models/TypeBindings.cs): three bindings, `int`,
    `string` and `bool`, each with a table from operator lexeme to the binding
    of the result, and structural type inference over expressions. Inference
    reads the declared types of the symbol table and its only effect is the
    list of errors it appends, which the model returns next to the binding. */
module TypeBindings {
  import opened Util
  import opened Tokens
  import opened Operators
  import opened Ast
  import opened Errors
  import opened Symbols

  const PrimitiveIntegerName: string := "int"
  const PrimitiveStringName: string := "string"
  const PrimitiveBooleanName: string := "bool"

  /** The three TypeBinding objects the static constructor creates; being distinct
      objects, two bindings are the same reference exactly when they are equal here. */
  datatype TypeBinding = BooleanBinding | StringBinding | IntegerBinding

  function Name(b: TypeBinding): string {
    match b
    case BooleanBinding => PrimitiveBooleanName
    case StringBinding => PrimitiveStringName
    case IntegerBinding => PrimitiveIntegerName
  }

  /** The operator table each binding is given. */
  function Transitions(b: TypeBinding): map<string, TypeBinding> {
    match b
    case BooleanBinding => map[Equality := BooleanBinding, Not := BooleanBinding, And := BooleanBinding]
    case StringBinding => map[Addition := StringBinding, Equality := BooleanBinding]
    case IntegerBinding =>
      map[Addition := IntegerBinding, Subtraction := IntegerBinding, Multiplication := IntegerBinding,
          Division := IntegerBinding, Less := BooleanBinding, Equality := BooleanBinding]
  }

  /** TypeBinding.Operate: the result binding, or null for an operator not in the table. */
  function Operate(b: TypeBinding, oper: string): (r: Option<TypeBinding>)
    ensures r.Some? <==> oper in Transitions(b)
  {
    if oper in Transitions(b) then Some(Transitions(b)[oper]) else None
  }

  /** The name-to-binding dictionary filled by AddTypeBinding. */
  function Types(): map<string, TypeBinding> {
    map[Name(BooleanBinding) := BooleanBinding, Name(StringBinding) := StringBinding,
        Name(IntegerBinding) := IntegerBinding]
  }

  function GetTypeByName(name: string): (r: Outcome<TypeBinding>) {
    if name in Types() then Ok(Types()[name]) else Fault("Invalid type: " + name)
  }

  /** The table, operator by operator. */
  lemma TransitionTable(oper: string)
    ensures Operate(BooleanBinding, oper)
         == (if oper == Equality || oper == Not || oper == And then Some(BooleanBinding) else None)
    ensures Operate(StringBinding, oper)
         == (if oper == Addition then Some(StringBinding)
             else if oper == Equality then Some(BooleanBinding) else None)
    ensures Operate(IntegerBinding, oper)
         == (if oper == Addition || oper == Subtraction || oper == Multiplication || oper == Division
             then Some(IntegerBinding)
             else if oper == Less || oper == Equality then Some(BooleanBinding) else None)
  {
  }

  /** Every result of the table is one of its own bindings, and only operator lexemes occur in it. */
  lemma TransitionsAreOperators(b: TypeBinding, oper: string)
    requires oper in Transitions(b)
    ensures IsBinaryOperator(oper) || IsUnaryOperator(oper)
  {
  }

  /** GetTypeByName succeeds exactly for the three names, and gives the binding of that name. */
  lemma GetTypeByNameExactly(name: string)
    ensures GetTypeByName(name).Ok?
        <==> name == PrimitiveIntegerName || name == PrimitiveStringName || name == PrimitiveBooleanName
    ensures GetTypeByName(name).Ok? ==> Name(GetTypeByName(name).value) == name
  {
  }

  lemma GetTypeByNameOfName(b: TypeBinding)
    ensures GetTypeByName(Name(b)) == Ok(b)
  {
  }

  /** Every declared variable has one of the three type names. Only a tree from a
      parse with errors can declare another type, and such a tree is never analysed. */
  predicate KnownTypes(symbols: map<string, Entry>) {
    forall x :: x in symbols ==> symbols[x].variableType in Types()
  }

  /** Every declaration names one of the three types; like KnownTypes, this holds
      for every tree that parsed without errors. */
  predicate DeclaredTypesKnown(s: Statement) {
    match s
    case DeclarationStmt(_, typ, _) => typ.lexeme in Types()
    case ForLoopStmt(_, _, _, body) => forall k :: 0 <= k < |body| ==> DeclaredTypesKnown(body[k])
    case _ => true
  }

  predicate AllDeclaredTypesKnown(ss: seq<Statement>) {
    forall k :: 0 <= k < |ss| ==> DeclaredTypesKnown(ss[k])
  }

  const Mismatch: string := "Types of left and right operand do not match"
  const BinaryNotApplicable: string := "Could not apply operator to given types"
  const UnaryNotApplicable: string := "Could not apply operator to given type"
  const Undeclared: string := "Undeclared variable"

  /** An error that type inference reports: a semantic error at a token. */
  function SemanticAt(t: Token, message: string): ErrorEntry {
    TokenEntry(t, SemanticError, message)
  }

  predicate AllSemantic(errs: seq<ErrorEntry>) {
    forall i :: 0 <= i < |errs| ==> errs[i].kind == SemanticError
  }

  /** DecideType: the binding of an expression (None for null) and the errors it
      appends, in the order they are added; the left operand is inferred first. */
  function DecideType(e: Expression, symbols: map<string, Entry>): (r: (Option<TypeBinding>, seq<ErrorEntry>))
    requires KnownTypes(symbols)
    ensures AllSemantic(r.1)
    ensures r.0.Some? ==> r.1 == []
  {
    match e
    case Binary(oper, left, right) =>
      var (lt, le) := DecideType(left, symbols);
      var (rt, re) := DecideType(right, symbols);
      if lt.None? || rt.None? then (None, le + re)
      else if lt != rt then (None, le + re + [SemanticAt(oper, Mismatch)])
      else
        var ret := Operate(rt.value, oper.lexeme);
        (ret, le + re + (if ret.None? then [SemanticAt(oper, BinaryNotApplicable)] else []))
    case Unary(oper, operand) =>
      var (ot, oe) := DecideType(operand, symbols);
      if ot.None? then (None, oe)
      else
        var ret := Operate(ot.value, oper.lexeme);
        (ret, oe + (if ret.None? then [SemanticAt(oper, UnaryNotApplicable)] else []))
    case Leaf(t) =>
      if t.category == LiteralInteger then (Some(IntegerBinding), [])
      else if t.category == LiteralString then (Some(StringBinding), [])
      else if t.category == Identifier then
        if t.lexeme in symbols then (Some(Types()[symbols[t.lexeme].variableType]), [])
        else (None, [SemanticAt(t, Undeclared)])
      else (None, [])
    case NoExpression => (None, [])
  }

  // ----- what inference promises, case by case -----

  /** Leaves: literals have their type, a declared identifier its declared type, an
      undeclared identifier gives null and exactly one error, anything else null silently. */
  lemma DecideLeaf(t: Token, symbols: map<string, Entry>)
    requires KnownTypes(symbols)
    ensures t.category == LiteralInteger ==> DecideType(Leaf(t), symbols) == (Some(IntegerBinding), [])
    ensures t.category == LiteralString ==> DecideType(Leaf(t), symbols) == (Some(StringBinding), [])
    ensures t.category == Identifier && t.lexeme in symbols
        ==> (DecideType(Leaf(t), symbols).1 == []
             && GetTypeByName(symbols[t.lexeme].variableType) == Ok(DecideType(Leaf(t), symbols).0.value))
    ensures t.category == Identifier && t.lexeme !in symbols
        ==> DecideType(Leaf(t), symbols) == (None, [SemanticAt(t, Undeclared)])
    ensures !IsOperand(t) ==> DecideType(Leaf(t), symbols) == (None, [])
  {
  }

  /** A binary node over a null child is null and adds nothing of its own. */
  lemma DecideBinaryNullChild(oper: Token, l: Expression, r: Expression, symbols: map<string, Entry>)
    requires KnownTypes(symbols)
    requires DecideType(l, symbols).0.None? || DecideType(r, symbols).0.None?
    ensures DecideType(Binary(oper, l, r), symbols)
         == (None, DecideType(l, symbols).1 + DecideType(r, symbols).1)
  {
  }

  /** A binary node over children of different types is null with exactly one error, at the operator. */
  lemma DecideBinaryMismatch(oper: Token, l: Expression, r: Expression, symbols: map<string, Entry>)
    requires KnownTypes(symbols)
    requires DecideType(l, symbols).0.Some? && DecideType(r, symbols).0.Some?
    requires DecideType(l, symbols).0 != DecideType(r, symbols).0
    ensures DecideType(Binary(oper, l, r), symbols) == (None, [SemanticAt(oper, Mismatch)])
  {
    var le, re := DecideType(l, symbols).1, DecideType(r, symbols).1;
    assert le == [] && re == [];
    assert DecideType(Binary(oper, l, r), symbols).1 == le + re + [SemanticAt(oper, Mismatch)];
    assert le + re + [SemanticAt(oper, Mismatch)] == [SemanticAt(oper, Mismatch)];
    assert DecideType(Binary(oper, l, r), symbols).0 == None;
  }

  /** A binary node over children of one type has the operator's result type, or one error. */
  lemma DecideBinaryMatch(oper: Token, l: Expression, r: Expression, symbols: map<string, Entry>)
    requires KnownTypes(symbols)
    requires DecideType(l, symbols).0.Some? && DecideType(l, symbols).0 == DecideType(r, symbols).0
    ensures DecideType(Binary(oper, l, r), symbols).0 == Operate(DecideType(l, symbols).0.value, oper.lexeme)
    ensures DecideType(Binary(oper, l, r), symbols).1
         == if DecideType(Binary(oper, l, r), symbols).0.None? then [SemanticAt(oper, BinaryNotApplicable)] else []
  {
  }

  /** A unary node passes null on silently; otherwise the operator's result type, or one error. */
  lemma DecideUnary(oper: Token, x: Expression, symbols: map<string, Entry>)
    requires KnownTypes(symbols)
    ensures DecideType(x, symbols).0.None? ==> DecideType(Unary(oper, x), symbols) == DecideType(x, symbols)
    ensures DecideType(x, symbols).0.Some?
        ==> (DecideType(Unary(oper, x), symbols).0 == Operate(DecideType(x, symbols).0.value, oper.lexeme)
             && DecideType(Unary(oper, x), symbols).1
             == if DecideType(Unary(oper, x), symbols).0.None? then [SemanticAt(oper, UnaryNotApplicable)] else [])
  {
  }

  /** Expressions the parser can build: complete, with operand leaves. */
  predicate OperandLeaves(e: Expression) {
    match e
    case Binary(_, l, r) => OperandLeaves(l) && OperandLeaves(r)
    case Unary(_, x) => OperandLeaves(x)
    case Leaf(t) => IsOperand(t)
    case NoExpression => false
  }

  /** On such an expression inference is never silently null: it finds a type exactly
      when it reports no error. */
  lemma {:induction false} TypedIffNoErrors(e: Expression, symbols: map<string, Entry>)
    requires KnownTypes(symbols) && OperandLeaves(e)
    ensures DecideType(e, symbols).0.Some? <==> DecideType(e, symbols).1 == []
  {
    match e
    case Binary(_, l, r) =>
      TypedIffNoErrors(l, symbols);
      TypedIffNoErrors(r, symbols);
    case Unary(_, x) =>
      TypedIffNoErrors(x, symbols);
    case Leaf(_) =>
  }

  /** The number of operator nodes and leaves. */
  function Size(e: Expression): nat {
    match e
    case Binary(_, l, r) => 1 + Size(l) + Size(r)
    case Unary(_, x) => 1 + Size(x)
    case Leaf(_) => 1
    case NoExpression => 0
  }

  /** At most one error per node: each inconsistency is reported once, where it arises. */
  lemma {:induction false} AtMostOneErrorPerNode(e: Expression, symbols: map<string, Entry>)
    requires KnownTypes(symbols)
    ensures |DecideType(e, symbols).1| <= Size(e)
  {
    match e
    case Binary(_, l, r) =>
      AtMostOneErrorPerNode(l, symbols);
      AtMostOneErrorPerNode(r, symbols);
    case Unary(_, x) =>
      AtMostOneErrorPerNode(x, symbols);
    case _ =>
  }
}
