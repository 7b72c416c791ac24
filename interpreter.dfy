/** The tree-walking interpreter (interpreter/Interpreter.cs). Expressions are
    evaluated by pure recursion over the symbol table, dispatching operators on
    the static type of their (left) operand; statements change the symbol table,
    consume the input and append to two outputs: the console, which `print`
    writes to, and the stream writer that failed asserts write their messages to.
    A C# exception that escapes a statement ends the run: the spec functions
    return the state reached together with the fault, and the methods of class
    `Interpreter` return the fault and leave their fields in that state. */
module Interpreting {
  import opened Util
  import opened Tokens
  import opened Operators
  import opened Ast
  import opened Values
  import opened Symbols
  import opened TypeBindings
  import opened TypeModels

  const UndeclaredVariable: string := "Undeclared variable"
  const EndOfInput: string := "The input closed unexpectedly"

  // ----- expressions -----

  /** Evaluate: the value of an expression, or the exception it throws. A binary node
      takes its binding from its left operand and evaluates left before right. */
  function Evaluate(e: Expression, symbols: map<string, Entry>): Outcome<Option<Value>>
    requires KnownTypes(symbols)
  {
    match e
    case Binary(oper, left, right) =>
      var binding := DecideType(left, symbols).0;
      var l :- Evaluate(left, symbols);
      var r :- Evaluate(right, symbols);
      EvaluateBinaryOperator(binding, oper, l, r)
    case Unary(oper, operand) =>
      var binding := DecideType(operand, symbols).0;
      var v :- Evaluate(operand, symbols);
      EvaluateUnaryOperator(binding, oper, v)
    case Leaf(t) =>
      if t.category == LiteralInteger then
        var n :- ParseInt32(t.lexeme);
        Ok(Some(IntValue(n)))
      else if t.category == LiteralString then Ok(Some(StringValue(t.lexeme)))
      else if t.category == Identifier then
        if t.lexeme in symbols then Ok(symbols[t.lexeme].value) else Fault(UndeclaredVariable)
      else Ok(None)
    case NoExpression => Fault(NullReference)
  }

  /** Leaves: a literal's value, a variable's current value, a throw for an undeclared name. */
  lemma EvaluateLeaf(t: Token, symbols: map<string, Entry>, n: nat)
    requires KnownTypes(symbols)
    ensures t.category == LiteralInteger && t.lexeme == NatToString(n) && n <= MaxInt32
        ==> Evaluate(Leaf(t), symbols) == Ok(Some(IntValue(n)))
    ensures t.category == LiteralString ==> Evaluate(Leaf(t), symbols) == Ok(Some(StringValue(t.lexeme)))
    ensures t.category == Identifier && t.lexeme in symbols ==> Evaluate(Leaf(t), symbols) == Ok(symbols[t.lexeme].value)
    ensures t.category == Identifier && t.lexeme !in symbols ==> Evaluate(Leaf(t), symbols) == Fault(UndeclaredVariable)
    ensures !IsOperand(t) ==> Evaluate(Leaf(t), symbols) == Ok(None)
  {
    ParseIntOfNatToString(n);
  }

  /** The left operand is evaluated first: its exception is the one that escapes. Once
      both operands have values, the operator is dispatched on the left operand's type. */
  lemma EvaluateBinaryOrder(oper: Token, l: Expression, r: Expression, symbols: map<string, Entry>)
    requires KnownTypes(symbols)
    ensures Evaluate(l, symbols).Fault? ==> Evaluate(Binary(oper, l, r), symbols) == Fault(Evaluate(l, symbols).message)
    ensures Evaluate(l, symbols).Ok? && Evaluate(r, symbols).Fault?
        ==> Evaluate(Binary(oper, l, r), symbols) == Fault(Evaluate(r, symbols).message)
    ensures Evaluate(l, symbols).Ok? && Evaluate(r, symbols).Ok?
        ==> Evaluate(Binary(oper, l, r), symbols)
            == EvaluateBinaryOperator(DecideType(l, symbols).0, oper, Evaluate(l, symbols).value, Evaluate(r, symbols).value)
  {
  }

  /** Expressions as the parser builds them: binary nodes carry binary operators, unary
      nodes the unary one, and leaves are operands. */
  predicate ParserShaped(e: Expression) {
    match e
    case Binary(oper, l, r) => IsBinaryOperator(oper.lexeme) && ParserShaped(l) && ParserShaped(r)
    case Unary(oper, x) => IsUnaryOperator(oper.lexeme) && ParserShaped(x)
    case Leaf(t) => IsOperand(t)
    case NoExpression => false
  }

  /** Every variable holds a value of its declared type. */
  predicate StoreTyped(symbols: map<string, Entry>) {
    forall x :: x in symbols ==>
      symbols[x].variableType in Types() && symbols[x].value.Some?
      && HasType(symbols[x].value.value, Types()[symbols[x].variableType])
  }

  /** The exceptions a well-typed expression can still throw: a division by zero, the
      overflowing division, and an integer literal that int.Parse rejects. */
  predicate WellTypedFault(message: string) {
    message == DivideByZero || message == ArithmeticOverflow || message == ParseOverflow || message == NotDigits
  }

  /** Type soundness: over a well-typed store, an expression that inference types
      evaluates to a value of that type, or throws one of the arithmetic exceptions. */
  lemma {:induction false} EvaluateSound(e: Expression, symbols: map<string, Entry>)
    requires KnownTypes(symbols) && StoreTyped(symbols) && ParserShaped(e)
    requires DecideType(e, symbols).0.Some?
    ensures Evaluate(e, symbols).Ok?
        ==> Evaluate(e, symbols).value.Some? && HasType(Evaluate(e, symbols).value.value, DecideType(e, symbols).0.value)
    ensures Evaluate(e, symbols).Fault? ==> WellTypedFault(Evaluate(e, symbols).message)
  {
    match e
    case Binary(oper, l, r) =>
      EvaluateSound(l, symbols);
      EvaluateSound(r, symbols);
      var b := DecideType(l, symbols).0.value;
      assert DecideType(r, symbols).0 == Some(b);
      assert Operate(b, oper.lexeme).Some?;
      if Evaluate(l, symbols).Ok? && Evaluate(r, symbols).Ok? {
        var lv, rv := Evaluate(l, symbols).value.value, Evaluate(r, symbols).value.value;
        OperatorOfTypedLexeme(b, oper.lexeme);
        var op := OpOfLexeme(oper.lexeme).value;
        BinaryTablesAgree(b, op);
        BinarySound(b, op, lv, rv);
        DivisionFaultMessage(b, op, lv, rv);
      }
    case Unary(oper, x) =>
      EvaluateSound(x, symbols);
      TransitionTable(oper.lexeme);
    case Leaf(t) =>
  }

  /** An operator lexeme that a table types names an operator. */
  lemma OperatorOfTypedLexeme(b: TypeBinding, s: string)
    requires Operate(b, s).Some?
    ensures OpOfLexeme(s).Some? && Lexeme(OpOfLexeme(s).value) == s
  {
    TransitionTable(s);
  }

  lemma DivisionFaultMessage(b: TypeBinding, op: Op, l: Value, r: Value)
    requires op in BinaryOps(b) && HasType(l, b) && HasType(r, b)
    ensures ApplyBinary(b, op, Some(l), Some(r)).Fault? ==> WellTypedFault(ApplyBinary(b, op, Some(l), Some(r)).message)
  {
  }

  // ----- reading a word -----

  /** readNextWord: the characters up to the first white space, which is consumed too;
      input that ends first is all consumed and throws. */
  function NextWord(input: seq<char>): (Outcome<string>, seq<char>) {
    if input == [] then (Fault(EndOfInput), [])
    else if IsWhiteSpace(input[0]) then (Ok(""), input[1..])
    else
      var (w, rest) := NextWord(input[1..]);
      (if w.Ok? then Ok([input[0]] + w.value) else w, rest)
  }

  /** A word read so far in front of what the rest of the input gives. */
  function PrependWord(s: string, r: (Outcome<string>, seq<char>)): (Outcome<string>, seq<char>) {
    (if r.0.Ok? then Ok(s + r.0.value) else r.0, r.1)
  }

  lemma PrependStep(s: string, c: char, r: (Outcome<string>, seq<char>))
    ensures PrependWord(s, (if r.0.Ok? then Ok([c] + r.0.value) else r.0, r.1)) == PrependWord(s + [c], r)
  {
    if r.0.Ok? {
      assert s + ([c] + r.0.value) == (s + [c]) + r.0.value;
    }
  }

  predicate NoWhiteSpace(s: string) {
    forall k :: 0 <= k < |s| ==> !IsWhiteSpace(s[k])
  }

  /** A word is what precedes the first white space; reading fails exactly when the input
      holds none, and then leaves nothing to read. */
  lemma {:induction false} NextWordSplits(input: seq<char>)
    ensures NextWord(input).0.Ok?
        ==> (var w := NextWord(input).0.value;
             NoWhiteSpace(w) && |w| < |input| && IsWhiteSpace(input[|w|])
             && input == w + [input[|w|]] + NextWord(input).1)
    ensures NextWord(input).0.Fault? ==> NoWhiteSpace(input) && NextWord(input) == (Fault(EndOfInput), [])
  {
    if input != [] && !IsWhiteSpace(input[0]) {
      NextWordSplits(input[1..]);
      var (w, rest) := NextWord(input[1..]);
      if w.Ok? {
        assert input == [input[0]] + input[1..];
        assert input[1..] == w.value + [input[1..][|w.value|]] + rest;
        assert ([input[0]] + w.value) + [input[|w.value| + 1]] + rest
            == [input[0]] + (w.value + [input[1..][|w.value|]] + rest);
      }
    }
  }

  // ----- statements -----

  /** The interpreter's state: its symbol table, the input not read yet, what `print`
      wrote to the console and the lines given to the stream writer. */
  datatype Machine = Machine(symbols: map<string, Entry>, input: seq<char>, console: seq<string>, output: seq<string>)

  /** The state a run reached, and the exception that ended it, if any. */
  datatype Run = Run(state: Machine, fault: Option<string>)

  function AssertionMessage(line: int, column: int): string {
    "Assertion near line " + IntToString(line) + " column " + IntToString(column) + " failed."
  }

  /** The binding GetTypeFromCategory gives a declaration's type token: the type its
      keyword names, or null for a token that names none. */
  function BindingOfTypeToken(typ: Token): Option<TypeBinding> {
    if typ.lexeme in Types() then Some(Types()[typ.lexeme]) else None
  }

  function DeclareIn(m: Machine, id: Token, typ: Token, v: Option<Value>): Run {
    if id.lexeme in m.symbols then Run(m, Some(DuplicateKey))
    else Run(m.(symbols := m.symbols[id.lexeme := Entry(typ.lexeme, v)]), None)
  }

  function AssignIn(m: Machine, id: Token, v: Option<Value>): Run {
    if id.lexeme !in m.symbols then Run(m, Some(NullReference))
    else Run(m.(symbols := m.symbols[id.lexeme := m.symbols[id.lexeme].(value := v)]), None)
  }

  /** Interprete(statement): one case per statement class; null does nothing. */
  function ExecStatement(s: Statement, m: Machine): (r: Run)
    requires KnownTypes(m.symbols) && DeclaredTypesKnown(s)
    ensures KnownTypes(r.state.symbols)
    decreases s, 1, 0
  {
    match s
    case DeclarationStmt(id, typ, init) => ExecDeclaration(id, typ, init, m)
    case AssignmentStmt(id, e) => ExecAssignment(id, e, m)
    case ForLoopStmt(v, from, to, body) => ExecForLoop(v, from, to, body, m)
    case PrintStmt(e) => ExecPrint(e, m)
    case AssertStmt(location, e) => ExecAssert(location, e, m)
    case ReadStmt(id) => ExecRead(id, m)
    case NoStatement => Run(m, None)
  }

  /** A declaration stores the initializer's value, or without one the default value of
      the type GetTypeFromCategory gives. */
  function ExecDeclaration(id: Token, typ: Token, init: Expression, m: Machine): (r: Run)
    requires KnownTypes(m.symbols) && typ.lexeme in Types()
    ensures KnownTypes(r.state.symbols)
  {
    if init.NoExpression? then
      // GetDefaultValue throws only for a null binding, which a known type never gives
      var d := GetDefaultValue(BindingOfTypeToken(typ));
      DeclareIn(m, id, typ, Some(d.value))
    else
      var v := Evaluate(init, m.symbols);
      if v.Fault? then Run(m, Some(v.message)) else DeclareIn(m, id, typ, v.value)
  }

  function ExecAssignment(id: Token, e: Expression, m: Machine): (r: Run)
    requires KnownTypes(m.symbols)
    ensures KnownTypes(r.state.symbols)
  {
    var v := Evaluate(e, m.symbols);
    if v.Fault? then Run(m, Some(v.message)) else AssignIn(m, id, v.value)
  }

  /** The bounds are evaluated and cast to int once, before the loop starts. */
  function ExecForLoop(v: Token, from: Expression, to: Expression, body: seq<Statement>, m: Machine): (r: Run)
    requires KnownTypes(m.symbols) && AllDeclaredTypesKnown(body)
    ensures KnownTypes(r.state.symbols)
    decreases body, 3, 0
  {
    var lo := Evaluate(from, m.symbols);
    if lo.Fault? then Run(m, Some(lo.message)) else
    var low := AsInt(lo.value);
    if low.Fault? then Run(m, Some(low.message)) else
    var hi := Evaluate(to, m.symbols);
    if hi.Fault? then Run(m, Some(hi.message)) else
    var high := AsInt(hi.value);
    if high.Fault? then Run(m, Some(high.message)) else
    ExecLoop(v, low.value, high.value, body, m)
  }

  function ExecPrint(e: Expression, m: Machine): (r: Run)
    requires KnownTypes(m.symbols)
    ensures r.state.symbols == m.symbols
  {
    var v := Evaluate(e, m.symbols);
    if v.Fault? then Run(m, Some(v.message)) else
    var text := ValueText(v.value);
    if text.Fault? then Run(m, Some(text.message)) else Run(m.(console := m.console + [text.value]), None)
  }

  function ExecAssert(location: Token, e: Expression, m: Machine): (r: Run)
    requires KnownTypes(m.symbols)
    ensures r.state.symbols == m.symbols
  {
    var v := Evaluate(e, m.symbols);
    if v.Fault? then Run(m, Some(v.message)) else
    var b := AsBool(v.value);
    if b.Fault? then Run(m, Some(b.message))
    else if !b.value then Run(m.(output := m.output + [AssertionMessage(location.line, location.column)]), None)
    else Run(m, None)
  }

  /** read: the next word, stored as a string. */
  function ExecRead(id: Token, m: Machine): (r: Run)
    requires KnownTypes(m.symbols)
    ensures KnownTypes(r.state.symbols)
  {
    var (word, rest) := NextWord(m.input);
    var m1 := m.(input := rest);
    if word.Fault? then Run(m1, Some(word.message)) else AssignIn(m1, id, Some(StringValue(word.value)))
  }

  /** The for loop from counter value i on: assign the counter, run the body, step. */
  function ExecLoop(v: Token, i: int, high: Int32, body: seq<Statement>, m: Machine): (r: Run)
    requires KnownTypes(m.symbols) && AllDeclaredTypesKnown(body) && MinInt32 <= i
    ensures KnownTypes(r.state.symbols)
    decreases body, 2, high - i + 1
  {
    if i > high then Run(m, None)
    else
      var a := AssignIn(m, v, Some(IntValue(i)));
      if a.fault.Some? then a
      else
        var r := ExecStatements(body, a.state);
        if r.fault.Some? then r else ExecLoop(v, i + 1, high, body, r.state)
  }

  /** Interprete(statements): in list order, up to the first exception. */
  function ExecStatements(ss: seq<Statement>, m: Machine): (r: Run)
    requires KnownTypes(m.symbols) && AllDeclaredTypesKnown(ss)
    ensures KnownTypes(r.state.symbols)
    decreases ss, 0, 0
  {
    if ss == [] then Run(m, None)
    else
      var r := ExecStatement(ss[0], m);
      if r.fault.Some? then r else ExecStatements(ss[1..], r.state)
  }

  // ----- what the statements promise -----

  /** A declaration without an initializer stores its type's default value; with one,
      the initializer's value. A name already declared throws. */
  lemma Declaration(id: Token, typ: Token, init: Expression, m: Machine)
    requires KnownTypes(m.symbols) && typ.lexeme in Types()
    ensures var r := ExecDeclaration(id, typ, init, m);
            ((init.NoExpression? && id.lexeme !in m.symbols)
               ==> r == Run(m.(symbols := m.symbols[id.lexeme := Entry(typ.lexeme, Some(DefaultValue(Types()[typ.lexeme])))]), None))
            && (init.NoExpression? && id.lexeme in m.symbols ==> r == Run(m, Some(DuplicateKey)))
            && (!init.NoExpression? && Evaluate(init, m.symbols).Ok?
               ==> r == DeclareIn(m, id, typ, Evaluate(init, m.symbols).value))
  {
  }

  /** An assignment stores the evaluated value in the declared variable and changes nothing else. */
  lemma Assignment(id: Token, e: Expression, m: Machine)
    requires KnownTypes(m.symbols) && id.lexeme in m.symbols && Evaluate(e, m.symbols).Ok?
    ensures var r := ExecAssignment(id, e, m);
            r.fault.None? && r.state.input == m.input && r.state.console == m.console && r.state.output == m.output
            && r.state.symbols[id.lexeme] == Entry(m.symbols[id.lexeme].variableType, Evaluate(e, m.symbols).value)
            && (forall x :: x in m.symbols && x != id.lexeme ==> x in r.state.symbols && r.state.symbols[x] == m.symbols[x])
            && r.state.symbols.Keys == m.symbols.Keys
  {
  }

  /** print appends the value's text to the console; printing null throws. */
  lemma Print(e: Expression, m: Machine)
    requires KnownTypes(m.symbols) && Evaluate(e, m.symbols).Ok?
    ensures var r := ExecPrint(e, m);
            var v := Evaluate(e, m.symbols).value;
            (v.Some? ==> r == Run(m.(console := m.console + [ValueText(v).value]), None))
            && (v.None? ==> r == Run(m, Some(NullReference)))
  {
  }

  /** A false assert writes the position of its token; a true one writes nothing. */
  lemma Assert(location: Token, e: Expression, m: Machine, b: bool)
    requires KnownTypes(m.symbols) && Evaluate(e, m.symbols) == Ok(Some(BoolValue(b)))
    ensures !b ==> ExecAssert(location, e, m)
                   == Run(m.(output := m.output + [AssertionMessage(location.line, location.column)]), None)
    ensures b ==> ExecAssert(location, e, m) == Run(m, None)
  {
  }

  /** read stores the next word as a string whatever the declared type, and throws
      when the input ends without white space. */
  lemma Read(id: Token, m: Machine)
    requires KnownTypes(m.symbols) && id.lexeme in m.symbols
    ensures var r := ExecRead(id, m);
            (NoWhiteSpace(m.input) ==> r == Run(m.(input := []), Some(EndOfInput)))
            && (!NoWhiteSpace(m.input)
                ==> exists w: string, c: char ::
                      NoWhiteSpace(w) && IsWhiteSpace(c) && m.input == w + [c] + r.state.input
                      && r.fault.None?
                      && r.state.symbols == m.symbols[id.lexeme := Entry(m.symbols[id.lexeme].variableType, Some(StringValue(w)))])
  {
    NextWordSplits(m.input);
    var (w, rest) := NextWord(m.input);
    if w.Ok? {
      var c := m.input[|w.value|];
      assert NoWhiteSpace(w.value) && IsWhiteSpace(c) && m.input == w.value + [c] + rest;
    }
  }

  /** Because of that, a read into an int variable breaks the typing of the store, and
      the next arithmetic on the variable throws an invalid cast. */
  lemma ReadIntoIntVariable(x: Token, one: Token, plus: Token, m: Machine)
    requires KnownTypes(m.symbols) && StoreTyped(m.symbols)
    requires x.category == Identifier && x.lexeme in m.symbols && m.symbols[x.lexeme].variableType == "int"
    requires one.category == LiteralInteger && one.lexeme == "1" && plus.lexeme == Addition
    requires m.input == ['7', ' ']
    ensures var r := ExecRead(x, m);
            r.fault.None? && !StoreTyped(r.state.symbols)
            && Evaluate(Binary(plus, Leaf(x), Leaf(one)), r.state.symbols) == Fault(InvalidCast)
  {
    assert m.input[1..] == [' '] && [' '][1..] == [];
    assert NextWord([' ']) == (Ok(""), []);
    assert ['7'] + "" == "7";
    assert NextWord(m.input) == (Ok("7"), []);
    var s := ExecRead(x, m).state.symbols;
    assert s[x.lexeme].value == Some(StringValue("7"));
    assert ParseInt("1") == Ok(1);
    assert OpOfLexeme(plus.lexeme) == Some(Add);
  }

  // ----- the for loop -----

  /** The counter values of a loop from low to high: low, low+1, ..., high. */
  function CounterValues(low: int, high: int): (r: seq<int>)
    ensures |r| == if low <= high then high - low + 1 else 0
    ensures forall k :: 0 <= k < |r| ==> r[k] == low + k
    decreases high - low
  {
    if low > high then [] else [low] + CounterValues(low + 1, high)
  }

  /** A reference definition of the loop: for each counter value in turn, assign the
      variable and run the body. */
  function ExecEach(v: Token, values: seq<int>, body: seq<Statement>, m: Machine): (r: Run)
    requires KnownTypes(m.symbols) && AllDeclaredTypesKnown(body)
    requires forall k :: 0 <= k < |values| ==> MinInt32 <= values[k] <= MaxInt32
    ensures KnownTypes(r.state.symbols)
  {
    if values == [] then Run(m, None)
    else
      var a := AssignIn(m, v, Some(IntValue(values[0])));
      if a.fault.Some? then a
      else
        var r := ExecStatements(body, a.state);
        if r.fault.Some? then r else ExecEach(v, values[1..], body, r.state)
  }

  /** The loop runs the body once per counter value, max(0, high - low + 1) times, in
      increasing order. */
  lemma {:induction false} LoopRunsOncePerValue(v: Token, low: int, high: Int32, body: seq<Statement>, m: Machine)
    requires KnownTypes(m.symbols) && AllDeclaredTypesKnown(body) && MinInt32 <= low
    ensures |CounterValues(low, high)| == if low <= high then high - low + 1 else 0
    ensures ExecLoop(v, low, high, body, m) == ExecEach(v, CounterValues(low, high), body, m)
    decreases high - low
  {
    if low <= high {
      var a := AssignIn(m, v, Some(IntValue(low)));
      assert CounterValues(low, high)[1..] == CounterValues(low + 1, high);
      if a.fault.None? {
        var r := ExecStatements(body, a.state);
        if r.fault.None? {
          LoopRunsOncePerValue(v, low + 1, high, body, r.state);
        }
      }
    }
  }

  /** A statement list that never writes the variable: no assignment, read, loop or
      declaration names it, at any depth. */
  predicate Untouched(name: string, ss: seq<Statement>) {
    forall k :: 0 <= k < |ss| ==> UntouchedIn(name, ss[k])
  }

  predicate UntouchedIn(name: string, s: Statement) {
    match s
    case DeclarationStmt(id, _, _) => id.lexeme != name
    case AssignmentStmt(id, _) => id.lexeme != name
    case ReadStmt(id) => id.lexeme != name
    case ForLoopStmt(v, _, _, body) => v.lexeme != name && forall k :: 0 <= k < |body| ==> UntouchedIn(name, body[k])
    case _ => true
  }

  /** Such statements leave a declared variable as they found it. */
  lemma {:induction false} UntouchedStatementKeeps(name: string, s: Statement, m: Machine)
    requires KnownTypes(m.symbols) && DeclaredTypesKnown(s) && UntouchedIn(name, s) && name in m.symbols
    ensures name in ExecStatement(s, m).state.symbols
    ensures ExecStatement(s, m).state.symbols[name] == m.symbols[name]
    decreases s, 1, 0
  {
    match s
    case ForLoopStmt(v, from, to, body) =>
      var lo := Evaluate(from, m.symbols);
      var hi := Evaluate(to, m.symbols);
      if lo.Ok? && AsInt(lo.value).Ok? && hi.Ok? && AsInt(hi.value).Ok? {
        UntouchedLoopKeeps(name, v, AsInt(lo.value).value, AsInt(hi.value).value, body, m);
      }
    case _ =>
  }

  lemma {:induction false} UntouchedLoopKeeps(name: string, v: Token, i: int, high: Int32, body: seq<Statement>, m: Machine)
    requires KnownTypes(m.symbols) && AllDeclaredTypesKnown(body) && MinInt32 <= i
    requires Untouched(name, body) && v.lexeme != name && name in m.symbols
    ensures name in ExecLoop(v, i, high, body, m).state.symbols
    ensures ExecLoop(v, i, high, body, m).state.symbols[name] == m.symbols[name]
    decreases body, 2, high - i + 1
  {
    if i <= high {
      var a := AssignIn(m, v, Some(IntValue(i)));
      if a.fault.None? {
        UntouchedStatementsKeep(name, body, a.state);
        var r := ExecStatements(body, a.state);
        if r.fault.None? {
          UntouchedLoopKeeps(name, v, i + 1, high, body, r.state);
        }
      }
    }
  }

  lemma {:induction false} UntouchedStatementsKeep(name: string, ss: seq<Statement>, m: Machine)
    requires KnownTypes(m.symbols) && AllDeclaredTypesKnown(ss) && Untouched(name, ss) && name in m.symbols
    ensures name in ExecStatements(ss, m).state.symbols
    ensures ExecStatements(ss, m).state.symbols[name] == m.symbols[name]
    decreases ss, 0, 0
  {
    if ss != [] {
      UntouchedStatementKeeps(name, ss[0], m);
      var r := ExecStatement(ss[0], m);
      if r.fault.None? {
        UntouchedStatementsKeep(name, ss[1..], r.state);
      }
    }
  }

  /** If the body never writes the loop variable, a loop that runs to completion leaves
      it holding high when it ran at least once; a loop from above high changes nothing. */
  lemma {:induction false} LoopVariableEndsAtHigh(v: Token, low: int, high: Int32, body: seq<Statement>, m: Machine)
    requires KnownTypes(m.symbols) && AllDeclaredTypesKnown(body) && MinInt32 <= low
    requires Untouched(v.lexeme, body)
    ensures low > high ==> ExecLoop(v, low, high, body, m) == Run(m, None)
    ensures low <= high && ExecLoop(v, low, high, body, m).fault.None?
        ==> v.lexeme in ExecLoop(v, low, high, body, m).state.symbols
            && ExecLoop(v, low, high, body, m).state.symbols[v.lexeme].value == Some(IntValue(high))
    decreases high - low
  {
    if low <= high {
      var a := AssignIn(m, v, Some(IntValue(low)));
      if a.fault.None? {
        UntouchedStatementsKeep(v.lexeme, body, a.state);
        var r := ExecStatements(body, a.state);
        if r.fault.None? {
          assert r.state.symbols[v.lexeme].value == Some(IntValue(low));
          if low + 1 <= high {
            LoopVariableEndsAtHigh(v, low + 1, high, body, r.state);
          }
        }
      }
    }
  }

  /** A declaration in a loop body that runs twice throws on the second run: the
      variable is still declared from the first. */
  lemma DeclarationInLoopBody(v: Token, x: Token, typ: Token, low: Int32, m: Machine)
    requires KnownTypes(m.symbols) && typ.lexeme in Types() && low < MaxInt32
    requires v.lexeme in m.symbols && x.lexeme !in m.symbols && x.lexeme != v.lexeme
    ensures var body := [DeclarationStmt(x, typ, NoExpression)];
            AllDeclaredTypesKnown(body) && ExecLoop(v, low, low + 1, body, m).fault == Some(DuplicateKey)
  {
    var body := [DeclarationStmt(x, typ, NoExpression)];
    var a := AssignIn(m, v, Some(IntValue(low)));
    assert a.fault.None? && x.lexeme !in a.state.symbols;
    SingleStatement(body[0], a.state);
    var r := ExecStatements(body, a.state);
    assert r == ExecDeclaration(x, typ, NoExpression, a.state);
    assert x.lexeme in r.state.symbols && r.fault.None?;
    var a2 := AssignIn(r.state, v, Some(IntValue(low + 1)));
    assert a2.fault.None? && x.lexeme in a2.state.symbols;
    SingleStatement(body[0], a2.state);
    assert ExecStatements(body, a2.state) == ExecDeclaration(x, typ, NoExpression, a2.state);
  }

  lemma SingleStatement(s: Statement, m: Machine)
    requires KnownTypes(m.symbols) && DeclaredTypesKnown(s)
    ensures AllDeclaredTypesKnown([s]) && ExecStatements([s], m) == ExecStatement(s, m)
  {
    var r := ExecStatement(s, m);
    assert [s][1..] == [];
    if r.fault.None? {
      assert ExecStatements([s][1..], r.state) == r;
    }
  }

  /** The loop statement evaluates both bounds once, before the first run of the body. */
  lemma ForLoopBounds(v: Token, from: Expression, to: Expression, body: seq<Statement>, m: Machine, low: Int32, high: Int32)
    requires KnownTypes(m.symbols) && AllDeclaredTypesKnown(body)
    requires Evaluate(from, m.symbols) == Ok(Some(IntValue(low))) && Evaluate(to, m.symbols) == Ok(Some(IntValue(high)))
    ensures ExecForLoop(v, from, to, body, m) == ExecEach(v, CounterValues(low, high), body, m)
  {
    LoopRunsOncePerValue(v, low, high, body, m);
  }

  /** Running a concatenation runs the first list, then (if it did not throw) the second. */
  lemma {:induction false} ExecStatementsAppend(a: seq<Statement>, b: seq<Statement>, m: Machine)
    requires KnownTypes(m.symbols) && AllDeclaredTypesKnown(a) && AllDeclaredTypesKnown(b)
    ensures AllDeclaredTypesKnown(a + b)
    ensures var r := ExecStatements(a, m);
            ExecStatements(a + b, m) == if r.fault.Some? then r else ExecStatements(b, r.state)
    decreases |a|
  {
    if a == [] {
      assert a + b == b;
    } else {
      assert (a + b)[0] == a[0] && (a + b)[1..] == a[1..] + b;
      var r := ExecStatement(a[0], m);
      if r.fault.None? {
        ExecStatementsAppend(a[1..], b, r.state);
      }
    }
  }

  // ----- the counter as the source steps it -----

  /** `i++` on a C# int: it wraps from MaxInt32 to MinInt32. */
  function CounterStep(i: Int32): Int32 {
    Wrap32(i + 1)
  }

  /** With high == MaxInt32 the source's condition `i <= high` holds for every counter
      value, including the one after the wrap, so that loop never ends. The model's loop
      instead stops after high (LoopRunsOncePerValue). */
  lemma CounterNeverPassesMaxInt(i: Int32)
    ensures i <= MaxInt32 && CounterStep(i) <= MaxInt32
    ensures CounterStep(MaxInt32) == MinInt32
    ensures i < MaxInt32 ==> CounterStep(i) == i + 1
  {
  }

  // ----- the interpreter object -----

  class Interpreter {
    const symbolTable: SymbolTable
    /** What the input stream still holds. */
    var input: seq<char>
    /** What Console.Write received, one string per call. */
    var console: seq<string>
    /** The lines given to the stream writer. */
    var output: seq<string>

    constructor (input: seq<char>)
      ensures fresh(symbolTable) && symbolTable.symbols == map[] && symbolTable.locks == []
      ensures this.input == input && console == [] && output == []
    {
      symbolTable := new SymbolTable();
      this.input := input;
      console := [];
      output := [];
    }

    function Current(): Machine
      reads this, symbolTable
    {
      Machine(symbolTable.symbols, input, console, output)
    }

    /** Interprete(ast): the statements of the tree. */
    method Interprete(ast: AbstractSyntaxTree) returns (fault: Option<string>)
      requires KnownTypes(symbolTable.symbols) && AllDeclaredTypesKnown(ast.statements.list)
      modifies this, symbolTable
      ensures Run(Current(), fault) == ExecStatements(ast.statements.list, old(Current()))
    {
      fault := InterpreteStatements(ast.statements.list);
    }

    method InterpreteStatements(ss: seq<Statement>) returns (fault: Option<string>)
      requires KnownTypes(symbolTable.symbols) && AllDeclaredTypesKnown(ss)
      modifies this, symbolTable
      ensures Run(Current(), fault) == ExecStatements(ss, old(Current()))
      decreases ss, 0, 0
    {
      var i := 0;
      while i < |ss|
        invariant 0 <= i <= |ss| && KnownTypes(symbolTable.symbols)
        invariant ExecStatements(ss, old(Current())) == ExecStatements(ss[i..], Current())
      {
        assert ss[i..][0] == ss[i] && ss[i..][1..] == ss[i + 1..];
        fault := InterpreteStatement(ss[i]);
        if fault.Some? {
          return;
        }
        i := i + 1;
      }
      fault := None;
    }

    method InterpreteStatement(s: Statement) returns (fault: Option<string>)
      requires KnownTypes(symbolTable.symbols) && DeclaredTypesKnown(s)
      modifies this, symbolTable
      ensures Run(Current(), fault) == ExecStatement(s, old(Current()))
      decreases s, 1, 0
    {
      fault := None;
      match s
      case DeclarationStmt(id, typ, init) =>
        var value: Option<Value>;
        if init.NoExpression? {
          var d := GetDefaultValue(BindingOfTypeToken(typ));
          value := Some(d.value);
        } else {
          var v := Evaluate(init, symbolTable.symbols);
          if v.Fault? {
            return Some(v.message);
          }
          value := v.value;
        }
        var r := symbolTable.Declare(id, typ, value);
        if r.Fault? {
          fault := Some(r.message);
        }
      case AssignmentStmt(id, e) =>
        var v := Evaluate(e, symbolTable.symbols);
        if v.Fault? {
          return Some(v.message);
        }
        var r := symbolTable.Assign(id, v.value);
        if r.Fault? {
          fault := Some(r.message);
        }
      case ForLoopStmt(v, from, to, body) =>
        var lo := Evaluate(from, symbolTable.symbols);
        if lo.Fault? {
          return Some(lo.message);
        }
        var low := AsInt(lo.value);
        if low.Fault? {
          return Some(low.message);
        }
        var hi := Evaluate(to, symbolTable.symbols);
        if hi.Fault? {
          return Some(hi.message);
        }
        var high := AsInt(hi.value);
        if high.Fault? {
          return Some(high.message);
        }
        fault := RunLoop(v, low.value, high.value, body);
      case PrintStmt(e) =>
        var v := Evaluate(e, symbolTable.symbols);
        if v.Fault? {
          return Some(v.message);
        }
        var text := ValueText(v.value);
        if text.Fault? {
          return Some(text.message);
        }
        console := console + [text.value];
      case AssertStmt(location, e) =>
        var v := Evaluate(e, symbolTable.symbols);
        if v.Fault? {
          return Some(v.message);
        }
        var b := AsBool(v.value);
        if b.Fault? {
          return Some(b.message);
        }
        if !b.value {
          output := output + [AssertionMessage(location.line, location.column)];
        }
      case ReadStmt(id) =>
        var word := ReadNextWord();
        if word.Fault? {
          return Some(word.message);
        }
        var r := symbolTable.Assign(id, Some(StringValue(word.value)));
        if r.Fault? {
          fault := Some(r.message);
        }
      case NoStatement =>
    }

    /** The for statement's loop, with the counter stopping after high. */
    method RunLoop(v: Token, low: Int32, high: Int32, body: seq<Statement>) returns (fault: Option<string>)
      requires KnownTypes(symbolTable.symbols) && AllDeclaredTypesKnown(body)
      modifies this, symbolTable
      ensures Run(Current(), fault) == ExecLoop(v, low, high, body, old(Current()))
      decreases body, 2, 0
    {
      var i: int := low;
      while i <= high
        invariant low <= i && KnownTypes(symbolTable.symbols)
        invariant ExecLoop(v, low, high, body, old(Current())) == ExecLoop(v, i, high, body, Current())
        decreases high - i
      {
        var r := symbolTable.Assign(v, Some(IntValue(i)));
        if r.Fault? {
          return Some(r.message);
        }
        fault := InterpreteStatements(body);
        if fault.Some? {
          return;
        }
        i := i + 1;
      }
      fault := None;
    }

    /** readNextWord over the input sequence. */
    method ReadNextWord() returns (word: Outcome<string>)
      modifies this
      ensures (word, input) == NextWord(old(input))
      ensures console == old(console) && output == old(output)
    {
      var s: string := "";
      assert PrependWord(s, NextWord(input)) == NextWord(input) by {
        if NextWord(input).0.Ok? {
          assert s + NextWord(input).0.value == NextWord(input).0.value;
        }
      }
      while input != []
        invariant NextWord(old(input)) == PrependWord(s, NextWord(input))
        invariant console == old(console) && output == old(output)
        decreases |input|
      {
        var next := input[0];
        ghost var before := input;
        input := input[1..];
        if IsWhiteSpace(next) {
          assert NextWord(before) == (Ok(""), input);
          assert s + "" == s;
          return Ok(s);
        }
        PrependStep(s, next, NextWord(input));
        s := s + [next];
      }
      word := Fault(EndOfInput);
    }
  }
}
