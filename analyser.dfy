/** The semantic analyser (analyser/SemanticAnalyser.cs): one pass over the tree
    in statement order that declares variables in its own symbol table, locks
    loop variables while their loop body is checked, and appends semantic errors
    for undeclared or locked assignment targets, redeclarations and type
    mismatches. The spec functions describe a pass over a `Check` state; the
    class performs it on a symbol table and an error container. */
module Analyser {
  import opened Util
  import opened Tokens
  import opened Ast
  import opened Errors
  import opened Symbols
  import opened TypeBindings

  /** What the pass reads and changes: the symbol table's dictionary and lock stack,
      and the container's list of semantic errors. */
  datatype Check = Check(symbols: map<string, Entry>, locks: seq<string>, errs: seq<ErrorEntry>)

  const TypeMismatch: string := "Expression does not match the required type"
  const LockedTarget: string := "Variable is being used by a for loop and cannot be assigned to"
  const UndeclaredTarget: string := "Cannot assign to a variable that is undeclared"

  function AlreadyDeclared(id: Token): string {
    "Identifier " + id.lexeme + " already declared"
  }

  /** DoTypeChecking(expression, type): the errors of inference, and one more if the
      inferred binding is not the required type. */
  function CheckExpression(e: Expression, required: string, st: Check): (r: Check)
    requires KnownTypes(st.symbols)
    ensures r.symbols == st.symbols && r.locks == st.locks
  {
    var (b, es) := DecideType(e, st.symbols);
    var st' := st.(errs := st.errs + es);
    if b.None? then st'
    else if Name(b.value) != required then
      assert !e.NoExpression?;
      st'.(errs := st'.errs + [SemanticAt(Head(e), TypeMismatch)])
    else st'
  }

  /** DoConsistencyChecking: only the errors of inference. */
  function CheckConsistency(e: Expression, st: Check): (r: Check)
    requires KnownTypes(st.symbols)
    ensures r.symbols == st.symbols && r.locks == st.locks
  {
    st.(errs := st.errs + DecideType(e, st.symbols).1)
  }

  /** The validation half of ValidateAssignmentAndDoAction: the error an assignment
      target gives, if any. */
  function TargetError(id: Token, st: Check): Option<string> {
    if id.lexeme in st.symbols then
      if id.lexeme in st.locks then Some(LockedTarget) else None
    else Some(UndeclaredTarget)
  }

  function Report(st: Check, at: Token, message: string): Check {
    st.(errs := st.errs + [SemanticAt(at, message)])
  }

  /** DoTypeChecking(statement). */
  function CheckStatement(s: Statement, st: Check): (r: Check)
    requires KnownTypes(st.symbols) && DeclaredTypesKnown(s)
    ensures KnownTypes(r.symbols) && r.locks == st.locks
    decreases s, 1
  {
    match s
    case DeclarationStmt(id, typ, init) =>
      if id.lexeme in st.symbols then Report(st, id, AlreadyDeclared(id))
      else
        var st1 := st.(symbols := st.symbols[id.lexeme := Entry(typ.lexeme, None)]);
        if init.NoExpression? then st1 else CheckExpression(init, typ.lexeme, st1)
    case AssignmentStmt(id, e) =>
      if TargetError(id, st).Some? then Report(st, id, TargetError(id, st).value)
      else CheckExpression(e, st.symbols[id.lexeme].variableType, st)
    case ForLoopStmt(v, from, to, body) =>
      if TargetError(v, st).Some? then Report(st, v, TargetError(v, st).value)
      else
        var st1 := st.(locks := st.locks + [v.lexeme]);
        var st2 := CheckExpression(to, PrimitiveIntegerName, CheckExpression(from, PrimitiveIntegerName, st1));
        var st3 := CheckStatements(body, st2);
        st3.(locks := st3.locks[..|st3.locks| - 1])
    case PrintStmt(e) => CheckConsistency(e, st)
    case AssertStmt(_, e) => CheckExpression(e, PrimitiveBooleanName, st)
    case ReadStmt(id) =>
      if TargetError(id, st).Some? then Report(st, id, TargetError(id, st).value) else st
    case NoStatement => st
  }

  /** DoTypeChecking(statements): the statements in list order. */
  function CheckStatements(ss: seq<Statement>, st: Check): (r: Check)
    requires KnownTypes(st.symbols) && AllDeclaredTypesKnown(ss)
    ensures KnownTypes(r.symbols) && r.locks == st.locks
    decreases ss, 0
  {
    if ss == [] then st else CheckStatements(ss[1..], CheckStatement(ss[0], st))
  }

  // ----- what the pass promises -----

  /** A redeclaration adds one error, leaves the table alone and skips the initializer. */
  lemma Redeclaration(id: Token, typ: Token, init: Expression, st: Check)
    requires KnownTypes(st.symbols) && typ.lexeme in Types() && id.lexeme in st.symbols
    ensures CheckStatement(DeclarationStmt(id, typ, init), st)
         == st.(errs := st.errs + [SemanticAt(id, "Identifier " + id.lexeme + " already declared")])
  {
  }

  /** A fresh declaration enters the table first, so its initializer is checked
      against the declared type with the new variable already declared. */
  lemma FreshDeclaration(id: Token, typ: Token, init: Expression, st: Check)
    requires KnownTypes(st.symbols) && typ.lexeme in Types() && id.lexeme !in st.symbols
    ensures var st1 := st.(symbols := st.symbols[id.lexeme := Entry(typ.lexeme, None)]);
            KnownTypes(st1.symbols)
            && CheckStatement(DeclarationStmt(id, typ, init), st)
               == if init.NoExpression? then st1 else CheckExpression(init, typ.lexeme, st1)
  {
  }

  /** An undeclared or a locked target gives exactly one error and nothing else
      happens; only a declared, unlocked target lets the statement do its work. */
  lemma TargetValidation(s: Statement, st: Check)
    requires KnownTypes(st.symbols) && DeclaredTypesKnown(s)
    requires s.AssignmentStmt? || s.ReadStmt? || s.ForLoopStmt?
    ensures var id := if s.ForLoopStmt? then s.variable else s.identifier;
            (id.lexeme !in st.symbols ==> CheckStatement(s, st) == Report(st, id, UndeclaredTarget))
            && (id.lexeme in st.symbols && id.lexeme in st.locks ==> CheckStatement(s, st) == Report(st, id, LockedTarget))
            && (id.lexeme in st.symbols && id.lexeme !in st.locks ==> TargetError(id, st).None?)
  {
  }

  /** A valid assignment checks its expression against the target's declared type. */
  lemma ValidAssignment(id: Token, e: Expression, st: Check)
    requires KnownTypes(st.symbols) && TargetError(id, st).None?
    ensures CheckStatement(AssignmentStmt(id, e), st) == CheckExpression(e, st.symbols[id.lexeme].variableType, st)
  {
  }

  /** A valid for loop checks both bounds against int and the body with the loop
      variable locked; the lock stack afterwards is the one before. */
  lemma ValidForLoop(v: Token, from: Expression, to: Expression, body: seq<Statement>, st: Check)
    requires KnownTypes(st.symbols) && AllDeclaredTypesKnown(body) && TargetError(v, st).None?
    ensures var locked := st.(locks := st.locks + [v.lexeme]);
            var bounds := CheckExpression(to, "int", CheckExpression(from, "int", locked));
            var after := CheckStatements(body, bounds);
            v.lexeme in locked.locks
            && CheckStatement(ForLoopStmt(v, from, to, body), st) == after.(locks := st.locks)
  {
    assert DeclaredTypesKnown(ForLoopStmt(v, from, to, body));
  }

  /** Every statement leaves the lock stack as it found it. */
  lemma LockDepthRestored(s: Statement, st: Check)
    requires KnownTypes(st.symbols) && DeclaredTypesKnown(s)
    ensures |CheckStatement(s, st).locks| == |st.locks|
  {
  }

  /** An assert must type to bool; a print only needs a consistent expression. */
  lemma AssertAndPrint(location: Token, e: Expression, st: Check)
    requires KnownTypes(st.symbols)
    ensures CheckStatement(AssertStmt(location, e), st) == CheckExpression(e, "bool", st)
    ensures CheckStatement(PrintStmt(e), st) == st.(errs := st.errs + DecideType(e, st.symbols).1)
  {
  }

  /** Checking against a type adds nothing beyond inference's errors when the binding is
      null, and exactly one mismatch error, at the expression's head, when it differs. */
  lemma CheckExpressionErrors(e: Expression, required: string, st: Check)
    requires KnownTypes(st.symbols)
    ensures var (b, es) := DecideType(e, st.symbols);
            (b.None? ==> CheckExpression(e, required, st).errs == st.errs + es)
            && (b.Some? && Name(b.value) == required ==> CheckExpression(e, required, st).errs == st.errs)
            && (b.Some? && Name(b.value) != required ==>
                  !e.NoExpression? && CheckExpression(e, required, st).errs == st.errs + [SemanticAt(Head(e), TypeMismatch)])
  {
  }

  /** Checking a concatenation checks the first list, then the second. */
  lemma {:induction false} CheckStatementsAppend(a: seq<Statement>, b: seq<Statement>, st: Check)
    requires KnownTypes(st.symbols) && AllDeclaredTypesKnown(a) && AllDeclaredTypesKnown(b)
    ensures AllDeclaredTypesKnown(a + b)
    ensures CheckStatements(a + b, st) == CheckStatements(b, CheckStatements(a, st))
    decreases |a|
  {
    if a == [] {
      assert a + b == b;
    } else {
      assert (a + b)[0] == a[0] && (a + b)[1..] == a[1..] + b;
      CheckStatementsAppend(a[1..], b, CheckStatement(a[0], st));
    }
  }

  /** The pass only adds: errors are appended, and no declared variable changes or disappears. */
  predicate Extends(before: Check, after: Check) {
    |before.errs| <= |after.errs| && after.errs[..|before.errs|] == before.errs
    && forall x :: x in before.symbols ==> x in after.symbols && after.symbols[x] == before.symbols[x]
  }

  lemma ExtendsTransitive(a: Check, b: Check, c: Check)
    requires Extends(a, b) && Extends(b, c)
    ensures Extends(a, c)
  {
    assert c.errs[..|b.errs|][..|a.errs|] == c.errs[..|a.errs|];
  }

  lemma CheckExpressionExtends(e: Expression, required: string, st: Check)
    requires KnownTypes(st.symbols)
    ensures Extends(st, CheckExpression(e, required, st))
  {
    var (b, es) := DecideType(e, st.symbols);
    assert (st.errs + es)[..|st.errs|] == st.errs;
    if b.Some? && Name(b.value) != required {
      assert (st.errs + es + [SemanticAt(Head(e), TypeMismatch)])[..|st.errs|] == st.errs;
    }
  }

  lemma {:induction false} CheckStatementExtends(s: Statement, st: Check)
    requires KnownTypes(st.symbols) && DeclaredTypesKnown(s)
    ensures Extends(st, CheckStatement(s, st))
    decreases s, 1
  {
    match s
    case DeclarationStmt(id, typ, init) =>
      if id.lexeme in st.symbols {
        assert (st.errs + [SemanticAt(id, AlreadyDeclared(id))])[..|st.errs|] == st.errs;
      } else {
        var st1 := st.(symbols := st.symbols[id.lexeme := Entry(typ.lexeme, None)]);
        assert Extends(st, st1);
        if !init.NoExpression? {
          CheckExpressionExtends(init, typ.lexeme, st1);
          ExtendsTransitive(st, st1, CheckExpression(init, typ.lexeme, st1));
        }
      }
    case AssignmentStmt(id, e) =>
      if TargetError(id, st).Some? {
        assert (st.errs + [SemanticAt(id, TargetError(id, st).value)])[..|st.errs|] == st.errs;
      } else {
        CheckExpressionExtends(e, st.symbols[id.lexeme].variableType, st);
      }
    case ForLoopStmt(v, from, to, body) =>
      if TargetError(v, st).Some? {
        assert (st.errs + [SemanticAt(v, TargetError(v, st).value)])[..|st.errs|] == st.errs;
      } else {
        var st1 := st.(locks := st.locks + [v.lexeme]);
        var sa := CheckExpression(from, PrimitiveIntegerName, st1);
        var st2 := CheckExpression(to, PrimitiveIntegerName, sa);
        CheckExpressionExtends(from, PrimitiveIntegerName, st1);
        CheckExpressionExtends(to, PrimitiveIntegerName, sa);
        ExtendsTransitive(st1, sa, st2);
        var st3 := CheckStatements(body, st2);
        CheckStatementsExtends(body, st2);
        ExtendsTransitive(st1, st2, st3);
      }
    case PrintStmt(e) =>
      assert (st.errs + DecideType(e, st.symbols).1)[..|st.errs|] == st.errs;
    case AssertStmt(_, e) =>
      CheckExpressionExtends(e, PrimitiveBooleanName, st);
    case ReadStmt(id) =>
      if TargetError(id, st).Some? {
        assert (st.errs + [SemanticAt(id, TargetError(id, st).value)])[..|st.errs|] == st.errs;
      }
    case NoStatement =>
  }

  lemma {:induction false} CheckStatementsExtends(ss: seq<Statement>, st: Check)
    requires KnownTypes(st.symbols) && AllDeclaredTypesKnown(ss)
    ensures Extends(st, CheckStatements(ss, st))
    decreases ss, 0
  {
    if ss != [] {
      var st1 := CheckStatement(ss[0], st);
      CheckStatementExtends(ss[0], st);
      CheckStatementsExtends(ss[1..], st1);
      ExtendsTransitive(st, st1, CheckStatements(ss[1..], st1));
    }
  }

  // ----- the analyser object -----

  class SemanticAnalyser {
    const ast: AbstractSyntaxTree
    const errors: ErrorContainer
    const symbolTable: SymbolTable

    /** The state the pass works on, read off the two objects. */
    function Current(): Check
      reads this, errors, symbolTable
      requires errors.Valid()
    {
      Check(symbolTable.symbols, symbolTable.locks, errors.errors[SemanticError])
    }

    ghost predicate Valid()
      reads this, errors, symbolTable
    {
      errors.Valid() && KnownTypes(symbolTable.symbols)
    }

    constructor (ast: AbstractSyntaxTree, errors: ErrorContainer)
      ensures this.ast == ast && this.errors == errors && fresh(symbolTable)
      ensures symbolTable.symbols == map[] && symbolTable.locks == []
    {
      this.ast := ast;
      this.errors := errors;
      symbolTable := new SymbolTable();
    }

    /** Append inference's errors, one AddError each, in order. */
    method ReportAll(errs: seq<ErrorEntry>)
      requires errors.Valid() && AllSemantic(errs)
      modifies errors
      ensures errors.Valid()
      ensures errors.errors == old(errors.errors)[SemanticError := old(errors.errors[SemanticError]) + errs]
    {
      ghost var before := errors.errors;
      var i := 0;
      assert SemanticError in before && errs[..0] == [];
      assert before[SemanticError] + errs[..0] == before[SemanticError];
      assert before == before[SemanticError := before[SemanticError] + errs[..0]];
      while i < |errs|
        invariant 0 <= i <= |errs| && errors.Valid()
        invariant errors.errors == before[SemanticError := before[SemanticError] + errs[..i]]
      {
        assert errs[..i + 1] == errs[..i] + [errs[i]];
        assert errs[i].kind == SemanticError;
        ghost var mid := errors.errors;
        errors.AddError(errs[i]);
        assert mid[SemanticError] + [errs[i]] == before[SemanticError] + errs[..i + 1];
        assert errors.errors == before[SemanticError := before[SemanticError] + errs[..i + 1]];
        i := i + 1;
      }
      assert errs[..i] == errs;
    }

    /** DoTypeChecking(): the whole tree. */
    method DoTypeChecking()
      requires Valid() && AllDeclaredTypesKnown(ast.statements.list)
      modifies errors, symbolTable
      ensures Valid()
      ensures Current() == CheckStatements(ast.statements.list, old(Current()))
      ensures errors.errors == old(errors.errors)[SemanticError := errors.errors[SemanticError]]
    {
      CheckStatementsOf(ast.statements.list);
    }

    method CheckStatementsOf(ss: seq<Statement>)
      requires Valid() && AllDeclaredTypesKnown(ss)
      modifies errors, symbolTable
      ensures Valid()
      ensures Current() == CheckStatements(ss, old(Current()))
      ensures errors.errors == old(errors.errors)[SemanticError := errors.errors[SemanticError]]
      decreases ss, 0
    {
      var i := 0;
      while i < |ss|
        invariant 0 <= i <= |ss| && Valid()
        invariant CheckStatements(ss, old(Current())) == CheckStatements(ss[i..], Current())
        invariant errors.errors == old(errors.errors)[SemanticError := errors.errors[SemanticError]]
      {
        assert ss[i..][0] == ss[i] && ss[i..][1..] == ss[i + 1..];
        CheckStatementOf(ss[i]);
        i := i + 1;
      }
    }

    method CheckStatementOf(s: Statement)
      requires Valid() && DeclaredTypesKnown(s)
      modifies errors, symbolTable
      ensures Valid()
      ensures Current() == CheckStatement(s, old(Current()))
      ensures errors.errors == old(errors.errors)[SemanticError := errors.errors[SemanticError]]
      decreases s, 1
    {
      match s
      case DeclarationStmt(id, typ, init) =>
        if symbolTable.IsDeclared(id) {
          errors.AddTokenError(id, SemanticError, AlreadyDeclared(id));
        } else {
          var r := symbolTable.DeclareUnset(id, typ);
          if !init.NoExpression? {
            CheckAgainst(init, typ.lexeme);
          }
        }
      case AssignmentStmt(id, e) =>
        var valid := ValidateTarget(id);
        if valid {
          var t := symbolTable.GetVariableType(id);
          CheckAgainst(e, t.value);
        }
      case ForLoopStmt(v, from, to, body) =>
        var valid := ValidateTarget(v);
        if valid {
          symbolTable.Lock(v);
          CheckAgainst(from, PrimitiveIntegerName);
          CheckAgainst(to, PrimitiveIntegerName);
          CheckStatementsOf(body);
          var r := symbolTable.Unlock();
        }
      case PrintStmt(e) =>
        DoConsistencyChecking(e);
      case AssertStmt(_, e) =>
        CheckAgainst(e, PrimitiveBooleanName);
      case ReadStmt(id) =>
        var valid := ValidateTarget(id);
      case NoStatement =>
    }

    /** The validation of ValidateAssignmentAndDoAction: reports the target's error and
        says whether the action may run. */
    method ValidateTarget(id: Token) returns (valid: bool)
      requires Valid()
      modifies errors
      ensures Valid()
      ensures valid <==> TargetError(id, old(Current())).None?
      ensures valid ==> errors.errors == old(errors.errors)
      ensures !valid ==> Current() == Report(old(Current()), id, TargetError(id, old(Current())).value)
      ensures errors.errors == old(errors.errors)[SemanticError := errors.errors[SemanticError]]
    {
      if symbolTable.IsDeclared(id) {
        if symbolTable.IsLocked(id) {
          errors.AddTokenError(id, SemanticError, LockedTarget);
          valid := false;
        } else {
          valid := true;
        }
      } else {
        errors.AddTokenError(id, SemanticError, UndeclaredTarget);
        valid := false;
      }
    }

    /** DoTypeChecking(expression, type). */
    method CheckAgainst(e: Expression, required: string)
      requires Valid()
      modifies errors
      ensures Valid()
      ensures Current() == CheckExpression(e, required, old(Current()))
      ensures errors.errors == old(errors.errors)[SemanticError := errors.errors[SemanticError]]
    {
      var (b, es) := DecideType(e, symbolTable.symbols);
      ReportAll(es);
      if b.Some? && Name(b.value) != required {
        assert !e.NoExpression?;
        errors.AddTokenError(Head(e), SemanticError, TypeMismatch);
      }
    }

    /** DoConsistencyChecking. */
    method DoConsistencyChecking(e: Expression)
      requires Valid()
      modifies errors
      ensures Valid()
      ensures Current() == CheckConsistency(e, old(Current()))
      ensures errors.errors == old(errors.errors)[SemanticError := errors.errors[SemanticError]]
    {
      ReportAll(DecideType(e, symbolTable.symbols).1);
    }
  }
}
