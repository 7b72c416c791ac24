/** The abstract syntax tree (models/AbstractSyntaxTree.cs). Expressions and
    statements are values; a C# null expression or statement is the constructor
    `NoExpression` or `NoStatement`. The `Statements` list that the parser fills
    in place is a class; a for loop keeps the finished list as a sequence. */
module Ast {
  import opened Tokens

  datatype Expression =
    | Binary(oper: Token, left: Expression, right: Expression)
    | Unary(oper: Token, operand: Expression)
    | Leaf(token: Token)
    | NoExpression

  datatype Statement =
    | DeclarationStmt(identifier: Token, typ: Token, initializer: Expression)
    | AssignmentStmt(identifier: Token, expression: Expression)
    | ForLoopStmt(variable: Token, from: Expression, to: Expression, body: seq<Statement>)
    | PrintStmt(expression: Expression)
    | ReadStmt(identifier: Token)
    | AssertStmt(location: Token, assertion: Expression)
    | NoStatement

  /** Expression.Head: the operator of an operator node, the token of a leaf
      (calling it on null throws). */
  function Head(e: Expression): Token
    requires !e.NoExpression?
  {
    match e
    case Binary(oper, _, _) => oper
    case Unary(oper, _) => oper
    case Leaf(token) => token
  }

  /** No null below the root: the renderers call ToString on every child. */
  predicate Complete(e: Expression) {
    match e
    case Binary(_, l, r) => !l.NoExpression? && !r.NoExpression? && Complete(l) && Complete(r)
    case Unary(_, x) => !x.NoExpression? && Complete(x)
    case _ => true
  }

  /** An operand is printed bare when it is a leaf and in brackets otherwise. */
  function OperandText(e: Expression): string
    requires Complete(e)
    decreases e, 1
  {
    if e.Leaf? then ExpressionText(e) else "(" + ExpressionText(e) + ")"
  }

  /** Expression.ToString; a null expression concatenates as "". */
  function ExpressionText(e: Expression): string
    requires Complete(e)
    decreases e, 0
  {
    match e
    case Binary(oper, l, r) => OperandText(l) + " " + TokenText(oper) + " " + OperandText(r)
    case Unary(oper, x) => TokenText(oper) + ExpressionText(x)
    case Leaf(t) => TokenText(t)
    case NoExpression => ""
  }

  /** Every expression of the statement (and of its loop body) is complete. */
  predicate Renderable(s: Statement) {
    match s
    case DeclarationStmt(_, _, e) => Complete(e)
    case AssignmentStmt(_, e) => Complete(e)
    case ForLoopStmt(_, f, t, body) => Complete(f) && Complete(t) && forall k :: 0 <= k < |body| ==> Renderable(body[k])
    case PrintStmt(e) => Complete(e)
    case AssertStmt(_, e) => Complete(e)
    case _ => true
  }

  /** What Object.ToString gives for the Assert class, which does not override it. */
  const AssertClassName: string := "CompilersProject.Assert"

  /** Statement.ToString of each statement class; a null statement concatenates as "". */
  function StatementText(s: Statement): string
    requires Renderable(s)
    decreases s, 1
  {
    match s
    case DeclarationStmt(id, _, e) =>
      "declare: " + TokenText(id) + (if e.NoExpression? then "" else " = " + ExpressionText(e))
    case AssignmentStmt(id, e) => TokenText(id) + " = " + ExpressionText(e)
    case ForLoopStmt(v, f, t, body) =>
      "for: " + TokenText(v) + " from " + ExpressionText(f) + " to " + ExpressionText(t) + " \n"
      + StatementsText(body) + " end for"
    case PrintStmt(e) => "print: " + ExpressionText(e)
    case ReadStmt(id) => TokenText(id)
    case AssertStmt(_, _) => AssertClassName
    case NoStatement => ""
  }

  /** Statements.ToString: each statement after a newline, in list order. */
  function StatementsText(ss: seq<Statement>): string
    requires forall k :: 0 <= k < |ss| ==> Renderable(ss[k])
    decreases ss, 0
  {
    if ss == [] then "" else StatementsText(ss[..|ss| - 1]) + "\n" + StatementText(ss[|ss| - 1])
  }

  // ----- what the renderers promise -----

  /** The head of a node is the token its text is built around. */
  lemma HeadInText(e: Expression)
    requires Complete(e) && !e.NoExpression?
    ensures e.Leaf? ==> ExpressionText(e) == TokenText(Head(e))
    ensures e.Unary? ==> ExpressionText(e) == TokenText(Head(e)) + ExpressionText(e.operand)
    ensures e.Binary? ==> ExpressionText(e) == OperandText(e.left) + " " + TokenText(Head(e)) + " " + OperandText(e.right)
  {
  }

  /** Exactly the operands that are not leaves are put in brackets. */
  lemma BracketsExactlyAroundNonLeaves(e: Expression)
    requires Complete(e) && !e.NoExpression?
    ensures |OperandText(e)| >= 2 && OperandText(e)[0] == '(' && OperandText(e)[|OperandText(e)| - 1] == ')'
            <== !e.Leaf?
    ensures e.Leaf? ==> OperandText(e) == TokenText(e.token)
  {
  }

  /** Rendering a concatenation of lists concatenates the renderings. */
  lemma {:induction false} StatementsTextAppend(a: seq<Statement>, b: seq<Statement>)
    requires forall k :: 0 <= k < |a| ==> Renderable(a[k])
    requires forall k :: 0 <= k < |b| ==> Renderable(b[k])
    ensures forall k :: 0 <= k < |a + b| ==> Renderable((a + b)[k])
    ensures StatementsText(a + b) == StatementsText(a) + StatementsText(b)
    decreases |b|
  {
    if b == [] {
      assert a + b == a;
    } else {
      var b' := b[..|b| - 1];
      assert (a + b)[..|a + b| - 1] == a + b';
      StatementsTextAppend(a, b');
    }
  }

  /** The text of a list is the in-order concatenation of "\n" and each statement's text. */
  lemma StatementsTextSingle(s: Statement)
    requires Renderable(s)
    ensures StatementsText([s]) == "\n" + StatementText(s)
  {
    assert [s][..0] == [];
  }

  // ----- the mutable statement list -----

  /** Statements: the list the parser appends to while it builds the tree. */
  class Statements {
    var list: seq<Statement>

    constructor ()
      ensures list == []
    {
      list := [];
    }

    /** Append one statement at the end. */
    method AddStatement(statement: Statement)
      modifies this
      ensures list == old(list) + [statement]
    {
      list := list + [statement];
    }

    /** Append every statement of `stmts`, in order; `stmts` itself is not changed
        (merging a list into itself would modify the list under its own foreach). */
    method MergeStatements(stmts: Statements)
      requires stmts != this
      modifies this
      ensures list == old(list) + stmts.list
      ensures stmts.list == old(stmts.list)
    {
      var i := 0;
      while i < |stmts.list|
        invariant 0 <= i <= |stmts.list|
        invariant list == old(list) + stmts.list[..i]
      {
        assert stmts.list[..i + 1] == stmts.list[..i] + [stmts.list[i]];
        list := list + [stmts.list[i]];
        i := i + 1;
      }
      assert stmts.list[..i] == stmts.list;
    }
  }

  /** The tree: one statement list, empty when the tree is created. */
  class AbstractSyntaxTree {
    const statements: Statements

    constructor ()
      ensures fresh(statements) && statements.list == []
    {
      statements := new Statements();
    }
  }
}
