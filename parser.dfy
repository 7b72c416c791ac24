/** The recursive-descent parser (parser/Parser.cs). The parser holds the current
    token and the last accepted one, dequeues the scanner's token queue and appends
    syntax errors to the shared container; each expression is collected by a fresh
    expression builder. The functions ending in `Spec` state what each method
    computes on a `ParseState`; the methods of class `Parser` are proved to compute
    exactly that. A C# exception thrown by the builder ends the whole parse: it is a
    `Fault` here. */
module Parsing {
  import opened Util
  import opened Tokens
  import opened Operators
  import opened Ast
  import opened Errors
  import opened Scanning
  import opened ExpressionBuilding

  /** The parser's view of the run: the `token` and `accepted` fields, what is left of
      the scanner's queue, and the syntax error list. */
  datatype ParseState = ParseState(token: Token, accepted: Token, queue: seq<Token>, syntax: seq<ErrorEntry>)

  /** What is left to read: every queued token counts twice, a current token that is
      not the end marker once. */
  function Measure(st: ParseState): nat {
    2 * |st.queue| + (if st.token == ErrorToken() then 0 else 1)
  }

  /** GetNextToken: dequeue, or the end marker once the queue is empty. */
  function NextTokenSpec(st: ParseState): (r: ParseState)
    ensures r.accepted == st.accepted && r.syntax == st.syntax
    ensures Measure(r) <= Measure(st) && (Measure(st) > 0 ==> Measure(r) < Measure(st))
    ensures st.queue != [] ==> |r.queue| == |st.queue| - 1
    ensures st.queue == [] ==> r.queue == [] && r.token == ErrorToken()
  {
    if st.queue != [] then st.(token := st.queue[0], queue := st.queue[1..])
    else st.(token := ErrorToken())
  }

  /** A syntax error reported at the current token. */
  function Report(st: ParseState, message: string): ParseState {
    st.(syntax := st.syntax + [TokenEntry(st.token, SyntaxError, message)])
  }

  /** Accept: on a match the token becomes `accepted` and the next one is read; otherwise
      `accepted` is the end marker. */
  function AcceptSpec(st: ParseState, categories: seq<Category>): (r: (bool, ParseState))
    ensures r.0 <==> st.token.category in categories
    ensures r.1.syntax == st.syntax
    ensures Measure(r.1) <= Measure(st) && |r.1.queue| <= |st.queue|
    ensures r.0 && st.token.category != Unclassified ==> Measure(r.1) < Measure(st)
  {
    if st.token.category in categories then (true, NextTokenSpec(st.(accepted := st.token)))
    else (false, st.(accepted := ErrorToken()))
  }

  const OperandExpected := "Expecting an operand"
  const StatementExpected := "Expecting a statement"
  const ExpectingWord := "Expecting "
  const OrWord := " or "
  const FoundWord := ", but found "

  /** "A or B or C": the names of the categories, in order. */
  function OrList(categories: seq<Category>): string
    requires categories != []
  {
    if |categories| == 1 then CategoryName(categories[0])
    else OrList(categories[..|categories| - 1]) + OrWord + CategoryName(categories[|categories| - 1])
  }

  /** AddError's message. */
  function ExpectingMessage(expected: seq<Category>, found: Category): string
    requires expected != []
  {
    ExpectingWord + OrList(expected) + FoundWord + CategoryName(found)
  }

  /** Expect: accept one of the categories, or report the mismatch and skip one token. */
  function ExpectSpec(st: ParseState, categories: seq<Category>): (r: (bool, ParseState))
    requires categories != []
    ensures Measure(r.1) <= Measure(st) && (Measure(st) > 0 ==> Measure(r.1) < Measure(st))
    ensures st.queue != [] ==> |r.1.queue| == |st.queue| - 1
    ensures st.queue == [] ==> r.1.queue == []
    ensures |r.1.syntax| >= |st.syntax| && st.syntax <= r.1.syntax
  {
    if st.token.category in categories then (true, NextTokenSpec(st.(accepted := st.token)))
    else
      (false, NextTokenSpec(Report(st.(accepted := ErrorToken()), ExpectingMessage(categories, st.token.category))))
  }

  /** The categories a statement can start with: the lookahead of the maximum munch loop. */
  predicate StartsStatement(c: Category) {
    c == KeywordVar || c == Identifier || c == KeywordFor
    || c == FunctionRead || c == FunctionPrint || c == FunctionAssert
  }

  const LeafCategories: seq<Category> := [LiteralInteger, LiteralString, Identifier]

  // ----- expressions -----

  /** Operand: the tokens it offers to the builder. */
  function OperandSpec(st: ParseState): (r: (seq<Token>, ParseState))
    ensures Measure(r.1) <= Measure(st) && |r.1.queue| <= |st.queue| && |r.1.syntax| >= |st.syntax|
    ensures st.syntax <= r.1.syntax
    decreases Measure(st), 0
  {
    var (leaf, s1) := AcceptSpec(st, LeafCategories);
    if leaf then ([s1.accepted], s1)
    else
      var (open, s2) := AcceptSpec(s1, [LeftBracket]);
      if open then
        var (inner, s3) := BuildExpressionSpec(s2);
        var (_, s4) := ExpectSpec(s3, [RightBracket]);
        ([s2.accepted] + inner + [s4.accepted], s4)
      else ([], Report(s2, OperandExpected))
  }

  /** BuildExpression: `unary operand`, or `operand [binary operand]`. */
  function BuildExpressionSpec(st: ParseState): (r: (seq<Token>, ParseState))
    ensures Measure(r.1) <= Measure(st) && |r.1.queue| <= |st.queue| && |r.1.syntax| >= |st.syntax|
    ensures st.syntax <= r.1.syntax
    decreases Measure(st), 1
  {
    var (unary, s1) := AcceptSpec(st, [UnaryOperator]);
    if unary then
      var (operand, s2) := OperandSpec(s1);
      ([s1.accepted] + operand, s2)
    else
      var (left, s2) := OperandSpec(s1);
      var (binary, s3) := AcceptSpec(s2, [BinaryOperator]);
      if binary then
        var (right, s4) := OperandSpec(s3);
        (left + [s3.accepted] + right, s4)
      else (left, s3)
  }

  /** Expression: offer the tokens to a fresh builder, then build. */
  function ExpressionSpec(st: ParseState): (r: Outcome<(Expression, ParseState)>)
    ensures r.Ok? ==> Measure(r.value.1) <= Measure(st) && |r.value.1.queue| <= |st.queue|
    decreases Measure(st), 2
  {
    var (offered, s1) := BuildExpressionSpec(st);
    var e :- BuildOf(offered, Stacks([], []));
    Ok((e, s1))
  }

  // ----- statements -----

  /** Statement: dispatch on the first token; the branches carry on after it was accepted. */
  function StatementSpec(st: ParseState): (r: Outcome<(Statement, ParseState)>)
    ensures r.Ok? ==> Measure(r.value.1) <= Measure(st) && |r.value.1.queue| <= |st.queue|
    ensures r.Ok? && StartsStatement(st.token.category) ==> Measure(r.value.1) < Measure(st)
    decreases Measure(st), 3
  {
    var (isVar, s1) := AcceptSpec(st, [KeywordVar]);
    if isVar then DeclarationSpec(s1)
    else
      var (isIdentifier, s2) := AcceptSpec(s1, [Identifier]);
      if isIdentifier then AssignmentSpec(s2)
      else
        var (isFor, s3) := AcceptSpec(s2, [KeywordFor]);
        if isFor then ForLoopSpec(s3)
        else
          var (isRead, s4) := AcceptSpec(s3, [FunctionRead]);
          if isRead then ReadSpec(s4)
          else
            var (isPrint, s5) := AcceptSpec(s4, [FunctionPrint]);
            if isPrint then PrintSpec(s5)
            else
              var (isAssert, s6) := AcceptSpec(s5, [FunctionAssert]);
              if isAssert then AssertSpec(s6)
              else Ok((NoStatement, Report(s6, StatementExpected)))
  }

  /** `var x : T [:= e]`, after `var`. */
  function DeclarationSpec(st: ParseState): (r: Outcome<(Statement, ParseState)>)
    ensures r.Ok? ==> Measure(r.value.1) <= Measure(st) && |r.value.1.queue| <= |st.queue|
    decreases Measure(st), 6
  {
    var (_, s1) := ExpectSpec(st, [Identifier]);
    var identifier := s1.accepted;
    var (_, s2) := ExpectSpec(s1, [Colon]);
    var (_, s3) := ExpectSpec(s2, [Type]);
    var typ := s3.accepted;
    var (initialized, s4) := AcceptSpec(s3, [Assignment]);
    if initialized then
      var e :- ExpressionSpec(s4);
      Ok((DeclarationStmt(identifier, typ, e.0), e.1))
    else Ok((DeclarationStmt(identifier, typ, NoExpression), s4))
  }

  const InvalidAssignment: string := "Invalid assignment; expression expected"

  /** `x := e`, after the identifier. */
  function AssignmentSpec(st: ParseState): (r: Outcome<(Statement, ParseState)>)
    ensures r.Ok? ==> Measure(r.value.1) <= Measure(st) && |r.value.1.queue| <= |st.queue|
    decreases Measure(st), 6
  {
    var identifier := st.accepted;
    var (assigns, s1) := ExpectSpec(st, [Assignment]);
    if assigns then
      var e :- ExpressionSpec(s1);
      Ok((AssignmentStmt(identifier, e.0), e.1))
    else Ok((AssignmentStmt(identifier, NoExpression), Report(s1, InvalidAssignment)))
  }

  /** `for x in e .. e do statements end for`, after `for`. */
  function ForLoopSpec(st: ParseState): (r: Outcome<(Statement, ParseState)>)
    ensures r.Ok? ==> Measure(r.value.1) <= Measure(st) && |r.value.1.queue| <= |st.queue|
    decreases Measure(st), 7
  {
    var (_, s1) := ExpectSpec(st, [Identifier]);
    var variable := s1.accepted;
    var (_, s2) := ExpectSpec(s1, [KeywordIn]);
    var from :- ExpressionSpec(s2);
    ForLoopTail(variable, from.0, from.1)
  }

  /** The rest of a for loop, once its lower bound was parsed. */
  function ForLoopTail(variable: Token, from: Expression, st: ParseState): (r: Outcome<(Statement, ParseState)>)
    ensures r.Ok? ==> Measure(r.value.1) <= Measure(st) && |r.value.1.queue| <= |st.queue|
    decreases Measure(st), 6
  {
    var (_, s3) := ExpectSpec(st, [LoopRange]);
    var to :- ExpressionSpec(s3);
    var (_, s4) := ExpectSpec(to.1, [KeywordDo]);
    var body :- StatementsSpec(s4);
    var (_, s5) := ExpectSpec(body.1, [KeywordEnd]);
    var (_, s6) := ExpectSpec(s5, [KeywordFor]);
    Ok((ForLoopStmt(variable, from, to.0, body.0), s6))
  }

  /** The head of a for loop: the variable, `in` and the lower bound. */
  lemma ForLoopHead(st: ParseState, s2: ParseState, from: Outcome<Expression>, s3: ParseState)
    requires s2 == ExpectSpec(ExpectSpec(st, [Identifier]).1, [KeywordIn]).1
    requires Paired(from, s3) == ExpressionSpec(s2)
    ensures from.Fault? ==> ForLoopSpec(st) == Fault(from.message)
    ensures from.Ok? ==> ForLoopSpec(st) == ForLoopTail(ExpectSpec(st, [Identifier]).1.accepted, from.value, s3)
  {
  }

  /** The tail of a for loop, step by step. */
  lemma ForLoopTailSteps(variable: Token, from: Expression, st: ParseState, s3: ParseState,
                         to: Outcome<Expression>, s4: ParseState, s5: ParseState,
                         body: Outcome<seq<Statement>>, s6: ParseState, s7: ParseState)
    requires s3 == ExpectSpec(st, [LoopRange]).1
    requires Paired(to, s4) == ExpressionSpec(s3)
    requires to.Ok? ==> s5 == ExpectSpec(s4, [KeywordDo]).1 && Paired(body, s6) == StatementsSpec(s5)
    requires to.Ok? && body.Ok? ==> s7 == ExpectSpec(ExpectSpec(s6, [KeywordEnd]).1, [KeywordFor]).1
    ensures to.Fault? ==> ForLoopTail(variable, from, st) == Fault(to.message)
    ensures to.Ok? && body.Fault? ==> ForLoopTail(variable, from, st) == Fault(body.message)
    ensures to.Ok? && body.Ok? ==> ForLoopTail(variable, from, st) == Ok((ForLoopStmt(variable, from, to.value, body.value), s7))
  {
  }

  /** `read x`, after `read`. */
  function ReadSpec(st: ParseState): (r: Outcome<(Statement, ParseState)>)
    ensures r.Ok? ==> Measure(r.value.1) <= Measure(st) && |r.value.1.queue| <= |st.queue|
  {
    var (_, s1) := ExpectSpec(st, [Identifier]);
    Ok((ReadStmt(s1.accepted), s1))
  }

  /** `print e`, after `print`. */
  function PrintSpec(st: ParseState): (r: Outcome<(Statement, ParseState)>)
    ensures r.Ok? ==> Measure(r.value.1) <= Measure(st) && |r.value.1.queue| <= |st.queue|
    decreases Measure(st), 6
  {
    var e :- ExpressionSpec(st);
    Ok((PrintStmt(e.0), e.1))
  }

  /** `assert ( e )`, after `assert`, which is kept as the statement's location. */
  function AssertSpec(st: ParseState): (r: Outcome<(Statement, ParseState)>)
    ensures r.Ok? ==> Measure(r.value.1) <= Measure(st) && |r.value.1.queue| <= |st.queue|
    decreases Measure(st), 6
  {
    var location := st.accepted;
    var (_, s1) := ExpectSpec(st, [LeftBracket]);
    var e :- ExpressionSpec(s1);
    var (_, s2) := ExpectSpec(e.1, [RightBracket]);
    Ok((AssertStmt(location, e.0), s2))
  }

  /** Statements: one statement and its semicolon, then more while the lookahead starts one. */
  function StatementsSpec(st: ParseState): (r: Outcome<(seq<Statement>, ParseState)>)
    ensures r.Ok? ==> Measure(r.value.1) <= Measure(st) && |r.value.1.queue| <= |st.queue|
    ensures r.Ok? && Measure(st) > 0 ==> Measure(r.value.1) < Measure(st)
    ensures r.Ok? && st.queue != [] ==> |r.value.1.queue| < |st.queue|
    decreases Measure(st), 5
  {
    var first :- StatementSpec(st);
    var (_, s1) := ExpectSpec(first.1, [Semicolon]);
    var more :- MoreStatementsSpec(s1);
    Ok(([first.0] + more.0, more.1))
  }

  /** The maximum munch loop of Statements. */
  function MoreStatementsSpec(st: ParseState): (r: Outcome<(seq<Statement>, ParseState)>)
    ensures r.Ok? ==> Measure(r.value.1) <= Measure(st) && |r.value.1.queue| <= |st.queue|
    decreases Measure(st), 4
  {
    if StartsStatement(st.token.category) then
      var next :- StatementSpec(st);
      var (_, s1) := ExpectSpec(next.1, [Semicolon]);
      var more :- MoreStatementsSpec(s1);
      Ok(([next.0] + more.0, more.1))
    else Ok(([], st))
  }

  // ----- the whole parse -----

  /** The state Parse starts from: the fields unset, then the first GetNextToken. */
  function ParseStart(tokens: seq<Token>, syntax: seq<ErrorEntry>): ParseState {
    NextTokenSpec(ParseState(ErrorToken(), ErrorToken(), tokens, syntax))
  }

  /** Parse as written: statement lists are parsed while the scanner's queue is not empty,
      so the current token is never looked at once the queue has run dry. */
  function ParseLoopAsWritten(st: ParseState): (r: Outcome<(seq<Statement>, ParseState)>)
    ensures r.Ok? ==> r.value.1.queue == []
    decreases |st.queue|
  {
    if st.queue == [] then Ok(([], st))
    else
      var ss :- StatementsSpec(st);
      var more :- ParseLoopAsWritten(ss.1);
      Ok((ss.0 + more.0, more.1))
  }

  function ParseAsWrittenSpec(tokens: seq<Token>, syntax: seq<ErrorEntry>): Outcome<(seq<Statement>, ParseState)> {
    ParseLoopAsWritten(ParseStart(tokens, syntax))
  }

  /** Parse, corrected: statement lists are parsed until the queue is empty and the current
      token is the end marker, so that every token is parsed or reported. */
  function ParseLoop(st: ParseState): (r: Outcome<(seq<Statement>, ParseState)>)
    ensures r.Ok? ==> r.value.1.queue == [] && r.value.1.token == ErrorToken()
    decreases Measure(st)
  {
    if Measure(st) == 0 then Ok(([], st))
    else
      var ss :- StatementsSpec(st);
      var more :- ParseLoop(ss.1);
      Ok((ss.0 + more.0, more.1))
  }

  function ParseSpec(tokens: seq<Token>, syntax: seq<ErrorEntry>): Outcome<(seq<Statement>, ParseState)> {
    ParseLoop(ParseStart(tokens, syntax))
  }

  // ----- what the parser promises -----

  /** Accept consumes exactly one token on a match and nothing otherwise. */
  lemma AcceptConsumesOne(st: ParseState, categories: seq<Category>)
    ensures var (ok, r) := AcceptSpec(st, categories);
      r.syntax == st.syntax
      && (ok ==> r.accepted == st.token
                 && (st.queue != [] ==> r.token == st.queue[0] && r.queue == st.queue[1..])
                 && (st.queue == [] ==> r.token == ErrorToken() && r.queue == []))
      && (!ok ==> r == st.(accepted := ErrorToken()))
  {
  }

  /** Expect always moves on by exactly one token, and records exactly one syntax error,
      the mismatch message at the unexpected token, when the token is not expected. */
  lemma ExpectAdvancesOne(st: ParseState, categories: seq<Category>)
    requires categories != []
    ensures var (ok, r) := ExpectSpec(st, categories);
      (ok <==> st.token.category in categories)
      && r.token == NextTokenSpec(st).token && r.queue == NextTokenSpec(st).queue
      && (ok ==> r.syntax == st.syntax && r.accepted == st.token)
      && (!ok ==> r.accepted == ErrorToken()
                  && r.syntax == st.syntax + [TokenEntry(st.token, SyntaxError, ExpectingMessage(categories, st.token.category))])
  {
  }

  /** Adding a category to the list adds " or " and its name at the end. */
  lemma OrListSnoc(categories: seq<Category>, c: Category)
    requires categories != []
    ensures OrList(categories + [c]) == OrList(categories) + " or " + CategoryName(c)
  {
    assert (categories + [c])[..|categories|] == categories;
  }

  /** The expected categories are listed in order, joined by "or". */
  lemma ExpectingMessageLists(a: Category, b: Category, found: Category)
    ensures ExpectingMessage([a], found) == "Expecting " + CategoryName(a) + ", but found " + CategoryName(found)
    ensures ExpectingMessage([a, b], found)
         == "Expecting " + (CategoryName(a) + " or " + CategoryName(b)) + ", but found " + CategoryName(found)
  {
    OrListSnoc([a], b);
    assert [a] + [b] == [a, b];
  }

  /** A token that starts no statement is reported, yields a null statement and is not consumed. */
  lemma NoStatementConsumesNothing(st: ParseState)
    requires !StartsStatement(st.token.category)
    ensures StatementSpec(st) == Ok((NoStatement, Report(st.(accepted := ErrorToken()), StatementExpected)))
    ensures var r := StatementSpec(st).value.1;
      r.token == st.token && r.queue == st.queue
      && r.syntax == st.syntax + [TokenEntry(st.token, SyntaxError, StatementExpected)]
  {
  }

  /** A statement that starts with an identifier is an assignment to it. */
  lemma IdentifierStartsAssignment(st: ParseState)
    requires st.token.category == Identifier
    ensures StatementSpec(st) == AssignmentSpec(NextTokenSpec(st.(accepted := st.token)))
  {
    assert AcceptSpec(st, [KeywordVar]) == (false, st.(accepted := ErrorToken()));
  }

  /** An identifier not followed by `:=` records two syntax errors: the mismatch, and the
      invalid assignment at the token after the skipped one. */
  lemma InvalidAssignmentReportsTwice(st: ParseState)
    requires st.token.category == Identifier
    ensures var s1 := NextTokenSpec(st);
      s1.token.category != Assignment ==>
        var s2 := NextTokenSpec(s1);
        StatementSpec(st).Ok?
        && StatementSpec(st).value.0 == AssignmentStmt(st.token, NoExpression)
        && StatementSpec(st).value.1.syntax
           == st.syntax + [TokenEntry(s1.token, SyntaxError, ExpectingMessage([Assignment], s1.token.category)),
                           TokenEntry(s2.token, SyntaxError, InvalidAssignment)]
  {
    var a := NextTokenSpec(st.(accepted := st.token));
    IdentifierStartsAssignment(st);
    if a.token.category != Assignment {
      var msg := ExpectingMessage([Assignment], a.token.category);
      var b := NextTokenSpec(Report(a.(accepted := ErrorToken()), msg));
      assert AssignmentSpec(a) == Ok((AssignmentStmt(st.token, NoExpression), Report(b, InvalidAssignment)));
    }
  }

  /** Statements yields at least one statement and stops at a token that starts none. */
  lemma StatementsMunch(st: ParseState)
    ensures var r := StatementsSpec(st);
      r.Ok? ==> |r.value.0| >= 1 && !StartsStatement(r.value.1.token.category)
  {
    var first := StatementSpec(st);
    if first.Ok? {
      var (_, s1) := ExpectSpec(first.value.1, [Semicolon]);
      MoreStatementsStop(s1);
    }
  }

  lemma {:induction false} MoreStatementsStop(st: ParseState)
    ensures var r := MoreStatementsSpec(st);
      r.Ok? ==> !StartsStatement(r.value.1.token.category)
    decreases Measure(st)
  {
    if StartsStatement(st.token.category) {
      var next := StatementSpec(st);
      if next.Ok? {
        var (_, s1) := ExpectSpec(next.value.1, [Semicolon]);
        MoreStatementsStop(s1);
      }
    }
  }

  // ----- expressions without syntax errors -----

  /** The current token and the queue hold classified tokens, as the scanner makes them. */
  predicate StateClassified(st: ParseState) {
    Classified(st.token) && forall i :: 0 <= i < |st.queue| ==> Classified(st.queue[i])
  }

  lemma NextTokenClassified(st: ParseState)
    requires StateClassified(st)
    ensures StateClassified(NextTokenSpec(st))
  {
  }

  lemma AcceptClassified(st: ParseState, categories: seq<Category>)
    requires StateClassified(st)
    ensures StateClassified(AcceptSpec(st, categories).1)
  {
    NextTokenClassified(st.(accepted := st.token));
  }

  lemma ExpectClassified(st: ParseState, categories: seq<Category>)
    requires StateClassified(st) && categories != []
    ensures StateClassified(ExpectSpec(st, categories).1)
  {
    NextTokenClassified(st.(accepted := st.token));
    NextTokenClassified(Report(st.(accepted := ErrorToken()), ExpectingMessage(categories, st.token.category)));
  }

  /** An operand parsed without a syntax error offers the tokens of a well-formed operand. */
  lemma OperandShape(st: ParseState) returns (o: Operand)
    requires StateClassified(st)
    ensures var (offered, r) := OperandSpec(st);
      StateClassified(r)
      && (|r.syntax| == |st.syntax| ==> offered == OperandTokens(o) && OperandWellFormed(o))
    decreases Measure(st), 0
  {
    var (leaf, s1) := AcceptSpec(st, LeafCategories);
    AcceptClassified(st, LeafCategories);
    AcceptConsumesOne(st, LeafCategories);
    if leaf {
      o := Atom(s1.accepted);
    } else {
      var (open, s2) := AcceptSpec(s1, [LeftBracket]);
      AcceptClassified(s1, [LeftBracket]);
      AcceptConsumesOne(s1, [LeftBracket]);
      if open {
        var (inner, s3) := BuildExpressionSpec(s2);
        var p := PhraseShape(s2);
        ExpectClassified(s3, [RightBracket]);
        ExpectAdvancesOne(s3, [RightBracket]);
        var (_, s4) := ExpectSpec(s3, [RightBracket]);
        o := Group(s2.accepted, p, s4.accepted);
      } else {
        o := Atom(ErrorToken());
      }
    }
  }

  /** An expression parsed without a syntax error offers the tokens of a well-formed phrase. */
  lemma PhraseShape(st: ParseState) returns (p: Phrase)
    requires StateClassified(st)
    ensures var (offered, r) := BuildExpressionSpec(st);
      StateClassified(r)
      && (|r.syntax| == |st.syntax| ==> offered == PhraseTokens(p) && PhraseWellFormed(p))
    decreases Measure(st), 1
  {
    var (unary, s1) := AcceptSpec(st, [UnaryOperator]);
    AcceptClassified(st, [UnaryOperator]);
    AcceptConsumesOne(st, [UnaryOperator]);
    if unary {
      var o := OperandShape(s1);
      p := Negated(s1.accepted, o);
    } else {
      var l := OperandShape(s1);
      var (_, s2) := OperandSpec(s1);
      var (binary, s3) := AcceptSpec(s2, [BinaryOperator]);
      AcceptClassified(s2, [BinaryOperator]);
      AcceptConsumesOne(s2, [BinaryOperator]);
      if binary {
        var r := OperandShape(s3);
        p := Infix(l, s3.accepted, r);
      } else {
        p := Single(l);
      }
    }
  }

  /** An expression parsed without a syntax error is never refused by the builder: the
      parser's expression is the tree of the phrase it read. */
  lemma ExpressionBuildsPhrase(st: ParseState) returns (p: Phrase)
    requires StateClassified(st)
    ensures var (offered, s1) := BuildExpressionSpec(st);
      |s1.syntax| == |st.syntax| ==>
        PhraseWellFormed(p) && PhraseTokens(p) == offered && ExpressionSpec(st) == Ok((PhraseTree(p), s1))
  {
    p := PhraseShape(st);
    var (offered, s1) := BuildExpressionSpec(st);
    if |s1.syntax| == |st.syntax| {
      BuildPhrase(p);
    }
  }

  /** The corrected Parse reads the whole queue and the last token too, and a program
      with a first token yields at least one statement for it. */
  lemma ParseConsumesEverything(tokens: seq<Token>, syntax: seq<ErrorEntry>)
    ensures ParseSpec(tokens, syntax).Ok? ==>
      var r := ParseSpec(tokens, syntax).value.1;
      r.queue == [] && r.token == ErrorToken()
    ensures ParseSpec(tokens, syntax).Ok? && tokens != [] && tokens[0] != ErrorToken() ==>
      |ParseSpec(tokens, syntax).value.0| >= 1
  {
    var st := ParseStart(tokens, syntax);
    if tokens != [] && tokens[0] != ErrorToken() {
      assert Measure(st) > 0;
      StatementsMunch(st);
    }
  }

  /** As written, a one-token program is never parsed, whatever its token: the first
      GetNextToken empties the queue, so the loop body never runs and nothing is reported. */
  lemma SingleTokenUnparsedAsWritten(x: Token, syntax: seq<ErrorEntry>)
    ensures ParseAsWrittenSpec([x], syntax) == Ok(([], ParseState(x, ErrorToken(), [], syntax)))
  {
    assert ParseStart([x], syntax) == ParseState(x, ErrorToken(), [], syntax);
  }

  /** The end state of a lone identifier's statement list: an assignment with the
      missing `:=`, the invalid assignment and the missing `;` reported at the end marker. */
  function LoneIdentifierEnd(): ParseState {
    ParseState(ErrorToken(), ErrorToken(), [],
      [TokenEntry(ErrorToken(), SyntaxError, ExpectingMessage([Assignment], Unclassified)),
       TokenEntry(ErrorToken(), SyntaxError, InvalidAssignment),
       TokenEntry(ErrorToken(), SyntaxError, ExpectingMessage([Semicolon], Unclassified))])
  }

  /** The assignment of a lone identifier: `:=` is missing at the end marker. */
  lemma LoneAssignment(x: Token)
    ensures AssignmentSpec(ParseState(ErrorToken(), x, [], []))
         == Ok((AssignmentStmt(x, NoExpression), ParseState(ErrorToken(), ErrorToken(), [], LoneIdentifierEnd().syntax[..2])))
  {
    var e1 := TokenEntry(ErrorToken(), SyntaxError, ExpectingMessage([Assignment], Unclassified));
    var e2 := TokenEntry(ErrorToken(), SyntaxError, InvalidAssignment);
    var (assigns, skipped) := ExpectSpec(ParseState(ErrorToken(), x, [], []), [Assignment]);
    assert skipped == ParseState(ErrorToken(), ErrorToken(), [], [e1]);
    assert LoneIdentifierEnd().syntax[..2] == [e1] + [e2];
  }

  lemma LoneIdentifierStatements(x: Token)
    requires x.category == Identifier
    ensures StatementsSpec(ParseState(x, ErrorToken(), [], []))
         == Ok(([AssignmentStmt(x, NoExpression)], LoneIdentifierEnd()))
  {
    var st := ParseState(x, ErrorToken(), [], []);
    IdentifierStartsAssignment(st);
    LoneAssignment(x);
    var afterAssign := ParseState(ErrorToken(), ErrorToken(), [], LoneIdentifierEnd().syntax[..2]);
    var s1 := ExpectSpec(afterAssign, [Semicolon]).1;
    StatementsUnfold(st, Ok(AssignmentStmt(x, NoExpression)), afterAssign, s1);
    assert s1.syntax == LoneIdentifierEnd().syntax[..2] + [LoneIdentifierEnd().syntax[2]] == LoneIdentifierEnd().syntax;
    assert MoreStatementsSpec(s1) == Ok(([], s1));
    assert [AssignmentStmt(x, NoExpression)] + [] == [AssignmentStmt(x, NoExpression)];
  }

  /** As written, a program made of one identifier parses to nothing and reports nothing:
      its only token is current when the queue is already empty. Corrected, it is an
      assignment with two errors of its own and a missing semicolon. */
  lemma LoneTokenDropped(x: Token)
    requires x.category == Identifier
    ensures ParseAsWrittenSpec([x], []) == Ok(([], ParseState(x, ErrorToken(), [], [])))
    ensures ParseSpec([x], []) == Ok(([AssignmentStmt(x, NoExpression)], LoneIdentifierEnd()))
    ensures |LoneIdentifierEnd().syntax| == 3
  {
    var st := ParseStart([x], []);
    assert st == ParseState(x, ErrorToken(), [], []);
    LoneIdentifierStatements(x);
    assert ParseLoop(LoneIdentifierEnd()) == Ok(([], LoneIdentifierEnd()));
    assert [AssignmentStmt(x, NoExpression)] + [] == [AssignmentStmt(x, NoExpression)];
  }

  // ----- the parser object -----

  /** A method's outcome together with the parser's state after it, as the `Spec`
      functions return them; a fault ends the parse and carries no state. */
  function Paired<T>(r: Outcome<T>, st: ParseState): Outcome<(T, ParseState)> {
    match r
    case Ok(v) => Ok((v, st))
    case Fault(m) => Fault(m)
  }

  /** Statements already collected in front of what a statement loop still returns. */
  function Prepend(done: seq<Statement>, r: Outcome<(seq<Statement>, ParseState)>): Outcome<(seq<Statement>, ParseState)> {
    match r
    case Ok(v) => Ok((done + v.0, v.1))
    case Fault(m) => Fault(m)
  }

  /** The statement list of an outcome. */
  function ListOf(r: Outcome<Statements>): Outcome<seq<Statement>>
    reads if r.Ok? then {r.value} else {}
  {
    match r
    case Ok(v) => Ok(v.list)
    case Fault(m) => Fault(m)
  }

  /** Statements is its first statement and semicolon in front of the maximum munch loop. */
  lemma StatementsUnfold(st: ParseState, first: Outcome<Statement>, s1: ParseState, s2: ParseState)
    requires Paired(first, s1) == StatementSpec(st)
    requires first.Ok? ==> s2 == ExpectSpec(s1, [Semicolon]).1
    ensures first.Fault? ==> StatementsSpec(st) == Fault(first.message)
    ensures first.Ok? ==> StatementsSpec(st) == Prepend([first.value], MoreStatementsSpec(s2))
  {
  }

  /** One round of the maximum munch loop. */
  lemma MoreStatementsUnfold(st: ParseState, next: Outcome<Statement>, s1: ParseState, s2: ParseState)
    requires StartsStatement(st.token.category)
    requires Paired(next, s1) == StatementSpec(st)
    requires next.Ok? ==> s2 == ExpectSpec(s1, [Semicolon]).1
    ensures next.Fault? ==> MoreStatementsSpec(st) == Fault(next.message)
    ensures next.Ok? ==> MoreStatementsSpec(st) == Prepend([next.value], MoreStatementsSpec(s2))
  {
  }

  lemma PrependNothing(r: Outcome<(seq<Statement>, ParseState)>)
    ensures Prepend([], r) == r
  {
    if r.Ok? {
      assert [] + r.value.0 == r.value.0;
    }
  }

  lemma PrependTwice(a: seq<Statement>, b: seq<Statement>, r: Outcome<(seq<Statement>, ParseState)>)
    ensures Prepend(a, Prepend(b, r)) == Prepend(a + b, r)
  {
    if r.Ok? {
      AppendAssoc(a, b, r.value.0);
    }
  }

  /** Adding to one kind's list leaves the other kinds' lists as they were. */
  lemma UpdateKeepsOthers(m: map<ErrorKind, seq<ErrorEntry>>, k: ErrorKind, v: seq<ErrorEntry>)
    ensures m[k := v] - {k} == m - {k}
  {
  }

  lemma MessageStep(expected: seq<Category>, i: nat)
    requires 1 <= i < |expected|
    ensures ExpectingWord + OrList(expected[..i]) + (OrWord + CategoryName(expected[i]))
         == ExpectingWord + OrList(expected[..i + 1])
  {
    assert expected[..i + 1][..i] == expected[..i];
    AppendAssoc(ExpectingWord, OrList(expected[..i]), OrWord + CategoryName(expected[i]));
    AppendAssoc(OrList(expected[..i]), OrWord, CategoryName(expected[i]));
  }

  /** The loop of AddError that builds its message. */
  method ExpectingText(found: Token, expected: seq<Category>) returns (message: string)
    requires expected != []
    ensures message == ExpectingMessage(expected, found.category)
  {
    message := ExpectingWord + CategoryName(expected[0]);
    var i := 1;
    while i < |expected|
      invariant 1 <= i <= |expected|
      invariant message == ExpectingWord + OrList(expected[..i])
    {
      MessageStep(expected, i);
      message := message + (OrWord + CategoryName(expected[i]));
      i := i + 1;
    }
    assert expected[..i] == expected;
    message := message + FoundWord + CategoryName(found.category);
  }

  class Parser {
    const scanner: Scanner
    const errors: ErrorContainer
    var token: Token
    var accepted: Token

    ghost predicate Valid()
      reads this, errors
    {
      errors.Valid()
    }

    /** The parser's state: its two tokens, the scanner's queue and the syntax error list. */
    ghost function Current(): ParseState
      reads this, scanner, errors
      requires errors.Valid()
    {
      ParseState(token, accepted, scanner.tokenBuffer, errors.errors[SyntaxError])
    }

    /** Both tokens are null in the source until Parse reads the first one; the end
        marker stands for null here. */
    constructor (scanner: Scanner, errors: ErrorContainer)
      requires errors.Valid()
      ensures this.scanner == scanner && this.errors == errors && Valid()
      ensures Current() == ParseState(ErrorToken(), ErrorToken(), scanner.tokenBuffer, errors.errors[SyntaxError])
    {
      this.scanner := scanner;
      this.errors := errors;
      token := ErrorToken();
      accepted := ErrorToken();
    }

    method GetNextToken()
      requires Valid()
      modifies this`token, scanner`tokenBuffer
      ensures Valid() && Current() == NextTokenSpec(old(Current()))
    {
      if scanner.HasNext() {
        var next := scanner.Next();
        token := next.value;
      } else {
        token := ErrorToken();
      }
    }

    method Accept(categories: seq<Category>) returns (ok: bool)
      requires Valid()
      modifies this, scanner`tokenBuffer
      ensures Valid() && (ok, Current()) == AcceptSpec(old(Current()), categories)
    {
      var i := 0;
      while i < |categories|
        invariant 0 <= i <= |categories|
        invariant token.category !in categories[..i]
      {
        if categories[i] == token.category {
          accepted := token;
          GetNextToken();
          return true;
        }
        assert categories[..i + 1] == categories[..i] + [categories[i]];
        i := i + 1;
      }
      assert categories[..i] == categories;
      accepted := ErrorToken();
      return false;
    }

    /** Expect tries the categories one by one with Accept. */
    method Expect(categories: seq<Category>) returns (ok: bool)
      requires Valid() && categories != []
      modifies this, scanner`tokenBuffer, errors
      ensures Valid() && (ok, Current()) == ExpectSpec(old(Current()), categories)
      ensures errors.errors - {SyntaxError} == old(errors.errors) - {SyntaxError}
    {
      var i := 0;
      while i < |categories|
        invariant 0 <= i <= |categories|
        invariant token == old(token) && scanner.tokenBuffer == old(scanner.tokenBuffer)
        invariant errors.errors == old(errors.errors)
        invariant accepted == if i == 0 then old(accepted) else ErrorToken()
        invariant token.category !in categories[..i]
      {
        var single := Accept([categories[i]]);
        if single {
          return true;
        }
        assert categories[..i + 1] == categories[..i] + [categories[i]];
        i := i + 1;
      }
      assert categories[..i] == categories;
      AddError(token, categories);
      Recover();
      return false;
    }

    /** The message lists the expected categories; the entry is recorded at the current token. */
    method AddError(found: Token, expected: seq<Category>)
      requires Valid() && expected != []
      modifies errors
      ensures Valid() && Current() == Report(old(Current()), ExpectingMessage(expected, found.category))
      ensures errors.errors - {SyntaxError} == old(errors.errors) - {SyntaxError}
    {
      var message := ExpectingText(found, expected);
      errors.AddTokenError(token, SyntaxError, message);
      UpdateKeepsOthers(old(errors.errors), SyntaxError, errors.errors[SyntaxError]);
    }

    /** The recovery skips one token. */
    method Recover()
      requires Valid()
      modifies this`token, scanner`tokenBuffer
      ensures Valid() && Current() == NextTokenSpec(old(Current()))
    {
      GetNextToken();
    }

    method Operand(builder: ExpressionBuilder)
      requires Valid()
      modifies this, scanner`tokenBuffer, errors, builder
      ensures Valid() && Current() == OperandSpec(old(Current())).1
      ensures builder.input == old(builder.input) + OperandSpec(old(Current())).0
      ensures builder.operators == old(builder.operators) && builder.output == old(builder.output)
      ensures errors.errors - {SyntaxError} == old(errors.errors) - {SyntaxError}
      decreases Measure(Current()), 0
    {
      ghost var st := Current();
      var leaf := Accept(LeafCategories);
      ghost var s1 := Current();
      if leaf {
        builder.Offer(accepted);
        assert OperandSpec(st) == ([s1.accepted], s1);
      } else {
        var open := Accept([LeftBracket]);
        ghost var s2 := Current();
        if open {
          ghost var before := builder.input;
          builder.Offer(accepted);
          BuildExpression(builder);
          ghost var s3 := Current();
          var closed := Expect([RightBracket]);
          ghost var s4 := Current();
          ghost var inner := BuildExpressionSpec(s2).0;
          AppendAssoc(before, [s2.accepted], inner);
          builder.Offer(accepted);
          assert OperandSpec(st) == ([s2.accepted] + inner + [s4.accepted], s4);
          AppendAssoc(before, [s2.accepted] + inner, [s4.accepted]);
        } else {
          ghost var kept := errors.errors;
          errors.AddTokenError(token, SyntaxError, OperandExpected);
          UpdateKeepsOthers(kept, SyntaxError, errors.errors[SyntaxError]);
          assert OperandSpec(st) == ([], Report(s2, OperandExpected));
        }
      }
    }

    method BuildExpression(builder: ExpressionBuilder)
      requires Valid()
      modifies this, scanner`tokenBuffer, errors, builder
      ensures Valid() && Current() == BuildExpressionSpec(old(Current())).1
      ensures builder.input == old(builder.input) + BuildExpressionSpec(old(Current())).0
      ensures builder.operators == old(builder.operators) && builder.output == old(builder.output)
      ensures errors.errors - {SyntaxError} == old(errors.errors) - {SyntaxError}
      decreases Measure(Current()), 1
    {
      ghost var st := Current();
      var unary := Accept([UnaryOperator]);
      ghost var s1 := Current();
      if unary {
        ghost var before := builder.input;
        builder.Offer(accepted);
        Operand(builder);
        AppendAssoc(before, [s1.accepted], OperandSpec(s1).0);
        assert BuildExpressionSpec(st) == ([s1.accepted] + OperandSpec(s1).0, OperandSpec(s1).1);
      } else {
        ghost var before := builder.input;
        Operand(builder);
        ghost var s2 := Current();
        var binary := Accept([BinaryOperator]);
        ghost var s3 := Current();
        if binary {
          builder.Offer(accepted);
          Operand(builder);
          AppendAssoc(before, OperandSpec(s1).0, [s3.accepted]);
          AppendAssoc(before, OperandSpec(s1).0 + [s3.accepted], OperandSpec(s3).0);
          assert BuildExpressionSpec(st) == (OperandSpec(s1).0 + [s3.accepted] + OperandSpec(s3).0, OperandSpec(s3).1);
        } else {
          assert BuildExpressionSpec(st) == (OperandSpec(s1).0, s3);
        }
      }
    }

    /** A fresh builder per expression; its mismatch exception is a fault. */
    method Expression() returns (r: Outcome<Expression>)
      requires Valid()
      modifies this, scanner`tokenBuffer, errors
      ensures Valid() && Paired(r, Current()) == ExpressionSpec(old(Current()))
      ensures errors.errors - {SyntaxError} == old(errors.errors) - {SyntaxError}
      decreases Measure(Current()), 2
    {
      ghost var st := Current();
      var builder := new ExpressionBuilder();
      BuildExpression(builder);
      ghost var offered := BuildExpressionSpec(st).0;
      assert builder.input == [] + offered == offered;
      r := builder.Build();
      assert r == BuildOf(offered, Stacks([], []));
    }
  
    /** Statement dispatches on the first token; each kind of statement is a method of
        its own here, for the branch that carries on after the first token was accepted. */
    method Statement() returns (r: Outcome<Statement>)
      requires Valid()
      modifies this, scanner`tokenBuffer, errors
      ensures Valid() && Paired(r, Current()) == StatementSpec(old(Current()))
      ensures errors.errors - {SyntaxError} == old(errors.errors) - {SyntaxError}
      decreases Measure(Current()), 3
    {
      ghost var st := Current();
      var isVar := Accept([KeywordVar]);
      if isVar {
        r := DeclarationStatement();
        return;
      }
      var isIdentifier := Accept([Identifier]);
      if isIdentifier {
        r := AssignmentStatement();
        return;
      }
      var isFor := Accept([KeywordFor]);
      if isFor {
        r := ForLoopStatement();
        return;
      }
      var isRead := Accept([FunctionRead]);
      if isRead {
        r := ReadStatement();
        return;
      }
      var isPrint := Accept([FunctionPrint]);
      if isPrint {
        r := PrintStatement();
        return;
      }
      var isAssert := Accept([FunctionAssert]);
      if isAssert {
        r := AssertStatement();
        return;
      }
      ghost var kept := errors.errors;
      errors.AddTokenError(token, SyntaxError, StatementExpected);
      UpdateKeepsOthers(kept, SyntaxError, errors.errors[SyntaxError]);
      r := Ok(NoStatement);
    }

    method DeclarationStatement() returns (r: Outcome<Statement>)
      requires Valid()
      modifies this, scanner`tokenBuffer, errors
      ensures Valid() && Paired(r, Current()) == DeclarationSpec(old(Current()))
      ensures errors.errors - {SyntaxError} == old(errors.errors) - {SyntaxError}
      decreases Measure(Current()), 6
    {
      var named := Expect([Identifier]);
      var identifier := accepted;
      var colon := Expect([Colon]);
      var typed := Expect([Type]);
      var typ := accepted;
      var initialized := Accept([Assignment]);
      if initialized {
        var e := Expression();
        if e.Fault? {
          return Fault(e.message);
        }
        r := Ok(DeclarationStmt(identifier, typ, e.value));
      } else {
        r := Ok(DeclarationStmt(identifier, typ, NoExpression));
      }
    }

    method AssignmentStatement() returns (r: Outcome<Statement>)
      requires Valid()
      modifies this, scanner`tokenBuffer, errors
      ensures Valid() && Paired(r, Current()) == AssignmentSpec(old(Current()))
      ensures errors.errors - {SyntaxError} == old(errors.errors) - {SyntaxError}
      decreases Measure(Current()), 6
    {
      var identifier := accepted;
      var assigns := Expect([Assignment]);
      if assigns {
        var e := Expression();
        if e.Fault? {
          return Fault(e.message);
        }
        r := Ok(AssignmentStmt(identifier, e.value));
      } else {
        ghost var kept := errors.errors;
        errors.AddTokenError(token, SyntaxError, InvalidAssignment);
        UpdateKeepsOthers(kept, SyntaxError, errors.errors[SyntaxError]);
        r := Ok(AssignmentStmt(identifier, NoExpression));
      }
    }

    method ForLoopStatement() returns (r: Outcome<Statement>)
      requires Valid()
      modifies this, scanner`tokenBuffer, errors
      ensures Valid() && Paired(r, Current()) == ForLoopSpec(old(Current()))
      ensures errors.errors - {SyntaxError} == old(errors.errors) - {SyntaxError}
      decreases Measure(Current()), 7
    {
      ghost var st := Current();
      var named := Expect([Identifier]);
      var variable := accepted;
      var inKeyword := Expect([KeywordIn]);
      ghost var s2 := Current();
      var from := Expression();
      ghost var s3 := Current();
      ForLoopHead(st, s2, from, s3);
      if from.Fault? {
        return Fault(from.message);
      }
      var range := Expect([LoopRange]);
      ghost var s4 := Current();
      var to := Expression();
      ghost var s5 := Current();
      if to.Fault? {
        ForLoopTailSteps(variable, from.value, s3, s4, to, s5, s5, Fault(""), s5, s5);
        return Fault(to.message);
      }
      var doKeyword := Expect([KeywordDo]);
      ghost var s6 := Current();
      var body := Statements();
      ghost var s7 := Current();
      if body.Fault? {
        ForLoopTailSteps(variable, from.value, s3, s4, to, s5, s6, ListOf(body), s7, s7);
        return Fault(body.message);
      }
      var list := body.value.list;
      var endKeyword := Expect([KeywordEnd]);
      var forKeyword := Expect([KeywordFor]);
      ForLoopTailSteps(variable, from.value, s3, s4, to, s5, s6, Ok(list), s7, Current());
      r := Ok(ForLoopStmt(variable, from.value, to.value, list));
    }

    method ReadStatement() returns (r: Outcome<Statement>)
      requires Valid()
      modifies this, scanner`tokenBuffer, errors
      ensures Valid() && Paired(r, Current()) == ReadSpec(old(Current()))
      ensures errors.errors - {SyntaxError} == old(errors.errors) - {SyntaxError}
    {
      var named := Expect([Identifier]);
      r := Ok(ReadStmt(accepted));
    }

    method PrintStatement() returns (r: Outcome<Statement>)
      requires Valid()
      modifies this, scanner`tokenBuffer, errors
      ensures Valid() && Paired(r, Current()) == PrintSpec(old(Current()))
      ensures errors.errors - {SyntaxError} == old(errors.errors) - {SyntaxError}
      decreases Measure(Current()), 6
    {
      var e := Expression();
      if e.Fault? {
        return Fault(e.message);
      }
      r := Ok(PrintStmt(e.value));
    }

    method AssertStatement() returns (r: Outcome<Statement>)
      requires Valid()
      modifies this, scanner`tokenBuffer, errors
      ensures Valid() && Paired(r, Current()) == AssertSpec(old(Current()))
      ensures errors.errors - {SyntaxError} == old(errors.errors) - {SyntaxError}
      decreases Measure(Current()), 6
    {
      var location := accepted;
      var open := Expect([LeftBracket]);
      var e := Expression();
      if e.Fault? {
        return Fault(e.message);
      }
      var close := Expect([RightBracket]);
      r := Ok(AssertStmt(location, e.value));
    }

    /** Statements: a fresh list, one statement and its semicolon, then the maximum munch loop. */
    method Statements() returns (r: Outcome<Statements>)
      requires Valid()
      modifies this, scanner`tokenBuffer, errors
      ensures Valid() && errors.errors - {SyntaxError} == old(errors.errors) - {SyntaxError}
      ensures r.Ok? ==> fresh(r.value)
      ensures Paired(ListOf(r), Current()) == StatementsSpec(old(Current()))
      decreases Measure(Current()), 5
    {
      ghost var st := Current();
      var ret := new Statements();
      var first := Statement();
      ghost var s1 := Current();
      if first.Fault? {
        StatementsUnfold(st, first, s1, s1);
        return Fault(first.message);
      }
      ret.AddStatement(first.value);
      var semicolon := Expect([Semicolon]);
      StatementsUnfold(st, first, s1, Current());
      assert ret.list == [first.value];
      while StartsStatement(token.category)
        invariant Valid() && errors.errors - {SyntaxError} == old(errors.errors) - {SyntaxError}
        invariant fresh(ret)
        invariant Measure(Current()) <= Measure(st)
        invariant StatementsSpec(st) == Prepend(ret.list, MoreStatementsSpec(Current()))
        decreases Measure(Current())
      {
        ghost var here := Current();
        ghost var done := ret.list;
        var next := Statement();
        ghost var after := Current();
        if next.Fault? {
          MoreStatementsUnfold(here, next, after, after);
          return Fault(next.message);
        }
        ret.AddStatement(next.value);
        var separated := Expect([Semicolon]);
        MoreStatementsUnfold(here, next, after, Current());
        PrependTwice(done, [next.value], MoreStatementsSpec(Current()));
      }
      assert ret.list + [] == ret.list;
      r := Ok(ret);
    }

    /** Parse, with the loop corrected to run until the last token has been parsed:
        the statement lists are merged into a fresh tree. */
    method Parse() returns (r: Outcome<AbstractSyntaxTree>)
      requires Valid()
      modifies this, scanner`tokenBuffer, errors
      ensures Valid() && errors.errors - {SyntaxError} == old(errors.errors) - {SyntaxError}
      ensures r.Ok? <==> ParseLoop(NextTokenSpec(old(Current()))).Ok?
      ensures r.Ok? ==> fresh(r.value) && fresh(r.value.statements)
                        && ParseLoop(NextTokenSpec(old(Current()))).value == (r.value.statements.list, Current())
      ensures r.Fault? ==> ParseLoop(NextTokenSpec(old(Current()))).message == r.message
    {
      var ast := new AbstractSyntaxTree();
      GetNextToken();
      ghost var s0 := Current();
      PrependNothing(ParseLoop(s0));
      while scanner.HasNext() || token != ErrorToken()
        invariant Valid() && errors.errors - {SyntaxError} == old(errors.errors) - {SyntaxError}
        invariant fresh(ast) && fresh(ast.statements)
        invariant ParseLoop(s0) == Prepend(ast.statements.list, ParseLoop(Current()))
        decreases Measure(Current())
      {
        ghost var done := ast.statements.list;
        var stmts := Statements();
        if stmts.Fault? {
          return Fault(stmts.message);
        }
        ast.statements.MergeStatements(stmts.value);
        PrependTwice(done, stmts.value.list, ParseLoop(Current()));
      }
      assert ast.statements.list + [] == ast.statements.list;
      r := Ok(ast);
    }
  }
}
