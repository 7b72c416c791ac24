/** The expression builder (parser/ExpressionBuilder.cs): the parser offers the
    tokens of one expression, left to right, onto an input stack; a shunting-yard
    pass pops them right to left, so the output stack ends in Polish order with
    the root operator on top; the tree is then rebuilt by popping the output.
    Stacks are sequences whose top is the last element. */
module ExpressionBuilding {
  import opened Util
  import opened Tokens
  import opened Operators
  import opened Ast

  const ParenthesisMismatch: string := "Parethesis mismatch"

  /** The precedence table; a lexeme it does not list, such as `)`, counts as 0
      (TryGetValue's default). */
  function Precedence(lexeme: string): nat {
    if lexeme == Not then 1
    else if lexeme == Equality || lexeme == Less then 2
    else if lexeme == And then 3
    else if lexeme == Addition || lexeme == Subtraction then 4
    else if lexeme == Multiplication || lexeme == Division then 5
    else 0
  }

  /** Exactly the operators are ranked, negation lowest and the multiplicative ones highest. */
  lemma PrecedenceRanksOperators(s: string)
    ensures Precedence(s) >= 1 <==> IsBinaryOperator(s) || IsUnaryOperator(s)
    ensures IsUnaryOperator(s) ==> Precedence(s) == 1
    ensures IsBinaryOperator(s) ==> 2 <= Precedence(s) <= 5
    ensures Precedence(")") == 0 && Precedence("(") == 0
  {
    BinaryOperatorExactly(s);
    UnaryOperatorExactly(s);
  }

  function Prec(t: Token): nat {
    Precedence(t.lexeme)
  }

  /** The operator stack and the output stack. */
  datatype Stacks = Stacks(operators: seq<Token>, output: seq<Token>)

  function Top(s: seq<Token>): Token
    requires s != []
  {
    s[|s| - 1]
  }

  function Pop(s: seq<Token>): seq<Token>
    requires s != []
  {
    s[..|s| - 1]
  }

  /** The left-bracket case: move operators to the output up to the topmost right
      bracket, which is dropped; an empty stack just ends the loop. */
  function PopToBracket(st: Stacks): (r: Stacks)
    decreases |st.operators|
  {
    if st.operators == [] then st
    else if Top(st.operators).category == RightBracket then st.(operators := Pop(st.operators))
    else PopToBracket(Stacks(Pop(st.operators), st.output + [Top(st.operators)]))
  }

  /** The operator case's loop: move operators of precedence at least p to the output. */
  function PopNotLower(st: Stacks, p: nat): (r: Stacks)
    ensures r.operators == [] || Prec(Top(r.operators)) < p
    ensures |r.operators| <= |st.operators| && r.operators == st.operators[..|r.operators|]
    decreases |st.operators|
  {
    if st.operators == [] then st
    else if Prec(Top(st.operators)) >= p then PopNotLower(Stacks(Pop(st.operators), st.output + [Top(st.operators)]), p)
    else st
  }

  /** One popped input token. */
  function Step(t: Token, st: Stacks): Stacks {
    if IsOperand(t) then st.(output := st.output + [t])
    else if t.category == RightBracket then st.(operators := st.operators + [t])
    else if t.category == LeftBracket then PopToBracket(st)
    else
      var r := PopNotLower(st, Prec(t));
      r.(operators := r.operators + [t])
  }

  /** The main loop of shuntingYard: the input popped from its top, that is right to left. */
  function Shunt(input: seq<Token>, st: Stacks): Stacks
    decreases |input|
  {
    if input == [] then st else Shunt(Pop(input), Step(Top(input), st))
  }

  /** The final loop: the remaining operators go to the output; a bracket throws. */
  function Drain(st: Stacks): Outcome<seq<Token>>
    decreases |st.operators|
  {
    if st.operators == [] then Ok(st.output)
    else if Top(st.operators).category == RightBracket then Fault(ParenthesisMismatch)
    else Drain(Stacks(Pop(st.operators), st.output + [Top(st.operators)]))
  }

  /** shuntingYard: the output stack it leaves, or its exception. */
  function Yard(input: seq<Token>, st: Stacks): Outcome<seq<Token>> {
    Drain(Shunt(input, st))
  }

  /** buildExpression: the tree read off the top of the output, and what remains below it. */
  function Tree(output: seq<Token>): (r: (Expression, seq<Token>))
    ensures |r.1| <= |output|
    decreases |output|
  {
    if output == [] then (NoExpression, [])
    else
      var t := Top(output);
      if t.category == BinaryOperator then
        var (l, rest) := Tree(Pop(output));
        var (r, rest') := Tree(rest);
        (Binary(t, l, r), rest')
      else if t.category == UnaryOperator then
        var (x, rest) := Tree(Pop(output));
        (Unary(t, x), rest)
      else (Leaf(t), Pop(output))
  }

  /** Build: shunting yard, then the tree. */
  function BuildOf(input: seq<Token>, st: Stacks): Outcome<Expression> {
    var out :- Yard(input, st);
    Ok(Tree(out).0)
  }

  // ----- the expressions the parser offers -----

  /** The concrete syntax the parser offers: `unary operand` or `operand [binary operand]`,
      where an operand is a leaf token or a bracketed group. */
  datatype Operand = Atom(token: Token) | Group(open: Token, inner: Phrase, close: Token)
  datatype Phrase = Single(operand: Operand) | Negated(oper: Token, operand: Operand)
                  | Infix(left: Operand, oper: Token, right: Operand)

  predicate OperandWellFormed(o: Operand) {
    match o
    case Atom(t) => IsOperand(t)
    case Group(a, x, b) =>
      a.category == LeftBracket && b.category == RightBracket && b.lexeme == ")" && PhraseWellFormed(x)
  }

  predicate PhraseWellFormed(p: Phrase) {
    match p
    case Single(o) => OperandWellFormed(o)
    case Negated(op, o) => op.category == UnaryOperator && IsUnaryOperator(op.lexeme) && OperandWellFormed(o)
    case Infix(l, op, r) =>
      op.category == BinaryOperator && IsBinaryOperator(op.lexeme) && OperandWellFormed(l) && OperandWellFormed(r)
  }

  /** The tokens offered, in order. */
  function OperandTokens(o: Operand): seq<Token> {
    match o
    case Atom(t) => [t]
    case Group(a, x, b) => [a] + PhraseTokens(x) + [b]
  }

  function PhraseTokens(p: Phrase): seq<Token> {
    match p
    case Single(o) => OperandTokens(o)
    case Negated(op, o) => [op] + OperandTokens(o)
    case Infix(l, op, r) => OperandTokens(l) + [op] + OperandTokens(r)
  }

  /** The tree each form stands for: brackets only group. */
  function OperandTree(o: Operand): Expression {
    match o
    case Atom(t) => Leaf(t)
    case Group(_, x, _) => PhraseTree(x)
  }

  function PhraseTree(p: Phrase): Expression {
    match p
    case Single(o) => OperandTree(o)
    case Negated(op, o) => Unary(op, OperandTree(o))
    case Infix(l, op, r) => Binary(op, OperandTree(l), OperandTree(r))
  }

  /** The Polish output of each form, root last. */
  function OperandPolish(o: Operand): seq<Token> {
    match o
    case Atom(t) => [t]
    case Group(_, x, _) => PhrasePrefix(x) + PhraseOperators(x)
  }

  /** What a phrase leaves on the output, and the operator it leaves on the operator stack. */
  function PhrasePrefix(p: Phrase): seq<Token> {
    match p
    case Single(o) => OperandPolish(o)
    case Negated(_, o) => OperandPolish(o)
    case Infix(l, _, r) => OperandPolish(r) + OperandPolish(l)
  }

  function PhraseOperators(p: Phrase): seq<Token> {
    match p
    case Single(_) => []
    case Negated(op, _) => [op]
    case Infix(_, op, _) => [op]
  }

  // ----- shunting the offered forms -----

  lemma {:induction false} ShuntAppend(a: seq<Token>, b: seq<Token>, st: Stacks)
    ensures Shunt(a + b, st) == Shunt(a, Shunt(b, st))
    decreases |b|
  {
    if b == [] {
      assert a + b == a;
    } else {
      assert Top(a + b) == Top(b) && Pop(a + b) == a + Pop(b);
      ShuntAppend(a, Pop(b), Step(Top(b), st));
    }
  }

  /** An operator stack that an operator of positive precedence cannot pop below. */
  predicate Fenced(ops: seq<Token>) {
    ops == [] || (Top(ops).category == RightBracket && Prec(Top(ops)) == 0)
  }

  /** One input token is one step. */
  lemma ShuntOne(t: Token, st: Stacks)
    ensures Shunt([t], st) == Step(t, st)
  {
    assert Pop([t]) == [] && Top([t]) == t;
  }

  lemma StepRightBracket(b: Token, st: Stacks)
    requires b.category == RightBracket
    ensures Step(b, st) == Stacks(st.operators + [b], st.output)
  {
  }

  lemma StepLeftBracket(a: Token, st: Stacks)
    requires a.category == LeftBracket
    ensures Step(a, st) == PopToBracket(st)
  {
  }

  /** An operator of positive precedence is pushed straight onto a fenced stack. */
  lemma StepOperator(op: Token, st: Stacks)
    requires Fenced(st.operators) && Prec(op) >= 1
    requires op.category == BinaryOperator || op.category == UnaryOperator
    ensures Step(op, st) == Stacks(st.operators + [op], st.output)
  {
    assert PopNotLower(st, Prec(op)) == st;
  }

  /** Shunting an operand keeps the operator stack and appends its Polish form. */
  lemma {:induction false} ShuntOperand(o: Operand, st: Stacks)
    requires OperandWellFormed(o)
    ensures Shunt(OperandTokens(o), st) == Stacks(st.operators, st.output + OperandPolish(o))
    decreases o
  {
    match o
    case Atom(t) =>
      ShuntOne(t, st);
    case Group(a, x, b) =>
      var ts := PhraseTokens(x);
      var fenced := Stacks(st.operators + [b], st.output);
      var after := Stacks(fenced.operators + PhraseOperators(x), st.output + PhrasePrefix(x));
      PrecedenceRanksOperators(b.lexeme);
      calc {
        Shunt(OperandTokens(o), st);
        Shunt([a] + ts + [b], st);
        { ShuntAppend([a] + ts, [b], st); }
        Shunt([a] + ts, Shunt([b], st));
        { ShuntOne(b, st); StepRightBracket(b, st); }
        Shunt([a] + ts, fenced);
        { ShuntAppend([a], ts, fenced); ShuntPhrase(x, fenced); }
        Shunt([a], after);
        { ShuntOne(a, after); StepLeftBracket(a, after); }
        PopToBracket(after);
        { PhraseOperatorsPlain(x); CloseGroup(st.operators, b, PhraseOperators(x), st.output + PhrasePrefix(x)); }
        Stacks(st.operators, st.output + PhrasePrefix(x) + PhraseOperators(x));
        { assert st.output + PhrasePrefix(x) + PhraseOperators(x) == st.output + OperandPolish(o); }
        Stacks(st.operators, st.output + OperandPolish(o));
      }
  }

  /** A phrase leaves at most one operator behind, and never a bracket. */
  lemma PhraseOperatorsPlain(p: Phrase)
    requires PhraseWellFormed(p)
    ensures |PhraseOperators(p)| <= 1
    ensures PhraseOperators(p) != [] ==> PhraseOperators(p)[0].category != RightBracket
    ensures PhraseOperators(p) != [] ==> Prec(PhraseOperators(p)[0]) >= 1
  {
    match p
    case Single(_) =>
    case Negated(op, _) => PrecedenceRanksOperators(op.lexeme);
    case Infix(_, op, _) => PrecedenceRanksOperators(op.lexeme);
  }

  /** Shunting a phrase on a fenced stack appends its operands' Polish forms and leaves
      its operator, if any, on top of the stack. */
  lemma {:induction false} ShuntPhrase(p: Phrase, st: Stacks)
    requires PhraseWellFormed(p) && Fenced(st.operators)
    ensures Shunt(PhraseTokens(p), st) == Stacks(st.operators + PhraseOperators(p), st.output + PhrasePrefix(p))
    decreases p
  {
    match p
    case Single(o) =>
      ShuntOperand(o, st);
      assert st.operators + [] == st.operators;
    case Negated(op, o) =>
      var mid := Stacks(st.operators, st.output + OperandPolish(o));
      PrecedenceRanksOperators(op.lexeme);
      calc {
        Shunt(PhraseTokens(p), st);
        Shunt([op] + OperandTokens(o), st);
        { ShuntAppend([op], OperandTokens(o), st); ShuntOperand(o, st); }
        Shunt([op], mid);
        { ShuntOne(op, mid); StepOperator(op, mid); }
        Stacks(st.operators + [op], mid.output);
      }
    case Infix(l, op, r) =>
      var mid := Stacks(st.operators, st.output + OperandPolish(r));
      var pushed := Stacks(st.operators + [op], mid.output);
      PrecedenceRanksOperators(op.lexeme);
      calc {
        Shunt(PhraseTokens(p), st);
        Shunt(OperandTokens(l) + [op] + OperandTokens(r), st);
        { ShuntAppend(OperandTokens(l) + [op], OperandTokens(r), st); ShuntOperand(r, st); }
        Shunt(OperandTokens(l) + [op], mid);
        { ShuntAppend(OperandTokens(l), [op], mid); ShuntOne(op, mid); StepOperator(op, mid); }
        Shunt(OperandTokens(l), pushed);
        { ShuntOperand(l, pushed); }
        Stacks(pushed.operators, mid.output + OperandPolish(l));
        { assert mid.output + OperandPolish(l) == st.output + (OperandPolish(r) + OperandPolish(l)); }
        Stacks(st.operators + PhraseOperators(p), st.output + PhrasePrefix(p));
      }
  }

  /** The left bracket of a group moves the group's operator to the output and drops
      the right bracket. */
  lemma CloseGroup(ops: seq<Token>, b: Token, top: seq<Token>, out: seq<Token>)
    requires b.category == RightBracket && |top| <= 1
    requires top != [] ==> top[0].category != RightBracket
    ensures PopToBracket(Stacks(ops + [b] + top, out)) == Stacks(ops, out + top)
  {
    if top == [] {
      assert ops + [b] + top == ops + [b];
      assert Pop(ops + [b]) == ops;
    } else {
      assert Top(ops + [b] + top) == top[0] && Pop(ops + [b] + top) == ops + [b];
      assert Pop(ops + [b]) == ops;
      assert out + [top[0]] == out + top;
    }
  }

  /** What the parser offers for a phrase builds the phrase's tree. */
  lemma BuildPhrase(p: Phrase)
    requires PhraseWellFormed(p)
    ensures BuildOf(PhraseTokens(p), Stacks([], [])) == Ok(PhraseTree(p))
    ensures Yard(PhraseTokens(p), Stacks([], [])) == Ok(PhrasePrefix(p) + PhraseOperators(p))
  {
    ShuntPhrase(p, Stacks([], []));
    var pre := PhrasePrefix(p);
    assert [] + PhraseOperators(p) == PhraseOperators(p) && [] + pre == pre;
    DrainOperators(pre, PhraseOperators(p), p);
    TreeOfPhrase(p, []);
    assert [] + (pre + PhraseOperators(p)) == pre + PhraseOperators(p);
  }

  lemma DrainOperators(out: seq<Token>, top: seq<Token>, p: Phrase)
    requires PhraseWellFormed(p) && top == PhraseOperators(p)
    ensures Drain(Stacks(top, out)) == Ok(out + top)
  {
    if top == [] {
      assert out + top == out;
    } else {
      assert Pop(top) == [];
      assert Drain(Stacks([], out + [Top(top)])) == Ok(out + [Top(top)]);
      assert out + [Top(top)] == out + top;
    }
  }

  /** Reading the tree back off a Polish form leaves exactly what lay below it. */
  lemma {:induction false} TreeOfOperand(o: Operand, below: seq<Token>)
    requires OperandWellFormed(o)
    ensures Tree(below + OperandPolish(o)) == (OperandTree(o), below)
    decreases o, 0
  {
    match o
    case Atom(t) =>
      assert Top(below + [t]) == t && Pop(below + [t]) == below;
    case Group(_, x, _) =>
      TreeOfPhrase(x, below);
  }

  lemma {:induction false} TreeOfPhrase(p: Phrase, below: seq<Token>)
    requires PhraseWellFormed(p)
    ensures Tree(below + (PhrasePrefix(p) + PhraseOperators(p))) == (PhraseTree(p), below)
    decreases p, 1
  {
    match p
    case Single(o) =>
      assert below + (PhrasePrefix(p) + PhraseOperators(p)) == below + OperandPolish(o);
      TreeOfOperand(o, below);
    case Negated(op, o) =>
      var s := below + (PhrasePrefix(p) + PhraseOperators(p));
      assert Top(s) == op && Pop(s) == below + OperandPolish(o);
      TreeOfOperand(o, below);
    case Infix(l, op, r) =>
      var s := below + (PhrasePrefix(p) + PhraseOperators(p));
      assert Top(s) == op && Pop(s) == (below + OperandPolish(r)) + OperandPolish(l);
      TreeOfOperand(l, below + OperandPolish(r));
      TreeOfOperand(r, below);
  }

  // ----- what the builder promises -----

  /** With nothing offered the result is null. */
  lemma BuildNothing()
    ensures BuildOf([], Stacks([], [])) == Ok(NoExpression)
  {
  }

  /** A single operand builds a leaf; `a op b` a binary node whose left child is the
      first-offered operand; `! a` a unary node. */
  lemma BuildSimpleForms(a: Token, op: Token, b: Token, not: Token)
    requires IsOperand(a) && IsOperand(b)
    requires op.category == BinaryOperator && IsBinaryOperator(op.lexeme)
    requires not.category == UnaryOperator && IsUnaryOperator(not.lexeme)
    ensures BuildOf([a], Stacks([], [])) == Ok(Leaf(a))
    ensures BuildOf([a, op, b], Stacks([], [])) == Ok(Binary(op, Leaf(a), Leaf(b)))
    ensures BuildOf([not, a], Stacks([], [])) == Ok(Unary(not, Leaf(a)))
  {
    BuildPhrase(Single(Atom(a)));
    BuildPhrase(Infix(Atom(a), op, Atom(b)));
    assert PhraseTokens(Infix(Atom(a), op, Atom(b))) == [a, op, b];
    BuildPhrase(Negated(not, Atom(a)));
    assert PhraseTokens(Negated(not, Atom(a))) == [not, a];
  }

  /** A bracketed group builds the same tree as its contents. */
  lemma BuildGroup(open: Token, p: Phrase, close: Token)
    requires PhraseWellFormed(Single(Group(open, p, close)))
    ensures BuildOf(PhraseTokens(Single(Group(open, p, close))), Stacks([], []))
         == BuildOf(PhraseTokens(p), Stacks([], []))
  {
    BuildPhrase(Single(Group(open, p, close)));
    BuildPhrase(p);
  }

  /** The output holds no bracket, and it holds exactly the offered tokens that are
      not brackets, each as often as it was offered. */
  predicate IsBracket(t: Token) {
    t.category == LeftBracket || t.category == RightBracket
  }

  predicate NoBrackets(ts: seq<Token>) {
    forall k :: 0 <= k < |ts| ==> !IsBracket(ts[k])
  }

  /** The brackets of a form, which are offered but never output. */
  function OperandBrackets(o: Operand): multiset<Token> {
    match o
    case Atom(_) => multiset{}
    case Group(a, x, b) => multiset{a} + PhraseBrackets(x) + multiset{b}
  }

  function PhraseBrackets(p: Phrase): multiset<Token> {
    match p
    case Single(o) => OperandBrackets(o)
    case Negated(_, o) => OperandBrackets(o)
    case Infix(l, _, r) => OperandBrackets(l) + OperandBrackets(r)
  }

  lemma NoBracketsAppend(a: seq<Token>, b: seq<Token>)
    requires NoBrackets(a) && NoBrackets(b)
    ensures NoBrackets(a + b)
  {
    forall k | 0 <= k < |a + b|
      ensures !IsBracket((a + b)[k])
    {
      if k >= |a| {
        assert (a + b)[k] == b[k - |a|];
      }
    }
  }

  lemma {:induction false} OperandNoBrackets(o: Operand)
    requires OperandWellFormed(o)
    ensures NoBrackets(OperandPolish(o))
    decreases o, 0
  {
    match o
    case Atom(t) =>
    case Group(_, x, _) =>
      PhraseNoBrackets(x);
  }

  lemma {:induction false} PhraseNoBrackets(p: Phrase)
    requires PhraseWellFormed(p)
    ensures NoBrackets(PhrasePrefix(p) + PhraseOperators(p))
    decreases p, 1
  {
    match p
    case Single(o) =>
      OperandNoBrackets(o);
      assert PhrasePrefix(p) + PhraseOperators(p) == OperandPolish(o);
    case Negated(op, o) =>
      OperandNoBrackets(o);
      NoBracketsAppend(OperandPolish(o), [op]);
    case Infix(l, op, r) =>
      var pl, pr := OperandPolish(l), OperandPolish(r);
      OperandNoBrackets(l);
      OperandNoBrackets(r);
      NoBracketsAppend(pr, pl);
      NoBracketsAppend(pr + pl, [op]);
  }

  /** The output and the brackets together are the offered tokens. */
  lemma {:induction false} OperandKeepsTokens(o: Operand)
    requires OperandWellFormed(o)
    ensures multiset(OperandPolish(o)) + OperandBrackets(o) == multiset(OperandTokens(o))
    decreases o, 0
  {
    match o
    case Atom(t) =>
    case Group(a, x, b) =>
      PhraseKeepsTokens(x);
      var tx := PhraseTokens(x);
      assert OperandTokens(o) == [a] + tx + [b];
      assert multiset([a] + tx + [b]) == multiset{a} + multiset(tx) + multiset{b};
      GroupUnion(multiset(PhrasePrefix(x) + PhraseOperators(x)), PhraseBrackets(x), multiset(tx), a, b);
  }

  lemma {:induction false} PhraseKeepsTokens(p: Phrase)
    requires PhraseWellFormed(p)
    ensures multiset(PhrasePrefix(p) + PhraseOperators(p)) + PhraseBrackets(p) == multiset(PhraseTokens(p))
    decreases p, 1
  {
    match p
    case Single(o) =>
      OperandKeepsTokens(o);
      assert PhrasePrefix(p) + PhraseOperators(p) == OperandPolish(o);
    case Negated(op, o) =>
      NegatedKeepsTokens(op, o);
    case Infix(l, op, r) =>
      InfixKeepsTokens(l, op, r);
  }

  lemma {:induction false} NegatedKeepsTokens(op: Token, o: Operand)
    requires OperandWellFormed(o)
    ensures var p := Negated(op, o);
      multiset(PhrasePrefix(p) + PhraseOperators(p)) + PhraseBrackets(p) == multiset(PhraseTokens(p))
    decreases Negated(op, o), 0
  {
    OperandKeepsTokens(o);
    var po, to := OperandPolish(o), OperandTokens(o);
    assert multiset(po + [op]) == multiset(po) + multiset{op};
    assert multiset([op] + to) == multiset{op} + multiset(to);
    NegatedUnion(multiset(po), OperandBrackets(o), multiset(to), op);
  }

  lemma {:induction false} InfixKeepsTokens(l: Operand, op: Token, r: Operand)
    requires OperandWellFormed(l) && OperandWellFormed(r)
    ensures var p := Infix(l, op, r);
      multiset(PhrasePrefix(p) + PhraseOperators(p)) + PhraseBrackets(p) == multiset(PhraseTokens(p))
    decreases Infix(l, op, r), 0
  {
    OperandKeepsTokens(l);
    OperandKeepsTokens(r);
    var pl, pr, tl, tr := OperandPolish(l), OperandPolish(r), OperandTokens(l), OperandTokens(r);
    assert multiset(pr + pl + [op]) == multiset(pr) + multiset(pl) + multiset{op};
    assert multiset(tl + [op] + tr) == multiset(tl) + multiset{op} + multiset(tr);
    InfixUnion(multiset(pl), OperandBrackets(l), multiset(tl), multiset(pr), OperandBrackets(r), multiset(tr), op);
  }

  lemma GroupUnion<T>(out: multiset<T>, set_aside: multiset<T>, input: multiset<T>, a: T, b: T)
    requires out + set_aside == input
    ensures out + (multiset{a} + set_aside + multiset{b}) == multiset{a} + input + multiset{b}
  {
  }

  lemma NegatedUnion<T>(out: multiset<T>, set_aside: multiset<T>, input: multiset<T>, op: T)
    requires out + set_aside == input
    ensures out + multiset{op} + set_aside == multiset{op} + input
  {
  }

  lemma InfixUnion<T>(outl: multiset<T>, asidel: multiset<T>, inl: multiset<T>,
                      outr: multiset<T>, asider: multiset<T>, inr: multiset<T>, op: T)
    requires outl + asidel == inl && outr + asider == inr
    ensures outr + outl + multiset{op} + (asidel + asider) == inl + multiset{op} + inr
  {
  }

  /** What is set aside is brackets only. */
  lemma {:induction false} OperandBracketsAreBrackets(o: Operand, t: Token)
    requires OperandWellFormed(o) && t in OperandBrackets(o)
    ensures IsBracket(t)
    decreases o, 0
  {
    match o
    case Atom(_) =>
    case Group(a, x, b) =>
      if t != a && t != b {
        PhraseBracketsAreBrackets(x, t);
      }
  }

  lemma {:induction false} PhraseBracketsAreBrackets(p: Phrase, t: Token)
    requires PhraseWellFormed(p) && t in PhraseBrackets(p)
    ensures IsBracket(t)
    decreases p, 1
  {
    match p
    case Single(o) => OperandBracketsAreBrackets(o, t);
    case Negated(_, o) => OperandBracketsAreBrackets(o, t);
    case Infix(l, _, r) =>
      if t in OperandBrackets(l) {
        OperandBracketsAreBrackets(l, t);
      } else {
        OperandBracketsAreBrackets(r, t);
      }
  }

  /** For what the parser offers, the shunting yard succeeds; its output holds no bracket,
      and it holds every offered token that is not a bracket, as often as it was offered. */
  lemma YardOutput(p: Phrase)
    requires PhraseWellFormed(p)
    ensures Yard(PhraseTokens(p), Stacks([], [])).Ok?
    ensures var out := Yard(PhraseTokens(p), Stacks([], [])).value;
      NoBrackets(out)
      && multiset(out) + PhraseBrackets(p) == multiset(PhraseTokens(p))
      && forall t :: t in PhraseBrackets(p) ==> IsBracket(t)
  {
    BuildPhrase(p);
    PhraseNoBrackets(p);
    PhraseKeepsTokens(p);
    forall t | t in PhraseBrackets(p)
      ensures IsBracket(t)
    {
      PhraseBracketsAreBrackets(p, t);
    }
  }

  /** The final loop throws exactly when a right bracket is left on the operator stack,
      and then with the mismatch message; otherwise the operators go to the output,
      topmost first. */
  lemma {:induction false} DrainFaultsIffBracket(st: Stacks)
    ensures Drain(st).Fault? <==> exists k :: 0 <= k < |st.operators| && st.operators[k].category == RightBracket
    ensures Drain(st).Fault? ==> Drain(st).message == ParenthesisMismatch
    ensures Drain(st).Ok? ==> Drain(st).value == st.output + Reversed(st.operators)
    decreases |st.operators|
  {
    if st.operators != [] && Top(st.operators).category != RightBracket {
      var ops := st.operators;
      var next := Stacks(Pop(ops), st.output + [Top(ops)]);
      DrainFaultsIffBracket(next);
      assert ops == Pop(ops) + [Top(ops)];
      if Drain(st).Ok? {
        assert Reversed(ops) == [Top(ops)] + Reversed(Pop(ops));
      }
      if exists k :: 0 <= k < |ops| && ops[k].category == RightBracket {
        var k :| 0 <= k < |ops| && ops[k].category == RightBracket;
        assert Pop(ops)[k].category == RightBracket;
      }
    }
  }

  /** The sequence in reverse order: the operator stack read from its top. */
  function Reversed(s: seq<Token>): (r: seq<Token>)
    ensures |r| == |s| && forall k :: 0 <= k < |s| ==> r[k] == s[|s| - 1 - k]
  {
    if s == [] then [] else [s[|s| - 1]] + Reversed(s[..|s| - 1])
  }

  /** shuntingYard throws exactly when its main loop leaves a right bracket on the
      operator stack. */
  lemma YardFaultsIffBracket(input: seq<Token>, st: Stacks)
    ensures Yard(input, st).Fault? <==>
      exists k :: 0 <= k < |Shunt(input, st).operators| && Shunt(input, st).operators[k].category == RightBracket
  {
    var left := Shunt(input, st);
    DrainFaultsIffBracket(left);
    assert Yard(input, st) == Drain(left);
    if Drain(left).Fault? {
      var k :| 0 <= k < |left.operators| && left.operators[k].category == RightBracket;
      assert Shunt(input, st).operators[k].category == RightBracket;
    }
  }

  /** In particular a right bracket after operands only, with no left bracket before
      it, throws. */
  lemma UnmatchedBracket(b: Token, input: seq<Token>)
    requires b.category == RightBracket && forall k :: 0 <= k < |input| ==> IsOperand(input[k])
    ensures Yard(input + [b], Stacks([], [])) == Fault(ParenthesisMismatch)
  {
    ShuntAppend(input, [b], Stacks([], []));
    assert Shunt([b], Stacks([], [])) == Stacks([b], []) by {
      assert Pop([b]) == [];
    }
    OperandsKeepOperators(input, Stacks([b], []));
    DrainFaultsIffBracket(Stacks([b], Shunt(input, Stacks([b], [])).output));
    assert [b][0].category == RightBracket;
  }

  lemma {:induction false} OperandsKeepOperators(input: seq<Token>, st: Stacks)
    requires forall k :: 0 <= k < |input| ==> IsOperand(input[k])
    ensures Shunt(input, st).operators == st.operators
    decreases |input|
  {
    if input != [] {
      OperandsKeepOperators(Pop(input), Step(Top(input), st));
    }
  }

  // ----- the operator stack's order -----

  /** Between two right brackets (or below the first, or above the last), precedence
      increases strictly from bottom to top: each operator outranks the one just below it
      unless a right bracket separates them. */
  predicate Ordered(ops: seq<Token>) {
    forall k :: 0 < k < |ops| && ops[k].category != RightBracket && ops[k - 1].category != RightBracket
      ==> Prec(ops[k - 1]) < Prec(ops[k])
  }

  predicate NoRightBracket(ts: seq<Token>) {
    forall k :: 0 <= k < |ts| ==> ts[k].category != RightBracket
  }

  /** Above the topmost right bracket, precedence increases strictly from bottom to top. */
  lemma {:induction false} OrderedAboveBracket(ops: seq<Token>, i: nat, j: nat)
    requires Ordered(ops) && i < j < |ops| && NoRightBracket(ops[i..])
    ensures Prec(ops[i]) < Prec(ops[j])
    decreases j - i
  {
    assert ops[i..][j - i] == ops[j] && ops[i..][j - 1 - i] == ops[j - 1];
    if i < j - 1 {
      OrderedAboveBracket(ops, i, j - 1);
    }
  }

  lemma OrderedPrefix(ops: seq<Token>, n: nat)
    requires Ordered(ops) && n <= |ops|
    ensures Ordered(ops[..n])
  {
  }

  lemma OrderedPush(ops: seq<Token>, t: Token)
    requires Ordered(ops)
    requires t.category == RightBracket || ops == [] || Top(ops).category == RightBracket || Prec(Top(ops)) < Prec(t)
    ensures Ordered(ops + [t])
  {
    var s := ops + [t];
    forall k | 0 < k < |s| && s[k].category != RightBracket && s[k - 1].category != RightBracket
      ensures Prec(s[k - 1]) < Prec(s[k])
    {
      if k < |ops| {
        assert s[k] == ops[k] && s[k - 1] == ops[k - 1];
      } else {
        assert s[k - 1] == Top(ops) && s[k] == t;
      }
    }
  }

  lemma {:induction false} PopToBracketOrdered(st: Stacks)
    requires Ordered(st.operators)
    ensures Ordered(PopToBracket(st).operators)
    decreases |st.operators|
  {
    if st.operators != [] {
      OrderedPrefix(st.operators, |st.operators| - 1);
      if Top(st.operators).category != RightBracket {
        PopToBracketOrdered(Stacks(Pop(st.operators), st.output + [Top(st.operators)]));
      }
    }
  }

  /** Every step keeps the operator stack ordered. */
  lemma StepOrdered(t: Token, st: Stacks)
    requires Ordered(st.operators)
    ensures Ordered(Step(t, st).operators)
  {
    if IsOperand(t) {
    } else if t.category == RightBracket {
      OrderedPush(st.operators, t);
    } else if t.category == LeftBracket {
      PopToBracketOrdered(st);
    } else {
      var r := PopNotLower(st, Prec(t));
      OrderedPrefix(st.operators, |r.operators|);
      OrderedPush(r.operators, t);
    }
  }

  lemma {:induction false} ShuntOrdered(input: seq<Token>, st: Stacks)
    requires Ordered(st.operators)
    ensures Ordered(Shunt(input, st).operators)
    decreases |input|
  {
    if input != [] {
      StepOrdered(Top(input), st);
      ShuntOrdered(Pop(input), Step(Top(input), st));
    }
  }

  // ----- the builder object -----

  class ExpressionBuilder {
    var input: seq<Token>
    var operators: seq<Token>
    var output: seq<Token>

    constructor ()
      ensures input == [] && operators == [] && output == []
    {
      input := [];
      operators := [];
      output := [];
    }

    /** Offer: push onto the input stack. */
    method Offer(next: Token)
      modifies this
      ensures input == old(input) + [next]
      ensures operators == old(operators) && output == old(output)
    {
      input := input + [next];
    }

    /** Build: the tree of what was offered, or the mismatch exception. */
    method Build() returns (r: Outcome<Expression>)
      modifies this
      ensures r == BuildOf(old(input), Stacks(old(operators), old(output)))
      ensures input == []
      ensures r.Ok? ==> operators == [] && output == Tree(Yard(old(input), Stacks(old(operators), old(output))).value).1
    {
      var done := ShuntingYard();
      if done.Fault? {
        return Fault(done.message);
      }
      var e := BuildExpression();
      r := Ok(e);
    }

    method ShuntingYard() returns (r: Outcome<()>)
      modifies this
      ensures input == []
      ensures r.Ok? <==> Yard(old(input), Stacks(old(operators), old(output))).Ok?
      ensures r.Ok? ==> operators == [] && output == Yard(old(input), Stacks(old(operators), old(output))).value
      ensures r.Fault? ==> r.message == Yard(old(input), Stacks(old(operators), old(output))).message
    {
      while input != []
        invariant Shunt(input, Stacks(operators, output)) == Shunt(old(input), Stacks(old(operators), old(output)))
        decreases |input|
      {
        ghost var full := input;
        var t := Top(input);
        input := Pop(input);
        ghost var rest := input;
        ghost var before := Stacks(operators, output);
        if IsOperand(t) {
          output := output + [t];
        } else if t.category == RightBracket {
          operators := operators + [t];
        } else if t.category == LeftBracket {
          while operators != []
            invariant input == rest
            invariant PopToBracket(Stacks(operators, output)) == PopToBracket(before)
            decreases |operators|
          {
            var top := Top(operators);
            if top.category == RightBracket {
              operators := Pop(operators);
              break;
            }
            output := output + [top];
            operators := Pop(operators);
          }
        } else {
          while operators != [] && Prec(Top(operators)) >= Prec(t)
            invariant input == rest
            invariant PopNotLower(Stacks(operators, output), Prec(t)) == PopNotLower(before, Prec(t))
            decreases |operators|
          {
            output := output + [Top(operators)];
            operators := Pop(operators);
          }
          operators := operators + [t];
        }
        assert Stacks(operators, output) == Step(t, before);
        assert Shunt(full, before) == Shunt(input, Step(t, before));
      }
      ghost var left := Stacks(operators, output);
      while operators != []
        invariant input == []
        invariant Drain(Stacks(operators, output)) == Drain(left)
        decreases |operators|
      {
        var t := Top(operators);
        operators := Pop(operators);
        if t.category == RightBracket {
          return Fault(ParenthesisMismatch);
        }
        output := output + [t];
      }
      r := Ok(());
    }

    /** buildExpression: pops the tree off the output stack. */
    method BuildExpression() returns (e: Expression)
      modifies this
      ensures (e, output) == Tree(old(output))
      ensures input == old(input) && operators == old(operators)
      decreases |output|
    {
      if |output| < 1 {
        return NoExpression;
      }
      var t := Top(output);
      output := Pop(output);
      if t.category == BinaryOperator {
        var l := BuildExpression();
        var r := BuildExpression();
        e := Binary(t, l, r);
      } else if t.category == UnaryOperator {
        var x := BuildExpression();
        e := Unary(t, x);
      } else {
        e := Leaf(t);
      }
    }
  }
}
