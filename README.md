# MiniPL in Dafny

A model of the MiniPL interpreter, a small C# implementation of a teaching language.
MiniPL has `var` declarations of `int`, `string` and `bool` variables, assignment, `for`
loops over integer ranges, `read`, `print` and `assert`. The model follows the
interpreter's pipeline:

1. The **scanner** (`scanner.dfy`, module `Scanning`) turns the program text into a queue
   of tokens. Each token carries a category, a lexeme and a line and column. The
   `Scanner` class keeps the source's cursor, line and column fields, and its methods are
   proved against spec functions over the text.
2. The **parser** (`parser.dfy`, module `Parsing`) is a recursive-descent parser. It has
   one-token lookahead, a maximum munch statement loop and one-token error recovery. It
   hands the tokens of each expression to the **expression builder**
   (`expressionbuilder.dfy`, module `ExpressionBuilding`). The builder runs a shunting
   yard over an input stack and reads the tree back off its output stack.
3. The **semantic analyser** (`analyser.dfy`, module `Analyser`) walks the tree over a
   `SymbolTable` (`symboltable.dfy`). It reports semantic errors (redeclaration, use
   before declaration, assignment to a locked loop variable) and type errors. It infers
   the types of expressions through the operator tables of `TypeBindings`
   (`typebindings.dfy`) and `TypeSystem` (`typesystem.dfy`).
4. The **interpreter** (`interpreter.dfy`, module `Interpreting`) runs the tree. It
   evaluates operators by the implementations in `TypeModels` (`typemodels.dfy`) over
   the values of `values.dfy`, which use 32-bit arithmetic with wrap-around, and C#'s
   truncating division.

All phases add their findings to one `ErrorContainer` (`errors.dfy`). The container
holds a list of entries per error kind. The AST (`ast.dfy`), the tokens and categories
(`tokens.dfy`) and the operator lexemes (`operators.dfy`) are shared data.

The parts of the source that update objects in place stay classes whose methods have
`modifies` clauses: the scanner, the parser, the expression builder, the statement
lists, the symbol table, the error container, the analyser and the interpreter. Each
method is proved against a function of the old state: what it returns, and what the new
state is. The properties are then lemmas about those functions. They cover:
- the round trip of operator lexemes;
- the positions and categories of scanned tokens;
- that the builder's output holds exactly the non-bracket offered tokens and yields the
  tree of the phrase the parser read;
- that `Expect` moves on by exactly one token;
- that the maximum munch loop stops only at a token that starts no statement;
- that a type is inferred exactly when no type error is recorded;
- that the interpreter's operators agree with the type tables;
- that a loop runs its body once per counter value.

Reading input and writing output use streams in the source. Here they are a `seq<char>`
of remaining input and a `seq<string>` of printed text.

Where the source and its description disagree, the model follows the source:
- Error recovery skips exactly one token (`Recover`). The description calls for
  panic-mode recovery up to the next semicolon; that code is commented out.
- `read` stores the word it reads as a string, whatever the variable's declared type.
  The description says it converts the word.
- No lexical error is ever reported. An unknown character or an invalid word becomes a
  `NONE` token (scanner/Scanner.cs:154-165), which is passed on to the parser as it is.
- String literals have no escape sequences: a literal runs to the next `"`
  (scanner/Scanner.cs:143).
- `-` is missing from the one-character table (scanner/Scanner.cs:11-23), although
  `Operators.cs` defines it. A `-` is scanned as a `NONE` token, so subtraction can never
  be written.

## Model

| member | source | states |
|---|---|---|
| Tokens.CategoryNameInjective | models/Category.cs:4-44 | distinct token categories print as distinct enumeration names, so a message names the category it means |
| Tokens.ErrorTokenIsNoOperand | models/Token.cs:21-32 | the "no token" token is not an operand, has line and column -1 and prints as the empty string |
| Operators.OpOfLexeme | models/Operators.cs:8-15 | a lexeme that is recognised as an operator is exactly that operator's constant |
| Operators.OpOfLexemeRoundTrip | models/Operators.cs:8-15 | every operator is recognised again from its own lexeme |
| Operators.OperatorConstantsDistinct | models/Operators.cs:8-15 | the eight operator constants are one character each and pairwise distinct |
| Operators.BinaryOperatorExactly | models/Operators.cs:19-29 | a lexeme is a binary operator if and only if it is one of the operators other than `!` |
| Operators.UnaryOperatorExactly | models/Operators.cs:23-33 | a lexeme is a unary operator if and only if it is `!` |
| Operators.BinaryAndUnaryDisjoint | models/Operators.cs:19-33 | no lexeme is both a binary and a unary operator |
| Ast.HeadInText | models/AbstractSyntaxTree.cs:129-197 | the head of a node (its operator, or a leaf's token) is the token its rendering is built around, with the operand texts on either side |
| Ast.BracketsExactlyAroundNonLeaves | models/AbstractSyntaxTree.cs:146-164 | an operand of a binary node is printed bare if it is a leaf and enclosed in brackets otherwise |
| Ast.StatementsTextAppend | models/AbstractSyntaxTree.cs:46-54 | rendering a concatenation of statement lists gives the concatenation of their renderings |
| Ast.StatementsTextSingle | models/AbstractSyntaxTree.cs:46-54 | a one-statement list renders as a newline followed by that statement's text |
| Ast.Statements.constructor | models/AbstractSyntaxTree.cs:28-30 | a new statement list is empty |
| Ast.Statements.AddStatement | models/AbstractSyntaxTree.cs:32-35 | the statement is appended at the end and nothing else changes |
| Ast.Statements.MergeStatements | models/AbstractSyntaxTree.cs:39-44 | every statement of the other list is appended in order, and the other list is left unchanged |
| Ast.AbstractSyntaxTree.constructor | models/AbstractSyntaxTree.cs:10-15 | a new tree owns a fresh, empty statement list |
| Errors.KindsComplete | errors/ErrorContainer.cs:69-74 | every error kind occurs in the enumeration order the container is filled in |
| Errors.KindsNoDuplicates | errors/ErrorContainer.cs:69-74 | the enumeration order lists each error kind once |
| Errors.TokenEntryText | errors/ErrorContainer.cs:103-117 | an entry near a real token prints as `Error near "<lexeme>" on line L column C: <message>` |
| Errors.PositionEntryText | errors/ErrorContainer.cs:89-112 | an entry made from a line and a column keeps that position and prints it with no lexeme |
| Errors.MessageEntryText | errors/ErrorContainer.cs:97-116 | an entry without a token prints as its bare message |
| Errors.ConcatMembership | errors/ErrorContainer.cs:31-38 | an entry is in the concatenation of some kinds' lists exactly when it is in one of those lists |
| Errors.ConcatAfterAdd | errors/ErrorContainer.cs:40-47 | appending an entry to one kind's list adds exactly that entry to the concatenation, and only if the kind is concatenated |
| Errors.ErrorContainer.constructor | errors/ErrorContainer.cs:15-20 | a new container has a list for every kind and every list is empty |
| Errors.ErrorContainer.ErrorsByType | errors/ErrorContainer.cs:22-29 | the lookup succeeds exactly when the kind has a list, and then it returns that list |
| Errors.ErrorContainer.ValidErrorsByType | errors/ErrorContainer.cs:22-29 | a container built by the constructor never takes the "could not find error list" path |
| Errors.ErrorContainer.GetAllErrors | errors/ErrorContainer.cs:31-38 | the result is every kind's list, concatenated in enumeration order |
| Errors.ErrorContainer.AddError | errors/ErrorContainer.cs:40-47 | the entry is appended to its own kind's list and no other list changes |
| Errors.ErrorContainer.AddTokenError | errors/ErrorContainer.cs:49-53 | an entry near the given token is appended to the given kind's list and no other list changes |
| Errors.ErrorContainer.AddPositionError | errors/ErrorContainer.cs:55-59 | an entry at the given line and column is appended to the given kind's list and no other list changes |
| Errors.ErrorContainer.AddMessageError | errors/ErrorContainer.cs:61-65 | an entry with no token is appended to the given kind's list and no other list changes |
| Errors.AllErrorsAfterAdd | errors/ErrorContainer.cs:31-47 | after one addition, GetAllErrors holds exactly one more entry, the one added |
| Errors.AllErrorsMembership | errors/ErrorContainer.cs:31-38 | GetAllErrors holds an entry exactly when the list of some kind holds it |
| Errors.AllErrorsCount | errors/ErrorContainer.cs:31-38 | GetAllErrors holds as many entries as the four lists together |
| Errors.AllErrorsOfEmpty | errors/ErrorContainer.cs:15-38 | a new container reports no errors at all |
| TypeSystem.Operate | models/TypeSystem.cs:93-98 | the category-keyed lookup gives a result model exactly when the operator is in the model's table |
| TypeSystem.CategoryRoundTrip | models/TypeSystem.cs:41-63 | the two mappings are inverse on the three type categories and the three models; any other category has no model, and no model maps to NONE |
| TypeSystem.CategoryKeywordIsName | models/TypeSystem.cs:12-14 | a type category maps to the model whose name is the category's keyword |
| TypeSystem.TablesAgree | models/TypeSystem.cs:17-39 | the category-keyed operator tables agree entry for entry with the lexeme-keyed ones, and models and bindings of one type share a name |
| TypeSystem.NonOperatorsUntyped | models/TypeBindings.cs:27-45 | a lexeme that names no operator is in no type's operator table |
| TypeBindings.Operate | models/TypeBindings.cs:147-152 | the lexeme-keyed lookup gives a result binding exactly when the operator is in the binding's table |
| TypeBindings.TransitionTable | models/TypeBindings.cs:27-45 | the operator tables, operator by operator: `bool` has `=`, `!` and `&`; `string` has `+` and `=`; `int` has `+ - * /` to `int` and `< =` to `bool` |
| TypeBindings.TransitionsAreOperators | models/TypeBindings.cs:27-45 | only binary or unary operator lexemes occur in the tables |
| TypeBindings.GetTypeByNameExactly | models/TypeBindings.cs:56-65 | GetTypeByName succeeds exactly for `int`, `string` and `bool` and gives the binding of that name; any other name throws |
| TypeBindings.GetTypeByNameOfName | models/TypeBindings.cs:46-65 | each registered binding is found again by its own name |
| TypeBindings.DecideType | models/TypeBindings.cs:68-116 | inference reports only semantic errors, and a node that gets a type has reported none |
| TypeBindings.DecideLeaf | models/TypeBindings.cs:97-113 | integer and string literals have their types; a declared identifier has its declared type; an undeclared one is null with exactly one "Undeclared variable" error; any other leaf is null silently |
| TypeBindings.DecideBinaryNullChild | models/TypeBindings.cs:70-76 | a binary node over a null child is null and adds no error of its own |
| TypeBindings.DecideBinaryMismatch | models/TypeBindings.cs:77-80 | a binary node whose operands have different types is null with exactly one mismatch error, at the operator |
| TypeBindings.DecideBinaryMatch | models/TypeBindings.cs:81-85 | a binary node whose operands share a type has that type's result for the operator, or null and exactly one "could not apply" error |
| TypeBindings.DecideUnary | models/TypeBindings.cs:86-96 | a unary node passes a null operand on silently; otherwise it has the operator's result type, or null and exactly one error |
| TypeBindings.TypedIffNoErrors | models/TypeBindings.cs:68-116 | on expressions whose leaves are operands, inference finds a type if and only if it reports no error |
| TypeBindings.AtMostOneErrorPerNode | models/TypeBindings.cs:68-116 | inference reports at most one error per node of the expression |
| TypeModels.GetDefaultValue | interpreter/TypeModels.cs:96-102 | the default-value lookup succeeds exactly for a non-null binding |
| TypeModels.DefaultValueHasType | interpreter/TypeModels.cs:13-52 | the defaults are `0`, `false` and `""`, each of its own type, and GetDefaultValue returns them |
| TypeModels.BinaryTablesAgree | interpreter/TypeModels.cs:11-67 | a binding implements a binary operator if and only if the type graph types that operator on it |
| TypeModels.UnaryTablesAgree | interpreter/TypeModels.cs:46-50 | a binding implements a unary operator if and only if the type graph types it: only `!` on `bool` |
| TypeModels.BinarySound | interpreter/TypeModels.cs:69-81 | on operands of the binding's type an implemented operator succeeds unless it divides by zero or overflows the division, and its value has the result type the type graph gives |
| TypeModels.UnarySound | interpreter/TypeModels.cs:83-94 | a typed unary operator on a boolean gives its negation, of the type the graph gives |
| TypeModels.IntegerOperators | interpreter/TypeModels.cs:14-34 | `+ - *` are 32-bit wrapping arithmetic, `/` truncates toward zero, `<` and `=` compare |
| TypeModels.BooleanOperators | interpreter/TypeModels.cs:37-50 | `&` is conjunction and does not cast its right operand when the left is false; `=` is equality; `!` is negation |
| TypeModels.StringOperators | interpreter/TypeModels.cs:53-61 | `+` concatenates strings and `=` compares them |
| TypeModels.MissingImplementationsFault | interpreter/TypeModels.cs:77-92 | an operator a binding does not implement throws "does not implement operator"; `int` and `string` have no unary table, so any unary operator on them throws a null reference |
| Values.Wrap32 | interpreter/TypeModels.cs:15-23 | the 32-bit result keeps every in-range value and agrees with the exact result modulo 2^32 |
| Values.TruncDiv | interpreter/TypeModels.cs:24-26 | C# integer division agrees with floor division on non-negative dividends and positive divisors |
| Values.TruncDivSymmetric | interpreter/TypeModels.cs:24-26 | the truncated quotient changes sign with either operand, which together with the case above fixes it for all pairs |
| Values.TruncDivExample | interpreter/TypeModels.cs:24-26 | `-7 / 2` is `-3` in C#, where Euclidean division gives `-4` |
| Values.ParseInt32 | interpreter/Interpreter.cs:95-96 | int.Parse succeeds exactly on digit strings whose value fits in 32 bits, and then gives that value |
| Values.AsInt | interpreter/TypeModels.cs:15-32 | the `(int)` cast succeeds exactly on an integer value and returns it |
| Values.AsBool | interpreter/TypeModels.cs:37-49 | the `(bool)` cast succeeds exactly on a boolean value and returns it |
| Values.AsString | interpreter/TypeModels.cs:53-59 | the `(string)` cast succeeds on strings and on null, which stays null |
| Values.ValueText | interpreter/Interpreter.cs:57-62 | ToString of a value throws only on null; strings print as themselves and integers in decimal |
| Util.NatToString | interpreter/Interpreter.cs:136-141 | the decimal text of a number is a non-empty digit string with no leading zero |
| Util.DigitsValueOfNatToString | interpreter/Interpreter.cs:136-141 | the value of a number's decimal text is the number |
| Util.ParseIntOfNatToString | interpreter/Interpreter.cs:95-96 | parsing a number's decimal text gives the number back |
| Interpreting.EvaluateLeaf | interpreter/Interpreter.cs:90-114 | an integer literal evaluates to its value, a string literal to its text, a declared identifier to its current value; an undeclared one throws and any other leaf is null |
| Interpreting.EvaluateBinaryOrder | interpreter/Interpreter.cs:78-83 | the left operand is evaluated first and its exception is the one that escapes; the operator is then dispatched on the left operand's inferred type |
| Interpreting.EvaluateSound | interpreter/Interpreter.cs:76-120 | over a store where each variable holds a value of its type, an expression that inference types evaluates to a value of that type or throws one of the arithmetic or parse exceptions |
| Interpreting.OperatorOfTypedLexeme | models/TypeBindings.cs:147-152 | a lexeme that some type's table types names one of the eight operators |
| Interpreting.DivisionFaultMessage | interpreter/TypeModels.cs:24-26 | the only exceptions an implemented operator throws on well-typed operands are the arithmetic ones |
| Interpreting.NextWordSplits | interpreter/Interpreter.cs:123-134 | a read word is the white-space-free text up to the first white space, which is consumed too; reading throws exactly when the input holds no white space, and then consumes it all |
| Interpreting.ExecStatement | interpreter/Interpreter.cs:31-74 | running a statement keeps every declared type among the three known type names |
| Interpreting.ExecDeclaration | interpreter/Interpreter.cs:33-45 | a declaration binds a value and keeps every declared type known |
| Interpreting.ExecAssignment | interpreter/Interpreter.cs:46-48 | an assignment keeps every declared type known |
| Interpreting.ExecForLoop | interpreter/Interpreter.cs:49-56 | a for loop keeps every declared type known |
| Interpreting.ExecRead | interpreter/Interpreter.cs:68-73 | read keeps every declared type known |
| Interpreting.ExecStatements | interpreter/Interpreter.cs:24-29 | running a statement list keeps every declared type known |
| Interpreting.ExecPrint | interpreter/Interpreter.cs:57-62 | print never changes the symbol table |
| Interpreting.ExecAssert | interpreter/Interpreter.cs:63-67 | assert never changes the symbol table |
| Interpreting.Declaration | interpreter/Interpreter.cs:33-45 | a declaration without an initializer stores its type's default value, and with one the initializer's value; a name already declared throws the duplicate-key exception |
| Interpreting.Assignment | interpreter/Interpreter.cs:46-48 | an assignment stores the value in the declared variable, keeps its type and changes no other variable, input or output |
| Interpreting.Print | interpreter/Interpreter.cs:57-62 | print appends the value's text to the console; printing null throws |
| Interpreting.Assert | interpreter/Interpreter.cs:63-67 | a false assertion writes one "Assertion near line L column C failed." line; a true one writes nothing |
| Interpreting.Read | interpreter/Interpreter.cs:68-73 | read stores the next word, as a string, in the variable whatever its declared type; it throws when the input ends without white space |
| Interpreting.ReadIntoIntVariable | interpreter/Interpreter.cs:68-73 | reading into an `int` variable leaves it holding a string, so the next `x + 1` throws an invalid cast |
| Interpreting.CounterValues | interpreter/Interpreter.cs:53 | the counter values run from low up to high, one each, and are empty when low exceeds high |
| Interpreting.ExecEach | interpreter/Interpreter.cs:53-56 | running the body for a list of counter values keeps every declared type known |
| Interpreting.ExecLoop | interpreter/Interpreter.cs:53-56 | the loop with the counter stopping after high keeps every declared type known |
| Interpreting.LoopRunsOncePerValue | interpreter/Interpreter.cs:53-56 | the loop assigns the variable and runs the body once per counter value from low to high, in increasing order, max(0, high - low + 1) times |
| Interpreting.UntouchedStatementKeeps | interpreter/Interpreter.cs:31-74 | a statement that never writes a declared variable leaves it as it was |
| Interpreting.UntouchedLoopKeeps | interpreter/Interpreter.cs:53-56 | a loop whose variable and body never write a declared variable leaves it as it was |
| Interpreting.UntouchedStatementsKeep | interpreter/Interpreter.cs:24-29 | a statement list that never writes a declared variable leaves it as it was |
| Interpreting.LoopVariableEndsAtHigh | interpreter/Interpreter.cs:53-56 | when the body never writes the loop variable, a completed loop that ran leaves it holding high, and a loop from above high changes nothing |
| Interpreting.DeclarationInLoopBody | interpreter/Interpreter.cs:53-56 | a declaration in a loop body that runs twice throws the duplicate-key exception on the second run |
| Interpreting.SingleStatement | interpreter/Interpreter.cs:24-29 | a one-statement list runs as that statement |
| Interpreting.ForLoopBounds | interpreter/Interpreter.cs:49-56 | both bounds are evaluated once, before the first run of the body, and the loop then runs once per counter value |
| Interpreting.ExecStatementsAppend | interpreter/Interpreter.cs:24-29 | running two lists in sequence runs the first and then, unless it threw, the second |
| Interpreting.CounterNeverPassesMaxInt | interpreter/Interpreter.cs:53 | as written, `i++` wraps from MaxInt32 to MinInt32, so `i <= high` with high == MaxInt32 never becomes false |
| Interpreting.Interpreter.constructor | interpreter/Interpreter.cs:8-17 | a new interpreter has an empty symbol table, the given input and nothing written |
| Interpreting.Interpreter.Interprete | interpreter/Interpreter.cs:19-22 | the new state and the exception that ended the run are those of running the tree's statements |
| Interpreting.Interpreter.InterpreteStatements | interpreter/Interpreter.cs:24-29 | the new state and the exception, if any, are those of running the list in order up to the first exception |
| Interpreting.Interpreter.InterpreteStatement | interpreter/Interpreter.cs:31-74 | the new state and the exception, if any, are those of running the statement |
| Interpreting.Interpreter.RunLoop | interpreter/Interpreter.cs:53-56 | the new state and the exception, if any, are those of the loop with the counter stopping after high |
| Interpreting.Interpreter.ReadNextWord | interpreter/Interpreter.cs:123-134 | the word and the remaining input are those of NextWord, and the outputs are unchanged |
| Symbols.SymbolTable.constructor | models/SymbolTable.cs:9-16 | a new table has no variables and no locks |
| Symbols.SymbolTable.Lock | models/SymbolTable.cs:18-21 | the identifier's name is pushed on the lock stack; the variables are unchanged |
| Symbols.SymbolTable.Unlock | models/SymbolTable.cs:23-26 | the most recent lock is popped; popping an empty stack throws; the variables are unchanged |
| Symbols.SymbolTable.Declare | models/SymbolTable.cs:28-31 | a new name is added with the type's lexeme and the value; a name already declared throws the duplicate-key exception and changes nothing |
| Symbols.SymbolTable.DeclareUnset | models/SymbolTable.cs:33-36 | as Declare, with a null value |
| Symbols.SymbolTable.Assign | models/SymbolTable.cs:38-43 | a declared variable gets the new value and keeps its type; an undeclared name throws a null reference and changes nothing |
| Symbols.SymbolTable.GetValue | models/SymbolTable.cs:55-60 | the value lookup succeeds exactly for a declared name |
| Symbols.SymbolTable.GetVariableType | models/SymbolTable.cs:62-67 | the type lookup succeeds exactly for a declared name |
| Symbols.SymbolTable.SameLexemeSameVariable | models/SymbolTable.cs:45-67 | tokens with the same lexeme denote the same variable: every query answers alike for them |
| Symbols.DeclareThenQuery | models/SymbolTable.cs:28-67 | after declaring a new name, it is declared and reads back its type and value |
| Symbols.AssignThenQuery | models/SymbolTable.cs:38-67 | after an assignment, the variable reads back the new value with its old type, and every other variable reads back as before |
| Symbols.LockThenUnlock | models/SymbolTable.cs:18-26 | locking and then unlocking restores the lock stack and leaves the variables alone |
| Analyser.CheckExpression | analyser/SemanticAnalyser.cs:89-101 | checking an expression against a type adds errors only: the symbol table and the lock stack are unchanged |
| Analyser.CheckConsistency | analyser/SemanticAnalyser.cs:104-106 | consistency checking adds errors only: the symbol table and the lock stack are unchanged |
| Analyser.CheckStatement | analyser/SemanticAnalyser.cs:36-73 | checking a statement keeps every declared type among the known ones and leaves the lock stack as it found it |
| Analyser.CheckStatements | analyser/SemanticAnalyser.cs:29-34 | checking a list keeps every declared type among the known ones and leaves the lock stack as it found it |
| Analyser.Redeclaration | analyser/SemanticAnalyser.cs:38-41 | a redeclaration adds exactly one "Identifier x already declared" error at the identifier, leaves the table alone and skips the initializer |
| Analyser.FreshDeclaration | analyser/SemanticAnalyser.cs:42-47 | a new declaration enters the table first, so its initializer is checked against the declared type with the variable already declared |
| Analyser.TargetValidation | analyser/SemanticAnalyser.cs:75-86 | for an assignment, a read or a for loop, an undeclared target gives exactly the "undeclared" error and a locked one exactly the "used by a for loop" error, and nothing else happens; only a declared, unlocked target lets the statement do its work |
| Analyser.ValidAssignment | analyser/SemanticAnalyser.cs:48-51 | a valid assignment checks its expression against the target's declared type |
| Analyser.ValidForLoop | analyser/SemanticAnalyser.cs:52-63 | a valid for loop checks both bounds against `int` and then the body with the loop variable locked; the lock stack afterwards is the one before |
| Analyser.LockDepthRestored | analyser/SemanticAnalyser.cs:58-62 | every statement leaves the lock stack as deep as it found it |
| Analyser.AssertAndPrint | analyser/SemanticAnalyser.cs:64-68 | an assert is checked against `bool`; a print only adds the errors of inference |
| Analyser.CheckExpressionErrors | analyser/SemanticAnalyser.cs:94-100 | a null binding adds only inference's errors, a matching one adds none, a different one adds exactly one mismatch error at the expression's head |
| Analyser.CheckStatementsAppend | analyser/SemanticAnalyser.cs:29-34 | checking two lists in sequence equals checking their concatenation |
| Analyser.ExtendsTransitive | analyser/SemanticAnalyser.cs:24-34 | "only adds errors and keeps declared variables" composes over consecutive steps |
| Analyser.CheckExpressionExtends | analyser/SemanticAnalyser.cs:89-101 | checking an expression only appends errors and keeps every declared variable |
| Analyser.CheckStatementExtends | analyser/SemanticAnalyser.cs:36-73 | checking a statement only appends errors and never changes or removes a declared variable |
| Analyser.CheckStatementsExtends | analyser/SemanticAnalyser.cs:29-34 | checking a list only appends errors and never changes or removes a declared variable |
| Analyser.SemanticAnalyser.constructor | analyser/SemanticAnalyser.cs:8-16 | the analyser keeps the given tree and container and starts with an empty symbol table |
| Analyser.SemanticAnalyser.ReportAll | models/TypeBindings.cs:68-116 | inference's errors are appended to the semantic list, in order, and no other list changes |
| Analyser.SemanticAnalyser.DoTypeChecking | analyser/SemanticAnalyser.cs:24-27 | the new table, lock stack and semantic errors are those of checking the tree's statements; no other error list changes |
| Analyser.SemanticAnalyser.CheckStatementsOf | analyser/SemanticAnalyser.cs:29-34 | the new state is that of checking the list in order; no other error list changes |
| Analyser.SemanticAnalyser.CheckStatementOf | analyser/SemanticAnalyser.cs:36-73 | the new state is that of checking the statement; no other error list changes |
| Analyser.SemanticAnalyser.ValidateTarget | analyser/SemanticAnalyser.cs:75-86 | the action may run exactly when the target is declared and unlocked; otherwise its one error is reported |
| Analyser.SemanticAnalyser.CheckAgainst | analyser/SemanticAnalyser.cs:89-101 | the new state is that of checking the expression against the type |
| Analyser.SemanticAnalyser.DoConsistencyChecking | analyser/SemanticAnalyser.cs:104-106 | the new state is that of adding inference's errors |
| Scanning.SimpleLexemeOperatorsAgree | scanner/Scanner.cs:11-23 | each operator character of the one-character table gets the binary or unary category its lexeme has in the operator lists; `-` is not in the table |
| Scanning.IdentifierTailAll | scanner/Scanner.cs:205-210 | the identifier tail holds exactly when every character after the first is a letter, a digit or an underscore |
| Scanning.PositionAfterCounts | scanner/Scanner.cs:221-229 | the cursor is 1-based: the line is one more than the newlines read, the column one more than the characters since the last newline |
| Scanning.RunEnd | scanner/Scanner.cs:214-219 | the end of a run lies between its start and the end of the stream |
| Scanning.RunEndAccepted | scanner/Scanner.cs:214-219 | every character of a run satisfies the condition |
| Scanning.RunEndStops | scanner/Scanner.cs:214-219 | a run is maximal: it ends at the end of the stream or at a character the condition rejects |
| Scanning.NextCharSpec | scanner/Scanner.cs:187-192 | reading a character returns the character at the position and moves one on; at the end of the stream it returns the end-of-stream character and stays |
| Scanning.SkipBlankSpec | scanner/Scanner.cs:167-177 | skipping blanks never moves backwards or past the end |
| Scanning.ReadWhileSpec | scanner/Scanner.cs:214-219 | reading a run never moves backwards or past the end |
| Scanning.ReadLexemeSpec | scanner/Scanner.cs:112-152 | reading a lexeme consumes at least one character |
| Scanning.LexemeAfterFirst | scanner/Scanner.cs:118-151 | the rest of a lexeme never moves backwards or past the end |
| Scanning.RunLexemeSpec | scanner/Scanner.cs:134-140 | a word or a number never moves backwards or past the end |
| Scanning.StringLexemeSpec | scanner/Scanner.cs:141-145 | a string literal never moves backwards or past the end |
| Scanning.ScanNextTokenSpec | scanner/Scanner.cs:89-110 | scanning a token consumes at least one character |
| Scanning.ScanLoopStep | scanner/Scanner.cs:59-61 | the token queue is the scanned token followed by the queue of the rest of the stream |
| Scanning.SkipBlankStops | scanner/Scanner.cs:167-177 | skipping passes only blanks and stops at the end or at a character that is not a blank |
| Scanning.ReadWhileIsRun | scanner/Scanner.cs:214-219 | readWhile reads exactly the maximal run of characters that satisfy its condition |
| Scanning.NextCharKeepsConsistent | scanner/Scanner.cs:187-192 | reading a character keeps the line and column in step with the characters read |
| Scanning.SkipBlankKeepsConsistent | scanner/Scanner.cs:167-177 | skipping blanks keeps the line and column in step with the characters read |
| Scanning.ReadWhileKeepsConsistent | scanner/Scanner.cs:214-219 | reading a run keeps the line and column in step with the characters read |
| Scanning.ReadLexemeKeepsConsistent | scanner/Scanner.cs:112-152 | reading a lexeme keeps the line and column in step with the characters read |
| Scanning.LexemeStartsWithFirst | scanner/Scanner.cs:118-119 | every lexeme is non-empty and starts with the character it was read from |
| Scanning.TokenAtCursor | scanner/Scanner.cs:118-121 | a token scanned at a character other than a newline carries the cursor position of that character |
| Scanning.ScanLoopPositions | scanner/Scanner.cs:55-62 | every token of the scan loop starts at a non-blank character, after the previous token, with its first character and the 1-based line and column of that character |
| Scanning.TokenizePositions | scanner/Scanner.cs:55-62 | the tokens of a whole stream start at increasing non-blank positions and carry the 1-based line and column of their first character |
| Scanning.ScanLoopCount | scanner/Scanner.cs:59-61 | the scan loop never produces more tokens than characters remain |
| Scanning.TokenizeCount | scanner/Scanner.cs:55-62 | a stream never gives more tokens than it has characters |
| Scanning.RawOperatorIsSimple | scanner/Scanner.cs:123-125 | readLexeme gives an operator or right-bracket category only to one-character lexemes from the table |
| Scanning.ScannedTokenClassified | scanner/Scanner.cs:89-165 | a scanned operator token's lexeme is in the matching operator list and a scanned right bracket is `)` |
| Scanning.ScanLoopClassified | scanner/Scanner.cs:59-61 | every token of the scan loop is classified that way |
| Scanning.TokenizeClassified | scanner/Scanner.cs:55-62 | every token of the constructor's queue is classified that way |
| Scanning.SimpleLexemeToken | scanner/Scanner.cs:123-125 | a character of the table is a one-character token of the table's category |
| Scanning.ColonToken | scanner/Scanner.cs:126-133 | `:=` is the assignment token and a lone `:` the colon |
| Scanning.LetterBranch | scanner/Scanner.cs:134-136 | a letter starts a word run |
| Scanning.DigitBranch | scanner/Scanner.cs:137-140 | a digit starts an integer run |
| Scanning.QuoteBranch | scanner/Scanner.cs:141-145 | a quote starts a string literal |
| Scanning.BranchOfFirst | scanner/Scanner.cs:134-145 | the letter, digit and quote branches are taken on their first characters |
| Scanning.RunIsNumber | scanner/Scanner.cs:137-140 | a digit followed by digits is a digit string |
| Scanning.RunIsWord | scanner/Scanner.cs:199-212 | a letter followed by letters and digits is a valid identifier |
| Scanning.RunRaw | scanner/Scanner.cs:134-140 | a word or number lexeme is its first character and the maximal run after it |
| Scanning.WordRaw | scanner/Scanner.cs:134-136 | a word lexeme is the maximal run of letters and digits and is a valid identifier |
| Scanning.NumberRaw | scanner/Scanner.cs:137-140 | a number lexeme is the maximal run of digits |
| Scanning.StringText | scanner/Scanner.cs:141-145 | a string lexeme is the opening quote, the run of other characters and the one character read after it |
| Scanning.ClosedStringRaw | scanner/Scanner.cs:141-145 | a closed string literal runs through its closing quote |
| Scanning.UnclosedStringRaw | scanner/Scanner.cs:141-145 | an unclosed string literal takes the rest of the stream and ends in the end-of-stream character |
| Scanning.TokenOfRaw | scanner/Scanner.cs:100-109 | a token has the decided category, the lexeme and the begin position readLexeme left |
| Scanning.WordCategory | scanner/Scanner.cs:154-165 | a valid identifier is given a reserved word's category if it is one, and Identifier otherwise |
| Scanning.WordToken | scanner/Scanner.cs:134-136 | a letter starts the maximal run of letters and digits, which is a reserved word or an identifier, never an invalid lexeme |
| Scanning.NumberToken | scanner/Scanner.cs:137-140 | a digit starts the maximal run of digits, an integer literal |
| Scanning.StringToken | scanner/Scanner.cs:141-145 | a quote starts a string literal through the next quote inclusive, with nothing escaped; an unclosed one takes the rest of the stream |
| Scanning.DotToken | scanner/Scanner.cs:146-151 | two dots are a loop range and a lone dot an invalid lexeme |
| Scanning.OtherToken | scanner/Scanner.cs:112-152 | any other character, a minus sign among them, is a one-character invalid lexeme |
| Scanning.Scanner.constructor | scanner/Scanner.cs:55-62 | the new scanner has read the whole stream and its queue is the stream's tokens |
| Scanning.Scanner.ScanAll | scanner/Scanner.cs:59-61 | the loop appends the scan loop's tokens from the current position and stops at the end of the stream |
| Scanning.Scanner.Next | scanner/Scanner.cs:64-70 | the front token is dequeued and returned; an empty queue throws and stays empty |
| Scanning.Scanner.Peek | scanner/Scanner.cs:72-78 | the front token is returned and the queue is unchanged; an empty queue throws |
| Scanning.Scanner.ScanNextToken | scanner/Scanner.cs:89-110 | the token and the new cursor are those of ScanNextTokenSpec |
| Scanning.Scanner.ReadLexeme | scanner/Scanner.cs:112-152 | the lexeme, category, begin position and cursor are those of ReadLexemeSpec |
| Scanning.Scanner.DecideCategory | scanner/Scanner.cs:154-165 | the category becomes DecideCategorySpec's |
| Scanning.Scanner.SkipBlank | scanner/Scanner.cs:167-177 | the cursor becomes SkipBlankSpec's |
| Scanning.Scanner.NextChar | scanner/Scanner.cs:187-192 | the character and the cursor are those of NextCharSpec |
| Scanning.Scanner.UpdateCursor | scanner/Scanner.cs:221-229 | a newline moves to column 1 of the next line; any other character moves one column right |
| Scanning.Scanner.ReadWhile | scanner/Scanner.cs:214-219 | the lexeme is extended by ReadWhileSpec's run and the cursor moves to its end |
| Scanning.Scanner.IsValidIdentifier | scanner/Scanner.cs:199-212 | the loop's answer is ValidIdentifier: a letter followed by letters, digits or underscores |
| ExpressionBuilding.PrecedenceRanksOperators | parser/ExpressionBuilder.cs:16-25 | exactly the operators have a positive precedence: `!` ranks 1, the binary operators 2 to 5; brackets, absent from the table, count as 0 |
| ExpressionBuilding.PopNotLower | parser/ExpressionBuilder.cs:115-126 | the inner loop stops at an empty stack or at an operator of lower precedence than the incoming one, and what is left is a prefix of the stack |
| ExpressionBuilding.Tree | parser/ExpressionBuilder.cs:51-78 | reading a tree never grows the output stack |
| ExpressionBuilding.ShuntAppend | parser/ExpressionBuilder.cs:83-130 | because the input is popped from its top, shunting `a + b` shunts `b` first and then `a` |
| ExpressionBuilding.ShuntOne | parser/ExpressionBuilder.cs:83-130 | one input token is one step of the main loop |
| ExpressionBuilding.StepRightBracket | parser/ExpressionBuilder.cs:96-98 | a right bracket is pushed onto the operator stack |
| ExpressionBuilding.StepLeftBracket | parser/ExpressionBuilder.cs:101-110 | a left bracket moves operators to the output up to and dropping the topmost right bracket |
| ExpressionBuilding.StepOperator | parser/ExpressionBuilder.cs:114-128 | an operator meeting an empty stack or a right bracket on top is pushed without popping |
| ExpressionBuilding.ShuntOperand | parser/ExpressionBuilder.cs:83-130 | shunting an operand or a bracketed group leaves the operator stack as it was and appends the group's Polish form to the output |
| ExpressionBuilding.PhraseOperatorsPlain | parser/ExpressionBuilder.cs:114-128 | a phrase leaves at most one operator on the stack, never a bracket, and it has positive precedence |
| ExpressionBuilding.ShuntPhrase | parser/ExpressionBuilder.cs:83-130 | shunting a phrase appends its operands' Polish forms to the output and leaves its operator on the stack |
| ExpressionBuilding.CloseGroup | parser/ExpressionBuilder.cs:101-110 | the left bracket of a group moves the group's operator to the output and removes its matching right bracket |
| ExpressionBuilding.BuildPhrase | parser/ExpressionBuilder.cs:44-48 | Build on what the parser offers for a phrase succeeds and returns the phrase's tree; the output stack is its Polish form, root on top |
| ExpressionBuilding.DrainOperators | parser/ExpressionBuilder.cs:132-140 | the final loop moves the phrase's leftover operator to the output without throwing |
| ExpressionBuilding.TreeOfOperand | parser/ExpressionBuilder.cs:51-78 | buildExpression on an operand's Polish form returns its tree and leaves exactly what lay below it |
| ExpressionBuilding.TreeOfPhrase | parser/ExpressionBuilder.cs:51-78 | buildExpression on a phrase's Polish form returns its tree and leaves exactly what lay below it |
| ExpressionBuilding.BuildNothing | parser/ExpressionBuilder.cs:55-60 | with nothing offered Build gives null |
| ExpressionBuilding.BuildSimpleForms | parser/ExpressionBuilder.cs:44-78 | one operand builds a leaf, `a op b` a binary node with `a` on the left, `! a` a unary node |
| ExpressionBuilding.BuildGroup | parser/ExpressionBuilder.cs:96-110 | a bracketed group builds the same tree as its contents: brackets only group |
| ExpressionBuilding.OperandNoBrackets | parser/ExpressionBuilder.cs:96-110 | no bracket reaches the output of an operand |
| ExpressionBuilding.PhraseNoBrackets | parser/ExpressionBuilder.cs:96-110 | no bracket reaches the output of a phrase |
| ExpressionBuilding.OperandKeepsTokens | parser/ExpressionBuilder.cs:83-140 | the output of an operand and its brackets together are, as a multiset, the offered tokens |
| ExpressionBuilding.PhraseKeepsTokens | parser/ExpressionBuilder.cs:83-140 | the output of a phrase and its brackets together are, as a multiset, the offered tokens |
| ExpressionBuilding.NegatedKeepsTokens | parser/ExpressionBuilder.cs:83-140 | the same for a negated operand |
| ExpressionBuilding.InfixKeepsTokens | parser/ExpressionBuilder.cs:83-140 | the same for `operand op operand` |
| ExpressionBuilding.OperandBracketsAreBrackets | parser/ExpressionBuilder.cs:96-110 | what an operand sets aside is brackets only |
| ExpressionBuilding.PhraseBracketsAreBrackets | parser/ExpressionBuilder.cs:96-110 | what a phrase sets aside is brackets only |
| ExpressionBuilding.YardOutput | parser/ExpressionBuilder.cs:81-142 | for what the parser offers, shuntingYard does not throw, its output holds no bracket and holds every other offered token as often as it was offered |
| ExpressionBuilding.DrainFaultsIffBracket | parser/ExpressionBuilder.cs:132-140 | the final loop throws "Parethesis mismatch" if and only if a right bracket is left anywhere on the operator stack; otherwise the output gains the operators from the top down |
| ExpressionBuilding.YardFaultsIffBracket | parser/ExpressionBuilder.cs:81-142 | shuntingYard throws if and only if its main loop leaves a right bracket on the operator stack |
| ExpressionBuilding.UnmatchedBracket | parser/ExpressionBuilder.cs:96-98 | an instance: operands followed by a right bracket with no left bracket before it throw "Parethesis mismatch" |
| ExpressionBuilding.OperandsKeepOperators | parser/ExpressionBuilder.cs:88-93 | operands go to the output and leave the operator stack alone |
| ExpressionBuilding.OrderedAboveBracket | parser/ExpressionBuilder.cs:114-128 | above the topmost right bracket the operator stack's precedences increase strictly |
| ExpressionBuilding.OrderedPrefix | parser/ExpressionBuilder.cs:114-128 | popping keeps the operator stack ordered |
| ExpressionBuilding.OrderedPush | parser/ExpressionBuilder.cs:114-128 | pushing a bracket, or an operator above a lower one, keeps the stack ordered |
| ExpressionBuilding.PopToBracketOrdered | parser/ExpressionBuilder.cs:101-110 | the left-bracket case keeps the stack ordered |
| ExpressionBuilding.StepOrdered | parser/ExpressionBuilder.cs:86-129 | every step of the main loop keeps the operator stack ordered |
| ExpressionBuilding.ShuntOrdered | parser/ExpressionBuilder.cs:83-130 | the whole main loop keeps the operator stack ordered |
| ExpressionBuilding.ExpressionBuilder.constructor | parser/ExpressionBuilder.cs:27-36 | the three stacks start empty |
| ExpressionBuilding.ExpressionBuilder.Offer | parser/ExpressionBuilder.cs:39-42 | the token goes on top of the input stack; nothing else changes |
| ExpressionBuilding.ExpressionBuilder.Build | parser/ExpressionBuilder.cs:44-48 | the result is BuildOf of what was offered: the tree, or the mismatch exception; the input stack ends empty and, on success, so does the operator stack, with the output stack what reading the tree leaves |
| ExpressionBuilding.ExpressionBuilder.ShuntingYard | parser/ExpressionBuilder.cs:81-142 | the input stack is emptied; on success the operator stack is drained and the output stack is Yard's, otherwise the exception is Yard's |
| ExpressionBuilding.ExpressionBuilder.BuildExpression | parser/ExpressionBuilder.cs:51-78 | the tree and the remaining output stack are Tree's |
| Parsing.NextTokenSpec | parser/Parser.cs:36-44 | GetNextToken dequeues exactly one token, or yields the end marker once the queue is empty, and touches nothing else |
| Parsing.AcceptSpec | parser/Parser.cs:46-57 | Accept answers true exactly when the current token's category is listed; it reports nothing and never reads back |
| Parsing.ExpectSpec | parser/Parser.cs:59-67 | Expect always consumes one token of the queue and keeps the earlier syntax errors as a prefix of the new list |
| Parsing.OperandSpec | parser/Parser.cs:200-221 | Operand consumes tokens and only appends errors: the earlier list is a prefix of the new one |
| Parsing.BuildExpressionSpec | parser/Parser.cs:186-198 | BuildExpression consumes tokens and only appends errors: the earlier list is a prefix of the new one |
| Parsing.ExpressionSpec | parser/Parser.cs:179-184 | Expression consumes tokens |
| Parsing.StatementSpec | parser/Parser.cs:120-177 | Statement consumes tokens, and at least one when the current token starts a statement |
| Parsing.DeclarationSpec | parser/Parser.cs:124-133 | the declaration branch consumes tokens |
| Parsing.AssignmentSpec | parser/Parser.cs:135-143 | the assignment branch consumes tokens |
| Parsing.ForLoopSpec | parser/Parser.cs:145-156 | the for-loop branch consumes tokens |
| Parsing.ForLoopTail | parser/Parser.cs:151-156 | the rest of the for loop consumes tokens |
| Parsing.ForLoopHead | parser/Parser.cs:147-150 | the for loop reads the variable, `in` and its lower bound, and a builder exception there ends it |
| Parsing.ForLoopTailSteps | parser/Parser.cs:151-156 | the for loop then reads `..`, the upper bound, `do`, the body and `end for`, and a fault in the bound or the body ends it |
| Parsing.ReadSpec | parser/Parser.cs:158-161 | the read branch consumes tokens |
| Parsing.PrintSpec | parser/Parser.cs:163-165 | the print branch consumes tokens |
| Parsing.AssertSpec | parser/Parser.cs:167-172 | the assert branch consumes tokens |
| Parsing.StatementsSpec | parser/Parser.cs:101-118 | Statements consumes at least one token of the queue whenever there is one |
| Parsing.MoreStatementsSpec | parser/Parser.cs:108-116 | the maximum munch loop consumes tokens |
| Parsing.ParseLoopAsWritten | parser/Parser.cs:25-33 | Parse's loop as written ends with the queue empty |
| Parsing.ParseLoop | parser/Parser.cs:25-33 | the corrected loop ends with the queue empty and the end marker current |
| Parsing.AcceptConsumesOne | parser/Parser.cs:46-57 | on a match the current token becomes `accepted` and the next token is read; otherwise `accepted` is reset and nothing is consumed |
| Parsing.ExpectAdvancesOne | parser/Parser.cs:59-67 | Expect succeeds exactly when the category is listed, always moves on by one token, and on a mismatch records exactly one syntax error, AddError's message at the unexpected token |
| Parsing.ExpectingMessageLists | parser/Parser.cs:69-77 | the message is "Expecting A or B, but found C" with the categories in order |
| Parsing.NoStatementConsumesNothing | parser/Parser.cs:173-175 | a token that starts no statement is reported as "Expecting a statement", yields a null statement and is not consumed |
| Parsing.IdentifierStartsAssignment | parser/Parser.cs:135-137 | a statement that starts with an identifier is an assignment to it |
| Parsing.InvalidAssignmentReportsTwice | parser/Parser.cs:138-143 | an identifier not followed by `:=` records the mismatch and then "Invalid assignment; expression expected" at the token after the skipped one, and the assignment has no expression |
| Parsing.StatementsMunch | parser/Parser.cs:101-118 | Statements yields at least one statement and stops at a token that starts none |
| Parsing.MoreStatementsStop | parser/Parser.cs:108-116 | the maximum munch loop stops only at a token that starts no statement |
| Parsing.NextTokenClassified | parser/Parser.cs:36-44 | reading on keeps the current token a scanner-classified token |
| Parsing.AcceptClassified | parser/Parser.cs:46-57 | Accept keeps the state classified |
| Parsing.ExpectClassified | parser/Parser.cs:59-67 | Expect keeps the state classified |
| Parsing.OperandShape | parser/Parser.cs:200-221 | when Operand reports no error it offered a literal or identifier, or a bracketed expression with its two brackets |
| Parsing.PhraseShape | parser/Parser.cs:186-198 | when BuildExpression reports no error it offered `! operand`, `operand` or `operand op operand` |
| Parsing.ExpressionBuildsPhrase | parser/Parser.cs:179-198 | an expression parsed without a syntax error is never refused by the builder and is the tree of the phrase read |
| Parsing.ParseConsumesEverything | parser/Parser.cs:25-33 | the corrected Parse reads the whole queue and moves past the last token, and a program with a first token yields at least one statement |
| Parsing.SingleTokenUnparsedAsWritten | parser/Parser.cs:25-33 | as written, a one-token program yields no statement and no error, whatever the token |
| Parsing.LoneAssignment | parser/Parser.cs:135-143 | an identifier before the end marker is an assignment without expression with both its errors at the end marker |
| Parsing.LoneIdentifierStatements | parser/Parser.cs:101-118 | the statement list of a lone identifier is that assignment followed by the missing `;` |
| Parsing.LoneTokenDropped | parser/Parser.cs:25-33 | as written, a program of one identifier parses to no statement and reports nothing; corrected, it is one assignment with three syntax errors |
| Parsing.ExpectingText | parser/Parser.cs:69-75 | the loop builds the message "Expecting A or B ..., but found C" |
| Parsing.Parser.constructor | parser/Parser.cs:8-23 | the parser holds the scanner and the container, with both tokens unset |
| Parsing.Parser.GetNextToken | parser/Parser.cs:36-44 | the state becomes NextTokenSpec's |
| Parsing.Parser.Accept | parser/Parser.cs:46-57 | the answer and the state are AcceptSpec's |
| Parsing.Parser.Expect | parser/Parser.cs:59-67 | the answer and the state are ExpectSpec's; only syntax errors are added |
| Parsing.Parser.AddError | parser/Parser.cs:69-77 | one syntax error with the expecting message is added at the current token, nothing else changes |
| Parsing.Parser.Recover | parser/Parser.cs:81-94 | recovery skips exactly one token |
| Parsing.Parser.Operand | parser/Parser.cs:200-221 | the tokens offered to the builder and the new state are OperandSpec's |
| Parsing.Parser.BuildExpression | parser/Parser.cs:186-198 | the tokens offered to the builder and the new state are BuildExpressionSpec's |
| Parsing.Parser.Expression | parser/Parser.cs:179-184 | the expression, or the builder's exception, and the state are ExpressionSpec's |
| Parsing.Parser.Statement | parser/Parser.cs:120-177 | the statement and the state are StatementSpec's |
| Parsing.Parser.DeclarationStatement | parser/Parser.cs:124-133 | the declaration and the state are DeclarationSpec's |
| Parsing.Parser.AssignmentStatement | parser/Parser.cs:135-143 | the assignment and the state are AssignmentSpec's |
| Parsing.Parser.ForLoopStatement | parser/Parser.cs:145-156 | the loop and the state are ForLoopSpec's |
| Parsing.Parser.ReadStatement | parser/Parser.cs:158-161 | the read and the state are ReadSpec's |
| Parsing.Parser.PrintStatement | parser/Parser.cs:163-165 | the print and the state are PrintSpec's |
| Parsing.Parser.AssertStatement | parser/Parser.cs:167-172 | the assert and the state are AssertSpec's |
| Parsing.Parser.Statements | parser/Parser.cs:101-118 | a fresh list holding StatementsSpec's statements, and its state |
| Parsing.Parser.Parse | parser/Parser.cs:25-33 | the statements of a fresh tree and the final state are the corrected ParseLoop's, or its fault |

## Left out

- Character classes: `Char.IsLetter`, `Char.IsDigit`, `Char.IsNumber` and `Char.IsWhiteSpace` are read as their ASCII subsets. Unicode categories are not modelled.
- Category names: `Scanner.cs`, `TypeSystem.cs` and `Interpreter.cs` use categories such as `Operator_Addition`, `Type_Integer` and `Literal_Boolean`, which `Category.cs` does not define. `Interpreter.cs:37` calls `TypeBindings.GetTypeFromCategory`, which `TypeBindings.cs` does not define. The model uses the categories of `Category.cs`. An operator's identity comes from its lexeme (`Operators.cs`), and a type's identity from the keyword of its `Type` token. The model's `TypeSystem.TypeCategory` pairs the `Type` category with the keyword `int`, `string` or `bool`.
- Assertion messages go to a `StreamWriter` over standard output that is never flushed (interpreter/Interpreter.cs:16, 140), so they may never appear. The model appends them to the `output` sequence as written.
- Console and stream I/O: `Main.cs`, `UI/UIWrapper.cs` and the reading of the program file are not part of this model. The input is a sequence of characters and the output a sequence of printed strings.
- .NET exceptions are `Fault` results carrying a fixed message. The message texts of the runtime's own exceptions (a failed cast, a missing key, a duplicate key, int.Parse) are paraphrased constants.
- TypeBindings.DecideType: requires that every declared type in the symbol table is one of the three type names. This leaves out `GetTypeByName` throwing for an unknown type name, which only a declaration parsed with errors can leave behind.
- Interpreting.Evaluate: has the same known-types precondition as TypeBindings.DecideType, for the same reason.
- Analyser.CheckStatement: has the same known-types precondition, and declared types not among the three type names are left out in the same way.
- The interpreter's private `ErrorContainer`: the type errors that `DecideType` records while evaluating are discarded, since nothing reads them.
- The builder's `errors` field: the source stores it and never uses it.
- ExpressionBuilding.YardOutput: the "Parethesis mismatch" exception is proved impossible only for expressions the parser read without a syntax error. Otherwise the model returns the fault, as the source throws.
- The parser's two token fields are null until `Parse` reads the first token. The model starts them as the error token, which nothing reads before it is overwritten.
- Chains of operators of equal precedence are not covered by any lemma. The builder reads its input right to left and pops on `>=`, so `a - b - c` would build `a - (b - c)`, although the source comment calls every operator left associative. The parser offers at most one binary operator per bracket level, so such chains never reach the builder.
- `bool.ToString()` gives `True` or `False`; `print` of a boolean uses those texts.
- `TypeModel.AddOperator`, `TypeModel.AddOperators`, `TypeBinding.AddOperator`, `TypeBinding.AddOperators` and `AddTypeBinding` are modelled as the constant tables they build at start-up. The building steps themselves are not modelled.
- The scanner's `peekChar` is written inline as checks on the stream position.
- `Literal_Boolean` leaves: the scanner never produces a boolean literal, so no model value starts from one.
- `Interpreter.cs` uses lower-case member names (`ast.statements`, `declaration.expression`) where the other files use capitalised ones. The model reads these as the same fields.
- Interpreting.Interpreter.RunLoop: follows the corrected loop, which stops after `high`. The as-written loop never ends when `high` is MaxInt32 (see Findings).
- Parsing.Parser.Parse: follows the corrected loop, which also parses the last token. The as-written loop is only the spec function `ParseAsWrittenSpec` (see Findings).

## Findings

| source | as written | input that shows it | evidently intended | confidence | as-written member | corrected member |
|---|---|---|---|---|---|---|
| interpreter/Interpreter.cs:53 | `for (int i = low; i <= high; i++)` with a 32-bit `i`: when `high` is Int32.MaxValue, `i++` wraps to Int32.MinValue and the condition stays true | `for i in 0..2147483647 do ... end for;` | the loop runs once for every counter value from low to high and then stops | not executed | Interpreting.CounterNeverPassesMaxInt | Interpreting.LoopRunsOncePerValue |
| parser/Parser.cs:25-33 | `Parse` loops while the scanner still has tokens. When a call of `Statements` returns to `Parse` with the queue empty and a token other than the end marker still current, that token is never parsed or reported | a program made of the single identifier `x`, or the `)` in `print 1; )` | parsing goes on until the current token is the end marker, so that every token is parsed or reported | not executed | Parsing.LoneTokenDropped, Parsing.SingleTokenUnparsedAsWritten | Parsing.ParseConsumesEverything |
