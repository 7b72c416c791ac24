/** Tokens (models/Token.cs) and the one token category enumeration that the
    scanner and the parser agree on (the parser's models/Category.cs; the
    scanner's fine-grained operator categories are recovered from the lexeme). */
module Tokens {

  datatype Category =
    | Identifier
    | LiteralInteger
    | LiteralString
    | BinaryOperator
    | UnaryOperator
    | Assignment
    | Type
    | KeywordFor
    | KeywordIn
    | KeywordDo
    | KeywordVar
    | KeywordEnd
    | FunctionPrint
    | FunctionRead
    | FunctionAssert
    | Semicolon
    | Colon
    | LeftBracket
    | RightBracket
    | LoopRange
    | EndOfFile
    | Unclassified // the source's NONE: an invalid lexeme, or no token at all

  /** The text C# gives an enumeration member (Enum.ToString). */
  function CategoryName(c: Category): string {
    match c
    case Identifier => "Identifier"
    case LiteralInteger => "Literal_Integer"
    case LiteralString => "Literal_String"
    case BinaryOperator => "Binary_Operator"
    case UnaryOperator => "Unary_Operator"
    case Assignment => "Assignment"
    case Type => "Type"
    case KeywordFor => "Keyword_For"
    case KeywordIn => "Keyword_In"
    case KeywordDo => "Keyword_Do"
    case KeywordVar => "Keyword_Var"
    case KeywordEnd => "Keyword_End"
    case FunctionPrint => "Function_Print"
    case FunctionRead => "Function_Read"
    case FunctionAssert => "Function_Assert"
    case Semicolon => "Semicolon"
    case Colon => "Colon"
    case LeftBracket => "Left_Bracket"
    case RightBracket => "Rigth_Bracket"
    case LoopRange => "Loop_Range"
    case EndOfFile => "End_Of_File"
    case Unclassified => "NONE"
  }

  /** Distinct categories print differently, so an error message names the category exactly. */
  lemma CategoryNameInjective(a: Category, b: Category)
    ensures CategoryName(a) == CategoryName(b) ==> a == b
  {
  }

  /** A token is an immutable value; the constructor stores its four arguments. */
  datatype Token = Token(category: Category, lexeme: string, line: int, column: int)

  /** The token that stands for "no token". */
  function ErrorToken(): Token {
    Token(Unclassified, "", -1, -1)
  }

  /** Identifiers and literals are the operands of an expression. */
  predicate IsOperand(t: Token) {
    t.category == Identifier || t.category == LiteralString || t.category == LiteralInteger
  }

  /** Token.ToString. */
  function TokenText(t: Token): string {
    t.lexeme
  }

  /** The "no token" token is never an operand and carries no position. */
  lemma ErrorTokenIsNoOperand()
    ensures !IsOperand(ErrorToken())
    ensures ErrorToken().line == -1 && ErrorToken().column == -1 && TokenText(ErrorToken()) == ""
  {
  }
}
