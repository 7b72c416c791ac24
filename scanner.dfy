/** The scanner (scanner/Scanner.cs): it turns the whole character stream into a
    buffered token queue when it is constructed. The character stream is a
    sequence with a read position; the line/column cursor, the lexeme under
    construction and the token queue are the fields the C# class mutates.

    The functions ending in `Spec` state what each private method computes; the
    methods of class `Scanner` are proved to compute exactly that, and the
    lemmas below state what the source promises about the result. */
module Scanning {
  import opened Util
  import opened Tokens
  import Operators

  /** What `(char)charStream.Read()` gives at the end of the stream: (char)-1. */
  const EndOfStreamChar: char := '\U{FFFF}'

  /** The one-character lexemes (Scanner.cs:11-23). Operator characters get the
      binary or unary operator category that their lexeme has in Operators.cs. */
  function SimpleLexeme(c: char): Option<Category> {
    match c
    case '(' => Some(LeftBracket)
    case ')' => Some(RightBracket)
    case '<' => Some(BinaryOperator)
    case '=' => Some(BinaryOperator)
    case '&' => Some(BinaryOperator)
    case '!' => Some(UnaryOperator)
    case '+' => Some(BinaryOperator)
    case '*' => Some(BinaryOperator)
    case '/' => Some(BinaryOperator)
    case ';' => Some(Semicolon)
    case _ => None
  }

  const ReservedWords: map<string, Category> := map[
    "for" := KeywordFor,
    "do" := KeywordDo,
    "end" := KeywordEnd,
    "in" := KeywordIn,
    "var" := KeywordVar,
    "assert" := FunctionAssert,
    "print" := FunctionPrint,
    "read" := FunctionRead,
    "bool" := Type,
    "string" := Type,
    "int" := Type
  ]

  /** The operator characters of the table have the category their lexeme has in
      Operators.cs; `-` is an operator there but is not a simple lexeme here. */
  lemma SimpleLexemeOperatorsAgree(c: char)
    requires SimpleLexeme(c).Some?
    ensures SimpleLexeme(c).value == BinaryOperator <==> Operators.IsBinaryOperator([c])
    ensures SimpleLexeme(c).value == UnaryOperator <==> Operators.IsUnaryOperator([c])
  {
  }

  predicate IsBlank(c: char) {
    c == ' ' || c == '\t' || c == '\n'
  }

  /** The three conditions readLexeme hands to readWhile. */
  datatype RunKind = WordChars | Digits | NotQuotes

  predicate Accepts(kind: RunKind, c: char) {
    match kind
    case WordChars => IsLetterOrDigit(c)
    case Digits => IsDigit(c)
    case NotQuotes => c != '"'
  }

  /** What isValidIdentifier checks: a letter, then letters, digits or underscores. */
  predicate ValidIdentifier(s: string) {
    |s| >= 1 && IsLetter(s[0]) && IdentifierTail(s[1..])
  }

  /** Letters, digits and underscores only. */
  predicate IdentifierTail(s: string)
    decreases |s|
  {
    s == [] || ((IsLetterOrDigit(s[0]) || s[0] == '_') && IdentifierTail(s[1..]))
  }

  lemma {:induction false} IdentifierTailAll(s: string)
    ensures IdentifierTail(s) <==> forall i :: 0 <= i < |s| ==> IsLetterOrDigit(s[i]) || s[i] == '_'
    decreases |s|
  {
    if s != [] {
      IdentifierTailAll(s[1..]);
      assert forall i :: 1 <= i < |s| ==> s[i] == s[1..][i - 1];
    }
  }

  // ----- the cursor -----

  datatype Cursor = Cursor(pos: nat, line: int, column: int)

  /** updateCursor: a newline moves to column 1 of the next line, any other character one column right. */
  function Advance(line: int, column: int, c: char): (int, int) {
    if c == '\n' then (line + 1, 1) else (line, column + 1)
  }

  /** Line and column after reading `s` from the start of the stream. */
  function PositionAfter(s: seq<char>): (int, int)
    decreases |s|
  {
    if s == [] then (1, 1)
    else
      var p := PositionAfter(s[..|s| - 1]);
      Advance(p.0, p.1, s[|s| - 1])
  }

  function NewlineCount(s: seq<char>): nat
    decreases |s|
  {
    if s == [] then 0 else NewlineCount(s[..|s| - 1]) + (if s[|s| - 1] == '\n' then 1 else 0)
  }

  /** The number of characters after the last newline of `s`. */
  function LastLineLength(s: seq<char>): nat
    decreases |s|
  {
    if s == [] then 0 else if s[|s| - 1] == '\n' then 0 else LastLineLength(s[..|s| - 1]) + 1
  }

  /** The cursor is 1-based: the line is one more than the newlines read, the
      column one more than the characters read since the last newline. */
  lemma {:induction false} PositionAfterCounts(s: seq<char>)
    ensures PositionAfter(s) == (1 + NewlineCount(s), 1 + LastLineLength(s))
    decreases |s|
  {
    if s != [] {
      PositionAfterCounts(s[..|s| - 1]);
    }
  }

  /** A cursor that agrees with the characters read so far, wherever a character
      is still to be read (reading past the end moves the column but not the stream). */
  ghost predicate Consistent(input: seq<char>, cur: Cursor) {
    cur.pos <= |input| && (cur.pos < |input| ==> (cur.line, cur.column) == PositionAfter(input[..cur.pos]))
  }

  /** The end of the maximal run of characters accepted by `kind` that starts at `i`. */
  function RunEnd(input: seq<char>, i: nat, kind: RunKind): (e: nat)
    requires i <= |input|
    ensures i <= e <= |input|
    decreases |input| - i
  {
    if i < |input| && Accepts(kind, input[i]) then RunEnd(input, i + 1, kind) else i
  }

  /** Every character of the run is accepted. */
  lemma {:induction false} RunEndAccepted(input: seq<char>, i: nat, kind: RunKind)
    requires i <= |input|
    ensures forall k :: i <= k < RunEnd(input, i, kind) ==> Accepts(kind, input[k])
    decreases |input| - i
  {
    if i < |input| && Accepts(kind, input[i]) {
      RunEndAccepted(input, i + 1, kind);
    }
  }

  /** The run is maximal: it ends at the end of the stream or at a character not accepted. */
  lemma {:induction false} RunEndStops(input: seq<char>, i: nat, kind: RunKind)
    requires i <= |input|
    ensures var e := RunEnd(input, i, kind);
            e == |input| || !Accepts(kind, input[e])
    decreases |input| - i
  {
    if i < |input| && Accepts(kind, input[i]) {
      RunEndStops(input, i + 1, kind);
    }
  }

  // ----- specifications of the private methods -----

  /** nextChar: read one character (the end-of-stream character at the end, without moving). */
  function NextCharSpec(input: seq<char>, cur: Cursor): (r: (char, Cursor))
    requires cur.pos <= |input|
    ensures r.1.pos == if cur.pos < |input| then cur.pos + 1 else cur.pos
    ensures cur.pos < |input| ==> r.0 == input[cur.pos]
    ensures cur.pos == |input| ==> r.0 == EndOfStreamChar
  {
    var c := if cur.pos < |input| then input[cur.pos] else EndOfStreamChar;
    var p := Advance(cur.line, cur.column, c);
    (c, Cursor(if cur.pos < |input| then cur.pos + 1 else cur.pos, p.0, p.1))
  }

  /** skipBlank: the cursor after the blanks that follow it. */
  function SkipBlankSpec(input: seq<char>, cur: Cursor): (r: Cursor)
    requires cur.pos <= |input|
    ensures cur.pos <= r.pos <= |input|
    decreases |input| - cur.pos
  {
    if cur.pos < |input| && IsBlank(input[cur.pos]) then SkipBlankSpec(input, NextCharSpec(input, cur).1) else cur
  }

  /** readWhile: the longest run of characters accepted by `kind`, and the cursor after it. */
  function ReadWhileSpec(input: seq<char>, cur: Cursor, kind: RunKind): (r: (string, Cursor))
    requires cur.pos <= |input|
    ensures cur.pos <= r.1.pos <= |input|
    decreases |input| - cur.pos
  {
    if cur.pos < |input| && Accepts(kind, input[cur.pos]) then
      var n := NextCharSpec(input, cur);
      var rest := ReadWhileSpec(input, n.1, kind);
      ([n.0] + rest.0, rest.1)
    else ("", cur)
  }

  /** What readLexeme leaves in the scanner's fields. */
  datatype RawLexeme = RawLexeme(text: string, category: Category, line: int, column: int, next: Cursor)

  /** readLexeme: one lexeme, classified by its first character in the source's order of tests. */
  function ReadLexemeSpec(input: seq<char>, cur: Cursor): (r: RawLexeme)
    requires cur.pos < |input|
    ensures cur.pos < r.next.pos <= |input|
  {
    var first := NextCharSpec(input, cur);
    LexemeAfterFirst(input, first.0, first.1)
  }

  /** The rest of readLexeme, once its first character `current` has been read
      and the cursor stands at `c1`. */
  function LexemeAfterFirst(input: seq<char>, current: char, c1: Cursor): (r: RawLexeme)
    requires 0 < c1.pos <= |input|
    ensures c1.pos <= r.next.pos <= |input|
  {
    var line := c1.line;
    var column := c1.column - 1;
    if SimpleLexeme(current).Some? then
      RawLexeme([current], SimpleLexeme(current).value, line, column, c1)
    else if current == ':' then
      if c1.pos < |input| && input[c1.pos] == '=' then
        var second := NextCharSpec(input, c1);
        RawLexeme([current, second.0], Assignment, line, column, second.1)
      else
        RawLexeme([current], Colon, line, column, c1)
    else if IsLetter(current) then
      RunLexemeSpec(input, current, c1, WordChars, Unclassified)
    else if IsDigit(current) then
      RunLexemeSpec(input, current, c1, Digits, LiteralInteger)
    else if current == '"' then
      StringLexemeSpec(input, current, c1)
    else if current == '.' && c1.pos < |input| && input[c1.pos] == '.' then
      var second := NextCharSpec(input, c1);
      RawLexeme([current, second.0], LoopRange, line, column, second.1)
    else
      RawLexeme([current], Unclassified, line, column, c1)
  }

  /** A word or a number: the first character and the run readWhile reads after it. */
  function RunLexemeSpec(input: seq<char>, current: char, c1: Cursor, kind: RunKind, category: Category): (r: RawLexeme)
    requires c1.pos <= |input|
    ensures c1.pos <= r.next.pos <= |input|
  {
    var run := ReadWhileSpec(input, c1, kind);
    RawLexeme([current] + run.0, category, c1.line, c1.column - 1, run.1)
  }

  /** A string literal: the opening quote, the run of non-quotes, and one more character. */
  function StringLexemeSpec(input: seq<char>, current: char, c1: Cursor): (r: RawLexeme)
    requires c1.pos <= |input|
    ensures c1.pos <= r.next.pos <= |input|
  {
    var run := ReadWhileSpec(input, c1, NotQuotes);
    var close := NextCharSpec(input, run.1);
    RawLexeme([current] + run.0 + [close.0], LiteralString, c1.line, c1.column - 1, close.1)
  }

  /** decideCategory: keep a category readLexeme decided, else a reserved word's,
      else Identifier for a valid identifier, else the invalid-lexeme category. */
  function DecideCategorySpec(lexeme: string, category: Category): Category {
    if category != Unclassified then category
    else if lexeme in ReservedWords then ReservedWords[lexeme]
    else if ValidIdentifier(lexeme) then Identifier
    else Unclassified
  }

  /** scanNextToken: read a lexeme, skip the blanks after it, classify it. */
  function ScanNextTokenSpec(input: seq<char>, cur: Cursor): (r: (Token, Cursor))
    requires cur.pos < |input|
    ensures cur.pos < r.1.pos <= |input|
  {
    var raw := ReadLexemeSpec(input, cur);
    var next := SkipBlankSpec(input, raw.next);
    (Token(DecideCategorySpec(raw.text, raw.category), raw.text, raw.line, raw.column), next)
  }

  /** The constructor's loop: scan tokens until the stream ends. */
  function ScanLoop(input: seq<char>, cur: Cursor): seq<Token>
    requires cur.pos <= |input|
    decreases |input| - cur.pos
  {
    if cur.pos == |input| then []
    else
      var step := ScanNextTokenSpec(input, cur);
      [step.0] + ScanLoop(input, step.1)
  }

  lemma ScanLoopStep(input: seq<char>, cur: Cursor, token: Token, next: Cursor)
    requires cur.pos < |input| && (token, next) == ScanNextTokenSpec(input, cur)
    ensures ScanLoop(input, cur) == [token] + ScanLoop(input, next)
  {
  }

  const Start: Cursor := Cursor(0, 1, 1)

  /** The token queue the constructor builds from a character stream. */
  function Tokenize(input: seq<char>): seq<Token> {
    ScanLoop(input, SkipBlankSpec(input, Start))
  }

  /** The stream positions at which the tokens of ScanLoop begin. */
  function TokenStarts(input: seq<char>, cur: Cursor): seq<nat>
    requires cur.pos <= |input|
    decreases |input| - cur.pos
  {
    if cur.pos == |input| then [] else [cur.pos] + TokenStarts(input, ScanNextTokenSpec(input, cur).1)
  }

  // ----- what the scanner promises -----

  /** Skipping blanks passes only blanks and stops at the end or at a non-blank. */
  lemma {:induction false} SkipBlankStops(input: seq<char>, cur: Cursor)
    requires cur.pos <= |input|
    ensures var r := SkipBlankSpec(input, cur);
            (forall i :: cur.pos <= i < r.pos ==> IsBlank(input[i])) && (r.pos == |input| || !IsBlank(input[r.pos]))
    decreases |input| - cur.pos
  {
    if cur.pos < |input| && IsBlank(input[cur.pos]) {
      SkipBlankStops(input, NextCharSpec(input, cur).1);
    }
  }

  /** readWhile reads exactly the maximal run of characters satisfying its condition. */
  lemma {:induction false} ReadWhileIsRun(input: seq<char>, cur: Cursor, kind: RunKind)
    requires cur.pos <= |input|
    ensures var r := ReadWhileSpec(input, cur, kind);
            r.1.pos == RunEnd(input, cur.pos, kind) && r.0 == input[cur.pos..r.1.pos]
    decreases |input| - cur.pos
  {
    if cur.pos < |input| && Accepts(kind, input[cur.pos]) {
      var n := NextCharSpec(input, cur);
      ReadWhileIsRun(input, n.1, kind);
      var r := ReadWhileSpec(input, n.1, kind);
      assert [input[cur.pos]] + input[n.1.pos..r.1.pos] == input[cur.pos..r.1.pos];
    }
  }

  lemma NextCharKeepsConsistent(input: seq<char>, cur: Cursor)
    requires Consistent(input, cur)
    ensures Consistent(input, NextCharSpec(input, cur).1)
  {
    if cur.pos < |input| {
      assert input[..cur.pos + 1][..cur.pos] == input[..cur.pos];
    }
  }

  lemma {:induction false} SkipBlankKeepsConsistent(input: seq<char>, cur: Cursor)
    requires Consistent(input, cur)
    ensures Consistent(input, SkipBlankSpec(input, cur))
    decreases |input| - cur.pos
  {
    if cur.pos < |input| && IsBlank(input[cur.pos]) {
      NextCharKeepsConsistent(input, cur);
      SkipBlankKeepsConsistent(input, NextCharSpec(input, cur).1);
    }
  }

  lemma {:induction false} ReadWhileKeepsConsistent(input: seq<char>, cur: Cursor, kind: RunKind)
    requires Consistent(input, cur)
    ensures Consistent(input, ReadWhileSpec(input, cur, kind).1)
    decreases |input| - cur.pos
  {
    if cur.pos < |input| && Accepts(kind, input[cur.pos]) {
      NextCharKeepsConsistent(input, cur);
      ReadWhileKeepsConsistent(input, NextCharSpec(input, cur).1, kind);
    }
  }

  lemma ReadLexemeKeepsConsistent(input: seq<char>, cur: Cursor)
    requires Consistent(input, cur) && cur.pos < |input|
    ensures Consistent(input, ReadLexemeSpec(input, cur).next)
  {
    var first := NextCharSpec(input, cur);
    var c1 := first.1;
    NextCharKeepsConsistent(input, cur);
    NextCharKeepsConsistent(input, c1);
    ReadWhileKeepsConsistent(input, c1, WordChars);
    ReadWhileKeepsConsistent(input, c1, Digits);
    ReadWhileKeepsConsistent(input, c1, NotQuotes);
    NextCharKeepsConsistent(input, ReadWhileSpec(input, c1, NotQuotes).1);
  }

  /** Every lexeme begins with the character it was read from. */
  lemma LexemeStartsWithFirst(input: seq<char>, cur: Cursor)
    requires cur.pos < |input|
    ensures var raw := ReadLexemeSpec(input, cur);
            |raw.text| >= 1 && raw.text[0] == input[cur.pos]
  {
  }

  /** A token scanned at a non-newline character carries the cursor position of that character. */
  lemma TokenAtCursor(input: seq<char>, cur: Cursor)
    requires cur.pos < |input| && input[cur.pos] != '\n'
    ensures var t := ScanNextTokenSpec(input, cur).0;
            t.line == cur.line && t.column == cur.column && |t.lexeme| >= 1 && t.lexeme[0] == input[cur.pos]
  {
    LexemeStartsWithFirst(input, cur);
  }

  /** Every token of the scan loop starts at a non-blank character, later than the
      previous token, and carries the 1-based line and column of that character. */
  lemma {:induction false} ScanLoopPositions(input: seq<char>, cur: Cursor)
    requires Consistent(input, cur) && (cur.pos == |input| || !IsBlank(input[cur.pos]))
    ensures var toks := ScanLoop(input, cur);
            var starts := TokenStarts(input, cur);
            |toks| == |starts|
            && (forall i :: 0 <= i < |toks| ==>
                  cur.pos <= starts[i] < |input| && !IsBlank(input[starts[i]])
                  && |toks[i].lexeme| >= 1 && toks[i].lexeme[0] == input[starts[i]]
                  && (toks[i].line, toks[i].column) == PositionAfter(input[..starts[i]]))
            && (forall i, j :: 0 <= i < j < |starts| ==> starts[i] < starts[j])
    decreases |input| - cur.pos
  {
    if cur.pos < |input| {
      var raw := ReadLexemeSpec(input, cur);
      var next := ScanNextTokenSpec(input, cur).1;
      ReadLexemeKeepsConsistent(input, cur);
      SkipBlankKeepsConsistent(input, raw.next);
      SkipBlankStops(input, raw.next);
      TokenAtCursor(input, cur);
      ScanLoopPositions(input, next);
    }
  }

  /** The tokens of a whole stream, with their start positions. */
  lemma TokenizePositions(input: seq<char>)
    ensures var cur := SkipBlankSpec(input, Start);
            var toks := Tokenize(input);
            var starts := TokenStarts(input, cur);
            |toks| == |starts|
            && (forall i :: 0 <= i < |toks| ==>
                  starts[i] < |input| && !IsBlank(input[starts[i]])
                  && |toks[i].lexeme| >= 1 && toks[i].lexeme[0] == input[starts[i]]
                  && (toks[i].line, toks[i].column) == PositionAfter(input[..starts[i]]))
            && (forall i, j :: 0 <= i < j < |starts| ==> starts[i] < starts[j])
  {
    SkipBlankKeepsConsistent(input, Start);
    SkipBlankStops(input, Start);
    ScanLoopPositions(input, SkipBlankSpec(input, Start));
  }

  /** Every token consumes at least one character: never more tokens than characters. */
  lemma {:induction false} ScanLoopCount(input: seq<char>, cur: Cursor)
    requires cur.pos <= |input|
    ensures |ScanLoop(input, cur)| <= |input| - cur.pos
    decreases |input| - cur.pos
  {
    if cur.pos < |input| {
      ScanLoopCount(input, ScanNextTokenSpec(input, cur).1);
    }
  }

  lemma TokenizeCount(input: seq<char>)
    ensures |Tokenize(input)| <= |input|
  {
    ScanLoopCount(input, SkipBlankSpec(input, Start));
  }

  /** A token whose operator or bracket category agrees with its lexeme: what the
      expression builder relies on when it ranks and matches the tokens it is offered. */
  predicate Classified(t: Token) {
    (t.category == BinaryOperator ==> Operators.IsBinaryOperator(t.lexeme))
    && (t.category == UnaryOperator ==> Operators.IsUnaryOperator(t.lexeme))
    && (t.category == RightBracket ==> t.lexeme == ")")
  }

  /** Only the one-character lexemes are given an operator or bracket category by readLexeme. */
  lemma RawOperatorIsSimple(input: seq<char>, current: char, c1: Cursor)
    requires 0 < c1.pos <= |input|
    ensures var r := LexemeAfterFirst(input, current, c1);
            r.category == BinaryOperator || r.category == UnaryOperator || r.category == RightBracket
            ==> r.text == [current] && SimpleLexeme(current) == Some(r.category)
  {
  }

  /** Every scanned token is classified: no reserved word is an operator or a bracket. */
  lemma ScannedTokenClassified(input: seq<char>, cur: Cursor)
    requires cur.pos < |input|
    ensures Classified(ScanNextTokenSpec(input, cur).0)
  {
    var first := NextCharSpec(input, cur);
    RawOperatorIsSimple(input, first.0, first.1);
    var raw := ReadLexemeSpec(input, cur);
    if raw.category == BinaryOperator || raw.category == UnaryOperator || raw.category == RightBracket {
      SimpleLexemeOperatorsAgree(first.0);
    }
    assert forall w :: w in ReservedWords ==>
      ReservedWords[w] != BinaryOperator && ReservedWords[w] != UnaryOperator && ReservedWords[w] != RightBracket;
  }

  lemma {:induction false} ScanLoopClassified(input: seq<char>, cur: Cursor)
    requires cur.pos <= |input|
    ensures var toks := ScanLoop(input, cur);
            forall i :: 0 <= i < |toks| ==> Classified(toks[i])
    decreases |input| - cur.pos
  {
    if cur.pos < |input| {
      var step := ScanNextTokenSpec(input, cur);
      ScannedTokenClassified(input, cur);
      ScanLoopClassified(input, step.1);
      ScanLoopStep(input, cur, step.0, step.1);
    }
  }

  /** The scanner's whole token queue is classified. */
  lemma TokenizeClassified(input: seq<char>)
    ensures forall i :: 0 <= i < |Tokenize(input)| ==> Classified(Tokenize(input)[i])
  {
    var cur := SkipBlankSpec(input, Start);
    ScanLoopClassified(input, cur);
    assert Tokenize(input) == ScanLoop(input, cur);
  }

  // Classification of the token that starts at `cur`, by its first character.

  lemma SimpleLexemeToken(input: seq<char>, cur: Cursor)
    requires cur.pos < |input| && SimpleLexeme(input[cur.pos]).Some?
    ensures var t := ScanNextTokenSpec(input, cur).0;
            t.lexeme == [input[cur.pos]] && t.category == SimpleLexeme(input[cur.pos]).value
  {
  }

  lemma ColonToken(input: seq<char>, cur: Cursor)
    requires cur.pos < |input| && input[cur.pos] == ':'
    ensures var t := ScanNextTokenSpec(input, cur).0;
            if cur.pos + 1 < |input| && input[cur.pos + 1] == '=' then t.lexeme == ":=" && t.category == Assignment
            else t.lexeme == ":" && t.category == Colon
  {
  }

  /** The letter branch of readLexeme. */
  lemma LetterBranch(input: seq<char>, cur: Cursor)
    requires cur.pos < |input| && IsLetter(input[cur.pos])
    ensures ReadLexemeSpec(input, cur) == RunLexemeSpec(input, input[cur.pos], NextCharSpec(input, cur).1, WordChars, Unclassified)
  {
    assert SimpleLexeme(input[cur.pos]).None?;
  }

  /** The digit branch of readLexeme. */
  lemma DigitBranch(input: seq<char>, cur: Cursor)
    requires cur.pos < |input| && IsDigit(input[cur.pos])
    ensures ReadLexemeSpec(input, cur) == RunLexemeSpec(input, input[cur.pos], NextCharSpec(input, cur).1, Digits, LiteralInteger)
  {
    assert SimpleLexeme(input[cur.pos]).None?;
  }

  /** The quote branch of readLexeme. */
  lemma QuoteBranch(input: seq<char>, cur: Cursor)
    requires cur.pos < |input| && input[cur.pos] == '"'
    ensures ReadLexemeSpec(input, cur) == StringLexemeSpec(input, input[cur.pos], NextCharSpec(input, cur).1)
  {
  }

  /** The letter, digit and quote branches of readLexeme. */
  lemma BranchOfFirst(input: seq<char>, cur: Cursor)
    requires cur.pos < |input|
    ensures var c := input[cur.pos];
            var c1 := NextCharSpec(input, cur).1;
            var raw := ReadLexemeSpec(input, cur);
            (IsLetter(c) ==> raw == RunLexemeSpec(input, c, c1, WordChars, Unclassified))
            && (IsDigit(c) ==> raw == RunLexemeSpec(input, c, c1, Digits, LiteralInteger))
            && (c == '"' ==> raw == StringLexemeSpec(input, c, c1))
  {
    var c := input[cur.pos];
    if IsLetter(c) {
      LetterBranch(input, cur);
    } else if IsDigit(c) {
      DigitBranch(input, cur);
    } else if c == '"' {
      QuoteBranch(input, cur);
    }
  }

  lemma ConsSlice(s: seq<char>, i: nat, e: nat)
    requires i < e <= |s|
    ensures [s[i]] + s[i + 1..e] == s[i..e]
  {
  }

  lemma SnocSlice(s: seq<char>, i: nat, e: nat)
    requires i <= e < |s|
    ensures s[i..e] + [s[e]] == s[i..e + 1]
  {
  }

  /** A digit followed by digits is a digit string. */
  lemma RunIsNumber(input: seq<char>, i: nat, e: nat)
    requires i < e <= |input| && IsDigit(input[i])
    requires forall k :: i + 1 <= k < e ==> Accepts(Digits, input[k])
    ensures AllDigits(input[i..e])
  {
    assert forall k :: 0 <= k < e - i ==> input[i..e][k] == input[i + k];
  }

  /** A letter followed by letters and digits is a valid identifier. */
  lemma RunIsWord(input: seq<char>, i: nat, e: nat)
    requires i < e <= |input| && IsLetter(input[i])
    requires forall k :: i + 1 <= k < e ==> Accepts(WordChars, input[k])
    ensures ValidIdentifier(input[i..e])
  {
    var w := input[i..e];
    IdentifierTailAll(w[1..]);
    assert forall k :: 0 <= k < |w[1..]| ==> w[1..][k] == input[i + 1 + k];
  }

  /** The raw lexeme of a run branch: the first character and the maximal run after it. */
  lemma RunRaw(input: seq<char>, cur: Cursor, kind: RunKind, category: Category)
    requires cur.pos < |input|
    ensures var raw := RunLexemeSpec(input, input[cur.pos], NextCharSpec(input, cur).1, kind, category);
            raw.text == input[cur.pos..RunEnd(input, cur.pos + 1, kind)] && raw.category == category
  {
    ReadWhileIsRun(input, NextCharSpec(input, cur).1, kind);
    ConsSlice(input, cur.pos, RunEnd(input, cur.pos + 1, kind));
  }

  /** A word: a letter and the letters and digits after it, a valid identifier. */
  lemma WordRaw(input: seq<char>, cur: Cursor)
    requires cur.pos < |input| && IsLetter(input[cur.pos])
    ensures var raw := RunLexemeSpec(input, input[cur.pos], NextCharSpec(input, cur).1, WordChars, Unclassified);
            raw.text == input[cur.pos..RunEnd(input, cur.pos + 1, WordChars)] && raw.category == Unclassified
            && ValidIdentifier(raw.text)
  {
    RunRaw(input, cur, WordChars, Unclassified);
    RunEndAccepted(input, cur.pos + 1, WordChars);
    RunIsWord(input, cur.pos, RunEnd(input, cur.pos + 1, WordChars));
  }

  /** A number: a digit and the digits after it. */
  lemma NumberRaw(input: seq<char>, cur: Cursor)
    requires cur.pos < |input| && IsDigit(input[cur.pos])
    ensures var raw := RunLexemeSpec(input, input[cur.pos], NextCharSpec(input, cur).1, Digits, LiteralInteger);
            raw.text == input[cur.pos..RunEnd(input, cur.pos + 1, Digits)] && raw.category == LiteralInteger
            && AllDigits(raw.text)
  {
    RunRaw(input, cur, Digits, LiteralInteger);
    RunEndAccepted(input, cur.pos + 1, Digits);
    RunIsNumber(input, cur.pos, RunEnd(input, cur.pos + 1, Digits));
  }

  /** The text of a string lexeme, from its pieces: the quote at `p`, the run of
      non-quotes up to `e`, and the character read after the run. */
  lemma StringText(input: seq<char>, p: nat, e: nat, run: string, close: char)
    requires p < e <= |input| && run == input[p + 1..e]
    requires e < |input| ==> close == input[e]
    requires e == |input| ==> close == EndOfStreamChar
    ensures e < |input| ==> [input[p]] + run + [close] == input[p..e + 1]
    ensures e == |input| ==> [input[p]] + run + [close] == input[p..|input|] + [EndOfStreamChar]
  {
    ConsSlice(input, p, e);
    if e < |input| {
      SnocSlice(input, p, e);
    }
  }

  /** A closed string literal runs through its closing quote. */
  lemma ClosedStringRaw(input: seq<char>, cur: Cursor, e: nat)
    requires cur.pos < |input| && e == RunEnd(input, cur.pos + 1, NotQuotes) && e < |input|
    ensures StringLexemeSpec(input, input[cur.pos], NextCharSpec(input, cur).1).text == input[cur.pos..e + 1]
    ensures input[e] == '"'
  {
    var c1 := NextCharSpec(input, cur).1;
    var run := ReadWhileSpec(input, c1, NotQuotes);
    var close := NextCharSpec(input, run.1);
    assert StringLexemeSpec(input, input[cur.pos], c1).text == [input[cur.pos]] + run.0 + [close.0];
    ReadWhileIsRun(input, c1, NotQuotes);
    assert run.1.pos == e;
    assert run.0 == input[cur.pos + 1..e];
    StringText(input, cur.pos, e, run.0, close.0);
    RunEndStops(input, cur.pos + 1, NotQuotes);
  }

  /** An unclosed string literal takes the rest of the stream and the end-of-stream character. */
  lemma UnclosedStringRaw(input: seq<char>, cur: Cursor, e: nat)
    requires cur.pos < |input| && e == RunEnd(input, cur.pos + 1, NotQuotes) && e == |input|
    ensures StringLexemeSpec(input, input[cur.pos], NextCharSpec(input, cur).1).text == input[cur.pos..|input|] + [EndOfStreamChar]
  {
    var c1 := NextCharSpec(input, cur).1;
    var run := ReadWhileSpec(input, c1, NotQuotes);
    var close := NextCharSpec(input, run.1);
    assert StringLexemeSpec(input, input[cur.pos], c1).text == [input[cur.pos]] + run.0 + [close.0];
    ReadWhileIsRun(input, c1, NotQuotes);
    assert run.1.pos == e;
    assert run.0 == input[cur.pos + 1..e];
    StringText(input, cur.pos, e, run.0, close.0);
  }

  /** The token of a raw lexeme. */
  lemma TokenOfRaw(input: seq<char>, cur: Cursor)
    requires cur.pos < |input|
    ensures var raw := ReadLexemeSpec(input, cur);
            ScanNextTokenSpec(input, cur).0 == Token(DecideCategorySpec(raw.text, raw.category), raw.text, raw.line, raw.column)
  {
  }

  /** decideCategory on a valid identifier: a reserved word's category, else Identifier. */
  lemma WordCategory(w: string)
    requires ValidIdentifier(w)
    ensures DecideCategorySpec(w, Unclassified) == if w in ReservedWords then ReservedWords[w] else Identifier
  {
  }

  /** A letter starts the maximal run of letters and digits; it is a reserved word
      or an identifier, never an invalid lexeme. */
  lemma WordToken(input: seq<char>, cur: Cursor)
    requires cur.pos < |input| && IsLetter(input[cur.pos])
    ensures var t := ScanNextTokenSpec(input, cur).0;
            t.lexeme == input[cur.pos..RunEnd(input, cur.pos + 1, WordChars)]
            && t.category == (if t.lexeme in ReservedWords then ReservedWords[t.lexeme] else Identifier)
  {
    LetterBranch(input, cur);
    WordRaw(input, cur);
    TokenOfRaw(input, cur);
    WordCategory(input[cur.pos..RunEnd(input, cur.pos + 1, WordChars)]);
  }

  /** A digit starts the maximal run of digits, an integer literal. */
  lemma NumberToken(input: seq<char>, cur: Cursor)
    requires cur.pos < |input| && IsDigit(input[cur.pos])
    ensures var t := ScanNextTokenSpec(input, cur).0;
            t.lexeme == input[cur.pos..RunEnd(input, cur.pos + 1, Digits)]
            && AllDigits(t.lexeme) && t.category == LiteralInteger
  {
    DigitBranch(input, cur);
    NumberRaw(input, cur);
    TokenOfRaw(input, cur);
  }

  /** A quote starts a string literal: through the next quote inclusive, quotes
      kept and nothing escaped; an unclosed one takes the rest of the stream and
      ends in the end-of-stream character. */
  lemma StringToken(input: seq<char>, cur: Cursor)
    requires cur.pos < |input| && input[cur.pos] == '"'
    ensures var t := ScanNextTokenSpec(input, cur).0;
            var e := RunEnd(input, cur.pos + 1, NotQuotes);
            t.category == LiteralString
            && (e < |input| ==> t.lexeme == input[cur.pos..e + 1] && input[e] == '"')
            && (e == |input| ==> t.lexeme == input[cur.pos..|input|] + [EndOfStreamChar])
  {
    var e := RunEnd(input, cur.pos + 1, NotQuotes);
    QuoteBranch(input, cur);
    TokenOfRaw(input, cur);
    if e < |input| {
      ClosedStringRaw(input, cur, e);
    } else {
      UnclosedStringRaw(input, cur, e);
    }
  }

  /** Two dots are a loop range; a lone dot is an invalid lexeme. */
  lemma DotToken(input: seq<char>, cur: Cursor)
    requires cur.pos < |input| && input[cur.pos] == '.'
    ensures var t := ScanNextTokenSpec(input, cur).0;
            if cur.pos + 1 < |input| && input[cur.pos + 1] == '.' then t.lexeme == ".." && t.category == LoopRange
            else t.lexeme == "." && t.category == Unclassified
  {
  }

  /** Any other character (a minus sign among them) is a one-character invalid lexeme. */
  lemma OtherToken(input: seq<char>, cur: Cursor)
    requires cur.pos < |input|
    requires var c := input[cur.pos];
             SimpleLexeme(c).None? && c != ':' && !IsLetter(c) && !IsDigit(c) && c != '"' && c != '.'
    ensures var t := ScanNextTokenSpec(input, cur).0;
            t.lexeme == [input[cur.pos]] && t.category == Unclassified
  {
    assert forall w :: w in ReservedWords ==> |w| >= 2;
  }

  // ----- the scanner object -----

  class Scanner {
    const input: seq<char>
    var pos: nat
    var line: int
    var column: int
    var lexeme: string
    var category: Category
    var lexemeBeginLine: int
    var lexemeBeginColumn: int
    var tokenBuffer: seq<Token>

    ghost predicate Valid()
      reads this
    {
      pos <= |input|
    }

    ghost function Here(): Cursor
      reads this
    {
      Cursor(pos, line, column)
    }

    /** Scan the whole stream into the token queue. */
    constructor (charStream: seq<char>)
      ensures Valid() && input == charStream && pos == |charStream|
      ensures tokenBuffer == Tokenize(charStream)
    {
      input := charStream;
      pos, line, column := 0, 1, 1;
      lexeme, category := "", Unclassified;
      lexemeBeginLine, lexemeBeginColumn := -1, -1;
      tokenBuffer := [];
      new;
      SkipBlank();
      ScanAll();
    }

    /** The constructor's loop: scan and enqueue tokens until the stream ends. */
    method ScanAll()
      requires Valid()
      modifies this`pos, this`line, this`column, this`lexeme, this`category, this`lexemeBeginLine, this`lexemeBeginColumn, this`tokenBuffer
      ensures Valid() && pos == |input|
      ensures tokenBuffer == old(tokenBuffer) + ScanLoop(input, old(Here()))
    {
      while pos < |input|
        invariant Valid()
        invariant tokenBuffer + ScanLoop(input, Here()) == old(tokenBuffer) + ScanLoop(input, old(Here()))
        decreases |input| - pos
      {
        ghost var before := Here();
        var token := ScanNextToken();
        ScanLoopStep(input, before, token, Here());
        AppendAssoc(tokenBuffer, [token], ScanLoop(input, Here()));
        tokenBuffer := tokenBuffer + [token];
      }
    }

    /** Dequeue the next token; an empty queue throws. */
    method Next() returns (r: Outcome<Token>)
      modifies this`tokenBuffer
      ensures old(tokenBuffer) == [] ==> r.Fault? && tokenBuffer == old(tokenBuffer)
      ensures old(tokenBuffer) != [] ==> r == Ok(old(tokenBuffer)[0]) && tokenBuffer == old(tokenBuffer)[1..]
    {
      if !HasNext() {
        return Fault("Scanner has no more tokens");
      }
      r := Ok(tokenBuffer[0]);
      tokenBuffer := tokenBuffer[1..];
    }

    /** The next token without dequeuing it; an empty queue throws. */
    method Peek() returns (r: Outcome<Token>)
      ensures tokenBuffer == [] <==> r.Fault?
      ensures tokenBuffer != [] ==> r == Ok(tokenBuffer[0])
    {
      if !HasNext() {
        return Fault("Scanner has no more tokens");
      }
      r := Ok(tokenBuffer[0]);
    }

    predicate HasNext()
      reads this
    {
      |tokenBuffer| > 0
    }

    method ScanNextToken() returns (token: Token)
      requires Valid() && pos < |input|
      modifies this`pos, this`line, this`column, this`lexeme, this`category, this`lexemeBeginLine, this`lexemeBeginColumn
      ensures Valid()
      ensures (token, Here()) == ScanNextTokenSpec(input, old(Here()))
    {
      lexeme := "";
      category := Unclassified;
      lexemeBeginLine := -1;
      lexemeBeginColumn := -1;
      ReadLexeme();
      SkipBlank();
      DecideCategory();
      token := Token(category, lexeme, lexemeBeginLine, lexemeBeginColumn);
    }

    method ReadLexeme()
      requires Valid() && pos < |input| && lexeme == "" && category == Unclassified
      modifies this`pos, this`line, this`column, this`lexeme, this`category, this`lexemeBeginLine, this`lexemeBeginColumn
      ensures Valid()
      ensures ReadLexemeSpec(input, old(Here())) == RawLexeme(lexeme, category, lexemeBeginLine, lexemeBeginColumn, Here())
    {
      ghost var start := Here();
      BranchOfFirst(input, start);
      var current := NextChar();
      lexeme := lexeme + [current];
      lexemeBeginColumn := column - 1;
      lexemeBeginLine := line;
      if SimpleLexeme(current).Some? {
        category := SimpleLexeme(current).value;
      } else if current == ':' {
        if pos < |input| && input[pos] == '=' {
          category := Assignment;
          var c := NextChar();
          lexeme := lexeme + [c];
        } else {
          category := Colon;
        }
      } else if IsLetter(current) {
        ReadWhile(WordChars);
      } else if IsDigit(current) {
        category := LiteralInteger;
        ReadWhile(Digits);
      } else if current == '"' {
        category := LiteralString;
        ReadWhile(NotQuotes);
        var c := NextChar();
        lexeme := lexeme + [c];
      } else if current == '.' {
        if pos < |input| && input[pos] == '.' {
          category := LoopRange;
          var c := NextChar();
          lexeme := lexeme + [c];
        }
      }
    }

    method DecideCategory()
      modifies this`category
      ensures category == DecideCategorySpec(lexeme, old(category))
    {
      if category != Unclassified {
        return;
      } else if lexeme in ReservedWords {
        category := ReservedWords[lexeme];
      } else {
        var valid := IsValidIdentifier(lexeme);
        if valid {
          category := Identifier;
        } else {
          category := Unclassified;
        }
      }
    }

    method SkipBlank()
      requires Valid()
      modifies this`pos, this`line, this`column
      ensures Valid()
      ensures Here() == SkipBlankSpec(input, old(Here()))
    {
      while pos < |input|
        invariant Valid()
        invariant SkipBlankSpec(input, Here()) == SkipBlankSpec(input, old(Here()))
        decreases |input| - pos
      {
        if IsBlank(input[pos]) {
          var _ := NextChar();
          continue;
        } else {
          break;
        }
      }
    }

    method NextChar() returns (c: char)
      requires Valid()
      modifies this`pos, this`line, this`column
      ensures Valid()
      ensures (c, Here()) == NextCharSpec(input, old(Here()))
    {
      if pos < |input| {
        c := input[pos];
        pos := pos + 1;
      } else {
        c := EndOfStreamChar;
      }
      UpdateCursor(c);
    }

    method UpdateCursor(c: char)
      modifies this`line, this`column
      ensures (line, column) == Advance(old(line), old(column), c)
    {
      if c == '\n' {
        line := line + 1;
        column := 1;
      } else {
        column := column + 1;
      }
    }

    method ReadWhile(kind: RunKind)
      requires Valid()
      modifies this`pos, this`line, this`column, this`lexeme
      ensures Valid()
      ensures var r := ReadWhileSpec(input, old(Here()), kind);
              lexeme == old(lexeme) + r.0 && Here() == r.1
    {
      ghost var whole := ReadWhileSpec(input, Here(), kind);
      while pos < |input| && Accepts(kind, input[pos])
        invariant Valid()
        invariant lexeme + ReadWhileSpec(input, Here(), kind).0 == old(lexeme) + whole.0
        invariant ReadWhileSpec(input, Here(), kind).1 == whole.1
        decreases |input| - pos
      {
        ghost var before := Here();
        var c := NextChar();
        ghost var rest := ReadWhileSpec(input, Here(), kind).0;
        assert ReadWhileSpec(input, before, kind).0 == [c] + rest;
        AppendAssoc(lexeme, [c], rest);
        lexeme := lexeme + [c];
      }
    }

    /** isValidIdentifier: its loop checks every character after the first. */
    method IsValidIdentifier(s: string) returns (valid: bool)
      ensures valid == ValidIdentifier(s)
    {
      if |s| < 1 || !IsLetter(s[0]) {
        return false;
      }
      for i := 1 to |s|
        invariant IdentifierTail(s[1..]) == IdentifierTail(s[i..])
      {
        var c := s[i];
        assert s[i..][1..] == s[i + 1..];
        if !(IsLetterOrDigit(c) || c == '_') {
          return false;
        }
      }
      return true;
    }
  }
}
