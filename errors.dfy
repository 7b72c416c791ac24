/** The error container shared by every stage (errors/ErrorContainer.cs): one
    list per error kind, created empty for each kind in enumeration order, so
    that every later addition finds its list. */
module Errors {
  import opened Util
  import opened Tokens

  datatype ErrorKind = LexicalError | SyntaxError | SemanticError | RuntimeError

  /** The members of the enumeration, in declaration order. */
  const Kinds: seq<ErrorKind> := [LexicalError, SyntaxError, SemanticError, RuntimeError]

  function KindName(k: ErrorKind): string {
    match k
    case LexicalError => "LexicalError"
    case SyntaxError => "SyntaxError"
    case SemanticError => "SemanticError"
    case RuntimeError => "RuntimeError"
  }

  lemma KindsComplete(k: ErrorKind)
    ensures k in Kinds
  {
  }

  /** One reported error: an optional token it is reported near, its kind, its message. */
  datatype ErrorEntry = ErrorEntry(nearToken: Option<Token>, kind: ErrorKind, message: string)

  /** The entry reported at a token. */
  function TokenEntry(token: Token, kind: ErrorKind, message: string): ErrorEntry {
    ErrorEntry(Some(token), kind, message)
  }

  /** The entry reported at a position: the "no token" token moved there. */
  function PositionEntry(line: int, column: int, kind: ErrorKind, message: string): ErrorEntry {
    ErrorEntry(Some(ErrorToken().(line := line, column := column)), kind, message)
  }

  /** The entry reported with no position at all. */
  function MessageEntry(kind: ErrorKind, message: string): ErrorEntry {
    ErrorEntry(None, kind, message)
  }

  /** ErrorEntry.ToString. */
  function EntryText(e: ErrorEntry): string {
    match e.nearToken
    case None => e.message
    case Some(t) =>
      "Error near " + (if t.category != Unclassified then "\"" + t.lexeme + "\" on " else "")
      + "line " + IntToString(t.line) + " column " + IntToString(t.column) + ": " + e.message
  }

  /** A real token is quoted in front of its position. */
  lemma TokenEntryText(token: Token, kind: ErrorKind, message: string)
    requires token.category != Unclassified
    ensures EntryText(TokenEntry(token, kind, message))
         == "Error near \"" + token.lexeme + "\" on line " + IntToString(token.line)
            + " column " + IntToString(token.column) + ": " + message
  {
  }

  /** A position error names no lexeme, only the line and column it was given. */
  lemma PositionEntryText(line: int, column: int, kind: ErrorKind, message: string)
    ensures PositionEntry(line, column, kind, message).nearToken.value.line == line
    ensures PositionEntry(line, column, kind, message).nearToken.value.column == column
    ensures EntryText(PositionEntry(line, column, kind, message))
         == "Error near line " + IntToString(line) + " column " + IntToString(column) + ": " + message
  {
  }

  /** An entry without a token prints as its bare message. */
  lemma MessageEntryText(kind: ErrorKind, message: string)
    ensures EntryText(MessageEntry(kind, message)) == message
  {
  }

  /** The lists of `kinds`, concatenated in that order. */
  function Concat(m: map<ErrorKind, seq<ErrorEntry>>, kinds: seq<ErrorKind>): seq<ErrorEntry>
    requires forall i :: 0 <= i < |kinds| ==> kinds[i] in m
  {
    if kinds == [] then [] else Concat(m, kinds[..|kinds| - 1]) + m[kinds[|kinds| - 1]]
  }

  /** Every kind has a list. */
  predicate Total(m: map<ErrorKind, seq<ErrorEntry>>) {
    forall k :: k in m
  }

  /** All errors: every kind's list, in the enumeration order the dictionary was filled in. */
  function AllErrors(m: map<ErrorKind, seq<ErrorEntry>>): seq<ErrorEntry>
    requires Total(m)
  {
    Concat(m, Kinds)
  }

  predicate NoDuplicates(kinds: seq<ErrorKind>) {
    forall i, j :: 0 <= i < j < |kinds| ==> kinds[i] != kinds[j]
  }

  /** An entry is among the concatenated errors exactly when it is in one of the lists. */
  lemma {:induction false} ConcatMembership(m: map<ErrorKind, seq<ErrorEntry>>, kinds: seq<ErrorKind>, e: ErrorEntry)
    requires forall i :: 0 <= i < |kinds| ==> kinds[i] in m
    ensures e in Concat(m, kinds) <==> exists i :: 0 <= i < |kinds| && e in m[kinds[i]]
  {
    if kinds != [] {
      var front := kinds[..|kinds| - 1];
      ConcatMembership(m, front, e);
      if e in Concat(m, kinds) && e !in m[kinds[|kinds| - 1]] {
        assert e in Concat(m, front);
        var i :| 0 <= i < |front| && e in m[front[i]];
        assert kinds[i] == front[i];
      }
      if exists i :: 0 <= i < |kinds| && e in m[kinds[i]] {
        var i :| 0 <= i < |kinds| && e in m[kinds[i]];
        if i < |front| {
          assert front[i] == kinds[i];
        }
      }
    }
  }

  /** Adding an entry to one kind's list adds exactly that entry to the concatenation. */
  lemma {:induction false} ConcatAfterAdd(m: map<ErrorKind, seq<ErrorEntry>>, kinds: seq<ErrorKind>, k: ErrorKind, e: ErrorEntry)
    requires forall i :: 0 <= i < |kinds| ==> kinds[i] in m
    requires k in m && NoDuplicates(kinds)
    ensures forall i :: 0 <= i < |kinds| ==> kinds[i] in m[k := m[k] + [e]]
    ensures multiset(Concat(m[k := m[k] + [e]], kinds))
         == multiset(Concat(m, kinds)) + (if k in kinds then multiset{e} else multiset{})
  {
    var m' := m[k := m[k] + [e]];
    if kinds != [] {
      var front := kinds[..|kinds| - 1];
      var last := kinds[|kinds| - 1];
      ConcatAfterAdd(m, front, k, e);
      assert k in kinds <==> k in front || k == last;
      if k == last {
        assert k !in front;
      }
    }
  }

  /** Every kind that can be named in the enumeration has its list. */
  lemma KindsNoDuplicates()
    ensures NoDuplicates(Kinds)
  {
  }

  class ErrorContainer {
    var errors: map<ErrorKind, seq<ErrorEntry>>

    /** Every kind has its list. */
    ghost predicate Valid()
      reads this
    {
      Total(errors)
    }

    /** One empty list per kind, added in enumeration order. */
    constructor ()
      ensures Valid()
      ensures forall k :: errors[k] == []
    {
      errors := map[];
      new;
      var i := 0;
      while i < |Kinds|
        invariant 0 <= i <= |Kinds|
        invariant forall k :: k in errors <==> k in Kinds[..i]
        invariant forall k :: k in errors ==> errors[k] == []
      {
        errors := errors[Kinds[i] := []];
        i := i + 1;
      }
      forall k | true
        ensures k in errors
      {
        KindsComplete(k);
        assert Kinds[..i] == Kinds;
      }
    }

    /** GetErrorsByType: the list of one kind; a kind without a list throws. */
    function ErrorsByType(kind: ErrorKind): (r: Outcome<seq<ErrorEntry>>)
      reads this
      ensures r.Ok? <==> kind in errors
      ensures kind in errors ==> r.value == errors[kind]
    {
      if kind in errors then Ok(errors[kind])
      else Fault("Could not find error list for error type " + KindName(kind))
    }

    /** A valid container never throws from GetErrorsByType. */
    lemma ValidErrorsByType(kind: ErrorKind)
      requires Valid()
      ensures ErrorsByType(kind).Ok?
    {
    }

    /** GetAllErrors: the lists of every kind, concatenated in enumeration order. */
    method GetAllErrors() returns (all: seq<ErrorEntry>)
      requires Valid()
      ensures all == AllErrors(errors)
    {
      all := [];
      var i := 0;
      while i < |Kinds|
        invariant 0 <= i <= |Kinds|
        invariant all == Concat(errors, Kinds[..i])
      {
        assert Kinds[..i + 1][..i] == Kinds[..i];
        all := all + errors[Kinds[i]];
        i := i + 1;
      }
      assert Kinds[..i] == Kinds;
    }

    /** AddError: append the entry to its kind's list; no other list changes. */
    method AddError(err: ErrorEntry)
      requires Valid()
      modifies this
      ensures Valid()
      ensures errors == old(errors)[err.kind := old(errors)[err.kind] + [err]]
    {
      errors := errors[err.kind := errors[err.kind] + [err]];
    }

    method AddTokenError(token: Token, kind: ErrorKind, message: string)
      requires Valid()
      modifies this
      ensures Valid()
      ensures errors == old(errors)[kind := old(errors)[kind] + [TokenEntry(token, kind, message)]]
    {
      AddError(TokenEntry(token, kind, message));
    }

    method AddPositionError(line: int, column: int, kind: ErrorKind, message: string)
      requires Valid()
      modifies this
      ensures Valid()
      ensures errors == old(errors)[kind := old(errors)[kind] + [PositionEntry(line, column, kind, message)]]
    {
      AddError(PositionEntry(line, column, kind, message));
    }

    method AddMessageError(kind: ErrorKind, message: string)
      requires Valid()
      modifies this
      ensures Valid()
      ensures errors == old(errors)[kind := old(errors)[kind] + [MessageEntry(kind, message)]]
    {
      AddError(MessageEntry(kind, message));
    }
  }

  /** After one AddError, GetAllErrors holds exactly one more entry: the one added. */
  lemma AllErrorsAfterAdd(m: map<ErrorKind, seq<ErrorEntry>>, e: ErrorEntry)
    requires Total(m)
    ensures Total(m[e.kind := m[e.kind] + [e]])
    ensures multiset(AllErrors(m[e.kind := m[e.kind] + [e]])) == multiset(AllErrors(m)) + multiset{e}
  {
    KindsNoDuplicates();
    ConcatAfterAdd(m, Kinds, e.kind, e);
    KindsComplete(e.kind);
  }

  /** GetAllErrors holds an entry exactly when some kind's list does. */
  lemma AllErrorsMembership(m: map<ErrorKind, seq<ErrorEntry>>, e: ErrorEntry)
    requires Total(m)
    ensures e in AllErrors(m) <==> exists k :: e in m[k]
  {
    ConcatMembership(m, Kinds, e);
    if exists k :: e in m[k] {
      var k :| e in m[k];
      KindsComplete(k);
      var i :| 0 <= i < |Kinds| && Kinds[i] == k;
      assert e in m[Kinds[i]];
    }
  }

  lemma {:induction false} ConcatOfEmpty(m: map<ErrorKind, seq<ErrorEntry>>, kinds: seq<ErrorKind>)
    requires forall i :: 0 <= i < |kinds| ==> kinds[i] in m && m[kinds[i]] == []
    ensures Concat(m, kinds) == []
  {
    if kinds != [] {
      ConcatOfEmpty(m, kinds[..|kinds| - 1]);
    }
  }

  /** The number of entries in the lists of `kinds`. */
  function TotalCount(m: map<ErrorKind, seq<ErrorEntry>>, kinds: seq<ErrorKind>): nat
    requires forall i :: 0 <= i < |kinds| ==> kinds[i] in m
  {
    if kinds == [] then 0 else TotalCount(m, kinds[..|kinds| - 1]) + |m[kinds[|kinds| - 1]]|
  }

  lemma {:induction false} ConcatCount(m: map<ErrorKind, seq<ErrorEntry>>, kinds: seq<ErrorKind>)
    requires forall i :: 0 <= i < |kinds| ==> kinds[i] in m
    ensures |Concat(m, kinds)| == TotalCount(m, kinds)
  {
    if kinds != [] {
      ConcatCount(m, kinds[..|kinds| - 1]);
    }
  }

  /** GetAllErrors holds as many entries as the four lists together. */
  lemma AllErrorsCount(m: map<ErrorKind, seq<ErrorEntry>>)
    requires Total(m)
    ensures |AllErrors(m)| == |m[LexicalError]| + |m[SyntaxError]| + |m[SemanticError]| + |m[RuntimeError]|
  {
    ConcatCount(m, Kinds);
    var k1, k2, k3 := [LexicalError], [LexicalError, SyntaxError], [LexicalError, SyntaxError, SemanticError];
    assert Kinds[..3] == k3 && k3[..2] == k2 && k2[..1] == k1 && k1[..0] == [];
    assert TotalCount(m, k1) == |m[LexicalError]|;
    assert TotalCount(m, k2) == TotalCount(m, k1) + |m[SyntaxError]|;
    assert TotalCount(m, k3) == TotalCount(m, k2) + |m[SemanticError]|;
    assert TotalCount(m, Kinds) == TotalCount(m, k3) + |m[RuntimeError]|;
  }

  /** A fresh container reports no errors at all. */
  lemma AllErrorsOfEmpty(m: map<ErrorKind, seq<ErrorEntry>>)
    requires Total(m) && forall k :: m[k] == []
    ensures AllErrors(m) == []
  {
    ConcatOfEmpty(m, Kinds);
  }
}
