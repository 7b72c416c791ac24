/** The symbol table (models/SymbolTable.cs): a dictionary from variable name to
    its declared type name and current value, and a stack of the names that an
    enclosing for loop has locked. Variables are keyed by lexeme, so two tokens
    with the same text denote the same variable wherever they occur. */
module Symbols {
  import opened Util
  import opened Tokens
  import opened Values

  /** SymbolTableEntry: the declared type name and the (possibly null) value. */
  datatype Entry = Entry(variableType: string, value: Option<Value>)

  /** The unit result of an operation that may throw. */
  type Done = Outcome<()>

  class SymbolTable {
    var symbols: map<string, Entry>
    /** The lock stack; its top is the last element. */
    var locks: seq<string>

    constructor ()
      ensures symbols == map[] && locks == []
    {
      symbols := map[];
      locks := [];
    }

    /** Push the identifier's name on the lock stack. */
    method Lock(identifier: Token)
      modifies this
      ensures locks == old(locks) + [identifier.lexeme]
      ensures symbols == old(symbols)
    {
      locks := locks + [identifier.lexeme];
    }

    /** Pop the most recent lock; popping an empty stack throws. */
    method Unlock() returns (r: Done)
      modifies this
      ensures old(locks) == [] ==> r.Fault? && locks == []
      ensures old(locks) != [] ==> r.Ok? && locks == old(locks)[..|old(locks)| - 1]
      ensures symbols == old(symbols)
    {
      if locks == [] {
        r := Fault("Stack empty.");
      } else {
        locks := locks[..|locks| - 1];
        r := Ok(());
      }
    }

    /** Declare a variable with a value; a name already declared throws. */
    method Declare(identifier: Token, typ: Token, value: Option<Value>) returns (r: Done)
      modifies this
      ensures r.Ok? <==> identifier.lexeme !in old(symbols)
      ensures r.Ok? ==> symbols == old(symbols)[identifier.lexeme := Entry(typ.lexeme, value)]
      ensures r.Fault? ==> symbols == old(symbols) && r.message == DuplicateKey
      ensures locks == old(locks)
    {
      if identifier.lexeme in symbols {
        r := Fault(DuplicateKey);
      } else {
        symbols := symbols[identifier.lexeme := Entry(typ.lexeme, value)];
        r := Ok(());
      }
    }

    /** The two-argument Declare: the value is null. */
    method DeclareUnset(identifier: Token, typ: Token) returns (r: Done)
      modifies this
      ensures r.Ok? <==> identifier.lexeme !in old(symbols)
      ensures r.Ok? ==> symbols == old(symbols)[identifier.lexeme := Entry(typ.lexeme, None)]
      ensures r.Fault? ==> symbols == old(symbols) && r.message == DuplicateKey
      ensures locks == old(locks)
    {
      r := Declare(identifier, typ, None);
    }

    /** Replace the value of a declared variable; an undeclared name dereferences null. */
    method Assign(token: Token, value: Option<Value>) returns (r: Done)
      modifies this
      ensures r.Ok? <==> token.lexeme in old(symbols)
      ensures r.Ok? ==> symbols == old(symbols)[token.lexeme := Entry(old(symbols)[token.lexeme].variableType, value)]
      ensures r.Fault? ==> symbols == old(symbols) && r.message == NullReference
      ensures locks == old(locks)
    {
      if token.lexeme !in symbols {
        r := Fault(NullReference);
      } else {
        symbols := symbols[token.lexeme := symbols[token.lexeme].(value := value)];
        r := Ok(());
      }
    }

    predicate IsDeclared(identifier: Token)
      reads this
    {
      identifier.lexeme in symbols
    }

    predicate IsLocked(identifier: Token)
      reads this
    {
      identifier.lexeme in locks
    }

    /** The value of a variable; an undeclared name dereferences null. */
    function GetValue(identifier: Token): (r: Outcome<Option<Value>>)
      reads this
      ensures r.Ok? <==> IsDeclared(identifier)
    {
      if identifier.lexeme in symbols then Ok(symbols[identifier.lexeme].value) else Fault(NullReference)
    }

    /** The declared type name of a variable; an undeclared name dereferences null. */
    function GetVariableType(identifier: Token): (r: Outcome<string>)
      reads this
      ensures r.Ok? <==> IsDeclared(identifier)
    {
      if identifier.lexeme in symbols then Ok(symbols[identifier.lexeme].variableType) else Fault(NullReference)
    }

    /** Only the lexeme of a token matters, never its position or category. */
    lemma SameLexemeSameVariable(a: Token, b: Token)
      requires a.lexeme == b.lexeme
      ensures IsDeclared(a) == IsDeclared(b) && IsLocked(a) == IsLocked(b)
      ensures GetValue(a) == GetValue(b) && GetVariableType(a) == GetVariableType(b)
    {
    }
  }

  /** What Declare promises, read back through the queries. */
  method DeclareThenQuery(table: SymbolTable, id: Token, typ: Token, v: Option<Value>)
    requires id.lexeme !in table.symbols
    modifies table
    ensures table.IsDeclared(id)
    ensures table.GetVariableType(id) == Ok(typ.lexeme)
    ensures table.GetValue(id) == Ok(v)
  {
    var r := table.Declare(id, typ, v);
  }

  /** Assign changes only the assigned variable's value, and reads back that value. */
  method AssignThenQuery(table: SymbolTable, id: Token, other: Token, v: Option<Value>)
    requires id.lexeme in table.symbols && other.lexeme != id.lexeme
    modifies table
    ensures table.GetValue(id) == Ok(v)
    ensures table.GetVariableType(id) == old(table.GetVariableType(id))
    ensures table.GetValue(other) == old(table.GetValue(other))
    ensures table.GetVariableType(other) == old(table.GetVariableType(other))
  {
    var r := table.Assign(id, v);
  }

  /** Locking and unlocking restores the lock stack; while locked the name is locked. */
  method LockThenUnlock(table: SymbolTable, id: Token)
    modifies table
    ensures table.locks == old(table.locks) && table.symbols == old(table.symbols)
  {
    table.Lock(id);
    assert table.IsLocked(id);
    var r := table.Unlock();
    assert old(table.locks) + [id.lexeme] != [];
  }
}
