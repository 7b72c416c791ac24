/** The category-keyed copy of the type graph (models/TypeSystem.cs): three
    type models with operator tables keyed by operator, and the mapping between
    the models and the type categories. A type category (Type_Integer,
    Type_String, Type_Boolean) is a `Type` token category together with the
    type keyword that the scanner put in its lexeme. */
module TypeSystem {
  import opened Util
  import opened Tokens
  import opened Operators
  import TypeBindings

  datatype TypeModel = BooleanModel | StringModel | IntegerModel

  function ModelName(m: TypeModel): string {
    match m
    case BooleanModel => "bool"
    case StringModel => "string"
    case IntegerModel => "int"
  }

  function Transitions(m: TypeModel): map<Op, TypeModel> {
    match m
    case BooleanModel => map[Eq := BooleanModel, NotOp := BooleanModel, AndOp := BooleanModel]
    case StringModel => map[Add := StringModel, Eq := BooleanModel]
    case IntegerModel =>
      map[Add := IntegerModel, Sub := IntegerModel, Mul := IntegerModel, Div := IntegerModel,
          Lt := BooleanModel, Eq := BooleanModel]
  }

  /** TypeModel.Operate: the result model, or null for an operator not in the table. */
  function Operate(m: TypeModel, oper: Op): (r: Option<TypeModel>)
    ensures r.Some? <==> oper in Transitions(m)
  {
    if oper in Transitions(m) then Some(Transitions(m)[oper]) else None
  }

  /** A type category: the token category and the keyword it was scanned from. */
  datatype TypeCategory = TypeCategory(category: Category, keyword: string)

  const NoCategory: TypeCategory := TypeCategory(Unclassified, "")

  function GetCategoryFromType(m: Option<TypeModel>): TypeCategory {
    if m == Some(BooleanModel) then TypeCategory(Type, "bool")
    else if m == Some(StringModel) then TypeCategory(Type, "string")
    else if m == Some(IntegerModel) then TypeCategory(Type, "int")
    else NoCategory
  }

  function GetTypeFromCategory(c: TypeCategory): Option<TypeModel> {
    if c == TypeCategory(Type, "int") then Some(IntegerModel)
    else if c == TypeCategory(Type, "bool") then Some(BooleanModel)
    else if c == TypeCategory(Type, "string") then Some(StringModel)
    else None
  }

  predicate IsTypeCategory(c: TypeCategory) {
    c.category == Type && (c.keyword == "int" || c.keyword == "string" || c.keyword == "bool")
  }

  /** The two mappings are inverse on the three type categories and the three models;
      every other category has no model, and null maps to NONE. */
  lemma CategoryRoundTrip(c: TypeCategory, m: TypeModel)
    ensures IsTypeCategory(c) ==> GetCategoryFromType(GetTypeFromCategory(c)) == c
    ensures !IsTypeCategory(c) ==> GetTypeFromCategory(c) == None
    ensures GetTypeFromCategory(GetCategoryFromType(Some(m))) == Some(m)
    ensures GetCategoryFromType(None) == NoCategory
  {
  }

  /** A category names the model whose name is its keyword. */
  lemma CategoryKeywordIsName(c: TypeCategory)
    requires GetTypeFromCategory(c).Some?
    ensures ModelName(GetTypeFromCategory(c).value) == c.keyword
  {
  }

  /** The binding of the same name. */
  function BindingOf(m: TypeModel): TypeBindings.TypeBinding {
    match m
    case BooleanModel => TypeBindings.BooleanBinding
    case StringModel => TypeBindings.StringBinding
    case IntegerModel => TypeBindings.IntegerBinding
  }

  function MapBinding(r: Option<TypeModel>): Option<TypeBindings.TypeBinding> {
    if r.Some? then Some(BindingOf(r.value)) else None
  }

  /** The category-keyed table agrees with the lexeme-keyed one entry for entry. */
  lemma TablesAgree(m: TypeModel, oper: Op)
    ensures TypeBindings.Name(BindingOf(m)) == ModelName(m)
    ensures MapBinding(Operate(m, oper)) == TypeBindings.Operate(BindingOf(m), Lexeme(oper))
  {
    TypeBindings.TransitionTable(Lexeme(oper));
  }

  /** A lexeme that names no operator is in no lexeme-keyed table. */
  lemma NonOperatorsUntyped(b: TypeBindings.TypeBinding, s: string)
    requires OpOfLexeme(s).None?
    ensures TypeBindings.Operate(b, s).None?
  {
    TypeBindings.TransitionTable(s);
  }
}
