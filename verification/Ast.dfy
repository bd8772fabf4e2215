/** The syntax trees the parser builds (include/rbs/ast.h): types, functions, type parameters. */
module Ast {
  import opened Containers
  import opened Tokens

  // rbs_location_range; a null range has startChar == -1.
  datatype Location = Location(startChar: int, startByte: int, endChar: int, endByte: int)

  const NULL_LOCATION := Location(-1, -1, -1, -1)

  datatype BaseKind =
    | BoolBase | BottomBase | ClassBase | InstanceBase | NilBase | SelfBase | TopBase | VoidBase
    | AnyBase   // `untyped`
    | TodoBase  // `__todo__`

  // Literals are the type of the same name, and the keys of records and keyword tables.
  datatype Literal = IntegerLit(repr: string) | StringLit(str: string) | SymbolLit(sym: string) | BoolLit(b: bool)

  datatype NameKind = ClassName | InterfaceName | AliasName

  datatype TypeName = TypeName(absolute: bool, path: seq<string>, kind: NameKind, name: string)

  // Application is ClassInstance, Interface or Alias, as `name.kind` says.
  datatype Type =
    | Base(base: BaseKind, loc: Location)
    | Variable(varName: string, loc: Location)
    | LiteralType(lit: Literal, loc: Location)
    | Application(name: TypeName, args: seq<Type>, loc: Location, nameLoc: Location, argsLoc: Location)
    | Singleton(name: TypeName, args: seq<Type>, loc: Location, nameLoc: Location, argsLoc: Location)
    | Tuple(types: seq<Type>, loc: Location)
    | Record(fields: seq<Entry<Literal, FieldType>>, loc: Location)
    | OptionalType(inner: Type, loc: Location)
    | Union(types: seq<Type>, loc: Location)
    | Intersection(types: seq<Type>, loc: Location)
    | Proc(fn: Function, block: Option<Block>, selfType: Option<Type>, loc: Location)

  datatype FieldType = FieldType(ty: Type, required: bool, loc: Location)

  datatype Param = Param(ty: Type, name: Option<string>, loc: Location, nameLoc: Location)

  type Keywords = seq<Entry<string, Param>>

  datatype Function =
    | Fn(params: MethodParams, ret: Type, loc: Location)
    | UntypedFn(ret: Type, loc: Location)

  datatype MethodParams = MethodParams(
    required: seq<Param>, optional: seq<Param>, rest: Option<Param>, trailing: seq<Param>,
    requiredKw: Keywords, optionalKw: Keywords, restKw: Option<Param>, forwarding: Option<Location>)

  datatype Block = Block(fn: Function, required: bool, selfType: Option<Type>, loc: Location)

  datatype Variance = Invariant | Covariant | Contravariant

  datatype TypeParam = TypeParam(
    name: string, variance: Variance, upper: Option<Type>, lower: Option<Type>, default: Option<Type>,
    unchecked: bool, loc: Location)

  datatype MethodType = MethodType(
    typeParams: seq<TypeParam>, fn: Function, block: Option<Block>, loc: Location)

  const NO_PARAMS := MethodParams([], [], None, [], [], [], None, None)

  predicate IsVoid(t: Type) {
    t.Base? && t.base == VoidBase
  }
}
