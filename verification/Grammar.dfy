/** What src/parser.c accepts: for every parse routine, the tree it builds, the token it stops at and the
    error it leaves, as a function of the token stream, the next token's index and the error so far. */
module Grammar {
  import opened Ast
  import opened Containers
  import opened Tokens
  import opened WellFormed

  datatype ParseError = ParseError(token: Token, syntax: bool)

  type Errors = Option<ParseError>

  // A routine that returns true leaves the next token's index and the error recorded so far, if any;
  // one that returns false has always recorded an error.
  datatype Outcome<+T> = Ok(value: T, pos: nat, err: Errors) | Fail(error: ParseError)

  // rbs_parser_set_error: the first error stays.
  function FirstError(e: Errors, t: Token, syntax: bool): ParseError {
    if e.Some? then e.value else ParseError(t, syntax)
  }

  function Refuse<T>(e: Errors, t: Token): Outcome<T> {
    Fail(FirstError(e, t, true))
  }

  // An error already recorded is the one left behind.
  predicate Kept<T>(e: Errors, r: Outcome<T>) {
    e.Some? ==> if r.Ok? then r.err == e else r.error == e.value
  }

  // RBS_RANGE_LEX2AST of the range from the first token to the second.
  function Spanning(a: Token, b: Token): Location {
    Location(a.start.charPos, a.start.bytePos, b.end.charPos, b.end.bytePos)
  }

  // From the end of the first token to the end of the second.
  function After(a: Token, b: Token): Location {
    Location(a.end.charPos, a.end.bytePos, b.end.charPos, b.end.bytePos)
  }

  function LocOf(t: Token): Location {
    Spanning(t, t)
  }

  // ---- names ----------------------------------------------------------------------------------------

  // Index of the last token of the name whose path starts at the current token `c`.
  function PathEnd(s: Stream, c: nat): (r: nat)
    ensures c <= r
    decreases s.Left(c)
  {
    if s.Kind(c) == UIDENT && s.Kind(c + 1) == COLON2 && s.Touching(c) && s.Touching(c + 1)
    then PathEnd(s, c + 2)
    else c
  }

  function PathNames(s: Stream, c: nat): (r: seq<string>)
    ensures r == [] <==> PathEnd(s, c) == c
    ensures r != [] ==> s.Kind(c) == UIDENT && r[0] == s.At(c).text
    decreases s.Left(c)
  {
    if s.Kind(c) == UIDENT && s.Kind(c + 1) == COLON2 && s.Touching(c) && s.Touching(c + 1)
    then [s.At(c).text] + PathNames(s, c + 2)
    else []
  }

  function KindOfName(k: TokenKind): (r: Option<NameKind>)
    ensures r == Some(ClassName) <==> k == UIDENT
    ensures r.Some? ==> k != EOF
  {
    if k == UIDENT then Some(ClassName)
    else if k == ULIDENT then Some(InterfaceName)
    else if k == LIDENT || k == KW_SKIP || k == KW_RETURN then Some(AliasName)
    else None
  }

  const ANY_NAME := {ClassName, InterfaceName, AliasName}

  // parse_type_name with the current token at `c`.
  function TypeNameAt(s: Stream, c: nat, e: Errors, kinds: set<NameKind>): (r: Outcome<TypeName>)
    ensures r.Ok? ==> c < r.pos <= |s.toks| && r.err == e && KindOfName(s.Kind(r.pos - 1)) == Some(r.value.kind)
    ensures Kept(e, r)
    ensures r.Ok? && s.Kind(c) == UIDENT ==>
              && !r.value.absolute
              && (if r.value.path != [] then r.value.path[0] == s.At(c).text
                  else r.value.name == s.At(c).text && r.value.kind == ClassName)
    ensures r.Ok? && s.Kind(c) != UIDENT ==> r.value.absolute || (r.value.path == [] && r.value.kind != ClassName)
    ensures r.Ok? ==> r.value.kind in kinds
  {
    hide PathEnd, PathNames, Stream.Touching, KindOfName;
    if s.Kind(c) == COLON2 && !s.Touching(c) then
      Refuse(e, s.At(c + 1))
    else
      var first := if s.Kind(c) == COLON2 then c + 1 else c;
      var last := PathEnd(s, first);
      var kind := KindOfName(s.Kind(last));
      if kind.Some? && kind.value in kinds then
        Ok(TypeName(s.Kind(c) == COLON2, PathNames(s, first), kind.value, s.At(last).text), last + 1, e)
      else
        Refuse(e, s.At(last))
  }

  // ---- types ----------------------------------------------------------------------------------------

  // rbs_parse_type: a union.
  function TypeAt(s: Stream, i: nat, e: Errors, v: bool, sc: Scope): (r: Outcome<Type>)
    ensures r.Ok? ==> i < r.pos <= |s.toks|
    ensures Kept(e, r)
    ensures r.Ok? ==> Well(r.value, v, sc)
    decreases s.Left(i), 9
  {
    var r := IntersectionAt(s, i, e, v, sc);
    if r.Fail? then r else UnionRest(s, i, r.pos, r.err, v, sc, [r.value])
  }

  // The loop of rbs_parse_type over `|`, after the members `acc`.
  function UnionRest(s: Stream, i: nat, j: nat, e: Errors, v: bool, sc: Scope, acc: seq<Type>): (r: Outcome<Type>)
    requires i < j <= |s.toks| && acc != []
    ensures r.Ok? ==> j <= r.pos <= |s.toks|
    ensures Kept(e, r)
    ensures r.Ok? && MembersWell(acc, v, sc) ==> Well(r.value, v, sc)
    decreases s.Left(j), 8
  {
    if s.Kind(j) != BAR then
      Ok(if |acc| > 1 then Union(acc, Spanning(s.At(i), s.At(j - 1))) else acc[0], j, e)
    else if v && IsVoid(acc[0]) then
      Refuse(e, s.At(j - 1))
    else
      var r := IntersectionAt(s, j + 1, e, false, sc);
      if r.Fail? then r
      else
        MemberAdded(acc, r.value, v, sc);
        UnionRest(s, i, r.pos, r.err, v, sc, acc + [r.value])
  }

  function IntersectionAt(s: Stream, i: nat, e: Errors, v: bool, sc: Scope): (r: Outcome<Type>)
    ensures r.Ok? ==> i < r.pos <= |s.toks|
    ensures Kept(e, r)
    ensures r.Ok? ==> Well(r.value, v, sc)
    decreases s.Left(i), 7
  {
    var r := OptionalAt(s, i, e, v, sc);
    if r.Fail? then r else IntersectionRest(s, i, r.pos, r.err, v, sc, [r.value])
  }

  function IntersectionRest(s: Stream, i: nat, j: nat, e: Errors, v: bool, sc: Scope, acc: seq<Type>)
    : (r: Outcome<Type>)
    requires i < j <= |s.toks| && acc != []
    ensures r.Ok? ==> j <= r.pos <= |s.toks|
    ensures Kept(e, r)
    ensures r.Ok? && MembersWell(acc, v, sc) ==> Well(r.value, v, sc)
    decreases s.Left(j), 6
  {
    if s.Kind(j) != AMP then
      Ok(if |acc| > 1 then Intersection(acc, Spanning(s.At(i), s.At(j - 1))) else acc[0], j, e)
    else if v && IsVoid(acc[0]) then
      Refuse(e, s.At(j - 1))
    else
      var r := OptionalAt(s, j + 1, e, false, sc);
      if r.Fail? then r
      else
        MemberAdded(acc, r.value, v, sc);
        IntersectionRest(s, i, r.pos, r.err, v, sc, acc + [r.value])
  }

  function OptionalAt(s: Stream, i: nat, e: Errors, v: bool, sc: Scope): (r: Outcome<Type>)
    ensures r.Ok? ==> i < r.pos <= |s.toks|
    ensures Kept(e, r)
    ensures r.Ok? ==> Well(r.value, v, sc)
    decreases s.Left(i), 5
  {
    var r := SimpleAt(s, i, e, v, sc);
    if r.Fail? || s.Kind(r.pos) != QUESTION then r
    else if v && IsVoid(r.value) then Refuse(r.err, s.At(r.pos - 1))
    else Ok(OptionalType(r.value, Spanning(s.At(i), s.At(r.pos))), r.pos + 1, r.err)
  }

  // The base types and literals that are one token; `void`, `self`, `class` and `instance` are refused
  // where the flags say so.
  function BaseOf(k: TokenKind): Option<BaseKind> {
    if k == KW_BOOL then Some(BoolBase)
    else if k == KW_BOT then Some(BottomBase)
    else if k == KW_CLASS then Some(ClassBase)
    else if k == KW_INSTANCE then Some(InstanceBase)
    else if k == KW_NIL then Some(NilBase)
    else if k == KW_SELF then Some(SelfBase)
    else if k == KW_TOP then Some(TopBase)
    else if k == KW_VOID then Some(VoidBase)
    else if k == KW_UNTYPED then Some(AnyBase)
    else if k == KW_TODO then Some(TodoBase)
    else None
  }

  function LiteralOf(t: Token): Option<Literal> {
    var k := t.kind;
    if k == INTEGER then Some(IntegerLit(t.text))
    else if k == KW_TRUE || k == KW_FALSE then Some(BoolLit(k == KW_TRUE))
    else if k == SQ_STRING || k == DQ_STRING then Some(StringLit(t.unquoted))
    else if k == SYMBOL then Some(SymbolLit(if t.text == "" then "" else t.text[1..]))
    else if k == SQ_SYMBOL || k == DQ_SYMBOL then Some(SymbolLit(t.unquoted))
    else None
  }

  function SimpleAt(s: Stream, i: nat, e: Errors, v: bool, sc: Scope): (r: Outcome<Type>)
    ensures r.Ok? ==> i < r.pos <= |s.toks|
    ensures Kept(e, r)
    ensures r.Ok? ==> Well(r.value, v, sc)
    decreases s.Left(i), 4
  {
    var t := s.At(i);
    var k := s.Kind(i);
    if k == LPAREN then
      var r := TypeAt(s, i + 1, e, v, sc);
      if r.Fail? then r
      else if s.Kind(r.pos) != RPAREN then Refuse(r.err, s.At(r.pos))
      else Ok(r.value, r.pos + 1, r.err)
    else if BaseOf(k).Some? then
      var b := BaseOf(k).value;
      if BaseAllowed(b, v, sc) then Ok(Base(b, LocOf(t)), i + 1, e) else Refuse(e, t)
    else if k != EOF && LiteralOf(t).Some? then
      Ok(LiteralType(LiteralOf(t).value, LocOf(t)), i + 1, e)
    else if k == UIDENT && t.text in sc.vars then Ok(Variable(t.text, LocOf(t)), i + 1, e)
    else if KindOfName(k).Some? || k == COLON2 then ApplicationAt(s, i, e, sc)
    else if k == KW_SINGLETON then SingletonAt(s, i, e, sc)
    else if k == LBRACKET then TupleAt(s, i, e, sc)
    else if k == AREF_OPR then Ok(Tuple([], LocOf(t)), i + 1, e)
    else if k == LBRACE then RecordAt(s, i, e, sc)
    else if k == HAT then ProcAt(s, i, e, sc)
    else Refuse(e, t)
  }

  function RecordAt(s: Stream, i: nat, e: Errors, sc: Scope): (r: Outcome<Type>)
    requires s.Kind(i) == LBRACE
    ensures r.Ok? ==> i < r.pos <= |s.toks|
    ensures Kept(e, r)
    ensures r.Ok? ==> Well(r.value, false, sc)
    decreases s.Left(i), 3
  {
    var r := AttributesAt(s, i + 1, e, sc);
    if r.Fail? then Fail(r.error)
    else if s.Kind(r.pos) != RBRACE then Refuse(r.err, s.At(r.pos))
    else Ok(Ast.Record(r.value, Spanning(s.At(i), s.At(r.pos))), r.pos + 1, r.err)
  }

  function ProcAt(s: Stream, i: nat, e: Errors, sc: Scope): (r: Outcome<Type>)
    requires s.Kind(i) == HAT
    ensures r.Ok? ==> i < r.pos <= |s.toks|
    ensures Kept(e, r)
    ensures r.Ok? ==> Well(r.value, false, sc)
    decreases s.Left(i), 3
  {
    var r := FunctionAt(s, i + 1, e, sc, true, true, false);
    if r.Fail? then Fail(r.error)
    else Ok(Proc(r.value.fn, r.value.block, r.value.selfType, Spanning(s.At(i), s.At(r.pos - 1))), r.pos, r.err)
  }

  function TupleAt(s: Stream, i: nat, e: Errors, sc: Scope): (r: Outcome<Type>)
    requires s.Kind(i) == LBRACKET
    ensures r.Ok? ==> i < r.pos <= |s.toks|
    ensures Kept(e, r)
    ensures r.Ok? ==> Well(r.value, false, sc)
    decreases s.Left(i), 3
  {
    if s.Kind(i + 1) == RBRACKET then Ok(Tuple([], Spanning(s.At(i), s.At(i + 1))), i + 2, e)
    else
      var r := TypeListAt(s, i + 1, e, false, sc, []);
      if r.Fail? then Fail(r.error)
      else Ok(Tuple(r.value, Spanning(s.At(i), s.At(r.pos))), r.pos + 1, r.err)
  }

  // parse_type_list up to `]`; the closing bracket is left unread and a trailing comma is accepted.
  function TypeListAt(s: Stream, i: nat, e: Errors, v: bool, sc: Scope, acc: seq<Type>): (r: Outcome<seq<Type>>)
    ensures r.Ok? ==> i < r.pos < |s.toks| && s.Kind(r.pos) == RBRACKET
    ensures Kept(e, r)
    ensures r.Ok? && AllWell(acc, v, sc) ==> AllWell(r.value, v, sc)
    decreases s.Left(i), 10
  {
    hide AllWell;
    var r := TypeAt(s, i, e, v, sc);
    if r.Fail? then Fail(r.error)
    else
      ListAdded(acc, r.value, v, sc);
      if s.Kind(r.pos) == COMMA then
        if s.Kind(r.pos + 1) == RBRACKET then Ok(acc + [r.value], r.pos + 1, r.err)
        else TypeListAt(s, r.pos + 1, r.err, v, sc, acc + [r.value])
      else if s.Kind(r.pos) == RBRACKET then Ok(acc + [r.value], r.pos, r.err)
      else Refuse(r.err, s.At(r.pos))
  }

  // The optional `[` type_list `]` after a name; the second component is the range of the brackets.
  function TypeArgsAt(s: Stream, i: nat, e: Errors, sc: Scope): (r: Outcome<(seq<Type>, Location)>)
    requires i <= |s.toks|
    ensures r.Ok? ==> i <= r.pos <= |s.toks|
    ensures Kept(e, r)
    ensures r.Ok? ==> AllWell(r.value.0, true, sc)
    decreases s.Left(i), 2
  {
    if s.Kind(i) != LBRACKET then Ok(([], NULL_LOCATION), i, e)
    else
      var r := TypeListAt(s, i + 1, e, true, sc, []);
      if r.Fail? then Fail(r.error)
      else Ok((r.value, Spanning(s.At(i), s.At(r.pos))), r.pos + 1, r.err)
  }

  // parse_instance_type with the name's first token at `i`; arguments may be any type at all.
  function ApplicationAt(s: Stream, i: nat, e: Errors, sc: Scope): (r: Outcome<Type>)
    requires s.Kind(i) == UIDENT ==> s.At(i).text !in sc.vars
    ensures r.Ok? ==> i < r.pos <= |s.toks|
    ensures Kept(e, r)
    ensures r.Ok? ==> Well(r.value, false, sc)
    decreases s.Left(i), 3
  {
    var n := TypeNameAt(s, i, e, ANY_NAME);
    if n.Fail? then Fail(n.error)
    else
      var a := TypeArgsAt(s, n.pos, n.err, Scope(sc.vars, true, true));
      if a.Fail? then Fail(a.error)
      else Ok(Application(n.value, a.value.0, Spanning(s.At(i), s.At(a.pos - 1)),
                          Spanning(s.At(i), s.At(n.pos - 1)), a.value.1), a.pos, a.err)
  }

  function SingletonAt(s: Stream, i: nat, e: Errors, sc: Scope): (r: Outcome<Type>)
    requires s.Kind(i) == KW_SINGLETON
    ensures r.Ok? ==> i < r.pos <= |s.toks|
    ensures Kept(e, r)
    ensures r.Ok? ==> Well(r.value, false, sc)
    decreases s.Left(i), 3
  {
    if s.Kind(i + 1) != LPAREN then Refuse(e, s.At(i + 1))
    else
      var n := TypeNameAt(s, i + 2, e, {ClassName});
      if n.Fail? then Fail(n.error)
      else if s.Kind(n.pos) != RPAREN then Refuse(n.err, s.At(n.pos))
      else
        var a := TypeArgsAt(s, n.pos + 1, n.err, sc);
        if a.Fail? then Fail(a.error)
        else Ok(Singleton(n.value, a.value.0, Spanning(s.At(i), s.At(a.pos - 1)),
                          Spanning(s.At(i + 2), s.At(n.pos - 1)), a.value.1), a.pos, a.err)
  }

  // ---- records --------------------------------------------------------------------------------------

  // is_keyword: a word, perhaps with `?`, touching a colon.
  predicate IsKeyword(s: Stream, i: nat) {
    && IsKeywordToken(s.Kind(i))
    && (|| (s.Kind(i + 1) == COLON && s.Touching(i))
        || (s.Kind(i + 1) == QUESTION && s.Kind(i + 2) == COLON && s.Touching(i) && s.Touching(i + 1)))
  }

  // parse_keyword_key: the key, with a `?` that belongs to it, and the index of the token after it.
  function KeyAt(s: Stream, i: nat): (string, nat) {
    if s.Kind(i + 1) == QUESTION then (s.At(i).text + "?", i + 2) else (s.At(i).text, i + 1)
  }

  type Fields = seq<Entry<Literal, FieldType>>

  ghost predicate FieldsWell(fs: Fields, sc: Scope) {
    DistinctKeys(fs) && forall f <- fs :: Well(f.value.ty, false, sc)
  }

  // check_key_duplication records an error, but parsing goes on.
  function CheckDuplicate(e: Errors, fields: Fields, k: Literal, t: Token): Errors {
    if HasKey(fields, k) then Some(FirstError(e, t, true)) else e
  }

  // parse_record_attributes, up to the closing brace.
  function AttributesAt(s: Stream, i: nat, e: Errors, sc: Scope): (r: Outcome<Fields>)
    requires i <= |s.toks|
    ensures r.Ok? ==> i <= r.pos <= |s.toks|
    ensures Kept(e, r)
    ensures r.Ok? ==> FieldsWell(r.value, sc)
    decreases s.Left(i), 12
  {
    if s.Kind(i) == RBRACE then Ok([], i, e) else FieldsAt(s, i, e, sc, [])
  }

  function FieldsAt(s: Stream, i: nat, e: Errors, sc: Scope, acc: Fields): (r: Outcome<Fields>)
    ensures r.Ok? ==> i < r.pos <= |s.toks|
    ensures Kept(e, r)
    ensures r.Ok? && FieldsWell(acc, sc) ==> FieldsWell(r.value, sc)
    decreases s.Left(i), 11
  {
    hide FieldsWell;
    var r := FieldAt(s, i, e, sc, acc);
    if r.Fail? then r
    else if s.Kind(r.pos) != COMMA then r
    else if s.Kind(r.pos + 1) == RBRACE then Ok(r.value, r.pos + 1, r.err)
    else FieldsAt(s, r.pos + 1, r.err, sc, r.value)
  }

  // One field, entered into the table; its range starts where the token before the type ends.
  function FieldAt(s: Stream, i: nat, e: Errors, sc: Scope, acc: Fields): (r: Outcome<Fields>)
    ensures r.Ok? ==> i < r.pos <= |s.toks|
    ensures Kept(e, r)
    ensures r.Ok? && FieldsWell(acc, sc) ==> FieldsWell(r.value, sc)
    decreases s.Left(i), 10
  {
    var k := FieldKeyAt(s, i, e, acc);
    if k.Fail? then Fail(k.error)
    else
      var r := TypeAt(s, k.pos, k.err, false, sc);
      if r.Fail? then Fail(r.error)
      else Ok(HashSet(acc, k.value, FieldType(r.value, s.Kind(i) != QUESTION, After(s.At(k.pos - 1), s.At(r.pos - 1)))),
              r.pos, r.err)
  }

  // `?`, the key and its `:` or `=>`.
  function FieldKeyAt(s: Stream, i: nat, e: Errors, acc: Fields): (r: Outcome<Literal>)
    ensures r.Ok? ==> i < r.pos <= |s.toks|
    ensures Kept(e, r)
  {
    var n := if s.Kind(i) == QUESTION then i + 1 else i;
    if IsKeyword(s, n) then
      var k := KeyAt(s, n);
      Ok(SymbolLit(k.0), k.1 + 1, CheckDuplicate(e, acc, SymbolLit(k.0), s.At(k.1 - 1)))
    else
      var lit := if s.Kind(n) == EOF then None else LiteralOf(s.At(n));
      if lit.None? then Refuse(e, s.At(n))
      else
        var e' := CheckDuplicate(e, acc, lit.value, s.At(n));
        if s.Kind(n + 1) != FAT_ARROW then Refuse(e', s.At(n + 1)) else Ok(lit.value, n + 2, e')
  }

  // ---- functions ------------------------------------------------------------------------------------

  function ParamAt(s: Stream, i: nat, e: Errors, sc: Scope): (r: Outcome<Param>)
    ensures r.Ok? ==> i < r.pos <= |s.toks|
    ensures Kept(e, r)
    ensures r.Ok? ==> WellParam(r.value, sc)
    decreases s.Left(i), 10
  {
    var r := TypeAt(s, i, e, false, sc);
    if r.Fail? then Fail(r.error)
    else if s.Kind(r.pos) == COMMA || s.Kind(r.pos) == RPAREN then
      Ok(Param(r.value, None, Spanning(s.At(i), s.At(r.pos - 1)), NULL_LOCATION), r.pos, r.err)
    else if !IsKeywordToken(s.Kind(r.pos)) then Refuse(r.err, s.At(r.pos))
    else
      Ok(Param(r.value, Some(s.At(r.pos).unquoted), Spanning(s.At(i), s.At(r.pos)), LocOf(s.At(r.pos))),
         r.pos + 1, r.err)
  }

  datatype ParamList = Untyped | Typed(params: MethodParams)

  // Where the goto machine of parse_params stands.
  datatype Section = RequiredParams | OptionalParams | RestParam | TrailingParams | Keywords

  function SectionRank(q: Section): nat {
    match q
    case RequiredParams => 4
    case OptionalParams => 3
    case RestParam => 2
    case TrailingParams => 1
    case Keywords => 0
  }

  // What has been filled in when the machine stands in a section before a token of kind `k`.
  ghost predicate Reached(q: Section, p: MethodParams, k: TokenKind) {
    && p.forwarding.None?
    && (q != Keywords ==> p.requiredKw == [] && p.optionalKw == [] && p.restKw.None?)
    && match q {
         case RequiredParams => p.optional == [] && p.rest.None? && p.trailing == []
         case OptionalParams => p.rest.None? && p.trailing == [] && (p.optional != [] || k == QUESTION)
         case RestParam => p.rest.None? && p.trailing == [] && (p.optional != [] || k == STAR)
         case TrailingParams => p.optional != [] || p.rest.Some?
         case Keywords => true
       }
  }

  // parse_params: the closing parenthesis is left unread.
  function ParamsAt(s: Stream, i: nat, e: Errors, sc: Scope, fwd: bool): (r: Outcome<ParamList>)
    requires i <= |s.toks|
    ensures r.Ok? ==> i <= r.pos < |s.toks| && s.Kind(r.pos) == RPAREN
    ensures Kept(e, r)
    ensures r.Ok? && r.value.Typed? ==> WellParams(r.value.params, sc) && (!fwd ==> r.value.params.forwarding.None?)
    decreases s.Left(i), 20
  {
    if s.Kind(i) == QUESTION && s.Kind(i + 1) == RPAREN then Ok(Untyped, i + 1, e)
    else
      NoParamsWell(sc);
      if s.Kind(i) == RPAREN then Ok(Typed(NO_PARAMS), i, e) else
      var r := SectionAt(s, i, e, sc, fwd, RequiredParams, NO_PARAMS);
      if r.Fail? then Fail(r.error)
      else if s.Kind(r.pos) != RPAREN then Refuse(r.err, s.At(r.pos))
      else Ok(Typed(r.value), r.pos, r.err)
  }

  // The machine in section `q` before token `i`: it moves to a later section, stops (the label EOP), or reads
  // one parameter and goes on if a comma follows.
  function SectionAt(s: Stream, i: nat, e: Errors, sc: Scope, fwd: bool, q: Section, p: MethodParams)
    : (r: Outcome<MethodParams>)
    requires i <= |s.toks|
    ensures r.Ok? ==> i <= r.pos <= |s.toks|
    ensures Kept(e, r)
    ensures r.Ok? && Reached(q, p, s.Kind(i)) && WellParams(p, sc) ==>
              WellParams(r.value, sc) && (!fwd ==> r.value.forwarding.None?)
    decreases s.Left(i), 14, 2 * SectionRank(q) + 1
  {
    match q
    case RequiredParams => RequiredAt(s, i, e, sc, fwd, p)
    case OptionalParams => OptionalParamAt(s, i, e, sc, fwd, p)
    case RestParam => RestAt(s, i, e, sc, fwd, p)
    case TrailingParams => TrailingAt(s, i, e, sc, fwd, p)
    case Keywords => KeywordsAt(s, i, e, sc, fwd, p)
  }

  function RequiredAt(s: Stream, i: nat, e: Errors, sc: Scope, fwd: bool, p: MethodParams)
    : (r: Outcome<MethodParams>)
    requires i <= |s.toks|
    ensures r.Ok? ==> i <= r.pos <= |s.toks|
    ensures Kept(e, r)
    ensures r.Ok? && Reached(RequiredParams, p, s.Kind(i)) && WellParams(p, sc) ==>
              WellParams(r.value, sc) && (!fwd ==> r.value.forwarding.None?)
    decreases s.Left(i), 14, 2 * SectionRank(RequiredParams)
  {
    hide WellParams;
    var k := s.Kind(i);
    if k == QUESTION then SectionAt(s, i, e, sc, fwd, OptionalParams, p)
    else if k == STAR then SectionAt(s, i, e, sc, fwd, RestParam, p)
    else if k == STAR2 then SectionAt(s, i, e, sc, fwd, Keywords, p)
    else if k == RPAREN then Ok(p, i, e)
    else if k == DOT3 then
      if fwd then Ok(p.(forwarding := Some(LocOf(s.At(i)))), i + 1, e) else Refuse(e, s.At(i))
    else if IsKeyword(s, i) then SectionAt(s, i, e, sc, fwd, Keywords, p)
    else
      var r := ParamAt(s, i, e, sc);
      if r.Fail? then Fail(r.error)
      else
        ParamAdded(p, r.value, sc);
        Continue(s, r.pos, r.err, sc, fwd, RequiredParams, p.(required := p.required + [r.value]))
  }

  // A `?` before a keyword ends the section, whether or not a comma follows the keyword.
  function OptionalParamAt(s: Stream, i: nat, e: Errors, sc: Scope, fwd: bool, p: MethodParams)
    : (r: Outcome<MethodParams>)
    requires i <= |s.toks|
    ensures r.Ok? ==> i <= r.pos <= |s.toks|
    ensures Kept(e, r)
    ensures r.Ok? && Reached(OptionalParams, p, s.Kind(i)) && WellParams(p, sc) ==>
              WellParams(r.value, sc) && (!fwd ==> r.value.forwarding.None?)
    decreases s.Left(i), 14, 2 * SectionRank(OptionalParams)
  {
    hide WellParams, IsKeywordToken;
    if s.Kind(i) != QUESTION then SectionAt(s, i, e, sc, fwd, RestParam, p)
    else if IsKeyword(s, i + 1) then
      var r := KeywordAt(s, i + 1, e, sc, p, false);
      if r.Fail? then r
      else if s.Kind(r.pos) == COMMA then SectionAt(s, r.pos + 1, r.err, sc, fwd, Keywords, r.value)
      else SectionAt(s, r.pos, r.err, sc, fwd, Keywords, r.value)
    else
      var r := ParamAt(s, i + 1, e, sc);
      if r.Fail? then Fail(r.error)
      else
        ParamAdded(p, r.value, sc);
        Continue(s, r.pos, r.err, sc, fwd, OptionalParams, p.(optional := p.optional + [r.value]))
  }

  function RestAt(s: Stream, i: nat, e: Errors, sc: Scope, fwd: bool, p: MethodParams)
    : (r: Outcome<MethodParams>)
    requires i <= |s.toks|
    ensures r.Ok? ==> i <= r.pos <= |s.toks|
    ensures Kept(e, r)
    ensures r.Ok? && Reached(RestParam, p, s.Kind(i)) && WellParams(p, sc) ==>
              WellParams(r.value, sc) && (!fwd ==> r.value.forwarding.None?)
    decreases s.Left(i), 14, 2 * SectionRank(RestParam)
  {
    hide WellParams;
    if s.Kind(i) != STAR then SectionAt(s, i, e, sc, fwd, TrailingParams, p)
    else
      var r := ParamAt(s, i + 1, e, sc);
      if r.Fail? then Fail(r.error)
      else
        ParamAdded(p, r.value, sc);
        Continue(s, r.pos, r.err, sc, fwd, TrailingParams, p.(rest := Some(r.value)))
  }

  function TrailingAt(s: Stream, i: nat, e: Errors, sc: Scope, fwd: bool, p: MethodParams)
    : (r: Outcome<MethodParams>)
    requires i <= |s.toks|
    ensures r.Ok? ==> i <= r.pos <= |s.toks|
    ensures Kept(e, r)
    ensures r.Ok? && Reached(TrailingParams, p, s.Kind(i)) && WellParams(p, sc) ==>
              WellParams(r.value, sc) && (!fwd ==> r.value.forwarding.None?)
    decreases s.Left(i), 14, 2 * SectionRank(TrailingParams)
  {
    hide WellParams;
    var k := s.Kind(i);
    if k == QUESTION || k == STAR2 then SectionAt(s, i, e, sc, fwd, Keywords, p)
    else if k == STAR || k == RPAREN then Ok(p, i, e)
    else if IsKeyword(s, i) then SectionAt(s, i, e, sc, fwd, Keywords, p)
    else
      var r := ParamAt(s, i, e, sc);
      if r.Fail? then Fail(r.error)
      else
        ParamAdded(p, r.value, sc);
        Continue(s, r.pos, r.err, sc, fwd, TrailingParams, p.(trailing := p.trailing + [r.value]))
  }

  function KeywordsAt(s: Stream, i: nat, e: Errors, sc: Scope, fwd: bool, p: MethodParams)
    : (r: Outcome<MethodParams>)
    requires i <= |s.toks|
    ensures r.Ok? ==> i <= r.pos <= |s.toks|
    ensures Kept(e, r)
    ensures r.Ok? && Reached(Keywords, p, s.Kind(i)) && WellParams(p, sc) ==>
              WellParams(r.value, sc) && (!fwd ==> r.value.forwarding.None?)
    decreases s.Left(i), 14, 2 * SectionRank(Keywords)
  {
    hide WellParams;
    if s.Kind(i) == STAR2 then
      var r := ParamAt(s, i + 1, e, sc);
      if r.Fail? then Fail(r.error)
      else
        ParamAdded(p, r.value, sc);
        Continue(s, r.pos, r.err, sc, fwd, Keywords, p.(restKw := Some(r.value)))
    else if s.Kind(i) == QUESTION || IsKeywordToken(s.Kind(i)) then
      var j := if s.Kind(i) == QUESTION then i + 1 else i;
      if !IsKeyword(s, j) then Refuse(e, s.At(j))
      else
        var r := KeywordAt(s, j, e, sc, p, s.Kind(i) != QUESTION);
        if r.Fail? then r else Continue(s, r.pos, r.err, sc, fwd, Keywords, r.value)
    else Ok(p, i, e)
  }

  // After a parameter: on with the section if a comma follows, otherwise to EOP.
  function Continue(s: Stream, i: nat, e: Errors, sc: Scope, fwd: bool, q: Section, p: MethodParams)
    : (r: Outcome<MethodParams>)
    requires i <= |s.toks|
    ensures r.Ok? ==> i <= r.pos <= |s.toks|
    ensures Kept(e, r)
    ensures r.Ok? && Reached(q, p, EOF) && WellParams(p, sc) ==>
              WellParams(r.value, sc) && (!fwd ==> r.value.forwarding.None?)
    decreases s.Left(i), 19
  {
    if s.Kind(i) == COMMA then SectionAt(s, i + 1, e, sc, fwd, q, p) else Ok(p, i, e)
  }

  // parse_keyword; a name may be used once over both tables.
  function KeywordAt(s: Stream, i: nat, e: Errors, sc: Scope, p: MethodParams, required: bool)
    : (r: Outcome<MethodParams>)
    requires IsKeyword(s, i)
    ensures r.Ok? ==> i < r.pos <= |s.toks|
    ensures Kept(e, r)
    ensures r.Ok? && Reached(Keywords, p, EOF) && WellParams(p, sc) ==>
              Reached(Keywords, r.value, EOF) && WellParams(r.value, sc)
    decreases s.Left(i), 12
  {
    var k := KeyAt(s, i);
    if HasKey(p.requiredKw, k.0) || HasKey(p.optionalKw, k.0) then Refuse(e, s.At(k.1 - 1))
    else
      var r := ParamAt(s, k.1 + 1, e, sc);
      if r.Fail? then Fail(r.error)
      else
        KeywordAdded(p, k.0, r.value, sc);
        Ok(if required then p.(requiredKw := HashSet(p.requiredKw, k.0, r.value))
           else p.(optionalKw := HashSet(p.optionalKw, k.0, r.value)), r.pos, r.err)
  }

  datatype FunctionResult = FunctionResult(fn: Function, block: Option<Block>, selfType: Option<Type>)

  ghost predicate WellResult(r: FunctionResult, sc: Scope) {
    && WellFn(r.fn, sc)
    && (r.block.Some? ==> WellBlock(r.block.value, sc))
    && (r.selfType.Some? ==> Well(r.selfType.value, false, sc))
  }

  function MakeFunction(ps: ParamList, ret: Type, loc: Location): Function {
    if ps.Untyped? then UntypedFn(ret, loc) else Fn(ps.params, ret, loc)
  }

  // The optional `(` params `)`.
  function ParenParamsAt(s: Stream, i: nat, e: Errors, sc: Scope, fwd: bool): (r: Outcome<ParamList>)
    requires i <= |s.toks|
    ensures r.Ok? ==> i <= r.pos <= |s.toks|
    ensures Kept(e, r)
    ensures r.Ok? && r.value.Typed? ==> WellParams(r.value.params, sc) && (!fwd ==> r.value.params.forwarding.None?)
    decreases s.Left(i), 20
  {
    if s.Kind(i) != LPAREN then
      NoParamsWell(sc);
      Ok(Typed(NO_PARAMS), i, e)
    else
      var r := ParamsAt(s, i + 1, e, sc, fwd);
      if r.Fail? then r else Ok(r.value, r.pos + 1, r.err)
  }

  // parse_self_type_binding.
  function SelfBindingAt(s: Stream, i: nat, e: Errors, sc: Scope): (r: Outcome<Option<Type>>)
    requires i <= |s.toks|
    ensures r.Ok? ==> i <= r.pos <= |s.toks|
    ensures Kept(e, r)
    ensures r.Ok? && r.value.Some? ==> Well(r.value.value, false, sc)
    decreases s.Left(i), 20
  {
    if s.Kind(i) != LBRACKET then Ok(None, i, e)
    else if s.Kind(i + 1) != KW_SELF then Refuse(e, s.At(i + 1))
    else if s.Kind(i + 2) != COLON then Refuse(e, s.At(i + 2))
    else
      var r := TypeAt(s, i + 3, e, false, sc);
      if r.Fail? then Fail(r.error)
      else if s.Kind(r.pos) != RBRACKET then Refuse(r.err, s.At(r.pos))
      else Ok(Some(r.value), r.pos + 1, r.err)
  }

  // `->` and the return type.
  function ReturnAt(s: Stream, i: nat, e: Errors, sc: Scope): (r: Outcome<Type>)
    ensures r.Ok? ==> i < r.pos <= |s.toks|
    ensures Kept(e, r)
    ensures r.Ok? ==> Well(r.value, true, sc)
    decreases s.Left(i), 20
  {
    if s.Kind(i) != ARROW then Refuse(e, s.At(i)) else OptionalAt(s, i + 1, e, true, sc)
  }

  predicate BlockFollows(s: Stream, i: nat) {
    s.Kind(i) == LBRACE || (s.Kind(i) == QUESTION && s.Kind(i + 1) == LBRACE)
  }

  // The optional block of parse_function.
  function BlockAt(s: Stream, i: nat, e: Errors, sc: Scope): (r: Outcome<Option<Block>>)
    requires i <= |s.toks|
    ensures r.Ok? ==> i <= r.pos <= |s.toks|
    ensures Kept(e, r)
    ensures r.Ok? && r.value.Some? ==> WellBlock(r.value.value, sc)
    decreases s.Left(i), 20
  {
    if !BlockFollows(s, i) then Ok(None, i, e)
    else
      var b := if s.Kind(i) == QUESTION then i + 1 else i;
      var ps := ParenParamsAt(s, b + 1, e, sc, false);
      if ps.Fail? then Fail(ps.error)
      else
        var self := SelfBindingAt(s, ps.pos, ps.err, sc);
        if self.Fail? then Fail(self.error)
        else
          var ret := ReturnAt(s, self.pos, self.err, sc);
          if ret.Fail? then Fail(ret.error)
          else if s.Kind(ret.pos) != RBRACE then Refuse(ret.err, s.At(ret.pos))
          else
            var loc := Spanning(s.At(i), s.At(ret.pos));
            Ok(Some(Block(MakeFunction(ps.value, ret.value, loc), s.Kind(i) != QUESTION, self.value, loc)),
               ret.pos + 1, ret.err)
  }

  // parse_function; its range starts at the current token, the one before `i`.
  function FunctionAt(s: Stream, i: nat, e: Errors, sc: Scope, binding: bool, blocks: bool, fwd: bool)
    : (r: Outcome<FunctionResult>)
    requires i <= |s.toks|
    ensures r.Ok? ==> i < r.pos <= |s.toks|
    ensures Kept(e, r)
    ensures r.Ok? ==> WellResult(r.value, sc) && (!fwd && r.value.fn.Fn? ==> r.value.fn.params.forwarding.None?)
    decreases s.Left(i), 22
  {
    hide BlockAt, BlockFollows;
    var ps := ParenParamsAt(s, i, e, sc, fwd);
    if ps.Fail? then Fail(ps.error)
    else if !binding && ps.value.Untyped? && s.Kind(ps.pos) != ARROW then Refuse(ps.err, s.At(ps.pos + 1))
    else
      var self := if binding then SelfBindingAt(s, ps.pos, ps.err, sc) else Ok(None, ps.pos, ps.err);
      if self.Fail? then Fail(self.error)
      else FunctionRest(s, i, self.pos, self.err, sc, blocks, ps.value, self.value)
  }

  // parse_function after the parameters and the self binding.
  function FunctionRest(s: Stream, i: nat, j: nat, e: Errors, sc: Scope, blocks: bool, ps: ParamList,
                        self: Option<Type>)
    : (r: Outcome<FunctionResult>)
    requires j <= |s.toks|
    ensures r.Ok? ==> j < r.pos <= |s.toks|
    ensures Kept(e, r)
    ensures r.Ok? && (ps.Typed? ==> WellParams(ps.params, sc)) && (self.Some? ==> Well(self.value, false, sc)) ==>
              WellResult(r.value, sc) && (r.value.fn.Fn? ==> ps.Typed? && r.value.fn.params == ps.params)
    decreases s.Left(j), 21
  {
    if BlockFollows(s, j) && ((ps.Typed? && ps.params.forwarding.Some?) || !blocks) then Refuse(e, s.At(j))
    else
      var block := BlockAt(s, j, e, sc);
      if block.Fail? then Fail(block.error)
      else
        var ret := ReturnAt(s, block.pos, block.err, sc);
        if ret.Fail? then Fail(ret.error)
        else
          Ok(FunctionResult(MakeFunction(ps, ret.value, Spanning(s.Current(i), s.At(ret.pos - 1))),
                            block.value, self),
             ret.pos, ret.err)
  }
}
