/** What src/parser.c accepts as declarations and their members: for every routine the tree it builds, the token it stops
    at and the error it leaves, as functions of the token stream; and lexical scoping, which every accepted declaration
    obeys. */
module DeclGrammar {
  import opened Ast
  import opened Grammar
  import opened MethodTypes
  import opened Tokens
  import opened Uses
  import opened WellFormed

  datatype MemberKind = InstanceKind | SingletonKind | InstanceSingletonKind

  datatype Visibility = Unspecified | Public | Private

  datatype MixinKind = Include | Extend | Prepend

  datatype AttrKind = Reader | Writer | Accessor

  // `attr_reader a: T`, `attr_reader a (): T` and `attr_reader a (@b): T`.
  datatype Ivar = Inferred | NoIvar | Ivar(ivar: string)

  datatype Mixin = Mixin(name: TypeName, args: seq<Type>)

  datatype Overload = Overload(annotations: seq<string>, methodType: MethodType)

  datatype Decl =
    | Constant(annotations: seq<string>, name: TypeName, ty: Type)
    | Global(annotations: seq<string>, globalName: string, ty: Type)
    | TypeAlias(annotations: seq<string>, name: TypeName, params: seq<TypeParam>, ty: Type)
    | InterfaceDecl(annotations: seq<string>, name: TypeName, params: seq<TypeParam>, members: seq<Member>)
    | ModuleDecl(annotations: seq<string>, name: TypeName, params: seq<TypeParam>, selfTypes: seq<Mixin>,
                 members: seq<Member>)
    | ClassDecl(annotations: seq<string>, name: TypeName, params: seq<TypeParam>, super: Option<Mixin>,
                members: seq<Member>)
    | ModuleAlias(annotations: seq<string>, name: TypeName, oldName: TypeName)
    | ClassAlias(annotations: seq<string>, name: TypeName, oldName: TypeName)

  datatype Member =
    | MethodDef(annotations: seq<string>, visibility: Visibility, kind: MemberKind, methodName: string,
                overloads: seq<Overload>, overloading: bool)
    | MixinMember(annotations: seq<string>, mixinKind: MixinKind, mixin: Mixin)
    | AliasMember(annotations: seq<string>, newName: string, oldName: string, singleton: bool)
    | InstanceVariable(variable: string, ty: Type)
    | ClassVariable(variable: string, ty: Type)
    | ClassInstanceVariable(variable: string, ty: Type)
    | Attribute(annotations: seq<string>, visibility: Visibility, attrKind: AttrKind, kind: MemberKind,
                attribute: string, ivar: Ivar, ty: Type)
    | VisibilityMember(public: bool)
    | Nested(decl: Decl)

  // The annotations of a member; variables and visibilities have none.
  function NotesOf(m: Member): seq<string> {
    match m
    case MethodDef(notes, _, _, _, _, _) => notes
    case MixinMember(notes, _, _) => notes
    case AliasMember(notes, _, _, _) => notes
    case Attribute(notes, _, _, _, _, _, _) => notes
    case Nested(d) => d.annotations
    case _ => []
  }

  // The keywords of attributes and mixins.
  function AttrKeyword(k: AttrKind): TokenKind {
    match k
    case Reader => KW_ATTR_READER
    case Writer => KW_ATTR_WRITER
    case Accessor => KW_ATTR_ACCESSOR
  }

  function MixinKeyword(k: MixinKind): TokenKind {
    match k
    case Include => KW_INCLUDE
    case Extend => KW_EXTEND
    case Prepend => KW_PREPEND
  }

  // ---- lexical scoping -------------------------------------------------------------------------------

  ghost predicate WellMixin(m: Mixin, sc: Scope) {
    AllWell(m.args, true, sc)
  }

  // A declaration where the type variables `outer` are visible. Only constants and globals see them: the
  // others start from their own parameters. A nested declaration sees none at all.
  ghost predicate WellDecl(d: Decl, outer: set<string>, fwd: bool) {
    match d
    case Constant(_, n, t) => n.kind == ClassName && Well(t, false, Scope(outer, false, false))
    case Global(_, _, t) => Well(t, false, Scope(outer, false, false))
    case TypeAlias(_, n, ps, t) =>
      n.kind == AliasName && WellOwnParams(ps) && Well(t, false, Scope(NamesOf(ps), false, false))
    case InterfaceDecl(_, n, ps, ms) =>
      n.kind == InterfaceName && WellOwnParams(ps) && forall m <- ms :: WellMember(m, NamesOf(ps), true, fwd)
    case ModuleDecl(_, n, ps, selfs, ms) =>
      && n.kind == ClassName && WellOwnParams(ps)
      && (forall x <- selfs :: x.name.kind != AliasName && WellMixin(x, Scope(NamesOf(ps), false, false)))
      && forall m <- ms :: WellMember(m, NamesOf(ps), false, fwd)
    case ClassDecl(_, n, ps, super, ms) =>
      && n.kind == ClassName && WellOwnParams(ps)
      && (super.Some? ==> super.value.name.kind == ClassName && WellMixin(super.value, Scope(NamesOf(ps), false, false)))
      && forall m <- ms :: WellMember(m, NamesOf(ps), false, fwd)
    case ModuleAlias(_, n, was) => n.kind == ClassName && was.kind == ClassName
    case ClassAlias(_, n, was) => n.kind == ClassName && was.kind == ClassName
  }

  ghost predicate WellOwnParams(ps: seq<TypeParam>) {
    WellTypeParams(ps, {}) && ShapedTypeParams(ps, true)
  }

  // `...` stands only where the parser's option allows it.
  ghost predicate WellOverload(m: MethodType, vars: set<string>, classOk: bool, fwd: bool) {
    WellMethodType(m, vars, classOk) && (m.fn.Fn? && m.fn.params.forwarding.Some? ==> fwd)
  }

  ghost predicate WellOverloads(os: seq<Overload>, vars: set<string>, classOk: bool, fwd: bool) {
    forall o <- os :: WellOverload(o.methodType, vars, classOk, fwd)
  }

  // The parameters of a class are visible to what concerns its instances: instance methods, attributes and
  // variables, `include` and `prepend`. They are not visible to what concerns the class itself. Both at once, `self?`,
  // goes without a visibility, and a method is overloaded or has a type.
  ghost predicate WellMember(m: Member, vars: set<string>, inInterface: bool, fwd: bool) {
    match m
    case MethodDef(_, v, k, _, overloads, overloading) =>
      && (inInterface ==> v == Unspecified && k == InstanceKind) && (k == InstanceSingletonKind ==> v == Unspecified)
      && (overloads != [] || overloading)
      && WellOverloads(overloads, if k == InstanceKind then vars else {}, !inInterface, fwd)
    case MixinMember(_, k, x) =>
      && (inInterface ==> k == Include && x.name.kind == InterfaceName)
      && x.name.kind != AliasName
      && WellMixin(x, Scope(if k == Extend then {} else vars, false, !inInterface))
    case AliasMember(_, _, _, singleton) => inInterface ==> !singleton
    case InstanceVariable(_, t) => !inInterface && Well(t, false, Scope(vars, true, true))
    case ClassVariable(_, t) => !inInterface && Well(t, false, Scope({}, false, true))
    case ClassInstanceVariable(_, t) => !inInterface && Well(t, false, Scope({}, true, true))
    case Attribute(_, _, _, k, _, _, t) =>
      && !inInterface && k != InstanceSingletonKind
      && Well(t, false, Scope(if k == SingletonKind then {} else vars, true, true))
    case VisibilityMember(_) => !inInterface
    case Nested(d) => !inInterface && WellDecl(d, {}, fwd)
  }

  // ---- annotations -----------------------------------------------------------------------------------

  predicate IsSpace(c: char) {
    c == ' ' || '\t' <= c <= '\r'
  }

  function TrimFront(s: string): string {
    if s != "" && IsSpace(s[0]) then TrimFront(s[1..]) else s
  }

  function TrimBack(s: string): string {
    if s != "" && IsSpace(s[|s| - 1]) then TrimBack(s[..|s| - 1]) else s
  }

  // parse_annotation: what stands between the brackets after `%a`, without the white space around it.
  function AnnotationOf(t: Token): Option<string> {
    if |t.text| > 2 && t.text[2] in {'{', '(', '[', '<', '|'}
    then Some(TrimBack(TrimFront(if |t.text| > 3 then t.text[3..|t.text| - 1] else "")))
    else None
  }

  // parse_annotations.
  function AnnotationsAt(s: Stream, i: nat, e: Errors): (r: Outcome<seq<string>>)
    requires i <= |s.toks|
    ensures r.Ok? ==> i <= r.pos <= |s.toks| && r.err == e && s.Kind(r.pos) != ANNOTATION
    ensures Kept(e, r)
    decreases s.Left(i)
  {
    if s.Kind(i) != ANNOTATION then Ok([], i, e)
    else
      var a := AnnotationOf(s.At(i));
      if a.None? then Fail(FirstError(e, s.At(i), false)) else Prefixed([a.value], AnnotationsAt(s, i + 1, e))
  }

  // ---- members ---------------------------------------------------------------------------------------

  predicate IsWord(k: TokenKind) {
    k == UIDENT || k == LIDENT || k == ULIDENT || k == ULLIDENT || k == NON_ASCII_IDENT || IsReservedWord(k)
  }

  predicate IsOperator(k: TokenKind) {
    || k == BAR || k == HAT || k == AMP || k == STAR || k == STAR2 || k == LT || k == GT || k == AREF_OPR
    || k == OPERATOR
  }

  // A word that touches a `?` takes it in.
  predicate Queried(s: Stream, i: nat) {
    IsWord(s.Kind(i)) && s.Kind(i + 1) == QUESTION && s.Touching(i)
  }

  // parse_method_name.
  function MethodNameAt(s: Stream, i: nat, e: Errors): (r: Outcome<string>)
    ensures r.Ok? ==> i < r.pos <= |s.toks| && r.err == e
    ensures Kept(e, r)
  {
    var k, t := s.Kind(i), s.At(i);
    if IsWord(k) then if Queried(s, i) then Ok(t.text + "?", i + 2, e) else Ok(t.text, i + 1, e)
    else if k == QIDENT then Ok(t.unquoted, i + 1, e)
    else if k == BANG_IDENT || k == EQ_IDENT || IsOperator(k) then Ok(t.text, i + 1, e)
    else Refuse(e, t)
  }

  // parse_instance_singleton_kind.
  function KindAt(s: Stream, i: nat, allowSelfq: bool): MemberKind {
    if s.Kind(i) == KW_SELF && s.Kind(i + 1) == DOT then SingletonKind
    else if s.Kind(i) == KW_SELF && s.Kind(i + 1) == QUESTION && s.At(i).end.charPos == s.At(i + 1).start.charPos
            && s.Kind(i + 2) == DOT && allowSelfq then InstanceSingletonKind
    else InstanceKind
  }

  // How many tokens the kind takes.
  function KindWidth(k: MemberKind): nat {
    match k
    case InstanceKind => 0
    case SingletonKind => 2
    case InstanceSingletonKind => 3
  }

  // The name in a method definition and its colon.
  function DefNameAt(s: Stream, i: nat, e: Errors): (r: Outcome<string>)
    ensures r.Ok? ==> i < r.pos <= |s.toks| && r.err == e
    ensures Kept(e, r)
  {
    var n := MethodNameAt(s, i, e);
    if n.Fail? then n
    else if s.Kind(n.pos) != COLON then Refuse(n.err, s.At(n.pos))
    else Ok(n.value, n.pos + 1, n.err)
  }

  // rbs_parse_method_type as a member definition calls it.
  function OverloadAt(s: Stream, i: nat, e: Errors, vars: set<string>, classOk: bool, fwd: bool): (r: Outcome<MethodType>)
    requires i <= |s.toks|
    ensures r.Ok? ==> i < r.pos <= |s.toks| && WellOverload(r.value, vars, classOk, fwd)
    ensures Kept(e, r)
  {
    hide WellMethodType;
    AcceptedMethodTypes(s, i, e, vars, false, classOk, fwd);
    MethodTypeAt(s, i, e, vars, false, classOk, fwd)
  }

  // The loop of parse_member_def over method types. After `...` it ends, but a `|` is still read.
  function OverloadsAt(s: Stream, i: nat, e: Errors, vars: set<string>, classOk: bool, fwd: bool, acc: seq<Overload>)
    : (r: Outcome<(seq<Overload>, bool)>)
    requires i <= |s.toks|
    ensures r.Ok? ==> i < r.pos <= |s.toks| && (r.value.0 != [] || r.value.1)
    ensures Kept(e, r)
    ensures r.Ok? && WellOverloads(acc, vars, classOk, fwd) ==> WellOverloads(r.value.0, vars, classOk, fwd)
    decreases s.Left(i)
  {
    hide WellOverload, OverloadAt;
    var a := AnnotationsAt(s, i, e);
    if a.Fail? then Fail(a.error)
    else if s.Kind(a.pos) in {LPAREN, ARROW, LBRACE, LBRACKET, QUESTION} then
      var m := OverloadAt(s, a.pos, a.err, vars, classOk, fwd);
      if m.Fail? then Fail(m.error)
      else
        var o := Overload(a.value, m.value);
        var more := acc + [o];
        assert more[|acc|] == o && forall x <- more :: x in acc || x == o;
        if s.Kind(m.pos) == BAR then OverloadsAt(s, m.pos + 1, m.err, vars, classOk, fwd, more)
        else Ok((more, false), m.pos, m.err)
    else if s.Kind(a.pos) == DOT3 then
      Ok((acc, true), if s.Kind(a.pos + 1) == BAR then a.pos + 2 else a.pos + 1, a.err)
    else Refuse(a.err, s.At(a.pos))
  }

  function VisibilityOf(k: TokenKind): Visibility {
    if k == KW_PUBLIC then Public else if k == KW_PRIVATE then Private else Unspecified
  }

  // parse_member_def; its first token is number `c`.
  function MethodDefAt(s: Stream, c: nat, e: Errors, vars: set<string>, instanceOnly: bool, fwd: bool, notes: seq<string>)
    : (r: Outcome<Member>)
    requires instanceOnly ==> VisibilityOf(s.Kind(c)) == Unspecified
    ensures r.Ok? ==> c < r.pos <= |s.toks|
    ensures Kept(e, r)
    ensures r.Ok? ==> WellMember(r.value, vars, instanceOnly, fwd)
  {
    hide WellOverloads, OverloadsAt, DefNameAt;
    var v := VisibilityOf(s.Kind(c));
    var i := if v == Unspecified then c + 1 else c + 2;
    var kind := if instanceOnly then InstanceKind else KindAt(s, i, v == Unspecified);
    var n := DefNameAt(s, i + KindWidth(kind), e);
    if n.Fail? then Fail(n.error)
    else
      NoOverloads(if kind == InstanceKind then vars else {}, !instanceOnly, fwd);
      var os := OverloadsAt(s, n.pos, n.err, if kind == InstanceKind then vars else {}, !instanceOnly, fwd, []);
      if os.Fail? then Fail(os.error)
      else Ok(MethodDef(notes, v, kind, n.value, os.value.0, os.value.1), os.pos, os.err)
  }

  lemma NoOverloads(vars: set<string>, classOk: bool, fwd: bool)
    ensures WellOverloads([], vars, classOk, fwd)
  {}

  // class_instance_name after its first advance, and a self type of a module.
  function MixinAt(s: Stream, c: nat, e: Errors, kinds: set<NameKind>, sc: Scope): (r: Outcome<Mixin>)
    ensures r.Ok? ==> c < r.pos <= |s.toks|
    ensures Kept(e, r)
    ensures r.Ok? ==> r.value.name.kind in kinds && WellMixin(r.value, sc)
  {
    hide AllWell, TypeNameAt, TypeArgsAt, KindOfName;
    var n := TypeNameAt(s, c, e, kinds);
    if n.Fail? then Fail(n.error)
    else
      var a := TypeArgsAt(s, n.pos, n.err, sc);
      if a.Fail? then Fail(a.error) else Ok(Mixin(n.value, a.value.0), a.pos, a.err)
  }

  // parse_mixin_member.
  function MixinMemberAt(s: Stream, c: nat, e: Errors, vars: set<string>, fromInterface: bool, notes: seq<string>)
    : (r: Outcome<Member>)
    ensures r.Ok? ==> c < r.pos <= |s.toks|
    ensures Kept(e, r)
    ensures r.Ok? ==> forall fwd :: WellMember(r.value, vars, fromInterface, fwd)
  {
    hide WellMixin, MixinAt;
    var kind := if s.Kind(c) == KW_INCLUDE then Include else if s.Kind(c) == KW_EXTEND then Extend else Prepend;
    if fromInterface && kind != Include then Refuse(e, s.At(c))
    else
      var x := MixinAt(s, c + 1, e, if fromInterface then {InterfaceName} else {InterfaceName, ClassName},
                       Scope(if kind == Extend then {} else vars, false, !fromInterface));
      if x.Fail? then Fail(x.error) else Ok(MixinMember(notes, kind, x.value), x.pos, x.err)
  }

  // `self` `.` and a name.
  function SelfNameAt(s: Stream, i: nat, e: Errors): (r: Outcome<string>)
    ensures r.Ok? ==> i < r.pos <= |s.toks| && r.err == e
    ensures Kept(e, r)
  {
    if s.Kind(i) != KW_SELF then Refuse(e, s.At(i))
    else if s.Kind(i + 1) != DOT then Refuse(e, s.At(i + 1))
    else MethodNameAt(s, i + 2, e)
  }

  // parse_alias_member.
  function AliasMemberAt(s: Stream, c: nat, e: Errors, instanceOnly: bool, notes: seq<string>): (r: Outcome<Member>)
    ensures r.Ok? ==> c < r.pos <= |s.toks| && r.err == e
    ensures Kept(e, r)
    ensures r.Ok? ==> forall vars, fwd :: WellMember(r.value, vars, instanceOnly, fwd)
  {
    hide MethodNameAt;
    var singleton := !instanceOnly && s.Kind(c + 1) == KW_SELF;
    var n := if singleton then SelfNameAt(s, c + 1, e) else MethodNameAt(s, c + 1, e);
    if n.Fail? then Fail(n.error)
    else
      var prior := if singleton then SelfNameAt(s, n.pos, n.err) else MethodNameAt(s, n.pos, n.err);
      if prior.Fail? then Fail(prior.error) else Ok(AliasMember(notes, n.value, prior.value, singleton), prior.pos, prior.err)
  }

  // `:` and a type.
  function ColonTypeAt(s: Stream, i: nat, e: Errors, sc: Scope): (r: Outcome<Type>)
    ensures r.Ok? ==> i < r.pos <= |s.toks|
    ensures Kept(e, r)
    ensures r.Ok? ==> Well(r.value, false, sc)
  {
    if s.Kind(i) != COLON then Refuse(e, s.At(i)) else TypeAt(s, i + 1, e, false, sc)
  }

  // parse_variable_member.
  function VariableMemberAt(s: Stream, c: nat, e: Errors, vars: set<string>, notes: seq<string>): (r: Outcome<Member>)
    ensures r.Ok? ==> c < r.pos <= |s.toks|
    ensures Kept(e, r)
    ensures r.Ok? ==> forall fwd :: WellMember(r.value, vars, false, fwd)
  {
    hide Well, TypeAt;
    if notes != [] then Refuse(e, s.At(c))
    else if s.Kind(c) == KW_SELF then
      if s.Kind(c + 1) != DOT then Refuse(e, s.At(c + 1))
      else if s.Kind(c + 2) !in {AIDENT, KW_AT_RBS} then Fail(FirstError(e, s.At(c + 1), false))
      else
        var t := ColonTypeAt(s, c + 3, e, Scope({}, true, true));
        if t.Fail? then Fail(t.error) else Ok(ClassInstanceVariable(s.At(c + 2).text, t.value), t.pos, t.err)
    else if s.Kind(c) == A2IDENT then
      var t := ColonTypeAt(s, c + 1, e, Scope({}, false, true));
      if t.Fail? then Fail(t.error) else Ok(ClassVariable(s.At(c).text, t.value), t.pos, t.err)
    else
      var t := ColonTypeAt(s, c + 1, e, Scope(vars, true, true));
      if t.Fail? then Fail(t.error) else Ok(InstanceVariable(s.At(c).text, t.value), t.pos, t.err)
  }

  // The optional instance variable of parse_attribute_member.
  function IvarAt(s: Stream, i: nat, e: Errors): (r: Outcome<Ivar>)
    requires i <= |s.toks|
    ensures r.Ok? ==> i <= r.pos <= |s.toks| && r.err == e
    ensures Kept(e, r)
  {
    if s.Kind(i) != LPAREN then Ok(Inferred, i, e)
    else if s.Kind(i + 1) in {AIDENT, KW_AT_RBS} then
      if s.Kind(i + 2) != RPAREN then Refuse(e, s.At(i + 2)) else Ok(Ivar(s.At(i + 1).text), i + 3, e)
    else if s.Kind(i + 1) != RPAREN then Refuse(e, s.At(i + 1))
    else Ok(NoIvar, i + 2, e)
  }

  function AttrKindOf(k: TokenKind): AttrKind {
    if k == KW_ATTR_READER then Reader else if k == KW_ATTR_WRITER then Writer else Accessor
  }

  // parse_attribute_member.
  function AttributeMemberAt(s: Stream, c: nat, e: Errors, vars: set<string>, notes: seq<string>): (r: Outcome<Member>)
    ensures r.Ok? ==> c < r.pos <= |s.toks|
    ensures Kept(e, r)
    ensures r.Ok? ==> forall fwd :: WellMember(r.value, vars, false, fwd)
  {
    hide Well, TypeAt, MethodNameAt;
    var v := VisibilityOf(s.Kind(c));
    var a := if v == Unspecified then c else c + 1;
    var kind := KindAt(s, a + 1, false);
    var n := MethodNameAt(s, a + 1 + KindWidth(kind), e);
    if n.Fail? then Fail(n.error)
    else
      var ivar := IvarAt(s, n.pos, n.err);
      if ivar.Fail? then Fail(ivar.error)
      else
        var t := ColonTypeAt(s, ivar.pos, ivar.err, Scope(if kind == SingletonKind then {} else vars, true, true));
        if t.Fail? then Fail(t.error)
        else Ok(Attribute(notes, v, AttrKindOf(s.Kind(a)), kind, n.value, ivar.value, t.value), t.pos, t.err)
  }

  // parse_visibility_member.
  function VisibilityMemberAt(s: Stream, c: nat, e: Errors, notes: seq<string>): (r: Outcome<Member>)
    requires c < |s.toks|
    ensures r.Ok? ==> c < r.pos <= |s.toks| && forall vars, fwd :: WellMember(r.value, vars, false, fwd)
    ensures Kept(e, r)
  {
    if notes != [] then Refuse(e, s.At(c)) else Ok(VisibilityMember(s.Kind(c) == KW_PUBLIC), c + 1, e)
  }

  ghost predicate WellMembers(ms: seq<Member>, vars: set<string>, inInterface: bool, fwd: bool) {
    forall m <- ms :: WellMember(m, vars, inInterface, fwd)
  }

  // The switch of parse_interface_members; the member's first token is number `c`.
  function InterfaceMemberAt(s: Stream, c: nat, e: Errors, vars: set<string>, fwd: bool, notes: seq<string>)
    : (r: Outcome<Member>)
    ensures r.Ok? ==> c < r.pos <= |s.toks|
    ensures Kept(e, r)
    ensures r.Ok? ==> WellMember(r.value, vars, true, fwd)
  {
    hide WellMember, MethodDefAt, MixinMemberAt, AliasMemberAt;
    var k := s.Kind(c);
    if k == KW_DEF then MethodDefAt(s, c, e, vars, true, fwd, notes)
    else if k in {KW_INCLUDE, KW_EXTEND, KW_PREPEND} then MixinMemberAt(s, c, e, vars, true, notes)
    else if k == KW_ALIAS then AliasMemberAt(s, c, e, true, notes)
    else Refuse(e, s.At(c))
  }

  // parse_interface_members, up to the `end`.
  function InterfaceMembersAt(s: Stream, i: nat, e: Errors, vars: set<string>, fwd: bool, acc: seq<Member>)
    : (r: Outcome<seq<Member>>)
    requires i <= |s.toks|
    ensures r.Ok? ==> i <= r.pos < |s.toks| && s.Kind(r.pos) == KW_END
    ensures Kept(e, r)
    ensures r.Ok? && WellMembers(acc, vars, true, fwd) ==> WellMembers(r.value, vars, true, fwd)
    decreases s.Left(i)
  {
    hide WellMember, InterfaceMemberAt;
    if s.Kind(i) == KW_END then Ok(acc, i, e)
    else
      var a := AnnotationsAt(s, i, e);
      if a.Fail? then Fail(a.error)
      else
        var m := InterfaceMemberAt(s, a.pos, a.err, vars, fwd, a.value);
        if m.Fail? then Fail(m.error) else InterfaceMembersAt(s, m.pos, m.err, vars, fwd, acc + [m.value])
  }

  // ---- declarations ----------------------------------------------------------------------------------

  // The parameters of a declaration, in a scope of their own.
  function OwnParamsAt(s: Stream, i: nat, e: Errors): (r: Outcome<seq<TypeParam>>)
    requires i <= |s.toks|
    ensures r.Ok? ==> i <= r.pos <= |s.toks| && WellOwnParams(r.value)
    ensures Kept(e, r)
  {
    OwnParamsAreWell(s, i, e);
    TypeParamsAt(s, i, e, {}, true)
  }

  lemma OwnParamsAreWell(s: Stream, i: nat, e: Errors)
    requires i <= |s.toks|
    ensures var r := TypeParamsAt(s, i, e, {}, true); r.Ok? ==> WellOwnParams(r.value)
  {
    assert MethodTypes.Read([], {}, {}, true, true);
    AcceptedTypeParams(s, i + 1, e, {}, {}, true, true, []);
  }

  // parse_const_decl and parse_global_decl.
  function ValueDeclAt(s: Stream, c: nat, e: Errors, vars: set<string>, notes: seq<string>): (r: Outcome<Decl>)
    ensures r.Ok? ==> c < r.pos <= |s.toks|
    ensures Kept(e, r)
    ensures r.Ok? ==> forall fwd :: WellDecl(r.value, vars, fwd)
  {
    hide Well, TypeAt, TypeNameAt, KindOfName;
    if s.Kind(c) == GIDENT then
      var t := ColonTypeAt(s, c + 1, e, Scope(vars, false, false));
      if t.Fail? then Fail(t.error) else Ok(Global(notes, s.At(c).text, t.value), t.pos, t.err)
    else
      var n := TypeNameAt(s, c, e, {ClassName});
      if n.Fail? then Fail(n.error)
      else
        var t := ColonTypeAt(s, n.pos, n.err, Scope(vars, false, false));
        if t.Fail? then Fail(t.error) else Ok(Constant(notes, n.value, t.value), t.pos, t.err)
  }

  // parse_type_decl.
  function TypeDeclAt(s: Stream, c: nat, e: Errors, vars: set<string>, notes: seq<string>): (r: Outcome<Decl>)
    ensures r.Ok? ==> c < r.pos <= |s.toks|
    ensures Kept(e, r)
    ensures r.Ok? ==> forall fwd :: WellDecl(r.value, vars, fwd)
  {
    hide Well, WellOwnParams, NamesOf, TypeAt, TypeNameAt, OwnParamsAt, KindOfName;
    var n := TypeNameAt(s, c + 1, e, {AliasName});
    if n.Fail? then Fail(n.error)
    else
      var ps := OwnParamsAt(s, n.pos, n.err);
      if ps.Fail? then Fail(ps.error)
      else if s.Kind(ps.pos) != EQ then Refuse(ps.err, s.At(ps.pos))
      else
        var t := TypeAt(s, ps.pos + 1, ps.err, false, Scope(NamesOf(ps.value), false, false));
        if t.Fail? then Fail(t.error) else Ok(TypeAlias(notes, n.value, ps.value, t.value), t.pos, t.err)
  }

  // parse_interface_decl.
  function InterfaceDeclAt(s: Stream, c: nat, e: Errors, vars: set<string>, fwd: bool, notes: seq<string>): (r: Outcome<Decl>)
    ensures r.Ok? ==> c < r.pos <= |s.toks|
    ensures Kept(e, r)
    ensures r.Ok? ==> WellDecl(r.value, vars, fwd)
  {
    hide WellMember, WellOwnParams, NamesOf, TypeNameAt, OwnParamsAt, InterfaceMembersAt, KindOfName;
    var n := TypeNameAt(s, c + 1, e, {InterfaceName});
    if n.Fail? then Fail(n.error)
    else
      var ps := OwnParamsAt(s, n.pos, n.err);
      if ps.Fail? then Fail(ps.error)
      else
        var ms := InterfaceMembersAt(s, ps.pos, ps.err, NamesOf(ps.value), fwd, []);
        if ms.Fail? then Fail(ms.error) else Ok(InterfaceDecl(notes, n.value, ps.value, ms.value), ms.pos + 1, ms.err)
  }

  ghost predicate WellSelfTypes(xs: seq<Mixin>, vars: set<string>) {
    forall x <- xs :: x.name.kind != AliasName && WellMixin(x, Scope(vars, false, false))
  }

  // The optional self types of a module, each after the separator: the first after a colon.
  function SelfTypesAt(s: Stream, i: nat, e: Errors, vars: set<string>, acc: seq<Mixin>): (r: Outcome<seq<Mixin>>)
    requires i <= |s.toks|
    ensures r.Ok? ==> i <= r.pos <= |s.toks|
    ensures Kept(e, r)
    ensures r.Ok? && WellSelfTypes(acc, vars) ==> WellSelfTypes(r.value, vars)
    decreases s.Left(i)
  {
    hide WellMixin, MixinAt;
    if s.Kind(i) != (if acc == [] then COLON else COMMA) then Ok(acc, i, e)
    else
      var x := MixinAt(s, i + 1, e, {ClassName, InterfaceName}, Scope(vars, false, false));
      if x.Fail? then Fail(x.error) else SelfTypesAt(s, x.pos, x.err, vars, acc + [x.value])
  }

  // parse_class_decl_super.
  function SuperAt(s: Stream, i: nat, e: Errors, vars: set<string>): (r: Outcome<Option<Mixin>>)
    requires i <= |s.toks|
    ensures r.Ok? ==> i <= r.pos <= |s.toks|
    ensures Kept(e, r)
    ensures r.Ok? && r.value.Some? ==>
              r.value.value.name.kind == ClassName && WellMixin(r.value.value, Scope(vars, false, false))
  {
    hide WellMixin, MixinAt;
    if s.Kind(i) != LT then Ok(None, i, e)
    else
      var x := MixinAt(s, i + 1, e, {ClassName}, Scope(vars, false, false));
      if x.Fail? then Fail(x.error) else Ok(Some(x.value), x.pos, x.err)
  }

  // Whether a `public` or `private` belongs to what follows it on its line.
  predicate OneLine(s: Stream, c: nat) {
    s.At(c + 1).start.line == s.At(c).start.line
  }

  // The switch of parse_module_members, for classes too.
  function MemberAt(s: Stream, c: nat, e: Errors, vars: set<string>, fwd: bool, notes: seq<string>): (r: Outcome<Member>)
    requires c < |s.toks|
    ensures r.Ok? ==> c < r.pos <= |s.toks|
    ensures Kept(e, r)
    ensures r.Ok? ==> WellMember(r.value, vars, false, fwd)
    decreases s.Left(c), 3
  {
    hide WellDecl, WellOverloads, WellMixin, Well, MethodDefAt, MixinMemberAt, AliasMemberAt, VariableMemberAt,
      AttributeMemberAt, VisibilityMemberAt;
    var k := s.Kind(c);
    if k == KW_DEF then MethodDefAt(s, c, e, vars, false, fwd, notes)
    else if k in {KW_INCLUDE, KW_EXTEND, KW_PREPEND} then MixinMemberAt(s, c, e, vars, false, notes)
    else if k == KW_ALIAS then AliasMemberAt(s, c, e, false, notes)
    else if k in {AIDENT, A2IDENT, KW_AT_RBS, KW_SELF} then VariableMemberAt(s, c, e, vars, notes)
    else if k in {KW_ATTR_READER, KW_ATTR_WRITER, KW_ATTR_ACCESSOR} then AttributeMemberAt(s, c, e, vars, notes)
    else if k in {KW_PUBLIC, KW_PRIVATE} then
      if !OneLine(s, c) then VisibilityMemberAt(s, c, e, notes)
      else if s.Kind(c + 1) == KW_DEF then MethodDefAt(s, c, e, vars, false, fwd, notes)
      else if s.Kind(c + 1) in {KW_ATTR_READER, KW_ATTR_WRITER, KW_ATTR_ACCESSOR} then AttributeMemberAt(s, c, e, vars, notes)
      else Refuse(e, s.At(c + 1))
    else
      var d := DeclHereAt(s, c, e, {}, fwd, notes);
      if d.Fail? then Fail(d.error) else Ok(Nested(d.value), d.pos, d.err)
  }

  // parse_module_members, up to the `end`.
  function MembersAt(s: Stream, i: nat, e: Errors, vars: set<string>, fwd: bool, acc: seq<Member>)
    : (r: Outcome<seq<Member>>)
    requires i <= |s.toks|
    ensures r.Ok? ==> i <= r.pos < |s.toks| && s.Kind(r.pos) == KW_END
    ensures Kept(e, r)
    ensures r.Ok? && WellMembers(acc, vars, false, fwd) ==> WellMembers(r.value, vars, false, fwd)
    decreases s.Left(i), 4
  {
    hide WellMember;
    if s.Kind(i) == KW_END then Ok(acc, i, e)
    else
      var a := AnnotationsAt(s, i, e);
      if a.Fail? then Fail(a.error)
      else if s.Kind(a.pos) == EOF then Refuse(a.err, s.At(a.pos))
      else
        var m := MemberAt(s, a.pos, a.err, vars, fwd, a.value);
        if m.Fail? then Fail(m.error) else MembersAt(s, m.pos, m.err, vars, fwd, acc + [m.value])
  }

  // The switch of parse_decl and parse_nested_decl; the declaration's first token is number `c`.
  function DeclHereAt(s: Stream, c: nat, e: Errors, vars: set<string>, fwd: bool, notes: seq<string>): (r: Outcome<Decl>)
    ensures r.Ok? ==> c < r.pos <= |s.toks|
    ensures Kept(e, r)
    ensures r.Ok? ==> WellDecl(r.value, vars, fwd)
    decreases s.Left(c), 2
  {
    hide WellDecl, ValueDeclAt, TypeDeclAt, InterfaceDeclAt;
    var k := s.Kind(c);
    if k in {UIDENT, COLON2, GIDENT} then ValueDeclAt(s, c, e, vars, notes)
    else if k == KW_TYPE then TypeDeclAt(s, c, e, vars, notes)
    else if k == KW_INTERFACE then InterfaceDeclAt(s, c, e, vars, fwd, notes)
    else if k == KW_MODULE then ModuleDeclAt(s, c, e, vars, fwd, notes)
    else if k == KW_CLASS then ClassDeclAt(s, c, e, vars, fwd, notes)
    else Refuse(e, s.At(c))
  }

  // parse_module_decl.
  function ModuleDeclAt(s: Stream, c: nat, e: Errors, vars: set<string>, fwd: bool, notes: seq<string>): (r: Outcome<Decl>)
    requires c < |s.toks|
    ensures r.Ok? ==> c < r.pos <= |s.toks|
    ensures Kept(e, r)
    ensures r.Ok? ==> WellDecl(r.value, vars, fwd)
    decreases s.Left(c), 1
  {
    hide WellMember, WellOwnParams, TypeNameAt, KindOfName, NamesOf;
    var n := TypeNameAt(s, c + 1, e, {ClassName});
    if n.Fail? then Fail(n.error)
    else if s.Kind(n.pos) == EQ then
      var prior := TypeNameAt(s, n.pos + 1, n.err, {ClassName});
      if prior.Fail? then Fail(prior.error) else Ok(ModuleAlias(notes, n.value, prior.value), prior.pos, prior.err)
    else ModuleBodyAt(s, n.pos, n.err, vars, fwd, notes, n.value)
  }

  // parse_module_decl0: a module after its name.
  function ModuleBodyAt(s: Stream, i: nat, e: Errors, vars: set<string>, fwd: bool, notes: seq<string>, name: TypeName)
    : (r: Outcome<Decl>)
    requires i <= |s.toks| && name.kind == ClassName
    ensures r.Ok? ==> i < r.pos <= |s.toks|
    ensures Kept(e, r)
    ensures r.Ok? ==> WellDecl(r.value, vars, fwd)
    decreases s.Left(i), 5
  {
    hide WellMember, WellMixin, WellOwnParams, NamesOf, OwnParamsAt, SelfTypesAt;
    var ps := OwnParamsAt(s, i, e);
    if ps.Fail? then Fail(ps.error)
    else
      var selfs := SelfTypesAt(s, ps.pos, ps.err, NamesOf(ps.value), []);
      if selfs.Fail? then Fail(selfs.error)
      else
        var ms := MembersAt(s, selfs.pos, selfs.err, NamesOf(ps.value), fwd, []);
        if ms.Fail? then Fail(ms.error)
        else Ok(ModuleDecl(notes, name, ps.value, selfs.value, ms.value), ms.pos + 1, ms.err)
  }

  // parse_class_decl.
  function ClassDeclAt(s: Stream, c: nat, e: Errors, vars: set<string>, fwd: bool, notes: seq<string>): (r: Outcome<Decl>)
    requires c < |s.toks|
    ensures r.Ok? ==> c < r.pos <= |s.toks|
    ensures Kept(e, r)
    ensures r.Ok? ==> WellDecl(r.value, vars, fwd)
    decreases s.Left(c), 1
  {
    hide WellMember, WellOwnParams, TypeNameAt, KindOfName, NamesOf;
    var n := TypeNameAt(s, c + 1, e, {ClassName});
    if n.Fail? then Fail(n.error)
    else if s.Kind(n.pos) == EQ then
      var prior := TypeNameAt(s, n.pos + 1, n.err, {ClassName});
      if prior.Fail? then Fail(prior.error) else Ok(ClassAlias(notes, n.value, prior.value), prior.pos, prior.err)
    else ClassBodyAt(s, n.pos, n.err, vars, fwd, notes, n.value)
  }

  // parse_class_decl0: a class after its name.
  function ClassBodyAt(s: Stream, i: nat, e: Errors, vars: set<string>, fwd: bool, notes: seq<string>, name: TypeName)
    : (r: Outcome<Decl>)
    requires i <= |s.toks| && name.kind == ClassName
    ensures r.Ok? ==> i < r.pos <= |s.toks|
    ensures Kept(e, r)
    ensures r.Ok? ==> WellDecl(r.value, vars, fwd)
    decreases s.Left(i), 5
  {
    hide WellMember, WellMixin, WellOwnParams, NamesOf, OwnParamsAt, SuperAt;
    var ps := OwnParamsAt(s, i, e);
    if ps.Fail? then Fail(ps.error)
    else
      var super := SuperAt(s, ps.pos, ps.err, NamesOf(ps.value));
      if super.Fail? then Fail(super.error)
      else
        var ms := MembersAt(s, super.pos, super.err, NamesOf(ps.value), fwd, []);
        if ms.Fail? then Fail(ms.error)
        else Ok(ClassDecl(notes, name, ps.value, super.value, ms.value), ms.pos + 1, ms.err)
  }

  // parse_decl.
  function DeclAt(s: Stream, i: nat, e: Errors, vars: set<string>, fwd: bool): (r: Outcome<Decl>)
    requires i <= |s.toks|
    ensures r.Ok? ==> i < r.pos <= |s.toks|
    ensures Kept(e, r)
    ensures r.Ok? ==> WellDecl(r.value, vars, fwd)
  {
    hide WellDecl, DeclHereAt;
    var a := AnnotationsAt(s, i, e);
    if a.Fail? then Fail(a.error) else DeclHereAt(s, a.pos, a.err, vars, fwd, a.value)
  }

  ghost predicate WellDecls(ds: seq<Decl>, vars: set<string>, fwd: bool) {
    forall d <- ds :: WellDecl(d, vars, fwd)
  }

  // The declarations up to the end of the input.
  function DeclsAt(s: Stream, i: nat, e: Errors, vars: set<string>, fwd: bool, acc: seq<Decl>): (r: Outcome<seq<Decl>>)
    requires i <= |s.toks|
    ensures r.Ok? ==> i <= r.pos <= |s.toks| && s.Kind(r.pos) == EOF
    ensures Kept(e, r)
    ensures r.Ok? && WellDecls(acc, vars, fwd) ==> WellDecls(r.value, vars, fwd)
    decreases s.Left(i)
  {
    hide WellDecl, DeclAt;
    if s.Kind(i) == EOF then Ok(acc, i, e)
    else
      var d := DeclAt(s, i, e, vars, fwd);
      if d.Fail? then Fail(d.error) else DeclsAt(s, d.pos, d.err, vars, fwd, acc + [d.value])
  }

  datatype Signature = Signature(directives: seq<seq<UseClause>>, decls: seq<Decl>)

  // rbs_parse_signature.
  function SignatureAt(s: Stream, i: nat, e: Errors, vars: set<string>, fwd: bool): (r: Outcome<Signature>)
    requires i <= |s.toks|
    ensures r.Ok? ==> i <= r.pos <= |s.toks| && s.Kind(r.pos) == EOF
    ensures Kept(e, r)
    ensures r.Ok? ==> WellDecls(r.value.decls, vars, fwd)
  {
    hide WellDecl, DirectivesAt, DeclsAt;
    var uses := DirectivesAt(s, i, e);
    if uses.Fail? then Fail(uses.error)
    else
      var ds := DeclsAt(s, uses.pos, uses.err, vars, fwd, []);
      if ds.Fail? then Fail(ds.error) else Ok(Signature(uses.value, ds.value), ds.pos, ds.err)
  }
}
