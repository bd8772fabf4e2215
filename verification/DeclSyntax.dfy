/** What the parser reads as type parameters, method types, members and declarations, told without it: whatever is accepted
    is written in the tokens that were read. */
module DeclSyntax {
  import opened Ast
  import opened DeclGrammar
  import opened Grammar
  import opened MethodTypes
  import opened Printer
  import opened Syntax
  import opened Tokens
  import opened Uses
  import opened WellFormed

  // ---- method types ----------------------------------------------------------------------------------

  // A type in some scope, alone or as a part of something.
  ghost predicate IsWritten(s: Stream, i: nat, j: nat, t: Type) {
    exists sc: Scope :: IsType(s, sc, i, j, t, 0)
  }

  // Nothing, or a token of kind `k` and a type.
  ghost predicate IsMarked(s: Stream, i: nat, j: nat, k: TokenKind, t: Option<Type>) {
    if t.None? then i == j else i < j && s.Kind(i) == k && IsWritten(s, i + 1, j, t.value)
  }

  // The bounds, in any order.
  ghost predicate IsBounds(s: Stream, i: nat, j: nat, b: Bounds) {
    exists m: nat :: i <= m <= j &&
      ((IsMarked(s, i, m, LT, b.upper) && IsMarked(s, m, j, GT, b.lower))
       || (IsMarked(s, i, m, GT, b.lower) && IsMarked(s, m, j, LT, b.upper)))
  }

  function VarianceToken(v: Variance): Option<TokenKind> {
    match v
    case Invariant => None
    case Covariant => Some(KW_OUT)
    case Contravariant => Some(KW_IN)
  }

  // `unchecked`, the variance, the name, the bounds and the default.
  ghost predicate IsTypeParam(s: Stream, i: nat, j: nat, p: TypeParam) {
    var m := if p.unchecked then i + 1 else i;
    var n := if p.variance == Invariant then m else m + 1;
    && Spans(s, i, j, p.loc) && (p.unchecked ==> s.Kind(i) == KW_UNCHECKED)
    && (p.variance != Invariant ==> Some(s.Kind(m)) == VarianceToken(p.variance))
    && s.Kind(n) == UIDENT && s.At(n).text == p.name
    && exists k: nat :: n < k <= j && IsBounds(s, n + 1, k, Bounds(p.upper, p.lower)) && IsMarked(s, k, j, EQ, p.default)
  }

  ghost predicate IsTypeParamList(s: Stream, i: nat, j: nat, ps: seq<TypeParam>)
    decreases |ps|
  {
    && ps != []
    && if |ps| == 1 then IsTypeParam(s, i, j, ps[0])
       else exists m: nat :: m < j && IsTypeParam(s, i, m, ps[0]) && s.Kind(m) == COMMA && IsTypeParamList(s, m + 1, j, ps[1..])
  }

  ghost predicate IsTypeParams(s: Stream, i: nat, j: nat, ps: seq<TypeParam>) {
    if ps == [] then i == j
    else i + 1 < j && s.Kind(i) == LBRACKET && s.Kind(j - 1) == RBRACKET && IsTypeParamList(s, i + 1, j - 1, ps)
  }

  // The range of the function begins one token before it.
  ghost predicate IsMethodType(s: Stream, i: nat, j: nat, m: MethodType) {
    && Spans(s, i, j, m.loc)
    && exists n: nat, sc: Scope :: i <= n < j && IsTypeParams(s, i, n, m.typeParams)
                                   && IsFunction(s, sc, n, j, m.fn, m.block, None) && m.fn.loc == Spanning(s.Current(n), s.At(j - 1))
  }

  // ---- members ---------------------------------------------------------------------------------------

  predicate IsNotes(s: Stream, i: nat, j: nat, notes: seq<string>)
    decreases |notes|
  {
    if notes == [] then i == j
    else i < j && s.Kind(i) == ANNOTATION && AnnotationOf(s.At(i)) == Some(notes[0]) && IsNotes(s, i + 1, j, notes[1..])
  }

  predicate IsMethodName(s: Stream, i: nat, j: nat, n: string) {
    || (j == i + 1 && NamesMethod(s.At(i), n, true, false))
    || (j == i + 2 && n != "" && n[|n| - 1] == '?' && NamesMethod(s.At(i), n[..|n| - 1], true, true)
        && s.Kind(i + 1) == QUESTION && s.Touching(i))
  }

  predicate IsKind(s: Stream, i: nat, j: nat, k: MemberKind) {
    match k
    case InstanceKind => i == j
    case SingletonKind => j == i + 2 && s.Kind(i) == KW_SELF && s.Kind(i + 1) == DOT
    case InstanceSingletonKind =>
      && j == i + 3 && s.Kind(i) == KW_SELF && s.Kind(i + 1) == QUESTION && s.Kind(i + 2) == DOT
      && s.At(i).end.charPos == s.At(i + 1).start.charPos
  }

  // A visibility is on the line of what it belongs to.
  predicate IsVisibility(s: Stream, i: nat, j: nat, v: Visibility) {
    match v
    case Unspecified => i == j
    case Public => j == i + 1 && s.Kind(i) == KW_PUBLIC && OneLine(s, i)
    case Private => j == i + 1 && s.Kind(i) == KW_PRIVATE && OneLine(s, i)
  }

  // Overloads with `|` in between, and `...`, which drops the annotations before it and takes a `|` after it.
  ghost predicate IsOverloads(s: Stream, i: nat, j: nat, os: seq<Overload>, overloading: bool)
    decreases |os|
  {
    if os == [] then
      && overloading
      && exists m: nat, notes: seq<string> ::
           IsNotes(s, i, m, notes) && s.Kind(m) == DOT3 && (j == m + 1 || (j == m + 2 && s.Kind(m + 1) == BAR))
    else
      exists m: nat, n: nat ::
        && IsNotes(s, i, m, os[0].annotations) && IsMethodType(s, m, n, os[0].methodType)
        && if |os| == 1 && !overloading then n == j
           else s.Kind(n) == BAR && IsOverloads(s, n + 1, j, os[1..], overloading)
  }

  ghost predicate IsMixin(s: Stream, i: nat, j: nat, x: Mixin) {
    exists m: nat, loc: Location, sc: Scope :: IsName(s, i, m, x.name) && IsArgs(s, sc, m, j, x.args, loc)
  }

  predicate IsSelfName(s: Stream, i: nat, j: nat, singleton: bool, n: string) {
    if singleton then s.Kind(i) == KW_SELF && s.Kind(i + 1) == DOT && IsMethodName(s, i + 2, j, n) else IsMethodName(s, i, j, n)
  }

  predicate IsVariable(s: Stream, i: nat, n: string) {
    s.Kind(i) in {AIDENT, KW_AT_RBS} && s.At(i).text == n
  }

  predicate IsIvar(s: Stream, i: nat, j: nat, v: Ivar) {
    match v
    case Inferred => i == j
    case NoIvar => j == i + 2 && s.Kind(i) == LPAREN && s.Kind(i + 1) == RPAREN
    case Ivar(n) => j == i + 3 && s.Kind(i) == LPAREN && IsVariable(s, i + 1, n) && s.Kind(i + 2) == RPAREN
  }

  ghost predicate IsTyped(s: Stream, i: nat, j: nat, t: Type) {
    s.Kind(i) == COLON && IsWritten(s, i + 1, j, t)
  }

  // A method definition after its annotations.
  ghost predicate IsMethodDef(s: Stream, i: nat, j: nat, m: Member)
    requires m.MethodDef?
  {
    exists a: nat, b: nat, c: nat ::
      && IsVisibility(s, i, a, m.visibility) && s.Kind(a) == KW_DEF && IsKind(s, a + 1, b, m.kind)
      && IsMethodName(s, b, c, m.methodName) && s.Kind(c) == COLON && IsOverloads(s, c + 1, j, m.overloads, m.overloading)
  }

  ghost predicate IsAttribute(s: Stream, i: nat, j: nat, m: Member)
    requires m.Attribute?
  {
    exists a: nat, b: nat, c: nat, d: nat ::
      && IsVisibility(s, i, a, m.visibility) && s.Kind(a) == AttrKeyword(m.attrKind) && IsKind(s, a + 1, b, m.kind)
      && IsMethodName(s, b, c, m.attribute) && IsIvar(s, c, d, m.ivar) && IsTyped(s, d, j, m.ty)
  }

  ghost predicate IsAlias(s: Stream, i: nat, j: nat, m: Member)
    requires m.AliasMember?
  {
    s.Kind(i) == KW_ALIAS && exists a: nat :: IsSelfName(s, i + 1, a, m.singleton, m.newName)
                                              && IsSelfName(s, a, j, m.singleton, m.oldName)
  }

  // A member after its annotations.
  ghost predicate IsMember(s: Stream, i: nat, j: nat, m: Member)
    decreases m, 1
  {
    match m
    case MethodDef(_, _, _, _, _, _) => IsMethodDef(s, i, j, m)
    case MixinMember(_, k, x) => s.Kind(i) == MixinKeyword(k) && IsMixin(s, i + 1, j, x)
    case AliasMember(_, _, _, _) => IsAlias(s, i, j, m)
    case InstanceVariable(n, t) => IsVariable(s, i, n) && IsTyped(s, i + 1, j, t)
    case ClassVariable(n, t) => s.Kind(i) == A2IDENT && s.At(i).text == n && IsTyped(s, i + 1, j, t)
    case ClassInstanceVariable(n, t) =>
      s.Kind(i) == KW_SELF && s.Kind(i + 1) == DOT && IsVariable(s, i + 2, n) && IsTyped(s, i + 3, j, t)
    case Attribute(_, _, _, _, _, _, _) => IsAttribute(s, i, j, m)
    case VisibilityMember(public) => j == i + 1 && s.Kind(i) == (if public then KW_PUBLIC else KW_PRIVATE) && !OneLine(s, i)
    case Nested(d) => IsDecl(s, i, j, d)
  }

  // Members with their annotations, one after another.
  ghost predicate IsMembers(s: Stream, i: nat, j: nat, ms: seq<Member>)
    decreases ms, 0
  {
    if ms == [] then i == j
    else
      exists a: nat, b: nat ::
        IsNotes(s, i, a, NotesOf(ms[0])) && IsMember(s, a, b, ms[0]) && IsMembers(s, b, j, ms[1..])
  }

  // ---- declarations ----------------------------------------------------------------------------------

  // Self types, the first after a colon and the others after commas.
  ghost predicate IsSelfTypes(s: Stream, i: nat, j: nat, xs: seq<Mixin>, first: bool)
    decreases |xs|
  {
    if xs == [] then i == j
    else
      s.Kind(i) == (if first then COLON else COMMA)
      && exists m: nat :: IsMixin(s, i + 1, m, xs[0]) && IsSelfTypes(s, m, j, xs[1..], false)
  }

  ghost predicate IsSuper(s: Stream, i: nat, j: nat, x: Option<Mixin>) {
    if x.None? then i == j else s.Kind(i) == LT && IsMixin(s, i + 1, j, x.value)
  }

  // A keyword, a name and type parameters.
  ghost predicate IsHeader(s: Stream, i: nat, j: nat, k: TokenKind, n: TypeName, ps: seq<TypeParam>) {
    s.Kind(i) == k && exists m: nat :: IsName(s, i + 1, m, n) && IsTypeParams(s, m, j, ps)
  }

  // A name for another.
  ghost predicate IsAliasDecl(s: Stream, i: nat, j: nat, k: TokenKind, n: TypeName, was: TypeName) {
    s.Kind(i) == k && exists m: nat :: IsName(s, i + 1, m, n) && s.Kind(m) == EQ && IsName(s, m + 1, j, was)
  }

  // Members up to the `end`.
  ghost predicate IsBody(s: Stream, i: nat, j: nat, ms: seq<Member>)
    decreases ms, 1
  {
    i < j && s.Kind(j - 1) == KW_END && IsMembers(s, i, j - 1, ms)
  }

  // A module after its parameters, and a class.
  ghost predicate IsModuleRest(s: Stream, i: nat, j: nat, xs: seq<Mixin>, ms: seq<Member>)
    decreases ms, 2
  {
    exists k: nat :: IsSelfTypes(s, i, k, xs, true) && IsBody(s, k, j, ms)
  }

  ghost predicate IsClassRest(s: Stream, i: nat, j: nat, x: Option<Mixin>, ms: seq<Member>)
    decreases ms, 2
  {
    exists k: nat :: IsSuper(s, i, k, x) && IsBody(s, k, j, ms)
  }

  // A declaration after its annotations.
  ghost predicate IsDecl(s: Stream, i: nat, j: nat, d: Decl)
    decreases d
  {
    match d
    case Constant(_, n, t) => exists m: nat :: IsName(s, i, m, n) && IsTyped(s, m, j, t)
    case Global(_, n, t) => s.Kind(i) == GIDENT && s.At(i).text == n && IsTyped(s, i + 1, j, t)
    case TypeAlias(_, n, ps, t) =>
      exists m: nat :: IsHeader(s, i, m, KW_TYPE, n, ps) && s.Kind(m) == EQ && IsWritten(s, m + 1, j, t)
    case InterfaceDecl(_, n, ps, ms) => exists m: nat :: IsHeader(s, i, m, KW_INTERFACE, n, ps) && IsBody(s, m, j, ms)
    case ModuleDecl(_, n, ps, xs, ms) => exists m: nat :: IsHeader(s, i, m, KW_MODULE, n, ps) && IsModuleRest(s, m, j, xs, ms)
    case ClassDecl(_, n, ps, x, ms) => exists m: nat :: IsHeader(s, i, m, KW_CLASS, n, ps) && IsClassRest(s, m, j, x, ms)
    case ModuleAlias(_, n, was) => IsAliasDecl(s, i, j, KW_MODULE, n, was)
    case ClassAlias(_, n, was) => IsAliasDecl(s, i, j, KW_CLASS, n, was)
  }

  ghost predicate IsDecls(s: Stream, i: nat, j: nat, ds: seq<Decl>)
    decreases |ds|
  {
    if ds == [] then i == j
    else
      exists a: nat, b: nat ::
        IsNotes(s, i, a, ds[0].annotations) && IsDecl(s, a, b, ds[0]) && IsDecls(s, b, j, ds[1..])
  }

  // ---- type parameters and method types --------------------------------------------------------------

  lemma NothingMarked(s: Stream, i: nat, k: TokenKind)
    ensures IsMarked(s, i, i, k, None)
  {}

  lemma OneMarked(s: Stream, i: nat, j: nat, k: TokenKind, t: Type)
    requires i < j && s.Kind(i) == k && IsWritten(s, i + 1, j, t)
    ensures IsMarked(s, i, j, k, Some(t))
  {
    hide IsWritten;
  }

  lemma BoundsWritten(s: Stream, i: nat, e: Errors, sc: Scope)
    requires i <= |s.toks|
    ensures var r := BoundsAt(s, i, e, sc); r.Ok? ==> IsBounds(s, i, r.pos, r.value)
  {
    hide Well, WellBounds, Kept, FirstError, TypeAt, IsType, IsMarked, BoundAt;
    var none := Bounds(None, None);
    var first := BoundAt(s, i, e, sc, none);
    if first.Ok? {
      BoundWritten(s, i, e, sc, none);
      BoundWritten(s, first.pos, first.err, sc, first.value);
      var r := BoundAt(s, first.pos, first.err, sc, first.value);
      if r.Ok? {
        BoundsOrdered(s, i, first.pos, r.pos, first.value, r.value);
      }
    }
  }

  // What one attempt adds to the bounds.
  ghost predicate Adds(s: Stream, i: nat, j: nat, b: Bounds, c: Bounds) {
    || (c == b && i == j && s.Kind(i) != LT && s.Kind(i) != GT)
    || (b.upper.None? && c == b.(upper := c.upper) && c.upper.Some? && IsMarked(s, i, j, LT, c.upper))
    || (b.lower.None? && c == b.(lower := c.lower) && c.lower.Some? && IsMarked(s, i, j, GT, c.lower))
  }

  lemma BoundWritten(s: Stream, i: nat, e: Errors, sc: Scope, b: Bounds)
    requires i <= |s.toks|
    ensures var r := BoundAt(s, i, e, sc, b); r.Ok? ==> Adds(s, i, r.pos, b, r.value)
  {
    hide Well, WellBounds, Kept, FirstError, TypeAt, IsType;
    AcceptedTypesAreWritten(s, i + 1, e, false, sc);
  }

  lemma BoundsOrdered(s: Stream, i: nat, m: nat, j: nat, b: Bounds, c: Bounds)
    requires i <= m <= j && Adds(s, i, m, Bounds(None, None), b) && Adds(s, m, j, b, c)
    ensures IsBounds(s, i, j, c)
  {
    hide IsWritten;
    NothingMarked(s, i, LT);
    NothingMarked(s, i, GT);
    NothingMarked(s, j, LT);
    NothingMarked(s, j, GT);
  }

  lemma TypeParamWritten(s: Stream, i: nat, e: Errors, outer: set<string>, moduleParams: bool, requiredOk: bool)
    ensures var r := TypeParamAt(s, i, e, outer, moduleParams, requiredOk); r.Ok? ==> IsTypeParam(s, i, r.pos, r.value)
  {
    hide Well, WellTypeParam, WellBounds, Kept, FirstError, BoundsAt, DefaultAt, IsBounds, IsMarked, TypeAt;
    var n := NameIndex(s, i, moduleParams);
    var sc := Scope(outer + {s.At(n).text}, false, false);
    if TypeParamAt(s, i, e, outer, moduleParams, requiredOk).Ok? {
      BoundsWritten(s, n + 1, e, sc);
      var b := BoundsAt(s, n + 1, e, sc);
      NothingMarked(s, b.pos, EQ);
      if moduleParams {
        DefaultWritten(s, b.pos, b.err, sc, requiredOk);
      }
    }
  }

  lemma DefaultWritten(s: Stream, i: nat, e: Errors, sc: Scope, requiredOk: bool)
    requires 0 < i <= |s.toks|
    ensures var r := DefaultAt(s, i, e, sc, requiredOk); r.Ok? ==> IsMarked(s, i, r.pos, EQ, r.value)
  {
    hide Well, Kept, FirstError, TypeAt, IsType;
    AcceptedTypesAreWritten(s, i + 1, e, true, sc);
  }

  lemma ParamListIsOne(s: Stream, i: nat, j: nat, p: TypeParam)
    requires IsTypeParam(s, i, j, p)
    ensures IsTypeParamList(s, i, j, [p])
  {
    hide IsTypeParam;
  }

  lemma ParamListIsMore(s: Stream, i: nat, m: nat, j: nat, p: TypeParam, ps: seq<TypeParam>)
    requires m < j && IsTypeParam(s, i, m, p) && s.Kind(m) == COMMA && IsTypeParamList(s, m + 1, j, ps)
    ensures IsTypeParamList(s, i, j, [p] + ps)
  {
    hide IsTypeParam;
    assert ([p] + ps)[1..] == ps;
    assert ps != [];
  }

  lemma {:induction false} ParamListWritten(s: Stream, i: nat, e: Errors, outer: set<string>, moduleParams: bool,
                                            requiredOk: bool, acc: seq<TypeParam>)
    returns (us: seq<TypeParam>)
    ensures var r := TypeParamsFrom(s, i, e, outer, moduleParams, requiredOk, acc);
            r.Ok? ==>
              && r.value == acc + us && us != [] && i < r.pos - 1 && IsTypeParamList(s, i, r.pos - 1, us)
              && s.Kind(r.pos - 1) == RBRACKET
    decreases s.Left(i)
  {
    hide WellTypeParam, Kept, FirstError, TypeParamAt, IsTypeParam, IsTypeParamList;
    us := [];
    TypeParamWritten(s, i, e, outer, moduleParams, requiredOk);
    var r := TypeParamAt(s, i, e, outer, moduleParams, requiredOk);
    if r.Ok? {
      us := [r.value];
      ParamListIsOne(s, i, r.pos, r.value);
      if s.Kind(r.pos) == COMMA {
        var ok := requiredOk && r.value.default.None?;
        var more := ParamListWritten(s, r.pos + 1, r.err, outer + {r.value.name}, moduleParams, ok, acc + [r.value]);
        us := us + more;
        assert acc + us == acc + [r.value] + more;
        var q := TypeParamsFrom(s, r.pos + 1, r.err, outer + {r.value.name}, moduleParams, ok, acc + [r.value]);
        if q.Ok? {
          ParamListIsMore(s, i, r.pos, q.pos - 1, r.value, more);
        }
      }
    }
  }

  lemma TypeParamsWritten(s: Stream, i: nat, e: Errors, outer: set<string>, moduleParams: bool)
    requires i <= |s.toks|
    ensures var r := TypeParamsAt(s, i, e, outer, moduleParams); r.Ok? ==> IsTypeParams(s, i, r.pos, r.value)
  {
    hide Kept, TypeParamsFrom, IsTypeParamList;
    if s.Kind(i) == LBRACKET {
      var us := ParamListWritten(s, i + 1, e, outer, moduleParams, true, []);
      assert [] + us == us;
    }
  }

  // A whole input ends with the token that ends it.
  lemma AcceptedMethodTypesAreWritten(s: Stream, i: nat, e: Errors, outer: set<string>, requireEof: bool, classOk: bool,
                                      forwarding: bool)
    requires i <= |s.toks|
    ensures var r := MethodTypeAt(s, i, e, outer, requireEof, classOk, forwarding);
            r.Ok? ==>
              && IsMethodType(s, i, if requireEof then r.pos - 1 else r.pos, r.value)
              && (requireEof ==> s.Kind(r.pos - 1) == EOF)
  {
    hide Kept, Well, WellResult, TypeParamsAt, FunctionAt, IsTypeParams, IsFunction, NamesOf;
    TypeParamsWritten(s, i, e, outer, false);
    var ps := TypeParamsAt(s, i, e, outer, false);
    if ps.Ok? {
      var sc := Scope(outer + NamesOf(ps.value), true, classOk);
      FunctionWritten(s, ps.pos, ps.err, sc, false, true, forwarding);
      NoSelfType(s, ps.pos, ps.err, sc, forwarding);
    }
  }

  lemma NoSelfType(s: Stream, i: nat, e: Errors, sc: Scope, fwd: bool)
    requires i <= |s.toks|
    ensures var r := FunctionAt(s, i, e, sc, false, true, fwd); r.Ok? ==> r.value.selfType == None
  {
    hide Kept, Well, WellFn, WellBlock, WellParams, ParenParamsAt, BlockAt, ReturnAt, MakeFunction, BlockFollows;
    var ps := ParenParamsAt(s, i, e, sc, fwd);
    var r := FunctionAt(s, i, e, sc, false, true, fwd);
    if ps.Ok? && r.Ok? {
      assert r == FunctionRest(s, i, ps.pos, ps.err, sc, true, ps.value, None);
    }
  }

  // ---- parts of members ------------------------------------------------------------------------------

  lemma {:induction false} NotesWritten(s: Stream, i: nat, e: Errors)
    requires i <= |s.toks|
    ensures var r := AnnotationsAt(s, i, e); r.Ok? ==> IsNotes(s, i, r.pos, r.value)
    decreases s.Left(i)
  {
    hide AnnotationOf, FirstError;
    if s.Kind(i) == ANNOTATION {
      NotesWritten(s, i + 1, e);
      var r := AnnotationsAt(s, i, e);
      if r.Ok? {
        assert r.value[1..] == AnnotationsAt(s, i + 1, e).value;
      }
    }
  }

  // A method can be named with any word: identifiers and keywords.
  lemma WordsAgree(k: TokenKind)
    ensures IsWord(k) <==> IsWordLike(k) && k != BANG_IDENT && k != QIDENT
  {}

  lemma MethodNameWritten(s: Stream, i: nat, e: Errors)
    ensures var r := MethodNameAt(s, i, e); r.Ok? ==> IsMethodName(s, i, r.pos, r.value)
  {
    hide IsWord, IsWordLike;
    WordsAgree(s.Kind(i));
    assert (s.At(i).text + "?")[..|s.At(i).text|] == s.At(i).text;
  }

  lemma KindWritten(s: Stream, i: nat, allowSelfq: bool)
    ensures IsKind(s, i, i + KindWidth(KindAt(s, i, allowSelfq)), KindAt(s, i, allowSelfq))
  {}

  lemma OverloadsNone(s: Stream, i: nat, m: nat, j: nat, notes: seq<string>)
    requires IsNotes(s, i, m, notes) && s.Kind(m) == DOT3 && (j == m + 1 || (j == m + 2 && s.Kind(m + 1) == BAR))
    ensures IsOverloads(s, i, j, [], true)
  {}

  lemma OverloadsMore(s: Stream, i: nat, m: nat, n: nat, j: nat, o: Overload, os: seq<Overload>, overloading: bool)
    requires IsNotes(s, i, m, o.annotations) && IsMethodType(s, m, n, o.methodType)
    requires if os == [] && !overloading then j == n else s.Kind(n) == BAR && IsOverloads(s, n + 1, j, os, overloading)
    ensures IsOverloads(s, i, j, [o] + os, overloading)
  {
    hide IsNotes, IsMethodType;
    assert ([o] + os)[1..] == os && ([o] + os)[0] == o;
  }

  lemma {:induction false} OverloadsWritten(s: Stream, i: nat, e: Errors, vars: set<string>, classOk: bool, fwd: bool,
                                            acc: seq<Overload>)
    returns (os: seq<Overload>)
    requires i <= |s.toks|
    ensures var r := OverloadsAt(s, i, e, vars, classOk, fwd, acc);
            r.Ok? ==> r.value.0 == acc + os && IsOverloads(s, i, r.pos, os, r.value.1) && (os != [] || r.value.1)
    decreases s.Left(i)
  {
    hide WellOverload, WellOverloads, Kept, FirstError, AnnotationsAt, MethodTypeAt, IsNotes, IsMethodType, IsOverloads,
      Stream.At, Stream.Kind;
    os := [];
    assert acc + os == acc;
    NotesWritten(s, i, e);
    var a := AnnotationsAt(s, i, e);
    var r := OverloadsAt(s, i, e, vars, classOk, fwd, acc);
    if r.Ok? {
      if s.Kind(a.pos) in {LPAREN, ARROW, LBRACE, LBRACKET, QUESTION} {
        AcceptedMethodTypesAreWritten(s, a.pos, a.err, vars, false, classOk, fwd);
        var m := OverloadAt(s, a.pos, a.err, vars, classOk, fwd);
        var o := Overload(a.value, m.value);
        if s.Kind(m.pos) == BAR {
          var more := OverloadsWritten(s, m.pos + 1, m.err, vars, classOk, fwd, acc + [o]);
          OverloadsMore(s, i, a.pos, m.pos, r.pos, o, more, r.value.1);
          os := [o] + more;
          assert acc + os == acc + [o] + more;
        } else {
          OverloadsMore(s, i, a.pos, m.pos, r.pos, o, [], false);
          os := [o];
          assert [o] + [] == os;
        }
      } else {
        OverloadsNone(s, i, a.pos, r.pos, a.value);
      }
    }
  }

  lemma AllOverloadsWritten(s: Stream, i: nat, e: Errors, vars: set<string>, classOk: bool, fwd: bool)
    requires i <= |s.toks|
    ensures var r := OverloadsAt(s, i, e, vars, classOk, fwd, []); r.Ok? ==> IsOverloads(s, i, r.pos, r.value.0, r.value.1)
  {
    hide WellOverloads, OverloadsAt, IsOverloads, Kept;
    var os := OverloadsWritten(s, i, e, vars, classOk, fwd, []);
    assert [] + os == os;
  }

  lemma MixinWritten(s: Stream, c: nat, e: Errors, kinds: set<NameKind>, sc: Scope)
    ensures var r := MixinAt(s, c, e, kinds, sc); r.Ok? ==> IsMixin(s, c, r.pos, r.value)
  {
    hide AllWell, TypeNameAt, TypeArgsAt, IsName, IsArgs, Kept, FirstError;
    NameWritten(s, c, e, kinds);
    var n := TypeNameAt(s, c, e, kinds);
    if n.Ok? {
      ArgsWritten(s, n.pos, n.err, sc);
    }
  }

  lemma TypedWritten(s: Stream, i: nat, e: Errors, sc: Scope)
    ensures var r := ColonTypeAt(s, i, e, sc); r.Ok? ==> IsTyped(s, i, r.pos, r.value)
  {
    hide Well, TypeAt, IsType, Kept, FirstError;
    AcceptedTypesAreWritten(s, i + 1, e, false, sc);
  }

  lemma IvarWritten(s: Stream, i: nat, e: Errors)
    requires i <= |s.toks|
    ensures var r := IvarAt(s, i, e); r.Ok? ==> IsIvar(s, i, r.pos, r.value)
  {}

  // ---- members ---------------------------------------------------------------------------------------

  // A visibility on the line of a keyword, or the keyword alone.
  predicate Introduced(s: Stream, c: nat, ks: set<TokenKind>) {
    if s.Kind(c) in {KW_PUBLIC, KW_PRIVATE} then OneLine(s, c) && s.Kind(c + 1) in ks else s.Kind(c) in ks
  }

  lemma VisibilityWritten(s: Stream, c: nat, ks: set<TokenKind>)
    requires Introduced(s, c, ks)
    ensures var v := VisibilityOf(s.Kind(c));
            var a := if v == Unspecified then c else c + 1;
            IsVisibility(s, c, a, v) && s.Kind(a) in ks
  {}

  lemma MethodDefIs(s: Stream, i: nat, a: nat, b: nat, c: nat, j: nat, m: Member)
    requires m.MethodDef? && IsVisibility(s, i, a, m.visibility) && s.Kind(a) == KW_DEF && IsKind(s, a + 1, b, m.kind)
    requires IsMethodName(s, b, c, m.methodName) && s.Kind(c) == COLON
    requires IsOverloads(s, c + 1, j, m.overloads, m.overloading)
    ensures IsMember(s, i, j, m)
  {
    hide IsVisibility, IsKind, IsMethodName, IsOverloads, Stream.Kind;
    assert IsMethodDef(s, i, j, m);
  }

  lemma MethodDefWritten(s: Stream, c: nat, e: Errors, vars: set<string>, instanceOnly: bool, fwd: bool, notes: seq<string>)
    requires Introduced(s, c, {KW_DEF}) && (instanceOnly ==> VisibilityOf(s.Kind(c)) == Unspecified)
    ensures var r := MethodDefAt(s, c, e, vars, instanceOnly, fwd, notes);
            r.Ok? ==> IsMember(s, c, r.pos, r.value) && NotesOf(r.value) == notes
  {
    hide WellOverloads, OverloadsAt, MethodNameAt, KindAt, IsVisibility, IsKind, IsMethodName, IsOverloads, IsMember,
      Introduced, OneLine, Kept, FirstError;
    VisibilityWritten(s, c, {KW_DEF});
    var r := MethodDefAt(s, c, e, vars, instanceOnly, fwd, notes);
    if r.Ok? {
      var v := VisibilityOf(s.Kind(c));
      var i := if v == Unspecified then c + 1 else c + 2;
      KindWritten(s, i, v == Unspecified);
      NoKindWritten(s, i);
      var kind := if instanceOnly then InstanceKind else KindAt(s, i, v == Unspecified);
      MethodNameWritten(s, i + KindWidth(kind), e);
      var n := DefNameAt(s, i + KindWidth(kind), e);
      AllOverloadsWritten(s, n.pos, n.err, if kind == InstanceKind then vars else {}, !instanceOnly, fwd);
      MethodDefIs(s, c, i - 1, i + KindWidth(kind), n.pos - 1, r.pos, r.value);
    }
  }

  lemma NoKindWritten(s: Stream, i: nat)
    ensures IsKind(s, i, i, InstanceKind)
  {}

  lemma AttributeWritten(s: Stream, c: nat, e: Errors, vars: set<string>, notes: seq<string>)
    requires Introduced(s, c, {KW_ATTR_READER, KW_ATTR_WRITER, KW_ATTR_ACCESSOR})
    ensures var r := AttributeMemberAt(s, c, e, vars, notes);
            r.Ok? ==> IsMember(s, c, r.pos, r.value) && NotesOf(r.value) == notes
  {
    hide Well, MethodNameAt, KindAt, IvarAt, ColonTypeAt, IsVisibility, IsKind, IsMethodName, IsIvar, IsTyped, Introduced,
      OneLine, Kept, FirstError;
    VisibilityWritten(s, c, {KW_ATTR_READER, KW_ATTR_WRITER, KW_ATTR_ACCESSOR});
    var r := AttributeMemberAt(s, c, e, vars, notes);
    if r.Ok? {
      var v := VisibilityOf(s.Kind(c));
      var a := if v == Unspecified then c else c + 1;
      var kind := KindAt(s, a + 1, false);
      var b := a + 1 + KindWidth(kind);
      KindWritten(s, a + 1, false);
      MethodNameWritten(s, b, e);
      var n := MethodNameAt(s, b, e);
      IvarWritten(s, n.pos, n.err);
      var ivar := IvarAt(s, n.pos, n.err);
      TypedWritten(s, ivar.pos, ivar.err, Scope(if kind == SingletonKind then {} else vars, true, true));
      assert IsAttribute(s, c, r.pos, r.value) by {
        assert IsVisibility(s, c, a, v) && IsKind(s, a + 1, b, kind) && IsMethodName(s, b, n.pos, n.value)
               && IsIvar(s, n.pos, ivar.pos, ivar.value);
      }
    }
  }

  lemma MixinMemberWritten(s: Stream, c: nat, e: Errors, vars: set<string>, fromInterface: bool, notes: seq<string>)
    requires s.Kind(c) in {KW_INCLUDE, KW_EXTEND, KW_PREPEND}
    ensures var r := MixinMemberAt(s, c, e, vars, fromInterface, notes);
            r.Ok? ==> IsMember(s, c, r.pos, r.value) && NotesOf(r.value) == notes
  {
    hide WellMixin, MixinAt, IsMixin, Kept, FirstError;
    var kind := if s.Kind(c) == KW_INCLUDE then Include else if s.Kind(c) == KW_EXTEND then Extend else Prepend;
    MixinWritten(s, c + 1, e, if fromInterface then {InterfaceName} else {InterfaceName, ClassName},
                 Scope(if kind == Extend then {} else vars, false, !fromInterface));
  }

  lemma AliasMemberWritten(s: Stream, c: nat, e: Errors, instanceOnly: bool, notes: seq<string>)
    requires s.Kind(c) == KW_ALIAS
    ensures var r := AliasMemberAt(s, c, e, instanceOnly, notes);
            r.Ok? ==> IsMember(s, c, r.pos, r.value) && NotesOf(r.value) == notes
  {
    hide MethodNameAt, IsMethodName, Kept, FirstError;
    var r := AliasMemberAt(s, c, e, instanceOnly, notes);
    if r.Ok? {
      var singleton := !instanceOnly && s.Kind(c + 1) == KW_SELF;
      SelfNameWritten(s, c + 1, e, singleton);
      var n := if singleton then SelfNameAt(s, c + 1, e) else MethodNameAt(s, c + 1, e);
      SelfNameWritten(s, n.pos, n.err, singleton);
      assert IsSelfName(s, c + 1, n.pos, singleton, n.value);
    }
  }

  lemma SelfNameWritten(s: Stream, i: nat, e: Errors, singleton: bool)
    ensures var r := if singleton then SelfNameAt(s, i, e) else MethodNameAt(s, i, e);
            r.Ok? ==> IsSelfName(s, i, r.pos, singleton, r.value)
  {
    hide MethodNameAt, IsMethodName, FirstError;
    MethodNameWritten(s, i, e);
    MethodNameWritten(s, i + 2, e);
  }

  lemma VariableWritten(s: Stream, c: nat, e: Errors, vars: set<string>, notes: seq<string>)
    requires s.Kind(c) in {AIDENT, A2IDENT, KW_AT_RBS, KW_SELF}
    ensures var r := VariableMemberAt(s, c, e, vars, notes);
            r.Ok? ==> IsMember(s, c, r.pos, r.value) && NotesOf(r.value) == notes
  {
    hide Well, ColonTypeAt, IsTyped, Kept, FirstError;
    TypedWritten(s, c + 1, e, Scope(vars, true, true));
    TypedWritten(s, c + 1, e, Scope({}, false, true));
    TypedWritten(s, c + 3, e, Scope({}, true, true));
  }

  lemma VisibilityMemberWritten(s: Stream, c: nat, e: Errors, notes: seq<string>)
    requires c < |s.toks| && s.Kind(c) in {KW_PUBLIC, KW_PRIVATE} && !OneLine(s, c)
    ensures var r := VisibilityMemberAt(s, c, e, notes);
            r.Ok? ==> IsMember(s, c, r.pos, r.value) && NotesOf(r.value) == notes
  {
    hide Kept, FirstError;
  }

  lemma InterfaceMemberWritten(s: Stream, c: nat, e: Errors, vars: set<string>, fwd: bool, notes: seq<string>)
    ensures var r := InterfaceMemberAt(s, c, e, vars, fwd, notes);
            r.Ok? ==> IsMember(s, c, r.pos, r.value) && NotesOf(r.value) == notes
  {
    hide WellMember, MethodDefAt, MixinMemberAt, AliasMemberAt, IsMember, NotesOf, Kept, FirstError;
    var k := s.Kind(c);
    if k == KW_DEF {
      MethodDefWritten(s, c, e, vars, true, fwd, notes);
    } else if k in {KW_INCLUDE, KW_EXTEND, KW_PREPEND} {
      MixinMemberWritten(s, c, e, vars, true, notes);
    } else if k == KW_ALIAS {
      AliasMemberWritten(s, c, e, true, notes);
    }
  }

  lemma MembersNone(s: Stream, i: nat)
    ensures IsMembers(s, i, i, [])
  {}

  lemma MembersMore(s: Stream, i: nat, a: nat, b: nat, j: nat, m: Member, ms: seq<Member>)
    requires IsNotes(s, i, a, NotesOf(m)) && IsMember(s, a, b, m) && IsMembers(s, b, j, ms)
    ensures IsMembers(s, i, j, [m] + ms)
  {
    hide IsNotes, IsMember;
    assert ([m] + ms)[1..] == ms && ([m] + ms)[0] == m;
  }

  lemma {:induction false} InterfaceMembersWritten(s: Stream, i: nat, e: Errors, vars: set<string>, fwd: bool, acc: seq<Member>)
    returns (ms: seq<Member>)
    requires i <= |s.toks|
    ensures var r := InterfaceMembersAt(s, i, e, vars, fwd, acc); r.Ok? ==> r.value == acc + ms && IsMembers(s, i, r.pos, ms)
    decreases s.Left(i)
  {
    hide WellMember, AnnotationsAt, InterfaceMemberAt, IsNotes, IsMember, IsMembers, Kept, FirstError;
    ms := [];
    assert acc + ms == acc;
    MembersNone(s, i);
    var r := InterfaceMembersAt(s, i, e, vars, fwd, acc);
    if r.Ok? && s.Kind(i) != KW_END {
      NotesWritten(s, i, e);
      var a := AnnotationsAt(s, i, e);
      InterfaceMemberWritten(s, a.pos, a.err, vars, fwd, a.value);
      var m := InterfaceMemberAt(s, a.pos, a.err, vars, fwd, a.value);
      var more := InterfaceMembersWritten(s, m.pos, m.err, vars, fwd, acc + [m.value]);
      MembersMore(s, i, a.pos, m.pos, r.pos, m.value, more);
      ms := [m.value] + more;
      assert acc + ms == acc + [m.value] + more;
    }
  }

  lemma AllInterfaceMembersWritten(s: Stream, i: nat, e: Errors, vars: set<string>, fwd: bool)
    requires i <= |s.toks|
    ensures var r := InterfaceMembersAt(s, i, e, vars, fwd, []); r.Ok? ==> IsMembers(s, i, r.pos, r.value)
  {
    hide WellMember, InterfaceMembersAt, IsMembers, Kept;
    var ms := InterfaceMembersWritten(s, i, e, vars, fwd, []);
    assert [] + ms == ms;
  }

  // ---- declarations ----------------------------------------------------------------------------------

  lemma ValueDeclWritten(s: Stream, c: nat, e: Errors, vars: set<string>, notes: seq<string>)
    ensures var r := ValueDeclAt(s, c, e, vars, notes); r.Ok? ==> IsDecl(s, c, r.pos, r.value) && r.value.annotations == notes
  {
    hide Well, TypeNameAt, ColonTypeAt, IsName, IsTyped, KindOfName, Kept, FirstError;
    var sc := Scope(vars, false, false);
    TypedWritten(s, c + 1, e, sc);
    NameWritten(s, c, e, {ClassName});
    var n := TypeNameAt(s, c, e, {ClassName});
    if n.Ok? {
      TypedWritten(s, n.pos, n.err, sc);
    }
  }

  // A keyword, a name and type parameters in a scope of their own.
  lemma HeaderWritten(s: Stream, c: nat, e: Errors, k: NameKind)
    ensures var n := TypeNameAt(s, c + 1, e, {k});
            n.Ok? ==>
              var ps := OwnParamsAt(s, n.pos, n.err); ps.Ok? ==> IsHeader(s, c, ps.pos, s.Kind(c), n.value, ps.value)
  {
    hide TypeNameAt, TypeParamsAt, WellOwnParams, IsName, IsTypeParams, KindOfName, Kept, FirstError;
    NameWritten(s, c + 1, e, {k});
    var n := TypeNameAt(s, c + 1, e, {k});
    if n.Ok? {
      TypeParamsWritten(s, n.pos, n.err, {}, true);
    }
  }

  lemma TypeDeclWritten(s: Stream, c: nat, e: Errors, vars: set<string>, notes: seq<string>)
    requires s.Kind(c) == KW_TYPE
    ensures var r := TypeDeclAt(s, c, e, vars, notes); r.Ok? ==> IsDecl(s, c, r.pos, r.value) && r.value.annotations == notes
  {
    hide Well, WellOwnParams, NamesOf, TypeNameAt, OwnParamsAt, TypeAt, IsHeader, IsType, KindOfName, Kept, FirstError;
    var r := TypeDeclAt(s, c, e, vars, notes);
    HeaderWritten(s, c, e, AliasName);
    if r.Ok? {
      var n := TypeNameAt(s, c + 1, e, {AliasName});
      var ps := OwnParamsAt(s, n.pos, n.err);
      AcceptedTypesAreWritten(s, ps.pos + 1, ps.err, false, Scope(NamesOf(ps.value), false, false));
    }
  }

  lemma BodyWritten(s: Stream, i: nat, j: nat, ms: seq<Member>)
    requires i <= j && IsMembers(s, i, j, ms) && s.Kind(j) == KW_END
    ensures IsBody(s, i, j + 1, ms)
  {
    hide IsMembers;
  }

  lemma InterfaceIsDecl(s: Stream, i: nat, m: nat, j: nat, d: Decl)
    requires d.InterfaceDecl? && IsHeader(s, i, m, KW_INTERFACE, d.name, d.params) && IsBody(s, m, j, d.members)
    ensures IsDecl(s, i, j, d)
  {
    hide IsHeader, IsBody;
  }

  lemma InterfaceSteps(s: Stream, c: nat, e: Errors, vars: set<string>, fwd: bool, notes: seq<string>)
    ensures var r := InterfaceDeclAt(s, c, e, vars, fwd, notes);
            r.Ok? ==>
              var n := TypeNameAt(s, c + 1, e, {InterfaceName});
              && n.Ok?
              && var ps := OwnParamsAt(s, n.pos, n.err);
                 && ps.Ok?
                 && var ms := InterfaceMembersAt(s, ps.pos, ps.err, NamesOf(ps.value), fwd, []);
                    ms.Ok? && r.value == InterfaceDecl(notes, n.value, ps.value, ms.value) && r.pos == ms.pos + 1
  {
    hide WellMember, WellOwnParams, NamesOf, TypeNameAt, OwnParamsAt, InterfaceMembersAt, KindOfName, Kept, FirstError;
  }

  lemma InterfaceDeclWritten(s: Stream, c: nat, e: Errors, vars: set<string>, fwd: bool, notes: seq<string>)
    requires s.Kind(c) == KW_INTERFACE
    ensures var r := InterfaceDeclAt(s, c, e, vars, fwd, notes);
            r.Ok? ==> IsDecl(s, c, r.pos, r.value) && r.value.annotations == notes
  {
    hide WellMember, WellOwnParams, NamesOf, TypeNameAt, OwnParamsAt, InterfaceMembersAt, InterfaceDeclAt, IsHeader, IsBody,
      IsMembers, IsDecl, KindOfName, Kept, FirstError;
    InterfaceSteps(s, c, e, vars, fwd, notes);
    var r := InterfaceDeclAt(s, c, e, vars, fwd, notes);
    HeaderWritten(s, c, e, InterfaceName);
    if r.Ok? {
      var n := TypeNameAt(s, c + 1, e, {InterfaceName});
      var ps := OwnParamsAt(s, n.pos, n.err);
      AllInterfaceMembersWritten(s, ps.pos, ps.err, NamesOf(ps.value), fwd);
      BodyWritten(s, ps.pos, r.pos - 1, r.value.members);
      InterfaceIsDecl(s, c, ps.pos, r.pos, r.value);
    }
  }

  lemma SelfTypesNone(s: Stream, i: nat, first: bool)
    ensures IsSelfTypes(s, i, i, [], first)
  {}

  lemma SelfTypesMore(s: Stream, i: nat, m: nat, j: nat, x: Mixin, xs: seq<Mixin>, first: bool)
    requires s.Kind(i) == (if first then COLON else COMMA) && IsMixin(s, i + 1, m, x) && IsSelfTypes(s, m, j, xs, false)
    ensures IsSelfTypes(s, i, j, [x] + xs, first)
  {
    hide IsMixin;
    assert ([x] + xs)[1..] == xs;
  }

  lemma {:induction false} SelfTypesWritten(s: Stream, i: nat, e: Errors, vars: set<string>, acc: seq<Mixin>)
    returns (xs: seq<Mixin>)
    requires i <= |s.toks|
    ensures var r := SelfTypesAt(s, i, e, vars, acc);
            r.Ok? ==> r.value == acc + xs && IsSelfTypes(s, i, r.pos, xs, acc == [])
    decreases s.Left(i)
  {
    hide WellMixin, MixinAt, IsMixin, IsSelfTypes, Kept, FirstError;
    xs := [];
    assert acc + xs == acc;
    SelfTypesNone(s, i, acc == []);
    var r := SelfTypesAt(s, i, e, vars, acc);
    if r.Ok? && s.Kind(i) == (if acc == [] then COLON else COMMA) {
      var sc := Scope(vars, false, false);
      MixinWritten(s, i + 1, e, {ClassName, InterfaceName}, sc);
      var x := MixinAt(s, i + 1, e, {ClassName, InterfaceName}, sc);
      var more := SelfTypesWritten(s, x.pos, x.err, vars, acc + [x.value]);
      SelfTypesMore(s, i, x.pos, r.pos, x.value, more, acc == []);
      xs := [x.value] + more;
      assert acc + xs == acc + [x.value] + more;
    }
  }

  lemma AllSelfTypesWritten(s: Stream, i: nat, e: Errors, vars: set<string>)
    requires i <= |s.toks|
    ensures var r := SelfTypesAt(s, i, e, vars, []); r.Ok? ==> IsSelfTypes(s, i, r.pos, r.value, true)
  {
    hide WellMixin, SelfTypesAt, IsSelfTypes, Kept;
    var xs := SelfTypesWritten(s, i, e, vars, []);
    assert [] + xs == xs;
  }

  lemma SuperWritten(s: Stream, i: nat, e: Errors, vars: set<string>)
    requires i <= |s.toks|
    ensures var r := SuperAt(s, i, e, vars); r.Ok? ==> IsSuper(s, i, r.pos, r.value)
  {
    hide WellMixin, MixinAt, IsMixin, Kept, FirstError;
    MixinWritten(s, i + 1, e, {ClassName}, Scope(vars, false, false));
  }

  lemma {:induction false} MemberWritten(s: Stream, c: nat, e: Errors, vars: set<string>, fwd: bool, notes: seq<string>)
    requires c < |s.toks|
    ensures var r := MemberAt(s, c, e, vars, fwd, notes);
            r.Ok? ==> IsMember(s, c, r.pos, r.value) && NotesOf(r.value) == notes
    decreases s.Left(c), 3
  {
    hide WellDecl, WellMember, WellOverloads, WellMixin, Well, MethodDefAt, MixinMemberAt, AliasMemberAt, VariableMemberAt,
      AttributeMemberAt, VisibilityMemberAt, DeclHereAt, IsMember, IsDecl, NotesOf, OneLine, Kept, FirstError;
    var k := s.Kind(c);
    if k == KW_DEF || (k in {KW_PUBLIC, KW_PRIVATE} && OneLine(s, c) && s.Kind(c + 1) == KW_DEF) {
      MethodDefWritten(s, c, e, vars, false, fwd, notes);
    } else if k in {KW_INCLUDE, KW_EXTEND, KW_PREPEND} {
      MixinMemberWritten(s, c, e, vars, false, notes);
    } else if k == KW_ALIAS {
      AliasMemberWritten(s, c, e, false, notes);
    } else if k in {AIDENT, A2IDENT, KW_AT_RBS, KW_SELF} {
      VariableWritten(s, c, e, vars, notes);
    } else if k in {KW_PUBLIC, KW_PRIVATE} && !OneLine(s, c) {
      VisibilityMemberWritten(s, c, e, notes);
    } else if k in {KW_ATTR_READER, KW_ATTR_WRITER, KW_ATTR_ACCESSOR, KW_PUBLIC, KW_PRIVATE} {
      if Introduced(s, c, {KW_ATTR_READER, KW_ATTR_WRITER, KW_ATTR_ACCESSOR}) {
        AttributeWritten(s, c, e, vars, notes);
      }
    } else {
      DeclHereWritten(s, c, e, {}, fwd, notes);
      var d := DeclHereAt(s, c, e, {}, fwd, notes);
      if d.Ok? {
        NestedWritten(s, c, d.pos, d.value);
      }
    }
  }

  lemma NestedWritten(s: Stream, i: nat, j: nat, d: Decl)
    requires IsDecl(s, i, j, d)
    ensures IsMember(s, i, j, Nested(d)) && NotesOf(Nested(d)) == d.annotations
  {
    hide IsDecl;
  }

  lemma {:induction false} MembersWritten(s: Stream, i: nat, e: Errors, vars: set<string>, fwd: bool, acc: seq<Member>)
    returns (ms: seq<Member>)
    requires i <= |s.toks|
    ensures var r := MembersAt(s, i, e, vars, fwd, acc); r.Ok? ==> r.value == acc + ms && IsMembers(s, i, r.pos, ms)
    decreases s.Left(i), 4, 0
  {
    hide WellMember, AnnotationsAt, MemberAt, IsNotes, IsMember, IsMembers, Kept, FirstError;
    ms := [];
    assert acc + ms == acc;
    MembersNone(s, i);
    var r := MembersAt(s, i, e, vars, fwd, acc);
    if r.Ok? && s.Kind(i) != KW_END {
      NotesWritten(s, i, e);
      var a := AnnotationsAt(s, i, e);
      MemberWritten(s, a.pos, a.err, vars, fwd, a.value);
      var m := MemberAt(s, a.pos, a.err, vars, fwd, a.value);
      var more := MembersWritten(s, m.pos, m.err, vars, fwd, acc + [m.value]);
      MembersMore(s, i, a.pos, m.pos, r.pos, m.value, more);
      ms := [m.value] + more;
      assert acc + ms == acc + [m.value] + more;
    }
  }

  lemma {:induction false} AllMembersWritten(s: Stream, i: nat, e: Errors, vars: set<string>, fwd: bool)
    requires i <= |s.toks|
    ensures var r := MembersAt(s, i, e, vars, fwd, []); r.Ok? ==> IsMembers(s, i, r.pos, r.value)
    decreases s.Left(i), 4, 1
  {
    hide WellMember, MembersAt, IsMembers, Kept;
    var ms := MembersWritten(s, i, e, vars, fwd, []);
    assert [] + ms == ms;
  }

  lemma {:induction false} DeclHereWritten(s: Stream, c: nat, e: Errors, vars: set<string>, fwd: bool, notes: seq<string>)
    ensures var r := DeclHereAt(s, c, e, vars, fwd, notes); r.Ok? ==> IsDecl(s, c, r.pos, r.value) && r.value.annotations == notes
    decreases s.Left(c), 2
  {
    hide WellDecl, ValueDeclAt, TypeDeclAt, InterfaceDeclAt, ModuleDeclAt, ClassDeclAt, IsDecl, Kept, FirstError;
    var k := s.Kind(c);
    if k in {UIDENT, COLON2, GIDENT} {
      ValueDeclWritten(s, c, e, vars, notes);
    } else if k == KW_TYPE {
      TypeDeclWritten(s, c, e, vars, notes);
    } else if k == KW_INTERFACE {
      InterfaceDeclWritten(s, c, e, vars, fwd, notes);
    } else if k == KW_MODULE {
      ModuleWritten(s, c, e, vars, fwd, notes);
    } else if k == KW_CLASS {
      ClassWritten(s, c, e, vars, fwd, notes);
    }
  }

  // A module or a class that is another one.
  lemma AliasDeclWritten(s: Stream, c: nat, e: Errors)
    ensures var n := TypeNameAt(s, c + 1, e, {ClassName});
            n.Ok? && s.Kind(n.pos) == EQ ==>
              var prior := TypeNameAt(s, n.pos + 1, n.err, {ClassName});
              prior.Ok? ==> IsAliasDecl(s, c, prior.pos, s.Kind(c), n.value, prior.value)
  {
    hide TypeNameAt, IsName, KindOfName, Kept, FirstError;
    NameWritten(s, c + 1, e, {ClassName});
    var n := TypeNameAt(s, c + 1, e, {ClassName});
    if n.Ok? {
      NameWritten(s, n.pos + 1, n.err, {ClassName});
    }
  }

  lemma {:induction false} ModuleWritten(s: Stream, c: nat, e: Errors, vars: set<string>, fwd: bool, notes: seq<string>)
    requires c < |s.toks| && s.Kind(c) == KW_MODULE
    ensures var r := ModuleDeclAt(s, c, e, vars, fwd, notes);
            r.Ok? ==> IsDecl(s, c, r.pos, r.value) && r.value.annotations == notes
    decreases s.Left(c), 1
  {
    hide TypeNameAt, ModuleBodyAt, IsHeader, IsModuleRest, IsAliasDecl, KindOfName, Kept, FirstError;
    AliasDeclWritten(s, c, e);
    HeaderWritten(s, c, e, ClassName);
    var n := TypeNameAt(s, c + 1, e, {ClassName});
    if n.Ok? && s.Kind(n.pos) != EQ {
      ModuleBodyWritten(s, n.pos, n.err, vars, fwd, notes, n.value);
    }
  }

  lemma ModuleBodySteps(s: Stream, i: nat, e: Errors, vars: set<string>, fwd: bool, notes: seq<string>, name: TypeName)
    requires i <= |s.toks| && name.kind == ClassName
    ensures var r := ModuleBodyAt(s, i, e, vars, fwd, notes, name);
            r.Ok? ==>
              var ps := OwnParamsAt(s, i, e);
              && ps.Ok?
              && var x := SelfTypesAt(s, ps.pos, ps.err, NamesOf(ps.value), []);
                 && x.Ok?
                 && var ms := MembersAt(s, x.pos, x.err, NamesOf(ps.value), fwd, []);
                    ms.Ok? && r.value == ModuleDecl(notes, name, ps.value, x.value, ms.value) && r.pos == ms.pos + 1
  {
    hide WellMember, WellMixin, WellOwnParams, NamesOf, OwnParamsAt, SelfTypesAt, MembersAt, Kept, FirstError;
  }

  lemma RestWritten(s: Stream, i: nat, k: nat, j: nat, xs: seq<Mixin>, x: Option<Mixin>, ms: seq<Member>)
    requires k < j && IsMembers(s, k, j - 1, ms) && s.Kind(j - 1) == KW_END
    ensures IsSelfTypes(s, i, k, xs, true) ==> IsModuleRest(s, i, j, xs, ms)
    ensures IsSuper(s, i, k, x) ==> IsClassRest(s, i, j, x, ms)
  {
    hide IsSelfTypes, IsSuper, IsMembers;
    BodyWritten(s, k, j - 1, ms);
  }

  // What follows the name of a module.
  lemma {:induction false} ModuleBodyWritten(s: Stream, i: nat, e: Errors, vars: set<string>, fwd: bool, notes: seq<string>,
                                             name: TypeName)
    requires i <= |s.toks| && name.kind == ClassName
    ensures var r := ModuleBodyAt(s, i, e, vars, fwd, notes, name);
            r.Ok? ==>
              && r.value.ModuleDecl? && r.value.name == name && r.value.annotations == notes
              && var ps := OwnParamsAt(s, i, e);
                 && ps.Ok? && ps.value == r.value.params
                 && IsModuleRest(s, ps.pos, r.pos, r.value.selfTypes, r.value.members)
    decreases s.Left(i), 5
  {
    hide WellMember, WellMixin, WellOwnParams, NamesOf, OwnParamsAt, SelfTypesAt, MembersAt, ModuleBodyAt, IsSelfTypes,
      IsModuleRest, IsMembers, Kept, FirstError;
    ModuleBodySteps(s, i, e, vars, fwd, notes, name);
    var r := ModuleBodyAt(s, i, e, vars, fwd, notes, name);
    if r.Ok? {
      var ps := OwnParamsAt(s, i, e);
      var own := NamesOf(ps.value);
      AllSelfTypesWritten(s, ps.pos, ps.err, own);
      var selfs := SelfTypesAt(s, ps.pos, ps.err, own, []);
      AllMembersWritten(s, selfs.pos, selfs.err, own, fwd);
      RestWritten(s, ps.pos, selfs.pos, r.pos, selfs.value, None, r.value.members);
    }
  }

  lemma {:induction false} ClassWritten(s: Stream, c: nat, e: Errors, vars: set<string>, fwd: bool, notes: seq<string>)
    requires c < |s.toks| && s.Kind(c) == KW_CLASS
    ensures var r := ClassDeclAt(s, c, e, vars, fwd, notes);
            r.Ok? ==> IsDecl(s, c, r.pos, r.value) && r.value.annotations == notes
    decreases s.Left(c), 1
  {
    hide TypeNameAt, ClassBodyAt, IsHeader, IsClassRest, IsAliasDecl, KindOfName, Kept, FirstError;
    AliasDeclWritten(s, c, e);
    HeaderWritten(s, c, e, ClassName);
    var n := TypeNameAt(s, c + 1, e, {ClassName});
    if n.Ok? && s.Kind(n.pos) != EQ {
      ClassBodyWritten(s, n.pos, n.err, vars, fwd, notes, n.value);
    }
  }

  lemma ClassBodySteps(s: Stream, i: nat, e: Errors, vars: set<string>, fwd: bool, notes: seq<string>, name: TypeName)
    requires i <= |s.toks| && name.kind == ClassName
    ensures var r := ClassBodyAt(s, i, e, vars, fwd, notes, name);
            r.Ok? ==>
              var ps := OwnParamsAt(s, i, e);
              && ps.Ok?
              && var x := SuperAt(s, ps.pos, ps.err, NamesOf(ps.value));
                 && x.Ok?
                 && var ms := MembersAt(s, x.pos, x.err, NamesOf(ps.value), fwd, []);
                    ms.Ok? && r.value == ClassDecl(notes, name, ps.value, x.value, ms.value) && r.pos == ms.pos + 1
  {
    hide WellMember, WellMixin, WellOwnParams, NamesOf, OwnParamsAt, SuperAt, MembersAt, Kept, FirstError;
  }

  // What follows the name of a class.
  lemma {:induction false} ClassBodyWritten(s: Stream, i: nat, e: Errors, vars: set<string>, fwd: bool, notes: seq<string>,
                                            name: TypeName)
    requires i <= |s.toks| && name.kind == ClassName
    ensures var r := ClassBodyAt(s, i, e, vars, fwd, notes, name);
            r.Ok? ==>
              && r.value.ClassDecl? && r.value.name == name && r.value.annotations == notes
              && var ps := OwnParamsAt(s, i, e);
                 && ps.Ok? && ps.value == r.value.params
                 && IsClassRest(s, ps.pos, r.pos, r.value.super, r.value.members)
    decreases s.Left(i), 5
  {
    hide WellMember, WellMixin, WellOwnParams, NamesOf, OwnParamsAt, SuperAt, MembersAt, ClassBodyAt, IsSuper, IsClassRest,
      IsMembers, Kept, FirstError;
    ClassBodySteps(s, i, e, vars, fwd, notes, name);
    var r := ClassBodyAt(s, i, e, vars, fwd, notes, name);
    if r.Ok? {
      var ps := OwnParamsAt(s, i, e);
      var own := NamesOf(ps.value);
      SuperWritten(s, ps.pos, ps.err, own);
      var x := SuperAt(s, ps.pos, ps.err, own);
      AllMembersWritten(s, x.pos, x.err, own, fwd);
      RestWritten(s, ps.pos, x.pos, r.pos, [], x.value, r.value.members);
    }
  }

  // ---- signatures ------------------------------------------------------------------------------------

  lemma DeclsNone(s: Stream, i: nat)
    ensures IsDecls(s, i, i, [])
  {}

  lemma DeclsMore(s: Stream, i: nat, a: nat, b: nat, j: nat, d: Decl, ds: seq<Decl>)
    requires IsNotes(s, i, a, d.annotations) && IsDecl(s, a, b, d) && IsDecls(s, b, j, ds)
    ensures IsDecls(s, i, j, [d] + ds)
  {
    hide IsNotes, IsDecl;
    assert ([d] + ds)[1..] == ds;
  }

  lemma {:induction false} DeclsWritten(s: Stream, i: nat, e: Errors, vars: set<string>, fwd: bool, acc: seq<Decl>)
    returns (ds: seq<Decl>)
    requires i <= |s.toks|
    ensures var r := DeclsAt(s, i, e, vars, fwd, acc); r.Ok? ==> r.value == acc + ds && IsDecls(s, i, r.pos, ds)
    decreases s.Left(i)
  {
    hide WellDecl, AnnotationsAt, DeclHereAt, IsNotes, IsDecl, IsDecls, Kept, FirstError;
    ds := [];
    assert acc + ds == acc;
    DeclsNone(s, i);
    var r := DeclsAt(s, i, e, vars, fwd, acc);
    if r.Ok? && s.Kind(i) != EOF {
      NotesWritten(s, i, e);
      var a := AnnotationsAt(s, i, e);
      DeclHereWritten(s, a.pos, a.err, vars, fwd, a.value);
      var d := DeclAt(s, i, e, vars, fwd);
      var more := DeclsWritten(s, d.pos, d.err, vars, fwd, acc + [d.value]);
      DeclsMore(s, i, a.pos, d.pos, r.pos, d.value, more);
      ds := [d.value] + more;
      assert acc + ds == acc + [d.value] + more;
    }
  }

  // Whatever is accepted as a signature is written in the tokens up to the end of the input: the directives, and after
  // them the declarations with their annotations and members.
  lemma AcceptedSignaturesAreWritten(s: Stream, i: nat, e: Errors, vars: set<string>, fwd: bool)
    requires i <= |s.toks|
    ensures var r := SignatureAt(s, i, e, vars, fwd);
            r.Ok? ==>
              var j := DirectivesAt(s, i, e).pos;
              DirectivesAt(s, i, e) == Ok(r.value.directives, j, e) && IsDecls(s, j, r.pos, r.value.decls) && s.Kind(r.pos) == EOF
  {
    hide WellDecl, DirectivesAt, DeclsAt, IsDecls, Kept, FirstError;
    var r := SignatureAt(s, i, e, vars, fwd);
    if r.Ok? {
      var uses := DirectivesAt(s, i, e);
      var ds := DeclsWritten(s, uses.pos, uses.err, vars, fwd, []);
      assert [] + ds == ds;
    }
  }
}
