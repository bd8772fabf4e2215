/** Method types written out (lib/rbs/method_type.rb, lib/rbs/ast/type_param.rb) and read back. */
module MethodTexts {
  import opened Ast
  import opened Grammar
  import opened MethodTypes
  import opened Printer
  import opened RoundTrip
  import opened Tokens
  import opened Trees
  import opened WellFormed

  // ---- what is written -------------------------------------------------------------------------------

  // A type after a token of its own: a bound after `<` or `>`, a default after `=`.
  function MarkedText(k: TokenKind, t: Option<Type>, fix: bool, rest: Text): Text {
    if t.None? then rest else Put(k, TypeText(t.value, 0, fix, rest))
  }

  // The upper bound comes first; with `fix` the lower one may.
  function BoundsText(p: TypeParam, fix: bool, rest: Text): Text {
    var upperFirst := MarkedText(LT, p.upper, fix, MarkedText(GT, p.lower, fix, rest));
    if fix then Either(MarkedText(GT, p.lower, fix, MarkedText(LT, p.upper, fix, rest)), upperFirst) else upperFirst
  }

  function TypeParamText(p: TypeParam, fix: bool, rest: Text): Text {
    var name := PutBody(NameMark(ClassName, p.name), BoundsText(p, fix, MarkedText(EQ, p.default, fix, rest)));
    var variance := match p.variance {
        case Invariant => name
        case Covariant => Put(KW_OUT, name)
        case Contravariant => Put(KW_IN, name)
      };
    if p.unchecked then Put(KW_UNCHECKED, variance) else variance
  }

  // The parameters from number `n` on, with the closing bracket.
  function TypeParamListText(ps: seq<TypeParam>, n: nat, fix: bool, rest: Text): Text
    requires n < |ps|
    decreases |ps| - n
  {
    TypeParamText(ps[n], fix,
                  if n + 1 < |ps| then Put(COMMA, TypeParamListText(ps, n + 1, fix, rest)) else Put(RBRACKET, rest))
  }

  function TypeParamsText(ps: seq<TypeParam>, fix: bool, rest: Text): Text {
    if ps == [] then rest else Put(LBRACKET, TypeParamListText(ps, 0, fix, rest))
  }

  function MethodText(m: MethodType, fix: bool, rest: Text): Text {
    TypeParamsText(m.typeParams, fix,
      ParensText(m.fn, fix, BlockText(m.block, fix, Put(ARROW, TypeText(m.fn.ret, 1, fix, rest)))))
  }

  // ---- equality up to locations ----------------------------------------------------------------------

  ghost predicate SameTypeParam(a: TypeParam, b: TypeParam) {
    && a.name == b.name && a.variance == b.variance && a.unchecked == b.unchecked
    && SameOption(a.upper, b.upper) && SameOption(a.lower, b.lower) && SameOption(a.default, b.default)
  }

  ghost predicate SameTypeParams(a: seq<TypeParam>, b: seq<TypeParam>) {
    |a| == |b| && forall i :: 0 <= i < |a| ==> SameTypeParam(a[i], b[i])
  }

  ghost predicate SameMethodType(a: MethodType, b: MethodType) {
    SameTypeParams(a.typeParams, b.typeParams) && SameFn(a.fn, b.fn) && SameBlock(a.block, b.block)
  }

  // ---- what can be written ---------------------------------------------------------------------------

  ghost predicate OptionWritable(t: Option<Type>, v: bool, sc: Scope, fix: bool) {
    t.Some? ==> Writable(t.value, v, sc, fix)
  }

  ghost predicate TypeParamWritable(p: TypeParam, vars: set<string>, fix: bool) {
    var sc := Scope(vars, false, false);
    OptionWritable(p.upper, false, sc, fix) && OptionWritable(p.lower, false, sc, fix) && OptionWritable(p.default, true, sc, fix)
  }

  // After a type parameter.
  predicate EndsParam(k: Text) {
    k.More? && k.head.body.Mark? && k.head.body.kind in {COMMA, RBRACKET}
  }

  lemma EndsParamKind(s: Stream, i: nat, k: Text)
    requires Spells(s, i, k) && EndsParam(k)
    ensures i < |s.toks| && s.Kind(i) in {COMMA, RBRACKET} && Stops(k, 0)
  {}

  // ---- bounds ----------------------------------------------------------------------------------------

  lemma MarkedStops(k: TokenKind, t: Option<Type>, fix: bool, rest: Text)
    requires Stops(rest, 0) && k in {LT, GT, EQ}
    ensures Stops(MarkedText(k, t, fix, rest), 0)
  {}

  // What stands before the type, or instead of it.
  lemma MarkedHead(s: Stream, i: nat, k: TokenKind, t: Option<Type>, fix: bool, rest: Text)
    requires Spells(s, i, MarkedText(k, t, fix, rest))
    ensures t.Some? ==> i < |s.toks| && s.Kind(i) == k && Spells(s, i + 1, TypeText(t.value, 0, fix, rest))
    ensures t.None? ==> Spells(s, i, rest)
  {}

  // One bound, present or not, when the other attempt goes first or second.
  lemma BoundRead(s: Stream, i: nat, e: Errors, k: TokenKind, t: Option<Type>, sc: Scope, b: Bounds, fix: bool, rest: Text)
    returns (r: Outcome<Bounds>)
    requires i <= |s.toks| && k in {LT, GT} && OptionWritable(t, false, sc, fix) && Stops(rest, 0)
    requires Spells(s, i, MarkedText(k, t, fix, rest)) && t.Some? && (if k == LT then b.upper.None? else b.lower.None?)
    ensures r == BoundAt(s, i, e, sc, b) && r.Ok? && r.err == e && Spells(s, r.pos, rest)
    ensures r.value == if k == LT then b.(upper := r.value.upper) else b.(lower := r.value.lower)
    ensures SameOption(t, if k == LT then r.value.upper else r.value.lower)
  {
    hide Well, Spells, Stops, TypeText, MarkedText, TypeAt, Same, Writable;
    MarkedHead(s, i, k, t, fix, rest);
    TypeRead(s, i + 1, e, t.value, false, sc, fix, rest);
    r := BoundAt(s, i, e, sc, b);
  }

  lemma NoBound(s: Stream, i: nat, e: Errors, sc: Scope, b: Bounds)
    requires i <= |s.toks| && s.Kind(i) !in {LT, GT}
    ensures BoundAt(s, i, e, sc, b) == Ok(b, i, e)
  {
    hide Well, TypeAt;
  }

  ghost predicate ReadBounds(r: Outcome<Bounds>, p: TypeParam, s: Stream, e: Errors, rest: Text) {
    r.Ok? && r.err == e && SameOption(p.upper, r.value.upper) && SameOption(p.lower, r.value.lower) && Spells(s, r.pos, rest)
  }

  // Two bounds in the order of the tokens `k` and `l`.
  lemma BoundsInOrder(s: Stream, i: nat, e: Errors, p: TypeParam, k: TokenKind, sc: Scope, fix: bool, rest: Text)
    requires i <= |s.toks| && OptionWritable(p.upper, false, sc, fix) && OptionWritable(p.lower, false, sc, fix)
    requires k in {LT, GT} && Stops(rest, 0)
    requires forall j: nat :: Spells(s, j, rest) ==> j <= |s.toks| && s.Kind(j) !in {LT, GT}
    requires var first, second := if k == LT then p.upper else p.lower, if k == LT then p.lower else p.upper;
             Spells(s, i, MarkedText(k, first, fix, MarkedText(if k == LT then GT else LT, second, fix, rest)))
    ensures ReadBounds(BoundsAt(s, i, e, sc), p, s, e, rest)
  {
    hide Well, Spells, Stops, TypeText, MarkedText, TypeAt, Same, SameOption, Writable, OptionWritable, BoundAt;
    var first, second := if k == LT then p.upper else p.lower, if k == LT then p.lower else p.upper;
    var l := if k == LT then GT else LT;
    var more := MarkedText(l, second, fix, rest);
    MarkedStops(l, second, fix, rest);
    NothingSame();
    var none := Bounds(None, None);
    if first.Some? {
      var r := BoundRead(s, i, e, k, first, sc, none, fix, more);
      if second.Some? {
        var q := BoundRead(s, r.pos, e, l, second, sc, r.value, fix, rest);
      } else {
        MarkedHead(s, r.pos, l, second, fix, rest);
        NoBound(s, r.pos, e, sc, r.value);
      }
    } else {
      MarkedHead(s, i, k, first, fix, more);
      if second.Some? {
        var r := BoundRead(s, i, e, l, second, sc, none, fix, rest);
        NoBound(s, r.pos, e, sc, r.value);
      } else {
        MarkedHead(s, i, l, second, fix, rest);
        NoBound(s, i, e, sc, none);
      }
    }
  }

  lemma NothingSame()
    ensures SameOption(None, None)
  {}

  lemma BoundsRead(s: Stream, i: nat, e: Errors, p: TypeParam, sc: Scope, fix: bool, rest: Text)
    requires i <= |s.toks| && OptionWritable(p.upper, false, sc, fix) && OptionWritable(p.lower, false, sc, fix)
    requires Stops(rest, 0) && Spells(s, i, BoundsText(p, fix, rest))
    requires forall j: nat :: Spells(s, j, rest) ==> j <= |s.toks| && s.Kind(j) !in {LT, GT}
    ensures ReadBounds(BoundsAt(s, i, e, sc), p, s, e, rest)
  {
    hide Well, Spells, Stops, TypeText, MarkedText, BoundsAt, ReadBounds, OptionWritable;
    var lowerFirst := MarkedText(GT, p.lower, fix, MarkedText(LT, p.upper, fix, rest));
    var upperFirst := MarkedText(LT, p.upper, fix, MarkedText(GT, p.lower, fix, rest));
    if fix {
      TakeEither(s, i, lowerFirst, upperFirst);
    }
    if fix && Spells(s, i, lowerFirst) {
      BoundsInOrder(s, i, e, p, GT, sc, fix, rest);
    } else {
      BoundsInOrder(s, i, e, p, LT, sc, fix, rest);
    }
  }

  // ---- type parameters -------------------------------------------------------------------------------

  // What follows the bounds begins with neither of their tokens.
  lemma DefaultText(p: TypeParam, fix: bool, rest: Text)
    requires EndsParam(rest)
    ensures Stops(MarkedText(EQ, p.default, fix, rest), 0)
    ensures forall s: Stream, j: nat :: Spells(s, j, MarkedText(EQ, p.default, fix, rest)) ==>
              j <= |s.toks| && s.Kind(j) !in {LT, GT} && (s.Kind(j) == EQ <==> p.default.Some?)
  {
    hide TypeText, Stops;
    forall s: Stream, j: nat | Spells(s, j, MarkedText(EQ, p.default, fix, rest))
      ensures j <= |s.toks| && s.Kind(j) !in {LT, GT} && (s.Kind(j) == EQ <==> p.default.Some?)
    {
      MarkedHead(s, j, EQ, p.default, fix, rest);
      if p.default.None? {
        EndsParamKind(s, j, rest);
      }
    }
    EndsParamStops(rest);
    MarkedStops(EQ, p.default, fix, rest);
  }

  lemma EndsParamStops(k: Text)
    requires EndsParam(k)
    ensures Stops(k, 0)
  {}

  ghost predicate ReadTail(r: Outcome<(Bounds, Option<Type>)>, p: TypeParam, s: Stream, e: Errors, rest: Text) {
    && r.Ok? && r.err == e && Spells(s, r.pos, rest)
    && SameOption(p.upper, r.value.0.upper) && SameOption(p.lower, r.value.0.lower) && SameOption(p.default, r.value.1)
  }

  // The bounds and the default, which only the parameters of a module may have.
  lemma TailRead(s: Stream, i: nat, e: Errors, p: TypeParam, vars: set<string>, moduleParams: bool, requiredOk: bool,
                 fix: bool, rest: Text)
    requires 0 < i <= |s.toks| && TypeParamWritable(p, vars, fix) && EndsParam(rest)
    requires if moduleParams then requiredOk || p.default.Some? else p.default.None?
    requires Spells(s, i, BoundsText(p, fix, MarkedText(EQ, p.default, fix, rest)))
    ensures ReadTail(TailAt(s, i, e, Scope(vars, false, false), moduleParams, requiredOk), p, s, e, rest)
  {
    hide Well, Spells, Stops, TypeText, MarkedText, BoundsText, TypeAt, BoundsAt, Same, SameOption, Writable, EndsParam;
    var sc := Scope(vars, false, false);
    var default := MarkedText(EQ, p.default, fix, rest);
    DefaultText(p, fix, rest);
    BoundsRead(s, i, e, p, sc, fix, default);
    var b := BoundsAt(s, i, e, sc);
    MarkedHead(s, b.pos, EQ, p.default, fix, rest);
    NothingSame();
    EndsParamStops(rest);
    if p.default.Some? {
      TypeRead(s, b.pos + 1, e, p.default.value, true, sc, fix, rest);
      OneSame(p.default.value, TypeAt(s, b.pos + 1, e, true, sc).value);
    }
  }

  lemma OneSame(t: Type, u: Type)
    requires Same(t, u)
    ensures SameOption(Some(t), Some(u))
  {}

  // The modifiers, then the name.
  lemma HeadRead(s: Stream, i: nat, p: TypeParam, moduleParams: bool, fix: bool, rest: Text)
    requires Spells(s, i, TypeParamText(p, fix, rest))
    requires !moduleParams ==> p.variance == Invariant && !p.unchecked
    ensures var n := NameIndex(s, i, moduleParams);
            && i <= n < |s.toks| && s.Kind(n) == UIDENT && s.At(n).text == p.name
            && Spells(s, n + 1, BoundsText(p, fix, MarkedText(EQ, p.default, fix, rest)))
            && (moduleParams ==> VarianceBefore(s, i, n) == p.variance && (s.Kind(i) == KW_UNCHECKED) == p.unchecked)
  {
    hide Spells, BoundsText, MarkedText;
    var after := BoundsText(p, fix, MarkedText(EQ, p.default, fix, rest));
    var name := PutBody(NameMark(ClassName, p.name), after);
    var variance := match p.variance {
        case Invariant => name
        case Covariant => Put(KW_OUT, name)
        case Contravariant => Put(KW_IN, name)
      };
    if p.unchecked {
      TakeMark(s, i, KW_UNCHECKED, variance);
    }
    var j := if p.unchecked then i + 1 else i;
    if p.variance != Invariant {
      TakeMark(s, j, if p.variance == Covariant then KW_OUT else KW_IN, name);
    }
    var n := if p.variance == Invariant then j else j + 1;
    TakeName(s, n, ClassName, p.name, false, after);
  }

  ghost predicate ReadParam(r: Outcome<TypeParam>, p: TypeParam, s: Stream, e: Errors, rest: Text) {
    r.Ok? && r.err == e && SameTypeParam(p, r.value) && Spells(s, r.pos, rest)
  }

  lemma TypeParamRead(s: Stream, i: nat, e: Errors, p: TypeParam, outer: set<string>, moduleParams: bool,
                      requiredOk: bool, fix: bool, rest: Text)
    requires TypeParamWritable(p, outer + {p.name}, fix) && EndsParam(rest)
    requires if moduleParams then requiredOk || p.default.Some?
             else p.variance == Invariant && !p.unchecked && p.default.None?
    requires Spells(s, i, TypeParamText(p, fix, rest))
    ensures ReadParam(TypeParamAt(s, i, e, outer, moduleParams, requiredOk), p, s, e, rest)
  {
    hide Well, Spells, TypeParamText, BoundsText, MarkedText, TailAt, SameOption, Writable, TypeParamWritable, EndsParam,
      NameIndex, VarianceBefore, Stream.At, Stream.Kind;
    HeadRead(s, i, p, moduleParams, fix, rest);
    var n := NameIndex(s, i, moduleParams);
    TailRead(s, n + 1, e, p, outer + {p.name}, moduleParams, requiredOk, fix, rest);
  }

  // ---- lists of type parameters ----------------------------------------------------------------------

  // Parameters `n` and later of a well-shaped list: each sees the ones before it and itself.
  ghost predicate ListWritable(ps: seq<TypeParam>, outer: set<string>, moduleParams: bool, fix: bool) {
    && ShapedTypeParams(ps, moduleParams)
    && forall k :: 0 <= k < |ps| ==> TypeParamWritable(ps[k], outer + NamesOf(ps[..k + 1]), fix)
  }

  ghost predicate ReadParams(r: Outcome<seq<TypeParam>>, ps: seq<TypeParam>, s: Stream, e: Errors, rest: Text) {
    r.Ok? && r.err == e && SameTypeParams(ps, r.value) && Spells(s, r.pos, rest)
  }

  // Whether a parameter without a default may still come.
  predicate NoDefaultYet(ps: seq<TypeParam>, n: nat)
    requires n <= |ps|
  {
    forall k :: 0 <= k < n ==> ps[k].default.None?
  }

  lemma NamesUpto(ps: seq<TypeParam>, n: nat, outer: set<string>)
    requires n < |ps|
    ensures outer + NamesOf(ps[..n]) + {ps[n].name} == outer + NamesOf(ps[..n + 1])
  {
    assert ps[..n + 1] == ps[..n] + [ps[n]];
    NamesGrow(ps[..n], ps[n]);
  }

  lemma ShapeAt(ps: seq<TypeParam>, n: nat, moduleParams: bool)
    requires n < |ps| && ShapedTypeParams(ps, moduleParams)
    ensures if moduleParams then NoDefaultYet(ps, n) || ps[n].default.Some?
            else ps[n].variance == Invariant && !ps[n].unchecked && ps[n].default.None?
    ensures NoDefaultYet(ps, n + 1) <==> NoDefaultYet(ps, n) && ps[n].default.None?
  {}

  lemma SameGrows(ps: seq<TypeParam>, n: nat, acc: seq<TypeParam>, p: TypeParam)
    requires n < |ps| && SameTypeParams(ps[..n], acc) && SameTypeParam(ps[n], p)
    ensures SameTypeParams(ps[..n + 1], acc + [p]) && (n + 1 == |ps| ==> SameTypeParams(ps, acc + [p]))
  {
    hide SameTypeParam;
    assert ps[..n + 1] == ps[..n] + [ps[n]];
    if n + 1 == |ps| {
      assert ps[..n + 1] == ps;
    }
  }

  lemma {:induction false} ListRead(s: Stream, i: nat, e: Errors, ps: seq<TypeParam>, n: nat, acc: seq<TypeParam>,
                                    outer: set<string>, moduleParams: bool, fix: bool, rest: Text)
    requires n < |ps| && ListWritable(ps, outer, moduleParams, fix) && SameTypeParams(ps[..n], acc)
    requires Spells(s, i, TypeParamListText(ps, n, fix, rest))
    ensures var seen, ok := outer + NamesOf(ps[..n]), NoDefaultYet(ps, n);
            ReadParams(TypeParamsFrom(s, i, e, seen, moduleParams, ok, acc), ps, s, e, rest)
    decreases |ps| - n
  {
    hide Well, Spells, TypeParamText, TypeParamAt, TypeParamsFrom, SameTypeParam, SameTypeParams, Writable,
      TypeParamWritable, EndsParam, NoDefaultYet, NamesOf, ShapedTypeParams, Stream.At, Stream.Kind;
    var seen, ok := outer + NamesOf(ps[..n]), NoDefaultYet(ps, n);
    var more := if n + 1 < |ps| then Put(COMMA, TypeParamListText(ps, n + 1, fix, rest)) else Put(RBRACKET, rest);
    NamesUpto(ps, n, outer);
    ShapeAt(ps, n, moduleParams);
    MarksEnd(more);
    TypeParamRead(s, i, e, ps[n], seen, moduleParams, ok, fix, more);
    TypeParamsStep(s, i, e, seen, moduleParams, ok, acc);
    var r := TypeParamAt(s, i, e, seen, moduleParams, ok);
    SameGrows(ps, n, acc, r.value);
    Names(ps[n], r.value);
    if n + 1 < |ps| {
      TakeMark(s, r.pos, COMMA, TypeParamListText(ps, n + 1, fix, rest));
      ListRead(s, r.pos + 1, e, ps, n + 1, acc + [r.value], outer, moduleParams, fix, rest);
    } else {
      TakeMark(s, r.pos, RBRACKET, rest);
    }
  }

  lemma Names(a: TypeParam, b: TypeParam)
    requires SameTypeParam(a, b)
    ensures a.name == b.name && (a.default.None? == b.default.None?)
  {}

  lemma MarksEnd(k: Text)
    ensures (exists k' :: k == Put(COMMA, k') || k == Put(RBRACKET, k')) ==> EndsParam(k)
  {}

  // The list in its brackets, or nothing at all.
  lemma TypeParamsRead(s: Stream, i: nat, e: Errors, ps: seq<TypeParam>, outer: set<string>, moduleParams: bool,
                       fix: bool, rest: Text)
    requires i <= |s.toks| && ListWritable(ps, outer, moduleParams, fix) && Spells(s, i, TypeParamsText(ps, fix, rest))
    requires forall j: nat :: Spells(s, j, rest) ==> s.Kind(j) != LBRACKET
    ensures ReadParams(TypeParamsAt(s, i, e, outer, moduleParams), ps, s, e, rest)
  {
    hide Spells, TypeParamListText, TypeParamsFrom, SameTypeParam, ListWritable;
    if ps != [] {
      TakeMark(s, i, LBRACKET, TypeParamListText(ps, 0, fix, rest));
      assert ps[..0] == [] && outer + NamesOf(ps[..0]) == outer;
      assert NoDefaultYet(ps, 0);
      ListRead(s, i + 1, e, ps, 0, [], outer, moduleParams, fix, rest);
    }
  }

  // ---- method types ----------------------------------------------------------------------------------

  ghost predicate MethodWritable(m: MethodType, outer: set<string>, classOk: bool, forwarding: bool, fix: bool) {
    var sc := Scope(outer + NamesOf(m.typeParams), true, classOk);
    && ListWritable(m.typeParams, outer, false, fix)
    && FnWritable(m.fn, sc, fix) && Forwards(m.fn, forwarding)
    && (m.block.Some? ==> BlockWritable(m.block.value, sc, fix) && m.fn.Fn? && m.fn.params.forwarding.None?)
  }

  // The texts of a function and what is after its parameters.
  function FunctionText(f: Function, b: Option<Block>, fix: bool, rest: Text): Text {
    ParensText(f, fix, BlockText(b, fix, Put(ARROW, TypeText(f.ret, 1, fix, rest))))
  }

  lemma FunctionTextHead(f: Function, b: Option<Block>, fix: bool, rest: Text)
    ensures NoParen(BlockText(b, fix, Put(ARROW, TypeText(f.ret, 1, fix, rest))))
    ensures b.None? ==> BlockText(b, fix, Put(ARROW, TypeText(f.ret, 1, fix, rest))) == Put(ARROW, TypeText(f.ret, 1, fix, rest))
    ensures forall s: Stream, j: nat :: Spells(s, j, FunctionText(f, b, fix, rest)) ==> s.Kind(j) != LBRACKET
  {
    hide ParamListText, TypeText;
  }

  ghost predicate ReadFunction(r: Outcome<FunctionResult>, f: Function, b: Option<Block>, s: Stream, e: Errors, rest: Text) {
    r.Ok? && r.err == e && SameFn(f, r.value.fn) && SameBlock(b, r.value.block) && Spells(s, r.pos, rest)
  }

  // What parse_function makes of its parts when it does not look for a self binding.
  lemma FunctionSteps(s: Stream, i: nat, e: Errors, sc: Scope, fwd: bool, f: Function, b: Option<Block>)
    requires i <= |s.toks| && ParenParamsAt(s, i, e, sc, fwd).Ok?
    requires f.Fn? ==> (f.params.forwarding.Some? || b.None? ==> !BlockFollows(s, ParenParamsAt(s, i, e, sc, fwd).pos))
    requires f.UntypedFn? ==> s.Kind(ParenParamsAt(s, i, e, sc, fwd).pos) == ARROW
    ensures var ps := ParenParamsAt(s, i, e, sc, fwd);
            var block := BlockAt(s, ps.pos, ps.err, sc);
            block.Ok? ==>
              var ret := ReturnAt(s, block.pos, block.err, sc);
              && ret.Ok? && f.UntypedFn? == ps.value.Untyped? && Same(f.ret, ret.value)
              && (f.Fn? ==> SameMethodParams(f.params, ps.value.params)) && SameBlock(b, block.value) ==>
                var r := FunctionAt(s, i, e, sc, false, true, fwd);
                r.Ok? && SameFn(f, r.value.fn) && r.value.block == block.value && r.pos == ret.pos && r.err == ret.err
  {
    hide Well, WellParams, WellBlock, WellFn, ParenParamsAt, SelfBindingAt, BlockAt, ReturnAt, SameMethodParams,
      SameBlock, Same, SameFn, MakeFunction;
    var ps := ParenParamsAt(s, i, e, sc, fwd);
    var block := BlockAt(s, ps.pos, ps.err, sc);
    if block.Ok? {
      var ret := ReturnAt(s, block.pos, block.err, sc);
      if && ret.Ok? && f.UntypedFn? == ps.value.Untyped? && Same(f.ret, ret.value)
         && (f.Fn? ==> SameMethodParams(f.params, ps.value.params)) {
        SameMade(f, ps.value, ret.value, Spanning(s.Current(i), s.At(ret.pos - 1)));
        SameForwarding(f, ps.value);
      }
    }
  }

  lemma SameForwarding(f: Function, ps: ParamList)
    requires f.UntypedFn? == ps.Untyped? && (f.Fn? ==> SameMethodParams(f.params, ps.params))
    ensures f.Fn? ==> (f.params.forwarding.Some? <==> ps.params.forwarding.Some?)
  {}

  lemma FunctionRead(s: Stream, i: nat, e: Errors, f: Function, b: Option<Block>, sc: Scope, fwd: bool, fix: bool, rest: Text)
    requires i <= |s.toks| && FnWritable(f, sc, fix) && Forwards(f, fwd)
    requires b.Some? ==> BlockWritable(b.value, sc, fix) && f.Fn? && f.params.forwarding.None?
    requires Spells(s, i, FunctionText(f, b, fix, rest)) && (Stops(rest, 2) || f.ret.OptionalType?)
    ensures ReadFunction(FunctionAt(s, i, e, sc, false, true, fwd), f, b, s, e, rest)
  {
    hide Well, WellParams, WellBlock, WellFn, Spells, Stops, Writable, BlockWritable, TypeText, ParensText, BlockText,
      ParenParamsAt, BlockAt, ReturnAt, FunctionAt, Same, SameMethodParams, SameBlock, SameFn, NoParen,
      AllParamsWritable, Orderly, Stream.At, Stream.Kind;
    var ret := TypeText(f.ret, 1, fix, rest);
    FunctionTextHead(f, b, fix, rest);
    ParamListRead(s, i, e, f, sc, fwd, fix, BlockText(b, fix, Put(ARROW, ret)));
    var ps := ParenParamsAt(s, i, e, sc, fwd);
    BlockRead(s, ps.pos, e, b, sc, fix, ret);
    var block := BlockAt(s, ps.pos, e, sc);
    ReturnRead(s, block.pos, e, f.ret, sc, fix, rest);
    if b.None? {
      TakeMark(s, ps.pos, ARROW, ret);
      NoBlockHere(s, ps.pos);
    }
    FunctionSteps(s, i, e, sc, fwd, f, b);
  }

  lemma NoBlockHere(s: Stream, i: nat)
    requires s.Kind(i) == ARROW
    ensures !BlockFollows(s, i)
  {}

  // ---- main results ----------------------------------------------------------------------------------

  // A method type is read back from what is written for it, with every variance, bound and default, and with or
  // without parentheses around no parameters, up to locations; what follows stays unread.
  lemma MethodTypesAreRead(s: Stream, i: nat, e: Errors, m: MethodType, outer: set<string>, requireEof: bool,
                           classOk: bool, forwarding: bool, fix: bool, rest: Text)
    requires i <= |s.toks| && MethodWritable(m, outer, classOk, forwarding, fix)
    requires Spells(s, i, MethodText(m, fix, rest)) && (Stops(rest, 2) || m.fn.ret.OptionalType?)
    requires requireEof ==> rest == End
    ensures var r := MethodTypeAt(s, i, e, outer, requireEof, classOk, forwarding);
            r.Ok? && SameMethodType(m, r.value) && r.err == e && (!requireEof ==> Spells(s, r.pos, rest))
  {
    hide Well, WellFn, WellBlock, Stops, Writable, BlockWritable, FnWritable, ListWritable, TypeText, ParensText,
      TypeParamsText, BlockText, TypeParamsAt, FunctionAt, Same, SameFn, SameBlock, SameTypeParam;
    var f := FunctionText(m.fn, m.block, fix, rest);
    FunctionTextHead(m.fn, m.block, fix, rest);
    TypeParamsRead(s, i, e, m.typeParams, outer, false, fix, f);
    var ps := TypeParamsAt(s, i, e, outer, false);
    SameNames(m.typeParams, ps.value);
    FunctionRead(s, ps.pos, e, m.fn, m.block, Scope(outer + NamesOf(m.typeParams), true, classOk), forwarding, fix, rest);
  }

  lemma SameNames(a: seq<TypeParam>, b: seq<TypeParam>)
    requires SameTypeParams(a, b)
    ensures NamesOf(a) == NamesOf(b)
  {
    forall x <- NamesOf(a) ensures x in NamesOf(b) {
      var i :| 0 <= i < |a| && a[i].name == x;
      assert b[i].name == x;
    }
    forall x <- NamesOf(b) ensures x in NamesOf(a) {
      var i :| 0 <= i < |b| && b[i].name == x;
      assert a[i].name == x;
    }
  }

  // The type parameters of a class, a module or a method by themselves.
  lemma TypeParamsAreRead(s: Stream, i: nat, e: Errors, ps: seq<TypeParam>, outer: set<string>, moduleParams: bool,
                          rest: Text)
    requires i <= |s.toks| && WellTypeParams(ps, outer) && ShapedTypeParams(ps, moduleParams)
    requires Spells(s, i, TypeParamsText(ps, true, rest))
    requires forall j: nat :: Spells(s, j, rest) ==> s.Kind(j) != LBRACKET
    ensures ReadParams(TypeParamsAt(s, i, e, outer, moduleParams), ps, s, e, rest)
  {
    hide Well, Spells, TypeParamsText, TypeParamsAt, ReadParams, ShapedTypeParams, NamesOf;
    TypeParamsRead(s, i, e, ps, outer, moduleParams, true, rest);
  }

  // Well-formed method types are those that can be written.
  lemma WellIsWritable(m: MethodType, outer: set<string>, classOk: bool, forwarding: bool)
    requires WellMethodType(m, outer, classOk) && Forwards(m.fn, forwarding)
    ensures MethodWritable(m, outer, classOk, forwarding, true)
  {
    hide Well, NamesOf, ShapedTypeParams, FnWritable;
    var sc := Scope(outer + NamesOf(m.typeParams), true, classOk);
    FnParts(m.fn, sc, true);
    if m.block.Some? {
      FnParts(m.block.value.fn, sc, true);
    }
  }

  // Whatever has been accepted as a method type, once written and parsed again, is the same.
  lemma AcceptedMethodTypesAreStable(s: Stream, i: nat, e: Errors, s': Stream, i': nat, e': Errors, outer: set<string>,
                                     requireEof: bool, classOk: bool, forwarding: bool, rest: Text)
    requires i <= |s.toks| && i' <= |s'.toks| && MethodTypeAt(s, i, e, outer, false, classOk, forwarding).Ok?
    requires var m := MethodTypeAt(s, i, e, outer, false, classOk, forwarding).value;
             Spells(s', i', MethodText(m, true, rest)) && (Stops(rest, 2) || m.fn.ret.OptionalType?)
    requires requireEof ==> rest == End
    ensures var m := MethodTypeAt(s, i, e, outer, false, classOk, forwarding).value;
            var r := MethodTypeAt(s', i', e', outer, requireEof, classOk, forwarding);
            WellMethodType(m, outer, classOk) && r.Ok? && SameMethodType(m, r.value) && r.err == e'
  {
    hide MethodTypeAt, WellMethodType, MethodWritable, MethodText, Spells, Stops, SameMethodType;
    var m := MethodTypeAt(s, i, e, outer, false, classOk, forwarding).value;
    AcceptedMethodTypes(s, i, e, outer, false, classOk, forwarding);
    WellIsWritable(m, outer, classOk, forwarding);
    MethodTypesAreRead(s', i', e', m, outer, requireEof, classOk, forwarding, true, rest);
  }
}
