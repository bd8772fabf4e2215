/** What src/parser.c accepts as type parameters and method types, where every parameter is a type variable in
    its own bounds and in all that follows. */
module MethodTypes {
  import opened Ast
  import opened Grammar
  import opened Tokens
  import opened WellFormed

  function NamesOf(ps: seq<TypeParam>): set<string> {
    set p <- ps :: p.name
  }

  // Bounds may not be `void`, a default may; neither may mention `self`, `class` or `instance`.
  ghost predicate WellTypeParam(p: TypeParam, vars: set<string>) {
    && (p.upper.Some? ==> Well(p.upper.value, false, Scope(vars, false, false)))
    && (p.lower.Some? ==> Well(p.lower.value, false, Scope(vars, false, false)))
    && (p.default.Some? ==> Well(p.default.value, true, Scope(vars, false, false)))
  }

  // Parameter number `k` sees the outer variables, the parameters before it and itself.
  ghost predicate WellTypeParams(ps: seq<TypeParam>, outer: set<string>) {
    forall k :: 0 <= k < |ps| ==> WellTypeParam(ps[k], outer + NamesOf(ps[..k + 1]))
  }

  // Methods have neither variances nor defaults, and nothing without a default follows a default.
  ghost predicate ShapedTypeParams(ps: seq<TypeParam>, moduleParams: bool) {
    && (!moduleParams ==> forall p <- ps :: p.variance == Invariant && !p.unchecked && p.default.None?)
    && (forall i, j :: 0 <= i < j < |ps| && ps[i].default.Some? ==> ps[j].default.Some?)
  }

  datatype Bounds = Bounds(upper: Option<Type>, lower: Option<Type>)

  ghost predicate WellBounds(b: Bounds, sc: Scope) {
    (b.upper.Some? ==> Well(b.upper.value, false, sc)) && (b.lower.Some? ==> Well(b.lower.value, false, sc))
  }

  // One of the two attempts at a bound.
  function BoundAt(s: Stream, i: nat, e: Errors, sc: Scope, b: Bounds): (r: Outcome<Bounds>)
    requires i <= |s.toks|
    ensures r.Ok? ==> i <= r.pos <= |s.toks|
    ensures Kept(e, r)
    ensures r.Ok? && WellBounds(b, sc) ==> WellBounds(r.value, sc)
  {
    if s.Kind(i) != LT && s.Kind(i) != GT then Ok(b, i, e)
    else if if s.Kind(i) == LT then b.upper.Some? else b.lower.Some? then Refuse(e, s.At(i))
    else
      var r := TypeAt(s, i + 1, e, false, sc);
      if r.Fail? then Fail(r.error)
      else Ok(if s.Kind(i) == LT then b.(upper := Some(r.value)) else b.(lower := Some(r.value)), r.pos, r.err)
  }

  function BoundsAt(s: Stream, i: nat, e: Errors, sc: Scope): (r: Outcome<Bounds>)
    requires i <= |s.toks|
    ensures r.Ok? ==> i <= r.pos <= |s.toks|
    ensures Kept(e, r)
    ensures r.Ok? ==> WellBounds(r.value, sc)
  {
    var first := BoundAt(s, i, e, sc, Bounds(None, None));
    if first.Fail? then first else BoundAt(s, first.pos, first.err, sc, first.value)
  }

  // The default of a module type parameter; once there is one, every later parameter needs one.
  function DefaultAt(s: Stream, i: nat, e: Errors, sc: Scope, requiredOk: bool): (r: Outcome<Option<Type>>)
    requires 0 < i <= |s.toks|
    ensures r.Ok? ==> i <= r.pos <= |s.toks|
    ensures Kept(e, r)
    ensures r.Ok? && r.value.Some? ==> Well(r.value.value, true, sc)
    ensures r.Ok? && !requiredOk ==> r.value.Some?
  {
    if s.Kind(i) == EQ then
      var r := TypeAt(s, i + 1, e, true, sc);
      if r.Fail? then Fail(r.error) else Ok(Some(r.value), r.pos, r.err)
    else if !requiredOk then Refuse(e, s.At(i - 1))
    else Ok(None, i, e)
  }

  // What follows the name of a parameter.
  function TailAt(s: Stream, i: nat, e: Errors, sc: Scope, moduleParams: bool, requiredOk: bool)
    : (r: Outcome<(Bounds, Option<Type>)>)
    requires 0 < i <= |s.toks|
    ensures r.Ok? ==> i <= r.pos <= |s.toks|
    ensures Kept(e, r)
    ensures r.Ok? ==> WellBounds(r.value.0, sc) && (r.value.1.Some? ==> Well(r.value.1.value, true, sc))
    ensures r.Ok? ==> if moduleParams then requiredOk || r.value.1.Some? else r.value.1.None?
  {
    var b := BoundsAt(s, i, e, sc);
    if b.Fail? then Fail(b.error)
    else if !moduleParams then Ok((b.value, None), b.pos, b.err)
    else
      var d := DefaultAt(s, b.pos, b.err, sc, requiredOk);
      if d.Fail? then Fail(d.error) else Ok((b.value, d.value), d.pos, d.err)
  }

  // The index of the parameter's name.
  function NameIndex(s: Stream, i: nat, moduleParams: bool): nat {
    if !moduleParams then i
    else
      var j := if s.Kind(i) == KW_UNCHECKED then i + 1 else i;
      if s.Kind(j) == KW_IN || s.Kind(j) == KW_OUT then j + 1 else j
  }

  function VarianceBefore(s: Stream, i: nat, n: nat): Variance {
    if n <= i then Invariant
    else if s.Kind(n - 1) == KW_IN then Contravariant
    else if s.Kind(n - 1) == KW_OUT then Covariant
    else Invariant
  }

  function TypeParamAt(s: Stream, i: nat, e: Errors, outer: set<string>, moduleParams: bool, requiredOk: bool)
    : (r: Outcome<TypeParam>)
    ensures r.Ok? ==> i < r.pos <= |s.toks|
    ensures Kept(e, r)
    ensures r.Ok? ==> WellTypeParam(r.value, outer + {r.value.name})
    ensures r.Ok? && !moduleParams ==> r.value.variance == Invariant && !r.value.unchecked && r.value.default.None?
    ensures r.Ok? && moduleParams && !requiredOk ==> r.value.default.Some?
  {
    hide Well;
    var n := NameIndex(s, i, moduleParams);
    var name := s.At(n).text;
    var sc := Scope(outer + {name}, false, false);
    if s.Kind(n) != UIDENT then Refuse(e, s.At(n))
    else
      var r := TailAt(s, n + 1, e, sc, moduleParams, requiredOk);
      if r.Fail? then Fail(r.error)
      else Ok(TypeParam(name, if moduleParams then VarianceBefore(s, i, n) else Invariant, r.value.0.upper,
                        r.value.0.lower, r.value.1, moduleParams && s.Kind(i) == KW_UNCHECKED,
                        Spanning(s.At(i), s.At(r.pos - 1))), r.pos, r.err)
  }

  // The loop of parse_type_params after the parameters `acc`; the closing bracket is read.
  function TypeParamsFrom(s: Stream, i: nat, e: Errors, outer: set<string>, moduleParams: bool, requiredOk: bool,
                          acc: seq<TypeParam>)
    : (r: Outcome<seq<TypeParam>>)
    ensures r.Ok? ==> i < r.pos <= |s.toks|
    ensures Kept(e, r)
    decreases s.Left(i)
  {
    var r := TypeParamAt(s, i, e, outer, moduleParams, requiredOk);
    if r.Fail? then Fail(r.error)
    else
      var p := r.value;
      if s.Kind(r.pos) == COMMA then
        TypeParamsFrom(s, r.pos + 1, r.err, outer + {p.name}, moduleParams, requiredOk && p.default.None?, acc + [p])
      else if s.Kind(r.pos) == RBRACKET then Ok(acc + [p], r.pos + 1, r.err)
      else Refuse(r.err, s.At(r.pos))
  }

  // One round of the loop.
  lemma TypeParamsStep(s: Stream, i: nat, e: Errors, outer: set<string>, moduleParams: bool, requiredOk: bool,
                       acc: seq<TypeParam>)
    ensures var r := TypeParamAt(s, i, e, outer, moduleParams, requiredOk);
            TypeParamsFrom(s, i, e, outer, moduleParams, requiredOk, acc)
            == if r.Fail? then Fail(r.error)
               else if s.Kind(r.pos) == COMMA then
                 TypeParamsFrom(s, r.pos + 1, r.err, outer + {r.value.name}, moduleParams,
                                requiredOk && r.value.default.None?, acc + [r.value])
               else if s.Kind(r.pos) == RBRACKET then Ok(acc + [r.value], r.pos + 1, r.err)
               else Refuse(r.err, s.At(r.pos))
  {
    hide TypeParamAt, Stream.At, Stream.Kind;
  }

  // parse_type_params.
  function TypeParamsAt(s: Stream, i: nat, e: Errors, outer: set<string>, moduleParams: bool)
    : (r: Outcome<seq<TypeParam>>)
    requires i <= |s.toks|
    ensures r.Ok? ==> i <= r.pos <= |s.toks|
    ensures Kept(e, r)
  {
    if s.Kind(i) == LBRACKET then TypeParamsFrom(s, i + 1, e, outer, moduleParams, true, []) else Ok([], i, e)
  }

  // rbs_parse_method_type; `forwarding` is the parser's option.
  function MethodTypeAt(s: Stream, i: nat, e: Errors, outer: set<string>, requireEof: bool, classOk: bool,
                        forwarding: bool)
    : (r: Outcome<MethodType>)
    requires i <= |s.toks|
    ensures r.Ok? ==> i < r.pos
    ensures r.Ok? && !requireEof ==> r.pos <= |s.toks|
    ensures Kept(e, r)
  {
    var ps := TypeParamsAt(s, i, e, outer, false);
    if ps.Fail? then Fail(ps.error)
    else
      var f := FunctionAt(s, ps.pos, ps.err, Scope(outer + NamesOf(ps.value), true, classOk), false, true, forwarding);
      if f.Fail? then Fail(f.error)
      else if requireEof && s.Kind(f.pos) != EOF then Refuse(f.err, s.At(f.pos))
      else Ok(MethodType(ps.value, f.value.fn, f.value.block, Spanning(s.At(i), s.At(f.pos - 1))),
              if requireEof then f.pos + 1 else f.pos, f.err)
  }

  // ---- what is accepted ------------------------------------------------------------------------------

  // The parameters read so far, which make `seen` visible; a parameter without default may still follow.
  ghost predicate Read(acc: seq<TypeParam>, outer: set<string>, seen: set<string>, moduleParams: bool, requiredOk: bool) {
    && seen == outer + NamesOf(acc)
    && WellTypeParams(acc, outer) && ShapedTypeParams(acc, moduleParams)
    && (requiredOk || moduleParams) && (requiredOk ==> forall p <- acc :: p.default.None?)
  }

  lemma NamesGrow(acc: seq<TypeParam>, p: TypeParam)
    ensures NamesOf(acc + [p]) == NamesOf(acc) + {p.name}
  {
    assert (acc + [p])[|acc|] == p;
    forall x <- acc ensures x in acc + [p] {}
  }

  lemma ShapeGrows(acc: seq<TypeParam>, p: TypeParam, moduleParams: bool, requiredOk: bool)
    requires ShapedTypeParams(acc, moduleParams) && (requiredOk ==> forall q <- acc :: q.default.None?)
    requires !moduleParams ==> p.variance == Invariant && !p.unchecked && p.default.None?
    requires !requiredOk ==> p.default.Some?
    ensures ShapedTypeParams(acc + [p], moduleParams)
  {}

  lemma ScopesGrow(acc: seq<TypeParam>, p: TypeParam, outer: set<string>)
    requires WellTypeParams(acc, outer) && WellTypeParam(p, outer + NamesOf(acc) + {p.name})
    ensures WellTypeParams(acc + [p], outer)
  {
    hide WellTypeParam;
    NamesGrow(acc, p);
    hide NamesOf;
    var longer := acc + [p];
    assert outer + NamesOf(longer) == outer + NamesOf(acc) + {p.name};
    forall k | 0 <= k < |longer|
      ensures WellTypeParam(longer[k], outer + NamesOf(longer[..k + 1]))
    {
      if k < |acc| {
        assert longer[..k + 1] == acc[..k + 1];
      } else {
        assert longer[..k + 1] == longer;
      }
    }
  }

  lemma ReadGrows(acc: seq<TypeParam>, p: TypeParam, outer: set<string>, seen: set<string>, moduleParams: bool,
                  requiredOk: bool)
    requires Read(acc, outer, seen, moduleParams, requiredOk) && WellTypeParam(p, seen + {p.name})
    requires !moduleParams ==> p.variance == Invariant && !p.unchecked && p.default.None?
    requires moduleParams && !requiredOk ==> p.default.Some?
    ensures Read(acc + [p], outer, seen + {p.name}, moduleParams, requiredOk && p.default.None?)
  {
    hide WellTypeParam, WellTypeParams, ShapedTypeParams;
    NamesGrow(acc, p);
    ScopesGrow(acc, p, outer);
    ShapeGrows(acc, p, moduleParams, requiredOk);
    hide NamesOf;
    assert outer + (NamesOf(acc) + {p.name}) == seen + {p.name};
  }

  lemma {:induction false} AcceptedTypeParams(s: Stream, i: nat, e: Errors, outer: set<string>, seen: set<string>,
                                              moduleParams: bool, requiredOk: bool, acc: seq<TypeParam>)
    requires Read(acc, outer, seen, moduleParams, requiredOk)
    ensures var r := TypeParamsFrom(s, i, e, seen, moduleParams, requiredOk, acc);
            r.Ok? ==> WellTypeParams(r.value, outer) && ShapedTypeParams(r.value, moduleParams)
    decreases s.Left(i)
  {
    hide WellTypeParam, WellTypeParams, ShapedTypeParams, TypeParamAt, Kept, NamesOf;
    var r := TypeParamAt(s, i, e, seen, moduleParams, requiredOk);
    if r.Ok? {
      ReadGrows(acc, r.value, outer, seen, moduleParams, requiredOk);
      if s.Kind(r.pos) == COMMA {
        AcceptedTypeParams(s, r.pos + 1, r.err, outer, seen + {r.value.name}, moduleParams,
                           requiredOk && r.value.default.None?, acc + [r.value]);
      }
    }
  }

  // Every accepted method type: parameters in the scope of their predecessors and themselves; the function and
  // its block in the scope of all of them, with `self` allowed; `...` only where the parser's option allows it.
  lemma AcceptedMethodTypes(s: Stream, i: nat, e: Errors, outer: set<string>, requireEof: bool, classOk: bool,
                            forwarding: bool)
    requires i <= |s.toks|
    ensures var r := MethodTypeAt(s, i, e, outer, requireEof, classOk, forwarding);
            r.Ok? ==> WellMethodType(r.value, outer, classOk)
                      && (r.value.fn.Fn? && r.value.fn.params.forwarding.Some? ==> forwarding)
  {
    hide Kept, Well, WellFn, WellBlock, FunctionAt, TypeParamsAt, WellTypeParams, ShapedTypeParams, NamesOf, Stream.At,
      Stream.Kind;
    OwnParamsAccepted(s, i, e, outer);
    var ps := TypeParamsAt(s, i, e, outer, false);
    if ps.Ok? {
      BlocksFit(s, ps.pos, ps.err, Scope(outer + NamesOf(ps.value), true, classOk), forwarding);
    }
  }

  lemma OwnParamsAccepted(s: Stream, i: nat, e: Errors, outer: set<string>)
    requires i <= |s.toks|
    ensures var r := TypeParamsAt(s, i, e, outer, false);
            r.Ok? ==> WellTypeParams(r.value, outer) && ShapedTypeParams(r.value, false)
  {
    assert Read([], outer, outer, false, true);
    AcceptedTypeParams(s, i + 1, e, outer, outer, false, true, []);
  }

  lemma BlocksFit(s: Stream, i: nat, e: Errors, sc: Scope, forwarding: bool)
    requires i <= |s.toks|
    ensures var f := FunctionAt(s, i, e, sc, false, true, forwarding);
            f.Ok? && f.value.block.Some? ==> f.value.fn.Fn? && f.value.fn.params.forwarding.None?
  {
    hide Well, WellFn, WellBlock, WellParams, ParenParamsAt, SelfBindingAt, ReturnAt;
    var ps := ParenParamsAt(s, i, e, sc, forwarding);
    if ps.Ok? && FunctionAt(s, i, e, sc, false, true, forwarding).Ok? {
      var rest := FunctionRest(s, i, ps.pos, ps.err, sc, true, ps.value, None);
      assert FunctionAt(s, i, e, sc, false, true, forwarding) == rest;
      var block := BlockAt(s, ps.pos, ps.err, sc);
      assert rest.value.block == block.value;
    }
  }

  // A function that takes anything, or all that its caller was given, has no block of its own.
  ghost predicate WellMethodType(m: MethodType, outer: set<string>, classOk: bool) {
    var sc := Scope(outer + NamesOf(m.typeParams), true, classOk);
    && WellTypeParams(m.typeParams, outer) && ShapedTypeParams(m.typeParams, false)
    && WellFn(m.fn, sc) && (m.block.Some? ==> WellBlock(m.block.value, sc))
    && (m.block.Some? ==> m.fn.Fn? && m.fn.params.forwarding.None?)
  }
}
