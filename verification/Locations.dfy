/** The types directly inside a type, in the order of `each_type` (lib/rbs/types.rb), and trees whose source
    ranges are properly nested. */
module Locations {
  import opened Ast
  import opened Containers
  import opened Tokens
  import opened Trees

  function ParamTypes(ps: seq<Param>): (r: seq<Type>)
    ensures |r| == |ps| && forall i :: 0 <= i < |ps| ==> r[i] == ps[i].ty
  {
    seq(|ps|, i requires 0 <= i < |ps| => ps[i].ty)
  }

  function KeywordTypes(ks: Keywords): (r: seq<Type>)
    ensures |r| == |ks| && forall i :: 0 <= i < |ks| ==> r[i] == ks[i].value.ty
  {
    seq(|ks|, i requires 0 <= i < |ks| => ks[i].value.ty)
  }

  function SlotType(p: Option<Param>): seq<Type> {
    if p.Some? then [p.value.ty] else []
  }

  function OptionType(t: Option<Type>): seq<Type> {
    if t.Some? then [t.value] else []
  }

  function FieldTypes(fs: seq<Entry<Literal, FieldType>>, required: bool): seq<Type> {
    if fs == [] then []
    else (if fs[0].value.required == required then [fs[0].value.ty] else []) + FieldTypes(fs[1..], required)
  }

  function ParamsTypes(ps: MethodParams): seq<Type> {
    ParamTypes(ps.required) + ParamTypes(ps.optional) + SlotType(ps.rest) + ParamTypes(ps.trailing)
    + KeywordTypes(ps.requiredKw) + KeywordTypes(ps.optionalKw) + SlotType(ps.restKw)
  }

  function FnTypes(f: Function): seq<Type> {
    (if f.Fn? then ParamsTypes(f.params) else []) + [f.ret]
  }

  function BlockTypes(b: Option<Block>): seq<Type> {
    if b.Some? then FnTypes(b.value.fn) + OptionType(b.value.selfType) else []
  }

  // each_type.
  function EachType(t: Type): seq<Type> {
    match t
    case Base(_, _) => []
    case Variable(_, _) => []
    case LiteralType(_, _) => []
    case Application(_, args, _, _, _) => args
    case Singleton(_, args, _, _, _) => args
    case Tuple(ts, _) => ts
    case Record(fs, _) => FieldTypes(fs, true) + FieldTypes(fs, false)
    case OptionalType(u, _) => [u]
    case Union(ts, _) => ts
    case Intersection(ts, _) => ts
    case Proc(f, b, self, _) => FnTypes(f) + OptionType(self) + BlockTypes(b)
  }

  lemma {:induction false} FieldTypesSmaller(fs: seq<Entry<Literal, FieldType>>, required: bool, u: Type)
    requires u in FieldTypes(fs, required)
    ensures exists f <- fs :: f.value.ty == u
    decreases |fs|
  {
    if fs[0].value.ty != u {
      FieldTypesSmaller(fs[1..], required, u);
    }
  }

  lemma ParamsTypesSmaller(ps: MethodParams, u: Type)
    requires u in ParamsTypes(ps)
    ensures u < ps
  {
    if x: Param :| x in ps.required && x.ty == u {
    } else if x: Param :| x in ps.optional && x.ty == u {
    } else if x: Param :| x in ps.trailing && x.ty == u {
    } else if k: Entry<string, Param> :| k in ps.requiredKw && k.value.ty == u {
    } else if k: Entry<string, Param> :| k in ps.optionalKw && k.value.ty == u {
    }
  }

  // A type inside a type is a smaller tree.
  lemma EachTypeSmaller(t: Type, i: nat)
    requires i < |EachType(t)|
    ensures EachType(t)[i] < t
  {
    var u := EachType(t)[i];
    assert u in EachType(t);
    match t
    case Record(fs, _) =>
      if u in FieldTypes(fs, true) {
        FieldTypesSmaller(fs, true, u);
      } else {
        FieldTypesSmaller(fs, false, u);
      }
    case Proc(f, b, self, _) =>
      if f.Fn? && u in ParamsTypes(f.params) {
        ParamsTypesSmaller(f.params, u);
      }
      if b.Some? && b.value.fn.Fn? && u in ParamsTypes(b.value.fn.params) {
        ParamsTypesSmaller(b.value.fn.params, u);
      }
    case _ =>
  }

  predicate AnyParam(p: Param) {
    true
  }

  lemma {:induction false} FieldsListed(fs: seq<Entry<Literal, FieldType>>, p: Type -> bool)
    ensures (forall f <- fs :: Every(f.value.ty, p, AnyParam)) <==>
              (forall u <- FieldTypes(fs, true) + FieldTypes(fs, false) :: Every(u, p, AnyParam))
    decreases |fs|
  {
    hide Every;
    if fs != [] {
      FieldsListed(fs[1..], p);
      assert fs == [fs[0]] + fs[1..];
    }
  }

  lemma KeywordsListed(ks: Keywords, p: Type -> bool)
    ensures (forall k <- ks :: EveryOf(k.value, p, AnyParam)) <==> (forall u <- KeywordTypes(ks) :: Every(u, p, AnyParam))
  {
    hide Every;
    forall k <- ks
      ensures k.value.ty in KeywordTypes(ks)
    {
      var i :| 0 <= i < |ks| && ks[i] == k;
      assert KeywordTypes(ks)[i] == k.value.ty;
    }
  }

  lemma ParamListed(x: Param, p: Type -> bool)
    ensures EveryOf(x, p, AnyParam) <==> Every(x.ty, p, AnyParam)
  {}

  lemma ParamsListed(ps: seq<Param>, p: Type -> bool)
    ensures (forall x <- ps :: EveryOf(x, p, AnyParam)) <==> (forall u <- ParamTypes(ps) :: Every(u, p, AnyParam))
  {
    hide Every, EveryOf;
    forall x <- ps
      ensures x.ty in ParamTypes(ps) && (EveryOf(x, p, AnyParam) <==> Every(x.ty, p, AnyParam))
    {
      var i :| 0 <= i < |ps| && ps[i] == x;
      assert ParamTypes(ps)[i] == x.ty;
      ParamListed(x, p);
    }
    forall u <- ParamTypes(ps)
      ensures exists x <- ps :: x.ty == u
    {
      var i :| 0 <= i < |ps| && ParamTypes(ps)[i] == u;
      assert ps[i] in ps;
    }
  }

  lemma SlotListed(x: Option<Param>, p: Type -> bool)
    ensures (x.Some? ==> EveryOf(x.value, p, AnyParam)) <==> forall u <- SlotType(x) :: Every(u, p, AnyParam)
  {
    hide Every, EveryOf;
    if x.Some? {
      ParamListed(x.value, p);
    }
  }

  ghost predicate AllEvery(ts: seq<Type>, p: Type -> bool) {
    forall u <- ts :: Every(u, p, AnyParam)
  }

  lemma ParamsTypesListed(ps: MethodParams, p: Type -> bool)
    ensures AllEvery(ParamsTypes(ps), p) <==>
              && AllEvery(ParamTypes(ps.required), p) && AllEvery(ParamTypes(ps.optional), p) && AllEvery(SlotType(ps.rest), p)
              && AllEvery(ParamTypes(ps.trailing), p) && AllEvery(KeywordTypes(ps.requiredKw), p)
              && AllEvery(KeywordTypes(ps.optionalKw), p) && AllEvery(SlotType(ps.restKw), p)
  {
    hide Every, ParamTypes, KeywordTypes, SlotType;
  }

  lemma AllParamsListed(ps: MethodParams, p: Type -> bool)
    ensures EveryParam(ps, p, AnyParam) <==> AllEvery(ParamsTypes(ps), p)
  {
    ParamsTypesListed(ps, p);
    hide Every, ParamTypes, KeywordTypes, SlotType, ParamsTypes, EveryOf;
    ParamsListed(ps.required, p);
    ParamsListed(ps.optional, p);
    ParamsListed(ps.trailing, p);
    KeywordsListed(ps.requiredKw, p);
    KeywordsListed(ps.optionalKw, p);
    SlotListed(ps.rest, p);
    SlotListed(ps.restKw, p);
  }

  lemma Joined(ts: seq<Type>, us: seq<Type>, p: Type -> bool)
    ensures AllEvery(ts + us, p) <==> AllEvery(ts, p) && AllEvery(us, p)
  {
    hide Every;
  }

  lemma FnListed(f: Function, p: Type -> bool)
    ensures EveryFn(f, p, AnyParam) <==> AllEvery(FnTypes(f), p)
  {
    hide AllEvery, ParamsTypes, EveryParam;
    var ps := if f.Fn? then ParamsTypes(f.params) else [];
    assert FnTypes(f) == ps + [f.ret];
    Joined(ps, [f.ret], p);
    OnlyOne(f.ret, p);
    if f.Fn? {
      AllParamsListed(f.params, p);
    } else {
      NoneListed(p);
    }
  }

  lemma OnlyOne(t: Type, p: Type -> bool)
    ensures AllEvery([t], p) <==> Every(t, p, AnyParam)
  {
    assert t in [t];
  }

  lemma NoneListed(p: Type -> bool)
    ensures AllEvery([], p)
  {}

  lemma BlockListed(b: Option<Block>, p: Type -> bool)
    ensures EveryBlock(b, p, AnyParam) <==> AllEvery(BlockTypes(b), p)
  {
    hide AllEvery, EveryFn, FnTypes;
    if b.Some? {
      FnListed(b.value.fn, p);
      Joined(FnTypes(b.value.fn), OptionType(b.value.selfType), p);
      if b.value.selfType.Some? {
        OnlyOne(b.value.selfType.value, p);
      } else {
        NoneListed(p);
      }
    } else {
      NoneListed(p);
    }
  }

  // each_type misses nothing and makes nothing up: a property holds of a type and all types inside it, however deep,
  // exactly if it holds of the type and so of everything each_type yields.
  lemma EachTypeIsComplete(t: Type, p: Type -> bool)
    ensures Every(t, p, AnyParam) <==> p(t) && forall u <- EachType(t) :: Every(u, p, AnyParam)
  {
    hide FnTypes, FieldTypes, EveryFn, EveryBlock, BlockTypes;
    match t
    case OptionalType(u, _) => OnlyOne(u, p);
    case Record(fs, _) => FieldsListed(fs, p);
    case Proc(f, b, self, _) => ProcListed(t, p);
    case _ =>
  }

  lemma ProcListed(t: Type, p: Type -> bool)
    requires t.Proc?
    ensures (EveryFn(t.fn, p, AnyParam) && EveryBlock(t.block, p, AnyParam)
             && (t.selfType.Some? ==> Every(t.selfType.value, p, AnyParam)))
            <==> (forall u <- EachType(t) :: Every(u, p, AnyParam))
  {
    hide FnTypes, EveryFn, EveryBlock, BlockTypes, Every;
    FnListed(t.fn, p);
    BlockListed(t.block, p);
    SelfListed(t.selfType, p);
    Joined(FnTypes(t.fn), OptionType(t.selfType), p);
    Joined(FnTypes(t.fn) + OptionType(t.selfType), BlockTypes(t.block), p);
    assert EachType(t) == FnTypes(t.fn) + OptionType(t.selfType) + BlockTypes(t.block);
  }

  lemma SelfListed(self: Option<Type>, p: Type -> bool)
    ensures (self.Some? ==> Every(self.value, p, AnyParam)) <==> AllEvery(OptionType(self), p)
  {
    if self.Some? {
      OnlyOne(self.value, p);
    }
  }

  // Everything here is meant of the character offsets and of the byte offsets of a range alike.
  predicate NonEmpty(a: Location) {
    a.startChar < a.endChar && a.startByte < a.endByte
  }

  predicate Within(a: Location, b: Location) {
    && b.startChar <= a.startChar && a.endChar <= b.endChar
    && b.startByte <= a.startByte && a.endByte <= b.endByte
  }

  // The one range ends before the other begins, with at least one character in between.
  predicate EndsBefore(a: Location, b: Location) {
    a.endChar < b.startChar && a.endByte < b.startByte
  }

  predicate Apart(a: Location, b: Location) {
    EndsBefore(a, b) || EndsBefore(b, a)
  }

  ghost predicate Spaced(ts: seq<Type>) {
    forall i, j :: 0 <= i < j < |ts| ==> Apart(ts[i].loc, ts[j].loc)
  }

  ghost predicate InOrder(ts: seq<Type>) {
    forall i, j :: 0 <= i < j < |ts| ==> EndsBefore(ts[i].loc, ts[j].loc)
  }

  ghost predicate Before(ts: seq<Type>, us: seq<Type>) {
    forall t <- ts, u <- us :: EndsBefore(t.loc, u.loc)
  }

  function PositionalTypes(ps: MethodParams): seq<Type> {
    ParamTypes(ps.required) + ParamTypes(ps.optional) + SlotType(ps.rest) + ParamTypes(ps.trailing)
  }

  function KeywordParamTypes(ps: MethodParams): seq<Type> {
    KeywordTypes(ps.requiredKw) + KeywordTypes(ps.optionalKw) + SlotType(ps.restKw)
  }

  // The positional parameters come one after another; required and optional keywords may be mixed after them, each
  // kind in its order, and a rest of keywords may stand anywhere among those.
  ghost predicate ParamsInOrder(ps: MethodParams) {
    && InOrder(PositionalTypes(ps)) && InOrder(KeywordTypes(ps.requiredKw)) && InOrder(KeywordTypes(ps.optionalKw))
    && Before(PositionalTypes(ps), KeywordParamTypes(ps))
  }

  // Parameters, a self binding, the types of a block and the return type.
  ghost predicate SignatureInOrder(ps: seq<Type>, self: Option<Type>, block: seq<Type>, ret: Type) {
    && Before(ps, OptionType(self)) && Before(ps + OptionType(self), block)
    && Before(ps + OptionType(self) + block, [ret])
  }

  ghost predicate FnInOrder(f: Function, self: Option<Type>, block: seq<Type>) {
    && (f.Fn? ==> ParamsInOrder(f.params))
    && SignatureInOrder(if f.Fn? then ParamsTypes(f.params) else [], self, block, f.ret)
  }

  // The types inside come in the order of the source. Of a record this says nothing: a repeated key gives its value to
  // the field that came first.
  ghost predicate InSourceOrder(t: Type) {
    match t
    case Application(_, args, _, _, _) => InOrder(args)
    case Singleton(_, args, _, _, _) => InOrder(args)
    case Tuple(ts, _) => InOrder(ts)
    case Union(ts, _) => InOrder(ts)
    case Intersection(ts, _) => InOrder(ts)
    case Proc(f, b, self, _) =>
      FnInOrder(f, self, BlockTypes(b)) && (b.Some? ==> FnInOrder(b.value.fn, b.value.selfType, []))
    case _ => true
  }

  // The name lies within the type; the range of the arguments is null exactly if there are none, and otherwise comes
  // after the name, ends with the type and has all arguments in it.
  ghost predicate PartsIn(t: Type)
    requires t.Application? || t.Singleton?
  {
    && NonEmpty(t.nameLoc) && Within(t.nameLoc, t.loc)
    && (t.args == [] <==> t.argsLoc == NULL_LOCATION)
    && (t.args != [] ==>
          && NonEmpty(t.argsLoc) && Within(t.argsLoc, t.loc) && t.argsLoc.endChar == t.loc.endChar
          && t.nameLoc.endChar <= t.argsLoc.startChar && t.nameLoc.endByte <= t.argsLoc.startByte
          && forall a <- t.args :: Within(a.loc, t.argsLoc))
  }

  // Every range in the tree is non-empty and has the ranges of the types inside within it, apart from one another and
  // in order; the named parts of a range are in it.
  ghost predicate Nested(t: Type)
    decreases t
  {
    && NonEmpty(t.loc) && Spaced(EachType(t)) && InSourceOrder(t)
    && (t.Application? || t.Singleton? ==> PartsIn(t))
    && forall i | 0 <= i < |EachType(t)| :: EachTypeSmaller(t, i); Within(EachType(t)[i].loc, t.loc) && Nested(EachType(t)[i])
  }
}
