/** Equality and traversal of type trees: `==` and `each_type` of lib/rbs/types.rb. */
module Trees {
  import opened Ast
  import opened Containers
  import opened Tokens

  // Equal up to locations.
  ghost predicate Same(a: Type, b: Type)
    decreases a
  {
    match a
    case Base(x, _) => b.Base? && b.base == x
    case Variable(x, _) => b.Variable? && b.varName == x
    case LiteralType(x, _) => b.LiteralType? && b.lit == x
    case Application(n, args, _, _, _) => b.Application? && b.name == n && SameAll(args, b.args)
    case Singleton(n, args, _, _, _) => b.Singleton? && b.name == n && SameAll(args, b.args)
    case Tuple(ts, _) => b.Tuple? && SameAll(ts, b.types)
    case Record(fs, _) =>
      b.Record? && |b.fields| == |fs| && forall i | 0 <= i < |fs| :: SameField(fs[i], b.fields[i])
    case OptionalType(u, _) => b.OptionalType? && Same(u, b.inner)
    case Union(ts, _) => b.Union? && SameAll(ts, b.types)
    case Intersection(ts, _) => b.Intersection? && SameAll(ts, b.types)
    case Proc(f, bl, self, _) =>
      b.Proc? && SameFn(f, b.fn) && SameBlock(bl, b.block) && SameOption(self, b.selfType)
  }

  ghost predicate SameAll(a: seq<Type>, b: seq<Type>)
    decreases a
  {
    |a| == |b| && forall i | 0 <= i < |a| :: Same(a[i], b[i])
  }

  ghost predicate SameOption(a: Option<Type>, b: Option<Type>)
    decreases a
  {
    a.Some? == b.Some? && (a.Some? ==> Same(a.value, b.value))
  }

  ghost predicate SameField(a: Entry<Literal, FieldType>, b: Entry<Literal, FieldType>)
    decreases a
  {
    a.key == b.key && a.value.required == b.value.required && Same(a.value.ty, b.value.ty)
  }

  ghost predicate SameParam(a: Param, b: Param)
    decreases a
  {
    a.name == b.name && Same(a.ty, b.ty)
  }

  ghost predicate SameParams(a: seq<Param>, b: seq<Param>)
    decreases a
  {
    |a| == |b| && forall i | 0 <= i < |a| :: SameParam(a[i], b[i])
  }

  ghost predicate SameSlot(a: Option<Param>, b: Option<Param>)
    decreases a
  {
    a.Some? == b.Some? && (a.Some? ==> SameParam(a.value, b.value))
  }

  ghost predicate SameEntry(a: Entry<string, Param>, b: Entry<string, Param>)
    decreases a
  {
    a.key == b.key && SameParam(a.value, b.value)
  }

  ghost predicate SameKeywords(a: Keywords, b: Keywords)
    decreases a
  {
    |a| == |b| && forall i | 0 <= i < |a| :: SameEntry(a[i], b[i])
  }

  ghost predicate SameMethodParams(a: MethodParams, b: MethodParams)
    decreases a
  {
    && SameParams(a.required, b.required) && SameParams(a.optional, b.optional)
    && SameSlot(a.rest, b.rest) && SameParams(a.trailing, b.trailing)
    && SameKeywords(a.requiredKw, b.requiredKw) && SameKeywords(a.optionalKw, b.optionalKw)
    && SameSlot(a.restKw, b.restKw) && a.forwarding.Some? == b.forwarding.Some?
  }

  ghost predicate SameFn(a: Function, b: Function)
    decreases a
  {
    && Same(a.ret, b.ret)
    && match a {
         case UntypedFn(_, _) => b.UntypedFn?
         case Fn(ps, _, _) => b.Fn? && SameMethodParams(ps, b.params)
       }
  }

  ghost predicate SameBlock(a: Option<Block>, b: Option<Block>)
    decreases a
  {
    && a.Some? == b.Some?
    && (a.Some? ==>
          && a.value.required == b.value.required
          && SameFn(a.value.fn, b.value.fn)
          && SameOption(a.value.selfType, b.value.selfType))
  }

  // The one property holds of the tree and of every type inside it, the other of every parameter inside it.
  ghost predicate Every(t: Type, p: Type -> bool, w: Param -> bool)
    decreases t
  {
    && p(t)
    && match t {
         case Application(_, args, _, _, _) => forall u <- args :: Every(u, p, w)
         case Singleton(_, args, _, _, _) => forall u <- args :: Every(u, p, w)
         case Tuple(ts, _) => forall u <- ts :: Every(u, p, w)
         case Record(fs, _) => forall f <- fs :: Every(f.value.ty, p, w)
         case OptionalType(u, _) => Every(u, p, w)
         case Union(ts, _) => forall u <- ts :: Every(u, p, w)
         case Intersection(ts, _) => forall u <- ts :: Every(u, p, w)
         case Proc(f, b, self, _) => EveryFn(f, p, w) && EveryBlock(b, p, w) && (self.Some? ==> Every(self.value, p, w))
         case _ => true
       }
  }

  ghost predicate EveryFn(f: Function, p: Type -> bool, w: Param -> bool)
    decreases f
  {
    Every(f.ret, p, w) && (f.Fn? ==> EveryParam(f.params, p, w))
  }

  ghost predicate EveryBlock(b: Option<Block>, p: Type -> bool, w: Param -> bool)
    decreases b
  {
    b.Some? ==> EveryFn(b.value.fn, p, w) && (b.value.selfType.Some? ==> Every(b.value.selfType.value, p, w))
  }

  ghost predicate EveryParam(ps: MethodParams, p: Type -> bool, w: Param -> bool)
    decreases ps
  {
    && (forall x <- ps.required :: EveryOf(x, p, w)) && (forall x <- ps.optional :: EveryOf(x, p, w))
    && (forall x <- ps.trailing :: EveryOf(x, p, w))
    && (forall k <- ps.requiredKw :: EveryOf(k.value, p, w)) && (forall k <- ps.optionalKw :: EveryOf(k.value, p, w))
    && (ps.rest.Some? ==> EveryOf(ps.rest.value, p, w)) && (ps.restKw.Some? ==> EveryOf(ps.restKw.value, p, w))
  }

  ghost predicate EveryOf(x: Param, p: Type -> bool, w: Param -> bool)
    decreases x
  {
    w(x) && Every(x.ty, p, w)
  }
}
