/** The types that can be written in RBS where certain type variables are visible and certain base types
    are permitted: a description of trees alone, without tokens. */
module WellFormed {
  import opened Ast
  import opened Containers
  import opened Tokens

  // Visible type variables, and whether `self` and `class`/`instance` may appear.
  datatype Scope = Scope(vars: set<string>, selfOk: bool, classOk: bool)

  predicate BaseAllowed(b: BaseKind, v: bool, sc: Scope) {
    && (b == VoidBase ==> v)
    && (b == SelfBase ==> sc.selfOk)
    && (b == ClassBase || b == InstanceBase ==> sc.classOk)
  }

  // A relative name must not begin with a visible type variable: it would be read as that variable.
  predicate NotShadowed(n: TypeName, vars: set<string>) {
    n.absolute || (if n.path != [] then n.path[0] !in vars else n.kind == ClassName ==> n.name !in vars)
  }

  predicate DisjointKeys<K(==), V>(h: seq<Entry<K, V>>, g: seq<Entry<K, V>>) {
    forall i, j :: 0 <= i < |h| && 0 <= j < |g| ==> h[i].key != g[j].key
  }

  // `v` says whether the type itself may be `void`. It is passed on to return types and to type arguments
  // and to nothing else. The arguments of a class, an interface or an alias may be any type.
  ghost predicate Well(t: Type, v: bool, sc: Scope) {
    match t
    case Base(b, _) => BaseAllowed(b, v, sc)
    case Variable(x, _) => x in sc.vars
    case LiteralType(_, _) => true
    case Application(n, args, _, _, _) =>
      NotShadowed(n, sc.vars) && forall a <- args :: Well(a, true, Scope(sc.vars, true, true))
    case Singleton(n, args, _, _, _) => n.kind == ClassName && forall a <- args :: Well(a, true, sc)
    case Tuple(ts, _) => forall u <- ts :: Well(u, false, sc)
    case Record(fs, _) => DistinctKeys(fs) && forall f <- fs :: Well(f.value.ty, false, sc)
    case OptionalType(u, _) => Well(u, false, sc)
    case Union(ts, _) => |ts| >= 2 && forall u <- ts :: Well(u, false, sc)
    case Intersection(ts, _) => |ts| >= 2 && forall u <- ts :: Well(u, false, sc)
    case Proc(f, b, self, _) =>
      && WellFn(f, sc)
      && (f.Fn? ==> f.params.forwarding.None?)
      && (b.Some? ==> WellBlock(b.value, sc))
      && (self.Some? ==> Well(self.value, false, sc))
  }

  ghost predicate WellFn(f: Function, sc: Scope) {
    Well(f.ret, true, sc) && (f.Fn? ==> WellParams(f.params, sc))
  }

  ghost predicate WellBlock(b: Block, sc: Scope) {
    && WellFn(b.fn, sc)
    && (b.fn.Fn? ==> b.fn.params.forwarding.None?)
    && (b.selfType.Some? ==> Well(b.selfType.value, false, sc))
  }

  ghost predicate WellParam(p: Param, sc: Scope) {
    Well(p.ty, false, sc)
  }

  ghost predicate WellKeyword(k: Entry<string, Param>, sc: Scope) {
    WellParam(k.value, sc)
  }

  ghost predicate AllParamsWell(ps: seq<Param>, sc: Scope) {
    forall p <- ps :: WellParam(p, sc)
  }

  ghost predicate AllKeywordsWell(ks: Keywords, sc: Scope) {
    forall k <- ks :: WellKeyword(k, sc)
  }

  // Trailing positionals only after an optional or a rest parameter, keyword names distinct over both
  // tables, and nothing but required positionals before `...`.
  ghost predicate WellParams(ps: MethodParams, sc: Scope) {
    && AllParamsWell(ps.required, sc) && AllParamsWell(ps.optional, sc) && AllParamsWell(ps.trailing, sc)
    && AllKeywordsWell(ps.requiredKw, sc) && AllKeywordsWell(ps.optionalKw, sc)
    && (ps.rest.Some? ==> WellParam(ps.rest.value, sc))
    && (ps.restKw.Some? ==> WellParam(ps.restKw.value, sc))
    && (ps.trailing != [] ==> ps.optional != [] || ps.rest.Some?)
    && DistinctKeys(ps.requiredKw) && DistinctKeys(ps.optionalKw) && DisjointKeys(ps.requiredKw, ps.optionalKw)
    && (ps.forwarding.Some? ==>
          ps.optional == [] && ps.rest.None? && ps.trailing == [] && ps.requiredKw == [] && ps.optionalKw == []
          && ps.restKw.None?)
  }

  ghost predicate AllWell(ts: seq<Type>, v: bool, sc: Scope) {
    forall t <- ts :: Well(t, v, sc)
  }

  // The members of a union or an intersection so far: only the first was read with the caller's void flag,
  // and if it is void it stands alone.
  ghost predicate MembersWell(ts: seq<Type>, v: bool, sc: Scope)
    requires ts != []
  {
    Well(ts[0], v, sc) && (|ts| == 1 || AllWell(ts, false, sc))
  }

  lemma ListAdded(ts: seq<Type>, t: Type, v: bool, sc: Scope)
    requires Well(t, v, sc)
    ensures AllWell(ts, v, sc) ==> AllWell(ts + [t], v, sc)
  {}

  lemma MemberAdded(ts: seq<Type>, t: Type, v: bool, sc: Scope)
    requires ts != [] && Well(t, false, sc) && !(v && IsVoid(ts[0]))
    ensures MembersWell(ts, v, sc) ==> MembersWell(ts + [t], v, sc)
  {}

  lemma ParamsAppended(ps: seq<Param>, x: Param, sc: Scope)
    requires AllParamsWell(ps, sc) && WellParam(x, sc)
    ensures AllParamsWell(ps + [x], sc)
  {}

  lemma KeywordsAppended(ks: Keywords, k: Entry<string, Param>, sc: Scope)
    requires AllKeywordsWell(ks, sc) && WellKeyword(k, sc)
    ensures AllKeywordsWell(ks + [k], sc)
  {}

  lemma NoParamsWell(sc: Scope)
    ensures WellParams(NO_PARAMS, sc)
  {
    assert AllParamsWell([], sc);
    assert AllKeywordsWell([], sc);
  }

  // Adding one parameter to a section, or filling a single slot, keeps the table well-formed.
  lemma ParamAdded(p: MethodParams, x: Param, sc: Scope)
    requires WellParam(x, sc)
    ensures WellParams(p, sc) ==> WellParams(p.(required := p.required + [x]), sc)
    ensures WellParams(p, sc) && p.forwarding.None? ==>
              && WellParams(p.(optional := p.optional + [x]), sc)
              && WellParams(p.(rest := Some(x)), sc)
              && WellParams(p.(restKw := Some(x)), sc)
              && (p.optional != [] || p.rest.Some? ==> WellParams(p.(trailing := p.trailing + [x]), sc))
  {
    if WellParams(p, sc) {
      ParamsAppended(p.required, x, sc);
      ParamsAppended(p.optional, x, sc);
      ParamsAppended(p.trailing, x, sc);
    }
  }

  lemma KeywordAdded(p: MethodParams, k: string, x: Param, sc: Scope)
    requires WellParam(x, sc)
    requires !HasKey(p.requiredKw, k) && !HasKey(p.optionalKw, k)
    ensures WellParams(p, sc) && p.forwarding.None? ==>
              && WellParams(p.(requiredKw := HashSet(p.requiredKw, k, x)), sc)
              && WellParams(p.(optionalKw := HashSet(p.optionalKw, k, x)), sc)
  {
    if WellParams(p, sc) {
      KeywordsAppended(p.requiredKw, Entry(k, x), sc);
      KeywordsAppended(p.optionalKw, Entry(k, x), sc);
    }
  }
}
