/** The source ranges of accepted types are properly nested: every type lies strictly between the tokens of its
    parent, and at least one token separates it from the next. Ranges of functions are not part of this: that
    of a method type starts at the token before it. */
module Nesting {
  import opened Ast
  import opened Containers
  import opened Grammar
  import opened Locations
  import opened Tokens
  import opened WellFormed

  // The tree is nested and was read from tokens `i` to `j - 1`.
  ghost predicate Inside(s: Stream, t: Type, i: nat, j: nat) {
    && j > 0 && Nested(t)
    && Within(t.loc, Spanning(s.At(i), s.At(j - 1)))
  }

  // The types lie apart from one another between tokens `i` and `j - 1`.
  ghost predicate AllIn(s: Stream, ts: seq<Type>, i: nat, j: nat) {
    Spaced(ts) && forall t <- ts :: Inside(s, t, i, j)
  }

  // ---- ranges ----------------------------------------------------------------------------------------

  lemma InTokens(s: Stream, i: nat, j: nat, lo: nat, hi: nat)
    requires Ordered(s) && lo <= i < |s.toks| && 0 < j <= hi <= |s.toks|
    ensures Within(Spanning(s.At(i), s.At(j - 1)), Spanning(s.At(lo), s.At(hi - 1)))
    ensures i < j ==> NonEmpty(Spanning(s.At(i), s.At(j - 1)))
  {}

  lemma Wider(s: Stream, t: Type, i: nat, j: nat, lo: nat, hi: nat)
    requires Ordered(s) && Inside(s, t, i, j) && lo <= i < |s.toks| && j <= hi <= |s.toks|
    ensures Inside(s, t, lo, hi)
  {
    InTokens(s, i, j, lo, hi);
  }

  lemma AllWider(s: Stream, ts: seq<Type>, i: nat, j: nat, lo: nat, hi: nat)
    requires Ordered(s) && AllIn(s, ts, i, j) && lo <= i < |s.toks| && j <= hi <= |s.toks|
    ensures AllIn(s, ts, lo, hi)
  {
    forall t <- ts ensures Inside(s, t, lo, hi) {
      Wider(s, t, i, j, lo, hi);
    }
  }

  // With a token in between, two types are apart.
  lemma TokenBetween(s: Stream, t: Type, i: nat, j: nat, u: Type, k: nat, m: nat)
    requires Ordered(s) && Inside(s, t, i, j) && Inside(s, u, k, m) && j < k < |s.toks|
    ensures Apart(t.loc, u.loc) && EndsBefore(t.loc, u.loc)
  {
    assert s.toks[j - 1].end.charPos <= s.toks[j].start.charPos < s.toks[j].end.charPos <= s.toks[k].start.charPos;
    assert s.toks[j - 1].end.bytePos <= s.toks[j].start.bytePos < s.toks[j].end.bytePos <= s.toks[k].start.bytePos;
  }

  // ... and so are all types read before it from one read after it.
  lemma AllBefore(s: Stream, ts: seq<Type>, i: nat, j: nat, u: Type, k: nat, m: nat)
    requires Ordered(s) && AllIn(s, ts, i, j) && Inside(s, u, k, m) && j < k < |s.toks|
    ensures Before(ts, [u]) && (InOrder(ts) ==> InOrder(ts + [u]))
  {
    hide Inside;
    forall t <- ts
      ensures EndsBefore(t.loc, u.loc)
    {
      TokenBetween(s, t, i, j, u, k, m);
    }
  }

  lemma ListBefore(s: Stream, ts: seq<Type>, i: nat, j: nat, us: seq<Type>, k: nat, m: nat)
    requires Ordered(s) && AllIn(s, ts, i, j) && AllIn(s, us, k, m) && j < k < |s.toks|
    ensures Before(ts, us)
  {
    hide Inside;
    forall t <- ts, u <- us
      ensures EndsBefore(t.loc, u.loc)
    {
      TokenBetween(s, t, i, j, u, k, m);
    }
  }

  lemma NothingIn(s: Stream, i: nat, j: nat)
    ensures AllIn(s, [], i, j)
  {}

  // A type read after all others can be listed anywhere among them.
  lemma InsertIn(s: Stream, a: seq<Type>, b: seq<Type>, i: nat, j: nat, u: Type, k: nat, m: nat)
    requires Ordered(s) && AllIn(s, a + b, i, j) && Inside(s, u, k, m) && i <= k && j < k < m <= |s.toks|
    ensures AllIn(s, a + [u] + b, i, m)
  {
    hide Nested;
    var ts, r := a + b, a + [u] + b;
    forall t <- ts ensures Inside(s, t, i, m) && Apart(t.loc, u.loc) {
      TokenBetween(s, t, i, j, u, k, m);
      Wider(s, t, i, j, i, m);
    }
    Wider(s, u, k, m, i, m);
    hide Inside;
    forall x, y | 0 <= x < y < |r|
      ensures Apart(r[x].loc, r[y].loc)
    {
      if x == |a| {
        assert r[y] == ts[y - 1] && ts[y - 1] in ts;
      } else if y == |a| {
        assert r[x] == ts[x] && ts[x] in ts;
      } else {
        var x', y' := if x < |a| then x else x - 1, if y < |a| then y else y - 1;
        assert r[x] == ts[x'] && r[y] == ts[y'];
      }
    }
    forall t <- r ensures Inside(s, t, i, m) {
      assert t in ts || t == u;
    }
  }

  lemma DropIn(s: Stream, a: seq<Type>, u: Type, b: seq<Type>, i: nat, j: nat)
    requires AllIn(s, a + [u] + b, i, j)
    ensures AllIn(s, a + b, i, j)
  {
    var r, ts := a + [u] + b, a + b;
    forall x, y | 0 <= x < y < |ts|
      ensures Apart(ts[x].loc, ts[y].loc)
    {
      var x', y' := if x < |a| then x else x + 1, if y < |a| then y else y + 1;
      assert r[x'] == ts[x] && r[y'] == ts[y];
    }
    forall t <- ts ensures t in r {
      if t in b { assert t in a + [u] + b; }
    }
  }

  lemma AppendIn(s: Stream, ts: seq<Type>, i: nat, j: nat, u: Type, k: nat, m: nat)
    requires Ordered(s) && AllIn(s, ts, i, j) && Inside(s, u, k, m) && i <= k && j < k < m <= |s.toks|
    ensures AllIn(s, ts + [u], i, m)
  {
    assert ts + [] == ts && ts + [u] + [] == ts + [u];
    InsertIn(s, ts, [], i, j, u, k, m);
  }

  lemma OneIn(s: Stream, u: Type, i: nat, j: nat)
    requires Inside(s, u, i, j)
    ensures AllIn(s, [u], i, j)
  {}

  // Two lists of types read one after the other, in whatever order they are listed.
  lemma JoinIn(s: Stream, ts: seq<Type>, i: nat, j: nat, us: seq<Type>, k: nat, m: nat, lo: nat, hi: nat)
    requires Ordered(s) && AllIn(s, ts, i, j) && AllIn(s, us, k, m)
    requires ts != [] ==> lo <= i < j <= hi <= |s.toks|
    requires us != [] ==> lo <= k < m <= hi <= |s.toks|
    requires ts != [] && us != [] ==> j < k || m < i
    ensures AllIn(s, ts + us, lo, hi)
  {
    hide Nested;
    forall t <- ts ensures Inside(s, t, lo, hi) { Wider(s, t, i, j, lo, hi); }
    forall u <- us ensures Inside(s, u, lo, hi) { Wider(s, u, k, m, lo, hi); }
    forall t <- ts, u <- us ensures Apart(t.loc, u.loc) {
      if j < k {
        TokenBetween(s, t, i, j, u, k, m);
      } else {
        TokenBetween(s, u, k, m, t, i, j);
      }
    }
    hide Inside;
    var r := ts + us;
    forall x, y | 0 <= x < y < |r|
      ensures Apart(r[x].loc, r[y].loc)
    {
      if y < |ts| {
        assert r[x] == ts[x] && r[y] == ts[y];
      } else if x < |ts| {
        assert r[x] in ts && r[y] in us;
      } else {
        assert r[x] == us[x - |ts|] && r[y] == us[y - |ts|];
      }
    }
  }

  // A type whose range spans the tokens from which the types inside it were read.
  lemma ParentIn(s: Stream, t: Type, i: nat, j: nat)
    requires Ordered(s) && i < j <= |s.toks|
    requires t.loc == Spanning(s.At(i), s.At(j - 1)) && AllIn(s, EachType(t), i, j) && InSourceOrder(t)
    requires t.Application? || t.Singleton? ==> PartsIn(t)
    ensures Inside(s, t, i, j)
  {
    var ts := EachType(t);
    InTokens(s, i, j, i, j);
    forall k | 0 <= k < |ts|
      ensures Within(ts[k].loc, t.loc) && Nested(ts[k])
    {
      assert ts[k] in ts;
    }
  }

  // ---- tables ----------------------------------------------------------------------------------------

  ghost predicate FieldsIn(s: Stream, fs: Fields, i: nat, j: nat) {
    && (forall f <- fs :: Inside(s, f.value.ty, i, j))
    && (forall x, y :: 0 <= x < y < |fs| ==> Apart(fs[x].value.ty.loc, fs[y].value.ty.loc))
  }

  lemma FieldSetIn(s: Stream, fs: Fields, i: nat, j: nat, key: Literal, ft: FieldType, k: nat, m: nat)
    requires Ordered(s) && FieldsIn(s, fs, i, j) && Inside(s, ft.ty, k, m) && i <= k && j < k < m <= |s.toks|
    ensures FieldsIn(s, HashSet(fs, key, ft), i, m)
  {
    hide Nested, Inside, Within;
    forall f <- fs ensures Inside(s, f.value.ty, i, m) && Apart(f.value.ty.loc, ft.ty.loc) {
      TokenBetween(s, f.value.ty, i, j, ft.ty, k, m);
      Wider(s, f.value.ty, i, j, i, m);
    }
    Wider(s, ft.ty, k, m, i, m);
  }

  lemma {:induction false} FieldTypesIn(s: Stream, fs: Fields, i: nat, j: nat)
    requires FieldsIn(s, fs, i, j)
    ensures AllIn(s, FieldTypes(fs, true) + FieldTypes(fs, false), i, j)
    decreases |fs|
  {
    hide Inside;
    if fs != [] {
      var u, rest := fs[0].value.ty, fs[1..];
      FieldTypesIn(s, rest, i, j);
      var a, b := FieldTypes(rest, true), FieldTypes(rest, false);
      forall t: Type <- a + b ensures Apart(u.loc, t.loc) {
        FieldTypesSmaller(rest, t in a, t);
        var f :| f in rest && f.value.ty == t;
        assert exists k :: 0 < k < |fs| && fs[k] == f;
      }
      assert fs[0] in fs;
      FirstFieldIn(s, u, a, b, i, j);
      assert [] + a == a && [] + b == b;
      if fs[0].value.required {
        assert FieldTypes(fs, true) == [u] + a && FieldTypes(fs, false) == [] + b;
      } else {
        assert FieldTypes(fs, true) == [] + a && FieldTypes(fs, false) == [u] + b;
      }
    }
  }

  lemma FirstFieldIn(s: Stream, u: Type, a: seq<Type>, b: seq<Type>, i: nat, j: nat)
    requires Inside(s, u, i, j) && AllIn(s, a + b, i, j) && forall t <- a + b :: Apart(u.loc, t.loc)
    ensures AllIn(s, [u] + a + b, i, j) && AllIn(s, a + ([u] + b), i, j)
  {
    hide Inside;
    var ts, r, q := a + b, [u] + a + b, a + ([u] + b);
    forall t <- r ensures Inside(s, t, i, j) { assert t == u || t in ts; }
    forall t <- q ensures Inside(s, t, i, j) { assert t == u || t in ts; }
    forall x, y | 0 <= x < y < |r| ensures Apart(r[x].loc, r[y].loc) {
      assert r[y] == ts[y - 1] && ts[y - 1] in ts && (x > 0 ==> r[x] == ts[x - 1]);
    }
    forall x, y | 0 <= x < y < |q| ensures Apart(q[x].loc, q[y].loc) {
      var x', y' := if x < |a| then x else x - 1, if y < |a| then y else y - 1;
      assert x != |a| ==> q[x] == ts[x'] && ts[x'] in ts;
      assert y != |a| ==> q[y] == ts[y'] && ts[y'] in ts;
    }
  }

  // A parameter read after all others, wherever it is listed.
  lemma ParamIn(s: Stream, p: MethodParams, q: MethodParams, i: nat, j: nat, x: Param, k: nat, m: nat, a: seq<Type>,
                b: seq<Type>)
    requires ParamsTypes(p) == a + b && ParamsTypes(q) == a + [x.ty] + b
    requires Ordered(s) && AllIn(s, ParamsTypes(p), i, j) && Inside(s, x.ty, k, m)
    requires i <= k && j < k < m <= |s.toks|
    ensures AllIn(s, ParamsTypes(q), i, m)
  {
    hide ParamsTypes, AllIn, Inside;
    InsertIn(s, a, b, i, j, x.ty, k, m);
  }

  lemma RequiredIn(s: Stream, p: MethodParams, i: nat, j: nat, x: Param, k: nat, m: nat)
    requires Ordered(s) && AllIn(s, ParamsTypes(p), i, j) && Inside(s, x.ty, k, m) && i <= k && j < k < m <= |s.toks|
    ensures AllIn(s, ParamsTypes(p.(required := p.required + [x])), i, m)
  {
    hide AllIn, Inside;
    var q := p.(required := p.required + [x]);
    var b := ParamTypes(p.optional) + SlotType(p.rest) + ParamTypes(p.trailing) + KeywordTypes(p.requiredKw)
             + KeywordTypes(p.optionalKw) + SlotType(p.restKw);
    assert ParamTypes(p.required + [x]) == ParamTypes(p.required) + [x.ty];
    hide ParamTypes, KeywordTypes, SlotType;
    assert ParamsTypes(p) == ParamTypes(p.required) + b;
    assert ParamsTypes(q) == ParamTypes(p.required) + [x.ty] + b;
    ParamIn(s, p, q, i, j, x, k, m, ParamTypes(p.required), b);
  }

  function AfterOptional(p: MethodParams): seq<Type> {
    SlotType(p.rest) + ParamTypes(p.trailing) + KeywordTypes(p.requiredKw) + KeywordTypes(p.optionalKw)
    + SlotType(p.restKw)
  }

  lemma OptionalTypes(p: MethodParams)
    ensures ParamsTypes(p) == ParamTypes(p.required) + ParamTypes(p.optional) + AfterOptional(p)
  {
    hide ParamTypes, KeywordTypes, SlotType;
  }

  lemma OptionalIn(s: Stream, p: MethodParams, i: nat, j: nat, x: Param, k: nat, m: nat)
    requires Ordered(s) && AllIn(s, ParamsTypes(p), i, j) && Inside(s, x.ty, k, m) && i <= k && j < k < m <= |s.toks|
    ensures AllIn(s, ParamsTypes(p.(optional := p.optional + [x])), i, m)
  {
    hide AllIn, Inside;
    var q := p.(optional := p.optional + [x]);
    var a, b := ParamTypes(p.required) + ParamTypes(p.optional), AfterOptional(p);
    OptionalTypes(p);
    OptionalTypes(q);
    assert ParamTypes(q.optional) == ParamTypes(p.optional) + [x.ty];
    hide ParamTypes, ParamsTypes;
    assert ParamTypes(p.required) + (ParamTypes(p.optional) + [x.ty]) + b == a + [x.ty] + b;
    ParamIn(s, p, q, i, j, x, k, m, a, b);
  }

  lemma TrailingIn(s: Stream, p: MethodParams, i: nat, j: nat, x: Param, k: nat, m: nat)
    requires Ordered(s) && AllIn(s, ParamsTypes(p), i, j) && Inside(s, x.ty, k, m) && i <= k && j < k < m <= |s.toks|
    ensures AllIn(s, ParamsTypes(p.(trailing := p.trailing + [x])), i, m)
  {
    hide AllIn, Inside;
    var q := p.(trailing := p.trailing + [x]);
    var a := ParamTypes(p.required) + ParamTypes(p.optional) + SlotType(p.rest) + ParamTypes(p.trailing);
    var b := KeywordTypes(p.requiredKw) + KeywordTypes(p.optionalKw) + SlotType(p.restKw);
    assert ParamTypes(p.trailing + [x]) == ParamTypes(p.trailing) + [x.ty];
    hide ParamTypes, KeywordTypes, SlotType;
    assert ParamsTypes(p) == a + b;
    assert ParamsTypes(q) == a + [x.ty] + b;
    ParamIn(s, p, q, i, j, x, k, m, a, b);
  }

  // A slot may have been filled before.
  lemma RestIn(s: Stream, p: MethodParams, i: nat, j: nat, x: Param, k: nat, m: nat)
    requires Ordered(s) && AllIn(s, ParamsTypes(p), i, j) && Inside(s, x.ty, k, m) && i <= k && j < k < m <= |s.toks|
    ensures AllIn(s, ParamsTypes(p.(rest := Some(x))), i, m)
  {
    hide AllIn, Inside;
    var none, q := p.(rest := None), p.(rest := Some(x));
    var a := ParamTypes(p.required) + ParamTypes(p.optional);
    var b := ParamTypes(p.trailing) + KeywordTypes(p.requiredKw) + KeywordTypes(p.optionalKw) + SlotType(p.restKw);
    assert SlotType(Some(x)) == [x.ty] && SlotType(None) == [];
    assert p.rest.Some? ==> SlotType(p.rest) == [p.rest.value.ty];
    hide ParamTypes, KeywordTypes, SlotType;
    assert ParamsTypes(none) == a + b;
    assert ParamsTypes(q) == a + [x.ty] + b;
    if p.rest.Some? {
      assert ParamsTypes(p) == a + [p.rest.value.ty] + b;
      DropIn(s, a, p.rest.value.ty, b, i, j);
    } else {
      assert p == none;
    }
    ParamIn(s, none, q, i, j, x, k, m, a, b);
  }

  lemma RestKwIn(s: Stream, p: MethodParams, i: nat, j: nat, x: Param, k: nat, m: nat)
    requires Ordered(s) && AllIn(s, ParamsTypes(p), i, j) && Inside(s, x.ty, k, m) && i <= k && j < k < m <= |s.toks|
    ensures AllIn(s, ParamsTypes(p.(restKw := Some(x))), i, m)
  {
    hide AllIn, Inside;
    var none, q := p.(restKw := None), p.(restKw := Some(x));
    var a := ParamTypes(p.required) + ParamTypes(p.optional) + SlotType(p.rest) + ParamTypes(p.trailing)
             + KeywordTypes(p.requiredKw) + KeywordTypes(p.optionalKw);
    assert SlotType(Some(x)) == [x.ty] && SlotType(None) == [];
    assert p.restKw.Some? ==> SlotType(p.restKw) == [p.restKw.value.ty];
    hide ParamTypes, KeywordTypes, SlotType;
    assert ParamsTypes(none) == a + [];
    assert ParamsTypes(q) == a + [x.ty] + [];
    if p.restKw.Some? {
      assert ParamsTypes(p) == a + [p.restKw.value.ty] + [];
      DropIn(s, a, p.restKw.value.ty, [], i, j);
    } else {
      assert p == none;
    }
    ParamIn(s, none, q, i, j, x, k, m, a, []);
  }

  lemma KeywordIn(s: Stream, p: MethodParams, i: nat, j: nat, key: string, x: Param, k: nat, m: nat)
    requires Ordered(s) && AllIn(s, ParamsTypes(p), i, j) && Inside(s, x.ty, k, m) && i <= k && j < k < m <= |s.toks|
    requires !HasKey(p.requiredKw, key) && !HasKey(p.optionalKw, key)
    ensures AllIn(s, ParamsTypes(p.(requiredKw := HashSet(p.requiredKw, key, x))), i, m)
    ensures AllIn(s, ParamsTypes(p.(optionalKw := HashSet(p.optionalKw, key, x))), i, m)
  {
    hide AllIn, Inside;
    var q, q' := p.(requiredKw := p.requiredKw + [Entry(key, x)]), p.(optionalKw := p.optionalKw + [Entry(key, x)]);
    var a := ParamTypes(p.required) + ParamTypes(p.optional) + SlotType(p.rest) + ParamTypes(p.trailing);
    var r, o, w := KeywordTypes(p.requiredKw), KeywordTypes(p.optionalKw), SlotType(p.restKw);
    assert KeywordTypes(p.requiredKw + [Entry(key, x)]) == r + [x.ty];
    assert KeywordTypes(p.optionalKw + [Entry(key, x)]) == o + [x.ty];
    hide ParamTypes, KeywordTypes, SlotType, HasKey;
    assert ParamsTypes(p) == a + r + (o + w) == a + r + o + w;
    assert ParamsTypes(q) == a + r + [x.ty] + (o + w);
    ParamIn(s, p, q, i, j, x, k, m, a + r, o + w);
    assert ParamsTypes(q') == a + r + o + [x.ty] + w;
    ParamIn(s, p, q', i, j, x, k, m, a + r + o, w);
  }

  // ---- the order of parameters -----------------------------------------------------------------------

  // What is still empty in a section.
  predicate StillEmpty(p: MethodParams, q: Section) {
    && (q == RequiredParams ==> p.optional == [])
    && (q == RequiredParams || q == OptionalParams || q == RestParam ==> p.rest.None? && p.trailing == [])
    && (q != Section.Keywords ==> p.requiredKw == [] && p.optionalKw == [] && p.restKw.None?)
  }

  // All types read so far end before that of the next parameter.
  ghost predicate Next(p: MethodParams, x: Param) {
    Before(ParamsTypes(p), [x.ty])
  }

  lemma NothingInOrder()
    ensures ParamsInOrder(NO_PARAMS) && StillEmpty(NO_PARAMS, RequiredParams)
  {}

  lemma PartsNext(p: MethodParams, x: Param)
    requires Next(p, x)
    ensures Before(PositionalTypes(p), [x.ty])
    ensures Before(KeywordTypes(p.requiredKw), [x.ty]) && Before(KeywordTypes(p.optionalKw), [x.ty])
  {
    hide ParamTypes, KeywordTypes, SlotType;
    var a, r, o, w := PositionalTypes(p), KeywordTypes(p.requiredKw), KeywordTypes(p.optionalKw), SlotType(p.restKw);
    assert ParamsTypes(p) == a + r + o + w;
    forall t | t in a || t in r || t in o
      ensures EndsBefore(t.loc, x.ty.loc)
    {
      assert t in a + r + o + w;
      assert x.ty in [x.ty];
    }
  }

  lemma OneMore(ts: seq<Type>, t: Type)
    requires InOrder(ts) && Before(ts, [t])
    ensures InOrder(ts + [t])
  {
    assert t in [t];
  }

  lemma PositionalOrder(p: MethodParams, q: MethodParams, x: Param)
    requires ParamsInOrder(p) && Next(p, x) && StillEmpty(p, TrailingParams)
    requires PositionalTypes(q) == PositionalTypes(p) + [x.ty]
    requires q.requiredKw == [] && q.optionalKw == [] && q.restKw.None?
    ensures ParamsInOrder(q)
  {
    PartsNext(p, x);
    OneMore(PositionalTypes(p), x.ty);
    hide PositionalTypes;
  }

  lemma RequiredOrder(p: MethodParams, x: Param)
    requires ParamsInOrder(p) && Next(p, x) && StillEmpty(p, RequiredParams)
    ensures var q := p.(required := p.required + [x]); ParamsInOrder(q) && StillEmpty(q, RequiredParams)
  {
    var q := p.(required := p.required + [x]);
    assert ParamTypes(q.required) == ParamTypes(p.required) + [x.ty];
    hide ParamsInOrder;
    PositionalOrder(p, q, x);
  }

  lemma OptionalOrder(p: MethodParams, x: Param)
    requires ParamsInOrder(p) && Next(p, x) && StillEmpty(p, OptionalParams)
    ensures var q := p.(optional := p.optional + [x]); ParamsInOrder(q) && StillEmpty(q, OptionalParams)
  {
    var q := p.(optional := p.optional + [x]);
    assert ParamTypes(q.optional) == ParamTypes(p.optional) + [x.ty];
    hide ParamsInOrder;
    PositionalOrder(p, q, x);
  }

  lemma RestOrder(p: MethodParams, x: Param)
    requires ParamsInOrder(p) && Next(p, x) && StillEmpty(p, RestParam)
    ensures var q := p.(rest := Some(x)); ParamsInOrder(q) && StillEmpty(q, TrailingParams)
  {
    hide ParamsInOrder;
    PositionalOrder(p, p.(rest := Some(x)), x);
  }

  lemma TrailingOrder(p: MethodParams, x: Param)
    requires ParamsInOrder(p) && Next(p, x) && StillEmpty(p, TrailingParams)
    ensures var q := p.(trailing := p.trailing + [x]); ParamsInOrder(q) && StillEmpty(q, TrailingParams)
  {
    var q := p.(trailing := p.trailing + [x]);
    assert ParamTypes(q.trailing) == ParamTypes(p.trailing) + [x.ty];
    hide ParamsInOrder;
    PositionalOrder(p, q, x);
  }

  lemma BeforeOneMore(a: seq<Type>, b: seq<Type>, t: Type, c: seq<Type>)
    requires Before(a, b + c) && Before(a, [t])
    ensures Before(a, b + [t] + c)
  {
    assert t in [t];
    forall u: Type | u in b + [t] + c
      ensures u in b + c || u == t
    {}
  }

  lemma KeywordOrder(p: MethodParams, key: string, x: Param)
    requires ParamsInOrder(p) && Next(p, x) && !HasKey(p.requiredKw, key) && !HasKey(p.optionalKw, key)
    ensures ParamsInOrder(p.(requiredKw := HashSet(p.requiredKw, key, x)))
    ensures ParamsInOrder(p.(optionalKw := HashSet(p.optionalKw, key, x)))
  {
    PartsNext(p, x);
    var a, r, o, w := PositionalTypes(p), KeywordTypes(p.requiredKw), KeywordTypes(p.optionalKw), SlotType(p.restKw);
    assert KeywordTypes(p.requiredKw + [Entry(key, x)]) == r + [x.ty];
    assert KeywordTypes(p.optionalKw + [Entry(key, x)]) == o + [x.ty];
    OneMore(r, x.ty);
    OneMore(o, x.ty);
    assert r + o + w == r + (o + w) && r + [x.ty] + o + w == r + [x.ty] + (o + w);
    assert r + (o + [x.ty]) + w == (r + o) + [x.ty] + w;
    BeforeOneMore(a, r, x.ty, o + w);
    BeforeOneMore(a, r + o, x.ty, w);
    hide KeywordTypes, SlotType, HasKey, ParamTypes, InOrder, Before;
  }

  lemma RestKwOrder(p: MethodParams, x: Param)
    requires ParamsInOrder(p) && Next(p, x)
    ensures ParamsInOrder(p.(restKw := Some(x)))
  {
    PartsNext(p, x);
    var a, r, o, w := PositionalTypes(p), KeywordTypes(p.requiredKw), KeywordTypes(p.optionalKw), SlotType(p.restKw);
    hide KeywordTypes, ParamTypes;
    forall t: Type <- a, u: Type | u in r + o + [x.ty]
      ensures EndsBefore(t.loc, u.loc)
    {
      assert u in r + o + w || u in [x.ty];
    }
  }

  // ---- accepted types --------------------------------------------------------------------------------

  // Every accepted type is properly nested and lies between its first and its last token.
  lemma {:induction false} TypeIn(s: Stream, i: nat, e: Errors, v: bool, sc: Scope)
    requires Ordered(s)
    ensures var r := TypeAt(s, i, e, v, sc); r.Ok? ==> Inside(s, r.value, i, r.pos)
    decreases s.Left(i), 9
  {
    hide Kept, KindOfName, FirstError, Well, MembersWell, Stream.At, Stream.Kind, Inside, IntersectionAt, Ordered;
    IntersectionIn(s, i, e, v, sc);
    var r := IntersectionAt(s, i, e, v, sc);
    if r.Ok? {
      OneIn(s, r.value, i, r.pos);
      UnionIn(s, i, r.pos, r.err, v, sc, [r.value]);
    }
  }

  lemma {:induction false} UnionIn(s: Stream, i: nat, j: nat, e: Errors, v: bool, sc: Scope, acc: seq<Type>)
    requires Ordered(s) && i < j <= |s.toks| && acc != [] && AllIn(s, acc, i, j) && InOrder(acc)
    ensures var r := UnionRest(s, i, j, e, v, sc, acc); r.Ok? ==> Inside(s, r.value, i, r.pos)
    decreases s.Left(j), 8
  {
    hide Kept, KindOfName, FirstError, Well, MembersWell, Stream.At, Inside, IntersectionAt, Ordered, Spanning,
      Spaced;
    if s.Kind(j) != BAR {
      if |acc| > 1 {
        ParentIn(s, Union(acc, Spanning(s.At(i), s.At(j - 1))), i, j);
      } else {
        assert acc[0] in acc;
      }
    } else if !(v && IsVoid(acc[0])) {
      IntersectionIn(s, j + 1, e, false, sc);
      var r := IntersectionAt(s, j + 1, e, false, sc);
      if r.Ok? {
        AppendIn(s, acc, i, j, r.value, j + 1, r.pos);
        AllBefore(s, acc, i, j, r.value, j + 1, r.pos);
        UnionIn(s, i, r.pos, r.err, v, sc, acc + [r.value]);
      }
    }
  }

  lemma {:induction false} IntersectionIn(s: Stream, i: nat, e: Errors, v: bool, sc: Scope)
    requires Ordered(s)
    ensures var r := IntersectionAt(s, i, e, v, sc); r.Ok? ==> Inside(s, r.value, i, r.pos)
    decreases s.Left(i), 7
  {
    hide Kept, KindOfName, FirstError, Well, MembersWell, Stream.At, Stream.Kind, Inside, OptionalAt, Ordered;
    OptionalTypeIn(s, i, e, v, sc);
    var r := OptionalAt(s, i, e, v, sc);
    if r.Ok? {
      OneIn(s, r.value, i, r.pos);
      IntersectionRestIn(s, i, r.pos, r.err, v, sc, [r.value]);
    }
  }

  lemma {:induction false} IntersectionRestIn(s: Stream, i: nat, j: nat, e: Errors, v: bool, sc: Scope, acc: seq<Type>)
    requires Ordered(s) && i < j <= |s.toks| && acc != [] && AllIn(s, acc, i, j) && InOrder(acc)
    ensures var r := IntersectionRest(s, i, j, e, v, sc, acc); r.Ok? ==> Inside(s, r.value, i, r.pos)
    decreases s.Left(j), 6
  {
    hide Kept, KindOfName, FirstError, Well, MembersWell, Stream.At, Inside, OptionalAt, Ordered, Spanning, Spaced;
    if s.Kind(j) != AMP {
      if |acc| > 1 {
        ParentIn(s, Intersection(acc, Spanning(s.At(i), s.At(j - 1))), i, j);
      } else {
        assert acc[0] in acc;
      }
    } else if !(v && IsVoid(acc[0])) {
      OptionalTypeIn(s, j + 1, e, false, sc);
      var r := OptionalAt(s, j + 1, e, false, sc);
      if r.Ok? {
        AppendIn(s, acc, i, j, r.value, j + 1, r.pos);
        AllBefore(s, acc, i, j, r.value, j + 1, r.pos);
        IntersectionRestIn(s, i, r.pos, r.err, v, sc, acc + [r.value]);
      }
    }
  }

  lemma {:induction false} OptionalTypeIn(s: Stream, i: nat, e: Errors, v: bool, sc: Scope)
    requires Ordered(s)
    ensures var r := OptionalAt(s, i, e, v, sc); r.Ok? ==> Inside(s, r.value, i, r.pos)
    decreases s.Left(i), 5
  {
    hide Kept, KindOfName, FirstError, Well, Stream.At, Inside, SimpleAt, Ordered, Spanning, Spaced;
    SimpleIn(s, i, e, v, sc);
    var r := SimpleAt(s, i, e, v, sc);
    if r.Ok? && s.Kind(r.pos) == QUESTION {
      OneIn(s, r.value, i, r.pos);
      AllWider(s, [r.value], i, r.pos, i, r.pos + 1);
      ParentIn(s, OptionalType(r.value, Spanning(s.At(i), s.At(r.pos))), i, r.pos + 1);
    }
  }

  // A type that is one token.
  lemma TokenIn(s: Stream, t: Type, i: nat)
    requires Ordered(s) && i < |s.toks| && EachType(t) == [] && t.loc == LocOf(s.At(i))
    requires !t.Application? && !t.Singleton?
    ensures Inside(s, t, i, i + 1)
  {
    NothingIn(s, i, i + 1);
    ParentIn(s, t, i, i + 1);
  }

  predicate IsLeaf(s: Stream, i: nat, sc: Scope) {
    || BaseOf(s.Kind(i)).Some? || (s.Kind(i) != EOF && LiteralOf(s.At(i)).Some?)
    || (s.Kind(i) == UIDENT && s.At(i).text in sc.vars)
  }

  // Which rule reads a simple type.
  lemma SimpleBranches(s: Stream, i: nat, e: Errors, v: bool, sc: Scope)
    ensures var r, k := SimpleAt(s, i, e, v, sc), s.Kind(i);
            if k == LPAREN then
              r.Ok? ==> TypeAt(s, i + 1, e, v, sc).Ok? && r.value == TypeAt(s, i + 1, e, v, sc).value
                        && r.pos == TypeAt(s, i + 1, e, v, sc).pos + 1
            else if IsLeaf(s, i, sc) || k == AREF_OPR then
              r.Ok? ==> EachType(r.value) == [] && r.value.loc == LocOf(s.At(i)) && r.pos == i + 1
                        && !r.value.Application? && !r.value.Singleton?
            else if KindOfName(k).Some? || k == COLON2 then r == ApplicationAt(s, i, e, sc)
            else if k == KW_SINGLETON then r == SingletonAt(s, i, e, sc)
            else if k == LBRACKET then r == TupleAt(s, i, e, sc)
            else if k == LBRACE then r == RecordAt(s, i, e, sc)
            else if k == HAT then r == ProcAt(s, i, e, sc)
            else r.Fail?
  {
    hide Kept, FirstError, Well, BaseAllowed, LiteralOf, BaseOf, Stream.At, TypeAt, RecordAt, ProcAt, TupleAt,
      ApplicationAt, SingletonAt, LocOf;
    OperatorIsNoName();
    hide KindOfName;
  }

  lemma OperatorIsNoName()
    ensures KindOfName(AREF_OPR) == None
  {}

  lemma {:induction false} SimpleIn(s: Stream, i: nat, e: Errors, v: bool, sc: Scope)
    requires Ordered(s)
    ensures var r := SimpleAt(s, i, e, v, sc); r.Ok? ==> Inside(s, r.value, i, r.pos)
    decreases s.Left(i), 4
  {
    hide Kept, KindOfName, FirstError, Well, Stream.At, Inside, SimpleAt, TypeAt, RecordAt, ProcAt, TupleAt,
      ApplicationAt, SingletonAt, Ordered, LocOf, EachType;
    SimpleBranches(s, i, e, v, sc);
    var k, t := s.Kind(i), s.At(i);
    var r := SimpleAt(s, i, e, v, sc);
    if k == LPAREN {
      TypeIn(s, i + 1, e, v, sc);
      if r.Ok? {
        Wider(s, r.value, i + 1, r.pos - 1, i, r.pos);
      }
    } else if IsLeaf(s, i, sc) || k == AREF_OPR {
      if r.Ok? {
        TokenIn(s, r.value, i);
      }
    } else if KindOfName(k).Some? || k == COLON2 {
      ApplicationIn(s, i, e, sc);
    } else if k == KW_SINGLETON {
      SingletonIn(s, i, e, sc);
    } else if k == LBRACKET {
      TupleIn(s, i, e, sc);
    } else if k == LBRACE {
      RecordIn(s, i, e, sc);
    } else if k == HAT {
      ProcIn(s, i, e, sc);
    }
  }

  // A comma-separated list before `]`.
  lemma {:induction false} TypeListIn(s: Stream, lo: nat, j: nat, i: nat, e: Errors, v: bool, sc: Scope, acc: seq<Type>)
    requires Ordered(s) && AllIn(s, acc, lo, j) && InOrder(acc) && lo <= i && j < i
    ensures var r := TypeListAt(s, i, e, v, sc, acc); r.Ok? ==> AllIn(s, r.value, lo, r.pos) && InOrder(r.value)
    decreases s.Left(i), 10
  {
    hide Kept, KindOfName, FirstError, Well, AllWell, Stream.At, Inside, TypeAt, Ordered, AllIn, InOrder;
    TypeIn(s, i, e, v, sc);
    var r := TypeAt(s, i, e, v, sc);
    if r.Ok? {
      AppendIn(s, acc, lo, j, r.value, i, r.pos);
      AllBefore(s, acc, lo, j, r.value, i, r.pos);
      if s.Kind(r.pos) == COMMA {
        if s.Kind(r.pos + 1) == RBRACKET {
          AllWider(s, acc + [r.value], lo, r.pos, lo, r.pos + 1);
        } else {
          TypeListIn(s, lo, r.pos, r.pos + 1, r.err, v, sc, acc + [r.value]);
        }
      }
    }
  }

  // Type arguments from token `i` on.
  lemma {:induction false} TypeArgsIn(s: Stream, i: nat, e: Errors, sc: Scope)
    requires Ordered(s) && 0 < i <= |s.toks|
    ensures var r := TypeArgsAt(s, i, e, sc); r.Ok? ==>
              AllIn(s, r.value.0, i, r.pos) && InOrder(r.value.0) && (r.value.0 != [] ==> i < |s.toks|)
    decreases s.Left(i), 2
  {
    hide Kept, KindOfName, FirstError, Well, AllWell, Stream.At, Inside, TypeListAt, Ordered, AllIn;
    NothingIn(s, i, i);
    if s.Kind(i) == LBRACKET {
      NothingIn(s, i, i);
      TypeListIn(s, i, i, i + 1, e, true, sc, []);
      var r := TypeListAt(s, i + 1, e, true, sc, []);
      if r.Ok? {
        AllWider(s, r.value, i, r.pos, i, r.pos + 1);
      }
    }
  }

  lemma {:induction false} ListGrows(s: Stream, i: nat, e: Errors, v: bool, sc: Scope, acc: seq<Type>)
    ensures var r := TypeListAt(s, i, e, v, sc, acc); r.Ok? ==> |r.value| > |acc|
    decreases s.Left(i)
  {
    hide Kept, Well, AllWell, TypeAt, Stream.At, Stream.Kind;
    var r := TypeAt(s, i, e, v, sc);
    if r.Ok? && s.Kind(r.pos) == COMMA && s.Kind(r.pos + 1) != RBRACKET {
      ListGrows(s, r.pos + 1, r.err, v, sc, acc + [r.value]);
    }
  }

  // No brackets, or brackets around all of the arguments.
  ghost predicate ArgsFrom(s: Stream, i: nat, args: seq<Type>, loc: Location, j: nat) {
    if args == [] then j == i && loc == NULL_LOCATION
    else i < j <= |s.toks| && loc == Spanning(s.At(i), s.At(j - 1)) && forall a <- args :: Within(a.loc, loc)
  }

  lemma {:induction false} ArgsRange(s: Stream, i: nat, e: Errors, sc: Scope)
    requires Ordered(s) && 0 < i <= |s.toks|
    ensures var r := TypeArgsAt(s, i, e, sc); r.Ok? ==> ArgsFrom(s, i, r.value.0, r.value.1, r.pos)
    decreases s.Left(i), 3
  {
    hide Kept, Well, AllWell, TypeListAt, Ordered, Nested, Stream.At;
    TypeArgsIn(s, i, e, sc);
    if s.Kind(i) == LBRACKET {
      ListGrows(s, i + 1, e, true, sc, []);
    }
  }

  lemma PartsFit(s: Stream, t: Type, i: nat, k: nat, n: nat, m: nat, j: nat)
    requires Ordered(s) && (t.Application? || t.Singleton?) && i <= k < n <= m <= j <= |s.toks|
    requires t.loc == Spanning(s.At(i), s.At(j - 1)) && t.nameLoc == Spanning(s.At(k), s.At(n - 1))
    requires ArgsFrom(s, m, t.args, t.argsLoc, j)
    ensures PartsIn(t)
  {
    InTokens(s, k, n, i, j);
    if t.args != [] {
      InTokens(s, m, j, i, j);
      InTokens(s, n - 1, n, k, n);
    }
  }

  lemma {:induction false} ApplicationIn(s: Stream, i: nat, e: Errors, sc: Scope)
    requires Ordered(s) && (s.Kind(i) == UIDENT ==> s.At(i).text !in sc.vars)
    ensures var r := ApplicationAt(s, i, e, sc); r.Ok? ==> Inside(s, r.value, i, r.pos)
    decreases s.Left(i), 3
  {
    hide Kept, KindOfName, FirstError, Well, AllWell, NotShadowed, Stream.At, Stream.Kind, Inside, TypeNameAt,
      TypeArgsAt, Ordered, AllIn, Spanning;
    var n := TypeNameAt(s, i, e, ANY_NAME);
    if n.Ok? {
      TypeArgsIn(s, n.pos, n.err, Scope(sc.vars, true, true));
      var r := ApplicationAt(s, i, e, sc);
      if r.Ok? {
        ArgsIn(s, r.value.args, n.pos, r.pos, i);
        ArgsRange(s, n.pos, n.err, Scope(sc.vars, true, true));
        PartsFit(s, r.value, i, i, n.pos, n.pos, r.pos);
        ParentIn(s, r.value, i, r.pos);
      }
    }
  }

  lemma ArgsIn(s: Stream, ts: seq<Type>, n: nat, j: nat, i: nat)
    requires Ordered(s) && AllIn(s, ts, n, j) && i < n <= j <= |s.toks| && (ts != [] ==> n < |s.toks|)
    ensures AllIn(s, ts, i, j)
  {
    if ts != [] {
      AllWider(s, ts, n, j, i, j);
    }
  }

  // What an accepted singleton type is made of.
  lemma SingletonHas(s: Stream, i: nat, e: Errors, sc: Scope)
    requires s.Kind(i) == KW_SINGLETON
    ensures var r, n := SingletonAt(s, i, e, sc), TypeNameAt(s, i + 2, e, {ClassName});
            r.Ok? ==>
              && n.Ok? && s.Kind(n.pos) == RPAREN && n.pos < |s.toks| && r.value.Singleton?
              && r.value.loc == Spanning(s.At(i), s.At(r.pos - 1))
              && r.value.nameLoc == Spanning(s.At(i + 2), s.At(n.pos - 1))
              && var a := TypeArgsAt(s, n.pos + 1, n.err, sc);
                 a.Ok? && r.value.args == a.value.0 && r.value.argsLoc == a.value.1 && r.pos == a.pos
  {
    hide Kept, KindOfName, FirstError, Well, AllWell, TypeNameAt, TypeArgsAt, Spanning, Stream.At, Stream.Kind;
    var n := TypeNameAt(s, i + 2, e, {ClassName});
    if n.Ok? {
      BeforeEnd(s, n.pos);
    }
  }

  lemma BeforeEnd(s: Stream, i: nat)
    ensures s.Kind(i) == RPAREN ==> i < |s.toks|
  {}

  lemma {:induction false} SingletonIn(s: Stream, i: nat, e: Errors, sc: Scope)
    requires Ordered(s) && s.Kind(i) == KW_SINGLETON
    ensures var r := SingletonAt(s, i, e, sc); r.Ok? ==> Inside(s, r.value, i, r.pos)
    decreases s.Left(i), 3
  {
    hide Kept, KindOfName, FirstError, Well, AllWell, NotShadowed, Stream.At, Inside, TypeNameAt, TypeArgsAt, Ordered,
      AllIn, Spanning, SingletonAt;
    SingletonHas(s, i, e, sc);
    var n, r := TypeNameAt(s, i + 2, e, {ClassName}), SingletonAt(s, i, e, sc);
    if r.Ok? {
      TypeArgsIn(s, n.pos + 1, n.err, sc);
      ArgsIn(s, r.value.args, n.pos + 1, r.pos, i);
      ArgsRange(s, n.pos + 1, n.err, sc);
      PartsFit(s, r.value, i, i + 2, n.pos, n.pos + 1, r.pos);
      ParentIn(s, r.value, i, r.pos);
    }
  }

  // ---- the named parts of a type's range -------------------------------------------------------------

  // What find_in_loc looks through: the parts of an accepted class, interface or alias type ...
  lemma ApplicationParts(s: Stream, i: nat, e: Errors, sc: Scope)
    requires Ordered(s) && (s.Kind(i) == UIDENT ==> s.At(i).text !in sc.vars)
    ensures var r := ApplicationAt(s, i, e, sc); r.Ok? ==>
              PartsIn(r.value) && r.value.nameLoc.startChar == r.value.loc.startChar
  {
    hide Kept, KindOfName, Well, AllWell, TypeNameAt, TypeArgsAt, Ordered, ArgsFrom, PartsIn, Stream.At, Stream.Kind;
    var n := TypeNameAt(s, i, e, ANY_NAME);
    if n.Ok? {
      ArgsRange(s, n.pos, n.err, Scope(sc.vars, true, true));
      var r := ApplicationAt(s, i, e, sc);
      if r.Ok? {
        PartsFit(s, r.value, i, i, n.pos, n.pos, r.pos);
      }
    }
  }

  // ... and of a singleton type.
  lemma SingletonParts(s: Stream, i: nat, e: Errors, sc: Scope)
    requires Ordered(s) && s.Kind(i) == KW_SINGLETON
    ensures var r := SingletonAt(s, i, e, sc); r.Ok? ==>
              r.value.Singleton? && PartsIn(r.value) && r.value.nameLoc.startChar > r.value.loc.startChar
  {
    hide Kept, KindOfName, Well, AllWell, TypeNameAt, TypeArgsAt, Ordered, ArgsFrom, PartsIn, Stream.At, SingletonAt;
    SingletonHas(s, i, e, sc);
    var n, r := TypeNameAt(s, i + 2, e, {ClassName}), SingletonAt(s, i, e, sc);
    if r.Ok? {
      ArgsRange(s, n.pos + 1, n.err, sc);
      PartsFit(s, r.value, i, i + 2, n.pos, n.pos + 1, r.pos);
      LaterToken(s, i, i + 2);
    }
  }

  lemma LaterToken(s: Stream, i: nat, j: nat)
    requires Ordered(s) && i < j < |s.toks|
    ensures s.At(i).start.charPos < s.At(j).start.charPos
  {}

  lemma {:induction false} TupleIn(s: Stream, i: nat, e: Errors, sc: Scope)
    requires Ordered(s) && s.Kind(i) == LBRACKET
    ensures var r := TupleAt(s, i, e, sc); r.Ok? ==> Inside(s, r.value, i, r.pos)
    decreases s.Left(i), 3
  {
    hide Kept, KindOfName, FirstError, Well, AllWell, Stream.At, Inside, TypeListAt, Ordered, AllIn, Spanning;
    var t := TupleAt(s, i, e, sc);
    NothingIn(s, i, i);
    NothingIn(s, i, i + 2);
    if s.Kind(i + 1) != RBRACKET {
      TypeListIn(s, i, i, i + 1, e, false, sc, []);
      if t.Ok? {
        AllWider(s, t.value.types, i, t.pos - 1, i, t.pos);
      }
    }
    if t.Ok? {
      ParentIn(s, t.value, i, t.pos);
    }
  }

  lemma {:induction false} RecordIn(s: Stream, i: nat, e: Errors, sc: Scope)
    requires Ordered(s) && s.Kind(i) == LBRACE
    ensures var r := RecordAt(s, i, e, sc); r.Ok? ==> Inside(s, r.value, i, r.pos)
    decreases s.Left(i), 3
  {
    hide Kept, KindOfName, FirstError, Well, FieldsWell, Stream.At, Inside, FieldsAt, Ordered, FieldsIn, AllIn,
      Spanning;
    var r := RecordAt(s, i, e, sc);
    assert r.Ok? ==> r.value.fields == AttributesAt(s, i + 1, e, sc).value;
    if s.Kind(i + 1) != RBRACE {
      NoFieldsIn(s, i, i);
      FieldListIn(s, i, i, i + 1, e, sc, []);
      if r.Ok? {
        FieldTypesIn(s, r.value.fields, i, r.pos - 1);
        AllWider(s, EachType(r.value), i, r.pos - 1, i, r.pos);
      }
    } else {
      NothingIn(s, i, i + 2);
      if r.Ok? {
        NoFieldTypes(r.value);
      }
    }
    if r.Ok? {
      ParentIn(s, r.value, i, r.pos);
    }
  }

  lemma NoFieldTypes(t: Type)
    requires t.Record? && t.fields == []
    ensures EachType(t) == []
  {}

  lemma NoFieldsIn(s: Stream, i: nat, j: nat)
    ensures FieldsIn(s, [], i, j)
  {}

  lemma {:induction false} FieldListIn(s: Stream, lo: nat, j: nat, i: nat, e: Errors, sc: Scope, acc: Fields)
    requires Ordered(s) && FieldsIn(s, acc, lo, j) && lo <= i && j < i
    ensures var r := FieldsAt(s, i, e, sc, acc); r.Ok? ==> FieldsIn(s, r.value, lo, r.pos)
    decreases s.Left(i), 11
  {
    hide Kept, KindOfName, FirstError, Well, FieldsWell, Stream.At, Inside, FieldAt, Ordered, FieldsIn;
    FieldIn(s, lo, j, i, e, sc, acc);
    var r := FieldAt(s, i, e, sc, acc);
    if r.Ok? && s.Kind(r.pos) == COMMA {
      if s.Kind(r.pos + 1) == RBRACE {
        FieldsWider(s, r.value, lo, r.pos, r.pos + 1);
      } else {
        FieldListIn(s, lo, r.pos, r.pos + 1, r.err, sc, r.value);
      }
    }
  }

  lemma FieldsWider(s: Stream, fs: Fields, i: nat, j: nat, hi: nat)
    requires Ordered(s) && FieldsIn(s, fs, i, j) && i < |s.toks| && j <= hi <= |s.toks|
    ensures FieldsIn(s, fs, i, hi)
  {
    hide Inside;
    forall f <- fs ensures Inside(s, f.value.ty, i, hi) {
      Wider(s, f.value.ty, i, j, i, hi);
    }
  }

  lemma {:induction false} FieldIn(s: Stream, lo: nat, j: nat, i: nat, e: Errors, sc: Scope, acc: Fields)
    requires Ordered(s) && FieldsIn(s, acc, lo, j) && lo <= i && j < i
    ensures var r := FieldAt(s, i, e, sc, acc); r.Ok? ==> FieldsIn(s, r.value, lo, r.pos)
    decreases s.Left(i), 10
  {
    hide Kept, KindOfName, FirstError, Well, FieldsWell, Stream.At, Stream.Kind, Inside, FieldKeyAt, TypeAt, Ordered,
      FieldsIn, HashSet, After;
    var k := FieldKeyAt(s, i, e, acc);
    if k.Ok? {
      TypeIn(s, k.pos, k.err, false, sc);
      var t := TypeAt(s, k.pos, k.err, false, sc);
      if t.Ok? {
        var ft := FieldType(t.value, s.Kind(i) != QUESTION, After(s.At(k.pos - 1), s.At(t.pos - 1)));
        FieldSetIn(s, acc, lo, j, k.value, ft, k.pos, t.pos);
      }
    }
  }

  // ---- parameters ------------------------------------------------------------------------------------

  lemma {:induction false} ParamAtIn(s: Stream, i: nat, e: Errors, sc: Scope)
    requires Ordered(s)
    ensures var r := ParamAt(s, i, e, sc); r.Ok? ==> Inside(s, r.value.ty, i, r.pos)
    decreases s.Left(i), 10
  {
    hide Kept, KindOfName, FirstError, Well, Stream.At, Inside, TypeAt, Ordered, IsKeywordToken, LocOf, Spanning;
    TypeIn(s, i, e, false, sc);
    var t := TypeAt(s, i, e, false, sc);
    if t.Ok? && IsKeywordToken(s.Kind(t.pos)) {
      WordIsToken(s, t.pos);
      Wider(s, t.value, i, t.pos, i, t.pos + 1);
    }
  }

  lemma WordIsToken(s: Stream, i: nat)
    requires IsKeywordToken(s.Kind(i))
    ensures i < |s.toks| && s.Kind(i) != QUESTION && s.Kind(i) != STAR2
  {}

  // The types of the parameters read so far end before token `j`, which is before the next token `i`; only a
  // keyword section may be entered right after a type, because the comma between keywords can be missing.
  ghost predicate ParamsIn(s: Stream, p: MethodParams, lo: nat, j: nat, i: nat, q: Section) {
    && AllIn(s, ParamsTypes(p), lo, j) && ParamsInOrder(p) && StillEmpty(p, q)
    && lo < |s.toks| && lo <= i && if q == Section.Keywords then j <= i else j < i
  }

  lemma {:induction false} SectionIn(s: Stream, lo: nat, j: nat, i: nat, e: Errors, sc: Scope, fwd: bool, q: Section,
                                     p: MethodParams)
    requires Ordered(s) && i <= |s.toks| && ParamsIn(s, p, lo, j, i, q)
    ensures var r := SectionAt(s, i, e, sc, fwd, q, p); r.Ok? ==>
              ParamsIn(s, r.value, lo, r.pos, r.pos, Section.Keywords)
    decreases s.Left(i), 14, 2 * SectionRank(q) + 1
  {
    hide Kept, KindOfName, FirstError, Well, WellParams, Stream.At, Stream.Kind, Ordered, ParamsIn, RequiredAt,
      OptionalParamAt, RestAt, TrailingAt, KeywordsAt, Reached;
    match q
    case RequiredParams => RequiredSectionIn(s, lo, j, i, e, sc, fwd, p);
    case OptionalParams => OptionalSectionIn(s, lo, j, i, e, sc, fwd, p);
    case RestParam => RestSectionIn(s, lo, j, i, e, sc, fwd, p);
    case TrailingParams => TrailingSectionIn(s, lo, j, i, e, sc, fwd, p);
    case Keywords => KeywordsSectionIn(s, lo, j, i, e, sc, fwd, p);
  }

  // At the end of the parameters.
  lemma EndIn(s: Stream, p: MethodParams, lo: nat, j: nat, i: nat, q: Section, hi: nat)
    requires Ordered(s) && ParamsIn(s, p, lo, j, i, q) && i <= hi <= |s.toks|
    ensures ParamsIn(s, p, lo, hi, hi, Section.Keywords)
    ensures forall l :: ParamsIn(s, p.(forwarding := l), lo, hi, hi, Section.Keywords)
  {
    var ts := ParamsTypes(p);
    forall l ensures ParamsTypes(p.(forwarding := l)) == ts && ParamsInOrder(p.(forwarding := l)) {
      assert PositionalTypes(p.(forwarding := l)) == PositionalTypes(p);
    }
    hide ParamsTypes, ParamsInOrder;
    if ts != [] {
      AllWider(s, ts, lo, j, lo, hi);
    } else {
      NothingIn(s, lo, hi);
    }
  }

  lemma {:induction false} ContinueIn(s: Stream, lo: nat, i: nat, e: Errors, sc: Scope, fwd: bool, q: Section,
                                      p: MethodParams)
    requires Ordered(s) && i <= |s.toks| && AllIn(s, ParamsTypes(p), lo, i) && lo <= i && lo < |s.toks|
    requires ParamsInOrder(p) && StillEmpty(p, q)
    ensures var r := Continue(s, i, e, sc, fwd, q, p); r.Ok? ==>
              ParamsIn(s, r.value, lo, r.pos, r.pos, Section.Keywords)
    decreases s.Left(i), 19
  {
    hide Kept, KindOfName, FirstError, Well, WellParams, Stream.At, Ordered, ParamsTypes, AllIn, SectionAt, Reached;
    if s.Kind(i) == COMMA {
      SectionIn(s, lo, i, i + 1, e, sc, fwd, q, p);
    }
  }

  lemma {:induction false} RequiredSectionIn(s: Stream, lo: nat, j: nat, i: nat, e: Errors, sc: Scope, fwd: bool,
                                             p: MethodParams)
    requires Ordered(s) && i <= |s.toks| && ParamsIn(s, p, lo, j, i, RequiredParams)
    ensures var r := RequiredAt(s, i, e, sc, fwd, p); r.Ok? ==> ParamsIn(s, r.value, lo, r.pos, r.pos, Section.Keywords)
    decreases s.Left(i), 14, 2 * SectionRank(RequiredParams)
  {
    hide Kept, KindOfName, FirstError, Well, WellParam, WellParams, Stream.At, Ordered, ParamsTypes, AllIn,
      ParamsInOrder, Inside, SectionAt, Reached, ParamAt, Continue, IsKeyword, LocOf;
    var k := s.Kind(i);
    EndIn(s, p, lo, j, i, RequiredParams, i);
    if k == QUESTION {
      SectionIn(s, lo, j, i, e, sc, fwd, OptionalParams, p);
    } else if k == STAR {
      SectionIn(s, lo, j, i, e, sc, fwd, RestParam, p);
    } else if k == STAR2 {
      SectionIn(s, lo, j, i, e, sc, fwd, Section.Keywords, p);
    } else if k == RPAREN {
    } else if k == DOT3 {
      EndIn(s, p, lo, j, i, RequiredParams, i + 1);
    } else if IsKeyword(s, i) {
      SectionIn(s, lo, j, i, e, sc, fwd, Section.Keywords, p);
    } else {
      ParamAtIn(s, i, e, sc);
      var x := ParamAt(s, i, e, sc);
      if x.Ok? {
        RequiredIn(s, p, lo, j, x.value, i, x.pos);
        AllBefore(s, ParamsTypes(p), lo, j, x.value.ty, i, x.pos);
        RequiredOrder(p, x.value);
        ContinueIn(s, lo, x.pos, x.err, sc, fwd, RequiredParams, p.(required := p.required + [x.value]));
      }
    }
  }

  lemma {:induction false} OptionalSectionIn(s: Stream, lo: nat, j: nat, i: nat, e: Errors, sc: Scope, fwd: bool,
                                             p: MethodParams)
    requires Ordered(s) && i <= |s.toks| && ParamsIn(s, p, lo, j, i, OptionalParams)
    ensures var r := OptionalParamAt(s, i, e, sc, fwd, p);
            r.Ok? ==> ParamsIn(s, r.value, lo, r.pos, r.pos, Section.Keywords)
    decreases s.Left(i), 14, 2 * SectionRank(OptionalParams)
  {
    hide Kept, KindOfName, FirstError, Well, WellParam, WellParams, Stream.At, Ordered, ParamsTypes, AllIn,
      ParamsInOrder, Inside, SectionAt, Reached, ParamAt, Continue, IsKeyword, KeywordAt;
    if s.Kind(i) != QUESTION {
      SectionIn(s, lo, j, i, e, sc, fwd, RestParam, p);
    } else if IsKeyword(s, i + 1) {
      KeywordAtIn(s, lo, j, i + 1, e, sc, p, false);
      var r := KeywordAt(s, i + 1, e, sc, p, false);
      if r.Ok? {
        if s.Kind(r.pos) == COMMA {
          SectionIn(s, lo, r.pos, r.pos + 1, r.err, sc, fwd, Section.Keywords, r.value);
        } else {
          SectionIn(s, lo, r.pos, r.pos, r.err, sc, fwd, Section.Keywords, r.value);
        }
      }
    } else {
      ParamAtIn(s, i + 1, e, sc);
      var x := ParamAt(s, i + 1, e, sc);
      if x.Ok? {
        OptionalIn(s, p, lo, j, x.value, i + 1, x.pos);
        AllBefore(s, ParamsTypes(p), lo, j, x.value.ty, i + 1, x.pos);
        OptionalOrder(p, x.value);
        ContinueIn(s, lo, x.pos, x.err, sc, fwd, OptionalParams, p.(optional := p.optional + [x.value]));
      }
    }
  }

  lemma {:induction false} RestSectionIn(s: Stream, lo: nat, j: nat, i: nat, e: Errors, sc: Scope, fwd: bool,
                                         p: MethodParams)
    requires Ordered(s) && i <= |s.toks| && ParamsIn(s, p, lo, j, i, RestParam)
    ensures var r := RestAt(s, i, e, sc, fwd, p); r.Ok? ==> ParamsIn(s, r.value, lo, r.pos, r.pos, Section.Keywords)
    decreases s.Left(i), 14, 2 * SectionRank(RestParam)
  {
    hide Kept, KindOfName, FirstError, Well, WellParam, WellParams, Stream.At, Ordered, ParamsTypes, AllIn,
      ParamsInOrder, Inside, SectionAt, Reached, ParamAt, Continue;
    if s.Kind(i) != STAR {
      SectionIn(s, lo, j, i, e, sc, fwd, TrailingParams, p);
    } else {
      ParamAtIn(s, i + 1, e, sc);
      var x := ParamAt(s, i + 1, e, sc);
      if x.Ok? {
        RestIn(s, p, lo, j, x.value, i + 1, x.pos);
        AllBefore(s, ParamsTypes(p), lo, j, x.value.ty, i + 1, x.pos);
        RestOrder(p, x.value);
        ContinueIn(s, lo, x.pos, x.err, sc, fwd, TrailingParams, p.(rest := Some(x.value)));
      }
    }
  }

  lemma {:induction false} TrailingSectionIn(s: Stream, lo: nat, j: nat, i: nat, e: Errors, sc: Scope, fwd: bool,
                                             p: MethodParams)
    requires Ordered(s) && i <= |s.toks| && ParamsIn(s, p, lo, j, i, TrailingParams)
    ensures var r := TrailingAt(s, i, e, sc, fwd, p); r.Ok? ==> ParamsIn(s, r.value, lo, r.pos, r.pos, Section.Keywords)
    decreases s.Left(i), 14, 2 * SectionRank(TrailingParams)
  {
    hide Kept, KindOfName, FirstError, Well, WellParam, WellParams, Stream.At, Ordered, ParamsTypes, AllIn,
      ParamsInOrder, Inside, SectionAt, Reached, ParamAt, Continue, IsKeyword;
    var k := s.Kind(i);
    EndIn(s, p, lo, j, i, TrailingParams, i);
    if k == QUESTION || k == STAR2 {
      SectionIn(s, lo, j, i, e, sc, fwd, Section.Keywords, p);
    } else if k == STAR || k == RPAREN {
    } else if IsKeyword(s, i) {
      SectionIn(s, lo, j, i, e, sc, fwd, Section.Keywords, p);
    } else {
      ParamAtIn(s, i, e, sc);
      var x := ParamAt(s, i, e, sc);
      if x.Ok? {
        TrailingIn(s, p, lo, j, x.value, i, x.pos);
        AllBefore(s, ParamsTypes(p), lo, j, x.value.ty, i, x.pos);
        TrailingOrder(p, x.value);
        ContinueIn(s, lo, x.pos, x.err, sc, fwd, TrailingParams, p.(trailing := p.trailing + [x.value]));
      }
    }
  }

  lemma {:induction false} KeywordsSectionIn(s: Stream, lo: nat, j: nat, i: nat, e: Errors, sc: Scope, fwd: bool,
                                             p: MethodParams)
    requires Ordered(s) && i <= |s.toks| && ParamsIn(s, p, lo, j, i, Section.Keywords)
    ensures var r := KeywordsAt(s, i, e, sc, fwd, p); r.Ok? ==> ParamsIn(s, r.value, lo, r.pos, r.pos, Section.Keywords)
    decreases s.Left(i), 14, 2 * SectionRank(Section.Keywords)
  {
    hide Kept, KindOfName, FirstError, Well, WellParam, WellParams, Stream.At, Ordered, ParamsTypes, AllIn,
      ParamsInOrder, Inside, SectionAt, Reached, ParamAt, Continue, IsKeyword, IsKeywordToken, KeywordAt;
    EndIn(s, p, lo, j, i, Section.Keywords, i);
    if s.Kind(i) == STAR2 {
      ParamAtIn(s, i + 1, e, sc);
      var x := ParamAt(s, i + 1, e, sc);
      if x.Ok? {
        RestKwIn(s, p, lo, j, x.value, i + 1, x.pos);
        AllBefore(s, ParamsTypes(p), lo, j, x.value.ty, i + 1, x.pos);
        RestKwOrder(p, x.value);
        ContinueIn(s, lo, x.pos, x.err, sc, fwd, Section.Keywords, p.(restKw := Some(x.value)));
      }
    } else if s.Kind(i) == QUESTION || IsKeywordToken(s.Kind(i)) {
      var n := if s.Kind(i) == QUESTION then i + 1 else i;
      if IsKeyword(s, n) {
        KeywordAtIn(s, lo, j, n, e, sc, p, s.Kind(i) != QUESTION);
        var r := KeywordAt(s, n, e, sc, p, s.Kind(i) != QUESTION);
        if r.Ok? {
          ContinueIn(s, lo, r.pos, r.err, sc, fwd, Section.Keywords, r.value);
        }
      }
    }
  }

  lemma {:induction false} KeywordAtIn(s: Stream, lo: nat, j: nat, i: nat, e: Errors, sc: Scope, p: MethodParams,
                                       required: bool)
    requires Ordered(s) && IsKeyword(s, i) && AllIn(s, ParamsTypes(p), lo, j) && lo <= i && j <= i && ParamsInOrder(p)
    ensures var r := KeywordAt(s, i, e, sc, p, required);
            r.Ok? ==> AllIn(s, ParamsTypes(r.value), lo, r.pos) && ParamsInOrder(r.value)
    decreases s.Left(i), 12
  {
    hide Kept, KindOfName, FirstError, Well, WellParam, WellParams, Stream.At, Ordered, ParamsTypes, AllIn,
      ParamsInOrder, Inside, Reached, ParamAt, HashSet, HasKey, IsKeywordToken;
    var k := KeyAt(s, i);
    if !HasKey(p.requiredKw, k.0) && !HasKey(p.optionalKw, k.0) {
      KeywordBegins(s, i);
      ParamAtIn(s, k.1 + 1, e, sc);
      var x := ParamAt(s, k.1 + 1, e, sc);
      if x.Ok? {
        KeywordIn(s, p, lo, j, k.0, x.value, k.1 + 1, x.pos);
        AllBefore(s, ParamsTypes(p), lo, j, x.value.ty, k.1 + 1, x.pos);
        KeywordOrder(p, k.0, x.value);
      }
    }
  }

  lemma KeywordBegins(s: Stream, i: nat)
    requires IsKeyword(s, i)
    ensures i < |s.toks| && KeyAt(s, i).1 > i
  {
    WordIsToken(s, i);
  }

  // ---- functions -------------------------------------------------------------------------------------

  function ListTypes(ps: ParamList): seq<Type> {
    if ps.Typed? then ParamsTypes(ps.params) else []
  }

  ghost predicate ListInOrder(ps: ParamList) {
    ps.Typed? ==> ParamsInOrder(ps.params)
  }

  lemma EmptyParams()
    ensures ParamsTypes(NO_PARAMS) == []
  {}

  // The types of the parameters lie between the parentheses, if there are any.
  lemma {:induction false} ParenParamsIn(s: Stream, i: nat, e: Errors, sc: Scope, fwd: bool)
    requires Ordered(s) && i <= |s.toks|
    ensures var r := ParenParamsAt(s, i, e, sc, fwd);
            r.Ok? ==> AllIn(s, ListTypes(r.value), i, if i < r.pos then r.pos - 1 else r.pos) && ListInOrder(r.value)
    decreases s.Left(i), 20
  {
    hide Kept, KindOfName, FirstError, Well, WellParams, Stream.At, Ordered, AllIn, Inside, SectionAt, Reached;
    EmptyParams();
    NothingInOrder();
    hide ParamsTypes, ParamsInOrder;
    var n := i + 1;
    NothingIn(s, i, i);
    NothingIn(s, i, n);
    NothingIn(s, i, n + 1);
    if s.Kind(i) == LPAREN && s.Kind(n) != RPAREN && !(s.Kind(n) == QUESTION && s.Kind(n + 1) == RPAREN) {
      SectionIn(s, i, i, n, e, sc, fwd, RequiredParams, NO_PARAMS);
    }
  }

  // The type of a self binding lies between its brackets.
  lemma {:induction false} SelfBindingIn(s: Stream, i: nat, e: Errors, sc: Scope)
    requires Ordered(s) && i <= |s.toks|
    ensures var r := SelfBindingAt(s, i, e, sc);
            r.Ok? ==> if r.value.None? then r.pos == i else i + 4 < r.pos && Inside(s, r.value.value, i + 3, r.pos - 1)
    decreases s.Left(i), 20
  {
    hide Kept, KindOfName, FirstError, Well, Stream.At, Ordered, Inside, TypeAt;
    if s.Kind(i) == LBRACKET {
      TypeIn(s, i + 3, e, false, sc);
    }
  }

  lemma {:induction false} ReturnIn(s: Stream, i: nat, e: Errors, sc: Scope)
    requires Ordered(s)
    ensures var r := ReturnAt(s, i, e, sc); r.Ok? ==> i + 1 < r.pos && Inside(s, r.value, i + 1, r.pos)
    decreases s.Left(i), 20
  {
    hide Kept, KindOfName, FirstError, Well, Stream.At, Ordered, Inside, OptionalAt;
    if s.Kind(i) == ARROW {
      OptionalTypeIn(s, i + 1, e, true, sc);
    }
  }

  lemma MadeFunction(ps: ParamList, ret: Type, loc: Location)
    ensures FnTypes(MakeFunction(ps, ret, loc)) == ListTypes(ps) + [ret]
    ensures forall self: Option<Type>, block: seq<Type> ::
              ListInOrder(ps) && SignatureInOrder(ListTypes(ps), self, block, ret) ==>
                FnInOrder(MakeFunction(ps, ret, loc), self, block)
  {}

  // Parameters between `i` and `j`, a self binding up to `k`, the types of a block up to `l` and a return type up
  // to `m`: the return type is listed before the self binding and the block.
  lemma SignatureIn(s: Stream, lo: nat, i: nat, j: nat, ps: seq<Type>, self: Option<Type>, k: nat, block: seq<Type>,
                    l: nat, ret: Type, m: nat)
    requires Ordered(s) && lo <= i <= j <= k <= l && l + 1 < m <= |s.toks|
    requires AllIn(s, ps, i, if i < j then j - 1 else j)
    requires if self.None? then k == j else j + 4 < k && Inside(s, self.value, j + 3, k - 1)
    requires block != [] ==> k + 1 < l && AllIn(s, block, k + 1, l - 1)
    requires Inside(s, ret, l + 1, m)
    ensures AllIn(s, ps + [ret] + OptionType(self) + block, lo, m) && SignatureInOrder(ps, self, block, ret)
  {
    hide Inside, AllIn, Ordered, Before, InOrder, SignatureInOrder;
    var j' := if i < j then j - 1 else j;
    var ts, k' := ps + OptionType(self), if self.Some? then k - 1 else j';
    if self.Some? {
      AppendIn(s, ps, i, j', self.value, j + 3, k - 1);
      AllBefore(s, ps, i, j', self.value, j + 3, k - 1);
    } else {
      assert ts == ps;
    }
    var us, l' := ts + block, if block == [] then k' else l - 1;
    if block == [] {
      assert us == ts;
    } else {
      BeginsBeforeEnd(s, ts, i, k');
      BeginsBeforeEnd(s, block, k + 1, l - 1);
      JoinIn(s, ts, i, k', block, k + 1, l - 1, i, l - 1);
      ListBefore(s, ts, i, k', block, k + 1, l - 1);
    }
    AllBefore(s, us, i, l', ret, l + 1, m);
    OneAfterTheOther(ps, self, block, ret);
    assert us == ps + (OptionType(self) + block);
    InsertIn(s, ps, OptionType(self) + block, i, l', ret, l + 1, m);
    assert ps + [ret] + (OptionType(self) + block) == ps + [ret] + OptionType(self) + block;
    AllWider(s, ps + [ret] + OptionType(self) + block, i, m, lo, m);
  }

  lemma OneAfterTheOther(ps: seq<Type>, self: Option<Type>, block: seq<Type>, ret: Type)
    requires self.Some? ==> Before(ps, [self.value])
    requires block != [] ==> Before(ps + OptionType(self), block)
    requires Before(ps + OptionType(self) + block, [ret])
    ensures SignatureInOrder(ps, self, block, ret)
  {}

  lemma BeginsBeforeEnd(s: Stream, ts: seq<Type>, i: nat, j: nat)
    requires Ordered(s) && AllIn(s, ts, i, j) && i < |s.toks| && j <= |s.toks|
    ensures ts != [] ==> i < j
  {
    if ts != [] {
      assert ts[0] in ts;
      EndsBeforeNext(s, j, i);
    }
  }

  lemma EndsBeforeNext(s: Stream, j: nat, i: nat)
    requires Ordered(s)
    ensures 0 < j <= i < |s.toks| ==> s.At(j - 1).end.charPos <= s.At(i).start.charPos
  {}

  // What an accepted block is made of.
  lemma BlockHas(s: Stream, i: nat, e: Errors, sc: Scope) returns (loc: Location)
    requires i <= |s.toks|
    ensures var r := BlockAt(s, i, e, sc);
            r.Ok? ==>
              if !BlockFollows(s, i) then r.value.None? && r.pos == i
              else
                var b := if s.Kind(i) == QUESTION then i + 1 else i;
                b + 1 <= |s.toks| &&
                var ps := ParenParamsAt(s, b + 1, e, sc, false);
                ps.Ok? &&
                var self := SelfBindingAt(s, ps.pos, ps.err, sc);
                self.Ok? &&
                var ret := ReturnAt(s, self.pos, self.err, sc);
                && ret.Ok? && r.pos == ret.pos + 1 <= |s.toks| && r.value.Some? && r.value.value.selfType == self.value
                && r.value.value.fn == MakeFunction(ps.value, ret.value, loc)
  {
    hide Kept, KindOfName, FirstError, Well, WellParams, WellBlock, ParenParamsAt, SelfBindingAt, ReturnAt,
      MakeFunction, Spanning, Stream.At;
    var r := BlockAt(s, i, e, sc);
    loc := Spanning(s.At(i), s.At(if r.Ok? && r.pos > 0 then r.pos - 1 else 0));
  }

  // The types of a block lie between its braces.
  lemma {:induction false} BlockIn(s: Stream, i: nat, e: Errors, sc: Scope)
    requires Ordered(s) && i <= |s.toks|
    ensures var r := BlockAt(s, i, e, sc);
            r.Ok? ==>
              if r.value.None? then r.pos == i
              else
                && i + 1 < r.pos && AllIn(s, BlockTypes(r.value), i + 1, r.pos - 1)
                && FnInOrder(r.value.value.fn, r.value.value.selfType, [])
    decreases s.Left(i), 21
  {
    hide Kept, KindOfName, FirstError, Well, WellParams, WellBlock, Stream.At, Ordered, Inside, AllIn, ParenParamsAt,
      SelfBindingAt, ReturnAt, MakeFunction, ParamsTypes, FnTypes, ListTypes, Spanning, OptionType, BlockAt,
      FnInOrder, SignatureInOrder, ListInOrder;
    var r := BlockAt(s, i, e, sc);
    var loc := BlockHas(s, i, e, sc);
    if r.Ok? && BlockFollows(s, i) {
      var b := if s.Kind(i) == QUESTION then i + 1 else i;
      var ps := ParenParamsAt(s, b + 1, e, sc, false);
      ParenParamsIn(s, b + 1, e, sc, false);
      var self := SelfBindingAt(s, ps.pos, ps.err, sc);
      SelfBindingIn(s, ps.pos, ps.err, sc);
      var ret := ReturnAt(s, self.pos, self.err, sc);
      ReturnIn(s, self.pos, self.err, sc);
      MadeFunction(ps.value, ret.value, loc);
      SignatureIn(s, i + 1, b + 1, ps.pos, ListTypes(ps.value), self.value, self.pos, [], self.pos, ret.value, ret.pos);
      assert ListTypes(ps.value) + [ret.value] + OptionType(self.value) + []
          == ListTypes(ps.value) + [ret.value] + OptionType(self.value);
    }
  }

  lemma {:induction false} ProcIn(s: Stream, i: nat, e: Errors, sc: Scope)
    requires Ordered(s) && s.Kind(i) == HAT
    ensures var r := ProcAt(s, i, e, sc); r.Ok? ==> Inside(s, r.value, i, r.pos)
    decreases s.Left(i), 3
  {
    hide Kept, KindOfName, FirstError, Well, WellParams, WellBlock, WellResult, Stream.At, Ordered, Inside, AllIn,
      ParenParamsAt, SelfBindingAt, FunctionRest, ParamsTypes, FnTypes, ListTypes, Spanning, OptionType, FnInOrder,
      ListInOrder;
    var n := i + 1;
    var ps := ParenParamsAt(s, n, e, sc, false);
    ParenParamsIn(s, n, e, sc, false);
    if ps.Ok? {
      var self := SelfBindingAt(s, ps.pos, ps.err, sc);
      SelfBindingIn(s, ps.pos, ps.err, sc);
      if self.Ok? {
        var f := FunctionRest(s, n, self.pos, self.err, sc, true, ps.value, self.value);
        FunctionRestIn(s, i, ps.pos, self.pos, self.err, sc, ps.value, self.value);
        assert FunctionAt(s, n, e, sc, true, true, false) == f;
        var r := ProcAt(s, i, e, sc);
        if r.Ok? {
          assert r.value == Proc(f.value.fn, f.value.block, f.value.selfType, Spanning(s.At(i), s.At(r.pos - 1)));
          EachOfProc(r.value);
          ParentIn(s, r.value, i, r.pos);
        }
      }
    }
  }

  lemma EachOfProc(t: Type)
    requires t.Proc?
    ensures EachType(t) == FnTypes(t.fn) + OptionType(t.selfType) + BlockTypes(t.block)
  {}

  lemma {:induction false} FunctionRestIn(s: Stream, i: nat, j: nat, k: nat, e: Errors, sc: Scope, ps: ParamList,
                                          self: Option<Type>)
    requires Ordered(s) && i < |s.toks| && i + 1 <= j <= k <= |s.toks|
    requires AllIn(s, ListTypes(ps), i + 1, if i + 1 < j then j - 1 else j) && ListInOrder(ps)
    requires if self.None? then k == j else j + 4 < k && Inside(s, self.value, j + 3, k - 1)
    ensures var r := FunctionRest(s, i + 1, k, e, sc, true, ps, self);
            r.Ok? ==>
              && r.value.selfType == self
              && AllIn(s, FnTypes(r.value.fn) + OptionType(self) + BlockTypes(r.value.block), i, r.pos)
              && FnInOrder(r.value.fn, self, BlockTypes(r.value.block))
              && (r.value.block.Some? ==> FnInOrder(r.value.block.value.fn, r.value.block.value.selfType, []))
    decreases s.Left(k), 22
  {
    hide Kept, KindOfName, FirstError, Well, WellParams, WellBlock, WellResult, Stream.At, Ordered, Inside, AllIn,
      BlockAt, ReturnAt, ParamsTypes, FnTypes, BlockTypes, ListTypes, Spanning, OptionType, MakeFunction, FnInOrder,
      SignatureInOrder, ListInOrder;
    var block := BlockAt(s, k, e, sc);
    BlockIn(s, k, e, sc);
    if block.Ok? {
      var ret := ReturnAt(s, block.pos, block.err, sc);
      ReturnIn(s, block.pos, block.err, sc);
      var r := FunctionRest(s, i + 1, k, e, sc, true, ps, self);
      if r.Ok? {
        MadeFunction(ps, ret.value, Spanning(s.Current(i + 1), s.At(ret.pos - 1)));
        NoBlockTypes(block.value);
        SignatureIn(s, i, i + 1, j, ListTypes(ps), self, k, BlockTypes(block.value), block.pos, ret.value, ret.pos);
      }
    }
  }

  lemma NoBlockTypes(b: Option<Block>)
    ensures b.None? ==> BlockTypes(b) == []
  {}

  // ---- the claim about ranges ------------------------------------------------------------------------

  // Tokens in order and wide enough, an accepted type has properly nested ranges inside those of its tokens.
  lemma AcceptedTypesAreNested(s: Stream, i: nat, e: Errors, v: bool, sc: Scope)
    requires Ordered(s)
    ensures var r := TypeAt(s, i, e, v, sc);
            r.Ok? ==> Nested(r.value) && Within(r.value.loc, Spanning(s.At(i), s.At(r.pos - 1)))
  {
    hide Nested, TypeAt;
    TypeIn(s, i, e, v, sc);
  }

  // ---- what else has a range -------------------------------------------------------------------------

  // The range of a parameter is that of all its tokens. It has a name exactly if it has a range of a name, which is that
  // of its last token.
  lemma ParamRanges(s: Stream, i: nat, e: Errors, sc: Scope)
    ensures var r := ParamAt(s, i, e, sc);
            r.Ok? ==>
              && r.value.loc == Spanning(s.At(i), s.At(r.pos - 1))
              && (r.value.name.None? ==> r.value.nameLoc == NULL_LOCATION)
              && (r.value.name.Some? ==>
                    && r.value.nameLoc == LocOf(s.At(r.pos - 1)) && r.value.name.value == s.At(r.pos - 1).unquoted
                    && TypeAt(s, i, e, false, sc).Ok? && TypeAt(s, i, e, false, sc).pos == r.pos - 1)
  {
    hide Well, TypeAt, IsKeywordToken, Spanning, LocOf, Stream.At;
  }

  // A block's range and that of the function in it are those of all its tokens, its `?` and braces included.
  lemma BlockRanges(s: Stream, i: nat, e: Errors, sc: Scope)
    requires i <= |s.toks|
    ensures var r := BlockAt(s, i, e, sc);
            r.Ok? && r.value.Some? ==>
              var b, loc := r.value.value, Spanning(s.At(i), s.At(r.pos - 1));
              b.loc == loc && b.fn.loc == loc && s.Kind(r.pos - 1) == RBRACE && BlockFollows(s, i)
  {
    hide Well, WellParams, WellFn, WellBlock, ParenParamsAt, SelfBindingAt, ReturnAt, Spanning, Stream.At;
  }

  // A function's range begins with the token before it.
  lemma FunctionRange(s: Stream, i: nat, e: Errors, sc: Scope, binding: bool, blocks: bool, fwd: bool)
    requires i <= |s.toks|
    ensures var r := FunctionAt(s, i, e, sc, binding, blocks, fwd);
            r.Ok? ==> r.value.fn.loc == Spanning(s.Current(i), s.At(r.pos - 1))
  {
    hide Well, WellParams, WellFn, WellBlock, ParenParamsAt, SelfBindingAt, BlockAt, ReturnAt, Spanning, Stream.At,
      Stream.Current;
  }

  // A field's range is from the end of its colon or arrow to the end of its type.
  lemma FieldRange(s: Stream, i: nat, e: Errors, sc: Scope, acc: Fields)
    ensures var k, r := FieldKeyAt(s, i, e, acc), FieldAt(s, i, e, sc, acc);
            r.Ok? ==>
              && k.Ok? && HasKey(r.value, k.value)
              && var f := r.value[HashFind(r.value, k.value)].value;
                 && f.loc == After(s.At(k.pos - 1), s.At(r.pos - 1)) && f.required == (s.Kind(i) != QUESTION)
                 && TypeAt(s, k.pos, k.err, false, sc).Ok? && f.ty == TypeAt(s, k.pos, k.err, false, sc).value
  {
    hide Well, FieldsWell, FieldKeyAt, TypeAt, After, HashFind, Stream.At;
    var k := FieldKeyAt(s, i, e, acc);
    if k.Ok? {
      var t := TypeAt(s, k.pos, k.err, false, sc);
      if t.Ok? {
        JustSet(acc, k.value, FieldType(t.value, s.Kind(i) != QUESTION, After(s.At(k.pos - 1), s.At(t.pos - 1))));
      }
    }
  }

  lemma JustSet(fs: Fields, k: Literal, f: FieldType)
    ensures HasKey(HashSet(fs, k, f), k) && HashSet(fs, k, f)[HashFind(HashSet(fs, k, f), k)].value == f
  {
    HasKeyAfterSet(fs, k, f, k);
    var g, at := HashSet(fs, k, f), HashFind(fs, k);
    assert g[at].key == k && g[at].value == f;
    assert forall j :: 0 <= j < at ==> g[j].key != k;
    assert HashFind(g, k) == at;
  }
}
