/** Every type can be spelled: tokens for what Printer writes with the parentheses a type needs, so that what RoundTrip
    says of the streams that spell a type is said of some stream for every well-formed type. */
module Rendering {
  import opened Ast
  import opened Containers
  import opened Grammar
  import opened Printer
  import opened RoundTrip
  import opened Tokens
  import opened Trees
  import opened WellFormed

  // There is a token for every lexeme of the text, and none of them is an end-of-file token; where there is a choice, of
  // the second text.
  ghost predicate Inked(x: Text)
    decreases x
  {
    match x
    case End => true
    case More(h, t) => HasToken(h.body) && Inked(t)
    case Either(_, y) => Inked(y)
  }

  predicate HasToken(b: Body) {
    b != Mark(EOF) && (b.QuotedMark? ==> Quotable(b.quoted)) && !b.Spelled? && !b.MethodMark? && !b.NoteMark? && !b.Placed?
  }

  lemma {:induction false} TypeInked(t: Type, level: nat, rest: Text)
    requires Inked(rest)
    ensures Inked(TypeText(t, level, true, rest))
    decreases t, 1
  {
    BareInked(t, if level > 0 && (t.Union? || t.Intersection?) then Put(RPAREN, rest) else rest);
  }

  lemma {:induction false} BareInked(t: Type, rest: Text)
    requires Inked(rest)
    ensures Inked(BareText(t, true, rest))
    decreases t, 0
  {
    match t
    case Base(_, _) =>
    case Variable(_, _) =>
    case LiteralType(_, _) =>
    case Application(n, args, _, _, _) =>
      ArgsInked(args, rest);
      NameInked(n, ArgsText(args, true, rest));
    case Singleton(n, args, _, _, _) =>
      ArgsInked(args, rest);
      NameInked(n, Put(RPAREN, ArgsText(args, true, rest)));
    case Tuple(ts, _) =>
      ListInked(ts, 0, Closed(RBRACKET, ts != [], rest));
    case Record(fs, _) =>
      FieldsInked(fs, 0, Closed(RBRACE, fs != [], rest));
    case OptionalType(u, _) =>
      TypeInked(u, 1, if Wrapped(u, true) then Put(RPAREN, Put(QUESTION, rest)) else Put(QUESTION, rest));
    case Union(ts, _) =>
      UnionInked(ts, 0, rest);
    case Intersection(ts, _) =>
      IntersectionInked(ts, 0, rest);
    case Proc(f, b, self, _) =>
      TypeInked(f.ret, 1, rest);
      var ret := Put(ARROW, TypeText(f.ret, 1, true, rest));
      BlockInked(b, ret);
      SelfInked(self, BlockText(b, true, ret));
      ParensInked(f, SelfText(self, true, BlockText(b, true, ret)));
  }

  lemma {:induction false} PathInked(n: TypeName, j: nat, glued: bool, rest: Text)
    requires Inked(rest)
    ensures Inked(PathText(n, j, glued, rest))
    decreases |n.path| - j
  {
    if j < |n.path| {
      PathInked(n, j + 1, true, rest);
    }
  }

  lemma {:induction false} NameInked(n: TypeName, rest: Text)
    requires Inked(rest)
    ensures Inked(NameText(n, rest))
  {
    PathInked(n, 0, n.absolute, rest);
  }

  lemma {:induction false} ArgsInked(args: seq<Type>, rest: Text)
    requires Inked(rest)
    ensures Inked(ArgsText(args, true, rest))
    decreases args, 1
  {
    ListInked(args, 0, Closed(RBRACKET, true, rest));
  }

  lemma {:induction false} ListInked(ts: seq<Type>, n: nat, rest: Text)
    requires Inked(rest)
    ensures Inked(ListText(ts, n, true, rest))
    decreases ts, 0, |ts| - n
  {
    if n < |ts| {
      ListInked(ts, n + 1, rest);
      TypeInked(ts[n], 0, if n + 1 < |ts| then Put(COMMA, ListText(ts, n + 1, true, rest)) else rest);
    }
  }

  lemma {:induction false} UnionInked(ts: seq<Type>, n: nat, rest: Text)
    requires Inked(rest)
    ensures Inked(UnionText(ts, n, true, rest))
    decreases ts, 0, |ts| - n
  {
    if n < |ts| {
      UnionInked(ts, n + 1, rest);
      TypeInked(ts[n], MemberLevel(ts[n], true),
                if n + 1 < |ts| then Put(BAR, UnionText(ts, n + 1, true, rest)) else rest);
    }
  }

  lemma {:induction false} IntersectionInked(ts: seq<Type>, n: nat, rest: Text)
    requires Inked(rest)
    ensures Inked(IntersectionText(ts, n, true, rest))
    decreases ts, 0, |ts| - n
  {
    if n < |ts| {
      IntersectionInked(ts, n + 1, rest);
      TypeInked(ts[n], 2, if n + 1 < |ts| then Put(AMP, IntersectionText(ts, n + 1, true, rest)) else rest);
    }
  }

  lemma {:induction false} FieldsInked(fs: Fields, n: nat, rest: Text)
    requires Inked(rest)
    ensures Inked(FieldsText(fs, n, true, rest))
    decreases fs, 0, |fs| - n
  {
    if n < |fs| {
      FieldsInked(fs, n + 1, rest);
      FieldInked(fs[n], if n + 1 < |fs| then Put(COMMA, FieldsText(fs, n + 1, true, rest)) else rest);
    }
  }

  lemma {:induction false} FieldInked(f: Entry<Literal, FieldType>, rest: Text)
    requires Inked(rest)
    ensures Inked(FieldText(f, true, rest))
    decreases f
  {
    FieldTypeInked(f.value, rest);
  }

  lemma {:induction false} FieldTypeInked(f: FieldType, rest: Text)
    requires Inked(rest)
    ensures Inked(FieldTypeText(f, true, rest))
    decreases f
  {
    TypeInked(f.ty, 0, rest);
  }

  lemma {:induction false} ParamInked(p: Param, rest: Text)
    requires Inked(rest)
    ensures Inked(ParamText(p, true, rest))
    decreases p
  {
    TypeInked(p.ty, 0, ParamNameText(p.name, true, rest));
  }

  lemma {:induction false} KeywordInked(k: Entry<string, Param>, rest: Text)
    requires Inked(rest)
    ensures Inked(KeywordText(k, true, rest))
    decreases k
  {
    ParamInked(k.value, rest);
  }

  lemma {:induction false} ParensInked(f: Function, rest: Text)
    requires Inked(rest)
    ensures Inked(ParensText(f, true, rest))
    decreases f, 1
  {
    ParamListInked(f, Closed(RPAREN, EndsInComma(f), rest));
  }

  lemma {:induction false} ParamListInked(f: Function, rest: Text)
    requires Inked(rest)
    ensures Inked(ParamListText(f, true, rest))
    decreases f, 0
  {
    if f.Fn? {
      SlotInked(f.params, RequiredSlot, 0, true, rest);
    }
  }

  lemma {:induction false} SlotInked(ps: MethodParams, q: Slot, n: nat, first: bool, rest: Text)
    requires Inked(rest)
    ensures Inked(SlotText(ps, q, n, first, true, rest))
    decreases ps, 1, SlotRank(q), SlotSize(ps, q) - n
  {
    if n < SlotSize(ps, q) {
      SlotInked(ps, q, n + 1, false, rest);
      ItemInked(ps, q, n, SlotText(ps, q, n + 1, false, true, rest));
    } else if q != RestKwSlot {
      SlotInked(ps, NextSlot(q), 0, first, rest);
    }
  }

  lemma {:induction false} ItemInked(ps: MethodParams, q: Slot, n: nat, next: Text)
    requires n < SlotSize(ps, q) && Inked(next)
    ensures Inked(ItemText(ps, q, n, true, next))
    decreases ps, 0
  {
    match q
    case RequiredSlot => ParamInked(ps.required[n], next);
    case ForwardingSlot =>
    case OptionalSlot => ParamInked(ps.optional[n], next);
    case RestSlot => ParamInked(ps.rest.value, next);
    case TrailingSlot => ParamInked(ps.trailing[n], next);
    case RequiredKwSlot => KeywordInked(ps.requiredKw[n], next);
    case OptionalKwSlot => KeywordInked(ps.optionalKw[n], next);
    case RestKwSlot => ParamInked(ps.restKw.value, next);
  }

  lemma {:induction false} SelfInked(self: Option<Type>, rest: Text)
    requires Inked(rest)
    ensures Inked(SelfText(self, true, rest))
    decreases self
  {
    if self.Some? {
      TypeInked(self.value, 0, Put(RBRACKET, rest));
    }
  }

  lemma {:induction false} BlockInked(b: Option<Block>, rest: Text)
    requires Inked(rest)
    ensures Inked(BlockText(b, true, rest))
    decreases b
  {
    if b.Some? {
      BlockBodyInked(b.value, rest);
    }
  }

  lemma {:induction false} BlockBodyInked(b: Block, rest: Text)
    requires Inked(rest)
    ensures Inked(BlockBodyText(b, true, rest))
    decreases b
  {
    TypeInked(b.fn.ret, 1, Put(RBRACE, rest));
    var ret := Put(ARROW, TypeText(b.fn.ret, 1, true, Put(RBRACE, rest)));
    SelfInked(b.selfType, ret);
    ParensInked(b.fn, SelfText(b.selfType, true, ret));
  }

  // ---- tokens ---------------------------------------------------------------------------------------

  function At(p: nat): Position {
    Position(p, p, 1, p)
  }

  function KindFor(b: Body): TokenKind {
    match b
    case Mark(k) => k
    case NameMark(k, _) => if k == ClassName then UIDENT else if k == InterfaceName then ULIDENT else LIDENT
    case KeyMark(_) => LIDENT
    case ParamMark(_) => LIDENT
    case WordMark(_) => LIDENT
    case QuotedMark(_) => QIDENT
    case LiteralMark(IntegerLit(_)) => INTEGER
    case LiteralMark(BoolLit(v)) => if v then KW_TRUE else KW_FALSE
    case LiteralMark(StringLit(_)) => DQ_STRING
    case LiteralMark(SymbolLit(_)) => DQ_SYMBOL
    case _ => OPERATOR
  }

  function TextFor(b: Body): string {
    match b
    case NameMark(_, n) => n
    case KeyMark(k) => k
    case ParamMark(n) => n
    case WordMark(w) => w
    case QuotedMark(n) => "`" + n + "`"
    case LiteralMark(IntegerLit(i)) => i
    case LiteralMark(StringLit(t)) => t
    case LiteralMark(SymbolLit(t)) => t
    case _ => ""
  }

  // A token for a lexeme; the width of every token is one, which says no more than that they are in order.
  function TokenFor(b: Body, p: nat): Token {
    var text := TextFor(b);
    Token(KindFor(b), text, if b.QuotedMark? then Unescaped(b.quoted) else text, At(p), At(p + 1))
  }

  // The tokens of a text after a token that ends at `p`; a space before each unless it is glued.
  function TokensFor(x: Text, p: nat): seq<Token>
    decreases x
  {
    if x.End? then []
    else if x.Either? then TokensFor(x.other, p)
    else
      var start := if x.head.glued then p else p + 1;
      [TokenFor(x.head.body, start)] + TokensFor(x.tail, start + 1)
  }

  ghost predicate FollowedBy(pre: seq<Token>, p: nat) {
    && pre != [] && pre[|pre| - 1].end == At(p)
    && (forall t <- pre :: t.kind != EOF && t.end.charPos <= p && t.end.bytePos <= p)
    && Ordered(Stream(pre, NULL_TOKEN))
  }

  lemma OneMoreToken(pre: seq<Token>, p: nat, b: Body, start: nat)
    requires FollowedBy(pre, p) && p <= start && HasToken(b)
    ensures FollowedBy(pre + [TokenFor(b, start)], start + 1)
  {
    var t := TokenFor(b, start);
    forall u <- pre + [t]
      ensures u.kind != EOF && u.end.charPos <= start + 1 && u.end.bytePos <= start + 1
    {
      assert u in pre || u == t;
    }
  }

  // The token for a lexeme fits it wherever it stands, as long as a glued one touches the token before.
  lemma TokenFits(s: Stream, i: nat, x: Lexeme, p: nat)
    requires 0 < i < |s.toks| && HasToken(x.body) && s.toks[i] == TokenFor(x.body, p)
    requires x.glued ==> s.toks[i - 1].end == At(p)
    ensures Fits(x, s, i)
  {}

  ghost predicate Sound(toks: seq<Token>, eof: Token) {
    Ordered(Stream(toks, eof)) && forall t <- toks :: t.kind != EOF
  }

  lemma {:induction false} TokensSpell(pre: seq<Token>, p: nat, x: Text, eof: Token)
    requires Inked(x) && FollowedBy(pre, p)
    ensures Spells(Stream(pre + TokensFor(x, p), eof), |pre|, x) && Sound(pre + TokensFor(x, p), eof)
    decreases x
  {
    hide FollowedBy, Sound, Fits, TokenFor, At;
    LastOf(pre, p, eof);
    if x.End? {
      assert pre + TokensFor(x, p) == pre;
    } else if x.Either? {
      TokensSpell(pre, p, x.other, eof);
    } else {
      var start := if x.head.glued then p else p + 1;
      var t := TokenFor(x.head.body, start);
      var later := TokensFor(x.tail, start + 1);
      OneMoreToken(pre, p, x.head.body, start);
      TokensSpell(pre + [t], start + 1, x.tail, eof);
      hide TokensFor;
      assert (pre + [t]) + later == pre + ([t] + later);
      TokenFits(Stream(pre + ([t] + later), eof), |pre|, x.head, start);
    }
  }

  lemma LastOf(pre: seq<Token>, p: nat, eof: Token)
    requires FollowedBy(pre, p)
    ensures pre != [] && pre[|pre| - 1].end == At(p) && Sound(pre, eof)
  {}

  // For every well-formed type there are tokens, in order and none of them an end-of-file token, that the parser
  // reads as this type: it is what stands between a pair of parentheses.
  lemma EveryWellFormedTypeIsRead(t: Type, v: bool, sc: Scope, eof: Token) returns (s: Stream)
    requires Well(t, v, sc)
    ensures Ordered(s) && s.eof == eof && forall t <- s.toks :: t.kind != EOF
    ensures var r := TypeAt(s, 1, None, v, sc);
            r.Ok? && Same(t, r.value) && r.err == None && r.pos == |s.toks| - 1 && s.Kind(r.pos) == RPAREN
  {
    hide Well, TypeText, TypeAt, Same, Ordered, Inked;
    var open := TokenFor(Mark(LPAREN), 0);
    var x := TypeText(t, 0, true, Put(RPAREN, End));
    JustOpened();
    TypeInked(t, 0, Put(RPAREN, End));
    TokensSpell([open], 1, x, eof);
    s := Stream([open] + TokensFor(x, 1), eof);
    WrittenTypesAreRead(s, 1, None, t, v, sc, Put(RPAREN, End));
  }

  lemma JustOpened()
    ensures FollowedBy([TokenFor(Mark(LPAREN), 0)], 1) && Inked(Put(RPAREN, End))
  {}

  // ---- what the parser accepts ----------------------------------------------------------------------

  // Locations have no say in whether a tree is well-formed.
  lemma {:induction false} SameIsWell(a: Type, b: Type, v: bool, sc: Scope)
    requires Same(a, b) && Well(b, v, sc)
    ensures Well(a, v, sc)
    decreases a
  {
    match a
    case Base(_, _) =>
    case Variable(_, _) =>
    case LiteralType(_, _) =>
    case Application(_, args, _, _, _) => AllSameAreWell(args, b.args, true, Scope(sc.vars, true, true));
    case Singleton(_, args, _, _, _) => AllSameAreWell(args, b.args, true, sc);
    case Tuple(ts, _) => AllSameAreWell(ts, b.types, false, sc);
    case Record(fs, _) => SameFieldsAreWell(fs, b.fields, sc);
    case OptionalType(u, _) => SameIsWell(u, b.inner, false, sc);
    case Union(ts, _) => AllSameAreWell(ts, b.types, false, sc);
    case Intersection(ts, _) => AllSameAreWell(ts, b.types, false, sc);
    case Proc(f, bl, self, _) =>
      SameFnIsWell(f, b.fn, sc);
      SameSelfIsWell(self, b.selfType, sc);
      if bl.Some? {
        SameBlockIsWell(bl.value, b.block.value, sc);
      }
  }

  lemma {:induction false} SameBlockIsWell(a: Block, b: Block, sc: Scope)
    requires SameFn(a.fn, b.fn) && SameOption(a.selfType, b.selfType) && WellBlock(b, sc)
    ensures WellBlock(a, sc)
    decreases a
  {
    SameFnIsWell(a.fn, b.fn, sc);
    SameSelfIsWell(a.selfType, b.selfType, sc);
  }

  lemma {:induction false} AllSameAreWell(ts: seq<Type>, us: seq<Type>, v: bool, sc: Scope)
    requires SameAll(ts, us) && AllWell(us, v, sc)
    ensures AllWell(ts, v, sc)
    decreases ts
  {
    forall t <- ts
      ensures Well(t, v, sc)
    {
      var i :| 0 <= i < |ts| && ts[i] == t;
      SameIsWell(ts[i], us[i], v, sc);
    }
  }

  lemma {:induction false} SameFieldsAreWell(fs: Fields, gs: Fields, sc: Scope)
    requires |fs| == |gs| && DistinctKeys(gs) && forall i | 0 <= i < |fs| :: SameField(fs[i], gs[i])
    requires forall g <- gs :: Well(g.value.ty, false, sc)
    ensures DistinctKeys(fs) && forall f <- fs :: Well(f.value.ty, false, sc)
    decreases fs
  {
    forall f <- fs
      ensures Well(f.value.ty, false, sc)
    {
      var i :| 0 <= i < |fs| && fs[i] == f;
      assert gs[i] in gs;
      SameFieldIsWell(fs[i], gs[i], sc);
    }
    forall i, j | 0 <= i < j < |fs|
      ensures fs[i].key != fs[j].key
    {
      assert SameField(fs[i], gs[i]) && SameField(fs[j], gs[j]);
    }
  }

  lemma {:induction false} SameFieldIsWell(f: Entry<Literal, FieldType>, g: Entry<Literal, FieldType>, sc: Scope)
    requires SameField(f, g) && Well(g.value.ty, false, sc)
    ensures Well(f.value.ty, false, sc)
    decreases f
  {
    SameFieldTypeIsWell(f.value, g.value.ty, sc);
  }

  lemma {:induction false} SameFieldTypeIsWell(f: FieldType, u: Type, sc: Scope)
    requires Same(f.ty, u) && Well(u, false, sc)
    ensures Well(f.ty, false, sc)
    decreases f
  {
    SameIsWell(f.ty, u, false, sc);
  }

  lemma {:induction false} SameSelfIsWell(a: Option<Type>, b: Option<Type>, sc: Scope)
    requires SameOption(a, b) && (b.Some? ==> Well(b.value, false, sc))
    ensures a.Some? ==> Well(a.value, false, sc)
    decreases a
  {
    if a.Some? {
      SameIsWell(a.value, b.value, false, sc);
    }
  }

  lemma {:induction false} SameParamIsWell(p: Param, q: Param, sc: Scope)
    requires SameParam(p, q) && WellParam(q, sc)
    ensures WellParam(p, sc)
    decreases p
  {
    SameIsWell(p.ty, q.ty, false, sc);
  }

  lemma {:induction false} SameParamsAreWell(ps: seq<Param>, qs: seq<Param>, sc: Scope)
    requires SameParams(ps, qs) && AllParamsWell(qs, sc)
    ensures AllParamsWell(ps, sc)
    decreases ps
  {
    forall p <- ps
      ensures WellParam(p, sc)
    {
      var i :| 0 <= i < |ps| && ps[i] == p;
      SameParamIsWell(ps[i], qs[i], sc);
    }
  }

  lemma {:induction false} SameSlotIsWell(p: Option<Param>, q: Option<Param>, sc: Scope)
    requires SameSlot(p, q) && (q.Some? ==> WellParam(q.value, sc))
    ensures p.Some? ==> WellParam(p.value, sc)
    decreases p
  {
    if p.Some? {
      SameParamIsWell(p.value, q.value, sc);
    }
  }

  lemma {:induction false} SameKeywordIsWell(k: Entry<string, Param>, l: Entry<string, Param>, sc: Scope)
    requires SameEntry(k, l) && WellKeyword(l, sc)
    ensures WellKeyword(k, sc)
    decreases k
  {
    SameParamIsWell(k.value, l.value, sc);
  }

  lemma {:induction false} SameKeywordsAreWell(ks: Keywords, ls: Keywords, sc: Scope)
    requires SameKeywords(ks, ls) && AllKeywordsWell(ls, sc)
    ensures AllKeywordsWell(ks, sc)
    decreases ks
  {
    forall k <- ks
      ensures WellKeyword(k, sc)
    {
      var i :| 0 <= i < |ks| && ks[i] == k;
      SameKeywordIsWell(ks[i], ls[i], sc);
    }
  }

  lemma SameKeywordNames(ks: Keywords, ls: Keywords, ms: Keywords, ns: Keywords)
    requires SameKeywords(ks, ls) && SameKeywords(ms, ns)
    ensures DistinctKeys(ls) ==> DistinctKeys(ks)
    ensures DisjointKeys(ls, ns) ==> DisjointKeys(ks, ms)
  {
    forall i | 0 <= i < |ks|
      ensures ks[i].key == ls[i].key
    {
      assert SameEntry(ks[i], ls[i]);
    }
    forall i | 0 <= i < |ms|
      ensures ms[i].key == ns[i].key
    {
      assert SameEntry(ms[i], ns[i]);
    }
  }

  lemma {:induction false} SameMethodParamsAreWell(ps: MethodParams, qs: MethodParams, sc: Scope)
    requires SameMethodParams(ps, qs) && WellParams(qs, sc)
    ensures WellParams(ps, sc)
    decreases ps
  {
    SameParamsAreWell(ps.required, qs.required, sc);
    SameParamsAreWell(ps.optional, qs.optional, sc);
    SameParamsAreWell(ps.trailing, qs.trailing, sc);
    SameKeywordsAreWell(ps.requiredKw, qs.requiredKw, sc);
    SameKeywordsAreWell(ps.optionalKw, qs.optionalKw, sc);
    SameSlotIsWell(ps.rest, qs.rest, sc);
    SameSlotIsWell(ps.restKw, qs.restKw, sc);
    SameKeywordNames(ps.requiredKw, qs.requiredKw, ps.optionalKw, qs.optionalKw);
    SameKeywordNames(ps.optionalKw, qs.optionalKw, ps.requiredKw, qs.requiredKw);
  }

  lemma {:induction false} SameFnIsWell(f: Function, g: Function, sc: Scope)
    requires SameFn(f, g) && WellFn(g, sc)
    ensures WellFn(f, sc)
    ensures f.Fn? ==> g.Fn? && f.params.forwarding.Some? == g.params.forwarding.Some?
    decreases f
  {
    SameIsWell(f.ret, g.ret, true, sc);
    if f.Fn? {
      SameMethodParamsAreWell(f.params, g.params, sc);
    }
  }

  // Some tokens, from some point on, are read as the tree.
  ghost predicate Parsed(t: Type, v: bool, sc: Scope) {
    exists s: Stream, i: nat, e: Errors :: ReadsAs(s, i, e, t, v, sc)
  }

  ghost predicate ReadsAs(s: Stream, i: nat, e: Errors, t: Type, v: bool, sc: Scope) {
    var r := TypeAt(s, i, e, v, sc);
    r.Ok? && Same(t, r.value)
  }

  // The trees that rbs_parse_type returns for some input, whatever the flags and the visible type variables, are
  // exactly the well-formed ones: everything it accepts keeps the rules, and nothing that keeps them is out of reach.
  lemma ParsedExactlyIfWellFormed(t: Type, v: bool, sc: Scope)
    ensures Parsed(t, v, sc) <==> Well(t, v, sc)
  {
    hide Well, Same, TypeAt, ReadsAs;
    if Well(t, v, sc) {
      var s := EveryWellFormedTypeIsRead(t, v, sc, NULL_TOKEN);
      ReadIt(s, 1, None, t, v, sc);
    }
    if Parsed(t, v, sc) {
      var s: Stream, i: nat, e: Errors :| ReadsAs(s, i, e, t, v, sc);
      ReadIsWell(s, i, e, t, v, sc);
    }
  }

  lemma ReadIt(s: Stream, i: nat, e: Errors, t: Type, v: bool, sc: Scope)
    requires TypeAt(s, i, e, v, sc).Ok? && Same(t, TypeAt(s, i, e, v, sc).value)
    ensures ReadsAs(s, i, e, t, v, sc)
  {
    hide TypeAt, Same, Well;
  }

  lemma ReadIsWell(s: Stream, i: nat, e: Errors, t: Type, v: bool, sc: Scope)
    requires ReadsAs(s, i, e, t, v, sc)
    ensures Well(t, v, sc)
  {
    hide TypeAt, Same, Well;
    SameIsWell(t, TypeAt(s, i, e, v, sc).value, v, sc);
  }
}
