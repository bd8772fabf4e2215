/** What the parser reads, told without it: which tokens write a type, with which source ranges. Whatever is accepted is
    written in the tokens that were read, from the first to the last. */
module Syntax {
  import opened Ast
  import opened Containers
  import opened Grammar
  import opened Printer
  import opened Tokens
  import opened WellFormed

  // ---- what is written -------------------------------------------------------------------------------

  // Everything below speaks of the tokens from number `i` up to, but without, number `j`.
  function Width(i: nat, j: nat): nat {
    if i < j then j - i else 0
  }

  // The range from the first of the tokens to the last.
  predicate Spans(s: Stream, i: nat, j: nat, loc: Location) {
    i < j && loc == Spanning(s.At(i), s.At(j - 1))
  }

  predicate IsPath(s: Stream, i: nat, j: nat, path: seq<string>, kind: NameKind, name: string)
    decreases |path|
  {
    if path == [] then j == i + 1 && NamesA(s.Kind(i), kind) && s.At(i).text == name
    else
      && s.Kind(i) == UIDENT && s.At(i).text == path[0] && s.Kind(i + 1) == COLON2 && s.Touching(i) && s.Touching(i + 1)
      && IsPath(s, i + 2, j, path[1..], kind, name)
  }

  predicate IsName(s: Stream, i: nat, j: nat, n: TypeName) {
    if n.absolute then s.Kind(i) == COLON2 && s.Touching(i) && IsPath(s, i + 1, j, n.path, n.kind, n.name)
    else IsPath(s, i, j, n.path, n.kind, n.name)
  }

  // A `?` after a proc belongs to its return type, unless that has one already.
  predicate CanTakeMark(s: Stream, i: nat, j: nat, t: Type) {
    s.Kind(i) == HAT && t.Proc? ==> j > 0 && s.Kind(j - 1) == QUESTION && t.fn.ret.OptionalType?
  }

  // A type as it may stand alone (level 0), between two `|` (1) or between two `&` (2).
  ghost predicate IsType(s: Stream, sc: Scope, i: nat, j: nat, t: Type, level: nat)
    requires level <= 2
    decreases Width(i, j), 9 - 2 * level, 0
  {
    || (level == 0 && t.Union? && |t.types| > 1 && Spans(s, i, j, t.loc) && IsJoined(s, sc, i, j, t.types, BAR, 1))
    || (level <= 1 && t.Intersection? && |t.types| > 1 && Spans(s, i, j, t.loc) && IsJoined(s, sc, i, j, t.types, AMP, 2))
    || (t.OptionalType? && Spans(s, i, j, t.loc) && s.Kind(j - 1) == QUESTION && CanTakeMark(s, i, j - 1, t.inner)
        && IsSimple(s, sc, i, j - 1, t.inner))
    || IsSimple(s, sc, i, j, t)
  }

  // Types with tokens of kind `k` in between.
  ghost predicate IsJoined(s: Stream, sc: Scope, i: nat, j: nat, ts: seq<Type>, k: TokenKind, level: nat)
    requires level <= 2
    decreases Width(i, j), 10 - 2 * level, 0
  {
    && ts != []
    && if |ts| == 1 then IsType(s, sc, i, j, ts[0], level)
       else exists m: nat :: i < m < j && IsType(s, sc, i, m, ts[0], level) && s.Kind(m) == k && IsJoined(s, sc, m + 1, j, ts[1..], k, level)
  }

  // A type in parentheses is the type itself, with its own range.
  ghost predicate IsSimple(s: Stream, sc: Scope, i: nat, j: nat, t: Type)
    decreases Width(i, j), 4, 0
  {
    || (i + 1 < j && s.Kind(i) == LPAREN && s.Kind(j - 1) == RPAREN && IsType(s, sc, i + 1, j - 1, t, 0))
    || (Spans(s, i, j, t.loc) && IsAtom(s, sc, i, j, t))
  }

  ghost predicate IsAtom(s: Stream, sc: Scope, i: nat, j: nat, t: Type)
    requires i < j
    decreases Width(i, j), 3, 0
  {
    match t
    case Base(b, _) => j == i + 1 && s.Kind(i) == KeywordOf(b)
    case Variable(x, _) => j == i + 1 && s.Kind(i) == UIDENT && s.At(i).text == x
    case LiteralType(l, _) => j == i + 1 && i < |s.toks| && LiteralOf(s.toks[i]) == Some(l)
    case Application(n, args, _, nameLoc, argsLoc) =>
      exists m: nat :: i < m <= j && IsName(s, i, m, n) && Spans(s, i, m, nameLoc)
                         && IsArgs(s, Scope(sc.vars, true, true), m, j, args, argsLoc)
    case Singleton(n, args, _, nameLoc, argsLoc) =>
      && s.Kind(i) == KW_SINGLETON && s.Kind(i + 1) == LPAREN
      && exists m: nat :: i + 2 < m < j && IsName(s, i + 2, m, n) && Spans(s, i + 2, m, nameLoc) && s.Kind(m) == RPAREN
                          && IsArgs(s, sc, m + 1, j, args, argsLoc)
    case Tuple(ts, _) =>
      || (ts == [] && j == i + 1 && s.Kind(i) == AREF_OPR)
      || (i + 1 < j && s.Kind(i) == LBRACKET && s.Kind(j - 1) == RBRACKET
          && if ts == [] then j == i + 2 else IsList(s, sc, i + 1, j - 1, ts))
    case Record(fs, _) =>
      && i + 1 < j && s.Kind(i) == LBRACE && s.Kind(j - 1) == RBRACE
      && if j == i + 2 then fs == [] else IsFields(s, sc, i + 1, j - 1, [], fs)
    case Proc(f, b, self, loc) => s.Kind(i) == HAT && f.loc == loc && IsFunction(s, sc, i + 1, j, f, b, self)
    case _ => false
  }

  // One or more types with commas between them and perhaps one at the end.
  ghost predicate IsList(s: Stream, sc: Scope, i: nat, j: nat, ts: seq<Type>)
    decreases Width(i, j), 11, 0
  {
    IsJoined(s, sc, i, j, ts, COMMA, 0) || (i < j && s.Kind(j - 1) == COMMA && IsJoined(s, sc, i, j - 1, ts, COMMA, 0))
  }

  ghost predicate IsArgs(s: Stream, sc: Scope, i: nat, j: nat, args: seq<Type>, loc: Location)
    decreases Width(i, j), 2, 0
  {
    if args == [] then i == j && loc == NULL_LOCATION
    else
      && i + 1 < j && s.Kind(i) == LBRACKET && s.Kind(j - 1) == RBRACKET && Spans(s, i, j, loc)
      && IsList(s, sc, i + 1, j - 1, args)
  }

  // A word and the colon that touches it, perhaps with a `?` in between that belongs to the word.
  predicate IsWordKey(s: Stream, i: nat, j: nat, key: string) {
    && IsWordLike(s.Kind(i)) && s.Touching(i)
    && (|| (j == i + 2 && s.Kind(i + 1) == COLON && key == s.At(i).text)
        || (j == i + 3 && s.Kind(i + 1) == QUESTION && s.Touching(i + 1) && s.Kind(i + 2) == COLON && key == s.At(i).text + "?"))
  }

  predicate IsKey(s: Stream, i: nat, j: nat, k: Literal) {
    || (k.SymbolLit? && IsWordKey(s, i, j, k.sym))
    || (j == i + 2 && i < |s.toks| && LiteralOf(s.toks[i]) == Some(k) && s.Kind(i + 1) == FAT_ARROW)
  }

  // A field; its range begins where its key ends.
  ghost predicate IsField(s: Stream, sc: Scope, i: nat, j: nat, k: Literal, f: FieldType)
    decreases Width(i, j), 11, 0
  {
    && f.required == (s.Kind(i) != QUESTION)
    && exists m: nat :: i < m < j && IsKey(s, if f.required then i else i + 1, m, k)
                        && f.loc == After(s.At(m - 1), s.At(j - 1)) && IsType(s, sc, m, j, f.ty, 0) && Well(f.ty, false, sc)
  }

  // Fields with commas between them and perhaps one at the end, entered one after another into the table `acc`.
  ghost predicate IsFields(s: Stream, sc: Scope, i: nat, j: nat, acc: Fields, fs: Fields)
    decreases Width(i, j), 12, 0
  {
    exists m: nat, k: Literal, f: FieldType ::
      && i < m <= j && IsField(s, sc, i, m, k, f)
      && var more := HashSet(acc, k, f);
         || (fs == more && (m == j || (m + 1 == j && s.Kind(m) == COMMA)))
         || (m < j && s.Kind(m) == COMMA && IsFields(s, sc, m + 1, j, more, fs))
  }

  ghost predicate IsParam(s: Stream, sc: Scope, i: nat, j: nat, p: Param)
    decreases Width(i, j), 11, 0
  {
    && Spans(s, i, j, p.loc) && Well(p.ty, false, sc)
    && if p.name.None? then p.nameLoc == NULL_LOCATION && IsType(s, sc, i, j, p.ty, 0)
       else
         && IsWordLike(s.Kind(j - 1)) && s.At(j - 1).unquoted == p.name.value && p.nameLoc == LocOf(s.At(j - 1))
         && IsType(s, sc, i, j - 1, p.ty, 0)
  }

  // One parameter of section `q`: required (0), optional (1), rest (2), required after those (3) or keyword (4); and what
  // it makes of the parameters before it.
  ghost predicate IsItem(s: Stream, sc: Scope, i: nat, j: nat, q: nat, p: MethodParams, r: MethodParams)
    decreases Width(i, j), 12, 0
  {
    if q == 0 then exists x: Param :: IsParam(s, sc, i, j, x) && r == p.(required := p.required + [x])
    else if q == 1 then
      i < j && s.Kind(i) == QUESTION && exists x: Param :: IsParam(s, sc, i + 1, j, x) && r == p.(optional := p.optional + [x])
    else if q == 2 then
      i < j && s.Kind(i) == STAR && exists x: Param :: IsParam(s, sc, i + 1, j, x) && r == p.(rest := Some(x))
    else if q == 3 then
      && (p.optional != [] || p.rest.Some?)
      && exists x: Param :: IsParam(s, sc, i, j, x) && r == p.(trailing := p.trailing + [x])
    else IsKeywordItem(s, sc, i, j, p, r)
  }

  // A keyword is new to both tables.
  ghost predicate IsKeywordItem(s: Stream, sc: Scope, i: nat, j: nat, p: MethodParams, r: MethodParams)
    decreases Width(i, j), 11, 1
  {
    if s.Kind(i) == STAR2 then i < j && exists x: Param :: IsParam(s, sc, i + 1, j, x) && r == p.(restKw := Some(x))
    else
      exists m: nat, key: string, x: Param ::
        && i < m < j && IsWordKey(s, if s.Kind(i) == QUESTION then i + 1 else i, m, key)
        && !HasKey(p.requiredKw, key) && !HasKey(p.optionalKw, key) && IsParam(s, sc, m, j, x)
        && r == if s.Kind(i) == QUESTION then p.(optionalKw := p.optionalKw + [Entry(key, x)])
                else p.(requiredKw := p.requiredKw + [Entry(key, x)])
  }

  predicate LastNamed(p: MethodParams) {
    p.optionalKw != [] && p.optionalKw[|p.optionalKw| - 1].value.name.Some?
  }

  // Parameters from section `q` on, in the order of the sections, with commas between them and perhaps one at the end;
  // `...` after required parameters only, and at the end. The comma may be missing after an optional keyword that comes
  // right after the required and the optional parameters, if its parameter has a name.
  ghost predicate IsParams(s: Stream, sc: Scope, i: nat, j: nat, q: nat, p: MethodParams, r: MethodParams)
    decreases Width(i, j), 13, 0
  {
    || (i == j && r == p)
    || (q == 0 && j == i + 1 && s.Kind(i) == DOT3 && r == p.(forwarding := Some(LocOf(s.At(i)))))
    || exists m: nat, n: nat, more: MethodParams ::
         && i < m <= j && q <= n <= 4 && IsItem(s, sc, i, m, n, p, more)
         && (|| (m == j && r == more)
             || (m < j && s.Kind(m) == COMMA && IsParams(s, sc, m + 1, j, if n == 2 then 3 else n, more, r))
             || (q <= 1 && n == 4 && s.Kind(i) == QUESTION && LastNamed(more) && IsParams(s, sc, m, j, 4, more, r)))
  }

  // `(?)`, the parameters in parentheses, or nothing at all.
  ghost predicate IsParens(s: Stream, sc: Scope, i: nat, j: nat, ps: ParamList)
    decreases Width(i, j), 1, 0
  {
    if ps.Untyped? then j == i + 3 && s.Kind(i) == LPAREN && s.Kind(i + 1) == QUESTION && s.Kind(i + 2) == RPAREN
    else if i == j then ps.params == NO_PARAMS
    else i + 1 < j && s.Kind(i) == LPAREN && s.Kind(j - 1) == RPAREN && IsParams(s, sc, i + 1, j - 1, 0, NO_PARAMS, ps.params)
  }

  function ListOf(f: Function): ParamList {
    if f.UntypedFn? then Untyped else Typed(f.params)
  }

  ghost predicate IsBinding(s: Stream, sc: Scope, i: nat, j: nat, self: Option<Type>)
    decreases Width(i, j), 1, 0
  {
    if self.None? then i == j
    else
      && i + 3 < j && s.Kind(i) == LBRACKET && s.Kind(i + 1) == KW_SELF && s.Kind(i + 2) == COLON && s.Kind(j - 1) == RBRACKET
      && IsType(s, sc, i + 3, j - 1, self.value, 0)
  }

  ghost predicate IsBlock(s: Stream, sc: Scope, i: nat, j: nat, b: Option<Block>)
    decreases Width(i, j), 1, 0
  {
    if b.None? then i == j
    else
      var n := if b.value.required then i else i + 1;
      && n + 1 < j && b.value.required == (s.Kind(i) != QUESTION) && s.Kind(n) == LBRACE && s.Kind(j - 1) == RBRACE
      && Spans(s, i, j, b.value.loc) && b.value.fn.loc == b.value.loc
      && IsFunction(s, sc, n + 1, j - 1, b.value.fn, None, b.value.selfType)
  }

  // Parameters, self binding, block and, after an arrow, the return type.
  ghost predicate IsFunction(s: Stream, sc: Scope, i: nat, j: nat, f: Function, b: Option<Block>, self: Option<Type>)
    decreases Width(i, j), 3, 0
  {
    exists m: nat :: i <= m < j && IsParens(s, sc, i, m, ListOf(f)) && IsSignature(s, sc, m, j, f.ret, b, self)
  }

  ghost predicate IsSignature(s: Stream, sc: Scope, i: nat, j: nat, ret: Type, b: Option<Block>, self: Option<Type>)
    decreases Width(i, j), 2, 0
  {
    exists m: nat, n: nat :: i <= m <= n < j && IsBinding(s, sc, i, m, self) && IsBlock(s, sc, m, n, b) && IsReturn(s, sc, n, j, ret)
  }

  ghost predicate IsReturn(s: Stream, sc: Scope, i: nat, j: nat, t: Type)
    decreases Width(i, j), 1, 0
  {
    i < j && s.Kind(i) == ARROW && IsType(s, sc, i + 1, j, t, 2)
  }

  // ---- names -----------------------------------------------------------------------------------------

  lemma {:induction false} PathWritten(s: Stream, c: nat, kind: NameKind)
    requires KindOfName(s.Kind(PathEnd(s, c))) == Some(kind)
    ensures IsPath(s, c, PathEnd(s, c) + 1, PathNames(s, c), kind, s.At(PathEnd(s, c)).text)
    decreases s.Left(c)
  {
    if s.Kind(c) == UIDENT && s.Kind(c + 1) == COLON2 && s.Touching(c) && s.Touching(c + 1) {
      PathWritten(s, c + 2, kind);
      assert PathNames(s, c)[1..] == PathNames(s, c + 2);
    }
  }

  lemma NameWritten(s: Stream, c: nat, e: Errors, kinds: set<NameKind>)
    ensures var r := TypeNameAt(s, c, e, kinds); r.Ok? ==> IsName(s, c, r.pos, r.value)
  {
    hide PathEnd, PathNames, IsPath, KindOfName;
    var first := if s.Kind(c) == COLON2 then c + 1 else c;
    var r := TypeNameAt(s, c, e, kinds);
    if r.Ok? {
      PathWritten(s, first, r.value.kind);
    }
  }

  // ---- types -----------------------------------------------------------------------------------------

  lemma LowerLevel(s: Stream, sc: Scope, i: nat, j: nat, t: Type, level: nat)
    requires 0 < level <= 2 && IsType(s, sc, i, j, t, level)
    ensures IsType(s, sc, i, j, t, level - 1)
  {
    hide IsJoined, IsSimple, Spans;
  }

  lemma SimpleIsType(s: Stream, sc: Scope, i: nat, j: nat, t: Type)
    requires IsSimple(s, sc, i, j, t)
    ensures IsType(s, sc, i, j, t, 2)
  {
    hide IsSimple;
  }

  lemma OneJoined(s: Stream, sc: Scope, i: nat, j: nat, t: Type, k: TokenKind, level: nat)
    requires level <= 2 && IsType(s, sc, i, j, t, level)
    ensures IsJoined(s, sc, i, j, [t], k, level)
  {
    hide IsType;
  }

  lemma MoreJoined(s: Stream, sc: Scope, i: nat, m: nat, j: nat, t: Type, ts: seq<Type>, k: TokenKind, level: nat)
    requires level <= 2 && i < m < j && IsType(s, sc, i, m, t, level) && s.Kind(m) == k && IsJoined(s, sc, m + 1, j, ts, k, level)
    ensures IsJoined(s, sc, i, j, [t] + ts, k, level)
  {
    hide IsType;
    assert ([t] + ts)[1..] == ts;
    assert ts != [];
  }

  lemma {:induction false} TypeWritten(s: Stream, i: nat, e: Errors, v: bool, sc: Scope)
    ensures var r := TypeAt(s, i, e, v, sc); r.Ok? ==> IsType(s, sc, i, r.pos, r.value, 0)
    decreases s.Left(i), 9
  {
    hide Kept, Well, MembersWell, FirstError, IsType, IntersectionAt, IsJoined;
    IntersectionWritten(s, i, e, v, sc);
    var r := IntersectionAt(s, i, e, v, sc);
    if r.Ok? {
      var us := UnionWritten(s, i, r.pos, r.err, v, sc, [r.value]);
      if TypeAt(s, i, e, v, sc).Ok? {
        MembersWritten(s, sc, i, r.pos, r.value, us, BAR, TypeAt(s, i, e, v, sc).pos);
      }
    }
  }

  // A first type, and others after tokens of kind `k`.
  lemma MembersWritten(s: Stream, sc: Scope, i: nat, m: nat, t: Type, us: seq<Type>, k: TokenKind, j: nat)
    requires k == BAR || k == AMP
    requires i < m && IsType(s, sc, i, m, t, if k == BAR then 1 else 2)
    requires if us == [] then j == m else s.Kind(m) == k && m < j && IsJoined(s, sc, m + 1, j, us, k, if k == BAR then 1 else 2)
    ensures var loc := Spanning(s.At(i), s.At(j - 1));
            && (k == BAR ==> IsType(s, sc, i, j, if us == [] then t else Union([t] + us, loc), 0))
            && (k == AMP ==> IsType(s, sc, i, j, if us == [] then t else Intersection([t] + us, loc), 1))
  {
    var level := if k == BAR then 1 else 2;
    if us == [] {
      LowerLevel(s, sc, i, j, t, level);
    } else {
      hide IsJoined, IsSimple;
      MoreJoined(s, sc, i, m, j, t, us, k, level);
    }
  }

  lemma {:induction false} UnionWritten(s: Stream, i: nat, j: nat, e: Errors, v: bool, sc: Scope, acc: seq<Type>)
    returns (us: seq<Type>)
    requires i < j <= |s.toks| && acc != []
    ensures var r := UnionRest(s, i, j, e, v, sc, acc);
            r.Ok? ==>
              && r.value == (if |acc + us| > 1 then Union(acc + us, Spanning(s.At(i), s.At(r.pos - 1))) else acc[0])
              && if us == [] then r.pos == j else s.Kind(j) == BAR && j < r.pos && IsJoined(s, sc, j + 1, r.pos, us, BAR, 1)
    decreases s.Left(j), 8
  {
    hide Kept, Well, MembersWell, FirstError, IsType, IntersectionAt, IsJoined, Spanning;
    us := [];
    if s.Kind(j) != BAR {
      assert acc + us == acc;
    } else if !(v && IsVoid(acc[0])) {
      IntersectionWritten(s, j + 1, e, false, sc);
      var r := IntersectionAt(s, j + 1, e, false, sc);
      if r.Ok? {
        var more := UnionWritten(s, i, r.pos, r.err, v, sc, acc + [r.value]);
        us := [r.value] + more;
        assert acc + us == acc + [r.value] + more;
        if UnionRest(s, i, j, e, v, sc, acc).Ok? {
          if more == [] {
            assert us == [r.value];
            OneJoined(s, sc, j + 1, r.pos, r.value, BAR, 1);
          } else {
            MoreJoined(s, sc, j + 1, r.pos, UnionRest(s, i, j, e, v, sc, acc).pos, r.value, more, BAR, 1);
          }
        }
      }
    }
  }

  lemma {:induction false} IntersectionWritten(s: Stream, i: nat, e: Errors, v: bool, sc: Scope)
    ensures var r := IntersectionAt(s, i, e, v, sc); r.Ok? ==> IsType(s, sc, i, r.pos, r.value, 1)
    decreases s.Left(i), 7
  {
    hide Kept, Well, MembersWell, FirstError, IsType, OptionalAt, IsJoined;
    OptionalWritten(s, i, e, v, sc);
    var r := OptionalAt(s, i, e, v, sc);
    if r.Ok? {
      var us := IntersectedWritten(s, i, r.pos, r.err, v, sc, [r.value]);
      if IntersectionAt(s, i, e, v, sc).Ok? {
        MembersWritten(s, sc, i, r.pos, r.value, us, AMP, IntersectionAt(s, i, e, v, sc).pos);
      }
    }
  }

  lemma {:induction false} IntersectedWritten(s: Stream, i: nat, j: nat, e: Errors, v: bool, sc: Scope, acc: seq<Type>)
    returns (us: seq<Type>)
    requires i < j <= |s.toks| && acc != []
    ensures var r := IntersectionRest(s, i, j, e, v, sc, acc);
            r.Ok? ==>
              && r.value == (if |acc + us| > 1 then Intersection(acc + us, Spanning(s.At(i), s.At(r.pos - 1))) else acc[0])
              && if us == [] then r.pos == j else s.Kind(j) == AMP && j < r.pos && IsJoined(s, sc, j + 1, r.pos, us, AMP, 2)
    decreases s.Left(j), 6
  {
    hide Kept, Well, MembersWell, FirstError, IsType, OptionalAt, IsJoined, Spanning;
    us := [];
    if s.Kind(j) != AMP {
      assert acc + us == acc;
    } else if !(v && IsVoid(acc[0])) {
      OptionalWritten(s, j + 1, e, false, sc);
      var r := OptionalAt(s, j + 1, e, false, sc);
      if r.Ok? {
        var more := IntersectedWritten(s, i, r.pos, r.err, v, sc, acc + [r.value]);
        us := [r.value] + more;
        assert acc + us == acc + [r.value] + more;
        if IntersectionRest(s, i, j, e, v, sc, acc).Ok? {
          if more == [] {
            assert us == [r.value];
            OneJoined(s, sc, j + 1, r.pos, r.value, AMP, 2);
          } else {
            MoreJoined(s, sc, j + 1, r.pos, IntersectionRest(s, i, j, e, v, sc, acc).pos, r.value, more, AMP, 2);
          }
        }
      }
    }
  }

  lemma {:induction false} OptionalWritten(s: Stream, i: nat, e: Errors, v: bool, sc: Scope)
    ensures var r := OptionalAt(s, i, e, v, sc); r.Ok? ==> IsType(s, sc, i, r.pos, r.value, 2)
    decreases s.Left(i), 5
  {
    hide Kept, Well, FirstError, SimpleAt, IsSimple, IsJoined;
    SimpleWritten(s, i, e, v, sc);
    MarkTaken(s, i, e, v, sc);
  }

  // The return type of a proc takes the `?` after it.
  lemma MarkTaken(s: Stream, i: nat, e: Errors, v: bool, sc: Scope)
    ensures var r := SimpleAt(s, i, e, v, sc); r.Ok? && s.Kind(r.pos) == QUESTION ==> CanTakeMark(s, i, r.pos, r.value)
  {
    hide Kept, Well, AllWell, FirstError, TypeAt, ApplicationAt, SingletonAt, TupleAt, RecordAt, FunctionAt;
    if s.Kind(i) == HAT && i < |s.toks| {
      ReturnTakesMark(s, i + 1, e, sc);
    }
  }

  lemma ReturnTakesMark(s: Stream, i: nat, e: Errors, sc: Scope)
    requires i <= |s.toks|
    ensures var r := FunctionAt(s, i, e, sc, true, true, false);
            r.Ok? && s.Kind(r.pos) == QUESTION ==> s.Kind(r.pos - 1) == QUESTION && r.value.fn.ret.OptionalType?
  {
    hide Kept, Well, WellFn, WellBlock, WellParams, FirstError, ParenParamsAt, SelfBindingAt, BlockAt, SimpleAt, BlockFollows;
    var r := FunctionAt(s, i, e, sc, true, true, false);
    if r.Ok? {
      var ps := ParenParamsAt(s, i, e, sc, false);
      var self := SelfBindingAt(s, ps.pos, ps.err, sc);
      assert r == FunctionRest(s, i, self.pos, self.err, sc, true, ps.value, self.value);
      var block := BlockAt(s, self.pos, self.err, sc);
      assert r.pos == ReturnAt(s, block.pos, block.err, sc).pos;
    }
  }

  lemma AtomIsSimple(s: Stream, sc: Scope, i: nat, j: nat, t: Type)
    requires Spans(s, i, j, t.loc) && IsAtom(s, sc, i, j, t)
    ensures IsSimple(s, sc, i, j, t)
  {
    hide IsAtom;
  }

  lemma {:induction false} SimpleWritten(s: Stream, i: nat, e: Errors, v: bool, sc: Scope)
    ensures var r := SimpleAt(s, i, e, v, sc); r.Ok? ==> IsSimple(s, sc, i, r.pos, r.value)
    decreases s.Left(i), 4
  {
    hide Kept, Well, FirstError, TypeAt, ApplicationAt, SingletonAt, TupleAt, RecordAt, ProcAt, IsSimple, BaseOf, LiteralOf,
      KindOfName, BaseAllowed, Stream.At, Spans, IsAtom;
    var k := s.Kind(i);
    if k == LPAREN {
      TypeWritten(s, i + 1, e, v, sc);
      GroupWritten(s, i, e, v, sc);
    } else if BaseOf(k).Some? || (k != EOF && LiteralOf(s.At(i)).Some?) || (k == UIDENT && s.At(i).text in sc.vars) || k == AREF_OPR {
      TokenWritten(s, i, e, v, sc);
    } else if KindOfName(k).Some? || k == COLON2 {
      ApplicationWritten(s, i, e, sc);
    } else if k == KW_SINGLETON {
      SingletonWritten(s, i, e, sc);
    } else if k == LBRACKET {
      TupleWritten(s, i, e, sc);
    } else if k == LBRACE {
      RecordWritten(s, i, e, sc);
    } else if k == HAT {
      ProcWritten(s, i, e, sc);
    }
  }

  lemma GroupWritten(s: Stream, i: nat, e: Errors, v: bool, sc: Scope)
    requires s.Kind(i) == LPAREN
    requires var r := TypeAt(s, i + 1, e, v, sc); r.Ok? ==> IsType(s, sc, i + 1, r.pos, r.value, 0)
    ensures var r := SimpleAt(s, i, e, v, sc); r.Ok? ==> IsSimple(s, sc, i, r.pos, r.value)
  {
    hide Kept, Well, TypeAt, IsType, IsAtom;
  }

  // The types of one token.
  lemma TokenWritten(s: Stream, i: nat, e: Errors, v: bool, sc: Scope)
    requires var k := s.Kind(i);
             && k != LPAREN
             && (BaseOf(k).Some? || (k != EOF && LiteralOf(s.At(i)).Some?) || (k == UIDENT && s.At(i).text in sc.vars)
                 || k == AREF_OPR)
    ensures var r := SimpleAt(s, i, e, v, sc); r.Ok? ==> IsSimple(s, sc, i, r.pos, r.value)
  {
    hide Kept, Well, TypeAt, ApplicationAt, IsType, IsJoined, IsList, IsArgs, IsFields, IsFunction;
    OneToken(s, i);
  }

  lemma OneToken(s: Stream, i: nat)
    ensures Spans(s, i, i + 1, LocOf(s.At(i)))
  {}

  lemma {:induction false} ApplicationWritten(s: Stream, i: nat, e: Errors, sc: Scope)
    requires s.Kind(i) == UIDENT ==> s.At(i).text !in sc.vars
    ensures var r := ApplicationAt(s, i, e, sc); r.Ok? ==> IsSimple(s, sc, i, r.pos, r.value)
    decreases s.Left(i), 3
  {
    hide Kept, Well, AllWell, FirstError, TypeNameAt, TypeArgsAt, IsName, IsArgs, IsType, KindOfName;
    NameWritten(s, i, e, ANY_NAME);
    var n := TypeNameAt(s, i, e, ANY_NAME);
    if n.Ok? {
      ArgsWritten(s, n.pos, n.err, Scope(sc.vars, true, true));
    }
  }

  lemma {:induction false} SingletonWritten(s: Stream, i: nat, e: Errors, sc: Scope)
    requires s.Kind(i) == KW_SINGLETON
    ensures var r := SingletonAt(s, i, e, sc); r.Ok? ==> IsSimple(s, sc, i, r.pos, r.value)
    decreases s.Left(i), 3
  {
    hide Kept, Well, AllWell, FirstError, TypeNameAt, TypeArgsAt, IsName, IsArgs, IsType, KindOfName;
    NameWritten(s, i + 2, e, {ClassName});
    var n := TypeNameAt(s, i + 2, e, {ClassName});
    if n.Ok? && s.Kind(n.pos) == RPAREN {
      ArgsWritten(s, n.pos + 1, n.err, sc);
    }
  }

  lemma {:induction false} ArgsWritten(s: Stream, i: nat, e: Errors, sc: Scope)
    requires i <= |s.toks|
    ensures var r := TypeArgsAt(s, i, e, sc); r.Ok? ==> IsArgs(s, sc, i, r.pos, r.value.0, r.value.1)
    decreases s.Left(i), 2
  {
    hide Kept, Well, AllWell, FirstError, TypeListAt, IsList;
    if s.Kind(i) == LBRACKET {
      var us := ListWritten(s, i + 1, e, true, sc, []);
      assert [] + us == us;
    }
  }

  lemma ListIsOne(s: Stream, sc: Scope, i: nat, m: nat, j: nat, t: Type)
    requires i < m && IsType(s, sc, i, m, t, 0) && (j == m || (j == m + 1 && s.Kind(m) == COMMA))
    ensures IsList(s, sc, i, j, [t])
  {
    hide IsType, IsJoined;
    OneJoined(s, sc, i, m, t, COMMA, 0);
  }

  lemma ListIsMore(s: Stream, sc: Scope, i: nat, m: nat, j: nat, t: Type, us: seq<Type>)
    requires i < m && IsType(s, sc, i, m, t, 0) && s.Kind(m) == COMMA && m + 1 < j && IsList(s, sc, m + 1, j, us)
    ensures IsList(s, sc, i, j, [t] + us) && us != []
  {
    hide IsType;
    if IsJoined(s, sc, m + 1, j, us, COMMA, 0) {
      MoreJoined(s, sc, i, m, j, t, us, COMMA, 0);
    } else {
      JoinedIsSome(s, sc, m + 1, j - 1, us, COMMA);
      MoreJoined(s, sc, i, m, j - 1, t, us, COMMA, 0);
    }
  }

  lemma JoinedIsSome(s: Stream, sc: Scope, i: nat, j: nat, ts: seq<Type>, k: TokenKind)
    requires IsJoined(s, sc, i, j, ts, k, 0)
    ensures i < j && ts != []
  {
    if |ts| == 1 {
      TypeIsSome(s, sc, i, j, ts[0], 0);
    }
  }

  lemma TypeIsSome(s: Stream, sc: Scope, i: nat, j: nat, t: Type, level: nat)
    requires level <= 2 && IsType(s, sc, i, j, t, level)
    ensures i < j
  {
    hide IsJoined, IsAtom;
  }

  lemma {:induction false} ListWritten(s: Stream, i: nat, e: Errors, v: bool, sc: Scope, acc: seq<Type>)
    returns (us: seq<Type>)
    ensures var r := TypeListAt(s, i, e, v, sc, acc); r.Ok? ==> r.value == acc + us && us != [] && IsList(s, sc, i, r.pos, us)
    decreases s.Left(i), 10
  {
    hide Kept, Well, AllWell, FirstError, TypeAt, IsType, IsList;
    us := [];
    TypeWritten(s, i, e, v, sc);
    var r := TypeAt(s, i, e, v, sc);
    if r.Ok? {
      us := [r.value];
      if s.Kind(r.pos) != COMMA || s.Kind(r.pos + 1) == RBRACKET {
        ListIsOne(s, sc, i, r.pos, if s.Kind(r.pos) == COMMA then r.pos + 1 else r.pos, r.value);
      } else {
        var more := ListWritten(s, r.pos + 1, r.err, v, sc, acc + [r.value]);
        us := [r.value] + more;
        assert acc + us == acc + [r.value] + more;
        if TypeListAt(s, r.pos + 1, r.err, v, sc, acc + [r.value]).Ok? {
          ListIsMore(s, sc, i, r.pos, TypeListAt(s, r.pos + 1, r.err, v, sc, acc + [r.value]).pos, r.value, more);
        }
      }
    }
  }

  lemma {:induction false} TupleWritten(s: Stream, i: nat, e: Errors, sc: Scope)
    requires s.Kind(i) == LBRACKET
    ensures var r := TupleAt(s, i, e, sc); r.Ok? ==> IsSimple(s, sc, i, r.pos, r.value)
    decreases s.Left(i), 3
  {
    hide Kept, Well, AllWell, FirstError, TypeListAt, IsList, IsType;
    if s.Kind(i + 1) != RBRACKET {
      var us := ListWritten(s, i + 1, e, false, sc, []);
      assert [] + us == us;
    }
  }

  // ---- records ---------------------------------------------------------------------------------------

  lemma {:induction false} RecordWritten(s: Stream, i: nat, e: Errors, sc: Scope)
    requires s.Kind(i) == LBRACE
    ensures var r := RecordAt(s, i, e, sc); r.Ok? ==> IsSimple(s, sc, i, r.pos, r.value)
    decreases s.Left(i), 3
  {
    hide Kept, Well, FieldsWell, FirstError, FieldsAt, IsFields, IsType;
    if i < |s.toks| && s.Kind(i + 1) != RBRACE {
      FieldsWritten(s, i + 1, e, sc, []);
    }
  }

  lemma {:induction false} FieldsWritten(s: Stream, i: nat, e: Errors, sc: Scope, acc: Fields)
    ensures var r := FieldsAt(s, i, e, sc, acc); r.Ok? ==> IsFields(s, sc, i, r.pos, acc, r.value)
    decreases s.Left(i), 11
  {
    hide Kept, Well, FieldsWell, FirstError, FieldAt, IsField, HashSet;
    var k, f := FieldWritten(s, i, e, sc, acc);
    var r := FieldAt(s, i, e, sc, acc);
    if r.Ok? && s.Kind(r.pos) == COMMA && s.Kind(r.pos + 1) != RBRACE {
      FieldsWritten(s, r.pos + 1, r.err, sc, r.value);
    }
  }

  lemma KeyWritten(s: Stream, i: nat, e: Errors, acc: Fields)
    ensures var r := FieldKeyAt(s, i, e, acc);
            r.Ok? ==> IsKey(s, if s.Kind(i) == QUESTION then i + 1 else i, r.pos, r.value)
  {
    hide HasKey, FirstError, LiteralOf;
  }

  lemma {:induction false} FieldWritten(s: Stream, i: nat, e: Errors, sc: Scope, acc: Fields)
    returns (k: Literal, f: FieldType)
    ensures var r := FieldAt(s, i, e, sc, acc); r.Ok? ==> r.value == HashSet(acc, k, f) && IsField(s, sc, i, r.pos, k, f)
    decreases s.Left(i), 10
  {
    hide Kept, Well, FieldsWell, FirstError, FieldKeyAt, TypeAt, IsKey, IsType, HashSet;
    k, f := BoolLit(true), FieldType(Tuple([], NULL_LOCATION), true, NULL_LOCATION);
    KeyWritten(s, i, e, acc);
    var key := FieldKeyAt(s, i, e, acc);
    if key.Ok? {
      TypeWritten(s, key.pos, key.err, false, sc);
      var r := TypeAt(s, key.pos, key.err, false, sc);
      if r.Ok? {
        k := key.value;
        f := FieldType(r.value, s.Kind(i) != QUESTION, After(s.At(key.pos - 1), s.At(r.pos - 1)));
      }
    }
  }

  // ---- parameters ------------------------------------------------------------------------------------

  lemma {:induction false} ParamWritten(s: Stream, i: nat, e: Errors, sc: Scope)
    ensures var r := ParamAt(s, i, e, sc);
            r.Ok? ==>
              IsParam(s, sc, i, r.pos, r.value) && (r.value.name.Some? || s.Kind(r.pos) == COMMA || s.Kind(r.pos) == RPAREN)
    decreases s.Left(i), 10
  {
    hide Kept, Well, FirstError, TypeAt, IsType, IsKeywordToken, IsWordLike;
    TypeWritten(s, i, e, false, sc);
    var r := TypeAt(s, i, e, false, sc);
    if r.Ok? {
      WordsTaken(s.Kind(r.pos));
    }
  }

  lemma WordsTaken(k: TokenKind)
    ensures IsKeywordToken(k) <==> IsWordLike(k)
  {}

  // A parameter read, and more after it, in this section or a later one.
  lemma ParamsMore(s: Stream, sc: Scope, i: nat, m: nat, j: nat, q: nat, n: nat, p: MethodParams, more: MethodParams, r: MethodParams)
    requires i < m && q <= n <= 4 && IsItem(s, sc, i, m, n, p, more)
    requires s.Kind(m) == COMMA && m < j && IsParams(s, sc, m + 1, j, if n == 2 then 3 else n, more, r)
    ensures IsParams(s, sc, i, j, q, p, r)
  {
    hide IsItem;
  }

  lemma ParamsLast(s: Stream, sc: Scope, i: nat, j: nat, q: nat, n: nat, p: MethodParams, r: MethodParams)
    requires i < j && q <= n <= 4 && IsItem(s, sc, i, j, n, p, r)
    ensures IsParams(s, sc, i, j, q, p, r)
  {
    hide IsItem;
  }

  lemma ParamsUnparted(s: Stream, sc: Scope, i: nat, m: nat, j: nat, q: nat, p: MethodParams, more: MethodParams, r: MethodParams)
    requires i < m <= j && q <= 1 && IsItem(s, sc, i, m, 4, p, more) && s.Kind(i) == QUESTION && LastNamed(more)
    requires IsParams(s, sc, m, j, 4, more, r)
    ensures IsParams(s, sc, i, j, q, p, r)
  {
    hide IsItem;
  }

  // What goes on in a later section could have gone on in an earlier one.
  lemma ParamsLater(s: Stream, sc: Scope, i: nat, j: nat, q: nat, n: nat, p: MethodParams, r: MethodParams)
    requires q <= n && IsParams(s, sc, i, j, n, p, r)
    ensures IsParams(s, sc, i, j, q, p, r)
  {
    hide IsItem;
    if !(i == j && r == p) && !(n == 0 && j == i + 1) {
      var m: nat, l: nat, more: MethodParams :|
        && i < m <= j && n <= l <= 4 && IsItem(s, sc, i, m, l, p, more)
        && (|| (m == j && r == more)
            || (m < j && s.Kind(m) == COMMA && IsParams(s, sc, m + 1, j, if l == 2 then 3 else l, more, r))
            || (n <= 1 && l == 4 && s.Kind(i) == QUESTION && LastNamed(more) && IsParams(s, sc, m, j, 4, more, r)));
    }
  }

  lemma ParamsNone(s: Stream, sc: Scope, i: nat, q: nat, p: MethodParams)
    ensures IsParams(s, sc, i, i, q, p, p)
  {}

  function Number(q: Section): nat {
    match q
    case RequiredParams => 0
    case OptionalParams => 1
    case RestParam => 2
    case TrailingParams => 3
    case Keywords => 4
  }

  lemma {:induction false} SectionWritten(s: Stream, i: nat, e: Errors, sc: Scope, fwd: bool, q: Section, p: MethodParams)
    requires i <= |s.toks| && Reached(q, p, s.Kind(i))
    ensures var r := SectionAt(s, i, e, sc, fwd, q, p); r.Ok? ==> IsParams(s, sc, i, r.pos, Number(q), p, r.value)
    decreases s.Left(i), 14, 2 * SectionRank(q) + 1
  {
    hide Kept, Well, WellParams, FirstError, Reached, RequiredAt, OptionalParamAt, RestAt, TrailingAt, KeywordsAt, IsParams;
    match q
    case RequiredParams => RequiredWritten(s, i, e, sc, fwd, p);
    case OptionalParams => OptionalParamWritten(s, i, e, sc, fwd, p);
    case RestParam => RestWritten(s, i, e, sc, fwd, p);
    case TrailingParams => TrailingWritten(s, i, e, sc, fwd, p);
    case Keywords => KeywordsWritten(s, i, e, sc, fwd, p);
  }

  // After a parameter that has been read.
  lemma {:induction false} ContinueWritten(s: Stream, i: nat, m: nat, e: Errors, sc: Scope, fwd: bool, n: nat, q: Section,
                                           p: MethodParams, more: MethodParams)
    requires i < m <= |s.toks| && n <= 4 && Number(q) == (if n == 2 then 3 else n) && IsItem(s, sc, i, m, n, p, more)
    requires Reached(q, more, EOF)
    ensures var r := Continue(s, m, e, sc, fwd, q, more); r.Ok? ==> IsParams(s, sc, i, r.pos, n, p, r.value)
    decreases s.Left(m), 19
  {
    hide Kept, Well, WellParams, FirstError, SectionAt, IsItem, IsParams;
    var r := Continue(s, m, e, sc, fwd, q, more);
    if s.Kind(m) == COMMA {
      SectionWritten(s, m + 1, e, sc, fwd, q, more);
      if r.Ok? {
        ParamsMore(s, sc, i, m, r.pos, n, n, p, more, r.value);
      }
    } else {
      ParamsLast(s, sc, i, m, n, n, p, more);
    }
  }

  // To a later section at the same token.
  lemma {:induction false} GoTo(s: Stream, i: nat, e: Errors, sc: Scope, fwd: bool, q: Section, to: Section, p: MethodParams)
    requires i <= |s.toks| && Reached(to, p, s.Kind(i)) && SectionRank(to) < SectionRank(q)
    ensures var r := SectionAt(s, i, e, sc, fwd, to, p); r.Ok? ==> IsParams(s, sc, i, r.pos, Number(q), p, r.value)
    decreases s.Left(i), 14, 2 * SectionRank(q), 0
  {
    hide Kept, Well, WellParams, FirstError, Reached, SectionAt, IsParams;
    SectionWritten(s, i, e, sc, fwd, to, p);
    var r := SectionAt(s, i, e, sc, fwd, to, p);
    if r.Ok? {
      ParamsLater(s, sc, i, r.pos, Number(q), Number(to), p, r.value);
    }
  }

  lemma WordIsNoMark(s: Stream, i: nat)
    requires IsKeyword(s, i)
    ensures s.Kind(i) != QUESTION && s.Kind(i) != STAR && s.Kind(i) != STAR2
  {}

  lemma {:induction false} RequiredWritten(s: Stream, i: nat, e: Errors, sc: Scope, fwd: bool, p: MethodParams)
    requires i <= |s.toks| && Reached(RequiredParams, p, s.Kind(i))
    ensures var r := RequiredAt(s, i, e, sc, fwd, p); r.Ok? ==> IsParams(s, sc, i, r.pos, 0, p, r.value)
    decreases s.Left(i), 14, 2 * SectionRank(RequiredParams), 1
  {
    hide Kept, Well, WellParams, FirstError, SectionAt, Continue, ParamAt, IsParam, IsKeyword;
    var k := s.Kind(i);
    if k == QUESTION {
      GoTo(s, i, e, sc, fwd, RequiredParams, OptionalParams, p);
    } else if k == STAR {
      GoTo(s, i, e, sc, fwd, RequiredParams, RestParam, p);
    } else if k == STAR2 {
      GoTo(s, i, e, sc, fwd, RequiredParams, Section.Keywords, p);
    } else if k == RPAREN || k == DOT3 {
    } else if IsKeyword(s, i) {
      GoTo(s, i, e, sc, fwd, RequiredParams, Section.Keywords, p);
    } else {
      ParamWritten(s, i, e, sc);
      var r := ParamAt(s, i, e, sc);
      if r.Ok? {
        ContinueWritten(s, i, r.pos, r.err, sc, fwd, 0, RequiredParams, p, p.(required := p.required + [r.value]));
      }
    }
  }

  lemma {:induction false} OptionalParamWritten(s: Stream, i: nat, e: Errors, sc: Scope, fwd: bool, p: MethodParams)
    requires i <= |s.toks| && Reached(OptionalParams, p, s.Kind(i))
    ensures var r := OptionalParamAt(s, i, e, sc, fwd, p); r.Ok? ==> IsParams(s, sc, i, r.pos, 1, p, r.value)
    decreases s.Left(i), 14, 2 * SectionRank(OptionalParams), 1
  {
    hide Kept, Well, WellParams, FirstError, SectionAt, Continue, ParamAt, KeywordAt, IsParam, IsParams, IsKeyword;
    if s.Kind(i) != QUESTION {
      GoTo(s, i, e, sc, fwd, OptionalParams, RestParam, p);
    } else if IsKeyword(s, i + 1) {
      KeywordWritten(s, i, e, sc, p);
      var k := KeywordAt(s, i + 1, e, sc, p, false);
      var r := OptionalParamAt(s, i, e, sc, fwd, p);
      if k.Ok? {
        KeywordReached(p, k.value);
        if s.Kind(k.pos) == COMMA {
          SectionWritten(s, k.pos + 1, k.err, sc, fwd, Section.Keywords, k.value);
          if r.Ok? {
            ParamsMore(s, sc, i, k.pos, r.pos, 1, 4, p, k.value, r.value);
          }
        } else if s.Kind(k.pos) == RPAREN {
          NothingFollows(s, k.pos, k.err, sc, fwd, k.value);
          ParamsLast(s, sc, i, k.pos, 1, 4, p, k.value);
        } else {
          SectionWritten(s, k.pos, k.err, sc, fwd, Section.Keywords, k.value);
          if r.Ok? {
            ParamsUnparted(s, sc, i, k.pos, r.pos, 1, p, k.value, r.value);
          }
        }
      }
    } else {
      ParamWritten(s, i + 1, e, sc);
      var r := ParamAt(s, i + 1, e, sc);
      if r.Ok? {
        ContinueWritten(s, i, r.pos, r.err, sc, fwd, 1, OptionalParams, p, p.(optional := p.optional + [r.value]));
      }
    }
  }

  lemma NothingFollows(s: Stream, i: nat, e: Errors, sc: Scope, fwd: bool, p: MethodParams)
    requires i <= |s.toks| && s.Kind(i) == RPAREN
    ensures SectionAt(s, i, e, sc, fwd, Section.Keywords, p) == Ok(p, i, e)
  {
    hide Well, WellParam, WellParams;
    assert SectionAt(s, i, e, sc, fwd, Section.Keywords, p) == KeywordsAt(s, i, e, sc, fwd, p);
  }

  lemma KeywordReached(p: MethodParams, r: MethodParams)
    requires p.forwarding.None? && r.forwarding == p.forwarding
    ensures forall k :: Reached(Section.Keywords, r, k)
  {}

  lemma {:induction false} RestWritten(s: Stream, i: nat, e: Errors, sc: Scope, fwd: bool, p: MethodParams)
    requires i <= |s.toks| && Reached(RestParam, p, s.Kind(i))
    ensures var r := RestAt(s, i, e, sc, fwd, p); r.Ok? ==> IsParams(s, sc, i, r.pos, 2, p, r.value)
    decreases s.Left(i), 14, 2 * SectionRank(RestParam), 1
  {
    hide Kept, Well, WellParams, FirstError, SectionAt, Continue, ParamAt, IsParam, IsParams;
    if s.Kind(i) != STAR {
      GoTo(s, i, e, sc, fwd, RestParam, TrailingParams, p);
    } else {
      ParamWritten(s, i + 1, e, sc);
      var r := ParamAt(s, i + 1, e, sc);
      if r.Ok? {
        ContinueWritten(s, i, r.pos, r.err, sc, fwd, 2, TrailingParams, p, p.(rest := Some(r.value)));
      }
    }
  }

  lemma {:induction false} TrailingWritten(s: Stream, i: nat, e: Errors, sc: Scope, fwd: bool, p: MethodParams)
    requires i <= |s.toks| && Reached(TrailingParams, p, s.Kind(i))
    ensures var r := TrailingAt(s, i, e, sc, fwd, p); r.Ok? ==> IsParams(s, sc, i, r.pos, 3, p, r.value)
    decreases s.Left(i), 14, 2 * SectionRank(TrailingParams), 1
  {
    hide Kept, Well, WellParams, FirstError, SectionAt, Continue, ParamAt, IsParam, IsParams, IsKeyword;
    var k := s.Kind(i);
    if k == STAR || k == RPAREN {
      ParamsNone(s, sc, i, 3, p);
    } else if k == QUESTION || k == STAR2 || IsKeyword(s, i) {
      GoTo(s, i, e, sc, fwd, TrailingParams, Section.Keywords, p);
    } else {
      ParamWritten(s, i, e, sc);
      var r := ParamAt(s, i, e, sc);
      if r.Ok? {
        ContinueWritten(s, i, r.pos, r.err, sc, fwd, 3, TrailingParams, p, p.(trailing := p.trailing + [r.value]));
      }
    }
  }

  lemma {:induction false} KeywordsWritten(s: Stream, i: nat, e: Errors, sc: Scope, fwd: bool, p: MethodParams)
    requires i <= |s.toks| && Reached(Section.Keywords, p, s.Kind(i))
    ensures var r := KeywordsAt(s, i, e, sc, fwd, p); r.Ok? ==> IsParams(s, sc, i, r.pos, 4, p, r.value)
    decreases s.Left(i), 14, 2 * SectionRank(Section.Keywords), 1
  {
    hide Kept, Well, WellParams, FirstError, SectionAt, Continue, ParamAt, KeywordAt, IsParam, IsParams, IsKeywordToken;
    var j := if s.Kind(i) == QUESTION then i + 1 else i;
    if s.Kind(i) == STAR2 {
      ParamWritten(s, i + 1, e, sc);
      var r := ParamAt(s, i + 1, e, sc);
      if r.Ok? {
        ContinueWritten(s, i, r.pos, r.err, sc, fwd, 4, Section.Keywords, p, p.(restKw := Some(r.value)));
      }
    } else if s.Kind(i) == QUESTION || IsKeywordToken(s.Kind(i)) {
      if IsKeyword(s, j) {
        KeywordWritten(s, i, e, sc, p);
        var r := KeywordAt(s, j, e, sc, p, s.Kind(i) != QUESTION);
        if r.Ok? {
          ContinueWritten(s, i, r.pos, r.err, sc, fwd, 4, Section.Keywords, p, r.value);
        }
      }
    } else {
      ParamsNone(s, sc, i, 4, p);
    }
  }

  lemma {:induction false} KeywordWritten(s: Stream, i: nat, e: Errors, sc: Scope, p: MethodParams)
    requires s.Kind(i) != STAR2 && IsKeyword(s, if s.Kind(i) == QUESTION then i + 1 else i)
    ensures var r := KeywordAt(s, if s.Kind(i) == QUESTION then i + 1 else i, e, sc, p, s.Kind(i) != QUESTION);
            r.Ok? ==>
              && IsItem(s, sc, i, r.pos, 4, p, r.value) && r.value.forwarding == p.forwarding
              && (s.Kind(i) == QUESTION ==> LastNamed(r.value) || s.Kind(r.pos) == COMMA || s.Kind(r.pos) == RPAREN)
    decreases s.Left(if s.Kind(i) == QUESTION then i + 1 else i), 12
  {
    hide Kept, Well, WellParams, FirstError, ParamAt, IsParam, HasKey, IsKeywordToken, IsWordLike;
    var n := if s.Kind(i) == QUESTION then i + 1 else i;
    var k := KeyAt(s, n);
    WordsTaken(s.Kind(n));
    if !HasKey(p.requiredKw, k.0) && !HasKey(p.optionalKw, k.0) {
      ParamWritten(s, k.1 + 1, e, sc);
    }
  }

  // ---- functions -------------------------------------------------------------------------------------

  lemma {:induction false} ParensWritten(s: Stream, i: nat, e: Errors, sc: Scope, fwd: bool)
    requires i <= |s.toks|
    ensures var r := ParenParamsAt(s, i, e, sc, fwd);
            r.Ok? ==> IsParens(s, sc, i, r.pos, r.value)
    decreases s.Left(i), 20
  {
    hide Kept, Well, WellParams, FirstError, SectionAt, IsParams;
    if s.Kind(i) == LPAREN {
      if s.Kind(i + 1) == RPAREN {
        ParamsNone(s, sc, i + 1, 0, NO_PARAMS);
      } else if !(s.Kind(i + 1) == QUESTION && s.Kind(i + 2) == RPAREN) {
        SectionWritten(s, i + 1, e, sc, fwd, RequiredParams, NO_PARAMS);
      }
    }
  }

  lemma {:induction false} BindingWritten(s: Stream, i: nat, e: Errors, sc: Scope)
    requires i <= |s.toks|
    ensures var r := SelfBindingAt(s, i, e, sc); r.Ok? ==> IsBinding(s, sc, i, r.pos, r.value)
    decreases s.Left(i), 20
  {
    hide Kept, Well, FirstError, TypeAt, IsType;
    if s.Kind(i) == LBRACKET {
      TypeWritten(s, i + 3, e, false, sc);
    }
  }

  lemma {:induction false} ReturnWritten(s: Stream, i: nat, e: Errors, sc: Scope)
    ensures var r := ReturnAt(s, i, e, sc); r.Ok? ==> IsReturn(s, sc, i, r.pos, r.value)
    decreases s.Left(i), 20
  {
    hide Kept, Well, FirstError, OptionalAt, IsType;
    if s.Kind(i) == ARROW {
      OptionalWritten(s, i + 1, e, true, sc);
    }
  }

  lemma NoBlockWritten(s: Stream, sc: Scope, i: nat)
    ensures IsBlock(s, sc, i, i, None)
  {}

  lemma NoBindingWritten(s: Stream, sc: Scope, i: nat)
    ensures IsBinding(s, sc, i, i, None)
  {}

  lemma {:induction false} BlockWritten(s: Stream, i: nat, e: Errors, sc: Scope)
    requires i <= |s.toks|
    ensures var r := BlockAt(s, i, e, sc); r.Ok? ==> IsBlock(s, sc, i, r.pos, r.value)
    decreases s.Left(i), 20
  {
    hide Kept, Well, WellFn, WellBlock, WellParams, FirstError, ParenParamsAt, SelfBindingAt, ReturnAt, IsParens, IsBinding,
      IsReturn, IsFunction, MakeFunction, ListOf;
    if BlockFollows(s, i) {
      var b := if s.Kind(i) == QUESTION then i + 1 else i;
      ParensWritten(s, b + 1, e, sc, false);
      var ps := ParenParamsAt(s, b + 1, e, sc, false);
      if ps.Ok? {
        BindingWritten(s, ps.pos, ps.err, sc);
        var self := SelfBindingAt(s, ps.pos, ps.err, sc);
        if self.Ok? {
          ReturnWritten(s, self.pos, self.err, sc);
          NoBlockWritten(s, sc, self.pos);
          var ret := ReturnAt(s, self.pos, self.err, sc);
          if ret.Ok? && s.Kind(ret.pos) == RBRACE {
            var f := MakeFunction(ps.value, ret.value, Spanning(s.At(i), s.At(ret.pos)));
            Made(ps.value, ret.value, Spanning(s.At(i), s.At(ret.pos)));
            SignatureWritten(s, sc, b + 1, ps.pos, self.pos, self.pos, ret.pos, f, None, self.value);
          }
        }
      }
    } else {
      NoBlockWritten(s, sc, i);
    }
  }

  lemma Made(ps: ParamList, ret: Type, loc: Location)
    ensures var f := MakeFunction(ps, ret, loc); ListOf(f) == ps && f.ret == ret && f.loc == loc
  {}

  lemma SignatureWritten(s: Stream, sc: Scope, i: nat, k: nat, m: nat, n: nat, j: nat, f: Function, b: Option<Block>, self: Option<Type>)
    requires i <= k <= m <= n < j
    requires IsParens(s, sc, i, k, ListOf(f)) && IsBinding(s, sc, k, m, self) && IsBlock(s, sc, m, n, b) && IsReturn(s, sc, n, j, f.ret)
    ensures IsFunction(s, sc, i, j, f, b, self)
  {
    hide IsParens, IsBinding, IsBlock, IsReturn;
    assert IsSignature(s, sc, k, j, f.ret, b, self);
  }

  lemma {:induction false} FunctionWritten(s: Stream, i: nat, e: Errors, sc: Scope, binding: bool, blocks: bool, fwd: bool)
    requires i <= |s.toks|
    ensures var r := FunctionAt(s, i, e, sc, binding, blocks, fwd);
            r.Ok? ==>
              && IsFunction(s, sc, i, r.pos, r.value.fn, r.value.block, r.value.selfType)
              && r.value.fn.loc == Spanning(s.Current(i), s.At(r.pos - 1))
    decreases s.Left(i), 22
  {
    hide Kept, Well, WellFn, WellBlock, WellParams, WellResult, FirstError, ParenParamsAt, SelfBindingAt, FunctionRest, IsParens,
      IsBinding, IsFunction, BlockFollows, MakeFunction;
    ParensWritten(s, i, e, sc, fwd);
    var ps := ParenParamsAt(s, i, e, sc, fwd);
    if ps.Ok? {
      NoBindingWritten(s, sc, ps.pos);
      if binding {
        BindingWritten(s, ps.pos, ps.err, sc);
      }
      var self := if binding then SelfBindingAt(s, ps.pos, ps.err, sc) else Ok(None, ps.pos, ps.err);
      if self.Ok? && FunctionRest(s, i, self.pos, self.err, sc, blocks, ps.value, self.value).Ok? {
        FunctionRestWritten(s, i, ps.pos, self.pos, self.err, sc, blocks, ps.value, self.value);
      }
    }
  }

  lemma {:induction false} FunctionRestWritten(s: Stream, i: nat, k: nat, m: nat, e: Errors, sc: Scope, blocks: bool,
                                               ps: ParamList, self: Option<Type>)
    requires i <= k <= m <= |s.toks| && IsBinding(s, sc, k, m, self)
    requires IsParens(s, sc, i, k, ps)
    ensures var r := FunctionRest(s, i, m, e, sc, blocks, ps, self);
            r.Ok? ==>
              && IsFunction(s, sc, i, r.pos, r.value.fn, r.value.block, self) && r.value.selfType == self
              && r.value.fn.loc == Spanning(s.Current(i), s.At(r.pos - 1))
    decreases s.Left(i), 21
  {
    hide Kept, Well, WellFn, WellBlock, WellParams, WellResult, FirstError, BlockAt, ReturnAt, IsParens, IsBinding, IsBlock,
      IsReturn, IsFunction, BlockFollows, MakeFunction, ListOf, Spanning;
    BlockWritten(s, m, e, sc);
    var block := BlockAt(s, m, e, sc);
    if block.Ok? {
      ReturnWritten(s, block.pos, block.err, sc);
      var ret := ReturnAt(s, block.pos, block.err, sc);
      if ret.Ok? {
        var f := MakeFunction(ps, ret.value, Spanning(s.Current(i), s.At(ret.pos - 1)));
        Made(ps, ret.value, Spanning(s.Current(i), s.At(ret.pos - 1)));
        SignatureWritten(s, sc, i, k, m, block.pos, ret.pos, f, block.value, self);
      }
    }
  }

  lemma {:induction false} ProcWritten(s: Stream, i: nat, e: Errors, sc: Scope)
    requires s.Kind(i) == HAT
    ensures var r := ProcAt(s, i, e, sc); r.Ok? ==> IsSimple(s, sc, i, r.pos, r.value)
    decreases s.Left(i), 3
  {
    hide Kept, Well, WellFn, WellBlock, FirstError, FunctionAt, IsFunction, IsType;
    if i < |s.toks| {
      FunctionWritten(s, i + 1, e, sc, true, true, false);
    }
  }

  // ---- main result -----------------------------------------------------------------------------------

  // Whatever is accepted as a type is written in the tokens that have been read, with every range in the tree.
  lemma AcceptedTypesAreWritten(s: Stream, i: nat, e: Errors, v: bool, sc: Scope)
    ensures var r := TypeAt(s, i, e, v, sc); r.Ok? ==> IsType(s, sc, i, r.pos, r.value, 0)
  {
    TypeWritten(s, i, e, v, sc);
  }
}
