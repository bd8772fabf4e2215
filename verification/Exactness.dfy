/** The parser accepts exactly what is written: every way in which tokens can write a well-formed type is taken, and
    nothing else. */
module Exactness {
  import opened Ast
  import opened Containers
  import opened Grammar
  import opened Printer
  import opened RoundTrip
  import opened Syntax
  import opened Tokens
  import opened WellFormed

  // The tree that has been read, and the token after it.
  ghost predicate Got<T>(r: Outcome<T>, x: T, j: nat) {
    r.Ok? && r.value == x && r.pos == j
  }

  // Token `j` goes on with no type read by rbs_parse_type (n = 0), parse_intersection (1), parse_optional (2) or
  // parse_simple (3).
  predicate Ends(s: Stream, j: nat, n: nat) {
    && s.Kind(j) != LBRACKET && !GluedColons(s, j)
    && (n <= 2 ==> s.Kind(j) != QUESTION) && (n <= 1 ==> s.Kind(j) != AMP) && (n == 0 ==> s.Kind(j) != BAR)
  }

  // ---- names -----------------------------------------------------------------------------------------

  lemma NamesKind(k: TokenKind, kind: NameKind)
    ensures NamesA(k, kind) <==> KindOfName(k) == Some(kind)
    ensures NamesA(k, kind) ==> k != COLON2 && k != EOF
  {}

  lemma {:induction false} PathTaken(s: Stream, i: nat, j: nat, path: seq<string>, kind: NameKind, name: string)
    requires IsPath(s, i, j, path, kind, name) && !GluedColons(s, j)
    ensures i < j && PathEnd(s, i) == j - 1 && PathNames(s, i) == path && NamesA(s.Kind(j - 1), kind) && s.At(j - 1).text == name
    ensures s.Kind(i) != COLON2
    decreases |path|
  {
    hide NamesA;
    if path == [] {
      NamesKind(s.Kind(i), kind);
    } else {
      PathTaken(s, i + 2, j, path[1..], kind, name);
      assert path == [path[0]] + path[1..];
    }
  }

  lemma NameTaken(s: Stream, i: nat, j: nat, e: Errors, n: TypeName, kinds: set<NameKind>)
    requires IsName(s, i, j, n) && !GluedColons(s, j) && n.kind in kinds
    ensures TypeNameAt(s, i, e, kinds) == Ok(n, j, e)
    ensures n.absolute <==> s.Kind(i) == COLON2
  {
    hide PathEnd, PathNames, KindOfName, NamesA;
    PathTaken(s, if n.absolute then i + 1 else i, j, n.path, n.kind, n.name);
    NamesKind(s.Kind(j - 1), n.kind);
  }

  // The first token of a name.
  lemma NameBegins(s: Stream, i: nat, j: nat, n: TypeName)
    requires IsName(s, i, j, n)
    ensures s.Kind(i) == COLON2 || KindOfName(s.Kind(i)).Some?
    ensures !n.absolute && s.Kind(i) == UIDENT ==>
              s.At(i).text == if n.path != [] then n.path[0] else n.name
    ensures !n.absolute && s.Kind(i) == UIDENT && n.path == [] ==> n.kind == ClassName
    ensures n.absolute ==> s.Kind(i) != UIDENT
  {
    hide KindOfName;
    if !n.absolute && n.path == [] {
      NamesKind(s.Kind(i), n.kind);
    } else if !n.absolute {
      NamesKind(s.Kind(i), ClassName);
    }
  }

  // ---- unions and intersections ----------------------------------------------------------------------

  // Two or more types with tokens in between: the first of them, and the others.
  lemma JoinedParts(s: Stream, sc: Scope, i: nat, j: nat, ts: seq<Type>, k: TokenKind, level: nat) returns (m: nat)
    requires level <= 2 && |ts| > 1 && IsJoined(s, sc, i, j, ts, k, level)
    ensures i < m < j && IsType(s, sc, i, m, ts[0], level) && s.Kind(m) == k && IsJoined(s, sc, m + 1, j, ts[1..], k, level)
  {
    m :| i < m < j && IsType(s, sc, i, m, ts[0], level) && s.Kind(m) == k && IsJoined(s, sc, m + 1, j, ts[1..], k, level);
  }

  lemma JoinedOne(s: Stream, sc: Scope, i: nat, j: nat, ts: seq<Type>, k: TokenKind, level: nat)
    requires level <= 2 && |ts| == 1 && IsJoined(s, sc, i, j, ts, k, level)
    ensures IsType(s, sc, i, j, ts[0], level) && ts == [ts[0]]
  {}

  // Only `void` depends on the flag.
  lemma Allowed(t: Type, v: bool, sc: Scope)
    requires Well(t, false, sc)
    ensures Well(t, v, sc) && !IsVoid(t)
  {}

  lemma MembersAllowed(t: Type, v: bool, sc: Scope)
    requires (t.Union? || t.Intersection?) && Well(t, v, sc)
    ensures AllWell(t.types, false, sc) && |t.types| > 1
  {}

  lemma OneAllowed(ts: seq<Type>, v: bool, sc: Scope)
    requires AllWell(ts, v, sc) && ts != []
    ensures Well(ts[0], v, sc) && AllWell(ts[1..], v, sc)
  {
    hide Well;
  }

  lemma UnionOrLess(s: Stream, sc: Scope, i: nat, j: nat, t: Type)
    requires IsType(s, sc, i, j, t, 0)
    ensures IsType(s, sc, i, j, t, 1) || (t.Union? && Spans(s, i, j, t.loc) && IsJoined(s, sc, i, j, t.types, BAR, 1))
  {
    hide IsJoined, IsSimple;
  }

  lemma IntersectionOrLess(s: Stream, sc: Scope, i: nat, j: nat, t: Type)
    requires IsType(s, sc, i, j, t, 1)
    ensures IsType(s, sc, i, j, t, 2) || (t.Intersection? && Spans(s, i, j, t.loc) && IsJoined(s, sc, i, j, t.types, AMP, 2))
  {
    hide IsJoined, IsSimple;
  }

  lemma {:induction false} TypeTaken(s: Stream, sc: Scope, i: nat, j: nat, e: Errors, t: Type, v: bool)
    requires IsType(s, sc, i, j, t, 0) && Well(t, v, sc) && Ends(s, j, 0)
    ensures Got(TypeAt(s, i, e, v, sc), t, j)
    decreases Width(i, j), 9
  {
    hide Well, AllWell, IsType, IsJoined, IntersectionAt, UnionRest, Kept;
    TypeIsSome(s, sc, i, j, t, 0);
    UnionOrLess(s, sc, i, j, t);
    if IsType(s, sc, i, j, t, 1) {
      IntersectionTaken(s, sc, i, j, e, t, v);
      var r := IntersectionAt(s, i, e, v, sc);
      UnionStop(s, i, j, r.err, v, sc, t);
    } else {
      MembersAllowed(t, v, sc);
      OneAllowed(t.types, false, sc);
      Allowed(t.types[0], v, sc);
      var m := JoinedParts(s, sc, i, j, t.types, BAR, 1);
      IntersectionTaken(s, sc, i, m, e, t.types[0], v);
      var r := IntersectionAt(s, i, e, v, sc);
      UnionTaken(s, sc, i, m, j, r.err, [t.types[0]], t.types[1..], v);
      assert [t.types[0]] + t.types[1..] == t.types;
    }
  }

  lemma {:induction false} UnionTaken(s: Stream, sc: Scope, i: nat, m: nat, j: nat, e: Errors, acc: seq<Type>, us: seq<Type>,
                                      v: bool)
    requires i < m <= |s.toks| && acc != [] && !IsVoid(acc[0]) && us != [] && AllWell(us, false, sc)
    requires s.Kind(m) == BAR && IsJoined(s, sc, m + 1, j, us, BAR, 1) && Ends(s, j, 0)
    ensures i < j && Got(UnionRest(s, i, m, e, v, sc, acc), Union(acc + us, Spanning(s.At(i), s.At(j - 1))), j)
    decreases Width(m + 1, j), 8
  {
    hide Well, AllWell, MembersWell, IsType, IsJoined, IntersectionAt, Kept, Spanning;
    OneAllowed(us, false, sc);
    assert acc + us == acc + [us[0]] + us[1..];
    if |us| == 1 {
      JoinedOne(s, sc, m + 1, j, us, BAR, 1);
      TypeIsSome(s, sc, m + 1, j, us[0], 1);
      IntersectionTaken(s, sc, m + 1, j, e, us[0], false);
      var r := IntersectionAt(s, m + 1, e, false, sc);
      var more := acc + [us[0]];
      assert more == acc + us;
      assert UnionRest(s, i, j, r.err, v, sc, more) == Ok(Union(more, Spanning(s.At(i), s.At(j - 1))), j, r.err);
    } else {
      var k := JoinedParts(s, sc, m + 1, j, us, BAR, 1);
      IntersectionTaken(s, sc, m + 1, k, e, us[0], false);
      var r := IntersectionAt(s, m + 1, e, false, sc);
      UnionTaken(s, sc, i, k, j, r.err, acc + [us[0]], us[1..], v);
    }
  }

  lemma {:induction false} IntersectionTaken(s: Stream, sc: Scope, i: nat, j: nat, e: Errors, t: Type, v: bool)
    requires IsType(s, sc, i, j, t, 1) && Well(t, v, sc) && Ends(s, j, 1)
    ensures Got(IntersectionAt(s, i, e, v, sc), t, j)
    decreases Width(i, j), 7
  {
    hide Well, AllWell, IsType, IsJoined, OptionalAt, IntersectionRest, Kept;
    TypeIsSome(s, sc, i, j, t, 1);
    IntersectionOrLess(s, sc, i, j, t);
    if IsType(s, sc, i, j, t, 2) {
      OptionalTaken(s, sc, i, j, e, t, v);
      var r := OptionalAt(s, i, e, v, sc);
      IntersectionStop(s, i, j, r.err, v, sc, t);
    } else {
      MembersAllowed(t, v, sc);
      OneAllowed(t.types, false, sc);
      Allowed(t.types[0], v, sc);
      var m := JoinedParts(s, sc, i, j, t.types, AMP, 2);
      OptionalTaken(s, sc, i, m, e, t.types[0], v);
      var r := OptionalAt(s, i, e, v, sc);
      IntersectedTaken(s, sc, i, m, j, r.err, [t.types[0]], t.types[1..], v);
      assert [t.types[0]] + t.types[1..] == t.types;
    }
  }

  lemma {:induction false} IntersectedTaken(s: Stream, sc: Scope, i: nat, m: nat, j: nat, e: Errors, acc: seq<Type>,
                                            us: seq<Type>, v: bool)
    requires i < m <= |s.toks| && acc != [] && !IsVoid(acc[0]) && us != [] && AllWell(us, false, sc)
    requires s.Kind(m) == AMP && IsJoined(s, sc, m + 1, j, us, AMP, 2) && Ends(s, j, 1)
    ensures i < j && Got(IntersectionRest(s, i, m, e, v, sc, acc), Intersection(acc + us, Spanning(s.At(i), s.At(j - 1))), j)
    decreases Width(m + 1, j), 6
  {
    hide Well, AllWell, MembersWell, IsType, IsJoined, OptionalAt, Kept, Spanning;
    OneAllowed(us, false, sc);
    assert acc + us == acc + [us[0]] + us[1..];
    if |us| == 1 {
      JoinedOne(s, sc, m + 1, j, us, AMP, 2);
      TypeIsSome(s, sc, m + 1, j, us[0], 2);
      OptionalTaken(s, sc, m + 1, j, e, us[0], false);
      var r := OptionalAt(s, m + 1, e, false, sc);
      var more := acc + [us[0]];
      assert more == acc + us;
      assert IntersectionRest(s, i, j, r.err, v, sc, more) == Ok(Intersection(more, Spanning(s.At(i), s.At(j - 1))), j, r.err);
    } else {
      var k := JoinedParts(s, sc, m + 1, j, us, AMP, 2);
      OptionalTaken(s, sc, m + 1, k, e, us[0], false);
      var r := OptionalAt(s, m + 1, e, false, sc);
      IntersectedTaken(s, sc, i, k, j, r.err, acc + [us[0]], us[1..], v);
    }
  }

  // ---- optionals -------------------------------------------------------------------------------------

  lemma OptionalOrLess(s: Stream, sc: Scope, i: nat, j: nat, t: Type)
    requires IsType(s, sc, i, j, t, 2)
    ensures || IsSimple(s, sc, i, j, t)
            || (t.OptionalType? && Spans(s, i, j, t.loc) && s.Kind(j - 1) == QUESTION && CanTakeMark(s, i, j - 1, t.inner)
                && IsSimple(s, sc, i, j - 1, t.inner))
  {
    hide IsSimple, CanTakeMark;
  }

  lemma SimpleIsSome(s: Stream, sc: Scope, i: nat, j: nat, t: Type)
    requires IsSimple(s, sc, i, j, t)
    ensures i < j && (t.OptionalType? ==> s.Kind(j - 1) == RPAREN)
  {
    hide IsType;
  }

  lemma InnerAllowed(t: Type, v: bool, sc: Scope)
    requires t.OptionalType? && Well(t, v, sc)
    ensures Well(t.inner, v, sc) && !IsVoid(t.inner)
  {}

  // A type with its `?` is complete whatever follows.
  lemma {:induction false} OptionalTaken(s: Stream, sc: Scope, i: nat, j: nat, e: Errors, t: Type, v: bool)
    requires IsType(s, sc, i, j, t, 2) && Well(t, v, sc)
    requires Ends(s, j, 2) || (t.OptionalType? && j > 0 && s.Kind(j - 1) == QUESTION)
    ensures Got(OptionalAt(s, i, e, v, sc), t, j)
    decreases Width(i, j), 5
  {
    hide Well, IsType, IsSimple, SimpleAt, Kept, CanTakeMark;
    OptionalOrLess(s, sc, i, j, t);
    if IsSimple(s, sc, i, j, t) {
      SimpleIsSome(s, sc, i, j, t);
      SimpleTaken(s, sc, i, j, e, t, v);
    } else {
      InnerAllowed(t, v, sc);
      SimpleTaken(s, sc, i, j - 1, e, t.inner, v);
    }
  }

  // ---- simple types ----------------------------------------------------------------------------------

  lemma {:induction false} SimpleTaken(s: Stream, sc: Scope, i: nat, j: nat, e: Errors, t: Type, v: bool)
    requires IsSimple(s, sc, i, j, t) && Well(t, v, sc) && Ends(s, j, 3)
    requires s.Kind(j) == QUESTION ==> CanTakeMark(s, i, j, t)
    ensures Got(SimpleAt(s, i, e, v, sc), t, j)
    decreases Width(i, j), 4
  {
    hide Well, IsType, IsAtom, SimpleAt, TypeAt, Kept, CanTakeMark, Spans;
    SimpleOrGroup(s, sc, i, j, t);
    if i + 1 < j && s.Kind(i) == LPAREN && s.Kind(j - 1) == RPAREN && IsType(s, sc, i + 1, j - 1, t, 0) {
      TypeTaken(s, sc, i + 1, j - 1, e, t, v);
      GroupTaken(s, i, e, v, sc);
    } else {
      AtomTaken(s, sc, i, j, e, t, v);
    }
  }

  lemma SimpleOrGroup(s: Stream, sc: Scope, i: nat, j: nat, t: Type)
    requires IsSimple(s, sc, i, j, t)
    ensures (i + 1 < j && s.Kind(i) == LPAREN && s.Kind(j - 1) == RPAREN && IsType(s, sc, i + 1, j - 1, t, 0))
            || (i < j && Spans(s, i, j, t.loc) && IsAtom(s, sc, i, j, t))
  {
    hide IsType, IsAtom;
  }

  lemma GroupTaken(s: Stream, i: nat, e: Errors, v: bool, sc: Scope)
    requires s.Kind(i) == LPAREN
    ensures var r := TypeAt(s, i + 1, e, v, sc);
            r.Ok? && s.Kind(r.pos) == RPAREN ==> SimpleAt(s, i, e, v, sc) == Ok(r.value, r.pos + 1, r.err)
  {
    hide Well, AllWell, TypeAt, Kept;
  }

  lemma {:induction false} AtomTaken(s: Stream, sc: Scope, i: nat, j: nat, e: Errors, t: Type, v: bool)
    requires i < j && Spans(s, i, j, t.loc) && IsAtom(s, sc, i, j, t) && Well(t, v, sc) && Ends(s, j, 3)
    requires s.Kind(j) == QUESTION ==> CanTakeMark(s, i, j, t)
    ensures Got(SimpleAt(s, i, e, v, sc), t, j)
    decreases Width(i, j), 3
  {
    hide Well, IsAtom, SimpleAt, Kept, Spans, Ends, CanTakeMark;
    match t
    case Base(_, _) => TokenTaken(s, sc, i, j, e, t, v);
    case Variable(_, _) => TokenTaken(s, sc, i, j, e, t, v);
    case LiteralType(_, _) => TokenTaken(s, sc, i, j, e, t, v);
    case Application(_, _, _, _, _) => ApplicationTaken(s, sc, i, j, e, t, v);
    case Singleton(_, _, _, _, _) => SingletonTaken(s, sc, i, j, e, t, v);
    case Tuple(_, _) => TupleTaken(s, sc, i, j, e, t, v);
    case Record(_, _) => RecordTaken(s, sc, i, j, e, t, v);
    case Proc(_, _, _, _) => ProcTaken(s, sc, i, j, e, t, v);
    case _ => NoAtom(s, sc, i, j, t);
  }

  lemma NoAtom(s: Stream, sc: Scope, i: nat, j: nat, t: Type)
    requires i < j && IsAtom(s, sc, i, j, t)
    ensures !t.OptionalType? && !t.Union? && !t.Intersection?
  {}

  lemma TokenTaken(s: Stream, sc: Scope, i: nat, j: nat, e: Errors, t: Type, v: bool)
    requires t.Base? || t.Variable? || t.LiteralType?
    requires i < j && Spans(s, i, j, t.loc) && IsAtom(s, sc, i, j, t) && Well(t, v, sc)
    ensures Got(SimpleAt(s, i, e, v, sc), t, j)
  {
    hide TypeAt, ApplicationAt, SingletonAt, TupleAt, RecordAt, ProcAt, Kept;
    if t.LiteralType? {
      LiteralTokens(s.toks[i]);
    }
  }

  lemma {:induction false} ApplicationTaken(s: Stream, sc: Scope, i: nat, j: nat, e: Errors, t: Type, v: bool)
    requires t.Application? && i < j && Spans(s, i, j, t.loc) && IsAtom(s, sc, i, j, t) && Well(t, v, sc) && Ends(s, j, 3)
    ensures Got(SimpleAt(s, i, e, v, sc), t, j)
    decreases Width(i, j), 2
  {
    hide Well, AllWell, SimpleAt, TypeNameAt, TypeArgsAt, IsName, IsArgs, KindOfName, Kept, NotShadowed;
    var inner := Scope(sc.vars, true, true);
    var m: nat :| i < m <= j && IsName(s, i, m, t.name) && Spans(s, i, m, t.nameLoc) && IsArgs(s, inner, m, j, t.args, t.argsLoc);
    ArgsBegin(s, inner, m, j, t.args, t.argsLoc);
    AnyKind(t.name.kind);
    NameTaken(s, i, m, e, t.name, ANY_NAME);
    ApplicationAllowed(t, v, sc);
    ArgsTaken(s, inner, m, j, e, t.args, t.argsLoc);
    NameBegins(s, i, m, t.name);
    NotVariable(s, i, t.name, sc);
    NameIsSimple(s, i, e, v, sc);
  }

  lemma AnyKind(k: NameKind)
    ensures k in ANY_NAME
  {}

  lemma ApplicationAllowed(t: Type, v: bool, sc: Scope)
    requires t.Application? && Well(t, v, sc)
    ensures AllWell(t.args, true, Scope(sc.vars, true, true)) && NotShadowed(t.name, sc.vars)
  {}

  lemma NotVariable(s: Stream, i: nat, n: TypeName, sc: Scope)
    requires NotShadowed(n, sc.vars)
    requires n.absolute ==> s.Kind(i) != UIDENT
    requires !n.absolute && s.Kind(i) == UIDENT ==>
               (s.At(i).text == if n.path != [] then n.path[0] else n.name) && (n.path == [] ==> n.kind == ClassName)
    ensures s.Kind(i) == UIDENT ==> s.At(i).text !in sc.vars
  {}

  lemma NameIsSimple(s: Stream, i: nat, e: Errors, v: bool, sc: Scope)
    requires (s.Kind(i) == COLON2 || KindOfName(s.Kind(i)).Some?) && (s.Kind(i) == UIDENT ==> s.At(i).text !in sc.vars)
    ensures SimpleAt(s, i, e, v, sc) == ApplicationAt(s, i, e, sc)
  {
    hide Well, AllWell, ApplicationAt, SingletonAt, TupleAt, RecordAt, ProcAt, TypeAt;
  }

  // What comes after a name goes on with it no further.
  lemma ArgsBegin(s: Stream, sc: Scope, m: nat, j: nat, args: seq<Type>, loc: Location)
    requires IsArgs(s, sc, m, j, args, loc) && !GluedColons(s, j)
    ensures !GluedColons(s, m)
  {
    hide IsList;
  }

  lemma {:induction false} ArgsTaken(s: Stream, sc: Scope, i: nat, j: nat, e: Errors, args: seq<Type>, loc: Location)
    requires i <= |s.toks| && IsArgs(s, sc, i, j, args, loc) && AllWell(args, true, sc) && s.Kind(j) != LBRACKET
    ensures Got(TypeArgsAt(s, i, e, sc), (args, loc), j)
    decreases Width(i, j), 1
  {
    hide Well, AllWell, TypeListAt, IsList, Kept;
    if args != [] {
      ListTaken(s, sc, i + 1, j - 1, e, true, [], args);
      assert [] + args == args;
    }
  }

  lemma {:induction false} ListTaken(s: Stream, sc: Scope, i: nat, j: nat, e: Errors, v: bool, acc: seq<Type>, ts: seq<Type>)
    requires IsList(s, sc, i, j, ts) && AllWell(ts, v, sc) && s.Kind(j) == RBRACKET
    ensures Got(TypeListAt(s, i, e, v, sc, acc), acc + ts, j)
    decreases Width(i, j), 11
  {
    hide Well, AllWell, TypeListAt, IsJoined, Kept;
    if IsJoined(s, sc, i, j, ts, COMMA, 0) {
      JoinedTaken(s, sc, i, j, j, e, v, acc, ts);
    } else {
      JoinedTaken(s, sc, i, j - 1, j, e, v, acc, ts);
    }
  }

  lemma {:induction false} JoinedTaken(s: Stream, sc: Scope, i: nat, k: nat, j: nat, e: Errors, v: bool, acc: seq<Type>,
                                       ts: seq<Type>)
    requires IsJoined(s, sc, i, k, ts, COMMA, 0) && AllWell(ts, v, sc) && s.Kind(j) == RBRACKET
    requires k == j || (k + 1 == j && s.Kind(k) == COMMA)
    ensures Got(TypeListAt(s, i, e, v, sc, acc), acc + ts, j)
    decreases Width(i, k), 10
  {
    hide Well, AllWell, TypeAt, IsType, IsJoined, Kept;
    JoinedIsSome(s, sc, i, k, ts, COMMA);
    OneAllowed(ts, v, sc);
    if |ts| == 1 {
      JoinedOne(s, sc, i, k, ts, COMMA, 0);
      TypeTaken(s, sc, i, k, e, ts[0], v);
    } else {
      var m := JoinedParts(s, sc, i, k, ts, COMMA, 0);
      TypeTaken(s, sc, i, m, e, ts[0], v);
      var r := TypeAt(s, i, e, v, sc);
      JoinedTaken(s, sc, m + 1, k, j, r.err, v, acc + [ts[0]], ts[1..]);
      NotBracket(s, m + 1, r.err, v, sc, acc + [ts[0]]);
      assert acc + [ts[0]] + ts[1..] == acc + ts;
    }
  }

  lemma {:induction false} SingletonTaken(s: Stream, sc: Scope, i: nat, j: nat, e: Errors, t: Type, v: bool)
    requires t.Singleton? && i < j && Spans(s, i, j, t.loc) && IsAtom(s, sc, i, j, t) && Well(t, v, sc) && Ends(s, j, 3)
    ensures Got(SimpleAt(s, i, e, v, sc), t, j)
    decreases Width(i, j), 2
  {
    hide Well, AllWell, SimpleAt, TypeNameAt, TypeArgsAt, IsName, IsArgs, KindOfName, Kept;
    var m: nat :| i + 2 < m < j && IsName(s, i + 2, m, t.name) && Spans(s, i + 2, m, t.nameLoc) && s.Kind(m) == RPAREN
                  && IsArgs(s, sc, m + 1, j, t.args, t.argsLoc);
    SingletonAllowed(t, v, sc);
    NameTaken(s, i + 2, m, e, t.name, {ClassName});
    MarkStarts(s, i, e, v, sc);
    Bounded(s, m);
    ArgsTaken(s, sc, m + 1, j, e, t.args, t.argsLoc);
  }

  lemma SingletonAllowed(t: Type, v: bool, sc: Scope)
    requires t.Singleton? && Well(t, v, sc)
    ensures AllWell(t.args, true, sc) && t.name.kind == ClassName
  {}

  lemma Bounded(s: Stream, i: nat)
    requires s.Kind(i) != EOF
    ensures i < |s.toks|
  {}

  lemma {:induction false} TupleTaken(s: Stream, sc: Scope, i: nat, j: nat, e: Errors, t: Type, v: bool)
    requires t.Tuple? && i < j && Spans(s, i, j, t.loc) && IsAtom(s, sc, i, j, t) && Well(t, v, sc)
    ensures Got(SimpleAt(s, i, e, v, sc), t, j)
    decreases Width(i, j), 2
  {
    hide Well, AllWell, SimpleAt, TypeListAt, IsList, Kept;
    TupleAllowed(t, v, sc);
    MarkStarts(s, i, e, v, sc);
    if s.Kind(i) == AREF_OPR {
      ArefSteps(s, i, e, v, sc);
    } else if t.types != [] {
      ListTaken(s, sc, i + 1, j - 1, e, false, [], t.types);
      assert [] + t.types == t.types;
      NotBracket(s, i + 1, e, false, sc, []);
    }
  }

  lemma TupleAllowed(t: Type, v: bool, sc: Scope)
    requires t.Tuple? && Well(t, v, sc)
    ensures AllWell(t.types, false, sc)
  {}

  // ---- records ---------------------------------------------------------------------------------------

  lemma {:induction false} RecordTaken(s: Stream, sc: Scope, i: nat, j: nat, e: Errors, t: Type, v: bool)
    requires t.Record? && i < j && Spans(s, i, j, t.loc) && IsAtom(s, sc, i, j, t) && Well(t, v, sc)
    ensures Got(SimpleAt(s, i, e, v, sc), t, j)
    decreases Width(i, j), 2
  {
    hide Well, FieldsWell, SimpleAt, FieldsAt, IsFields, Kept;
    MarkStarts(s, i, e, v, sc);
    Bounded(s, i);
    if j != i + 2 {
      FieldsTaken(s, sc, i + 1, j - 1, e, [], t.fields);
      NotBrace(s, i + 1, e, sc, []);
    }
  }

  lemma {:induction false} FieldsTaken(s: Stream, sc: Scope, i: nat, j: nat, e: Errors, acc: Fields, fs: Fields)
    requires IsFields(s, sc, i, j, acc, fs) && s.Kind(j) == RBRACE
    ensures Got(FieldsAt(s, i, e, sc, acc), fs, j)
    decreases Width(i, j), 12
  {
    hide Well, FieldsWell, FieldAt, IsField, HashSet, Kept;
    var m: nat, k: Literal, f: FieldType :|
      && i < m <= j && IsField(s, sc, i, m, k, f)
      && var more := HashSet(acc, k, f);
         || (fs == more && (m == j || (m + 1 == j && s.Kind(m) == COMMA)))
         || (m < j && s.Kind(m) == COMMA && IsFields(s, sc, m + 1, j, more, fs));
    FieldTaken(s, sc, i, m, e, acc, k, f);
    var r := FieldAt(s, i, e, sc, acc);
    if m < j && !(fs == r.value && m + 1 == j) {
      FieldsTaken(s, sc, m + 1, j, r.err, r.value, fs);
      NotBrace(s, m + 1, r.err, sc, r.value);
    }
  }

  lemma KeyTaken(s: Stream, i: nat, j: nat, e: Errors, acc: Fields, k: Literal)
    requires IsKey(s, if s.Kind(i) == QUESTION then i + 1 else i, j, k)
    ensures Got(FieldKeyAt(s, i, e, acc), k, j)
  {
    hide HasKey, LiteralOf;
    var n := if s.Kind(i) == QUESTION then i + 1 else i;
    WordsTaken(s.Kind(n));
    if n < |s.toks| && LiteralOf(s.toks[n]).Some? {
      LiteralTokens(s.toks[n]);
    }
  }

  lemma {:induction false} FieldTaken(s: Stream, sc: Scope, i: nat, j: nat, e: Errors, acc: Fields, k: Literal, f: FieldType)
    requires IsField(s, sc, i, j, k, f) && s.Kind(j) in {COMMA, RBRACE}
    ensures Got(FieldAt(s, i, e, sc, acc), HashSet(acc, k, f), j)
    decreases Width(i, j), 11
  {
    hide Well, FieldsWell, FieldKeyAt, TypeAt, IsKey, IsType, HashSet, Kept;
    var m: nat :| i < m < j && IsKey(s, if f.required then i else i + 1, m, k)
                  && f.loc == After(s.At(m - 1), s.At(j - 1)) && IsType(s, sc, m, j, f.ty, 0) && Well(f.ty, false, sc);
    KeyTaken(s, i, m, e, acc, k);
    var key := FieldKeyAt(s, i, e, acc);
    TypeTaken(s, sc, m, j, key.err, f.ty, false);
  }

  // ---- parameters ------------------------------------------------------------------------------------

  lemma WordEnds(s: Stream, j: nat)
    requires IsWordLike(s.Kind(j))
    ensures Ends(s, j, 0) && s.Kind(j) != COMMA && s.Kind(j) != RPAREN && s.Kind(j) != EOF
  {}

  lemma {:induction false} ParamTaken(s: Stream, sc: Scope, i: nat, j: nat, e: Errors, x: Param)
    requires IsParam(s, sc, i, j, x) && (x.name.Some? || s.Kind(j) in {COMMA, RPAREN})
    ensures i < j && Got(ParamAt(s, i, e, sc), x, j)
    decreases Width(i, j), 11
  {
    hide Well, TypeAt, IsType, IsWordLike, IsKeywordToken, Kept;
    if x.name.Some? {
      WordEnds(s, j - 1);
      WordsTaken(s.Kind(j - 1));
      TypeTaken(s, sc, i, j - 1, e, x.ty, false);
    } else {
      TypeTaken(s, sc, i, j, e, x.ty, false);
    }
  }

  // The section that comes after an item.
  function NextSection(n: nat): Section {
    if n == 0 then RequiredParams else if n == 1 then OptionalParams else if n <= 3 then TrailingParams else Section.Keywords
  }

  // Where the machine may stand before an item.
  predicate Standing(q: Section, p: MethodParams) {
    q != RestParam && (q == RequiredParams ==> p.optional == [] && p.rest.None?)
  }

  ghost predicate Goes(s: Stream, sc: Scope, m: nat, j: nat, n: nat, more: MethodParams, r: MethodParams) {
    || (m == j && r == more)
    || (m < j && s.Kind(m) == COMMA && IsParams(s, sc, m + 1, j, if n == 2 then 3 else n, more, r))
  }

  // After an item: the end, or a comma and more.
  lemma {:induction false} Continued(s: Stream, sc: Scope, m: nat, j: nat, e: Errors, fwd: bool, n: nat, more: MethodParams,
                                     r: MethodParams)
    requires m <= |s.toks| && n <= 4 && s.Kind(j) == RPAREN && (r.forwarding.Some? ==> fwd)
    requires Goes(s, sc, m, j, n, more, r) && Standing(NextSection(n), more)
    ensures Got(Continue(s, m, e, sc, fwd, NextSection(n), more), r, j)
    decreases Width(m, j), 13
  {
    hide Well, WellParams, SectionAt, IsParams, Kept;
    if m != j {
      Bounded(s, m);
      ParamsTaken(s, sc, m + 1, j, e, fwd, NextSection(n), more, r);
    }
  }

  lemma SectionCloses(s: Stream, i: nat, e: Errors, sc: Scope, fwd: bool, q: Section, p: MethodParams)
    requires i <= |s.toks| && s.Kind(i) == RPAREN
    ensures SectionAt(s, i, e, sc, fwd, q, p) == Ok(p, i, e)
  {
    hide Well, WellParam, WellParams, Reached, KeywordsAt;
    SectionIs(s, i, e, sc, fwd, p);
    AtClose(s, i, e, sc, fwd, p);
  }

  lemma DotsClose(s: Stream, i: nat, e: Errors, sc: Scope, p: MethodParams)
    requires i < |s.toks| && s.Kind(i) == DOT3
    ensures SectionAt(s, i, e, sc, true, RequiredParams, p) == Ok(p.(forwarding := Some(LocOf(s.At(i)))), i + 1, e)
  {
    hide Well, WellParam, WellParams, Reached, OptionalParamAt, RestAt, TrailingAt, KeywordsAt;
    SectionIs(s, i, e, sc, true, p);
  }

  lemma {:induction false} ParamsTaken(s: Stream, sc: Scope, i: nat, j: nat, e: Errors, fwd: bool, q: Section,
                                       p: MethodParams, r: MethodParams)
    requires i <= |s.toks| && IsParams(s, sc, i, j, Number(q), p, r) && s.Kind(j) == RPAREN && Standing(q, p)
    requires r.forwarding.Some? ==> fwd
    ensures Got(SectionAt(s, i, e, sc, fwd, q, p), r, j)
    decreases Width(i, j), 14
  {
    hide Well, WellParams, SectionAt, IsItem, Kept;
    if i == j && r == p {
      SectionCloses(s, i, e, sc, fwd, q, p);
    } else if q == RequiredParams && j == i + 1 && s.Kind(i) == DOT3 && r == p.(forwarding := Some(LocOf(s.At(i)))) {
      Bounded(s, i);
      DotsClose(s, i, e, sc, p);
    } else {
      var m: nat, n: nat, more: MethodParams :|
        && i < m <= j && Number(q) <= n <= 4 && IsItem(s, sc, i, m, n, p, more)
        && (|| (m == j && r == more)
            || (m < j && s.Kind(m) == COMMA && IsParams(s, sc, m + 1, j, if n == 2 then 3 else n, more, r))
            || (Number(q) <= 1 && n == 4 && s.Kind(i) == QUESTION && LastNamed(more) && IsParams(s, sc, m, j, 4, more, r)));
      if n < 4 {
        PositionalTaken(s, sc, i, m, j, e, fwd, q, n, p, more, r);
      } else {
        ItemIsKeyword(s, sc, i, m, p, more);
        KeywordItemTaken(s, sc, i, m, j, e, fwd, q, p, more, r);
      }
    }
  }

  lemma ItemIsKeyword(s: Stream, sc: Scope, i: nat, m: nat, p: MethodParams, more: MethodParams)
    requires IsItem(s, sc, i, m, 4, p, more)
    ensures IsKeywordItem(s, sc, i, m, p, more)
  {
    hide IsKeywordItem;
  }

  lemma {:induction false} PositionalTaken(s: Stream, sc: Scope, i: nat, m: nat, j: nat, e: Errors, fwd: bool, q: Section,
                                           n: nat, p: MethodParams, more: MethodParams, r: MethodParams)
    requires i <= |s.toks| && i < m <= j && Number(q) <= n < 4 && Standing(q, p) && s.Kind(j) == RPAREN
    requires IsItem(s, sc, i, m, n, p, more) && Goes(s, sc, m, j, n, more, r) && (r.forwarding.Some? ==> fwd)
    ensures Got(SectionAt(s, i, e, sc, fwd, q, p), r, j)
    decreases Width(i, j), 13
  {
    hide Well, WellParams, SectionAt, ParamAt, Continue, IsParam, IsParams, Positional, Kept;
    var from := if n == 1 || n == 2 then i + 1 else i;
    var x: Param :| IsParam(s, sc, from, m, x)
      && more == if n == 0 then p.(required := p.required + [x]) else if n == 1 then p.(optional := p.optional + [x])
                 else if n == 2 then p.(rest := Some(x)) else p.(trailing := p.trailing + [x]);
    ParamTaken(s, sc, from, m, e, x);
    NotKeyword(s, from, e, sc);
    var d := ParamAt(s, from, e, sc);
    if n == 0 {
      RequiredSteps(s, i, e, sc, fwd, p);
    } else if n == 1 {
      OptionalSteps(s, i, e, sc, fwd, q, p);
    } else if n == 2 {
      RestSteps(s, i, e, sc, fwd, q, p);
    } else {
      TrailingSteps(s, i, e, sc, fwd, q, p);
    }
    Continued(s, sc, m, j, d.err, fwd, n, more, r);
  }

  lemma {:induction false} KeywordItemTaken(s: Stream, sc: Scope, i: nat, m: nat, j: nat, e: Errors, fwd: bool, q: Section,
                                            p: MethodParams, more: MethodParams, r: MethodParams)
    requires i <= |s.toks| && i < m <= j && Standing(q, p) && s.Kind(j) == RPAREN
    requires IsKeywordItem(s, sc, i, m, p, more) && (r.forwarding.Some? ==> fwd)
    requires Goes(s, sc, m, j, 4, more, r)
             || (Number(q) <= 1 && s.Kind(i) == QUESTION && LastNamed(more) && IsParams(s, sc, m, j, 4, more, r))
    ensures Got(SectionAt(s, i, e, sc, fwd, q, p), r, j)
    decreases Width(i, j), 13
  {
    hide Well, WellParams, SectionAt, ParamAt, KeywordAt, Continue, IsParam, IsParams, IsKeyword, IsKeywordItem, LastNamed, Kept;
    if s.Kind(i) == STAR2 {
      RestKwTaken(s, sc, i, m, e, p, more);
      RestKwSteps(s, i, e, sc, fwd, q, p);
      Continued(s, sc, m, j, ParamAt(s, i + 1, e, sc).err, fwd, 4, more, r);
    } else {
      var n := if s.Kind(i) == QUESTION then i + 1 else i;
      KeywordTaken(s, sc, i, m, e, p, more);
      var d := KeywordAt(s, n, e, sc, p, s.Kind(i) != QUESTION);
      if s.Kind(i) == QUESTION {
        OptionalKwSteps(s, i, e, sc, fwd, q, p);
        if q == RequiredParams || q == OptionalParams {
          Unparted(s, sc, m, j, d.err, fwd, more, r);
        } else {
          Continued(s, sc, m, j, d.err, fwd, 4, more, r);
        }
      } else {
        RequiredKwSteps(s, i, e, sc, fwd, q, p);
        Continued(s, sc, m, j, d.err, fwd, 4, more, r);
      }
    }
  }

  lemma {:induction false} RestKwTaken(s: Stream, sc: Scope, i: nat, m: nat, e: Errors, p: MethodParams, more: MethodParams)
    requires s.Kind(i) == STAR2 && IsKeywordItem(s, sc, i, m, p, more) && s.Kind(m) in {COMMA, RPAREN}
    ensures var d := ParamAt(s, i + 1, e, sc); d.Ok? && d.pos == m && more == p.(restKw := Some(d.value))
    decreases Width(i, m), 12
  {
    hide Well, ParamAt, IsParam, Kept;
    var x: Param :| IsParam(s, sc, i + 1, m, x) && more == p.(restKw := Some(x));
    ParamTaken(s, sc, i + 1, m, e, x);
  }

  lemma {:induction false} KeywordTaken(s: Stream, sc: Scope, i: nat, m: nat, e: Errors, p: MethodParams, more: MethodParams)
    requires s.Kind(i) != STAR2 && IsKeywordItem(s, sc, i, m, p, more)
    requires s.Kind(m) in {COMMA, RPAREN} || (s.Kind(i) == QUESTION && LastNamed(more))
    ensures var n := if s.Kind(i) == QUESTION then i + 1 else i;
            IsKeyword(s, n) && Got(KeywordAt(s, n, e, sc, p, s.Kind(i) != QUESTION), more, m)
    decreases Width(i, m), 12
  {
    hide Well, WellParams, ParamAt, IsParam, HasKey, IsWordLike, IsKeywordToken, Kept;
    var n := if s.Kind(i) == QUESTION then i + 1 else i;
    WordsTaken(s.Kind(n));
    var k: nat, key: string, x: Param :|
      && i < k < m && IsWordKey(s, n, k, key) && !HasKey(p.requiredKw, key) && !HasKey(p.optionalKw, key)
      && IsParam(s, sc, k, m, x)
      && more == if s.Kind(i) == QUESTION then p.(optionalKw := p.optionalKw + [Entry(key, x)])
                 else p.(requiredKw := p.requiredKw + [Entry(key, x)]);
    ParamTaken(s, sc, k, m, e, x);
  }

  // The first token of parameters that are there.
  lemma ItemBegins(s: Stream, sc: Scope, i: nat, m: nat, n: nat, p: MethodParams, more: MethodParams)
    requires n <= 4 && IsItem(s, sc, i, m, n, p, more)
    ensures s.Kind(i) != RPAREN && (n == 4 ==> s.Kind(i) != COMMA)
  {
    hide IsParam, HasKey;
    if n == 0 {
      var x: Param :| IsParam(s, sc, i, m, x) && more == p.(required := p.required + [x]);
      ParamStarts(s, sc, i, m, x);
    } else if n == 3 {
      var x: Param :| IsParam(s, sc, i, m, x) && more == p.(trailing := p.trailing + [x]);
      ParamStarts(s, sc, i, m, x);
    }
  }

  lemma ParamsBegin(s: Stream, sc: Scope, i: nat, j: nat, q: nat, p: MethodParams, r: MethodParams)
    requires IsParams(s, sc, i, j, q, p, r) && i != j
    ensures s.Kind(i) != RPAREN && (q == 4 ==> s.Kind(i) != COMMA)
  {
    hide IsItem;
    if !(q == 0 && j == i + 1 && s.Kind(i) == DOT3) {
      var m: nat, n: nat, more: MethodParams :|
        && i < m <= j && q <= n <= 4 && IsItem(s, sc, i, m, n, p, more)
        && (|| (m == j && r == more)
            || (m < j && s.Kind(m) == COMMA && IsParams(s, sc, m + 1, j, if n == 2 then 3 else n, more, r))
            || (q <= 1 && n == 4 && s.Kind(i) == QUESTION && LastNamed(more) && IsParams(s, sc, m, j, 4, more, r)));
      ItemBegins(s, sc, i, m, n, p, more);
    }
  }

  // After the optional keyword that may go without a comma.
  lemma {:induction false} Unparted(s: Stream, sc: Scope, m: nat, j: nat, e: Errors, fwd: bool, more: MethodParams,
                                    r: MethodParams)
    requires m <= |s.toks| && s.Kind(j) == RPAREN && (r.forwarding.Some? ==> fwd)
    requires Goes(s, sc, m, j, 4, more, r) || IsParams(s, sc, m, j, 4, more, r)
    ensures Got(SectionAt(s, if s.Kind(m) == COMMA then m + 1 else m, e, sc, fwd, Section.Keywords, more), r, j)
    decreases Width(m, j), 15
  {
    hide Well, WellParams, SectionAt, IsParams, Kept;
    if m == j && r == more {
      SectionCloses(s, m, e, sc, fwd, Section.Keywords, more);
    } else if s.Kind(m) == COMMA {
      if IsParams(s, sc, m, j, 4, more, r) {
        ParamsBegin(s, sc, m, j, 4, more, r);
      } else {
        Bounded(s, m);
        ParamsTaken(s, sc, m + 1, j, e, fwd, Section.Keywords, more, r);
      }
    } else {
      ParamsTaken(s, sc, m, j, e, fwd, Section.Keywords, more, r);
    }
  }

  // ---- functions -------------------------------------------------------------------------------------

  lemma EmptyList(s: Stream, sc: Scope, i: nat, p: MethodParams, r: MethodParams)
    requires IsParams(s, sc, i, i, 0, p, r)
    ensures r == p
  {}

  lemma {:induction false} ParensTaken(s: Stream, sc: Scope, i: nat, j: nat, e: Errors, ps: ParamList, fwd: bool)
    requires i <= |s.toks| && IsParens(s, sc, i, j, ps) && (ps.Typed? && ps.params.forwarding.Some? ==> fwd)
    requires i == j ==> s.Kind(j) != LPAREN
    ensures Got(ParenParamsAt(s, i, e, sc, fwd), ps, j)
    decreases Width(i, j), 15
  {
    hide Well, WellParams, SectionAt, IsParams, Kept;
    if ps.Untyped? {
      Bounded(s, i);
      UntypedListSteps(s, i, e, sc, fwd);
    } else if i != j {
      Bounded(s, i);
      ParamsTaken(s, sc, i + 1, j - 1, e, fwd, RequiredParams, NO_PARAMS, ps.params);
      NotUntyped(s, i + 1, e, sc, fwd);
      if j == i + 2 {
        EmptyList(s, sc, i + 1, NO_PARAMS, ps.params);
      } else {
        ParamsBegin(s, sc, i + 1, j - 1, 0, NO_PARAMS, ps.params);
      }
    }
  }

  lemma ParamStarts(s: Stream, sc: Scope, i: nat, j: nat, x: Param)
    requires IsParam(s, sc, i, j, x)
    ensures s.Kind(i) != RPAREN
  {
    hide IsType;
    TypeStarts(s, sc, i, if x.name.Some? then j - 1 else j, x.ty, 0);
  }

  lemma {:induction false} TypeStarts(s: Stream, sc: Scope, i: nat, j: nat, t: Type, level: nat)
    requires level <= 2 && IsType(s, sc, i, j, t, level)
    ensures s.Kind(i) != RPAREN
    decreases Width(i, j), 2 - level
  {
    hide IsJoined, IsAtom;
    TypeIsSome(s, sc, i, j, t, level);
    if IsSimple(s, sc, i, j, t) {
      SimpleStarts(s, sc, i, j, t);
    } else if t.OptionalType? {
      SimpleStarts(s, sc, i, j - 1, t.inner);
    } else {
      var k := if t.Union? then BAR else AMP;
      var l := if t.Union? then 1 else 2;
      var m := JoinedParts(s, sc, i, j, t.types, k, l);
      TypeStarts(s, sc, i, m, t.types[0], l);
    }
  }

  lemma SimpleStarts(s: Stream, sc: Scope, i: nat, j: nat, t: Type)
    requires IsSimple(s, sc, i, j, t)
    ensures s.Kind(i) != RPAREN
  {
    hide IsType, IsArgs, IsFields, IsFunction, IsList, KindOfName, IsName;
    SimpleOrGroup(s, sc, i, j, t);
    if s.Kind(i) != LPAREN && t.Application? {
      var m: nat :| i < m <= j && IsName(s, i, m, t.name);
      NameBegins(s, i, m, t.name);
      NamesKind(s.Kind(i), t.name.kind);
      NoName(s.Kind(i));
    } else if s.Kind(i) != LPAREN && t.LiteralType? {
      LiteralTokens(s.toks[i]);
    }
  }

  lemma NoName(k: TokenKind)
    requires k == COLON2 || KindOfName(k).Some?
    ensures k != RPAREN
  {}

  lemma {:induction false} BindingTaken(s: Stream, sc: Scope, i: nat, j: nat, e: Errors, self: Option<Type>)
    requires i <= |s.toks| && IsBinding(s, sc, i, j, self) && (self.Some? ==> Well(self.value, false, sc))
    requires self.None? ==> s.Kind(j) != LBRACKET
    ensures Got(SelfBindingAt(s, i, e, sc), self, j)
    decreases Width(i, j), 15
  {
    hide Well, TypeAt, IsType, Kept;
    if self.Some? {
      TypeTaken(s, sc, i + 3, j - 1, e, self.value, false);
    }
  }

  lemma {:induction false} ReturnTaken(s: Stream, sc: Scope, i: nat, j: nat, e: Errors, t: Type)
    requires IsReturn(s, sc, i, j, t) && Well(t, true, sc)
    requires Ends(s, j, 2) || (t.OptionalType? && j > 0 && s.Kind(j - 1) == QUESTION)
    ensures Got(ReturnAt(s, i, e, sc), t, j)
    decreases Width(i, j), 15
  {
    hide Well, OptionalAt, IsType, Kept;
    OptionalTaken(s, sc, i + 1, j, e, t, true);
  }

  lemma BlockAllowed(b: Block, sc: Scope)
    requires WellBlock(b, sc)
    ensures FnAllowed(b.fn, sc) && (b.selfType.Some? ==> Well(b.selfType.value, false, sc))
  {}

  ghost predicate FnAllowed(f: Function, sc: Scope) {
    Well(f.ret, true, sc) && (f.Fn? ==> f.params.forwarding.None?)
  }

  // A binding, a block and a return type: what each of them begins with.
  lemma SignatureParts(s: Stream, sc: Scope, i: nat, j: nat, ret: Type, b: Option<Block>, self: Option<Type>)
    returns (m: nat, n: nat)
    requires IsSignature(s, sc, i, j, ret, b, self)
    ensures i <= m <= n < j && IsBinding(s, sc, i, m, self) && IsBlock(s, sc, m, n, b) && IsReturn(s, sc, n, j, ret)
    ensures s.Kind(n) == ARROW && (b.None? ==> m == n) && (BlockFollows(s, m) <==> b.Some?)
    ensures s.Kind(m) != LBRACKET && s.Kind(i) != LPAREN
  {
    hide IsType, IsFunction;
    m, n :| i <= m <= n < j && IsBinding(s, sc, i, m, self) && IsBlock(s, sc, m, n, b) && IsReturn(s, sc, n, j, ret);
  }

  lemma {:induction false} BlockTaken(s: Stream, sc: Scope, i: nat, j: nat, e: Errors, b: Option<Block>)
    requires i <= |s.toks| && IsBlock(s, sc, i, j, b) && (b.Some? ==> WellBlock(b.value, sc)) && (b.Some? <==> BlockFollows(s, i))
    ensures Got(BlockAt(s, i, e, sc), b, j)
    decreases Width(i, j), 16
  {
    hide Well, WellFn, WellBlock, WellParams, ParenParamsAt, SelfBindingAt, ReturnAt, IsParens, IsSignature, IsReturn, IsBinding,
      BlockFollows, MakeFunction, ListOf, Kept;
    if b.Some? {
      var body := b.value;
      var n := if body.required then i else i + 1;
      BlockAllowed(body, sc);
      var a: nat :| n + 1 <= a < j - 1 && IsParens(s, sc, n + 1, a, ListOf(body.fn)) && IsSignature(s, sc, a, j - 1, body.fn.ret, None, body.selfType);
      var m, k := SignatureParts(s, sc, a, j - 1, body.fn.ret, None, body.selfType);
      Bounded(s, n);
      ListAllowed(body.fn, sc);
      ParensTaken(s, sc, n + 1, a, e, ListOf(body.fn), false);
      var ps := ParenParamsAt(s, n + 1, e, sc, false);
      BindingTaken(s, sc, a, m, ps.err, body.selfType);
      var self := SelfBindingAt(s, a, ps.err, sc);
      ReturnTaken(s, sc, m, j - 1, self.err, body.fn.ret);
      Remade(body.fn);
      BlockAsMade(s, i, n, e, sc, a, m, j - 1, body);
    }
  }

  lemma Remade(f: Function)
    ensures MakeFunction(ListOf(f), f.ret, f.loc) == f
  {}

  lemma ListAllowed(f: Function, sc: Scope)
    requires FnAllowed(f, sc)
    ensures var ps := ListOf(f); ps.Typed? ==> ps.params.forwarding.None?
  {}

  lemma BlockAsMade(s: Stream, i: nat, n: nat, e: Errors, sc: Scope, a: nat, m: nat, j: nat, b: Block)
    requires n < |s.toks| && BlockFollows(s, i) && n == (if s.Kind(i) == QUESTION then i + 1 else i) && s.Kind(j) == RBRACE
    requires b.required == (s.Kind(i) != QUESTION)
    requires var ps := ParenParamsAt(s, n + 1, e, sc, false);
             && Got(ps, ListOf(b.fn), a)
             && var self := SelfBindingAt(s, a, ps.err, sc);
                && Got(self, b.selfType, m) && Got(ReturnAt(s, m, self.err, sc), b.fn.ret, j)
    requires b.loc == Spanning(s.At(i), s.At(j)) && b.fn.loc == b.loc
    ensures Got(BlockAt(s, i, e, sc), Some(b), j + 1)
  {
    hide Well, WellFn, WellBlock, WellParams, ParenParamsAt, SelfBindingAt, ReturnAt, MakeFunction, ListOf, Kept, Spanning;
    Remade(b.fn);
  }

  lemma ProcAllowed(t: Type, v: bool, sc: Scope)
    requires t.Proc? && Well(t, v, sc)
    ensures FnAllowed(t.fn, sc) && (t.block.Some? ==> WellBlock(t.block.value, sc))
    ensures t.selfType.Some? ==> Well(t.selfType.value, false, sc)
  {}

  lemma {:induction false} ProcTaken(s: Stream, sc: Scope, i: nat, j: nat, e: Errors, t: Type, v: bool)
    requires t.Proc? && i < j && Spans(s, i, j, t.loc) && IsAtom(s, sc, i, j, t) && Well(t, v, sc) && Ends(s, j, 3)
    requires s.Kind(j) == QUESTION ==> CanTakeMark(s, i, j, t)
    ensures Got(SimpleAt(s, i, e, v, sc), t, j)
    decreases Width(i, j), 2
  {
    hide Well, WellFn, WellBlock, WellParams, SimpleAt, FunctionAt, IsFunction, Kept;
    ProcAllowed(t, v, sc);
    Bounded(s, i);
    MarkStarts(s, i, e, v, sc);
    FunctionTaken(s, sc, i + 1, j, e, t.fn, t.block, t.selfType);
  }

  lemma {:induction false} FunctionTaken(s: Stream, sc: Scope, i: nat, j: nat, e: Errors, f: Function, b: Option<Block>,
                                         self: Option<Type>)
    requires 0 < i <= |s.toks| && 0 < j && IsFunction(s, sc, i, j, f, b, self) && f.loc == Spanning(s.At(i - 1), s.At(j - 1))
    requires FnAllowed(f, sc) && (b.Some? ==> WellBlock(b.value, sc)) && (self.Some? ==> Well(self.value, false, sc))
    requires Ends(s, j, 2) || (f.ret.OptionalType? && s.Kind(j - 1) == QUESTION)
    ensures Got(FunctionAt(s, i, e, sc, true, true, false), FunctionResult(f, b, self), j)
    decreases Width(i, j), 17
  {
    hide Well, WellFn, WellBlock, WellParams, ParenParamsAt, SelfBindingAt, BlockAt, ReturnAt, FunctionAt, IsParens, IsSignature,
      IsReturn, IsBinding, IsBlock, BlockFollows, MakeFunction, ListOf, Kept, Ends;
    var a: nat :| i <= a < j && IsParens(s, sc, i, a, ListOf(f)) && IsSignature(s, sc, a, j, f.ret, b, self);
    var m, n := SignatureParts(s, sc, a, j, f.ret, b, self);
    ListAllowed(f, sc);
    ParensTaken(s, sc, i, a, e, ListOf(f), false);
    var ps := ParenParamsAt(s, i, e, sc, false);
    BindingTaken(s, sc, a, m, ps.err, self);
    var binding := SelfBindingAt(s, a, ps.err, sc);
    BlockTaken(s, sc, m, n, binding.err, b);
    var block := BlockAt(s, m, binding.err, sc);
    ReturnTaken(s, sc, n, j, block.err, f.ret);
    FunctionAsMade(s, i, e, sc, a, m, n, j, f, b, self);
  }

  lemma FunctionAsMade(s: Stream, i: nat, e: Errors, sc: Scope, a: nat, m: nat, n: nat, j: nat, f: Function, b: Option<Block>,
                       self: Option<Type>)
    requires 0 < i <= |s.toks| && 0 < j && f.loc == Spanning(s.At(i - 1), s.At(j - 1)) && FnAllowed(f, sc)
    requires var ps := ParenParamsAt(s, i, e, sc, false);
             && Got(ps, ListOf(f), a)
             && var binding := SelfBindingAt(s, a, ps.err, sc);
                && Got(binding, self, m)
                && var block := BlockAt(s, m, binding.err, sc);
                   Got(block, b, n) && Got(ReturnAt(s, n, block.err, sc), f.ret, j)
    ensures Got(FunctionAt(s, i, e, sc, true, true, false), FunctionResult(f, b, self), j)
  {
    hide Well, WellFn, WellBlock, WellParams, ParenParamsAt, SelfBindingAt, BlockAt, ReturnAt, BlockFollows, MakeFunction,
      Spanning, Kept;
    Remade(f);
  }

  // ---- main results ----------------------------------------------------------------------------------

  // The parser reads a type from certain tokens exactly if they write it and it is well-formed, in every way there is of
  // writing it; what follows must not go on with it.
  lemma TypesExactly(s: Stream, i: nat, j: nat, e: Errors, t: Type, v: bool, sc: Scope)
    requires Ends(s, j, 0)
    ensures Got(TypeAt(s, i, e, v, sc), t, j) <==> IsType(s, sc, i, j, t, 0) && Well(t, v, sc)
  {
    hide TypeAt, IsType, Well, Kept;
    AcceptedTypesAreWritten(s, i, e, v, sc);
    if IsType(s, sc, i, j, t, 0) && Well(t, v, sc) {
      TypeTaken(s, sc, i, j, e, t, v);
    }
  }

  // So no tokens can be two types, and no type can end at two places.
  lemma OneReading(s: Stream, sc: Scope, i: nat, j: nat, j': nat, t: Type, t': Type, v: bool)
    requires IsType(s, sc, i, j, t, 0) && Well(t, v, sc) && Ends(s, j, 0)
    requires IsType(s, sc, i, j', t', 0) && Well(t', v, sc) && Ends(s, j', 0)
    ensures t == t' && j == j'
  {
    hide TypeAt, IsType, Well, Kept;
    TypesExactly(s, i, j, None, t, v, sc);
    TypesExactly(s, i, j', None, t', v, sc);
  }
}
