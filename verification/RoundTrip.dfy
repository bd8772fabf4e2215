/** Reading back what the printer wrote. */
module RoundTrip {
  import opened Ast
  import opened Containers
  import opened Grammar
  import opened Printer
  import opened Tokens
  import opened Trees
  import opened WellFormed

  // No union is a member of a union, no optional is under a `?`, and no parameter has a name that begins with a digit
  // and is written bare, or one with a backslash before a quote or a backslash: the trees Ruby's own to_s is safe for.
  predicate PlainNode(t: Type) {
    && (t.Union? ==> forall u <- t.types :: !u.Union?)
    && (t.OptionalType? ==> !t.inner.OptionalType?)
  }

  predicate PlainParam(p: Param) {
    p.name.Some? ==> PlainName(p.name.value)
  }

  predicate PlainName(n: string) {
    if IsWordName(n) then !IsDigit(n[0]) else !HasEscape(n)
  }

  predicate HasEscape(n: string) {
    exists i :: 0 <= i < |n| && Escapes(n[i..])
  }

  lemma {:induction false} UnescapedShrinks(n: string)
    ensures |Unescaped(n)| <= |n|
    ensures HasEscape(n) ==> |Unescaped(n)| < |n|
    ensures !HasEscape(n) ==> Unescaped(n) == n
    decreases |n|
  {
    if n != "" {
      assert n[0..] == n;
      if Escapes(n) {
        UnescapedShrinks(n[2..]);
      } else {
        UnescapedShrinks(n[1..]);
        if HasEscape(n) {
          var i :| 0 <= i < |n| && Escapes(n[i..]);
          assert n[1..][i - 1..] == n[i..];
        } else {
          forall i | 0 <= i < |n[1..]|
            ensures !Escapes(n[1..][i..])
          {
            assert n[1..][i..] == n[i + 1..];
          }
        }
      }
    }
  }

  // What is printed between backticks is read as the name exactly if nothing in it looks like an escape.
  lemma UnescapedSame(n: string)
    ensures Unescaped(n) == n <==> !HasEscape(n)
  {
    UnescapedShrinks(n);
    hide HasEscape;
  }

  ghost predicate Plain(t: Type) {
    Every(t, PlainNode, PlainParam)
  }

  // The text ends, or goes on with a token that cannot extend a type read by rbs_parse_type (n = 0),
  // parse_intersection (1), parse_optional (2) or parse_simple (3).
  predicate Stops(k: Text, n: nat)
    decreases k
  {
    match k
    case End => true
    case Either(x, y) => Stops(x, n) && Stops(y, n)
    case More(h, _) =>
      match h.body {
        case Mark(m) => KindStops(m, n)
        case Spelled(m, _) => KindStops(m, n)
        case Placed(m, place) => KindStops(m, n) || (m == COLON2 && place == Parted)
        case MethodMark(_, _, _) => false
        case Anything => false
        case _ => true
      }
  }

  predicate KindStops(m: TokenKind, n: nat) {
    m != LBRACKET && m != COLON2 && (n <= 2 ==> m != QUESTION) && (n <= 1 ==> m != AMP) && (n == 0 ==> m != BAR)
  }

  // What follows a simple type: after a proc no `?`, unless its return type has taken one.
  predicate Bounds(t: Type, k: Text) {
    if t.Proc? then Stops(k, 2) || t.fn.ret.OptionalType? else Stops(k, 3)
  }

  // The tokens a text starts with, one at a time.
  lemma TakeMark(s: Stream, i: nat, k: TokenKind, rest: Text)
    requires Spells(s, i, Put(k, rest))
    ensures i < |s.toks| && s.Kind(i) == k && Spells(s, i + 1, rest)
  {}

  lemma TakeGlued(s: Stream, i: nat, k: TokenKind, rest: Text)
    requires i > 0 && Spells(s, i, PutGlued(k, rest))
    ensures i < |s.toks| && s.Kind(i) == k && s.Touching(i - 1) && Spells(s, i + 1, rest)
  {}

  lemma TakeName(s: Stream, i: nat, k: NameKind, n: string, glued: bool, rest: Text)
    requires Spells(s, i, More(Lexeme(NameMark(k, n), glued), rest))
    ensures i < |s.toks| && KindOfName(s.Kind(i)) == Some(k) && s.At(i).text == n && Spells(s, i + 1, rest)
    ensures glued ==> i > 0 && s.Touching(i - 1)
    ensures k == ClassName ==> s.Kind(i) == UIDENT
    ensures s.Kind(i) != COLON2
  {}

  lemma TakeLiteral(s: Stream, i: nat, l: Literal, rest: Text)
    requires Spells(s, i, PutBody(LiteralMark(l), rest))
    ensures i < |s.toks| && LiteralOf(s.At(i)) == Some(l) && Spells(s, i + 1, rest)
    ensures BaseOf(s.Kind(i)).None? && s.Kind(i) != LPAREN && s.Kind(i) != EOF
  {
    OnlyLiteral(s.At(i), l);
  }

  // The tokens taken for names, keys and base types are those they are written with, and no others.
  lemma TokensTaken(k: TokenKind, n: NameKind, b: BaseKind)
    ensures KindOfName(k) == Some(n) <==> NamesA(k, n)
    ensures IsKeywordToken(k) <==> IsWordLike(k)
    ensures BaseOf(k) == Some(b) <==> k == KeywordOf(b)
  {}

  // Every token that is written for a literal is taken for this one, and for no other; the lexer makes no symbol
  // without a colon.
  lemma OnlyLiteral(t: Token, l: Literal)
    ensures StandsFor(t, l) ==> LiteralOf(t) == Some(l)
    ensures LiteralOf(t) == Some(l) && (t.kind == SYMBOL ==> t.text != "" && t.text[0] == ':') ==> StandsFor(t, l)
  {
    if l.SymbolLit? {
      assert (":" + l.sym)[1..] == l.sym;
      assert t.text != "" ==> [t.text[0]] + t.text[1..] == t.text;
    }
  }

  // ... as a type and as the key of a record.
  lemma LiteralsAreRead(s: Stream, i: nat, e: Errors, l: Literal, v: bool, sc: Scope, acc: Fields)
    requires i < |s.toks| && StandsFor(s.toks[i], l)
    ensures SimpleAt(s, i, e, v, sc) == Ok(LiteralType(l, LocOf(s.toks[i])), i + 1, e)
    ensures s.Kind(i + 1) == FAT_ARROW && !HasKey(acc, l) ==> FieldKeyAt(s, i, e, acc) == Ok(l, i + 2, e)
    ensures s.Kind(i + 1) == FAT_ARROW && HasKey(acc, l) ==>
              FieldKeyAt(s, i, e, acc) == Ok(l, i + 2, Some(FirstError(e, s.toks[i], true)))
  {
    hide HasKey, LiteralOf, KeyAt;
    OnlyLiteral(s.toks[i], l);
    LiteralTokens(s.toks[i]);
  }

  lemma {:induction false} KindAfter(s: Stream, i: nat, k: Text, n: nat)
    requires Spells(s, i, k) && Stops(k, n)
    ensures i <= |s.toks|
    ensures s.Kind(i) != LBRACKET && !GluedColons(s, i)
    ensures (n <= 2 ==> s.Kind(i) != QUESTION) && (n <= 1 ==> s.Kind(i) != AMP) && (n == 0 ==> s.Kind(i) != BAR)
    decreases k
  {
    if k.Either? {
      KindAfter(s, i, if Spells(s, i, k.one) then k.one else k.other, n);
    }
  }

  // `::` that can go on with a name before it.
  predicate GluedColons(s: Stream, i: nat) {
    s.Kind(i) == COLON2 && i > 0 && s.Touching(i - 1)
  }

  predicate EndsName(k: Text)
    decreases k
  {
    match k
    case End => true
    case Either(x, y) => EndsName(x) && EndsName(y)
    case More(h, _) =>
      match h.body {
        case Mark(m) => m != COLON2
        case Spelled(m, _) => m != COLON2
        case Placed(m, place) => m == COLON2 ==> place == Parted
        case Anything => false
        case _ => true
      }
  }

  lemma {:induction false} NameEnd(s: Stream, i: nat, k: Text)
    requires Spells(s, i, k) && EndsName(k)
    ensures !GluedColons(s, i)
    decreases k
  {
    if k.Either? {
      NameEnd(s, i, if Spells(s, i, k.one) then k.one else k.other);
    }
  }

  // The end of a list: the closing token, or a comma and the closing token.
  lemma TakeClosed(s: Stream, i: nat, k: TokenKind, comma: bool, rest: Text)
    requires Spells(s, i, Closed(k, comma, rest)) && k != COMMA
    ensures var at := if s.Kind(i) == k then i else i + 1;
            && at < |s.toks| && s.Kind(at) == k && Spells(s, at + 1, rest) && Spells(s, at, Put(k, rest))
            && (at == i + 1 ==> comma && s.Kind(i) == COMMA)
  {
    if comma && Spells(s, i, Put(COMMA, Put(k, rest))) {
      TakeMark(s, i, COMMA, Put(k, rest));
      TakeMark(s, i + 1, k, rest);
    } else {
      TakeMark(s, i, k, rest);
    }
  }

  lemma ClosedStops(k: TokenKind, comma: bool, rest: Text)
    requires k == RBRACKET || k == RBRACE || k == RPAREN
    ensures Stops(Closed(k, comma, rest), 0)
  {}

  // ---- names ----------------------------------------------------------------------------------------

  lemma {:induction false} PathRead(s: Stream, c: nat, n: TypeName, j: nat, glued: bool, k: Text)
    requires j <= |n.path| && Spells(s, c, PathText(n, j, glued, k)) && EndsName(k)
    ensures PathNames(s, c) == n.path[j..] && PathEnd(s, c) < |s.toks|
    ensures KindOfName(s.Kind(PathEnd(s, c))) == Some(n.kind) && s.At(PathEnd(s, c)).text == n.name
    ensures Spells(s, PathEnd(s, c) + 1, k)
    ensures glued ==> c > 0 && s.Touching(c - 1)
    ensures s.Kind(c) != COLON2
    decreases |n.path| - j
  {
    hide Spells, Fits, EndsName, KindOfName;
    if j < |n.path| {
      var more := PathText(n, j + 1, true, k);
      TakeName(s, c, ClassName, n.path[j], glued, PutGlued(COLON2, more));
      TakeGlued(s, c + 1, COLON2, more);
      PathRead(s, c + 2, n, j + 1, true, k);
    } else {
      TakeName(s, c, n.kind, n.name, glued, k);
      NameEnd(s, c + 1, k);
    }
  }

  lemma {:induction false} NameRead(s: Stream, c: nat, e: Errors, n: TypeName, k: Text, kinds: set<NameKind>)
    requires Spells(s, c, NameText(n, k)) && EndsName(k) && n.kind in kinds
    ensures var r := TypeNameAt(s, c, e, kinds); r.Ok? && r.value == n && r.err == e && Spells(s, r.pos, k)
  {
    hide Spells, Fits, EndsName, KindOfName, PathEnd, PathNames, PathText;
    if n.absolute {
      TakeMark(s, c, COLON2, PathText(n, 0, true, k));
      PathRead(s, c + 1, n, 0, true, k);
    } else {
      PathRead(s, c, n, 0, false, k);
    }
  }

  // ---- types ----------------------------------------------------------------------------------------

  // A routine has read the type and nothing else, and recorded no error.
  ghost predicate Read(r: Outcome<Type>, t: Type, s: Stream, e: Errors, k: Text) {
    r.Ok? && Same(t, r.value) && r.err == e && Spells(s, r.pos, k)
  }

  lemma ReadIs(r: Outcome<Type>, x: Type, p: nat, t: Type, s: Stream, e: Errors, k: Text)
    requires r == Ok(x, p, e) && Same(t, x) && Spells(s, p, k)
    ensures Read(r, t, s, e, k)
  {}

  ghost predicate Writable(t: Type, v: bool, sc: Scope, fix: bool) {
    Well(t, v, sc) && (fix || Plain(t))
  }

  ghost predicate AllWritable(ts: seq<Type>, v: bool, sc: Scope, fix: bool) {
    forall t <- ts :: Writable(t, v, sc, fix)
  }

  // Void is the only tree whose permission depends on the flag.
  lemma Weaken(t: Type, v: bool, sc: Scope, fix: bool)
    requires Writable(t, false, sc, fix)
    ensures Writable(t, v, sc, fix) && !IsVoid(t)
  {}

  lemma SameVoid(t: Type, u: Type)
    requires Same(t, u)
    ensures IsVoid(t) == IsVoid(u)
  {}

  lemma UnionParts(t: Type, v: bool, sc: Scope, fix: bool, k: Text)
    requires t.Union? && Writable(t, v, sc, fix)
    ensures |t.types| >= 2 && AllWritable(t.types, false, sc, fix)
    ensures forall u <- t.types :: u.Union? ==> MemberLevel(u, fix) > 0
    ensures BareText(t, fix, k) == UnionText(t.types, 0, fix, k)
  {}

  lemma IntersectionParts(t: Type, v: bool, sc: Scope, fix: bool, k: Text)
    requires t.Intersection? && Writable(t, v, sc, fix)
    ensures |t.types| >= 2 && AllWritable(t.types, false, sc, fix)
    ensures BareText(t, fix, k) == IntersectionText(t.types, 0, fix, k)
  {}

  lemma {:induction false} TypeRead(s: Stream, i: nat, e: Errors, t: Type, v: bool, sc: Scope, fix: bool, k: Text)
    requires Writable(t, v, sc, fix) && Spells(s, i, TypeText(t, 0, fix, k)) && Stops(k, 0)
    ensures Read(TypeAt(s, i, e, v, sc), t, s, e, k)
    decreases t, 3
  {
    hide Well, AllWell, Spells, Stops, BareText, UnionText, UnionRest, IntersectionAt, Same, Writable;
    if t.Union? {
      UnionParts(t, v, sc, fix, k);
      UnionHead(t.types, 0, fix, k);
      Weaken(t.types[0], v, sc, fix);
      MemberRead(s, i, e, t.types[0], MemberLevel(t.types[0], fix), v, sc, fix,
                 Put(BAR, UnionText(t.types, 1, fix, k)));
      var r := IntersectionAt(s, i, e, v, sc);
      UnionLoop(s, i, r.pos, e, t, 1, [r.value], v, sc, fix, k);
    } else {
      StopsMore(k);
      MemberRead(s, i, e, t, 0, v, sc, fix, k);
      var r := IntersectionAt(s, i, e, v, sc);
      KindAfter(s, r.pos, k, 0);
      UnionStop(s, i, r.pos, r.err, v, sc, r.value);
    }
  }

  lemma UnionHead(ts: seq<Type>, n: nat, fix: bool, k: Text)
    requires n < |ts|
    ensures UnionText(ts, n, fix, k)
         == TypeText(ts[n], MemberLevel(ts[n], fix), fix,
                     if n + 1 < |ts| then Put(BAR, UnionText(ts, n + 1, fix, k)) else k)
    ensures forall k' :: Stops(Put(BAR, k'), 1)
  {}

  lemma UnionStop(s: Stream, i: nat, j: nat, e: Errors, v: bool, sc: Scope, t: Type)
    requires i < j <= |s.toks| && s.Kind(j) != BAR
    ensures UnionRest(s, i, j, e, v, sc, [t]) == Ok(t, j, e)
  {}

  lemma {:induction false} UnionLoop(s: Stream, i: nat, j: nat, e: Errors, t: Type, n: nat, acc: seq<Type>, v: bool,
                                     sc: Scope, fix: bool, k: Text)
    requires t.Union? && 1 <= n <= |t.types| && |t.types| >= 2 && AllWritable(t.types, false, sc, fix)
    requires forall u <- t.types :: u.Union? ==> MemberLevel(u, fix) > 0
    requires i < j <= |s.toks| && SameAll(t.types[..n], acc) && Stops(k, 0)
    requires Spells(s, j, if n < |t.types| then Put(BAR, UnionText(t.types, n, fix, k)) else k)
    ensures Read(UnionRest(s, i, j, e, v, sc, acc), t, s, e, k)
    decreases t, 2, |t.types| - n
  {
    hide Well, AllWell, Spells, Stops, TypeText, BareText, UnionText, IntersectionAt, Same, Writable;
    var ts := t.types;
    if n < |ts| {
      assert Writable(ts[0], false, sc, fix) && Writable(ts[n], false, sc, fix);
      Weaken(ts[0], false, sc, fix);
      SameVoid(ts[0], acc[0]);
      TakeMark(s, j, BAR, UnionText(ts, n, fix, k));
      UnionHead(ts, n, fix, k);
      var more := if n + 1 < |ts| then Put(BAR, UnionText(ts, n + 1, fix, k)) else k;
      StopsMore(k);
      MemberRead(s, j + 1, e, ts[n], MemberLevel(ts[n], fix), false, sc, fix, more);
      var r := IntersectionAt(s, j + 1, e, false, sc);
      UnionLoop(s, i, r.pos, e, t, n + 1, acc + [r.value], v, sc, fix, k);
    } else {
      KindAfter(s, j, k, 0);
      SameUnion(t, acc, Spanning(s.At(i), s.At(j - 1)));
    }
  }

  lemma SameUnion(t: Type, acc: seq<Type>, loc: Location)
    requires (t.Union? || t.Intersection?) && SameAll(t.types, acc)
    ensures t.Union? ==> Same(t, Union(acc, loc))
    ensures t.Intersection? ==> Same(t, Intersection(acc, loc))
  {}

  lemma StopsMore(k: Text)
    ensures Stops(k, 0) ==> Stops(k, 1)
    ensures Stops(k, 1) ==> Stops(k, 2)
    ensures Stops(k, 2) ==> Stops(k, 3)
  {}

  // A type that is not a bare union.
  lemma {:induction false} MemberRead(s: Stream, i: nat, e: Errors, t: Type, level: nat, v: bool, sc: Scope, fix: bool,
                                      k: Text)
    requires Writable(t, v, sc, fix) && (t.Union? ==> level > 0)
    requires Spells(s, i, TypeText(t, level, fix, k)) && Stops(k, 1)
    ensures Read(IntersectionAt(s, i, e, v, sc), t, s, e, k)
    decreases t, if level > 0 && (t.Union? || t.Intersection?) then 12 else 2, 1
  {
    hide Well, AllWell, Spells, Stops, BareText, IntersectionText, IntersectionRest, OptionalAt, Same, Writable;
    if t.Intersection? && level == 0 {
      IntersectionParts(t, v, sc, fix, k);
      IntersectionHead(t.types, 0, fix, k);
      Weaken(t.types[0], v, sc, fix);
      OptionalRead(s, i, e, t.types[0], 2, v, sc, fix, Put(AMP, IntersectionText(t.types, 1, fix, k)));
      var r := OptionalAt(s, i, e, v, sc);
      IntersectionLoop(s, i, r.pos, e, t, 1, [r.value], v, sc, fix, k);
    } else {
      StopsMore(k);
      OptionalRead(s, i, e, t, level, v, sc, fix, k);
      var r := OptionalAt(s, i, e, v, sc);
      KindAfter(s, r.pos, k, 1);
      IntersectionStop(s, i, r.pos, r.err, v, sc, r.value);
    }
  }

  lemma IntersectionHead(ts: seq<Type>, n: nat, fix: bool, k: Text)
    requires n < |ts|
    ensures IntersectionText(ts, n, fix, k)
         == TypeText(ts[n], 2, fix, if n + 1 < |ts| then Put(AMP, IntersectionText(ts, n + 1, fix, k)) else k)
    ensures forall k' :: Stops(Put(AMP, k'), 2)
  {}

  lemma IntersectionStop(s: Stream, i: nat, j: nat, e: Errors, v: bool, sc: Scope, t: Type)
    requires i < j <= |s.toks| && s.Kind(j) != AMP
    ensures IntersectionRest(s, i, j, e, v, sc, [t]) == Ok(t, j, e)
  {}

  lemma {:induction false} IntersectionLoop(s: Stream, i: nat, j: nat, e: Errors, t: Type, n: nat, acc: seq<Type>,
                                            v: bool, sc: Scope, fix: bool, k: Text)
    requires t.Intersection? && 1 <= n <= |t.types| && |t.types| >= 2 && AllWritable(t.types, false, sc, fix)
    requires i < j <= |s.toks| && SameAll(t.types[..n], acc) && Stops(k, 1)
    requires Spells(s, j, if n < |t.types| then Put(AMP, IntersectionText(t.types, n, fix, k)) else k)
    ensures Read(IntersectionRest(s, i, j, e, v, sc, acc), t, s, e, k)
    decreases t, 1, |t.types| - n
  {
    hide Well, AllWell, Spells, Stops, TypeText, BareText, IntersectionText, OptionalAt, Same, Writable;
    var ts := t.types;
    if n < |ts| {
      assert Writable(ts[0], false, sc, fix) && Writable(ts[n], false, sc, fix);
      Weaken(ts[0], false, sc, fix);
      SameVoid(ts[0], acc[0]);
      TakeMark(s, j, AMP, IntersectionText(ts, n, fix, k));
      IntersectionHead(ts, n, fix, k);
      var more := if n + 1 < |ts| then Put(AMP, IntersectionText(ts, n + 1, fix, k)) else k;
      StopsMore(k);
      OptionalRead(s, j + 1, e, ts[n], 2, false, sc, fix, more);
      var r := OptionalAt(s, j + 1, e, false, sc);
      IntersectionLoop(s, i, r.pos, e, t, n + 1, acc + [r.value], v, sc, fix, k);
    } else {
      KindAfter(s, j, k, 1);
      SameUnion(t, acc, Spanning(s.At(i), s.At(j - 1)));
    }
  }

  lemma OptionalParts(t: Type, v: bool, sc: Scope, fix: bool, k: Text)
    requires t.OptionalType? && Writable(t, v, sc, fix)
    ensures Writable(t.inner, false, sc, fix) && (Wrapped(t.inner, fix) || !t.inner.OptionalType?)
    ensures Wrapped(t.inner, fix) ==>
              TypeText(t, 1, fix, k) == Put(LPAREN, TypeText(t.inner, 0, fix, Put(RPAREN, Put(QUESTION, k))))
    ensures !Wrapped(t.inner, fix) ==>
              TypeText(t, 1, fix, k) == TypeText(t.inner, 1, fix, Put(QUESTION, k)) && Bounds(t.inner, Put(QUESTION, k))
    ensures forall level :: TypeText(t, level, fix, k) == TypeText(t, 1, fix, k)
  {
    if Wrapped(t.inner, fix) {
      var more := Put(RPAREN, Put(QUESTION, k));
      assert TypeText(t.inner, 1, fix, more) == BareText(t.inner, fix, more) == TypeText(t.inner, 0, fix, more);
    }
  }

  // A type that is neither a bare union nor a bare intersection.
  lemma {:induction false} OptionalRead(s: Stream, i: nat, e: Errors, t: Type, level: nat, v: bool, sc: Scope,
                                        fix: bool, k: Text)
    requires Writable(t, v, sc, fix) && (t.Union? || t.Intersection? ==> level > 0)
    requires Spells(s, i, TypeText(t, level, fix, k)) && (Stops(k, 2) || t.OptionalType?)
    ensures Read(OptionalAt(s, i, e, v, sc), t, s, e, k)
    decreases t, if level > 0 && (t.Union? || t.Intersection?) then 12 else 2, 0
  {
    hide Well, AllWell, Spells, Stops, TypeText, BareText, SimpleAt, OptionalAt, Same, Writable, Stream.At,
      Stream.Kind, Spanning;
    if t.OptionalType? {
      MarkedRead(s, i, e, t, level, v, sc, fix, k);
    } else {
      StopsMore(k);
      SimpleRead(s, i, e, t, level, v, sc, fix, k);
      KindAfter(s, SimpleAt(s, i, e, v, sc).pos, k, 2);
      NoQuestionSteps(s, i, e, v, sc);
    }
  }

  lemma {:induction false} MarkedRead(s: Stream, i: nat, e: Errors, t: Type, level: nat, v: bool, sc: Scope,
                                      fix: bool, k: Text)
    requires t.OptionalType? && Writable(t, v, sc, fix) && Spells(s, i, TypeText(t, level, fix, k))
    ensures Read(OptionalAt(s, i, e, v, sc), t, s, e, k)
    decreases t, 1, 0
  {
    hide Well, AllWell, Spells, Stops, TypeText, BareText, SimpleAt, OptionalAt, Same, Writable, Stream.At,
      Stream.Kind, Spanning;
    OptionalParts(t, v, sc, fix, k);
    Weaken(t.inner, v, sc, fix);
    QuestionStops(k);
    if Wrapped(t.inner, fix) {
      GroupRead(s, i, e, t.inner, v, sc, fix, Put(QUESTION, k));
    } else {
      SimpleRead(s, i, e, t.inner, 1, v, sc, fix, Put(QUESTION, k));
    }
    var r := SimpleAt(s, i, e, v, sc);
    TakeMark(s, r.pos, QUESTION, k);
    SameVoid(t.inner, r.value);
    SameOptional(t, r.value, Spanning(s.At(i), s.At(r.pos)));
    QuestionSteps(s, i, e, v, sc, r.value, r.pos);
  }

  lemma QuestionSteps(s: Stream, i: nat, e: Errors, v: bool, sc: Scope, u: Type, p: nat)
    requires SimpleAt(s, i, e, v, sc) == Ok(u, p, e) && s.Kind(p) == QUESTION && !(v && IsVoid(u))
    ensures OptionalAt(s, i, e, v, sc) == Ok(OptionalType(u, Spanning(s.At(i), s.At(p))), p + 1, e)
  {
    hide Well, AllWell, SimpleAt, Stream.At, Stream.Kind, Spanning;
  }

  lemma NoQuestionSteps(s: Stream, i: nat, e: Errors, v: bool, sc: Scope)
    requires SimpleAt(s, i, e, v, sc).Ok? && s.Kind(SimpleAt(s, i, e, v, sc).pos) != QUESTION
    ensures OptionalAt(s, i, e, v, sc) == SimpleAt(s, i, e, v, sc)
  {
    hide Well, AllWell, SimpleAt, Stream.At, Stream.Kind;
  }

  lemma QuestionStops(k: Text)
    ensures Stops(Put(QUESTION, k), 3) && Stops(Put(RPAREN, k), 0)
  {}

  lemma SameOptional(t: Type, u: Type, loc: Location)
    requires t.OptionalType? && Same(t.inner, u)
    ensures Same(t, OptionalType(u, loc))
  {}

  lemma GroupSteps(s: Stream, i: nat, e: Errors, v: bool, sc: Scope, u: Type, p: nat)
    requires s.Kind(i) == LPAREN && TypeAt(s, i + 1, e, v, sc) == Ok(u, p, e) && s.Kind(p) == RPAREN
    ensures SimpleAt(s, i, e, v, sc) == Ok(u, p + 1, e)
  {
    hide Well, AllWell, TypeAt, Stream.At, Stream.Kind;
  }

  // A type in parentheses.
  lemma {:induction false} GroupRead(s: Stream, i: nat, e: Errors, t: Type, v: bool, sc: Scope, fix: bool, k: Text)
    requires Writable(t, v, sc, fix) && Spells(s, i, Put(LPAREN, TypeText(t, 0, fix, Put(RPAREN, k))))
    ensures Read(SimpleAt(s, i, e, v, sc), t, s, e, k)
    decreases t, 4
  {
    hide Well, AllWell, Spells, Stops, TypeText, TypeAt, SimpleAt, Same, Writable, Stream.At, Stream.Kind;
    TakeMark(s, i, LPAREN, TypeText(t, 0, fix, Put(RPAREN, k)));
    QuestionStops(k);
    TypeRead(s, i + 1, e, t, v, sc, fix, Put(RPAREN, k));
    var r := TypeAt(s, i + 1, e, v, sc);
    TakeMark(s, r.pos, RPAREN, k);
    GroupSteps(s, i, e, v, sc, r.value, r.pos);
  }

  // A type that is one unit, or is in parentheses because of its level.
  lemma {:induction false} SimpleRead(s: Stream, i: nat, e: Errors, t: Type, level: nat, v: bool, sc: Scope,
                                      fix: bool, k: Text)
    requires Writable(t, v, sc, fix) && (t.Union? || t.Intersection? ==> level > 0) && !t.OptionalType?
    requires Spells(s, i, TypeText(t, level, fix, k)) && Bounds(t, k)
    ensures Read(SimpleAt(s, i, e, v, sc), t, s, e, k)
    decreases t, if level > 0 && (t.Union? || t.Intersection?) then 11 else 1
  {
    hide Well, AllWell, Spells, Stops, BareText, SimpleAt, Same, Writable;
    if t.Union? || t.Intersection? {
      assert TypeText(t, 0, fix, Put(RPAREN, k)) == BareText(t, fix, Put(RPAREN, k));
      GroupRead(s, i, e, t, v, sc, fix, k);
    } else {
      UnitRead(s, i, e, t, v, sc, fix, k);
    }
  }

  // A type that starts with a token of its own.
  lemma {:induction false} UnitRead(s: Stream, i: nat, e: Errors, t: Type, v: bool, sc: Scope, fix: bool, k: Text)
    requires Writable(t, v, sc, fix) && !t.OptionalType? && !t.Union? && !t.Intersection?
    requires Spells(s, i, BareText(t, fix, k)) && Bounds(t, k)
    ensures Read(SimpleAt(s, i, e, v, sc), t, s, e, k)
    decreases t, 0, 1
  {
    hide SimpleAt, BareText, Same, Writable, Stops, Spells;
    match t
    case Base(_, _) => BaseRead(s, i, e, t, v, sc, fix, k);
    case Variable(_, _) => VariableRead(s, i, e, t, v, sc, fix, k);
    case LiteralType(_, _) => LiteralRead(s, i, e, t, v, sc, fix, k);
    case Application(_, _, _, _, _) => ApplicationRead(s, i, e, t, v, sc, fix, k);
    case Singleton(_, _, _, _, _) => SingletonRead(s, i, e, t, v, sc, fix, k);
    case Tuple(_, _) => TupleRead(s, i, e, t, v, sc, fix, k);
    case Record(_, _) => RecordRead(s, i, e, t, v, sc, fix, k);
    case Proc(_, _, _, _) => ProcRead(s, i, e, t, v, sc, fix, k);
  }

  lemma BaseRead(s: Stream, i: nat, e: Errors, t: Type, v: bool, sc: Scope, fix: bool, k: Text)
    requires t.Base? && Writable(t, v, sc, fix) && Spells(s, i, BareText(t, fix, k))
    ensures Read(SimpleAt(s, i, e, v, sc), t, s, e, k)
  {
    hide LiteralOf, KindOfName, AllWell, TypeAt, TupleAt, RecordAt, ProcAt, ApplicationAt, SingletonAt;
    TakeMark(s, i, KeywordOf(t.base), k);
    assert BaseOf(KeywordOf(t.base)) == Some(t.base) && KeywordOf(t.base) != LPAREN;
  }

  lemma VariableRead(s: Stream, i: nat, e: Errors, t: Type, v: bool, sc: Scope, fix: bool, k: Text)
    requires t.Variable? && Writable(t, v, sc, fix) && Spells(s, i, BareText(t, fix, k))
    ensures Read(SimpleAt(s, i, e, v, sc), t, s, e, k)
  {
    TakeName(s, i, ClassName, t.varName, false, k);
  }

  lemma LiteralRead(s: Stream, i: nat, e: Errors, t: Type, v: bool, sc: Scope, fix: bool, k: Text)
    requires t.LiteralType? && Writable(t, v, sc, fix) && Spells(s, i, BareText(t, fix, k))
    ensures Read(SimpleAt(s, i, e, v, sc), t, s, e, k)
  {
    hide Spells;
    assert Spells(s, i, PutBody(LiteralMark(t.lit), k));
    TakeLiteral(s, i, t.lit, k);
  }

  // ---- lists of types -------------------------------------------------------------------------------

  lemma ListHead(ts: seq<Type>, n: nat, fix: bool, k: Text)
    requires n < |ts|
    ensures ListText(ts, n, fix, k)
         == TypeText(ts[n], 0, fix, if n + 1 < |ts| then Put(COMMA, ListText(ts, n + 1, fix, k)) else k)
    ensures forall k' :: Stops(Put(COMMA, k'), 0)
  {}

  // The closing bracket stays unread.
  lemma {:induction false} ListRead(s: Stream, i: nat, e: Errors, ts: seq<Type>, n: nat, acc: seq<Type>, v: bool,
                                    sc: Scope, fix: bool, comma: bool, k: Text)
    requires n < |ts| && AllWritable(ts, v, sc, fix) && SameAll(ts[..n], acc)
    requires Spells(s, i, ListText(ts, n, fix, Closed(RBRACKET, comma, k)))
    ensures var r := TypeListAt(s, i, e, v, sc, acc);
            r.Ok? && SameAll(ts, r.value) && r.err == e && Spells(s, r.pos + 1, k)
    decreases ts, 5, |ts| - n
  {
    hide Well, AllWell, Spells, Stops, TypeText, ListText, TypeAt, Same, Writable, Closed,
      Stream.Kind;
    var end := Closed(RBRACKET, comma, k);
    ListHead(ts, n, fix, end);
    ClosedStops(RBRACKET, comma, k);
    assert Writable(ts[n], v, sc, fix);
    var more := if n + 1 < |ts| then Put(COMMA, ListText(ts, n + 1, fix, end)) else end;
    TypeRead(s, i, e, ts[n], v, sc, fix, more);
    var r := TypeAt(s, i, e, v, sc);
    if n + 1 < |ts| {
      var tail := ListText(ts, n + 1, fix, end);
      TakeMark(s, r.pos, COMMA, tail);
      ListRead(s, r.pos + 1, e, ts, n + 1, acc + [r.value], v, sc, fix, comma, k);
      NotBracket(s, r.pos + 1, e, v, sc, acc + [r.value]);
    } else {
      TakeClosed(s, r.pos, RBRACKET, comma, k);
      assert ts[..n + 1] == ts;
    }
  }

  lemma NoneSame(ts: seq<Type>)
    ensures SameAll(ts[..0], []) && (ts == [] ==> SameAll(ts, []))
  {}

  // Where a type list can be read, the list does not end.
  lemma NotBracket(s: Stream, i: nat, e: Errors, v: bool, sc: Scope, acc: seq<Type>)
    requires TypeListAt(s, i, e, v, sc, acc).Ok?
    ensures s.Kind(i) != RBRACKET
  {
    StartsType(s, i, e, v, sc);
  }

  // Tokens a type can start with are none of these.
  predicate Begins(k: TokenKind) {
    && k != RBRACKET && k != RBRACE && k != RPAREN && k != QUESTION && k != STAR && k != STAR2 && k != DOT3 && k != COMMA
    && k != COLON && k != EOF
  }

  // Tokens no type starts with.
  lemma StartsType(s: Stream, i: nat, e: Errors, v: bool, sc: Scope)
    requires TypeAt(s, i, e, v, sc).Ok?
    ensures Begins(s.Kind(i))
  {
    hide UnionRest, IntersectionRest, SimpleAt;
    assert IntersectionAt(s, i, e, v, sc).Ok?;
    assert OptionalAt(s, i, e, v, sc).Ok?;
    StartsSimple(s, i, e, v, sc);
  }

  lemma StartsSimple(s: Stream, i: nat, e: Errors, v: bool, sc: Scope)
    requires SimpleAt(s, i, e, v, sc).Ok?
    ensures Begins(s.Kind(i))
  {
    hide Well, AllWell, TypeAt, ApplicationAt, SingletonAt, TupleAt, RecordAt, ProcAt;
  }

  lemma {:induction false} ArgsRead(s: Stream, i: nat, e: Errors, args: seq<Type>, sc: Scope, fix: bool, k: Text)
    requires AllWritable(args, true, sc, fix) && Spells(s, i, ArgsText(args, fix, k)) && Stops(k, 3)
    ensures i <= |s.toks|
    ensures var r := TypeArgsAt(s, i, e, sc);
            r.Ok? && SameAll(args, r.value.0) && r.err == e && Spells(s, r.pos, k)
    decreases args, 6
  {
    hide Well, AllWell, Spells, Stops, ListText, TypeListAt, Same, Writable, Closed;
    if args == [] {
      KindAfter(s, i, k, 3);
    } else {
      TakeMark(s, i, LBRACKET, ListText(args, 0, fix, Closed(RBRACKET, fix, k)));
      ListRead(s, i + 1, e, args, 0, [], true, sc, fix, fix, k);
    }
  }

  lemma ApplicationParts(t: Type, v: bool, sc: Scope, fix: bool, k: Text)
    requires t.Application? && Writable(t, v, sc, fix)
    ensures AllWritable(t.args, true, Scope(sc.vars, true, true), fix) && NotShadowed(t.name, sc.vars)
    ensures BareText(t, fix, k) == NameText(t.name, ArgsText(t.args, fix, k))
    ensures t.name.kind in ANY_NAME
  {
    match t.name.kind
    case ClassName =>
    case InterfaceName =>
    case AliasName =>
  }

  lemma ArgsEndName(args: seq<Type>, fix: bool, k: Text)
    requires Stops(k, 3)
    ensures EndsName(ArgsText(args, fix, k))
  {
    StopsEndName(k);
  }

  lemma {:induction false} StopsEndName(k: Text)
    requires Stops(k, 3)
    ensures EndsName(k)
    decreases k
  {
    if k.Either? {
      StopsEndName(k.one);
      StopsEndName(k.other);
    }
  }

  lemma SameApplied(t: Type, args: seq<Type>, l1: Location, l2: Location, l3: Location)
    requires (t.Application? || t.Singleton?) && SameAll(t.args, args)
    ensures t.Application? ==> Same(t, Application(t.name, args, l1, l2, l3))
    ensures t.Singleton? ==> Same(t, Singleton(t.name, args, l1, l2, l3))
  {}

  lemma {:induction false} ApplicationRead(s: Stream, i: nat, e: Errors, t: Type, v: bool, sc: Scope, fix: bool, k: Text)
    requires t.Application? && Writable(t, v, sc, fix) && Spells(s, i, BareText(t, fix, k)) && Stops(k, 3)
    ensures Read(SimpleAt(s, i, e, v, sc), t, s, e, k)
    decreases t, 0, 0
  {
    hide Well, AllWell, Spells, Stops, Writable, ArgsText, BareText, NotShadowed, NameText, SimpleAt, TypeNameAt,
      TypeArgsAt, ApplicationAt, Same, SameAll, EndsName, KindOfName;
    var args := ArgsText(t.args, fix, k);
    ApplicationParts(t, v, sc, fix, k);
    ArgsEndName(t.args, fix, k);
    ApplicationStarts(s, i, e, t.name, args, v, sc);
    NameRead(s, i, e, t.name, args, ANY_NAME);
    var n := TypeNameAt(s, i, e, ANY_NAME);
    ArgsRead(s, n.pos, e, t.args, Scope(sc.vars, true, true), fix, k);
    ApplicationSteps(s, i, e, t, sc);
  }

  lemma ApplicationSteps(s: Stream, i: nat, e: Errors, t: Type, sc: Scope)
    requires s.Kind(i) == UIDENT ==> s.At(i).text !in sc.vars
    requires t.Application? && TypeNameAt(s, i, e, ANY_NAME).Ok? && TypeNameAt(s, i, e, ANY_NAME).value == t.name
    ensures var n := TypeNameAt(s, i, e, ANY_NAME);
            var a := TypeArgsAt(s, n.pos, n.err, Scope(sc.vars, true, true));
            a.Ok? && SameAll(t.args, a.value.0) ==>
              var r := ApplicationAt(s, i, e, sc);
              r.Ok? && Same(t, r.value) && r.pos == a.pos && r.err == a.err
  {
    hide Well, AllWell, TypeNameAt, TypeArgsAt;
  }

  // An unshadowed name is not taken for a type variable or anything else.
  lemma ApplicationStarts(s: Stream, i: nat, e: Errors, n: TypeName, k: Text, v: bool, sc: Scope)
    requires Spells(s, i, NameText(n, k)) && NotShadowed(n, sc.vars)
    ensures s.Kind(i) == UIDENT ==> s.At(i).text !in sc.vars
    ensures SimpleAt(s, i, e, v, sc) == ApplicationAt(s, i, e, sc)
  {
    hide Well, AllWell, ApplicationAt, SingletonAt, TupleAt, RecordAt, ProcAt, TypeAt, IsKeywordToken, Spells;
    if n.absolute {
      TakeMark(s, i, COLON2, PathText(n, 0, true, k));
    } else if n.path != [] {
      TakeName(s, i, ClassName, n.path[0], false, PutGlued(COLON2, PathText(n, 1, true, k)));
    } else {
      TakeName(s, i, n.kind, n.name, false, k);
    }
  }

  lemma SingletonParts(t: Type, v: bool, sc: Scope, fix: bool, k: Text)
    requires t.Singleton? && Writable(t, v, sc, fix)
    ensures AllWritable(t.args, true, sc, fix) && t.name.kind == ClassName
    ensures BareText(t, fix, k)
         == Put(KW_SINGLETON, Put(LPAREN, NameText(t.name, Put(RPAREN, ArgsText(t.args, fix, k)))))
    ensures forall k' :: EndsName(Put(RPAREN, k'))
  {}

  lemma SingletonSteps(s: Stream, i: nat, e: Errors, v: bool, sc: Scope, n: TypeName, p: nat,
                       args: seq<Type>, l: Location, q: nat)
    requires s.Kind(i) == KW_SINGLETON && s.Kind(i + 1) == LPAREN
    requires TypeNameAt(s, i + 2, e, {ClassName}) == Ok(n, p, e) && s.Kind(p) == RPAREN
    requires TypeArgsAt(s, p + 1, e, sc) == Ok((args, l), q, e) && q > 0 && p > 0
    ensures SimpleAt(s, i, e, v, sc)
         == Ok(Singleton(n, args, Spanning(s.At(i), s.At(q - 1)), Spanning(s.At(i + 2), s.At(p - 1)), l), q, e)
  {
    hide Well, AllWell, TypeNameAt, TypeArgsAt, SimpleAt, Stream.At, Stream.Kind, Spanning;
    MarkStarts(s, i, e, v, sc);
  }

  lemma {:induction false} SingletonRead(s: Stream, i: nat, e: Errors, t: Type, v: bool, sc: Scope, fix: bool, k: Text)
    requires t.Singleton? && Writable(t, v, sc, fix) && Spells(s, i, BareText(t, fix, k)) && Stops(k, 3)
    ensures Read(SimpleAt(s, i, e, v, sc), t, s, e, k)
    decreases t, 0, 0
  {
    hide Well, AllWell, Spells, Stops, Writable, AllWritable, ArgsText, BareText, NameText, TypeNameAt, TypeArgsAt,
      SimpleAt, SingletonAt, Same, SameAll, EndsName, KindOfName, Stream.At, Stream.Kind, Spanning, Read;
    var args := ArgsText(t.args, fix, k);
    SingletonParts(t, v, sc, fix, k);
    TakeMark(s, i, KW_SINGLETON, Put(LPAREN, NameText(t.name, Put(RPAREN, args))));
    TakeMark(s, i + 1, LPAREN, NameText(t.name, Put(RPAREN, args)));
    assert EndsName(Put(RPAREN, args));
    NameRead(s, i + 2, e, t.name, Put(RPAREN, args), {ClassName});
    var n := TypeNameAt(s, i + 2, e, {ClassName});
    TakeMark(s, n.pos, RPAREN, args);
    ArgsRead(s, n.pos + 1, n.err, t.args, sc, fix, k);
    var a := TypeArgsAt(s, n.pos + 1, n.err, sc);
    var l1, l2 := Spanning(s.At(i), s.At(a.pos - 1)), Spanning(s.At(i + 2), s.At(n.pos - 1));
    SameApplied(t, a.value.0, l1, l2, a.value.1);
    SingletonSteps(s, i, e, v, sc, t.name, n.pos, a.value.0, a.value.1, a.pos);
    ReadIs(SimpleAt(s, i, e, v, sc), Singleton(t.name, a.value.0, l1, l2, a.value.1), a.pos, t, s, e, k);
  }

  lemma MarkStarts(s: Stream, i: nat, e: Errors, v: bool, sc: Scope)
    ensures s.Kind(i) == KW_SINGLETON ==> SimpleAt(s, i, e, v, sc) == SingletonAt(s, i, e, sc)
    ensures s.Kind(i) == LBRACKET ==> SimpleAt(s, i, e, v, sc) == TupleAt(s, i, e, sc)
    ensures s.Kind(i) == LBRACE ==> SimpleAt(s, i, e, v, sc) == RecordAt(s, i, e, sc)
    ensures s.Kind(i) == HAT ==> SimpleAt(s, i, e, v, sc) == ProcAt(s, i, e, sc)
  {
    hide Well, AllWell, TypeAt, ApplicationAt, SingletonAt, TupleAt, RecordAt, ProcAt;
  }

  lemma TupleParts(t: Type, v: bool, sc: Scope, fix: bool, k: Text)
    requires t.Tuple? && Writable(t, v, sc, fix)
    ensures AllWritable(t.types, false, sc, fix)
    ensures var comma := fix && t.types != [];
            var brackets := Put(LBRACKET, ListText(t.types, 0, fix, Closed(RBRACKET, comma, k)));
            && BareText(t, fix, k) == (if fix && t.types == [] then Either(Put(AREF_OPR, k), brackets) else brackets)
            && (t.types == [] ==> ListText(t.types, 0, fix, Closed(RBRACKET, comma, k)) == Put(RBRACKET, k))
  {}

  lemma TakeEither(s: Stream, i: nat, x: Text, y: Text)
    requires Spells(s, i, Either(x, y))
    ensures Spells(s, i, x) || Spells(s, i, y)
  {}

  lemma SameTuple(t: Type, ts: seq<Type>, loc: Location)
    requires t.Tuple? && SameAll(t.types, ts)
    ensures Same(t, Tuple(ts, loc))
  {}

  lemma {:induction false} TupleRead(s: Stream, i: nat, e: Errors, t: Type, v: bool, sc: Scope, fix: bool, k: Text)
    requires t.Tuple? && Writable(t, v, sc, fix) && Spells(s, i, BareText(t, fix, k))
    ensures Read(SimpleAt(s, i, e, v, sc), t, s, e, k)
    decreases t, 0, 0
  {
    hide Well, AllWell, Spells, Stops, Writable, AllWritable, ListText, BareText, TypeListAt, TupleAt, SimpleAt, Same,
      SameAll, Read, Closed, Put, Stream.At, Stream.Kind, Spanning, LocOf;
    TupleParts(t, v, sc, fix, k);
    NoneSame(t.types);
    var comma := fix && t.types != [];
    var list := ListText(t.types, 0, fix, Closed(RBRACKET, comma, k));
    if fix && t.types == [] {
      TakeEither(s, i, Put(AREF_OPR, k), Put(LBRACKET, list));
      if Spells(s, i, Put(AREF_OPR, k)) {
        TakeMark(s, i, AREF_OPR, k);
        ArefSteps(s, i, e, v, sc);
        SameTuple(t, [], LocOf(s.At(i)));
        ReadIs(SimpleAt(s, i, e, v, sc), Tuple([], LocOf(s.At(i))), i + 1, t, s, e, k);
        return;
      }
    }
    TakeMark(s, i, LBRACKET, list);
    var ts, end := [], i + 1;
    if t.types == [] {
      TakeMark(s, i + 1, RBRACKET, k);
      EmptyTupleSteps(s, i, e, v, sc);
    } else {
      ListRead(s, i + 1, e, t.types, 0, [], false, sc, fix, comma, k);
      var r := TypeListAt(s, i + 1, e, false, sc, []);
      ts, end := r.value, r.pos;
      TupleSteps(s, i, e, v, sc, ts, end);
    }
    SameTuple(t, ts, Spanning(s.At(i), s.At(end)));
    ReadIs(SimpleAt(s, i, e, v, sc), Tuple(ts, Spanning(s.At(i), s.At(end))), end + 1, t, s, e, k);
  }

  lemma ArefSteps(s: Stream, i: nat, e: Errors, v: bool, sc: Scope)
    requires s.Kind(i) == AREF_OPR
    ensures SimpleAt(s, i, e, v, sc) == Ok(Tuple([], LocOf(s.At(i))), i + 1, e)
  {
    hide Well, AllWell, TypeAt, ApplicationAt, SingletonAt, TupleAt, RecordAt, ProcAt, LocOf;
  }

  lemma EmptyTupleSteps(s: Stream, i: nat, e: Errors, v: bool, sc: Scope)
    requires s.Kind(i) == LBRACKET && s.Kind(i + 1) == RBRACKET
    ensures SimpleAt(s, i, e, v, sc) == Ok(Tuple([], Spanning(s.At(i), s.At(i + 1))), i + 2, e)
  {
    hide Well, AllWell, TypeListAt, SimpleAt, Stream.At, Stream.Kind, Spanning;
    MarkStarts(s, i, e, v, sc);
  }

  lemma TupleSteps(s: Stream, i: nat, e: Errors, v: bool, sc: Scope, ts: seq<Type>, p: nat)
    requires s.Kind(i) == LBRACKET && TypeListAt(s, i + 1, e, false, sc, []) == Ok(ts, p, e)
    ensures SimpleAt(s, i, e, v, sc) == Ok(Tuple(ts, Spanning(s.At(i), s.At(p))), p + 1, e)
  {
    hide Well, AllWell, TypeListAt, SimpleAt, Stream.At, Stream.Kind, Spanning;
    MarkStarts(s, i, e, v, sc);
    NotBracket(s, i + 1, e, false, sc, []);
  }

  // ---- records --------------------------------------------------------------------------------------

  ghost predicate SameFields(fs: Fields, gs: Fields) {
    |fs| == |gs| && forall i | 0 <= i < |fs| :: SameField(fs[i], gs[i])
  }

  ghost predicate FieldWritable(f: FieldType, sc: Scope, fix: bool) {
    Writable(f.ty, false, sc, fix)
  }

  lemma TakeKey(s: Stream, i: nat, k: string, rest: Text)
    requires Spells(s, i, PutBody(KeyMark(k), rest))
    ensures i < |s.toks| && IsKeywordToken(s.Kind(i)) && s.At(i).text == k && Spells(s, i + 1, rest)
  {}

  lemma KeywordTokens(k: TokenKind)
    requires IsKeywordToken(k)
    ensures k != QUESTION && k != RBRACE && k != RPAREN && k != COMMA && k != STAR && k != STAR2 && k != DOT3
            && k != RBRACKET && k != LBRACE && k != EOF && k != LPAREN && k != HAT && k != AREF_OPR && k != COLON2
            && k != LBRACKET
  {}

  lemma LiteralTokens(t: Token)
    requires LiteralOf(t).Some?
    ensures t.kind != QUESTION && t.kind != RBRACE && t.kind != EOF && t.kind != LPAREN && t.kind != RPAREN
    ensures BaseOf(t.kind).None?
  {}

  lemma KeySteps(s: Stream, i: nat, e: Errors, acc: Fields)
    ensures var n := if s.Kind(i) == QUESTION then i + 1 else i;
            var k := SymbolLit(s.At(n).text);
            IsKeywordToken(s.Kind(n)) && s.Kind(n + 1) == COLON && s.Touching(n) && !HasKey(acc, k) ==>
              FieldKeyAt(s, i, e, acc) == Ok(k, n + 2, e)
    ensures var n := if s.Kind(i) == QUESTION then i + 1 else i;
            var k := LiteralOf(s.At(n));
            s.Kind(n) != EOF && k.Some? && s.Kind(n + 1) == FAT_ARROW && !HasKey(acc, k.value) ==>
              FieldKeyAt(s, i, e, acc) == Ok(k.value, n + 2, e)
  {
    hide LiteralOf, HasKey, IsKeywordToken;
  }

  // A word touching a colon is a key, and one touching a `?` and a colon is the key with the `?` in it; a `?` before the
  // key is not part of it, and a key that is there already is an error that does not stop the parser.
  lemma KeysAreRead(s: Stream, i: nat, e: Errors, acc: Fields)
    ensures var n := if s.Kind(i) == QUESTION then i + 1 else i;
            var asked := s.Kind(n + 1) == QUESTION;
            var colon := if asked then n + 2 else n + 1;
            var k := SymbolLit(if asked then s.At(n).text + "?" else s.At(n).text);
            IsWordLike(s.Kind(n)) && s.Touching(n) && (asked ==> s.Touching(n + 1)) && s.Kind(colon) == COLON ==>
              FieldKeyAt(s, i, e, acc) ==
                Ok(k, colon + 1, if HasKey(acc, k) then Some(FirstError(e, s.At(colon - 1), true)) else e)
  {
    hide HasKey, LiteralOf, Stream.Touching, Stream.At;
  }

  lemma KeyTokens(s: Stream, n: nat, f: Entry<Literal, FieldType>, fix: bool, next: Text)
    requires Spells(s, n, FieldText(f, fix, next))
    ensures s.Kind(n) != QUESTION && s.Kind(n) != EOF && Spells(s, n + 2, FieldTypeText(f.value, fix, next))
    ensures if IsPlainKey(f.key)
            then IsKeywordToken(s.Kind(n)) && s.Kind(n + 1) == COLON && s.Touching(n) && f.key == SymbolLit(s.At(n).text)
            else LiteralOf(s.At(n)) == Some(f.key) && s.Kind(n + 1) == FAT_ARROW
  {
    hide Spells, IsPlainKey, LiteralOf, FieldText, FieldTypeText, IsKeywordToken;
    var ty := FieldTypeText(f.value, fix, next);
    FieldParts(f, fix, next);
    if IsPlainKey(f.key) {
      TakeKey(s, n, f.key.sym, PutGlued(COLON, ty));
      KeywordTokens(s.Kind(n));
      TakeGlued(s, n + 1, COLON, ty);
    } else {
      TakeLiteral(s, n, f.key, Put(FAT_ARROW, ty));
      LiteralTokens(s.At(n));
      TakeMark(s, n + 1, FAT_ARROW, ty);
    }
  }

  // The key of a field, with its `?` if it is optional, and what stands between it and the type.
  lemma KeyRead(s: Stream, i: nat, e: Errors, f: Entry<Literal, FieldType>, acc: Fields, fix: bool, next: Text)
    requires !HasKey(acc, f.key)
    requires Spells(s, i, if f.value.required then FieldText(f, fix, next) else Put(QUESTION, FieldText(f, fix, next)))
    ensures (s.Kind(i) != QUESTION) == f.value.required
    ensures var r := FieldKeyAt(s, i, e, acc);
            r.Ok? && r.value == f.key && r.err == e && Spells(s, r.pos, FieldTypeText(f.value, fix, next))
  {
    hide Spells, IsPlainKey, LiteralOf, FieldText, FieldTypeText, FieldKeyAt, HasKey, IsKeywordToken;
    if !f.value.required {
      TakeMark(s, i, QUESTION, FieldText(f, fix, next));
    }
    KeyTokens(s, if f.value.required then i else i + 1, f, fix, next);
    KeySteps(s, i, e, acc);
  }

  lemma FieldParts(f: Entry<Literal, FieldType>, fix: bool, next: Text)
    ensures var ty := FieldTypeText(f.value, fix, next);
            if IsPlainKey(f.key)
            then f.key.SymbolLit? && FieldText(f, fix, next) == PutBody(KeyMark(f.key.sym), PutGlued(COLON, ty))
            else FieldText(f, fix, next) == PutBody(LiteralMark(f.key), Put(FAT_ARROW, ty))
  {}

  lemma {:induction false} FieldRead(s: Stream, i: nat, e: Errors, f: Entry<Literal, FieldType>, sc: Scope, acc: Fields,
                                     fix: bool, next: Text)
    requires FieldWritable(f.value, sc, fix) && !HasKey(acc, f.key) && Stops(next, 0)
    requires Spells(s, i, if f.value.required then FieldText(f, fix, next) else Put(QUESTION, FieldText(f, fix, next)))
    ensures var r := FieldAt(s, i, e, sc, acc);
            r.Ok? && |r.value| == |acc| + 1 && r.value[..|acc|] == acc && SameField(f, r.value[|acc|])
            && r.err == e && Spells(s, r.pos, next)
    decreases f
  {
    hide Well, FieldsWell, Spells, Stops, Writable, FieldText, TypeText, FieldKeyAt, TypeAt, Same, HashFind;
    KeyRead(s, i, e, f, acc, fix, next);
    var k := FieldKeyAt(s, i, e, acc);
    TypeRead(s, k.pos, e, f.value.ty, false, sc, fix, next);
  }

  lemma KeyFresh(fs: Fields, n: nat, acc: Fields)
    requires DistinctKeys(fs) && n < |fs| && SameFields(fs[..n], acc)
    ensures !HasKey(acc, fs[n].key)
  {
    hide Same;
    forall i | 0 <= i < n
      ensures acc[i].key == fs[i].key
    {
      assert SameField(fs[..n][i], acc[i]);
    }
  }

  lemma FieldsHead(fs: Fields, n: nat, fix: bool, k: Text)
    requires n < |fs|
    ensures var next := if n + 1 < |fs| then Put(COMMA, FieldsText(fs, n + 1, fix, k)) else k;
            FieldsText(fs, n, fix, k) ==
              if fs[n].value.required then FieldText(fs[n], fix, next) else Put(QUESTION, FieldText(fs[n], fix, next))
    ensures forall k' :: Stops(Put(COMMA, k'), 0)
  {}

  lemma NotBrace(s: Stream, i: nat, e: Errors, sc: Scope, acc: Fields)
    requires FieldsAt(s, i, e, sc, acc).Ok?
    ensures s.Kind(i) != RBRACE
  {
    hide TypeAt, FieldsWell, FieldKeyAt;
    assert FieldAt(s, i, e, sc, acc).Ok? && FieldKeyAt(s, i, e, acc).Ok?;
    KeyIsNotBrace(s, i, e, acc);
  }

  lemma KeyIsNotBrace(s: Stream, i: nat, e: Errors, acc: Fields)
    requires FieldKeyAt(s, i, e, acc).Ok?
    ensures s.Kind(i) != RBRACE
  {
    hide IsKeyword, CheckDuplicate, KeyAt;
    if s.Kind(i) == RBRACE {
      assert !IsKeywordToken(RBRACE);
      NoKeyword(s, i);
    }
  }

  lemma NoKeyword(s: Stream, i: nat)
    requires !IsKeywordToken(s.Kind(i))
    ensures !IsKeyword(s, i)
  {}

  // The closing brace stays unread.
  lemma {:induction false} FieldsRead(s: Stream, i: nat, e: Errors, fs: Fields, n: nat, acc: Fields, sc: Scope,
                                      fix: bool, comma: bool, k: Text)
    requires n < |fs| && DistinctKeys(fs) && SameFields(fs[..n], acc)
    requires forall f <- fs :: FieldWritable(f.value, sc, fix)
    requires Spells(s, i, FieldsText(fs, n, fix, Closed(RBRACE, comma, k)))
    ensures var r := FieldsAt(s, i, e, sc, acc);
            r.Ok? && SameFields(fs, r.value) && r.err == e && Spells(s, r.pos, Put(RBRACE, k))
    decreases fs, |fs| - n
  {
    hide Well, FieldsWell, Spells, Stops, FieldWritable, FieldText, FieldsText, FieldAt, SameField, HasKey,
      DistinctKeys, Closed;
    var end := Closed(RBRACE, comma, k);
    FieldsHead(fs, n, fix, end);
    ClosedStops(RBRACE, comma, k);
    KeyFresh(fs, n, acc);
    var more := if n + 1 < |fs| then Put(COMMA, FieldsText(fs, n + 1, fix, end)) else end;
    FieldRead(s, i, e, fs[n], sc, acc, fix, more);
    var r := FieldAt(s, i, e, sc, acc);
    if n + 1 < |fs| {
      TakeMark(s, r.pos, COMMA, FieldsText(fs, n + 1, fix, end));
      FieldsRead(s, r.pos + 1, e, fs, n + 1, r.value, sc, fix, comma, k);
      NotBrace(s, r.pos + 1, e, sc, r.value);
    } else {
      TakeClosed(s, r.pos, RBRACE, comma, k);
      assert fs[..n + 1] == fs;
    }
  }

  lemma RecordParts(t: Type, v: bool, sc: Scope, fix: bool, k: Text)
    requires t.Record? && Writable(t, v, sc, fix)
    ensures DistinctKeys(t.fields) && forall f <- t.fields :: FieldWritable(f.value, sc, fix)
    ensures var fields := FieldsText(t.fields, 0, fix, Closed(RBRACE, fix && t.fields != [], k));
            BareText(t, fix, k) == Put(LBRACE, fields) && (t.fields == [] ==> fields == Put(RBRACE, k))
    ensures SameFields(t.fields[..0], [])
  {}

  lemma SameRecord(t: Type, fs: Fields, loc: Location)
    requires t.Record? && SameFields(t.fields, fs)
    ensures Same(t, Ast.Record(fs, loc))
  {}

  lemma {:induction false} RecordRead(s: Stream, i: nat, e: Errors, t: Type, v: bool, sc: Scope, fix: bool, k: Text)
    requires t.Record? && Writable(t, v, sc, fix) && Spells(s, i, BareText(t, fix, k))
    ensures Read(SimpleAt(s, i, e, v, sc), t, s, e, k)
    decreases t, 0, 0
  {
    hide Well, FieldsWell, Spells, Writable, FieldsText, BareText, FieldsAt, AttributesAt, RecordAt, SimpleAt, Same,
      SameFields, FieldWritable, DistinctKeys, Put, Closed, Read, Stream.At, Stream.Kind, Spanning;
    RecordParts(t, v, sc, fix, k);
    var comma := fix && t.fields != [];
    TakeMark(s, i, LBRACE, FieldsText(t.fields, 0, fix, Closed(RBRACE, comma, k)));
    NoFieldsSame(t.fields);
    var fs, end := [], i + 1;
    if t.fields != [] {
      FieldsRead(s, i + 1, e, t.fields, 0, [], sc, fix, comma, k);
      var r := FieldsAt(s, i + 1, e, sc, []);
      fs, end := r.value, r.pos;
    }
    TakeMark(s, end, RBRACE, k);
    RecordSteps(s, i, e, v, sc, fs, end);
    SameRecord(t, fs, Spanning(s.At(i), s.At(end)));
    ReadIs(SimpleAt(s, i, e, v, sc), Ast.Record(fs, Spanning(s.At(i), s.At(end))), end + 1, t, s, e, k);
  }

  lemma NoFieldsSame(fs: Fields)
    ensures fs == [] ==> SameFields(fs, [])
  {}

  lemma RecordSteps(s: Stream, i: nat, e: Errors, v: bool, sc: Scope, fs: Fields, p: nat)
    requires s.Kind(i) == LBRACE && s.Kind(p) == RBRACE
    requires (fs == [] && p == i + 1) || FieldsAt(s, i + 1, e, sc, []) == Ok(fs, p, e)
    ensures SimpleAt(s, i, e, v, sc) == Ok(Ast.Record(fs, Spanning(s.At(i), s.At(p))), p + 1, e)
  {
    hide Well, FieldsWell, FieldsAt, SimpleAt, Stream.At, Stream.Kind, Spanning;
    MarkStarts(s, i, e, v, sc);
    if FieldsAt(s, i + 1, e, sc, []).Ok? {
      NotBrace(s, i + 1, e, sc, []);
    }
  }

  // ---- parameters -----------------------------------------------------------------------------------

  ghost predicate ParamWritable(p: Param, sc: Scope, fix: bool) {
    Writable(p.ty, false, sc, fix) && (fix || PlainParam(p))
  }

  // A parameter is followed by a comma or the closing parenthesis.
  predicate Closes(k: Text)
    decreases k
  {
    match k
    case End => false
    case Either(x, y) => Closes(x) && Closes(y)
    case More(h, _) => h == Lexeme(Mark(COMMA), false) || h == Lexeme(Mark(RPAREN), false)
  }

  lemma {:induction false} ClosesKind(s: Stream, i: nat, k: Text)
    requires Spells(s, i, k) && Closes(k)
    ensures i < |s.toks| && (s.Kind(i) == COMMA || s.Kind(i) == RPAREN)
    decreases k
  {
    if k.Either? {
      ClosesKind(s, i, if Spells(s, i, k.one) then k.one else k.other);
    }
  }

  lemma {:induction false} ClosesStops(k: Text)
    requires Closes(k)
    ensures Stops(k, 0)
    decreases k
  {
    if k.Either? {
      ClosesStops(k.one);
      ClosesStops(k.other);
    }
  }

  // What is written for a name is a token that can name a parameter, unless it is read as an integer first; it names
  // the same one exactly if the name is plain.
  lemma TakeParam(s: Stream, i: nat, n: string, fix: bool, rest: Text)
    requires Spells(s, i, ParamNameText(Some(n), fix, rest))
    ensures i < |s.toks| && (fix || PlainName(n) ==> IsKeywordToken(s.Kind(i)) && s.At(i).unquoted == n)
    ensures if IsKeywordToken(s.Kind(i)) then Spells(s, i + 1, rest) else s.Kind(i) == INTEGER
    ensures !fix && IsKeywordToken(s.Kind(i)) && s.At(i).unquoted == n ==> PlainName(n)
  {
    hide Spells, HasEscape;
    if fix {
      TakeBody(s, i, ParamMark(n), rest);
    } else if !IsWordName(n) {
      TakeBody(s, i, QuotedMark(n), rest);
      UnescapedSame(n);
    } else if IsDigit(n[0]) {
      var k := NumberLength(n);
      TakeBody(s, i, LiteralMark(IntegerLit(n[..k])), if k < |n| then More(Lexeme(WordMark(n[k..]), true), rest) else rest);
    } else {
      TakeBody(s, i, WordMark(n), rest);
    }
  }

  lemma TakeBody(s: Stream, i: nat, b: Body, rest: Text)
    requires Spells(s, i, PutBody(b, rest))
    ensures Fits(Lexeme(b, false), s, i) && Spells(s, i + 1, rest)
  {}

  lemma ParamParts(p: Param, fix: bool, next: Text)
    requires Closes(next)
    ensures var after := ParamNameText(p.name, fix, next);
            ParamText(p, fix, next) == TypeText(p.ty, 0, fix, after) && Stops(after, 0)
    ensures p.name.None? ==> ParamNameText(p.name, fix, next) == next
  {
    ClosesStops(next);
  }

  ghost predicate ReadParam(r: Outcome<Param>, p: Param, s: Stream, e: Errors, k: Text) {
    r.Ok? && SameParam(p, r.value) && r.err == e && Spells(s, r.pos, k)
  }

  lemma {:induction false} ParamRead(s: Stream, i: nat, e: Errors, p: Param, sc: Scope, fix: bool, next: Text)
    requires ParamWritable(p, sc, fix) && Spells(s, i, ParamText(p, fix, next)) && Closes(next)
    ensures ReadParam(ParamAt(s, i, e, sc), p, s, e, next)
    decreases p
  {
    hide Well, WellParam, Spells, Stops, Closes, Writable, ParamText, TypeText, TypeAt, Same, IsKeywordToken,
      ParamNameText, PlainName;
    ParamParts(p, fix, next);
    var after := ParamNameText(p.name, fix, next);
    TypeRead(s, i, e, p.ty, false, sc, fix, after);
    var j := TypeAt(s, i, e, false, sc).pos;
    if p.name.Some? {
      TakeParam(s, j, p.name.value, fix, next);
      KeywordTokens(s.Kind(j));
    } else {
      ClosesKind(s, j, next);
    }
  }

  // Neither a keyword nor anything a section takes notice of.
  predicate Positional(s: Stream, i: nat) {
    !IsKeyword(s, i) && Begins(s.Kind(i))
  }

  // Where a positional parameter can be read there is no keyword.
  lemma NotKeyword(s: Stream, i: nat, e: Errors, sc: Scope)
    requires ParamAt(s, i, e, sc).Ok?
    ensures Positional(s, i)
  {
    hide Well, TypeAt, IsKeyword, IsKeywordToken;
    StartsType(s, i, e, false, sc);
    if IsKeyword(s, i) {
      OneWord(s, i, e, sc);
      NotWord();
    }
  }

  lemma NotWord()
    ensures !IsKeywordToken(COLON)
  {}

  // A word before a colon, or before `?` and a colon, is a type by itself.
  lemma OneWord(s: Stream, i: nat, e: Errors, sc: Scope)
    requires IsKeyword(s, i) && TypeAt(s, i, e, false, sc).Ok?
    ensures s.Kind(TypeAt(s, i, e, false, sc).pos) == COLON
  {
    hide Well, SimpleAt, IsKeywordToken, UnionRest, IntersectionRest;
    assert IntersectionAt(s, i, e, false, sc).Ok?;
    assert OptionalAt(s, i, e, false, sc).Ok?;
    assert SimpleAt(s, i, e, false, sc).Ok?;
    OneToken(s, i, e, sc);
    var o := OptionalAt(s, i, e, false, sc);
    assert s.Kind(o.pos) == COLON;
    IntersectionStop(s, i, o.pos, o.err, false, sc, o.value);
    UnionStop(s, i, o.pos, o.err, false, sc, o.value);
  }

  lemma OneToken(s: Stream, i: nat, e: Errors, sc: Scope)
    requires IsKeyword(s, i)
    ensures SimpleAt(s, i, e, false, sc).Ok? ==> SimpleAt(s, i, e, false, sc).pos == i + 1
  {
    hide Well, AllWell, TypeAt, TupleAt, RecordAt, ProcAt, TypeNameAt, ApplicationAt, SingletonAt, IsKeywordToken,
      KindOfName, BaseOf, LiteralOf;
    KeywordTokens(s.Kind(i));
    MarkStarts(s, i, e, false, sc);
    if s.Kind(i) == KW_SINGLETON {
      OneSingleton(s, i, e, sc);
    } else if !(s.Kind(i) == UIDENT && s.At(i).text in sc.vars) {
      OneApplied(s, i, e, sc);
    }
  }

  lemma OneSingleton(s: Stream, i: nat, e: Errors, sc: Scope)
    requires s.Kind(i) == KW_SINGLETON && s.Kind(i + 1) != LPAREN
    ensures SingletonAt(s, i, e, sc).Fail?
  {
    hide Well, AllWell, TypeNameAt;
  }

  lemma OneApplied(s: Stream, i: nat, e: Errors, sc: Scope)
    requires s.Kind(i) == UIDENT ==> s.At(i).text !in sc.vars
    requires s.Kind(i) != COLON2 && s.Kind(i + 1) != COLON2 && s.Kind(i + 1) != LBRACKET
    ensures ApplicationAt(s, i, e, sc).Ok? ==> ApplicationAt(s, i, e, sc).pos == i + 1
  {
    hide Well, AllWell, TypeNameAt, TypeListAt;
    OneName(s, i, e);
  }

  lemma OneName(s: Stream, i: nat, e: Errors)
    requires s.Kind(i) != COLON2 && s.Kind(i + 1) != COLON2
    ensures TypeNameAt(s, i, e, ANY_NAME).Ok? ==> TypeNameAt(s, i, e, ANY_NAME).pos == i + 1
  {}

  // The word of a keyword, an optional `?`, and the colon.
  lemma KeywordHead(s: Stream, i: nat, k: Entry<string, Param>, fix: bool, next: Text)
    requires Spells(s, i, KeywordText(k, fix, next))
    ensures IsKeyword(s, i) && KeyAt(s, i).0 == k.key && Spells(s, KeyAt(s, i).1 + 1, ParamText(k.value, fix, next))
  {
    hide Spells, ParamText, IsKeywordToken;
    var value := ParamText(k.value, fix, next);
    if k.key != "" && k.key[|k.key| - 1] == '?' {
      var word := k.key[..|k.key| - 1];
      TakeKey(s, i, word, PutGlued(QUESTION, PutGlued(COLON, value)));
      TakeGlued(s, i + 1, QUESTION, PutGlued(COLON, value));
      TakeGlued(s, i + 2, COLON, value);
      assert k.key == word + "?";
    } else {
      TakeKey(s, i, k.key, PutGlued(COLON, value));
      TakeGlued(s, i + 1, COLON, value);
    }
  }

  // ---- the goto machine -----------------------------------------------------------------------------

  // One step of the machine on a parameter, from each section it can be taken in.

  lemma RequiredSteps(s: Stream, j: nat, e: Errors, sc: Scope, fwd: bool, p: MethodParams)
    requires j <= |s.toks| && Positional(s, j)
    ensures var r := ParamAt(s, j, e, sc);
            SectionAt(s, j, e, sc, fwd, RequiredParams, p)
            == if r.Fail? then Fail(r.error)
               else Continue(s, r.pos, r.err, sc, fwd, RequiredParams, p.(required := p.required + [r.value]))
  {
    hide Well, WellParam, WellParams, ParamAt, IsKeyword, Continue;
    assert SectionAt(s, j, e, sc, fwd, RequiredParams, p) == RequiredAt(s, j, e, sc, fwd, p);
  }

  lemma OptionalSteps(s: Stream, j: nat, e: Errors, sc: Scope, fwd: bool, c: Section, p: MethodParams)
    requires j <= |s.toks| && (c == RequiredParams || c == OptionalParams)
    requires s.Kind(j) == QUESTION && Positional(s, j + 1)
    ensures var r := ParamAt(s, j + 1, e, sc);
            SectionAt(s, j, e, sc, fwd, c, p)
            == if r.Fail? then Fail(r.error)
               else Continue(s, r.pos, r.err, sc, fwd, OptionalParams, p.(optional := p.optional + [r.value]))
  {
    hide Well, WellParam, WellParams, ParamAt, IsKeyword, Continue;
    assert SectionAt(s, j, e, sc, fwd, RequiredParams, p) == RequiredAt(s, j, e, sc, fwd, p);
    assert SectionAt(s, j, e, sc, fwd, OptionalParams, p) == OptionalParamAt(s, j, e, sc, fwd, p);
  }

  lemma RestSteps(s: Stream, j: nat, e: Errors, sc: Scope, fwd: bool, c: Section, p: MethodParams)
    requires j <= |s.toks| && (c == RequiredParams || c == OptionalParams) && s.Kind(j) == STAR
    ensures var r := ParamAt(s, j + 1, e, sc);
            SectionAt(s, j, e, sc, fwd, c, p)
            == if r.Fail? then Fail(r.error)
               else Continue(s, r.pos, r.err, sc, fwd, TrailingParams, p.(rest := Some(r.value)))
  {
    hide Well, WellParam, WellParams, ParamAt, IsKeyword, Continue;
    assert SectionAt(s, j, e, sc, fwd, RequiredParams, p) == RequiredAt(s, j, e, sc, fwd, p);
    assert SectionAt(s, j, e, sc, fwd, OptionalParams, p) == OptionalParamAt(s, j, e, sc, fwd, p);
    assert SectionAt(s, j, e, sc, fwd, RestParam, p) == RestAt(s, j, e, sc, fwd, p);
  }

  lemma TrailingSteps(s: Stream, j: nat, e: Errors, sc: Scope, fwd: bool, c: Section, p: MethodParams)
    requires j <= |s.toks| && (c == OptionalParams || c == TrailingParams) && Positional(s, j)
    ensures var r := ParamAt(s, j, e, sc);
            SectionAt(s, j, e, sc, fwd, c, p)
            == if r.Fail? then Fail(r.error)
               else Continue(s, r.pos, r.err, sc, fwd, TrailingParams, p.(trailing := p.trailing + [r.value]))
  {
    hide Well, WellParam, WellParams, ParamAt, IsKeyword, Continue;
    ToTrailing(s, j, e, sc, fwd, c, p);
    assert SectionAt(s, j, e, sc, fwd, TrailingParams, p) == TrailingAt(s, j, e, sc, fwd, p);
  }

  lemma ToTrailing(s: Stream, j: nat, e: Errors, sc: Scope, fwd: bool, c: Section, p: MethodParams)
    requires j <= |s.toks| && c != Keywords && s.Kind(j) != QUESTION && s.Kind(j) != STAR
    requires c != RequiredParams
    ensures SectionAt(s, j, e, sc, fwd, c, p) == SectionAt(s, j, e, sc, fwd, TrailingParams, p)
  {
    hide Well, WellParam, WellParams, TrailingAt, ParamAt, KeywordAt, IsKeyword, Continue;
    assert SectionAt(s, j, e, sc, fwd, OptionalParams, p) == OptionalParamAt(s, j, e, sc, fwd, p);
    assert SectionAt(s, j, e, sc, fwd, RestParam, p) == RestAt(s, j, e, sc, fwd, p);
  }

  // A keyword or `**` leads to the keyword section from anywhere.
  lemma ToKeywords(s: Stream, j: nat, e: Errors, sc: Scope, fwd: bool, c: Section, p: MethodParams)
    requires j <= |s.toks| && (IsKeyword(s, j) || s.Kind(j) == STAR2)
    ensures SectionAt(s, j, e, sc, fwd, c, p) == KeywordsAt(s, j, e, sc, fwd, p)
  {
    hide Well, WellParam, WellParams, KeywordsAt, ParamAt, KeywordAt, IsKeyword, Continue;
    if s.Kind(j) != STAR2 {
      WordKind(s, j);
    }
    if c == OptionalParams || c == RestParam {
      ToTrailing(s, j, e, sc, fwd, c, p);
    }
    assert SectionAt(s, j, e, sc, fwd, RequiredParams, p) == RequiredAt(s, j, e, sc, fwd, p);
    assert SectionAt(s, j, e, sc, fwd, TrailingParams, p) == TrailingAt(s, j, e, sc, fwd, p);
    assert SectionAt(s, j, e, sc, fwd, Keywords, p) == KeywordsAt(s, j, e, sc, fwd, p);
  }

  lemma WordKind(s: Stream, j: nat)
    requires IsKeyword(s, j)
    ensures IsKeywordToken(s.Kind(j)) && s.Kind(j) != QUESTION && s.Kind(j) != STAR && s.Kind(j) != STAR2
            && s.Kind(j) != RPAREN && s.Kind(j) != DOT3
  {
    hide IsKeywordToken;
    KeywordTokens(s.Kind(j));
  }

  lemma RequiredKwSteps(s: Stream, j: nat, e: Errors, sc: Scope, fwd: bool, c: Section, p: MethodParams)
    requires j <= |s.toks| && IsKeyword(s, j)
    ensures var r := KeywordAt(s, j, e, sc, p, true);
            SectionAt(s, j, e, sc, fwd, c, p)
            == if r.Fail? then Fail(r.error) else Continue(s, r.pos, r.err, sc, fwd, Keywords, r.value)
  {
    hide Well, WellParam, WellParams, KeywordAt, SectionAt, IsKeyword, IsKeywordToken, Continue;
    ToKeywords(s, j, e, sc, fwd, c, p);
    WordKind(s, j);
  }

  lemma RestKwSteps(s: Stream, j: nat, e: Errors, sc: Scope, fwd: bool, c: Section, p: MethodParams)
    requires j <= |s.toks| && s.Kind(j) == STAR2
    ensures var r := ParamAt(s, j + 1, e, sc);
            SectionAt(s, j, e, sc, fwd, c, p)
            == if r.Fail? then Fail(r.error)
               else Continue(s, r.pos, r.err, sc, fwd, Keywords, p.(restKw := Some(r.value)))
  {
    hide Well, WellParam, WellParams, ParamAt, SectionAt, IsKeyword, IsKeywordToken, Continue;
    ToKeywords(s, j, e, sc, fwd, c, p);
  }

  // After an optional keyword the machine is in the keyword section, however it got there. The first one is not even
  // asked for a comma; the ones after it are.
  lemma OptionalKwSteps(s: Stream, j: nat, e: Errors, sc: Scope, fwd: bool, c: Section, p: MethodParams)
    requires j <= |s.toks| && s.Kind(j) == QUESTION && IsKeyword(s, j + 1)
    ensures var r := KeywordAt(s, j + 1, e, sc, p, false);
            SectionAt(s, j, e, sc, fwd, c, p)
            == if r.Fail? then Fail(r.error)
               else if c == RequiredParams || c == OptionalParams then
                 SectionAt(s, if s.Kind(r.pos) == COMMA then r.pos + 1 else r.pos, r.err, sc, fwd, Keywords, r.value)
               else Continue(s, r.pos, r.err, sc, fwd, Keywords, r.value)
  {
    hide Well, WellParam, WellParams, Reached, KeywordAt, ParamAt, IsKeyword, IsKeywordToken, SectionAt, Stream.At,
      Stream.Kind;
    SectionIs(s, j, e, sc, fwd, p);
    if c == RequiredParams || c == OptionalParams {
      assert RequiredAt(s, j, e, sc, fwd, p) == OptionalParamAt(s, j, e, sc, fwd, p);
    } else {
      assert RestAt(s, j, e, sc, fwd, p) == SectionAt(s, j, e, sc, fwd, TrailingParams, p);
      assert TrailingAt(s, j, e, sc, fwd, p) == KeywordsAt(s, j, e, sc, fwd, p);
    }
  }

  // A comma or the closing parenthesis makes no difference between the two.
  lemma OptionalKwCloses(s: Stream, j: nat, e: Errors, sc: Scope, fwd: bool, c: Section, p: MethodParams)
    requires j <= |s.toks| && s.Kind(j) == QUESTION && IsKeyword(s, j + 1)
    requires var r := KeywordAt(s, j + 1, e, sc, p, false);
             r.Ok? ==> s.Kind(r.pos) == COMMA || s.Kind(r.pos) == RPAREN
    ensures var r := KeywordAt(s, j + 1, e, sc, p, false);
            SectionAt(s, j, e, sc, fwd, c, p)
            == if r.Fail? then Fail(r.error) else Continue(s, r.pos, r.err, sc, fwd, Keywords, r.value)
  {
    hide Well, WellParam, WellParams, Reached, KeywordAt, ParamAt, IsKeyword, IsKeywordToken, SectionAt, Stream.At,
      Stream.Kind;
    var r := KeywordAt(s, j + 1, e, sc, p, false);
    OptionalKwSteps(s, j, e, sc, fwd, c, p);
    if r.Ok? && s.Kind(r.pos) == RPAREN {
      AtClose(s, r.pos, r.err, sc, fwd, r.value);
    }
  }

  lemma SectionIs(s: Stream, j: nat, e: Errors, sc: Scope, fwd: bool, p: MethodParams)
    requires j <= |s.toks|
    ensures SectionAt(s, j, e, sc, fwd, RequiredParams, p) == RequiredAt(s, j, e, sc, fwd, p)
    ensures SectionAt(s, j, e, sc, fwd, OptionalParams, p) == OptionalParamAt(s, j, e, sc, fwd, p)
    ensures SectionAt(s, j, e, sc, fwd, RestParam, p) == RestAt(s, j, e, sc, fwd, p)
    ensures SectionAt(s, j, e, sc, fwd, TrailingParams, p) == TrailingAt(s, j, e, sc, fwd, p)
    ensures SectionAt(s, j, e, sc, fwd, Keywords, p) == KeywordsAt(s, j, e, sc, fwd, p)
  {
    hide RequiredAt, OptionalParamAt, RestAt, TrailingAt, KeywordsAt, WellParams, Reached;
  }

  lemma AtClose(s: Stream, i: nat, e: Errors, sc: Scope, fwd: bool, p: MethodParams)
    requires i <= |s.toks| && s.Kind(i) == RPAREN
    ensures SectionAt(s, i, e, sc, fwd, Keywords, p) == Ok(p, i, e)
    ensures forall c :: Continue(s, i, e, sc, fwd, c, p) == Ok(p, i, e)
  {
    hide Well, WellParam, WellParams;
    assert SectionAt(s, i, e, sc, fwd, Keywords, p) == KeywordsAt(s, i, e, sc, fwd, p);
  }

  // ---- parameter lists ------------------------------------------------------------------------------

  ghost predicate AllParamsWritable(ps: MethodParams, sc: Scope, fix: bool) {
    && (forall p <- ps.required :: ParamWritable(p, sc, fix))
    && (forall p <- ps.optional :: ParamWritable(p, sc, fix))
    && (forall p <- ps.trailing :: ParamWritable(p, sc, fix))
    && (forall k <- ps.requiredKw :: ParamWritable(k.value, sc, fix))
    && (forall k <- ps.optionalKw :: ParamWritable(k.value, sc, fix))
    && (ps.rest.Some? ==> ParamWritable(ps.rest.value, sc, fix))
    && (ps.restKw.Some? ==> ParamWritable(ps.restKw.value, sc, fix))
  }

  // The order and the names the grammar can express.
  predicate Orderly(ps: MethodParams) {
    && (ps.trailing != [] ==> ps.optional != [] || ps.rest.Some?)
    && DistinctKeys(ps.requiredKw) && DistinctKeys(ps.optionalKw) && DisjointKeys(ps.requiredKw, ps.optionalKw)
    && (ps.forwarding.Some? ==>
          ps.optional == [] && ps.rest.None? && ps.trailing == [] && ps.requiredKw == [] && ps.optionalKw == []
          && ps.restKw.None?)
  }

  // What the machine has collected when parameter `n` of slot `q` is next.
  function Upto(ps: MethodParams, q: Slot, n: nat): MethodParams
    requires n <= SlotSize(ps, q)
  {
    var r := SlotRank(q);
    MethodParams(
      if q == RequiredSlot then ps.required[..n] else ps.required,
      if r > 5 then [] else if q == OptionalSlot then ps.optional[..n] else ps.optional,
      if r > 4 || (q == RestSlot && n == 0) then None else ps.rest,
      if r > 3 then [] else if q == TrailingSlot then ps.trailing[..n] else ps.trailing,
      if r > 2 then [] else if q == RequiredKwSlot then ps.requiredKw[..n] else ps.requiredKw,
      if r > 1 then [] else if q == OptionalKwSlot then ps.optionalKw[..n] else ps.optionalKw,
      if q == RestKwSlot && n > 0 then ps.restKw else None,
      if r > 6 || (q == ForwardingSlot && n == 0) then None else ps.forwarding)
  }

  // The sections the machine can be in by then.
  predicate Leads(c: Section, q: Slot, n: nat, ps: MethodParams) {
    match q
    case RequiredSlot => c == RequiredParams
    case ForwardingSlot => c == RequiredParams
    case OptionalSlot => (c == RequiredParams && n == 0) || c == OptionalParams
    case RestSlot =>
      if n > 0 then c == TrailingParams else (c == RequiredParams && ps.optional == []) || c == OptionalParams
    case TrailingSlot =>
      (c == RequiredParams && ps.optional == [] && ps.rest.None? && n == 0) || c == OptionalParams || c == TrailingParams
    case _ => c != RestParam
  }

  lemma UptoNext(ps: MethodParams, q: Slot, c: Section)
    requires q != RestKwSlot && Leads(c, q, SlotSize(ps, q), ps)
    ensures Upto(ps, NextSlot(q), 0) == Upto(ps, q, SlotSize(ps, q)) && Leads(c, NextSlot(q), 0, ps)
  {}

  lemma UptoAll(ps: MethodParams)
    ensures Upto(ps, RestKwSlot, SlotSize(ps, RestKwSlot)) == ps
  {}

  lemma {:induction false} KeywordRead(s: Stream, i: nat, e: Errors, k: Entry<string, Param>, sc: Scope, p: MethodParams,
                                       required: bool, fix: bool, next: Text)
    requires ParamWritable(k.value, sc, fix) && Spells(s, i, KeywordText(k, fix, next)) && Closes(next)
    requires !HasKey(p.requiredKw, k.key) && !HasKey(p.optionalKw, k.key)
    ensures IsKeyword(s, i)
    ensures exists u: Param :: SameParam(k.value, u)
              && var r := KeywordAt(s, i, e, sc, p, required);
                 r.Ok? && r.err == e && Spells(s, r.pos, next)
                 && r.value == if required then p.(requiredKw := p.requiredKw + [Entry(k.key, u)])
                               else p.(optionalKw := p.optionalKw + [Entry(k.key, u)])
    decreases k
  {
    hide Well, WellParam, WellParams, Spells, Closes, ParamWritable, KeywordText, ParamText, ParamAt, SameParam,
      IsKeyword;
    KeywordHead(s, i, k, fix, next);
    var j := KeyAt(s, i).1 + 1;
    ParamRead(s, j, e, k.value, sc, fix, next);
    assert SameParam(k.value, ParamAt(s, j, e, sc).value);
  }

  // A keyword not entered yet is not in either table.
  lemma KeywordFresh(ps: MethodParams, q: Slot, n: nat, p: MethodParams)
    requires Orderly(ps) && n < SlotSize(ps, q) && (q == RequiredKwSlot || q == OptionalKwSlot)
    requires SameMethodParams(Upto(ps, q, n), p)
    ensures var k := if q == RequiredKwSlot then ps.requiredKw[n].key else ps.optionalKw[n].key;
            !HasKey(p.requiredKw, k) && !HasKey(p.optionalKw, k)
  {
    hide SameParam;
    var u := Upto(ps, q, n);
    forall i | 0 <= i < |p.requiredKw|
      ensures p.requiredKw[i].key == ps.requiredKw[i].key
    {
      assert SameEntry(u.requiredKw[i], p.requiredKw[i]);
    }
    forall i | 0 <= i < |p.optionalKw|
      ensures p.optionalKw[i].key == ps.optionalKw[i].key
    {
      assert SameEntry(u.optionalKw[i], p.optionalKw[i]);
    }
  }

  // Collecting one more parameter.
  lemma Collected(ps: MethodParams, q: Slot, n: nat, p: MethodParams, u: Param)
    requires n < SlotSize(ps, q) && SameMethodParams(Upto(ps, q, n), p)
    ensures q == RequiredSlot && SameParam(ps.required[n], u) ==>
              SameMethodParams(Upto(ps, q, n + 1), p.(required := p.required + [u]))
    ensures q == OptionalSlot && SameParam(ps.optional[n], u) ==>
              SameMethodParams(Upto(ps, q, n + 1), p.(optional := p.optional + [u]))
    ensures q == RestSlot && SameParam(ps.rest.value, u) ==>
              SameMethodParams(Upto(ps, q, n + 1), p.(rest := Some(u)))
    ensures q == TrailingSlot && SameParam(ps.trailing[n], u) ==>
              SameMethodParams(Upto(ps, q, n + 1), p.(trailing := p.trailing + [u]))
    ensures q == RestKwSlot && SameParam(ps.restKw.value, u) ==>
              SameMethodParams(Upto(ps, q, n + 1), p.(restKw := Some(u)))
  {
    hide SameParam;
  }

  lemma KeywordsGrow(a: Keywords, b: Keywords, x: Entry<string, Param>, y: Entry<string, Param>)
    requires SameKeywords(a, b) && SameEntry(x, y)
    ensures SameKeywords(a + [x], b + [y])
  {}

  lemma CollectedKeyword(ps: MethodParams, q: Slot, n: nat, p: MethodParams, u: Param)
    requires n < SlotSize(ps, q) && SameMethodParams(Upto(ps, q, n), p)
    ensures q == RequiredKwSlot && SameParam(ps.requiredKw[n].value, u) ==>
              SameMethodParams(Upto(ps, q, n + 1), p.(requiredKw := p.requiredKw + [Entry(ps.requiredKw[n].key, u)]))
    ensures q == OptionalKwSlot && SameParam(ps.optionalKw[n].value, u) ==>
              SameMethodParams(Upto(ps, q, n + 1), p.(optionalKw := p.optionalKw + [Entry(ps.optionalKw[n].key, u)]))
  {
    hide SameParam, SameKeywords;
    if q == RequiredKwSlot && SameParam(ps.requiredKw[n].value, u) {
      KeywordsGrow(ps.requiredKw[..n], p.requiredKw, ps.requiredKw[n], Entry(ps.requiredKw[n].key, u));
      assert ps.requiredKw[..n + 1] == ps.requiredKw[..n] + [ps.requiredKw[n]];
    }
    if q == OptionalKwSlot && SameParam(ps.optionalKw[n].value, u) {
      KeywordsGrow(ps.optionalKw[..n], p.optionalKw, ps.optionalKw[n], Entry(ps.optionalKw[n].key, u));
      assert ps.optionalKw[..n + 1] == ps.optionalKw[..n] + [ps.optionalKw[n]];
    }
  }

  // The machine reads a parameter, from whatever section it is in, and moves to another section.
  lemma {:induction false} ItemRead(s: Stream, j: nat, e: Errors, ps: MethodParams, q: Slot, n: nat, c: Section,
                                    p: MethodParams, sc: Scope, fwd: bool, fix: bool, next: Text)
    returns (m: nat, c': Section, p': MethodParams)
    requires j <= |s.toks| && AllParamsWritable(ps, sc, fix) && Orderly(ps) && q != ForwardingSlot
    requires n < SlotSize(ps, q) && Leads(c, q, n, ps) && SameMethodParams(Upto(ps, q, n), p)
    requires Spells(s, j, ItemText(ps, q, n, fix, next)) && Closes(next)
    ensures m <= |s.toks| && SectionAt(s, j, e, sc, fwd, c, p) == Continue(s, m, e, sc, fwd, c', p')
    ensures Leads(c', q, n + 1, ps) && SameMethodParams(Upto(ps, q, n + 1), p') && Spells(s, m, next)
    decreases ps, 0
  {
    hide Well, WellParam, WellParams, Spells, Closes, ParamWritable, ParamText, KeywordText, ParamAt, KeywordAt,
      SectionAt, Continue, SameMethodParams, SameParam, IsKeyword, IsKeywordToken, Upto, HasKey, Orderly;
    if q == RequiredKwSlot || q == OptionalKwSlot {
      KeywordFresh(ps, q, n, p);
      var k := if q == RequiredKwSlot then ps.requiredKw[n] else ps.optionalKw[n];
      var at := if q == RequiredKwSlot then j else j + 1;
      if q == OptionalKwSlot {
        TakeMark(s, j, QUESTION, KeywordText(k, fix, next));
      }
      KeywordRead(s, at, e, k, sc, p, q == RequiredKwSlot, fix, next);
      var r := KeywordAt(s, at, e, sc, p, q == RequiredKwSlot);
      ClosesKind(s, r.pos, next);
      var u: Param :| SameParam(k.value, u)
        && r.value == if q == RequiredKwSlot then p.(requiredKw := p.requiredKw + [Entry(k.key, u)])
                      else p.(optionalKw := p.optionalKw + [Entry(k.key, u)]);
      CollectedKeyword(ps, q, n, p, u);
      m, c', p' := r.pos, Keywords, r.value;
      if q == RequiredKwSlot {
        RequiredKwSteps(s, j, e, sc, fwd, c, p);
      } else {
        OptionalKwCloses(s, j, e, sc, fwd, c, p);
      }
    } else {
      m, c', p' := PositionalRead(s, j, e, ps, q, n, c, p, sc, fwd, fix, next);
    }
  }

  lemma {:induction false} PositionalRead(s: Stream, j: nat, e: Errors, ps: MethodParams, q: Slot, n: nat, c: Section,
                                          p: MethodParams, sc: Scope, fwd: bool, fix: bool, next: Text)
    returns (m: nat, c': Section, p': MethodParams)
    requires j <= |s.toks| && AllParamsWritable(ps, sc, fix) && Orderly(ps)
    requires q != ForwardingSlot && q != RequiredKwSlot && q != OptionalKwSlot
    requires n < SlotSize(ps, q) && Leads(c, q, n, ps) && SameMethodParams(Upto(ps, q, n), p)
    requires Spells(s, j, ItemText(ps, q, n, fix, next)) && Closes(next)
    ensures m <= |s.toks| && SectionAt(s, j, e, sc, fwd, c, p) == Continue(s, m, e, sc, fwd, c', p')
    ensures Leads(c', q, n + 1, ps) && SameMethodParams(Upto(ps, q, n + 1), p') && Spells(s, m, next)
    decreases ps, 0, 0
  {
    hide Well, WellParam, WellParams, Spells, Closes, ParamWritable, ParamText, ParamAt, SectionAt, Continue,
      SameMethodParams, SameParam, IsKeyword, IsKeywordToken, Upto, HasKey, Positional;
    match q {
      case RequiredSlot =>
        ParamRead(s, j, e, ps.required[n], sc, fix, next);
        var r := ParamAt(s, j, e, sc);
        NotKeyword(s, j, e, sc);
        RequiredSteps(s, j, e, sc, fwd, p);
        Collected(ps, q, n, p, r.value);
        m, c', p' := r.pos, RequiredParams, p.(required := p.required + [r.value]);
      case OptionalSlot =>
        TakeMark(s, j, QUESTION, ParamText(ps.optional[n], fix, next));
        ParamRead(s, j + 1, e, ps.optional[n], sc, fix, next);
        var r := ParamAt(s, j + 1, e, sc);
        NotKeyword(s, j + 1, e, sc);
        OptionalSteps(s, j, e, sc, fwd, c, p);
        Collected(ps, q, n, p, r.value);
        m, c', p' := r.pos, OptionalParams, p.(optional := p.optional + [r.value]);
      case RestSlot =>
        TakeMark(s, j, STAR, ParamText(ps.rest.value, fix, next));
        ParamRead(s, j + 1, e, ps.rest.value, sc, fix, next);
        var r := ParamAt(s, j + 1, e, sc);
        RestSteps(s, j, e, sc, fwd, c, p);
        Collected(ps, q, n, p, r.value);
        m, c', p' := r.pos, TrailingParams, p.(rest := Some(r.value));
      case TrailingSlot =>
        ParamRead(s, j, e, ps.trailing[n], sc, fix, next);
        var r := ParamAt(s, j, e, sc);
        NotKeyword(s, j, e, sc);
        TrailingSteps(s, j, e, sc, fwd, c, p);
        Collected(ps, q, n, p, r.value);
        m, c', p' := r.pos, TrailingParams, p.(trailing := p.trailing + [r.value]);
      case RestKwSlot =>
        TakeMark(s, j, STAR2, ParamText(ps.restKw.value, fix, next));
        ParamRead(s, j + 1, e, ps.restKw.value, sc, fix, next);
        var r := ParamAt(s, j + 1, e, sc);
        RestKwSteps(s, j, e, sc, fwd, c, p);
        Collected(ps, q, n, p, r.value);
        m, c', p' := r.pos, Keywords, p.(restKw := Some(r.value));
    }
  }

  // What follows a parameter in the list.
  lemma {:induction false} SlotCloses(ps: MethodParams, q: Slot, n: nat, fix: bool, k: Text)
    requires Closes(k)
    ensures Closes(SlotText(ps, q, n, false, fix, k))
    decreases SlotRank(q), SlotSize(ps, q) - n
  {
    if n >= SlotSize(ps, q) && q != RestKwSlot {
      SlotCloses(ps, NextSlot(q), 0, fix, k);
    }
  }

  lemma SlotSteps(ps: MethodParams, q: Slot, n: nat, first: bool, fix: bool, k: Text)
    ensures var x := SlotText(ps, q, n, first, fix, k);
            if n >= SlotSize(ps, q)
            then x == (if q == RestKwSlot then k else SlotText(ps, NextSlot(q), 0, first, fix, k))
            else
              var item := ItemText(ps, q, n, fix, SlotText(ps, q, n + 1, false, fix, k));
              x == (if first then item else Put(COMMA, item))
  {}

  // After the forwarding mark nothing can be left.
  lemma {:induction false} NothingLeft(ps: MethodParams, q: Slot, n: nat, fix: bool, k: Text)
    requires Orderly(ps) && ps.forwarding.Some? && SlotRank(q) <= 6 && (q == ForwardingSlot ==> n > 0)
    ensures SlotText(ps, q, n, false, fix, k) == k
    decreases SlotRank(q)
  {
    if q != RestKwSlot {
      NothingLeft(ps, NextSlot(q), 0, fix, k);
    }
  }

  // Whether there is a parameter from number `n` of slot `q` on.
  predicate SomeLeft(ps: MethodParams, q: Slot, n: nat)
    decreases SlotRank(q)
  {
    n < SlotSize(ps, q) || (q != RestKwSlot && SomeLeft(ps, NextSlot(q), 0))
  }

  lemma {:induction false} SlotsRead(s: Stream, i: nat, e: Errors, ps: MethodParams, q: Slot, n: nat, first: bool,
                                     c: Section, p: MethodParams, sc: Scope, fwd: bool, fix: bool, comma: bool, k: Text)
    requires i <= |s.toks| && AllParamsWritable(ps, sc, fix) && Orderly(ps) && (ps.forwarding.Some? ==> fwd)
    requires n <= SlotSize(ps, q) && Leads(c, q, n, ps) && SameMethodParams(Upto(ps, q, n), p)
    requires first ==> c == RequiredParams
    requires comma ==> ps.forwarding.None? && (first ==> SomeLeft(ps, q, n))
    requires Spells(s, i, SlotText(ps, q, n, first, fix, Closed(RPAREN, comma, k)))
    ensures var r := if first then SectionAt(s, i, e, sc, fwd, c, p) else Continue(s, i, e, sc, fwd, c, p);
            r.Ok? && SameMethodParams(ps, r.value) && r.err == e && Spells(s, r.pos, Put(RPAREN, k))
    decreases ps, 1, SlotRank(q), SlotSize(ps, q) - n
  {
    hide Well, WellParam, WellParams, Spells, Closes, ParamWritable, AllParamsWritable, Orderly, ItemText, SlotText,
      SectionAt, Leads, SameMethodParams, Upto, Closed;
    var end := Closed(RPAREN, comma, k);
    SlotSteps(ps, q, n, first, fix, end);
    if n == SlotSize(ps, q) {
      if q == RestKwSlot {
        UptoAll(ps);
        TakeClosed(s, i, RPAREN, comma, k);
        Finished(s, i, e, sc, fwd, c, p);
      } else {
        UptoNext(ps, q, c);
        SlotsRead(s, i, e, ps, NextSlot(q), 0, first, c, p, sc, fwd, fix, comma, k);
      }
    } else {
      var next := SlotText(ps, q, n + 1, false, fix, end);
      ClosedCloses(comma, k);
      SlotCloses(ps, q, n + 1, fix, end);
      if !first {
        TakeMark(s, i, COMMA, ItemText(ps, q, n, fix, next));
      }
      var j := if first then i else i + 1;
      if q == ForwardingSlot {
        ForwardingRead(s, j, e, ps, c, p, sc, fwd, fix, comma, k);
      } else {
        var m, c', p' := ItemRead(s, j, e, ps, q, n, c, p, sc, fwd, fix, next);
        SlotsRead(s, m, e, ps, q, n + 1, false, c', p', sc, fwd, fix, comma, k);
      }
    }
  }

  lemma ClosedCloses(comma: bool, k: Text)
    ensures Closes(Closed(RPAREN, comma, k))
  {}

  // Before the closing parenthesis the machine stops in whatever section it is, after a comma too.
  lemma Finished(s: Stream, i: nat, e: Errors, sc: Scope, fwd: bool, c: Section, p: MethodParams)
    requires i <= |s.toks|
    ensures s.Kind(i) == RPAREN ==> SectionAt(s, i, e, sc, fwd, c, p) == Ok(p, i, e)
    ensures s.Kind(i) == RPAREN ==> Continue(s, i, e, sc, fwd, c, p) == Ok(p, i, e)
    ensures s.Kind(i) == COMMA && s.Kind(i + 1) == RPAREN ==> Continue(s, i, e, sc, fwd, c, p) == Ok(p, i + 1, e)
  {
    hide Well, WellParam, WellParams, SectionAt;
    if s.Kind(i) == RPAREN {
      FinishedHere(s, i, e, sc, fwd, c, p);
    } else if s.Kind(i) == COMMA && s.Kind(i + 1) == RPAREN {
      FinishedHere(s, i + 1, e, sc, fwd, c, p);
    }
  }

  lemma FinishedHere(s: Stream, i: nat, e: Errors, sc: Scope, fwd: bool, c: Section, p: MethodParams)
    requires i <= |s.toks| && s.Kind(i) == RPAREN
    ensures SectionAt(s, i, e, sc, fwd, c, p) == Ok(p, i, e)
  {
    hide Well, WellParam, WellParams, ParamAt, KeywordAt, IsKeyword, Continue, SectionAt;
    SectionIs(s, i, e, sc, fwd, p);
  }

  lemma ForwardingRead(s: Stream, j: nat, e: Errors, ps: MethodParams, c: Section, p: MethodParams, sc: Scope,
                       fwd: bool, fix: bool, comma: bool, k: Text)
    requires j <= |s.toks| && Orderly(ps) && ps.forwarding.Some? && fwd && !comma
    requires Leads(c, ForwardingSlot, 0, ps) && SameMethodParams(Upto(ps, ForwardingSlot, 0), p)
    requires Spells(s, j, ItemText(ps, ForwardingSlot, 0, fix, SlotText(ps, ForwardingSlot, 1, false, fix, Closed(RPAREN, comma, k))))
    ensures var r := SectionAt(s, j, e, sc, fwd, c, p);
            r.Ok? && SameMethodParams(ps, r.value) && r.err == e && Spells(s, r.pos, Put(RPAREN, k))
  {
    hide Well, WellParam, WellParams, Spells, SlotText, SameParam;
    var next := SlotText(ps, ForwardingSlot, 1, false, fix, Put(RPAREN, k));
    NothingLeft(ps, ForwardingSlot, 1, fix, Put(RPAREN, k));
    TakeMark(s, j, DOT3, next);
    assert SectionAt(s, j, e, sc, fwd, RequiredParams, p) == RequiredAt(s, j, e, sc, fwd, p);
  }

  // ---- functions ------------------------------------------------------------------------------------

  ghost predicate ReadList(r: Outcome<ParamList>, f: Function, s: Stream, e: Errors, k: Text) {
    && r.Ok? && r.err == e && Spells(s, r.pos, k)
    && f.UntypedFn? == r.value.Untyped?
    && (f.Fn? ==> SameMethodParams(f.params, r.value.params))
  }

  ghost predicate FnWritable(f: Function, sc: Scope, fix: bool) {
    && Writable(f.ret, true, sc, fix)
    && (f.Fn? ==> AllParamsWritable(f.params, sc, fix) && Orderly(f.params))
  }

  // `...` only where it is allowed.
  predicate Forwards(f: Function, fwd: bool) {
    f.Fn? && f.params.forwarding.Some? ==> fwd
  }

  lemma ReadListIs(r: Outcome<ParamList>, ps: ParamList, p: nat, f: Function, s: Stream, e: Errors, k: Text)
    requires r == Ok(ps, p, e) && Spells(s, p, k) && f.UntypedFn? == ps.Untyped?
    requires f.Fn? ==> SameMethodParams(f.params, ps.params)
    ensures ReadList(r, f, s, e, k)
  {}

  lemma UntypedListSteps(s: Stream, i: nat, e: Errors, sc: Scope, fwd: bool)
    requires i < |s.toks| && s.Kind(i) == LPAREN && s.Kind(i + 1) == QUESTION && s.Kind(i + 2) == RPAREN
    ensures ParenParamsAt(s, i, e, sc, fwd) == Ok(Untyped, i + 3, e)
  {
    hide Well, WellParam, WellParams, SectionAt, Stream.At, Stream.Kind;
  }

  lemma TypedListSteps(s: Stream, i: nat, e: Errors, sc: Scope, fwd: bool, ps: MethodParams, p: nat)
    requires i < |s.toks| && s.Kind(i) == LPAREN
    requires SectionAt(s, i + 1, e, sc, fwd, RequiredParams, NO_PARAMS) == Ok(ps, p, e) && s.Kind(p) == RPAREN
    ensures ParenParamsAt(s, i, e, sc, fwd) == Ok(Typed(ps), p + 1, e)
  {
    hide Well, WellParam, WellParams, SectionAt, Stream.At, Stream.Kind;
    NotUntyped(s, i + 1, e, sc, fwd);
    if s.Kind(i + 1) == RPAREN {
      Finished(s, i + 1, e, sc, fwd, RequiredParams, NO_PARAMS);
    }
  }

  // The parameter list with its parentheses, or without them.
  lemma {:induction false} ParamListRead(s: Stream, i: nat, e: Errors, f: Function, sc: Scope, fwd: bool, fix: bool,
                                         k: Text)
    requires i <= |s.toks| && FnWritable(f, sc, fix) && Forwards(f, fwd) && NoParen(k)
    requires Spells(s, i, ParensText(f, fix, k))
    ensures ReadList(ParenParamsAt(s, i, e, sc, fwd), f, s, e, k)
    decreases f
  {
    hide Well, WellParam, WellParams, Spells, AllParamsWritable, Orderly, SlotText, SectionAt, SameMethodParams,
      Writable, Put, Closed, ParenParamsAt, ReadList, ParamListText, NoParen, Stream.At, Stream.Kind;
    var comma := fix && EndsInComma(f);
    var parens := Put(LPAREN, ParamListText(f, fix, Closed(RPAREN, comma, k)));
    if fix && f.Fn? && f.params == NO_PARAMS {
      TakeEither(s, i, parens, k);
      if Spells(s, i, k) {
        NoParenAt(s, i, k);
        NoListSteps(s, i, e, sc, fwd);
        ReadListIs(ParenParamsAt(s, i, e, sc, fwd), Typed(NO_PARAMS), i, f, s, e, k);
        return;
      }
    }
    TakeMark(s, i, LPAREN, ParamListText(f, fix, Closed(RPAREN, comma, k)));
    InParensRead(s, i, e, f, sc, fwd, fix, comma, k);
  }

  lemma {:induction false} InParensRead(s: Stream, i: nat, e: Errors, f: Function, sc: Scope, fwd: bool, fix: bool,
                                        comma: bool, k: Text)
    requires i < |s.toks| && FnWritable(f, sc, fix) && Forwards(f, fwd) && s.Kind(i) == LPAREN
    requires Spells(s, i + 1, ParamListText(f, fix, Closed(RPAREN, comma, k))) && (comma ==> EndsInComma(f))
    ensures ReadList(ParenParamsAt(s, i, e, sc, fwd), f, s, e, k)
    decreases f, 0
  {
    hide Well, WellParam, WellParams, Spells, AllParamsWritable, Orderly, SlotText, SectionAt, SameMethodParams,
      Leads, Upto, Writable, Put, ParenParamsAt, ReadList, SomeLeft, Stream.At, Stream.Kind;
    if f.UntypedFn? {
      TakeMark(s, i + 1, QUESTION, Put(RPAREN, k));
      TakeMark(s, i + 2, RPAREN, k);
      UntypedListSteps(s, i, e, sc, fwd);
      ReadListIs(ParenParamsAt(s, i, e, sc, fwd), Untyped, i + 3, f, s, e, k);
    } else {
      StartUp(f.params);
      SlotsRead(s, i + 1, e, f.params, RequiredSlot, 0, true, RequiredParams, NO_PARAMS, sc, fwd, fix, comma, k);
      var r := SectionAt(s, i + 1, e, sc, fwd, RequiredParams, NO_PARAMS);
      TakeMark(s, r.pos, RPAREN, k);
      TypedListSteps(s, i, e, sc, fwd, r.value, r.pos);
      ReadListIs(ParenParamsAt(s, i, e, sc, fwd), Typed(r.value), r.pos + 1, f, s, e, k);
    }
  }

  // What follows parameters that may have been left out is not taken for their parenthesis.
  predicate NoParen(k: Text) {
    k.More? && k.head.body.Mark? && k.head.body.kind != LPAREN
  }

  lemma NoParenAt(s: Stream, i: nat, k: Text)
    requires Spells(s, i, k) && NoParen(k)
    ensures s.Kind(i) != LPAREN
  {}

  lemma NoListSteps(s: Stream, i: nat, e: Errors, sc: Scope, fwd: bool)
    requires i <= |s.toks| && s.Kind(i) != LPAREN
    ensures ParenParamsAt(s, i, e, sc, fwd) == Ok(Typed(NO_PARAMS), i, e) && SameMethodParams(NO_PARAMS, NO_PARAMS)
  {
    hide Well, WellParam, WellParams, ParamsAt, Stream.At, Stream.Kind;
  }

  lemma StartUp(ps: MethodParams)
    ensures SameMethodParams(Upto(ps, RequiredSlot, 0), NO_PARAMS) && Leads(RequiredParams, RequiredSlot, 0, ps)
    ensures ps != NO_PARAMS ==> SomeLeft(ps, RequiredSlot, 0)
  {
    if ps != NO_PARAMS {
      assert SomeLeft(ps, RestKwSlot, 0) <==> ps.restKw.Some?;
      assert SomeLeft(ps, OptionalKwSlot, 0) <==> ps.optionalKw != [] || SomeLeft(ps, RestKwSlot, 0);
      assert SomeLeft(ps, RequiredKwSlot, 0) <==> ps.requiredKw != [] || SomeLeft(ps, OptionalKwSlot, 0);
      assert SomeLeft(ps, TrailingSlot, 0) <==> ps.trailing != [] || SomeLeft(ps, RequiredKwSlot, 0);
      assert SomeLeft(ps, RestSlot, 0) <==> ps.rest.Some? || SomeLeft(ps, TrailingSlot, 0);
      assert SomeLeft(ps, OptionalSlot, 0) <==> ps.optional != [] || SomeLeft(ps, RestSlot, 0);
      assert SomeLeft(ps, ForwardingSlot, 0) <==> ps.forwarding.Some? || SomeLeft(ps, OptionalSlot, 0);
    }
  }

  // Where the machine succeeds, the list is not the untyped one.
  lemma NotUntyped(s: Stream, i: nat, e: Errors, sc: Scope, fwd: bool)
    requires i <= |s.toks| && SectionAt(s, i, e, sc, fwd, RequiredParams, NO_PARAMS).Ok?
    ensures !(s.Kind(i) == QUESTION && s.Kind(i + 1) == RPAREN)
  {
    hide Well, WellParam, WellParams, ParamAt, IsKeywordToken;
    assert SectionAt(s, i, e, sc, fwd, RequiredParams, NO_PARAMS) == RequiredAt(s, i, e, sc, fwd, NO_PARAMS);
    assert SectionAt(s, i, e, sc, fwd, OptionalParams, NO_PARAMS) == OptionalParamAt(s, i, e, sc, fwd, NO_PARAMS);
    if ParamAt(s, i + 1, e, sc).Ok? {
      NotKeyword(s, i + 1, e, sc);
    } else if IsKeyword(s, i + 1) {
      WordKind(s, i + 1);
    }
  }

  lemma {:induction false} ReturnRead(s: Stream, i: nat, e: Errors, t: Type, sc: Scope, fix: bool, k: Text)
    requires Writable(t, true, sc, fix) && Spells(s, i, Put(ARROW, TypeText(t, 1, fix, k)))
    requires Stops(k, 2) || t.OptionalType?
    ensures Read(ReturnAt(s, i, e, sc), t, s, e, k)
    decreases t, 13
  {
    hide Well, Spells, Stops, Writable, TypeText, OptionalAt, Same;
    TakeMark(s, i, ARROW, TypeText(t, 1, fix, k));
    OptionalRead(s, i + 1, e, t, 1, true, sc, fix, k);
  }

  ghost predicate SelfWritable(self: Option<Type>, sc: Scope, fix: bool) {
    self.Some? ==> Writable(self.value, false, sc, fix)
  }

  ghost predicate ReadSelf(r: Outcome<Option<Type>>, self: Option<Type>, s: Stream, e: Errors, k: Text) {
    r.Ok? && SameOption(self, r.value) && r.err == e && Spells(s, r.pos, k)
  }

  // What can come after a self binding: the block or the arrow.
  predicate BlockOrArrow(k: Text) {
    k.More? && (k.head.body == Mark(ARROW) || k.head.body == Mark(LBRACE) || k.head.body == Mark(QUESTION))
  }

  lemma BlockOrArrowKind(s: Stream, i: nat, k: Text)
    requires Spells(s, i, k) && BlockOrArrow(k)
    ensures i < |s.toks| && s.Kind(i) != LBRACKET
  {}

  lemma NoSelfSteps(s: Stream, i: nat, e: Errors, sc: Scope)
    requires i <= |s.toks| && s.Kind(i) != LBRACKET
    ensures SelfBindingAt(s, i, e, sc) == Ok(None, i, e)
  {
    hide Well, TypeAt, Stream.At, Stream.Kind;
  }

  lemma SelfSteps(s: Stream, i: nat, e: Errors, sc: Scope, u: Type, p: nat)
    requires i <= |s.toks| && s.Kind(i) == LBRACKET && s.Kind(i + 1) == KW_SELF && s.Kind(i + 2) == COLON
    requires TypeAt(s, i + 3, e, false, sc) == Ok(u, p, e) && s.Kind(p) == RBRACKET
    ensures SelfBindingAt(s, i, e, sc) == Ok(Some(u), p + 1, e)
  {
    hide Well, TypeAt, Stream.At, Stream.Kind;
  }

  lemma ReadNoSelf(r: Outcome<Option<Type>>, p: nat, s: Stream, e: Errors, k: Text)
    requires r == Ok(None, p, e) && Spells(s, p, k)
    ensures ReadSelf(r, None, s, e, k)
  {}

  lemma ReadOneSelf(r: Outcome<Option<Type>>, u: Type, p: nat, t: Type, s: Stream, e: Errors, k: Text)
    requires r == Ok(Some(u), p, e) && Same(t, u) && Spells(s, p, k)
    ensures ReadSelf(r, Some(t), s, e, k)
  {}

  lemma {:induction false} SelfRead(s: Stream, i: nat, e: Errors, self: Option<Type>, sc: Scope, fix: bool, k: Text)
    requires i <= |s.toks| && SelfWritable(self, sc, fix)
    requires Spells(s, i, SelfText(self, fix, k)) && BlockOrArrow(k)
    ensures ReadSelf(SelfBindingAt(s, i, e, sc), self, s, e, k)
    decreases self
  {
    hide Well, Spells, Stops, BlockOrArrow, Writable, TypeText, TypeAt, SelfBindingAt, Same, SameOption, ReadSelf,
      Stream.At, Stream.Kind;
    if self.None? {
      BlockOrArrowKind(s, i, k);
      NoSelfSteps(s, i, e, sc);
      ReadNoSelf(SelfBindingAt(s, i, e, sc), i, s, e, k);
    } else {
      OneSelfRead(s, i, e, self.value, sc, fix, k);
    }
  }

  lemma {:induction false} OneSelfRead(s: Stream, i: nat, e: Errors, t: Type, sc: Scope, fix: bool, k: Text)
    requires i <= |s.toks| && Writable(t, false, sc, fix)
    requires Spells(s, i, Put(LBRACKET, Put(KW_SELF, Put(COLON, TypeText(t, 0, fix, Put(RBRACKET, k))))))
    ensures ReadSelf(SelfBindingAt(s, i, e, sc), Some(t), s, e, k)
    decreases t, 4
  {
    hide Well, Spells, Stops, Writable, TypeText, Put, TypeAt, SelfBindingAt, Same, SameOption, ReadSelf, Stream.At,
      Stream.Kind;
    var ty := TypeText(t, 0, fix, Put(RBRACKET, k));
    TakeMark(s, i, LBRACKET, Put(KW_SELF, Put(COLON, ty)));
    TakeMark(s, i + 1, KW_SELF, Put(COLON, ty));
    TakeMark(s, i + 2, COLON, ty);
    BracketStops(k);
    TypeRead(s, i + 3, e, t, false, sc, fix, Put(RBRACKET, k));
    var r := TypeAt(s, i + 3, e, false, sc);
    TakeMark(s, r.pos, RBRACKET, k);
    SelfSteps(s, i, e, sc, r.value, r.pos);
    ReadOneSelf(SelfBindingAt(s, i, e, sc), r.value, r.pos + 1, t, s, e, k);
  }

  lemma BracketStops(k: Text)
    ensures Stops(Put(RBRACKET, k), 0) && Stops(Put(RBRACE, k), 2)
  {}

  ghost predicate BlockWritable(b: Block, sc: Scope, fix: bool) {
    FnWritable(b.fn, sc, fix) && SelfWritable(b.selfType, sc, fix) && Forwards(b.fn, false)
  }

  ghost predicate ReadBlock(r: Outcome<Option<Block>>, b: Option<Block>, s: Stream, e: Errors, k: Text) {
    r.Ok? && SameBlock(b, r.value) && r.err == e && Spells(s, r.pos, k)
  }

  lemma SameMade(f: Function, ps: ParamList, ret: Type, loc: Location)
    requires f.UntypedFn? == ps.Untyped? && (f.Fn? ==> SameMethodParams(f.params, ps.params)) && Same(f.ret, ret)
    ensures SameFn(f, MakeFunction(ps, ret, loc))
  {}

  lemma SelfNoParen(self: Option<Type>, fix: bool, k: Text)
    requires BlockOrArrow(k)
    ensures NoParen(SelfText(self, fix, k))
  {}

  lemma SelfTextHead(self: Option<Type>, fix: bool, k: Text)
    ensures forall k' :: BlockOrArrow(Put(ARROW, k')) && BlockOrArrow(Put(LBRACE, k')) && BlockOrArrow(Put(QUESTION, k'))
  {}

  lemma NoBlockSteps(s: Stream, i: nat, e: Errors, sc: Scope)
    requires i <= |s.toks| && s.Kind(i) == ARROW
    ensures BlockAt(s, i, e, sc) == Ok(None, i, e)
  {
    hide Well, WellParams, WellBlock, ParenParamsAt, SelfBindingAt, ReturnAt, Stream.At, Stream.Kind;
  }

  // A block, from its `?` or `{` on.
  lemma {:induction false} BlockRead(s: Stream, i: nat, e: Errors, b: Option<Block>, sc: Scope, fix: bool, k: Text)
    requires i <= |s.toks| && (b.Some? ==> BlockWritable(b.value, sc, fix))
    requires Spells(s, i, BlockText(b, fix, Put(ARROW, k)))
    ensures ReadBlock(BlockAt(s, i, e, sc), b, s, e, Put(ARROW, k))
    decreases b
  {
    hide Well, WellParams, WellBlock, WellFn, Spells, Stops, Writable, FnWritable, SelfWritable, TypeText,
      ParensText, SelfText, ParenParamsAt, SelfBindingAt, ReturnAt, BlockAt, Same, SameMethodParams, SameFn,
      SameOption, Put, Stream.At, Stream.Kind;
    if b.None? {
      TakeMark(s, i, ARROW, k);
      NoBlockSteps(s, i, e, sc);
    } else {
      var f, self, after := b.value.fn, b.value.selfType, Put(ARROW, k);
      var ret := Put(ARROW, TypeText(f.ret, 1, fix, Put(RBRACE, after)));
      var body := ParensText(f, fix, SelfText(self, fix, ret));
      if !b.value.required {
        TakeMark(s, i, QUESTION, Put(LBRACE, body));
      }
      var at := if b.value.required then i else i + 1;
      TakeMark(s, at, LBRACE, body);
      BlockBodyRead(s, at + 1, e, b.value, sc, fix, after);
      BlockSteps(s, i, e, b.value, sc);
    }
  }

  // The routine's own steps, with `at` the index of the brace.
  lemma BlockIs(s: Stream, i: nat, at: nat, e: Errors, sc: Scope)
    requires i <= at < |s.toks| && s.Kind(at) == LBRACE && (at == i || (at == i + 1 && s.Kind(i) == QUESTION))
    requires var ps := ParenParamsAt(s, at + 1, e, sc, false);
             ps.Ok? && SelfBindingAt(s, ps.pos, ps.err, sc).Ok?
    ensures var ps := ParenParamsAt(s, at + 1, e, sc, false);
            var self := SelfBindingAt(s, ps.pos, ps.err, sc);
            var ret := ReturnAt(s, self.pos, self.err, sc);
            ret.Ok? && s.Kind(ret.pos) == RBRACE ==>
              var loc := Spanning(s.At(i), s.At(ret.pos));
              BlockAt(s, i, e, sc)
                == Ok(Some(Block(MakeFunction(ps.value, ret.value, loc), at == i, self.value, loc)), ret.pos + 1, ret.err)
  {
    hide Well, WellParams, WellBlock, ParenParamsAt, SelfBindingAt, ReturnAt, MakeFunction;
  }

  lemma BlockSteps(s: Stream, i: nat, e: Errors, b: Block, sc: Scope)
    requires i < |s.toks| && s.Kind(if b.required then i else i + 1) == LBRACE && (!b.required ==> s.Kind(i) == QUESTION)
    requires var ps := ParenParamsAt(s, if b.required then i + 1 else i + 2, e, sc, false);
             ps.Ok? && b.fn.UntypedFn? == ps.value.Untyped? && (b.fn.Fn? ==> SameMethodParams(b.fn.params, ps.value.params))
             && SelfBindingAt(s, ps.pos, ps.err, sc).Ok?
    ensures var ps := ParenParamsAt(s, if b.required then i + 1 else i + 2, e, sc, false);
            var self := SelfBindingAt(s, ps.pos, ps.err, sc);
            var ret := ReturnAt(s, self.pos, self.err, sc);
            ret.Ok? && Same(b.fn.ret, ret.value) && s.Kind(ret.pos) == RBRACE && SameOption(b.selfType, self.value) ==>
              var r := BlockAt(s, i, e, sc);
              r.Ok? && SameBlock(Some(b), r.value) && r.pos == ret.pos + 1 && r.err == ret.err
  {
    hide Well, WellParams, WellBlock, ParenParamsAt, SelfBindingAt, ReturnAt, BlockAt, Same, SameMethodParams,
      SameOption, SameFn, MakeFunction;
    var at := if b.required then i else i + 1;
    var ps := ParenParamsAt(s, at + 1, e, sc, false);
    var self := SelfBindingAt(s, ps.pos, ps.err, sc);
    var ret := ReturnAt(s, self.pos, self.err, sc);
    BlockIs(s, i, at, e, sc);
    if ret.Ok? && Same(b.fn.ret, ret.value) {
      SameMade(b.fn, ps.value, ret.value, Spanning(s.At(i), s.At(ret.pos)));
    }
  }

  lemma {:induction false} BlockBodyRead(s: Stream, i: nat, e: Errors, b: Block, sc: Scope, fix: bool, k: Text)
    requires i <= |s.toks| && BlockWritable(b, sc, fix)
    requires Spells(s, i, ParensText(b.fn, fix, SelfText(b.selfType, fix, Put(ARROW,
               TypeText(b.fn.ret, 1, fix, Put(RBRACE, k))))))
    ensures var ps := ParenParamsAt(s, i, e, sc, false);
            ps.Ok? && b.fn.UntypedFn? == ps.value.Untyped? && (b.fn.Fn? ==> SameMethodParams(b.fn.params, ps.value.params))
            && var self := SelfBindingAt(s, ps.pos, ps.err, sc);
               self.Ok? && SameOption(b.selfType, self.value)
               && var ret := ReturnAt(s, self.pos, self.err, sc);
                  ret.Ok? && Same(b.fn.ret, ret.value) && ret.err == e && s.Kind(ret.pos) == RBRACE
                  && Spells(s, ret.pos + 1, k)
    decreases b
  {
    hide Well, WellParams, Spells, Stops, BlockOrArrow, Writable, SelfWritable, TypeText, ParensText, SelfText,
      ParenParamsAt, SelfBindingAt, ReturnAt, Same, SameMethodParams, SameOption, NoParen;
    var ret := Put(ARROW, TypeText(b.fn.ret, 1, fix, Put(RBRACE, k)));
    SelfNoParen(b.selfType, fix, ret);
    ParamListRead(s, i, e, b.fn, sc, false, fix, SelfText(b.selfType, fix, ret));
    var ps := ParenParamsAt(s, i, e, sc, false);
    SelfTextHead(b.selfType, fix, k);
    SelfRead(s, ps.pos, e, b.selfType, sc, fix, ret);
    var self := SelfBindingAt(s, ps.pos, e, sc);
    BracketStops(k);
    ReturnRead(s, self.pos, e, b.fn.ret, sc, fix, Put(RBRACE, k));
    TakeMark(s, ReturnAt(s, self.pos, e, sc).pos, RBRACE, k);
  }

  lemma ProcParts(t: Type, v: bool, sc: Scope, fix: bool, k: Text)
    requires t.Proc? && Writable(t, v, sc, fix)
    ensures FnWritable(t.fn, sc, fix) && SelfWritable(t.selfType, sc, fix) && Forwards(t.fn, false)
    ensures t.block.Some? ==> BlockWritable(t.block.value, sc, fix)
    ensures BareText(t, fix, k) ==
              Put(HAT, ParensText(t.fn, fix, SelfText(t.selfType, fix, BlockText(t.block, fix,
                Put(ARROW, TypeText(t.fn.ret, 1, fix, k))))))
  {
    assert fix || (EveryFn(t.fn, PlainNode, PlainParam) && EveryBlock(t.block, PlainNode, PlainParam));
    FnParts(t.fn, sc, fix);
    if t.block.Some? {
      assert WellBlock(t.block.value, sc) && (fix || EveryFn(t.block.value.fn, PlainNode, PlainParam));
      FnParts(t.block.value.fn, sc, fix);
    }
  }

  lemma FnParts(f: Function, sc: Scope, fix: bool)
    requires WellFn(f, sc) && (fix || EveryFn(f, PlainNode, PlainParam))
    ensures FnWritable(f, sc, fix)
  {
    if f.Fn? {
      ParamsParts(f.params, sc, fix);
    }
  }

  lemma ParamsParts(ps: MethodParams, sc: Scope, fix: bool)
    requires WellParams(ps, sc) && (fix || EveryParam(ps, PlainNode, PlainParam))
    ensures AllParamsWritable(ps, sc, fix) && Orderly(ps)
  {
    forall p | WellParam(p, sc) && (fix || EveryOf(p, PlainNode, PlainParam))
      ensures ParamWritable(p, sc, fix)
    {}
    forall k: Entry<string, Param> | WellKeyword(k, sc)
      ensures WellParam(k.value, sc)
    {}
  }

  lemma {:induction false} ProcRead(s: Stream, i: nat, e: Errors, t: Type, v: bool, sc: Scope, fix: bool, k: Text)
    requires t.Proc? && Writable(t, v, sc, fix) && Spells(s, i, BareText(t, fix, k)) && Bounds(t, k)
    ensures Read(SimpleAt(s, i, e, v, sc), t, s, e, k)
    decreases t, 0, 0
  {
    hide Well, WellParams, WellBlock, WellFn, Spells, Stops, BlockOrArrow, Writable, FnWritable, SelfWritable,
      BlockWritable, TypeText, BareText, ParensText, SelfText, BlockText, SimpleAt, ProcAt, ParenParamsAt,
      SelfBindingAt, BlockAt, ReturnAt, Same, SameMethodParams, SameOption, SameBlock, SameFn, NoParen;
    ProcParts(t, v, sc, fix, k);
    var ret := Put(ARROW, TypeText(t.fn.ret, 1, fix, k));
    var tail := SelfText(t.selfType, fix, BlockText(t.block, fix, ret));
    TakeMark(s, i, HAT, ParensText(t.fn, fix, tail));
    MarkStarts(s, i, e, v, sc);
    BlockTextHead(t.block, fix, TypeText(t.fn.ret, 1, fix, k));
    SelfNoParen(t.selfType, fix, BlockText(t.block, fix, ret));
    ParamListRead(s, i + 1, e, t.fn, sc, false, fix, tail);
    var ps := ParenParamsAt(s, i + 1, e, sc, false);
    SelfRead(s, ps.pos, e, t.selfType, sc, fix, BlockText(t.block, fix, ret));
    var self := SelfBindingAt(s, ps.pos, e, sc);
    BlockRead(s, self.pos, e, t.block, sc, fix, TypeText(t.fn.ret, 1, fix, k));
    var block := BlockAt(s, self.pos, e, sc);
    FnSetting(t, sc, fix);
    ReturnRead(s, block.pos, e, t.fn.ret, sc, fix, k);
    ProcSteps(s, i, e, t, sc);
  }

  lemma FnSetting(t: Type, sc: Scope, fix: bool)
    requires t.Proc? && FnWritable(t.fn, sc, fix)
    ensures Writable(t.fn.ret, true, sc, fix)
  {}

  lemma BlockTextHead(b: Option<Block>, fix: bool, k: Text)
    ensures BlockOrArrow(BlockText(b, fix, Put(ARROW, k)))
  {}

  lemma ProcSteps(s: Stream, i: nat, e: Errors, t: Type, sc: Scope)
    requires t.Proc? && s.Kind(i) == HAT && ParenParamsAt(s, i + 1, e, sc, false).Ok?
    ensures var ps := ParenParamsAt(s, i + 1, e, sc, false);
            var self := SelfBindingAt(s, ps.pos, ps.err, sc);
            self.Ok? ==>
              var block := BlockAt(s, self.pos, self.err, sc);
              block.Ok? ==>
                var ret := ReturnAt(s, block.pos, block.err, sc);
                && ret.Ok? && t.fn.UntypedFn? == ps.value.Untyped? && Same(t.fn.ret, ret.value)
                && (t.fn.Fn? ==> SameMethodParams(t.fn.params, ps.value.params))
                && SameOption(t.selfType, self.value) && SameBlock(t.block, block.value) ==>
                  var r := ProcAt(s, i, e, sc);
                  r.Ok? && Same(t, r.value) && r.pos == ret.pos && r.err == ret.err
  {
    hide Well, WellParams, WellBlock, WellFn, ParenParamsAt, SelfBindingAt, BlockAt, ReturnAt, SameMethodParams,
      SameOption, SameBlock;
    var ps := ParenParamsAt(s, i + 1, e, sc, false);
    var self := SelfBindingAt(s, ps.pos, ps.err, sc);
    if self.Ok? {
      var f := FunctionAt(s, i + 1, e, sc, true, true, false);
      assert f == FunctionRest(s, i + 1, self.pos, self.err, sc, true, ps.value, self.value);
      var block := BlockAt(s, self.pos, self.err, sc);
      if block.Ok? {
        var ret := ReturnAt(s, block.pos, block.err, sc);
        if ret.Ok? && Same(t.fn.ret, ret.value) {
          var loc := Spanning(s.Current(i + 1), s.At(ret.pos - 1));
          assert f == Ok(FunctionResult(MakeFunction(ps.value, ret.value, loc), block.value, self.value), ret.pos, ret.err);
          if t.fn.UntypedFn? == ps.value.Untyped? && (t.fn.Fn? ==> SameMethodParams(t.fn.params, ps.value.params)) {
            SameMade(t.fn, ps.value, ret.value, loc);
          }
        }
      }
    }
  }

  // ---- untyped functions ----------------------------------------------------------------------------

  // `(?)` at token `i`.
  predicate UntypedAt(s: Stream, i: nat) {
    s.Kind(i) == LPAREN && s.Kind(i + 1) == QUESTION && s.Kind(i + 2) == RPAREN
  }

  // What a function has for parameters, by the tokens they begin with.
  predicate ParamsAsWritten(f: Function, s: Stream, i: nat) {
    && (f.UntypedFn? <==> UntypedAt(s, i))
    && (s.Kind(i) != LPAREN ==> f.Fn? && f.params == NO_PARAMS)
  }

  lemma ListAsWritten(s: Stream, i: nat, e: Errors, sc: Scope, fwd: bool, ret: Type, loc: Location)
    requires i <= |s.toks|
    ensures var r := ParenParamsAt(s, i, e, sc, fwd);
            r.Ok? ==> ParamsAsWritten(MakeFunction(r.value, ret, loc), s, i)
  {
    hide Well, WellParams, SectionAt, Stream.At;
  }

  // A function is untyped exactly if its parameters are `(?)`; without parentheses it has no parameters.
  lemma FunctionsAsWritten(s: Stream, i: nat, e: Errors, sc: Scope, binding: bool, blocks: bool, fwd: bool)
    requires i <= |s.toks|
    ensures var r := FunctionAt(s, i, e, sc, binding, blocks, fwd);
            r.Ok? ==> ParamsAsWritten(r.value.fn, s, i)
  {
    hide Well, WellParams, WellFn, WellBlock, ParenParamsAt, SelfBindingAt, BlockAt, ReturnAt, MakeFunction,
      ParamsAsWritten, Stream.At, Stream.Kind;
    forall ret, loc
      ensures var ps := ParenParamsAt(s, i, e, sc, fwd); ps.Ok? ==> ParamsAsWritten(MakeFunction(ps.value, ret, loc), s, i)
    {
      ListAsWritten(s, i, e, sc, fwd, ret, loc);
    }
  }

  // The same for a block, whose parameters begin after the brace.
  lemma BlocksAsWritten(s: Stream, i: nat, e: Errors, sc: Scope)
    requires i <= |s.toks| && BlockFollows(s, i)
    ensures var r := BlockAt(s, i, e, sc);
            r.Ok? ==> r.value.Some?
                      && ParamsAsWritten(r.value.value.fn, s, if s.Kind(i) == QUESTION then i + 2 else i + 1)
                      && r.value.value.required == (s.Kind(i) == LBRACE)
  {
    hide Well, WellParams, WellFn, WellBlock, ParenParamsAt, SelfBindingAt, ReturnAt, MakeFunction, ParamsAsWritten,
      Stream.At;
    var at := if s.Kind(i) == QUESTION then i + 2 else i + 1;
    forall ret, loc
      ensures var ps := ParenParamsAt(s, at, e, sc, false);
              ps.Ok? ==> ParamsAsWritten(MakeFunction(ps.value, ret, loc), s, at)
    {
      ListAsWritten(s, at, e, sc, false, ret, loc);
    }
  }

  // ---- main results ---------------------------------------------------------------------------------

  // Every well-formed type can be written so that the parser reads it back, up to locations, and stops
  // before whatever follows it.
  lemma WrittenTypesAreRead(s: Stream, i: nat, e: Errors, t: Type, v: bool, sc: Scope, k: Text)
    requires Well(t, v, sc) && Spells(s, i, TypeText(t, 0, true, k)) && Stops(k, 0)
    ensures var r := TypeAt(s, i, e, v, sc); r.Ok? && Same(t, r.value) && r.err == e && Spells(s, r.pos, k)
  {
    TypeRead(s, i, e, t, v, sc, true, k);
  }

  // Whatever the parser has accepted is well-formed, so writing it and parsing again gives it back.
  lemma AcceptedTypesAreStable(s: Stream, i: nat, e: Errors, v: bool, sc: Scope, s': Stream, i': nat, e': Errors, k: Text)
    requires TypeAt(s, i, e, v, sc).Ok?
    requires Spells(s', i', TypeText(TypeAt(s, i, e, v, sc).value, 0, true, k)) && Stops(k, 0)
    ensures var t := TypeAt(s, i, e, v, sc).value;
            var r := TypeAt(s', i', e', v, sc);
            Well(t, v, sc) && r.Ok? && Same(t, r.value) && r.err == e' && Spells(s', r.pos, k)
  {
    WrittenTypesAreRead(s', i', e', TypeAt(s, i, e, v, sc).value, v, sc, k);
  }

  // Ruby's own to_s is read back for plain types.
  lemma PlainTypesAreRead(s: Stream, i: nat, e: Errors, t: Type, v: bool, sc: Scope, k: Text)
    requires Well(t, v, sc) && Plain(t) && Spells(s, i, TypeText(t, 0, false, k)) && Stops(k, 0)
    ensures var r := TypeAt(s, i, e, v, sc); r.Ok? && Same(t, r.value) && r.err == e && Spells(s, r.pos, k)
  {
    TypeRead(s, i, e, t, v, sc, false, k);
  }
}
