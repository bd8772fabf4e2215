/** When Ruby's own to_s of a type is read back: exactly if the type is plain. What the parser makes of any other type is
    followed through the grammar: it fails, it stops at a `?` that is left over, or it has built another tree. */
module ToS {
  import opened Ast
  import opened Containers
  import opened Grammar
  import opened Printer
  import opened RoundTrip
  import opened Tokens
  import opened Trees
  import opened WellFormed

  // If `u` is `t`, then `t` is plain.
  ghost predicate Tells(t: Type, u: Type) {
    Same(t, u) ==> Plain(t)
  }

  ghost predicate TellsAll(ts: seq<Type>, us: seq<Type>) {
    |ts| == |us| && forall m :: 0 <= m < |ts| ==> Tells(ts[m], us[m])
  }

  // A routine that returns true has read the whole text, or stands before a `?`.
  ghost predicate Met(r: Outcome<Type>, t: Type, s: Stream, k: Text) {
    r.Ok? ==> s.Kind(r.pos) == QUESTION || (Spells(s, r.pos, k) && Tells(t, r.value))
  }

  function Marks(n: nat, k: Text): Text {
    if n == 0 then k else Put(QUESTION, Marks(n - 1, k))
  }

  // A routine that returns true has read the whole text but for `m` times `?` at its end.
  ghost predicate MetBut(r: Outcome<Type>, t: Type, s: Stream, k: Text, m: nat) {
    r.Ok? ==> Spells(s, r.pos, Marks(m, k)) && (m == 0 ==> Tells(t, r.value))
  }

  lemma MetButMarks(r: Outcome<Type>, t: Type, s: Stream, k: Text, m: nat)
    requires MetBut(r, t, s, k, m)
    ensures Met(r, t, s, k)
    ensures r.Ok? && m > 0 ==> s.Kind(r.pos) == QUESTION && Spells(s, r.pos + 1, Marks(m - 1, k))
    ensures r.Ok? && m == 0 ==> Spells(s, r.pos, k) && Tells(t, r.value)
  {
    hide Same, Every;
    if r.Ok? && m > 0 {
      TakeMark(s, r.pos, QUESTION, Marks(m - 1, k));
    }
  }

  lemma MetWhole(r: Outcome<Type>, t: Type, s: Stream, k: Text)
    requires r.Ok? ==> Spells(s, r.pos, k) && Tells(t, r.value)
    ensures MetBut(r, t, s, k, 0)
  {
    hide Spells, Tells;
  }

  // ---- what a type starts with ------------------------------------------------------------------------

  // The lexemes types are written with.
  predicate Usual(b: Body) {
    !b.Anything? && !b.Spelled? && !b.MethodMark? && !b.NoteMark? && !b.Placed?
  }

  predicate Mild(k: Text)
    decreases k
  {
    match k
    case End => false
    case Either(x, y) => Mild(x) && Mild(y)
    case More(h, _) => Usual(h.body) && h.body != Mark(COLON)
  }

  // After a word, this does not make it a keyword.
  predicate Quiet(k: Text)
    decreases k
  {
    match k
    case End => false
    case Either(x, y) => Quiet(x) && Quiet(y)
    case More(h, t) =>
      Usual(h.body) && h.body != Mark(COLON) && (h.body == Mark(QUESTION) ==> Mild(t))
  }

  lemma {:induction false} NoKeywordBefore(s: Stream, i: nat, k: Text)
    requires Spells(s, i + 1, k) && Quiet(k)
    ensures !IsKeyword(s, i)
    decreases k
  {
    hide IsKeywordToken;
    NotWord();
    if k.Either? {
      NoKeywordBefore(s, i, if Spells(s, i + 1, k.one) then k.one else k.other);
      return;
    }
    NoColon(s, i + 1, k);
    if k.head.body == Mark(QUESTION) {
      NoColon(s, i + 2, k.tail);
    } else {
      NoQuestion(s, i + 1, k);
    }
  }

  lemma {:induction false} NoColon(s: Stream, j: nat, k: Text)
    requires Spells(s, j, k) && Mild(k)
    ensures s.Kind(j) != COLON
    decreases k
  {
    if k.Either? {
      NoColon(s, j, if Spells(s, j, k.one) then k.one else k.other);
    }
  }

  lemma NoQuestion(s: Stream, j: nat, k: Text)
    requires k.More? && Spells(s, j, k) && Usual(k.head.body) && k.head.body != Mark(QUESTION)
    ensures s.Kind(j) != QUESTION
  {}

  // A type can be told from a keyword, and from anything else that may stand where a type does.
  lemma {:induction false} TypeBegins(s: Stream, i: nat, t: Type, level: nat, v: bool, sc: Scope, k: Text)
    requires Well(t, v, sc) && Spells(s, i, TypeText(t, level, false, k))
    ensures i < |s.toks| && Begins(s.Kind(i)) && (Quiet(k) ==> !IsKeyword(s, i))
    decreases t
  {
    hide Spells, IsKeyword, Quiet, ListText, FieldsText, ArgsText, ParamListText;
    if level > 0 && (t.Union? || t.Intersection?) {
      TakeMark(s, i, LPAREN, BareText(t, false, Put(RPAREN, k)));
      MarkBegins(s, i);
    } else {
      BareBegins(s, i, t, v, sc, k);
    }
  }

  lemma {:induction false} BareBegins(s: Stream, i: nat, t: Type, v: bool, sc: Scope, k: Text)
    requires Well(t, v, sc) && Spells(s, i, BareText(t, false, k))
    ensures i < |s.toks| && Begins(s.Kind(i)) && (Quiet(k) ==> !IsKeyword(s, i))
    decreases t, 0
  {
    hide Spells, IsKeyword, Quiet, ListText, FieldsText, ArgsText, ParamListText, TypeText, NameText, Begins, Put;
    match t
    case OptionalType(u, _) =>
      if Wrapped(u, false) {
        TakeMark(s, i, LPAREN, TypeText(u, 1, false, Put(RPAREN, Put(QUESTION, k))));
        MarkBegins(s, i);
      } else {
        TypeBegins(s, i, u, 1, false, sc, Put(QUESTION, k));
        QuietQuestion(k);
      }
    case Union(ts, _) =>
      UnionHead(ts, 0, false, k);
      QuietMarks(UnionText(ts, 1, false, k));
      TypeBegins(s, i, ts[0], MemberLevel(ts[0], false), false, sc, Put(BAR, UnionText(ts, 1, false, k)));
    case Intersection(ts, _) =>
      IntersectionHead(ts, 0, false, k);
      QuietMarks(IntersectionText(ts, 1, false, k));
      TypeBegins(s, i, ts[0], 2, false, sc, Put(AMP, IntersectionText(ts, 1, false, k)));
    case _ =>
      UnitBegins(s, i, t, k);
  }

  lemma MarkBegins(s: Stream, i: nat)
    requires s.Kind(i) == LPAREN || s.Kind(i) == LBRACKET || s.Kind(i) == LBRACE || s.Kind(i) == HAT || s.Kind(i) == COLON2
    ensures Begins(s.Kind(i)) && !IsKeyword(s, i)
  {}

  lemma UnitBegins(s: Stream, i: nat, t: Type, k: Text)
    requires !t.OptionalType? && !t.Union? && !t.Intersection? && Spells(s, i, BareText(t, false, k))
    ensures i < |s.toks| && Begins(s.Kind(i)) && (Quiet(k) ==> !IsKeyword(s, i))
  {
    hide Spells, IsKeyword, Quiet, ListText, FieldsText, ArgsText, ParamListText, TypeText, NameText, SelfText,
      BlockText, Begins, Put;
    match t
    case Base(b, _) =>
      TakeMark(s, i, KeywordOf(b), k);
      BaseBegins(s, i, b);
      if Quiet(k) { NoKeywordBefore(s, i, k); }
    case Variable(x, _) =>
      TakeName(s, i, ClassName, x, false, k);
      NameKindBegins(s, i);
      if Quiet(k) { NoKeywordBefore(s, i, k); }
    case LiteralType(l, _) =>
      TakeLiteral(s, i, l, k);
      LiteralBegins(s, i);
      if Quiet(k) { NoKeywordBefore(s, i, k); }
    case Application(n, args, _, _, _) =>
      NameBegins(s, i, n, args, k);
    case Singleton(n, args, _, _, _) =>
      var more := NameText(n, Put(RPAREN, ArgsText(args, false, k)));
      TakeMark(s, i, KW_SINGLETON, Put(LPAREN, more));
      SingletonBegins(s, i);
      QuietMarks(more);
      NoKeywordBefore(s, i, Put(LPAREN, more));
    case Tuple(ts, _) =>
      TakeMark(s, i, LBRACKET, ListText(ts, 0, false, Put(RBRACKET, k)));
      MarkBegins(s, i);
    case Record(fs, _) =>
      TakeMark(s, i, LBRACE, FieldsText(fs, 0, false, Put(RBRACE, k)));
      MarkBegins(s, i);
    case Proc(f, b, self, _) =>
      TakeMark(s, i, HAT, Put(LPAREN, ParamListText(f, false, Put(RPAREN,
        SelfText(self, false, BlockText(b, false, Put(ARROW, TypeText(f.ret, 1, false, k))))))));
      MarkBegins(s, i);
  }

  lemma BaseBegins(s: Stream, i: nat, b: BaseKind)
    requires s.Kind(i) == KeywordOf(b)
    ensures Begins(s.Kind(i))
  {}

  lemma NameKindBegins(s: Stream, i: nat)
    requires KindOfName(s.Kind(i)).Some?
    ensures Begins(s.Kind(i))
  {}

  lemma SingletonBegins(s: Stream, i: nat)
    requires s.Kind(i) == KW_SINGLETON
    ensures Begins(s.Kind(i))
  {}

  lemma QuietMarks(k: Text)
    ensures Quiet(Put(LPAREN, k)) && Quiet(Put(BAR, k)) && Quiet(Put(AMP, k)) && Quiet(Put(LBRACKET, k))
    ensures Quiet(Put(COMMA, k)) && Quiet(Put(RPAREN, k)) && Quiet(PutGlued(COLON2, k))
  {}

  lemma QuietQuestion(k: Text)
    ensures Quiet(k) ==> Quiet(Put(QUESTION, k))
  {
    if Quiet(k) {
      QuietMild(k);
    }
  }

  lemma {:induction false} QuietMild(k: Text)
    requires Quiet(k)
    ensures Mild(k)
    decreases k
  {
    if k.Either? {
      QuietMild(k.one);
      QuietMild(k.other);
    }
  }

  lemma LiteralBegins(s: Stream, i: nat)
    requires LiteralOf(s.At(i)).Some?
    ensures Begins(s.At(i).kind)
  {}

  lemma NameBegins(s: Stream, i: nat, n: TypeName, args: seq<Type>, k: Text)
    requires Spells(s, i, NameText(n, ArgsText(args, false, k)))
    ensures i < |s.toks| && Begins(s.Kind(i)) && (Quiet(k) ==> !IsKeyword(s, i))
  {
    hide Spells, IsKeyword, Quiet, ListText, Begins, Put, PutGlued, KindOfName;
    var after := ArgsText(args, false, k);
    if n.absolute {
      TakeMark(s, i, COLON2, PathText(n, 0, true, after));
      MarkBegins(s, i);
    } else if n.path != [] {
      var more := PathText(n, 1, true, after);
      TakeName(s, i, ClassName, n.path[0], false, PutGlued(COLON2, more));
      NameKindBegins(s, i);
      QuietMarks(more);
      NoKeywordBefore(s, i, PutGlued(COLON2, more));
    } else {
      TakeName(s, i, n.kind, n.name, false, after);
      NameKindBegins(s, i);
      QuietMarks(ListText(args, 0, false, Put(RBRACKET, k)));
      if Quiet(k) { NoKeywordBefore(s, i, after); }
    }
  }

  // ---- types ------------------------------------------------------------------------------------------

  lemma {:induction false} TypeMet(s: Stream, i: nat, e: Errors, t: Type, v: bool, sc: Scope, k: Text)
    requires Well(t, v, sc) && Spells(s, i, TypeText(t, 0, false, k)) && Stops(k, 0)
    ensures Met(TypeAt(s, i, e, v, sc), t, s, k)
    decreases t, 3
  {
    hide Well, Spells, Stops, TypeText, BareText, UnionText, IntersectionAt, UnionRest, TypeAt, Same, Every, Tells,
      Stream.At, Stream.Kind;
    var r := TypeAt(s, i, e, v, sc);
    StopsMore(k);
    if t.Union? {
      UnionWell(t, v, sc, k);
      var j, e', acc := MembersMet(s, i, e, t.types, v, sc, k);
      if r.Ok? && s.Kind(r.pos) != QUESTION {
        KindAfter(s, j, k, 0);
        UnionEnds(s, i, j, e', v, sc, acc);
        UnionTells(t, acc, Spanning(s.At(i), s.At(j - 1)));
      }
    } else {
      MemberMet(s, i, e, t, 0, v, sc, k);
      var q := IntersectionAt(s, i, e, v, sc);
      UnionStarts(s, i, e, v, sc);
      if q.Ok? {
        if s.Kind(q.pos) != QUESTION {
          KindAfter(s, q.pos, k, 0);
        }
        UnionEnds(s, i, q.pos, q.err, v, sc, [q.value]);
      }
    }
  }

  lemma UnionWell(t: Type, v: bool, sc: Scope, k: Text)
    requires t.Union? && Well(t, v, sc)
    ensures |t.types| >= 2 && AllWell(t.types, false, sc)
    ensures forall level :: level == 0 ==> TypeText(t, level, false, k) == UnionText(t.types, 0, false, k)
  {}

  lemma UnionStarts(s: Stream, i: nat, e: Errors, v: bool, sc: Scope)
    ensures var q := IntersectionAt(s, i, e, v, sc);
            TypeAt(s, i, e, v, sc) == if q.Fail? then q else UnionRest(s, i, q.pos, q.err, v, sc, [q.value])
  {
    hide Well, IntersectionAt, UnionRest;
  }

  lemma UnionEnds(s: Stream, i: nat, j: nat, e: Errors, v: bool, sc: Scope, acc: seq<Type>)
    requires i < j <= |s.toks| && acc != [] && s.Kind(j) != BAR
    ensures UnionRest(s, i, j, e, v, sc, acc)
         == Ok(if |acc| > 1 then Union(acc, Spanning(s.At(i), s.At(j - 1))) else acc[0], j, e)
  {
    hide Well, MembersWell, IntersectionAt, Stream.At, Stream.Kind;
  }

  lemma UnionGoesOn(s: Stream, i: nat, j: nat, e: Errors, v: bool, sc: Scope, acc: seq<Type>)
    requires i < j <= |s.toks| && acc != [] && s.Kind(j) == BAR
    ensures var r := UnionRest(s, i, j, e, v, sc, acc);
            r.Ok? ==>
              var q := IntersectionAt(s, j + 1, e, false, sc);
              q.Ok? && r == UnionRest(s, i, q.pos, q.err, v, sc, acc + [q.value])
  {
    hide Well, MembersWell, IntersectionAt, Stream.At;
  }

  // `acc` has the members, more of them if one was a union itself.
  ghost predicate MembersTold(ts: seq<Type>, acc: seq<Type>) {
    && |acc| >= |ts|
    && ((exists u <- ts :: u.Union?) ==> |acc| > |ts|)
    && (|acc| == |ts| ==> TellsAll(ts, acc))
  }

  lemma UnionTells(t: Type, acc: seq<Type>, loc: Location)
    requires t.Union? && |acc| > 1 && MembersTold(t.types, acc)
    ensures Tells(t, Union(acc, loc))
  {
    if Same(t, Union(acc, loc)) {
      assert SameAll(t.types, acc);
      forall m | 0 <= m < |acc|
        ensures Plain(t.types[m])
      {
        assert Tells(t.types[m], acc[m]) && Same(t.types[m], acc[m]);
      }
    }
  }

  lemma ToldAgain(a: seq<Type>, x: seq<Type>, b: seq<Type>, y: seq<Type>)
    requires MembersTold(a, x) && MembersTold(b, y)
    ensures MembersTold(a + b, x + y)
  {
    hide Tells;
  }

  lemma ToldOne(t: Type, u: Type)
    requires Tells(t, u) && !t.Union?
    ensures MembersTold([t], [u])
  {
    hide Tells;
  }

  lemma ToldMany(t: Type, acc: seq<Type>)
    requires t.Union? && |t.types| >= 2 && MembersTold(t.types, acc)
    ensures MembersTold([t], acc)
  {
    hide Tells;
  }

  // The members of a union from the first on, however unions are nested to the left: what has been read, unless the
  // routine fails or stops at a `?`.
  lemma {:induction false} MembersMet(s: Stream, i: nat, e: Errors, ts: seq<Type>, v: bool, sc: Scope, k: Text)
    returns (j: nat, e': Errors, acc: seq<Type>)
    requires ts != [] && AllWell(ts, false, sc) && Spells(s, i, UnionText(ts, 0, false, k)) && Stops(k, 1)
    ensures var r := TypeAt(s, i, e, v, sc);
            r.Ok? && s.Kind(r.pos) != QUESTION ==>
              && i < j <= |s.toks| && MembersTold(ts, acc) && acc != []
              && r == UnionRest(s, i, j, e', v, sc, acc) && Spells(s, j, k)
    decreases ts, 2
  {
    hide Well, Spells, Stops, TypeText, BareText, UnionText, IntersectionAt, UnionRest, TypeAt, MembersTold,
      Stream.At, Stream.Kind, Same, Every, Tells;
    j, e', acc := 0, e, [];
    var r := TypeAt(s, i, e, v, sc);
    var next := if 1 < |ts| then Put(BAR, UnionText(ts, 1, false, k)) else k;
    UnionHead(ts, 0, false, k);
    assert Well(ts[0], false, sc);
    if ts[0].Union? {
      UnionWell(ts[0], false, sc, next);
      j, e', acc := MembersMet(s, i, e, ts[0].types, v, sc, next);
      if r.Ok? && s.Kind(r.pos) != QUESTION {
        ToldMany(ts[0], acc);
      }
    } else {
      VoidOrNot(ts[0], v, sc);
      MemberMet(s, i, e, ts[0], MemberLevel(ts[0], false), v, sc, next);
      var q := IntersectionAt(s, i, e, v, sc);
      UnionStarts(s, i, e, v, sc);
      if q.Ok? {
        j, e', acc := q.pos, q.err, [q.value];
        if s.Kind(j) == QUESTION {
          UnionEnds(s, i, j, e', v, sc, acc);
        } else {
          ToldOne(ts[0], q.value);
        }
      }
    }
    if r.Ok? && s.Kind(r.pos) != QUESTION && 1 < |ts| {
      var acc0 := acc;
      j, e', acc := RestMet(s, i, j, e', ts, 1, acc0, v, sc, k);
      ToldAgain([ts[0]], acc0, ts[1..], acc[|acc0|..]);
      assert [ts[0]] + ts[1..] == ts && acc0 + acc[|acc0|..] == acc;
    } else if 1 >= |ts| {
      assert [ts[0]] == ts;
    }
  }

  lemma VoidOrNot(t: Type, v: bool, sc: Scope)
    requires Well(t, false, sc)
    ensures Well(t, v, sc)
  {}

  lemma {:induction false} RestMet(s: Stream, i: nat, j: nat, e: Errors, ts: seq<Type>, n: nat, acc: seq<Type>, v: bool,
                                   sc: Scope, k: Text)
    returns (j': nat, e': Errors, acc': seq<Type>)
    requires n < |ts| && AllWell(ts, false, sc) && i < j <= |s.toks| && acc != []
    requires Spells(s, j, Put(BAR, UnionText(ts, n, false, k))) && Stops(k, 1)
    ensures var r := UnionRest(s, i, j, e, v, sc, acc);
            r.Ok? && s.Kind(r.pos) != QUESTION ==>
              && i < j' <= |s.toks| && acc <= acc' && MembersTold(ts[n..], acc'[|acc|..])
              && r == UnionRest(s, i, j', e', v, sc, acc') && Spells(s, j', k)
    decreases ts, 1, |ts| - n
  {
    hide Well, Spells, Stops, TypeText, BareText, UnionText, IntersectionAt, UnionRest, MembersTold, Stream.At,
      Stream.Kind, Same, Every, Tells;
    j', e', acc' := 0, e, [];
    var r := UnionRest(s, i, j, e, v, sc, acc);
    var next := if n + 1 < |ts| then Put(BAR, UnionText(ts, n + 1, false, k)) else k;
    UnionHead(ts, n, false, k);
    assert Well(ts[n], false, sc);
    if ts[n].Union? {
      UnionWell(ts[n], false, sc, next);
      j', e', acc' := RestMet(s, i, j, e, ts[n].types, 0, acc, v, sc, next);
      if r.Ok? && s.Kind(r.pos) != QUESTION {
        assert ts[n].types[0..] == ts[n].types;
        ToldMany(ts[n], acc'[|acc|..]);
      }
    } else {
      TakeMark(s, j, BAR, UnionText(ts, n, false, k));
      MemberMet(s, j + 1, e, ts[n], MemberLevel(ts[n], false), false, sc, next);
      UnionGoesOn(s, i, j, e, v, sc, acc);
      var q := IntersectionAt(s, j + 1, e, false, sc);
      if q.Ok? {
        j', e', acc' := q.pos, q.err, acc + [q.value];
        if s.Kind(j') == QUESTION {
          UnionEnds(s, i, j', e', v, sc, acc');
        } else {
          assert acc'[|acc|..] == [q.value];
          ToldOne(ts[n], q.value);
        }
      }
    }
    if r.Ok? && s.Kind(r.pos) != QUESTION {
      assert ts[n..] == [ts[n]] + ts[n + 1..];
      if n + 1 < |ts| {
        var acc1 := acc';
        j', e', acc' := RestMet(s, i, j', e', ts, n + 1, acc1, v, sc, k);
        ToldAgain([ts[n]], acc1[|acc|..], ts[n + 1..], acc'[|acc1|..]);
        assert acc1[|acc|..] + acc'[|acc1|..] == acc'[|acc|..];
      } else {
        assert ts[n..] == [ts[n]];
      }
    }
  }

  // A type that is not a bare union.
  lemma {:induction false} MemberMet(s: Stream, i: nat, e: Errors, t: Type, level: nat, v: bool, sc: Scope, k: Text)
    requires Well(t, v, sc) && (t.Union? ==> level > 0)
    requires Spells(s, i, TypeText(t, level, false, k)) && Stops(k, 1)
    ensures Met(IntersectionAt(s, i, e, v, sc), t, s, k)
    decreases t, if level > 0 && (t.Union? || t.Intersection?) then 12 else 2, 1
  {
    hide Well, Spells, Stops, TypeText, BareText, IntersectionText, OptionalAt, IntersectionRest, IntersectionAt,
      Same, Every, Tells, Stream.At, Stream.Kind, MetBut;
    StopsMore(k);
    IntersectionStarts(s, i, e, v, sc);
    var q := OptionalAt(s, i, e, v, sc);
    if t.Intersection? && level == 0 {
      IntersectionWell(t, v, sc, k);
      IntersectionHead(t.types, 0, false, k);
      VoidOrNot(t.types[0], v, sc);
      var m := OptionalMet(s, i, e, t.types[0], 2, v, sc, Put(AMP, IntersectionText(t.types, 1, false, k)));
      MetButMarks(q, t.types[0], s, Put(AMP, IntersectionText(t.types, 1, false, k)), m);
      if q.Ok? {
        if m > 0 {
          IntersectionEnds(s, i, q.pos, q.err, v, sc, [q.value]);
        } else {
          IntersectionMet(s, i, q.pos, q.err, t, 1, [q.value], v, sc, k);
        }
      }
    } else {
      var m := OptionalMet(s, i, e, t, level, v, sc, k);
      MetButMarks(q, t, s, k, m);
      if q.Ok? {
        if m == 0 {
          KindAfter(s, q.pos, k, 1);
        }
        IntersectionEnds(s, i, q.pos, q.err, v, sc, [q.value]);
      }
    }
  }

  lemma IntersectionWell(t: Type, v: bool, sc: Scope, k: Text)
    requires t.Intersection? && Well(t, v, sc)
    ensures |t.types| >= 2 && AllWell(t.types, false, sc)
    ensures forall level :: level == 0 ==> TypeText(t, level, false, k) == IntersectionText(t.types, 0, false, k)
  {}

  lemma IntersectionStarts(s: Stream, i: nat, e: Errors, v: bool, sc: Scope)
    ensures var q := OptionalAt(s, i, e, v, sc);
            IntersectionAt(s, i, e, v, sc) == if q.Fail? then q else IntersectionRest(s, i, q.pos, q.err, v, sc, [q.value])
  {
    hide Well, OptionalAt, IntersectionRest;
  }

  lemma IntersectionEnds(s: Stream, i: nat, j: nat, e: Errors, v: bool, sc: Scope, acc: seq<Type>)
    requires i < j <= |s.toks| && acc != [] && s.Kind(j) != AMP
    ensures IntersectionRest(s, i, j, e, v, sc, acc)
         == Ok(if |acc| > 1 then Intersection(acc, Spanning(s.At(i), s.At(j - 1))) else acc[0], j, e)
  {
    hide Well, MembersWell, OptionalAt, Stream.At, Stream.Kind;
  }

  lemma IntersectionGoesOn(s: Stream, i: nat, j: nat, e: Errors, v: bool, sc: Scope, acc: seq<Type>)
    requires i < j <= |s.toks| && acc != [] && s.Kind(j) == AMP
    ensures var r := IntersectionRest(s, i, j, e, v, sc, acc);
            r.Ok? ==>
              var q := OptionalAt(s, j + 1, e, false, sc);
              q.Ok? && r == IntersectionRest(s, i, q.pos, q.err, v, sc, acc + [q.value])
  {
    hide Well, MembersWell, OptionalAt, Stream.At;
  }

  lemma IntersectionTells(t: Type, acc: seq<Type>, loc: Location)
    requires t.Intersection? && TellsAll(t.types, acc)
    ensures Tells(t, Intersection(acc, loc))
  {
    if Same(t, Intersection(acc, loc)) {
      assert SameAll(t.types, acc);
      forall m | 0 <= m < |acc|
        ensures Plain(t.types[m])
      {
        assert Tells(t.types[m], acc[m]) && Same(t.types[m], acc[m]);
      }
    }
  }

  lemma {:induction false} IntersectionMet(s: Stream, i: nat, j: nat, e: Errors, t: Type, n: nat, acc: seq<Type>,
                                           v: bool, sc: Scope, k: Text)
    requires t.Intersection? && 1 <= n <= |t.types| && |t.types| >= 2 && AllWell(t.types, false, sc)
    requires i < j <= |s.toks| && TellsAll(t.types[..n], acc) && Stops(k, 1)
    requires Spells(s, j, if n < |t.types| then Put(AMP, IntersectionText(t.types, n, false, k)) else k)
    ensures Met(IntersectionRest(s, i, j, e, v, sc, acc), t, s, k)
    decreases t, 1, |t.types| - n
  {
    hide Well, Spells, Stops, TypeText, BareText, IntersectionText, OptionalAt, IntersectionRest, Same, Every, Tells,
      Stream.At, Stream.Kind, MetBut;
    var ts := t.types;
    if n < |ts| {
      assert Well(ts[n], false, sc);
      TakeMark(s, j, AMP, IntersectionText(ts, n, false, k));
      IntersectionHead(ts, n, false, k);
      var more := if n + 1 < |ts| then Put(AMP, IntersectionText(ts, n + 1, false, k)) else k;
      StopsMore(k);
      var m := OptionalMet(s, j + 1, e, ts[n], 2, false, sc, more);
      var q := OptionalAt(s, j + 1, e, false, sc);
      MetButMarks(q, ts[n], s, more, m);
      IntersectionGoesOn(s, i, j, e, v, sc, acc);
      if q.Ok? {
        if m > 0 {
          IntersectionEnds(s, i, q.pos, q.err, v, sc, acc + [q.value]);
        } else {
          IntersectionMet(s, i, q.pos, q.err, t, n + 1, acc + [q.value], v, sc, k);
        }
      }
    } else {
      KindAfter(s, j, k, 1);
      IntersectionEnds(s, i, j, e, v, sc, acc);
      assert ts[..n] == ts;
      IntersectionTells(t, acc, Spanning(s.At(i), s.At(j - 1)));
    }
  }

  // A type that is neither a bare union nor a bare intersection; `m` times `?` may be left.
  lemma {:induction false} OptionalMet(s: Stream, i: nat, e: Errors, t: Type, level: nat, v: bool, sc: Scope, k: Text)
    returns (m: nat)
    requires Well(t, v, sc) && (t.Union? || t.Intersection? ==> level > 0)
    requires Spells(s, i, TypeText(t, level, false, k)) && Stops(k, 2)
    ensures MetBut(OptionalAt(s, i, e, v, sc), t, s, k, m)
    decreases t, if level > 0 && (t.Union? || t.Intersection?) then 12 else 2, 0
  {
    hide Well, Spells, Stops, TypeText, BareText, SimpleAt, OptionalAt, Same, Every, Tells, Stream.At, Stream.Kind,
      Marks;
    m := 0;
    var q := SimpleAt(s, i, e, v, sc);
    OptionalStarts(s, i, e, v, sc);
    if t.OptionalType? {
      OptionalLevel(t, level, k);
      var n := ChainMet(s, i, e, t, 0, v, sc, k);
      if q.Ok? {
        MarksStep(k, n);
        TakeMark(s, q.pos, QUESTION, Marks(n - 1, k));
        OptionalTells(t, q.value, Spanning(s.At(i), s.At(q.pos)));
        m := n - 1;
      }
    } else {
      StopsMore(k);
      m := SimpleMet(s, i, e, t, level, v, sc, k);
      MarksStep(k, m);
      if q.Ok? {
        if m == 0 {
          KindAfter(s, q.pos, k, 2);
        } else {
          TakeMark(s, q.pos, QUESTION, Marks(m - 1, k));
          NotOptional(t, q.value, Spanning(s.At(i), s.At(q.pos)));
          m := m - 1;
        }
      }
    }
  }

  lemma MarksStep(k: Text, n: nat)
    ensures Marks(0, k) == k && (n > 0 ==> Marks(n, k) == Put(QUESTION, Marks(n - 1, k)))
  {}

  lemma OptionalLevel(t: Type, level: nat, k: Text)
    requires t.OptionalType?
    ensures TypeText(t, level, false, k) == TypeText(t, 1, false, k) && Marks(0, k) == k
  {}

  lemma OptionalStarts(s: Stream, i: nat, e: Errors, v: bool, sc: Scope)
    ensures var q := SimpleAt(s, i, e, v, sc);
            var r := OptionalAt(s, i, e, v, sc);
            && (q.Fail? || s.Kind(q.pos) != QUESTION ==> r == q)
            && (q.Ok? && s.Kind(q.pos) == QUESTION && r.Ok? ==>
                  r == Ok(OptionalType(q.value, Spanning(s.At(i), s.At(q.pos))), q.pos + 1, q.err))
  {
    hide Well, SimpleAt, Stream.At, Stream.Kind;
  }

  lemma OptionalTells(t: Type, u: Type, loc: Location)
    requires t.OptionalType?
    ensures !t.inner.OptionalType? && Tells(t.inner, u) ==> Tells(t, OptionalType(u, loc))
  {}

  lemma NotOptional(t: Type, u: Type, loc: Location)
    requires !t.OptionalType?
    ensures Tells(t, OptionalType(u, loc))
  {}

  // Under any number of `?` one after the other, of which `n` come from further out.
  lemma {:induction false} ChainMet(s: Stream, i: nat, e: Errors, t: Type, n: nat, v: bool, sc: Scope, k: Text)
    returns (m: nat)
    requires t.OptionalType? && Well(t, v, sc) && Spells(s, i, TypeText(t, 1, false, Marks(n, k)))
    ensures m > n
    ensures var q := SimpleAt(s, i, e, v, sc);
            q.Ok? ==> Spells(s, q.pos, Marks(m, k)) && (m == n + 1 ==> !t.inner.OptionalType? && Tells(t.inner, q.value))
    decreases t, 1
  {
    hide Well, Spells, Stops, TypeText, BareText, SimpleAt, Same, Every, Tells, Stream.At, Stream.Kind, Marks;
    var u := t.inner;
    OptionalWell(t, v, sc, Marks(n, k));
    MarksStep(k, n + 1);
    m := n + 1;
    if u.OptionalType? {
      m := ChainMet(s, i, e, u, n + 1, v, sc, k);
    } else if u.Proc? {
      GroupMet(s, i, e, u, v, sc, Marks(n + 1, k));
    } else {
      QuestionStops(Marks(n, k));
      var z := SimpleMet(s, i, e, u, 1, v, sc, Marks(n + 1, k));
    }
    MarksStep(Marks(n + 1, k), 0);
  }

  lemma OptionalWell(t: Type, v: bool, sc: Scope, k: Text)
    requires t.OptionalType? && Well(t, v, sc)
    ensures forall w :: Well(t.inner, w, sc)
    ensures TypeText(t, 1, false, k)
         == if t.inner.Proc? then Put(LPAREN, TypeText(t.inner, 0, false, Put(RPAREN, Put(QUESTION, k))))
            else TypeText(t.inner, 1, false, Put(QUESTION, k))
  {
    VoidOrNot(t.inner, true, sc);
    var more := Put(RPAREN, Put(QUESTION, k));
    if t.inner.Proc? {
      assert TypeText(t.inner, 1, false, more) == BareText(t.inner, false, more) == TypeText(t.inner, 0, false, more);
    }
  }

  lemma {:induction false} GroupMet(s: Stream, i: nat, e: Errors, t: Type, v: bool, sc: Scope, k: Text)
    requires Well(t, v, sc) && Spells(s, i, Put(LPAREN, TypeText(t, 0, false, Put(RPAREN, k))))
    ensures MetBut(SimpleAt(s, i, e, v, sc), t, s, k, 0)
    decreases t, 4
  {
    hide Well, Spells, Stops, TypeText, TypeAt, SimpleAt, Same, Every, Tells, Stream.At, Stream.Kind, Put;
    TakeMark(s, i, LPAREN, TypeText(t, 0, false, Put(RPAREN, k)));
    QuestionStops(k);
    TypeMet(s, i + 1, e, t, v, sc, Put(RPAREN, k));
    GroupGoesOn(s, i, e, v, sc);
    var q := TypeAt(s, i + 1, e, v, sc);
    if SimpleAt(s, i, e, v, sc).Ok? {
      TakeMark(s, q.pos, RPAREN, k);
    }
  }

  lemma GroupGoesOn(s: Stream, i: nat, e: Errors, v: bool, sc: Scope)
    requires s.Kind(i) == LPAREN
    ensures var r := SimpleAt(s, i, e, v, sc);
            r.Ok? ==>
              var q := TypeAt(s, i + 1, e, v, sc);
              q.Ok? && s.Kind(q.pos) == RPAREN && r == Ok(q.value, q.pos + 1, q.err)
  {
    hide Well, AllWell, TypeAt, Stream.At, Stream.Kind;
  }

  // A type that is one unit, or is in parentheses because of its level; only a proc can leave a `?`.
  lemma {:induction false} SimpleMet(s: Stream, i: nat, e: Errors, t: Type, level: nat, v: bool, sc: Scope, k: Text)
    returns (m: nat)
    requires Well(t, v, sc) && (t.Union? || t.Intersection? ==> level > 0) && !t.OptionalType?
    requires Spells(s, i, TypeText(t, level, false, k)) && Stops(k, if t.Proc? then 2 else 3)
    ensures MetBut(SimpleAt(s, i, e, v, sc), t, s, k, m) && (!t.Proc? ==> m == 0)
    decreases t, if level > 0 && (t.Union? || t.Intersection?) then 11 else 1
  {
    hide Well, Spells, Stops, BareText, SimpleAt, Same, Every, MetBut;
    if t.Union? || t.Intersection? {
      assert TypeText(t, 0, false, Put(RPAREN, k)) == BareText(t, false, Put(RPAREN, k));
      GroupMet(s, i, e, t, v, sc, k);
      m := 0;
    } else {
      m := UnitMet(s, i, e, t, v, sc, k);
    }
  }

  // A type that starts with a token of its own.
  lemma {:induction false} UnitMet(s: Stream, i: nat, e: Errors, t: Type, v: bool, sc: Scope, k: Text) returns (m: nat)
    requires Well(t, v, sc) && !t.OptionalType? && !t.Union? && !t.Intersection?
    requires Spells(s, i, BareText(t, false, k)) && Stops(k, if t.Proc? then 2 else 3)
    ensures MetBut(SimpleAt(s, i, e, v, sc), t, s, k, m) && (!t.Proc? ==> m == 0)
    decreases t, 0, 1
  {
    hide SimpleAt, BareText, Same, Every, Stops, Spells, Well, MetBut;
    m := 0;
    match t
    case Base(_, _) => LeafMet(s, i, e, t, v, sc, k);
    case Variable(_, _) => LeafMet(s, i, e, t, v, sc, k);
    case LiteralType(_, _) => LeafMet(s, i, e, t, v, sc, k);
    case Application(_, _, _, _, _) => ApplicationMet(s, i, e, t, v, sc, k);
    case Singleton(_, _, _, _, _) => SingletonMet(s, i, e, t, v, sc, k);
    case Tuple(_, _) => TupleMet(s, i, e, t, v, sc, k);
    case Record(_, _) => RecordMet(s, i, e, t, v, sc, k);
    case Proc(_, _, _, _) => m := ProcMet(s, i, e, t, v, sc, k);
  }

  lemma LeafMet(s: Stream, i: nat, e: Errors, t: Type, v: bool, sc: Scope, k: Text)
    requires Well(t, v, sc) && (t.Base? || t.Variable? || t.LiteralType?) && Spells(s, i, BareText(t, false, k))
    requires Stops(k, 3)
    ensures MetBut(SimpleAt(s, i, e, v, sc), t, s, k, 0)
  {
    hide SimpleAt, BareText, Same, Stops, Spells;
    assert Plain(t);
    UnitRead(s, i, e, t, v, sc, false, k);
  }

  // ---- lists of types -----------------------------------------------------------------------------------

  // The closing bracket stays unread.
  lemma {:induction false} ListMet(s: Stream, i: nat, e: Errors, ts: seq<Type>, n: nat, acc: seq<Type>, v: bool,
                                   sc: Scope, k: Text)
    requires n < |ts| && AllWell(ts, v, sc) && TellsAll(ts[..n], acc)
    requires Spells(s, i, ListText(ts, n, false, Put(RBRACKET, k)))
    ensures var r := TypeListAt(s, i, e, v, sc, acc);
            r.Ok? ==> TellsAll(ts, r.value) && Spells(s, r.pos + 1, k)
    decreases ts, 5, |ts| - n
  {
    hide Well, AllWell, Spells, Stops, TypeText, ListText, TypeAt, TypeListAt, Same, Every, Tells, TellsAll, Put,
      Begins, Stream.At, Stream.Kind;
    var end := Put(RBRACKET, k);
    ListHead(ts, n, false, end);
    WellAt(ts, n, v, sc);
    var q := TypeAt(s, i, e, v, sc);
    if n + 1 < |ts| {
      var tail := ListText(ts, n + 1, false, end);
      TypeMet(s, i, e, ts[n], v, sc, Put(COMMA, tail));
      ListGoesOn(s, i, e, v, sc, acc);
      if TypeListAt(s, i, e, v, sc, acc).Ok? {
        TellsGrow(ts, n, acc, q.value);
        TakeMark(s, q.pos, COMMA, tail);
        ListBegins(s, q.pos + 1, ts, n + 1, v, sc, end);
        ListMet(s, q.pos + 1, q.err, ts, n + 1, acc + [q.value], v, sc, k);
      }
    } else {
      ClosedStops(RBRACKET, false, k);
      TypeMet(s, i, e, ts[n], v, sc, end);
      ListGoesOn(s, i, e, v, sc, acc);
      if TypeListAt(s, i, e, v, sc, acc).Ok? {
        TellsGrow(ts, n, acc, q.value);
        TakeMark(s, q.pos, RBRACKET, k);
        assert ts[..n + 1] == ts;
      }
    }
  }

  lemma WellAt(ts: seq<Type>, n: nat, v: bool, sc: Scope)
    requires n < |ts| && AllWell(ts, v, sc)
    ensures Well(ts[n], v, sc)
  {}

  lemma TellsGrow(ts: seq<Type>, n: nat, acc: seq<Type>, u: Type)
    requires n < |ts| && TellsAll(ts[..n], acc)
    ensures Tells(ts[n], u) ==> TellsAll(ts[..n + 1], acc + [u])
  {
    hide Tells;
  }

  lemma ListBegins(s: Stream, i: nat, ts: seq<Type>, n: nat, v: bool, sc: Scope, k: Text)
    requires n < |ts| && AllWell(ts, v, sc) && Spells(s, i, ListText(ts, n, false, k))
    ensures s.Kind(i) != RBRACKET
  {
    hide Well, AllWell, Spells, TypeText, ListText, Begins, Stream.At, Stream.Kind;
    ListHead(ts, n, false, k);
    WellAt(ts, n, v, sc);
    TypeBegins(s, i, ts[n], 0, v, sc, if n + 1 < |ts| then Put(COMMA, ListText(ts, n + 1, false, k)) else k);
    NoBracket(s.Kind(i));
  }

  lemma NoBracket(k: TokenKind)
    requires Begins(k)
    ensures k != RBRACKET && k != RBRACE && k != QUESTION
  {}

  lemma ListGoesOn(s: Stream, i: nat, e: Errors, v: bool, sc: Scope, acc: seq<Type>)
    ensures var r := TypeListAt(s, i, e, v, sc, acc);
            var q := TypeAt(s, i, e, v, sc);
            r.Ok? ==>
              && q.Ok? && s.Kind(q.pos) != QUESTION
              && (s.Kind(q.pos) == COMMA && s.Kind(q.pos + 1) != RBRACKET ==>
                    r == TypeListAt(s, q.pos + 1, q.err, v, sc, acc + [q.value]))
              && (s.Kind(q.pos) == RBRACKET ==> r.pos == q.pos && r.value == acc + [q.value])
  {
    hide Well, AllWell, TypeAt, Stream.At, Stream.Kind;
  }

  lemma NoneTold(ts: seq<Type>)
    ensures TellsAll(ts[..0], []) && (ts == [] ==> TellsAll(ts, []))
  {}

  lemma {:induction false} ArgsMet(s: Stream, i: nat, e: Errors, args: seq<Type>, sc: Scope, k: Text)
    requires AllWell(args, true, sc) && Spells(s, i, ArgsText(args, false, k)) && Stops(k, 3)
    ensures i <= |s.toks|
    ensures var r := TypeArgsAt(s, i, e, sc);
            r.Ok? ==> TellsAll(args, r.value.0) && Spells(s, r.pos, k)
    decreases args, 6
  {
    hide Well, AllWell, Spells, Stops, ListText, TypeListAt, TellsAll, Put, Stream.At, Stream.Kind;
    NoneTold(args);
    if args == [] {
      KindAfter(s, i, k, 3);
      ArgsGoOn(s, i, e, sc);
    } else {
      TakeMark(s, i, LBRACKET, ListText(args, 0, false, Put(RBRACKET, k)));
      ArgsGoOn(s, i, e, sc);
      ListMet(s, i + 1, e, args, 0, [], true, sc, k);
    }
  }

  lemma ArgsGoOn(s: Stream, i: nat, e: Errors, sc: Scope)
    requires i <= |s.toks|
    ensures var r := TypeArgsAt(s, i, e, sc);
            var q := TypeListAt(s, i + 1, e, true, sc, []);
            && (s.Kind(i) != LBRACKET ==> r == Ok(([], NULL_LOCATION), i, e))
            && (s.Kind(i) == LBRACKET && r.Ok? ==>
                  q.Ok? && r == Ok((q.value, Spanning(s.At(i), s.At(q.pos))), q.pos + 1, q.err))
  {
    hide Well, AllWell, TypeListAt, Stream.At, Stream.Kind;
  }

  lemma AppliedTells(t: Type, u: Type)
    requires (t.Application? && u.Application?) || (t.Singleton? && u.Singleton?)
    requires TellsAll(t.args, u.args)
    ensures Tells(t, u)
  {
    if Same(t, u) {
      assert SameAll(t.args, u.args);
      forall m | 0 <= m < |t.args|
        ensures Plain(t.args[m])
      {
        assert Tells(t.args[m], u.args[m]) && Same(t.args[m], u.args[m]);
      }
    }
  }

  lemma {:induction false} ApplicationMet(s: Stream, i: nat, e: Errors, t: Type, v: bool, sc: Scope, k: Text)
    requires t.Application? && Well(t, v, sc) && Spells(s, i, BareText(t, false, k)) && Stops(k, 3)
    ensures MetBut(SimpleAt(s, i, e, v, sc), t, s, k, 0)
    decreases t, 0, 0
  {
    hide Well, AllWell, Spells, Stops, ArgsText, BareText, NotShadowed, NameText, SimpleAt, TypeNameAt, TypeArgsAt,
      ApplicationAt, Same, Every, Tells, TellsAll, EndsName, KindOfName, Stream.At, Stream.Kind, Put;
    var args := ArgsText(t.args, false, k);
    ApplicationWell(t, v, sc, k);
    ArgsEndName(t.args, false, k);
    ApplicationStarts(s, i, e, t.name, args, v, sc);
    NameRead(s, i, e, t.name, args, ANY_NAME);
    var n := TypeNameAt(s, i, e, ANY_NAME);
    ArgsMet(s, n.pos, e, t.args, Scope(sc.vars, true, true), k);
    ApplicationGoesOn(s, i, e, sc);
    var r := ApplicationAt(s, i, e, sc);
    if r.Ok? {
      AppliedTells(t, r.value);
    }
  }

  lemma ApplicationWell(t: Type, v: bool, sc: Scope, k: Text)
    requires t.Application? && Well(t, v, sc)
    ensures AllWell(t.args, true, Scope(sc.vars, true, true)) && NotShadowed(t.name, sc.vars)
    ensures BareText(t, false, k) == NameText(t.name, ArgsText(t.args, false, k))
    ensures t.name.kind in ANY_NAME
  {
    match t.name.kind
    case ClassName =>
    case InterfaceName =>
    case AliasName =>
  }

  lemma ApplicationGoesOn(s: Stream, i: nat, e: Errors, sc: Scope)
    requires s.Kind(i) == UIDENT ==> s.At(i).text !in sc.vars
    ensures var r := ApplicationAt(s, i, e, sc);
            r.Ok? ==>
              var n := TypeNameAt(s, i, e, ANY_NAME);
              n.Ok? &&
              var a := TypeArgsAt(s, n.pos, n.err, Scope(sc.vars, true, true));
              a.Ok? && r.pos == a.pos && r.value.Application? && r.value.name == n.value && r.value.args == a.value.0
  {
    hide Well, AllWell, TypeNameAt, TypeArgsAt, Stream.At, Stream.Kind;
  }

  lemma {:induction false} SingletonMet(s: Stream, i: nat, e: Errors, t: Type, v: bool, sc: Scope, k: Text)
    requires t.Singleton? && Well(t, v, sc) && Spells(s, i, BareText(t, false, k)) && Stops(k, 3)
    ensures MetBut(SimpleAt(s, i, e, v, sc), t, s, k, 0)
    decreases t, 0, 0
  {
    hide Well, AllWell, Spells, Stops, ArgsText, BareText, NameText, TypeNameAt, TypeArgsAt, SimpleAt, SingletonAt,
      Same, Every, Tells, TellsAll, EndsName, KindOfName, Stream.At, Stream.Kind, Put;
    var args := ArgsText(t.args, false, k);
    SingletonWell(t, v, sc, k);
    TakeMark(s, i, KW_SINGLETON, Put(LPAREN, NameText(t.name, Put(RPAREN, args))));
    TakeMark(s, i + 1, LPAREN, NameText(t.name, Put(RPAREN, args)));
    NameRead(s, i + 2, e, t.name, Put(RPAREN, args), {ClassName});
    var n := TypeNameAt(s, i + 2, e, {ClassName});
    TakeMark(s, n.pos, RPAREN, args);
    ArgsMet(s, n.pos + 1, n.err, t.args, sc, k);
    MarkStarts(s, i, e, v, sc);
    SingletonGoesOn(s, i, e, sc);
    var r := SingletonAt(s, i, e, sc);
    if r.Ok? {
      AppliedTells(t, r.value);
    }
  }

  lemma SingletonWell(t: Type, v: bool, sc: Scope, k: Text)
    requires t.Singleton? && Well(t, v, sc)
    ensures AllWell(t.args, true, sc) && t.name.kind == ClassName
    ensures BareText(t, false, k)
         == Put(KW_SINGLETON, Put(LPAREN, NameText(t.name, Put(RPAREN, ArgsText(t.args, false, k)))))
    ensures EndsName(Put(RPAREN, ArgsText(t.args, false, k)))
  {}

  lemma SingletonGoesOn(s: Stream, i: nat, e: Errors, sc: Scope)
    requires s.Kind(i) == KW_SINGLETON
    ensures var r := SingletonAt(s, i, e, sc);
            r.Ok? ==>
              var n := TypeNameAt(s, i + 2, e, {ClassName});
              n.Ok? && s.Kind(n.pos) == RPAREN && n.pos < |s.toks| &&
              var a := TypeArgsAt(s, n.pos + 1, n.err, sc);
              a.Ok? && r.pos == a.pos && r.value.Singleton? && r.value.name == n.value && r.value.args == a.value.0
  {
    hide Well, AllWell, TypeNameAt, TypeArgsAt, Stream.At;
  }

  lemma TupleTells(t: Type, u: Type)
    requires t.Tuple? && u.Tuple? && TellsAll(t.types, u.types)
    ensures Tells(t, u)
  {
    if Same(t, u) {
      assert SameAll(t.types, u.types);
      forall m | 0 <= m < |t.types|
        ensures Plain(t.types[m])
      {
        assert Tells(t.types[m], u.types[m]) && Same(t.types[m], u.types[m]);
      }
    }
  }

  lemma {:induction false} TupleMet(s: Stream, i: nat, e: Errors, t: Type, v: bool, sc: Scope, k: Text)
    requires t.Tuple? && Well(t, v, sc) && Spells(s, i, BareText(t, false, k))
    ensures MetBut(SimpleAt(s, i, e, v, sc), t, s, k, 0)
    decreases t, 0, 0
  {
    hide Well, AllWell, Spells, Stops, ListText, BareText, TypeListAt, TupleAt, SimpleAt, Same, Every, Tells,
      TellsAll, MetBut, Stream.At, Stream.Kind, Put;
    TupleWell(t, v, sc, k);
    TakeMark(s, i, LBRACKET, ListText(t.types, 0, false, Put(RBRACKET, k)));
    MarkStarts(s, i, e, v, sc);
    TupleGoesOn(s, i, e, sc);
    NoneTold(t.types);
    var r := TupleAt(s, i, e, sc);
    if t.types == [] {
      TakeMark(s, i + 1, RBRACKET, k);
      TupleTells(t, r.value);
      MetWhole(r, t, s, k);
    } else {
      ListBegins(s, i + 1, t.types, 0, false, sc, Put(RBRACKET, k));
      ListMet(s, i + 1, e, t.types, 0, [], false, sc, k);
      if r.Ok? {
        TupleTells(t, r.value);
      }
      MetWhole(r, t, s, k);
    }
  }

  lemma TupleWell(t: Type, v: bool, sc: Scope, k: Text)
    requires t.Tuple? && Well(t, v, sc)
    ensures AllWell(t.types, false, sc)
    ensures BareText(t, false, k) == Put(LBRACKET, ListText(t.types, 0, false, Put(RBRACKET, k)))
    ensures t.types == [] ==> ListText(t.types, 0, false, Put(RBRACKET, k)) == Put(RBRACKET, k)
  {}

  lemma TupleGoesOn(s: Stream, i: nat, e: Errors, sc: Scope)
    requires s.Kind(i) == LBRACKET
    ensures var r := TupleAt(s, i, e, sc);
            var q := TypeListAt(s, i + 1, e, false, sc, []);
            && (s.Kind(i + 1) == RBRACKET ==> r.Ok? && r.pos == i + 2 && r.value.Tuple? && r.value.types == [])
            && (s.Kind(i + 1) != RBRACKET && r.Ok? ==>
                  q.Ok? && r.pos == q.pos + 1 && r.value.Tuple? && r.value.types == q.value)
  {
    hide Well, AllWell, TypeListAt, Stream.At, Stream.Kind;
  }

  // ---- records ------------------------------------------------------------------------------------------

  ghost predicate TellsFields(fs: Fields, gs: Fields) {
    |fs| == |gs| && forall m :: 0 <= m < |fs| ==> fs[m].key == gs[m].key && Tells(fs[m].value.ty, gs[m].value.ty)
  }

  lemma RecordTells(t: Type, u: Type)
    requires t.Record? && u.Record? && TellsFields(t.fields, u.fields)
    ensures Tells(t, u)
  {
    if Same(t, u) {
      forall m | 0 <= m < |t.fields|
        ensures Plain(t.fields[m].value.ty)
      {
        assert Tells(t.fields[m].value.ty, u.fields[m].value.ty) && SameField(t.fields[m], u.fields[m]);
      }
    }
  }

  lemma KeyNew(fs: Fields, n: nat, acc: Fields)
    requires DistinctKeys(fs) && n < |fs| && TellsFields(fs[..n], acc)
    ensures !HasKey(acc, fs[n].key)
  {
    hide Tells;
    forall i | 0 <= i < n
      ensures acc[i].key == fs[i].key
    {
      assert fs[..n][i].key == acc[i].key;
    }
  }

  lemma {:induction false} FieldMet(s: Stream, i: nat, e: Errors, f: Entry<Literal, FieldType>, sc: Scope, acc: Fields,
                                    next: Text)
    requires Well(f.value.ty, false, sc) && !HasKey(acc, f.key) && Stops(next, 0)
    requires Spells(s, i, if f.value.required then FieldText(f, false, next) else Put(QUESTION, FieldText(f, false, next)))
    ensures var r := FieldAt(s, i, e, sc, acc);
            r.Ok? && s.Kind(r.pos) != QUESTION ==>
              && |r.value| == |acc| + 1 && r.value[..|acc|] == acc && r.value[|acc|].key == f.key
              && Tells(f.value.ty, r.value[|acc|].value.ty) && Spells(s, r.pos, next)
    decreases f
  {
    hide Well, FieldsWell, Spells, Stops, FieldText, TypeText, FieldKeyAt, TypeAt, Same, Every, Tells, HashFind,
      Stream.At, Stream.Kind;
    KeyRead(s, i, e, f, acc, false, next);
    var k := FieldKeyAt(s, i, e, acc);
    FieldTypeMet(s, k.pos, k.err, f.value, sc, next);
  }

  lemma {:induction false} FieldTypeMet(s: Stream, i: nat, e: Errors, f: FieldType, sc: Scope, next: Text)
    requires Well(f.ty, false, sc) && Stops(next, 0) && Spells(s, i, FieldTypeText(f, false, next))
    ensures Met(TypeAt(s, i, e, false, sc), f.ty, s, next)
    decreases f
  {
    TypeMet(s, i, e, f.ty, false, sc, next);
  }

  // The closing brace stays unread.
  // The closing brace stays unread.
  ghost predicate MetFields(r: Outcome<Fields>, fs: Fields, s: Stream, k: Text) {
    r.Ok? && s.Kind(r.pos) == RBRACE ==> TellsFields(fs, r.value) && Spells(s, r.pos + 1, k)
  }

  lemma FieldsEnd(r: Outcome<Fields>, s: Stream, fs: Fields, acc: Fields, pos: nat, k: Text)
    requires r.Ok? && s.Kind(r.pos) == RBRACE ==>
               r.pos == pos && r.value == acc && TellsFields(fs, acc) && Spells(s, pos + 1, k)
    ensures MetFields(r, fs, s, k)
  {
    hide TellsFields, Spells, Stream.Kind;
  }

  lemma {:induction false} FieldsMet(s: Stream, i: nat, e: Errors, fs: Fields, n: nat, acc: Fields, sc: Scope, k: Text)
    requires n < |fs| && FieldsWell(fs, sc) && TellsFields(fs[..n], acc)
    requires Spells(s, i, FieldsText(fs, n, false, Put(RBRACE, k)))
    ensures MetFields(FieldsAt(s, i, e, sc, acc), fs, s, k)
    decreases fs, |fs| - n
  {
    hide Well, FieldsWell, Spells, Stops, FieldText, FieldsText, FieldAt, FieldsAt, Same, Every, Tells, TellsFields,
      HasKey, DistinctKeys, Stream.At, Stream.Kind, Put, MetFields;
    var end := Put(RBRACE, k);
    FieldsHead(fs, n, false, end);
    FieldWell(fs, n, sc);
    KeyNew(fs, n, acc);
    var q := FieldAt(s, i, e, sc, acc);
    var r := FieldsAt(s, i, e, sc, acc);
    FieldsGoOn(s, i, e, sc, acc);
    if n + 1 < |fs| {
      var tail := FieldsText(fs, n + 1, false, end);
      FieldMet(s, i, e, fs[n], sc, acc, Put(COMMA, tail));
      if r.Ok? && s.Kind(r.pos) == RBRACE {
        FieldsGrow(fs, n, acc, q.value);
        TakeMark(s, q.pos, COMMA, tail);
        FieldsBegin(s, q.pos + 1, fs, n + 1, end);
        assert r == FieldsAt(s, q.pos + 1, q.err, sc, q.value);
        FieldsMet(s, q.pos + 1, q.err, fs, n + 1, q.value, sc, k);
        assert MetFields(r, fs, s, k);
      } else {
        FieldsEnd(r, s, fs, acc, 0, k);
      }
    } else {
      ClosedStops(RBRACE, false, k);
      FieldMet(s, i, e, fs[n], sc, acc, end);
      if r.Ok? && s.Kind(r.pos) == RBRACE {
        FieldsGrow(fs, n, acc, q.value);
        TakeMark(s, q.pos, RBRACE, k);
        assert fs[..n + 1] == fs;
        FieldsEnd(r, s, fs, q.value, q.pos, k);
      } else {
        FieldsEnd(r, s, fs, acc, 0, k);
      }
    }
  }

  lemma FieldWell(fs: Fields, n: nat, sc: Scope)
    requires n < |fs| && FieldsWell(fs, sc)
    ensures Well(fs[n].value.ty, false, sc) && DistinctKeys(fs)
  {}

  lemma FieldsGrow(fs: Fields, n: nat, acc: Fields, gs: Fields)
    requires n < |fs| && TellsFields(fs[..n], acc)
    ensures |gs| == n + 1 && gs[..n] == acc && gs[n].key == fs[n].key && Tells(fs[n].value.ty, gs[n].value.ty) ==>
              TellsFields(fs[..n + 1], gs)
    ensures |acc| == n
  {
    hide Tells;
    if |gs| == n + 1 && gs[..n] == acc {
      assert forall m :: 0 <= m < n ==> gs[m] == acc[m];
    }
  }

  lemma FieldsBegin(s: Stream, i: nat, fs: Fields, n: nat, k: Text)
    requires n < |fs| && Spells(s, i, FieldsText(fs, n, false, k))
    ensures s.Kind(i) != RBRACE
  {
    hide Spells, FieldText, FieldsText, Stream.At, Stream.Kind;
    FieldsHead(fs, n, false, k);
    FieldBegins(s, i, fs[n], if n + 1 < |fs| then Put(COMMA, FieldsText(fs, n + 1, false, k)) else k);
  }

  lemma FieldsGoOn(s: Stream, i: nat, e: Errors, sc: Scope, acc: Fields)
    ensures var r := FieldsAt(s, i, e, sc, acc);
            var q := FieldAt(s, i, e, sc, acc);
            r.Ok? && s.Kind(r.pos) == RBRACE ==>
              && q.Ok? && s.Kind(q.pos) != QUESTION
              && (s.Kind(q.pos) == COMMA && s.Kind(q.pos + 1) != RBRACE ==> r == FieldsAt(s, q.pos + 1, q.err, sc, q.value))
              && (s.Kind(q.pos) == RBRACE ==> r.pos == q.pos && r.value == q.value)
  {
    hide FieldsWell, FieldAt, Stream.At, Stream.Kind;
  }

  lemma FieldBegins(s: Stream, i: nat, f: Entry<Literal, FieldType>, next: Text)
    requires Spells(s, i, if f.value.required then FieldText(f, false, next) else Put(QUESTION, FieldText(f, false, next)))
    ensures s.Kind(i) != RBRACE
  {
    hide Spells, FieldText, IsPlainKey, LiteralOf, IsKeywordToken;
    if f.value.required {
      KeyTokens(s, i, f, false, next);
      if IsPlainKey(f.key) {
        KeywordTokens(s.Kind(i));
      } else {
        LiteralTokens(s.At(i));
      }
    } else {
      TakeMark(s, i, QUESTION, FieldText(f, false, next));
    }
  }

  lemma {:induction false} RecordMet(s: Stream, i: nat, e: Errors, t: Type, v: bool, sc: Scope, k: Text)
    requires t.Record? && Well(t, v, sc) && Spells(s, i, BareText(t, false, k))
    ensures MetBut(SimpleAt(s, i, e, v, sc), t, s, k, 0)
    decreases t, 0, 0
  {
    hide Well, FieldsWell, Spells, FieldsText, BareText, FieldsAt, AttributesAt, RecordAt, SimpleAt, Same, Every,
      Tells, TellsFields, MetBut, Put, Stream.At, Stream.Kind;
    RecordWell(t, v, sc, k);
    TakeMark(s, i, LBRACE, FieldsText(t.fields, 0, false, Put(RBRACE, k)));
    MarkStarts(s, i, e, v, sc);
    RecordGoesOn(s, i, e, sc);
    var r := RecordAt(s, i, e, sc);
    if t.fields == [] {
      TakeMark(s, i + 1, RBRACE, k);
      RecordTells(t, r.value);
      MetWhole(r, t, s, k);
    } else {
      FieldsBegin(s, i + 1, t.fields, 0, Put(RBRACE, k));
      FieldsMet(s, i + 1, e, t.fields, 0, [], sc, k);
      if r.Ok? {
        RecordTells(t, r.value);
      }
      MetWhole(r, t, s, k);
    }
  }

  lemma RecordWell(t: Type, v: bool, sc: Scope, k: Text)
    requires t.Record? && Well(t, v, sc)
    ensures FieldsWell(t.fields, sc)
    ensures BareText(t, false, k) == Put(LBRACE, FieldsText(t.fields, 0, false, Put(RBRACE, k)))
    ensures t.fields == [] ==> FieldsText(t.fields, 0, false, Put(RBRACE, k)) == Put(RBRACE, k)
    ensures TellsFields(t.fields[..0], []) && (t.fields == [] ==> TellsFields(t.fields, []))
  {}

  lemma RecordGoesOn(s: Stream, i: nat, e: Errors, sc: Scope)
    requires s.Kind(i) == LBRACE
    ensures var r := RecordAt(s, i, e, sc);
            var q := FieldsAt(s, i + 1, e, sc, []);
            && (s.Kind(i + 1) == RBRACE ==> r.Ok? && r.pos == i + 2 && r.value.Record? && r.value.fields == [])
            && (s.Kind(i + 1) != RBRACE && r.Ok? ==>
                  && q.Ok? && s.Kind(q.pos) == RBRACE
                  && r.pos == q.pos + 1 && r.value.Record? && r.value.fields == q.value)
  {
    hide Well, FieldsWell, FieldsAt, Stream.At;
  }

  // ---- parameters ---------------------------------------------------------------------------------------

  ghost predicate TellsParam(p: Param, q: Param) {
    p.name == q.name ==> PlainParam(p) && Tells(p.ty, q.ty)
  }

  ghost predicate TellsParams(ps: seq<Param>, qs: seq<Param>) {
    |ps| == |qs| && forall m :: 0 <= m < |ps| ==> TellsParam(ps[m], qs[m])
  }

  ghost predicate TellsSlot(p: Option<Param>, q: Option<Param>) {
    p.Some? == q.Some? && (p.Some? ==> TellsParam(p.value, q.value))
  }

  ghost predicate TellsEntry(k: Entry<string, Param>, l: Entry<string, Param>) {
    k.key == l.key && TellsParam(k.value, l.value)
  }

  ghost predicate TellsKeywords(ks: Keywords, ls: Keywords) {
    |ks| == |ls| && forall m :: 0 <= m < |ks| ==> TellsEntry(ks[m], ls[m])
  }

  ghost predicate TellsMethodParams(a: MethodParams, b: MethodParams) {
    && TellsParams(a.required, b.required) && TellsParams(a.optional, b.optional)
    && TellsSlot(a.rest, b.rest) && TellsParams(a.trailing, b.trailing)
    && TellsKeywords(a.requiredKw, b.requiredKw) && TellsKeywords(a.optionalKw, b.optionalKw)
    && TellsSlot(a.restKw, b.restKw) && a.forwarding.Some? == b.forwarding.Some?
  }

  lemma {:induction false} ParamMet(s: Stream, i: nat, e: Errors, p: Param, sc: Scope, next: Text)
    requires WellParam(p, sc) && Spells(s, i, ParamText(p, false, next)) && Closes(next)
    ensures Positional(s, i)
    ensures var r := ParamAt(s, i, e, sc); r.Ok? ==> TellsParam(p, r.value) && Spells(s, r.pos, next)
    decreases p
  {
    hide Well, Spells, Stops, Closes, ParamText, TypeText, TypeAt, ParamAt, Same, Every, Tells, IsKeywordToken,
      IsKeyword, Begins, Quiet, Stream.At, Stream.Kind, ParamNameText, PlainName;
    ParamParts(p, false, next);
    var after := ParamNameText(p.name, false, next);
    QuietAfter(p, next);
    TypeBegins(s, i, p.ty, 0, false, sc, after);
    TypeMet(s, i, e, p.ty, false, sc, after);
    ParamGoesOn(s, i, e, sc);
    var q := TypeAt(s, i, e, false, sc);
    if ParamAt(s, i, e, sc).Ok? {
      if p.name.Some? {
          TakeParam(s, q.pos, p.name.value, false, next);
        if IsKeywordToken(s.Kind(q.pos)) {
          KeywordTokens(s.Kind(q.pos));
        }
      } else {
        ClosesKind(s, q.pos, next);
      }
    }
  }

  lemma QuietAfter(p: Param, next: Text)
    requires Closes(next)
    ensures Quiet(ParamNameText(p.name, false, next))
  {
    ClosesQuiet(next);
  }

  lemma {:induction false} ClosesQuiet(k: Text)
    requires Closes(k)
    ensures Quiet(k)
    decreases k
  {
    if k.Either? {
      ClosesQuiet(k.one);
      ClosesQuiet(k.other);
    }
  }

  lemma ParamGoesOn(s: Stream, i: nat, e: Errors, sc: Scope)
    ensures var r := ParamAt(s, i, e, sc);
            var q := TypeAt(s, i, e, false, sc);
            r.Ok? ==>
              && q.Ok? && s.Kind(q.pos) != QUESTION && r.value.ty == q.value
              && (if s.Kind(q.pos) == COMMA || s.Kind(q.pos) == RPAREN then r.value.name == None && r.pos == q.pos
                  else
                    && IsKeywordToken(s.Kind(q.pos))
                    && r.value.name == Some(s.At(q.pos).unquoted) && r.pos == q.pos + 1)
  {
    hide Well, TypeAt, Stream.At, Stream.Kind;
  }

  lemma {:induction false} KeywordMet(s: Stream, i: nat, e: Errors, k: Entry<string, Param>, sc: Scope, p: MethodParams,
                                      required: bool, next: Text)
    requires WellKeyword(k, sc) && Spells(s, i, KeywordText(k, false, next)) && Closes(next)
    requires !HasKey(p.requiredKw, k.key) && !HasKey(p.optionalKw, k.key)
    ensures IsKeyword(s, i)
    ensures var r := KeywordAt(s, i, e, sc, p, required);
            r.Ok? ==>
              Spells(s, r.pos, next) &&
              exists u: Param :: TellsParam(k.value, u)
                && r.value == if required then p.(requiredKw := p.requiredKw + [Entry(k.key, u)])
                              else p.(optionalKw := p.optionalKw + [Entry(k.key, u)])
    decreases k
  {
    hide Well, WellParam, WellParams, Spells, Closes, KeywordText, ParamText, ParamAt, TellsParam, IsKeyword,
      Positional, Stream.At, Stream.Kind;
    KeywordHead(s, i, k, false, next);
    var j := KeyAt(s, i).1 + 1;
    ParamMet(s, j, e, k.value, sc, next);
    if KeywordAt(s, i, e, sc, p, required).Ok? {
      assert TellsParam(k.value, ParamAt(s, j, e, sc).value);
    }
  }

  // A keyword not entered yet is not in either table.
  lemma KeywordNew(ps: MethodParams, q: Slot, n: nat, p: MethodParams)
    requires Orderly(ps) && n < SlotSize(ps, q) && (q == RequiredKwSlot || q == OptionalKwSlot)
    requires TellsMethodParams(Upto(ps, q, n), p)
    ensures var k := if q == RequiredKwSlot then ps.requiredKw[n].key else ps.optionalKw[n].key;
            !HasKey(p.requiredKw, k) && !HasKey(p.optionalKw, k)
  {
    hide TellsParam;
    var u := Upto(ps, q, n);
    forall i | 0 <= i < |p.requiredKw|
      ensures p.requiredKw[i].key == ps.requiredKw[i].key
    {
      assert TellsEntry(u.requiredKw[i], p.requiredKw[i]);
    }
    forall i | 0 <= i < |p.optionalKw|
      ensures p.optionalKw[i].key == ps.optionalKw[i].key
    {
      assert TellsEntry(u.optionalKw[i], p.optionalKw[i]);
    }
  }

  lemma Gathered(ps: MethodParams, q: Slot, n: nat, p: MethodParams, u: Param)
    requires n < SlotSize(ps, q) && TellsMethodParams(Upto(ps, q, n), p)
    ensures q == RequiredSlot && TellsParam(ps.required[n], u) ==>
              TellsMethodParams(Upto(ps, q, n + 1), p.(required := p.required + [u]))
    ensures q == OptionalSlot && TellsParam(ps.optional[n], u) ==>
              TellsMethodParams(Upto(ps, q, n + 1), p.(optional := p.optional + [u]))
    ensures q == RestSlot && TellsParam(ps.rest.value, u) ==>
              TellsMethodParams(Upto(ps, q, n + 1), p.(rest := Some(u)))
    ensures q == TrailingSlot && TellsParam(ps.trailing[n], u) ==>
              TellsMethodParams(Upto(ps, q, n + 1), p.(trailing := p.trailing + [u]))
    ensures q == RestKwSlot && TellsParam(ps.restKw.value, u) ==>
              TellsMethodParams(Upto(ps, q, n + 1), p.(restKw := Some(u)))
  {
    hide TellsParam;
  }

  lemma KeywordsGather(a: Keywords, b: Keywords, x: Entry<string, Param>, y: Entry<string, Param>)
    requires TellsKeywords(a, b) && TellsEntry(x, y)
    ensures TellsKeywords(a + [x], b + [y])
  {
    hide TellsEntry;
  }

  lemma GatheredKeyword(ps: MethodParams, q: Slot, n: nat, p: MethodParams, u: Param)
    requires n < SlotSize(ps, q) && TellsMethodParams(Upto(ps, q, n), p)
    ensures q == RequiredKwSlot && TellsParam(ps.requiredKw[n].value, u) ==>
              TellsMethodParams(Upto(ps, q, n + 1), p.(requiredKw := p.requiredKw + [Entry(ps.requiredKw[n].key, u)]))
    ensures q == OptionalKwSlot && TellsParam(ps.optionalKw[n].value, u) ==>
              TellsMethodParams(Upto(ps, q, n + 1), p.(optionalKw := p.optionalKw + [Entry(ps.optionalKw[n].key, u)]))
  {
    hide TellsParam, TellsKeywords;
    if q == RequiredKwSlot && TellsParam(ps.requiredKw[n].value, u) {
      KeywordsGather(ps.requiredKw[..n], p.requiredKw, ps.requiredKw[n], Entry(ps.requiredKw[n].key, u));
      assert ps.requiredKw[..n + 1] == ps.requiredKw[..n] + [ps.requiredKw[n]];
    }
    if q == OptionalKwSlot && TellsParam(ps.optionalKw[n].value, u) {
      KeywordsGather(ps.optionalKw[..n], p.optionalKw, ps.optionalKw[n], Entry(ps.optionalKw[n].key, u));
      assert ps.optionalKw[..n + 1] == ps.optionalKw[..n] + [ps.optionalKw[n]];
    }
  }

  // The machine on one parameter: it fails, or it has read the parameter and moves to another section.
  lemma {:induction false} ItemMet(s: Stream, j: nat, e: Errors, ps: MethodParams, q: Slot, n: nat, c: Section,
                                   p: MethodParams, sc: Scope, next: Text)
    returns (m: nat, e': Errors, c': Section, p': MethodParams)
    requires j <= |s.toks| && WellParams(ps, sc) && q != ForwardingSlot
    requires n < SlotSize(ps, q) && Leads(c, q, n, ps) && TellsMethodParams(Upto(ps, q, n), p)
    requires Spells(s, j, ItemText(ps, q, n, false, next)) && Closes(next)
    ensures var r := SectionAt(s, j, e, sc, false, c, p);
            r.Ok? ==>
              && m <= |s.toks| && r == Continue(s, m, e', sc, false, c', p') && Leads(c', q, n + 1, ps)
              && TellsMethodParams(Upto(ps, q, n + 1), p') && Spells(s, m, next)
    decreases ps, 0
  {
    hide Well, WellParam, WellParams, Spells, Closes, ParamText, KeywordText, ParamAt, KeywordAt, SectionAt, Continue,
      TellsMethodParams, TellsParam, IsKeyword, IsKeywordToken, Upto, HasKey, Orderly, Stream.At, Stream.Kind;
    m, e', c', p' := 0, e, c, p;
    if q == RequiredKwSlot || q == OptionalKwSlot {
      WellIsOrderly(ps, sc);
      KeywordNew(ps, q, n, p);
      var k := if q == RequiredKwSlot then ps.requiredKw[n] else ps.optionalKw[n];
      var at := if q == RequiredKwSlot then j else j + 1;
      if q == OptionalKwSlot {
        TakeMark(s, j, QUESTION, KeywordText(k, false, next));
      }
      KeywordMet(s, at, e, k, sc, p, q == RequiredKwSlot, next);
      var r := KeywordAt(s, at, e, sc, p, q == RequiredKwSlot);
      if r.Ok? {
        ClosesKind(s, r.pos, next);
        var u: Param :| TellsParam(k.value, u)
          && r.value == if q == RequiredKwSlot then p.(requiredKw := p.requiredKw + [Entry(k.key, u)])
                        else p.(optionalKw := p.optionalKw + [Entry(k.key, u)]);
        GatheredKeyword(ps, q, n, p, u);
        m, e', c', p' := r.pos, r.err, Keywords, r.value;
      }
      if q == RequiredKwSlot {
        RequiredKwSteps(s, j, e, sc, false, c, p);
      } else {
        OptionalKwCloses(s, j, e, sc, false, c, p);
      }
    } else {
      m, e', c', p' := PositionalMet(s, j, e, ps, q, n, c, p, sc, next);
    }
  }

  lemma WellIsOrderly(ps: MethodParams, sc: Scope)
    requires WellParams(ps, sc)
    ensures Orderly(ps)
    ensures AllParamsWell(ps.required, sc) && AllParamsWell(ps.optional, sc) && AllParamsWell(ps.trailing, sc)
    ensures AllKeywordsWell(ps.requiredKw, sc) && AllKeywordsWell(ps.optionalKw, sc)
    ensures ps.rest.Some? ==> WellParam(ps.rest.value, sc)
    ensures ps.restKw.Some? ==> WellParam(ps.restKw.value, sc)
  {}

  lemma {:induction false} PositionalMet(s: Stream, j: nat, e: Errors, ps: MethodParams, q: Slot, n: nat, c: Section,
                                         p: MethodParams, sc: Scope, next: Text)
    returns (m: nat, e': Errors, c': Section, p': MethodParams)
    requires j <= |s.toks| && WellParams(ps, sc) && q != ForwardingSlot && q != RequiredKwSlot && q != OptionalKwSlot
    requires n < SlotSize(ps, q) && Leads(c, q, n, ps) && TellsMethodParams(Upto(ps, q, n), p)
    requires Spells(s, j, ItemText(ps, q, n, false, next)) && Closes(next)
    ensures var r := SectionAt(s, j, e, sc, false, c, p);
            r.Ok? ==>
              && m <= |s.toks| && r == Continue(s, m, e', sc, false, c', p') && Leads(c', q, n + 1, ps)
              && TellsMethodParams(Upto(ps, q, n + 1), p') && Spells(s, m, next)
    decreases ps, 0, 0
  {
    hide Well, WellParam, WellParams, Spells, Closes, ParamText, ParamAt, SectionAt, Continue, TellsMethodParams,
      TellsParam, IsKeyword, IsKeywordToken, Upto, HasKey, Positional, Orderly, Stream.At, Stream.Kind;
    WellIsOrderly(ps, sc);
    m, e', c', p' := 0, e, c, p;
    match q {
      case RequiredSlot =>
        ParamMet(s, j, e, ps.required[n], sc, next);
        var r := ParamAt(s, j, e, sc);
        RequiredSteps(s, j, e, sc, false, p);
        if r.Ok? {
          Gathered(ps, q, n, p, r.value);
          m, e', c', p' := r.pos, r.err, RequiredParams, p.(required := p.required + [r.value]);
        }
      case OptionalSlot =>
        TakeMark(s, j, QUESTION, ParamText(ps.optional[n], false, next));
        ParamMet(s, j + 1, e, ps.optional[n], sc, next);
        var r := ParamAt(s, j + 1, e, sc);
        OptionalSteps(s, j, e, sc, false, c, p);
        if r.Ok? {
          Gathered(ps, q, n, p, r.value);
          m, e', c', p' := r.pos, r.err, OptionalParams, p.(optional := p.optional + [r.value]);
        }
      case RestSlot =>
        TakeMark(s, j, STAR, ParamText(ps.rest.value, false, next));
        ParamMet(s, j + 1, e, ps.rest.value, sc, next);
        var r := ParamAt(s, j + 1, e, sc);
        RestSteps(s, j, e, sc, false, c, p);
        if r.Ok? {
          Gathered(ps, q, n, p, r.value);
          m, e', c', p' := r.pos, r.err, TrailingParams, p.(rest := Some(r.value));
        }
      case TrailingSlot =>
        ParamMet(s, j, e, ps.trailing[n], sc, next);
        var r := ParamAt(s, j, e, sc);
        TrailingSteps(s, j, e, sc, false, c, p);
        if r.Ok? {
          Gathered(ps, q, n, p, r.value);
          m, e', c', p' := r.pos, r.err, TrailingParams, p.(trailing := p.trailing + [r.value]);
        }
      case RestKwSlot =>
        TakeMark(s, j, STAR2, ParamText(ps.restKw.value, false, next));
        ParamMet(s, j + 1, e, ps.restKw.value, sc, next);
        var r := ParamAt(s, j + 1, e, sc);
        RestKwSteps(s, j, e, sc, false, c, p);
        if r.Ok? {
          Gathered(ps, q, n, p, r.value);
          m, e', c', p' := r.pos, r.err, Keywords, p.(restKw := Some(r.value));
        }
    }
  }

  lemma {:induction false} SlotsMet(s: Stream, i: nat, e: Errors, ps: MethodParams, q: Slot, n: nat, first: bool,
                                    c: Section, p: MethodParams, sc: Scope, k: Text)
    requires i <= |s.toks| && WellParams(ps, sc) && ps.forwarding.None?
    requires n <= SlotSize(ps, q) && Leads(c, q, n, ps) && TellsMethodParams(Upto(ps, q, n), p)
    requires first ==> c == RequiredParams
    requires Spells(s, i, SlotText(ps, q, n, first, false, Put(RPAREN, k)))
    ensures var r := if first then SectionAt(s, i, e, sc, false, c, p) else Continue(s, i, e, sc, false, c, p);
            r.Ok? ==> TellsMethodParams(ps, r.value) && Spells(s, r.pos, Put(RPAREN, k))
    decreases ps, 1, SlotRank(q), SlotSize(ps, q) - n
  {
    hide Well, WellParam, WellParams, Spells, Closes, ItemText, SlotText, SectionAt, Leads, TellsMethodParams, Upto,
      Stream.At, Stream.Kind;
    SlotSteps(ps, q, n, first, false, Put(RPAREN, k));
    if n == SlotSize(ps, q) {
      if q == RestKwSlot {
        UptoAll(ps);
        TakeMark(s, i, RPAREN, k);
        Finished(s, i, e, sc, false, c, p);
      } else {
        UptoNext(ps, q, c);
        SlotsMet(s, i, e, ps, NextSlot(q), 0, first, c, p, sc, k);
      }
    } else {
      var next := SlotText(ps, q, n + 1, false, false, Put(RPAREN, k));
      SlotCloses(ps, q, n + 1, false, Put(RPAREN, k));
      if !first {
        TakeMark(s, i, COMMA, ItemText(ps, q, n, false, next));
      }
      var j := if first then i else i + 1;
      var m, e', c', p' := ItemMet(s, j, e, ps, q, n, c, p, sc, next);
      if SectionAt(s, j, e, sc, false, c, p).Ok? {
        SlotsMet(s, m, e', ps, q, n + 1, false, c', p', sc, k);
      }
    }
  }

  // ---- functions ----------------------------------------------------------------------------------------

  ghost predicate TellsList(f: Function, ps: ParamList) {
    f.UntypedFn? == ps.Untyped? && (f.Fn? ==> TellsMethodParams(f.params, ps.params))
  }

  // A list of parameters never looks like the untyped one.
  lemma {:induction false} ListIsTyped(s: Stream, j: nat, ps: MethodParams, q: Slot, sc: Scope, k: Text)
    requires WellParams(ps, sc) && Spells(s, j, SlotText(ps, q, 0, true, false, Put(RPAREN, k)))
    ensures !(s.Kind(j) == QUESTION && s.Kind(j + 1) == RPAREN)
    decreases SlotRank(q)
  {
    hide Well, WellParam, WellParams, Spells, Closes, ParamText, KeywordText, SlotText, IsKeyword, IsKeywordToken,
      Positional, Orderly, Begins, Stream.At, Stream.Kind;
    WellIsOrderly(ps, sc);
    SlotSteps(ps, q, 0, true, false, Put(RPAREN, k));
    if SlotSize(ps, q) == 0 {
      if q == RestKwSlot {
        TakeMark(s, j, RPAREN, k);
      } else {
        ListIsTyped(s, j, ps, NextSlot(q), sc, k);
      }
    } else {
      var next := SlotText(ps, q, 1, false, false, Put(RPAREN, k));
      SlotCloses(ps, q, 1, false, Put(RPAREN, k));
      match q {
        case RequiredSlot => ParamBegins(s, j, ps.required[0], sc, next);
        case ForwardingSlot => TakeMark(s, j, DOT3, next);
        case OptionalSlot =>
          TakeMark(s, j, QUESTION, ParamText(ps.optional[0], false, next));
          ParamBegins(s, j + 1, ps.optional[0], sc, next);
        case RestSlot => TakeMark(s, j, STAR, ParamText(ps.rest.value, false, next));
        case TrailingSlot => ParamBegins(s, j, ps.trailing[0], sc, next);
        case RequiredKwSlot =>
          KeywordHead(s, j, ps.requiredKw[0], false, next);
          WordKind(s, j);
        case OptionalKwSlot =>
          TakeMark(s, j, QUESTION, KeywordText(ps.optionalKw[0], false, next));
          KeywordHead(s, j + 1, ps.optionalKw[0], false, next);
          WordKind(s, j + 1);
        case RestKwSlot => TakeMark(s, j, STAR2, ParamText(ps.restKw.value, false, next));
      }
    }
  }

  lemma ParamBegins(s: Stream, i: nat, p: Param, sc: Scope, next: Text)
    requires WellParam(p, sc) && Spells(s, i, ParamText(p, false, next)) && Closes(next)
    ensures s.Kind(i) != QUESTION && s.Kind(i) != RPAREN
  {
    hide Well, Spells, Closes, ParamText, TypeText, Stream.At, Stream.Kind;
    ParamParts(p, false, next);
    TypeBegins(s, i, p.ty, 0, false, sc, ParamNameText(p.name, false, next));
  }

  lemma ListGoesOnTo(s: Stream, i: nat, e: Errors, sc: Scope)
    requires i < |s.toks| && s.Kind(i) == LPAREN
    ensures var r := ParenParamsAt(s, i, e, sc, false);
            var q := SectionAt(s, i + 1, e, sc, false, RequiredParams, NO_PARAMS);
            && (s.Kind(i + 1) == QUESTION && s.Kind(i + 2) == RPAREN ==> r.Ok? && r.pos == i + 3 && r.value.Untyped?)
            && (!(s.Kind(i + 1) == QUESTION && s.Kind(i + 2) == RPAREN) && r.Ok? ==>
                  && q.Ok? && s.Kind(q.pos) == RPAREN
                  && r.pos == q.pos + 1 && r.value.Typed? && r.value.params == q.value)
  {
    hide Well, WellParam, WellParams, SectionAt, Stream.At, Stream.Kind;
    if s.Kind(i + 1) == RPAREN {
      Finished(s, i + 1, e, sc, false, RequiredParams, NO_PARAMS);
    }
  }

  lemma {:induction false} ParamListMet(s: Stream, i: nat, e: Errors, f: Function, sc: Scope, k: Text)
    requires i <= |s.toks| && WellFn(f, sc) && Forwards(f, false)
    requires Spells(s, i, Put(LPAREN, ParamListText(f, false, Put(RPAREN, k))))
    ensures var r := ParenParamsAt(s, i, e, sc, false);
            r.Ok? ==> TellsList(f, r.value) && Spells(s, r.pos, k)
    decreases f
  {
    hide Well, WellParam, WellParams, Spells, SlotText, SectionAt, TellsMethodParams, Leads, Upto, Put, ParenParamsAt,
      Stream.At, Stream.Kind;
    TakeMark(s, i, LPAREN, ParamListText(f, false, Put(RPAREN, k)));
    ListGoesOnTo(s, i, e, sc);
    if f.UntypedFn? {
      TakeMark(s, i + 1, QUESTION, Put(RPAREN, k));
      TakeMark(s, i + 2, RPAREN, k);
    } else {
      NothingGathered(f.params);
      ListIsTyped(s, i + 1, f.params, RequiredSlot, sc, k);
      SlotsMet(s, i + 1, e, f.params, RequiredSlot, 0, true, RequiredParams, NO_PARAMS, sc, k);
      var q := SectionAt(s, i + 1, e, sc, false, RequiredParams, NO_PARAMS);
      if ParenParamsAt(s, i, e, sc, false).Ok? {
        TakeMark(s, q.pos, RPAREN, k);
      }
    }
  }

  lemma NothingGathered(ps: MethodParams)
    ensures TellsMethodParams(Upto(ps, RequiredSlot, 0), NO_PARAMS) && Leads(RequiredParams, RequiredSlot, 0, ps)
  {}

  lemma {:induction false} ReturnMet(s: Stream, i: nat, e: Errors, t: Type, sc: Scope, k: Text) returns (m: nat)
    requires Well(t, true, sc) && Spells(s, i, Put(ARROW, TypeText(t, 1, false, k))) && Stops(k, 2)
    ensures MetBut(ReturnAt(s, i, e, sc), t, s, k, m)
    decreases t, 13
  {
    hide Well, Spells, Stops, TypeText, OptionalAt, Same, Every, MetBut;
    TakeMark(s, i, ARROW, TypeText(t, 1, false, k));
    m := OptionalMet(s, i + 1, e, t, 1, true, sc, k);
  }

  ghost predicate TellsSelf(self: Option<Type>, u: Option<Type>) {
    SameOption(self, u) ==> self.Some? ==> Plain(self.value)
  }

  lemma {:induction false} SelfMet(s: Stream, i: nat, e: Errors, self: Option<Type>, sc: Scope, k: Text)
    requires i <= |s.toks| && (self.Some? ==> Well(self.value, false, sc))
    requires Spells(s, i, SelfText(self, false, k)) && BlockOrArrow(k)
    ensures var r := SelfBindingAt(s, i, e, sc); r.Ok? ==> TellsSelf(self, r.value) && Spells(s, r.pos, k)
    decreases self
  {
    hide Well, Spells, Stops, BlockOrArrow, TypeText, SelfBindingAt, Same, Every, Put, Stream.At, Stream.Kind;
    if self.None? {
      BlockOrArrowKind(s, i, k);
      NoSelfSteps(s, i, e, sc);
    } else {
      OneSelfMet(s, i, e, self.value, sc, k);
    }
  }

  lemma {:induction false} OneSelfMet(s: Stream, i: nat, e: Errors, t: Type, sc: Scope, k: Text)
    requires i <= |s.toks| && Well(t, false, sc)
    requires Spells(s, i, Put(LBRACKET, Put(KW_SELF, Put(COLON, TypeText(t, 0, false, Put(RBRACKET, k))))))
    ensures var r := SelfBindingAt(s, i, e, sc); r.Ok? ==> TellsSelf(Some(t), r.value) && Spells(s, r.pos, k)
    decreases t, 4
  {
    hide Well, Spells, Stops, TypeText, Put, TypeAt, SelfBindingAt, Same, Every, Stream.At, Stream.Kind;
    var ty := TypeText(t, 0, false, Put(RBRACKET, k));
    TakeMark(s, i, LBRACKET, Put(KW_SELF, Put(COLON, ty)));
    TakeMark(s, i + 1, KW_SELF, Put(COLON, ty));
    TakeMark(s, i + 2, COLON, ty);
    BracketStops(k);
    TypeMet(s, i + 3, e, t, false, sc, Put(RBRACKET, k));
    SelfGoesOn(s, i, e, sc);
    var q := TypeAt(s, i + 3, e, false, sc);
    if SelfBindingAt(s, i, e, sc).Ok? {
      TakeMark(s, q.pos, RBRACKET, k);
    }
  }

  lemma SelfGoesOn(s: Stream, i: nat, e: Errors, sc: Scope)
    requires i <= |s.toks| && s.Kind(i) == LBRACKET
    ensures var r := SelfBindingAt(s, i, e, sc);
            var q := TypeAt(s, i + 3, e, false, sc);
            r.Ok? ==> q.Ok? && s.Kind(q.pos) == RBRACKET && r == Ok(Some(q.value), q.pos + 1, q.err)
  {
    hide Well, TypeAt, Stream.At, Stream.Kind;
  }

  ghost predicate TellsFn(f: Function, g: Function) {
    SameFn(f, g) ==> EveryFn(f, PlainNode, PlainParam)
  }

  ghost predicate TellsBlock(a: Option<Block>, b: Option<Block>) {
    SameBlock(a, b) ==> EveryBlock(a, PlainNode, PlainParam)
  }

  lemma ParamsTell(ps: seq<Param>, qs: seq<Param>)
    requires TellsParams(ps, qs) && SameParams(ps, qs)
    ensures forall p <- ps :: EveryOf(p, PlainNode, PlainParam)
  {
    forall m | 0 <= m < |ps|
      ensures EveryOf(ps[m], PlainNode, PlainParam)
    {
      assert TellsParam(ps[m], qs[m]) && SameParam(ps[m], qs[m]);
    }
  }

  lemma KeywordsTell(ks: Keywords, ls: Keywords)
    requires TellsKeywords(ks, ls) && SameKeywords(ks, ls)
    ensures forall k <- ks :: EveryOf(k.value, PlainNode, PlainParam)
  {
    forall m | 0 <= m < |ks|
      ensures EveryOf(ks[m].value, PlainNode, PlainParam)
    {
      assert TellsEntry(ks[m], ls[m]) && SameEntry(ks[m], ls[m]) && SameParam(ks[m].value, ls[m].value);
    }
  }

  lemma SlotTells(p: Option<Param>, q: Option<Param>)
    requires TellsSlot(p, q) && SameSlot(p, q)
    ensures p.Some? ==> EveryOf(p.value, PlainNode, PlainParam)
  {
    if p.Some? {
      assert SameParam(p.value, q.value);
    }
  }

  lemma MethodParamsTell(a: MethodParams, b: MethodParams)
    requires TellsMethodParams(a, b) && SameMethodParams(a, b)
    ensures EveryParam(a, PlainNode, PlainParam)
  {
    ParamsTell(a.required, b.required);
    ParamsTell(a.optional, b.optional);
    ParamsTell(a.trailing, b.trailing);
    KeywordsTell(a.requiredKw, b.requiredKw);
    KeywordsTell(a.optionalKw, b.optionalKw);
    SlotTells(a.rest, b.rest);
    SlotTells(a.restKw, b.restKw);
  }

  lemma FnTells(f: Function, ps: ParamList, ret: Type, loc: Location)
    requires TellsList(f, ps) && Tells(f.ret, ret)
    ensures TellsFn(f, MakeFunction(ps, ret, loc))
  {
    if SameFn(f, MakeFunction(ps, ret, loc)) && f.Fn? {
      MethodParamsTell(f.params, ps.params);
    }
  }

  lemma {:induction false} BlockMet(s: Stream, i: nat, e: Errors, b: Option<Block>, sc: Scope, k: Text)
    requires i <= |s.toks| && (b.Some? ==> WellBlock(b.value, sc))
    requires Spells(s, i, BlockText(b, false, Put(ARROW, k)))
    ensures var r := BlockAt(s, i, e, sc); r.Ok? ==> TellsBlock(b, r.value) && Spells(s, r.pos, Put(ARROW, k))
    decreases b
  {
    hide Well, WellParams, WellBlock, WellFn, Spells, Stops, TypeText, ParamListText, SelfText, BlockBodyText,
      ParenParamsAt, SelfBindingAt, ReturnAt, BlockAt, Same, SameFn, SameOption, Every, EveryFn, Put, Stream.At,
      Stream.Kind;
    if b.None? {
      TakeMark(s, i, ARROW, k);
      NoBlockSteps(s, i, e, sc);
    } else {
      var body := BlockBodyText(b.value, false, Put(ARROW, k));
      BlockBodyBegins(b.value, Put(ARROW, k));
      var more := Put(LPAREN, ParamListText(b.value.fn, false, Put(RPAREN, SelfText(b.value.selfType, false,
                    Put(ARROW, TypeText(b.value.fn.ret, 1, false, Put(RBRACE, Put(ARROW, k))))))));
      if !b.value.required {
        TakeMark(s, i, QUESTION, body);
        TakeMark(s, i + 1, LBRACE, more);
        BlockBodyMet(s, i, i + 1, e, b.value, sc, Put(ARROW, k));
      } else {
        TakeMark(s, i, LBRACE, more);
        BlockBodyMet(s, i, i, e, b.value, sc, Put(ARROW, k));
      }
    }
  }

  lemma BlockBodyBegins(b: Block, k: Text)
    ensures BlockBodyText(b, false, k)
         == Put(LBRACE, Put(LPAREN, ParamListText(b.fn, false, Put(RPAREN, SelfText(b.selfType, false,
              Put(ARROW, TypeText(b.fn.ret, 1, false, Put(RBRACE, k))))))))
  {}

  lemma BlockGoesOn(s: Stream, i: nat, at: nat, e: Errors, sc: Scope)
    requires i <= at < |s.toks| && s.Kind(at) == LBRACE && (at == i || (at == i + 1 && s.Kind(i) == QUESTION))
    ensures var r := BlockAt(s, i, e, sc);
            r.Ok? ==>
              var ps := ParenParamsAt(s, at + 1, e, sc, false);
              ps.Ok? &&
              var self := SelfBindingAt(s, ps.pos, ps.err, sc);
              self.Ok? &&
              var ret := ReturnAt(s, self.pos, self.err, sc);
              && ret.Ok? && s.Kind(ret.pos) == RBRACE && r.pos == ret.pos + 1 && r.value.Some?
              && r.value.value.selfType == self.value
              && r.value.value.fn == MakeFunction(ps.value, ret.value, Spanning(s.At(i), s.At(ret.pos)))
  {
    hide Well, WellParams, WellBlock, ParenParamsAt, SelfBindingAt, ReturnAt, MakeFunction, Stream.At;
  }

  // The block with its brace at `at`.
  lemma {:induction false} BlockBodyMet(s: Stream, i: nat, at: nat, e: Errors, b: Block, sc: Scope, k: Text)
    requires i <= at < |s.toks| && s.Kind(at) == LBRACE && (at == i || (at == i + 1 && s.Kind(i) == QUESTION))
    requires WellBlock(b, sc)
    requires Spells(s, at + 1, Put(LPAREN, ParamListText(b.fn, false, Put(RPAREN,
               SelfText(b.selfType, false, Put(ARROW, TypeText(b.fn.ret, 1, false, Put(RBRACE, k))))))))
    ensures var r := BlockAt(s, i, e, sc); r.Ok? ==> TellsBlock(Some(b), r.value) && Spells(s, r.pos, k)
    decreases b
  {
    hide Well, WellParams, Spells, Stops, BlockOrArrow, TypeText, ParamListText, SelfText, ParenParamsAt,
      SelfBindingAt, ReturnAt, BlockAt, Same, SameFn, SameOption, Every, EveryFn, Put, TellsList, TellsFn, TellsSelf,
      TellsBlock, Tells, MakeFunction, Stream.At, Stream.Kind, MetBut;
    BlockGoesOn(s, i, at, e, sc);
    var r := BlockAt(s, i, e, sc);
    if r.Ok? {
      var end := Put(RBRACE, k);
      var ret := Put(ARROW, TypeText(b.fn.ret, 1, false, end));
      ParamListMet(s, at + 1, e, b.fn, sc, SelfText(b.selfType, false, ret));
      var ps := ParenParamsAt(s, at + 1, e, sc, false);
      SelfTextHead(b.selfType, false, k);
      SelfMet(s, ps.pos, ps.err, b.selfType, sc, ret);
      var self := SelfBindingAt(s, ps.pos, ps.err, sc);
      BracketStops(k);
      var m := ReturnMet(s, self.pos, self.err, b.fn.ret, sc, end);
      var q := ReturnAt(s, self.pos, self.err, sc);
      MetButMarks(q, b.fn.ret, s, end, m);
      TakeMark(s, q.pos, RBRACE, k);
      FnTells(b.fn, ps.value, q.value, Spanning(s.At(i), s.At(q.pos)));
      BlockTells(b, r.value.value);
    }
  }

  lemma BlockTells(a: Block, b: Block)
    requires TellsFn(a.fn, b.fn) && TellsSelf(a.selfType, b.selfType)
    ensures TellsBlock(Some(a), Some(b))
  {}

  lemma ProcTells(t: Type, u: Type)
    requires t.Proc? && u.Proc? && TellsFn(t.fn, u.fn) && TellsBlock(t.block, u.block) && TellsSelf(t.selfType, u.selfType)
    ensures Tells(t, u)
  {}

  lemma ProcWell(t: Type, v: bool, sc: Scope, k: Text)
    requires t.Proc? && Well(t, v, sc)
    ensures WellFn(t.fn, sc) && Forwards(t.fn, false) && Well(t.fn.ret, true, sc)
    ensures (t.selfType.Some? ==> Well(t.selfType.value, false, sc)) && (t.block.Some? ==> WellBlock(t.block.value, sc))
    ensures BareText(t, false, k) ==
              Put(HAT, Put(LPAREN, ParamListText(t.fn, false, Put(RPAREN,
                SelfText(t.selfType, false, BlockText(t.block, false, Put(ARROW, TypeText(t.fn.ret, 1, false, k))))))))
  {}

  lemma ProcGoesOn(s: Stream, i: nat, e: Errors, sc: Scope) returns (loc: Location)
    requires s.Kind(i) == HAT && i < |s.toks|
    ensures var r := ProcAt(s, i, e, sc);
            r.Ok? ==>
              var ps := ParenParamsAt(s, i + 1, e, sc, false);
              ps.Ok? &&
              var self := SelfBindingAt(s, ps.pos, ps.err, sc);
              self.Ok? &&
              var block := BlockAt(s, self.pos, self.err, sc);
              block.Ok? &&
              var ret := ReturnAt(s, block.pos, block.err, sc);
              && ret.Ok? && r.pos == ret.pos && r.value.Proc?
              && r.value.fn == MakeFunction(ps.value, ret.value, loc)
              && r.value.block == block.value && r.value.selfType == self.value
  {
    hide Well, WellParams, WellBlock, WellFn, ParenParamsAt, SelfBindingAt, BlockAt, ReturnAt, MakeFunction,
      Stream.At;
    var ps := ParenParamsAt(s, i + 1, e, sc, false);
    var r := ProcAt(s, i, e, sc);
    loc := Spanning(s.Current(i + 1), s.At(if r.Ok? then r.pos - 1 else 0));
    if ps.Ok? {
      var self := SelfBindingAt(s, ps.pos, ps.err, sc);
      if self.Ok? {
        assert FunctionAt(s, i + 1, e, sc, true, true, false)
            == FunctionRest(s, i + 1, self.pos, self.err, sc, true, ps.value, self.value);
      }
    }
  }

  lemma {:induction false} ProcMet(s: Stream, i: nat, e: Errors, t: Type, v: bool, sc: Scope, k: Text) returns (m: nat)
    requires t.Proc? && Well(t, v, sc) && Spells(s, i, BareText(t, false, k)) && Stops(k, 2)
    ensures MetBut(SimpleAt(s, i, e, v, sc), t, s, k, m)
    decreases t, 0, 0
  {
    hide Well, WellParams, WellBlock, WellFn, Spells, Stops, BlockOrArrow, TypeText, BareText, ParamListText,
      SelfText, BlockText, SimpleAt, ProcAt, ParenParamsAt, SelfBindingAt, BlockAt, ReturnAt, Same, SameFn,
      SameOption, SameBlock, Every, EveryFn, Put, TellsList, TellsFn, TellsSelf, TellsBlock, Tells, MakeFunction,
      Stream.At, Stream.Kind, MetBut;
    m := 0;
    ProcWell(t, v, sc, k);
    var ret := Put(ARROW, TypeText(t.fn.ret, 1, false, k));
    var tail := SelfText(t.selfType, false, BlockText(t.block, false, ret));
    TakeMark(s, i, HAT, Put(LPAREN, ParamListText(t.fn, false, Put(RPAREN, tail))));
    MarkStarts(s, i, e, v, sc);
    var loc := ProcGoesOn(s, i, e, sc);
    var r := ProcAt(s, i, e, sc);
    if r.Ok? {
      ParamListMet(s, i + 1, e, t.fn, sc, tail);
      var ps := ParenParamsAt(s, i + 1, e, sc, false);
      BlockTextHead(t.block, false, TypeText(t.fn.ret, 1, false, k));
      SelfMet(s, ps.pos, ps.err, t.selfType, sc, BlockText(t.block, false, ret));
      var self := SelfBindingAt(s, ps.pos, ps.err, sc);
      BlockMet(s, self.pos, self.err, t.block, sc, TypeText(t.fn.ret, 1, false, k));
      var block := BlockAt(s, self.pos, self.err, sc);
      m := ReturnMet(s, block.pos, block.err, t.fn.ret, sc, k);
      var q := ReturnAt(s, block.pos, block.err, sc);
      ReturnTells(t, r, ps.value, q, loc, s, k, m);
    } else {
      MetFail(r, t, s, k, m);
    }
  }

  lemma MetFail(r: Outcome<Type>, t: Type, s: Stream, k: Text, m: nat)
    requires r.Fail?
    ensures MetBut(r, t, s, k, m)
  {}

  lemma ReturnTells(t: Type, r: Outcome<Type>, ps: ParamList, q: Outcome<Type>, loc: Location, s: Stream, k: Text, m: nat)
    requires t.Proc? && r.Ok? && r.value.Proc? && q.Ok? && r.pos == q.pos && MetBut(q, t.fn.ret, s, k, m)
    requires r.value.fn == MakeFunction(ps, q.value, loc) && TellsList(t.fn, ps)
    requires TellsBlock(t.block, r.value.block) && TellsSelf(t.selfType, r.value.selfType)
    ensures MetBut(r, t, s, k, m)
  {
    hide Spells, Tells, TellsFn, TellsList, TellsBlock, TellsSelf, MakeFunction, Marks;
    if m == 0 {
      FnTells(t.fn, ps, q.value, loc);
      ProcTells(t, r.value);
    }
  }

  // ---- main result --------------------------------------------------------------------------------------

  // Ruby's to_s of a type is read back exactly if nowhere in it a union is a member of a union, an optional is under a
  // `?`, a parameter name written bare begins with a digit, or one between backticks has a backslash that escapes.
  lemma ToSIsReadExactlyIfPlain(s: Stream, i: nat, e: Errors, t: Type, v: bool, sc: Scope, k: Text)
    requires Well(t, v, sc) && Spells(s, i, TypeText(t, 0, false, k)) && Stops(k, 0)
    ensures Read(TypeAt(s, i, e, v, sc), t, s, e, k) <==> Plain(t)
  {
    hide Well, Spells, Stops, TypeText, TypeAt, Same, Every;
    if Plain(t) {
      PlainTypesAreRead(s, i, e, t, v, sc, k);
    }
    TypeMet(s, i, e, t, v, sc, k);
    if Read(TypeAt(s, i, e, v, sc), t, s, e, k) {
      KindAfter(s, TypeAt(s, i, e, v, sc).pos, k, 0);
    }
  }
}
