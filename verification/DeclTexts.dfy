/** Declarations and whole signatures written out (lib/rbs/writer.rb) and read back. */
module DeclTexts {
  import opened Ast
  import opened DeclGrammar
  import DeclSyntax
  import opened Grammar
  import opened MethodTexts
  import opened MethodTypes
  import opened Printer
  import opened RoundTrip
  import opened Tokens
  import opened Trees
  import opened Uses
  import opened WellFormed

  // ---- what is written -------------------------------------------------------------------------------

  function NotesText(notes: seq<string>, n: nat, rest: Text): Text
    decreases |notes| - n
  {
    if n >= |notes| then rest else PutBody(NoteMark(notes[n]), NotesText(notes, n + 1, rest))
  }

  // A method name; one that ends with `?` may be a word with the `?` after it.
  function MethodNameText(n: string, selfToo: bool, rest: Text): Text {
    var whole := PutBody(MethodMark(n, selfToo, false), rest);
    if n != "" && n[|n| - 1] == '?'
    then Either(PutBody(MethodMark(n[..|n| - 1], selfToo, true), PutGlued(QUESTION, rest)), whole)
    else whole
  }

  // A visibility is on the line of what it belongs to.
  function VisibilityText(v: Visibility, rest: Text): Text {
    match v
    case Unspecified => rest
    case Public => PutBody(Placed(KW_PUBLIC, Beside), rest)
    case Private => PutBody(Placed(KW_PRIVATE, Beside), rest)
  }

  function KindText(k: MemberKind, rest: Text): Text {
    match k
    case InstanceKind => rest
    case SingletonKind => Put(KW_SELF, Put(DOT, rest))
    case InstanceSingletonKind => Put(KW_SELF, PutBody(Placed(QUESTION, Close), Put(DOT, rest)))
  }

  // The overloads from number `n` on, and `...`, after which the parser also takes a `|`.
  function OverloadsText(os: seq<Overload>, n: nat, overloading: bool, rest: Text): Text
    decreases |os| - n
  {
    if n < |os| then
      NotesText(os[n].annotations, 0, MethodText(os[n].methodType, true,
        if n + 1 < |os| || overloading then Put(BAR, OverloadsText(os, n + 1, overloading, rest)) else rest))
    else Put(DOT3, Either(Put(BAR, rest), rest))
  }

  function MixinText(x: Mixin, rest: Text): Text {
    NameText(x.name, ArgsText(x.args, true, rest))
  }

  function SelfDotText(singleton: bool, rest: Text): Text {
    if singleton then Put(KW_SELF, Put(DOT, rest)) else rest
  }

  function TypedText(t: Type, rest: Text): Text {
    Put(COLON, TypeText(t, 0, true, rest))
  }

  function VariableText(n: string, rest: Text): Text {
    Either(PutBody(Spelled(AIDENT, n), rest), PutBody(Spelled(KW_AT_RBS, n), rest))
  }

  function IvarText(v: Ivar, rest: Text): Text {
    match v
    case Inferred => rest
    case NoIvar => Put(LPAREN, Put(RPAREN, rest))
    case Ivar(n) => Put(LPAREN, VariableText(n, Put(RPAREN, rest)))
  }

  function SelfTypesText(xs: seq<Mixin>, n: nat, rest: Text): Text
    decreases |xs| - n
  {
    if n >= |xs| then rest else Put(if n == 0 then COLON else COMMA, MixinText(xs[n], SelfTypesText(xs, n + 1, rest)))
  }

  function SuperText(x: Option<Mixin>, rest: Text): Text {
    if x.None? then rest else Put(LT, MixinText(x.value, rest))
  }

  // The name of a constant. An absolute one must not touch what is before it, or it would go on with it.
  function ConstantText(n: TypeName, rest: Text): Text {
    if n.absolute then PutBody(Placed(COLON2, Parted), PathText(n, 0, true, rest)) else PathText(n, 0, false, rest)
  }

  // A member without its annotations.
  function MemberText(m: Member, inInterface: bool, rest: Text): Text
    decreases m
  {
    match m
    case MethodDef(_, v, k, n, os, overloading) =>
      VisibilityText(v, Put(KW_DEF, KindText(k, MethodNameText(n, true, Put(COLON, OverloadsText(os, 0, overloading, rest))))))
    case MixinMember(_, k, x) => Put(MixinKeyword(k), MixinText(x, rest))
    case AliasMember(_, n, was, singleton) =>
      Put(KW_ALIAS, SelfDotText(singleton, MethodNameText(n, singleton || inInterface,
        SelfDotText(singleton, MethodNameText(was, true, rest)))))
    case InstanceVariable(n, t) => VariableText(n, TypedText(t, rest))
    case ClassVariable(n, t) => PutBody(Spelled(A2IDENT, n), TypedText(t, rest))
    case ClassInstanceVariable(n, t) => Put(KW_SELF, Put(DOT, VariableText(n, TypedText(t, rest))))
    case Attribute(_, v, a, k, n, ivar, t) =>
      VisibilityText(v, Put(AttrKeyword(a), KindText(k, MethodNameText(n, true, IvarText(ivar, TypedText(t, rest))))))
    case VisibilityMember(public) => PutBody(Placed(if public then KW_PUBLIC else KW_PRIVATE, Alone), rest)
    case Nested(d) => DeclText(d, rest)
  }

  function MembersText(ms: seq<Member>, n: nat, inInterface: bool, rest: Text): Text
    decreases ms, |ms| - n
  {
    if n >= |ms| then rest
    else NotesText(NotesOf(ms[n]), 0, MemberText(ms[n], inInterface, MembersText(ms, n + 1, inInterface, rest)))
  }

  // A declaration without its annotations.
  function DeclText(d: Decl, rest: Text): Text
    decreases d
  {
    match d
    case Constant(_, n, t) => ConstantText(n, TypedText(t, rest))
    case Global(_, n, t) => PutBody(Spelled(GIDENT, n), TypedText(t, rest))
    case TypeAlias(_, n, ps, t) =>
      Put(KW_TYPE, NameText(n, TypeParamsText(ps, true, Put(EQ, TypeText(t, 0, true, rest)))))
    case InterfaceDecl(_, n, ps, ms) =>
      Put(KW_INTERFACE, NameText(n, TypeParamsText(ps, true, MembersText(ms, 0, true, Put(KW_END, rest)))))
    case ModuleDecl(_, n, ps, xs, ms) =>
      Put(KW_MODULE, NameText(n, TypeParamsText(ps, true, SelfTypesText(xs, 0, MembersText(ms, 0, false, Put(KW_END, rest))))))
    case ClassDecl(_, n, ps, x, ms) =>
      Put(KW_CLASS, NameText(n, TypeParamsText(ps, true, SuperText(x, MembersText(ms, 0, false, Put(KW_END, rest))))))
    case ModuleAlias(_, n, was) => Put(KW_MODULE, NameText(n, Put(EQ, NameText(was, rest))))
    case ClassAlias(_, n, was) => Put(KW_CLASS, NameText(n, Put(EQ, NameText(was, rest))))
  }

  function DeclsText(ds: seq<Decl>, n: nat, rest: Text): Text
    decreases |ds| - n
  {
    if n >= |ds| then rest else NotesText(ds[n].annotations, 0, DeclText(ds[n], DeclsText(ds, n + 1, rest)))
  }

  // ---- equality up to locations ----------------------------------------------------------------------

  ghost predicate SameMixin(a: Mixin, b: Mixin) {
    a.name == b.name && SameAll(a.args, b.args)
  }

  ghost predicate SameMixins(a: seq<Mixin>, b: seq<Mixin>) {
    |a| == |b| && forall i :: 0 <= i < |a| ==> SameMixin(a[i], b[i])
  }

  ghost predicate SameOverloads(a: seq<Overload>, b: seq<Overload>) {
    |a| == |b| && forall i :: 0 <= i < |a| ==>
      a[i].annotations == b[i].annotations && SameMethodType(a[i].methodType, b[i].methodType)
  }

  ghost predicate SameMember(a: Member, b: Member)
    decreases a
  {
    match a
    case MethodDef(notes, v, k, n, os, overloading) =>
      && b.MethodDef? && b.annotations == notes && b.visibility == v && b.kind == k && b.methodName == n
      && SameOverloads(os, b.overloads) && b.overloading == overloading
    case MixinMember(notes, k, x) => b.MixinMember? && b.annotations == notes && b.mixinKind == k && SameMixin(x, b.mixin)
    case AliasMember(_, _, _, _) => b == a
    case InstanceVariable(n, t) => b.InstanceVariable? && b.variable == n && Same(t, b.ty)
    case ClassVariable(n, t) => b.ClassVariable? && b.variable == n && Same(t, b.ty)
    case ClassInstanceVariable(n, t) => b.ClassInstanceVariable? && b.variable == n && Same(t, b.ty)
    case Attribute(notes, v, ak, k, n, ivar, t) =>
      && b.Attribute? && b.annotations == notes && b.visibility == v && b.attrKind == ak && b.kind == k && b.attribute == n
      && b.ivar == ivar && Same(t, b.ty)
    case VisibilityMember(_) => b == a
    case Nested(d) => b.Nested? && SameDecl(d, b.decl)
  }

  ghost predicate SameMembers(a: seq<Member>, b: seq<Member>)
    decreases a
  {
    |a| == |b| && forall i | 0 <= i < |a| :: SameMember(a[i], b[i])
  }

  ghost predicate SameDecl(a: Decl, b: Decl)
    decreases a
  {
    && a.annotations == b.annotations
    && match a {
         case Constant(_, n, t) => b.Constant? && b.name == n && Same(t, b.ty)
         case Global(_, n, t) => b.Global? && b.globalName == n && Same(t, b.ty)
         case TypeAlias(_, n, ps, t) => b.TypeAlias? && b.name == n && SameTypeParams(ps, b.params) && Same(t, b.ty)
         case InterfaceDecl(_, n, ps, ms) =>
           b.InterfaceDecl? && b.name == n && SameTypeParams(ps, b.params) && SameMembers(ms, b.members)
         case ModuleDecl(_, n, ps, xs, ms) =>
           && b.ModuleDecl? && b.name == n && SameTypeParams(ps, b.params) && SameMixins(xs, b.selfTypes)
           && SameMembers(ms, b.members)
         case ClassDecl(_, n, ps, x, ms) =>
           && b.ClassDecl? && b.name == n && SameTypeParams(ps, b.params) && x.Some? == b.super.Some?
           && (x.Some? ==> SameMixin(x.value, b.super.value)) && SameMembers(ms, b.members)
         case ModuleAlias(_, _, _) => b == a
         case ClassAlias(_, _, _) => b == a
       }
  }

  ghost predicate SameDecls(a: seq<Decl>, b: seq<Decl>) {
    |a| == |b| && forall i :: 0 <= i < |a| ==> SameDecl(a[i], b[i])
  }

  // ---- what follows ----------------------------------------------------------------------------------

  // Tokens that can come after a member or a declaration go on with none of their parts.
  predicate Leads(b: Body) {
    match b
    case Mark(m) =>
      m in {KW_END, KW_DEF, KW_INCLUDE, KW_EXTEND, KW_PREPEND, KW_ALIAS, KW_SELF, KW_ATTR_READER, KW_ATTR_WRITER,
            KW_ATTR_ACCESSOR, KW_CLASS, KW_MODULE, KW_INTERFACE, KW_TYPE}
    case NameMark(k, _) => k == ClassName
    case Spelled(m, _) => m in {AIDENT, A2IDENT, KW_AT_RBS, GIDENT}
    case NoteMark(_) => true
    case Placed(m, place) => m in {KW_PUBLIC, KW_PRIVATE} || (m == COLON2 && place == Parted)
    case _ => false
  }

  predicate Follows(k: Text)
    decreases k
  {
    match k
    case End => true
    case More(h, _) => Leads(h.body)
    case Either(x, y) => Follows(x) && Follows(y)
  }

  lemma {:induction false} FollowsStops(k: Text, n: nat)
    requires Follows(k)
    ensures Stops(k, n) && EndsName(k)
    decreases k
  {
    if k.Either? {
      FollowsStops(k.one, n);
      FollowsStops(k.other, n);
    }
  }

  predicate Separates(k: TokenKind) {
    k !in {LBRACKET, BAR, AMP, QUESTION, EQ, COLON, COMMA, LT, LPAREN, DOT}
  }

  lemma {:induction false} FollowsKind(s: Stream, i: nat, k: Text)
    requires Spells(s, i, k) && Follows(k)
    ensures i <= |s.toks| && Separates(s.Kind(i)) && !GluedColons(s, i)
    decreases k
  {
    if k.Either? {
      FollowsKind(s, i, if Spells(s, i, k.one) then k.one else k.other);
    }
  }

  // ---- annotations -----------------------------------------------------------------------------------

  lemma SameBlank(c: char)
    ensures IsBlank(c) == IsSpace(c)
  {}

  lemma {:induction false} TrimmedFront(b: string, x: string)
    requires AllBlank(b)
    ensures TrimFront(b + x) == TrimFront(x)
  {
    if b == "" {
      assert b + x == x;
    } else {
      SameBlank(b[0]);
      assert (b + x)[1..] == b[1..] + x;
      TrimmedFront(b[1..], x);
    }
  }

  lemma {:induction false} TrimmedBack(x: string, b: string)
    requires AllBlank(b)
    ensures TrimBack(x + b) == TrimBack(x)
  {
    if b == "" {
      assert x + b == x;
    } else {
      var l := |b| - 1;
      SameBlank(b[l]);
      assert (x + b)[..|x + b| - 1] == x + b[..l];
      TrimmedBack(x, b[..l]);
    }
  }

  // The text of an annotation is what is written between its brackets, whichever they are.
  lemma NoteRead(t: Token, note: string)
    requires StandsForNote(t, note)
    ensures AnnotationOf(t) == Some(note)
  {
    hide TrimFront, TrimBack, AllBlank, IsBlank;
    var before, after :| AllBlank(before) && AllBlank(after) && t.text[3..|t.text| - 1] == before + note + after;
    Trimmed(before, note, after);
  }

  lemma Trimmed(before: string, note: string, after: string)
    requires AllBlank(before) && AllBlank(after)
    requires note != "" ==> !IsBlank(note[0]) && !IsBlank(note[|note| - 1])
    ensures TrimBack(TrimFront(before + note + after)) == note
  {
    hide AllBlank;
    assert before + note + after == before + (note + after);
    TrimmedFront(before, note + after);
    if note == "" {
      assert note + after == after == after + "";
      TrimmedFront(after, "");
    } else {
      SameBlank(note[0]);
      SameBlank(note[|note| - 1]);
      TrimmedBack(note, after);
    }
  }

  lemma TakeNote(s: Stream, i: nat, note: string, rest: Text)
    requires Spells(s, i, PutBody(NoteMark(note), rest))
    ensures i < |s.toks| && s.Kind(i) == ANNOTATION && AnnotationOf(s.At(i)) == Some(note) && Spells(s, i + 1, rest)
  {
    NoteRead(s.toks[i], note);
  }

  lemma {:induction false} NotesRead(s: Stream, i: nat, e: Errors, notes: seq<string>, n: nat, rest: Text)
    requires n <= |notes| && Spells(s, i, NotesText(notes, n, rest))
    requires forall j: nat :: Spells(s, j, rest) ==> j <= |s.toks| && s.Kind(j) != ANNOTATION
    ensures i <= |s.toks|
    ensures var r := AnnotationsAt(s, i, e); r.Ok? && r.value == notes[n..] && r.err == e && Spells(s, r.pos, rest)
    decreases |notes| - n
  {
    hide Spells, AnnotationOf;
    if n < |notes| {
      TakeNote(s, i, notes[n], NotesText(notes, n + 1, rest));
      NotesRead(s, i + 1, e, notes, n + 1, rest);
      assert notes[n..] == [notes[n]] + notes[n + 1..];
    }
  }

  // ---- names of methods ------------------------------------------------------------------------------

  lemma TakeMethod(s: Stream, i: nat, e: Errors, n: string, selfToo: bool, wordOnly: bool, rest: Text)
    requires Spells(s, i, PutBody(MethodMark(n, selfToo, wordOnly), rest))
    ensures i < |s.toks| && Spells(s, i + 1, rest) && (s.Kind(i) == KW_SELF ==> selfToo)
    ensures wordOnly ==> IsWord(s.Kind(i)) && s.At(i).text == n
    ensures !Queried(s, i) ==> MethodNameAt(s, i, e) == Ok(n, i + 1, e)
    ensures s.Kind(i) != QUESTION
  {
    DeclSyntax.WordsAgree(s.Kind(i));
  }

  // Any token that can name a method, or a word and the `?` that touches it.
  lemma MethodNameRead(s: Stream, i: nat, e: Errors, n: string, selfToo: bool, rest: Text)
    requires Spells(s, i, MethodNameText(n, selfToo, rest))
    requires forall j: nat :: Spells(s, j, rest) ==> s.Kind(j) != QUESTION
    ensures var r := MethodNameAt(s, i, e);
            && r.Ok? && r.value == n && r.err == e && Spells(s, r.pos, rest)
            && (r.pos == i + 1 || (r.pos == i + 2 && s.Kind(i + 1) == QUESTION))
    ensures s.Kind(i) == KW_SELF ==> selfToo
  {
    hide Spells, MethodNameAt, IsWord;
    var whole := PutBody(MethodMark(n, selfToo, false), rest);
    if n != "" && n[|n| - 1] == '?' {
      TakeEither(s, i, PutBody(MethodMark(n[..|n| - 1], selfToo, true), PutGlued(QUESTION, rest)), whole);
    }
    if Spells(s, i, whole) {
      TakeMethod(s, i, e, n, selfToo, false, rest);
    } else {
      QueriedRead(s, i, e, n, selfToo, rest);
    }
  }

  lemma QueriedRead(s: Stream, i: nat, e: Errors, n: string, selfToo: bool, rest: Text)
    requires n != "" && n[|n| - 1] == '?'
    requires Spells(s, i, PutBody(MethodMark(n[..|n| - 1], selfToo, true), PutGlued(QUESTION, rest)))
    ensures MethodNameAt(s, i, e) == Ok(n, i + 2, e) && s.Kind(i + 1) == QUESTION && Spells(s, i + 2, rest)
    ensures s.Kind(i) == KW_SELF ==> selfToo
  {
    hide Spells, IsWord;
    TakeMethod(s, i, e, n[..|n| - 1], selfToo, true, PutGlued(QUESTION, rest));
    TakeGlued(s, i + 1, QUESTION, rest);
    assert n == n[..|n| - 1] + "?";
  }

  // The kind before a name that nothing else takes for one.
  lemma KindRead(s: Stream, i: nat, k: MemberKind, allowSelfq: bool, name: Text)
    requires Spells(s, i, KindText(k, name)) && (k == InstanceSingletonKind ==> allowSelfq)
    requires k == InstanceKind ==>
               s.Kind(i + 1) != DOT && (s.Kind(i + 1) == QUESTION ==> s.Kind(i + 2) != DOT)
    ensures KindAt(s, i, allowSelfq) == k && Spells(s, i + KindWidth(k), name)
  {
    match k
    case InstanceKind =>
    case SingletonKind =>
      TakeMark(s, i, KW_SELF, Put(DOT, name));
      TakeMark(s, i + 1, DOT, name);
    case InstanceSingletonKind =>
      TakeMark(s, i, KW_SELF, PutBody(Placed(QUESTION, Close), Put(DOT, name)));
      TakeMark(s, i + 2, DOT, name);
  }

  // A kind and a name, before a token that belongs to neither.
  lemma KindAndNameRead(s: Stream, i: nat, e: Errors, k: MemberKind, allowSelfq: bool, n: string, rest: Text)
    requires Spells(s, i, KindText(k, MethodNameText(n, true, rest))) && (k == InstanceSingletonKind ==> allowSelfq)
    requires forall j: nat :: Spells(s, j, rest) ==> s.Kind(j) != QUESTION && s.Kind(j) != DOT
    ensures KindAt(s, i, allowSelfq) == k
    ensures var r := MethodNameAt(s, i + KindWidth(k), e); r.Ok? && r.value == n && r.err == e && Spells(s, r.pos, rest)
  {
    hide Spells, MethodNameAt, MethodNameText, KindAt;
    if k == InstanceKind {
      MethodNameRead(s, i, e, n, true, rest);
    }
    KindRead(s, i, k, allowSelfq, MethodNameText(n, true, rest));
    MethodNameRead(s, i + KindWidth(k), e, n, true, rest);
  }

  // ---- method definitions ----------------------------------------------------------------------------

  // What a method type can begin with.
  lemma MethodHead(s: Stream, i: nat, m: MethodType, rest: Text)
    requires Spells(s, i, MethodText(m, true, rest))
    ensures i < |s.toks| && s.Kind(i) in {LPAREN, ARROW, LBRACE, LBRACKET, QUESTION}
  {
    hide Spells, TypeParamListText, ParensText, BlockText, TypeText;
    var after := BlockText(m.block, true, Put(ARROW, TypeText(m.fn.ret, 1, true, rest)));
    if m.typeParams == [] {
      ParensHead(s, i, m.fn, after);
      if s.Kind(i) != LPAREN {
        BlockHead(s, i, m.block, TypeText(m.fn.ret, 1, true, rest));
      }
    } else {
      TakeMark(s, i, LBRACKET, TypeParamListText(m.typeParams, 0, true, ParensText(m.fn, true, after)));
    }
  }

  lemma BlockHead(s: Stream, i: nat, b: Option<Block>, rest: Text)
    requires Spells(s, i, BlockText(b, true, Put(ARROW, rest)))
    ensures i < |s.toks| && s.Kind(i) in {ARROW, LBRACE, QUESTION}
  {
    hide ParensText;
  }

  lemma ParensHead(s: Stream, i: nat, f: Function, after: Text)
    requires Spells(s, i, ParensText(f, true, after))
    ensures (i < |s.toks| && s.Kind(i) == LPAREN) || Spells(s, i, after)
  {
    hide ParamListText;
  }

  ghost predicate ReadOverloads(r: Outcome<(seq<Overload>, bool)>, os: seq<Overload>, overloading: bool, s: Stream,
                                e: Errors, rest: Text) {
    r.Ok? && SameOverloads(os, r.value.0) && r.value.1 == overloading && r.err == e && Spells(s, r.pos, rest)
  }

  lemma OverloadsGrow(os: seq<Overload>, n: nat, acc: seq<Overload>, o: Overload)
    requires n < |os| && SameOverloads(os[..n], acc)
    requires os[n].annotations == o.annotations && SameMethodType(os[n].methodType, o.methodType)
    ensures SameOverloads(os[..n + 1], acc + [o]) && (n + 1 == |os| ==> SameOverloads(os, acc + [o]))
  {
    hide SameMethodType;
    assert os[..n + 1] == os[..n] + [os[n]];
    if n + 1 == |os| {
      assert os[..n + 1] == os;
    }
  }

  lemma {:induction false} OverloadsRead(s: Stream, i: nat, e: Errors, os: seq<Overload>, n: nat, acc: seq<Overload>,
                                         overloading: bool, vars: set<string>, classOk: bool, fwd: bool, rest: Text)
    requires n <= |os| && (n < |os| || overloading) && WellOverloads(os, vars, classOk, fwd)
    requires SameOverloads(os[..n], acc) && Spells(s, i, OverloadsText(os, n, overloading, rest)) && Follows(rest)
    ensures i <= |s.toks|
    ensures ReadOverloads(OverloadsAt(s, i, e, vars, classOk, fwd, acc), os, overloading, s, e, rest)
    decreases |os| - n
  {
    hide Spells, Stops, Follows, MethodText, NotesText, AnnotationsAt, MethodTypeAt, WellOverload, SameMethodType,
      SameOverloads, Separates, Stream.At, Stream.Kind;
    if n < |os| {
      var more := if n + 1 < |os| || overloading then Put(BAR, OverloadsText(os, n + 1, overloading, rest)) else rest;
      OverloadRead(s, i, e, os[n], vars, classOk, fwd, more, n + 1 < |os| || overloading);
      var a := AnnotationsAt(s, i, e);
      var m := OverloadAt(s, a.pos, a.err, vars, classOk, fwd);
      var o := Overload(a.value, m.value);
      OverloadsGrow(os, n, acc, o);
      if n + 1 < |os| || overloading {
        TakeMark(s, m.pos, BAR, OverloadsText(os, n + 1, overloading, rest));
        OverloadsRead(s, m.pos + 1, e, os, n + 1, acc + [o], overloading, vars, classOk, fwd, rest);
      } else {
        FollowsKind(s, m.pos, rest);
        SeparatesBar(s.Kind(m.pos));
      }
    } else {
      assert os[..n] == os;
      DotsRead(s, i, e, vars, classOk, fwd, acc, rest);
    }
  }

  lemma SeparatesBar(k: TokenKind)
    requires Separates(k)
    ensures k != BAR
  {}

  // One overload with its annotations.
  lemma OverloadRead(s: Stream, i: nat, e: Errors, o: Overload, vars: set<string>, classOk: bool, fwd: bool, more: Text,
                     bar: bool)
    requires WellOverload(o.methodType, vars, classOk, fwd) && (if bar then more.More? && more.head.body == Mark(BAR) else Follows(more))
    requires Spells(s, i, NotesText(o.annotations, 0, MethodText(o.methodType, true, more)))
    ensures i <= |s.toks|
    ensures var a := AnnotationsAt(s, i, e);
            && a.Ok? && a.value == o.annotations && a.err == e && s.Kind(a.pos) in {LPAREN, ARROW, LBRACE, LBRACKET, QUESTION}
            && var m := OverloadAt(s, a.pos, a.err, vars, classOk, fwd);
               m.Ok? && SameMethodType(o.methodType, m.value) && m.err == e && Spells(s, m.pos, more)
  {
    hide Spells, Stops, Follows, MethodText, NotesText, AnnotationsAt, MethodTypeAt, SameMethodType, WellMethodType,
      MethodWritable;
    var written := MethodText(o.methodType, true, more);
    forall j: nat | Spells(s, j, written) ensures j <= |s.toks| && s.Kind(j) != ANNOTATION {
      MethodHead(s, j, o.methodType, more);
    }
    NotesRead(s, i, e, o.annotations, 0, written);
    var a := AnnotationsAt(s, i, e);
    MethodHead(s, a.pos, o.methodType, more);
    WellIsWritable(o.methodType, vars, classOk, fwd);
    if !bar {
      FollowsStops(more, 2);
    } else {
      BarStops(more);
    }
    MethodTypesAreRead(s, a.pos, e, o.methodType, vars, false, classOk, fwd, true, more);
  }

  lemma BarStops(k: Text)
    requires k.More? && k.head.body == Mark(BAR)
    ensures Stops(k, 2)
  {}

  // `...`, with the `|` that may follow it.
  lemma DotsRead(s: Stream, i: nat, e: Errors, vars: set<string>, classOk: bool, fwd: bool, acc: seq<Overload>, rest: Text)
    requires Spells(s, i, Put(DOT3, Either(Put(BAR, rest), rest))) && Follows(rest)
    ensures i <= |s.toks|
    ensures var r := OverloadsAt(s, i, e, vars, classOk, fwd, acc);
            r.Ok? && r.value == (acc, true) && r.err == e && Spells(s, r.pos, rest)
  {
    hide Spells, Follows, OverloadAt, WellOverload;
    TakeMark(s, i, DOT3, Either(Put(BAR, rest), rest));
    TakeEither(s, i + 1, Put(BAR, rest), rest);
    if Spells(s, i + 1, Put(BAR, rest)) {
      TakeMark(s, i + 1, BAR, rest);
    } else {
      FollowsKind(s, i + 1, rest);
    }
  }

  // ---- members ---------------------------------------------------------------------------------------

  ghost predicate ReadMember(r: Outcome<Member>, m: Member, s: Stream, e: Errors, rest: Text) {
    r.Ok? && SameMember(m, r.value) && r.err == e && Spells(s, r.pos, rest)
  }

  function VisibilityWidth(v: Visibility): nat {
    if v == Unspecified then 0 else 1
  }

  // A visibility, or none before a token that is none.
  lemma VisibilityRead(s: Stream, c: nat, v: Visibility, k: TokenKind, rest: Text)
    requires Spells(s, c, VisibilityText(v, Put(k, rest))) && k !in {KW_PUBLIC, KW_PRIVATE}
    ensures c < |s.toks| && VisibilityOf(s.Kind(c)) == v && Spells(s, c + VisibilityWidth(v) + 1, rest)
    ensures s.Kind(c + VisibilityWidth(v)) == k && (v != Unspecified ==> OneLine(s, c))
    ensures v == Unspecified || s.Kind(c) in {KW_PUBLIC, KW_PRIVATE}
  {}

  // What is before the overloads: the visibility, the kind and the name with its colon.
  lemma DefHeadRead(s: Stream, c: nat, e: Errors, v: Visibility, k: MemberKind, n: string, rest: Text)
    requires Spells(s, c, VisibilityText(v, Put(KW_DEF, KindText(k, MethodNameText(n, true, Put(COLON, rest))))))
    requires k == InstanceSingletonKind ==> v == Unspecified
    ensures var i := c + VisibilityWidth(v) + 1;
            && VisibilityOf(s.Kind(c)) == v && KindAt(s, i, v == Unspecified) == k
            && var r := DefNameAt(s, i + KindWidth(k), e); r.Ok? && r.value == n && r.err == e && Spells(s, r.pos, rest)
  {
    hide Spells, MethodNameText, VisibilityText, KindText, MethodNameAt, KindAt, VisibilityOf, OneLine;
    VisibilityRead(s, c, v, KW_DEF, KindText(k, MethodNameText(n, true, Put(COLON, rest))));
    forall j: nat | Spells(s, j, Put(COLON, rest)) ensures s.Kind(j) != QUESTION && s.Kind(j) != DOT {
      TakeMark(s, j, COLON, rest);
    }
    var i := c + VisibilityWidth(v) + 1;
    KindAndNameRead(s, i, e, k, v == Unspecified, n, Put(COLON, rest));
    TakeMark(s, MethodNameAt(s, i + KindWidth(k), e).pos, COLON, rest);
  }

  lemma MethodDefRead(s: Stream, c: nat, e: Errors, m: Member, vars: set<string>, instanceOnly: bool, fwd: bool, rest: Text)
    requires m.MethodDef? && WellMember(m, vars, instanceOnly, fwd)
    requires Spells(s, c, MemberText(m, instanceOnly, rest)) && Follows(rest)
    ensures instanceOnly ==> VisibilityOf(s.Kind(c)) == Unspecified
    ensures ReadMember(MethodDefAt(s, c, e, vars, instanceOnly, fwd, m.annotations), m, s, e, rest)
  {
    hide Spells, Follows, OverloadsText, MethodNameText, VisibilityText, KindText, OverloadsAt, DefNameAt, KindAt,
      WellOverloads, VisibilityOf, SameOverloads, Stream.At, Stream.Kind;
    DefHeadRead(s, c, e, m.visibility, m.kind, m.methodName, OverloadsText(m.overloads, 0, m.overloading, rest));
    var n := DefNameAt(s, c + VisibilityWidth(m.visibility) + 1 + KindWidth(m.kind), e);
    NoneSameOverloads(m.overloads);
    OverloadsRead(s, n.pos, e, m.overloads, 0, [], m.overloading, if m.kind == InstanceKind then vars else {},
                  !instanceOnly, fwd, rest);
  }

  lemma NoneSameOverloads(os: seq<Overload>)
    ensures SameOverloads(os[..0], [])
  {}

  lemma MixinRead(s: Stream, c: nat, e: Errors, x: Mixin, kinds: set<NameKind>, sc: Scope, rest: Text)
    requires x.name.kind in kinds && WellMixin(x, sc) && Stops(rest, 3) && Spells(s, c, MixinText(x, rest))
    ensures var r := MixinAt(s, c, e, kinds, sc); r.Ok? && SameMixin(x, r.value) && r.err == e && Spells(s, r.pos, rest)
  {
    hide Spells, Stops, EndsName, NameText, ArgsText, TypeNameAt, TypeArgsAt, SameAll, KindOfName, AllWell, AllWritable;
    ArgsEndName(x.args, true, rest);
    NameRead(s, c, e, x.name, ArgsText(x.args, true, rest), kinds);
    var n := TypeNameAt(s, c, e, kinds);
    AllWellWritable(x.args, sc);
    ArgsRead(s, n.pos, e, x.args, sc, true, rest);
  }

  lemma AllWellWritable(ts: seq<Type>, sc: Scope)
    requires AllWell(ts, true, sc)
    ensures AllWritable(ts, true, sc, true)
  {
    hide Well;
  }

  lemma MixinMemberRead(s: Stream, c: nat, e: Errors, m: Member, vars: set<string>, fromInterface: bool, fwd: bool, rest: Text)
    requires m.MixinMember? && WellMember(m, vars, fromInterface, fwd)
    requires Spells(s, c, MemberText(m, fromInterface, rest)) && Follows(rest)
    ensures ReadMember(MixinMemberAt(s, c, e, vars, fromInterface, m.annotations), m, s, e, rest)
  {
    hide Spells, Follows, Stops, MixinText, MixinAt, WellMixin, SameMixin;
    TakeMark(s, c, MixinKeyword(m.mixinKind), MixinText(m.mixin, rest));
    FollowsStops(rest, 3);
    MixinRead(s, c + 1, e, m.mixin, if fromInterface then {InterfaceName} else {InterfaceName, ClassName},
              Scope(if m.mixinKind == Extend then {} else vars, false, !fromInterface), rest);
  }

  lemma AliasMemberRead(s: Stream, c: nat, e: Errors, m: Member, vars: set<string>, instanceOnly: bool, fwd: bool, rest: Text)
    requires m.AliasMember? && WellMember(m, vars, instanceOnly, fwd)
    requires Spells(s, c, MemberText(m, instanceOnly, rest)) && Follows(rest)
    ensures ReadMember(AliasMemberAt(s, c, e, instanceOnly, m.annotations), m, s, e, rest)
  {
    hide Spells, Follows, MethodNameText, MethodNameAt;
    var prior := SelfDotText(m.singleton, MethodNameText(m.oldName, true, rest));
    TakeMark(s, c, KW_ALIAS, SelfDotText(m.singleton, MethodNameText(m.newName, m.singleton || instanceOnly, prior)));
    forall j: nat | Spells(s, j, rest) ensures s.Kind(j) != QUESTION {
      FollowsKind(s, j, rest);
    }
    forall j: nat | Spells(s, j, prior) ensures s.Kind(j) != QUESTION {
      SelfDotHead(s, j, m.singleton, m.oldName, rest);
    }
    AliasNameRead(s, c + 1, e, m.singleton, m.newName, m.singleton || instanceOnly, prior);
    var n := if m.singleton then SelfNameAt(s, c + 1, e) else MethodNameAt(s, c + 1, e);
    AliasNameRead(s, n.pos, e, m.singleton, m.oldName, true, rest);
  }

  lemma SelfDotHead(s: Stream, i: nat, singleton: bool, n: string, rest: Text)
    requires Spells(s, i, SelfDotText(singleton, MethodNameText(n, true, rest)))
    ensures s.Kind(i) != QUESTION
  {
    hide Spells, MethodNameAt;
    if singleton {
      TakeMark(s, i, KW_SELF, Put(DOT, MethodNameText(n, true, rest)));
    } else {
      var whole := PutBody(MethodMark(n, true, false), rest);
      if n != "" && n[|n| - 1] == '?' {
        TakeEither(s, i, PutBody(MethodMark(n[..|n| - 1], true, true), PutGlued(QUESTION, rest)), whole);
      }
      if Spells(s, i, whole) {
        TakeMethod(s, i, None, n, true, false, rest);
      } else {
        TakeMethod(s, i, None, n[..|n| - 1], true, true, PutGlued(QUESTION, rest));
      }
    }
  }

  lemma AliasNameRead(s: Stream, i: nat, e: Errors, singleton: bool, n: string, selfToo: bool, rest: Text)
    requires Spells(s, i, SelfDotText(singleton, MethodNameText(n, selfToo, rest)))
    requires forall j: nat :: Spells(s, j, rest) ==> s.Kind(j) != QUESTION
    ensures var r := if singleton then SelfNameAt(s, i, e) else MethodNameAt(s, i, e);
            r.Ok? && r.value == n && r.err == e && Spells(s, r.pos, rest)
    ensures s.Kind(i) == KW_SELF ==> singleton || selfToo
  {
    hide Spells, MethodNameText, MethodNameAt;
    if singleton {
      TakeMark(s, i, KW_SELF, Put(DOT, MethodNameText(n, selfToo, rest)));
      TakeMark(s, i + 1, DOT, MethodNameText(n, selfToo, rest));
      MethodNameRead(s, i + 2, e, n, selfToo, rest);
    } else {
      MethodNameRead(s, i, e, n, selfToo, rest);
    }
  }

  lemma TypedRead(s: Stream, i: nat, e: Errors, t: Type, sc: Scope, rest: Text)
    requires Well(t, false, sc) && Spells(s, i, TypedText(t, rest)) && Follows(rest)
    ensures i < |s.toks| && s.Kind(i) == COLON
    ensures var r := ColonTypeAt(s, i, e, sc); r.Ok? && Same(t, r.value) && r.err == e && Spells(s, r.pos, rest)
  {
    hide Spells, Follows, Stops, TypeText, TypeAt, Well, Same;
    TakeMark(s, i, COLON, TypeText(t, 0, true, rest));
    FollowsStops(rest, 0);
    WrittenTypesAreRead(s, i + 1, e, t, false, sc, rest);
  }

  lemma TakeVariable(s: Stream, i: nat, n: string, rest: Text)
    requires Spells(s, i, VariableText(n, rest))
    ensures i < |s.toks| && s.Kind(i) in {AIDENT, KW_AT_RBS} && s.At(i).text == n && Spells(s, i + 1, rest)
  {
    hide Spells;
    TakeEither(s, i, PutBody(Spelled(AIDENT, n), rest), PutBody(Spelled(KW_AT_RBS, n), rest));
    if Spells(s, i, PutBody(Spelled(AIDENT, n), rest)) {
      TakeSpelled(s, i, AIDENT, n, rest);
    } else {
      TakeSpelled(s, i, KW_AT_RBS, n, rest);
    }
  }

  lemma TakeSpelled(s: Stream, i: nat, k: TokenKind, n: string, rest: Text)
    requires Spells(s, i, PutBody(Spelled(k, n), rest))
    ensures i < |s.toks| && s.Kind(i) == k && s.At(i).text == n && Spells(s, i + 1, rest)
  {}

  lemma VariableRead(s: Stream, c: nat, e: Errors, m: Member, vars: set<string>, fwd: bool, rest: Text)
    requires m.InstanceVariable? || m.ClassVariable? || m.ClassInstanceVariable?
    requires WellMember(m, vars, false, fwd) && Spells(s, c, MemberText(m, false, rest)) && Follows(rest)
    ensures s.Kind(c) in {AIDENT, A2IDENT, KW_AT_RBS, KW_SELF}
    ensures ReadMember(VariableMemberAt(s, c, e, vars, []), m, s, e, rest)
  {
    hide Spells, Follows, VariableText, TypedText, ColonTypeAt, Well, Same;
    match m
    case InstanceVariable(n, t) =>
      TakeVariable(s, c, n, TypedText(t, rest));
      TypedRead(s, c + 1, e, t, Scope(vars, true, true), rest);
    case ClassVariable(n, t) =>
      TakeSpelled(s, c, A2IDENT, n, TypedText(t, rest));
      TypedRead(s, c + 1, e, t, Scope({}, false, true), rest);
    case ClassInstanceVariable(n, t) =>
      TakeMark(s, c, KW_SELF, Put(DOT, VariableText(n, TypedText(t, rest))));
      TakeMark(s, c + 1, DOT, VariableText(n, TypedText(t, rest)));
      TakeVariable(s, c + 2, n, TypedText(t, rest));
      TypedRead(s, c + 3, e, t, Scope({}, true, true), rest);
  }

  lemma IvarRead(s: Stream, i: nat, e: Errors, v: Ivar, rest: Text)
    requires Spells(s, i, IvarText(v, Put(COLON, rest)))
    ensures i < |s.toks| && s.Kind(i) in {LPAREN, COLON}
    ensures IvarAt(s, i, e).Ok? && IvarAt(s, i, e).value == v && IvarAt(s, i, e).err == e
    ensures Spells(s, IvarAt(s, i, e).pos, Put(COLON, rest))
  {
    hide Spells, VariableText;
    match v
    case Inferred => TakeMark(s, i, COLON, rest);
    case NoIvar =>
      TakeMark(s, i, LPAREN, Put(RPAREN, Put(COLON, rest)));
      TakeMark(s, i + 1, RPAREN, Put(COLON, rest));
    case Ivar(n) =>
      TakeMark(s, i, LPAREN, VariableText(n, Put(RPAREN, Put(COLON, rest))));
      TakeVariable(s, i + 1, n, Put(RPAREN, Put(COLON, rest)));
      TakeMark(s, i + 2, RPAREN, Put(COLON, rest));
  }

  lemma AttributeRead(s: Stream, c: nat, e: Errors, m: Member, vars: set<string>, fwd: bool, rest: Text)
    requires m.Attribute? && WellMember(m, vars, false, fwd)
    requires Spells(s, c, MemberText(m, false, rest)) && Follows(rest)
    ensures ReadMember(AttributeMemberAt(s, c, e, vars, m.annotations), m, s, e, rest)
  {
    hide Spells, Follows, TypeText, VisibilityText, KindText, MethodNameText, IvarText, MethodNameAt, KindAt, IvarAt,
      ColonTypeAt, Well, Same, VisibilityOf, OneLine;
    var typed := TypedText(m.ty, rest);
    var ivar := IvarText(m.ivar, typed);
    VisibilityRead(s, c, m.visibility, AttrKeyword(m.attrKind), KindText(m.kind, MethodNameText(m.attribute, true, ivar)));
    var i := c + VisibilityWidth(m.visibility) + 1;
    forall j: nat | Spells(s, j, ivar) ensures s.Kind(j) != QUESTION && s.Kind(j) != DOT {
      IvarRead(s, j, e, m.ivar, TypeText(m.ty, 0, true, rest));
    }
    KindAndNameRead(s, i, e, m.kind, false, m.attribute, ivar);
    var n := MethodNameAt(s, i + KindWidth(m.kind), e);
    IvarRead(s, n.pos, e, m.ivar, TypeText(m.ty, 0, true, rest));
    TypedRead(s, IvarAt(s, n.pos, e).pos, e, m.ty, Scope(if m.kind == SingletonKind then {} else vars, true, true), rest);
  }

  lemma VisibilityMemberRead(s: Stream, c: nat, e: Errors, m: Member, rest: Text)
    requires m.VisibilityMember? && Spells(s, c, MemberText(m, false, rest))
    ensures c < |s.toks| && s.Kind(c) in {KW_PUBLIC, KW_PRIVATE} && !OneLine(s, c)
    ensures ReadMember(VisibilityMemberAt(s, c, e, []), m, s, e, rest)
  {}

  // ---- lists of members ------------------------------------------------------------------------------

  // A member begins with a token that neither ends a list of members nor annotates, and follows what is before it.
  lemma MemberHead(s: Stream, i: nat, m: Member, vars: set<string>, inInterface: bool, fwd: bool, rest: Text)
    requires WellMember(m, vars, inInterface, fwd)
    ensures Follows(MemberText(m, inInterface, rest))
    ensures Spells(s, i, MemberText(m, inInterface, rest)) ==> i < |s.toks| && s.Kind(i) !in {KW_END, EOF, ANNOTATION}
  {
    hide TypeText, MembersText, OverloadsText, MethodNameText, KindText, WellOverloads, WellMixin, Well;
    if m.Nested? {
      DeclHead(s, i, m.decl, {}, fwd, rest);
    } else if m.InstanceVariable? && Spells(s, i, VariableText(m.variable, TypedText(m.ty, rest))) {
      TakeVariable(s, i, m.variable, TypedText(m.ty, rest));
    }
  }

  lemma DeclHead(s: Stream, i: nat, d: Decl, vars: set<string>, fwd: bool, rest: Text)
    requires WellDecl(d, vars, fwd)
    ensures Follows(DeclText(d, rest))
    ensures Spells(s, i, DeclText(d, rest)) ==>
              i < |s.toks| && s.Kind(i) in {UIDENT, COLON2, GIDENT, KW_TYPE, KW_INTERFACE, KW_MODULE, KW_CLASS}
  {
    hide TypeText, MembersText, TypeParamsText, NameText, WellMember, WellOwnParams, WellMixin, Well;
  }

  lemma NotesFollow(notes: seq<string>, rest: Text)
    requires Follows(rest)
    ensures Follows(NotesText(notes, 0, rest))
  {}

  lemma MembersFollow(ms: seq<Member>, n: nat, vars: set<string>, inInterface: bool, fwd: bool, rest: Text)
    requires WellMembers(ms, vars, inInterface, fwd) && Follows(rest)
    ensures Follows(MembersText(ms, n, inInterface, rest))
  {
    hide MemberText, WellMember, Follows, NotesText;
    if n < |ms| {
      MemberHead(Stream([], NULL_TOKEN), 0, ms[n], vars, inInterface, fwd, MembersText(ms, n + 1, inInterface, rest));
      NotesFollow(NotesOf(ms[n]), MemberText(ms[n], inInterface, MembersText(ms, n + 1, inInterface, rest)));
    }
  }

  // The annotations of a member, after which the member is next.
  lemma MemberNotesRead(s: Stream, i: nat, e: Errors, m: Member, vars: set<string>, inInterface: bool, fwd: bool, rest: Text)
    requires WellMember(m, vars, inInterface, fwd)
    requires Spells(s, i, NotesText(NotesOf(m), 0, MemberText(m, inInterface, rest)))
    ensures i < |s.toks| && s.Kind(i) != KW_END
    ensures var r := AnnotationsAt(s, i, e);
            && r.Ok? && r.value == NotesOf(m) && r.err == e && r.pos < |s.toks| && s.Kind(r.pos) != EOF
            && Spells(s, r.pos, MemberText(m, inInterface, rest))
  {
    hide Spells, MemberText, WellMember, NotesText, AnnotationsAt;
    var written := MemberText(m, inInterface, rest);
    forall j: nat | Spells(s, j, written) ensures j <= |s.toks| && s.Kind(j) !in {KW_END, ANNOTATION} {
      MemberHead(s, j, m, vars, inInterface, fwd, rest);
    }
    NotesRead(s, i, e, NotesOf(m), 0, written);
    NotesHead(s, i, NotesOf(m), written);
    MemberHead(s, AnnotationsAt(s, i, e).pos, m, vars, inInterface, fwd, rest);
    assert NotesOf(m)[0..] == NotesOf(m);
  }

  lemma NotesHead(s: Stream, i: nat, notes: seq<string>, rest: Text)
    requires Spells(s, i, NotesText(notes, 0, rest))
    requires forall j: nat :: Spells(s, j, rest) ==> j <= |s.toks| && s.Kind(j) !in {KW_END, ANNOTATION}
    ensures s.Kind(i) != KW_END
  {
    hide Spells;
    if notes != [] {
      TakeNote(s, i, notes[0], NotesText(notes, 1, rest));
    }
  }

  lemma MembersGrow(ms: seq<Member>, n: nat, acc: seq<Member>, m: Member)
    requires n < |ms| && SameMembers(ms[..n], acc) && SameMember(ms[n], m)
    ensures SameMembers(ms[..n + 1], acc + [m]) && (n + 1 == |ms| ==> SameMembers(ms, acc + [m]))
  {
    hide SameMember;
    assert ms[..n + 1] == ms[..n] + [ms[n]];
    if n + 1 == |ms| {
      assert ms[..n + 1] == ms;
    }
  }

  ghost predicate ReadMembers(r: Outcome<seq<Member>>, ms: seq<Member>, s: Stream, e: Errors, rest: Text) {
    r.Ok? && SameMembers(ms, r.value) && r.err == e && Spells(s, r.pos, Put(KW_END, rest))
  }

  lemma InterfaceMemberRead(s: Stream, c: nat, e: Errors, m: Member, vars: set<string>, fwd: bool, rest: Text)
    requires WellMember(m, vars, true, fwd) && Spells(s, c, MemberText(m, true, rest)) && Follows(rest)
    ensures ReadMember(InterfaceMemberAt(s, c, e, vars, fwd, NotesOf(m)), m, s, e, rest)
  {
    hide Spells, Follows, SameMember, MethodDefAt, MixinMemberAt, AliasMemberAt, OverloadsText, MethodNameText, MixinText,
      WellOverloads, WellMixin;
    match m
    case MethodDef(_, _, _, n, _, _) =>
      MethodDefRead(s, c, e, m, vars, true, fwd, rest);
      TakeMark(s, c, KW_DEF, MethodNameText(n, true, Put(COLON, OverloadsText(m.overloads, 0, m.overloading, rest))));
    case MixinMember(_, k, x) =>
      MixinMemberRead(s, c, e, m, vars, true, fwd, rest);
      TakeMark(s, c, KW_INCLUDE, MixinText(x, rest));
    case AliasMember(_, n, was, _) =>
      AliasMemberRead(s, c, e, m, vars, true, fwd, rest);
      TakeMark(s, c, KW_ALIAS, MethodNameText(n, true, MethodNameText(was, true, rest)));
    case _ => assert false;
  }

  lemma {:induction false} InterfaceMembersRead(s: Stream, i: nat, e: Errors, ms: seq<Member>, n: nat, acc: seq<Member>,
                                                vars: set<string>, fwd: bool, rest: Text)
    requires n <= |ms| && WellMembers(ms, vars, true, fwd) && SameMembers(ms[..n], acc)
    requires Spells(s, i, MembersText(ms, n, true, Put(KW_END, rest)))
    ensures i <= |s.toks|
    ensures ReadMembers(InterfaceMembersAt(s, i, e, vars, fwd, acc), ms, s, e, rest)
    decreases |ms| - n
  {
    hide Spells, Follows, MemberText, NotesText, WellMember, SameMember, SameMembers, InterfaceMemberAt, AnnotationsAt;
    if n < |ms| {
      var more := MembersText(ms, n + 1, true, Put(KW_END, rest));
      EndFollows(rest);
      MembersFollow(ms, n + 1, vars, true, fwd, Put(KW_END, rest));
      MemberNotesRead(s, i, e, ms[n], vars, true, fwd, more);
      var a := AnnotationsAt(s, i, e);
      InterfaceMemberRead(s, a.pos, e, ms[n], vars, fwd, more);
      var m := InterfaceMemberAt(s, a.pos, e, vars, fwd, a.value);
      MembersGrow(ms, n, acc, m.value);
      InterfaceMembersRead(s, m.pos, e, ms, n + 1, acc + [m.value], vars, fwd, rest);
    } else {
      TakeMark(s, i, KW_END, rest);
      assert ms[..n] == ms;
    }
  }

  lemma EndFollows(rest: Text)
    ensures Follows(Put(KW_END, rest))
  {}

  // ---- declarations ----------------------------------------------------------------------------------

  ghost predicate ReadDecl(r: Outcome<Decl>, d: Decl, s: Stream, e: Errors, rest: Text) {
    r.Ok? && SameDecl(d, r.value) && r.err == e && Spells(s, r.pos, rest)
  }

  lemma ConstantRead(s: Stream, c: nat, e: Errors, n: TypeName, rest: Text)
    requires n.kind == ClassName && EndsName(rest) && Spells(s, c, ConstantText(n, rest))
    ensures s.Kind(c) in {UIDENT, COLON2}
    ensures var r := TypeNameAt(s, c, e, {ClassName}); r.Ok? && r.value == n && r.err == e && Spells(s, r.pos, rest)
  {
    hide Spells, EndsName, KindOfName, PathEnd, PathNames;
    if n.absolute {
      TakePlaced(s, c, COLON2, Parted, PathText(n, 0, true, rest));
      PathRead(s, c + 1, n, 0, true, rest);
    } else {
      PathRead(s, c, n, 0, false, rest);
      if n.path != [] {
        TakeName(s, c, ClassName, n.path[0], false, PutGlued(COLON2, PathText(n, 1, true, rest)));
      } else {
        TakeName(s, c, ClassName, n.name, false, rest);
      }
    }
  }

  lemma TakePlaced(s: Stream, i: nat, k: TokenKind, place: Place, rest: Text)
    requires Spells(s, i, PutBody(Placed(k, place), rest))
    ensures i < |s.toks| && s.Kind(i) == k && StandsAt(s, i, place) && Spells(s, i + 1, rest)
  {}

  lemma ValueDeclRead(s: Stream, c: nat, e: Errors, d: Decl, vars: set<string>, fwd: bool, rest: Text)
    requires (d.Constant? || d.Global?) && WellDecl(d, vars, fwd) && Spells(s, c, DeclText(d, rest)) && Follows(rest)
    ensures s.Kind(c) in {UIDENT, COLON2, GIDENT} && ReadDecl(ValueDeclAt(s, c, e, vars, d.annotations), d, s, e, rest)
  {
    hide Spells, Follows, EndsName, TypeText, ConstantText, ColonTypeAt, TypeNameAt, Well, Same;
    if d.Constant? {
      var typed := TypedText(d.ty, rest);
      ColonEndsName(TypeText(d.ty, 0, true, rest));
      ConstantRead(s, c, e, d.name, typed);
      TypedRead(s, TypeNameAt(s, c, e, {ClassName}).pos, e, d.ty, Scope(vars, false, false), rest);
    } else {
      TakeSpelled(s, c, GIDENT, d.globalName, TypedText(d.ty, rest));
      TypedRead(s, c + 1, e, d.ty, Scope(vars, false, false), rest);
    }
  }

  lemma ColonEndsName(rest: Text)
    ensures EndsName(Put(COLON, rest))
  {}

  // What can come after the parameters of a declaration.
  predicate AfterParams(k: Text) {
    Follows(k) || (k.More? && k.head.body.Mark? && k.head.body.kind in {EQ, COLON, LT})
  }

  lemma AfterParamsKind(s: Stream, i: nat, k: Text)
    requires Spells(s, i, k) && AfterParams(k)
    ensures i <= |s.toks| && s.Kind(i) != LBRACKET
  {
    hide Follows;
    if Follows(k) {
      FollowsKind(s, i, k);
    }
  }

  // The name of a declaration and its own parameters.
  lemma HeaderRead(s: Stream, c: nat, e: Errors, n: TypeName, ps: seq<TypeParam>, rest: Text)
    requires WellOwnParams(ps) && AfterParams(rest) && Spells(s, c, NameText(n, TypeParamsText(ps, true, rest)))
    ensures var r := TypeNameAt(s, c, e, {n.kind});
            && r.Ok? && r.value == n && r.err == e && Spells(s, r.pos, TypeParamsText(ps, true, rest))
            && var q := OwnParamsAt(s, r.pos, e);
               q.Ok? && SameTypeParams(ps, q.value) && NamesOf(q.value) == NamesOf(ps) && q.err == e && Spells(s, q.pos, rest)
  {
    hide Spells, AfterParams, NameText, TypeParamsText, TypeNameAt, TypeParamsAt, SameTypeParams, NamesOf, EndsName,
      ShapedTypeParams, WellTypeParams, KindOfName;
    ParamsEndName(ps, rest);
    NameRead(s, c, e, n, TypeParamsText(ps, true, rest), {n.kind});
    var i := TypeNameAt(s, c, e, {n.kind}).pos;
    forall j: nat | Spells(s, j, rest) ensures s.Kind(j) != LBRACKET {
      AfterParamsKind(s, j, rest);
    }
    TypeParamsAreRead(s, i, e, ps, {}, true, rest);
    SameNames(ps, TypeParamsAt(s, i, e, {}, true).value);
  }

  lemma ParamsEndName(ps: seq<TypeParam>, rest: Text)
    requires AfterParams(rest)
    ensures EndsName(TypeParamsText(ps, true, rest))
  {
    if Follows(rest) {
      FollowsStops(rest, 0);
    }
  }

  // Where no `=` comes next, a module or class is not an alias.
  lemma NotAlias(s: Stream, i: nat, ps: seq<TypeParam>, rest: Text)
    requires Spells(s, i, TypeParamsText(ps, true, rest)) && AfterParams(rest)
    requires rest.More? ==> rest.head.body != Mark(EQ)
    ensures i <= |s.toks| && s.Kind(i) != EQ
  {
    hide TypeParamListText, Follows;
    if ps == [] && Follows(rest) {
      FollowsKind(s, i, rest);
    }
  }

  lemma TypeDeclRead(s: Stream, c: nat, e: Errors, d: Decl, vars: set<string>, fwd: bool, rest: Text)
    requires d.TypeAlias? && WellDecl(d, vars, fwd) && Spells(s, c, DeclText(d, rest)) && Follows(rest)
    ensures s.Kind(c) == KW_TYPE && ReadDecl(TypeDeclAt(s, c, e, vars, d.annotations), d, s, e, rest)
  {
    hide Spells, Follows, Stops, NameText, TypeParamsText, TypeText, TypeNameAt, OwnParamsAt, TypeAt, Well, Same,
      WellOwnParams, SameTypeParams, NamesOf, KindOfName;
    var after := Put(EQ, TypeText(d.ty, 0, true, rest));
    TakeMark(s, c, KW_TYPE, NameText(d.name, TypeParamsText(d.params, true, after)));
    HeaderRead(s, c + 1, e, d.name, d.params, after);
    var i := OwnParamsAt(s, TypeNameAt(s, c + 1, e, {AliasName}).pos, e).pos;
    TakeMark(s, i, EQ, TypeText(d.ty, 0, true, rest));
    FollowsStops(rest, 0);
    WrittenTypesAreRead(s, i + 1, e, d.ty, false, Scope(NamesOf(d.params), false, false), rest);
  }

  lemma InterfaceDeclRead(s: Stream, c: nat, e: Errors, d: Decl, vars: set<string>, fwd: bool, rest: Text)
    requires d.InterfaceDecl? && WellDecl(d, vars, fwd) && Spells(s, c, DeclText(d, rest))
    ensures s.Kind(c) == KW_INTERFACE && ReadDecl(InterfaceDeclAt(s, c, e, vars, fwd, d.annotations), d, s, e, rest)
  {
    hide Spells, Follows, NameText, TypeParamsText, MembersText, TypeNameAt, OwnParamsAt, InterfaceMembersAt, WellMember,
      WellOwnParams, SameTypeParams, SameMembers, NamesOf, KindOfName;
    var members := MembersText(d.members, 0, true, Put(KW_END, rest));
    TakeMark(s, c, KW_INTERFACE, NameText(d.name, TypeParamsText(d.params, true, members)));
    EndFollows(rest);
    MembersFollow(d.members, 0, NamesOf(d.params), true, fwd, Put(KW_END, rest));
    HeaderRead(s, c + 1, e, d.name, d.params, members);
    var i := OwnParamsAt(s, TypeNameAt(s, c + 1, e, {InterfaceName}).pos, e).pos;
    NoneSameMembers(d.members);
    InterfaceMembersRead(s, i, e, d.members, 0, [], NamesOf(d.params), fwd, rest);
    TakeMark(s, InterfaceMembersAt(s, i, e, NamesOf(d.params), fwd, []).pos, KW_END, rest);
  }

  lemma NoneSameMembers(ms: seq<Member>)
    ensures SameMembers(ms[..0], [])
  {}

  // `module A = B` and `class A = B`.
  lemma AliasDeclRead(s: Stream, c: nat, e: Errors, n: TypeName, was: TypeName, k: TokenKind, rest: Text)
    requires n.kind == ClassName && was.kind == ClassName && Follows(rest)
    requires Spells(s, c, Put(k, NameText(n, Put(EQ, NameText(was, rest)))))
    ensures c < |s.toks| && s.Kind(c) == k
    ensures var r := TypeNameAt(s, c + 1, e, {ClassName});
            && r.Ok? && r.value == n && r.err == e && s.Kind(r.pos) == EQ
            && var q := TypeNameAt(s, r.pos + 1, e, {ClassName});
               q.Ok? && q.value == was && q.err == e && Spells(s, q.pos, rest)
  {
    hide Spells, Follows, NameText, TypeNameAt, KindOfName;
    TakeMark(s, c, k, NameText(n, Put(EQ, NameText(was, rest))));
    EqEndsName(NameText(was, rest));
    NameRead(s, c + 1, e, n, Put(EQ, NameText(was, rest)), {ClassName});
    var i := TypeNameAt(s, c + 1, e, {ClassName}).pos;
    TakeMark(s, i, EQ, NameText(was, rest));
    FollowsStops(rest, 0);
    NameRead(s, i + 1, e, was, rest, {ClassName});
  }

  lemma EqEndsName(rest: Text)
    ensures EndsName(Put(EQ, rest))
  {}

  // ---- superclasses and self types -------------------------------------------------------------------

  ghost predicate ReadMixins(r: Outcome<seq<Mixin>>, xs: seq<Mixin>, s: Stream, e: Errors, rest: Text) {
    r.Ok? && SameMixins(xs, r.value) && r.err == e && Spells(s, r.pos, rest)
  }

  lemma MixinsGrow(xs: seq<Mixin>, n: nat, acc: seq<Mixin>, x: Mixin)
    requires n < |xs| && SameMixins(xs[..n], acc) && SameMixin(xs[n], x)
    ensures SameMixins(xs[..n + 1], acc + [x]) && (n + 1 == |xs| ==> SameMixins(xs, acc + [x]))
  {
    hide SameMixin;
    assert xs[..n + 1] == xs[..n] + [xs[n]];
    if n + 1 == |xs| {
      assert xs[..n + 1] == xs;
    }
  }

  lemma SelfTypesStop(xs: seq<Mixin>, n: nat, rest: Text)
    requires Follows(rest)
    ensures Stops(SelfTypesText(xs, n, rest), 3) && (n == 0 ==> AfterParams(SelfTypesText(xs, n, rest)))
    ensures var k := SelfTypesText(xs, n, rest); k.More? ==> k.head.body != Mark(EQ)
  {
    FollowsStops(rest, 3);
  }

  lemma {:induction false} SelfTypesRead(s: Stream, i: nat, e: Errors, xs: seq<Mixin>, n: nat, acc: seq<Mixin>,
                                         vars: set<string>, rest: Text)
    requires n <= |xs| && WellSelfTypes(xs, vars) && SameMixins(xs[..n], acc) && Follows(rest)
    requires Spells(s, i, SelfTypesText(xs, n, rest))
    ensures i <= |s.toks|
    ensures ReadMixins(SelfTypesAt(s, i, e, vars, acc), xs, s, e, rest)
    decreases |xs| - n
  {
    hide Spells, Follows, Stops, MixinText, MixinAt, WellMixin, SameMixin;
    if n < |xs| {
      var more := SelfTypesText(xs, n + 1, rest);
      TakeMark(s, i, if n == 0 then COLON else COMMA, MixinText(xs[n], more));
      SelfTypesStop(xs, n + 1, rest);
      var sc := Scope(vars, false, false);
      NotAliasKind(xs[n].name.kind);
      MixinRead(s, i + 1, e, xs[n], {ClassName, InterfaceName}, sc, more);
      var x := MixinAt(s, i + 1, e, {ClassName, InterfaceName}, sc);
      MixinsGrow(xs, n, acc, x.value);
      SelfTypesRead(s, x.pos, e, xs, n + 1, acc + [x.value], vars, rest);
    } else {
      FollowsKind(s, i, rest);
      assert xs[..n] == xs;
    }
  }

  lemma NotAliasKind(k: NameKind)
    requires k != AliasName
    ensures k in {ClassName, InterfaceName}
  {}

  lemma SuperRead(s: Stream, i: nat, e: Errors, x: Option<Mixin>, vars: set<string>, rest: Text)
    requires x.Some? ==> x.value.name.kind == ClassName && WellMixin(x.value, Scope(vars, false, false))
    requires Spells(s, i, SuperText(x, rest)) && Follows(rest)
    ensures i <= |s.toks|
    ensures var r := SuperAt(s, i, e, vars);
            && r.Ok? && r.value.Some? == x.Some? && (x.Some? ==> SameMixin(x.value, r.value.value))
            && r.err == e && Spells(s, r.pos, rest)
  {
    hide Spells, Follows, Stops, MixinText, MixinAt, WellMixin, SameMixin;
    if x.Some? {
      TakeMark(s, i, LT, MixinText(x.value, rest));
      FollowsStops(rest, 3);
      MixinRead(s, i + 1, e, x.value, {ClassName}, Scope(vars, false, false), rest);
    } else {
      FollowsKind(s, i, rest);
    }
  }

  // ---- modules and classes ---------------------------------------------------------------------------

  lemma {:induction false} MembersRead(s: Stream, i: nat, e: Errors, ms: seq<Member>, n: nat, acc: seq<Member>,
                                       vars: set<string>, fwd: bool, rest: Text)
    requires n <= |ms| && WellMembers(ms, vars, false, fwd) && SameMembers(ms[..n], acc)
    requires Spells(s, i, MembersText(ms, n, false, Put(KW_END, rest)))
    ensures i <= |s.toks|
    ensures ReadMembers(MembersAt(s, i, e, vars, fwd, acc), ms, s, e, rest)
    decreases ms, |ms| - n
  {
    hide Spells, Follows, MemberText, NotesText, WellMember, SameMember, SameMembers, MemberAt, AnnotationsAt;
    if n < |ms| {
      var more := MembersText(ms, n + 1, false, Put(KW_END, rest));
      EndFollows(rest);
      MembersFollow(ms, n + 1, vars, false, fwd, Put(KW_END, rest));
      MemberNotesRead(s, i, e, ms[n], vars, false, fwd, more);
      var a := AnnotationsAt(s, i, e);
      MemberRead(s, a.pos, e, ms[n], vars, fwd, more);
      var m := MemberAt(s, a.pos, e, vars, fwd, a.value);
      MembersGrow(ms, n, acc, m.value);
      MembersRead(s, m.pos, e, ms, n + 1, acc + [m.value], vars, fwd, rest);
    } else {
      TakeMark(s, i, KW_END, rest);
      assert ms[..n] == ms;
    }
  }

  lemma {:induction false} MemberRead(s: Stream, c: nat, e: Errors, m: Member, vars: set<string>, fwd: bool, rest: Text)
    requires WellMember(m, vars, false, fwd) && Spells(s, c, MemberText(m, false, rest)) && Follows(rest)
    ensures c < |s.toks| && ReadMember(MemberAt(s, c, e, vars, fwd, NotesOf(m)), m, s, e, rest)
    decreases m
  {
    hide Spells, Follows, SameMember, MethodDefAt, MixinMemberAt, AliasMemberAt, VariableMemberAt, AttributeMemberAt,
      VisibilityMemberAt, DeclHereAt, DeclText, WellOverloads, WellMixin, WellDecl, Well, OneLine, MemberText, SameDecl;
    match m
    case MethodDef(_, _, _, _, _, _) =>
      MethodDefRead(s, c, e, m, vars, false, fwd, rest);
      MethodDefStart(s, c, m, rest);
    case MixinMember(_, _, _) =>
      MixinMemberRead(s, c, e, m, vars, false, fwd, rest);
      MixinStart(s, c, m, rest);
    case AliasMember(_, _, _, _) =>
      AliasMemberRead(s, c, e, m, vars, false, fwd, rest);
      AliasStart(s, c, m, rest);
    case Attribute(_, _, _, _, _, _, _) =>
      AttributeRead(s, c, e, m, vars, fwd, rest);
      AttributeStart(s, c, m, rest);
    case VisibilityMember(_) => VisibilityMemberRead(s, c, e, m, rest);
    case Nested(d) =>
      NestedText(m, d, rest);
      DeclHead(s, c, d, {}, fwd, rest);
      DeclRead(s, c, e, d, {}, fwd, rest);
    case _ => VariableRead(s, c, e, m, vars, fwd, rest);
  }

  lemma NestedText(m: Member, d: Decl, rest: Text)
    requires m == Nested(d)
    ensures MemberText(m, false, rest) == DeclText(d, rest)
    ensures forall e: Decl :: SameDecl(d, e) ==> SameMember(m, Nested(e))
    ensures forall vars, fwd :: WellMember(m, vars, false, fwd) ==> WellDecl(d, {}, fwd)
  {}

  lemma MethodDefStart(s: Stream, c: nat, m: Member, rest: Text)
    requires m.MethodDef? && Spells(s, c, MemberText(m, false, rest))
    ensures c < |s.toks|
    ensures if m.visibility == Unspecified then s.Kind(c) == KW_DEF
            else s.Kind(c) in {KW_PUBLIC, KW_PRIVATE} && OneLine(s, c) && s.Kind(c + 1) == KW_DEF
  {
    hide Spells, MethodNameText, KindText, OneLine;
    VisibilityRead(s, c, m.visibility, KW_DEF,
                   KindText(m.kind, MethodNameText(m.methodName, true, Put(COLON, OverloadsText(m.overloads, 0, m.overloading, rest)))));
  }

  lemma AttributeStart(s: Stream, c: nat, m: Member, rest: Text)
    requires m.Attribute? && Spells(s, c, MemberText(m, false, rest))
    ensures c < |s.toks|
    ensures if m.visibility == Unspecified then s.Kind(c) == AttrKeyword(m.attrKind)
            else s.Kind(c) in {KW_PUBLIC, KW_PRIVATE} && OneLine(s, c) && s.Kind(c + 1) == AttrKeyword(m.attrKind)
  {
    hide Spells, MethodNameText, KindText, OneLine;
    VisibilityRead(s, c, m.visibility, AttrKeyword(m.attrKind),
                   KindText(m.kind, MethodNameText(m.attribute, true, IvarText(m.ivar, TypedText(m.ty, rest)))));
  }

  lemma MixinStart(s: Stream, c: nat, m: Member, rest: Text)
    requires m.MixinMember? && Spells(s, c, MemberText(m, false, rest))
    ensures c < |s.toks| && s.Kind(c) == MixinKeyword(m.mixinKind)
  {
    hide MixinText;
  }

  lemma AliasStart(s: Stream, c: nat, m: Member, rest: Text)
    requires m.AliasMember? && Spells(s, c, MemberText(m, false, rest))
    ensures c < |s.toks| && s.Kind(c) == KW_ALIAS
  {
    hide SelfDotText;
  }

  lemma {:induction false} DeclRead(s: Stream, c: nat, e: Errors, d: Decl, vars: set<string>, fwd: bool, rest: Text)
    requires WellDecl(d, vars, fwd) && Spells(s, c, DeclText(d, rest)) && Follows(rest)
    ensures c < |s.toks| && ReadDecl(DeclHereAt(s, c, e, vars, fwd, d.annotations), d, s, e, rest)
    decreases d
  {
    hide Spells, Follows, SameDecl, ValueDeclAt, TypeDeclAt, InterfaceDeclAt, ModuleDeclAt, ClassDeclAt, WellDecl, DeclText;
    DeclHead(s, c, d, vars, fwd, rest);
    match d
    case Constant(_, _, _) => ValueDeclRead(s, c, e, d, vars, fwd, rest);
    case Global(_, _, _) => ValueDeclRead(s, c, e, d, vars, fwd, rest);
    case TypeAlias(_, _, _, _) => TypeDeclRead(s, c, e, d, vars, fwd, rest);
    case InterfaceDecl(_, _, _, _) => InterfaceDeclRead(s, c, e, d, vars, fwd, rest);
    case ModuleDecl(_, _, _, _, _) => ModuleRead(s, c, e, d, vars, fwd, rest);
    case ClassDecl(_, _, _, _, _) => ClassRead(s, c, e, d, vars, fwd, rest);
    case ModuleAlias(_, _, _) => ModuleAliasRead(s, c, e, d, vars, fwd, rest);
    case ClassAlias(_, _, _) => ClassAliasRead(s, c, e, d, vars, fwd, rest);
  }

  lemma ModuleAliasRead(s: Stream, c: nat, e: Errors, d: Decl, vars: set<string>, fwd: bool, rest: Text)
    requires d.ModuleAlias? && WellDecl(d, vars, fwd) && Spells(s, c, DeclText(d, rest)) && Follows(rest)
    ensures c < |s.toks| && s.Kind(c) == KW_MODULE && ReadDecl(ModuleDeclAt(s, c, e, vars, fwd, d.annotations), d, s, e, rest)
  {
    hide Spells, Follows, NameText, TypeNameAt, ModuleBodyAt, KindOfName;
    AliasDeclRead(s, c, e, d.name, d.oldName, KW_MODULE, rest);
  }

  lemma ClassAliasRead(s: Stream, c: nat, e: Errors, d: Decl, vars: set<string>, fwd: bool, rest: Text)
    requires d.ClassAlias? && WellDecl(d, vars, fwd) && Spells(s, c, DeclText(d, rest)) && Follows(rest)
    ensures c < |s.toks| && s.Kind(c) == KW_CLASS && ReadDecl(ClassDeclAt(s, c, e, vars, fwd, d.annotations), d, s, e, rest)
  {
    hide Spells, Follows, NameText, TypeNameAt, ClassBodyAt, KindOfName;
    AliasDeclRead(s, c, e, d.name, d.oldName, KW_CLASS, rest);
  }

  lemma {:induction false} ModuleRead(s: Stream, c: nat, e: Errors, d: Decl, vars: set<string>, fwd: bool, rest: Text)
    requires d.ModuleDecl? && WellDecl(d, vars, fwd) && Spells(s, c, DeclText(d, rest))
    ensures c < |s.toks| && s.Kind(c) == KW_MODULE && ReadDecl(ModuleDeclAt(s, c, e, vars, fwd, d.annotations), d, s, e, rest)
    decreases d, 0
  {
    hide Spells, Follows, AfterParams, NameText, TypeParamsText, SelfTypesText, MembersText, TypeNameAt, OwnParamsAt,
      SelfTypesAt, MembersAt, WellMember, WellMixin, WellOwnParams, SameTypeParams, SameMixins, SameMembers, NamesOf,
      KindOfName;
    var own := NamesOf(d.params);
    var members := MembersText(d.members, 0, false, Put(KW_END, rest));
    var selfs := SelfTypesText(d.selfTypes, 0, members);
    TakeMark(s, c, KW_MODULE, NameText(d.name, TypeParamsText(d.params, true, selfs)));
    EndFollows(rest);
    MembersFollow(d.members, 0, own, false, fwd, Put(KW_END, rest));
    SelfTypesStop(d.selfTypes, 0, members);
    HeaderRead(s, c + 1, e, d.name, d.params, selfs);
    var n := TypeNameAt(s, c + 1, e, {ClassName});
    NotAlias(s, n.pos, d.params, selfs);
    var ps := OwnParamsAt(s, n.pos, e);
    NoneSameMixins(d.selfTypes);
    SelfTypesRead(s, ps.pos, e, d.selfTypes, 0, [], own, members);
    var xs := SelfTypesAt(s, ps.pos, e, own, []);
    NoneSameMembers(d.members);
    MembersRead(s, xs.pos, e, d.members, 0, [], own, fwd, rest);
    TakeMark(s, MembersAt(s, xs.pos, e, own, fwd, []).pos, KW_END, rest);
  }

  lemma NoneSameMixins(xs: seq<Mixin>)
    ensures SameMixins(xs[..0], [])
  {}

  lemma SuperStop(x: Option<Mixin>, rest: Text)
    requires Follows(rest)
    ensures AfterParams(SuperText(x, rest)) && (SuperText(x, rest).More? ==> SuperText(x, rest).head.body != Mark(EQ))
  {}

  lemma {:induction false} ClassRead(s: Stream, c: nat, e: Errors, d: Decl, vars: set<string>, fwd: bool, rest: Text)
    requires d.ClassDecl? && WellDecl(d, vars, fwd) && Spells(s, c, DeclText(d, rest))
    ensures c < |s.toks| && s.Kind(c) == KW_CLASS && ReadDecl(ClassDeclAt(s, c, e, vars, fwd, d.annotations), d, s, e, rest)
    decreases d, 0
  {
    hide Spells, Follows, AfterParams, NameText, TypeParamsText, SuperText, MembersText, TypeNameAt, OwnParamsAt, SuperAt,
      MembersAt, WellMember, WellMixin, WellOwnParams, SameTypeParams, SameMixin, SameMembers, NamesOf, KindOfName;
    var own := NamesOf(d.params);
    var members := MembersText(d.members, 0, false, Put(KW_END, rest));
    var super := SuperText(d.super, members);
    TakeMark(s, c, KW_CLASS, NameText(d.name, TypeParamsText(d.params, true, super)));
    EndFollows(rest);
    MembersFollow(d.members, 0, own, false, fwd, Put(KW_END, rest));
    SuperStop(d.super, members);
    HeaderRead(s, c + 1, e, d.name, d.params, super);
    var n := TypeNameAt(s, c + 1, e, {ClassName});
    NotAlias(s, n.pos, d.params, super);
    var ps := OwnParamsAt(s, n.pos, e);
    SuperRead(s, ps.pos, e, d.super, own, members);
    var x := SuperAt(s, ps.pos, e, own);
    NoneSameMembers(d.members);
    MembersRead(s, x.pos, e, d.members, 0, [], own, fwd, rest);
    TakeMark(s, MembersAt(s, x.pos, e, own, fwd, []).pos, KW_END, rest);
  }

  // ---- signatures ------------------------------------------------------------------------------------

  lemma DeclsFollow(ds: seq<Decl>, n: nat, vars: set<string>, fwd: bool, rest: Text)
    requires WellDecls(ds, vars, fwd) && Follows(rest)
    ensures Follows(DeclsText(ds, n, rest))
  {
    hide DeclText, WellDecl, Follows, NotesText;
    if n < |ds| {
      DeclHead(Stream([], NULL_TOKEN), 0, ds[n], vars, fwd, DeclsText(ds, n + 1, rest));
      NotesFollow(ds[n].annotations, DeclText(ds[n], DeclsText(ds, n + 1, rest)));
    }
  }

  // A declaration with its annotations.
  lemma AnnotatedRead(s: Stream, i: nat, e: Errors, d: Decl, vars: set<string>, fwd: bool, rest: Text)
    requires WellDecl(d, vars, fwd) && Follows(rest) && Spells(s, i, NotesText(d.annotations, 0, DeclText(d, rest)))
    ensures i < |s.toks| && s.Kind(i) != EOF && ReadDecl(DeclAt(s, i, e, vars, fwd), d, s, e, rest)
  {
    hide Spells, Follows, DeclText, WellDecl, NotesText, AnnotationsAt, DeclHereAt, SameDecl;
    var written := DeclText(d, rest);
    forall j: nat | Spells(s, j, written) ensures j <= |s.toks| && s.Kind(j) !in {EOF, ANNOTATION} {
      DeclHead(s, j, d, vars, fwd, rest);
    }
    NotesRead(s, i, e, d.annotations, 0, written);
    assert d.annotations[0..] == d.annotations;
    var a := AnnotationsAt(s, i, e);
    DeclHead(s, a.pos, d, vars, fwd, rest);
    NotesStart(s, i, d.annotations, written);
    DeclRead(s, a.pos, e, d, vars, fwd, rest);
  }

  lemma NotesStart(s: Stream, i: nat, notes: seq<string>, rest: Text)
    requires Spells(s, i, NotesText(notes, 0, rest))
    requires forall j: nat :: Spells(s, j, rest) ==> j <= |s.toks| && s.Kind(j) !in {EOF, ANNOTATION}
    ensures s.Kind(i) != EOF
  {
    hide Spells;
    if notes != [] {
      TakeNote(s, i, notes[0], NotesText(notes, 1, rest));
    }
  }

  lemma DeclsGrow(ds: seq<Decl>, n: nat, acc: seq<Decl>, d: Decl)
    requires n < |ds| && SameDecls(ds[..n], acc) && SameDecl(ds[n], d)
    ensures SameDecls(ds[..n + 1], acc + [d]) && (n + 1 == |ds| ==> SameDecls(ds, acc + [d]))
  {
    hide SameDecl;
    assert ds[..n + 1] == ds[..n] + [ds[n]];
    if n + 1 == |ds| {
      assert ds[..n + 1] == ds;
    }
  }

  lemma {:induction false} DeclsRead(s: Stream, i: nat, e: Errors, ds: seq<Decl>, n: nat, acc: seq<Decl>, vars: set<string>,
                                     fwd: bool)
    requires n <= |ds| && WellDecls(ds, vars, fwd) && SameDecls(ds[..n], acc) && Spells(s, i, DeclsText(ds, n, End))
    ensures i <= |s.toks|
    ensures var r := DeclsAt(s, i, e, vars, fwd, acc); r.Ok? && SameDecls(ds, r.value) && r.err == e && r.pos == |s.toks|
    decreases |ds| - n
  {
    hide Follows, DeclText, WellDecl, NotesText, DeclAt, SameDecl, SameDecls;
    if n < |ds| {
      var more := DeclsText(ds, n + 1, End);
      EndIsEnd();
      DeclsFollow(ds, n + 1, vars, fwd, End);
      AnnotatedRead(s, i, e, ds[n], vars, fwd, more);
      var d := DeclAt(s, i, e, vars, fwd);
      DeclsGrow(ds, n, acc, d.value);
      DeclsRead(s, d.pos, e, ds, n + 1, acc + [d.value], vars, fwd);
    } else {
      assert ds[..n] == ds;
    }
  }

  lemma EndIsEnd()
    ensures Follows(End)
  {}

  // Where a list of clauses that is written ends.
  function ClausesEnd(i: nat, cs: seq<UseClause>): nat
    requires cs != []
    decreases |cs|
  {
    if |cs| == 1 then ClauseEnd(i, cs[0]) else ClausesEnd(ClauseEnd(i, cs[0]) + 1, cs[1..])
  }

  lemma {:induction false} ClausesEndIs(s: Stream, i: nat, j: nat, cs: seq<UseClause>)
    requires cs != [] && WritesClauses(s, i, j, cs)
    ensures j == ClausesEnd(i, cs)
    decreases |cs|
  {
    if |cs| > 1 {
      ClausesEndIs(s, ClauseEnd(i, cs[0]) + 1, j, cs[1..]);
    }
  }

  // Directives one after another from token `i` to before token `j`, with nothing that goes on with any of them.
  predicate WritesDirectives(s: Stream, i: nat, j: nat, us: seq<seq<UseClause>>)
    decreases |us|
  {
    if us == [] then i == j && s.Kind(j) != KW_USE
    else
      && s.Kind(i) == KW_USE && us[0] != []
      && var m := ClausesEnd(i + 1, us[0]);
         && WritesClauses(s, i + 1, m, us[0]) && s.Kind(m) != COMMA && Delimits(s.Kind(m), us[0][|us[0]| - 1])
         && WritesDirectives(s, m, j, us[1..])
  }

  // The directives at the head of a signature are accepted exactly if they are written out, and no further one follows.
  lemma {:induction false} DirectivesExactly(s: Stream, i: nat, j: nat, e: Errors, us: seq<seq<UseClause>>)
    requires i <= |s.toks|
    ensures DirectivesAt(s, i, e) == Ok(us, j, e) <==> WritesDirectives(s, i, j, us)
    decreases |us|
  {
    hide ClausesAt, WritesClauses, ClausesEnd, Delimits, Kept;
    var c := ClausesAt(s, i + 1, e);
    if s.Kind(i) == KW_USE && c.Ok? {
      ClausesExactly(s, i + 1, c.pos, e, c.value);
      ClausesEndIs(s, i + 1, c.pos, c.value);
      var r := DirectivesAt(s, c.pos, e);
      if us != [] {
        assert r.Ok? ==> ([c.value] + r.value)[1..] == r.value;
        assert us == [us[0]] + us[1..];
        DirectivesExactly(s, c.pos, j, e, us[1..]);
      }
    }
    if s.Kind(i) == KW_USE && us != [] && us[0] != [] {
      ClausesExactly(s, i + 1, ClausesEnd(i + 1, us[0]), e, us[0]);
    }
  }

  // ---- main results ----------------------------------------------------------------------------------

  // Every well-formed declaration, written in any way the grammar leaves, is read back up to locations, and what
  // follows stays unread.
  lemma WrittenDeclsAreRead(s: Stream, i: nat, e: Errors, d: Decl, vars: set<string>, fwd: bool, rest: Text)
    requires WellDecl(d, vars, fwd) && Follows(rest) && Spells(s, i, NotesText(d.annotations, 0, DeclText(d, rest)))
    ensures i <= |s.toks|
    ensures var r := DeclAt(s, i, e, vars, fwd); r.Ok? && SameDecl(d, r.value) && r.err == e && Spells(s, r.pos, rest)
  {
    hide Spells, Follows, WellDecl, DeclText, NotesText, DeclAt, SameDecl;
    AnnotatedRead(s, i, e, d, vars, fwd, rest);
  }

  // A whole signature: directives and declarations.
  lemma WrittenSignaturesAreRead(s: Stream, i: nat, j: nat, e: Errors, us: seq<seq<UseClause>>, ds: seq<Decl>,
                                 vars: set<string>, fwd: bool)
    requires i <= |s.toks| && WritesDirectives(s, i, j, us)
    requires WellDecls(ds, vars, fwd) && Spells(s, j, DeclsText(ds, 0, End))
    ensures var r := SignatureAt(s, i, e, vars, fwd);
            r.Ok? && r.value.directives == us && SameDecls(ds, r.value.decls) && r.err == e && r.pos == |s.toks|
  {
    hide Spells, WellDecl, DirectivesAt, DeclsAt, WritesDirectives, SameDecl;
    DirectivesExactly(s, i, j, e, us);
    DeclsRead(s, j, e, ds, 0, [], vars, fwd);
  }

  // Whatever has been accepted as a signature is well-formed, so writing it and parsing again gives it back.
  lemma AcceptedSignaturesAreStable(s: Stream, i: nat, e: Errors, s': Stream, i': nat, j': nat, e': Errors,
                                    vars: set<string>, fwd: bool)
    requires i <= |s.toks| && i' <= |s'.toks| && SignatureAt(s, i, e, vars, fwd).Ok?
    requires var x := SignatureAt(s, i, e, vars, fwd).value;
             WritesDirectives(s', i', j', x.directives) && Spells(s', j', DeclsText(x.decls, 0, End))
    ensures var x := SignatureAt(s, i, e, vars, fwd).value;
            var r := SignatureAt(s', i', e', vars, fwd);
            && WellDecls(x.decls, vars, fwd)
            && r.Ok? && r.value.directives == x.directives && SameDecls(x.decls, r.value.decls) && r.err == e'
            && r.pos == |s'.toks|
  {
    hide Spells, WellDecl, DeclsText, WritesDirectives, SignatureAt, SameDecl;
    var x := SignatureAt(s, i, e, vars, fwd).value;
    WrittenSignaturesAreRead(s', i', j', e', x.directives, x.decls, vars, fwd);
  }
}
