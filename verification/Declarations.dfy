/** Declarations (src/parser.c): the routines as they run. They open and close scopes of type variables, and every one of
    them builds what DeclGrammar says, stops where it says and leaves the error it says; when one returns true the tables
    are as they were. */
module Declarations {
  import opened Ast
  import opened DeclGrammar
  import opened Grammar
  import opened MethodTypes
  import opened Parsers
  import opened Scopes
  import opened Tokens
  import opened Uses
  import opened WellFormed

  // The routine did what the grammar says. Where it failed, the scopes it had opened are still open.
  ghost predicate Does<T>(p: Parser, r: Outcome<T>, t: Option<T>, tables: Chain)
    reads p
  {
    && p.Valid()
    && match r {
         case Ok(x, i, e) => t == Some(x) && p.pos == i && p.error == e && p.vars == tables
         case Fail(e) => t == None && p.error == Some(e)
       }
  }

  // The current token has been read from the input.
  ghost predicate Ready(p: Parser)
    reads p
  {
    p.Valid() && 0 < p.pos <= |p.s.toks|
  }

  // What a routine needs to know of where the parser stands.
  lemma Stand(p: Parser)
    requires p.Valid()
    ensures p.pos >= 0 && p.next == p.s.At(p.pos) && p.next.kind == p.s.Kind(p.pos)
    ensures p.next2 == p.s.At(p.pos + 1) && p.next2.kind == p.s.Kind(p.pos + 1)
    ensures p.next3.kind == p.s.Kind(p.pos + 2)
    ensures p.pos > 0 ==> p.current == p.s.At(p.pos - 1) && p.current.kind == p.s.Kind(p.pos - 1)
    ensures p.pos <= |p.s.toks| || p.s.Kind(p.pos) == EOF
    ensures p.s.Kind(p.pos) != EOF ==> p.pos < |p.s.toks|
    ensures p.pos > 0 && p.current.kind != EOF ==> p.pos <= |p.s.toks|
  {
    hide Parser.Valid;
    p.Look();
    p.Progress(p.pos);
    KnownKinds(p);
  }

  lemma KnownKinds(p: Parser)
    requires p.Valid()
    ensures p.s.Kind(p.pos) != EOF ==> p.pos < |p.s.toks|
    ensures p.pos > 0 && p.s.Kind(p.pos - 1) != EOF ==> p.pos <= |p.s.toks|
  {}

  // rbs_parser_advance as the declarations see it.
  method Advance(p: Parser)
    requires p.Valid()
    modifies p
    ensures p.Valid() && p.pos == old(p.pos) + 1 && p.vars == old(p.vars) && p.error == old(p.error)
    ensures p.current == old(p.next) && p.next == old(p.next2) && p.next2 == old(p.next3)
    ensures p.current.kind != EOF ==> Ready(p) && p.s.Left(p.pos) < p.s.Left(old(p.pos))
  {
    hide Parser.Running, ValidChain;
    p.Look();
    p.Advance();
    p.Look();
    p.Progress(old(p.pos));
  }

  // A scope opens: rbs_parser_push_typevar_table.
  method OpenScope(p: Parser, reset: bool)
    requires p.Valid()
    modifies p`vars
    ensures p.Valid() && p.vars != [] && ValidChain(old(p.vars)) && p.vars == Push(old(p.vars), reset)
    ensures Pop(p.vars) == old(p.vars) && Visible(p.vars) == if reset then {} else Visible(old(p.vars))
  {
    hide Parser.Running, Push, Pop, Visible;
    PushThenPop(p.vars, reset);
    p.PushTypevarTable(reset);
  }

  // A scope closes: parser_pop_typevar_table, which cannot fail here.
  method CloseScope(p: Parser, ghost outer: Chain)
    requires p.Valid() && p.vars != [] && Pop(p.vars) == outer && ValidChain(outer)
    modifies p`vars, p`error
    ensures p.Valid() && p.vars == outer && p.error == old(p.error)
  {
    hide Parser.Running, Pop;
    var ok := p.PopTypevarTable();
  }

  lemma LeftFalls(p: Parser, i: nat)
    requires p.Valid() && i <= p.pos
    ensures p.s.Left(p.pos) <= p.s.Left(i) && (i < p.pos && i < |p.s.toks| ==> p.s.Left(p.pos) < p.s.Left(i))
  {
    hide Parser.Valid;
    p.Progress(i);
  }

  // rbs_parse_type in the scope the parser is in.
  method TypeOf(p: Parser, v: bool, selfOk: bool, classOk: bool) returns (t: Option<Type>)
    requires p.Valid()
    modifies p
    ensures Does(p, TypeAt(p.s, old(p.pos), old(p.error), v, Scope(Visible(old(p.vars)), selfOk, classOk)), t, old(p.vars))
  {
    hide Parser.Valid, TypeAt;
    t := p.ParseType(v, selfOk, classOk);
  }

  // parse_type_params in a scope just opened on the chain `outer`.
  method OwnParamsOf(p: Parser, ghost outer: Chain) returns (ps: Option<seq<TypeParam>>)
    requires Ready(p) && ValidChain(outer) && p.vars == Push(outer, true)
    modifies p
    ensures Does(p, OwnParamsAt(p.s, old(p.pos), old(p.error)), ps, p.vars)
    ensures ps.Some? ==> p.vars != [] && Pop(p.vars) == outer && Visible(p.vars) == NamesOf(ps.value)
  {
    assert p.vars != [];
    hide Parser.Running, Push, Visible, WellOwnParams, NamesOf, TypeParamsAt, Enters, Pop;
    PushThenPop(outer, true);
    ps := p.ParseTypeParams(true);
    if ps.Some? {
      ScopeCloses(outer, true, p.vars, NamesOf(ps.value));
    }
  }

  // ---- members ---------------------------------------------------------------------------------------

  // Annotations that were read before those at the position.
  lemma AnnotationStep(p: Parser, notes: seq<string>)
    requires p.Valid() && p.pos <= |p.s.toks|
    ensures var r := AnnotationsAt(p.s, p.pos, p.error);
            if p.s.Kind(p.pos) != ANNOTATION then Prefixed(notes, r) == Ok(notes, p.pos, p.error)
            else
              var a := AnnotationOf(p.s.At(p.pos));
              && p.pos < |p.s.toks|
              && (if a.None? then Prefixed(notes, r) == Fail(FirstError(p.error, p.s.At(p.pos), false))
                  else Prefixed(notes, r) == Prefixed(notes + [a.value], AnnotationsAt(p.s, p.pos + 1, p.error)))
  {
    hide Parser.Valid;
    Stand(p);
    if p.s.Kind(p.pos) != ANNOTATION {
      assert notes + [] == notes;
    } else if AnnotationOf(p.s.At(p.pos)).Some? {
      PrefixedMore(notes, AnnotationOf(p.s.At(p.pos)).value, AnnotationsAt(p.s, p.pos + 1, p.error));
    }
  }

  // parse_annotations.
  method ParseAnnotations(p: Parser) returns (notes: Option<seq<string>>)
    requires p.Valid() && p.pos <= |p.s.toks|
    modifies p
    ensures Does(p, AnnotationsAt(p.s, old(p.pos), old(p.error)), notes, old(p.vars))
  {
    hide Parser.Valid, Stream.At, Stream.Kind, Stream.Left, AnnotationsAt, Prefixed, AnnotationOf, FirstError;
    Stand(p);
    ghost var whole := AnnotationsAt(p.s, p.pos, p.error);
    PrefixedNothing(whole);
    var read: seq<string> := [];
    AnnotationStep(p, read);
    while p.next.kind == ANNOTATION
      invariant p.Valid() && 0 <= p.pos <= |p.s.toks| && p.vars == old(p.vars) && p.error == old(p.error)
      invariant p.next.kind == p.s.Kind(p.pos)
      invariant whole == Prefixed(read, AnnotationsAt(p.s, p.pos, p.error))
      decreases p.s.Left(p.pos)
    {
      AnnotationStep(p, read);
      Stand(p);
      Advance(p);
      var a := AnnotationOf(p.current);
      if a.None? {
        p.SetError(p.current, false);
        return None;
      }
      read := read + [a.value];
      Stand(p);
    }
    AnnotationStep(p, read);
    notes := Some(read);
  }

  // parse_method_name.
  method ParseMethodName(p: Parser) returns (name: Option<string>)
    requires p.Valid()
    modifies p
    ensures Does(p, MethodNameAt(p.s, old(p.pos), old(p.error)), name, old(p.vars))
  {
    hide Parser.Valid, IsReservedWord, IsWord, IsOperator, Stream.At, Stream.Kind;
    Stand(p);
    Advance(p);
    Stand(p);
    var t := p.current;
    var k := t.kind;
    if IsWord(k) {
      if p.next.kind == QUESTION && t.end.bytePos == p.next.start.bytePos {
        Advance(p);
        return Some(t.text + "?");
      }
      return Some(t.text);
    } else if k == QIDENT {
      return Some(t.unquoted);
    } else if k == BANG_IDENT || k == EQ_IDENT || IsOperator(k) {
      return Some(t.text);
    }
    p.SetError(t, true);
    name := None;
  }

  // parse_instance_singleton_kind.
  method ParseInstanceSingletonKind(p: Parser, allowSelfq: bool) returns (kind: MemberKind)
    requires p.Valid()
    modifies p
    ensures p.Valid() && p.vars == old(p.vars) && p.error == old(p.error)
    ensures kind == KindAt(p.s, old(p.pos), allowSelfq) && p.pos == old(p.pos) + KindWidth(kind)
  {
    hide Parser.Valid, Stream.At, Stream.Kind;
    Stand(p);
    kind := InstanceKind;
    if p.next.kind == KW_SELF {
      if p.next2.kind == DOT {
        Advance(p);
        Advance(p);
        kind := SingletonKind;
      } else if p.next2.kind == QUESTION && p.next.end.charPos == p.next2.start.charPos && p.next3.kind == DOT
        && allowSelfq {
        Advance(p);
        Advance(p);
        Advance(p);
        kind := InstanceSingletonKind;
      }
    }
  }

  // The name in a method definition and its colon.
  method ParseDefName(p: Parser) returns (name: Option<string>)
    requires p.Valid()
    modifies p
    ensures Does(p, DefNameAt(p.s, old(p.pos), old(p.error)), name, old(p.vars))
  {
    hide Parser.Valid, MethodNameAt, Stream.At, Stream.Kind, FirstError;
    name := ParseMethodName(p);
    if name.None? {
      return;
    }
    Stand(p);
    if p.next.kind == DOT && name.value == "self?" {
      p.SetError(p.next, true);
      return None;
    }
    var ok := p.AdvanceAssert(COLON);
    name := if ok then name else None;
  }

  // parse_member_def.
  method ParseMemberDef(p: Parser, instanceOnly: bool, notes: seq<string>) returns (m: Option<Member>)
    requires Ready(p)
    requires instanceOnly ==> VisibilityOf(p.current.kind) == Unspecified
    modifies p
    ensures VisibilityOf(p.s.Kind(old(p.pos) - 1)) == Unspecified || !instanceOnly
    ensures Does(p, MethodDefAt(p.s, old(p.pos) - 1, old(p.error), Visible(old(p.vars)), instanceOnly, p.forwardingEnabled,
                                notes), m, old(p.vars))
  {
    hide Parser.Valid, WellMember, WellOverloads, Visible, Push, Pop, ValidChain, DefNameAt, OverloadsAt, KindAt, Kept,
      Stream.At, Stream.Kind;
    m := None;
    Stand(p);
    var visibility := VisibilityOf(p.current.kind);
    if visibility != Unspecified {
      Advance(p);
    }
    var kind := InstanceKind;
    if !instanceOnly {
      kind := ParseInstanceSingletonKind(p, visibility == Unspecified);
    }
    Stand(p);
    var name := ParseDefName(p);
    if name.None? {
      return;
    }
    var os := ParseScopedOverloads(p, kind != InstanceKind, !instanceOnly);
    if os.Some? {
      m := Some(MethodDef(notes, visibility, kind, name.value, os.value.0, os.value.1));
    }
  }

  // The overloads of a method, in a scope that hides the class's parameters from singleton methods.
  method ParseScopedOverloads(p: Parser, reset: bool, classOk: bool) returns (os: Option<(seq<Overload>, bool)>)
    requires Ready(p)
    modifies p
    ensures Does(p, OverloadsAt(p.s, old(p.pos), old(p.error), if reset then {} else Visible(old(p.vars)), classOk,
                                p.forwardingEnabled, []), os, old(p.vars))
  {
    hide Parser.Valid, WellOverloads, OverloadsAt, Kept, Visible, Push, Pop, ValidChain;
    ghost var outer := p.vars;
    OpenScope(p, reset);
    os := ParseOverloads(p, classOk);
    if os.Some? {
      CloseScope(p, outer);
    }
  }

  // rbs_parse_method_type as a member definition calls it.
  method MethodTypeOf(p: Parser, classOk: bool) returns (m: Option<MethodType>)
    requires p.Valid() && p.pos <= |p.s.toks|
    modifies p
    ensures Does(p, OverloadAt(p.s, old(p.pos), old(p.error), Visible(old(p.vars)), classOk, p.forwardingEnabled), m,
                 old(p.vars))
  {
    hide Parser.Valid, WellOverload, MethodTypeAt, Visible;
    m := p.ParseMethodType(false, classOk);
  }

  // One round of the loop over method types.
  lemma OverloadStep(s: Stream, i: nat, e: Errors, vars: set<string>, classOk: bool, fwd: bool, acc: seq<Overload>)
    requires i <= |s.toks|
    ensures var a := AnnotationsAt(s, i, e);
            OverloadsAt(s, i, e, vars, classOk, fwd, acc)
            == if a.Fail? then Fail(a.error)
               else if s.Kind(a.pos) in {LPAREN, ARROW, LBRACE, LBRACKET, QUESTION} then
                 var m := OverloadAt(s, a.pos, a.err, vars, classOk, fwd);
                 if m.Fail? then Fail(m.error)
                 else
                   var more := acc + [Overload(a.value, m.value)];
                   if s.Kind(m.pos) == BAR then OverloadsAt(s, m.pos + 1, m.err, vars, classOk, fwd, more)
                   else Ok((more, false), m.pos, m.err)
               else if s.Kind(a.pos) == DOT3 then
                 Ok((acc, true), if s.Kind(a.pos + 1) == BAR then a.pos + 2 else a.pos + 1, a.err)
               else Refuse(a.err, s.At(a.pos))
  {
    hide WellOverloads, WellOverload, AnnotationsAt, OverloadAt, Stream.At, Kept;
  }

  // The loop of parse_member_def over method types.
  method ParseOverloads(p: Parser, classOk: bool) returns (os: Option<(seq<Overload>, bool)>)
    requires Ready(p)
    modifies p
    ensures Does(p, OverloadsAt(p.s, old(p.pos), old(p.error), Visible(old(p.vars)), classOk, p.forwardingEnabled, []), os,
                 old(p.vars))
  {
    hide Parser.Valid, WellOverloads, WellOverload, Visible, AnnotationsAt, OverloadAt, OverloadsAt, Kept, FirstError,
      Stream.At, Stream.Kind, Stream.Left;
    ghost var vars, fwd := Visible(p.vars), p.forwardingEnabled;
    ghost var whole := OverloadsAt(p.s, p.pos, p.error, vars, classOk, fwd, []);
    os := None;
    var overloads: seq<Overload>, overloading, going := [], false, true;
    while going
      invariant p.Valid() && 0 <= p.pos <= |p.s.toks| && p.vars == old(p.vars)
      invariant going ==> !overloading
      invariant whole == if going then OverloadsAt(p.s, p.pos, p.error, vars, classOk, fwd, overloads)
                         else Ok((overloads, overloading), p.pos, p.error)
      decreases going, p.s.Left(p.pos)
    {
      ghost var start := p.pos;
      OverloadStep(p.s, p.pos, p.error, vars, classOk, fwd, overloads);
      var notes := ParseAnnotations(p);
      if notes.None? {
        return;
      }
      Stand(p);
      var k := p.next.kind;
      if k == LPAREN || k == ARROW || k == LBRACE || k == LBRACKET || k == QUESTION {
        var m := MethodTypeOf(p, classOk);
        if m.None? {
          return;
        }
        overloads := overloads + [Overload(notes.value, m.value)];
      } else if k == DOT3 {
        overloading := true;
        Advance(p);
        going := false;
      } else {
        p.SetError(p.next, true);
        return;
      }
      Stand(p);
      LeftFalls(p, start);
      if p.next.kind == BAR {
        Advance(p);
        LeftFalls(p, start);
      } else {
        going := false;
      }
    }
    os := Some((overloads, overloading));
  }

  // class_instance_name and the self type of a module, each with its advance.
  method ParseMixin(p: Parser, kinds: set<NameKind>, classOk: bool) returns (x: Option<Mixin>)
    requires p.Valid()
    modifies p
    ensures Does(p, MixinAt(p.s, old(p.pos), old(p.error), kinds, Scope(Visible(old(p.vars)), false, classOk)), x, old(p.vars))
  {
    hide Parser.Valid, AllWell, Visible, TypeNameAt, TypeArgsAt, KindOfName, Kept;
    Stand(p);
    Advance(p);
    var loc, n;
    n, loc := p.ParseTypeName(kinds);
    if n.None? {
      return None;
    }
    var a := p.ParseTypeArgs(false, classOk);
    x := if a.Some? then Some(Mixin(n.value, a.value.0)) else None;
  }

  // parse_mixin_member.
  method ParseMixinMember(p: Parser, fromInterface: bool, notes: seq<string>) returns (m: Option<Member>)
    requires Ready(p) && p.current.kind in {KW_INCLUDE, KW_EXTEND, KW_PREPEND}
    modifies p
    ensures Does(p, MixinMemberAt(p.s, old(p.pos) - 1, old(p.error), Visible(old(p.vars)), fromInterface, notes), m, old(p.vars))
  {
    hide Parser.Valid, WellMember, WellMixin, Visible, Push, Pop, ValidChain, MixinAt, Kept, FirstError, Stream.At, Stream.Kind;
    ghost var outer := p.vars;
    Stand(p);
    var kind := if p.current.kind == KW_INCLUDE then Include else if p.current.kind == KW_EXTEND then Extend else Prepend;
    if fromInterface && kind != Include {
      p.SetError(p.current, true);
      return None;
    }
    OpenScope(p, kind == Extend);
    var x := ParseMixin(p, if fromInterface then {InterfaceName} else {InterfaceName, ClassName}, !fromInterface);
    if x.None? {
      return None;
    }
    CloseScope(p, outer);
    m := Some(MixinMember(notes, kind, x.value));
  }

  // `self` `.` and a name in parse_alias_member.
  method ParseSelfName(p: Parser) returns (name: Option<string>)
    requires p.Valid()
    modifies p
    ensures Does(p, SelfNameAt(p.s, old(p.pos), old(p.error)), name, old(p.vars))
  {
    hide Parser.Valid, MethodNameAt, FirstError, Stream.At, Stream.Kind;
    Stand(p);
    var ok := p.AdvanceAssert(KW_SELF);
    if !ok {
      return None;
    }
    ok := p.AdvanceAssert(DOT);
    if !ok {
      return None;
    }
    name := ParseMethodName(p);
  }

  // parse_alias_member.
  method ParseAliasMember(p: Parser, instanceOnly: bool, notes: seq<string>) returns (m: Option<Member>)
    requires Ready(p)
    modifies p
    ensures Does(p, AliasMemberAt(p.s, old(p.pos) - 1, old(p.error), instanceOnly, notes), m, old(p.vars))
  {
    hide Parser.Valid, WellMember, MethodNameAt, SelfNameAt, Kept, Stream.At, Stream.Kind;
    Stand(p);
    m := None;
    var singleton := !instanceOnly && p.next.kind == KW_SELF;
    var newName: Option<string>;
    if singleton {
      newName := ParseSelfName(p);
    } else {
      newName := ParseMethodName(p);
    }
    if newName.None? {
      return;
    }
    var oldName: Option<string>;
    if singleton {
      oldName := ParseSelfName(p);
    } else {
      oldName := ParseMethodName(p);
    }
    m := if oldName.Some? then Some(AliasMember(notes, newName.value, oldName.value, singleton)) else None;
  }

  // `:` and the type of a member or a value, in a scope of its own if it is scoped.
  method ParseColonType(p: Parser, scoped: bool, reset: bool, selfOk: bool, classOk: bool) returns (t: Option<Type>)
    requires p.Valid() && (reset ==> scoped)
    modifies p
    ensures Does(p, ColonTypeAt(p.s, old(p.pos), old(p.error), Scope(if reset then {} else Visible(old(p.vars)), selfOk, classOk)),
                 t, old(p.vars))
  {
    hide Parser.Valid, Well, TypeAt, Visible, Push, Pop, ValidChain, Kept, FirstError, Stream.At, Stream.Kind;
    ghost var outer := p.vars;
    Stand(p);
    var ok := p.AdvanceAssert(COLON);
    if !ok {
      return None;
    }
    if scoped {
      OpenScope(p, reset);
    }
    t := TypeOf(p, false, selfOk, classOk);
    if t.Some? && scoped {
      CloseScope(p, outer);
    }
  }

  // parse_variable_member.
  method ParseVariableMember(p: Parser, notes: seq<string>) returns (m: Option<Member>)
    requires Ready(p) && p.current.kind in {AIDENT, KW_AT_RBS, A2IDENT, KW_SELF}
    modifies p
    ensures Does(p, VariableMemberAt(p.s, old(p.pos) - 1, old(p.error), Visible(old(p.vars)), notes), m, old(p.vars))
  {
    hide Parser.Valid, Well, WellMember, Visible, ColonTypeAt, Kept, FirstError, Stream.At, Stream.Kind;
    m := None;
    Stand(p);
    if notes != [] {
      p.SetError(p.current, true);
      return;
    }
    var k := p.current.kind;
    if k == KW_SELF {
      var ok := p.AdvanceAssert(DOT);
      if !ok {
        return;
      }
      Stand(p);
      if p.next.kind != AIDENT && p.next.kind != KW_AT_RBS {
        p.SetError(p.current, false);
        return;
      }
      Advance(p);
      Stand(p);
    }
    var name := p.current.text;
    if k == A2IDENT {
      var t := ParseColonType(p, true, true, false, true);
      m := if t.Some? then Some(ClassVariable(name, t.value)) else None;
    } else if k == KW_SELF {
      var t := ParseColonType(p, true, true, true, true);
      m := if t.Some? then Some(ClassInstanceVariable(name, t.value)) else None;
    } else {
      var t := ParseColonType(p, false, false, true, true);
      m := if t.Some? then Some(InstanceVariable(name, t.value)) else None;
    }
  }

  // The optional instance variable of parse_attribute_member.
  method ParseIvar(p: Parser) returns (ivar: Option<Ivar>)
    requires p.Valid() && p.pos <= |p.s.toks|
    modifies p
    ensures Does(p, IvarAt(p.s, old(p.pos), old(p.error)), ivar, old(p.vars))
  {
    hide Parser.Valid, FirstError, Stream.At, Stream.Kind;
    Stand(p);
    if p.next.kind != LPAREN {
      return Some(Inferred);
    }
    Advance(p);
    Stand(p);
    var v := NoIvar;
    if p.next.kind == AIDENT || p.next.kind == KW_AT_RBS {
      Advance(p);
      Stand(p);
      v := Ivar(p.current.text);
    }
    var ok := p.AdvanceAssert(RPAREN);
    ivar := if ok then Some(v) else None;
  }

  // parse_attribute_member.
  method ParseAttributeMember(p: Parser, notes: seq<string>) returns (m: Option<Member>)
    requires Ready(p)
    modifies p
    ensures Does(p, AttributeMemberAt(p.s, old(p.pos) - 1, old(p.error), Visible(old(p.vars)), notes), m, old(p.vars))
  {
    hide Parser.Valid, Well, WellMember, Visible, MethodNameAt, IvarAt, ColonTypeAt, KindAt, Kept, Stream.At, Stream.Kind;
    m := None;
    Stand(p);
    var visibility := VisibilityOf(p.current.kind);
    if visibility != Unspecified {
      Advance(p);
      Stand(p);
    }
    var attrKind := AttrKindOf(p.current.kind);
    var kind := ParseInstanceSingletonKind(p, false);
    var name := ParseMethodName(p);
    if name.None? {
      return;
    }
    var ivar := ParseIvar(p);
    if ivar.None? {
      return;
    }
    var t := ParseColonType(p, true, kind == SingletonKind, true, true);
    if t.Some? {
      m := Some(Attribute(notes, visibility, attrKind, kind, name.value, ivar.value, t.value));
    }
  }

  // parse_visibility_member.
  method ParseVisibilityMember(p: Parser, notes: seq<string>) returns (m: Option<Member>)
    requires Ready(p)
    modifies p
    ensures Does(p, VisibilityMemberAt(p.s, old(p.pos) - 1, old(p.error), notes), m, old(p.vars))
  {
    hide Parser.Valid, Kept, FirstError, Stream.At, Stream.Kind;
    Stand(p);
    if notes != [] {
      p.SetError(p.current, true);
      return None;
    }
    m := Some(VisibilityMember(p.current.kind == KW_PUBLIC));
  }

  // The switch of parse_interface_members.
  method ParseInterfaceMember(p: Parser, notes: seq<string>) returns (m: Option<Member>)
    requires p.Valid() && p.pos > 0
    modifies p
    ensures Does(p, InterfaceMemberAt(p.s, old(p.pos) - 1, old(p.error), Visible(old(p.vars)), p.forwardingEnabled, notes), m,
                 old(p.vars))
  {
    hide Parser.Valid, WellMember, Visible, MethodDefAt, MixinMemberAt, AliasMemberAt, Kept, FirstError, Stream.At, Stream.Kind;
    m := None;
    Stand(p);
    var k := p.current.kind;
    if k == KW_DEF {
      m := ParseMemberDef(p, true, notes);
    } else if k == KW_INCLUDE || k == KW_EXTEND || k == KW_PREPEND {
      m := ParseMixinMember(p, true, notes);
    } else if k == KW_ALIAS {
      m := ParseAliasMember(p, true, notes);
    } else {
      p.SetError(p.current, true);
    }
  }

  lemma InterfaceMembersStep(s: Stream, i: nat, e: Errors, vars: set<string>, fwd: bool, acc: seq<Member>)
    requires i <= |s.toks|
    ensures InterfaceMembersAt(s, i, e, vars, fwd, acc)
            == if s.Kind(i) == KW_END then Ok(acc, i, e)
               else
                 var a := AnnotationsAt(s, i, e);
                 if a.Fail? then Fail(a.error)
                 else
                   var m := InterfaceMemberAt(s, a.pos, a.err, vars, fwd, a.value);
                   if m.Fail? then Fail(m.error) else InterfaceMembersAt(s, m.pos, m.err, vars, fwd, acc + [m.value])
  {
    hide WellMember, WellMembers, AnnotationsAt, InterfaceMemberAt, Kept;
  }

  // parse_interface_members.
  method ParseInterfaceMembers(p: Parser) returns (ms: Option<seq<Member>>)
    requires p.Valid() && p.pos <= |p.s.toks|
    modifies p
    ensures Does(p, InterfaceMembersAt(p.s, old(p.pos), old(p.error), Visible(old(p.vars)), p.forwardingEnabled, []), ms,
                 old(p.vars))
  {
    hide Parser.Valid, WellMember, WellMembers, Visible, AnnotationsAt, InterfaceMemberAt, InterfaceMembersAt, Kept,
      Stream.At, Stream.Kind, Stream.Left;
    Stand(p);
    ghost var vars, fwd := Visible(p.vars), p.forwardingEnabled;
    ghost var whole := InterfaceMembersAt(p.s, p.pos, p.error, vars, fwd, []);
    var members: seq<Member> := [];
    InterfaceMembersStep(p.s, p.pos, p.error, vars, fwd, members);
    while p.next.kind != KW_END
      invariant p.Valid() && 0 <= p.pos <= |p.s.toks| && p.vars == old(p.vars) && p.next.kind == p.s.Kind(p.pos)
      invariant whole == InterfaceMembersAt(p.s, p.pos, p.error, vars, fwd, members)
      decreases p.s.Left(p.pos)
    {
      ghost var start := p.pos;
      InterfaceMembersStep(p.s, p.pos, p.error, vars, fwd, members);
      var notes := ParseAnnotations(p);
      if notes.None? {
        return None;
      }
      Stand(p);
      Advance(p);
      var m := ParseInterfaceMember(p, notes.value);
      if m.None? {
        return None;
      }
      Stand(p);
      LeftFalls(p, start);
      members := members + [m.value];
    }
    InterfaceMembersStep(p.s, p.pos, p.error, vars, fwd, members);
    ms := Some(members);
  }

  // ---- declarations ----------------------------------------------------------------------------------

  // parse_const_decl and parse_global_decl.
  method ParseValueDecl(p: Parser, notes: seq<string>) returns (d: Option<Decl>)
    requires Ready(p)
    modifies p
    ensures Does(p, ValueDeclAt(p.s, old(p.pos) - 1, old(p.error), Visible(old(p.vars)), notes), d, old(p.vars))
  {
    hide Parser.Valid, Well, WellDecl, Visible, TypeNameAt, ColonTypeAt, Kept, KindOfName, Stream.At, Stream.Kind;
    d := None;
    Stand(p);
    if p.current.kind == GIDENT {
      var name := p.current.text;
      var t := ParseColonType(p, false, false, false, false);
      d := if t.Some? then Some(Global(notes, name, t.value)) else None;
    } else {
      var name, loc := p.ParseTypeName({ClassName});
      if name.None? {
        return;
      }
      var t := ParseColonType(p, false, false, false, false);
      d := if t.Some? then Some(Constant(notes, name.value, t.value)) else None;
    }
  }

  // The next token, and the name that starts there.
  method NextName(p: Parser, kinds: set<NameKind>) returns (n: Option<TypeName>)
    requires p.Valid()
    modifies p
    ensures Does(p, TypeNameAt(p.s, old(p.pos), old(p.error), kinds), n, old(p.vars)) && (n.Some? ==> Ready(p))
  {
    hide Parser.Valid, TypeNameAt, KindOfName, Kept;
    Stand(p);
    Advance(p);
    var loc;
    n, loc := p.ParseTypeName(kinds);
  }

  // parse_type_decl.
  method ParseTypeDecl(p: Parser, notes: seq<string>) returns (d: Option<Decl>)
    requires Ready(p)
    modifies p
    ensures Does(p, TypeDeclAt(p.s, old(p.pos) - 1, old(p.error), Visible(old(p.vars)), notes), d, old(p.vars))
  {
    hide Parser.Valid, Well, WellDecl, WellOwnParams, Visible, Push, Pop, ValidChain, TypeNameAt, OwnParamsAt, TypeAt, NamesOf,
      KindOfName, Kept, FirstError, Stream.At, Stream.Kind;
    d := None;
    ghost var outer := p.vars;
    OpenScope(p, true);
    var name := NextName(p, {AliasName});
    if name.None? {
      return;
    }
    var ps := OwnParamsOf(p, outer);
    if ps.None? {
      return;
    }
    Stand(p);
    var ok := p.AdvanceAssert(EQ);
    if !ok {
      return;
    }
    var t := TypeOf(p, false, false, false);
    if t.None? {
      return;
    }
    CloseScope(p, outer);
    d := Some(TypeAlias(notes, name.value, ps.value, t.value));
  }

  // parse_interface_decl.
  method ParseInterfaceDecl(p: Parser, notes: seq<string>) returns (d: Option<Decl>)
    requires Ready(p)
    modifies p
    ensures Does(p, InterfaceDeclAt(p.s, old(p.pos) - 1, old(p.error), Visible(old(p.vars)), p.forwardingEnabled, notes), d,
                 old(p.vars))
  {
    hide Parser.Valid, WellMember, WellMembers, WellDecl, WellOwnParams, Visible, Push, Pop, ValidChain, TypeNameAt,
      OwnParamsAt, InterfaceMembersAt, NamesOf, KindOfName, Kept, Stream.At, Stream.Kind;
    d := None;
    ghost var outer := p.vars;
    OpenScope(p, true);
    var name := NextName(p, {InterfaceName});
    if name.None? {
      return;
    }
    var ps := OwnParamsOf(p, outer);
    if ps.None? {
      return;
    }
    var ms := ParseInterfaceMembers(p);
    if ms.None? {
      return;
    }
    Stand(p);
    var ok := p.AdvanceAssert(KW_END);
    assert ok;
    CloseScope(p, outer);
    d := Some(InterfaceDecl(notes, name.value, ps.value, ms.value));
  }

  lemma SelfTypesStep(s: Stream, i: nat, e: Errors, vars: set<string>, acc: seq<Mixin>)
    requires i <= |s.toks|
    ensures SelfTypesAt(s, i, e, vars, acc)
            == if s.Kind(i) != (if acc == [] then COLON else COMMA) then Ok(acc, i, e)
               else
                 var x := MixinAt(s, i + 1, e, {ClassName, InterfaceName}, Scope(vars, false, false));
                 if x.Fail? then Fail(x.error) else SelfTypesAt(s, x.pos, x.err, vars, acc + [x.value])
  {
    hide WellMixin, WellSelfTypes, MixinAt, Kept;
  }

  // The optional self types of a module; parse_module_self_types after the colon.
  method ParseModuleSelfTypes(p: Parser) returns (xs: Option<seq<Mixin>>)
    requires p.Valid() && p.pos <= |p.s.toks|
    modifies p
    ensures Does(p, SelfTypesAt(p.s, old(p.pos), old(p.error), Visible(old(p.vars)), []), xs, old(p.vars))
  {
    hide Parser.Valid, WellMixin, WellSelfTypes, Visible, MixinAt, SelfTypesAt, Kept, Stream.At, Stream.Kind, Stream.Left;
    Stand(p);
    ghost var vars := Visible(p.vars);
    ghost var whole := SelfTypesAt(p.s, p.pos, p.error, vars, []);
    var selfTypes: seq<Mixin> := [];
    var separator := COLON;
    SelfTypesStep(p.s, p.pos, p.error, vars, selfTypes);
    while p.next.kind == separator
      invariant p.Valid() && 0 <= p.pos <= |p.s.toks| && p.vars == old(p.vars) && p.next.kind == p.s.Kind(p.pos)
      invariant separator == if selfTypes == [] then COLON else COMMA
      invariant whole == SelfTypesAt(p.s, p.pos, p.error, vars, selfTypes)
      decreases p.s.Left(p.pos)
    {
      ghost var start := p.pos;
      SelfTypesStep(p.s, p.pos, p.error, vars, selfTypes);
      Stand(p);
      Advance(p);
      var x := ParseMixin(p, {ClassName, InterfaceName}, false);
      if x.None? {
        return None;
      }
      Stand(p);
      LeftFalls(p, start);
      selfTypes := selfTypes + [x.value];
      separator := COMMA;
    }
    SelfTypesStep(p.s, p.pos, p.error, vars, selfTypes);
    xs := Some(selfTypes);
  }

  // parse_class_decl_super.
  method ParseClassSuper(p: Parser) returns (x: Option<Option<Mixin>>)
    requires p.Valid() && p.pos <= |p.s.toks|
    modifies p
    ensures Does(p, SuperAt(p.s, old(p.pos), old(p.error), Visible(old(p.vars))), x, old(p.vars))
  {
    hide Parser.Valid, WellMixin, Visible, MixinAt, Kept, Stream.At, Stream.Kind;
    Stand(p);
    if p.next.kind != LT {
      return Some(None);
    }
    Advance(p);
    var m := ParseMixin(p, {ClassName}, false);
    x := if m.Some? then Some(m) else None;
  }

  lemma MembersStep(s: Stream, i: nat, e: Errors, vars: set<string>, fwd: bool, acc: seq<Member>)
    requires i <= |s.toks|
    ensures MembersAt(s, i, e, vars, fwd, acc)
            == if s.Kind(i) == KW_END then Ok(acc, i, e)
               else
                 var a := AnnotationsAt(s, i, e);
                 if a.Fail? then Fail(a.error)
                 else if s.Kind(a.pos) == EOF then Refuse(a.err, s.At(a.pos))
                 else
                   var m := MemberAt(s, a.pos, a.err, vars, fwd, a.value);
                   if m.Fail? then Fail(m.error) else MembersAt(s, m.pos, m.err, vars, fwd, acc + [m.value])
  {
    hide WellMember, WellMembers, AnnotationsAt, MemberAt, Kept, Stream.At;
  }

  // parse_module_members, for classes too; nested declarations are read in scopes of their own.
  method ParseModuleMembers(p: Parser) returns (ms: Option<seq<Member>>)
    requires p.Valid() && p.pos <= |p.s.toks|
    modifies p
    ensures Does(p, MembersAt(p.s, old(p.pos), old(p.error), Visible(old(p.vars)), p.forwardingEnabled, []), ms, old(p.vars))
    decreases p.s.Left(p.pos), 2
  {
    hide Parser.Valid, WellMember, WellMembers, Visible, AnnotationsAt, MemberAt, MembersAt, Kept, FirstError, Stream.At,
      Stream.Kind, Stream.Left;
    Stand(p);
    ghost var vars, fwd := Visible(p.vars), p.forwardingEnabled;
    ghost var whole := MembersAt(p.s, p.pos, p.error, vars, fwd, []);
    var members: seq<Member> := [];
    MembersStep(p.s, p.pos, p.error, vars, fwd, members);
    while p.next.kind != KW_END
      invariant p.Valid() && old(p.pos) <= p.pos <= |p.s.toks| && p.vars == old(p.vars) && p.next.kind == p.s.Kind(p.pos)
      invariant p.pos >= 0 && whole == MembersAt(p.s, p.pos, p.error, vars, fwd, members)
      decreases p.s.Left(p.pos)
    {
      ghost var start := p.pos;
      MembersStep(p.s, p.pos, p.error, vars, fwd, members);
      LeftFalls(p, old(p.pos));
      var notes := ParseAnnotations(p);
      if notes.None? {
        return None;
      }
      Stand(p);
      LeftFalls(p, start);
      Advance(p);
      if p.current.kind == EOF {
        // parse_nested_decl refuses it
        p.SetError(p.current, true);
        return None;
      }
      var m := ParseMember(p, notes.value);
      if m.None? {
        return None;
      }
      Stand(p);
      LeftFalls(p, start);
      members := members + [m.value];
    }
    MembersStep(p.s, p.pos, p.error, vars, fwd, members);
    ms := Some(members);
  }

  // The switch of parse_module_members; the member's first token is the current one.
  method ParseMember(p: Parser, notes: seq<string>) returns (m: Option<Member>)
    requires Ready(p)
    modifies p
    ensures Does(p, MemberAt(p.s, old(p.pos) - 1, old(p.error), Visible(old(p.vars)), p.forwardingEnabled, notes), m, old(p.vars))
    decreases p.s.Left(p.pos), 3
  {
    hide Parser.Valid, WellMember, WellDecl, Visible, MethodDefAt, MixinMemberAt, AliasMemberAt, VariableMemberAt,
      AttributeMemberAt, VisibilityMemberAt, DeclHereAt, Kept, FirstError, Stream.At, Stream.Kind, Stream.Left;
    m := None;
    Stand(p);
    var k := p.current.kind;
    if k == KW_DEF {
      m := ParseMemberDef(p, false, notes);
    } else if k == KW_INCLUDE || k == KW_EXTEND || k == KW_PREPEND {
      m := ParseMixinMember(p, false, notes);
    } else if k == KW_ALIAS {
      m := ParseAliasMember(p, false, notes);
    } else if k == AIDENT || k == A2IDENT || k == KW_AT_RBS || k == KW_SELF {
      m := ParseVariableMember(p, notes);
    } else if k == KW_ATTR_READER || k == KW_ATTR_WRITER || k == KW_ATTR_ACCESSOR {
      m := ParseAttributeMember(p, notes);
    } else if k == KW_PUBLIC || k == KW_PRIVATE {
      if p.next.start.line != p.current.start.line {
        m := ParseVisibilityMember(p, notes);
      } else if p.next.kind == KW_DEF {
        m := ParseMemberDef(p, false, notes);
      } else if p.next.kind == KW_ATTR_READER || p.next.kind == KW_ATTR_WRITER || p.next.kind == KW_ATTR_ACCESSOR {
        m := ParseAttributeMember(p, notes);
      } else {
        p.SetError(p.next, true);
      }
    } else {
      var d := ParseNestedDecl(p, notes);
      m := if d.Some? then Some(Nested(d.value)) else None;
    }
  }

  // parse_nested_decl.
  method ParseNestedDecl(p: Parser, notes: seq<string>) returns (d: Option<Decl>)
    requires Ready(p)
    modifies p
    ensures Does(p, DeclHereAt(p.s, old(p.pos) - 1, old(p.error), {}, p.forwardingEnabled, notes), d, old(p.vars))
    decreases p.s.Left(p.pos), 2
  {
    hide Parser.Valid, WellDecl, Visible, Push, Pop, ValidChain, DeclHereAt, Kept;
    ghost var outer := p.vars;
    OpenScope(p, true);
    d := ParseDeclHere(p, notes);
    if d.Some? {
      CloseScope(p, outer);
    }
  }

  // The switch of parse_decl and parse_nested_decl; the declaration's first token is the current one.
  method ParseDeclHere(p: Parser, notes: seq<string>) returns (d: Option<Decl>)
    requires Ready(p)
    modifies p
    ensures Does(p, DeclHereAt(p.s, old(p.pos) - 1, old(p.error), Visible(old(p.vars)), p.forwardingEnabled, notes), d, old(p.vars))
    decreases p.s.Left(p.pos), 1
  {
    hide Parser.Valid, WellDecl, Visible, ValueDeclAt, TypeDeclAt, InterfaceDeclAt, ModuleDeclAt, ClassDeclAt, Kept, FirstError,
      Stream.At, Stream.Kind;
    d := None;
    Stand(p);
    var k := p.current.kind;
    if k == UIDENT || k == COLON2 || k == GIDENT {
      d := ParseValueDecl(p, notes);
    } else if k == KW_TYPE {
      d := ParseTypeDecl(p, notes);
    } else if k == KW_INTERFACE {
      d := ParseInterfaceDecl(p, notes);
    } else if k == KW_MODULE {
      d := ParseModuleDecl(p, notes);
    } else if k == KW_CLASS {
      d := ParseClassDecl(p, notes);
    } else {
      p.SetError(p.current, true);
    }
  }

  // parse_module_decl.
  method ParseModuleDecl(p: Parser, notes: seq<string>) returns (d: Option<Decl>)
    requires Ready(p)
    modifies p
    ensures Does(p, ModuleDeclAt(p.s, old(p.pos) - 1, old(p.error), Visible(old(p.vars)), p.forwardingEnabled, notes), d,
                 old(p.vars))
    decreases p.s.Left(p.pos), 0
  {
    hide Parser.Valid, WellDecl, Visible, TypeNameAt, ModuleBodyAt, KindOfName, Kept, Stream.At, Stream.Kind, Stream.Left;
    d := None;
    Stand(p);
    var name := NextName(p, {ClassName});
    if name.None? {
      return;
    }
    Stand(p);
    if p.next.kind == EQ {
      Advance(p);
      var oldName := NextName(p, {ClassName});
      d := if oldName.Some? then Some(ModuleAlias(notes, name.value, oldName.value)) else None;
      return;
    }
    LeftFalls(p, old(p.pos));
    d := ParseModuleBody(p, notes, name.value);
  }

  // parse_module_decl0: a module after its name.
  method ParseModuleBody(p: Parser, notes: seq<string>, name: TypeName) returns (d: Option<Decl>)
    requires Ready(p) && name.kind == ClassName
    modifies p
    ensures Does(p, ModuleBodyAt(p.s, old(p.pos), old(p.error), Visible(old(p.vars)), p.forwardingEnabled, notes, name), d,
                 old(p.vars))
    decreases p.s.Left(p.pos), 4
  {
    hide Parser.Valid, WellMixin, WellMember, WellMembers, WellSelfTypes, WellDecl, WellOwnParams, Visible, Push, Pop, ValidChain,
      OwnParamsAt, SelfTypesAt, MembersAt, NamesOf, Kept, Stream.At, Stream.Kind, Stream.Left;
    d := None;
    ghost var outer := p.vars;
    OpenScope(p, true);
    var ps := OwnParamsOf(p, outer);
    if ps.None? {
      return;
    }
    var selfTypes := ParseModuleSelfTypes(p);
    if selfTypes.None? {
      return;
    }
    LeftFalls(p, old(p.pos));
    var ms := ParseModuleMembers(p);
    if ms.None? {
      return;
    }
    Stand(p);
    var ok := p.AdvanceAssert(KW_END);
    assert ok;
    CloseScope(p, outer);
    d := Some(ModuleDecl(notes, name, ps.value, selfTypes.value, ms.value));
  }

  // parse_class_decl.
  method ParseClassDecl(p: Parser, notes: seq<string>) returns (d: Option<Decl>)
    requires Ready(p)
    modifies p
    ensures Does(p, ClassDeclAt(p.s, old(p.pos) - 1, old(p.error), Visible(old(p.vars)), p.forwardingEnabled, notes), d,
                 old(p.vars))
    decreases p.s.Left(p.pos), 0
  {
    hide Parser.Valid, WellDecl, Visible, TypeNameAt, ClassBodyAt, KindOfName, Kept, Stream.At, Stream.Kind, Stream.Left;
    d := None;
    Stand(p);
    var name := NextName(p, {ClassName});
    if name.None? {
      return;
    }
    Stand(p);
    if p.next.kind == EQ {
      Advance(p);
      var oldName := NextName(p, {ClassName});
      d := if oldName.Some? then Some(ClassAlias(notes, name.value, oldName.value)) else None;
      return;
    }
    LeftFalls(p, old(p.pos));
    d := ParseClassBody(p, notes, name.value);
  }

  // parse_class_decl0: a class after its name.
  method ParseClassBody(p: Parser, notes: seq<string>, name: TypeName) returns (d: Option<Decl>)
    requires Ready(p) && name.kind == ClassName
    modifies p
    ensures Does(p, ClassBodyAt(p.s, old(p.pos), old(p.error), Visible(old(p.vars)), p.forwardingEnabled, notes, name), d,
                 old(p.vars))
    decreases p.s.Left(p.pos), 4
  {
    hide Parser.Valid, WellMixin, WellMember, WellMembers, WellDecl, WellOwnParams, Visible, Push, Pop, ValidChain,
      OwnParamsAt, SuperAt, MembersAt, NamesOf, Kept, Stream.At, Stream.Kind, Stream.Left;
    d := None;
    ghost var outer := p.vars;
    OpenScope(p, true);
    var ps := OwnParamsOf(p, outer);
    if ps.None? {
      return;
    }
    var super := ParseClassSuper(p);
    if super.None? {
      return;
    }
    LeftFalls(p, old(p.pos));
    var ms := ParseModuleMembers(p);
    if ms.None? {
      return;
    }
    Stand(p);
    var ok := p.AdvanceAssert(KW_END);
    assert ok;
    CloseScope(p, outer);
    d := Some(ClassDecl(notes, name, ps.value, super.value, ms.value));
  }

  // ---- signatures ------------------------------------------------------------------------------------

  // parse_namespace.
  method ParseNamespace(p: Parser) returns (ns: Namespace)
    requires p.Valid()
    modifies p
    ensures p.Valid() && p.vars == old(p.vars) && p.error == old(p.error)
    ensures ns == NamespaceAt(p.s, old(p.pos)) && p.pos == old(p.pos) + Width(ns)
  {
    hide Parser.Valid, Stream.At, Stream.Kind, Stream.Left, NamespacePath;
    p.Look();
    var absolute := p.next.kind == COLON2;
    if absolute {
      Advance(p);
      p.Look();
    }
    ghost var start := p.pos;
    var path: seq<string> := [];
    PathStep(p, path);
    while p.next.kind == UIDENT && p.next2.kind == COLON2
      invariant p.Valid() && p.vars == old(p.vars) && p.error == old(p.error)
      invariant start >= 0 && p.pos == start + 2 * |path|
      invariant NamespacePath(p.s, start) == path + NamespacePath(p.s, p.pos)
      decreases p.s.Left(p.pos)
    {
      PathStep(p, path);
      path := path + [p.next.text];
      Advance(p);
      Advance(p);
    }
    PathStep(p, path);
    ns := Namespace(absolute, path);
  }

  lemma PathStep(p: Parser, path: seq<string>)
    requires p.Valid()
    ensures p.pos >= 0
    ensures if p.next.kind == UIDENT && p.next2.kind == COLON2
            then p.s.Left(p.pos) > p.s.Left(p.pos + 2)
                 && path + NamespacePath(p.s, p.pos) == path + [p.next.text] + NamespacePath(p.s, p.pos + 2)
            else NamespacePath(p.s, p.pos) == [] && path + [] == path
    ensures [] + NamespacePath(p.s, p.pos) == NamespacePath(p.s, p.pos)
  {
    hide Parser.Valid;
    p.Look();
  }

  // One round of parse_use_clauses.
  method ParseUseClause(p: Parser) returns (c: Option<UseClause>)
    requires p.Valid()
    modifies p
    ensures p.Did(ClauseAt(p.s, old(p.pos), old(p.error)), c, old(p.vars))
  {
    hide Parser.Valid, Stream.At, Stream.Kind, Stream.Left, NamespaceAt, Kept, FirstError;
    c := None;
    var ns := ParseNamespace(p);
    p.Look();
    var t := p.next;
    var kind := KindOfUse(t.kind);
    if kind.Some? {
      Advance(p);
      p.Look();
      var name := TypeName(ns.absolute, ns.path, kind.value, t.text);
      if p.next.kind != KW_AS {
        return Some(Single(name, None));
      }
      Advance(p);
      var ok := p.AdvanceAssert(t.kind);
      p.Look();
      if ok {
        c := Some(Single(name, Some(p.current.text)));
      }
    } else if t.kind == STAR {
      Advance(p);
      c := Some(Wildcard(ns));
    } else {
      p.SetError(t, true);
    }
  }

  // parse_use_directive and parse_use_clauses.
  method ParseUseDirective(p: Parser) returns (cs: Option<seq<UseClause>>)
    requires p.Valid() && p.next.kind == KW_USE
    modifies p
    ensures p.Did(ClausesAt(p.s, old(p.pos) + 1, old(p.error)), cs, old(p.vars))
  {
    hide Parser.Valid, Stream.At, Stream.Kind, Stream.Left, ClauseAt, Kept;
    p.Look();
    ghost var whole := ClausesAt(p.s, p.pos + 1, p.error);
    PrefixedNothing(whole);
    var clauses: seq<UseClause> := [];
    var going := true;
    while going
      invariant p.Valid() && p.pos >= 0 && p.vars == old(p.vars) && p.error == old(p.error)
      invariant if going then p.next.kind in {KW_USE, COMMA} && whole == Prefixed(clauses, ClausesAt(p.s, p.pos + 1, p.error))
                else whole == Ok(clauses, p.pos, p.error)
      decreases going, p.s.Left(p.pos)
    {
      ghost var start := p.pos;
      Advance(p);
      var c := ParseUseClause(p);
      if c.None? {
        return None;
      }
      p.Look();
      LeftFalls(p, start);
      going := p.next.kind == COMMA;
      if going {
        PrefixedMore(clauses, c.value, ClausesAt(p.s, p.pos + 1, p.error));
      }
      clauses := clauses + [c.value];
    }
    cs := Some(clauses);
  }

  // The `use` directives at the head of a signature.
  method ParseDirectives(p: Parser) returns (uses: Option<seq<seq<UseClause>>>)
    requires p.Valid() && p.pos <= |p.s.toks|
    modifies p
    ensures p.Did(DirectivesAt(p.s, old(p.pos), old(p.error)), uses, old(p.vars))
  {
    hide Parser.Valid, Stream.At, Stream.Kind, Stream.Left, ClausesAt, Kept;
    p.Look();
    ghost var whole := DirectivesAt(p.s, p.pos, p.error);
    PrefixedNothing(whole);
    var directives: seq<seq<UseClause>> := [];
    while p.next.kind == KW_USE
      invariant p.Valid() && 0 <= p.pos <= |p.s.toks| && p.vars == old(p.vars) && p.error == old(p.error)
      invariant p.next.kind == p.s.Kind(p.pos)
      invariant whole == Prefixed(directives, DirectivesAt(p.s, p.pos, p.error))
      decreases p.s.Left(p.pos)
    {
      ghost var start := p.pos;
      var clauses := ParseUseDirective(p);
      if clauses.None? {
        return None;
      }
      LeftFalls(p, start);
      p.Look();
      PrefixedMore(directives, clauses.value, DirectivesAt(p.s, p.pos, p.error));
      directives := directives + [clauses.value];
    }
    assert directives + [] == directives;
    uses := Some(directives);
  }

  // parse_decl.
  method ParseDecl(p: Parser) returns (d: Option<Decl>)
    requires p.Valid() && p.pos <= |p.s.toks|
    modifies p
    ensures Does(p, DeclAt(p.s, old(p.pos), old(p.error), Visible(old(p.vars)), p.forwardingEnabled), d, old(p.vars))
  {
    hide Parser.Valid, WellDecl, Visible, AnnotationsAt, DeclHereAt, Kept, Stream.At, Stream.Kind;
    var notes := ParseAnnotations(p);
    if notes.None? {
      return None;
    }
    Stand(p);
    Advance(p);
    if p.current.kind == EOF {
      NoDeclAtTheEnd(p.s, p.pos - 1, p.error, Visible(p.vars), p.forwardingEnabled, notes.value);
      p.SetError(p.current, true);
      return None;
    }
    d := ParseDeclHere(p, notes.value);
  }

  lemma NoDeclAtTheEnd(s: Stream, c: nat, e: Errors, vars: set<string>, fwd: bool, notes: seq<string>)
    requires s.Kind(c) == EOF
    ensures DeclHereAt(s, c, e, vars, fwd, notes) == Refuse(e, s.At(c))
  {}

  lemma DeclsStep(s: Stream, i: nat, e: Errors, vars: set<string>, fwd: bool, acc: seq<Decl>)
    requires i <= |s.toks|
    ensures DeclsAt(s, i, e, vars, fwd, acc)
            == if s.Kind(i) == EOF then Ok(acc, i, e)
               else
                 var d := DeclAt(s, i, e, vars, fwd);
                 if d.Fail? then Fail(d.error) else DeclsAt(s, d.pos, d.err, vars, fwd, acc + [d.value])
  {
    hide WellDecl, WellDecls, DeclAt, Kept;
  }

  // The loop of rbs_parse_signature over declarations.
  method ParseDecls(p: Parser) returns (ds: Option<seq<Decl>>)
    requires p.Valid() && p.pos <= |p.s.toks|
    modifies p
    ensures Does(p, DeclsAt(p.s, old(p.pos), old(p.error), Visible(old(p.vars)), p.forwardingEnabled, []), ds, old(p.vars))
  {
    hide Parser.Valid, WellDecl, WellDecls, Visible, DeclAt, DeclsAt, Kept, Stream.At, Stream.Kind, Stream.Left;
    Stand(p);
    ghost var vars, fwd := Visible(p.vars), p.forwardingEnabled;
    ghost var whole := DeclsAt(p.s, p.pos, p.error, vars, fwd, []);
    var decls: seq<Decl> := [];
    DeclsStep(p.s, p.pos, p.error, vars, fwd, decls);
    while p.next.kind != EOF
      invariant p.Valid() && 0 <= p.pos <= |p.s.toks| && p.vars == old(p.vars) && p.next.kind == p.s.Kind(p.pos)
      invariant whole == DeclsAt(p.s, p.pos, p.error, vars, fwd, decls)
      decreases p.s.Left(p.pos)
    {
      ghost var start := p.pos;
      DeclsStep(p.s, p.pos, p.error, vars, fwd, decls);
      var d := ParseDecl(p);
      if d.None? {
        return None;
      }
      Stand(p);
      LeftFalls(p, start);
      decls := decls + [d.value];
    }
    DeclsStep(p.s, p.pos, p.error, vars, fwd, decls);
    ds := Some(decls);
  }

  // rbs_parse_signature: it reads to the end of the input or records an error; the directives and declarations are those
  // of the grammar, every declaration is well-formed in its lexical scope, and the tables are as they were.
  method ParseSignature(p: Parser) returns (sig: Option<Signature>)
    requires p.Valid() && p.pos <= |p.s.toks|
    modifies p
    ensures Does(p, DeclGrammar.SignatureAt(p.s, old(p.pos), old(p.error), Visible(old(p.vars)), p.forwardingEnabled), sig, old(p.vars))
    ensures sig.Some? ==> p.next.kind == EOF && WellDecls(sig.value.decls, Visible(old(p.vars)), p.forwardingEnabled)
  {
    hide Parser.Valid, WellDecl, WellDecls, Visible, DirectivesAt, DeclsAt, Kept, Stream.At, Stream.Kind;
    var uses := ParseDirectives(p);
    if uses.None? {
      return None;
    }
    var ds := ParseDecls(p);
    if ds.None? {
      return None;
    }
    Stand(p);
    sig := Some(Signature(uses.value, ds.value));
  }
}
