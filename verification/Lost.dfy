/** Types whose own to_s is not read back as the type: one input for each way in which a type can fail to be plain. */
module Lost {
  import opened Ast
  import opened Grammar
  import opened Printer
  import opened Rendering
  import opened RoundTrip
  import opened ToS
  import opened Tokens
  import opened Trees
  import opened WellFormed

  const SCOPE := Scope({}, false, false)

  function TypeOf(b: BaseKind): Type {
    Base(b, NULL_LOCATION)
  }

  function UnionOf(ts: seq<Type>): Type {
    Union(ts, NULL_LOCATION)
  }

  function OptionalOf(t: Type): Type {
    OptionalType(t, NULL_LOCATION)
  }

  // `^(nil NAME) -> top`.
  function ProcOf(name: string): Type {
    var p := Param(TypeOf(NilBase), Some(name), NULL_LOCATION, NULL_LOCATION);
    Proc(Fn(NO_PARAMS.(required := [p]), TypeOf(TopBase), NULL_LOCATION), None, None, NULL_LOCATION)
  }

  // The text between parentheses.
  function TextOf(t: Type): Text {
    TypeText(t, 0, false, Put(RPAREN, End))
  }

  // The tokens of the text stand for the type, which is a type, and are read as something else or not at all.
  ghost predicate IsLost(t: Type, s: Stream) {
    && Well(t, false, SCOPE) && Ordered(s) && Spells(s, 1, TextOf(t))
    && !Read(TypeAt(s, 1, None, false, SCOPE), t, s, None, Put(RPAREN, End))
  }

  lemma TextIsLost(t: Type) returns (s: Stream)
    requires Well(t, false, SCOPE) && !Plain(t) && Inked(TextOf(t))
    ensures IsLost(t, s)
  {
    hide Well, TypeText, TypeAt, Same, Ordered, Inked, Every, Read;
    JustOpened();
    var open := TokenFor(Mark(LPAREN), 0);
    s := Stream([open] + TokensFor(TextOf(t), 1), NULL_TOKEN);
    TokensSpell([open], 1, TextOf(t), NULL_TOKEN);
    ToSIsReadExactlyIfPlain(s, 1, None, t, false, SCOPE, Put(RPAREN, End));
  }

  // `nil | bool | top` for the union of a union.
  lemma UnionInUnionIsLost() returns (s: Stream)
    ensures var t := UnionOf([UnionOf([TypeOf(NilBase), TypeOf(BoolBase)]), TypeOf(TopBase)]);
            && TextOf(t) == Put(KW_NIL, Put(BAR, Put(KW_BOOL, Put(BAR, Put(KW_TOP, Put(RPAREN, End))))))
            && IsLost(t, s)
  {
    var u := UnionOf([TypeOf(NilBase), TypeOf(BoolBase)]);
    var t := UnionOf([u, TypeOf(TopBase)]);
    UnionsText(t, u);
    UnionIsNotPlain(t, u);
    ThreeInked();
    hide TypeText, Inked, Well, Plain, IsLost, Put;
    s := TextIsLost(t);
  }

  lemma UnionIsNotPlain(t: Type, u: Type)
    requires u == UnionOf([TypeOf(NilBase), TypeOf(BoolBase)]) && t == UnionOf([u, TypeOf(TopBase)])
    ensures Well(t, false, SCOPE) && !Plain(t)
  {
    assert u in t.types;
  }

  lemma ThreeInked()
    ensures Inked(Put(KW_NIL, Put(BAR, Put(KW_BOOL, Put(BAR, Put(KW_TOP, Put(RPAREN, End)))))))
  {
    InkedAgain(KW_TOP, Put(RPAREN, End));
    InkedAgain(BAR, Put(KW_TOP, Put(RPAREN, End)));
    InkedAgain(KW_BOOL, Put(BAR, Put(KW_TOP, Put(RPAREN, End))));
    InkedAgain(BAR, Put(KW_BOOL, Put(BAR, Put(KW_TOP, Put(RPAREN, End)))));
    InkedAgain(KW_NIL, Put(BAR, Put(KW_BOOL, Put(BAR, Put(KW_TOP, Put(RPAREN, End))))));
  }

  lemma UnionsText(t: Type, u: Type)
    requires u == UnionOf([TypeOf(NilBase), TypeOf(BoolBase)]) && t == UnionOf([u, TypeOf(TopBase)])
    ensures TextOf(t) == Put(KW_NIL, Put(BAR, Put(KW_BOOL, Put(BAR, Put(KW_TOP, Put(RPAREN, End))))))
  {
    var end := Put(RPAREN, End);
    var rest := Put(BAR, Put(KW_TOP, end));
    TwoMembers(t, end);
    TwoMembers(u, rest);
    OneBase(NilBase, Put(BAR, Put(KW_BOOL, rest)));
    assert t.types[0] == u && u.types[0] == TypeOf(NilBase);
    Members(t, end);
    Members(u, rest);
    hide TypeText, UnionText;
  }

  lemma Members(t: Type, k: Text)
    requires t.Union?
    ensures TypeText(t, 0, false, k) == UnionText(t.types, 0, false, k)
  {}

  lemma OneBase(b: BaseKind, k: Text)
    ensures TypeText(TypeOf(b), 0, false, k) == Put(KeywordOf(b), k)
  {}

  lemma TwoMembers(t: Type, k: Text)
    requires t.Union? && |t.types| == 2 && !t.types[0].Intersection? && t.types[1].Base?
    ensures UnionText(t.types, 0, false, k)
         == TypeText(t.types[0], 0, false, Put(BAR, Put(KeywordOf(t.types[1].base), k)))
  {
    UnionHead(t.types, 0, false, k);
    UnionHead(t.types, 1, false, k);
    assert TypeText(t.types[1], 0, false, k) == Put(KeywordOf(t.types[1].base), k);
  }

  lemma InkedAgain(k: TokenKind, rest: Text)
    requires Inked(rest) && k != EOF
    ensures Inked(Put(k, rest))
  {}

  // `nil??` for the optional of an optional.
  lemma OptionalOfOptionalIsLost() returns (s: Stream)
    ensures var t := OptionalOf(OptionalOf(TypeOf(NilBase)));
            && TextOf(t) == Put(KW_NIL, Put(QUESTION, Put(QUESTION, Put(RPAREN, End))))
            && IsLost(t, s)
  {
    var t := OptionalOf(OptionalOf(TypeOf(NilBase)));
    OptionalsText(t);
    OptionalIsNotPlain(t);
    TwoInked();
    hide TypeText, Inked, Well, Plain, IsLost, Put;
    s := TextIsLost(t);
  }

  lemma OptionalsText(t: Type)
    requires t == OptionalOf(OptionalOf(TypeOf(NilBase)))
    ensures TextOf(t) == Put(KW_NIL, Put(QUESTION, Put(QUESTION, Put(RPAREN, End))))
  {
    var end := Put(RPAREN, End);
    var one := Put(QUESTION, end);
    assert TypeText(t, 0, false, end) == TypeText(t.inner, 1, false, one);
    assert TypeText(t.inner, 1, false, one) == TypeText(t.inner.inner, 1, false, Put(QUESTION, one));
  }

  lemma OptionalIsNotPlain(t: Type)
    requires t == OptionalOf(OptionalOf(TypeOf(NilBase)))
    ensures Well(t, false, SCOPE) && !Plain(t)
  {
    assert !PlainNode(t);
  }

  lemma TwoInked()
    ensures Inked(Put(KW_NIL, Put(QUESTION, Put(QUESTION, Put(RPAREN, End)))))
  {
    InkedAgain(QUESTION, Put(RPAREN, End));
    InkedAgain(QUESTION, Put(QUESTION, Put(RPAREN, End)));
    InkedAgain(KW_NIL, Put(QUESTION, Put(QUESTION, Put(RPAREN, End))));
  }

  // The text of a procedure type with one parameter.
  lemma ProcText(name: string)
    ensures TextOf(ProcOf(name))
         == Put(HAT, Put(LPAREN, Put(KW_NIL, ParamNameText(Some(name), false,
              Put(RPAREN, Put(ARROW, Put(KW_TOP, Put(RPAREN, End))))))))
  {
    hide ParamNameText, SlotText;
    var f := ProcOf(name).fn;
    var end := Put(RPAREN, End);
    var k := Put(RPAREN, Put(ARROW, Put(KW_TOP, end)));
    OneBase(TopBase, end);
    assert TypeText(f.ret, 1, false, end) == TypeText(f.ret, 0, false, end);
    OneParam(f.params, k);
    OneBase(NilBase, ParamNameText(Some(name), false, k));
    assert ParamListText(f, false, k) == SlotText(f.params, RequiredSlot, 0, true, false, k);
    assert f.params.required[0].name == Some(name);
    assert ParamText(f.params.required[0], false, k)
        == TypeText(TypeOf(NilBase), 0, false, ParamNameText(Some(name), false, k));
    assert SelfText(None, false, BlockText(None, false, Put(ARROW, Put(KW_TOP, end)))) == Put(ARROW, Put(KW_TOP, end));
    assert ParensText(f, false, Put(ARROW, Put(KW_TOP, end))) == Put(LPAREN, ParamListText(f, false, k));
    assert TextOf(ProcOf(name)) == BareText(ProcOf(name), false, end);
  }

  lemma OneParam(ps: MethodParams, k: Text)
    requires |ps.required| == 1 && ps == NO_PARAMS.(required := ps.required)
    ensures SlotText(ps, RequiredSlot, 0, true, false, k) == ParamText(ps.required[0], false, k)
  {
    NothingAfter(ps, k);
    hide ParamText;
    assert SlotText(ps, RequiredSlot, 0, true, false, k)
        == ItemText(ps, RequiredSlot, 0, false, SlotText(ps, RequiredSlot, 1, false, false, k));
  }

  lemma ProcIsWell(name: string)
    ensures Well(ProcOf(name), false, SCOPE) && (Plain(ProcOf(name)) ==> PlainName(name))
  {
    hide PlainName;
    var ps := ProcOf(name).fn.params;
    assert WellParam(ps.required[0], SCOPE);
    assert AllKeywordsWell([], SCOPE) && AllParamsWell([], SCOPE);
    assert WellParams(ps, SCOPE);
    assert WellFn(ProcOf(name).fn, SCOPE);
    if Plain(ProcOf(name)) {
      assert EveryFn(ProcOf(name).fn, PlainNode, PlainParam);
      assert EveryParam(ps, PlainNode, PlainParam);
      assert EveryOf(ps.required[0], PlainNode, PlainParam);
    }
  }

  lemma NothingAfter(ps: MethodParams, k: Text)
    requires ps == NO_PARAMS.(required := ps.required)
    ensures SlotText(ps, RequiredSlot, |ps.required|, false, false, k) == k
  {
    assert SlotText(ps, RestKwSlot, 0, false, false, k) == k;
    assert SlotText(ps, OptionalKwSlot, 0, false, false, k) == k;
    assert SlotText(ps, RequiredKwSlot, 0, false, false, k) == k;
    assert SlotText(ps, TrailingSlot, 0, false, false, k) == k;
    assert SlotText(ps, RestSlot, 0, false, false, k) == k;
    assert SlotText(ps, OptionalSlot, 0, false, false, k) == k;
    assert SlotText(ps, ForwardingSlot, 0, false, false, k) == k;
  }

  lemma NameIsLost(name: string) returns (s: Stream)
    requires !PlainName(name) && (IsWordName(name) || Quotable(name))
    ensures IsLost(ProcOf(name), s)
  {
    ProcText(name);
    ProcIsWell(name);
    hide TypeText, PlainName, Plain, Well;
    var end := Put(RPAREN, Put(ARROW, Put(KW_TOP, Put(RPAREN, End))));
    var written := ParamNameText(Some(name), false, end);
    InkedAgain(KW_TOP, Put(RPAREN, End));
    InkedAgain(ARROW, Put(KW_TOP, Put(RPAREN, End)));
    InkedAgain(RPAREN, Put(ARROW, Put(KW_TOP, Put(RPAREN, End))));
    assert Inked(written);
    InkedAgain(KW_NIL, written);
    InkedAgain(LPAREN, Put(KW_NIL, written));
    InkedAgain(HAT, Put(LPAREN, Put(KW_NIL, written)));
    hide Inked;
    s := TextIsLost(ProcOf(name));
  }

  // ``^(nil `1a`) -> top``, which is written `^(nil 1a) -> top`.
  lemma DigitNameIsLost() returns (s: Stream)
    ensures IsLost(ProcOf("1a"), s)
  {
    s := NameIsLost("1a");
  }

  // A name of two backslashes, which comes back as one.
  lemma BackslashNameIsLost() returns (s: Stream)
    ensures IsLost(ProcOf("\\\\"), s)
  {
    assert Escapes("\\\\"[0..]);
    s := NameIsLost("\\\\");
  }
}
