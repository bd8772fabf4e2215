/** The parser of src/parser.c as it runs: a window of four tokens sliding over the lexer's output, the chain
    of type-variable tables, the first error and the comments read so far. Every routine is proved to build
    what Grammar says, to stop where Grammar says, and to leave the error Grammar says. */
module Parsers {
  import opened Ast
  import opened Comments
  import opened Containers
  import opened Grammar
  import opened MethodTypes
  import opened Scopes
  import opened Tokens
  import opened WellFormed

  // What rbs_parser_advance drops on its way to the next token.
  predicate Skipped(k: TokenKind) {
    k == COMMENT || k == LINE_COMMENT || k == TRIVIA
  }

  // The tokens that reach the window.
  function Significant(input: seq<Token>): (r: seq<Token>)
    ensures forall t <- r :: t in input
  {
    if input == [] then []
    else Significant(input[..|input| - 1]) + (if Skipped(input[|input| - 1].kind) then [] else [input[|input| - 1]])
  }

  function LineComments(input: seq<Token>): seq<Token> {
    if input == [] then []
    else LineComments(input[..|input| - 1]) + (if input[|input| - 1].kind == LINE_COMMENT then [input[|input| - 1]] else [])
  }

  lemma {:induction false} SignificantPrefix(input: seq<Token>, n: nat)
    requires n <= |input|
    ensures Significant(input[..n]) <= Significant(input)
    decreases |input|
  {
    if n < |input| {
      SignificantPrefix(input[..|input| - 1], n);
      assert input[..|input| - 1][..n] == input[..n];
    } else {
      assert input[..n] == input;
    }
  }

  // One more token read: a skipped one changes nothing, any other one is the next significant token.
  lemma ReadOne(input: seq<Token>, r: nat, m: nat)
    requires r < |input| && m <= |Significant(input)| && Significant(input[..r]) == Significant(input)[..m]
    ensures Skipped(input[r].kind) ==> Significant(input[..r + 1]) == Significant(input)[..m]
    ensures !Skipped(input[r].kind) ==>
              m < |Significant(input)| && Significant(input)[m] == input[r]
              && Significant(input[..r + 1]) == Significant(input)[..m + 1]
    ensures input[r].kind != LINE_COMMENT ==> LineComments(input[..r + 1]) == LineComments(input[..r])
    ensures input[r].kind == LINE_COMMENT ==> LineComments(input[..r + 1]) == LineComments(input[..r]) + [input[r]]
  {
    var toks := Significant(input);
    SignificantPrefix(input, r + 1);
    assert input[..r + 1][..r] == input[..r];
    if !Skipped(input[r].kind) {
      assert toks[..m] + [input[r]] <= toks;
      assert (toks[..m] + [input[r]])[m] == input[r];
    }
  }

  // The same for a lexer that has read `r` tokens, `m` of them significant, into the list `runs`.
  lemma CollectedOneMore(cs: seq<Token>, t: Token)
    ensures Collected(cs + [t]) == Comments.Insert(Collected(cs), t)
  {
    assert (cs + [t])[..|cs|] == cs;
  }

  // The hash of keyword names seen so far in one parameter list.
  type Memo = seq<Entry<string, bool>>

  ghost predicate MemoOf(memo: Memo, p: MethodParams) {
    forall k :: HasKey(memo, k) <==> HasKey(p.requiredKw, k) || HasKey(p.optionalKw, k)
  }

  lemma MemoEmpty()
    ensures MemoOf([], NO_PARAMS)
  {}

  lemma MemoHas(memo: Memo, p: MethodParams, k: string)
    requires MemoOf(memo, p)
    ensures HasKey(memo, k) <==> HasKey(p.requiredKw, k) || HasKey(p.optionalKw, k)
  {}

  lemma MemoSame(memo: Memo, p: MethodParams, q: MethodParams)
    requires MemoOf(memo, p) && q.requiredKw == p.requiredKw && q.optionalKw == p.optionalKw
    ensures MemoOf(memo, q)
  {}

  lemma MemoGrows(memo: Memo, p: MethodParams, key: string, x: Param)
    requires MemoOf(memo, p)
    ensures MemoOf(HashSet(memo, key, true), p.(requiredKw := HashSet(p.requiredKw, key, x)))
    ensures MemoOf(HashSet(memo, key, true), p.(optionalKw := HashSet(p.optionalKw, key, x)))
  {
    hide HasKey, HashSet;
    var m, r, o := HashSet(memo, key, true), HashSet(p.requiredKw, key, x), HashSet(p.optionalKw, key, x);
    forall k
      ensures HasKey(m, k) <==> HasKey(r, k) || HasKey(p.optionalKw, k)
      ensures HasKey(m, k) <==> HasKey(p.requiredKw, k) || HasKey(o, k)
    {
      HasKeyAfterSet(memo, key, true, k);
      HasKeyAfterSet(p.requiredKw, key, x, k);
      HasKeyAfterSet(p.optionalKw, key, x, k);
    }
  }

  // Where one round in a section of parse_params leads.
  datatype Step = GoOn(q: Section, p: MethodParams) | EndOfParams(p: MethodParams)

  class Parser {
    const input: seq<Token>  // what the lexer returns before the end-of-file token
    const eof: Token
    const forwardingEnabled: bool
    ghost const s: Stream

    var read: nat
    var current: Token
    var next: Token
    var next2: Token
    var next3: Token
    var vars: Chain
    var error: Errors
    var lastComment: Runs
    ghost var pos: int  // index of `next` in the stream

    ghost function At(i: int): Token {
      if i < 0 then NULL_TOKEN else s.At(i)
    }

    // The window holds consecutive elements of the token stream with comments and trivia removed, followed by
    // end-of-file for ever; before the first token it holds null tokens.
    ghost predicate Window()
      reads `current, `next, `next2, `next3, `pos
    {
      && pos >= -3
      && current == At(pos - 1) && next == At(pos) && next2 == At(pos + 1) && next3 == At(pos + 2)
      && s.eof.kind == EOF
    }

    ghost function Within(i: nat): nat {
      if i <= |s.toks| then i else |s.toks|
    }

    // The lexer has returned the first `m` significant tokens, and the comments among them are collected.
    ghost predicate ReadTo(m: nat)
      reads `read, `lastComment
    {
      && s == Stream(Significant(input), eof)
      && eof.kind == EOF && (forall t <- input :: t.kind != EOF) && (forall t <- s.toks :: t.kind != EOF)
      && read <= |input| && m <= |s.toks|
      && Significant(input[..read]) == s.toks[..m]
      && lastComment == Collected(LineComments(input[..read]))
    }

    // The lexer has been read as far as the window reaches.
    ghost predicate Behind()
      reads `read, `lastComment, `pos
    {
      && pos >= -3
      && ReadTo(Within(pos + 3))
      && (pos + 3 > |s.toks| ==> read == |input|)
    }

    ghost predicate Running()
      reads `current, `next, `next2, `next3, `pos, `read, `lastComment
    {
      Window() && Behind()
    }

    // A parser between two routines: the window has been filled.
    ghost predicate Valid()
      reads `current, `next, `next2, `next3, `pos, `read, `lastComment, `vars
    {
      Running() && pos >= 0 && ValidChain(vars)
    }

    // rbs_parser_new_with_options: three advances fill the window.
    constructor (input: seq<Token>, eof: Token, forwardingEnabled: bool)
      requires eof.kind == EOF && forall t <- input :: t.kind != EOF
      ensures Valid() && pos == 0 && vars == [] && error == None
      ensures this.input == input && this.eof == eof && this.forwardingEnabled == forwardingEnabled
    {
      this.input, this.eof, this.forwardingEnabled := input, eof, forwardingEnabled;
      s := Stream(Significant(input), eof);
      read, current, next, next2, next3 := 0, NULL_TOKEN, NULL_TOKEN, NULL_TOKEN, NULL_TOKEN;
      vars, error, lastComment, pos := [], None, [], -3;
      new;
      assert Running();
      hide Running;
      Advance();
      Advance();
      Advance();
    }

    // The loop of rbs_parser_advance: on to the next significant token, collecting the comments on the way.
    method Refill(ghost m: nat)
      requires ReadTo(m) && (next3.kind == EOF ==> next3 == eof && read == |input|)
      modifies `read, `next3, `lastComment
      ensures if m < |s.toks| then next3 == s.toks[m] && ReadTo(m + 1) else next3 == eof && ReadTo(m) && read == |input|
    {
      hide Significant, LineComments, Collected, Comments.Insert;
      assert read == |input| ==> input[..read] == input;
      while next3.kind != EOF
        invariant ReadTo(m)
        invariant next3.kind == EOF ==> next3 == eof && read == |input|
        decreases |input| - read
      {
        if read < |input| {
          ReadOne(input, read, m);
          CollectedOneMore(LineComments(input[..read]), input[read]);
        } else {
          assert input[..read] == input;
        }
        // rbs_lexer_next_token: past the end there is only the end-of-file token.
        if read < |input| {
          next3, read := input[read], read + 1;
        } else {
          next3 := eof;
        }
        if next3.kind == LINE_COMMENT {
          lastComment := Comments.Insert(lastComment, next3);
        } else if next3.kind != COMMENT && next3.kind != TRIVIA {
          break;
        }
      }
      assert next3.kind == EOF ==> input[..read] == input;
    }

    lemma EofEndsTheInput()
      requires Running()
      ensures s.eof == eof && (next3.kind == EOF ==> next3 == eof && read == |input|)
    {
      hide Significant, LineComments, Collected;
    }

    // rbs_parser_advance.
    method Advance()
      requires Running()
      modifies this
      ensures Running() && pos == old(pos) + 1 && vars == old(vars) && error == old(error)
    {
      hide ReadTo, At, Within;
      EofEndsTheInput();
      ghost var p := pos;
      WithinGrows(p);
      current, next, next2 := next, next2, next3;
      Refill(Within(p + 3));
      pos := p + 1;
      assert Window() by { hide Behind; }
    }

    lemma WithinGrows(p: int)
      requires p >= -3 && s.eof == eof
      ensures var m := Within(p + 3);
              && Within(p + 4) == (if m < |s.toks| then m + 1 else m)
              && At(p + 3) == (if m < |s.toks| then s.toks[m] else eof)
              && (p + 4 > |s.toks| <==> m == |s.toks|)
    {}

    // The routine did what the grammar says: it built the tree, stopped at the position and left the error
    // there, or it failed with the error there; either way the type-variable tables are as they were.
    ghost predicate Did<T>(r: Outcome<T>, t: Option<T>, tables: Chain)
      reads this
    {
      && Valid() && vars == tables
      && match r {
           case Ok(x, p, e) => t == Some(x) && pos == p && error == e
           case Fail(e) => t == None && error == Some(e)
         }
    }

    // rbs_parser_set_error: only the first error is kept.
    method SetError(t: Token, syntax: bool)
      modifies `error
      ensures error == Some(FirstError(old(error), t, syntax))
    {
      if error.None? {
        error := Some(ParseError(t, syntax));
      }
    }

    // ADVANCE_ASSERT.
    method AdvanceAssert(k: TokenKind) returns (ok: bool)
      requires Valid()
      modifies this
      ensures Valid() && pos == old(pos) + 1 && vars == old(vars)
      ensures ok == (s.Kind(old(pos)) == k)
      ensures error == if ok then old(error) else Some(FirstError(old(error), s.At(old(pos)), true))
    {
      hide Behind, ReadTo, ValidChain;
      Advance();
      ok := current.kind == k;
      if !ok {
        SetError(current, true);
      }
    }

    // parser_advance_if.
    method AdvanceIf(k: TokenKind) returns (ok: bool)
      requires Valid()
      modifies this
      ensures Valid() && vars == old(vars) && error == old(error)
      ensures ok == (s.Kind(old(pos)) == k) && pos == if ok then old(pos) + 1 else old(pos)
    {
      hide Behind, ReadTo, ValidChain;
      ok := next.kind == k;
      if ok {
        Advance();
      }
    }

    // What the routines know of the window.
    lemma Look()
      requires Valid()
      ensures pos >= 0 && (pos > 0 ==> current == s.At(pos - 1) && current.kind == s.Kind(pos - 1))
      ensures next == s.At(pos) && next2 == s.At(pos + 1) && next3 == s.At(pos + 2)
      ensures next.kind == s.Kind(pos) && next2.kind == s.Kind(pos + 1) && next3.kind == s.Kind(pos + 2)
    {
      hide Behind, ReadTo, ValidChain;
    }

    lemma LookBack()
      requires Valid()
      ensures current == s.Current(pos)
    {
      hide Behind, ReadTo, ValidChain;
    }

    // Whether a name's path goes on at the current token.
    predicate PathGoesOn()
      reads `current, `next, `next2
    {
      && current.kind == UIDENT && next.kind == COLON2 && current.end.bytePos == next.start.bytePos
      && next.end.bytePos == next2.start.bytePos
    }

    lemma PathStep(path: seq<string>)
      requires Valid() && pos > 0
      ensures PathGoesOn() ==> s.Left(pos) > s.Left(pos + 2) && PathEnd(s, pos - 1) == PathEnd(s, pos + 1)
      ensures PathGoesOn() ==> path + PathNames(s, pos - 1) == path + [current.text] + PathNames(s, pos + 1)
      ensures !PathGoesOn() ==> PathEnd(s, pos - 1) == pos - 1 && path + PathNames(s, pos - 1) == path
    {
      hide Behind, ReadTo, ValidChain;
      assert current == s.At(pos - 1) && next == s.At(pos) && next2 == s.At(pos + 1);
    }

    // parser_advance_no_gap.
    method AdvanceNoGap()
      requires Valid() && pos > 0
      modifies this
      ensures Valid() && vars == old(vars)
      ensures if s.Touching(old(pos) - 1) then pos == old(pos) + 1 && error == old(error)
              else pos == old(pos) && error == Some(FirstError(old(error), s.At(pos), true))
    {
      hide Running, ValidChain, Kept, Stream.At, Stream.Kind;
      Look();
      if current.end.bytePos == next.start.bytePos {
        Advance();
      } else {
        SetError(next, true);
      }
    }

    // The loop of parse_type_name over the path.
    method ParsePath() returns (path: seq<string>)
      requires Valid() && pos > 0
      modifies this
      ensures Valid() && vars == old(vars) && error == old(error)
      ensures path == PathNames(s, old(pos) - 1) && pos - 1 == PathEnd(s, old(pos) - 1)
    {
      hide Running, ValidChain, Kept, PathEnd, PathNames, Stream.At, Stream.Kind, Stream.Left;
      path := [];
      while PathGoesOn()
        invariant Valid() && pos > 0 && vars == old(vars) && error == old(error)
        invariant PathEnd(s, old(pos) - 1) == PathEnd(s, pos - 1)
        invariant PathNames(s, old(pos) - 1) == path + PathNames(s, pos - 1)
        decreases s.Left(pos)
      {
        PathStep(path);
        path := path + [current.text];
        Advance();
        Advance();
      }
      PathStep(path);
    }

    lemma ColonNamesNothing(c: nat)
      requires s.Kind(c) == COLON2
      ensures PathEnd(s, c) == c && KindOfName(s.Kind(c)) == None
    {}

    // parse_type_name; the current token is the name's first.
    method ParseTypeName(kinds: set<NameKind>) returns (n: Option<TypeName>, loc: Location)
      requires Valid() && pos > 0
      modifies this
      ensures Did(TypeNameAt(s, old(pos) - 1, old(error), kinds), n, old(vars))
      ensures n.Some? ==> loc == Spanning(s.At(old(pos) - 1), s.At(pos - 1))
    {
      hide Running, ValidChain, Kept, PathEnd, PathNames, KindOfName, Stream.At, Stream.Kind, Stream.Left;
      Look();
      var start := current;
      var absolute := current.kind == COLON2;
      loc := NULL_LOCATION;
      if absolute {
        ColonNamesNothing(pos - 1);
        AdvanceNoGap();
      }
      var path := ParsePath();
      Look();
      var kind := KindOfName(current.kind);
      if kind.Some? && kind.value in kinds {
        n := Some(TypeName(absolute, path, kind.value, current.text));
        loc := Spanning(start, current);
      } else {
        SetError(current, true);
        n := None;
      }
    }

    // ---- types --------------------------------------------------------------------------------------

    ghost function Sc(c: Chain, selfOk: bool, classOk: bool): Scope {
      Scope(Visible(c), selfOk, classOk)
    }

    // rbs_parse_type.
    method ParseType(v: bool, selfOk: bool, classOk: bool) returns (t: Option<Type>)
      requires Valid()
      modifies this
      ensures Did(TypeAt(s, old(pos), old(error), v, Sc(old(vars), selfOk, classOk)), t, old(vars))
      decreases s.Left(pos), 9
    {
      hide Running, ValidChain, Kept, KindOfName, FirstError, Spanning, LocOf, After, Sc, Stream.At, Stream.Kind,
        Well, MembersWell, IntersectionAt;
      ghost var i, sc := pos, Sc(vars, selfOk, classOk);
      ghost var whole := TypeAt(s, pos, error, v, sc);
      Look();
      var start := next;
      t := ParseIntersection(v, selfOk, classOk);
      if t.None? {
        return;
      }
      var types := [t.value];
      while next.kind == BAR
        invariant Valid() && vars == old(vars) && i < pos <= |s.toks| && types != [] && t == Some(types[0])
        invariant UnionRest(s, i, pos, error, v, sc, types) == whole
        decreases s.Left(pos)
      {
        Look();
        if v && IsVoid(t.value) {
          SetError(current, true);
          return None;
        }
        Advance();
        var u := ParseIntersection(false, selfOk, classOk);
        if u.None? {
          return None;
        }
        types := types + [u.value];
      }
      Look();
      if |types| > 1 {
        t := Some(Union(types, Spanning(start, current)));
      }
    }

    // parse_intersection.
    method ParseIntersection(v: bool, selfOk: bool, classOk: bool) returns (t: Option<Type>)
      requires Valid()
      modifies this
      ensures Did(IntersectionAt(s, old(pos), old(error), v, Sc(old(vars), selfOk, classOk)), t, old(vars))
      decreases s.Left(pos), 7
    {
      hide Running, ValidChain, Kept, KindOfName, FirstError, Spanning, LocOf, After, Sc, Stream.At, Stream.Kind,
        Well, MembersWell, OptionalAt;
      ghost var i, sc := pos, Sc(vars, selfOk, classOk);
      ghost var whole := IntersectionAt(s, pos, error, v, sc);
      Look();
      var start := next;
      t := ParseOptional(v, selfOk, classOk);
      if t.None? {
        return;
      }
      var types := [t.value];
      while next.kind == AMP
        invariant Valid() && vars == old(vars) && i < pos <= |s.toks| && types != [] && t == Some(types[0])
        invariant IntersectionRest(s, i, pos, error, v, sc, types) == whole
        decreases s.Left(pos)
      {
        Look();
        if v && IsVoid(t.value) {
          SetError(current, true);
          return None;
        }
        Advance();
        var u := ParseOptional(false, selfOk, classOk);
        if u.None? {
          return None;
        }
        types := types + [u.value];
      }
      Look();
      if |types| > 1 {
        t := Some(Intersection(types, Spanning(start, current)));
      }
    }

    // parse_optional.
    method ParseOptional(v: bool, selfOk: bool, classOk: bool) returns (t: Option<Type>)
      requires Valid()
      modifies this
      ensures Did(OptionalAt(s, old(pos), old(error), v, Sc(old(vars), selfOk, classOk)), t, old(vars))
      decreases s.Left(pos), 5
    {
      hide Running, ValidChain, Kept, KindOfName, FirstError, Spanning, LocOf, After, Sc, Stream.At, Stream.Kind,
        Well, SimpleAt;
      Look();
      var start := next;
      t := ParseSimple(v, selfOk, classOk);
      if t.None? {
        return;
      }
      Look();
      if next.kind == QUESTION {
        if v && IsVoid(t.value) {
          SetError(current, true);
          return None;
        }
        Advance();
        Look();
        t := Some(OptionalType(t.value, Spanning(start, current)));
      }
    }

    // parser_typevar_member.
    method TypevarMember(x: string) returns (b: bool)
      requires Valid()
      ensures b == (x in Visible(vars))
    {
      hide Running;
      assert forall t <- vars :: t.Valid();
      var table := 0;
      while table < |vars| && !vars[table].Reset()
        invariant table <= |vars| && (x in Visible(vars) <==> x in Visible(vars[table..]))
      {
        var t := vars[table];
        assert t.Valid() && vars[table..][1..] == vars[table + 1..];
        var i := 0;
        while i < t.count
          invariant i <= t.count && forall j :: 0 <= j < i ==> t.ids[j] != x
        {
          if t.ids[i] == x {
            assert x in t.Names();
            return true;
          }
          i := i + 1;
        }
        assert x !in t.Names();
        table := table + 1;
      }
      return false;
    }

    // parse_simple.
    method ParseSimple(v: bool, selfOk: bool, classOk: bool) returns (t: Option<Type>)
      requires Valid()
      modifies this
      ensures Did(SimpleAt(s, old(pos), old(error), v, Sc(old(vars), selfOk, classOk)), t, old(vars))
      decreases s.Left(pos), 4
    {
      hide Running, ValidChain, Kept, KindOfName, FirstError, Spanning, LocOf, After, Visible, Stream.At, Stream.Kind,
        Well, TypeAt, RecordAt, ProcAt, TupleAt, ApplicationAt, SingletonAt, BaseOf, LiteralOf, BaseAllowed;
      ghost var i, sc := pos, Sc(vars, selfOk, classOk);
      t := None;
      Advance();
      Look();
      Progress(i);
      var k := current.kind;
      if k == LPAREN {
        t := ParseType(v, selfOk, classOk);
        if t.Some? {
          var ok := AdvanceAssert(RPAREN);
          t := if ok then t else None;
        }
      } else if BaseOf(k).Some? {
        t := ParseBase(BaseOf(k).value, v, selfOk, classOk);
      } else if k != EOF && LiteralOf(current).Some? {
        t := Some(LiteralType(LiteralOf(current).value, LocOf(current)));
      } else {
        var bound := false;
        if k == UIDENT {
          bound := TypevarMember(current.text);
        }
        if bound {
          t := Some(Variable(current.text, LocOf(current)));
        } else if KindOfName(k).Some? || k == COLON2 {
          t := ParseInstanceType(i, selfOk, classOk);
        } else if k == KW_SINGLETON {
          t := ParseSingletonType(i, selfOk, classOk);
        } else if k == LBRACKET {
          t := ParseTuple(i, selfOk, classOk);
        } else if k == AREF_OPR {
          t := Some(Tuple([], LocOf(current)));
        } else if k == LBRACE {
          t := ParseRecord(i, selfOk, classOk);
        } else if k == HAT {
          t := ParseProcType(i, selfOk, classOk);
        } else {
          SetError(current, true);
        }
      }
    }

    // Reading on leaves less to read, except at the end of the input.
    lemma Progress(i: nat)
      requires Valid() && i <= pos
      ensures s.Left(pos) <= s.Left(i) && (i < pos && i < |s.toks| ==> s.Left(pos) < s.Left(i))
      ensures pos > 0 && current.kind != EOF ==> pos <= |s.toks|
      ensures KindOfName(EOF) == None
    {
      hide Behind, ReadTo, ValidChain;
    }

    // The keyword cases of parse_simple.
    method ParseBase(b: BaseKind, v: bool, selfOk: bool, classOk: bool) returns (t: Option<Type>)
      modifies `error
      ensures if BaseAllowed(b, v, Sc(vars, selfOk, classOk)) then t == Some(Base(b, LocOf(current))) && error == old(error)
              else t == None && error == Some(FirstError(old(error), current, true))
    {
      if (b == VoidBase && !v) || (b == SelfBase && !selfOk) || ((b == ClassBase || b == InstanceBase) && !classOk) {
        SetError(current, true);
        t := None;
      } else {
        t := Some(Base(b, LocOf(current)));
      }
    }

    // parse_type_list up to `]`.
    method ParseTypeList(v: bool, selfOk: bool, classOk: bool) returns (ts: Option<seq<Type>>)
      requires Valid()
      modifies this
      ensures Did(TypeListAt(s, old(pos), old(error), v, Sc(old(vars), selfOk, classOk), []), ts, old(vars))
      decreases s.Left(pos), 10
    {
      hide Running, ValidChain, Kept, KindOfName, FirstError, Spanning, LocOf, After, Sc, Stream.At, Stream.Kind,
        Well, AllWell, TypeAt;
      ghost var sc := Sc(vars, selfOk, classOk);
      ghost var whole := TypeListAt(s, pos, error, v, sc, []);
      var types: seq<Type> := [];
      while true
        invariant Valid() && vars == old(vars) && pos >= old(pos)
        invariant TypeListAt(s, pos, error, v, sc, types) == whole
        decreases s.Left(pos)
      {
        var t := ParseType(v, selfOk, classOk);
        if t.None? {
          return None;
        }
        types := types + [t.value];
        Look();
        if next.kind == COMMA {
          Advance();
          Look();
          if next.kind == RBRACKET {
            return Some(types);
          }
        } else if next.kind == RBRACKET {
          return Some(types);
        } else {
          SetError(next, true);
          return None;
        }
      }
    }

    // The type arguments of parse_instance_type and parse_singleton_type.
    method ParseTypeArgs(selfOk: bool, classOk: bool) returns (a: Option<(seq<Type>, Location)>)
      requires Valid() && pos <= |s.toks|
      modifies this
      ensures Did(TypeArgsAt(s, old(pos), old(error), Sc(old(vars), selfOk, classOk)), a, old(vars))
      decreases s.Left(pos), 2
    {
      hide Running, ValidChain, Kept, KindOfName, FirstError, Spanning, LocOf, After, Sc, Stream.At, Stream.Kind,
        Stream.Left, Well, AllWell, TypeListAt;
      ghost var i, sc := pos, Sc(vars, selfOk, classOk);
      Look();
      if next.kind != LBRACKET {
        return Some(([], NULL_LOCATION));
      }
      Advance();
      Look();
      Progress(i);
      var start := current;
      var ts := ParseTypeList(true, selfOk, classOk);
      if ts.None? {
        return None;
      }
      var ok := AdvanceAssert(RBRACKET);
      assert ok;
      Look();
      a := Some((ts.value, Spanning(start, current)));
    }

    // parse_instance_type, whose arguments may be any type; the name's first token is the current one.
    method ParseInstanceType(ghost i: nat, ghost selfOk: bool, ghost classOk: bool) returns (t: Option<Type>)
      requires Valid() && pos == i + 1 <= |s.toks|
      requires s.Kind(i) == UIDENT ==> s.At(i).text !in Visible(vars)
      modifies this
      ensures Did(ApplicationAt(s, i, old(error), Sc(old(vars), selfOk, classOk)), t, old(vars))
      decreases s.Left(i), 3
    {
      hide Running, ValidChain, Kept, KindOfName, FirstError, Spanning, LocOf, After, Visible, Stream.At, Stream.Kind,
        Stream.Left, Well, AllWell, TypeNameAt, TypeArgsAt, NotShadowed;
      Look();
      var start := current;
      var n, nameLoc := ParseTypeName(ANY_NAME);
      if n.None? {
        return None;
      }
      Progress(i);
      var a := ParseTypeArgs(true, true);
      if a.None? {
        return None;
      }
      Look();
      t := Some(Application(n.value, a.value.0, Spanning(start, current), nameLoc, a.value.1));
    }

    // parse_singleton_type.
    method ParseSingletonType(ghost i: nat, selfOk: bool, classOk: bool) returns (t: Option<Type>)
      requires Valid() && pos == i + 1 <= |s.toks| && s.Kind(i) == KW_SINGLETON
      modifies this
      ensures Did(SingletonAt(s, i, old(error), Sc(old(vars), selfOk, classOk)), t, old(vars))
      decreases s.Left(i), 3
    {
      hide Running, ValidChain, Kept, KindOfName, FirstError, Spanning, LocOf, After, Sc, Stream.At, Stream.Kind,
        Stream.Left, Well, AllWell, TypeNameAt, TypeArgsAt;
      Look();
      var start := current;
      var ok := AdvanceAssert(LPAREN);
      if !ok {
        return None;
      }
      Advance();
      var n, nameLoc := ParseTypeName({ClassName});
      if n.None? {
        return None;
      }
      ok := AdvanceAssert(RPAREN);
      if !ok {
        return None;
      }
      Look();
      Progress(i);
      var a := ParseTypeArgs(selfOk, classOk);
      if a.None? {
        return None;
      }
      Look();
      t := Some(Singleton(n.value, a.value.0, Spanning(start, current), nameLoc, a.value.1));
    }

    // The tuple case of parse_simple.
    method ParseTuple(ghost i: nat, selfOk: bool, classOk: bool) returns (t: Option<Type>)
      requires Valid() && pos == i + 1 <= |s.toks| && s.Kind(i) == LBRACKET
      modifies this
      ensures Did(TupleAt(s, i, old(error), Sc(old(vars), selfOk, classOk)), t, old(vars))
      decreases s.Left(i), 3
    {
      hide Running, ValidChain, Kept, KindOfName, FirstError, Spanning, LocOf, After, Sc, Stream.At, Stream.Kind,
        Well, AllWell, TypeListAt;
      Look();
      var start := current;
      var types := [];
      if next.kind != RBRACKET {
        var ts := ParseTypeList(false, selfOk, classOk);
        if ts.None? {
          return None;
        }
        types := ts.value;
      }
      var ok := AdvanceAssert(RBRACKET);
      Look();
      t := if ok then Some(Tuple(types, Spanning(start, current))) else None;
    }

    // ---- records ------------------------------------------------------------------------------------

    // is_keyword.
    predicate KeywordFollows()
      reads this
    {
      && IsKeywordToken(next.kind)
      && (|| (next2.kind == COLON && next.end.bytePos == next2.start.bytePos)
          || (next2.kind == QUESTION && next3.kind == COLON && next.end.bytePos == next2.start.bytePos
              && next2.end.bytePos == next3.start.bytePos))
    }

    lemma KeywordSeen()
      requires Valid()
      ensures KeywordFollows() == IsKeyword(s, pos)
    {
      hide Running, ValidChain, Kept, KindOfName, FirstError, Spanning, LocOf, After, IsKeywordToken, Stream.At,
        Stream.Kind;
      Look();
    }

    // parse_keyword_key.
    method ParseKeywordKey() returns (key: string)
      requires Valid()
      modifies this
      ensures Valid() && vars == old(vars) && error == old(error) && (key, pos) == KeyAt(s, old(pos))
    {
      hide Running, ValidChain, Kept, KindOfName, FirstError, Spanning, LocOf, After, Stream.At, Stream.Kind;
      Advance();
      Look();
      key := current.text;
      if next.kind == QUESTION {
        key := key + "?";
        Advance();
      }
    }

    // The record case of parse_simple.
    method ParseRecord(ghost i: nat, selfOk: bool, classOk: bool) returns (t: Option<Type>)
      requires Valid() && pos == i + 1 <= |s.toks| && s.Kind(i) == LBRACE
      modifies this
      ensures Did(RecordAt(s, i, old(error), Sc(old(vars), selfOk, classOk)), t, old(vars))
      decreases s.Left(i), 3
    {
      hide Running, ValidChain, Kept, KindOfName, FirstError, Spanning, LocOf, After, Sc, Stream.At, Stream.Kind,
        Well, FieldsWell, AttributesAt;
      Look();
      var start := current;
      var fields := ParseRecordAttributes(selfOk, classOk);
      if fields.None? {
        return None;
      }
      var ok := AdvanceAssert(RBRACE);
      Look();
      t := if ok then Some(Type.Record(fields.value, Spanning(start, current))) else None;
    }

    // parse_record_attributes.
    method ParseRecordAttributes(selfOk: bool, classOk: bool) returns (r: Option<Fields>)
      requires Valid() && pos <= |s.toks|
      modifies this
      ensures Did(AttributesAt(s, old(pos), old(error), Sc(old(vars), selfOk, classOk)), r, old(vars))
      decreases s.Left(pos), 12
    {
      hide Running, ValidChain, Kept, KindOfName, FirstError, Spanning, LocOf, After, Sc, Stream.At, Stream.Kind,
        Well, FieldsWell, FieldAt;
      ghost var sc := Sc(vars, selfOk, classOk);
      Look();
      if next.kind == RBRACE {
        return Some([]);
      }
      ghost var whole := FieldsAt(s, pos, error, sc, []);
      var fields: Fields := [];
      while true
        invariant Valid() && vars == old(vars) && pos >= old(pos)
        invariant FieldsAt(s, pos, error, sc, fields) == whole
        decreases s.Left(pos)
      {
        r := ParseField(fields, selfOk, classOk);
        if r.None? {
          return;
        }
        fields := r.value;
        var comma := AdvanceIf(COMMA);
        if !comma {
          return;
        }
        Look();
        if next.kind == RBRACE {
          return;
        }
      }
    }

    // One round of the loop of parse_record_attributes up to the comma.
    method ParseField(fields: Fields, selfOk: bool, classOk: bool) returns (r: Option<Fields>)
      requires Valid()
      modifies this
      ensures Did(FieldAt(s, old(pos), old(error), Sc(old(vars), selfOk, classOk), fields), r, old(vars))
      decreases s.Left(pos), 10
    {
      hide Running, ValidChain, Kept, KindOfName, FirstError, Spanning, LocOf, After, Sc, Stream.At, Stream.Kind,
        Well, FieldsWell, TypeAt, FieldKeyAt, HashSet;
      Look();
      var required := next.kind != QUESTION;
      var key := ParseFieldKey(fields, selfOk, classOk);
      if key.None? {
        return None;
      }
      Look();
      var start := current;
      var t := ParseType(false, selfOk, classOk);
      if t.None? {
        return None;
      }
      Look();
      r := Some(HashSet(fields, key.value, FieldType(t.value, required, After(start, current))));
    }

    // check_key_duplication, which records an error and goes on, and the separator.
    method FinishKey(fields: Fields, key: Literal, separator: TokenKind) returns (r: Option<Literal>)
      requires Valid() && pos > 0
      modifies this
      ensures Did(KeyEnd(s, key, old(pos), old(error), fields, separator), r, old(vars))
    {
      hide Running, ValidChain, FirstError, HasKey, Stream.At, Stream.Kind;
      Look();
      if HasKey(fields, key) {
        SetError(current, true);
      }
      var ok := AdvanceAssert(separator);
      r := if ok then Some(key) else None;
    }

    lemma KeywordHasColon(i: nat)
      requires IsKeyword(s, i)
      ensures s.Kind(KeyAt(s, i).1) == COLON
    {
      hide IsKeywordToken;
    }

    // `?`, the key and its separator; a literal key is read by parse_simple.
    method ParseFieldKey(fields: Fields, selfOk: bool, classOk: bool) returns (key: Option<Literal>)
      requires Valid()
      modifies this
      ensures Did(FieldKeyAt(s, old(pos), old(error), fields), key, old(vars))
      decreases s.Left(pos), 9
    {
      hide Running, ValidChain, Kept, KindOfName, FirstError, Spanning, LocOf, After, Sc, Stream.At, Stream.Kind,
        Stream.Left, SimpleAt, IsKeyword, LiteralOf, KeywordFollows, HasKey, FieldKeyAt, KeyEnd;
      FieldKeyIs(s, pos, error, fields);
      Look();
      if next.kind == QUESTION {
        Advance();
        Look();
      }
      KeywordSeen();
      if KeywordFollows() {
        var name := ParseKeywordKey();
        key := FinishKey(fields, SymbolLit(name), COLON);
      } else if next.kind != EOF && LiteralOf(next).Some? {
        LiteralIsRead(s, pos, error, Sc(vars, selfOk, classOk));
        Progress(old(pos));
        var t := ParseSimple(false, selfOk, classOk);
        key := FinishKey(fields, t.value.lit, FAT_ARROW);
      } else {
        SetError(next, true);
        return None;
      }
    }

    // ---- functions ----------------------------------------------------------------------------------

    // parse_function_param.
    method ParseParam(selfOk: bool, classOk: bool) returns (p: Option<Param>)
      requires Valid()
      modifies this
      ensures Did(ParamAt(s, old(pos), old(error), Sc(old(vars), selfOk, classOk)), p, old(vars))
      decreases s.Left(pos), 10
    {
      hide Running, ValidChain, Kept, KindOfName, FirstError, Spanning, LocOf, After, Sc, Stream.At, Stream.Kind,
        IsKeywordToken, Well, TypeAt;
      Look();
      var start := next;
      var t := ParseType(false, selfOk, classOk);
      if t.None? {
        return None;
      }
      Look();
      if next.kind == COMMA || next.kind == RPAREN {
        return Some(Param(t.value, None, Spanning(start, current), NULL_LOCATION));
      }
      Advance();
      Look();
      if !IsKeywordToken(current.kind) {
        SetError(current, true);
        return None;
      }
      p := Some(Param(t.value, Some(current.unquoted), Spanning(start, current), LocOf(current)));
    }

    // parse_keyword into the table of required or of optional keywords; `memo` has the names of both.
    method ParseKeyword(p: MethodParams, required: bool, memo: Memo, selfOk: bool, classOk: bool)
      returns (q: Option<MethodParams>, memo': Memo)
      requires Valid() && IsKeyword(s, pos) && MemoOf(memo, p)
      modifies this
      ensures Did(KeywordAt(s, old(pos), old(error), Sc(old(vars), selfOk, classOk), p, required), q, old(vars))
      ensures q.Some? ==> MemoOf(memo', q.value)
      decreases s.Left(pos), 12
    {
      hide Running, ValidChain, Kept, KindOfName, FirstError, Spanning, LocOf, After, Sc, Stream.At, Stream.Kind,
        IsKeyword, HasKey, HashSet, MemoOf, WellParam, WellParams, ParamAt, Reached;
      memo' := memo;
      KeywordHasColon(pos);
      var key := ParseKeywordKey();
      Look();
      MemoHas(memo, p, key);
      if HasKey(memo, key) {
        SetError(current, true);
        return None, memo;
      }
      memo' := HashSet(memo, key, true);
      var ok := AdvanceAssert(COLON);
      assert ok;
      Progress(old(pos));
      var x := ParseParam(selfOk, classOk);
      if x.None? {
        return None, memo';
      }
      MemoGrows(memo, p, key, x.value);
      q := Some(if required then p.(requiredKw := HashSet(p.requiredKw, key, x.value))
                else p.(optionalKw := HashSet(p.optionalKw, key, x.value)));
    }

    // A section of parse_params did what the grammar says: it failed, or it ended the parameters, or it goes on
    // in a section, which is a later one unless something has been read.
    ghost predicate Stepped(r: Outcome<MethodParams>, sc: Scope, fwd: bool, o: Option<Step>, memo: Memo, tables: Chain)
      reads this
    {
      && Valid() && vars == tables
      && match o {
           case None => error.Some? && r == Fail(error.value)
           case Some(GoOn(q, p)) => pos <= |s.toks| && r == SectionAt(s, pos, error, sc, fwd, q, p) && MemoOf(memo, p)
           case Some(EndOfParams(p)) => r == Ok(p, pos, error)
         }
    }

    // parser_advance_if(pCOMMA), then on with the section or to EOP.
    method AfterParam(q: Section, p: MethodParams, memo: Memo, ghost sc: Scope, ghost fwd: bool)
      returns (o: Option<Step>)
      requires Valid() && pos <= |s.toks| && MemoOf(memo, p)
      modifies this
      ensures Stepped(Continue(s, old(pos), old(error), sc, fwd, q, p), sc, fwd, o, memo, old(vars))
      ensures pos >= old(pos) && o.Some? && (o.value.GoOn? ==> o.value.q == q)
    {
      hide Running, ValidChain, Kept, KindOfName, FirstError, Stream.At, Stream.Kind, MemoOf, WellParams, SectionAt,
        Reached;
      var comma := AdvanceIf(COMMA);
      Look();
      Progress(old(pos));
      o := Some(if comma then GoOn(q, p) else EndOfParams(p));
    }

    // The loop of required parameters.
    method RequiredStep(p: MethodParams, memo: Memo, fwd: bool, selfOk: bool, classOk: bool) returns (o: Option<Step>)
      requires Valid() && pos <= |s.toks| && MemoOf(memo, p)
      modifies this
      ensures var sc := Sc(old(vars), selfOk, classOk);
              Stepped(RequiredAt(s, old(pos), old(error), sc, fwd && forwardingEnabled, p), sc,
                      fwd && forwardingEnabled, o, memo, old(vars))
      ensures o.Some? ==> pos >= old(pos) && (o.value.GoOn? && o.value.q == RequiredParams ==> pos > old(pos))
      decreases s.Left(pos), 11
    {
      hide Running, ValidChain, Kept, KindOfName, FirstError, Spanning, LocOf, After, Sc, Stream.At, Stream.Kind,
        IsKeyword, KeywordFollows, MemoOf, WellParam, WellParams, ParamAt, SectionAt, Reached, Continue;
      ghost var sc := Sc(vars, selfOk, classOk);
      Look();
      KeywordSeen();
      var k := next.kind;
      if k == QUESTION {
        return Some(GoOn(OptionalParams, p));
      } else if k == STAR {
        return Some(GoOn(RestParam, p));
      } else if k == STAR2 {
        return Some(GoOn(Section.Keywords, p));
      } else if k == RPAREN {
        return Some(EndOfParams(p));
      } else if k == DOT3 {
        if !fwd || !forwardingEnabled {
          SetError(next, true);
          return None;
        }
        Advance();
        Look();
        return Some(EndOfParams(p.(forwarding := Some(LocOf(current)))));
      } else if KeywordFollows() {
        return Some(GoOn(Section.Keywords, p));
      }
      var x := ParseParam(selfOk, classOk);
      if x.None? {
        return None;
      }
      MemoSame(memo, p, p.(required := p.required + [x.value]));
      o := AfterParam(RequiredParams, p.(required := p.required + [x.value]), memo, sc, fwd && forwardingEnabled);
    }

    // PARSE_OPTIONAL_PARAMS.
    method OptionalStep(p: MethodParams, memo: Memo, ghost fwd: bool, selfOk: bool, classOk: bool)
      returns (o: Option<Step>, memo': Memo)
      requires Valid() && pos <= |s.toks| && MemoOf(memo, p)
      modifies this
      ensures var sc := Sc(old(vars), selfOk, classOk);
              Stepped(OptionalParamAt(s, old(pos), old(error), sc, fwd, p), sc, fwd, o, memo', old(vars))
      ensures o.Some? ==>
                pos >= old(pos) && (o.value.GoOn? && o.value.q in {RequiredParams, OptionalParams} ==> pos > old(pos))
      decreases s.Left(pos), 14
    {
      hide Running, ValidChain, Kept, KindOfName, FirstError, Spanning, LocOf, After, Sc, Stream.At, Stream.Kind,
        IsKeyword, KeywordFollows, MemoOf, WellParam, WellParams, ParamAt, SectionAt, Reached, KeywordAt,
        OptionalParamAt, KeywordThen, OptionalThen, Stream.Left;
      ghost var sc := Sc(vars, selfOk, classOk);
      OptionalIs(s, pos, error, sc, fwd, p);
      memo' := memo;
      Look();
      if next.kind != QUESTION {
        return Some(GoOn(RestParam, p)), memo;
      }
      Advance();
      Look();
      KeywordSeen();
      Progress(old(pos));
      if KeywordFollows() {
        o, memo' := OptionalKeyword(p, memo, fwd, selfOk, classOk);
      } else {
        o := OptionalPositional(p, memo, fwd, selfOk, classOk);
      }
    }

    // After `?`, a keyword parameter; the comma after it may be missing.
    method OptionalKeyword(p: MethodParams, memo: Memo, ghost fwd: bool, selfOk: bool, classOk: bool)
      returns (o: Option<Step>, memo': Memo)
      requires Valid() && pos <= |s.toks| && MemoOf(memo, p) && IsKeyword(s, pos)
      modifies this
      ensures var sc := Sc(old(vars), selfOk, classOk);
              Stepped(KeywordThen(s, KeywordAt(s, old(pos), old(error), sc, p, false), sc, fwd), sc, fwd, o, memo', old(vars))
      ensures o.Some? ==> pos > old(pos) && o.value.GoOn? && o.value.q == Section.Keywords
      decreases s.Left(pos), 13
    {
      hide Running, ValidChain, Kept, KindOfName, FirstError, Sc, Stream.At, Stream.Kind, IsKeyword, MemoOf,
        WellParams, SectionAt, Reached, KeywordAt;
      var q;
      q, memo' := ParseKeyword(p, false, memo, selfOk, classOk);
      if q.None? {
        return None, memo';
      }
      var comma := AdvanceIf(COMMA);
      Look();
      Progress(old(pos));
      o := Some(GoOn(Section.Keywords, q.value));
    }

    // After `?`, an optional parameter.
    method OptionalPositional(p: MethodParams, memo: Memo, ghost fwd: bool, selfOk: bool, classOk: bool)
      returns (o: Option<Step>)
      requires Valid() && pos <= |s.toks| && MemoOf(memo, p)
      modifies this
      ensures var sc := Sc(old(vars), selfOk, classOk);
              Stepped(OptionalThen(s, ParamAt(s, old(pos), old(error), sc), sc, fwd, p), sc, fwd, o, memo, old(vars))
      ensures o.Some? ==> pos >= old(pos) && (o.value.GoOn? ==> o.value.q == OptionalParams)
      decreases s.Left(pos), 13
    {
      hide Running, ValidChain, Kept, KindOfName, FirstError, Sc, Stream.At, Stream.Kind, MemoOf, WellParam,
        WellParams, ParamAt, SectionAt, Reached, Continue;
      ghost var sc := Sc(vars, selfOk, classOk);
      var x := ParseParam(selfOk, classOk);
      if x.None? {
        return None;
      }
      Progress(old(pos));
      MemoSame(memo, p, p.(optional := p.optional + [x.value]));
      o := AfterParam(OptionalParams, p.(optional := p.optional + [x.value]), memo, sc, fwd);
    }

    // PARSE_REST_PARAM.
    method RestStep(p: MethodParams, memo: Memo, ghost fwd: bool, selfOk: bool, classOk: bool) returns (o: Option<Step>)
      requires Valid() && pos <= |s.toks| && MemoOf(memo, p)
      modifies this
      ensures var sc := Sc(old(vars), selfOk, classOk);
              Stepped(RestAt(s, old(pos), old(error), sc, fwd, p), sc, fwd, o, memo, old(vars))
      ensures o.Some? ==> pos >= old(pos) && (o.value.GoOn? ==> o.value.q == TrailingParams)
      decreases s.Left(pos), 11
    {
      hide Running, ValidChain, Kept, KindOfName, FirstError, Spanning, LocOf, After, Sc, Stream.At, Stream.Kind,
        MemoOf, WellParam, WellParams, ParamAt, SectionAt, Reached, Continue;
      ghost var sc := Sc(vars, selfOk, classOk);
      Look();
      if next.kind != STAR {
        return Some(GoOn(TrailingParams, p));
      }
      Advance();
      var x := ParseParam(selfOk, classOk);
      if x.None? {
        return None;
      }
      MemoSame(memo, p, p.(rest := Some(x.value)));
      o := AfterParam(TrailingParams, p.(rest := Some(x.value)), memo, sc, fwd);
    }

    // PARSE_TRAILING_PARAMS.
    method TrailingStep(p: MethodParams, memo: Memo, ghost fwd: bool, selfOk: bool, classOk: bool) returns (o: Option<Step>)
      requires Valid() && pos <= |s.toks| && MemoOf(memo, p)
      modifies this
      ensures var sc := Sc(old(vars), selfOk, classOk);
              Stepped(TrailingAt(s, old(pos), old(error), sc, fwd, p), sc, fwd, o, memo, old(vars))
      ensures o.Some? ==> pos >= old(pos)
      ensures o.Some? && o.value.GoOn? ==>
                o.value.q == Section.Keywords || (o.value.q == TrailingParams && pos > old(pos))
      decreases s.Left(pos), 11
    {
      hide Running, ValidChain, Kept, KindOfName, FirstError, Spanning, LocOf, After, Sc, Stream.At, Stream.Kind,
        IsKeyword, KeywordFollows, MemoOf, WellParam, WellParams, ParamAt, SectionAt, Reached, Continue;
      ghost var sc := Sc(vars, selfOk, classOk);
      Look();
      KeywordSeen();
      var k := next.kind;
      if k == QUESTION || k == STAR2 {
        return Some(GoOn(Section.Keywords, p));
      } else if k == STAR || k == RPAREN {
        return Some(EndOfParams(p));
      } else if KeywordFollows() {
        return Some(GoOn(Section.Keywords, p));
      }
      var x := ParseParam(selfOk, classOk);
      if x.None? {
        return None;
      }
      MemoSame(memo, p, p.(trailing := p.trailing + [x.value]));
      o := AfterParam(TrailingParams, p.(trailing := p.trailing + [x.value]), memo, sc, fwd);
    }

    // PARSE_KEYWORDS.
    method KeywordsStep(p: MethodParams, memo: Memo, ghost fwd: bool, selfOk: bool, classOk: bool)
      returns (o: Option<Step>, memo': Memo)
      requires Valid() && pos <= |s.toks| && MemoOf(memo, p)
      modifies this
      ensures var sc := Sc(old(vars), selfOk, classOk);
              Stepped(KeywordsAt(s, old(pos), old(error), sc, fwd, p), sc, fwd, o, memo', old(vars))
      ensures o.Some? ==> pos >= old(pos) && (o.value.GoOn? ==> pos > old(pos))
      decreases s.Left(pos), 13
    {
      hide Running, ValidChain, Kept, KindOfName, FirstError, Spanning, LocOf, After, Sc, Stream.At, Stream.Kind,
        IsKeyword, IsKeywordToken, KeywordFollows, MemoOf, WellParam, WellParams, ParamAt, SectionAt, Reached,
        Continue, KeywordAt;
      ghost var sc := Sc(vars, selfOk, classOk);
      memo' := memo;
      Look();
      if next.kind == STAR2 {
        Advance();
        var x := ParseParam(selfOk, classOk);
        if x.None? {
          return None, memo;
        }
        MemoSame(memo, p, p.(restKw := Some(x.value)));
        o := AfterParam(Section.Keywords, p.(restKw := Some(x.value)), memo, sc, fwd);
        return;
      }
      var required := next.kind != QUESTION;
      if required && !IsKeywordToken(next.kind) {
        return Some(EndOfParams(p)), memo;
      }
      if !required {
        Advance();
        Look();
      }
      KeywordSeen();
      if !KeywordFollows() {
        SetError(next, true);
        return None, memo;
      }
      var q;
      q, memo' := ParseKeyword(p, required, memo, selfOk, classOk);
      if q.None? {
        return None, memo';
      }
      o := AfterParam(Section.Keywords, q.value, memo', sc, fwd);
    }

    // parse_params.
    method ParseParams(fwd: bool, selfOk: bool, classOk: bool) returns (r: Option<ParamList>)
      requires Valid() && pos <= |s.toks|
      modifies this
      ensures Did(ParamsAt(s, old(pos), old(error), Sc(old(vars), selfOk, classOk), fwd && forwardingEnabled), r, old(vars))
      decreases s.Left(pos), 20
    {
      hide Running, ValidChain, Kept, KindOfName, FirstError, Sc, Stream.At, Stream.Kind, MemoOf, WellParams,
        RequiredAt, OptionalParamAt, RestAt, TrailingAt, KeywordsAt, Reached;
      ghost var sc, f := Sc(vars, selfOk, classOk), fwd && forwardingEnabled;
      Look();
      if next.kind == QUESTION && next2.kind == RPAREN {
        Advance();
        return Some(Untyped);
      }
      if next.kind == RPAREN {
        return Some(Typed(NO_PARAMS));
      }
      ghost var whole := SectionAt(s, pos, error, sc, f, RequiredParams, NO_PARAMS);
      var o: Option<Step>, memo: Memo := Some(GoOn(RequiredParams, NO_PARAMS)), [];
      MemoEmpty();
      while o.value.GoOn?
        invariant o.Some? && Stepped(whole, sc, f, o, memo, old(vars)) && pos >= old(pos)
        decreases s.Left(pos), if o.value.GoOn? then 1 + SectionRank(o.value.q) else 0
      {
        var q, p := o.value.q, o.value.p;
        ghost var before := pos;
        match q {
          case RequiredParams => o := RequiredStep(p, memo, fwd, selfOk, classOk);
          case OptionalParams => o, memo := OptionalStep(p, memo, f, selfOk, classOk);
          case RestParam => o := RestStep(p, memo, f, selfOk, classOk);
          case TrailingParams => o := TrailingStep(p, memo, f, selfOk, classOk);
          case Keywords => o, memo := KeywordsStep(p, memo, f, selfOk, classOk);
        }
        if o.None? {
          return None;
        }
        Progress(before);
      }
      Look();
      if next.kind != RPAREN {
        SetError(next, true);
        return None;
      }
      r := Some(Typed(o.value.p));
    }

    // The parenthesized parameters of parse_function, if there are any.
    method ParseParenParams(fwd: bool, selfOk: bool, classOk: bool) returns (ps: Option<ParamList>)
      requires Valid() && pos <= |s.toks|
      modifies this
      ensures Did(ParenParamsAt(s, old(pos), old(error), Sc(old(vars), selfOk, classOk), fwd && forwardingEnabled), ps, old(vars))
      decreases s.Left(pos), 20
    {
      hide Running, ValidChain, Kept, KindOfName, FirstError, Sc, Stream.At, Stream.Kind, WellParams, ParamsAt;
      ghost var i := pos;
      Look();
      if next.kind != LPAREN {
        return Some(Typed(NO_PARAMS));
      }
      Advance();
      Look();
      Progress(i);
      ps := ParseParams(fwd, selfOk, classOk);
      if ps.Some? {
        var ok := AdvanceAssert(RPAREN);
        assert ok;
      }
    }

    // parse_self_type_binding.
    method ParseSelfBinding(selfOk: bool, classOk: bool) returns (b: Option<Option<Type>>)
      requires Valid() && pos <= |s.toks|
      modifies this
      ensures Did(SelfBindingAt(s, old(pos), old(error), Sc(old(vars), selfOk, classOk)), b, old(vars))
      decreases s.Left(pos), 20
    {
      hide Running, ValidChain, Kept, KindOfName, FirstError, Sc, Stream.At, Stream.Kind, Well, TypeAt;
      ghost var i := pos;
      Look();
      if next.kind != LBRACKET {
        return Some(None);
      }
      Advance();
      var ok := AdvanceAssert(KW_SELF);
      if !ok {
        return None;
      }
      ok := AdvanceAssert(COLON);
      if !ok {
        return None;
      }
      Progress(i);
      var t := ParseType(false, selfOk, classOk);
      if t.None? {
        return None;
      }
      ok := AdvanceAssert(RBRACKET);
      b := if ok then Some(t) else None;
    }

    // `->` and the return type.
    method ParseReturn(selfOk: bool, classOk: bool) returns (t: Option<Type>)
      requires Valid()
      modifies this
      ensures Did(ReturnAt(s, old(pos), old(error), Sc(old(vars), selfOk, classOk)), t, old(vars))
      decreases s.Left(pos), 20
    {
      hide Running, ValidChain, Kept, KindOfName, FirstError, Sc, Stream.At, Stream.Kind, Well, OptionalAt;
      var ok := AdvanceAssert(ARROW);
      if !ok {
        return None;
      }
      t := ParseOptional(true, selfOk, classOk);
    }

    // The inside of a block: parameters, self binding and return type.
    method ParseSignature(selfOk: bool, classOk: bool) returns (g: Option<(ParamList, Option<Type>, Type)>)
      requires Valid() && pos <= |s.toks|
      modifies this
      ensures Did(SignatureAt(s, old(pos), old(error), Sc(old(vars), selfOk, classOk)), g, old(vars))
      decreases s.Left(pos), 21
    {
      hide Running, ValidChain, Kept, KindOfName, FirstError, Sc, Stream.At, Stream.Kind, Stream.Left, Well,
        WellParams, ParenParamsAt, SelfBindingAt, ReturnAt;
      ghost var i := pos;
      var ps := ParseParenParams(false, selfOk, classOk);
      if ps.None? {
        return None;
      }
      Progress(i);
      var self := ParseSelfBinding(selfOk, classOk);
      if self.None? {
        return None;
      }
      Progress(i);
      var ret := ParseReturn(selfOk, classOk);
      if ret.None? {
        return None;
      }
      g := Some((ps.value, self.value, ret.value));
    }

    // The block of parse_function, if there is one.
    method ParseBlock(selfOk: bool, classOk: bool) returns (b: Option<Option<Block>>)
      requires Valid() && pos <= |s.toks|
      modifies this
      ensures Did(BlockAt(s, old(pos), old(error), Sc(old(vars), selfOk, classOk)), b, old(vars))
      decreases s.Left(pos), 22
    {
      hide Running, ValidChain, Kept, KindOfName, FirstError, Spanning, Sc, Stream.At, Stream.Kind, Stream.Left, Well,
        WellBlock, WellParams, BlockEnd, BlockAt, SignatureAt;
      ghost var i := pos;
      BlockHasSignature(s, pos, error, Sc(vars, selfOk, classOk));
      Look();
      var start := next;
      var required := next.kind != QUESTION;
      if next.kind != LBRACE && (required || next2.kind != LBRACE) {
        return Some(None);
      }
      if !required {
        Advance();
      }
      Advance();
      Progress(i);
      b := ParseBlockBody(start, required, selfOk, classOk);
    }

    // The block after its opening brace.
    method ParseBlockBody(start: Token, required: bool, selfOk: bool, classOk: bool) returns (b: Option<Option<Block>>)
      requires Valid() && pos <= |s.toks|
      modifies this
      ensures Did(BlockEnd(s, SignatureAt(s, old(pos), old(error), Sc(old(vars), selfOk, classOk)), start, required), b,
                  old(vars))
      decreases s.Left(pos), 22
    {
      hide Running, ValidChain, Kept, KindOfName, FirstError, Spanning, Sc, Stream.At, Stream.Kind, Stream.Left, Well,
        WellParams, MakeFunction, SignatureAt;
      var g := ParseSignature(selfOk, classOk);
      if g.None? {
        return None;
      }
      var ok := AdvanceAssert(RBRACE);
      if !ok {
        return None;
      }
      Look();
      var loc := Spanning(start, current);
      b := Some(Some(Block(MakeFunction(g.value.0, g.value.2, loc), required, g.value.1, loc)));
    }

    // parse_function.
    method ParseFunction(binding: bool, blocks: bool, fwd: bool, selfOk: bool, classOk: bool)
      returns (f: Option<FunctionResult>)
      requires Valid() && pos <= |s.toks|
      modifies this
      ensures Did(FunctionAt(s, old(pos), old(error), Sc(old(vars), selfOk, classOk), binding, blocks,
                             fwd && forwardingEnabled), f, old(vars))
      decreases s.Left(pos), 25
    {
      hide Running, ValidChain, Kept, KindOfName, FirstError, Spanning, Sc, Stream.At, Stream.Kind, Stream.Left, Well,
        WellBlock, WellParams, WellResult, ParenParamsAt, SelfBindingAt, FunctionRest;
      ghost var i := pos;
      LookBack();
      var start := current;
      var ps := ParseParenParams(fwd, selfOk, classOk);
      if ps.None? {
        return None;
      }
      Progress(i);
      Look();
      var self: Option<Type> := None;
      if binding {
        var b := ParseSelfBinding(selfOk, classOk);
        if b.None? {
          return None;
        }
        self := b.value;
      } else if ps.value.Untyped? && next.kind != ARROW {
        SetError(next2, true);
        return None;
      }
      Progress(i);
      f := ParseFunctionRest(i, start, blocks, ps.value, self, selfOk, classOk);
    }

    // parse_function from the block on; its range starts at `start`.
    method ParseFunctionRest(ghost i: nat, start: Token, blocks: bool, ps: ParamList, self: Option<Type>,
                             selfOk: bool, classOk: bool)
      returns (f: Option<FunctionResult>)
      requires Valid() && pos <= |s.toks| && start == s.Current(i)
      modifies this
      ensures Did(FunctionRest(s, i, old(pos), old(error), Sc(old(vars), selfOk, classOk), blocks, ps, self), f, old(vars))
      decreases s.Left(pos), 24
    {
      hide Running, ValidChain, Kept, KindOfName, FirstError, Spanning, Sc, Stream.At, Stream.Kind, Stream.Left, Well,
        WellBlock, WellParams, WellResult, ReturnAt, BlockAt;
      ghost var sc := Sc(vars, selfOk, classOk);
      RestHasEnd(s, i, pos, error, sc, blocks, ps, self);
      hide FunctionRest, FunctionEnd;
      Look();
      var hasBlock := next.kind == LBRACE || (next.kind == QUESTION && next2.kind == LBRACE);
      if hasBlock && ps.Typed? && ps.params.forwarding.Some? {
        SetError(next, true);
        return None;
      }
      if hasBlock && !blocks {
        SetError(next, true);
        return None;
      }
      f := ParseFunctionEnd(start, ps, self, selfOk, classOk);
    }

    // The block and the return type of parse_function.
    method ParseFunctionEnd(start: Token, ps: ParamList, self: Option<Type>, selfOk: bool, classOk: bool)
      returns (f: Option<FunctionResult>)
      requires Valid() && pos <= |s.toks|
      modifies this
      ensures var sc := Sc(old(vars), selfOk, classOk);
              Did(FunctionEnd(s, BlockAt(s, old(pos), old(error), sc), sc, start, ps, self), f, old(vars))
      decreases s.Left(pos), 23
    {
      hide Running, ValidChain, Kept, KindOfName, FirstError, Spanning, Sc, Stream.At, Stream.Kind, Stream.Left, Well,
        WellBlock, WellParams, WellResult, MakeFunction, ReturnAt, BlockAt;
      var block := ParseBlock(selfOk, classOk);
      if block.None? {
        return None;
      }
      Progress(old(pos));
      var ret := ParseReturn(selfOk, classOk);
      if ret.None? {
        return None;
      }
      Look();
      f := Some(FunctionResult(MakeFunction(ps, ret.value, Spanning(start, current)), block.value, self));
    }

    // parse_proc_type.
    method ParseProcType(ghost i: nat, selfOk: bool, classOk: bool) returns (t: Option<Type>)
      requires Valid() && pos == i + 1 <= |s.toks| && s.Kind(i) == HAT
      modifies this
      ensures Did(ProcAt(s, i, old(error), Sc(old(vars), selfOk, classOk)), t, old(vars))
      decreases s.Left(i), 3
    {
      hide Running, ValidChain, Kept, KindOfName, FirstError, Spanning, Sc, Stream.At, Stream.Kind, Stream.Left, Well,
        WellResult, FunctionAt;
      Look();
      Progress(i);
      var start := current;
      var f := ParseFunction(true, true, false, selfOk, classOk);
      if f.None? {
        return None;
      }
      Look();
      t := Some(Proc(f.value.fn, f.value.block, f.value.selfType, Spanning(start, current)));
    }

    // ---- type variables -----------------------------------------------------------------------------

    // rbs_parser_push_typevar_table.
    method PushTypevarTable(reset: bool)
      requires Valid()
      modifies `vars
      ensures Valid() && vars == Push(old(vars), reset) && vars != []
    {
      hide Running;
      PushThenPop(vars, reset);
      hide ValidChain;
      if reset {
        vars := [RESET_TABLE] + vars;
      }
      vars := [EMPTY_TABLE] + vars;
      assert vars == Push(old(vars), reset);
    }

    // parser_pop_typevar_table.
    method PopTypevarTable() returns (ok: bool)
      requires Valid()
      modifies `vars, `error
      ensures ok == (old(vars) != [])
      ensures if ok then vars == Pop(old(vars)) && error == old(error)
              else vars == old(vars) && error == Some(FirstError(old(error), current, false))
    {
      ok := vars != [];
      if !ok {
        SetError(current, false);
        return;
      }
      vars := vars[1..];
      if vars != [] && vars[0].Reset() {
        vars := vars[1..];
      }
    }

    // rbs_parser_insert_typevar.
    method InsertTypevar(x: string) returns (ok: bool)
      requires vars != [] && vars[0].Valid()
      modifies `vars, `error
      ensures ok == !old(vars)[0].Reset()
      ensures if ok then vars == Scopes.Insert(old(vars), x) && error == old(error)
              else vars == old(vars) && error == Some(FirstError(old(error), current, false))
    {
      var table := vars[0];
      ok := !table.Reset();
      if !ok {
        SetError(current, false);
        return;
      }
      if table.size == table.count {
        table := IdTable(table.size + 10, table.count, table.ids[..table.count] + Blank(table.size + 10 - table.count));
      }
      table := table.(ids := table.ids[table.count := x], count := table.count + 1);
      vars := vars[0 := table];
    }

    // No reset table is on top, so the name is entered.
    method EnterTypevar(x: string)
      requires Valid() && vars != []
      modifies `vars, `error
      ensures Valid() && Enters(old(vars), vars, {x}) && error == old(error)
    {
      hide Running;
      InsertIsVisible(vars, x);
      assert vars[0] in vars;
      var ok := InsertTypevar(x);
    }

    // Like Did, for a routine that enters names into the table on top.
    ghost predicate DidEnter<T>(r: Outcome<T>, t: Option<T>, tables: Chain, names: set<string>)
      reads this
    {
      && Valid()
      && match r {
           case Ok(x, p, e) => t == Some(x) && pos == p && error == e && Enters(tables, vars, names)
           case Fail(e) => t == None && error == Some(e)
         }
    }

    // One of the two rounds of the loop over bounds in parse_type_params.
    method ParseBound(b: Bounds) returns (r: Option<Bounds>)
      requires Valid() && pos <= |s.toks|
      modifies this
      ensures Did(BoundAt(s, old(pos), old(error), Sc(old(vars), false, false), b), r, old(vars))
    {
      hide Running, ValidChain, Kept, KindOfName, FirstError, Sc, Stream.At, Stream.Kind, Well, WellBounds, TypeAt;
      Look();
      r := Some(b);
      if next.kind == LT {
        if b.upper.Some? {
          SetError(next, true);
          return None;
        }
        Advance();
        var t := ParseType(false, false, false);
        r := if t.Some? then Some(b.(upper := t)) else None;
      } else if next.kind == GT {
        if b.lower.Some? {
          SetError(next, true);
          return None;
        }
        Advance();
        var t := ParseType(false, false, false);
        r := if t.Some? then Some(b.(lower := t)) else None;
      }
    }

    // The loop over bounds.
    method ParseBounds() returns (b: Option<Bounds>)
      requires Valid() && pos <= |s.toks|
      modifies this
      ensures Did(BoundsAt(s, old(pos), old(error), Sc(old(vars), false, false)), b, old(vars))
    {
      hide Running, ValidChain, Kept, KindOfName, FirstError, Sc, Stream.At, Stream.Kind, WellBounds, BoundAt;
      b := Some(Bounds(None, None));
      var attempt := 0;
      while attempt < 2
        invariant 0 <= attempt <= 2 && b.Some? && pos <= |s.toks|
        invariant attempt == 0 ==> Did(Ok(Bounds(None, None), old(pos), old(error)), b, old(vars))
        invariant attempt == 1 ==>
                    Did(BoundAt(s, old(pos), old(error), Sc(old(vars), false, false), Bounds(None, None)), b, old(vars))
        invariant attempt == 2 ==> Did(BoundsAt(s, old(pos), old(error), Sc(old(vars), false, false)), b, old(vars))
      {
        b := ParseBound(b.value);
        if b.None? {
          return;
        }
        attempt := attempt + 1;
      }
    }

    // The default type of a module type parameter.
    method ParseDefault(requiredOk: bool) returns (r: Option<Option<Type>>)
      requires Valid() && 0 < pos <= |s.toks|
      modifies this
      ensures Did(DefaultAt(s, old(pos), old(error), Sc(old(vars), false, false), requiredOk), r, old(vars))
    {
      hide Running, ValidChain, Kept, KindOfName, FirstError, Sc, Stream.At, Stream.Kind, Well, TypeAt;
      Look();
      r := Some(None);
      if next.kind == EQ {
        Advance();
        var t := ParseType(true, false, false);
        r := if t.Some? then Some(t) else None;
      } else if !requiredOk {
        SetError(current, true);
        r := None;
      }
    }

    // What follows the name of a parameter.
    method ParseTail(moduleParams: bool, requiredOk: bool) returns (r: Option<(Bounds, Option<Type>)>)
      requires Valid() && 0 < pos <= |s.toks|
      modifies this
      ensures Did(TailAt(s, old(pos), old(error), Sc(old(vars), false, false), moduleParams, requiredOk), r, old(vars))
    {
      hide Running, ValidChain, Kept, KindOfName, FirstError, Sc, Stream.At, Stream.Kind, Well, WellBounds, BoundsAt,
        DefaultAt;
      var b := ParseBounds();
      if b.None? {
        return None;
      }
      if !moduleParams {
        return Some((b.value, None));
      }
      var d := ParseDefault(requiredOk);
      r := if d.Some? then Some((b.value, d.value)) else None;
    }

    // `unchecked` and the variance of a module type parameter, up to the name.
    method ParseModifiers(moduleParams: bool) returns (unchecked: bool, variance: Variance)
      requires Valid()
      modifies this
      ensures Valid() && vars == old(vars) && error == old(error)
      ensures old(pos) <= pos == NameIndex(s, old(pos), moduleParams)
      ensures variance == if moduleParams then VarianceBefore(s, old(pos), pos) else Invariant
      ensures unchecked == (moduleParams && s.Kind(old(pos)) == KW_UNCHECKED)
    {
      hide Running, ValidChain, Stream.At, Stream.Kind;
      unchecked, variance := false, Invariant;
      Look();
      if moduleParams {
        if next.kind == KW_UNCHECKED {
          unchecked := true;
          Advance();
          Look();
        }
        if next.kind == KW_IN || next.kind == KW_OUT {
          variance := if next.kind == KW_IN then Contravariant else Covariant;
          Advance();
        }
      }
    }

    // One round of the loop of parse_type_params: the name is entered before the bounds are read.
    method ParseTypeParam(moduleParams: bool, requiredOk: bool) returns (p: Option<TypeParam>)
      requires Valid() && vars != []
      modifies this
      ensures DidEnter(TypeParamAt(s, old(pos), old(error), Visible(old(vars)), moduleParams, requiredOk), p, old(vars),
                       if p.Some? then {p.value.name} else {})
    {
      hide Running, ValidChain, Kept, KindOfName, FirstError, Spanning, Visible, Stream.At, Stream.Kind, Stream.Left,
        Well, WellBounds, WellTypeParam, TailAt, NameIndex, VarianceBefore, Scopes.Insert, Enters;
      p := None;
      Look();
      var start := next;
      var unchecked, variance := ParseModifiers(moduleParams);
      ghost var n := pos;
      var ok := AdvanceAssert(UIDENT);
      if !ok {
        return;
      }
      Look();
      Progress(n);
      var name := current.text;
      ghost var before := vars;
      EnterTypevar(name);
      EntersOne(before, vars, name);
      var r := ParseTail(moduleParams, requiredOk);
      if r.None? {
        return;
      }
      Look();
      p := Some(TypeParam(name, variance, r.value.0.upper, r.value.0.lower, r.value.1, unchecked, Spanning(start, current)));
    }

    // parse_type_params.
    method ParseTypeParams(moduleParams: bool) returns (ps: Option<seq<TypeParam>>)
      requires Valid() && vars != [] && pos <= |s.toks|
      modifies this
      ensures DidEnter(TypeParamsAt(s, old(pos), old(error), Visible(old(vars)), moduleParams), ps, old(vars),
                       if ps.Some? then NamesOf(ps.value) else {})
    {
      hide Running, ValidChain, Kept, KindOfName, FirstError, Visible, Stream.At, Stream.Kind, NamesOf, WellTypeParam,
        TypeParamsFrom, Enters;
      Look();
      NoNames();
      EntersNothing(vars) by { assert ValidChain(vars); }
      if next.kind != LBRACKET {
        return Some([]);
      }
      Advance();
      ps := ParseTypeParamList(moduleParams);
    }

    // The loop of parse_type_params.
    method ParseTypeParamList(moduleParams: bool) returns (ps: Option<seq<TypeParam>>)
      requires Valid() && vars != []
      modifies this
      ensures DidEnter(TypeParamsFrom(s, old(pos), old(error), Visible(old(vars)), moduleParams, true, []), ps, old(vars),
                       if ps.Some? then NamesOf(ps.value) else {})
    {
      hide Running, ValidChain, Kept, KindOfName, FirstError, Visible, Stream.At, Stream.Kind, NamesOf, WellTypeParam,
        TypeParamAt, TypeParamsFrom, Enters;
      NoNames();
      EntersNothing(vars) by { assert ValidChain(vars); }
      ghost var whole := TypeParamsFrom(s, pos, error, Visible(vars), moduleParams, true, []);
      var params: seq<TypeParam>, requiredOk := [], true;
      while true
        invariant Valid() && vars != [] && Enters(old(vars), vars, NamesOf(params))
        invariant TypeParamsFrom(s, pos, error, Visible(vars), moduleParams, requiredOk, params) == whole
        decreases s.Left(pos)
      {
        ghost var before := vars;
        TypeParamsStep(s, pos, error, Visible(vars), moduleParams, requiredOk, params);
        var p := ParseTypeParam(moduleParams, requiredOk);
        if p.None? {
          return None;
        }
        EntersMore(old(vars), before, vars, NamesOf(params), p.value.name);
        NamesGrow(params, p.value);
        EntersOne(before, vars, p.value.name);
        params := params + [p.value];
        requiredOk := requiredOk && p.value.default.None?;
        Look();
        if next.kind == COMMA {
          Advance();
        } else if next.kind == RBRACKET {
          Advance();
          return Some(params);
        } else {
          SetError(next, true);
          return None;
        }
      }
    }

    lemma NoNames()
      ensures NamesOf([]) == {}
    {}

    lemma EntersOne(c: Chain, d: Chain, x: string)
      requires Enters(c, d, {x})
      ensures d != [] && Visible(d) == Visible(c) + {x}
    {}

    // rbs_parse_method_type: whatever it returns true for, the tables are as they were.
    method ParseMethodType(requireEof: bool, classOk: bool) returns (m: Option<MethodType>)
      requires Valid() && pos <= |s.toks|
      modifies this
      ensures Valid()
      ensures match MethodTypeAt(s, old(pos), old(error), Visible(old(vars)), requireEof, classOk, forwardingEnabled) {
                case Ok(x, p, e) => m == Some(x) && pos == p && error == e && vars == old(vars)
                case Fail(e) => m == None && error == Some(e)
              }
    {
      hide Running, ValidChain, Kept, KindOfName, FirstError, Spanning, Visible, Stream.At, Stream.Kind, NamesOf,
        WellResult, TypeParamsAt, FunctionAt, Push, Pop;
      ghost var outer := vars;
      PushThenPop(vars, false);
      PushTypevarTable(false);
      Look();
      var start := next;
      var ps := ParseTypeParams(false);
      if ps.None? {
        return None;
      }
      ScopeCloses(outer, false, vars, NamesOf(ps.value));
      var f := ParseFunction(false, true, true, true, classOk);
      if f.None? {
        return None;
      }
      var ok := PopTypevarTable();
      assert ok && vars == outer;
      Look();
      var end := current;
      if requireEof {
        ok := AdvanceAssert(EOF);
        if !ok {
          return None;
        }
      }
      m := Some(MethodType(ps.value, f.value.fn, f.value.block, Spanning(start, end)));
    }

    lemma AcceptedParamsOnly(i: nat, e: Errors, moduleParams: bool)
      requires i <= |s.toks|
      ensures var r := TypeParamsAt(s, i, e, {}, moduleParams);
              && (r.Ok? ==> WellTypeParams(r.value, {}) && ShapedTypeParams(r.value, moduleParams))
              && (e.Some? ==> if r.Ok? then r.err == e else r.error == e.value)
    {
      assert MethodTypes.Read([], {}, {}, moduleParams, true);
      AcceptedTypeParams(s, i + 1, e, {}, {}, moduleParams, true, []);
    }

    // The public rbs_parse_type_params: the one routine that pushes and never pops.
    method ParseTypeParamsOnly(moduleParams: bool) returns (ps: Option<seq<TypeParam>>)
      requires Valid() && pos <= |s.toks|
      modifies this
      ensures Valid() && (ps.None? ==> error.Some?) && (old(error).Some? ==> error == old(error))
      ensures ps.Some? ==> WellTypeParams(ps.value, {}) && ShapedTypeParams(ps.value, moduleParams)
      ensures ps.Some? ==> vars != [] && vars[0] == EMPTY_TABLE && Visible(vars) == NamesOf(ps.value)
      ensures ps.Some? ==> Pop(vars) != [] && Pop(Pop(vars)) == old(vars)
    {
      hide Running, ValidChain, Kept, KindOfName, Stream.At, Stream.Kind, NamesOf, WellTypeParams, ShapedTypeParams,
        TypeParamsAt, Enters, Pop, Visible;
      ghost var outer := vars;
      Look();
      if next.kind != LBRACKET {
        SetError(next, true);
        return None;
      }
      PushThenPop(vars, true);
      PushTypevarTable(true);
      AcceptedParamsOnly(pos, error, moduleParams);
      ps := ParseTypeParams(moduleParams);
      if ps.Some? {
        ScopeCloses(outer, true, vars, NamesOf(ps.value));
      }
      PushThenPop(vars, false);
      PushTypevarTable(false);
      var ok := AdvanceAssert(EOF);
      if !ok {
        return None;
      }
    }
  }

  ghost function SignatureAt(s: Stream, i: nat, e: Errors, sc: Scope): (r: Outcome<(ParamList, Option<Type>, Type)>)
    requires i <= |s.toks|
    ensures r.Ok? ==> i < r.pos <= |s.toks|
  {
    var ps := ParenParamsAt(s, i, e, sc, false);
    if ps.Fail? then Fail(ps.error)
    else
      var self := SelfBindingAt(s, ps.pos, ps.err, sc);
      if self.Fail? then Fail(self.error)
      else
        var ret := ReturnAt(s, self.pos, self.err, sc);
        if ret.Fail? then Fail(ret.error) else Ok((ps.value, self.value, ret.value), ret.pos, ret.err)
  }

  ghost function BlockEnd(s: Stream, g: Outcome<(ParamList, Option<Type>, Type)>, start: Token, required: bool)
    : Outcome<Option<Block>>
  {
    if g.Fail? then Fail(g.error)
    else if s.Kind(g.pos) != RBRACE then Refuse(g.err, s.At(g.pos))
    else
      var loc := Spanning(start, s.At(g.pos));
      Ok(Some(Block(MakeFunction(g.value.0, g.value.2, loc), required, g.value.1, loc)), g.pos + 1, g.err)
  }

  lemma BlockHasSignature(s: Stream, i: nat, e: Errors, sc: Scope)
    requires i <= |s.toks|
    ensures !BlockFollows(s, i) ==> BlockAt(s, i, e, sc) == Ok(None, i, e)
    ensures BlockFollows(s, i) ==>
              var b := if s.Kind(i) == QUESTION then i + 2 else i + 1;
              b <= |s.toks|
              && BlockAt(s, i, e, sc) == BlockEnd(s, SignatureAt(s, b, e, sc), s.At(i), s.Kind(i) != QUESTION)
  {
    hide Kept, KindOfName, FirstError, Spanning, Well, WellBlock, WellParams, ParenParamsAt, SelfBindingAt, ReturnAt;
  }

  // Past the keyword parameter after a `?` in the section of optional parameters.
  ghost function KeywordThen(s: Stream, r: Outcome<MethodParams>, sc: Scope, fwd: bool): Outcome<MethodParams>
    requires r.Ok? ==> r.pos <= |s.toks|
  {
    if r.Fail? then r
    else if s.Kind(r.pos) == COMMA then SectionAt(s, r.pos + 1, r.err, sc, fwd, Section.Keywords, r.value)
    else SectionAt(s, r.pos, r.err, sc, fwd, Section.Keywords, r.value)
  }

  ghost function OptionalThen(s: Stream, r: Outcome<Param>, sc: Scope, fwd: bool, p: MethodParams): Outcome<MethodParams>
    requires r.Ok? ==> r.pos <= |s.toks|
  {
    if r.Fail? then Fail(r.error)
    else Continue(s, r.pos, r.err, sc, fwd, OptionalParams, p.(optional := p.optional + [r.value]))
  }

  lemma OptionalIs(s: Stream, i: nat, e: Errors, sc: Scope, fwd: bool, p: MethodParams)
    requires i <= |s.toks|
    ensures OptionalParamAt(s, i, e, sc, fwd, p)
         == if s.Kind(i) != QUESTION then SectionAt(s, i, e, sc, fwd, RestParam, p)
            else if IsKeyword(s, i + 1) then KeywordThen(s, KeywordAt(s, i + 1, e, sc, p, false), sc, fwd)
            else OptionalThen(s, ParamAt(s, i + 1, e, sc), sc, fwd, p)
  {
    hide Kept, FirstError, Well, WellParam, WellParams, Reached, IsKeyword, KeywordAt, ParamAt, SectionAt, Continue;
  }

  ghost function FunctionEnd(s: Stream, block: Outcome<Option<Block>>, sc: Scope, start: Token, ps: ParamList,
                             self: Option<Type>): Outcome<FunctionResult> {
    if block.Fail? then Fail(block.error)
    else
      var ret := ReturnAt(s, block.pos, block.err, sc);
      if ret.Fail? then Fail(ret.error)
      else
        Ok(FunctionResult(MakeFunction(ps, ret.value, Spanning(start, s.At(ret.pos - 1))), block.value, self),
           ret.pos, ret.err)
  }

  lemma RestHasEnd(s: Stream, i: nat, j: nat, e: Errors, sc: Scope, blocks: bool, ps: ParamList, self: Option<Type>)
    requires j <= |s.toks|
    ensures FunctionRest(s, i, j, e, sc, blocks, ps, self)
         == if BlockFollows(s, j) && ((ps.Typed? && ps.params.forwarding.Some?) || !blocks) then Refuse(e, s.At(j))
            else FunctionEnd(s, BlockAt(s, j, e, sc), sc, s.Current(i), ps, self)
  {
    hide Kept, KindOfName, FirstError, Spanning, Well, WellBlock, WellParams, WellResult, BlockAt, ReturnAt,
      MakeFunction;
  }

  // A key of a record up to the separator, which comes at `n`.
  ghost function KeyEnd(s: Stream, key: Literal, n: nat, e: Errors, acc: Fields, separator: TokenKind): Outcome<Literal>
    requires n > 0
  {
    var e' := CheckDuplicate(e, acc, key, s.At(n - 1));
    if s.Kind(n) != separator then Refuse(e', s.At(n)) else Ok(key, n + 1, e')
  }

  lemma FieldKeyIs(s: Stream, i: nat, e: Errors, acc: Fields)
    ensures var n := if s.Kind(i) == QUESTION then i + 1 else i;
            FieldKeyAt(s, i, e, acc) ==
            if IsKeyword(s, n) then KeyEnd(s, SymbolLit(KeyAt(s, n).0), KeyAt(s, n).1, e, acc, COLON)
            else if s.Kind(n) == EOF || LiteralOf(s.At(n)).None? then Refuse(e, s.At(n))
            else KeyEnd(s, LiteralOf(s.At(n)).value, n + 1, e, acc, FAT_ARROW)
  {
    hide LiteralOf, IsKeywordToken, CheckDuplicate;
  }

  lemma LiteralIsRead(s: Stream, i: nat, e: Errors, sc: Scope)
    requires s.Kind(i) != EOF && LiteralOf(s.At(i)).Some?
    ensures SimpleAt(s, i, e, false, sc) == Ok(LiteralType(LiteralOf(s.At(i)).value, LocOf(s.At(i))), i + 1, e)
  {
    hide Well, BaseAllowed, Kept, Stream.Left, KindOfName, TypeAt, RecordAt, ProcAt, TupleAt, ApplicationAt,
      SingletonAt, LiteralOf, BaseOf;
    LiteralIsNoBase(s.At(i));
  }

  lemma LiteralIsNoBase(t: Token)
    requires LiteralOf(t).Some?
    ensures t.kind != LPAREN && BaseOf(t.kind).None?
  {}
}
