/** `use` directives (src/parser.c:3105-3253): what their routines read, and that they accept exactly the directives
    written out, with the clauses that were written. */
module Uses {
  import opened Ast
  import opened Grammar
  import opened Tokens
  import opened WellFormed

  datatype Namespace = Namespace(absolute: bool, path: seq<string>)

  datatype UseClause =
    | Single(name: TypeName, newName: Option<string>)
    | Wildcard(ns: Namespace)

  // ---- what is read ----------------------------------------------------------------------------------

  // The path of parse_namespace from token `i` on. Unlike in a type name, its tokens need not touch.
  function NamespacePath(s: Stream, i: nat): seq<string>
    decreases s.Left(i)
  {
    if s.Kind(i) == UIDENT && s.Kind(i + 1) == COLON2 then [s.At(i).text] + NamespacePath(s, i + 2) else []
  }

  // parse_namespace, which never fails.
  function NamespaceAt(s: Stream, i: nat): Namespace {
    Namespace(s.Kind(i) == COLON2, NamespacePath(s, if s.Kind(i) == COLON2 then i + 1 else i))
  }

  // How many tokens a namespace takes.
  function Width(ns: Namespace): nat {
    (if ns.absolute then 1 else 0) + 2 * |ns.path|
  }

  // The kinds of token that can end a clause's name; keywords cannot, although a type may be named by some.
  function KindOfUse(k: TokenKind): Option<NameKind> {
    if k == UIDENT then Some(ClassName)
    else if k == ULIDENT then Some(InterfaceName)
    else if k == LIDENT then Some(AliasName)
    else None
  }

  // One round of parse_use_clauses.
  function ClauseAt(s: Stream, i: nat, e: Errors): (r: Outcome<UseClause>)
    ensures r.Ok? ==> i < r.pos <= |s.toks| && r.err == e
    ensures Kept(e, r)
  {
    var ns := NamespaceAt(s, i);
    var j := i + Width(ns);
    var kind := KindOfUse(s.Kind(j));
    if kind.Some? then
      var name := TypeName(ns.absolute, ns.path, kind.value, s.At(j).text);
      if s.Kind(j + 1) != KW_AS then Ok(Single(name, None), j + 1, e)
      else if s.Kind(j + 2) == s.Kind(j) then Ok(Single(name, Some(s.At(j + 2).text)), j + 3, e)
      else Refuse(e, s.At(j + 2))
    else if s.Kind(j) == STAR then Ok(Wildcard(ns), j + 1, e)
    else Refuse(e, s.At(j))
  }

  function Prefixed<T>(xs: seq<T>, r: Outcome<seq<T>>): Outcome<seq<T>> {
    if r.Fail? then r else Ok(xs + r.value, r.pos, r.err)
  }

  lemma PrefixedNothing<T>(r: Outcome<seq<T>>)
    ensures Prefixed([], r) == r
  {
    assert r.Ok? ==> [] + r.value == r.value;
  }

  lemma PrefixedMore<T>(xs: seq<T>, x: T, r: Outcome<seq<T>>)
    ensures Prefixed(xs, Prefixed([x], r)) == Prefixed(xs + [x], r)
  {
    if r.Ok? {
      assert xs + ([x] + r.value) == xs + [x] + r.value;
    }
  }

  // parse_use_clauses.
  function ClausesAt(s: Stream, i: nat, e: Errors): (r: Outcome<seq<UseClause>>)
    ensures r.Ok? ==> i < r.pos <= |s.toks| && r.err == e && r.value != []
    ensures Kept(e, r)
    decreases s.Left(i)
  {
    var c := ClauseAt(s, i, e);
    if c.Fail? then Fail(c.error)
    else if s.Kind(c.pos) != COMMA then Ok([c.value], c.pos, c.err)
    else Prefixed([c.value], ClausesAt(s, c.pos + 1, c.err))
  }

  // The directives at the head of a signature.
  function DirectivesAt(s: Stream, i: nat, e: Errors): (r: Outcome<seq<seq<UseClause>>>)
    requires i <= |s.toks|
    ensures r.Ok? ==> i <= r.pos <= |s.toks| && r.err == e
    ensures Kept(e, r)
    decreases s.Left(i)
  {
    if s.Kind(i) != KW_USE then Ok([], i, e)
    else
      var c := ClausesAt(s, i + 1, e);
      if c.Fail? then Fail(c.error) else Prefixed([c.value], DirectivesAt(s, c.pos, c.err))
  }

  // ---- what is written -------------------------------------------------------------------------------

  predicate WritesPath(s: Stream, i: nat, path: seq<string>)
    decreases |path|
  {
    path != [] ==>
      && s.Kind(i) == UIDENT && s.At(i).text == path[0] && s.Kind(i + 1) == COLON2
      && WritesPath(s, i + 2, path[1..])
  }

  predicate WritesNamespace(s: Stream, i: nat, ns: Namespace) {
    (ns.absolute ==> s.Kind(i) == COLON2) && WritesPath(s, if ns.absolute then i + 1 else i, ns.path)
  }

  function NamespaceOf(c: UseClause): Namespace {
    match c
    case Single(n, _) => Namespace(n.absolute, n.path)
    case Wildcard(ns) => ns
  }

  function UseToken(k: NameKind): TokenKind {
    match k
    case ClassName => UIDENT
    case InterfaceName => ULIDENT
    case AliasName => LIDENT
  }

  // `Foo::Bar`, `Foo::Bar as Baz` or `Foo::*`, the new name of the same kind as the old one.
  predicate WritesClause(s: Stream, i: nat, c: UseClause) {
    var j := i + Width(NamespaceOf(c));
    && WritesNamespace(s, i, NamespaceOf(c))
    && match c
       case Wildcard(_) => s.Kind(j) == STAR
       case Single(n, other) =>
         && s.Kind(j) == UseToken(n.kind) && s.At(j).text == n.name
         && (other.Some? ==>
               && s.Kind(j + 1) == KW_AS
               && s.Kind(j + 2) == UseToken(n.kind) && s.At(j + 2).text == other.value)
  }

  function ClauseEnd(i: nat, c: UseClause): nat {
    i + Width(NamespaceOf(c)) + if c.Single? && c.newName.Some? then 3 else 1
  }

  // The clauses one after another with commas between them, from token `i` to before token `j`.
  predicate WritesClauses(s: Stream, i: nat, j: nat, cs: seq<UseClause>)
    requires cs != []
    decreases |cs|
  {
    && WritesClause(s, i, cs[0])
    && if |cs| == 1 then j == ClauseEnd(i, cs[0])
       else s.Kind(ClauseEnd(i, cs[0])) == COMMA && WritesClauses(s, ClauseEnd(i, cs[0]) + 1, j, cs[1..])
  }

  // A token of this kind after the clause does not go on with it.
  predicate Delimits(k: TokenKind, c: UseClause) {
    c.Single? && c.newName.None? ==> k != KW_AS && (c.name.kind == ClassName ==> k != COLON2)
  }

  // ---- the same thing --------------------------------------------------------------------------------

  lemma {:induction false} PathExactly(s: Stream, i: nat, path: seq<string>)
    ensures NamespacePath(s, i) == path <==>
              && WritesPath(s, i, path)
              && !(s.Kind(i + 2 * |path|) == UIDENT && s.Kind(i + 2 * |path| + 1) == COLON2)
    decreases |path|
  {
    if path == [] {
    } else {
      PathExactly(s, i + 2, path[1..]);
      assert path == [path[0]] + path[1..];
    }
  }

  // A clause is accepted exactly if it is written and nothing after it goes on with it.
  lemma ClauseExactly(s: Stream, i: nat, j: nat, e: Errors, c: UseClause)
    ensures ClauseAt(s, i, e) == Ok(c, j, e) <==>
              WritesClause(s, i, c) && j == ClauseEnd(i, c) && Delimits(s.Kind(j), c)
  {
    hide NamespacePath;
    var ns := NamespaceOf(c);
    PathExactly(s, if ns.absolute then i + 1 else i, ns.path);
  }

  // A list of clauses is accepted exactly if it is written, no comma follows and nothing goes on with its last
  // clause; then the clauses are those that were written.
  lemma {:induction false} ClausesExactly(s: Stream, i: nat, j: nat, e: Errors, cs: seq<UseClause>)
    requires cs != []
    ensures ClausesAt(s, i, e) == Ok(cs, j, e) <==>
              WritesClauses(s, i, j, cs) && s.Kind(j) != COMMA && Delimits(s.Kind(j), cs[|cs| - 1])
    decreases |cs|
  {
    hide ClauseAt, WritesClause, ClauseEnd, Kept, Stream.Kind;
    var m, first := ClauseEnd(i, cs[0]), ClauseAt(s, i, e);
    ClauseExactly(s, i, m, e, cs[0]);
    if first.Ok? {
      ClauseExactly(s, i, first.pos, e, first.value);
    }
    assert cs == if |cs| == 1 then [cs[0]] else [cs[0]] + cs[1..];
    if |cs| > 1 {
      ClausesExactly(s, m + 1, j, e, cs[1..]);
      assert cs[1..][|cs| - 2] == cs[|cs| - 1];
    }
    if first.Ok? && s.Kind(first.pos) == COMMA {
      var rest := ClausesAt(s, first.pos + 1, e);
      assert rest.Ok? ==> ([first.value] + rest.value)[1..] == rest.value;
    }
  }
}
