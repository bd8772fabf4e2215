/** The order of the fields of an accepted record: a repeated key keeps its place in the table and takes the value that
    comes last (src/ast.c), so whether the field types are in the order of the source is a question of the keys alone. */
module Records {
  import opened Ast
  import opened Containers
  import opened Grammar
  import opened Locations
  import opened Nesting
  import opened Tokens
  import opened WellFormed

  // The keys in the order in which the loop of parse_record_attributes reads them.
  ghost function KeysAt(s: Stream, i: nat, e: Errors, sc: Scope, acc: Fields): seq<Literal>
    decreases s.Left(i)
  {
    var k, r := FieldKeyAt(s, i, e, acc), FieldAt(s, i, e, sc, acc);
    if r.Fail? then []
    else if s.Kind(r.pos) == COMMA && s.Kind(r.pos + 1) != RBRACE
    then [k.value] + KeysAt(s, r.pos + 1, r.err, sc, r.value)
    else [k.value]
  }

  // Every key with the place where it comes last, in the order in which they come first.
  function LastPlaces(keys: seq<Literal>): seq<Entry<Literal, nat>> {
    if keys == [] then []
    else HashSet(LastPlaces(keys[..|keys| - 1]), keys[|keys| - 1], |keys| - 1)
  }

  // The keys come last in the order in which they come first.
  ghost predicate KeysInOrder(keys: seq<Literal>) {
    var h := LastPlaces(keys);
    forall m, n :: 0 <= m < n < |h| ==> h[m].value < h[n].value
  }

  ghost predicate FieldsInOrder(fs: Fields) {
    forall m, n :: 0 <= m < n < |fs| ==> EndsBefore(fs[m].value.ty.loc, fs[n].value.ty.loc)
  }

  // The ranges of the fields are ordered like the places of their keys.
  ghost predicate Placed(fs: Fields, keys: seq<Literal>) {
    var h := LastPlaces(keys);
    && |fs| == |h| && (forall m :: 0 <= m < |h| ==> fs[m].key == h[m].key)
    && forall m, n | 0 <= m < |h| && 0 <= n < |h| && m != n ::
         EndsBefore(fs[m].value.ty.loc, fs[n].value.ty.loc) <==> h[m].value < h[n].value
  }

  lemma {:induction false} PlacesBelow(keys: seq<Literal>)
    ensures forall x <- LastPlaces(keys) :: x.value < |keys|
    decreases |keys|
  {
    if keys != [] {
      PlacesBelow(keys[..|keys| - 1]);
    }
  }

  lemma SameKeysFound<V, W>(g: seq<Entry<Literal, V>>, h: seq<Entry<Literal, W>>, k: Literal)
    requires |g| == |h| && forall m :: 0 <= m < |h| ==> g[m].key == h[m].key
    ensures HashFind(g, k) == HashFind(h, k)
  {}

  // One more field, whose type comes after all the others.
  lemma OneMorePlaced(fs: Fields, keys: seq<Literal>, k: Literal, f: FieldType)
    requires Placed(fs, keys) && NonEmpty(f.ty.loc)
    requires forall x <- fs :: NonEmpty(x.value.ty.loc) && EndsBefore(x.value.ty.loc, f.ty.loc)
    ensures Placed(HashSet(fs, k, f), keys + [k])
  {
    var h := LastPlaces(keys);
    assert (keys + [k])[..|keys|] == keys;
    assert LastPlaces(keys + [k]) == HashSet(h, k, |keys|);
    SameKeysFound(fs, h, k);
    PlacesBelow(keys);
    hide LastPlaces;
    var g, h' := HashSet(fs, k, f), HashSet(h, k, |keys|);
    var at := HashFind(fs, k);
    assert |g| == |h'| && forall m :: 0 <= m < |g| ==> if m == at then g[m].value == f && h'[m].value == |keys|
                                                       else m < |fs| && g[m] == fs[m] && h'[m] == h[m];
    assert forall m :: 0 <= m < |g| ==> g[m].key == h'[m].key;
    hide HashSet, HashFind;
    forall m, n | 0 <= m < |g| && 0 <= n < |g| && m != n
      ensures EndsBefore(g[m].value.ty.loc, g[n].value.ty.loc) <==> h'[m].value < h'[n].value
    {
      if n == at {
        assert fs[m] in fs && h[m] in h;
      } else if m == at {
        assert fs[n] in fs && h[n] in h;
      }
    }
  }

  // The loop from token `i` on, after the fields between tokens `lo` and `j`.
  lemma {:induction false} FieldListOrder(s: Stream, lo: nat, j: nat, i: nat, e: Errors, sc: Scope, acc: Fields,
                                          keys: seq<Literal>)
    requires Ordered(s) && FieldsIn(s, acc, lo, j) && Placed(acc, keys) && lo <= i && j < i
    ensures var r := FieldsAt(s, i, e, sc, acc); r.Ok? ==> Placed(r.value, keys + KeysAt(s, i, e, sc, acc))
    decreases s.Left(i)
  {
    hide Placed, FieldsIn, Inside, Ordered, Well, FieldsWell, FieldAt, FieldKeyAt, LastPlaces;
    OneField(s, lo, j, i, e, sc, acc, keys);
    var r := FieldAt(s, i, e, sc, acc);
    if r.Ok? && s.Kind(r.pos) == COMMA && s.Kind(r.pos + 1) != RBRACE {
      var k := FieldKeyAt(s, i, e, acc).value;
      FieldListOrder(s, lo, r.pos, r.pos + 1, r.err, sc, r.value, keys + [k]);
      var more := KeysAt(s, r.pos + 1, r.err, sc, r.value);
      assert keys + [k] + more == keys + ([k] + more);
    }
  }

  lemma OneField(s: Stream, lo: nat, j: nat, i: nat, e: Errors, sc: Scope, acc: Fields, keys: seq<Literal>)
    requires Ordered(s) && FieldsIn(s, acc, lo, j) && Placed(acc, keys) && lo <= i && j < i
    ensures var k, r := FieldKeyAt(s, i, e, acc), FieldAt(s, i, e, sc, acc);
            r.Ok? ==> k.Ok? && FieldsIn(s, r.value, lo, r.pos) && Placed(r.value, keys + [k.value])
  {
    hide Placed, Ordered, Well, FieldsWell, FieldKeyAt, TypeAt, HashSet, Nested, After, Stream.At;
    FieldIn(s, lo, j, i, e, sc, acc);
    var k := FieldKeyAt(s, i, e, acc);
    if k.Ok? {
      TypeIn(s, k.pos, k.err, false, sc);
      var t := TypeAt(s, k.pos, k.err, false, sc);
      if t.Ok? {
        var ft := FieldType(t.value, s.Kind(i) != QUESTION, After(s.At(k.pos - 1), s.At(t.pos - 1)));
        FieldsBefore(s, acc, lo, j, ft.ty, k.pos, t.pos);
        OneMorePlaced(acc, keys, k.value, ft);
      }
    }
  }

  lemma FieldsBefore(s: Stream, fs: Fields, i: nat, j: nat, u: Type, k: nat, m: nat)
    requires Ordered(s) && FieldsIn(s, fs, i, j) && Inside(s, u, k, m) && i <= k && j < k < m <= |s.toks|
    ensures NonEmpty(u.loc)
    ensures forall f <- fs ::
              NonEmpty(f.value.ty.loc) && EndsBefore(f.value.ty.loc, u.loc)
  {
    forall f <- fs
      ensures NonEmpty(f.value.ty.loc) && EndsBefore(f.value.ty.loc, u.loc)
    {
      TokenBetween(s, f.value.ty, i, j, u, k, m);
    }
  }

  // The keys of a record whose opening brace is token `i`.
  ghost function RecordKeys(s: Stream, i: nat, e: Errors, sc: Scope): seq<Literal> {
    if s.Kind(i + 1) == RBRACE then [] else KeysAt(s, i + 1, e, sc, [])
  }

  // The fields of an accepted record are in the order of the source exactly if its keys are.
  lemma RecordInOrderExactly(s: Stream, i: nat, e: Errors, sc: Scope)
    requires Ordered(s) && s.Kind(i) == LBRACE
    ensures var r := RecordAt(s, i, e, sc); r.Ok? ==>
              r.value.Record? && (FieldsInOrder(r.value.fields) <==> KeysInOrder(RecordKeys(s, i, e, sc)))
  {
    hide Ordered, FieldsAt, KeysAt, FieldsIn, Well, FieldsWell;
    var r := RecordAt(s, i, e, sc);
    if s.Kind(i + 1) != RBRACE {
      NoFieldsIn(s, i, i);
      FieldListOrder(s, i, i, i + 1, e, sc, [], []);
      assert [] + KeysAt(s, i + 1, e, sc, []) == KeysAt(s, i + 1, e, sc, []);
      if r.Ok? {
        PlacedInOrder(r.value.fields, KeysAt(s, i + 1, e, sc, []));
      }
    }
  }

  lemma PlacedInOrder(fs: Fields, keys: seq<Literal>)
    requires Placed(fs, keys)
    ensures FieldsInOrder(fs) <==> KeysInOrder(keys)
  {
    hide LastPlaces;
  }

  ghost predicate NoneRepeated(keys: seq<Literal>) {
    forall m, n :: 0 <= m < n < |keys| ==> keys[m] != keys[n]
  }

  // Keys of which none is repeated are in order.
  lemma {:induction false} NoneRepeatedInOrder(keys: seq<Literal>)
    requires NoneRepeated(keys)
    ensures KeysInOrder(keys) && |LastPlaces(keys)| == |keys|
    ensures forall m :: 0 <= m < |keys| ==> LastPlaces(keys)[m].key == keys[m]
    decreases |keys|
  {
    if keys != [] {
      var init := keys[..|keys| - 1];
      NoneRepeatedInOrder(init);
      PlacesBelow(init);
      assert forall x <- LastPlaces(init) :: x.value < |init|;
      assert !HasKey(LastPlaces(init), keys[|keys| - 1]);
    }
  }

  // A repeated key is the one error the loop goes on after: none recorded, none repeated.
  lemma {:induction false} NoErrorNoneRepeated(s: Stream, i: nat, sc: Scope, acc: Fields, keys: seq<Literal>)
    requires NoneRepeated(keys) && forall k :: HasKey(acc, k) <==> k in keys
    ensures var r := FieldsAt(s, i, None, sc, acc);
            r.Ok? && r.err == None ==> NoneRepeated(keys + KeysAt(s, i, None, sc, acc))
    decreases s.Left(i)
  {
    hide Well, FieldsWell, FieldKeyAt, TypeAt, HasKey, HashSet, After, Stream.At;
    var q, k := FieldsAt(s, i, None, sc, acc), FieldKeyAt(s, i, None, acc);
    if q.Ok? && q.err == None {
      var r := FieldAt(s, i, None, sc, acc);
      NewKey(s, i, acc);
      forall x
        ensures HasKey(r.value, x) <==> x in keys + [k.value]
      {
        HasKeyAfterSet(acc, k.value, FieldType(TypeAt(s, k.pos, k.err, false, sc).value, s.Kind(i) != QUESTION,
                                               After(s.At(k.pos - 1), s.At(r.pos - 1))), x);
      }
      if s.Kind(r.pos) == COMMA && s.Kind(r.pos + 1) != RBRACE {
        NoErrorNoneRepeated(s, r.pos + 1, sc, r.value, keys + [k.value]);
        var more := KeysAt(s, r.pos + 1, None, sc, r.value);
        assert keys + [k.value] + more == keys + ([k.value] + more);
      }
    }
  }

  lemma NewKey(s: Stream, i: nat, acc: Fields)
    ensures var k := FieldKeyAt(s, i, None, acc); k.Ok? && k.err == None ==> !HasKey(acc, k.value)
  {
    hide HasKey, IsKeyword, LiteralOf;
  }

  // So the fields of a record accepted without an error are in the order of the source.
  lemma NoErrorInOrder(s: Stream, i: nat, sc: Scope)
    requires Ordered(s) && s.Kind(i) == LBRACE
    ensures var r := RecordAt(s, i, None, sc); r.Ok? && r.err == None ==> FieldsInOrder(r.value.fields)
  {
    RecordInOrderExactly(s, i, None, sc);
    hide Ordered, FieldsAt, KeysAt, KeysInOrder, Well, FieldsWell;
    var keys := RecordKeys(s, i, None, sc);
    if s.Kind(i + 1) != RBRACE {
      NoErrorNoneRepeated(s, i + 1, sc, [], []);
      assert [] + KeysAt(s, i + 1, None, sc, []) == KeysAt(s, i + 1, None, sc, []);
    }
    if NoneRepeated(keys) {
      NoneRepeatedInOrder(keys);
    }
  }

  // ---- an input on which the order fails --------------------------------------------------------------

  function Tok(kind: TokenKind, text: string, p: int): Token {
    Token(kind, text, text, Position(p, p, 1, p), Position(p + 1, p + 1, 1, p + 1))
  }

  // `{a:nil,b:nil,a:nil}`.
  const REPEATED := Stream(
    [Tok(LBRACE, "{", 0), Tok(LIDENT, "a", 1), Tok(COLON, ":", 2), Tok(KW_NIL, "nil", 3), Tok(COMMA, ",", 4),
     Tok(LIDENT, "b", 5), Tok(COLON, ":", 6), Tok(KW_NIL, "nil", 7), Tok(COMMA, ",", 8),
     Tok(LIDENT, "a", 9), Tok(COLON, ":", 10), Tok(KW_NIL, "nil", 11), Tok(RBRACE, "}", 12)],
    Tok(EOF, "", 13))

  lemma NilAt(s: Stream, i: nat, e: Errors, sc: Scope)
    requires s.Kind(i) == KW_NIL && (s.Kind(i + 1) == COMMA || s.Kind(i + 1) == RBRACE)
    ensures TypeAt(s, i, e, false, sc) == Ok(Base(NilBase, LocOf(s.At(i))), i + 1, e)
  {
    hide Well, MembersWell, LocOf, Stream.At;
    assert SimpleAt(s, i, e, false, sc) == Ok(Base(NilBase, LocOf(s.At(i))), i + 1, e);
    assert OptionalAt(s, i, e, false, sc) == SimpleAt(s, i, e, false, sc);
    assert IntersectionAt(s, i, e, false, sc) == OptionalAt(s, i, e, false, sc);
  }

  // `NAME:nil` and what may follow it.
  predicate NilField(s: Stream, i: nat) {
    && s.Kind(i) == LIDENT && s.Kind(i + 1) == COLON && s.Touching(i) && s.Kind(i + 2) == KW_NIL
    && (s.Kind(i + 3) == COMMA || s.Kind(i + 3) == RBRACE)
  }

  lemma NilFieldAt(s: Stream, i: nat, e: Errors, sc: Scope, acc: Fields)
    requires NilField(s, i)
    ensures var k, r := FieldKeyAt(s, i, e, acc), FieldAt(s, i, e, sc, acc);
            k.Ok? && k.value == SymbolLit(s.At(i).text) && r.Ok? && r.pos == i + 3
  {
    hide Well, FieldsWell, TypeAt, HashSet, HasKey, Stream.At, Stream.Touching;
    assert IsKeyword(s, i);
    NilAt(s, i + 2, FieldKeyAt(s, i, e, acc).err, sc);
  }

  lemma RepeatedIsOrdered()
    ensures Ordered(REPEATED)
  {}

  lemma RepeatedIsSpelled()
    ensures var s := REPEATED;
            && s.Kind(0) == LBRACE && NilField(s, 1) && NilField(s, 5) && NilField(s, 9)
            && s.Kind(4) == COMMA && s.Kind(8) == COMMA && s.Kind(12) == RBRACE
            && s.At(1).text == "a" && s.At(5).text == "b" && s.At(9).text == "a"
  {}

  lemma LastPlacesOfRepeated()
    ensures !KeysInOrder([SymbolLit("a"), SymbolLit("b"), SymbolLit("a")])
  {
    var a, b := SymbolLit("a"), SymbolLit("b");
    assert [a][..0] == [] && [a, b][..1] == [a] && [a, b, a][..2] == [a, b];
    assert LastPlaces([a]) == [Entry(a, 0)];
    assert LastPlaces([a, b]) == [Entry(a, 0), Entry(b, 1)];
    assert LastPlaces([a, b, a]) == [Entry(a, 2), Entry(b, 1)];
    assert LastPlaces([a, b, a])[0].value > LastPlaces([a, b, a])[1].value;
  }

  lemma NoBraceFirst(s: Stream, i: nat)
    requires NilField(s, i)
    ensures s.Kind(i) != RBRACE
  {}

  lemma ThreeKeys(s: Stream, sc: Scope)
    requires NilField(s, 1) && NilField(s, 5) && NilField(s, 9)
    requires s.Kind(4) == COMMA && s.Kind(8) == COMMA && s.Kind(12) == RBRACE
    ensures var r := FieldsAt(s, 1, None, sc, []); r.Ok? && r.pos == 12
    ensures KeysAt(s, 1, None, sc, [])
         == [SymbolLit(s.At(1).text), SymbolLit(s.At(5).text), SymbolLit(s.At(9).text)]
  {
    hide Well, FieldsWell, FieldAt, FieldKeyAt, TypeAt, Stream.Kind, Stream.At, NilField, HashSet, KeysAt, FieldsAt;
    var r1 := FieldAt(s, 1, None, sc, []);
    NilFieldAt(s, 1, None, sc, []);
    NilFieldAt(s, 5, r1.err, sc, r1.value);
    var r2 := FieldAt(s, 5, r1.err, sc, r1.value);
    NilFieldAt(s, 9, r2.err, sc, r2.value);
    NoBraceFirst(s, 5);
    NoBraceFirst(s, 9);
    OneFieldLeft(s, 9, r2.err, sc, r2.value);
    MoreFields(s, 5, r1.err, sc, r1.value);
    MoreFields(s, 1, None, sc, []);
  }

  lemma ThreeFields(s: Stream, sc: Scope)
    requires s.Kind(0) == LBRACE && NilField(s, 1) && NilField(s, 5) && NilField(s, 9)
    requires s.Kind(4) == COMMA && s.Kind(8) == COMMA && s.Kind(12) == RBRACE
    ensures RecordAt(s, 0, None, sc).Ok?
    ensures RecordKeys(s, 0, None, sc) == [SymbolLit(s.At(1).text), SymbolLit(s.At(5).text), SymbolLit(s.At(9).text)]
  {
    ThreeKeys(s, sc);
    NoBraceFirst(s, 1);
    hide Well, FieldsWell, FieldsAt, KeysAt, Stream.Kind, Stream.At, NilField;
    assert AttributesAt(s, 1, None, sc) == FieldsAt(s, 1, None, sc, []);
  }

  lemma OneFieldLeft(s: Stream, i: nat, e: Errors, sc: Scope, acc: Fields)
    requires FieldAt(s, i, e, sc, acc).Ok? && s.Kind(FieldAt(s, i, e, sc, acc).pos) != COMMA
    ensures FieldsAt(s, i, e, sc, acc) == FieldAt(s, i, e, sc, acc)
    ensures KeysAt(s, i, e, sc, acc) == [FieldKeyAt(s, i, e, acc).value]
  {
    hide Well, FieldsWell, FieldKeyAt, TypeAt;
  }

  lemma MoreFields(s: Stream, i: nat, e: Errors, sc: Scope, acc: Fields)
    requires FieldAt(s, i, e, sc, acc).Ok?
    requires var r := FieldAt(s, i, e, sc, acc); s.Kind(r.pos) == COMMA && s.Kind(r.pos + 1) != RBRACE
    ensures var r := FieldAt(s, i, e, sc, acc);
            && FieldKeyAt(s, i, e, acc).Ok?
            && FieldsAt(s, i, e, sc, acc) == FieldsAt(s, r.pos + 1, r.err, sc, r.value)
            && KeysAt(s, i, e, sc, acc) == [FieldKeyAt(s, i, e, acc).value] + KeysAt(s, r.pos + 1, r.err, sc, r.value)
  {
    hide Well, FieldsWell, FieldKeyAt, TypeAt;
  }

  // The record is accepted, with an error recorded, and its fields are not in the order of the source.
  lemma RepeatedKeyOutOfOrder(sc: Scope)
    ensures Ordered(REPEATED)
    ensures var r := RecordAt(REPEATED, 0, None, sc); r.Ok? && r.err.Some? && !FieldsInOrder(r.value.fields)
  {
    RepeatedIsOrdered();
    RepeatedIsSpelled();
    ThreeFields(REPEATED, sc);
    LastPlacesOfRepeated();
    hide Ordered, RecordAt, RecordKeys, KeysInOrder, FieldsInOrder;
    RecordInOrderExactly(REPEATED, 0, None, sc);
    NoErrorInOrder(REPEATED, 0, sc);
  }
}
