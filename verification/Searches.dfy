/** Parser and locator together: what the locator finds in a type that the parser has accepted. */
module Searches {
  import opened Ast
  import opened Grammar
  import opened Locations
  import opened Locator
  import opened Nesting
  import opened Tokens
  import opened WellFormed

  // `name` or `args` where the range of the name or of the arguments of the type has the position, the end excluded;
  // at most one of the two has. Otherwise nothing.
  predicate BeginsAs(path: seq<Component>, u: Type, pos: int)
    requires path != []
  {
    var applied := u.Application? || u.Singleton?;
    var named := applied && u.nameLoc.startChar <= pos < u.nameLoc.endChar;
    var inArgs := applied && u.argsLoc != NULL_LOCATION && u.argsLoc.startChar <= pos < u.argsLoc.endChar;
    && (path[0] == Key("name") <==> named)
    && (path[0] == Key("args") <==> inArgs)
    && (path[0] == Node(u) <==> !named && !inArgs)
  }

  // The path lists all types whose range has the position and no others, the deepest first and the root last, after at
  // most one named part of the deepest.
  ghost predicate ListsExactly(path: seq<Component>, t: Type, pos: int) {
    var d := Descent(t, pos);
    var n := |path| - |d| - 1;
    && 0 <= n <= 1 && (n == 1 <==> path[0].Key?)
    && BeginsAs(path, NodeAt(t, d).value, pos)
    && (forall k: nat | k <= |d| :: NodeAt(t, d[..k]).Some? && path[n + |d| - k] == Node(NodeAt(t, d[..k]).value))
    && forall address | NodeAt(t, address).Some? :: Contains(NodeAt(t, address).value.loc, pos) <==> address <= d
  }

  lemma {:induction false} NodesAreNested(t: Type, address: seq<nat>)
    requires Nested(t) && NodeAt(t, address).Some?
    ensures Nested(NodeAt(t, address).value) && Within(NodeAt(t, address).value.loc, t.loc)
    decreases |address|
  {
    hide EachType;
    if address != [] {
      EachTypeSmaller(t, address[0]);
      NodesAreNested(EachType(t)[address[0]], address[1..]);
    }
  }

  // The part found is the name, the arguments or nothing, as their ranges say; they have no position in common.
  lemma PartIsExact(u: Type, pos: int, rest: seq<Component>)
    requires Nested(u) && u.loc.startChar >= 0 && rest != [] && rest[0] == Node(u)
    ensures BeginsAs(Part(u, pos) + rest, u, pos) && |Part(u, pos)| <= 1
  {
    hide EachType, InSourceOrder, Spaced;
    if u.Application? || u.Singleton? {
      var name := ("name", u.nameLoc);
      if u.argsLoc.startChar == -1 {
        assert OptionalKeys(u) + RequiredKeys(u) == [name];
      } else {
        assert OptionalKeys(u) + RequiredKeys(u) == [("args", u.argsLoc), name];
        assert [("args", u.argsLoc), name][1..] == [name];
      }
      assert [name][1..] == [];
    }
  }

  lemma FoundIsExact(t: Type, pos: int)
    requires Nested(t) && t.loc.startChar >= 0
    ensures Contains(t.loc, pos) ==> ListsExactly(Found(t, pos), t, pos)
    ensures !Contains(t.loc, pos) ==>
              forall address | NodeAt(t, address).Some? :: !Contains(NodeAt(t, address).value.loc, pos)
  {
    hide Nested, Descent, Way, EachType, NodeAt, OptionalKeys, RequiredKeys;
    var d := Descent(t, pos);
    forall k: nat | k <= |d|
      ensures NodeAt(t, d[..k]).Some? && |Way(t, d)| == |d| + 1
      ensures Way(t, d)[|d| - k] == Node(NodeAt(t, d[..k]).value)
    {
      WayListsPrefixes(t, d, k);
    }
    WayListsPrefixes(t, d, 0);
    WayListsPrefixes(t, d, |d|);
    assert d[..|d|] == d;
    NodesAreNested(t, d);
    PartIsExact(NodeAt(t, d).value, pos, Way(t, d));
    hide Part, BeginsAs;
    forall address | NodeAt(t, address).Some?
      ensures Contains(NodeAt(t, address).value.loc, pos) ==> Contains(t.loc, pos)
      ensures Contains(t.loc, pos) ==> (Contains(NodeAt(t, address).value.loc, pos) <==> address <= d)
    {
      InsideChild(t, pos, address);
      if Contains(t.loc, pos) {
        DescentIsExact(t, pos, address);
      }
    }
  }

  lemma NonNegative(s: Stream, i: nat)
    requires Ordered(s) && i < |s.toks|
    ensures s.At(i).start.charPos >= 0
  {}

  // For every type accepted from tokens in order, the search that stops at the first child finds exactly the types whose
  // range has the position, and where it finds none there is none.
  lemma AcceptedTypesAreLocated(s: Stream, i: nat, e: Errors, v: bool, sc: Scope, pos: int)
    requires Ordered(s) && TypeAt(s, i, e, v, sc).Ok?
    ensures var t := TypeAt(s, i, e, v, sc).value;
            if Contains(t.loc, pos) then ListsExactly(Found(t, pos), t, pos)
            else forall address | NodeAt(t, address).Some? :: !Contains(NodeAt(t, address).value.loc, pos)
  {
    hide TypeAt, Nested, ListsExactly, NodeAt, Found, Ordered;
    AcceptedTypesAreNested(s, i, e, v, sc);
    NonNegative(s, i);
    FoundIsExact(TypeAt(s, i, e, v, sc).value, pos);
  }

  // find_in_type on such a type.
  method FindInAccepted(ghost s: Stream, ghost i: nat, ghost e: Errors, ghost v: bool, ghost sc: Scope, t: Type, pos: int)
    returns (found: bool, path: seq<Component>)
    requires Ordered(s) && TypeAt(s, i, e, v, sc).Ok? && TypeAt(s, i, e, v, sc).value == t
    ensures if found then ListsExactly(path, t, pos)
            else path == [] && forall address | NodeAt(t, address).Some? :: !Contains(NodeAt(t, address).value.loc, pos)
  {
    hide TypeAt, ListsExactly, NodeAt, Found, Ordered;
    AcceptedTypesAreLocated(s, i, e, v, sc, pos);
    found, path := FindInType(pos, t, []);
    assert Found(t, pos) + [] == Found(t, pos);
  }
}
