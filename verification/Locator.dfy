/** The search for what lies at a position (lib/rbs/locator.rb): the first child that claims the position is
    entered, and what is entered is put in front of the path. */
module Locator {
  import opened Ast
  import opened Locations
  import opened Tokens

  // What a path is made of: a type, or the name of a part of a location.
  datatype Component = Node(ty: Type) | Key(key: string)

  predicate Contains(loc: Location, pos: int) {
    loc.startChar <= pos <= loc.endChar
  }

  // test_loc on a location that is present; both ends belong to the range.
  method TestLoc(pos: int, loc: Location) returns (b: bool)
    ensures b <==> Contains(loc, pos)
  {
    b := loc.startChar <= pos && pos <= loc.endChar;
  }

  // The named parts of a type's location: the arguments are optional, the name is required.
  function OptionalKeys(t: Type): seq<(string, Location)> {
    if t.Application? || t.Singleton? then
      if t.argsLoc.startChar == -1 then [] else [("args", t.argsLoc)]
    else []
  }

  function RequiredKeys(t: Type): seq<(string, Location)> {
    if t.Application? || t.Singleton? then [("name", t.nameLoc)] else []
  }

  // The first named part whose range, which excludes its end, has the position.
  function PartAt(parts: seq<(string, Location)>, pos: int): (r: seq<Component>)
    ensures |r| <= 1
    ensures r == [] <==> forall q <- parts :: !(q.1.startChar <= pos < q.1.endChar)
    ensures r != [] ==> exists q <- parts :: r[0] == Key(q.0) && q.1.startChar <= pos < q.1.endChar
  {
    if parts == [] then []
    else if parts[0].1.startChar <= pos < parts[0].1.endChar then [Key(parts[0].0)]
    else PartAt(parts[1..], pos)
  }

  // The named part of a type's own location that has the position.
  function Part(t: Type, pos: int): seq<Component> {
    PartAt(OptionalKeys(t) + RequiredKeys(t), pos)
  }

  // find_in_loc.
  method FindInLoc(pos: int, t: Type, path: seq<Component>) returns (found: bool, path': seq<Component>)
    ensures found <==> Contains(t.loc, pos)
    ensures path' == if found then Part(t, pos) + path else path
  {
    path' := path;
    found := TestLoc(pos, t.loc);
    if found {
      var parts := OptionalKeys(t) + RequiredKeys(t);
      var i := 0;
      while i < |parts|
        invariant i <= |parts| && path' == path
        invariant PartAt(parts[i..], pos) == PartAt(parts, pos)
      {
        if parts[i].1.startChar <= pos < parts[i].1.endChar {
          path' := [Key(parts[i].0)] + path;
          return;
        }
        assert parts[i..][1..] == parts[i + 1..];
        i := i + 1;
      }
      assert PartAt(parts, pos) + path == path;
    }
  }

  // ---- addresses -------------------------------------------------------------------------------------

  // The type at an address: which child to take at every step down from the root.
  function NodeAt(t: Type, address: seq<nat>): Option<Type>
    decreases |address|
  {
    if address == [] then Some(t)
    else if address[0] < |EachType(t)| then NodeAt(EachType(t)[address[0]], address[1..])
    else None
  }

  // The types on the way to an address, deepest first.
  function Way(t: Type, address: seq<nat>): seq<Component>
    decreases |address|
  {
    if address == [] || address[0] >= |EachType(t)| then [Node(t)]
    else Way(EachType(t)[address[0]], address[1..]) + [Node(t)]
  }

  // The address the search comes to: into the first child that has the position, as far as there is one.
  function Descent(t: Type, pos: int): (address: seq<nat>)
    ensures NodeAt(t, address).Some?
    decreases t, 1
  {
    ChildFrom(t, pos, 0)
  }

  function ChildFrom(t: Type, pos: int, i: nat): (address: seq<nat>)
    requires i <= |EachType(t)|
    ensures NodeAt(t, address).Some?
    decreases t, 0, |EachType(t)| - i
  {
    if i == |EachType(t)| then []
    else
      EachTypeSmaller(t, i);
      if Contains(EachType(t)[i].loc, pos) then [i] + Descent(EachType(t)[i], pos) else ChildFrom(t, pos, i + 1)
  }

  // What the search puts in front of the path: the types on the way of the descent, deepest first, and before
  // them the part of the deepest that has the position.
  function Found(t: Type, pos: int): seq<Component> {
    Part(NodeAt(t, Descent(t, pos)).value, pos) + Way(t, Descent(t, pos))
  }

  lemma FoundInChild(t: Type, pos: int, i: nat)
    requires i < |EachType(t)| && Descent(t, pos) == ChildFrom(t, pos, i)
    ensures Contains(EachType(t)[i].loc, pos) ==> Found(t, pos) == Found(EachType(t)[i], pos) + [Node(t)]
    ensures !Contains(EachType(t)[i].loc, pos) ==> Descent(t, pos) == ChildFrom(t, pos, i + 1)
  {
    hide EachType, PartAt;
    EachTypeSmaller(t, i);
    if Contains(EachType(t)[i].loc, pos) {
      assert Descent(t, pos)[1..] == Descent(EachType(t)[i], pos);
    }
  }

  // find_in_type.
  method FindInType(pos: int, t: Type, path: seq<Component>) returns (found: bool, path': seq<Component>)
    ensures found <==> Contains(t.loc, pos)
    ensures path' == if found then Found(t, pos) + path else path
    decreases t
  {
    hide EachType, Part, Way;
    path' := path;
    found := TestLoc(pos, t.loc);
    if !found {
      return;
    }
    path' := [Node(t)] + path;
    var types := EachType(t);
    var i := 0;
    while i < |types|
      invariant i <= |types| && path' == [Node(t)] + path
      invariant Descent(t, pos) == ChildFrom(t, pos, i)
    {
      EachTypeSmaller(t, i);
      FoundInChild(t, pos, i);
      var inside;
      inside, path' := FindInType(pos, types[i], path');
      if inside {
        return;
      }
      i := i + 1;
    }
    FoundHere(t, pos);
    var here;
    here, path' := FindInLoc(pos, t, path');
  }

  lemma FoundHere(t: Type, pos: int)
    requires Descent(t, pos) == []
    ensures Found(t, pos) == Part(t, pos) + [Node(t)]
  {}

  // ---- exactness -------------------------------------------------------------------------------------

  // The path found is the types at the prefixes of the descent, the deepest first and the root last.
  lemma {:induction false} WayListsPrefixes(t: Type, address: seq<nat>, k: nat)
    requires NodeAt(t, address).Some? && k <= |address|
    ensures NodeAt(t, address[..k]).Some?
    ensures |Way(t, address)| == |address| + 1
    ensures Way(t, address)[|address| - k] == Node(NodeAt(t, address[..k]).value)
    decreases |address|
  {
    if address != [] {
      var child, rest := EachType(t)[address[0]], address[1..];
      if k > 0 {
        assert address[..k][1..] == rest[..k - 1];
        WayListsPrefixes(child, rest, k - 1);
      } else {
        WayListsPrefixes(child, rest, 0);
      }
    }
  }

  // On a properly nested tree the types that have the position are those on the way of the descent and no
  // others: the first-match search misses neither a deeper type nor another branch.
  lemma {:induction false} DescentIsExact(t: Type, pos: int, address: seq<nat>)
    requires Nested(t) && Contains(t.loc, pos) && NodeAt(t, address).Some?
    ensures Contains(NodeAt(t, address).value.loc, pos) <==> address <= Descent(t, pos)
    decreases |address|
  {
    if address != [] {
      var k, rest := address[0], address[1..];
      var child := EachType(t)[k];
      EachTypeSmaller(t, k);
      var d := Descent(t, pos);
      InsideChild(child, pos, rest);
      if Contains(child.loc, pos) {
        OnlyChild(t, pos, k, 0);
        assert d[1..] == Descent(child, pos);
        DescentIsExact(child, pos, rest);
        assert address == [k] + rest;
        assert address <= d <==> rest <= d[1..];
      } else if address <= d {
        assert d[0] == k;
        ChildTaken(t, pos, 0);
      }
    }
  }

  // A type inside a nested tree does not reach beyond the tree.
  lemma {:induction false} InsideChild(t: Type, pos: int, address: seq<nat>)
    requires Nested(t) && NodeAt(t, address).Some?
    ensures Contains(NodeAt(t, address).value.loc, pos) ==> Contains(t.loc, pos)
    decreases |address|
  {
    if address != [] {
      EachTypeSmaller(t, address[0]);
      InsideChild(EachType(t)[address[0]], pos, address[1..]);
    }
  }

  lemma {:induction false} OnlyChild(t: Type, pos: int, k: nat, i: nat)
    requires Spaced(EachType(t)) && i <= k < |EachType(t)| && Contains(EachType(t)[k].loc, pos)
    ensures ChildFrom(t, pos, i) == [k] + Descent(EachType(t)[k], pos)
    decreases k - i
  {
    hide EachType;
    EachTypeSmaller(t, i);
    if i < k {
      assert Apart(EachType(t)[i].loc, EachType(t)[k].loc);
      OnlyChild(t, pos, k, i + 1);
    }
  }

  lemma {:induction false} ChildTaken(t: Type, pos: int, i: nat)
    requires i <= |EachType(t)| && ChildFrom(t, pos, i) != []
    ensures ChildFrom(t, pos, i)[0] < |EachType(t)| && Contains(EachType(t)[ChildFrom(t, pos, i)[0]].loc, pos)
    decreases |EachType(t)| - i
  {
    if i < |EachType(t)| {
      EachTypeSmaller(t, i);
      if !Contains(EachType(t)[i].loc, pos) {
        ChildTaken(t, pos, i + 1);
      }
    }
  }
}
