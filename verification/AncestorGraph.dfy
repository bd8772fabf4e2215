/** The graph of ancestors (lib/rbs/ancestor_graph.rb): two hashes of sets kept converse to each other, and
    depth-first traversals that share one set of nodes already yielded. */
module AncestorGraphs {

  // A hash of Ruby sets; a set iterates over its elements in the order of their insertion.
  type Edges<Node(==)> = map<Node, seq<Node>>

  function Of<Node>(g: Edges<Node>, n: Node): seq<Node> {
    if n in g then g[n] else []
  }

  // `(g[from] ||= Set[]) << to`
  function Added<Node>(g: Edges<Node>, from: Node, to: Node): Edges<Node> {
    if to in Of(g, from) then g else g[from := Of(g, from) + [to]]
  }

  predicate Distinct<Node(==)>(s: seq<Node>) {
    forall i, j :: 0 <= i < j < |s| ==> s[i] != s[j]
  }

  ghost predicate Converse<Node(!new)>(g: Edges<Node>, h: Edges<Node>) {
    forall m, n :: n in Of(g, m) <==> m in Of(h, n)
  }

  ghost predicate IsPath<Node>(g: Edges<Node>, p: seq<Node>) {
    |p| >= 2 && forall i :: 0 <= i < |p| - 1 ==> p[i + 1] in Of(g, p[i])
  }

  ghost predicate Connects<Node>(g: Edges<Node>, p: seq<Node>, n: Node, m: Node) {
    IsPath(g, p) && p[0] == n && p[|p| - 1] == m
  }

  // One or more edges lead from `n` to `m`.
  ghost predicate Reaches<Node(!new)>(g: Edges<Node>, n: Node, m: Node) {
    exists p :: Connects(g, p, n, m)
  }

  lemma EdgeReaches<Node(!new)>(g: Edges<Node>, n: Node, m: Node)
    requires m in Of(g, n)
    ensures Reaches(g, n, m)
  {
    assert Connects(g, [n, m], n, m);
  }

  lemma ReachesFurther<Node(!new)>(g: Edges<Node>, n: Node, m: Node, k: Node)
    requires m in Of(g, n) && Reaches(g, m, k)
    ensures Reaches(g, n, k)
  {
    var p :| Connects(g, p, m, k);
    var q := [n] + p;
    forall i | 0 <= i < |q| - 1
      ensures q[i + 1] in Of(g, q[i])
    {
      assert i > 0 ==> q[i] == p[i - 1] && q[i + 1] == p[i];
    }
    assert Connects(g, q, n, k);
  }

  // A set that has the successors of `n` and is closed under edges has all that `n` reaches.
  lemma {:induction false} ClosedContainsReachable<Node>(g: Edges<Node>, s: set<Node>, p: seq<Node>)
    requires IsPath(g, p)
    requires forall y <- Of(g, p[0]) :: y in s
    requires forall x <- s, y <- Of(g, x) :: y in s
    ensures p[|p| - 1] in s
    decreases |p|
  {
    assert p[1] in Of(g, p[0]);
    if |p| > 2 {
      var q := p[1..];
      forall i | 0 <= i < |q| - 1
        ensures q[i + 1] in Of(g, q[i])
      {
        assert q[i] == p[i + 1] && q[i + 1] == p[i + 2];
      }
      ClosedContainsReachable(g, s, q);
    }
  }

  function Reversed<Node>(p: seq<Node>): (r: seq<Node>)
    ensures |r| == |p| && forall i :: 0 <= i < |p| ==> r[i] == p[|p| - 1 - i]
  {
    seq(|p|, i requires 0 <= i < |p| => p[|p| - 1 - i])
  }

  lemma ReversedPath<Node(!new)>(g: Edges<Node>, h: Edges<Node>, n: Node, m: Node)
    requires Converse(g, h) && Reaches(g, n, m)
    ensures Reaches(h, m, n)
  {
    var p :| Connects(g, p, n, m);
    var q := Reversed(p);
    forall i | 0 <= i < |q| - 1
      ensures q[i + 1] in Of(h, q[i])
    {
      assert p[|p| - 2 - i + 1] in Of(g, p[|p| - 2 - i]);
    }
    assert Connects(h, q, m, n);
  }

  // `m` is a descendant of `n` exactly if `n` is an ancestor of `m`.
  lemma Duality<Node(!new)>(parents: Edges<Node>, children: Edges<Node>, n: Node, m: Node)
    requires Converse(parents, children)
    ensures Reaches(children, n, m) <==> Reaches(parents, m, n)
  {
    if Reaches(children, n, m) {
      ReversedPath(children, parents, n, m);
    }
    if Reaches(parents, m, n) {
      ReversedPath(parents, children, m, n);
    }
  }

  lemma AddedEdge<Node(!new)>(g: Edges<Node>, from: Node, to: Node)
    ensures forall m, n :: n in Of(Added(g, from, to), m) <==> n in Of(g, m) || (m == from && n == to)
    ensures (forall k <- g :: Distinct(g[k])) ==> forall k <- Added(g, from, to) :: Distinct(Added(g, from, to)[k])
  {}

  // Graph `h` is `g` with edges from one node to the members of a list.
  ghost predicate AddedAll<Node(!new)>(g: Edges<Node>, h: Edges<Node>, from: Node, tos: seq<Node>) {
    forall m, n {:trigger n in Of(h, m)} {:trigger n in Of(g, m)} ::
      n in Of(h, m) <==> n in Of(g, m) || (m == from && n in tos)
  }

  lemma AddedOneMore<Node(!new)>(g: Edges<Node>, h: Edges<Node>, from: Node, tos: seq<Node>, i: nat)
    requires i < |tos| && AddedAll(g, h, from, tos[..i])
    ensures AddedAll(g, Added(h, from, tos[i]), from, tos[..i + 1])
  {
    AddedEdge(h, from, tos[i]);
    assert tos[..i + 1] == tos[..i] + [tos[i]];
    forall m, n
      ensures n in Of(Added(h, from, tos[i]), m) <==> n in Of(g, m) || (m == from && n in tos[..i + 1])
    {}
  }

  // Whether a listing of nodes with their direct ancestors relates the child to the parent.
  ghost predicate Listed<Node>(listing: seq<(Node, seq<Node>)>, child: Node, parent: Node) {
    exists i :: 0 <= i < |listing| && listing[i].0 == child && parent in listing[i].1
  }

  ghost predicate Lists<Node(!new)>(g: Edges<Node>, listing: seq<(Node, seq<Node>)>) {
    forall m, n :: n in Of(g, m) <==> Listed(listing, m, n)
  }

  lemma ListsOneMore<Node(!new)>(g: Edges<Node>, h: Edges<Node>, listing: seq<(Node, seq<Node>)>, i: nat)
    requires i < |listing| && Lists(g, listing[..i]) && AddedAll(g, h, listing[i].0, listing[i].1)
    ensures Lists(h, listing[..i + 1])
  {
    var longer := listing[..i + 1];
    assert longer == listing[..i] + [listing[i]];
    forall m, n
      ensures n in Of(h, m) <==> Listed(longer, m, n)
    {
      assert n in Of(g, m) <==> Listed(listing[..i], m, n);
      if m == listing[i].0 && n in listing[i].1 {
        assert longer[i] == listing[i];
      }
      if Listed(listing[..i], m, n) {
        var k :| 0 <= k < i && listing[..i][k].0 == m && n in listing[..i][k].1;
        assert longer[k] == listing[..i][k];
      }
    }
  }

  // The set of nodes already yielded, which all calls of one traversal share, and what the block has been given.
  class Traversal<Node(==)> {
    var yielded: set<Node>
    var given: seq<Node>

    constructor ()
      ensures yielded == {} && given == []
    {
      yielded, given := {}, [];
    }
  }

  // ---- traversals ------------------------------------------------------------------------------------

  // From yielded `y0` and given `g0` the traversal has come to `y1` and `g1`: what is new was given once, is
  // reachable from `n`, has all its successors yielded, and the successors `done` of `n` are yielded.
  ghost predicate Walked<Node(!new)>(g: Edges<Node>, n: Node, done: seq<Node>, y0: set<Node>, g0: seq<Node>,
                                     y1: set<Node>, g1: seq<Node>) {
    && y0 <= y1 && g0 <= g1 && Distinct(g1[|g0|..])
    && (forall x :: x in y1 <==> x in y0 || x in g1[|g0|..])
    && (forall x <- g1[|g0|..] :: x !in y0 && Reaches(g, n, x))
    && (forall x <- g1[|g0|..], y <- Of(g, x) :: y in y1)
    && (forall x <- done :: x in y1)
  }

  lemma StepOver<Node(!new)>(g: Edges<Node>, n: Node, done: seq<Node>, x: Node, y0: set<Node>, g0: seq<Node>,
                             y1: set<Node>, g1: seq<Node>)
    requires Walked(g, n, done, y0, g0, y1, g1) && x in y1
    ensures Walked(g, n, done + [x], y0, g0, y1, g1)
  {}

  lemma StepInto<Node(!new)>(g: Edges<Node>, n: Node, done: seq<Node>, x: Node, y0: set<Node>, g0: seq<Node>,
                             y1: set<Node>, g1: seq<Node>, y2: set<Node>, g2: seq<Node>)
    requires Walked(g, n, done, y0, g0, y1, g1) && x !in y1 && x in Of(g, n)
    requires Walked(g, x, Of(g, x), y1 + {x}, g1 + [x], y2, g2)
    ensures Walked(g, n, done + [x], y0, g0, y2, g2)
  {
    var before, after := g1[|g0|..], g2[|g1| + 1..];
    assert g2[|g0|..] == before + [x] + after by {
      assert g2[..|g1| + 1] == g1 + [x];
    }
    assert Distinct(before + [x] + after) by {
      forall i, j | 0 <= i < j < |before| + 1 + |after|
        ensures (before + [x] + after)[i] != (before + [x] + after)[j]
      {
        assert i < |before| ==> before[i] in before;
        assert j > |before| ==> after[j - |before| - 1] in after;
      }
    }
    EdgeReaches(g, n, x);
    forall z <- after ensures Reaches(g, n, z) {
      ReachesFurther(g, n, x, z);
    }
  }

  ghost function Targets<Node(!new)>(g: Edges<Node>): set<Node> {
    set k <- g, x <- g[k] :: x
  }

  // each_ancestor and each_descendant, which differ only in the hash they look in: successors already yielded
  // are passed over, others are yielded, given to the block and walked from. Even a cycle comes to an end.
  method Walk<Node(==, !new)>(g: Edges<Node>, n: Node, t: Traversal<Node>)
    modifies t
    ensures Walked(g, n, Of(g, n), old(t.yielded), old(t.given), t.yielded, t.given)
    decreases |Targets(g) - t.yielded|
  {
    var next := Of(g, n);
    var i := 0;
    while i < |next|
      invariant 0 <= i <= |next|
      invariant Walked(g, n, next[..i], old(t.yielded), old(t.given), t.yielded, t.given)
    {
      var x := next[i];
      ghost var y1, g1 := t.yielded, t.given;
      assert next[..i + 1] == next[..i] + [x];
      if x !in t.yielded {
        t.yielded := t.yielded + {x};
        t.given := t.given + [x];
        FewerLeft(g, n, x, old(t.yielded), y1);
        Walk(g, x, t);
        StepInto(g, n, next[..i], x, old(t.yielded), old(t.given), y1, g1, t.yielded, t.given);
      } else {
        StepOver(g, n, next[..i], x, old(t.yielded), old(t.given), t.yielded, t.given);
      }
      i := i + 1;
    }
    assert next[..|next|] == next;
  }

  lemma FewerLeft<Node(!new)>(g: Edges<Node>, n: Node, x: Node, y0: set<Node>, y1: set<Node>)
    requires x in Of(g, n) && y0 <= y1 && x !in y1
    ensures |Targets(g) - (y1 + {x})| < |Targets(g) - y0|
  {
    var a, b := Targets(g) - (y1 + {x}), Targets(g) - y0;
    assert x in b && x !in a && a <= b;
    assert a <= b - {x};
    CardinalityMonotone(a, b - {x});
  }

  lemma {:induction false} CardinalityMonotone<T>(a: set<T>, b: set<T>)
    requires a <= b
    ensures |a| <= |b|
    decreases a
  {
    if a != {} {
      var x :| x in a;
      CardinalityMonotone(a - {x}, b - {x});
    }
  }

  // A traversal that starts with nothing yielded gives what can be reached, each node once.
  lemma WholeWalk<Node(!new)>(g: Edges<Node>, n: Node, y: set<Node>, given: seq<Node>)
    requires Walked(g, n, Of(g, n), {}, [], y, given)
    ensures Distinct(given) && forall m :: m in given <==> Reaches(g, n, m)
  {
    assert given[0..] == given;
    forall m | Reaches(g, n, m)
      ensures m in given
    {
      var p :| Connects(g, p, n, m);
      ClosedContainsReachable(g, y, p);
    }
  }

  class AncestorGraph<Node(==, !new)> {
    var parents: Edges<Node>
    var children: Edges<Node>

    ghost predicate Valid()
      reads this
    {
      Converse(parents, children)
    }

    // build: what the environment and the ancestor builder give is the listing.
    constructor (listing: seq<(Node, seq<Node>)>)
      ensures Valid() && Lists(parents, listing)
    {
      parents, children := map[], map[];
      new;
      var i := 0;
      while i < |listing|
        invariant 0 <= i <= |listing| && Valid() && Lists(parents, listing[..i])
      {
        ghost var before := parents;
        BuildAncestors(listing[i].0, listing[i].1);
        ListsOneMore(before, parents, listing, i);
        i := i + 1;
      }
      assert listing[..|listing|] == listing;
    }

    // build_ancestors.
    method BuildAncestors(node: Node, ancestors: seq<Node>)
      requires Valid()
      modifies this
      ensures Valid() && AddedAll(old(parents), parents, node, ancestors)
    {
      var i := 0;
      while i < |ancestors|
        invariant 0 <= i <= |ancestors| && Valid() && AddedAll(old(parents), parents, node, ancestors[..i])
      {
        AddedOneMore(old(parents), parents, node, ancestors, i);
        Register(ancestors[i], node);
        i := i + 1;
      }
      assert ancestors[..|ancestors|] == ancestors;
    }

    // register: both hashes get the edge, so they stay converse.
    method Register(parent: Node, child: Node)
      requires Valid()
      modifies this
      ensures Valid()
      ensures parents == Added(old(parents), child, parent) && children == Added(old(children), parent, child)
    {
      AddedEdge(parents, child, parent);
      AddedEdge(children, parent, child);
      parents := Added(parents, child, parent);
      children := Added(children, parent, child);
    }
  
    // each_ancestor called from outside: every ancestor once and nothing else, whether or not there are cycles.
    method EachAncestor(node: Node) returns (given: seq<Node>)
      ensures Distinct(given) && forall m :: m in given <==> Reaches(parents, node, m)
    {
      var t := new Traversal<Node>();
      Walk(parents, node, t);
      WholeWalk(parents, node, t.yielded, t.given);
      given := t.given;
    }

    // each_descendant: the nodes of which this one is an ancestor.
    method EachDescendant(node: Node) returns (given: seq<Node>)
      requires Valid()
      ensures Distinct(given) && forall m :: m in given <==> Reaches(parents, m, node)
    {
      var t := new Traversal<Node>();
      Walk(children, node, t);
      WholeWalk(children, node, t.yielded, t.given);
      given := t.given;
      forall m { Duality(parents, children, node, m); }
    }
  }
}
