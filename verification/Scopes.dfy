/** The chain of type-variable tables of src/parser.c: tables of names, newest first, cut off by reset tables. */
module Scopes {

  // `ids` is a buffer of `size` cells of which `count` are in use; a table of size 0 is a reset table.
  datatype IdTable = IdTable(size: nat, count: nat, ids: seq<string>) {
    predicate Valid() {
      count <= size == |ids|
    }

    predicate Reset() {
      size == 0
    }

    function Names(): set<string> {
      set i | 0 <= i < count && i < |ids| :: ids[i]
    }
  }

  function Blank(n: nat): (r: seq<string>)
    ensures |r| == n
  {
    seq(n, _ => "")
  }

  const EMPTY_TABLE := IdTable(10, 0, Blank(10))
  const RESET_TABLE := IdTable(0, 0, [])

  type Chain = seq<IdTable>

  ghost predicate AllValid(c: Chain) {
    forall t <- c :: t.Valid()
  }

  // No reset table is on top, and none lies on another one.
  ghost predicate ValidChain(c: Chain) {
    && AllValid(c)
    && (c != [] ==> !c[0].Reset())
    && (forall i :: 0 < i < |c| && c[i].Reset() ==> !c[i - 1].Reset())
  }

  // What lexical scoping prescribes: the names entered above the nearest reset table.
  ghost function Visible(c: Chain): set<string> {
    if c == [] || c[0].Reset() then {} else c[0].Names() + Visible(c[1..])
  }

  // rbs_parser_push_typevar_table.
  function Push(c: Chain, reset: bool): Chain {
    [EMPTY_TABLE] + (if reset then [RESET_TABLE] else []) + c
  }

  // parser_pop_typevar_table on a chain that is not empty.
  function Pop(c: Chain): Chain
    requires c != []
  {
    if |c| > 1 && c[1].Reset() then c[2..] else c[1..]
  }

  // A full table moves to a buffer with ten more cells.
  function Grown(t: IdTable): IdTable
    requires t.Valid()
  {
    if t.size == t.count then IdTable(t.size + 10, t.count, t.ids[..t.count] + Blank(t.size + 10 - t.count)) else t
  }

  // rbs_parser_insert_typevar on a chain with a table that is not a reset table on top.
  function Insert(c: Chain, x: string): Chain
    requires c != [] && c[0].Valid()
  {
    var t := Grown(c[0]);
    c[0 := t.(count := t.count + 1, ids := t.ids[t.count := x])]
  }

  // Chain `d` is `c` with the names `xs` entered into its top table.
  ghost predicate Enters(c: Chain, d: Chain, xs: set<string>) {
    ValidChain(d) && c != [] && d != [] && d[1..] == c[1..] && Visible(d) == Visible(c) + xs
  }

  lemma EntersNothing(c: Chain)
    requires ValidChain(c) && c != []
    ensures Enters(c, c, {})
  {}

  lemma EntersMore(c: Chain, d: Chain, f: Chain, xs: set<string>, x: string)
    requires Enters(c, d, xs) && Enters(d, f, {x})
    ensures Enters(c, f, xs + {x})
  {
    assert Visible(c) + xs + {x} == Visible(c) + (xs + {x});
  }

  // Whatever has been entered into a new scope, popping it gives back the chain it was opened on.
  lemma ScopeCloses(c: Chain, reset: bool, d: Chain, xs: set<string>)
    requires ValidChain(c) && Enters(Push(c, reset), d, xs)
    ensures Pop(d) == c && d != []
    ensures Visible(d) == (if reset then {} else Visible(c)) + xs
  {
    PushThenPop(c, reset);
    assert |d| > 1 ==> d[1] == d[1..][0];
    assert Pop(d) == Pop(Push(c, reset)) by {
      assert |d| == |Push(c, reset)|;
      if reset {
        assert d[2..] == d[1..][1..];
      }
    }
  }

  // A new scope hides everything if it resets and nothing otherwise, and popping it leaves no trace.
  lemma PushThenPop(c: Chain, reset: bool)
    requires ValidChain(c)
    ensures ValidChain(Push(c, reset)) && Pop(Push(c, reset)) == c
    ensures Visible(Push(c, reset)) == if reset then {} else Visible(c)
  {
    var p := Push(c, reset);
    assert p[1..] == (if reset then [RESET_TABLE] else []) + c;
    if reset {
      assert p[2..] == c;
      assert Visible(p[1..]) == {};
    }
  }

  // A name entered becomes visible and nothing else changes, whether or not the table has to grow; the
  // tables below are untouched, so the scope can still be popped to where it was opened.
  lemma InsertIsVisible(c: Chain, x: string)
    requires ValidChain(c) && c != []
    ensures var d := Insert(c, x);
            ValidChain(d) && d[1..] == c[1..] && Visible(d) == Visible(c) + {x} && Pop(d) == Pop(c)
  {
    var t := c[0];
    var d := Insert(c, x);
    var u := d[0];
    assert forall i :: 0 <= i < t.count ==> u.ids[i] == t.ids[i];
    assert u.Names() == t.Names() + {x} by {
      assert u.ids[t.count] == x;
      forall y | y in u.Names()
        ensures y in t.Names() + {x}
      {
        var i :| 0 <= i < u.count && u.ids[i] == y;
        assert i < t.count ==> t.ids[i] == y;
      }
    }
    assert d[1..] == c[1..];
  }
}
