/** The binary serializer of src/serialize.c, and a decoder that shows the format to be uniquely decodable. */
module Serializer {
  import opened Ast
  import opened Containers
  import opened Tokens

  newtype u8 = x: int | 0 <= x < 256

  type Bytes = seq<u8>

  const TWO_32 := 0x1_0000_0000
  const TWO_31 := 0x8000_0000

  // A node as the serializer sees it: the tag of its kind and its fields, in the order they are written. A list
  // or a hash that is NULL is written like an empty one.
  datatype Node = Null | Node(tag: nat, parts: seq<Part>)

  datatype Part =
    | LocPart(range: Location)
    | TextPart(text: Bytes)
    | BytePart(b: u8)
    | NodePart(node: Node)
    | ListPart(nodes: seq<Node>)
    | HashPart(entries: seq<Pair>)
    | RangesPart(ranges: seq<Location>)
    | IvarPart(ivarTag: u8, ivarName: Bytes)

  type Pair = Entry<Node, Node>

  // What each kind of node is made of, by tag: L a location range, S a string or an interned constant, B a byte,
  // N a node, A a list of nodes, H a hash, R a list of location ranges, I the name of an instance variable.
  const SCHEMA: seq<string> := [
    "", "LS", "B", "LS", "LLLLLLNANAAN", "LLLNA", "LLLLLNNNA", "LLLNNNA", "LLLNNNA", "LLLLLNAAAN", "LLLLLLLNAAAAN",
    "LLLNA", "LLLLLNNNA", "LLLLLNANAN", "LLA", "LLLLNN", "LLLN", "S", "LLLLLLNNBAN", "LLLLLLLLNNIBANB",
    "LLLLLLLLNNIBANB", "LLLLLLLLNNIBANB", "LLLLNNN", "LLLLNNN", "LLLLNAAN", "LLLLNAAN", "LLLLNNN", "LLLLLLNBAANBB",
    "AN", "LLLLNAAN", "L", "L", "LLLLLLLNL", "LLLNL", "LLAN", "LLLLLNL", "LLNLLNL", "LLARL", "LLLNL",
    "LLLLNALLRL", "LLN", "LLLLNL", "LLLLNL", "LLLL", "LLLLLNL", "LLALR", "S", "LLLLLLLNBNNNB", "LLLANN",
    "AB", "AA", "NN", "LLLNA", "LB", "L", "L", "L", "L", "L", "L", "L", "L", "LNBN", "LLLNA", "LLLNA",
    "AANAHHNNN", "L", "LLNN", "LLLNA", "LA", "LN", "LN", "LNNN", "LH", "NB", "LA", "LA", "N", "LN", "S"
  ]

  const NAME_TAG: u8 := 2

  function Letter(p: Part): char {
    match p
    case LocPart(_) => 'L'
    case TextPart(_) => 'S'
    case BytePart(_) => 'B'
    case NodePart(_) => 'N'
    case ListPart(_) => 'A'
    case HashPart(_) => 'H'
    case RangesPart(_) => 'R'
    case IvarPart(_, _) => 'I'
  }

  function Kinds(tag: nat): string {
    if tag < |SCHEMA| then SCHEMA[tag] else ""
  }

  // ---- the format ------------------------------------------------------------------------------------

  // w_u32 and w_i32: four bytes, the lowest first; a negative number is written in two's complement.
  function U32(v: int): (b: Bytes)
    ensures |b| == 4
  {
    var u := v % TWO_32;
    [(u % 256) as u8, (u / 256 % 256) as u8, (u / 0x1_0000 % 256) as u8, (u / 0x100_0000) as u8]
  }

  function EncText(t: Bytes): Bytes {
    U32(|t|) + t
  }

  // w_loc_range: byte offsets are not written.
  function EncRange(r: Location): Bytes {
    if r.startChar == -1 then [0] else [1] + U32(r.startChar) + U32(r.endChar)
  }

  function EncRanges(rs: seq<Location>): Bytes {
    if rs == [] then [] else EncRange(rs[0]) + EncRanges(rs[1..])
  }

  function EncNode(n: Node): Bytes
    decreases n
  {
    match n
    case Null => [0]
    case Node(tag, parts) => [(tag % 256) as u8] + EncParts(parts)
  }

  function EncParts(ps: seq<Part>): Bytes
    decreases ps
  {
    if ps == [] then [] else EncPart(ps[0]) + EncParts(ps[1..])
  }

  function EncPart(p: Part): Bytes
    decreases p
  {
    match p
    case LocPart(r) => EncRange(r)
    case TextPart(t) => EncText(t)
    case BytePart(b) => [b]
    case NodePart(n) => EncNode(n)
    case ListPart(ns) => U32(|ns|) + EncNodes(ns)
    case HashPart(es) => U32(|es|) + EncEntries(es)
    case RangesPart(rs) => U32(|rs|) + EncRanges(rs)
    case IvarPart(tag, name) => [tag] + if tag == NAME_TAG then EncText(name) else []
  }

  function EncNodes(ns: seq<Node>): Bytes
    decreases ns
  {
    if ns == [] then [] else EncNode(ns[0]) + EncNodes(ns[1..])
  }

  function EncEntries(es: seq<Pair>): Bytes
    decreases es
  {
    if es == [] then [] else EncPair(es[0]) + EncEntries(es[1..])
  }

  function EncPair(e: Pair): Bytes
    decreases e
  {
    EncNode(e.key) + EncNode(e.value)
  }

  // The number four bytes stand for, the lowest first.
  function LowestFirst(b: Bytes): int
    requires |b| == 4
  {
    b[0] as int + 0x100 * b[1] as int + 0x1_0000 * b[2] as int + 0x100_0000 * b[3] as int
  }

  // The bytes themselves: lengths and positions with the lowest byte first, negative ones in two's complement; a range
  // is 0, or 1 and its two ends; a node begins with its tag, and with 0 if there is none.
  lemma Layout(v: int, r: Location, t: Bytes, n: Node)
    ensures LowestFirst(U32(v)) == v % TWO_32
    ensures r.startChar == -1 ==> EncRange(r) == [0]
    ensures r.startChar != -1 ==>
              var b := EncRange(r);
              |b| == 9 && b[0] == 1 && LowestFirst(b[1..5]) == r.startChar % TWO_32 && LowestFirst(b[5..]) == r.endChar % TWO_32
    ensures |EncText(t)| == 4 + |t| && LowestFirst(EncText(t)[..4]) == |t| % TWO_32 && EncText(t)[4..] == t
    ensures n == Null ==> EncNode(n) == [0]
    ensures n.Node? ==> EncNode(n) != [] && EncNode(n)[0] as int == n.tag % 256
  {
    FourBytes(v);
    FourBytes(r.startChar);
    FourBytes(r.endChar);
    FourBytes(|t|);
    hide U32, LowestFirst;
    assert r.startChar != -1 ==> EncRange(r)[1..5] == U32(r.startChar) && EncRange(r)[5..] == U32(r.endChar);
    assert EncText(t)[..4] == U32(|t|);
  }

  lemma FourBytes(v: int)
    ensures LowestFirst(U32(v)) == v % TWO_32
  {
    var u := v % TWO_32;
    assert u / 0x1_0000 == u / 256 / 256 && u / 0x100_0000 == u / 256 / 256 / 256;
  }

  // The parts of a node follow one another in their order, without anything in between.
  lemma {:induction false} PartsInOrder(ps: seq<Part>, k: nat)
    requires k < |ps|
    ensures EncParts(ps) == EncParts(ps[..k]) + EncPart(ps[k]) + EncParts(ps[k + 1..])
  {
    hide EncPart;
    if k == 0 {
      assert ps[..0] == [];
    } else {
      PartsInOrder(ps[1..], k - 1);
      assert ps[1..][..k - 1] == ps[..k][1..] && ps[1..][k..] == ps[k + 1..];
    }
  }

  // So do the nodes of a list after their number ...
  lemma {:induction false} NodesInOrder(ns: seq<Node>, k: nat)
    requires k < |ns|
    ensures EncNodes(ns) == EncNodes(ns[..k]) + EncNode(ns[k]) + EncNodes(ns[k + 1..])
    ensures EncPart(ListPart(ns)) == U32(|ns|) + EncNodes(ns)
  {
    hide EncNode, U32;
    if k == 0 {
      assert ns[..0] == [];
    } else {
      NodesInOrder(ns[1..], k - 1);
      assert ns[1..][..k - 1] == ns[..k][1..] && ns[1..][k..] == ns[k + 1..];
    }
  }

  // ... the ranges of a list of ranges ...
  lemma {:induction false} RangesInOrder(rs: seq<Location>, k: nat)
    requires k < |rs|
    ensures EncRanges(rs) == EncRanges(rs[..k]) + EncRange(rs[k]) + EncRanges(rs[k + 1..])
    ensures EncPart(RangesPart(rs)) == U32(|rs|) + EncRanges(rs)
  {
    hide EncRange, U32;
    if k == 0 {
      assert rs[..0] == [];
    } else {
      RangesInOrder(rs[1..], k - 1);
      assert rs[1..][..k - 1] == rs[..k][1..] && rs[1..][k..] == rs[k + 1..];
    }
  }

  // ... and the entries of a hash after theirs, each key before its value.
  lemma {:induction false} EntriesInOrder(es: seq<Pair>, k: nat)
    requires k < |es|
    ensures EncEntries(es) == EncEntries(es[..k]) + EncNode(es[k].key) + EncNode(es[k].value) + EncEntries(es[k + 1..])
    ensures EncPart(HashPart(es)) == U32(|es|) + EncEntries(es)
  {
    hide EncNode, U32;
    if k == 0 {
      assert es[..0] == [];
    } else {
      EntriesInOrder(es[1..], k - 1);
      assert es[1..][..k - 1] == es[..k][1..] && es[1..][k..] == es[k + 1..];
      assert es[1..][k - 1] == es[k];
    }
  }

  // ---- what can be recovered -------------------------------------------------------------------------

  // Lengths below 2^32, positions of 32 bits, and the fields the kind of node has.
  predicate RangeFits(r: Location) {
    r.startChar == -1 || (-TWO_31 <= r.startChar < TWO_31 && -TWO_31 <= r.endChar < TWO_31)
  }

  ghost predicate Fits(n: Node)
    decreases n
  {
    n.Node? ==> 0 < n.tag < |SCHEMA| && PartsFit(n.parts, Kinds(n.tag))
  }

  ghost predicate PartsFit(ps: seq<Part>, kinds: string)
    decreases ps
  {
    |ps| == |kinds| && (ps != [] ==> PartFits(ps[0], kinds[0]) && PartsFit(ps[1..], kinds[1..]))
  }

  ghost predicate PartFits(p: Part, kind: char)
    decreases p
  {
    && Letter(p) == kind
    && match p {
         case LocPart(r) => RangeFits(r)
         case TextPart(t) => |t| < TWO_32
         case BytePart(_) => true
         case NodePart(n) => Fits(n)
         case ListPart(ns) => |ns| < TWO_32 && NodesFit(ns)
         case HashPart(es) => |es| < TWO_32 && EntriesFit(es)
         case RangesPart(rs) => |rs| < TWO_32 && forall r <- rs :: RangeFits(r)
         case IvarPart(_, name) => |name| < TWO_32
       }
  }

  ghost predicate NodesFit(ns: seq<Node>)
    decreases ns
  {
    ns != [] ==> Fits(ns[0]) && NodesFit(ns[1..])
  }

  ghost predicate EntriesFit(es: seq<Pair>)
    decreases es
  {
    es != [] ==> PairFits(es[0]) && EntriesFit(es[1..])
  }

  ghost predicate PairFits(e: Pair)
    decreases e
  {
    Fits(e.key) && Fits(e.value)
  }

  // A range without what is not written: byte offsets, and everything about a null range.
  function SeenRange(r: Location): Location {
    if r.startChar == -1 then NULL_LOCATION else Location(r.startChar, 0, r.endChar, 0)
  }

  function SeenRanges(rs: seq<Location>): seq<Location> {
    if rs == [] then [] else [SeenRange(rs[0])] + SeenRanges(rs[1..])
  }

  // The tree without what is not written.
  function Seen(n: Node): Node
    decreases n
  {
    match n
    case Null => Null
    case Node(tag, parts) => Node(tag, SeenParts(parts))
  }

  function SeenParts(ps: seq<Part>): seq<Part>
    decreases ps
  {
    if ps == [] then [] else [SeenPart(ps[0])] + SeenParts(ps[1..])
  }

  function SeenPart(p: Part): Part
    decreases p
  {
    match p
    case LocPart(r) => LocPart(SeenRange(r))
    case NodePart(n) => NodePart(Seen(n))
    case ListPart(ns) => ListPart(SeenNodes(ns))
    case HashPart(es) => HashPart(SeenEntries(es))
    case RangesPart(rs) => RangesPart(SeenRanges(rs))
    case IvarPart(tag, name) => IvarPart(tag, if tag == NAME_TAG then name else [])
    case TextPart(t) => TextPart(t)
    case BytePart(b) => BytePart(b)
  }

  function SeenNodes(ns: seq<Node>): seq<Node>
    decreases ns
  {
    if ns == [] then [] else [Seen(ns[0])] + SeenNodes(ns[1..])
  }

  function SeenEntries(es: seq<Pair>): seq<Pair>
    decreases es
  {
    if es == [] then [] else [SeenPair(es[0])] + SeenEntries(es[1..])
  }

  function SeenPair(e: Pair): Pair
    decreases e
  {
    Entry(Seen(e.key), Seen(e.value))
  }

  // ---- the decoder -----------------------------------------------------------------------------------

  // What has been read, and the bytes not read; None if the bytes are not of the format.
  type Read<+T> = Option<(T, Bytes)>

  function DecU32(b: Bytes): (r: Read<nat>)
    ensures r.Some? ==> |r.value.1| < |b|
  {
    if |b| < 4 then None
    else Some((b[0] as nat + 256 * b[1] as nat + 0x1_0000 * b[2] as nat + 0x100_0000 * b[3] as nat, b[4..]))
  }

  function Signed(u: nat): int {
    if u >= TWO_31 then u - TWO_32 else u
  }

  function DecText(b: Bytes): (r: Read<Bytes>)
    ensures r.Some? ==> |r.value.1| < |b|
  {
    var n := DecU32(b);
    if n.None? || |n.value.1| < n.value.0 then None else Some((n.value.1[..n.value.0], n.value.1[n.value.0..]))
  }

  function DecRange(b: Bytes): (r: Read<Location>)
    ensures r.Some? ==> |r.value.1| < |b|
  {
    if b == [] then None
    else if b[0] == 0 then Some((NULL_LOCATION, b[1..]))
    else
      var start := DecU32(b[1..]);
      if start.None? then None
      else
        var end := DecU32(start.value.1);
        if end.None? then None else Some((Location(Signed(start.value.0), 0, Signed(end.value.0), 0), end.value.1))
  }

  function DecRanges(n: nat, b: Bytes): (r: Read<seq<Location>>)
    ensures r.Some? ==> |r.value.1| <= |b|
  {
    if n == 0 then Some(([], b))
    else
      var head := DecRange(b);
      if head.None? then None
      else
        var tail := DecRanges(n - 1, head.value.1);
        if tail.None? then None else Some(([head.value.0] + tail.value.0, tail.value.1))
  }

  function DecNode(b: Bytes): (r: Read<Node>)
    ensures r.Some? ==> |r.value.1| < |b|
    decreases |b|, 0
  {
    if b == [] then None
    else if b[0] == 0 then Some((Null, b[1..]))
    else
      var parts := DecParts(Kinds(b[0] as nat), b[1..]);
      if parts.None? then None else Some((Node(b[0] as nat, parts.value.0), parts.value.1))
  }

  function DecParts(kinds: string, b: Bytes): (r: Read<seq<Part>>)
    ensures r.Some? ==> |r.value.1| <= |b|
    decreases |b|, 2 + |kinds|
  {
    if kinds == "" then Some(([], b))
    else
      var head := DecPart(kinds[0], b);
      if head.None? then None
      else
        var tail := DecParts(kinds[1..], head.value.1);
        if tail.None? then None else Some(([head.value.0] + tail.value.0, tail.value.1))
  }

  function DecPart(kind: char, b: Bytes): (r: Read<Part>)
    ensures r.Some? ==> |r.value.1| < |b|
    decreases |b|, 1
  {
    if kind == 'L' then
      var r := DecRange(b);
      if r.None? then None else Some((LocPart(r.value.0), r.value.1))
    else if kind == 'S' then
      var r := DecText(b);
      if r.None? then None else Some((TextPart(r.value.0), r.value.1))
    else if kind == 'B' then
      if b == [] then None else Some((BytePart(b[0]), b[1..]))
    else if kind == 'N' then
      var r := DecNode(b);
      if r.None? then None else Some((NodePart(r.value.0), r.value.1))
    else if kind == 'I' then
      if b == [] then None
      else if b[0] != NAME_TAG then Some((IvarPart(b[0], []), b[1..]))
      else
        var r := DecText(b[1..]);
        if r.None? then None else Some((IvarPart(b[0], r.value.0), r.value.1))
    else
      var n := DecU32(b);
      if n.None? then None
      else if kind == 'A' then
        var r := DecNodes(n.value.0, n.value.1);
        if r.None? then None else Some((ListPart(r.value.0), r.value.1))
      else if kind == 'H' then
        var r := DecEntries(n.value.0, n.value.1);
        if r.None? then None else Some((HashPart(r.value.0), r.value.1))
      else if kind == 'R' then
        var r := DecRanges(n.value.0, n.value.1);
        if r.None? then None else Some((RangesPart(r.value.0), r.value.1))
      else None
  }

  function DecNodes(n: nat, b: Bytes): (r: Read<seq<Node>>)
    ensures r.Some? ==> |r.value.1| <= |b|
    decreases |b|, 1
  {
    if n == 0 then Some(([], b))
    else
      var head := DecNode(b);
      if head.None? then None
      else
        var tail := DecNodes(n - 1, head.value.1);
        if tail.None? then None else Some(([head.value.0] + tail.value.0, tail.value.1))
  }

  function DecEntries(n: nat, b: Bytes): (r: Read<seq<Pair>>)
    ensures r.Some? ==> |r.value.1| <= |b|
    decreases |b|, 1
  {
    if n == 0 then Some(([], b))
    else
      var key := DecNode(b);
      if key.None? then None
      else
        var value := DecNode(key.value.1);
        if value.None? then None
        else
          var tail := DecEntries(n - 1, value.value.1);
          if tail.None? then None else Some(([Entry(key.value.0, value.value.0)] + tail.value.0, tail.value.1))
  }

  // ---- unique decodability ---------------------------------------------------------------------------

  lemma U32ComesBack(v: int, rest: Bytes)
    ensures DecU32(U32(v) + rest) == Some((v % TWO_32, rest))
  {
    var u := v % TWO_32;
    var b := U32(v) + rest;
    assert b[4..] == rest;
    assert u / 0x1_0000 == u / 256 / 256 && u / 0x100_0000 == u / 256 / 256 / 256;
  }

  // A position survives exactly if it has 32 bits.
  lemma I32ComesBack(v: int)
    ensures Signed(v % TWO_32) == v <==> -TWO_31 <= v < TWO_31
  {}

  // A text survives exactly if its length fits into the four bytes before it.
  lemma TextComesBack(t: Bytes, rest: Bytes)
    ensures DecText(EncText(t) + rest) == Some((t, rest)) <==> |t| < TWO_32
  {
    hide U32, DecU32;
    U32ComesBack(|t|, t + rest);
    var b := EncText(t) + rest;
    assert b == U32(|t|) + (t + rest);
    var n := |t| % TWO_32;
    assert |t| < TWO_32 ==> (t + rest)[..n] == t && (t + rest)[n..] == rest;
  }

  lemma RangeComesBack(r: Location, rest: Bytes)
    requires RangeFits(r)
    ensures DecRange(EncRange(r) + rest) == Some((SeenRange(r), rest))
  {
    hide U32, DecU32;
    var b := EncRange(r) + rest;
    if r.startChar == -1 {
      assert b[1..] == rest;
    } else {
      assert b[1..] == U32(r.startChar) + (U32(r.endChar) + rest);
      U32ComesBack(r.startChar, U32(r.endChar) + rest);
      U32ComesBack(r.endChar, rest);
      I32ComesBack(r.startChar);
      I32ComesBack(r.endChar);
    }
  }

  lemma {:induction false} RangesComeBack(rs: seq<Location>, rest: Bytes)
    requires forall r <- rs :: RangeFits(r)
    ensures DecRanges(|rs|, EncRanges(rs) + rest) == Some((SeenRanges(rs), rest))
    decreases |rs|
  {
    hide DecRange, EncRange, SeenRange;
    if rs == [] {
      assert [] + rest == rest;
    } else {
      RangeComesBack(rs[0], EncRanges(rs[1..]) + rest);
      RangesComeBack(rs[1..], rest);
      assert EncRanges(rs) + rest == EncRange(rs[0]) + (EncRanges(rs[1..]) + rest);
    }
  }

  // The decoder recovers the tree, up to what is not written, and leaves exactly the bytes that follow.
  lemma {:induction false} NodeComesBack(n: Node, rest: Bytes)
    requires Fits(n)
    ensures DecNode(EncNode(n) + rest) == Some((Seen(n), rest))
    decreases n
  {
    hide Kinds, PartsFit, DecParts, SeenParts, EncParts;
    var b := EncNode(n) + rest;
    match n
    case Null =>
      assert b[1..] == rest;
    case Node(tag, parts) =>
      PartsComeBack(parts, Kinds(tag), rest);
      assert b[1..] == EncParts(parts) + rest;
      assert b[0] as nat == tag;
  }

  lemma {:induction false} PartsComeBack(ps: seq<Part>, kinds: string, rest: Bytes)
    requires PartsFit(ps, kinds)
    ensures DecParts(kinds, EncParts(ps) + rest) == Some((SeenParts(ps), rest))
    decreases ps
  {
    hide PartFits, DecPart, SeenPart, EncPart;
    if ps == [] {
      assert [] + rest == rest;
    } else {
      PartComesBack(ps[0], kinds[0], EncParts(ps[1..]) + rest);
      PartsComeBack(ps[1..], kinds[1..], rest);
      assert EncParts(ps) + rest == EncPart(ps[0]) + (EncParts(ps[1..]) + rest);
    }
  }

  lemma {:induction false} PartComesBack(p: Part, kind: char, rest: Bytes)
    requires PartFits(p, kind)
    ensures DecPart(kind, EncPart(p) + rest) == Some((SeenPart(p), rest))
    decreases p
  {
    hide Fits, NodesFit, EntriesFit, DecNode, DecNodes, DecEntries, DecRange, DecRanges, DecText, DecU32, U32,
      EncText, EncRange, EncRanges, EncNode, EncNodes, EncEntries, Seen, SeenNodes, SeenEntries, SeenRange,
      SeenRanges;
    var b := EncPart(p) + rest;
    match p
    case LocPart(r) => RangeComesBack(r, rest);
    case TextPart(t) => TextComesBack(t, rest);
    case BytePart(_) => assert b[1..] == rest;
    case NodePart(n) => NodeComesBack(n, rest);
    case ListPart(ns) =>
      assert b == U32(|ns|) + (EncNodes(ns) + rest);
      U32ComesBack(|ns|, EncNodes(ns) + rest);
      NodesComeBack(ns, rest);
    case HashPart(es) =>
      assert b == U32(|es|) + (EncEntries(es) + rest);
      U32ComesBack(|es|, EncEntries(es) + rest);
      EntriesComeBack(es, rest);
    case RangesPart(rs) =>
      assert b == U32(|rs|) + (EncRanges(rs) + rest);
      U32ComesBack(|rs|, EncRanges(rs) + rest);
      RangesComeBack(rs, rest);
    case IvarPart(tag, name) =>
      assert b[0] == tag;
      if tag == NAME_TAG {
        assert b[1..] == EncText(name) + rest;
        TextComesBack(name, rest);
      } else {
        assert b[1..] == rest;
      }
  }

  lemma {:induction false} NodesComeBack(ns: seq<Node>, rest: Bytes)
    requires NodesFit(ns)
    ensures DecNodes(|ns|, EncNodes(ns) + rest) == Some((SeenNodes(ns), rest))
    decreases ns
  {
    hide Fits, DecNode, EncNode, Seen;
    if ns == [] {
      assert [] + rest == rest;
    } else {
      NodeComesBack(ns[0], EncNodes(ns[1..]) + rest);
      NodesComeBack(ns[1..], rest);
      assert EncNodes(ns) + rest == EncNode(ns[0]) + (EncNodes(ns[1..]) + rest);
    }
  }

  lemma {:induction false} EntriesComeBack(es: seq<Pair>, rest: Bytes)
    requires EntriesFit(es)
    ensures DecEntries(|es|, EncEntries(es) + rest) == Some((SeenEntries(es), rest))
    decreases es
  {
    hide Fits, DecNode, EncNode, Seen;
    if es == [] {
      assert [] + rest == rest;
    } else {
      var e, tail := es[0], EncEntries(es[1..]) + rest;
      PairComesBack(e, tail);
      EntriesComeBack(es[1..], rest);
      assert EncEntries(es) + rest == EncNode(e.key) + (EncNode(e.value) + tail);
    }
  }

  lemma {:induction false} PairComesBack(e: Pair, rest: Bytes)
    requires PairFits(e)
    ensures DecNode(EncNode(e.key) + (EncNode(e.value) + rest)) == Some((Seen(e.key), EncNode(e.value) + rest))
    ensures DecNode(EncNode(e.value) + rest) == Some((Seen(e.value), rest))
    decreases e
  {
    NodeComesBack(e.key, EncNode(e.value) + rest);
    NodeComesBack(e.value, rest);
  }

  // No encoding is the beginning of another: what follows cannot be mistaken for a part of the tree.
  lemma PrefixFree(m: Node, n: Node, r: Bytes, q: Bytes)
    requires Fits(m) && Fits(n) && EncNode(m) + r == EncNode(n) + q
    ensures Seen(m) == Seen(n) && r == q
  {
    NodeComesBack(m, r);
    NodeComesBack(n, q);
  }

  // Two trees have the same encoding exactly if they agree in everything that is written.
  lemma Injective(m: Node, n: Node)
    requires Fits(m) && Fits(n)
    ensures EncNode(m) == EncNode(n) <==> Seen(m) == Seen(n)
  {
    if EncNode(m) == EncNode(n) {
      PrefixFree(m, n, [], []);
    }
    SeenWrittenAlike(m);
    SeenWrittenAlike(n);
  }

  // What is dropped has no effect on the bytes.
  lemma {:induction false} SeenWrittenAlike(n: Node)
    ensures EncNode(Seen(n)) == EncNode(n)
    decreases n
  {
    if n.Node? {
      SeenPartsWrittenAlike(n.parts);
    }
  }

  lemma {:induction false} SeenPartsWrittenAlike(ps: seq<Part>)
    ensures EncParts(SeenParts(ps)) == EncParts(ps)
    decreases ps
  {
    if ps != [] {
      SeenPartWrittenAlike(ps[0]);
      SeenPartsWrittenAlike(ps[1..]);
      assert SeenParts(ps)[1..] == SeenParts(ps[1..]);
    }
  }

  lemma {:induction false} SeenPartWrittenAlike(p: Part)
    ensures EncPart(SeenPart(p)) == EncPart(p)
    decreases p
  {
    match p
    case NodePart(n) => SeenWrittenAlike(n);
    case ListPart(ns) => SeenNodesWrittenAlike(ns);
    case HashPart(es) => SeenEntriesWrittenAlike(es);
    case RangesPart(rs) => SeenRangesWrittenAlike(rs);
    case _ =>
  }

  lemma {:induction false} SeenNodesWrittenAlike(ns: seq<Node>)
    ensures EncNodes(SeenNodes(ns)) == EncNodes(ns) && |SeenNodes(ns)| == |ns|
    decreases ns
  {
    if ns != [] {
      SeenWrittenAlike(ns[0]);
      SeenNodesWrittenAlike(ns[1..]);
      assert SeenNodes(ns)[1..] == SeenNodes(ns[1..]);
    }
  }

  lemma {:induction false} SeenEntriesWrittenAlike(es: seq<Pair>)
    ensures EncEntries(SeenEntries(es)) == EncEntries(es) && |SeenEntries(es)| == |es|
    decreases es
  {
    if es != [] {
      SeenPairWrittenAlike(es[0]);
      SeenEntriesWrittenAlike(es[1..]);
      assert SeenEntries(es)[1..] == SeenEntries(es[1..]);
    }
  }

  lemma {:induction false} SeenPairWrittenAlike(e: Pair)
    ensures EncPair(SeenPair(e)) == EncPair(e)
    decreases e
  {
    SeenWrittenAlike(e.key);
    SeenWrittenAlike(e.value);
  }

  lemma {:induction false} SeenRangesWrittenAlike(rs: seq<Location>)
    ensures EncRanges(SeenRanges(rs)) == EncRanges(rs) && |SeenRanges(rs)| == |rs|
    decreases |rs|
  {
    if rs != [] {
      SeenRangesWrittenAlike(rs[1..]);
      assert SeenRanges(rs)[1..] == SeenRanges(rs[1..]);
    }
  }

  // ---- the writers -----------------------------------------------------------------------------------

  // `value >> n`.
  function Shifted(value: nat, n: nat): nat
    decreases n
  {
    if n == 0 then value else Shifted(value / 2, n - 1)
  }

  lemma {:induction false} ShiftTwice(value: nat, m: nat, n: nat)
    ensures Shifted(value, m + n) == Shifted(Shifted(value, m), n)
    decreases m
  {
    if m > 0 {
      ShiftTwice(value / 2, m - 1, n);
    }
  }

  lemma {:induction false} ShiftByByte(v: nat)
    ensures Shifted(v, 8) == v / 0x100
  {
    assert Shifted(v, 8) == Shifted(v / 2, 7) == Shifted(v / 4, 6) == Shifted(v / 8, 5) == Shifted(v / 16, 4);
    assert Shifted(v / 16, 4) == Shifted(v / 32, 3) == Shifted(v / 64, 2) == Shifted(v / 128, 1) == v / 256;
  }

  lemma {:induction false} ShiftByBytes(value: nat)
    ensures Shifted(value, 8) == value / 0x100
    ensures Shifted(value, 16) == value / 0x1_0000
    ensures Shifted(value, 24) == value / 0x100_0000
  {
    ShiftTwice(value, 8, 8);
    ShiftTwice(value, 16, 8);
    ShiftByByte(value);
    ShiftByByte(Shifted(value, 8));
    ShiftByByte(Shifted(value, 16));
  }

  // rbs_serialize_state: the buffer every writer appends to.
  class State {
    var buffer: Bytes

    constructor ()
      ensures buffer == []
    {
      buffer := [];
    }

    method WriteU8(b: u8)
      modifies this
      ensures buffer == old(buffer) + [b]
    {
      buffer := buffer + [b];
    }

    method WriteU32(v: int)
      modifies this
      ensures buffer == old(buffer) + U32(v)
      ensures DecU32(buffer[|old(buffer)|..]) == Some((v % TWO_32, []))
    {
      U32ComesBack(v, []);
      assert U32(v) + [] == U32(v);
      var value: nat := v % TWO_32;
      ShiftByBytes(value);
      buffer := buffer + [(value % 256) as u8, (Shifted(value, 8) % 256) as u8, (Shifted(value, 16) % 256) as u8,
                          (Shifted(value, 24) % 256) as u8];
    }

    // w_string and w_constant.
    method WriteText(t: Bytes)
      modifies this
      ensures buffer == old(buffer) + EncText(t)
    {
      WriteU32(|t|);
      buffer := buffer + t;
    }

    // w_loc_range.
    method WriteRange(r: Location)
      modifies this
      ensures buffer == old(buffer) + EncRange(r)
    {
      if r.startChar == -1 {
        WriteU8(0);
      } else {
        WriteU8(1);
        WriteU32(r.startChar);
        WriteU32(r.endChar);
      }
    }

    // w_loc_range_list.
    method WriteRanges(rs: seq<Location>)
      modifies this
      ensures buffer == old(buffer) + (U32(|rs|) + EncRanges(rs))
    {
      hide U32, EncRange;
      WriteU32(|rs|);
      var i := 0;
      assert rs[0..] == rs;
      while i < |rs|
        invariant i <= |rs|
        invariant buffer + EncRanges(rs[i..]) == old(buffer) + (U32(|rs|) + EncRanges(rs))
      {
        WriteRange(rs[i]);
        assert rs[i..][1..] == rs[i + 1..];
        i := i + 1;
      }
    }

    // w_attr_ivar_name.
    method WriteIvarName(tag: u8, name: Bytes)
      modifies this
      ensures buffer == old(buffer) + EncPart(IvarPart(tag, name))
    {
      WriteU8(tag);
      if tag == NAME_TAG {
        WriteText(name);
      }
    }

    // w_node_list.
    method WriteNodes(ns: seq<Node>)
      modifies this
      ensures buffer == old(buffer) + (U32(|ns|) + EncNodes(ns))
      decreases ns, 1
    {
      hide U32, EncNode;
      WriteU32(|ns|);
      var i := 0;
      assert ns[0..] == ns;
      while i < |ns|
        invariant i <= |ns|
        invariant buffer + EncNodes(ns[i..]) == old(buffer) + (U32(|ns|) + EncNodes(ns))
      {
        SerializeNode(ns[i]);
        assert ns[i..][1..] == ns[i + 1..];
        i := i + 1;
      }
    }

    // w_hash: the entries are counted by walking the list, then written.
    method WriteHash(es: seq<Pair>)
      modifies this
      ensures buffer == old(buffer) + (U32(|es|) + EncEntries(es))
      decreases es, 1
    {
      hide U32, EncNode;
      var count, rest := 0, es;
      while rest != []
        invariant count + |rest| == |es|
      {
        count, rest := count + 1, rest[1..];
      }
      WriteU32(count);
      var i := 0;
      assert es[0..] == es;
      while i < |es|
        invariant i <= |es|
        invariant buffer + EncEntries(es[i..]) == old(buffer) + (U32(|es|) + EncEntries(es))
      {
        WritePair(es[i]);
        assert es[i..][1..] == es[i + 1..];
        i := i + 1;
      }
    }

    method WritePair(e: Pair)
      modifies this
      ensures buffer == old(buffer) + EncPair(e)
      decreases e, 0
    {
      SerializeNode(e.key);
      SerializeNode(e.value);
    }

    // serialize_node: the tag, then the fields one after the other.
    method SerializeNode(n: Node)
      modifies this
      ensures buffer == old(buffer) + EncNode(n)
      decreases n, 1
    {
      if n.Null? {
        WriteU8(0);
      } else {
        hide EncParts;
        WriteU8((n.tag % 256) as u8);
        WriteParts(n.parts);
      }
    }

    method WriteParts(ps: seq<Part>)
      modifies this
      ensures buffer == old(buffer) + EncParts(ps)
      decreases ps, 0
    {
      hide EncPart;
      var i := 0;
      assert ps[0..] == ps;
      while i < |ps|
        invariant i <= |ps|
        invariant buffer + EncParts(ps[i..]) == old(buffer) + EncParts(ps)
      {
        WritePart(ps[i]);
        assert ps[i..][1..] == ps[i + 1..];
        i := i + 1;
      }
    }

    method WritePart(p: Part)
      modifies this
      ensures buffer == old(buffer) + EncPart(p)
      decreases p, 0
    {
      match p
      case LocPart(r) => WriteRange(r);
      case TextPart(t) => WriteText(t);
      case BytePart(b) => WriteU8(b);
      case NodePart(m) => SerializeNode(m);
      case ListPart(ns) => WriteNodes(ns);
      case HashPart(es) => WriteHash(es);
      case RangesPart(rs) => WriteRanges(rs);
      case IvarPart(tag, name) => WriteIvarName(tag, name);
    }
  }

  // rbs_serialize_node.
  method Serialize(n: Node) returns (bytes: Bytes)
    ensures bytes == EncNode(n)
    ensures Fits(n) ==> DecNode(bytes) == Some((Seen(n), []))
  {
    var state := new State();
    state.SerializeNode(n);
    bytes := state.buffer;
    if Fits(n) {
      NodeComesBack(n, []);
      assert EncNode(n) + [] == EncNode(n);
    }
  }

}
