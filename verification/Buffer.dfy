/** Source buffers (lib/rbs/buffer.rb): lines and columns, buffers made of pieces of other buffers, and the
    cache of character offsets. Contents are characters; a character has a width in bytes. */
module Buffers {
  import opened Tokens

  // `begin...end`.
  datatype Range = Range(begin: int, end: int)

  datatype Loc = Loc(line: int, column: int)

  // ---- lines -----------------------------------------------------------------------------------------

  // How many characters come before the first line feed.
  function LineLength(s: string): (n: nat)
    ensures n <= |s| && (n < |s| ==> s[n] == '\n')
    ensures forall i :: 0 <= i < n ==> s[i] != '\n'
  {
    if s == [] || s[0] == '\n' then 0 else 1 + LineLength(s[1..])
  }

  // The length of the first line after `chomp`, which takes a line feed and a carriage return before it, or a
  // carriage return alone at the end.
  function ChompedLength(s: string): (n: nat)
    ensures LineLength(s) - 1 <= n <= LineLength(s)
  {
    var n := LineLength(s);
    if n > 0 && s[n - 1] == '\r' then n - 1 else n
  }

  // The ranges of the lines of a text that starts at `offset`; a line feed at the end opens an empty line.
  function RangesFrom(s: string, offset: int): (r: seq<Range>)
    ensures r != []
    decreases |s|
  {
    var n := LineLength(s);
    [Range(offset, offset + ChompedLength(s))] + (if n < |s| then RangesFrom(s[n + 1..], offset + n + 1) else [])
  }

  // Each line starts after the end of the one before it, and none ends before it starts.
  ghost predicate Ascending(r: seq<Range>) {
    && (forall i :: 0 <= i < |r| ==> r[i].begin <= r[i].end)
    && (forall i, j :: 0 <= i < j < |r| ==> r[i].end < r[j].begin)
  }

  lemma {:induction false} FirstRange(s: string, offset: int)
    ensures var n := LineLength(s);
            RangesFrom(s, offset) ==
            [Range(offset, offset + ChompedLength(s))] + if n < |s| then RangesFrom(s[n + 1..], offset + n + 1) else []
  {
    hide LineLength, ChompedLength;
  }

  lemma {:induction false} RangesAscend(s: string, offset: int)
    ensures Ascending(RangesFrom(s, offset))
    ensures forall x <- RangesFrom(s, offset) :: offset <= x.begin && x.end <= offset + |s|
    ensures RangesFrom(s, offset)[0].begin == offset
    decreases |s|
  {
    hide RangesFrom, LineLength, ChompedLength;
    FirstRange(s, offset);
    var n := LineLength(s);
    if n < |s| {
      RangesAscend(s[n + 1..], offset + n + 1);
    }
  }

  // The index of the first range that does not end before the position, or |r|.
  function FirstNotBefore(r: seq<Range>, pos: int): (i: nat)
    ensures i <= |r| && (i < |r| ==> pos <= r[i].end) && forall j :: 0 <= j < i ==> r[j].end < pos
  {
    if r == [] || pos <= r[0].end then 0 else 1 + FirstNotBefore(r[1..], pos)
  }

  function LocFor(r: seq<Range>, pos: int): Loc {
    var i := FirstNotBefore(r, pos);
    if i < |r| then Loc(i + 1, pos - r[i].begin) else Loc(|r| + 1, 0)
  }

  // `Array#fetch` counts a negative index from the end.
  function Fetch(r: seq<Range>, i: int): Option<Range> {
    if 0 <= i < |r| then Some(r[i]) else if -|r| <= i < 0 then Some(r[|r| + i]) else None
  }

  function LastPosition(r: seq<Range>): int {
    if r == [] then 0 else r[|r| - 1].end
  }

  function PosFor(r: seq<Range>, loc: Loc): int {
    var range := Fetch(r, loc.line - 1);
    if range.Some? then range.value.begin + loc.column else LastPosition(r)
  }

  // Every position up to the last comes back, and what lies beyond comes back as the last.
  lemma PositionComesBack(s: string, pos: int)
    ensures var r := RangesFrom(s, 0);
            PosFor(r, LocFor(r, pos)) == if pos <= LastPosition(r) then pos else LastPosition(r)
  {
    var r := RangesFrom(s, 0);
    var i := FirstNotBefore(r, pos);
    assert i == |r| ==> r[|r| - 1].end < pos;
    if i < |r| && pos > LastPosition(r) {
      RangesAscend(s, 0);
    }
  }

  // A line and a column within that line come back.
  lemma LocationComesBack(s: string, loc: Loc)
    requires var r := RangesFrom(s, 0);
             1 <= loc.line <= |r| && 0 <= loc.column <= r[loc.line - 1].end - r[loc.line - 1].begin
    ensures LocFor(RangesFrom(s, 0), PosFor(RangesFrom(s, 0), loc)) == loc
  {
    var r := RangesFrom(s, 0);
    RangesAscend(s, 0);
    var pos := PosFor(r, loc);
    var i := FirstNotBefore(r, pos);
    hide RangesFrom;
    assert i >= loc.line - 1;
  }

  // ---- the lexer's count of lines and columns --------------------------------------------------------

  // Line and column after a text: a line feed ends a line.
  function Scanned(s: string): Loc {
    if s == [] then Loc(1, 0)
    else if s[|s| - 1] == '\n' then Loc(Scanned(s[..|s| - 1]).line + 1, 0)
    else Loc(Scanned(s[..|s| - 1]).line, Scanned(s[..|s| - 1]).column + 1)
  }

  predicate BetweenCrLf(s: string, pos: int) {
    0 < pos < |s| && s[pos - 1] == '\r' && s[pos] == '\n'
  }

  lemma {:induction false} ScannedLine(s: string, n: nat)
    requires n <= |s| && forall i :: 0 <= i < n ==> s[i] != '\n'
    ensures Scanned(s[..n]) == Loc(1, n)
    decreases n
  {
    if n > 0 {
      ScannedLine(s, n - 1);
      assert s[..n][..n - 1] == s[..n - 1];
    }
  }

  // After a first line of `n` characters and its line feed.
  lemma {:induction false} ScannedNextLine(s: string, n: nat, pos: nat)
    requires n < pos <= |s| && s[n] == '\n' && forall i :: 0 <= i < n ==> s[i] != '\n'
    ensures Scanned(s[..pos]) == Loc(Scanned(s[n + 1..][..pos - n - 1]).line + 1, Scanned(s[n + 1..][..pos - n - 1]).column)
    decreases pos
  {
    var rest := s[n + 1..][..pos - n - 1];
    if pos == n + 1 {
      ScannedLine(s, n);
      assert s[..pos][..n] == s[..n] && rest == [];
    } else {
      ScannedNextLine(s, n, pos - 1);
      assert s[..pos][..pos - 1] == s[..pos - 1];
      assert rest[..|rest| - 1] == s[n + 1..][..pos - 1 - n - 1];
    }
  }

  // The two ways of counting agree at every position up to the last, except between a carriage return and its
  // line feed.
  lemma {:induction false} CountsAgree(s: string, offset: int, pos: nat)
    requires pos <= |s| && offset + pos <= LastPosition(RangesFrom(s, offset))
    ensures LocFor(RangesFrom(s, offset), offset + pos) == Scanned(s[..pos]) <==> !BetweenCrLf(s, pos)
    decreases |s|
  {
    hide RangesFrom, LineLength, ChompedLength, Scanned, LocFor, LastPosition;
    var n := LineLength(s);
    if pos <= n {
      FirstLineAgrees(s, offset, pos);
    } else {
      var rest, m := s[n + 1..], pos - n - 1;
      ScannedNextLine(s, n, pos);
      LaterLine(s, offset, pos);
      CountsAgree(rest, offset + n + 1, m);
      assert BetweenCrLf(s, pos) <==> BetweenCrLf(rest, m);
    }
  }

  // A position after the first line is looked up among the later lines.
  lemma {:induction false} LaterLine(s: string, offset: int, pos: nat)
    requires LineLength(s) < pos <= |s|
    ensures var n, r := LineLength(s), RangesFrom(s, offset);
            var r' := RangesFrom(s[n + 1..], offset + n + 1);
            && LastPosition(r) == LastPosition(r')
            && LocFor(r, offset + pos) == Loc(LocFor(r', offset + pos).line + 1, LocFor(r', offset + pos).column)
  {
    hide RangesFrom, LineLength, ChompedLength, LocFor;
    FirstRange(s, offset);
    var n := LineLength(s);
    var r, r' := RangesFrom(s, offset), RangesFrom(s[n + 1..], offset + n + 1);
    assert r[1..] == r';
    FoundAfterTheFirst(r, offset + pos);
  }

  lemma {:induction false} FoundAfterTheFirst(r: seq<Range>, pos: int)
    requires r != [] && r[0].end < pos
    ensures LocFor(r, pos) == Loc(LocFor(r[1..], pos).line + 1, LocFor(r[1..], pos).column)
  {}

  lemma OnFirstLine(r: seq<Range>, pos: int)
    requires r != []
    ensures if pos <= r[0].end then LocFor(r, pos) == Loc(1, pos - r[0].begin) else LocFor(r, pos).line > 1
  {}

  lemma BetweenOnFirstLine(s: string, pos: nat)
    requires pos <= LineLength(s)
    ensures BetweenCrLf(s, pos) <==> ChompedLength(s) < pos < |s|
  {
    hide LineLength;
    if pos < LineLength(s) {
      assert s[pos] != '\n';
      assert !BetweenCrLf(s, pos);
    }
  }

  lemma FirstLineAgrees(s: string, offset: int, pos: nat)
    requires pos <= LineLength(s) && offset + pos <= LastPosition(RangesFrom(s, offset))
    ensures LocFor(RangesFrom(s, offset), offset + pos) == Scanned(s[..pos]) <==> !BetweenCrLf(s, pos)
  {
    FirstRange(s, offset);
    ScannedLine(s, pos);
    BetweenOnFirstLine(s, pos);
    OnFirstLine(RangesFrom(s, offset), offset + pos);
    hide RangesFrom, LineLength, ChompedLength, Scanned, LocFor, BetweenCrLf;
  }

  // ---- buffers made of pieces ------------------------------------------------------------------------

  // `content[begin...end]`: a negative bound counts from the end; nil if it starts outside.
  function Slice(s: string, r: Range): Option<string> {
    var begin := if r.begin < 0 then r.begin + |s| else r.begin;
    if begin < 0 || begin > |s| then None
    else
      var end := if r.end < 0 then r.end + |s| else if r.end <= |s| then r.end else |s|;
      Some(if end < begin then "" else s[begin..end])
  }

  predicate HasNewline(s: string) {
    '\n' in s
  }

  // The pieces, each followed by a line feed.
  function Terminated(pieces: seq<string>): string {
    if pieces == [] then "" else pieces[0] + "\n" + Terminated(pieces[1..])
  }

  // `chomp!`.
  function Chomped(s: string): string {
    if s == "" then s
    else if s[|s| - 1] == '\n' then
      if |s| > 1 && s[|s| - 2] == '\r' then s[..|s| - 2] else s[..|s| - 1]
    else if s[|s| - 1] == '\r' then s[..|s| - 1]
    else s
  }

  // The pieces with line feeds between them.
  function Joined(pieces: seq<string>): string {
    if pieces == [] then "" else if |pieces| == 1 then pieces[0] else pieces[0] + "\n" + Joined(pieces[1..])
  }

  predicate EndsInCr(s: string) {
    s != "" && s[|s| - 1] == '\r'
  }

  // What is left of the pieces: the last one loses a carriage return to `chomp!`.
  function Kept(pieces: seq<string>): seq<string> {
    if pieces == [] then []
    else if |pieces| == 1 then [if EndsInCr(pieces[0]) then pieces[0][..|pieces[0]| - 1] else pieces[0]]
    else [pieces[0]] + Kept(pieces[1..])
  }

  lemma {:induction false} ContentIsJoined(pieces: seq<string>)
    ensures Chomped(Terminated(pieces)) == Joined(Kept(pieces))
    ensures |Kept(pieces)| == |pieces|
    decreases |pieces|
  {
    if |pieces| == 1 {
      assert Terminated(pieces) == pieces[0] + "\n" + "";
    } else if |pieces| > 1 {
      var head, rest := pieces[0] + "\n", pieces[1..];
      ContentIsJoined(rest);
      TerminatedEnds(rest);
      ChompedTail(head, Terminated(rest));
      assert Kept(pieces)[1..] == Kept(rest);
    }
  }

  lemma {:induction false} TerminatedEnds(pieces: seq<string>)
    requires pieces != []
    ensures Terminated(pieces) != "" && Terminated(pieces)[|Terminated(pieces)| - 1] == '\n'
    decreases |pieces|
  {
    if |pieces| > 1 {
      TerminatedEnds(pieces[1..]);
    }
  }

  lemma ChompedTail(a: string, b: string)
    requires b != "" && b[|b| - 1] == '\n'
    requires |b| > 1 || a == "" || a[|a| - 1] != '\r'
    ensures Chomped(a + b) == a + Chomped(b)
  {}

  // `sub_buffer`: the pieces of the content at the given ranges; nil or a line feed in a piece raises.
  function Pieces(content: string, lines: seq<Range>): Option<seq<string>> {
    if lines == [] then Some([])
    else
      var piece := Slice(content, lines[0]);
      if piece.None? || HasNewline(piece.value) then None
      else
        var rest := Pieces(content, lines[1..]);
        if rest.None? then None else Some([piece.value] + rest.value)
  }

  // What `parent_position` answers: it raises, or gives nil, or a position.
  datatype Answer = Raised | Nowhere | At(pos: int)

  function Translate(content: string, lines: seq<Range>, pos: int): Answer {
    var r := RangesFrom(content, 0);
    if pos > LastPosition(r) then Nowhere
    else
      var loc := LocFor(r, pos);
      if loc.line <= |lines| then At(lines[loc.line - 1].begin + loc.column) else Raised
  }

  // ---- translation -----------------------------------------------------------------------------------

  // The pieces are the parent's content at the ranges, without line feeds; the last may have lost its end.
  ghost predicate CutFrom(pieces: seq<string>, content: string, lines: seq<Range>) {
    && |pieces| == |lines|
    && forall k :: 0 <= k < |pieces| ==>
         !HasNewline(pieces[k]) && 0 <= lines[k].begin && lines[k].begin + |pieces[k]| <= |content|
         && pieces[k] == content[lines[k].begin..lines[k].begin + |pieces[k]|]
  }

  lemma {:induction false} PiecesAreCut(content: string, lines: seq<Range>)
    requires forall r <- lines :: 0 <= r.begin
    ensures var p := Pieces(content, lines); p.Some? ==>
              CutFrom(p.value, content, lines) && CutFrom(Kept(p.value), content, lines)
    decreases |lines|
  {
    if lines != [] {
      PiecesAreCut(content, lines[1..]);
      var p := Pieces(content, lines);
      if p.Some? {
        assert p.value[1..] == Pieces(content, lines[1..]).value;
        SliceIsCut(content, lines[0]);
        hide Slice, HasNewline;
        CutOneMore(p.value, content, lines);
        KeptIsPrefix(p.value);
        hide EndsInCr, Kept;
        CutOneMore(Kept(p.value), content, lines);
      }
    }
  }

  lemma SliceIsCut(content: string, r: Range)
    requires 0 <= r.begin && Slice(content, r).Some?
    ensures var s := Slice(content, r).value;
            r.begin + |s| <= |content| && s == content[r.begin..r.begin + |s|]
  {}

  lemma KeptIsPrefix(pieces: seq<string>)
    requires pieces != []
    ensures |Kept(pieces)| >= 1 && Kept(pieces)[1..] == Kept(pieces[1..])
    ensures var s, k := pieces[0], Kept(pieces)[0]; |k| <= |s| && k == s[..|k|]
  {}

  lemma CutOneMore(pieces: seq<string>, content: string, lines: seq<Range>)
    requires pieces != [] && lines != [] && CutFrom(pieces[1..], content, lines[1..])
    requires !HasNewline(pieces[0]) && 0 <= lines[0].begin && lines[0].begin + |pieces[0]| <= |content|
    requires pieces[0] == content[lines[0].begin..lines[0].begin + |pieces[0]|]
    ensures CutFrom(pieces, content, lines)
  {
    forall k | 0 < k < |pieces|
      ensures pieces[k] == pieces[1..][k - 1] && lines[k] == lines[1..][k - 1]
    {}
  }

  // The end of the first of several pieces is where the line ends in the joined text.
  lemma JoinedFirstLine(pieces: seq<string>)
    requires pieces != [] && !HasNewline(pieces[0])
    ensures LineLength(Joined(pieces)) == |pieces[0]|
    ensures |pieces| > 1 ==> |pieces[0]| < |Joined(pieces)| && Joined(pieces)[|pieces[0]| + 1..] == Joined(pieces[1..])
    ensures forall i :: 0 <= i < |pieces[0]| ==> Joined(pieces)[i] == pieces[0][i]
  {
    var s := Joined(pieces);
    assert forall i :: 0 <= i < |pieces[0]| ==> s[i] in pieces[0];
    assert |pieces| > 1 ==> s[|pieces[0]|] == '\n';
  }

  lemma {:induction false} RangesShift(s: string, o: int, d: int)
    ensures |RangesFrom(s, o + d)| == |RangesFrom(s, o)|
    ensures forall i :: 0 <= i < |RangesFrom(s, o)| ==>
              RangesFrom(s, o + d)[i] == Range(RangesFrom(s, o)[i].begin + d, RangesFrom(s, o)[i].end + d)
    decreases |s|
  {
    FirstRange(s, o);
    FirstRange(s, o + d);
    hide RangesFrom, ChompedLength, LineLength;
    var n := LineLength(s);
    if n < |s| {
      RangesShift(s[n + 1..], o + n + 1, d);
    }
  }

  lemma {:induction false} LookupShift(a: seq<Range>, b: seq<Range>, d: int, pos: int)
    requires |a| == |b| && forall i :: 0 <= i < |a| ==> b[i] == Range(a[i].begin + d, a[i].end + d)
    ensures FirstNotBefore(b, pos + d) == FirstNotBefore(a, pos) && LocFor(b, pos + d) == LocFor(a, pos)
    ensures a != [] ==> LastPosition(b) == LastPosition(a) + d
    decreases |a|
  {
    if a != [] && pos > a[0].end {
      LookupShift(a[1..], b[1..], d, pos);
    }
  }

  // Where the line of a piece ends: before a carriage return.
  function PieceEnd(piece: string): nat {
    if EndsInCr(piece) then |piece| - 1 else |piece|
  }

  lemma FirstPiece(pieces: seq<string>, lines: seq<Range>, pos: int)
    requires pieces != [] && |lines| == |pieces| && !HasNewline(pieces[0]) && pos <= PieceEnd(pieces[0])
    ensures Translate(Joined(pieces), lines, pos) == At(lines[0].begin + pos)
  {
    var s := Joined(pieces);
    JoinedFirstLine(pieces);
    FirstRange(s, 0);
    assert ChompedLength(s) == PieceEnd(pieces[0]);
    RangesAscend(s, 0);
    OnFirstLine(RangesFrom(s, 0), pos);
    hide RangesFrom, LocFor, Joined;
  }

  // The ranges of joined pieces: that of the first piece, and those of the others moved on.
  lemma JoinedRanges(pieces: seq<string>)
    requires |pieces| > 1 && !HasNewline(pieces[0])
    ensures var n, r := |pieces[0]|, RangesFrom(Joined(pieces), 0);
            && r[0] == Range(0, PieceEnd(pieces[0]))
            && |r| == 1 + |RangesFrom(Joined(pieces[1..]), 0)|
            && r[1..] == RangesFrom(Joined(pieces[1..]), n + 1)
  {
    hide RangesFrom, Joined, ChompedLength, LineLength, PieceEnd, HasNewline;
    JoinedFirstLine(pieces);
    PieceEndIsChomped(pieces);
    FirstRange(Joined(pieces), 0);
    RangesShift(Joined(pieces[1..]), 0, |pieces[0]| + 1);
  }

  lemma PieceEndIsChomped(pieces: seq<string>)
    requires pieces != [] && !HasNewline(pieces[0])
    ensures ChompedLength(Joined(pieces)) == PieceEnd(pieces[0])
  {
    JoinedFirstLine(pieces);
    hide Joined, LineLength;
  }

  lemma LaterPiece(pieces: seq<string>, lines: seq<Range>, pos: int)
    requires |pieces| > 1 && |lines| == |pieces| && !HasNewline(pieces[0]) && pos > PieceEnd(pieces[0])
    ensures Translate(Joined(pieces), lines, pos)
         == Translate(Joined(pieces[1..]), lines[1..], pos - |pieces[0]| - 1)
  {
    hide RangesFrom, Joined, LocFor, LastPosition, PieceEnd, HasNewline, FirstNotBefore;
    var n, rest := |pieces[0]|, Joined(pieces[1..]);
    JoinedRanges(pieces);
    RangesShift(rest, 0, n + 1);
    var r, r' := RangesFrom(Joined(pieces), 0), RangesFrom(rest, n + 1);
    LookupShift(RangesFrom(rest, 0), r', n + 1, pos - n - 1);
    PassOver(r, r', pos);
    AtLeastFirstLine(RangesFrom(rest, 0), pos - n - 1);
  }

  lemma AtLeastFirstLine(r: seq<Range>, pos: int)
    ensures LocFor(r, pos).line >= 1
  {}

  lemma PassOver(r: seq<Range>, r': seq<Range>, pos: int)
    requires r != [] && r' != [] && r[1..] == r' && r[0].end < pos
    ensures LocFor(r, pos) == Loc(LocFor(r', pos).line + 1, LocFor(r', pos).column)
    ensures LastPosition(r) == LastPosition(r')
  {
    assert FirstNotBefore(r, pos) == 1 + FirstNotBefore(r', pos);
  }

  // Every character of a buffer made of pieces, except the line feeds that join them, is the parent's character
  // at the translated position; this holds of pieces that end in a carriage return as well.
  lemma {:induction false} CharactersComeFromParent(pieces: seq<string>, content: string, lines: seq<Range>, pos: nat)
    requires CutFrom(pieces, content, lines) && pos < |Joined(pieces)| && Joined(pieces)[pos] != '\n'
    ensures var p := Translate(Joined(pieces), lines, pos);
            p.At? && 0 <= p.pos < |content| && content[p.pos] == Joined(pieces)[pos]
    decreases |pieces|
  {
    JoinedFirstLine(pieces);
    hide Translate, LineLength;
    var n := |pieces[0]|;
    if pos < n {
      FirstPiece(pieces, lines, pos);
    } else {
      assert pos > n;
      LaterPiece(pieces, lines, pos);
      CutTail(pieces, content, lines);
      CharactersComeFromParent(pieces[1..], content, lines[1..], pos - n - 1);
    }
  }

  lemma CutTail(pieces: seq<string>, content: string, lines: seq<Range>)
    requires CutFrom(pieces, content, lines) && pieces != []
    ensures CutFrom(pieces[1..], content, lines[1..])
  {}

  ghost predicate Lines(pieces: seq<string>, lines: seq<Range>) {
    pieces != [] && |lines| == |pieces| && forall s <- pieces :: !HasNewline(s)
  }

  // At least one character of the parent lies between consecutive pieces, which are in order.
  ghost predicate GapsBetween(pieces: seq<string>, lines: seq<Range>)
    requires |lines| == |pieces|
  {
    forall k :: 0 <= k < |pieces| - 1 ==> lines[k].begin + |pieces[k]| < lines[k + 1].begin
  }

  function Last(pieces: seq<string>): int {
    LastPosition(RangesFrom(Joined(pieces), 0))
  }

  function Translated(pieces: seq<string>, lines: seq<Range>, pos: int): Answer {
    Translate(Joined(pieces), lines, pos)
  }

  lemma LastOfPieces(pieces: seq<string>)
    requires pieces != [] && !HasNewline(pieces[0])
    ensures |pieces| == 1 ==> Last(pieces) == PieceEnd(pieces[0])
    ensures |pieces| > 1 ==> Last(pieces) == |pieces[0]| + 1 + Last(pieces[1..])
    ensures Last(pieces) >= PieceEnd(pieces[0]) >= |pieces[0]| - 1
  {
    LastOf(Joined(pieces), 0);
    hide RangesFrom, LastPosition, HasNewline;
    if |pieces| == 1 {
      JoinedOne(pieces);
    } else {
      var rest := Joined(pieces[1..]);
      LastOf(rest, 0);
      assert Joined(pieces) == pieces[0] + "\n" + rest;
      hide Joined;
    }
  }

  lemma JoinedOne(pieces: seq<string>)
    requires |pieces| == 1
    ensures Joined(pieces) == pieces[0]
  {}

  lemma LinesTail(pieces: seq<string>, lines: seq<Range>)
    requires Lines(pieces, lines) && |pieces| > 1
    ensures Lines(pieces[1..], lines[1..]) && (GapsBetween(pieces, lines) ==> GapsBetween(pieces[1..], lines[1..]))
  {}

  // No position is translated to one before the first piece; that before a line whose predecessor ends in a
  // carriage return comes out one too low.
  lemma {:induction false} TranslatedNotBelow(pieces: seq<string>, lines: seq<Range>, pos: int)
    requires Lines(pieces, lines) && GapsBetween(pieces, lines) && -1 <= pos <= Last(pieces)
    ensures var p := Translated(pieces, lines, pos);
            p.At? && p.pos >= lines[0].begin + if pos < 0 then -1 else 0
    decreases |pieces|
  {
    hide Last, Joined, Translate, HasNewline;
    LastOfPieces(pieces);
    if pos <= PieceEnd(pieces[0]) {
      FirstPiece(pieces, lines, pos);
    } else {
      assert |pieces| > 1;
      LaterPiece(pieces, lines, pos);
      LinesTail(pieces, lines);
      TranslatedNotBelow(pieces[1..], lines[1..], pos - |pieces[0]| - 1);
    }
  }

  lemma {:induction false} GapsIncrease(pieces: seq<string>, lines: seq<Range>, p: int, q: int)
    requires Lines(pieces, lines) && GapsBetween(pieces, lines) && -1 <= p < q <= Last(pieces)
    ensures Below(Translated(pieces, lines, p), Translated(pieces, lines, q))
    decreases |pieces|
  {
    hide Last, Joined, Translate, HasNewline;
    LastOfPieces(pieces);
    var n := |pieces[0]|;
    if q <= PieceEnd(pieces[0]) {
      FirstPiece(pieces, lines, p);
      FirstPiece(pieces, lines, q);
    } else {
      assert |pieces| > 1;
      LaterPiece(pieces, lines, q);
      LinesTail(pieces, lines);
      if p <= PieceEnd(pieces[0]) {
        FirstPiece(pieces, lines, p);
        TranslatedNotBelow(pieces[1..], lines[1..], q - n - 1);
        assert lines[0].begin + n < lines[1].begin;
      } else {
        LaterPiece(pieces, lines, p);
        GapsIncrease(pieces[1..], lines[1..], p - n - 1, q - n - 1);
      }
    }
  }

  predicate Below(a: Answer, b: Answer) {
    a.At? && b.At? && a.pos < b.pos
  }

  ghost predicate Increasing(pieces: seq<string>, lines: seq<Range>) {
    forall p, q :: 0 <= p < q <= Last(pieces) ==> Below(Translated(pieces, lines, p), Translated(pieces, lines, q))
  }

  lemma {:induction false} IncreaseNeedsGaps(pieces: seq<string>, lines: seq<Range>)
    requires Lines(pieces, lines) && Increasing(pieces, lines)
    ensures GapsBetween(pieces, lines)
    decreases |pieces|
  {
    hide Last, Joined, Translate, Translated, HasNewline;
    if |pieces| > 1 {
      LastOfPieces(pieces);
      LastOfPieces(pieces[1..]);
      var n := |pieces[0]|;
      var p, q := PieceEnd(pieces[0]), PieceEnd(pieces[0]) + 1;
      TranslatedEnd(pieces, lines);
      assert Below(Translated(pieces, lines, p), Translated(pieces, lines, q));
      LinesTail(pieces, lines);
      IncreasingTail(pieces, lines);
      IncreaseNeedsGaps(pieces[1..], lines[1..]);
      forall k | 0 < k < |pieces| - 1
        ensures lines[k].begin + |pieces[k]| < lines[k + 1].begin
      {
        assert lines[1..][k - 1].begin + |pieces[1..][k - 1]| < lines[1..][k].begin;
      }
    }
  }

  lemma IncreasingTail(pieces: seq<string>, lines: seq<Range>)
    requires Lines(pieces, lines) && |pieces| > 1 && Increasing(pieces, lines)
    ensures Increasing(pieces[1..], lines[1..])
  {
    hide Last, Translated;
    var n, tail, rest := |pieces[0]| + 1, pieces[1..], lines[1..];
    LastOfPieces(pieces);
    forall x, y | 0 <= x < y <= Last(tail)
      ensures Below(Translated(tail, rest, x), Translated(tail, rest, y))
    {
      LaterTranslated(pieces, lines, x);
      LaterTranslated(pieces, lines, y);
      assert Below(Translated(pieces, lines, x + n), Translated(pieces, lines, y + n));
    }
  }

  lemma LaterTranslated(pieces: seq<string>, lines: seq<Range>, x: nat)
    requires Lines(pieces, lines) && |pieces| > 1
    ensures Translated(pieces[1..], lines[1..], x) == Translated(pieces, lines, x + |pieces[0]| + 1)
  {
    LaterPiece(pieces, lines, x + |pieces[0]| + 1);
  }

  // The end of the first line and the position after it.
  lemma TranslatedEnd(pieces: seq<string>, lines: seq<Range>)
    requires Lines(pieces, lines) && |pieces| > 1
    ensures var p, n := PieceEnd(pieces[0]), |pieces[0]|;
            && Translated(pieces, lines, p) == At(lines[0].begin + p)
            && Translated(pieces, lines, p + 1) == At(lines[1].begin + p - n)
  {
    hide Joined, Translate, HasNewline;
    var p := PieceEnd(pieces[0]);
    FirstPiece(pieces, lines, p);
    LaterPiece(pieces, lines, p + 1);
    FirstPiece(pieces[1..], lines[1..], p - |pieces[0]|);
  }

  // The translation is strictly increasing exactly if the pieces are in order and apart.
  lemma IncreasingIffGaps(pieces: seq<string>, lines: seq<Range>)
    requires Lines(pieces, lines)
    ensures Increasing(pieces, lines) <==> GapsBetween(pieces, lines)
  {
    hide Last, Translated;
    if Increasing(pieces, lines) {
      IncreaseNeedsGaps(pieces, lines);
    }
    if GapsBetween(pieces, lines) {
      forall p, q | 0 <= p < q <= Last(pieces)
        ensures Below(Translated(pieces, lines, p), Translated(pieces, lines, q))
      {
        GapsIncrease(pieces, lines, p, q);
      }
    }
  }

  // Where the `k`-th piece ends in the joined text.
  function JoinPosition(pieces: seq<string>, k: nat): nat
    requires k < |pieces|
  {
    if k == 0 then |pieces[0]| else |pieces[0]| + 1 + JoinPosition(pieces[1..], k - 1)
  }

  lemma {:induction false} JoinIsLineFeed(pieces: seq<string>, k: nat)
    requires (forall s <- pieces :: !HasNewline(s)) && k + 1 < |pieces|
    ensures JoinPosition(pieces, k) < |Joined(pieces)| && Joined(pieces)[JoinPosition(pieces, k)] == '\n'
    decreases k
  {
    hide HasNewline;
    if k > 0 {
      JoinIsLineFeed(pieces[1..], k - 1);
    }
  }

  // The position before a line feed that joins two pieces is translated to the end of its piece exactly if the
  // piece does not end in a carriage return, or the next piece begins right there.
  lemma {:induction false} JoinsAndCarriageReturns(pieces: seq<string>, lines: seq<Range>, k: nat)
    requires Lines(pieces, lines) && k + 1 < |pieces|
    ensures JoinPosition(pieces, k) < |Joined(pieces)| && Joined(pieces)[JoinPosition(pieces, k)] == '\n'
    ensures Translated(pieces, lines, JoinPosition(pieces, k)) == At(lines[k].begin + |pieces[k]|) <==>
            !EndsInCr(pieces[k]) || lines[k + 1].begin == lines[k].begin + |pieces[k]| + 1
    decreases k
  {
    hide Translated, HasNewline, Joined;
    JoinIsLineFeed(pieces, k);
    if k == 0 {
      TranslatedEnd(pieces, lines);
    } else {
      JoinsAndCarriageReturns(pieces[1..], lines[1..], k - 1);
      LaterTranslated(pieces, lines, JoinPosition(pieces[1..], k - 1));
    }
  }

  lemma {:induction false} LastOf(s: string, offset: int)
    ensures LastPosition(RangesFrom(s, offset)) == offset + PieceEnd(s)
    decreases |s|
  {
    FirstRange(s, offset);
    hide RangesFrom;
    var n := LineLength(s);
    if n < |s| {
      LastOf(s[n + 1..], offset + n + 1);
    }
  }

  lemma FirstTranslated(pieces: seq<string>, lines: seq<Range>)
    requires Lines(pieces, lines)
    ensures Translated(pieces, lines, PieceEnd(pieces[0])) == At(lines[0].begin + PieceEnd(pieces[0]))
  {
    FirstPiece(pieces, lines, PieceEnd(pieces[0]));
  }

  // The end of a buffer is translated to the end of its last piece.
  lemma {:induction false} EndTranslated(pieces: seq<string>, lines: seq<Range>)
    requires Lines(pieces, lines)
    ensures EndsInCr(Joined(pieces)) <==> EndsInCr(pieces[|pieces| - 1])
    ensures Translated(pieces, lines, Last(pieces)) == At(lines[|lines| - 1].begin + PieceEnd(pieces[|pieces| - 1]))
    decreases |pieces|
  {
    hide Last, Translated, HasNewline;
    LastOfPieces(pieces);
    if |pieces| == 1 {
      JoinedOne(pieces);
      FirstTranslated(pieces, lines);
    } else {
      LastOfPieces(pieces[1..]);
      EndTranslated(pieces[1..], lines[1..]);
      LaterTranslated(pieces, lines, Last(pieces[1..]));
    }
  }

  // A position inside a buffer whose pieces are in order and apart is one inside its parent.
  lemma InsideTranslated(pieces: seq<string>, content: string, lines: seq<Range>, p: nat)
    requires CutFrom(pieces, content, lines) && Lines(pieces, lines) && GapsBetween(pieces, lines)
    requires p < |Joined(pieces)|
    ensures Translated(pieces, lines, p).At? && 0 <= Translated(pieces, lines, p).pos < |content|
  {
    LastOf(Joined(pieces), 0);
    EndTranslated(pieces, lines);
    TranslatedNotBelow(pieces, lines, p);
    if p < Last(pieces) {
      hide Last, Translated, Joined, HasNewline;
      GapsIncrease(pieces, lines, p, Last(pieces));
    } else {
      hide Translated, Joined, HasNewline;
    }
  }

  // ---- bytes and characters --------------------------------------------------------------------------

  // The width of a character in UTF-8 (section 3 of RFC 3629).
  function Width(c: char): (w: nat)
    ensures w > 0
  {
    var n := c as int;
    if n < 0x80 then 1 else if n < 0x800 then 2 else if n < 0x1_0000 then 3 else 4
  }

  function Bytes(s: string): nat {
    if s == "" then 0 else Bytes(s[..|s| - 1]) + Width(s[|s| - 1])
  }

  // The byte offset of the `n`-th character.
  function OffsetOf(s: string, n: nat): nat
    requires n <= |s|
  {
    Bytes(s[..n])
  }

  // `n` characters make up the first `b` bytes.
  ghost predicate CountsTo(s: string, b: nat, n: nat) {
    n <= |s| && OffsetOf(s, n) == b
  }

  ghost predicate Boundary(s: string, b: nat) {
    exists n: nat :: CountsTo(s, b, n)
  }

  lemma {:induction false} OffsetsIncrease(s: string, m: nat, n: nat)
    requires m < n <= |s|
    ensures OffsetOf(s, m) < OffsetOf(s, n)
    decreases n
  {
    assert s[..n][..n - 1] == s[..n - 1];
    if m < n - 1 {
      OffsetsIncrease(s, m, n - 1);
    }
  }

  lemma CountIsUnique(s: string, b: nat, m: nat, n: nat)
    requires CountsTo(s, b, m) && CountsTo(s, b, n)
    ensures m == n
  {
    if m < n {
      OffsetsIncrease(s, m, n);
    } else if n < m {
      OffsetsIncrease(s, n, m);
    }
  }

  // The number of characters in the first `b` bytes, by counting from the start.
  ghost function Count(s: string, b: nat): (n: nat)
    requires Boundary(s, b)
    ensures CountsTo(s, b, n)
  {
    var n: nat :| CountsTo(s, b, n);
    n
  }

  // The cache: strictly increasing byte offsets from 0, each with the count of characters before it.
  ghost predicate CacheOk(s: string, keys: seq<nat>, vals: seq<nat>) {
    && |keys| == |vals| > 0 && keys[0] == 0
    && (forall i, j :: 0 <= i < j < |keys| ==> keys[i] < keys[j])
    && (forall i :: 0 <= i < |keys| ==> CountsTo(s, keys[i], vals[i]))
  }

  lemma OffsetsCompare(s: string, m: nat, n: nat)
    requires m <= |s| && n <= |s|
    ensures m < n <==> OffsetOf(s, m) < OffsetOf(s, n)
    ensures m == n <==> OffsetOf(s, m) == OffsetOf(s, n)
  {
    if m < n {
      OffsetsIncrease(s, m, n);
    } else if n < m {
      OffsetsIncrease(s, n, m);
    }
  }

  lemma NextOffset(s: string, n: nat)
    requires n < |s|
    ensures OffsetOf(s, n + 1) == OffsetOf(s, n) + Width(s[n])
  {
    assert s[..n + 1][..n] == s[..n];
  }

  // The first character from `c` on whose offset is not below `b`.
  method CountUpTo(s: string, c: nat, b: nat, ghost n: nat) returns (c': nat)
    requires c <= n && CountsTo(s, b, n)
    ensures c' == n
  {
    c' := c;
    var bytes := 0;
    var i := 0;
    while i < c
      invariant i <= c && bytes == OffsetOf(s, i)
    {
      NextOffset(s, i);
      bytes := bytes + Width(s[i]);
      i := i + 1;
    }
    OffsetsCompare(s, c', n);
    while bytes < b
      invariant c' <= n && bytes == OffsetOf(s, c')
      invariant bytes < b <==> c' < n
      decreases n - c'
    {
      NextOffset(s, c');
      bytes := bytes + Width(s[c']);
      c' := c' + 1;
      OffsetsCompare(s, c', n);
    }
  }

  // The length in characters of `delta` bytes from byte `base` on, when both ends are boundaries:
  // `content.byteslice(base, delta).length`.
  method SliceLength(s: string, base: nat, delta: nat, ghost from: nat, ghost to: nat) returns (n: nat)
    requires CountsTo(s, base, from) && CountsTo(s, base + delta, to)
    ensures from <= to && n == to - from
  {
    OffsetsCompare(s, to, from);
    var c := CountUpTo(s, 0, base, from);
    var d := CountUpTo(s, c, base + delta, to);
    n := d - c;
  }

  // ---- the class -------------------------------------------------------------------------------------

  // `content.lines`, and an empty line if a line feed is at the end.
  function AllLines(s: string): (r: seq<string>)
    ensures r != []
    decreases |s|
  {
    var n := LineLength(s);
    if n < |s| then [s[..n + 1]] + AllLines(s[n + 1..]) else [s]
  }

  // What one round of the loop over the lines does, on the text from `offset` on.
  lemma NextLine(s: string, offset: int)
    ensures AllLines(s) != []
    ensures var n, lines := LineLength(s), AllLines(s);
            var r := [Range(offset, offset + |Chomped(lines[0])|)];
            if n < |s| then
              |lines[0]| == n + 1 && lines[1..] == AllLines(s[n + 1..])
              && RangesFrom(s, offset) == r + RangesFrom(s[n + 1..], offset + n + 1)
            else lines == [s] && RangesFrom(s, offset) == r
  {
    FirstRange(s, offset);
    hide RangesFrom;
    var n := LineLength(s);
    if n < |s| {
      assert AllLines(s)[0] == s[..n + 1];
    }
  }

  // The text read and the lines left after `offset` characters.
  ghost predicate RangesSoFar(content: string, lines: seq<string>, offset: int, r: seq<Range>) {
    && 0 <= offset <= |content|
    && (lines != [] ==> lines == AllLines(content[offset..]))
    && RangesFrom(content, 0) == if lines != [] then r + RangesFrom(content[offset..], offset) else r
  }

  lemma RangesGrow(content: string, lines: seq<string>, offset: int, r: seq<Range>)
    requires RangesSoFar(content, lines, offset, r) && lines != []
    ensures RangesSoFar(content, lines[1..], offset + |lines[0]|, r + [Range(offset, offset + |Chomped(lines[0])|)])
  {
    hide RangesFrom, AllLines, Chomped;
    var rest := content[offset..];
    NextLine(rest, offset);
    var n := LineLength(rest);
    hide LineLength;
    var x := [Range(offset, offset + |Chomped(lines[0])|)];
    if n < |rest| {
      assert rest[n + 1..] == content[offset + n + 1..];
      var tail := RangesFrom(content[offset + n + 1..], offset + n + 1);
      assert r + (x + tail) == r + x + tail;
    }
  }

  // The loop of `ranges` over the lines.
  method LineRanges(content: string) returns (r: seq<Range>)
    ensures r == RangesFrom(content, 0)
  {
    hide RangesFrom, AllLines, Chomped;
    var lines := AllLines(content);
    r := [];
    assert content[0..] == content && lines[0..] == lines && r + RangesFrom(content, 0) == RangesFrom(content, 0);
    var offset, i := 0, 0;
    while i < |lines|
      invariant i <= |lines| && RangesSoFar(content, lines[i..], offset, r)
    {
      RangesGrow(content, lines[i..], offset, r);
      assert lines[i..][1..] == lines[i + 1..];
      var size0 := |lines[i]|;
      var line := Chomped(lines[i]);
      r := r + [Range(offset, offset + |line|)];
      offset := offset + size0;
      i := i + 1;
    }
  }

  // The pieces collected from the ranges before the `lines`.
  ghost predicate PiecesSoFar(content: string, all: seq<Range>, lines: seq<Range>, buf: string)
  {
    && (Pieces(content, all).Some? <==> Pieces(content, lines).Some?)
    && (Pieces(content, all).Some? ==>
          Terminated(Pieces(content, all).value) == buf + Terminated(Pieces(content, lines).value))
  }

  lemma PiecesGrow(content: string, all: seq<Range>, lines: seq<Range>, buf: string)
    requires lines != [] && PiecesSoFar(content, all, lines, buf)
    ensures var slice := Slice(content, lines[0]);
            if slice.None? || HasNewline(slice.value) then Pieces(content, all).None?
            else PiecesSoFar(content, all, lines[1..], buf + slice.value + "\n")
  {
    hide Slice, HasNewline;
    if Pieces(content, lines).Some? {
      var pieces := Pieces(content, lines).value;
      assert pieces[1..] == Pieces(content, lines[1..]).value;
    }
  }

  lemma NoPiecesYet(content: string, all: seq<Range>)
    ensures PiecesSoFar(content, all, all, "")
  {}

  lemma AllPiecesTaken(content: string, all: seq<Range>, buf: string)
    requires PiecesSoFar(content, all, [], buf)
    ensures Pieces(content, all).Some? && Terminated(Pieces(content, all).value) == buf
  {}

  class Buffer {
    const content: string
    const parent: Option<(Buffer, seq<Range>)>
    ghost const depth: nat

    var ranges: Option<seq<Range>>            // @ranges
    var cache: Option<(seq<nat>, seq<nat>)>   // @character_offset_cache: byte offsets and character counts

    // Parents are older, and buffers made of pieces have the pieces as their content.
    ghost predicate Linked()
      decreases depth
    {
      parent.Some? ==>
        && parent.value.0.depth < depth && parent.value.0.Linked()
        && var pieces := Pieces(parent.value.0.content, parent.value.1);
           pieces.Some? && content == Chomped(Terminated(pieces.value))
    }

    // In this buffer and every one above it, the ranges count from the start.
    ghost predicate FromStart()
      requires Linked()
      decreases depth
    {
      parent.Some? ==> (forall r <- parent.value.1 :: 0 <= r.begin) && parent.value.0.FromStart()
    }

    ghost predicate Valid()
      reads this
    {
      && Linked()
      && (ranges.Some? ==> ranges.value == RangesFrom(content, 0))
      && (cache.Some? ==> CacheOk(content, cache.value.0, cache.value.1))
    }

    constructor (content: string)
      ensures Valid() && this.content == content && parent == None
    {
      this.content, parent, depth := content, None, 0;
      ranges, cache := None, None;
    }

    constructor FromPieces(content: string, owner: Buffer, lines: seq<Range>)
      requires owner.Linked()
      requires var pieces := Pieces(owner.content, lines);
               pieces.Some? && content == Chomped(Terminated(pieces.value))
      ensures Valid() && this.content == content && parent == Some((owner, lines))
    {
      this.content, parent, depth := content, Some((owner, lines)), owner.depth + 1;
      ranges, cache := None, None;
    }

    // ranges.
    method Ranges() returns (r: seq<Range>)
      requires Valid()
      modifies `ranges
      ensures Valid() && r == RangesFrom(content, 0)
    {
      if ranges.Some? {
        return ranges.value;
      }
      if content == "" {
        FirstRange(content, 0);
        r := [Range(0, 0)];
      } else {
        r := LineRanges(content);
      }
      ranges := Some(r);
    }

    // pos_to_loc.
    method PosToLoc(pos: int) returns (loc: Loc)
      requires Valid()
      modifies `ranges
      ensures Valid() && loc == LocFor(RangesFrom(content, 0), pos)
    {
      var r := Ranges();
      RangesAscend(content, 0);
      hide RangesFrom, Ascending;
      var index := FirstEndFrom(r, pos);
      loc := if index < |r| then Loc(index + 1, pos - r[index].begin) else Loc(|r| + 1, 0);
    }

    // loc_to_pos.
    method LocToPos(loc: Loc) returns (pos: int)
      requires Valid()
      modifies `ranges
      ensures Valid() && pos == PosFor(RangesFrom(content, 0), loc)
    {
      var r := Ranges();
      var range := Fetch(r, loc.line - 1);
      pos := if range.Some? then range.value.begin + loc.column else LastPosition(r);
    }

    // parent_position.
    method ParentPosition(pos: int) returns (answer: Answer)
      requires Valid()
      modifies `ranges
      ensures Valid()
      ensures answer == if parent.None? then Raised else Translate(content, parent.value.1, pos)
    {
      if parent.None? {
        return Raised;
      }
      var r := Ranges();
      if pos > LastPosition(r) {
        return Nowhere;
      }
      var loc := PosToLoc(pos);
      var lines := parent.value.1;
      AtLeastFirstLine(r, pos);
      answer := if loc.line <= |lines| then At(lines[loc.line - 1].begin + loc.column) else Raised;
    }

    // top_buffer.
    function TopBuffer(): Buffer
      requires Linked()
      decreases depth
    {
      if parent.Some? then parent.value.0.TopBuffer() else this
    }

    // absolute_position; filling the parents' @ranges on the way is not part of this.
    function AbsolutePosition(pos: int): Answer
      requires Linked()
      decreases depth
    {
      if parent.None? then At(pos)
      else
        var p := Translate(content, parent.value.1, pos);
        if p.At? then parent.value.0.AbsolutePosition(p.pos) else p
    }

    // However deeply buffers are cut from buffers, a character that is not a joining line feed is the top
    // buffer's character at its absolute position.
    lemma AbsoluteCharacters(pos: nat)
      requires Linked() && FromStart() && pos < |content| && content[pos] != '\n'
      ensures var p := AbsolutePosition(pos);
              p.At? && 0 <= p.pos < |TopBuffer().content| && TopBuffer().content[p.pos] == content[pos]
      decreases depth
    {
      if parent.Some? {
        var owner, lines := parent.value.0, parent.value.1;
        var pieces := Pieces(owner.content, lines).value;
        ContentIsJoined(pieces);
        PiecesAreCut(owner.content, lines);
        CharactersComeFromParent(Kept(pieces), owner.content, lines, pos);
        owner.AbsoluteCharacters(Translate(content, lines, pos).pos);
      }
    }

    // The pieces this buffer is made of.
    ghost function OwnPieces(): seq<string>
      requires Linked() && parent.Some?
    {
      Kept(Pieces(parent.value.0.content, parent.value.1).value)
    }

    lemma MadeOfPieces()
      requires Linked() && parent.Some? && forall r <- parent.value.1 :: 0 <= r.begin
      ensures content == Joined(OwnPieces()) && CutFrom(OwnPieces(), parent.value.0.content, parent.value.1)
      ensures parent.value.1 != [] ==> Lines(OwnPieces(), parent.value.1)
    {
      var owner, lines := parent.value.0, parent.value.1;
      ContentIsJoined(Pieces(owner.content, lines).value);
      PiecesAreCut(owner.content, lines);
      hide Joined, Terminated, Chomped, HasNewline;
    }

    // In this buffer and every one above it, the pieces are in order and apart.
    ghost predicate Apart()
      requires Linked()
      decreases depth
    {
      parent.Some? ==>
        && (forall r <- parent.value.1 :: 0 <= r.begin)
        && |OwnPieces()| == |parent.value.1|
        && GapsBetween(OwnPieces(), parent.value.1) && parent.value.0.Apart()
    }

    ghost function LastPos(): int {
      LastPosition(RangesFrom(content, 0))
    }

    // The end of this buffer is no end that its parents have lost: not of a buffer cut from nothing, nor of one
    // whose content ends in a carriage return.
    ghost predicate EndKept()
      requires Linked()
      decreases depth
    {
      parent.Some? && !EndsInCr(content) ==>
        var owner, lines := parent.value.0, parent.value.1;
        && |OwnPieces()| == |lines| > 0
        && (owner.parent.Some? && lines[|lines| - 1].begin + |OwnPieces()[|lines| - 1]| == |owner.content| ==>
              !EndsInCr(owner.content) && owner.EndKept())
    }

    // Every position before a character has an absolute one.
    lemma InsideHasAbsolute(p: nat)
      requires Linked() && Apart() && p < |content|
      ensures AbsolutePosition(p).At?
      decreases depth
    {
      hide Translate, Joined, OwnPieces, EndsInCr, CutFrom;
      if parent.Some? {
        var owner, lines := parent.value.0, parent.value.1;
        MadeOfPieces();
        assert lines != [];
        InsideTranslated(OwnPieces(), owner.content, lines, p);
        owner.InsideHasAbsolute(Translate(content, lines, p).pos);
      }
    }

    // What comes before a position that has an absolute one has an absolute one before that.
    lemma AbsoluteIncreases(p: nat, q: nat)
      requires Linked() && Apart() && p < q && AbsolutePosition(q).At?
      ensures Below(AbsolutePosition(p), AbsolutePosition(q))
      decreases depth
    {
      hide Joined, OwnPieces, EndsInCr, CutFrom;
      if parent.Some? {
        var owner, lines := parent.value.0, parent.value.1;
        MadeOfPieces();
        LastOf(content, 0);
        assert lines != [];
        GapsIncrease(OwnPieces(), lines, p, q);
        TranslatedNotBelow(OwnPieces(), lines, p);
        hide Translate;
        owner.AbsoluteIncreases(Translate(content, lines, p).pos, Translate(content, lines, q).pos);
      }
    }

    // Where a buffer that does not end in a carriage return has its last position.
    lemma EndGoesTo()
      requires Linked() && parent.Some? && parent.value.1 != [] && !EndsInCr(content)
      requires forall r <- parent.value.1 :: 0 <= r.begin
      ensures var owner, lines := parent.value.0, parent.value.1;
              |OwnPieces()| == |lines| &&
              var e := lines[|lines| - 1].begin + |OwnPieces()[|lines| - 1]|;
              0 <= e <= |owner.content| && Translate(content, lines, LastPos()) == At(e)
    {
      MadeOfPieces();
      EndTranslated(OwnPieces(), parent.value.1);
      hide Linked, Joined, OwnPieces, RangesFrom, Translate, HasNewline;
    }

    lemma NothingHasAbsolute()
      requires Linked() && parent.Some? && parent.value.1 == []
      ensures AbsolutePosition(LastPos()) == Raised
    {
      MadeOfPieces();
      FirstRange("", 0);
      hide Linked, RangesFrom;
    }

    lemma EndHasAbsolute()
      requires Linked() && Apart()
      ensures AbsolutePosition(LastPos()).At? <==> EndKept()
      decreases depth
    {
      hide Joined, OwnPieces, RangesFrom, Translate, LastPosition, GapsBetween, Pieces, Chomped, Terminated,
        HasNewline;
      if parent.Some? {
        var owner, lines := parent.value.0, parent.value.1;
        if EndsInCr(content) {
          LastOf(content, 0);
          InsideHasAbsolute(LastPos());
        } else if lines == [] {
          NothingHasAbsolute();
        } else {
          EndGoesTo();
          hide EndsInCr, LastPos;
          var e := lines[|lines| - 1].begin + |OwnPieces()[|lines| - 1]|;
          if e < |owner.content| {
            owner.InsideHasAbsolute(e);
          } else if owner.parent.Some? {
            owner.EndIsLastOrLost();
            owner.EndHasAbsolute();
          }
        }
      }
    }

    // Past a carriage return at its end, a buffer with a parent has no position.
    lemma EndIsLastOrLost()
      requires Linked() && parent.Some?
      ensures if EndsInCr(content) then AbsolutePosition(|content|) == Nowhere else LastPos() == |content|
    {
      LastOf(content, 0);
      hide RangesFrom, Linked;
    }

    // When the pieces are in order and apart all the way up, the positions up to the last have absolute ones, and
    // strictly increasing ones, exactly if the end of the buffer is kept.
    lemma AbsoluteIncreasesExactly()
      requires Linked() && Apart()
      ensures (forall p: nat :: p <= LastPos() ==> AbsolutePosition(p).At?)
              && (forall p: nat, q: nat :: p < q <= LastPos() ==> Below(AbsolutePosition(p), AbsolutePosition(q)))
              <==> EndKept()
    {
      EndHasAbsolute();
      LastOf(content, 0);
      hide Apart, EndKept, AbsolutePosition, LastPosition, RangesFrom;
      if EndKept() {
        forall q: nat | q <= LastPos()
          ensures AbsolutePosition(q).At?
        {
          if q < LastPos() {
            AbsoluteIncreases(q, LastPos());
          }
        }
        forall p: nat, q: nat | p < q <= LastPos()
          ensures Below(AbsolutePosition(p), AbsolutePosition(q))
        {
          AbsoluteIncreases(p, q);
        }
      }
    }

    // sub_buffer without a hint; None is for `raise`.
    method SubBuffer(lines: seq<Range>) returns (b: Option<Buffer>)
      requires Linked()
      ensures b.Some? <==> Pieces(content, lines).Some?
      ensures b.Some? ==> fresh(b.value) && b.value.Valid() && b.value.parent == Some((this, lines))
    {
      var buf := "";
      var i := 0;
      hide Chomped, Slice, HasNewline, Linked;
      assert lines[0..] == lines;
      NoPiecesYet(content, lines);
      hide Pieces, Terminated;
      while i < |lines|
        invariant i <= |lines| && PiecesSoFar(content, lines, lines[i..], buf)
      {
        assert lines[i..][0] == lines[i] && lines[i..][1..] == lines[i + 1..];
        PiecesGrow(content, lines, lines[i..], buf);
        var slice := Slice(content, lines[i]);
        if slice.None? || HasNewline(slice.value) {
          return None;
        }
        buf := buf + slice.value + "\n";
        i := i + 1;
      }
      AllPiecesTaken(content, lines, buf);
      buf := Chomped(buf);
      var sub := new Buffer.FromPieces(buf, this, lines);
      b := Some(sub);
    }

    // character_offset: whatever has been asked before, the answer is the count from the start.
    method CharacterOffset(b: nat) returns (n: nat)
      requires Linked() && TopBuffer().Valid() && Boundary(TopBuffer().content, b)
      modifies TopBuffer()`cache
      ensures TopBuffer().Valid() && n == Count(TopBuffer().content, b)
      decreases depth
    {
      var top := TopBuffer();
      if top != this {
        TopIsTop();
        n := top.CharacterOffset(b);
        return;
      }
      var keys, vals := [0], [0];
      if cache.Some? {
        keys, vals := cache.value.0, cache.value.1;
      } else {
        assert CountsTo(content, 0, 0);
        cache := Some((keys, vals));
      }
      var lo := LastNotAbove(keys, b);
      var base, baseChar := keys[lo], vals[lo];
      ghost var count := Count(content, b);
      if b == base {
        CountIsUnique(content, b, count, baseChar);
        return baseChar;
      }
      var length := SliceLength(content, base, b - base, baseChar, count);
      n := baseChar + length;
      if base == keys[|keys| - 1] {
        cache := Some((keys + [b], vals + [n]));
      }
    }

    lemma TopIsTop()
      requires Linked()
      ensures TopBuffer().parent.None? && TopBuffer().Linked() && TopBuffer().TopBuffer() == TopBuffer()
      ensures TopBuffer() != this ==> TopBuffer().depth < depth
      decreases depth
    {
      if parent.Some? {
        parent.value.0.TopIsTop();
      }
    }
  }

  // `ranges.bsearch_index { |range| pos <= range.end }` on ends that increase.
  method FirstEndFrom(r: seq<Range>, pos: int) returns (low: nat)
    requires Ascending(r)
    ensures low == FirstNotBefore(r, pos)
  {
    low := 0;
    var high := |r|;
    while low < high
      invariant low <= FirstNotBefore(r, pos) <= high <= |r|
    {
      var mid := (low + high) / 2;
      if pos <= r[mid].end {
        high := mid;
      } else {
        assert forall j :: 0 <= j < mid ==> r[j].end < r[mid].begin <= r[mid].end;
        low := mid + 1;
      }
    }
  }

  // `keys.bsearch_index { |k| k > b }` and the index before it.
  method LastNotAbove(keys: seq<nat>, b: nat) returns (lo: nat)
    requires keys != [] && keys[0] == 0 && forall i, j :: 0 <= i < j < |keys| ==> keys[i] < keys[j]
    ensures lo < |keys| && keys[lo] <= b && (lo + 1 < |keys| ==> b < keys[lo + 1])
  {
    var low, high := 0, |keys|;
    while low < high
      invariant 0 <= low <= high <= |keys|
      invariant forall i :: 0 <= i < low ==> keys[i] <= b
      invariant forall i :: high <= i < |keys| ==> b < keys[i]
    {
      var mid := (low + high) / 2;
      if keys[mid] > b {
        high := mid;
      } else {
        low := mid + 1;
      }
    }
    lo := if low < |keys| then low - 1 else |keys| - 1;
  }

  // ---- inputs on which a promise fails ----------------------------------------------------------------

  // Between the carriage return and the line feed of "a\r\nb" the buffer is on the next line, at column -1.
  lemma BetweenCrAndLf()
    ensures LocFor(RangesFrom("a\r\nb", 0), 2) == Loc(2, -1) && Scanned("a\r\nb"[..2]) == Loc(1, 2)
  {
    var s := "a\r\nb";
    assert s[..2] == ['a', '\r'] && s[..2][..1] == ['a'] && s[..1][..0] == [];
    assert Scanned(['a'][..0]) == Loc(1, 0);
    assert Scanned(['a']) == Loc(1, 1);
    FirstRange(s, 0);
    assert s[1..][1..] == "\nb" && LineLength("\nb") == 0 && LineLength(s[1..]) == 1 && LineLength(s) == 2;
    FirstRange(s[3..], 3);
    hide RangesFrom, LineLength;
  }

  // The pieces [0, 1) and [1, 2) of "ab" leave no gap: the end of the first and the beginning of the second are one
  // position.
  lemma NoGap()
    ensures CutFrom(["a", "b"], "ab", [Range(0, 1), Range(1, 2)]) && Lines(["a", "b"], [Range(0, 1), Range(1, 2)])
    ensures Translated(["a", "b"], [Range(0, 1), Range(1, 2)], 1) == At(1)
    ensures Translated(["a", "b"], [Range(0, 1), Range(1, 2)], 2) == At(1)
  {
    hide Translated, HasNewline;
    PlainPiece("a");
    PlainPiece("b");
    assert "ab"[0..1] == "a" && "ab"[1..2] == "b";
    TranslatedEnd(["a", "b"], [Range(0, 1), Range(1, 2)]);
  }

  // The pieces [0, 2) and [4, 5) of "a\r..b": the position before the line feed that joins them is translated to 3 and
  // not to the end of the first piece.
  lemma JoinAfterCarriageReturn()
    ensures var pieces, lines := ["a\r", "b"], [Range(0, 2), Range(4, 5)];
            && CutFrom(pieces, "a\r..b", lines) && Lines(pieces, lines)
            && JoinPosition(pieces, 0) == 2 && Translated(pieces, lines, 2) == At(3)
  {
    hide Translated, HasNewline;
    PlainPiece("a\r");
    PlainPiece("b");
    assert "a\r..b"[0..2] == "a\r" && "a\r..b"[4..5] == "b";
    TranslatedEnd(["a\r", "b"], [Range(0, 2), Range(4, 5)]);
  }

  lemma PlainPiece(s: string)
    requires |s| <= 2 && (|s| > 0 ==> s[0] != '\n') && (|s| > 1 ==> s[1] != '\n')
    ensures !HasNewline(s)
  {}

  // With the pieces apart all the way up, the end of a buffer can still be lost: `chomp!` has left a carriage return
  // at the end of the middle buffer, and an empty piece is cut after it.
  method EndCanBeLost() returns (b: Buffer)
    ensures b.Linked() && b.Apart() && !b.EndKept()
    ensures b.content == "" && b.AbsolutePosition(0) == Nowhere
  {
    LostPieces();
    hide Pieces, Terminated, Chomped, Translate, RangesFrom, Kept, Joined, Slice, HasNewline;
    var top := new Buffer("a\r\r");
    var middle := top.SubBuffer([Range(0, 3)]);
    var sub := middle.value.SubBuffer([Range(2, 2)]);
    b := sub.value;
    middle.value.MadeOfPieces();
    b.MadeOfPieces();
    assert top.Apart() && middle.value.Apart();
    EndIsNowhere();
    LastOf("", 0);
    b.EndHasAbsolute();
  }

  lemma LostPieces()
    ensures Pieces("a\r\r", [Range(0, 3)]) == Some(["a\r\r"]) && Chomped(Terminated(["a\r\r"])) == "a\r"
    ensures Pieces("a\r", [Range(2, 2)]) == Some([""]) && Chomped(Terminated([""])) == ""
  {
    assert "a\r\r"[0..3] == "a\r\r" && "a\r\r\n"[..2] == "a\r";
    assert "a\r\r" + "\n" == "a\r\r\n" && "a\r"[2..2] == "" && "" + "\n" == "\n";
    OnePiece("a\r\r", Range(0, 3));
    OnePiece("a\r", Range(2, 2));
    hide Pieces, Terminated;
  }

  lemma EndIsNowhere()
    ensures Translate("", [Range(2, 2)], 0) == At(2) && Translate("a\r", [Range(0, 3)], 2) == Nowhere
  {
    LastOf("a\r", 0);
    FirstRange("", 0);
    hide RangesFrom;
  }

  lemma OnePiece(content: string, r: Range)
    requires Slice(content, r).Some? && !HasNewline(Slice(content, r).value)
    ensures var s := Slice(content, r).value;
            Pieces(content, [r]) == Some([s]) && Terminated([s]) == s + "\n"
  {
    hide Slice, HasNewline;
    var s := Slice(content, r).value;
    assert Pieces(content, [r][1..]) == Some([]);
    assert [s] + [] == [s];
    assert Terminated([s][1..]) == "";
    assert s + "\n" + "" == s + "\n";
  }
}
