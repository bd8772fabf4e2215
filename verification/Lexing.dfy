/** What the lexer's tokens give the parser: a stream in order, comments on lines of their own, positions that agree
    with those of RBS::Buffer. */
module Lexing {
  import opened Comments
  import opened Lexers
  import opened Parsers
  import opened Tokens
  import Buffers

  ghost predicate Between(t: Token, from: Position, to: Position) {
    && from.charPos <= t.start.charPos < t.end.charPos <= to.charPos
    && from.bytePos <= t.start.bytePos < t.end.bytePos <= to.bytePos
    && t.start.line <= t.end.line
  }

  lemma {:induction false} TilesAreBetween(tokens: seq<Token>, from: Position, to: Position)
    requires Tiles(tokens, from, to)
    ensures from.charPos <= to.charPos && from.bytePos <= to.bytePos
    ensures forall t <- tokens :: Between(t, from, to)
  {
    if tokens != [] {
      var n := |tokens| - 1;
      TilesAreBetween(tokens[..n], from, tokens[n].start);
      forall t <- tokens
        ensures Between(t, from, to)
      {
        assert t in tokens[..n] || t == tokens[n];
      }
    }
  }

  lemma OneMoreInOrder(toks: seq<Token>, t: Token, from: Position, to: Position, eof: Token)
    requires Ordered(Stream(toks, eof)) && forall u <- toks :: Between(u, from, t.start)
    requires Between(t, t.start, to) && 0 <= t.start.charPos
    ensures Ordered(Stream(toks + [t], eof))
  {
    var longer := toks + [t];
    forall i | 0 <= i < |toks|
      ensures longer[i] == toks[i] && Between(toks[i], from, t.start)
    {}
  }

  // Tokens without a gap stay in order when trivia and comments are dropped, which is what the parser's locations
  // rest on.
  lemma {:induction false} TilesAreOrdered(tokens: seq<Token>, from: Position, to: Position, eof: Token)
    requires Tiles(tokens, from, to) && 0 <= from.charPos
    ensures Ordered(Stream(Significant(tokens), eof))
  {
    hide Ordered, Between, Tiles, Significant;
    if tokens == [] {
      NothingInOrder(eof);
    } else {
      var n := |tokens| - 1;
      LastTile(tokens, from, to);
      TilesAreOrdered(tokens[..n], from, tokens[n].start, eof);
      TilesAreBetween(tokens[..n], from, tokens[n].start);
      if !Skipped(tokens[n].kind) {
        OneMoreInOrder(Significant(tokens[..n]), tokens[n], from, to, eof);
      }
    }
  }

  lemma NothingInOrder(eof: Token)
    ensures Ordered(Stream(Significant([]), eof))
  {}

  lemma LastTile(tokens: seq<Token>, from: Position, to: Position)
    requires Tiles(tokens, from, to) && tokens != []
    ensures var n, last := |tokens| - 1, tokens[|tokens| - 1];
            && Tiles(tokens[..n], from, last.start) && Between(last, last.start, to) && from.charPos <= last.start.charPos
            && Significant(tokens) == if Skipped(last.kind) then Significant(tokens[..n]) else Significant(tokens[..n]) + [last]
  {
    TilesAreBetween(tokens[..|tokens| - 1], from, tokens[|tokens| - 1].start);
  }

  // ---- the tokens of an input -----------------------------------------------------------------------

  lemma {:induction false} TilesJoin(tokens: seq<Token>, from: Position, to: Position, i: nat)
    requires Tiles(tokens, from, to) && i < |tokens|
    ensures tokens[i].start == (if i == 0 then from else tokens[i - 1].end)
    ensures i == |tokens| - 1 ==> tokens[i].end == to
    decreases |tokens|
  {
    var n := |tokens| - 1;
    if i < n {
      TilesJoin(tokens[..n], from, tokens[n].start, i);
    } else if n > 0 {
      TilesJoin(tokens[..n], from, tokens[n].start, n - 1);
    }
  }

  // The same token, if it begins at the same place after the same tokens.
  lemma SameToken(input: Input, t: Token, u: Token, first: bool)
    requires input.endPos <= |input.bytes| && Lexed(input, t, first) && Lexed(input, u, first) && t.start == u.start
    ensures t == u
  {
    OneTokenAt(input, t.kind, u.kind, t.start.charPos, t.end.charPos, u.end.charPos, first);
    hide TokenAt, Input.Scan, Input.Text;
  }

  lemma LexedAt(input: Input, tokens: seq<Token>, i: nat)
    requires input.endPos <= |input.bytes| && AllLexed(input, tokens) && i < |tokens|
    ensures Lexed(input, tokens[i], LaterThan(tokens[..i], tokens[i].start.line))
  {
    hide Lexed;
  }

  lemma PrefixGrows(tokens: seq<Token>, others: seq<Token>, i: nat)
    requires 0 < i <= |tokens| && i <= |others| && tokens[..i - 1] == others[..i - 1] && tokens[i - 1] == others[i - 1]
    ensures tokens[..i] == others[..i]
  {
    assert tokens[..i] == tokens[..i - 1] + [tokens[i - 1]] && others[..i] == others[..i - 1] + [others[i - 1]];
  }

  lemma {:induction false} SamePrefix(input: Input, tokens: seq<Token>, others: seq<Token>, from: Position, to: Position,
                                      end: Position, i: nat)
    requires input.endPos <= |input.bytes| && AllLexed(input, tokens) && AllLexed(input, others)
    requires Tiles(tokens, from, to) && Tiles(others, from, end) && i <= |tokens| && i <= |others|
    ensures tokens[..i] == others[..i]
    decreases i
  {
    hide Lexed, Tiles, AllLexed, LaterThan;
    if i > 0 {
      SamePrefix(input, tokens, others, from, to, end, i - 1);
      TilesJoin(tokens, from, to, i - 1);
      TilesJoin(others, from, end, i - 1);
      if i > 1 {
        assert tokens[..i - 1][i - 2] == others[..i - 1][i - 2];
      }
      LexedAt(input, tokens, i - 1);
      LexedAt(input, others, i - 1);
      SameToken(input, tokens[i - 1], others[i - 1], LaterThan(tokens[..i - 1], tokens[i - 1].start.line));
      PrefixGrows(tokens, others, i);
    }
  }

  lemma NoTokenAtTheEnd(input: Input, t: Token, first: bool)
    requires input.endPos <= |input.bytes| && Lexed(input, t, first) && input.Char(t.start.charPos) == 0
    ensures t.kind == EOF
  {
    hide Input.Char, Input.Scan, Input.Text;
  }

  // A sequence of tokens to the end of an input is the only one: every comment and every quoted string that begins where
  // a token ends is a token in it.
  lemma TokensAreDetermined(input: Input, tokens: seq<Token>, others: seq<Token>, from: Position, to: Position, end: Position)
    requires input.endPos <= |input.bytes| && AllLexed(input, tokens) && AllLexed(input, others)
    requires Tiles(tokens, from, to) && Tiles(others, from, end)
    requires (forall t <- tokens :: t.kind != EOF) && (forall t <- others :: t.kind != EOF)
    requires 0 <= to.charPos && 0 <= end.charPos && input.Char(to.charPos) == 0 && input.Char(end.charPos) == 0
    ensures tokens == others && to == end
  {
    hide Lexed, Tiles, AllLexed, Input.Char;
    var n := if |tokens| < |others| then |tokens| else |others|;
    SamePrefix(input, tokens, others, from, to, end, n);
    assert tokens[..n] == others[..n];
    if |tokens| > n {
      assert others[..n] == others;
      Shorter(input, others, tokens, from, end, to);
    } else if |others| > n {
      assert tokens[..n] == tokens;
      Shorter(input, tokens, others, from, to, end);
    } else {
      assert tokens[..n] == tokens && others[..n] == others;
    }
    if n > 0 {
      TilesJoin(tokens, from, to, n - 1);
      TilesJoin(others, from, end, n - 1);
    } else {
      NoTiles(from, to);
      NoTiles(from, end);
    }
  }

  lemma NoTiles(from: Position, to: Position)
    ensures Tiles([], from, to) ==> from == to
  {}

  lemma Shorter(input: Input, tokens: seq<Token>, longer: seq<Token>, from: Position, to: Position, end: Position)
    requires input.endPos <= |input.bytes| && AllLexed(input, longer) && Tiles(tokens, from, to) && Tiles(longer, from, end)
    requires tokens <= longer && 0 <= to.charPos && input.Char(to.charPos) == 0 && forall t <- longer :: t.kind != EOF
    ensures tokens == longer
  {
    hide Lexed, Tiles, AllLexed, LaterThan, Input.Char;
    var n := |tokens|;
    if n < |longer| {
      assert longer[n] in longer;
      LexedAt(input, longer, n);
      TilesJoin(longer, from, end, n);
      if n > 0 {
        TilesJoin(tokens, from, to, n - 1);
      } else {
        NoTiles(from, to);
      }
      NoTokenAtTheEnd(input, longer[n], LaterThan(longer[..n], longer[n].start.line));
    }
  }

  // ---- comments and lines ---------------------------------------------------------------------------

  lemma {:induction false} CommentsAreAmong(tokens: seq<Token>)
    ensures forall c <- LineComments(tokens) :: c in tokens && c.kind == LINE_COMMENT
  {
    if tokens != [] {
      CommentsAreAmong(tokens[..|tokens| - 1]);
    }
  }

  lemma CommentsApartPrefix(tokens: seq<Token>, n: nat)
    requires CommentsApart(tokens) && n <= |tokens|
    ensures CommentsApart(tokens[..n])
  {
    forall j | 0 <= j < n
      ensures tokens[..n][..j] == tokens[..j]
    {}
  }

  // No two line comments share a line, whatever else is between them.
  lemma {:induction false} LineCommentsOnePerLine(tokens: seq<Token>)
    requires CommentsApart(tokens)
    ensures OnePerLine(LineComments(tokens))
  {
    if tokens != [] {
      var n := |tokens| - 1;
      CommentsApartPrefix(tokens, n);
      LineCommentsOnePerLine(tokens[..n]);
      CommentsAreAmong(tokens[..n]);
      assert tokens[..n] == tokens[..|tokens| - 1];
    }
  }

  // The line comments read after token `i` are all on later lines.
  lemma {:induction false} LaterCommentsBelow(tokens: seq<Token>, i: nat, r: nat, q: nat) returns (more: seq<Token>)
    requires CommentsApart(tokens) && i < r <= q <= |tokens| && tokens[i].kind != TRIVIA
    ensures LineComments(tokens[..q]) == LineComments(tokens[..r]) + more
    ensures forall c <- more :: c.start.line > tokens[i].end.line
    decreases q
  {
    if q == r {
      more := [];
    } else {
      more := LaterCommentsBelow(tokens, i, r, q - 1);
      assert tokens[..q][..q - 1] == tokens[..q - 1];
      if tokens[q - 1].kind == LINE_COMMENT {
        assert tokens[i] in tokens[..q - 1];
        more := more + [tokens[q - 1]];
      }
    }
  }

  // The comment found above a token is the same whether the lexer has been read just past the token or any number
  // of tokens further.
  lemma CommentIndependentOfLookahead(tokens: seq<Token>, from: Position, to: Position, i: nat, r: nat, q: nat)
    requires Tiles(tokens, from, to) && CommentsApart(tokens)
    requires i < r <= q <= |tokens| && !Skipped(tokens[i].kind)
    ensures var line := tokens[i].start.line;
            CommentAbove(Collected(LineComments(tokens[..q])), line) == CommentAbove(Collected(LineComments(tokens[..r])), line)
  {
    hide LineComments, Collected, CommentAbove;
    TilesAreBetween(tokens, from, to);
    assert Between(tokens[i], from, to);
    CommentsApartPrefix(tokens, q);
    LineCommentsOnePerLine(tokens[..q]);
    var more := LaterCommentsBelow(tokens, i, r, q);
    LookaheadDoesNotMatter(LineComments(tokens[..r]), more, tokens[i].start.line);
  }

  // ---- positions ----------------------------------------------------------------------------------

  // `text` is what the input decodes to, as far as a scan goes.
  ghost predicate Decodes(input: Input, text: string)
    requires input.endPos <= |input.bytes|
  {
    forall k: nat :: k < |text| ==> input.Char(k) != 0 && (input.Char(k) == LF <==> text[k] == '\n')
  }

  lemma ScanStarts(input: Input)
    requires input.endPos <= |input.bytes|
    ensures input.Scan(0) == START && Buffers.Scanned([]) == Buffers.Loc(1, 0)
  {}

  lemma ScanStep(input: Input, n: nat)
    requires input.endPos <= |input.bytes| && n > 0
    ensures input.Scan(n) == input.After(input.Scan(n - 1))
  {}

  lemma ScannedStep(s: string)
    requires s != []
    ensures var before, last := Buffers.Scanned(s[..|s| - 1]), s[|s| - 1];
            Buffers.Scanned(s) == if last == '\n' then Buffers.Loc(before.line + 1, 0) else Buffers.Loc(before.line, before.column + 1)
  {}

  lemma {:induction false} ScanIsScanned(input: Input, text: string, n: nat)
    requires input.endPos <= |input.bytes| && Decodes(input, text) && n <= |text|
    ensures input.Scan(n).charPos == n
    ensures Buffers.Loc(input.Scan(n).line, input.Scan(n).column) == Buffers.Scanned(text[..n])
  {
    hide Buffers.Scanned, Input.Scan, Input.Length;
    if n == 0 {
      ScanStarts(input);
    } else {
      ScanIsScanned(input, text, n - 1);
      assert text[..n][..n - 1] == text[..n - 1];
      assert input.Char(n - 1) != 0;
      ScanStep(input, n);
      ScannedStep(text[..n]);
    }
  }

  // The line and column of a token are those RBS::Buffer computes for its character position, up to the last
  // position and except between the carriage return and the line feed of a CRLF.
  lemma LexerAgreesWithBuffer(input: Input, text: string, p: Position)
    requires input.endPos <= |input.bytes| && Decodes(input, text)
    requires 0 <= p.charPos <= |text| && p == input.Scan(p.charPos)
    requires p.charPos <= Buffers.LastPosition(Buffers.RangesFrom(text, 0))
    ensures Buffers.LocFor(Buffers.RangesFrom(text, 0), p.charPos) == Buffers.Loc(p.line, p.column)
            <==> !Buffers.BetweenCrLf(text, p.charPos)
  {
    ScanIsScanned(input, text, p.charPos);
    Buffers.CountsAgree(text, 0, p.charPos);
  }

  // ---- a parser on a text ---------------------------------------------------------------------------

  // rbs_parser_new: no parser if there is no lexer; otherwise the window is filled from tokens in order.
  method NewParser(input: Input, forwardingEnabled: bool) returns (parser: Option<Parser>)
    requires input.Ok()
    ensures parser.Some? <==> exists n: nat :: StartsAt(input, n)
    ensures parser.Some? ==>
              fresh(parser.value) && parser.value.Valid() && parser.value.pos == 0 && Ordered(parser.value.s)
              && parser.value.error == None && parser.value.vars == []
              && CommentsApart(parser.value.input) && OnePerLine(LineComments(parser.value.input))
              && AllLexed(input, parser.value.input)
  {
    var lexer := NewLexer(input);
    if lexer.None? {
      return None;
    }
    ghost var from := lexer.value.current;
    var tokens, eof := lexer.value.Tokenize();
    TilesAreOrdered(tokens, from, eof.start, eof);
    LineCommentsOnePerLine(tokens);
    var p := new Parser(tokens, eof, forwardingEnabled);
    assert p.s == Stream(Significant(tokens), eof);
    parser := Some(p);
  }
}
