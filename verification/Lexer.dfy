/** The lexer's character machine (src/lexstate.c) and the rules of src/lexer.c for trivia, comments and quoted
    strings. The bytes come with the character widths of some encoding; the rules for names and operators are
    any function that takes at least one character. */
module Lexers {
  import opened Tokens

  newtype u8 = x: int | 0 <= x < 256

  const START := Position(0, 0, 1, 0)
  const INVALID: nat := 0xFFFD

  // `width` is what the encoding says of the character at a byte offset, 0 if the byte is invalid; `other` is what
  // the remaining rules say of the text from a byte offset on: a kind, and how many characters follow the first.
  datatype Input = Input(bytes: seq<u8>, startPos: int, endPos: nat, width: nat -> nat,
                         other: nat -> (TokenKind, nat), unquote: string -> string) {

    // No byte of a character but the first is an ASCII control byte.
    ghost predicate Ok() {
      && endPos <= |bytes|
      && (forall i: nat, j: nat :: i < endPos && i < j < i + width(i) && j < |bytes| ==> bytes[j] >= 0x20)
      && (forall i: nat :: other(i).0 !in {EOF, TRIVIA, COMMENT, LINE_COMMENT, SQ_STRING, DQ_STRING})
    }

    // The code point rbs_next_char reports at a byte offset; 0 at the end.
    function Code(b: nat): nat
      requires endPos <= |bytes|
    {
      if b >= endPos then 0
      else if bytes[b] < 128 then bytes[b] as nat
      else if width(b) == 0 then INVALID
      else if width(b) == 1 then 0xFFFF_FF00 + bytes[b] as nat
      else 12523
    }

    // How many bytes it takes.
    function Length(b: nat): (n: nat)
      requires endPos <= |bytes|
      ensures n > 0
    {
      if b >= endPos || bytes[b] < 128 || width(b) <= 1 then 1 else width(b)
    }

    // The position after the character at `p`; there is none after a NUL or the end.
    function After(p: Position): Position
      requires endPos <= |bytes| && p.bytePos >= 0
    {
      var code := Code(p.bytePos);
      if code == 0 then p
      else if code == 10 then Position(p.bytePos + Length(p.bytePos), p.charPos + 1, p.line + 1, 0)
      else Position(p.bytePos + Length(p.bytePos), p.charPos + 1, p.line, p.column + 1)
    }

    // The position a scan from the very beginning has come to after `n` characters.
    function Scan(n: nat): (p: Position)
      requires endPos <= |bytes|
      ensures p.bytePos >= 0
    {
      if n == 0 then START else After(Scan(n - 1))
    }

    // The code point of character number `n`.
    function Char(n: nat): nat
      requires endPos <= |bytes|
    {
      Code(Scan(n).bytePos)
    }

    function Text(a: int, b: int): string
      requires 0 <= a <= b
    {
      var n := |bytes|;
      var lo, hi := if a <= n then a else n, if b <= n then b else n;
      seq(hi - lo, i requires 0 <= i < hi - lo => bytes[lo + i] as char)
    }

    // As long as no NUL is met, a character more is a position more.
    lemma {:induction false} ScanCounts(n: nat)
      requires endPos <= |bytes|
      ensures Scan(n).charPos <= n && Scan(n).charPos >= 0
      ensures forall k: nat :: k < n && Char(k) == 0 ==> Scan(n) == Scan(k)
      ensures (forall k: nat :: k < n ==> Char(k) != 0) ==> Scan(n).charPos == n
    {
      if n > 0 {
        ScanCounts(n - 1);
        if Char(n - 1) == 0 {
          assert Scan(n) == Scan(n - 1);
        }
      }
    }

    lemma {:induction false} ScanAdvances(m: nat, n: nat)
      requires endPos <= |bytes| && m <= n
      ensures Scan(m).bytePos <= Scan(n).bytePos && Scan(m).charPos <= Scan(n).charPos && Scan(m).line <= Scan(n).line
      ensures m < n && Char(m) != 0 ==> Scan(m).bytePos < Scan(n).bytePos && Scan(m).charPos < Scan(n).charPos
      decreases n - m
    {
      if m < n {
        ScanAdvances(m, n - 1);
      }
    }
  }

  const TAB: nat := 9
  const LF: nat := 10
  const CR: nat := 13
  const SPACE: nat := 32
  const DQUOTE: nat := 34
  const HASH: nat := 35
  const SQUOTE: nat := 39
  const SEMICOLON: nat := 59
  const BACKSLASH: nat := 92
  const LOWER_U: nat := 117
  const LOWER_X: nat := 120

  predicate IsHex(c: nat) {
    48 <= c <= 57 || 65 <= c <= 70 || 97 <= c <= 102
  }

  // ---- what the rules for quoted strings match -------------------------------------------------------

  // The alternatives inside single quotes, `l` characters from `p` on: an escaped quote or backslash, or any
  // character but a quote or a NUL.
  predicate SingleItem(input: Input, p: nat, l: nat)
    requires input.endPos <= |input.bytes|
  {
    || (l == 2 && input.Char(p) == BACKSLASH && (input.Char(p + 1) == SQUOTE || input.Char(p + 1) == BACKSLASH))
    || (l == 1 && input.Char(p) != SQUOTE && input.Char(p) != 0)
  }

  ghost predicate SingleItems(input: Input, p: nat, q: nat)
    requires input.endPos <= |input.bytes| && p <= q
    decreases q - p
  {
    p == q || exists l: nat :: 0 < l <= q - p && SingleItem(input, p, l) && SingleItems(input, p + l, q)
  }

  // The rule for single-quoted strings from character `n` up to `e`.
  ghost predicate SingleQuoted(input: Input, n: nat, e: nat)
    requires input.endPos <= |input.bytes|
  {
    e >= n + 2 && input.Char(n) == SQUOTE && input.Char(e - 1) == SQUOTE && SingleItems(input, n + 1, e - 1)
  }

  ghost predicate LongestSingle(input: Input, n: nat, e: nat)
    requires input.endPos <= |input.bytes|
  {
    SingleQuoted(input, n, e) && forall f: nat :: SingleQuoted(input, n, f) ==> f <= e
  }

  ghost predicate NoSingle(input: Input, n: nat)
    requires input.endPos <= |input.bytes|
  {
    forall e: nat :: !SingleQuoted(input, n, e)
  }

  // Character `i` is no NUL, and if it is a quote, it comes right after a backslash, itself after `n`.
  ghost predicate Escaped(input: Input, n: nat, i: nat)
    requires input.endPos <= |input.bytes| && n < i
  {
    input.Char(i) != 0 && (input.Char(i) == SQUOTE ==> i > n + 1 && input.Char(i - 1) == BACKSLASH)
  }

  ghost predicate AllEscaped(input: Input, n: nat, q: nat)
    requires input.endPos <= |input.bytes|
  {
    forall i: nat :: n < i < q ==> Escaped(input, n, i)
  }

  // A character after a backslash may be read by itself or not: what the items come to is that every quote is
  // escaped.
  lemma {:induction false} ItemsAreEscapes(input: Input, n: nat, q: nat)
    requires input.endPos <= |input.bytes| && n < q
    ensures SingleItems(input, n + 1, q) <==> AllEscaped(input, n, q)
    decreases q - n
  {
    hide Input.Char, AllEscaped, SingleItem;
    if n + 1 == q {
      NothingEscaped(input, n);
    } else if SingleItems(input, n + 1, q) {
      var l: nat :| 0 < l <= q - n - 1 && SingleItem(input, n + 1, l) && SingleItems(input, n + 1 + l, q);
      ItemsAreEscapes(input, n + l, q);
      EscapedAfter(input, n, l, q);
    } else if AllEscaped(input, n, q) {
      var l := EscapedBefore(input, n, q);
      ItemsAreEscapes(input, n + l, q);
    }
  }

  lemma NothingEscaped(input: Input, n: nat)
    requires input.endPos <= |input.bytes|
    ensures AllEscaped(input, n, n + 1)
  {}

  lemma EscapedAfter(input: Input, n: nat, l: nat, q: nat)
    requires input.endPos <= |input.bytes| && SingleItem(input, n + 1, l) && AllEscaped(input, n + l, q)
    ensures AllEscaped(input, n, q)
  {
    hide Input.Char;
    forall i: nat | n < i < q
      ensures Escaped(input, n, i)
    {
      assert i > n + l ==> Escaped(input, n + l, i);
    }
  }

  lemma EscapedBefore(input: Input, n: nat, q: nat) returns (l: nat)
    requires input.endPos <= |input.bytes| && AllEscaped(input, n, q) && n + 1 < q
    ensures 0 < l && n + l < q && SingleItem(input, n + 1, l) && AllEscaped(input, n + l, q)
  {
    hide Input.Char;
    assert Escaped(input, n, n + 1);
    l := if input.Char(n + 1) == BACKSLASH && n + 2 < q && input.Char(n + 2) == SQUOTE then 2 else 1;
    var m := n + l;
    forall i: nat | m < i < q
      ensures Escaped(input, m, i)
    {
      assert Escaped(input, n, i);
    }
  }

  // The rule read off from the ends.
  lemma SingleQuotedEscapes(input: Input, n: nat, e: nat)
    requires input.endPos <= |input.bytes|
    ensures SingleQuoted(input, n, e) <==>
            e >= n + 2 && input.Char(n) == SQUOTE && input.Char(e - 1) == SQUOTE && AllEscaped(input, n, e - 1)
  {
    hide Input.Char, AllEscaped, SingleItems;
    if e >= n + 2 {
      ItemsAreEscapes(input, n, e - 1);
    }
  }

  predicate IsOctal(c: nat) {
    48 <= c <= 55
  }

  // The alternatives inside double quotes, `l` characters from `p` on: a code point, a byte in hexadecimal, a
  // byte in octal, an escaped character, or any character but a backslash, a quote or a NUL.
  predicate DoubleItem(input: Input, p: nat, l: nat)
    requires input.endPos <= |input.bytes|
  {
    if input.Char(p) != BACKSLASH then l == 1 && input.Char(p) != DQUOTE && input.Char(p) != 0
    else if input.Char(p + 1) == LOWER_U then
      l == 6 && IsHex(input.Char(p + 2)) && IsHex(input.Char(p + 3)) && IsHex(input.Char(p + 4)) && IsHex(input.Char(p + 5))
    else if input.Char(p + 1) == LOWER_X then
      (l == 3 || (l == 4 && IsHex(input.Char(p + 3)))) && IsHex(input.Char(p + 2))
    else
      input.Char(p + 1) != 0
      && (|| l == 2
          || (IsOctal(input.Char(p + 1)) && IsOctal(input.Char(p + 2))
              && (l == 3 || (l == 4 && IsOctal(input.Char(p + 3))))))
  }

  ghost predicate DoubleItems(input: Input, p: nat, q: nat)
    requires input.endPos <= |input.bytes| && p <= q
    decreases q - p
  {
    p == q || exists l: nat :: 0 < l <= q - p && DoubleItem(input, p, l) && DoubleItems(input, p + l, q)
  }

  // The rule for double-quoted strings from character `n` up to `e`.
  ghost predicate DoubleQuoted(input: Input, n: nat, e: nat)
    requires input.endPos <= |input.bytes|
  {
    e >= n + 2 && input.Char(n) == DQUOTE && input.Char(e - 1) == DQUOTE && DoubleItems(input, n + 1, e - 1)
  }

  ghost predicate OnlyDouble(input: Input, n: nat, e: nat)
    requires input.endPos <= |input.bytes|
  {
    DoubleQuoted(input, n, e) && forall f: nat :: DoubleQuoted(input, n, f) ==> f == e
  }

  ghost predicate NoDouble(input: Input, n: nat)
    requires input.endPos <= |input.bytes|
  {
    forall e: nat :: !DoubleQuoted(input, n, e)
  }

  // The automaton takes the shortest alternative, 0 if there is none.
  function Shortest(input: Input, p: nat): (l: nat)
    requires input.endPos <= |input.bytes|
    ensures l > 0 ==> DoubleItem(input, p, l)
  {
    if input.Char(p) != BACKSLASH then if input.Char(p) == DQUOTE || input.Char(p) == 0 then 0 else 1
    else if input.Char(p + 1) == LOWER_U then
      if IsHex(input.Char(p + 2)) && IsHex(input.Char(p + 3)) && IsHex(input.Char(p + 4)) && IsHex(input.Char(p + 5))
      then 6 else 0
    else if input.Char(p + 1) == LOWER_X then if IsHex(input.Char(p + 2)) then 3 else 0
    else if input.Char(p + 1) == 0 then 0
    else 2
  }

  ghost predicate Steps(input: Input, p: nat, q: nat)
    requires input.endPos <= |input.bytes| && p <= q
    decreases q - p
  {
    p == q || (0 < Shortest(input, p) <= q - p && Steps(input, p + Shortest(input, p), q))
  }

  lemma OnlyDigitsLeft(input: Input, p: nat, l: nat)
    requires input.endPos <= |input.bytes| && DoubleItem(input, p, l)
    ensures 0 < Shortest(input, p) <= l <= Shortest(input, p) + 2
    ensures l > Shortest(input, p) ==> Shortest(input, p + Shortest(input, p)) == 1
    ensures l > Shortest(input, p) + 1 ==> Shortest(input, p + Shortest(input, p) + 1) == 1
  {
    hide Input.Char;
  }

  // Taking the shortest alternative loses no match: what it leaves of a longer one are plain digits.
  lemma {:induction false} ShortestSuffices(input: Input, p: nat, q: nat)
    requires input.endPos <= |input.bytes| && p <= q && DoubleItems(input, p, q)
    ensures Steps(input, p, q)
    decreases q - p
  {
    hide Shortest, DoubleItem, DoubleItems, Steps;
    if p == q {
      NoSteps(input, p);
    } else {
      var l := FirstItem(input, p, q);
      ShortestSuffices(input, p + l, q);
      OnlyDigitsLeft(input, p, l);
      var m := Shortest(input, p);
      if m + 2 == l {
        StepThen(input, p + m + 1, q);
      }
      if m < l {
        StepThen(input, p + m, q);
      }
      StepThen(input, p, q);
    }
  }

  lemma NoSteps(input: Input, p: nat)
    requires input.endPos <= |input.bytes|
    ensures Steps(input, p, p)
  {}

  lemma FirstItem(input: Input, p: nat, q: nat) returns (l: nat)
    requires input.endPos <= |input.bytes| && p < q && DoubleItems(input, p, q)
    ensures 0 < l <= q - p && DoubleItem(input, p, l) && DoubleItems(input, p + l, q)
  {
    l :| 0 < l <= q - p && DoubleItem(input, p, l) && DoubleItems(input, p + l, q);
  }

  lemma StepThen(input: Input, p: nat, q: nat)
    requires input.endPos <= |input.bytes| && p <= q
    requires 0 < Shortest(input, p) <= q - p && Steps(input, p + Shortest(input, p), q)
    ensures Steps(input, p, q)
  {}

  lemma {:induction false} StepsAreItems(input: Input, p: nat, q: nat)
    requires input.endPos <= |input.bytes| && p <= q && Steps(input, p, q)
    ensures DoubleItems(input, p, q)
    decreases q - p
  {
    hide Input.Char;
    if p < q {
      StepsAreItems(input, p + Shortest(input, p), q);
    }
  }

  lemma {:induction false} OneMoreStep(input: Input, p: nat, q: nat)
    requires input.endPos <= |input.bytes| && p <= q && Steps(input, p, q)
    ensures Shortest(input, q) > 0 ==> Steps(input, p, q + Shortest(input, q))
    decreases q - p
  {
    hide Input.Char, Shortest, DoubleItem;
    if p < q {
      OneMoreStep(input, p + Shortest(input, p), q);
    }
  }

  // The steps are determined, so a place they pass through is on the way to any later one.
  lemma {:induction false} StepsFromBetween(input: Input, p: nat, q: nat, r: nat)
    requires input.endPos <= |input.bytes| && p <= q <= r && Steps(input, p, q) && Steps(input, p, r)
    ensures Steps(input, q, r)
    decreases q - p
  {
    hide Input.Char, Shortest, DoubleItem;
    if p < q {
      StepsFromBetween(input, p + Shortest(input, p), q, r);
    }
  }

  lemma StuckAt(input: Input, p: nat, q: nat)
    requires input.endPos <= |input.bytes| && p <= q && Steps(input, p, q) && Shortest(input, p) == 0
    ensures p == q
  {}

  lemma QuoteIsNoItem(input: Input, p: nat)
    requires input.endPos <= |input.bytes| && input.Char(p) == DQUOTE
    ensures Shortest(input, p) == 0
  {}

  // Where the steps end for good, at a quote or at something malformed, decides the match.
  lemma StepsDecide(input: Input, n: nat, q: nat, e: nat)
    requires input.endPos <= |input.bytes| && n < q && Steps(input, n + 1, q) && Shortest(input, q) == 0
    ensures DoubleQuoted(input, n, e) ==> e == q + 1 && input.Char(q) == DQUOTE
  {
    hide Input.Char, DoubleItem, DoubleItems, Steps, Shortest;
    if DoubleQuoted(input, n, e) {
      ShortestSuffices(input, n + 1, e - 1);
      QuoteIsNoItem(input, e - 1);
      if e - 1 <= q {
        StepsFromBetween(input, n + 1, e - 1, q);
        StuckAt(input, e - 1, q);
      } else {
        StepsFromBetween(input, n + 1, q, e - 1);
        StuckAt(input, q, e - 1);
      }
    }
  }

  // ---- which token begins at a character -------------------------------------------------------------

  // What a comment stops at.
  predicate EndsComment(c: nat) {
    c == 0 || c == LF || c == INVALID
  }

  // A comment from character `n` on goes to the end of the line, without the carriage return of a CRLF.
  ghost predicate CommentUpto(input: Input, n: nat, e: nat)
    requires input.endPos <= |input.bytes|
  {
    exists stop: nat :: StopsComment(input, n, stop) && e == CommentEnd(input, stop)
  }

  ghost predicate StopsComment(input: Input, n: nat, stop: nat)
    requires input.endPos <= |input.bytes|
  {
    n < stop && EndsComment(input.Char(stop)) && forall k: nat :: n <= k < stop ==> !EndsComment(input.Char(k))
  }

  function CommentEnd(input: Input, stop: nat): nat
    requires input.endPos <= |input.bytes| && stop > 0
  {
    if input.Char(stop) == LF && input.Char(stop - 1) == CR then stop - 1 else stop
  }

  predicate IsBlank(c: nat) {
    c == TAB || c == SPACE
  }

  // As many spaces and tabs as there are.
  ghost predicate BlanksUpto(input: Input, n: nat, e: nat)
    requires input.endPos <= |input.bytes|
  {
    n < e && (forall k: nat :: n <= k < e ==> IsBlank(input.Char(k))) && !IsBlank(input.Char(e))
  }

  // As many characters as the remaining rules say, unless the input ends before.
  ghost predicate OtherUpto(input: Input, n: nat, e: nat)
    requires input.endPos <= |input.bytes|
  {
    var l := input.other(input.Scan(n).bytePos).1;
    && n < e <= n + 1 + l && (forall k: nat :: n <= k < e ==> input.Char(k) != 0)
    && (e < n + 1 + l ==> input.Char(e) == 0)
  }

  // The kind and the end of the token that begins with character `n`, where it is the first one of its line or not.
  ghost predicate TokenAt(input: Input, kind: TokenKind, n: nat, e: nat, first: bool)
    requires input.endPos <= |input.bytes|
  {
    var c := input.Char(n);
    if c == 0 then kind == EOF && e == n
    else if c == LF || c == CR then kind == TRIVIA && e == n + 1
    else if IsBlank(c) then kind == TRIVIA && BlanksUpto(input, n, e)
    else if c < SPACE || c == SEMICOLON then kind == ERROR_TOKEN && e == n + 1
    else if c == HASH then kind == (if first then LINE_COMMENT else COMMENT) && CommentUpto(input, n, e)
    else if c == SQUOTE then
      if kind == SQ_STRING then LongestSingle(input, n, e) else kind == ERROR_TOKEN && NoSingle(input, n) && e == n + 1
    else if c == DQUOTE then
      if kind == DQ_STRING then OnlyDouble(input, n, e) else kind == ERROR_TOKEN && NoDouble(input, n) && e == n + 1
    else kind == input.other(input.Scan(n).bytePos).0 && OtherUpto(input, n, e)
  }

  // A token of the input: the one its first character calls for, with its text and positions.
  ghost predicate Lexed(input: Input, t: Token, first: bool)
    requires input.endPos <= |input.bytes|
  {
    && 0 <= t.start.charPos && 0 <= t.end.charPos && 0 <= t.start.bytePos <= t.end.bytePos
    && t.start == input.Scan(t.start.charPos) && t.end == input.Scan(t.end.charPos)
    && TokenAt(input, t.kind, t.start.charPos, t.end.charPos, first)
    && t.text == input.Text(t.start.bytePos, t.end.bytePos) && t.unquoted == input.unquote(t.text)
  }

  lemma OneCommentEnd(input: Input, n: nat, d: nat, e: nat)
    requires input.endPos <= |input.bytes| && CommentUpto(input, n, d) && CommentUpto(input, n, e)
    ensures d == e
  {
    hide Input.Char, EndsComment;
    var x: nat :| StopsComment(input, n, x) && d == CommentEnd(input, x);
    var y: nat :| StopsComment(input, n, y) && e == CommentEnd(input, y);
    var stops := EndsComment(input.Char(x)) && EndsComment(input.Char(y));
    assert stops && !(x < y) && !(y < x);
  }

  // There is only one such token.
  lemma OneTokenAt(input: Input, k: TokenKind, l: TokenKind, n: nat, d: nat, e: nat, first: bool)
    requires input.endPos <= |input.bytes| && TokenAt(input, k, n, d, first) && TokenAt(input, l, n, e, first)
    ensures k == l && d == e
  {
    hide Input.Char, Input.Scan, SingleQuoted, DoubleQuoted, CommentUpto;
    var c := input.Char(n);
    if c == HASH {
      OneCommentEnd(input, n, d, e);
    } else if IsBlank(c) {
      var ends := !IsBlank(input.Char(d)) && !IsBlank(input.Char(e));
      assert ends && !(d < e) && !(e < d);
    } else if c >= SPACE && c != SEMICOLON && c != SQUOTE && c != DQUOTE {
      var b := input.Scan(n).bytePos;
      var l := n + 1 + input.other(b).1;
      var ends := (d < l ==> input.Char(d) == 0) && (e < l ==> input.Char(e) == 0);
      assert ends && !(d < e) && !(e < d);
    }
  }

  // What `backup = *lexer` saves and `*lexer = backup` brings back.
  datatype Saved = Saved(current: Position, start: Position, codePoint: nat, charBytes: nat, firstTokenOfLine: bool)

  class Lexer {
    const input: Input

    var current: Position
    var start: Position
    var codePoint: nat
    var charBytes: nat
    var firstTokenOfLine: bool

    // The fields beside the byte position are what a scan from the beginning would find.
    ghost predicate Valid()
      reads this
    {
      && input.Ok() && input.endPos <= |input.bytes|
      && current.charPos >= 0 && current == input.Scan(current.charPos)
      && codePoint == input.Code(current.bytePos) && charBytes == input.Length(current.bytePos)
    }

    // The `n`-th character is the current one.
    ghost predicate Stands(n: nat)
      reads this
    {
      Valid() && current.charPos == n
    }

    // The initial state of rbs_lexer_new.
    constructor (input: Input)
      requires input.Ok()
      ensures Valid() && this.input == input && current == START && firstTokenOfLine
    {
      this.input := input;
      current, start, firstTokenOfLine := START, ZERO, true;
      codePoint, charBytes := input.Code(0), input.Length(0);
    }

    // rbs_skip.
    method Skip()
      requires Valid()
      modifies this
      ensures Valid() && start == old(start)
      ensures old(codePoint) == 0 ==> current == old(current) && firstTokenOfLine == old(firstTokenOfLine)
      ensures old(codePoint) != 0 ==>
                current.charPos == old(current.charPos) + 1 && current.bytePos > old(current.bytePos)
                && current.line == old(current.line) + (if old(codePoint) == LF then 1 else 0)
                && firstTokenOfLine == (old(firstTokenOfLine) || old(codePoint) == LF)
    {
      if codePoint == 0 {
        return;
      }
      assert input.Scan(current.charPos + 1) == input.After(current);
      current := current.(bytePos := current.bytePos + charBytes, charPos := current.charPos + 1);
      if codePoint == LF {
        current := current.(line := current.line + 1, column := 0);
        firstTokenOfLine := true;
      } else {
        current := current.(column := current.column + 1);
      }
      codePoint, charBytes := input.Code(current.bytePos), input.Length(current.bytePos);
    }

    // The loop of rbs_lexer_new.
    method Walk()
      requires Stands(0) && firstTokenOfLine
      modifies this
      ensures Valid() && firstTokenOfLine && (current.bytePos >= input.startPos || codePoint == 0)
      ensures forall k: nat :: k < current.charPos ==> input.Scan(k).bytePos < input.startPos
    {
      hide Input.Ok, Input.Scan, Input.Code, Input.Length, Input.After;
      while current.bytePos < input.startPos && codePoint != 0
        invariant Valid() && firstTokenOfLine
        invariant forall k: nat :: k < current.charPos ==> input.Scan(k).bytePos < input.startPos
        decreases input.startPos - current.bytePos
      {
        Skip();
      }
    }

    function Save(): Saved
      reads this
    {
      Saved(current, start, codePoint, charBytes, firstTokenOfLine)
    }

    // The saved state was that of a lexer on this input.
    ghost predicate Good(s: Saved) {
      && input.endPos <= |input.bytes|
      && s.current.charPos >= 0 && s.current == input.Scan(s.current.charPos)
      && s.codePoint == input.Code(s.current.bytePos) && s.charBytes == input.Length(s.current.bytePos)
    }

    method Restore(s: Saved)
      requires input.Ok() && Good(s)
      modifies this
      ensures Valid() && Save() == s
    {
      current, start, codePoint, charBytes, firstTokenOfLine := s.current, s.start, s.codePoint, s.charBytes, s.firstTokenOfLine;
    }

    // ---- tokens -------------------------------------------------------------------------------------

    // rbs_next_token.
    method MakeToken(kind: TokenKind) returns (t: Token)
      requires Valid() && 0 <= start.bytePos <= current.bytePos
      modifies `start, `firstTokenOfLine
      ensures Valid() && start == current
      ensures t.kind == kind && t.start == old(start) && t.end == current
      ensures t.text == input.Text(old(start.bytePos), current.bytePos) && t.unquoted == input.unquote(t.text)
      ensures firstTokenOfLine == (kind == TRIVIA && old(firstTokenOfLine))
    {
      var text := input.Text(start.bytePos, current.bytePos);
      t := Token(kind, text, input.unquote(text), start, current);
      start := current;
      if kind != TRIVIA {
        firstTokenOfLine := false;
      }
    }

    // rbs_next_eof_token, at the end of the string or at a NUL inside it.
    method MakeEofToken() returns (t: Token)
      requires Valid() && start == current
      modifies `start, `firstTokenOfLine
      ensures Valid() && start == current && t.kind == EOF && t.start == t.end == current
      ensures t.text == input.Text(current.bytePos, current.bytePos) && t.unquoted == input.unquote(t.text)
    {
      assert input.Text(current.bytePos, current.bytePos) == "";
      if current.bytePos == |input.bytes| + 1 {
        t := Token(EOF, "", input.unquote(""), start, start);
        start := current;
      } else {
        t := MakeToken(EOF);
      }
    }

    // ---- trivia and comments ------------------------------------------------------------------------

    // Spaces and tabs together, line feeds and carriage returns one by one.
    method TriviaRule() returns (t: Token)
      requires Valid() && start == current && codePoint in {TAB, LF, CR, SPACE}
      modifies this
      ensures Valid() && start == current && t.kind == TRIVIA && t.start == old(current) && t.end == current
      ensures current.charPos > old(current.charPos) && current.bytePos > old(current.bytePos)
      ensures t.text == input.Text(old(current.bytePos), current.bytePos) && t.unquoted == input.unquote(t.text)
      ensures if IsBlank(old(codePoint)) then BlanksUpto(input, old(current.charPos), current.charPos)
              else current.charPos == old(current.charPos) + 1
      ensures current.line == old(current.line) + (if old(codePoint) == LF then 1 else 0)
      ensures firstTokenOfLine == (old(firstTokenOfLine) || old(codePoint) == LF)
    {
      hide Input.Ok, Input.Scan, Input.Code, Input.Length, Input.Text;
      var spaces := codePoint == TAB || codePoint == SPACE;
      ghost var n: nat := current.charPos;
      assert input.Char(n) == codePoint;
      Skip();
      while spaces && (codePoint == TAB || codePoint == SPACE)
        invariant Valid() && start == old(current)
        invariant current.charPos > old(current.charPos) && current.bytePos > old(current.bytePos)
        invariant spaces ==> forall k: nat :: n <= k < current.charPos ==> IsBlank(input.Char(k))
        invariant !spaces ==> current.charPos == n + 1
        invariant current.line == old(current.line) + (if old(codePoint) == LF then 1 else 0)
        invariant firstTokenOfLine == (old(firstTokenOfLine) || old(codePoint) == LF)
        decreases input.endPos - current.bytePos
      {
        BeforeTheEnd();
        Skip();
      }
      t := MakeToken(TRIVIA);
    }

    lemma BeforeTheEnd()
      requires Valid() && codePoint != 0
      ensures current.bytePos < input.endPos
    {}

    // Before a line feed, a byte that is a carriage return is a character of its own.
    lemma CrBefore(n: nat)
      requires input.Ok() && n > 0 && input.Char(n) == LF && input.Char(n - 1) != 0 && input.Char(n - 1) != LF
      ensures input.Scan(n).bytePos > 0
      ensures input.bytes[input.Scan(n).bytePos - 1] == 13 <==> input.Char(n - 1) == CR
      ensures input.Char(n - 1) == CR ==>
                input.Scan(n) == Position(input.Scan(n - 1).bytePos + 1, input.Scan(n - 1).charPos + 1,
                                          input.Scan(n - 1).line, input.Scan(n - 1).column + 1)
    {
      var b := input.Scan(n - 1).bytePos;
      var l := input.Length(b);
      assert input.Scan(n) == input.After(input.Scan(n - 1));
      assert input.Scan(n).bytePos == b + l;
      if l > 1 {
        assert input.bytes[b + l - 1] >= 0x20;
      }
    }

    lemma CrIsCr(n: nat)
      requires input.Ok() && n > 0 && input.Char(n - 1) == CR
      ensures input.Code(input.Scan(n - 1).bytePos) == CR && input.Length(input.Scan(n - 1).bytePos) == 1
    {}

    // A comment goes on to the end of the line, and gives the carriage return of a CRLF back.
    method CommentRule() returns (t: Token)
      requires Valid() && start == current && codePoint == HASH
      modifies this
      ensures Valid() && start == current && t.start == old(current) && t.end == current
      ensures t.kind == if old(firstTokenOfLine) then LINE_COMMENT else COMMENT
      ensures CommentUpto(input, old(current.charPos), current.charPos)
      ensures old(current.charPos) < current.charPos && current.bytePos > old(current.bytePos)
      ensures t.text == input.Text(old(current.bytePos), current.bytePos) && t.unquoted == input.unquote(t.text)
      ensures current.line == old(current.line) && !firstTokenOfLine
    {
      hide Input.Ok, Input.Scan, Input.Code, Input.Length, Input.Text;
      ghost var n: nat := current.charPos;
      SkipComment();
      ghost var e: nat := current.charPos;
      assert StopsComment(input, n, e);
      if codePoint == LF {
        StepBack(n, e);
      }
      var first := firstTokenOfLine;
      t := MakeToken(if first then LINE_COMMENT else COMMENT);
    }

    // `#` and what follows it on the line.
    method SkipComment()
      requires Valid() && codePoint == HASH
      modifies this
      ensures Valid() && start == old(start) && firstTokenOfLine == old(firstTokenOfLine) && EndsComment(codePoint)
      ensures old(current.charPos) < current.charPos && current.bytePos > old(current.bytePos)
      ensures current.line == old(current.line)
      ensures forall k: nat :: old(current.charPos) <= k < current.charPos ==> !EndsComment(input.Char(k))
    {
      ghost var n: nat := current.charPos;
      hide Input.Ok, Input.Scan, Input.Code, Input.Length;
      BeforeTheEnd();
      Skip();
      while !EndsComment(codePoint)
        invariant Valid() && start == old(start) && firstTokenOfLine == old(firstTokenOfLine)
        invariant n < current.charPos && current.bytePos > old(current.bytePos) && current.line == old(current.line)
        invariant forall k: nat :: n <= k < current.charPos ==> !EndsComment(input.Char(k))
        decreases input.endPos - current.bytePos
      {
        BeforeTheEnd();
        Skip();
      }
    }

    // The step back over the carriage return of a CRLF.
    method StepBack(ghost n: nat, ghost e: nat)
      requires Stands(e) && codePoint == LF && n < e && input.Char(n) == HASH
      requires forall k: nat :: n <= k < e ==> !EndsComment(input.Char(k))
      modifies this
      ensures Valid() && start == old(start) && firstTokenOfLine == old(firstTokenOfLine)
      ensures current.line == old(current.line)
      ensures current.charPos == if input.Char(e - 1) == CR then e - 1 else e
      ensures current.bytePos >= old(current.bytePos) - 1
      ensures n < current.charPos && current.bytePos > input.Scan(n).bytePos
    {
      hide Input.Ok, Input.Scan, Input.Code, Input.Length, Input.After, Input.Char;
      HashIsBefore(n, e);
      if input.bytes[current.bytePos - 1] == 13 {
        current := current.(bytePos := current.bytePos - 1, charPos := current.charPos - 1, column := current.column - 1);
        codePoint, charBytes := CR, 1;
      }
    }

    // Character `n` is before the carriage return that a line feed at `e` may follow.
    lemma HashIsBefore(n: nat, e: nat)
      requires Stands(e) && codePoint == LF && n < e && input.Char(n) == HASH
      requires forall k: nat :: n <= k < e ==> !EndsComment(input.Char(k))
      ensures current.bytePos > input.Scan(n).bytePos && current.bytePos - 1 < |input.bytes|
      ensures input.bytes[current.bytePos - 1] == 13 <==> input.Char(e - 1) == CR
      ensures input.Char(e - 1) == CR ==>
                var p := input.Scan(e - 1);
                && n < e - 1 && input.Scan(n).bytePos < p.bytePos && p.charPos == e - 1
                && current == Position(p.bytePos + 1, p.charPos + 1, p.line, p.column + 1)
                && input.Code(p.bytePos) == CR && input.Length(p.bytePos) == 1
    {
      assert input.Char(e) == LF;
      assert !EndsComment(input.Char(e - 1));
      CrBefore(e);
      input.ScanAdvances(n, e);
      input.ScanAdvances(n, e - 1);
      if input.Char(e - 1) == CR {
        CrIsCr(e);
      }
    }

    // ---- quoted strings -----------------------------------------------------------------------------

    // From `'` on: the longest match, or an error token of one character if there is none.
    method SingleQuotedRule() returns (t: Token)
      requires Valid() && start == current && codePoint == SQUOTE
      modifies this
      ensures Valid() && start == current && t.start == old(current) && t.end == current && !firstTokenOfLine
      ensures current.charPos > old(current.charPos) && current.bytePos > old(current.bytePos)
      ensures current.line >= old(current.line)
      ensures t.text == input.Text(old(current.bytePos), current.bytePos) && t.unquoted == input.unquote(t.text)
      ensures if t.kind == SQ_STRING then LongestSingle(input, old(current.charPos), current.charPos)
              else t.kind == ERROR_TOKEN && NoSingle(input, old(current.charPos)) && current.charPos == old(current.charPos) + 1
    {
      hide Input.Ok, Input.Scan, Input.Code, Input.Length, Input.Text, Input.After, LongestSingle, NoSingle;
      var found := ScanSingle();
      t := MakeToken(if found then SQ_STRING else ERROR_TOKEN);
    }

    // The states of the automaton after `'`; a quote after a backslash may be the last one, so the lexer is saved.
    method ScanSingle() returns (found: bool)
      requires Valid() && codePoint == SQUOTE
      modifies this
      ensures Valid() && start == old(start)
      ensures current.charPos > old(current.charPos) && current.bytePos > old(current.bytePos)
      ensures current.line >= old(current.line)
      ensures if found then LongestSingle(input, old(current.charPos), current.charPos)
              else NoSingle(input, old(current.charPos)) && current.charPos == old(current.charPos) + 1
    {
      hide Input.Ok, Input.Scan, Input.Code, Input.Length, Input.After, SingleSoFar, LongestSingle, NoSingle;
      ghost var n: nat, before := current.charPos, current;
      BeforeTheEnd();
      Skip();
      var backup, accepted := Save(), false;
      SingleQuoteOpens(n, backup);
      var escaped := false;  // right after a backslash
      while codePoint != 0
        invariant Valid() && start == old(start) && Beyond(before, Save()) && Beyond(before, backup) && backup.start == start
        invariant SingleSoFar(n, current.charPos, backup, accepted)
        invariant escaped == (current.charPos > n + 1 && input.Char(current.charPos - 1) == BACKSLASH)
        decreases input.endPos - current.bytePos
      {
        BeforeTheEnd();
        ghost var m: nat := current.charPos;
        var quote := codePoint == SQUOTE;
        if quote && !escaped {
          SingleQuoteCloses(n, m, backup, accepted);
          Skip();
          return true;
        }
        escaped := codePoint == BACKSLASH;
        Skip();
        if quote {
          SingleQuoteMayClose(n, m, backup, accepted, Save());
          backup, accepted := Save(), true;
        } else {
          SingleGoesOn(n, m, backup, accepted);
        }
      }
      SingleQuoteEnds(n, current.charPos, backup, accepted);
      Restore(backup);
      found := accepted;
    }

    // The saved lexer has read on from a position.
    static predicate Beyond(p: Position, s: Saved) {
      s.current.charPos > p.charPos && s.current.bytePos > p.bytePos && s.current.line >= p.line
    }

    // All characters since `n` can stand inside the quotes, and the longest match among them is the saved one.
    ghost predicate SingleSoFar(n: nat, m: nat, backup: Saved, accepted: bool)
      requires input.endPos <= |input.bytes|
    {
      && input.Char(n) == SQUOTE && n < m && Good(backup)
      && AllEscaped(input, n, m)
      && var b := backup.current.charPos;
         && n < b <= m && (if accepted then b >= n + 2 && input.Char(b - 1) == SQUOTE else b == n + 1)
         && forall i: nat :: b <= i < m ==> input.Char(i) != SQUOTE
    }

    lemma SingleQuoteOpens(n: nat, backup: Saved)
      requires input.endPos <= |input.bytes| && input.Char(n) == SQUOTE && Good(backup) && backup.current.charPos == n + 1
      ensures SingleSoFar(n, n + 1, backup, false)
    {}

    lemma SingleQuoteCloses(n: nat, m: nat, backup: Saved, accepted: bool)
      requires input.endPos <= |input.bytes| && SingleSoFar(n, m, backup, accepted)
      requires input.Char(m) == SQUOTE && !(m > n + 1 && input.Char(m - 1) == BACKSLASH)
      ensures LongestSingle(input, n, m + 1)
    {
      hide Input.Char, SingleQuoted;
      SingleQuotedEscapes(input, n, m + 1);
      forall e: nat | SingleQuoted(input, n, e)
        ensures e <= m + 1
      {
        SingleQuotedEscapes(input, n, e);
        assert m < e - 1 ==> Escaped(input, n, m);
      }
    }

    lemma SingleGoesOn(n: nat, m: nat, backup: Saved, accepted: bool)
      requires input.endPos <= |input.bytes| && SingleSoFar(n, m, backup, accepted)
      requires input.Char(m) != 0 && input.Char(m) != SQUOTE
      ensures SingleSoFar(n, m + 1, backup, accepted)
    {
      hide Input.Char;
    }

    lemma SingleQuoteMayClose(n: nat, m: nat, backup: Saved, accepted: bool, s: Saved)
      requires input.endPos <= |input.bytes| && SingleSoFar(n, m, backup, accepted)
      requires input.Char(m) == SQUOTE && m > n + 1 && input.Char(m - 1) == BACKSLASH
      requires Good(s) && s.current.charPos == m + 1
      ensures SingleSoFar(n, m + 1, s, true)
    {
      hide Input.Char;
    }

    lemma SingleQuoteEnds(n: nat, m: nat, backup: Saved, accepted: bool)
      requires input.endPos <= |input.bytes| && SingleSoFar(n, m, backup, accepted) && input.Char(m) == 0
      ensures Good(backup)
      ensures if accepted then LongestSingle(input, n, backup.current.charPos)
              else NoSingle(input, n) && backup.current.charPos == n + 1
    {
      hide Input.Char, SingleQuoted;
      SingleQuotedEscapes(input, n, backup.current.charPos);
      forall e: nat | SingleQuoted(input, n, e)
        ensures accepted && e <= backup.current.charPos
      {
        SingleQuotedEscapes(input, n, e);
        assert m < e - 1 ==> Escaped(input, n, m);
      }
    }

    // From `"` on: the string up to the first quote that is not escaped if all escapes before it are well-formed,
    // which is the only match there is, or an error token of one character.
    method DoubleQuotedRule() returns (t: Token)
      requires Valid() && start == current && codePoint == DQUOTE
      modifies this
      ensures Valid() && start == current && t.start == old(current) && t.end == current && !firstTokenOfLine
      ensures current.charPos > old(current.charPos) && current.bytePos > old(current.bytePos)
      ensures current.line >= old(current.line)
      ensures t.text == input.Text(old(current.bytePos), current.bytePos) && t.unquoted == input.unquote(t.text)
      ensures if t.kind == DQ_STRING then OnlyDouble(input, old(current.charPos), current.charPos)
              else t.kind == ERROR_TOKEN && NoDouble(input, old(current.charPos)) && current.charPos == old(current.charPos) + 1
    {
      hide Input.Ok, Input.Scan, Input.Code, Input.Length, Input.Text, Input.After, OnlyDouble, NoDouble;
      var found := ScanDouble();
      t := MakeToken(if found then DQ_STRING else ERROR_TOKEN);
    }

    // The states of the automaton after `"`.
    method ScanDouble() returns (found: bool)
      requires Valid() && codePoint == DQUOTE
      modifies this
      ensures Valid() && start == old(start)
      ensures current.charPos > old(current.charPos) && current.bytePos > old(current.bytePos)
      ensures current.line >= old(current.line)
      ensures if found then OnlyDouble(input, old(current.charPos), current.charPos)
              else NoDouble(input, old(current.charPos)) && current.charPos == old(current.charPos) + 1
    {
      hide Input.Ok, Input.Scan, Input.Code, Input.Length, Input.After, Shortest, Steps, OnlyDouble, NoDouble;
      ghost var n: nat, before := current.charPos, current;
      BeforeTheEnd();
      Skip();
      var backup := Save();
      NoSteps(input, n + 1);
      var ok := true;
      ghost var q: nat := n + 1;
      while ok && codePoint != 0 && codePoint != DQUOTE
        invariant Valid() && start == old(start) && Beyond(before, Save())
        invariant n < q && Steps(input, n + 1, q)
        invariant if ok then q == current.charPos else Shortest(input, q) == 0 && input.Char(q) != DQUOTE
        decreases ok, input.endPos - current.bytePos
      {
        BeforeTheEnd();
        OneMoreStep(input, n + 1, q);
        ok := SkipItem(q);
        q := if ok then current.charPos else q;
      }
      StepsEnd(n, q);
      found := ok && codePoint == DQUOTE;
      if found {
        Skip();
      } else {
        Restore(backup);
      }
    }

    lemma StepsEnd(n: nat, q: nat)
      requires input.endPos <= |input.bytes| && input.Char(n) == DQUOTE && n < q && Steps(input, n + 1, q)
      requires Shortest(input, q) == 0 || input.Char(q) == 0 || input.Char(q) == DQUOTE
      ensures if input.Char(q) == DQUOTE then OnlyDouble(input, n, q + 1) else NoDouble(input, n)
    {
      StepsAreItems(input, n + 1, q);
      hide Input.Char, DoubleItem, DoubleItems, Steps;
      forall e: nat | DoubleQuoted(input, n, e)
        ensures e == q + 1 && input.Char(q) == DQUOTE
      {
        StepsDecide(input, n, q, e);
      }
    }

    // One alternative inside double quotes; false if an escape is malformed.
    method SkipItem(ghost q: nat) returns (ok: bool)
      requires Stands(q) && codePoint != 0 && codePoint != DQUOTE
      modifies this
      ensures Valid() && start == old(start) && current.bytePos > old(current.bytePos) && current.line >= old(current.line)
      ensures current.charPos > q
      ensures ok == (Shortest(input, q) > 0) && (ok ==> current.charPos == q + Shortest(input, q))
    {
      hide Input.Ok, Input.Scan, Input.Code, Input.Length, Input.After, DoubleItem;
      var c := codePoint;
      assert input.Char(q) == c;
      Skip();
      if c != BACKSLASH {
        return true;
      }
      assert input.Char(q + 1) == codePoint;
      if codePoint == LOWER_U {
        Skip();
        ghost var h: nat := current.charPos;
        ok := SkipHex(4);
        assert (forall k: nat :: h <= k < h + 4 ==> IsHex(input.Char(k)))
            == (IsHex(input.Char(h)) && IsHex(input.Char(h + 1)) && IsHex(input.Char(h + 2)) && IsHex(input.Char(h + 3)));
      } else if codePoint == LOWER_X {
        Skip();
        ok := SkipHex(1);
      } else {
        ok := codePoint != 0;
        Skip();
      }
    }

    // Up to `count` hexadecimal digits; whether there are as many.
    method SkipHex(count: nat) returns (ok: bool)
      requires Valid() && count <= 4
      modifies this
      ensures Valid() && start == old(start) && current.bytePos >= old(current.bytePos) && current.line >= old(current.line)
      ensures old(current.charPos) <= current.charPos
      ensures ok == forall k: nat :: old(current.charPos) <= k < old(current.charPos) + count ==> IsHex(input.Char(k))
      ensures ok ==> current.charPos == old(current.charPos) + count
    {
      hide Input.Ok, Input.Scan, Input.Code, Input.Length, Input.After;
      ghost var m: nat := current.charPos;
      var i := 0;
      while i < count
        invariant Valid() && start == old(start) && i <= count && current.charPos == m + i
        invariant current.bytePos >= old(current.bytePos) && current.line >= old(current.line)
        invariant forall k: nat :: m <= k < m + i ==> IsHex(input.Char(k))
      {
        if !IsHex(codePoint) {
          assert !IsHex(input.Char(m + i));
          return false;
        }
        assert IsHex(input.Char(m + i));
        Skip();
        i := i + 1;
      }
      ok := true;
    }

    // ---- the token loop -----------------------------------------------------------------------------

    lemma OtherKind(b: nat)
      requires input.Ok()
      ensures input.other(b).0 !in {EOF, TRIVIA, COMMENT, LINE_COMMENT, SQ_STRING, DQ_STRING}
    {}

    lemma OtherFound(n: nat, e: nat)
      requires input.endPos <= |input.bytes| && input.Char(n) != 0
      requires var l := input.other(input.Scan(n).bytePos).1; n < e <= n + 1 + l && (e < n + 1 + l ==> input.Char(e) == 0)
      requires forall k: nat :: n + 1 <= k < e ==> input.Char(k) != 0
      ensures OtherUpto(input, n, e)
    {
      hide Input.Char, Input.Scan;
    }

    // So many characters, or up to a NUL or the end.
    method SkipMore(count: nat)
      requires Valid()
      modifies this
      ensures Valid() && start == old(start)
      ensures old(current.charPos) <= current.charPos <= old(current.charPos) + count
      ensures current.bytePos >= old(current.bytePos) && current.line >= old(current.line)
      ensures current.charPos < old(current.charPos) + count ==> codePoint == 0
      ensures forall k: nat :: old(current.charPos) <= k < current.charPos ==> input.Char(k) != 0
    {
      hide Input.Ok, Input.Scan, Input.Code, Input.Length, Input.After;
      var i := 0;
      ghost var n: nat := current.charPos;
      while i < count
        invariant Valid() && start == old(start) && i <= count && n <= current.charPos <= n + i
        invariant current.bytePos >= old(current.bytePos) && current.line >= old(current.line)
        invariant forall k: nat :: n <= k < current.charPos ==> input.Char(k) != 0
        invariant current.charPos < n + i ==> codePoint == 0
      {
        Skip();
        i := i + 1;
      }
    }

    // Any of the rules that are not spelled out: at least one character.
    method OtherRule() returns (t: Token)
      requires Valid() && start == current && codePoint != 0
      modifies this
      ensures Valid() && start == current && t.start == old(current) && t.end == current && !firstTokenOfLine
      ensures t.kind !in {EOF, TRIVIA, COMMENT, LINE_COMMENT, SQ_STRING, DQ_STRING}
      ensures t.kind == input.other(old(current.bytePos)).0 && OtherUpto(input, old(current.charPos), current.charPos)
      ensures current.charPos > old(current.charPos) && current.bytePos > old(current.bytePos)
      ensures t.text == input.Text(old(current.bytePos), current.bytePos) && t.unquoted == input.unquote(t.text)
      ensures current.line >= old(current.line)
    {
      OtherKind(current.bytePos);
      hide Input.Ok, Input.Scan, Input.Code, Input.Length, Input.Text, Input.After, OtherUpto;
      var rule := input.other(current.bytePos);
      ghost var n: nat := current.charPos;
      assert input.Char(n) == codePoint && input.Scan(n) == current;
      Skip();
      SkipMore(rule.1);
      OtherFound(n, current.charPos);
      t := MakeToken(rule.0);
    }

    // A control character, or a semicolon.
    method ErrorRule() returns (t: Token)
      requires Valid() && start == current && codePoint != 0 && codePoint != LF
      modifies this
      ensures Valid() && start == current && t.start == old(current) && t.end == current && !firstTokenOfLine
      ensures t.kind == ERROR_TOKEN && current.charPos == old(current.charPos) + 1 && current.bytePos > old(current.bytePos)
      ensures t.text == input.Text(old(current.bytePos), current.bytePos) && t.unquoted == input.unquote(t.text)
      ensures current.line == old(current.line)
    {
      Skip();
      t := MakeToken(ERROR_TOKEN);
    }

    // rbs_lexer_next_token: the token begins where the last one ended; it is at least one character, except at the
    // end or at a NUL, where nothing is read and nothing will be.
    method NextToken() returns (t: Token)
      requires Valid() && start == current
      modifies this
      ensures Valid() && start == current && t.start == old(current) && t.end == current
      ensures t.kind == EOF <==> old(codePoint) == 0
      ensures t.kind == EOF ==> current == old(current) && codePoint == 0
      ensures t.kind != EOF ==> current.charPos > old(current.charPos) && current.bytePos > old(current.bytePos)
      ensures current.line >= old(current.line)
      ensures Lexed(input, t, old(firstTokenOfLine))
      ensures old(codePoint) == SQUOTE ==>
                if t.kind == SQ_STRING then LongestSingle(input, old(current.charPos), current.charPos)
                else t.kind == ERROR_TOKEN && NoSingle(input, old(current.charPos)) && current.charPos == old(current.charPos) + 1
      ensures old(codePoint) == DQUOTE ==>
                if t.kind == DQ_STRING then OnlyDouble(input, old(current.charPos), current.charPos)
                else t.kind == ERROR_TOKEN && NoDouble(input, old(current.charPos)) && current.charPos == old(current.charPos) + 1
      ensures old(codePoint) == HASH ==>
                && t.kind == (if old(firstTokenOfLine) then LINE_COMMENT else COMMENT)
                && CommentUpto(input, old(current.charPos), current.charPos) && current.line == old(current.line)
      ensures old(codePoint) == LF || old(codePoint) == CR ==> t.kind == TRIVIA && current.charPos == old(current.charPos) + 1
      ensures IsBlank(old(codePoint)) ==> t.kind == TRIVIA && BlanksUpto(input, old(current.charPos), current.charPos)
      ensures t.kind == SQ_STRING ==> old(codePoint) == SQUOTE
      ensures t.kind == DQ_STRING ==> old(codePoint) == DQUOTE
      ensures t.kind == LINE_COMMENT || t.kind == COMMENT ==> old(codePoint) == HASH
      ensures t.kind == TRIVIA ==> old(codePoint) in {TAB, LF, CR, SPACE}
      ensures t.kind != EOF ==>
                firstTokenOfLine == (t.kind == TRIVIA && (old(firstTokenOfLine) || current.line > old(current.line)))
    {
      hide Input.Ok, Input.Scan, Input.Code, Input.Length, Input.Text, Input.After, LongestSingle, NoSingle,
        OnlyDouble, NoDouble, CommentUpto, BlanksUpto, OtherUpto;
      var c := codePoint;
      ghost var n: nat := current.charPos;
      assert input.Char(n) == c && input.Scan(n) == current && 0 <= current.bytePos;
      if c == 0 {
        Skip();
        t := MakeEofToken();
      } else if c in {TAB, LF, CR, SPACE} {
        t := TriviaRule();
      } else if c < SPACE || c == SEMICOLON {
        t := ErrorRule();
      } else if c == HASH {
        t := CommentRule();
      } else if c == DQUOTE {
        t := DoubleQuotedRule();
      } else if c == SQUOTE {
        t := SingleQuotedRule();
      } else {
        t := OtherRule();
      }
    }

    // All tokens up to the first end-of-file token, which is the loop that drives the parser's window.
    method Tokenize() returns (tokens: seq<Token>, eof: Token)
      requires Valid() && start == current
      modifies this
      ensures eof.kind == EOF && eof.start == eof.end && forall t <- tokens :: t.kind != EOF
      ensures Tiles(tokens, old(current), eof.start) && CommentsApart(tokens)
      ensures old(firstTokenOfLine) ==> AllLexed(input, tokens) && input.Char(eof.start.charPos) == 0
    {
      hide Input.Ok, Input.Scan, Input.Code, Input.Length, Input.After, Lexed;
      tokens := [];
      eof := NULL_TOKEN;
      while eof.kind != EOF
        invariant Valid() && start == current
        invariant forall t <- tokens :: t.kind != EOF
        invariant Tiles(tokens, old(current), current) && CommentsApart(tokens)
        invariant old(firstTokenOfLine) ==> AllLexed(input, tokens)
        invariant eof.kind != EOF && firstTokenOfLine ==> LaterThan(tokens, current.line)
        invariant eof.kind != EOF && old(firstTokenOfLine) && LaterThan(tokens, current.line) ==> firstTokenOfLine
        invariant eof.kind == EOF ==> codePoint == 0
        invariant forall t <- tokens :: t.end.line <= current.line
        invariant eof.kind == EOF ==> eof.start == eof.end == current
        decreases eof.kind != EOF, if input.endPos > current.bytePos then input.endPos - current.bytePos else 0
      {
        ghost var before := current;
        if codePoint != 0 {
          BeforeTheEnd();
        }
        var t := NextToken();
        if t.kind == EOF {
          eof := t;
        } else {
          OneMoreToken(tokens, t, old(current), before);
          tokens := tokens + [t];
        }
      }
    }
  }

  // Tokens one after the other without a gap from one position to another, each at least one byte and character.
  ghost predicate Tiles(tokens: seq<Token>, from: Position, to: Position) {
    if tokens == [] then from == to
    else
      var last := tokens[|tokens| - 1];
      && Tiles(tokens[..|tokens| - 1], from, last.start) && last.end == to
      && last.start.charPos < to.charPos && last.start.bytePos < to.bytePos && last.start.line <= to.line
  }

  // Every token is the one its first character calls for; it is the first of its line if none but trivia ends there
  // before it.
  ghost predicate AllLexed(input: Input, tokens: seq<Token>)
    requires input.endPos <= |input.bytes|
  {
    forall j :: 0 <= j < |tokens| ==> Lexed(input, tokens[j], LaterThan(tokens[..j], tokens[j].start.line))
  }

  // A line comment is on one line, and below everything but trivia that comes before it.
  ghost predicate CommentsApart(tokens: seq<Token>) {
    forall j :: 0 <= j < |tokens| && tokens[j].kind == LINE_COMMENT ==>
      tokens[j].end.line == tokens[j].start.line && LaterThan(tokens[..j], tokens[j].start.line)
  }

  ghost predicate LaterThan(tokens: seq<Token>, line: int) {
    forall t <- tokens :: t.kind != TRIVIA ==> t.end.line < line
  }

  lemma OneMoreToken(tokens: seq<Token>, t: Token, from: Position, at: Position)
    requires Tiles(tokens, from, at) && CommentsApart(tokens) && t.start == at
    requires t.start.charPos < t.end.charPos && t.start.bytePos < t.end.bytePos && t.start.line <= t.end.line
    requires t.kind == LINE_COMMENT ==> t.end.line == t.start.line && LaterThan(tokens, t.start.line)
    ensures Tiles(tokens + [t], from, t.end) && CommentsApart(tokens + [t])
  {
    var longer := tokens + [t];
    assert longer[..|tokens|] == tokens;
    forall j | 0 <= j < |tokens|
      ensures longer[..j] == tokens[..j]
    {}
  }

  // Character number `n` begins where the input starts.
  ghost predicate StartsAt(input: Input, n: nat)
    requires input.endPos <= |input.bytes|
  {
    input.Scan(n).bytePos == input.startPos
  }

  lemma Missed(input: Input, n: nat)
    requires input.endPos <= |input.bytes|
    requires forall k: nat :: k < n ==> input.Scan(k).bytePos < input.startPos
    requires input.Scan(n).bytePos >= input.startPos || input.Char(n) == 0
    ensures StartsAt(input, n) || forall k: nat :: !StartsAt(input, k)
  {
    forall k: nat
      ensures StartsAt(input, n) || !StartsAt(input, k)
    {
      if k > n {
        input.ScanAdvances(n, k);
        input.ScanCounts(k);
      }
    }
  }

  // rbs_lexer_new: NULL exactly if the start is not at the beginning of a character that can be reached before a
  // NUL or the end of the input.
  method NewLexer(input: Input) returns (lexer: Option<Lexer>)
    requires input.Ok()
    ensures lexer.Some? <==> exists n: nat :: StartsAt(input, n)
    ensures lexer.Some? ==>
              fresh(lexer.value) && lexer.value.Valid() && lexer.value.input == input
              && lexer.value.current.bytePos == input.startPos && lexer.value.start == lexer.value.current
              && lexer.value.firstTokenOfLine
  {
    var l := new Lexer(input);
    l.Walk();
    ghost var n: nat := l.current.charPos;
    Missed(input, n);
    if l.current.bytePos != input.startPos {
      assert !StartsAt(input, n);
      return None;
    }
    assert StartsAt(input, n);
    l.start := l.current;
    lexer := Some(l);
  }
}
