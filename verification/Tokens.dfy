/** Tokens as the lexer hands them to the parser (include/rbs/lexer.h), and the stream the parser reads. */
module Tokens {

  datatype Option<+T> = None | Some(value: T)

  // Only `bytePos` (or `charPos`) is primary; the other fields cache a full scan of the text before it.
  datatype Position = Position(bytePos: int, charPos: int, line: int, column: int)

  // `enum RBSTokenType` with its numbers: punctuation, Kw... for k..., and the t... classes.
  newtype TokenKind = n: int | 0 <= n < 88

  const NULL_TYPE: TokenKind := 0
  const EOF: TokenKind := 1
  const ERROR_TOKEN: TokenKind := 2
  const LPAREN: TokenKind := 3
  const RPAREN: TokenKind := 4
  const COLON: TokenKind := 5
  const COLON2: TokenKind := 6
  const LBRACKET: TokenKind := 7
  const RBRACKET: TokenKind := 8
  const LBRACE: TokenKind := 9
  const RBRACE: TokenKind := 10
  const HAT: TokenKind := 11
  const ARROW: TokenKind := 12
  const FAT_ARROW: TokenKind := 13
  const COMMA: TokenKind := 14
  const BAR: TokenKind := 15
  const AMP: TokenKind := 16
  const STAR: TokenKind := 17
  const STAR2: TokenKind := 18
  const DOT: TokenKind := 19
  const DOT3: TokenKind := 20
  const BANG: TokenKind := 21
  const QUESTION: TokenKind := 22
  const LT: TokenKind := 23
  const GT: TokenKind := 24
  const EQ: TokenKind := 25
  const KW_ALIAS: TokenKind := 26
  const KW_ATTR_ACCESSOR: TokenKind := 27
  const KW_ATTR_READER: TokenKind := 28
  const KW_ATTR_WRITER: TokenKind := 29
  const KW_BOOL: TokenKind := 30
  const KW_BOT: TokenKind := 31
  const KW_CLASS: TokenKind := 32
  const KW_CLASS_ALIAS: TokenKind := 33
  const KW_DEF: TokenKind := 34
  const KW_END: TokenKind := 35
  const KW_EXTEND: TokenKind := 36
  const KW_FALSE: TokenKind := 37
  const KW_IN: TokenKind := 38
  const KW_INCLUDE: TokenKind := 39
  const KW_INSTANCE: TokenKind := 40
  const KW_INTERFACE: TokenKind := 41
  const KW_MODULE: TokenKind := 42
  const KW_MODULE_ALIAS: TokenKind := 43
  const KW_NIL: TokenKind := 44
  const KW_OUT: TokenKind := 45
  const KW_PREPEND: TokenKind := 46
  const KW_PRIVATE: TokenKind := 47
  const KW_PUBLIC: TokenKind := 48
  const KW_SELF: TokenKind := 49
  const KW_SINGLETON: TokenKind := 50
  const KW_TOP: TokenKind := 51
  const KW_TRUE: TokenKind := 52
  const KW_TYPE: TokenKind := 53
  const KW_UNCHECKED: TokenKind := 54
  const KW_UNTYPED: TokenKind := 55
  const KW_VOID: TokenKind := 56
  const KW_USE: TokenKind := 57
  const KW_AS: TokenKind := 58
  const KW_TODO: TokenKind := 59
  const KW_AT_RBS: TokenKind := 60
  const KW_SKIP: TokenKind := 61
  const KW_RETURN: TokenKind := 62
  const KW_MODULE_SELF: TokenKind := 63
  const LIDENT: TokenKind := 64
  const UIDENT: TokenKind := 65
  const ULIDENT: TokenKind := 66
  const ULLIDENT: TokenKind := 67
  const NON_ASCII_IDENT: TokenKind := 68
  const GIDENT: TokenKind := 69
  const AIDENT: TokenKind := 70
  const A2IDENT: TokenKind := 71
  const BANG_IDENT: TokenKind := 72
  const EQ_IDENT: TokenKind := 73
  const QIDENT: TokenKind := 74
  const AREF_OPR: TokenKind := 75
  const OPERATOR: TokenKind := 76
  const COMMENT: TokenKind := 77
  const LINE_COMMENT: TokenKind := 78
  const INLINE_COMMENT: TokenKind := 79
  const TRIVIA: TokenKind := 80
  const DQ_STRING: TokenKind := 81
  const SQ_STRING: TokenKind := 82
  const INTEGER: TokenKind := 83
  const SYMBOL: TokenKind := 84
  const DQ_SYMBOL: TokenKind := 85
  const SQ_SYMBOL: TokenKind := 86
  const ANNOTATION: TokenKind := 87

  // `text` is the source between `start` and `end`; `unquoted` is what rbs_unquote_string makes of that
  // text (of the text after the colon, for a quoted symbol).
  datatype Token = Token(kind: TokenKind, text: string, unquoted: string, start: Position, end: Position)

  const ZERO := Position(0, 0, 0, 0)
  const NULL_TOKEN := Token(NULL_TYPE, "", "", ZERO, ZERO)

  // What the parser sees: the significant tokens, then the end-of-file token for ever.
  datatype Stream = Stream(toks: seq<Token>, eof: Token) {

    function At(i: nat): Token {
      if i < |toks| then toks[i] else eof
    }

    function Kind(i: nat): TokenKind {
      if i < |toks| then toks[i].kind else EOF
    }

    // The current token when `i` is the index of the next one.
    function Current(i: nat): Token {
      if i == 0 then NULL_TOKEN else At(i - 1)
    }

    // Nothing, not even a space, between token `i` and the one after it.
    predicate Touching(i: nat) {
      At(i).end.bytePos == At(i + 1).start.bytePos
    }

    // Tokens not read yet; the measure that makes the parser terminate although the end-of-file token stays in the window.
    function Left(i: nat): nat {
      if i < |toks| then |toks| - i else 0
    }
  }

  // Tokens follow one another without overlap, and every one of them is at least one character wide.
  ghost predicate Ordered(s: Stream) {
    && (forall i :: 0 <= i < |s.toks| ==>
          0 <= s.toks[i].start.charPos < s.toks[i].end.charPos && s.toks[i].start.bytePos < s.toks[i].end.bytePos)
    && (forall i, j :: 0 <= i < j < |s.toks| ==>
          s.toks[i].end.charPos <= s.toks[j].start.charPos && s.toks[i].end.bytePos <= s.toks[j].start.bytePos)
  }

  // KEYWORD_CASES of the parser.
  predicate IsReservedWord(k: TokenKind) {
    || k == KW_BOOL || k == KW_BOT || k == KW_CLASS || k == KW_FALSE || k == KW_INSTANCE || k == KW_INTERFACE || k == KW_NIL
    || k == KW_SELF || k == KW_SINGLETON || k == KW_TOP || k == KW_TRUE || k == KW_VOID || k == KW_TYPE || k == KW_UNCHECKED
    || k == KW_IN || k == KW_OUT || k == KW_END || k == KW_DEF || k == KW_INCLUDE || k == KW_EXTEND || k == KW_PREPEND
    || k == KW_ALIAS || k == KW_MODULE || k == KW_ATTR_READER || k == KW_ATTR_WRITER || k == KW_ATTR_ACCESSOR || k == KW_PUBLIC
    || k == KW_PRIVATE || k == KW_UNTYPED || k == KW_USE || k == KW_AS || k == KW_TODO || k == KW_SKIP || k == KW_RETURN
  }

  // is_keyword_token: tokens that can name a keyword, a record field or a parameter.
  predicate IsKeywordToken(k: TokenKind) {
    || k == LIDENT || k == UIDENT || k == ULIDENT || k == ULLIDENT || k == NON_ASCII_IDENT || k == QIDENT || k == BANG_IDENT
    || IsReservedWord(k)
  }
}
