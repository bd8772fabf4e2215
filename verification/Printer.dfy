/** How types are written: `to_s` of lib/rbs/types.rb, as the tokens its result consists of. */
module Printer {
  import opened Ast
  import opened Containers
  import opened Grammar
  import opened Tokens

  // A token of the text. A name, a keyword or a literal may be any token that stands for it, and with `fix` a
  // parameter name too; a glued token touches the one before it.
  datatype Lexeme = Lexeme(body: Body, glued: bool)

  datatype Body =
    | Mark(kind: TokenKind)
    | NameMark(nameKind: NameKind, name: string)
    | KeyMark(key: string)
    | ParamMark(param: string)
    | WordMark(word: string)
    | QuotedMark(quoted: string)
    | LiteralMark(lit: Literal)
    | Spelled(spelledKind: TokenKind, spelling: string)
    | MethodMark(methodName: string, selfToo: bool, wordOnly: bool)
    | NoteMark(note: string)
    | Placed(placedKind: TokenKind, place: Place)
    | Anything

  // Where a token stands: on the same line as the next one or not, away from the one before, or right after it.
  datatype Place = Beside | Alone | Parted | Close

  // The tokens of a text; of two texts either may be chosen.
  datatype Text = End | More(head: Lexeme, tail: Text) | Either(one: Text, other: Text)

  // rbs_unquote_string of what stands between two backticks.
  function Unescaped(s: string): string {
    if s == "" then ""
    else if Escapes(s) then [s[1]] + Unescaped(s[2..])
    else [s[0]] + Unescaped(s[1..])
  }

  // A backslash before a quote or another backslash.
  predicate Escapes(s: string) {
    |s| > 1 && s[0] == '\\' && (s[1] == '\'' || s[1] == '\\')
  }

  // What the lexer takes for one token when it stands between backticks.
  predicate Quotable(n: string) {
    n != "" && n[0] != ' ' && n[0] != ':' && forall c <- n :: c != '`' && c != '\0'
  }

  // The tokens a name can end with: class names begin with an upper-case letter, interface names with an underscore and
  // one, and alias names with a lower-case letter, among the keywords only `skip` and `return`.
  predicate NamesA(k: TokenKind, kind: NameKind) {
    match kind
    case ClassName => k == UIDENT
    case InterfaceName => k == ULIDENT
    case AliasName => k in {LIDENT, KW_SKIP, KW_RETURN}
  }

  // Identifiers, those between backticks and those with a `!` too, and every keyword without a `-` or `@` in it.
  predicate IsWordLike(k: TokenKind) {
    || (KW_ALIAS <= k <= KW_MODULE_SELF && k !in {KW_CLASS_ALIAS, KW_MODULE_ALIAS, KW_MODULE_SELF, KW_AT_RBS})
    || LIDENT <= k <= NON_ASCII_IDENT
    || k in {BANG_IDENT, QIDENT}
  }

  // How a literal can be written: symbols after a colon or quoted, strings in single or double quotes.
  predicate StandsFor(t: Token, l: Literal) {
    match l
    case BoolLit(b) => t.kind == if b then KW_TRUE else KW_FALSE
    case IntegerLit(n) => t.kind == INTEGER && t.text == n
    case SymbolLit(x) => (t.kind == SYMBOL && t.text == ":" + x) || (t.kind in {SQ_SYMBOL, DQ_SYMBOL} && t.unquoted == x)
    case StringLit(x) => t.kind in {SQ_STRING, DQ_STRING} && t.unquoted == x
  }

  // The tokens a method can be named with: any word, operators and quoted names. `self` can be taken for something else,
  // and only plain words can have a `?` after them.
  predicate NamesMethod(t: Token, name: string, selfToo: bool, wordOnly: bool) {
    && (selfToo || t.kind != KW_SELF)
    && if t.kind == QIDENT then !wordOnly && t.unquoted == name
       else
         && t.text == name
         && (|| (IsWordLike(t.kind) && t.kind != BANG_IDENT)
             || (!wordOnly && t.kind in {BANG_IDENT, EQ_IDENT, BAR, HAT, AMP, STAR, STAR2, LT, GT, AREF_OPR, OPERATOR}))
  }

  predicate IsBlank(c: char) {
    c in {' ', '\t', '\n', '\r', 11 as char, 12 as char}
  }

  predicate AllBlank(x: string) {
    forall c <- x :: IsBlank(c)
  }

  function Closing(open: char): char {
    if open == '{' then '}' else if open == '(' then ')' else if open == '[' then ']' else if open == '<' then '>' else open
  }

  // `%a{note}` with any of the five pairs of brackets, and white space in them that does not count.
  ghost predicate StandsForNote(t: Token, note: string) {
    && t.kind == ANNOTATION && |t.text| > 3 && t.text[..2] == "%a" && t.text[2] in {'{', '(', '[', '<', '|'}
    && t.text[|t.text| - 1] == Closing(t.text[2])
    && (note != "" ==> !IsBlank(note[0]) && !IsBlank(note[|note| - 1]))
    && exists before, after :: AllBlank(before) && AllBlank(after) && t.text[3..|t.text| - 1] == before + note + after
  }

  predicate StandsAt(s: Stream, i: nat, place: Place)
    requires i < |s.toks|
  {
    match place
    case Beside => s.At(i + 1).start.line == s.toks[i].start.line
    case Alone => s.At(i + 1).start.line != s.toks[i].start.line
    case Parted => i > 0 ==> !s.Touching(i - 1)
    case Close => i > 0 && s.toks[i - 1].end.charPos == s.toks[i].start.charPos
  }

  ghost predicate Fits(x: Lexeme, s: Stream, i: nat) {
    && i < |s.toks|
    && (x.glued ==> i > 0 && s.Touching(i - 1))
    && match x.body {
         case Mark(k) => s.toks[i].kind == k && k != EOF
         case NameMark(k, n) => NamesA(s.toks[i].kind, k) && s.toks[i].text == n
         case KeyMark(k) => IsWordLike(s.toks[i].kind) && s.toks[i].text == k
         case ParamMark(n) => IsWordLike(s.toks[i].kind) && s.toks[i].unquoted == n
         case WordMark(w) => IsWordLike(s.toks[i].kind) && s.toks[i].text == w && s.toks[i].unquoted == w
         case QuotedMark(n) =>
           && Quotable(n)
           && s.toks[i].kind == QIDENT && s.toks[i].text == "`" + n + "`" && s.toks[i].unquoted == Unescaped(n)
         case LiteralMark(l) => StandsFor(s.toks[i], l)
         case Spelled(k, t) => s.toks[i].kind == k && k != EOF && s.toks[i].text == t
         case MethodMark(n, selfToo, wordOnly) => NamesMethod(s.toks[i], n, selfToo, wordOnly)
         case NoteMark(n) => StandsForNote(s.toks[i], n)
         case Placed(k, place) => s.toks[i].kind == k && k != EOF && StandsAt(s, i, place)
         case Anything => true
       }
  }

  // The stream from token `i` on spells the text, to the very end.
  ghost predicate Spells(s: Stream, i: nat, x: Text)
    decreases x
  {
    match x
    case End => i == |s.toks|
    case More(h, t) => Fits(h, s, i) && Spells(s, i + 1, t)
    case Either(x, y) => Spells(s, i, x) || Spells(s, i, y)
  }

  function Put(k: TokenKind, rest: Text): Text {
    More(Lexeme(Mark(k), false), rest)
  }

  function PutGlued(k: TokenKind, rest: Text): Text {
    More(Lexeme(Mark(k), true), rest)
  }

  // The token at the end of a list, where `comma` says so perhaps with a comma before it.
  function Closed(k: TokenKind, comma: bool, rest: Text): Text {
    if comma then Either(Put(COMMA, Put(k, rest)), Put(k, rest)) else Put(k, rest)
  }

  function PutBody(b: Body, rest: Text): Text {
    More(Lexeme(b, false), rest)
  }

  // The components of the path from `n` on, each touching the `::` after it and what follows that.
  function PathText(n: TypeName, j: nat, glued: bool, rest: Text): (r: Text)
    ensures r.More? && r.head.glued == glued && r.head.body.NameMark?
    decreases |n.path| - j
  {
    if j < |n.path|
    then More(Lexeme(NameMark(ClassName, n.path[j]), glued), PutGlued(COLON2, PathText(n, j + 1, true, rest)))
    else More(Lexeme(NameMark(n.kind, n.name), glued), rest)
  }

  function NameText(n: TypeName, rest: Text): Text {
    if n.absolute then Put(COLON2, PathText(n, 0, true, rest)) else PathText(n, 0, false, rest)
  }

  function KeywordOf(b: BaseKind): TokenKind {
    match b
    case BoolBase => KW_BOOL
    case BottomBase => KW_BOT
    case ClassBase => KW_CLASS
    case InstanceBase => KW_INSTANCE
    case NilBase => KW_NIL
    case SelfBase => KW_SELF
    case TopBase => KW_TOP
    case VoidBase => KW_VOID
    case AnyBase => KW_UNTYPED
    case TodoBase => KW_TODO
  }

  // The level of a union's member. Ruby raises it for intersections, which `&` binding tighter than `|` makes
  // unnecessary, and not for unions; with `fix` it is the other way round.
  function MemberLevel(t: Type, fix: bool): nat {
    if fix then (if t.Union? then 1 else 0) else if t.Intersection? then 1 else 0
  }

  // Whether the type under a `?` has parentheses of its own: Ruby gives them to procs only. With `fix`, an optional
  // directly inside an optional has them too, and a proc needs none if its return type ends in a `?` already.
  predicate Wrapped(t: Type, fix: bool) {
    if fix then t.OptionalType? || (t.Proc? && !t.fn.ret.OptionalType?) else t.Proc?
  }

  // `to_s(level)`, followed by `rest`. With `fix` there is every choice the grammar leaves: a comma after the last
  // element of a list, `[]` in one token, no parentheses around no parameters.
  function TypeText(t: Type, level: nat, fix: bool, rest: Text): Text
    decreases t, 1
  {
    if level > 0 && (t.Union? || t.Intersection?)
    then Put(LPAREN, BareText(t, fix, Put(RPAREN, rest)))
    else BareText(t, fix, rest)
  }

  function BareText(t: Type, fix: bool, rest: Text): Text
    decreases t, 0
  {
    match t
    case Base(b, _) => Put(KeywordOf(b), rest)
    case Variable(x, _) => PutBody(NameMark(ClassName, x), rest)
    case LiteralType(l, _) => PutBody(LiteralMark(l), rest)
    case Application(n, args, _, _, _) => NameText(n, ArgsText(args, fix, rest))
    case Singleton(n, args, _, _, _) =>
      Put(KW_SINGLETON, Put(LPAREN, NameText(n, Put(RPAREN, ArgsText(args, fix, rest)))))
    case Tuple(ts, _) =>
      var brackets := Put(LBRACKET, ListText(ts, 0, fix, Closed(RBRACKET, fix && ts != [], rest)));
      if fix && ts == [] then Either(Put(AREF_OPR, rest), brackets) else brackets
    case Record(fs, _) => Put(LBRACE, FieldsText(fs, 0, fix, Closed(RBRACE, fix && fs != [], rest)))
    case OptionalType(u, _) =>
      if Wrapped(u, fix)
      then Put(LPAREN, TypeText(u, 1, fix, Put(RPAREN, Put(QUESTION, rest))))
      else TypeText(u, 1, fix, Put(QUESTION, rest))
    case Union(ts, _) => UnionText(ts, 0, fix, rest)
    case Intersection(ts, _) => IntersectionText(ts, 0, fix, rest)
    case Proc(f, b, self, _) =>
      Put(HAT, ParensText(f, fix, SelfText(self, fix, BlockText(b, fix, Put(ARROW, TypeText(f.ret, 1, fix, rest))))))
  }

  function ArgsText(args: seq<Type>, fix: bool, rest: Text): Text
    decreases args, 1
  {
    if args == [] then rest else Put(LBRACKET, ListText(args, 0, fix, Closed(RBRACKET, fix, rest)))
  }

  // The types from index `n` on, joined by commas.
  function ListText(ts: seq<Type>, n: nat, fix: bool, rest: Text): Text
    decreases ts, 0, |ts| - n
  {
    if n >= |ts| then rest
    else TypeText(ts[n], 0, fix, if n + 1 < |ts| then Put(COMMA, ListText(ts, n + 1, fix, rest)) else rest)
  }

  function UnionText(ts: seq<Type>, n: nat, fix: bool, rest: Text): Text
    decreases ts, 0, |ts| - n
  {
    if n >= |ts| then rest
    else TypeText(ts[n], MemberLevel(ts[n], fix), fix,
                  if n + 1 < |ts| then Put(BAR, UnionText(ts, n + 1, fix, rest)) else rest)
  }

  function IntersectionText(ts: seq<Type>, n: nat, fix: bool, rest: Text): Text
    decreases ts, 0, |ts| - n
  {
    if n >= |ts| then rest
    else TypeText(ts[n], 2, fix, if n + 1 < |ts| then Put(AMP, IntersectionText(ts, n + 1, fix, rest)) else rest)
  }

  // A key that looks like an identifier is written `key:`, any other one as a literal and `=>`.
  predicate IsPlainKey(k: Literal) {
    k.SymbolLit? && k.sym != "" && (IsLetter(k.sym[0]) || k.sym[0] == '_')
    && forall c <- k.sym :: IsLetter(c) || c == '_' || IsDigit(c)
  }

  predicate IsLetter(c: char) {
    'a' <= c <= 'z' || 'A' <= c <= 'Z'
  }

  function FieldsText(fs: Fields, n: nat, fix: bool, rest: Text): Text
    decreases fs, 0, |fs| - n
  {
    if n >= |fs| then rest
    else
      var next := if n + 1 < |fs| then Put(COMMA, FieldsText(fs, n + 1, fix, rest)) else rest;
      var field := FieldText(fs[n], fix, next);
      if fs[n].value.required then field else Put(QUESTION, field)
  }

  function FieldText(f: Entry<Literal, FieldType>, fix: bool, rest: Text): Text
    decreases f
  {
    if IsPlainKey(f.key)
    then PutBody(KeyMark(f.key.sym), PutGlued(COLON, FieldTypeText(f.value, fix, rest)))
    else PutBody(LiteralMark(f.key), Put(FAT_ARROW, FieldTypeText(f.value, fix, rest)))
  }

  function FieldTypeText(f: FieldType, fix: bool, rest: Text): Text
    decreases f
  {
    TypeText(f.ty, 0, fix, rest)
  }

  // Names of word characters are written bare, all others between backticks.
  predicate IsWordName(n: string) {
    n != "" && forall c <- n :: IsLetter(c) || c == '_' || IsDigit(c)
  }

  predicate IsDigit(c: char) {
    '0' <= c <= '9'
  }

  // How many characters an integer takes from the front.
  function NumberLength(n: string): (k: nat)
    ensures k <= |n|
  {
    if n != "" && (IsDigit(n[0]) || n[0] == '_') then 1 + NumberLength(n[1..]) else 0
  }

  // A bare name that begins with a digit is read as an integer, and a word if there is more of it.
  function BareNameText(n: string, rest: Text): Text {
    if n == "" || !IsDigit(n[0]) then PutBody(WordMark(n), rest)
    else
      var k := NumberLength(n);
      PutBody(LiteralMark(IntegerLit(n[..k])), if k < |n| then More(Lexeme(WordMark(n[k..]), true), rest) else rest)
  }

  function ParamNameText(name: Option<string>, fix: bool, rest: Text): Text {
    match name
    case None => rest
    case Some(n) =>
      if fix then PutBody(ParamMark(n), rest)
      else if IsWordName(n) then BareNameText(n, rest)
      else PutBody(QuotedMark(n), rest)
  }

  function ParamText(p: Param, fix: bool, rest: Text): Text
    decreases p
  {
    TypeText(p.ty, 0, fix, ParamNameText(p.name, fix, rest))
  }

  // A keyword name is one word, or a word and a `?` touching it; the colon touches it.
  function KeywordText(k: Entry<string, Param>, fix: bool, rest: Text): Text
    decreases k
  {
    var value := ParamText(k.value, fix, rest);
    if k.key != "" && k.key[|k.key| - 1] == '?'
    then PutBody(KeyMark(k.key[..|k.key| - 1]), PutGlued(QUESTION, PutGlued(COLON, value)))
    else PutBody(KeyMark(k.key), PutGlued(COLON, value))
  }

  // The parameters in their parentheses.
  function ParensText(f: Function, fix: bool, rest: Text): Text
    decreases f, 1
  {
    var parens := Put(LPAREN, ParamListText(f, fix, Closed(RPAREN, fix && EndsInComma(f), rest)));
    if fix && f.Fn? && f.params == NO_PARAMS then Either(parens, rest) else parens
  }

  predicate EndsInComma(f: Function) {
    f.Fn? && f.params != NO_PARAMS && f.params.forwarding.None?
  }

  function ParamListText(f: Function, fix: bool, rest: Text): Text
    decreases f, 0
  {
    match f
    case UntypedFn(_, _) => Put(QUESTION, rest)
    case Fn(ps, _, _) => ParamsText(ps, fix, rest)
  }

  function ParamsText(ps: MethodParams, fix: bool, rest: Text): Text
    decreases ps, 2
  {
    SlotText(ps, RequiredSlot, 0, true, fix, rest)
  }

  // The order in which param_to_s writes the parameters.
  datatype Slot =
    | RequiredSlot | ForwardingSlot | OptionalSlot | RestSlot | TrailingSlot | RequiredKwSlot | OptionalKwSlot
    | RestKwSlot

  function SlotRank(q: Slot): nat {
    match q
    case RequiredSlot => 7
    case ForwardingSlot => 6
    case OptionalSlot => 5
    case RestSlot => 4
    case TrailingSlot => 3
    case RequiredKwSlot => 2
    case OptionalKwSlot => 1
    case RestKwSlot => 0
  }

  function NextSlot(q: Slot): Slot {
    match q
    case RequiredSlot => ForwardingSlot
    case ForwardingSlot => OptionalSlot
    case OptionalSlot => RestSlot
    case RestSlot => TrailingSlot
    case TrailingSlot => RequiredKwSlot
    case RequiredKwSlot => OptionalKwSlot
    case _ => RestKwSlot
  }

  function SlotSize(ps: MethodParams, q: Slot): nat {
    match q
    case RequiredSlot => |ps.required|
    case ForwardingSlot => if ps.forwarding.Some? then 1 else 0
    case OptionalSlot => |ps.optional|
    case RestSlot => if ps.rest.Some? then 1 else 0
    case TrailingSlot => |ps.trailing|
    case RequiredKwSlot => |ps.requiredKw|
    case OptionalKwSlot => |ps.optionalKw|
    case RestKwSlot => if ps.restKw.Some? then 1 else 0
  }

  // The parameters from number `n` of slot `q` on, each but the very first after a comma.
  function SlotText(ps: MethodParams, q: Slot, n: nat, first: bool, fix: bool, rest: Text): Text
    decreases ps, 1, SlotRank(q), SlotSize(ps, q) - n
  {
    if n >= SlotSize(ps, q) then
      if q == RestKwSlot then rest else SlotText(ps, NextSlot(q), 0, first, fix, rest)
    else
      var item := ItemText(ps, q, n, fix, SlotText(ps, q, n + 1, false, fix, rest));
      if first then item else Put(COMMA, item)
  }

  function ItemText(ps: MethodParams, q: Slot, n: nat, fix: bool, next: Text): Text
    requires n < SlotSize(ps, q)
    decreases ps, 0
  {
    match q
    case RequiredSlot => ParamText(ps.required[n], fix, next)
    case ForwardingSlot => Put(DOT3, next)
    case OptionalSlot => Put(QUESTION, ParamText(ps.optional[n], fix, next))
    case RestSlot => Put(STAR, ParamText(ps.rest.value, fix, next))
    case TrailingSlot => ParamText(ps.trailing[n], fix, next)
    case RequiredKwSlot => KeywordText(ps.requiredKw[n], fix, next)
    case OptionalKwSlot => Put(QUESTION, KeywordText(ps.optionalKw[n], fix, next))
    case RestKwSlot => Put(STAR2, ParamText(ps.restKw.value, fix, next))
  }

  function SelfText(self: Option<Type>, fix: bool, rest: Text): Text
    decreases self
  {
    if self.None? then rest
    else Put(LBRACKET, Put(KW_SELF, Put(COLON, TypeText(self.value, 0, fix, Put(RBRACKET, rest)))))
  }

  function BlockText(b: Option<Block>, fix: bool, rest: Text): Text
    decreases b
  {
    if b.None? then rest
    else if b.value.required then BlockBodyText(b.value, fix, rest)
    else Put(QUESTION, BlockBodyText(b.value, fix, rest))
  }

  function BlockBodyText(b: Block, fix: bool, rest: Text): Text
    decreases b
  {
    Put(LBRACE, ParensText(b.fn, fix, SelfText(b.selfType, fix, Put(ARROW, TypeText(b.fn.ret, 1, fix, Put(RBRACE, rest))))))
  }
}
