# A verified model of the RBS parser, its lexer, its serializer and the maps that use their positions

This project models, in Dafny, the part of RBS that turns text into syntax trees and finds its way back from trees to
text: the hand-written parser of `src/parser.c` with its window of four tokens, its chain of type-variable tables and
its collected comments; the character machine of `src/lexer.c` and `src/lexstate.c`; the binary serializer of
`src/serialize.c`; the containers of `src/ast.c`; the position maps of `lib/rbs/buffer.rb`; the searches of
`lib/rbs/locator.rb` and `lib/rbs/ancestor_graph.rb`. `dafny verify dfyconfig.toml` checks all of it.

## How it is built

- **Tokens, Ast, Containers, WellFormed.** The values: tokens with their positions, trees, insertion-ordered hashes.
  `Well` describes, on trees alone, where `void`, `self`, `class` and `instance` may stand, which variables are visible,
  and which parameter lists there are.
- **Grammar, MethodTypes, Uses, DeclGrammar.** What each routine of the parser does, as functions of a token stream: the
  tree, the next token, the recorded error; for types, type parameters and method types, `use` directives, and
  declarations with their members. They are total; the measure that lets them end is the number of unread tokens, then
  the rank of the rule, because the end-of-file token never leaves the window.
- **Syntax, Exactness, DeclSyntax.** The grammar told without the parser, as a relation between tokens and trees with
  their ranges, and how the two agree: for types both ways, for declarations as to what is accepted.
- **Scopes, Comments.** The chain of tables and the comment list, with what lexical scoping and "the comment above a
  line" mean.
- **Parser, Declarations.** The routines as they run: a class whose window, tables, error and comments change. Every
  routine is proved to do what the functions above say and to hand the tables back as they were.
- **Printer, Trees, RoundTrip, ToS, Rendering, Lost.** Writing types, equality up to locations, reading what was
  written, when Ruby's own text is read back, the result that the accepted trees are exactly the well-formed ones, and
  types whose text is not read back.
- **MethodTexts, DeclTexts.** The same inversion for type parameters and method types, and for declarations and whole
  signatures.
- **Locations, Nesting, Records, Locator, Searches.** Ranges of accepted trees nest, in characters and bytes, siblings are in the order of the
  source, for the fields of a record exactly under a condition on its keys; the locator's first-match search is exact on
  nested trees, hence on every accepted one.
- **Lexer, Lexing.** The lexer as a class whose position fields cache a scan, with saving, restoring and the step back
  over CR; which token begins with each character; and what the tokens give the parser.
- **Buffer, AncestorGraph, Serializer, LinkedContainers.** As their sources.

## What the main results say

- The parser reads a type from given tokens exactly if they write it by a grammar that does not mention the parser, and
  the type is well-formed (`Exactness.TypesExactly`); the grammar is unambiguous (`Exactness.OneReading`).
- The trees `rbs_parse_type` accepts are exactly the well-formed ones (`Rendering.ParsedExactlyIfWellFormed`), and
  writing and reading are inverse (`RoundTrip.WrittenTypesAreRead`, `RoundTrip.AcceptedTypesAreStable`), also for method
  types (`MethodTexts.MethodTypesAreRead`) and whole signatures (`DeclTexts.WrittenSignaturesAreRead`,
  `DeclTexts.AcceptedSignaturesAreStable`). Whatever is accepted as a signature is written in its tokens
  (`DeclSyntax.AcceptedSignaturesAreWritten`).
- Ruby's `to_s` differs from the written form that is always read back: it leaves a union inside a union and an optional
  under a `?` without parentheses, writes a parameter name of word characters bare even if it begins with a digit, and
  puts any other one between backticks as it is, although reading it undoes backslashes before quotes and backslashes.
  `ToS.ToSIsReadExactlyIfPlain` says that it is read back exactly if none of these is found in the type.
- `use` directives are accepted exactly as they are written (`Uses.ClausesExactly`, `DeclTexts.DirectivesExactly`).
- For every accepted type and every position the locator's path is exactly the types that hold the position
  (`Searches.AcceptedTypesAreLocated`), and it begins with the name or the arguments exactly where these are
  (`Searches.PartIsExact`).
- Every routine ends on every token stream; true means something was read and the tables are as they were, false means
  an error is recorded, and the first error stays (`Parsers.Parser.ParseType`, `Declarations.ParseSignature`). True can
  come with an error: a repeated record key. The public `rbs_parse_type_params` is the exception to the rule on tables
  (`Parsers.Parser.ParseTypeParamsOnly`).
- A comment found for a token does not depend on how far the window has read
  (`Lexing.CommentIndependentOfLookahead`).
- The position fields of the lexer are those of a scan in every reachable state, tokens tile the input, the quoted-string
  rules compute the longest match (`Lexers.Lexer.NextToken`, `SingleQuotedRule`, `DoubleQuotedRule`), and an input has one
  sequence of tokens (`Lexing.TokensAreDetermined`).
- The serializer's encoding is prefix-free and injective on what is written (`Serializer.PrefixFree`,
  `Serializer.Injective`).
- Line, column and sub-buffer translation: `Buffers.CountsAgree`, `Buffers.Buffer.AbsoluteCharacters`,
  `Buffers.IncreasingIffGaps`, `Buffers.Buffer.AbsoluteIncreasesExactly`.

Where a promise does not hold of the code everywhere, the condition under which it does is part of the statement, and an
input on which it fails stands beside it:

- `to_s` loses a type in the four ways above (`Lost.UnionInUnionIsLost`, `Lost.OptionalOfOptionalIsLost`,
  `Lost.DigitNameIsLost`, `Lost.BackslashNameIsLost`);
- the fields of a record are in the order of the source exactly if its keys come last in the order in which they come
  first, which a record accepted without an error meets (`Records.RecordInOrderExactly`, `Records.NoErrorInOrder`,
  `Records.RepeatedKeyOutOfOrder`);
- a position between CR and LF has column -1 on the next line for `pos_to_loc`, so the two ways of counting agree
  exactly elsewhere (`Buffers.CountsAgree`, `Buffers.BetweenCrAndLf`);
- `sub_buffer` removes a carriage return at the end of the last slice with its `chomp!`, and the position before a
  joining line feed is not translated to the end of a slice that ends in CR (`Buffers.JoinsAndCarriageReturns`,
  `Buffers.JoinAfterCarriageReturn`); the characters still agree;
- the translation is increasing only with a gap between the ranges (`Buffers.IncreasingIffGaps`, `Buffers.NoGap`), and
  even with gaps all the way up the end of a buffer may have no absolute position
  (`Buffers.Buffer.AbsoluteIncreasesExactly`, `Buffers.EndCanBeLost`);
- `rbs_hash_set` never counts: the `length` of a hash stays 0 (`LinkedContainers.Hash.Set`);
- the comment on the grammar of parameters demands a comma after an optional keyword, and the code does without one
  (src/parser.c:596), which matters only if its parameter has a name; a second `**` overwrites the first
  (src/parser.c:674). After the `...` that ends the overloads of a method the code reads a `|` too, and it drops
  annotations before that `...` (src/parser.c:2029-2083). The grammar here follows the code.

## Model

| member | source | states |
|---|---|---|
| `Grammar.TypeAt` | src/parser.c:1433-1461 | An accepted union or lesser type has read at least one real token, keeps an error recorded before, and is well-formed for the void flag and the scope; a failure always has an error |
| `Grammar.UnionRest` | src/parser.c:1438-1452 | If the members so far are well-formed, the first one `void` only with permission and then alone, then whatever is read after them, an accepted union is well-formed |
| `Grammar.IntersectionAt` | src/parser.c:1397-1424 | An accepted intersection or lesser type is well-formed for the void flag and the scope |
| `Grammar.IntersectionRest` | src/parser.c:1401-1419 | The same for the loop over `&` |
| `Grammar.OptionalAt` | src/parser.c:716-737 | An accepted optional or lesser type is well-formed: no `?` is ever on `void` |
| `Grammar.SimpleAt` | src/parser.c:1201-1390 | Every branch of `parse_simple` yields a well-formed tree: `void`, `self`, `class` and `instance` only where the flags allow them, a Variable only for a visible name, a class name only where no variable shadows it. Which tokens make which tree is Exactness.TypesExactly |
| `Grammar.ApplicationAt` | src/parser.c:1061-1127 | Type arguments of a class, an interface or an alias may be any type at all: the flags are reset to true inside, and the result is well-formed in the outer scope |
| `Grammar.SingletonAt` | src/parser.c:1133-1168 | `singleton(...)[...]` is well-formed: a class name, with arguments that may be `void` but mention `self` and `class` only where the outside may |
| `Grammar.TupleAt` | src/parser.c:1351-1369 | The element types may not be `void`; an empty tuple is accepted |
| `Grammar.TypeListAt` | src/parser.c:272-295 | Every element is well-formed for the flag it was read with, something is read, and the closing bracket is left unread |
| `Grammar.TypeArgsAt` | src/parser.c:1093-1105 | Type arguments may each be `void` as a whole |
| `Grammar.RecordAt` | src/parser.c:1370-1379 | Record types hold no `void` and no key twice |
| `Grammar.FieldsAt` | src/parser.c:942-1006 | The loop keeps the keys distinct and the field types free of `void`, although a repeated key does not make it fail |
| `Grammar.FieldAt` | src/parser.c:947-995 | One field keeps the table so |
| `Grammar.FieldKeyAt` | src/parser.c:951-986 | An accepted key has read at least one token, a failure has an error |
| `Grammar.ProcAt` | src/parser.c:914-923 | A proc type is well-formed: its `self` binding and block included, and it has no `...` |
| `Grammar.ParamsAt` | src/parser.c:530-709 | Every accepted parameter list is well-formed: keyword names distinct within and across both tables, trailing parameters only after an optional or a rest parameter, `...` only where it is allowed and last; `)` is left unread |
| `Grammar.SectionAt` | src/parser.c:537-702 | The goto machine, started in any section with what can have been collected by then, ends with a well-formed list or an error, however it moves |
| `Grammar.KeywordAt` | src/parser.c:443-463 | Entering a keyword keeps the names distinct within and across both tables |
| `Grammar.ParamAt` | src/parser.c:364-400 | The type of a parameter is never `void`, and something is read |
| `Grammar.SelfBindingAt` | src/parser.c:757-768 | The type of a self binding is never `void` |
| `Grammar.ReturnAt` | src/parser.c:881-883 | A return type may be `void` as a whole, and is well-formed otherwise |
| `Grammar.BlockAt` | src/parser.c:815-879 | The optional block, well-formed as a function of its own |
| `Grammar.FunctionAt` | src/parser.c:785-908 | An accepted function with its block and self binding is well-formed, has `...` only where it is allowed, and has read something. Which parameters it has is RoundTrip.FunctionsAsWritten |
| `Grammar.TypeNameAt` | src/parser.c:188-268 | An accepted name is of a kind asked for and records no error; what its first token is decides whether it is absolute and how it begins, which is what shadowing looks at |
| `Exactness.TypesExactly` | src/parser.c:1201-1461 | From given tokens the parser reads a given tree, with all its ranges, and stops at a given token, if and only if the tokens up to there write the tree by the grammar of `Syntax` and the tree is well-formed; only what follows must not go on with a type. The grammar says nothing about the parser: it has every way of writing a type, with any parentheses, keyword parameters mixed, commas missing where the code does without them |
| `Exactness.OneReading` | src/parser.c:1201-1461 | The grammar is unambiguous: tokens that write a well-formed type from some token on write no other, and end in one place |
| `Syntax.AcceptedTypesAreWritten` | src/parser.c:1201-1461 | Whatever follows: what is accepted as a type is written in exactly the tokens that were read, and every range in the tree, of names, arguments, fields, parameters, blocks and functions, is that of its tokens |
| `Rendering.ParsedExactlyIfWellFormed` | src/parser.c:1433-1461 | For every tree, flag and set of visible type variables: the tree is the result of `rbs_parse_type` on some stream of tokens, whatever their texts, if and only if it is well-formed. The flag discipline and the scoping rule are therefore exactly what the code enforces |
| `Rendering.EveryWellFormedTypeIsRead` | src/parser.c:1433-1461 | For every well-formed tree there are tokens in order, between a pair of parentheses, that the parser reads as this tree without an error, stopping at the closing one |
| `RoundTrip.WrittenTypesAreRead` | src/parser.c:1397-1461 | Printer inversion: any well-formed tree is read back up to locations and what follows stays unread, whichever of these is chosen: a comma after the last element of a list, `[]` in one token, no parentheses around no parameters, any token that stands for a name, a key or a literal. Parentheses are written only around a union in a union or intersection, an intersection in an intersection, and under a `?` around these, around an optional and around a proc whose return type has no `?`; none around an intersection in a union |
| `RoundTrip.OnlyLiteral` | src/parser.c:1282-1319 | `true`, `false`, an integer with its text, a symbol after its colon or quoted, and a string in either quotes are taken for exactly the literal they write; nothing else is taken for one |
| `RoundTrip.LiteralsAreRead` | src/parser.c:1282-1319 | Such a token is read as that literal type, and before `=>` as that key, with an error if the record has it already |
| `RoundTrip.KeysAreRead` | src/parser.c:416-437 | A word that touches its colon is a key, and one that touches a `?` and a colon is the key with the `?` in it |
| `RoundTrip.TokensTaken` | src/parser.c:188-268 | The tokens taken for each kind of name, for keywords and for base types are exactly those they are written with |
| `RoundTrip.FunctionsAsWritten` | src/parser.c:792-916 | An accepted function takes anything, `(?)`, exactly if the three tokens stand there; without parentheses it has no parameters |
| `RoundTrip.BlocksAsWritten` | src/parser.c:815-879 | The same for blocks |
| `RoundTrip.AcceptedTypesAreStable` | src/parser.c:1433-1461 | Whatever was accepted, once written and parsed again, is the same tree |
| `RoundTrip.PlainTypesAreRead` | lib/rbs/types.rb:69-1610 | Ruby's own `to_s` is read back for every tree in which no union is a member of a union, no optional is directly under a `?`, no parameter name of word characters begins with a digit, and no other parameter name has a backslash before a quote or another backslash; literals are taken as tokens |
| `ToS.ToSIsReadExactlyIfPlain` | lib/rbs/types.rb:688-959 | For every well-formed type whose `to_s` the lexer splits into the tokens it was made of, literals taken as tokens: it is read back if and only if nowhere in it one of these is found: a union as a member of a union, an optional directly under a `?`, a parameter name that `Param#to_s` writes bare and that begins with a digit, or one that it writes between backticks and that has a backslash before a quote or another backslash |
| `RoundTrip.UnescapedSame` | src/util/rbs_unescape.c:134-167 | What `rbs_unquote_string` makes of a name between backticks is the name itself if and only if nowhere in it a backslash is followed by a quote or another backslash |
| `Lost.UnionInUnionIsLost` | lib/rbs/types.rb:763-805 | An input: the union of `top` and a union of `nil` and `bool` is written as the union of the three, without parentheses, and not read back |
| `Lost.OptionalOfOptionalIsLost` | lib/rbs/types.rb:688-720 | An input: an optional of an optional is written `nil??` and not read back |
| `Lost.DigitNameIsLost` | lib/rbs/types.rb:949-959 | An input: a proc type with a parameter named `1a`, which the parser takes between backticks, is written with a bare `1a` and not read back |
| `Lost.BackslashNameIsLost` | lib/rbs/types.rb:949-959 | An input: a parameter name of two backslashes is written between backticks as it is and not read back |
| `RoundTrip.ParamListRead` | src/parser.c:530-709 | From the written form of any canonical parameter list, with `...` at its end where that is allowed, the goto machine recovers exactly its sections |
| `RoundTrip.BlockRead` | src/parser.c:815-879 | A written block, required or not, is read back and the arrow after it stays unread |
| `RoundTrip.OptionalKwSteps` | src/parser.c:588-613 | After an optional keyword the machine is in the keyword section, from whatever section it came; coming from the positional sections it does not even ask for a comma (line 596) |
| `RoundTrip.OptionalKwCloses` | src/parser.c:588-613 | With a comma or the closing parenthesis after it, it makes no difference which section the optional keyword was met in |
| `Nesting.AcceptedTypesAreNested` | src/parser.c:1433-1461 | Tokens in order, every accepted tree, in characters and in bytes alike, has non-empty ranges, each type's range within its parent's, and siblings with at least one character between them. Union and intersection members, tuple elements, type arguments, the positional parameters and after them the keyword ones, in each keyword table one by one, then self type, block and return type are in the order of the source; record fields are the exception (`Records.RecordInOrderExactly`) |
| `Nesting.TypeIn` | src/parser.c:1433-1461 | The same, order included, together with the tokens the tree was read from |
| `Nesting.KeywordsSectionIn` | src/parser.c:657-700 | Keywords keep the types apart although the comma between them can be missing and a repeated `**` overwrites the slot |
| `Nesting.SignatureIn` | src/parser.c:785-908 | Parameters, self binding, block and return type of a function lie apart from one another in the order of the source, whatever the order `each_type` lists them in |
| `Nesting.ApplicationParts` | src/parser.c:1061-1127 | The name of an accepted class, interface or alias type lies at the start of its range; the range of the arguments is null exactly if there are none, and otherwise comes after the name, ends with the type and has every argument in it |
| `Nesting.SingletonParts` | src/parser.c:1133-1168 | The same for singleton types, whose name comes after the start |
| `Nesting.ParamRanges` | src/parser.c:364-400 | A parameter's range is that of its tokens; it has a name exactly if its name range is not null, and then that is its last token's |
| `Nesting.BlockRanges` | src/parser.c:815-879 | A block and the function in it have the range from `?` or `{` to `}` |
| `Nesting.FunctionRange` | src/parser.c:885-908 | A function's range begins with the token before it and ends with its return type |
| `Nesting.FieldRange` | src/parser.c:980-995 | A field's range goes from the end of its `:` or `=>` to the end of its type |
| `Records.RecordInOrderExactly` | src/parser.c:925-1006 | The field types of an accepted record are in the order of the source if and only if its keys come last in the order in which they come first; a repeated key keeps its place in the hash and takes the later value |
| `Records.NoErrorInOrder` | src/parser.c:925-1006 | A record accepted without an error has its field types in the order of the source |
| `Records.RepeatedKeyOutOfOrder` | src/ast.c:257-276 | An input: `{a:nil,b:nil,a:nil}` is accepted, with an error recorded, and its first field comes after its second |
| `Locations.EachTypeSmaller` | lib/rbs/locator.rb:196-210 | `each_type` yields only smaller trees, so searches over it end |
| `Locations.EachTypeIsComplete` | lib/rbs/types.rb:675-680 | `each_type` misses nothing and makes nothing up: a property holds of all types in a tree exactly if it holds of the tree and of all types in what `each_type` yields |
| `MethodTypes.BoundAt` | src/parser.c:1532-1561 | A bound keeps both sides free of `void`, and well-formed where the parameters so far are visible |
| `MethodTypes.BoundsAt` | src/parser.c:1529-1561 | The same after two attempts |
| `MethodTypes.DefaultAt` | src/parser.c:1563-1579 | A default may be `void` as a whole; after a parameter with a default one is demanded |
| `MethodTypes.TypeParamAt` | src/parser.c:1482-1590 | The bounds and the default see the parameter itself; a method's parameter has no variance, no `unchecked` and no default; something is read and the first error is kept. Which tokens mean which variance and which bound is MethodTexts.TypeParamsAreRead |
| `MethodTypes.AcceptedTypeParams` | src/parser.c:1472-1609 | In every accepted list each bound sees the outer variables, the parameters before it and the parameter itself; nothing without a default follows a default; methods' parameters have neither variance nor default |
| `MethodTypes.AcceptedMethodTypes` | src/parser.c:1635-1668 | In every accepted method type the function and its block see the outer variables and all parameters, with `self` allowed; `...` only where the option allows it, and a function that takes anything or has `...` has no block |
| `MethodTexts.MethodTypesAreRead` | lib/rbs/method_type.rb:100-117 | Printer inversion: a method type, written out with `unchecked`, `in` and `out`, both bounds in either order, defaults, parameters, block and return type, is read back up to locations and what follows stays unread |
| `MethodTexts.TypeParamsAreRead` | lib/rbs/ast/type_param.rb:133-164 | The same for the parameters of classes and modules by themselves |
| `MethodTexts.AcceptedMethodTypesAreStable` | src/parser.c:1635-1668 | Whatever was accepted as a method type, once written and parsed again, is the same |
| `DeclSyntax.AcceptedMethodTypesAreWritten` | src/parser.c:1635-1668 | Whatever is accepted as a method type is written in exactly the tokens that were read, with its ranges; at the end of an input only where one is asked for |
| `Scopes.PushThenPop` | src/parser.c:3434-3445 | Pushing a table hides everything if it resets and nothing otherwise, never leaves a reset table on top, and popping gives back the very chain |
| `Scopes.InsertIsVisible` | src/parser.c:3447-3466 | Entering a name, growing the table by 10 or not, makes exactly this name visible and leaves the tables below alone |
| `Scopes.ScopeCloses` | src/parser.c:1612-1631 | Whatever was entered since a scope was opened, popping restores the chain it was opened on |
| `Parsers.Parser.PushTypevarTable` | src/parser.c:3434-3445 | The chain afterwards; it is valid and not empty |
| `Parsers.Parser.PopTypevarTable` | src/parser.c:1612-1631 | The top table goes, with a reset table under it; on an empty chain only an error is recorded |
| `Parsers.Parser.InsertTypevar` | src/parser.c:3447-3466 | The chain afterwards, after copying a full table to a longer one; refused on a reset table |
| `Parsers.Parser.EnterTypevar` | src/parser.c:1527 | Inside `parse_type_params` the insertion cannot fail, because no reset table is ever on top |
| `Parsers.Parser.TypevarMember` | src/parser.c:1174-1188 | True exactly if the name is in the union of the tables above the nearest reset table |
| `Parsers.Parser.constructor` | src/parser.c:3582-3633 | After three advances the window holds the first significant tokens and the parser stands before the first of them |
| `Parsers.Parser.Refill` | src/parser.c:3480-3496 | On to the next significant token, with all line comments on the way collected, or to the end |
| `Parsers.Parser.Advance` | src/parser.c:3475-3497 | The window moves by one: current, next, next2 and next3 are consecutive tokens of the input without trivia and comments, then end-of-file for ever, and the comments collected are those of all tokens read so far |
| `Parsers.ReadOne` | src/parser.c:3484-3496 | Reading one more token extends either the significant tokens or the comments, and never both |
| `Parsers.Parser.SetError` | src/parser.c:3643-3664 | Only the first error is kept |
| `Parsers.Parser.AdvanceAssert` | src/parser.c:109-113 | Advances in any case and reports the token read if it is not the expected one |
| `Parsers.Parser.AdvanceIf` | src/parser.c:489-496 | Advances exactly if the token is there |
| `Parsers.Parser.AdvanceNoGap` | src/parser.c:174-182 | Advances only if no character lies between the two tokens |
| `Parsers.Parser.ParsePath` | src/parser.c:196-217 | Reads the whole path of a name |
| `Parsers.Parser.ParseTypeName` | src/parser.c:188-268 | Does what the grammar says of names |
| `Parsers.Parser.ParseType` | src/parser.c:1433-1461 | Builds the tree, stops at the token and records the error that Grammar.TypeAt says, and leaves the tables as they were; it ends on every token stream |
| `Parsers.Parser.ParseIntersection` | src/parser.c:1397-1424 | The same for Grammar.IntersectionAt |
| `Parsers.Parser.ParseOptional` | src/parser.c:716-737 | The same for Grammar.OptionalAt |
| `Parsers.Parser.ParseSimple` | src/parser.c:1201-1390 | The same for Grammar.SimpleAt |
| `Parsers.Parser.ParseBase` | src/parser.c:1212-1281 | The keyword cases |
| `Parsers.Parser.ParseTypeList` | src/parser.c:272-295 | The same for Grammar.TypeListAt |
| `Parsers.Parser.ParseTypeArgs` | src/parser.c:1093-1105 | The same for Grammar.TypeArgsAt |
| `Parsers.Parser.ParseInstanceType` | src/parser.c:1061-1127 | The same for Grammar.ApplicationAt |
| `Parsers.Parser.ParseSingletonType` | src/parser.c:1133-1168 | The same for Grammar.SingletonAt |
| `Parsers.Parser.ParseTuple` | src/parser.c:1351-1369 | The same for Grammar.TupleAt |
| `Parsers.Parser.ParseKeywordKey` | src/parser.c:416-437 | The key, with a `?` that belongs to it |
| `Parsers.Parser.ParseRecord` | src/parser.c:1370-1379 | The same for Grammar.RecordAt |
| `Parsers.Parser.ParseRecordAttributes` | src/parser.c:942-1006 | The loop does what the recursive Grammar.FieldsAt says |
| `Parsers.Parser.ParseField` | src/parser.c:947-995 | The same for one field |
| `Parsers.Parser.FinishKey` | src/parser.c:925-929 | A repeated key records an error and the routine goes on to the separator all the same |
| `Parsers.Parser.ParseFieldKey` | src/parser.c:951-986 | The same for Grammar.FieldKeyAt |
| `Parsers.Parser.ParseParam` | src/parser.c:364-400 | The same for Grammar.ParamAt |
| `Parsers.Parser.ParseKeyword` | src/parser.c:443-463 | The table it enters into and the memo, which has the names of both tables |
| `Parsers.Parser.RequiredStep` | src/parser.c:539-586 | The loop of required parameters moves to the section the grammar says, with the parameters it says |
| `Parsers.Parser.OptionalStep` | src/parser.c:588-613 | The same from PARSE_OPTIONAL_PARAMS |
| `Parsers.Parser.RestStep` | src/parser.c:615-626 | The same from PARSE_REST_PARAM |
| `Parsers.Parser.TrailingStep` | src/parser.c:628-655 | The same from PARSE_TRAILING_PARAMS |
| `Parsers.Parser.KeywordsStep` | src/parser.c:657-700 | The same from PARSE_KEYWORDS |
| `Parsers.Parser.ParseParams` | src/parser.c:530-709 | The same for Grammar.ParamsAt; the jumps between sections end because a step moves to a later section or reads a token |
| `Parsers.Parser.ParseSelfBinding` | src/parser.c:757-768 | The same for Grammar.SelfBindingAt |
| `Parsers.Parser.ParseReturn` | src/parser.c:881-883 | The same for Grammar.ReturnAt |
| `Parsers.Parser.ParseBlock` | src/parser.c:815-879 | The same for Grammar.BlockAt |
| `Parsers.Parser.ParseFunction` | src/parser.c:785-908 | The same for Grammar.FunctionAt |
| `Parsers.Parser.ParseProcType` | src/parser.c:914-923 | The same for Grammar.ProcAt |
| `Parsers.Parser.ParseBound` | src/parser.c:1532-1561 | The same for MethodTypes.BoundAt |
| `Parsers.Parser.ParseDefault` | src/parser.c:1563-1579 | The same for MethodTypes.DefaultAt |
| `Parsers.Parser.ParseModifiers` | src/parser.c:1483-1517 | `unchecked` and the variance, for modules only, as the grammar of type parameters has them |
| `Parsers.Parser.ParseTypeParam` | src/parser.c:1482-1590 | Enters exactly the parameter's name, and enters it before its bounds are read |
| `Parsers.Parser.ParseTypeParams` | src/parser.c:1472-1609 | Does what the grammar says, with exactly the names of the parameters entered into the table on top |
| `Parsers.Parser.ParseMethodType` | src/parser.c:1635-1668 | Does what MethodTypes.MethodTypeAt says, and whenever it succeeds the tables are those it was called with |
| `Parsers.Parser.ParseTypeParamsOnly` | src/parser.c:3388-3406 | The public `rbs_parse_type_params` pushes two scopes and pops none: they are still there when it succeeds, and the chain it was called with lies under them |
| `DeclTexts.WrittenSignaturesAreRead` | src/parser.c:3363-3386 | Printer inversion for whole signatures: `use` directives and declarations with all members, annotations, visibilities, overloads, attributes and variables, written out in any way the grammar leaves, are read back up to locations to the end of the input without an error |
| `DeclTexts.WrittenDeclsAreRead` | src/parser.c:3049-3098 | The same for a declaration with its annotations, and what follows stays unread |
| `DeclTexts.AcceptedSignaturesAreStable` | src/parser.c:3363-3386 | Whatever was accepted as a signature is well-formed, and once written and parsed again is the same |
| `DeclTexts.DirectivesExactly` | src/parser.c:3363-3375 | The directives at the head of a signature are accepted, and are the ones that were written, if and only if they are written out and no further one follows |
| `DeclTexts.NoteRead` | src/parser.c:1767-1822 | An annotation is what is written between its brackets, whichever of the five pairs they are, without the white space around it |
| `DeclTexts.MethodNameRead` | src/parser.c:1854-1915 | Every token that can name a method is read as that name, and a word with the `?` that touches it as the name with the `?` |
| `DeclSyntax.AcceptedSignaturesAreWritten` | src/parser.c:3363-3386 | Whatever is accepted as a signature is written in the tokens up to the end of the input, every declaration and member with the keywords, names, kinds, types and `end` it has in the result, and nothing else in between |
| `DeclGrammar.SignatureAt` | src/parser.c:3363-3386 | An accepted signature has been read to the end of the input, and every declaration in it is well-formed in its lexical scope |
| `DeclGrammar.DeclsAt` | src/parser.c:3376-3382 | The loop over declarations keeps them well-formed |
| `DeclGrammar.DeclAt` | src/parser.c:3049-3098 | An accepted declaration has read something and is well-formed in its scope; a failure always has an error |
| `DeclGrammar.DeclHereAt` | src/parser.c:3056-3097 | The same without annotations; nested declarations see no type variable of the outer ones |
| `DeclGrammar.ClassDeclAt` | src/parser.c:2952-2990 | A class or an alias of one; both names are class names |
| `DeclGrammar.ClassBodyAt` | src/parser.c:2913-2947 | The superclass's arguments and the members see exactly the parameters of the class |
| `DeclGrammar.SuperAt` | src/parser.c:2885-2907 | The superclass is a class, and its arguments see the parameters of the class |
| `DeclGrammar.ModuleDeclAt` | src/parser.c:2842-2880 | A module or an alias of one; both names are class names |
| `DeclGrammar.ModuleBodyAt` | src/parser.c:2794-2837 | The self types' arguments and the members see exactly the parameters of the module |
| `DeclGrammar.SelfTypesAt` | src/parser.c:2654-2697 | Self types are classes or interfaces, and their arguments see the parameters of the module |
| `DeclGrammar.MembersAt` | src/parser.c:2707-2787 | Every member is well-formed for the parameters of the class or module, up to the `end` |
| `DeclGrammar.MemberAt` | src/parser.c:2712-2783 | The same for one member; a visibility belongs to the definition after it exactly if that is on its line |
| `DeclGrammar.InterfaceDeclAt` | src/parser.c:2610-2649 | The members see exactly the parameters of the interface |
| `DeclGrammar.InterfaceMembersAt` | src/parser.c:2562-2603 | Only instance methods, `include` of interfaces and aliases of instance methods, up to the `end` |
| `DeclGrammar.TypeDeclAt` | src/parser.c:1727-1762 | The aliased type sees exactly the alias's own parameters |
| `DeclGrammar.ValueDeclAt` | src/parser.c:1674-1722 | The type of a constant or a global sees the variables visible outside |
| `DeclGrammar.OwnParamsAt` | src/parser.c:1472-1609 | The parameters of a declaration start from an empty scope |
| `DeclGrammar.MethodDefAt` | src/parser.c:1973-2110 | Overloads of instance methods see the class's parameters, those of singleton methods and of `self?` do not; `self?` has no visibility; there is an overload or `...` |
| `DeclGrammar.OverloadsAt` | src/parser.c:2029-2083 | Every overload is a well-formed method type, `...` in it only where the option allows it; a bar after the `...` that ends the list is read too |
| `DeclGrammar.OverloadAt` | src/parser.c:2044-2056 | One of them |
| `DeclGrammar.MixinMemberAt` | src/parser.c:2149-2232 | The arguments of `extend` do not see the class's parameters; interfaces only `include` interfaces |
| `DeclGrammar.MixinAt` | src/parser.c:2121-2142 | The name is of a kind asked for, and its arguments see the scope it is read in |
| `DeclGrammar.AliasMemberAt` | src/parser.c:2240-2283 | In interfaces no alias of singleton methods |
| `DeclGrammar.VariableMemberAt` | src/parser.c:2291-2388 | Class variables and variables of the class object do not see the class's parameters; `self` is not allowed in a class variable |
| `DeclGrammar.AttributeMemberAt` | src/parser.c:2433-2554 | Attributes of the class object do not see the class's parameters |
| `DeclGrammar.MethodNameAt` | src/parser.c:1854-1915 | An accepted name has read something and records no error |
| `DeclGrammar.AnnotationsAt` | src/parser.c:1827-1848 | All annotations that follow are read, or one of them is refused |
| `Declarations.ParseSignature` | src/parser.c:3363-3386 | Builds the signature, stops at the token and records the error that DeclGrammar.SignatureAt says, and hands the tables back as they were; every loop below it ends on every token stream |
| `Declarations.ParseDecls` | src/parser.c:3376-3382 | The same for DeclGrammar.DeclsAt |
| `Declarations.ParseDecl` | src/parser.c:3049-3098 | The same for DeclGrammar.DeclAt |
| `Declarations.ParseDeclHere` | src/parser.c:3056-3097 | The same for DeclGrammar.DeclHereAt |
| `Declarations.ParseNestedDecl` | src/parser.c:2997-3046 | The same, in a scope that hides everything and is closed again |
| `Declarations.ParseClassDecl` | src/parser.c:2952-2990 | The same for DeclGrammar.ClassDeclAt |
| `Declarations.ParseClassBody` | src/parser.c:2913-2947 | The same for DeclGrammar.ClassBodyAt; the scope of the parameters is closed again |
| `Declarations.ParseClassSuper` | src/parser.c:2885-2907 | The same for DeclGrammar.SuperAt |
| `Declarations.ParseModuleDecl` | src/parser.c:2842-2880 | The same for DeclGrammar.ModuleDeclAt |
| `Declarations.ParseModuleBody` | src/parser.c:2794-2837 | The same for DeclGrammar.ModuleBodyAt |
| `Declarations.ParseModuleSelfTypes` | src/parser.c:2654-2697 | The loop does what DeclGrammar.SelfTypesAt says |
| `Declarations.ParseModuleMembers` | src/parser.c:2707-2787 | The loop does what DeclGrammar.MembersAt says |
| `Declarations.ParseMember` | src/parser.c:2712-2783 | The same for DeclGrammar.MemberAt |
| `Declarations.ParseInterfaceDecl` | src/parser.c:2610-2649 | The same for DeclGrammar.InterfaceDeclAt |
| `Declarations.ParseInterfaceMembers` | src/parser.c:2562-2603 | The loop does what DeclGrammar.InterfaceMembersAt says |
| `Declarations.ParseTypeDecl` | src/parser.c:1727-1762 | The same for DeclGrammar.TypeDeclAt |
| `Declarations.ParseValueDecl` | src/parser.c:1674-1722 | The same for DeclGrammar.ValueDeclAt |
| `Declarations.ParseMemberDef` | src/parser.c:1973-2110 | The same for DeclGrammar.MethodDefAt |
| `Declarations.ParseScopedOverloads` | src/parser.c:2027-2085 | The overloads in a scope that hides everything for singleton kinds, and is closed again |
| `Declarations.ParseOverloads` | src/parser.c:2029-2083 | The loop does what DeclGrammar.OverloadsAt says |
| `Declarations.ParseMixinMember` | src/parser.c:2149-2232 | The same for DeclGrammar.MixinMemberAt |
| `Declarations.ParseMixin` | src/parser.c:2121-2142 | The same for DeclGrammar.MixinAt |
| `Declarations.ParseVariableMember` | src/parser.c:2291-2388 | The same for DeclGrammar.VariableMemberAt |
| `Declarations.ParseAttributeMember` | src/parser.c:2433-2554 | The same for DeclGrammar.AttributeMemberAt |
| `Declarations.ParseAliasMember` | src/parser.c:2240-2283 | The same for DeclGrammar.AliasMemberAt |
| `Declarations.ParseVisibilityMember` | src/parser.c:2395-2412 | The same for DeclGrammar.VisibilityMemberAt |
| `Declarations.ParseMethodName` | src/parser.c:1854-1915 | The same for DeclGrammar.MethodNameAt |
| `Declarations.ParseInstanceSingletonKind` | src/parser.c:1930-1958 | `self.`, and `self?.` where it is allowed, are taken together with their dot, and nothing else is taken |
| `Declarations.ParseAnnotations` | src/parser.c:1827-1848 | The loop does what DeclGrammar.AnnotationsAt says |
| `Declarations.ParseUseDirective` | src/parser.c:3148-3250 | Returns the clauses after `use`, stops after the last of them, or fails with the error of the first clause that cannot be read |
| `Declarations.ParseNamespace` | src/parser.c:3105-3136 | Returns whether the namespace is absolute and the names each followed by `::`, with or without spaces, and reads exactly their tokens |
| `Declarations.ParseUseClause` | src/parser.c:3148-3222 | Returns the clause with its namespace, its name and its new name, which must be of the same kind, or records the error |
| `Declarations.ParseDirectives` | src/parser.c:3370-3375 | Returns all directives at the head of a signature, in order |
| `Uses.ClauseExactly` | src/parser.c:3138-3222 | A `use` clause is accepted, and is the one that was written, if and only if it is written out and what follows does not go on with it (`as` after a name without a new one, `::` after a class name). Keywords that name a type, `skip` and `return`, cannot be used |
| `Uses.ClausesExactly` | src/parser.c:3138-3229 | A list of clauses is accepted, and is the one that was written, if and only if it is written out with commas, no comma follows it and nothing goes on with its last clause |
| `Declarations.OpenScope` | src/parser.c:3434-3445 | What is visible in a scope just opened |
| `Declarations.CloseScope` | src/parser.c:1612-1631 | A scope opened before closes without an error, and the chain is as it was |
| `Comments.Lookup` | src/parser.c:3291-3305 | The run found ends on the line |
| `Comments.CollectedAreMaximalRuns` | src/parser.c:3307-3361 | After any number of comments the list is the partition of them into maximal runs of consecutive lines, newest first, with strictly decreasing end lines |
| `Comments.EarlyExitIsFullSearch` | src/parser.c:3291-3305 | The lookup that gives up early finds a run if and only if a full search does, and there is only one |
| `Comments.RunAboveIsFound` | src/parser.c:3516-3526 | For a line with a comment just above it, the whole maximal run that ends there is found |
| `Comments.NoRunAboveIsFound` | src/parser.c:3516-3526 | Otherwise nothing is found |
| `Comments.LookaheadDoesNotMatter` | src/parser.c:3516-3526 | Comments collected later, from below the line, do not change what is found |
| `Lexing.LineCommentsOnePerLine` | src/lexer.c:171-189 | The line comments among any tokens the lexer returns are on lines of their own, in order |
| `Lexing.CommentIndependentOfLookahead` | src/parser.c:3475-3526 | For every token of a lexed input, the comment found above it is the same whether the lexer was read just past the token or any number of tokens further |
| `Lexers.Input.Length` | src/lexstate.c:122-153 | Every step takes at least one byte |
| `Lexers.Input.ScanCounts` | src/lexstate.c:155-182 | Character positions count the characters up to the first NUL or the end |
| `Lexers.Input.ScanAdvances` | src/lexstate.c:155-182 | A scan goes forward in bytes, characters and lines, strictly until it has met a NUL or the end |
| `Lexers.Lexer.constructor` | src/parser.c:3528-3557 | The initial state is that of a scan of no characters |
| `Lexers.Lexer.Skip` | src/lexstate.c:155-182 | One character further, or nowhere at a NUL or the end; char position, line and column remain those of a scan from the beginning |
| `Lexers.Lexer.Walk` | src/parser.c:3559-3564 | Stops at the first character that does not begin before the start position |
| `Lexers.NewLexer` | src/parser.c:3528-3576 | NULL if and only if the start, which may be negative, is not at the beginning of a character reachable before a NUL or the end; otherwise a lexer that stands there |
| `Lexers.Lexer.Restore` | src/lexer.c:772-803 | `*lexer = backup` brings back a state whose cached fields are right |
| `Lexers.Lexer.MakeToken` | src/lexstate.c:184-196 | The token spans what was read since the last one, with exactly those characters as its text; only trivia keeps a line's first token to come |
| `Lexers.Lexer.MakeEofToken` | src/lexstate.c:198-212 | Width zero, and the lexer does not move |
| `Lexers.Lexer.TriviaRule` | src/lexer.c:143-156 | All spaces and tabs there are, or one line feed or carriage return; a new line begins only with a later line |
| `Lexers.Lexer.CommentRule` | src/lexer.c:171-189 | The comment runs to the first line feed, NUL or invalid byte, and gives a carriage return back exactly if the line feed follows it; it is a line comment exactly if it is the first token of its line; the cached position stays right |
| `Lexers.Lexer.StepBack` | src/lexer.c:178-184 | The one deliberate step backwards lands on the position a scan has before the carriage return |
| `Lexers.Lexer.SingleQuotedRule` | src/lexer.c:883-912 | The longest prefix that matches the rule for single quotes, or an ErrorToken of one character exactly if there is none |
| `Lexers.Lexer.ScanSingle` | src/lexer.c:883-912 | With save and restore the automaton ends after the longest match, or one character on |
| `Lexers.SingleQuotedEscapes` | src/lexer.re:133 | The alternation of the rule matches between two quotes exactly if every quote in between comes right after a backslash, however backslashes are paired |
| `Lexers.Lexer.DoubleQuotedRule` | src/lexer.c:772-823 | The only prefix that matches the rule for double quotes, up to the first quote that is not escaped and with well-formed escapes, or an ErrorToken of one character exactly if there is none |
| `Lexers.Lexer.ScanDouble` | src/lexer.c:772-823 | The automaton with its escapes ends after that match, or one character on |
| `Lexers.ShortestSuffices` | src/lexer.re:128-132 | Taking the shortest alternative of an ambiguous escape loses no match |
| `Lexers.StepsDecide` | src/lexer.re:128-132 | A match can only end where the automaton stops |
| `Lexers.Lexer.OtherRule` | src/lexer.c:190-240 | Any other rule takes the characters it is told to, at least one, and gives no comment, no quoted string and no trivia |
| `Lexers.Lexer.NextToken` | src/lexer.c:5-142 | Every token begins where the one before ended and is the one its first character calls for: blanks and line ends trivia, `#` the comment to the end of the line, a quote the longest match of its rule or an ErrorToken of one character; its text is what it spans; end-of-file has no characters and stays |
| `Lexers.Lexer.Tokenize` | src/parser.c:3480-3496 | The token loop ends, the tokens tile the input from the start position to the end, and every one of them is the one its first character calls for |
| `Lexers.OneTokenAt` | src/lexer.c:5-142 | At every character of an input there is at most one kind of token, with one end |
| `Lexing.TokensAreDetermined` | src/parser.c:3480-3496 | An input has only one sequence of tokens to its end: every comment and every quoted string that begins where a token ends is a token in it |
| `Lexing.TilesAreOrdered` | src/parser.c:3475-3497 | What is left of such tokens without trivia and comments is in order, which the nesting of locations rests on |
| `Lexing.ScanIsScanned` | src/lexstate.c:155-182 | Line and column of the lexer are those of counting line feeds in the decoded text |
| `Lexing.LexerAgreesWithBuffer` | lib/rbs/buffer.rb:56-66 | The lexer's line and column of a position are those of `pos_to_loc`, for every position up to the last, exactly if it is not between CR and LF |
| `Lexing.NewParser` | src/parser.c:3582-3633 | There is a parser if and only if there is a lexer; its tokens are in order and its comments apart |
| `Buffers.RangesFrom` | lib/rbs/buffer.rb:30-54 | A buffer has at least one line |
| `Buffers.RangesAscend` | lib/rbs/buffer.rb:30-54 | The line ends strictly increase, so the binary search is sound, and no line leaves the text |
| `Buffers.Buffer.Ranges` | lib/rbs/buffer.rb:30-54 | The memoized ranges are those of the text, whether or not they were asked for before |
| `Buffers.Buffer.PosToLoc` | lib/rbs/buffer.rb:56-66 | The binary search finds the first line that does not end before the position |
| `Buffers.Buffer.LocToPos` | lib/rbs/buffer.rb:68-76 | The position of a line and column, also for the line numbers `fetch` counts from the end |
| `Buffers.PositionComesBack` | lib/rbs/buffer.rb:56-84 | `loc_to_pos(pos_to_loc(p))` is the smaller of `p` and the last position |
| `Buffers.LocationComesBack` | lib/rbs/buffer.rb:56-84 | `pos_to_loc(loc_to_pos(l, c))` is `(l, c)` for every column of a line |
| `Buffers.CountsAgree` | lib/rbs/buffer.rb:30-66 | `pos_to_loc` is what counting line feeds gives if and only if the position is not between CR and LF |
| `Buffers.BetweenCrAndLf` | lib/rbs/buffer.rb:30-66 | An input: position 2 of "a\r\nb", between CR and LF, is line 2 column -1 for `pos_to_loc` and line 1 column 2 by counting |
| `Buffers.Buffer.SubBuffer` | lib/rbs/buffer.rb:123-151 | Raises if and only if a slice, whose bounds may count from the end, is nil or has a line feed in it; otherwise the new buffer has the joined slices as content |
| `Buffers.ContentIsJoined` | lib/rbs/buffer.rb:126-147 | The content is the slices with line feeds between them, the last one without a carriage return at its end |
| `Buffers.PiecesAreCut` | lib/rbs/buffer.rb:126-147 | Each slice is the parent's content at its range |
| `Buffers.Buffer.ParentPosition` | lib/rbs/buffer.rb:159-166 | The position in the parent |
| `Buffers.CharactersComeFromParent` | lib/rbs/buffer.rb:159-166 | Every character that is not a joining line feed is the parent's character at the translated position, also for slices that end in CR |
| `Buffers.Buffer.AbsoluteCharacters` | lib/rbs/buffer.rb:168-175 | The same through any depth of nested sub-buffers up to the top buffer |
| `Buffers.Buffer.InsideHasAbsolute` | lib/rbs/buffer.rb:159-175 | If all ranges up to the top are in order with gaps between them, every position before a character has an absolute one |
| `Buffers.Buffer.AbsoluteIncreases` | lib/rbs/buffer.rb:159-175 | With such gaps, a position before one that has an absolute position has one too, and a smaller one |
| `Buffers.Buffer.AbsoluteIncreasesExactly` | lib/rbs/buffer.rb:159-175 | With such gaps, the absolute positions of 0 up to the last position exist and strictly increase if and only if no buffer on the way has lost the end: it is cut from nothing, or its last slice is empty and begins after a CR that ends a buffer which itself has a parent |
| `Buffers.EndCanBeLost` | lib/rbs/buffer.rb:146-175 | An input on which the end is lost: the last position of an empty buffer has no absolute one |
| `Buffers.Buffer.TopIsTop` | lib/rbs/buffer.rb:177-183 | The top buffer has no parent |
| `Buffers.IncreasingIffGaps` | lib/rbs/buffer.rb:159-166 | The translation is strictly increasing if and only if the ranges are in order with a character between them |
| `Buffers.NoGap` | lib/rbs/buffer.rb:159-166 | An input: with the ranges 0...1 and 1...2 of "ab" the positions 1 and 2 go to the same parent position |
| `Buffers.JoinsAndCarriageReturns` | lib/rbs/buffer.rb:159-166 | For every joining line feed: the position before it goes to the end of its slice exactly if the slice does not end in CR, or the next one begins right there |
| `Buffers.JoinAfterCarriageReturn` | lib/rbs/buffer.rb:159-166 | An input: with the ranges 0...2 and 4...5 of "a\r..b" the position before the joining line feed goes to 3 and not to 2 |
| `Buffers.Buffer.CharacterOffset` | lib/rbs/buffer.rb:90-112 | Whatever was asked before, the answer is the count of characters from the start, and the cache stays strictly increasing with right values |
| `Buffers.LastNotAbove` | lib/rbs/buffer.rb:97-103 | The binary search on the keys finds the last that is not above the offset |
| `Buffers.SliceLength` | lib/rbs/buffer.rb:104-108 | The characters between two boundaries |
| `Buffers.CountIsUnique` | lib/rbs/buffer.rb:90-112 | At most one number of characters ends at a byte offset |
| `AncestorGraphs.AncestorGraph.constructor` | lib/rbs/ancestor_graph.rb:13-41 | The graph has exactly the edges that were listed, and children are the converse of parents |
| `AncestorGraphs.AncestorGraph.Register` | lib/rbs/ancestor_graph.rb:43-46 | Adds one edge to both hashes and keeps them converse |
| `AncestorGraphs.Walk` | lib/rbs/ancestor_graph.rb:64-90 | With the shared set of yielded nodes, the search ends on every graph, cyclic or not, and gives each node once |
| `AncestorGraphs.AncestorGraph.EachAncestor` | lib/rbs/ancestor_graph.rb:64-76 | Gives every node reachable by one or more parent edges exactly once and nothing else |
| `AncestorGraphs.AncestorGraph.EachDescendant` | lib/rbs/ancestor_graph.rb:78-90 | Gives exactly the nodes of which the node is an ancestor, each once |
| `AncestorGraphs.Duality` | lib/rbs/ancestor_graph.rb:43-90 | For converse relations m is a descendant of n if and only if n is an ancestor of m |
| `AncestorGraphs.ClosedContainsReachable` | lib/rbs/ancestor_graph.rb:64-90 | A set closed under edges has everything that can be reached |
| `Locator.FindInLoc` | lib/rbs/locator.rb:212-237 | Finds the first named part with the position, or the location itself, and puts it in front; what that part is for accepted types is Searches.PartIsExact |
| `Locator.FindInType` | lib/rbs/locator.rb:196-210 | True if and only if the position is in the root's closed range, and then the path of the descent is put in front |
| `Locator.DescentIsExact` | lib/rbs/locator.rb:196-210 | On a nested tree, a type contains the position if and only if it is on the way of the descent: the first-match search misses neither a deeper type nor another branch |
| `Locator.WayListsPrefixes` | lib/rbs/locator.rb:196-210 | The path lists exactly the types on that way, the deepest first |
| `Searches.AcceptedTypesAreLocated` | lib/rbs/locator.rb:196-210 | For every type accepted from tokens in order and every position in its range: the types on the path found are exactly the types in it whose closed range holds the position, each once, deepest first |
| `Searches.PartIsExact` | lib/rbs/locator.rb:212-237 | For every accepted type: the path begins with `name` if and only if the type has a name and the position is in its half-open range, with `args` if and only if it has arguments and the position is in theirs, and otherwise with the type itself; the two ranges are disjoint |
| `Searches.FindInAccepted` | lib/rbs/locator.rb:196-210 | The search returns true exactly if the position is in the type's range, with that path put in front, which begins with the name, the arguments or the deepest type as its ranges say |
| `Serializer.U32ComesBack` | src/serialize.c:39-47 | Four bytes give back the number modulo 2^32 |
| `Serializer.I32ComesBack` | src/serialize.c:49-51 | A position survives if and only if it has 32 bits |
| `Serializer.TextComesBack` | src/serialize.c:53-67 | A text survives if and only if its length is below 2^32 |
| `Serializer.RangeComesBack` | src/serialize.c:69-77 | A range comes back without its byte offsets, a null range as null |
| `Serializer.Layout` | src/serialize.c:39-77 | The bytes themselves: numbers with the lowest byte first, modulo 2^32; a null range is one 0, any other a 1 and its two ends; a text is its length and its bytes; a node begins with its tag, and no node is a 0 |
| `Serializer.PartsInOrder` | src/serialize.c:137-935 | The fields of a node follow one another in their order with nothing in between |
| `Serializer.NodesInOrder` | src/serialize.c:100-110 | A list is its length and then its nodes in order |
| `Serializer.RangesInOrder` | src/serialize.c:79-89 | A list of ranges is its length and then the ranges in order |
| `Serializer.EntriesInOrder` | src/serialize.c:112-130 | A hash is its number of entries and then the entries in order, each key before its value |
| `Serializer.NodeComesBack` | src/serialize.c:137-935 | The decoder recovers any tree up to the fields that are not written, and leaves exactly the bytes after it |
| `Serializer.NodesComeBack` | src/serialize.c:100-110 | The same for node lists |
| `Serializer.EntriesComeBack` | src/serialize.c:112-130 | The same for hashes |
| `Serializer.PrefixFree` | src/serialize.c:137-935 | No encoding is the beginning of another one |
| `Serializer.Injective` | src/serialize.c:137-935 | Two trees have the same encoding if and only if they agree in everything that is written |
| `Serializer.SeenWrittenAlike` | src/serialize.c:69-77 | Byte offsets have no effect on the bytes |
| `Serializer.State.WriteU32` | src/serialize.c:39-47 | The four bytes shifted out are read back as the number modulo 2^32 |
| `Serializer.State.WriteText` | src/serialize.c:53-67 | Appends the length and the bytes |
| `Serializer.State.WriteRange` | src/serialize.c:69-77 | Appends the encoding of the range |
| `Serializer.State.WriteRanges` | src/serialize.c:79-89 | Appends the encoding of the list, by a loop |
| `Serializer.State.WriteNodes` | src/serialize.c:100-110 | The same for nodes |
| `Serializer.State.WriteHash` | src/serialize.c:112-130 | Counts the entries by walking the list and writes them |
| `Serializer.State.SerializeNode` | src/serialize.c:137-935 | Appends exactly the encoding of the tree |
| `Serializer.Serialize` | src/serialize.c:943-953 | The bytes are the encoding of the tree |
| `Containers.HashFind` | src/ast.c:244-255 | The first entry with the key, or the end |
| `Containers.HasKeyAfterSet` | src/ast.c:257-276 | Setting a key makes exactly this key present |
| `LinkedContainers.SetIsAMapUpdate` | src/ast.c:257-276 | A hash that is only set is a map in insertion order: no key twice, other values unchanged, no key ever moves |
| `LinkedContainers.NodeList.Append` | src/ast.c:193-209 | The list has the new node at its end; head, tail, links and length stay consistent |
| `LinkedContainers.Hash.Find` | src/ast.c:244-255 | Walks the chain to the first link with the key |
| `LinkedContainers.Hash.Set` | src/ast.c:257-276 | A known key gets the value in place, a new one a link at the tail; `length` is not touched |
| `LinkedContainers.Hash.Get` | src/ast.c:278-281 | The value under the key |

## Left out

- Ruby object construction, generated constructors, Wasm memory, the command line, environment loading: calls into code
  without logic of its own.
- The arena allocator, the encoding tables and the constant pool: names are strings, a character's width is any function
  that keeps ASCII control bytes out of multi-byte characters.
- `rbs_unquote_string`: a token carries the text it stands for; only names between backticks are undone
  character by character.
- Lexers.Lexer.OtherRule: the keyword, operator, identifier, symbol, annotation and inline-comment rules of the lexer are
  not modelled one by one; the kind and the length of what they take are given with the input, at least one character
  and no comment, quoted string or blank.
- Inline `@rbs` annotation parsers.
- Declarations.ParseSignature: the trees of declarations have their annotations, but neither their locations nor the
  comments above them.
- DeclSyntax.AcceptedSignaturesAreWritten: types inside declarations are written in some scope; that it is the right one
  is the well-formedness of DeclGrammar.SignatureAt.
- DeclTexts.WrittenSignaturesAreRead: the written form has parentheses only where a type needs them; what is accepted
  with more of them is not told for declarations.
- Exactness.TypesExactly: a class name before a `[`, or before a `::` that touches it, is left out, because the parser
  goes on there; at which token a refused input is reported is that of the grammar's functions and has no law of its own.
- Uses.ClauseExactly: the locations of `use` clauses are not modelled.
- Parsers.Parser.InsertTypevar: tables are values in a sequence; that two tables might share a buffer is not modelled.
- Parsers.Parser.ParseParams: the lists and hashes of the parser are sequences; the linked ones are modelled by
  themselves in LinkedContainers.
- Grammar.FieldKeyAt: an integer key is identified by its text, and the whitespace `rbs_string_strip_whitespace` removes
  is taken to be absent from the token.
- Parsers.Parser.SetError: an error is the token and whether it is a syntax error, without wording.
- Nesting.AcceptedTypesAreNested: Function nodes have no part in the nesting, because the range of a method type's
  function begins at the token before it.
- Rendering.ParsedExactlyIfWellFormed: the input is any stream of tokens, with any texts; which texts the lexer can give a
  token of each kind is not modelled, so a class named by no characters counts as accepted.
- ToS.ToSIsReadExactlyIfPlain: literals are taken as tokens; `inspect` is not modelled, so the condition says nothing
  about a literal whose escapes are not undone, as in the string `#{a}`, which is written `"\#{a}"`.
- RoundTrip.PlainTypesAreRead: literals are taken as tokens here too.
- RoundTrip.WrittenTypesAreRead: the written form is a sequence of tokens; that the lexer makes these tokens from the
  characters of a printed type is not modelled.
- Buffers.Buffer.SubBuffer: `byte_lines_hint` is not modelled, nor ranges that include their end or lack a bound.
- Buffers.Buffer.AbsoluteIncreases: ranges that begin at a negative index are left out; `parent_position` adds the
  negative index itself.
- Buffers.Buffer.AbsoluteCharacters: ranges that begin at a negative index are left out here too; that
  `absolute_position` fills the parents' `@ranges` on its way is not modelled.
- Buffers.Buffer.CharacterOffset: byte offsets that are not character boundaries are not modelled; `byteslice` there
  gives strings with invalid bytes.
- Locator.FindInType: `find_in_decl`, `find_in_member` and `find_in_method_type` are left out; they repeat the pattern
  over fixed fields.
- Serializer.NodeComesBack: trees are tagged tuples of parts with the kinds of parts per tag taken from the source;
  field names play no role, a null list is written like an empty one and is one here.
- AncestorGraphs.AncestorGraph.constructor: the environment and the ancestor builder are a listing of nodes with their
  ancestors.
