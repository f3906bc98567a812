# Verified models of confd's TOML library, store listings and watch protocol

The repository is a configuration manager: it watches a Nacos server and renders templates.
It carries its own TOML library, a full language front end with a matching printer, and an
in-memory store that the templates list and read.  This project models these parts in Dafny and
proves what they promise.

## What is modelled

**The lexer.**  `LexSpec` is the transition function on configurations: current state, stack of
continuations, start, position and tokens so far, one function for each of the state functions.
`Lexers.Lexer` is the object of the source, with byte offsets, the ring of three remembered rune
widths, the end-of-input flag, the line counter and the token queue; every method is proved
against the transition function, and the panics of the source are preconditions, so that every
call shows that they cannot happen.  `LexRun` proves termination with a linear bound and the
stack discipline, `LexText` and `LexTokens` what the texts of the tokens are, and `Grammar` that
every token list is a sentence of the grammar that the parser reads.

**The language.**  `Layout` is a grammar of whole texts: trees that hold the items and values of a
document together with its blanks, line breaks and comments, and the text of every tree.  It
classifies runes by their code points and knows nothing of the lexer.  `LayoutStrings`,
`LayoutScalars`, `LayoutLex` and `LayoutItems` show that every such text is lexed into its tokens,
`LayoutFind` that every input lexed without an error is such a text, and `LayoutMeaning` that an input
is accepted exactly if its document has a meaning, which parsing gives.  `Scalars` says what numbers
and strings stand for, `LayoutIgnored` and `Comments` that layout and comments have no effect.

**The parser.** `ParserSpec` reads one statement at a time and performs it on the state: tree,
implicit marks, key record, context. Its outcomes tell a rejected document from a failed assertion
and name the assertion. `Parsers.Parser` is the object with these fields, proved against it.
`LexerMeetsParser` shows which assertions about the lexer can fail at all, `FirstOffence` on which
inputs they do, and `MultilineStrings` and `MultilineDocuments` what becomes of multi-line strings.
`Acceptance` and `Documents` give the closed form of what is accepted and of the tree that is built,
`Reordering` that the order of blocks does not matter, `InlineTables` what is kept of an inline
table, `MetaData` the key record, `HeaderTrees` what a header does to any tree, and `Monotone` that
nothing bound is ever lost. `Contexts` and `ContextLoss` say when the assertions about the current
context hold. `Lines` are documents of printed lines, and `Counterexamples` inputs for what fails.

**The encoder.** `EncoderSpec` gives the text of every tree; `Encoders.Encoder` is the object that
writes to a buffer, `Encodable` says exactly which trees it accepts, and `Output` which lines it
writes. `LexPrinted`, `LexDocument`, `ParsePrinted` and `RoundTrip` prove in stages (strings, keys,
values, headers, statements, documents) that parsing undoes printing; `LexNul` and `EndOfInput`
follow a NUL inside a string, and `Limits` shows that the conditions on keys and strings cannot be
dropped.

**The field resolver.**  `FieldSearch` is the breadth-first search over embedded structs, on a
finite and possibly cyclic graph of types; `FieldScans` says which types it scans and how often it
collects a field, `FieldDominance` models the sorting, the compaction in place and the rules of
dominance, and `FieldAmbiguity` compares the result with the rule of the Go language.

**The store and the watch protocol.**  `Listing` models the store and its two listings of
path-like keys, `Watch` the watchers, the callbacks and the token channel as a transition system
over all interleavings.

Strings are sequences of Unicode scalar values; `Runes` has their widths in bytes.  Which runes
`unicode.IsLetter` accepts beyond ASCII, which texts are floats and which are datetimes is left
open: the results hold whatever the answer is.

## Where the code falls short of the obvious claim

Each is shown by an input or by an equivalence.  Where the exact condition is known, it is named;
for keys it is known for documents of one binding.

- Only quotes are escaped in keys: `Limits.KeySurvives`.
- NUL is taken for the end of the input: `Limits.StringsSurvive` is the exact condition.  Behind an
  item at top level it ends the document, and what comes after it is ignored: the case `AtNul` of
  `Layout.End` in `LayoutFind.LexesExactly`.
- By `LexerMeetsParser.LexerAndParserAgree` the assertions about tokens fail only for two offences in
  the token list, and they fail exactly if the first one is reached, which the tokens before it
  decide: `FirstOffence.TokenAssertions`.  One offence is a comment directly in an inline table,
  which is met before its own case is reached: `Counterexamples.CommentFailsAssertion`.
- The other offence is a multi-line string whose escaped newlines are dropped before its escapes are
  read.  Dropping looks for a backslash and a line feed only.  So a backslash at the end of a line that
  ends in CR LF stays and fails an assertion (`MultilineDocuments.ReturnFailsAssertion`), and an
  escaped backslash before a line feed loses its second half; what follows then decides whether an
  assertion fails (`TornStringFailsAssertion`) or another text is read (`TornStringReadAsTab`).  The
  walk of `MultilineStrings.MultilineVerdict` decides every text; `LineBreaksDecide` is the plain
  condition for texts of the first kind.
- Implicit marks are kept by dot-joined names and are never taken back:
  `Counterexamples.StaleMark`, `Counterexamples.SharedMark`; `ContextLoss.ContextAssertions` is the
  exact condition.
- A value assigned to a table that an earlier header implies is accepted and dropped:
  `Counterexamples.DroppedValue`; the closed form of `Documents.DocumentAccepted` says which values
  these are.
- TOML v0.4.0 (section "Table") forbids defining a key twice; inline tables are not checked for it:
  `Counterexamples.RepeatedName`, and `InlineTables.InlineTableKeeps` is the exact condition.
- The comment of typeFields promises the rule of Go for embedded fields; a field of a type that is
  embedded once, in a type that several paths lead to, is returned although that rule does not
  select it: `FieldAmbiguity.DiamondKept`; `FieldAmbiguity.RuleOfGo` is the exact condition.
- The listings of the root miss what lies deeper: `Listing.Store.RootListings`.
- The increment of the watcher count is not atomic: `Watch.IncrementLost`; `Watch.CountExact` is the
  exact condition.

## Model

| member | source | states |
|---|---|---|
| LexRun.LexerTerminates | depends/toml/lex.go:89-98 | on every input the lexer stops after at most eight state-function calls for every rune and the end |
| LexRun.CallsBounded | depends/toml/lex.go:89-885 | from every configuration that keeps the invariant, the number of calls left is at most the measure of position and state rank |
| LexRun.StepAdvances | depends/toml/lex.go:227-885 | one call of any state function keeps the shape of state and stack, lowers the measure, never moves back, emits at most one token, and leaves the nil state exactly after an EOF or error token |
| LexRun.StackDiscipline | depends/toml/lex.go:89-122 | in the token list of every input there is one terminal token, at the end, and it is never the complaint about an empty stack |
| LexRun.PopPlace | depends/toml/lex.go:115-122 | wherever a state function pops, the stack has a frame, and which frames it can be |
| Lexers.Lexer.constructor | depends/toml/lex.go:100-109 | a new lexer stands at the beginning, on line 1, with empty stack and queue |
| Lexers.Lexer.Push | depends/toml/lex.go:111-113 | puts one continuation on the stack and changes nothing else |
| Lexers.Lexer.Pop | depends/toml/lex.go:115-122 | takes the topmost continuation; only on an empty stack it queues an error and returns nil |
| Lexers.Lexer.Emit | depends/toml/lex.go:128-131 | queues the pending text as a token with the current line and moves the start to the position |
| Lexers.Lexer.Next | depends/toml/lex.go:138-159 | reads the rune at the position, or EOF; keeps offsets, line count and the three remembered widths true; never called after EOF |
| Lexers.Lexer.Ignore | depends/toml/lex.go:162-164 | drops the pending text |
| Lexers.Lexer.Backup | depends/toml/lex.go:167-183 | exactly undoes the latest rune read, its line count included; at most three in a row, and EOF costs none |
| Lexers.Lexer.PeekRune | depends/toml/lex.go:195-199 | the next rune, leaving the lexer where it was |
| Lexers.Lexer.Accept | depends/toml/lex.go:186-192 | consumes the next rune exactly if it is the wanted one |
| Lexers.Lexer.SkipWhitespace | depends/toml/lex.go:202-212 | consumes all blanks and nothing else |
| Lexers.Lexer.Errorf | depends/toml/lex.go:217-224 | queues one error token and returns nil |
| Lexers.Lexer.NextItem | depends/toml/lex.go:89-98 | returns the tokens of the specified run one by one, each with the line that the lexer has reached |
| Lexers.Lexer.Advance | depends/toml/lex.go:89-98 | one call keeps the correspondence with the specified run and lowers the measure |
| Lexers.Lexer.ScanTop | depends/toml/lex.go:227-251 | reading and backing up has the effect of the look-ahead step of the specification for this state; no panic can happen and every queued token carries the current line |
| Lexers.Lexer.ScanTopEnd | depends/toml/lex.go:256-274 | reading and backing up has the effect of the look-ahead step of the specification for this state; no panic can happen and every queued token carries the current line |
| Lexers.Lexer.ScanTableStart | depends/toml/lex.go:281-291 | reading and backing up has the effect of the look-ahead step of the specification for this state; no panic can happen and every queued token carries the current line |
| Lexers.Lexer.ScanTableEnd | depends/toml/lex.go:293-296 | reading and backing up has the effect of the look-ahead step of the specification for this state; no panic can happen and every queued token carries the current line |
| Lexers.Lexer.ScanArrayTableEnd | depends/toml/lex.go:298-305 | reading and backing up has the effect of the look-ahead step of the specification for this state; no panic can happen and every queued token carries the current line |
| Lexers.Lexer.ScanTableNameStart | depends/toml/lex.go:307-323 | reading and backing up has the effect of the look-ahead step of the specification for this state; no panic can happen and every queued token carries the current line |
| Lexers.Lexer.ScanBareTableName | depends/toml/lex.go:327-335 | reading and backing up has the effect of the look-ahead step of the specification for this state; no panic can happen and every queued token carries the current line |
| Lexers.Lexer.ScanTableNameEnd | depends/toml/lex.go:339-353 | reading and backing up has the effect of the look-ahead step of the specification for this state; no panic can happen and every queued token carries the current line |
| Lexers.Lexer.ScanKeyStart | depends/toml/lex.go:357-375 | reading and backing up has the effect of the look-ahead step of the specification for this state; no panic can happen and every queued token carries the current line |
| Lexers.Lexer.ScanBareKey | depends/toml/lex.go:379-394 | reading and backing up has the effect of the look-ahead step of the specification for this state; no panic can happen and every queued token carries the current line |
| Lexers.Lexer.ScanKeyEnd | depends/toml/lex.go:398-408 | reading and backing up has the effect of the look-ahead step of the specification for this state; no panic can happen and every queued token carries the current line |
| Lexers.Lexer.ScanValue | depends/toml/lex.go:413-467 | reading and backing up has the effect of the look-ahead step of the specification for this state; no panic can happen and every queued token carries the current line |
| Lexers.Lexer.ScanArrayValue | depends/toml/lex.go:471-490 | reading and backing up has the effect of the look-ahead step of the specification for this state; no panic can happen and every queued token carries the current line |
| Lexers.Lexer.ScanArrayValueEnd | depends/toml/lex.go:495-513 | reading and backing up has the effect of the look-ahead step of the specification for this state; no panic can happen and every queued token carries the current line |
| Lexers.Lexer.ScanArrayEnd | depends/toml/lex.go:517-521 | reading and backing up has the effect of the look-ahead step of the specification for this state; no panic can happen and every queued token carries the current line |
| Lexers.Lexer.ScanInlineTableValue | depends/toml/lex.go:525-543 | reading and backing up has the effect of the look-ahead step of the specification for this state; no panic can happen and every queued token carries the current line |
| Lexers.Lexer.ScanInlineTableValueEnd | depends/toml/lex.go:548-566 | reading and backing up has the effect of the look-ahead step of the specification for this state; no panic can happen and every queued token carries the current line |
| Lexers.Lexer.ScanInlineTableEnd | depends/toml/lex.go:570-574 | reading and backing up has the effect of the look-ahead step of the specification for this state; no panic can happen and every queued token carries the current line |
| Lexers.Lexer.ScanString | depends/toml/lex.go:578-596 | reading and backing up has the effect of the look-ahead step of the specification for this state; no panic can happen and every queued token carries the current line |
| Lexers.Lexer.ScanMultilineString | depends/toml/lex.go:600-623 | reading and backing up has the effect of the look-ahead step of the specification for this state; no panic can happen and every queued token carries the current line |
| Lexers.Lexer.ScanRawString | depends/toml/lex.go:627-642 | reading and backing up has the effect of the look-ahead step of the specification for this state; no panic can happen and every queued token carries the current line |
| Lexers.Lexer.ScanMultilineRawString | depends/toml/lex.go:647-668 | reading and backing up has the effect of the look-ahead step of the specification for this state; no panic can happen and every queued token carries the current line |
| Lexers.Lexer.ScanMultilineStringEscape | depends/toml/lex.go:672-680 | reading and backing up has the effect of the look-ahead step of the specification for this state; no panic can happen and every queued token carries the current line |
| Lexers.Lexer.ScanStringEscape | depends/toml/lex.go:682-707 | reading and backing up has the effect of the look-ahead step of the specification for this state; no panic can happen and every queued token carries the current line |
| Lexers.Lexer.ScanNumberOrDateStart | depends/toml/lex.go:734-748 | reading and backing up has the effect of the look-ahead step of the specification for this state; no panic can happen and every queued token carries the current line |
| Lexers.Lexer.ScanNumberOrDate | depends/toml/lex.go:751-768 | reading and backing up has the effect of the look-ahead step of the specification for this state; no panic can happen and every queued token carries the current line |
| Lexers.Lexer.ScanDatetime | depends/toml/lex.go:772-785 | reading and backing up has the effect of the look-ahead step of the specification for this state; no panic can happen and every queued token carries the current line |
| Lexers.Lexer.ScanNumberStart | depends/toml/lex.go:790-800 | reading and backing up has the effect of the look-ahead step of the specification for this state; no panic can happen and every queued token carries the current line |
| Lexers.Lexer.ScanNumber | depends/toml/lex.go:803-818 | reading and backing up has the effect of the look-ahead step of the specification for this state; no panic can happen and every queued token carries the current line |
| Lexers.Lexer.ScanFloat | depends/toml/lex.go:823-836 | reading and backing up has the effect of the look-ahead step of the specification for this state; no panic can happen and every queued token carries the current line |
| Lexers.Lexer.ScanBool | depends/toml/lex.go:839-856 | reading and backing up has the effect of the look-ahead step of the specification for this state; no panic can happen and every queued token carries the current line |
| Lexers.Lexer.ScanCommentStart | depends/toml/lex.go:860-864 | reading and backing up has the effect of the look-ahead step of the specification for this state; no panic can happen and every queued token carries the current line |
| Lexers.Lexer.ScanComment | depends/toml/lex.go:869-877 | reading and backing up has the effect of the look-ahead step of the specification for this state; no panic can happen and every queued token carries the current line |
| Lexers.Lexer.ScanUnicodeEscape | depends/toml/lex.go:709-731 | the same for both lengths of Unicode escapes |
| Lexers.Lexer.EmitBeforeQuotes | depends/toml/lex.go:600-668 | the triple backup at the end of a multi-line string emits the text before the quotes and comes back behind them, with the line count intact |
| Lexers.Lexer.CallState | depends/toml/lex.go:89-885 | calling the current state function is one step of the specification |
| LexText.StepText | depends/toml/lex.go:227-885 | every call moves the start only over delimiters and blanks, and a token is the pending text with the contents its type promises |
| LexTokens.TokensWellFormed | depends/toml/lex.go:578-857 | in every input, integers and booleans look like ones, every backslash of a basic string heads a complete escape sequence, and every backslash of a multi-line one heads such a sequence or stands before a line break |
| LexTokens.Conservation | depends/toml/lex.go:128-164 | when a NUL-free input is lexed to its end, the token texts are disjoint slices of it in order, and between them there are only blanks, newlines and delimiters |
| Grammar.LexerKeepsToGrammar | depends/toml/lex.go:227-574 | the tokens of every input are a sentence of the grammar that the parser reads, up to EOF or an error: balanced arrays and inline tables, at least one piece in every header |
| Grammar.StepFollows | depends/toml/lex.go:227-885 | one state-function call is a move of the grammar, whose stack is a function of the lexer stack |
| LayoutFind.LexesExactly | depends/toml/lex.go:227-885 | for every input: the lexer comes to its end without an error exactly if the input is the text of a document of the grammar in Layout, which knows nothing of the lexer; and then its tokens are those of the document |
| LayoutItems.DocTokens | depends/toml/lex.go:227-885 | every document is lexed into its tokens, with any blanks, line breaks and comments at top level, after an opening bracket, before and after every comma (a trailing one included), before a closing bracket, and blanks around equals signs, in headers and in inline tables |
| LayoutItems.ItemForward | depends/toml/lex.go:227-408 | a header or an assignment anywhere in a text is lexed into its tokens, up to a rune that may follow it |
| LayoutLex.ValForward | depends/toml/lex.go:413-574 | so is a value of any kind: scalars, arrays over several lines with comments, inline tables |
| LayoutScalars.ScalarForward | depends/toml/lex.go:413-856 | every legal boolean, integer, float, datetime and string of the four kinds, before a rune that does not continue it, is lexed as one token of its type |
| LayoutScalars.ScalarFind | depends/toml/lex.go:413-856 | where the lexer reads a scalar and comes to the end of the input without an error, there is a legal scalar |
| LayoutFind.ValFind | depends/toml/lex.go:413-574 | where it reads a value so, there is a legal value, nested to any depth |
| LayoutFind.DocFind | depends/toml/lex.go:227-885 | from every place at top level from which it comes to the end so, the rest of the input is the text of a document |
| LayoutMeaning.DocMeans | depends/toml/parse.go:39-310 | lexing and parsing the text of a document gives the meaning of the document, defined along its tree: values, keys recorded by inline tables, headers and assignments in order |
| LayoutMeaning.TextAccepted | depends/toml/parse.go:39-310 | for every input: it is accepted exactly if it is the text of a document that has a meaning, and then the outcome is this meaning |
| LayoutIgnored.LayoutIgnored | depends/toml/parse.go:39-310 | a document parses as it does without its blanks, comments and line breaks other than those between items |
| Comments.CommentsIgnored | depends/toml/parse.go:93-128 | for every input: the comments at top level and in arrays can be dropped from its tokens, with the same outcome |
| Escapes.ReplaceEscapes | depends/toml/parse.go:516-574 | the loop computes the piecewise unescaping, or the assertion that fails |
| Escapes.UnescapeRejects | depends/toml/parse.go:516-587 | on a well-escaped text no assertion fails, and the text is rejected exactly if it names a surrogate or a value above 0x10FFFF |
| Escapes.UnescapeAccepts | depends/toml/parse.go:516-574 | only well-escaped texts are accepted |
| Escapes.EscapeInverse | depends/toml/encode.go:33-39 | unescaping what the encoder escapes gives the string back, for every string |
| Escapes.EscapedRunes | depends/toml/encode.go:33-39 | an escaped text has no TAB, LF or CR, and runes other than these, quotes and backslashes are written as they are |
| Escapes.UnicodeEscapeRead | depends/toml/parse.go:576-587 | a four- or eight-digit escape with the hexadecimal digits of a number, found by division by 16, each in either case, stands for the rune with that code point, and is rejected if there is none |
| Escapes.ShortEscapeRead | depends/toml/parse.go:516-574 | the seven short escapes stand for the code points 8, 9, 10, 12, 13, 34 and 92, and no other letter but u and U is accepted |
| Escapes.DanglingRead | depends/toml/parse.go:516-574 | a backslash at the end, or a u or U without its digits, fails the assertion |
| Scalars.StringRead | depends/toml/parse.go:516-574 | a basic string, given as runes, short escapes and code points, is read as the string that these stand for |
| Scalars.MultilineRead | depends/toml/parse.go:161-310 | so is a multi-line one, in which a backslash, a line feed and the white space behind it stand for nothing and the first line feed does not count |
| Scalars.RawRead | depends/toml/parse.go:161-310 | raw strings stand for their text, a multi-line one without the line feed it begins with |
| Scalars.IntegerRead | depends/toml/parse.go:161-310 | a sign and groups of digits with single underscores between them are read as the decimal number, if it fits 64 bits, and rejected otherwise |
| Scalars.UnderscoreMisplaced | depends/toml/parse.go:314-327 | an underscore at the end or before another one is rejected |
| Trees.HomogeneousKinds | depends/toml/type_check.go:77-91 | the elements of an array have one type exactly if any two of them are of one kind |
| Parsers.NumUnderscoresOK | depends/toml/parse.go:314-327 | true exactly if every underscore has something other than an underscore before it and the text does not end in one |
| Parsers.Scalar | depends/toml/parse.go:161-310 | the value of a string, boolean, integer, float or datetime token, or its rejection |
| Parsers.TypeOfArray | depends/toml/type_check.go:77-91 | accepts exactly the type lists without two different types |
| Parsers.LexInput | depends/toml/parse.go:74-80 | the tokens that the lexer object delivers are those of the specified run |
| Parsers.Parser.Next | depends/toml/parse.go:74-80 | takes a token; an error token ends the parse |
| Parsers.Parser.Expect | depends/toml/parse.go:86-90 | takes a token of the wanted kind or fails the assertion |
| Parsers.Parser.Value | depends/toml/parse.go:161-310 | value, recorded keys and tokens left are those of the specification |
| Parsers.Parser.ArrayOf | depends/toml/parse.go:161-310 | the loop over the elements of an array, comments included |
| Parsers.Parser.Pairs | depends/toml/parse.go:161-310 | the loop over the pairs of an inline table; a repeated key replaces the earlier pair |
| Parsers.Parser.SetValue | depends/toml/parse.go:406-453 | the new state is that of the specification: a new binding, a consumed implicit mark, or rejection |
| Parsers.Parser.Drill | depends/toml/parse.go:347-401 | the loop over all but the last piece of a header |
| Parsers.Parser.EstablishContext | depends/toml/parse.go:347-401 | the tables on the way are made and marked, and the last piece is a new table, a marked one or a new element |
| Parsers.Parser.Header | depends/toml/parse.go:98-142 | reads and performs a header of either kind |
| Parsers.Parser.KeyValue | depends/toml/parse.go:98-142 | reads and performs an assignment |
| Parsers.Parser.TopLevel | depends/toml/parse.go:98-142 | one statement has the effect of reading it and then performing it; a comment has none |
| Parsers.Parse | depends/toml/parse.go:39-66 | the loop over the statements computes the specified outcome on the tokens of the input |
| LexerMeetsParser.ScalarAgrees | depends/toml/parse.go:161-310 | reading a scalar token of the lexer fails an assertion exactly if it is a multi-line string that the walk over its text finds torn |
| LexerMeetsParser.NameAgrees | depends/toml/parse.go:145-157 | the same for a name of a header or a key |
| LexerMeetsParser.LexerAndParserAgree | depends/toml/parse.go:86-310 | for every input, an assertion about tokens fails only if a comment stands directly in an inline table or the walk finds a multi-line basic string torn, and inputs with either are never accepted; that either is there is necessary and not sufficient |
| FirstOffence.TokenAssertions | depends/toml/parse.go:86-310 | for every input: an assertion about tokens fails exactly if there is such a comment or string and the parser, given only the tokens before the first one, comes to their end; if it does not, the outcome is that of these tokens alone |
| FirstOffence.AssertionsFail | depends/toml/parse.go:86-310 | for every input: parsing fails an assertion of any kind exactly if the parser comes to such a comment or string, or an assignment follows a header with a stale mark; every other input is accepted or rejected |
| MultilineStrings.MultilineVerdict | depends/toml/parse.go:499-574 | for every text that the lexer delivers as a multi-line string: dropping the escaped newlines and then reading the escapes accepts, rejects or fails as the walk over the text, piece by piece, says |
| MultilineStrings.LineBreaksDecide | depends/toml/parse.go:506-574 | if no escaped backslash stands directly before a line feed, an assertion fails exactly if some backslash stands before CR with no invalid code point before it, and the text is rejected exactly if an invalid code point comes before any such backslash |
| MultilineDocuments.MultilineDocument | depends/toml/parse.go:161-310 | a document that assigns a multi-line string with that text fails, is rejected or is accepted with the unescaped text, as the walk says |
| MultilineDocuments.ReturnFailsAssertion | depends/toml/parse.go:506-514 | a string whose text is a backslash before CR LF fails an assertion, whatever follows it |
| MultilineDocuments.TornStringFailsAssertion | depends/toml/parse.go:506-514 | the text of an escaped backslash and a newline, and nothing else, fails an assertion, whatever follows the string |
| MultilineDocuments.TornStringReadAsTab | depends/toml/parse.go:506-514 | with a t after the newline the same text is accepted, as a TAB |
| Counterexamples.CommentFailsAssertion | depends/toml/parse.go:282-289 | every input that starts with the fixed text a={# fails the assertion, whatever follows |
| Documents.ParseFactors | depends/toml/parse.go:39-142 | parsing is reading the statements and performing them, and ends with the first statement that fails or as the reading ends |
| Acceptance.JoinInjective | depends/toml/parse.go:472-486 | dot-free keys are told apart by the joined names that key the implicit marks |
| Acceptance.SetValueMatches | depends/toml/parse.go:406-453 | in a represented state a path can be named once: a repeated name is rejected, every other is accepted and has the abstract effect |
| Acceptance.DrillMatches | depends/toml/parse.go:347-401 | the walk of a header is rejected exactly if a value stands in the way, and otherwise makes and marks the missing tables |
| Acceptance.ExecMatches | depends/toml/parse.go:98-453 | one header or plain assignment with dot-free keys is accepted exactly if its path is new and no value stands in its way; no assertion fails |
| Documents.DocumentAccepted | depends/toml/parse.go:347-453 | a document of headers and plain assignments with dot-free keys is accepted exactly if no two statements clash, and its tree is given in closed form, dropped values included |
| Documents.DistinctAccepted | depends/toml/parse.go:347-453 | if no assigned path is a proper prefix of a header, the document is accepted exactly if its paths are pairwise distinct, and then every value is stored |
| Reordering.Reordered | depends/toml/parse.go:347-453 | if no assigned path is a proper prefix of a header, a document with the same headers and assignments in another order is accepted exactly if this one is, and gives the same tree |
| Counterexamples.DroppedValue | depends/toml/parse.go:406-453 | a three-line document whose value is assigned to a table that its first header implies is accepted, and the value is lost |
| MetaData.IsDefined | depends/toml/decode_meta.go:23-40 | true exactly for the non-empty paths that lead to a node of the tree |
| MetaData.DefinedKeys | depends/toml/parse.go:113-137 | in an accepted document without arrays of tables and inline tables, whatever its keys, dots in them included, a key is defined exactly if it is a non-empty prefix of a recorded key |
| MetaData.KeysInOrder | depends/toml/parse.go:113-137 | every accepted list of statements records its keys in the order of the text, those of inline tables before the key they are assigned to |
| Monotone.ExecGrows | depends/toml/parse.go:347-453 | no statement changes or removes a binding; arrays of tables grow only at the end; without any condition |
| Monotone.ParseGrows | depends/toml/parse.go:39-453 | what a parse has bound stays bound to its end |
| HeaderTrees.HeaderInserts | depends/toml/parse.go:347-453 | in every state, arrays of tables included: a header of either kind gives the tree, or the failure, of one recursive insertion along its path, and becomes the context |
| HeaderTrees.AssignInserts | depends/toml/parse.go:406-453 | in every state an assignment gives the tree, the rejection or the failed assertion of binding its key below the context, uses up the mark it meets and changes no other |
| HeaderTrees.DrillFills | depends/toml/parse.go:347-401 | the walk over all but the last piece makes the missing tables and enters arrays of tables at their last element, as the recursive filling does |
| Contexts.ExecSafe | depends/toml/parse.go:347-453 | a statement whose header is dot-free and makes no table below an array of tables is performed or rejected, and the context leads to a table again, every array of tables on the way being non-empty |
| Contexts.ContextsHold | depends/toml/parse.go:347-453 | a document all of whose headers are dot-free and make no table below an array of tables is accepted or rejected, and an accepted one ends with a context that is a table |
| ContextLoss.ExecFails | depends/toml/parse.go:347-453 | in every state that a document reaches, a statement fails an assertion exactly if it is an assignment and the context leads to a value that is no table |
| ContextLoss.ContextLost | depends/toml/parse.go:347-453 | for every state and header: an accepted header leaves a context that is a table exactly if its implicit mark is not stale |
| ContextLoss.ContextAssertions | depends/toml/parse.go:347-453 | for every input: the assertion that a context is missing and the access to the last element of an array of tables never fail, and the assertion that the context is a table fails exactly if an assignment comes, comments apart, right after a header that was accepted with a stale mark |
| Counterexamples.StaleMark | depends/toml/parse.go:472-486 | an input of six lines that fails the assertion because a mark outlives an element of an array of tables |
| Counterexamples.SharedMark | depends/toml/parse.go:472-486 | an input of five lines that fails it because a quoted dot makes two tables share a mark |
| InlineTables.InlineTableKeeps | depends/toml/parse.go:270-307 | reading an inline table keeps for each name the value of its last pair, and keeps every pair exactly if the names are pairwise distinct |
| Counterexamples.RepeatedName | depends/toml/parse.go:270-307 | the input a={b=1,b=2} is accepted, and the first value is lost |
| Lines.LinesParse | depends/toml/parse.go:39-142 | a document of printed header and assignment lines and of comments is read as their statements, and parsing performs them as without the comments |
| Encoders.TypeOfGo | depends/toml/encode.go:385-422 | the type of a value, or the failure of the array inside it |
| Encoders.TypeOfElements | depends/toml/encode.go:429-458 | the loop finds the common type of the elements or fails |
| Encodable.ArrayTypes | depends/toml/encode.go:429-458 | an array has a type exactly if it is empty, made of tables, or homogeneous and free of tables at every depth; otherwise it fails |
| Encodable.EncoderAccepts | depends/toml/encode.go:108-458 | encoding succeeds exactly on tables with non-empty keys everywhere and with arrays that are flat or made of tables; the crash in the default case of eElement cannot happen |
| Encoders.QuotePiece | depends/toml/decode_meta.go:70-82 | the loop quotes exactly the keys with a rune that is not bare |
| Encoders.QuoteAll | depends/toml/decode_meta.go:62-68 | the loop and the join give the printed path |
| Encoders.CheckKey | depends/toml/encode.go:557-564 | accepts exactly the keys without an empty piece |
| Encoders.Encoder.Wf | depends/toml/encode.go:524-529 | appends to the buffer and notes that something was written |
| Encoders.Encoder.Newline | depends/toml/encode.go:508-512 | writes a newline exactly if something was written before |
| Encoders.Encoder.WriteQuoted | depends/toml/encode.go:207-209 | writes the escaped string between quotes |
| Encoders.Encoder.EElement | depends/toml/encode.go:157-196 | writes the text of the value, or ends with its error |
| Encoders.Encoder.EArrayOrSliceElement | depends/toml/encode.go:211-222 | writes the elements with commas between them |
| Encoders.Encoder.EKeyEqElement | depends/toml/encode.go:514-522 | writes the indented key, the value and a newline, or ends with the first error |
| Encoders.Encoder.EArrayOfTables | depends/toml/encode.go:224-239 | writes an array of tables of either representation, or ends with the first error |
| Encoders.Encoder.EElems | depends/toml/encode.go:224-239 | the loop over the elements of an array of tables |
| Encoders.Encoder.ETable | depends/toml/encode.go:241-253 | writes header and body of a table; no header at the empty path |
| Encoders.Encoder.EMap | depends/toml/encode.go:266-297 | writes the direct keys in order and then the keys of tables in order |
| Encoders.Encoder.EncodeValue | depends/toml/encode.go:108-153 | branches on the kind of value as specified |
| Encoders.Encoder.Encode | depends/toml/encode.go:86-92 | a success appends exactly the specified text; a failure reports the specified error and never takes back what was written |
| Encoders.SplitKeys | depends/toml/encode.go:274-297 | whatever the order of the map, the two key lists are those of the specification, in ascending order of code points |
| Output.EncodesLines | depends/toml/encode.go:133-297 | for every tree with clean keys and every indentation the encoder writes one line for each value and header, indented by the depth of its table, with an empty line before the headers of top-level tables and of arrays of tables if anything was written before, and nothing else |
| Output.ArrayWritten | depends/toml/encode.go:211-222 | an array is written as the texts of its elements with a comma and a blank between them, in brackets |
| Output.OtherValuesWritten | depends/toml/encode.go:157-196 | an empty array of tables is written as an empty array, and a float or datetime as its text, which is read back as the same value where it is one |
| Output.HashesWritten | depends/toml/encode.go:224-239 | arrays of tables are written alike in both representations |
| Output.PathWritten | depends/toml/decode_meta.go:62-68 | a path is written as its pieces, quoted where needed, with dots between them |
| Output.KeyQuoting | depends/toml/decode_meta.go:70-82 | a key is written as it is exactly if it has ASCII letters, digits, underscores and dashes only |
| Scalars.IntegerWritten | depends/toml/encode.go:157-196 | an integer is written with a minus sign if it is negative, and in decimal digits without leading zeros |
| ParsePrinted.IntegerInverse | depends/toml/parse.go:181-203 | the decimal text of an int64 passes the underscore check and is read as the same integer |
| ParsePrinted.EscapeQuotesInverse | depends/toml/decode_meta.go:70-82 | unescaping the printed form of a key without backslashes gives the key back |
| LexPrinted.LexQuoted | depends/toml/lex.go:578-596 | a quoted text, the empty one before a non-quote included, is lexed as exactly one string token |
| LexPrinted.LexPlain | depends/toml/lex.go:413-521 | a printed value before a comma, bracket or newline is lexed into its tokens, and the lexer stands just past it |
| LexDocument.LexAssign | depends/toml/lex.go:357-467 | a printed assignment line is lexed into its tokens and leaves the lexer at top level |
| LexDocument.LexIndentedHeader | depends/toml/lex.go:281-353 | so is a printed header of either kind |
| RoundTrip.ValueRoundTrip | depends/toml/encode.go:157-222 | for booleans, int64s, NUL-free strings and homogeneous nested arrays, lexing and reading the printed value gives it back |
| RoundTrip.HeaderRoundTrip | depends/toml/decode_meta.go:62-82 | a printed header is read as the header of the same path |
| RoundTrip.HeadersDiffer | depends/toml/decode_meta.go:62-82 | headers of different paths are printed differently |
| RoundTrip.PrintsBody | depends/toml/encode.go:224-297 | printing a clean table succeeds, and the text is lexed, wherever it stands, into its statements |
| RoundTrip.ParseBody | depends/toml/parse.go:347-453 | performing these statements below an empty table fills it with exactly the printed table and changes nothing else |
| RoundTrip.DocumentRoundTrip | depends/toml/encode.go:86-297 | for every tree of tables, non-empty arrays of tables and plain values with clean keys, and every blank indentation, printing succeeds and parsing the text gives exactly the tree |
| Limits.KeySurvives | depends/toml/decode_meta.go:70-82 | for every non-empty key, a document of one binding with that key is printed and parsed back exactly if the key is free of backslash, CR, LF and NUL |
| LexNul.ValueHalts | depends/toml/lex.go:578-596 | wherever a printed value stands that has a NUL in a string at any depth of its arrays, the lexer stops in it with an error |
| RoundTrip.LexesBody | depends/toml/encode.go:224-297 | for every tree with clean keys and any strings, printing succeeds, and the text, wherever it stands, is lexed into the statements of the tree if no string has a NUL and stops the lexer with an error otherwise |
| EndOfInput.ErrorNotAccepted | depends/toml/parse.go:39-80 | a text in which the lexer stops with an error is never accepted |
| Limits.StringsSurvive | depends/toml/lex.go:36-40 | every tree of tables, arrays of tables and values whose keys are clean is printed and parsed back exactly if none of its strings, at any depth, has a NUL |
| Limits.StringSurvives | depends/toml/lex.go:36-40 | so for every string value, a document of one binding with it is printed and parsed back exactly if the string is free of NUL |
| Sorting.SortedUnique | depends/toml/encode.go:286-287 | a sorted key list is determined by its keys |
| Sorting.SortedAscends | depends/toml/encode.go:286-287 | a list is strictly sorted exactly if of any two elements the earlier is a proper prefix of the later or has the smaller code point where they first differ |
| FieldSearch.CollectFields | depends/toml/type_fields.go:67-135 | the breadth-first loops compute the specified search and end on every graph, cyclic or not |
| FieldSearch.ScanType | depends/toml/type_fields.go:93-133 | the scan of one struct type; every field it adds describes one of the fields of the struct, under the name in its tag if there is one |
| FieldSearch.RoundProgress | depends/toml/type_fields.go:84-92 | a round visits a new type or is the last |
| FieldSearch.SearchComplete | depends/toml/type_fields.go:67-135 | every collected field is what reflection finds at its index, on a path of least length to its struct, and no field of any struct embedded at any depth is missed |
| FieldSearch.VisibilityRules | depends/toml/type_fields.go:95-112 | a field is explored exactly if it embeds a struct, has no tag and is not skipped; it counts exactly if it is not skipped and is exported, or embedded with a tag or without a struct |
| FieldSearch.CollectedReflected | depends/toml/type_fields.go:93-119 | every collected field describes the field that reflection finds at its index: the name is that of the tag if there is one and else that of the field, and it is neither skipped nor an unexported field that is not embedded |
| FieldSearch.EveryFieldSeen | depends/toml/type_fields.go:93-133 | every field that counts, of any struct that a path of embedded structs leads to, is collected under its name at an index that is no longer |
| FieldSearch.RoundCounts | depends/toml/type_fields.go:86-132 | the count that doubles the fields of a type is the number of its embeddings in the types scanned in the round before |
| FieldDominance.CompareIndex | depends/toml/type_fields.go:52-62 | the loop compares index sequences lexicographically |
| FieldDominance.DominantField | depends/toml/type_fields.go:182-212 | finds the field that is alone at the least depth, or alone among the tagged ones there, or reports that there is none |
| FieldDominance.Compact | depends/toml/type_fields.go:140-166 | the compaction in place keeps, per name, exactly the dominant field if there is one, and never overwrites a field it has yet to read |
| FieldDominance.TypeFields | depends/toml/type_fields.go:67-174 | the result is in ascending order of the indexes, names fields as their tags say, and holds exactly the fields of types embedded in at most one place at the level before that no nearer, or as near and preferred, field of their name outdoes |
| FieldDominance.OneSurvivor | depends/toml/type_fields.go:137-166 | at most one field of a name survives |
| FieldScans.ScannedOnce | depends/toml/type_fields.go:67-135 | every type that some path of embedded structs leads to is scanned exactly once, on a path than which none is shorter |
| FieldScans.CollectedByScan | depends/toml/type_fields.go:67-135 | the collected fields are those of the scanned types, in the order of the scans |
| FieldScans.EmbeddingsCounted | depends/toml/type_fields.go:126-133 | the count with which a type is scanned is the number of places in which the types scanned at the level before embed it |
| FieldScans.CollectedCopies | depends/toml/type_fields.go:111-118 | a recorded field of a scanned type is collected twice if more than one place at the level before embeds the type and once otherwise, and nothing else is collected |
| FieldDominance.SurvivorsByScan | depends/toml/type_fields.go:137-166 | a field survives exactly if its type is embedded in at most one place at the level before and no other recorded field of its name outdoes it |
| FieldAmbiguity.TwinsDecide | depends/toml/type_fields.go:111-133 | several nearest paths lead to a type exactly if the count says so or several lead to the type that embeds it; the count does not see the second |
| FieldAmbiguity.RuleOfGo | depends/toml/type_fields.go:139-145 | the fields that the rule of Go for embedded fields selects are exactly the winners whose type only one nearest path leads to |
| FieldAmbiguity.DiamondKept | depends/toml/type_fields.go:111-133 | on a graph of five types a field that two paths of the same length lead to, and that the rule of Go does not select, is returned |
| Listing.Store.Set | depends/memkv/store.go:176-180 | binds the key and changes no other |
| Listing.Store.Del | depends/memkv/store.go:52-56 | removes the key and changes no other |
| Listing.Store.Purge | depends/memkv/store.go:182-188 | empties the store |
| Listing.Store.List | depends/memkv/store.go:131-152 | exactly the first components below the path (at the root, only of keys of one component), and the last component of the path if it is a key, in ascending order of code points without repetition |
| Listing.Store.ListDir | depends/memkv/store.go:154-173 | exactly the first components below the path that have something below them (none at the root), in ascending order of code points without repetition |
| Listing.Store.DirsAreListed | depends/memkv/store.go:131-173 | what ListDir finds, List finds |
| Listing.Store.RootListings | depends/memkv/store.go:131-173 | at the root ListDir finds nothing, and List only the keys of one component and the root itself |
| Listing.SplitJoin | depends/memkv/store.go:194-196 | the terms of a path have no slashes, and joined by slashes they are the path again |
| Listing.SamePrefixTerms | depends/memkv/store.go:198-208 | true exactly for a prefix |
| Listing.BelowTerms | depends/memkv/store.go:190-208 | the test on terms says that the key is below the path, and at the root that it has one component; stripping the path leaves the next component first |
| Watch.TokensConserved | backends/nacos/client.go:152-212 | in every interleaving of any number of templates, each with its own number of keys, tokens sent are tokens taken plus tokens in the channel, which never holds more than ten |
| Watch.RunsAccounted | resource/template/processor.go:122-137 | processing runs started are completed subscriptions plus tokens and stop signals taken, but for watchers between waking up and running |
| Watch.IndexesStay | resource/template/processor.go:122-137 | the index of every template goes from 0 to 1 once and stays |
| Watch.SendsBounded | backends/nacos/client.go:172-193 | a callback that tests the count and then blocks at the send never sends more tokens than there are increments |
| Watch.ChangesServed | backends/nacos/client.go:172-193 | while no increment is stored, every change causes exactly as many tokens as the count says, once its callback has come to its end |
| Watch.KeysRegistered | backends/nacos/client.go:152-203 | in every reachable state all keys of the subscribed templates are registered, and those that the others have come to; no callback runs and no token is sent before a key is |
| Watch.WatchersMove | backends/nacos/client.go:152-212 | a watcher can always go on without a stop signal, unless it waits and there is no token |
| Watch.CallbacksMove | backends/nacos/client.go:172-193 | a callback can always go on, unless it is at the send and the channel is full |
| Watch.CountExact | backends/nacos/client.go:153-154 | the watcher count is the number of increments exactly if no increment was stored over another, and then it is never below the number of subscribed templates |
| Watch.IncrementLost | backends/nacos/client.go:153-154 | two watchers that start together can leave a count of one |
| Watch.StepInv | backends/nacos/client.go:152-212 | every step of a watcher or callback, its test of the count and its send being two steps, keeps the invariant |

## Left out

- Lexers.Lexer.Errorf: the message of an error token is a value of a datatype, not its text; which inputs lead to an error is proved, which message they lead to is only specified.
- Parsers.LexInput: the parser object works on the token list that the lexer object delivers, instead of calling it token by token; the lexer does not depend on the parser.
- Parsers.Parser.SetValue: the tree is a value in one field and is replaced along the path; that Go reaches the same maps through several references is not modelled.
- FieldDominance.TypeFields: sort.Sort is modelled as insertion; the sorted result does not depend on the algorithm up to fields with equal sort keys.
- FieldSearch.CollectFields: the alternating use of two backing arrays for the queues is not modelled; queues are sequences.
- Watch.TokensConserved: which watcher takes a token is free, so nothing is said about delivery to a particular template.
- Escapes.ReplaceEscapes: the index counts runes where the source counts bytes, and a slice that is too short is a failed assertion where the source slices unguarded and fails in the next step or panics.
- Parsers.Scalar: which texts are floats and datetimes is an arbitrary predicate, so the checks of underscores and periods in floats are not modelled.
- Listing.Store.List: keys and paths are clean and absolute, on which path.Clean is the identity; the template processor stores no others.
- Listing.Store.ListDir: the same.
- Contexts.ContextsHold: a sufficient condition; ContextLoss.ContextAssertions is the exact one.
- Limits.KeySurvives: the exact condition on keys is proved for documents of one binding; for larger trees clean keys are sufficient. A key with a backslash before a quote ends early when it is read back, so the text of several keys can be read as other statements, and no exact condition is given.
- Documents.DocumentAccepted: documents with arrays of tables or inline tables have no closed form here; `HeaderTrees` gives the effect of every header on every tree, and `Contexts` and `Monotone` cover whole documents.
- MetaData.DefinedKeys: documents with arrays of tables or inline tables, whose keys lead to several tables or are recorded before their table is bound, are not covered.
- Line numbers and last keys in parse errors, and the table of key types, are not modelled.
- Error texts of the encoder are merged: mixed arrays and tables in nested arrays are one error.
- Nil values, pointers, structs with their tags, TextMarshaler and unsigned integers above int64 are not encoded.
- Floats and datetimes are kept as their text; parsing and formatting them is strconv's and time's work.
- Invalid UTF-8 in the input is not modelled.
- The bounded queue of the lexer is shown to hold at most one token between calls; channel operations on it are not modelled.
- Decoding by reflection, Undecoded, Primitive values and the field cache.
- Locks of the store, glob matching in GetAll, GetValue and GetAllValues.
- Error channels and sleeping in the watchers, and shutdown, which the source does not have.
- Nacos calls, logging, staging and rendering of files, commands and flags.
