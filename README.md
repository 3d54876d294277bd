# Eon, modelled in Dafny

Eon is a configuration format. It has `null`, booleans, numbers, strings,
lists, maps and enum variants (`"Rgb"(255, 0, 0)`), and it keeps comments.
This project models its core and proves properties of the model:

- the **syntax crate**:
  - the lexer's token languages (`token_kind.rs`);
  - the comment-keeping parser into a token tree (`parse.rs`);
  - the pretty-printer (`format.rs`);
  - key quoting and string escaping (`strings.rs`);
  - the token tree itself (`token_tree.rs`);
  - span union;
  - `reformat` (parse, then format);
- the **value crate**:
  - `Number`, with its textual form, equality, hashing and narrowing accessors;
  - `Value` and its insertion-ordered map;
  - the conversions between token trees and values, in both directions;
  - the serde `Serializer` that turns Rust data into a `Value`.

Modules follow the source files:

| module | file |
|---|---|
| `Common` | Option and Result |
| `Span` | span union |
| `TokenKind` | lexer |
| `TokenTree` | token tree |
| `Strings` | key quoting and escaping |
| `Parse` | parser |
| `ParseProperties` | parser properties |
| `ParseShape` | parser properties |
| `Format` | formatter |
| `FormatProperties` | formatter properties |
| `Reformat` | `reformat` |
| `Numbers` | `Number` |
| `NumberProperties` | `Number` properties |
| `Values` | `Value` |
| `ValueFromTokenTree` | token tree to value |
| `TokenTreeFromValue` | value to token tree |
| `Serializer` | serde serializer |

How the imperative and the pure parts fit:

- **Parser and formatter.** These are imperative in the source. Each is a
  class with the source's fields:
  - `PeekableIter`: the token stream, the peeked token and the last span;
  - `Formatter`: the options, the indentation and the output string.

  Its methods are proved equal to pure specification functions. Every
  parser method ensures `Out(r, tokens.Cur())` equals the specification
  function's outcome from the old cursor. Every formatter method ensures
  `out == old(out) + <the text function>`. The properties (comments kept,
  depth bounds, top-level fallback, layout) are proved about those functions.
- **Switching between as-written and corrected behaviour.** Four specification
  functions take a parameter that selects the behaviour written in the
  source or a corrected one:
  - `CommaPolicy` (`Overwrite` / `KeepFirst`) for the parser;
  - `Mode` (`AsWritten` / `KeepComments`) for the formatter;
  - `NegationRule` (`RejectMin` / `AcceptMin`) for number parsing;
  - `EscapeAndQuoteAsWritten` versus `EscapeAndQuote` for string quoting.

  The imperative methods and `Reformat.Reformat` model the source as written.
  So does the value-to-tree conversion, which quotes with
  `EscapeAndQuoteAsWritten`. `Reformat.ReformatKeepingComments` uses the
  corrected behaviour. The discrepancies are listed under "## Findings".
- **Value conversions and the map serializer.** The conversions are pure
  recursive functions, as in the source. The one loop that the map case runs
  is `ValueFromTokenTree.ConvertMap`, proved equal to the recursive
  definition. The serde serializers are classes whose methods follow pure
  step functions (`KeyStep`, `ValueStep`, `FieldStep`, `EndMap`).

## Model

| member | source | states |
|---|---|---|
| `Span.Union` | crates/con_syntax/src/span.rs:22-31 | the union starts at the smaller start and ends at the larger end, each taken from one of the operands |
| `Span.UnionCommutative` | crates/con_syntax/src/span.rs:22-31 | union is commutative |
| `Span.UnionIdempotent` | crates/con_syntax/src/span.rs:22-31 | the union of a span with itself is that span |
| `Span.UnionAssociative` | crates/con_syntax/src/span.rs:22-31 | union is associative |
| `Span.UnionCovers` | crates/con_syntax/src/span.rs:22-31 | the union covers both operands and is well formed when they are |
| `Span.UnionLeast` | crates/con_syntax/src/span.rs:22-31 | any span covering both operands covers their union |
| `TokenKind.LanguagesDisjoint` | crates/eon_syntax/src/token_kind.rs:6-69 | no text is a word of two token languages |
| `TokenKind.Classify` | crates/eon_syntax/src/token_kind.rs:6-69 | the kind returned is the one whose regular language holds the text; none when no language does |
| `TokenKind.ClassifyExact` | crates/eon_syntax/src/token_kind.rs:6-69 | `Classify(s) == Some(k)` exactly when `s` is in the language of `k` |
| `TokenKind.RunEnd` | crates/eon_syntax/src/token_kind.rs:43-47 | the end of the maximal run of characters satisfying a class, as the identifier and number regexes scan it |
| `TokenKind.DqEnd` | crates/eon_syntax/src/token_kind.rs:50-53 | a found end lies after the opening quote and within the text |
| `TokenKind.DqEndExact` | crates/eon_syntax/src/token_kind.rs:50-53 | the scan of a double-quoted body stops exactly at the one closing quote the regex allows, both directions |
| `TokenKind.TripleEnd` | crates/eon_syntax/src/token_kind.rs:62-68 | a found end leaves room for the closing triple quote |
| `TokenKind.TripleEndExact` | crates/eon_syntax/src/token_kind.rs:62-68 | the scan of a triple-quoted body stops exactly at the closing triple the regex allows, both directions |
| `TokenKind.CommentPrefixes` | crates/eon_syntax/src/token_kind.rs:6-8 | a prefix is a comment token exactly when it starts with `//` and stops at or before the newline |
| `TokenKind.IdentifierPrefixes` | crates/eon_syntax/src/token_kind.rs:42-44 | a prefix is an identifier exactly when it starts with a letter or `_` and stays within the identifier run |
| `TokenKind.NumberPrefixes` | crates/eon_syntax/src/token_kind.rs:46-48 | a prefix is a number token exactly when it starts with a sign, digit or `.` and stays within the number run |
| `TokenKind.DoubleQuotedPrefixes` | crates/eon_syntax/src/token_kind.rs:50-54 | a prefix is a double-quoted string exactly when the body scan ends there |
| `TokenKind.SingleQuotedPrefixes` | crates/eon_syntax/src/token_kind.rs:56-61 | a prefix is a single-quoted string exactly when it ends at the first `'` after the opening one |
| `TokenKind.MultilinePrefixes` | crates/eon_syntax/src/token_kind.rs:62-68 | a prefix is a triple-quoted string exactly when it opens with three quotes and closes at the first closing triple |
| `TokenKind.ScanQuotedIsLongestMatch` | crates/eon_syntax/src/token_kind.rs:50-68 | at a quote character, the scanner's token is the longest prefix in any token language; none when no prefix is a token |
| `TokenKind.QuotedPrefixClass` | crates/eon_syntax/src/token_kind.rs:50-68 | a text that starts at a quote is a triple-quoted string exactly when the triple scan ends there, a one-line string exactly when the single scan ends there, and no token otherwise |
| `TokenKind.ScanTokenIsLongestMatch` | crates/eon_syntax/src/token_kind.rs:1-69 | the scanner takes the longest prefix that is a token, with that token's kind; when it finds none, no prefix is a token |
| `TokenKind.Lex` | crates/eon_syntax/src/token_kind.rs:1-69 | the lexer's output satisfies the tokenization predicate: skipped gaps, longest matches, one-character invalid tokens |
| `TokenKind.LongestMatchUnique` | crates/eon_syntax/src/token_kind.rs:1-69 | two longest matches at one position are the same token |
| `TokenKind.TokenizesUnique` | crates/eon_syntax/src/token_kind.rs:1-69 | a text has only one tokenization |
| `TokenKind.LexIsTheTokenization` | crates/eon_syntax/src/token_kind.rs:1-69 | any sequence meeting the tokenization predicate is what `Lex` returns |
| `TokenKind.CarriageReturnIsInvalid` | crates/eon_syntax/src/token_kind.rs:4 | only space, tab, newline and form feed are skipped; `\r` is an invalid token |
| `TokenKind.CommentStopsAtNewline` | crates/eon_syntax/src/token_kind.rs:6-8 | a comment token runs to the end of the line, without the newline |
| `TokenKind.HyphenSplitsIdentifier` | crates/eon_syntax/src/token_kind.rs:42-48 | an identifier stops at `-`, which begins a number token that runs over letters |
| `TokenKind.KebabCaseIsTwoTokens` | crates/eon_syntax/src/token_kind.rs:42-48 | `kebab-case` lexes as the identifier `kebab` and the number token `-case` |
| `TokenKind.NumberWordIsOneToken` | crates/eon_syntax/src/token_kind.rs:46-48 | a word of the number language lexes as exactly one token |
| `TokenKind.NumberLiteralsAreOneToken` | crates/eon_syntax/src/token_kind.rs:46-48 | `+1.e3-42`, `0xdeadbeef` and `+inf` are each one number token |
| `TokenKind.EscapedQuoteDoesNotClose` | crates/eon_syntax/src/token_kind.rs:50-54 | `\"` does not end a double-quoted string |
| `TokenKind.BackslashNewlineBreaksDoubleQuoted` | crates/eon_syntax/src/token_kind.rs:50-54 | a backslash does not escape a newline inside a double-quoted string |
| `TokenKind.SingleQuotedMayHoldNewline` | crates/eon_syntax/src/token_kind.rs:56-61 | a single-quoted string may hold a newline but not a `'` |
| `TokenKind.TripleBodyHasNoTriple` | crates/eon_syntax/src/token_kind.rs:62-68 | a triple-quoted body never holds three quote characters in a row |
| `TokenKind.TripleBodyAllowsOneOrTwoQuotes` | crates/eon_syntax/src/token_kind.rs:62-68 | one or two quote characters in a row are allowed inside, three are not |
| `TokenTree.IsNumberExactly` | crates/eon_syntax/src/token_tree.rs:114-118 | `is_number` holds exactly for number tokens |
| `TokenTree.FromValue` | crates/eon_syntax/src/token_tree.rs:120-129 | the tree carries the value, no span and no comments besides the value's own |
| `Strings.HasNonIdentifierChar` | crates/eon_syntax/src/strings.rs:4-25 | true exactly when some character from the given position on cannot continue an identifier |
| `Strings.KeyNeedsQuotes` | crates/eon_syntax/src/strings.rs:4-25 | a key needs quotes exactly when it is `true`, `false`, `null` or not an identifier |
| `Strings.UnquotedKeyIsOneIdentifier` | crates/eon_syntax/src/strings.rs:4-25 | a key that needs no quotes lexes as one identifier token and is no keyword |
| `Strings.KeyNeedsQuotesExamples` | crates/eon_syntax/src/strings.rs:28-40 | the cases of the source's own test |
| `Strings.Hex` | crates/eon_syntax/src/strings.rs:42-59 | lower-case hexadecimal digits, at least one |
| `Strings.DebugEscapeCharUnits` | crates/eon_syntax/src/strings.rs:42-59 | the debug form of a character is the character itself only for characters that need no escape |
| `Strings.DebugQuotedIsDoubleQuotedToken` | crates/eon_syntax/src/strings.rs:42-59 | the debug-quoted form of any string lexes as one double-quoted string |
| `Strings.SingleQuotedBodyAsWritten` | crates/eon_syntax/src/strings.rs:42-59 | the single-quoted body written by the source keeps every debug escape except the escaped double quote |
| `Strings.AsWrittenIsOneStringToken` | crates/eon_syntax/src/strings.rs:42-59 | as written: single quotes exactly when the string has `"` and no `'`; either way the output lexes as one string token |
| `Strings.EscapeAndQuote` | crates/eon_syntax/src/strings.rs:42-59 | corrected: single quotes exactly when `"` occurs, `'` does not and every other character is written verbatim, and the quoted body is the raw string; otherwise the debug-quoted form |
| `Strings.PlainQuoted` | crates/eon_syntax/src/strings.rs:42-59 | text with no `"` and nothing that `{:?}` escapes is written as itself in double quotes |
| `Strings.DebugQuotedUnlessOnlyDoubleQuotes` | crates/eon_syntax/src/strings.rs:42-59 | unless the string holds a `"` and no `'`, the source's quoting and the corrected one both write the double-quoted `{:?}` form |
| `Strings.SingleQuotedAsItself` | crates/eon_syntax/src/strings.rs:42-59 | text with a `"`, no `'` and nothing else to escape is written single-quoted as itself, by the source's quoting and by the corrected one |
| `Strings.QuotesEscapedBetween` | crates/eon_syntax/src/strings.rs:42-59 | around verbatim text, `{:?}` turns each `"` into `\"` and changes nothing else |
| `Strings.EscapeAndQuoteIsOneStringToken` | crates/eon_syntax/src/strings.rs:42-59 | the corrected output lexes as one string token, and in single quotes its literal text is the input |
| `Strings.AsWrittenAgreesWhenVerbatim` | crates/eon_syntax/src/strings.rs:42-59 | source and correction agree when nothing besides `"` needs escaping |
| `Strings.EscapeAndQuotePlainExamples` | crates/eon_syntax/src/strings.rs:71-89 | `normal` and `it's` are written in double quotes, by the source's quoting and by the corrected one |
| `Strings.EscapeAndQuoteDoubleQuoteExample` | crates/eon_syntax/src/strings.rs:71-89 | `say "hi"` is written in single quotes, by both quotings |
| `Strings.EscapeAndQuoteBothQuotesExample` | crates/eon_syntax/src/strings.rs:71-89 | a string with both quote characters is written in double quotes with `\"` escapes, by both quotings |
| `Strings.EscapeAndQuoteNewlineExample` | crates/eon_syntax/src/strings.rs:71-89 | a newline is written `\n` inside double quotes, by both quotings |
| `Strings.AsWrittenLosesNewline` | crates/eon_syntax/src/strings.rs:42-59 | as written, `"` followed by a newline comes out single-quoted with a literal `\n`, which reads back as a different string |
| `Parse.Advance` | crates/eon_syntax/src/parse.rs:143-153 | taking a token moves the cursor by one and never past the end |
| `Parse.Comments` | crates/eon_syntax/src/parse.rs:470-481 | takes exactly the run of comment tokens at the cursor, in order, and stops before a non-comment |
| `Parse.ContainsNewline` | crates/eon_syntax/src/parse.rs:439-468 | true exactly when a newline lies between the two offsets |
| `Parse.SuffixComment` | crates/eon_syntax/src/parse.rs:439-468 | a suffix comment is taken exactly when the next token is a comment on the same line as the last token taken |
| `Parse.Consume` | crates/eon_syntax/src/parse.rs:420-437 | succeeds exactly when the next token has the expected kind; the token is taken either way |
| `Parse.Trailing` | crates/eon_syntax/src/parse.rs:226-233 | succeeds exactly when no token is left |
| `Parse.AfterItem` | crates/eon_syntax/src/parse.rs:265-272 | the optional comma and suffix comment leave the item's span, prefix comments and value unchanged |
| `Parse.Tree` | crates/eon_syntax/src/parse.rs:325-418 | the cursor never moves back, and a parsed tree takes at least one token |
| `Parse.Value` | crates/eon_syntax/src/parse.rs:349-406 | the cursor stays within the tokens |
| `Parse.QuotedOrVariant` | crates/eon_syntax/src/parse.rs:362-392 | the cursor stays within the tokens |
| `Parse.ListContents` | crates/eon_syntax/src/parse.rs:236-276 | on success, the contents stop at the end of input or at a closing token |
| `Parse.Item` | crates/eon_syntax/src/parse.rs:243-274 | a parsed item takes at least one token |
| `Parse.MapContents` | crates/eon_syntax/src/parse.rs:279-322 | on success, the contents stop at the end of input or at a closing token |
| `Parse.KeyValue` | crates/eon_syntax/src/parse.rs:286-320 | a parsed pair takes at least one token |
| `Parse.PeekableIter.Cur` | crates/eon_syntax/src/parse.rs:84-93 | the cursor is within the token stream |
| `Parse.PeekableIter.constructor` | crates/eon_syntax/src/parse.rs:96-106 | the stream holds the lexed tokens of the source and starts at the first one |
| `Parse.PeekableIter.Pull` | crates/eon_syntax/src/parse.rs:50-82 | the underlying iterator yields the next lexed token, or nothing at the end |
| `Parse.PeekableIter.Peek` | crates/eon_syntax/src/parse.rs:112-115 | returns the next token without moving the cursor, and remembers it |
| `Parse.PeekableIter.Next` | crates/eon_syntax/src/parse.rs:143-153 | returns the next token, moves the cursor past it and records its span |
| `Parse.PeekableIter.SpanOfNext` | crates/eon_syntax/src/parse.rs:120-125 | with a token peeked, that token's span; with the end of input peeked or nothing peeked, the span of the last token taken |
| `Parse.ParseComments` | crates/eon_syntax/src/parse.rs:470-481 | the loop takes what `Comments` specifies |
| `Parse.ParseSuffixComment` | crates/eon_syntax/src/parse.rs:439-468 | agrees with `SuffixComment` |
| `Parse.ConsumeToken` | crates/eon_syntax/src/parse.rs:420-437 | agrees with `Consume` |
| `Parse.CheckForTrailingTokens` | crates/eon_syntax/src/parse.rs:226-233 | agrees with `Trailing` |
| `Parse.ParseTokenTree` | crates/eon_syntax/src/parse.rs:325-418 | agrees with `Tree` under the source's comma behaviour |
| `Parse.ParseValue` | crates/eon_syntax/src/parse.rs:349-406 | agrees with `Value` |
| `Parse.ParseQuotedOrVariant` | crates/eon_syntax/src/parse.rs:362-392 | agrees with `QuotedOrVariant` |
| `Parse.ParseListContents` | crates/eon_syntax/src/parse.rs:236-276 | the loop agrees with `ListContents` |
| `Parse.ParseItem` | crates/eon_syntax/src/parse.rs:243-274 | one loop iteration agrees with `Item` |
| `Parse.ParseMapContents` | crates/eon_syntax/src/parse.rs:279-322 | the loop agrees with `MapContents` |
| `Parse.ParseKeyValue` | crates/eon_syntax/src/parse.rs:286-320 | one loop iteration agrees with `KeyValue` |
| `Parse.ParseTopStr` | crates/eon_syntax/src/parse.rs:157-224 | the document parser returns what `ParseStr` specifies |
| `ParseProperties.SuffixCommentKeeps` | crates/eon_syntax/src/parse.rs:439-468 | the suffix comment taken is exactly the comment tokens passed |
| `ParseProperties.ConsumeKeeps` | crates/eon_syntax/src/parse.rs:420-437 | consuming a punctuation token passes no comment |
| `ParseProperties.AfterItemKeeps` | crates/eon_syntax/src/parse.rs:265-272 | with the comma fix, what follows an item adds exactly the comments it passed |
| `ParseProperties.OverwriteDropsSuffixComment` | crates/eon_syntax/src/parse.rs:265-272 | as written, a suffix comment taken before a comma is replaced, and that comment is lost |
| `ParseProperties.TreeKeeps` | crates/eon_syntax/src/parse.rs:325-418 | with the comma fix, a parsed tree holds exactly the comment tokens it passed, in order |
| `ParseProperties.ValueKeeps` | crates/eon_syntax/src/parse.rs:349-406 | the same for a value |
| `ParseProperties.ListValueKeeps` | crates/eon_syntax/src/parse.rs:350-354 | the same for a bracketed list |
| `ParseProperties.MapValueKeeps` | crates/eon_syntax/src/parse.rs:355-359 | the same for a braced map |
| `ParseProperties.QuotedOrVariantKeeps` | crates/eon_syntax/src/parse.rs:362-392 | the same for a string or variant |
| `ParseProperties.ListKeeps` | crates/eon_syntax/src/parse.rs:236-276 | the same for list contents, closing comments included |
| `ParseProperties.ItemKeeps` | crates/eon_syntax/src/parse.rs:243-274 | the same for one list item with its prefix comments |
| `ParseProperties.MapKeeps` | crates/eon_syntax/src/parse.rs:279-322 | the same for map contents, closing comments included |
| `ParseProperties.KeyValueKeeps` | crates/eon_syntax/src/parse.rs:286-320 | the same for one key-value pair |
| `ParseProperties.KeyTreeKeeps` | crates/eon_syntax/src/parse.rs:299-305 | the key of a pair holds its prefix comments and then exactly the comment tokens it passed |
| `ParseProperties.ValueAfterColonKeeps` | crates/eon_syntax/src/parse.rs:307-318 | after the colon, the value and what follows it add exactly the comments they passed |
| `ParseProperties.TreePrefix` | crates/eon_syntax/src/parse.rs:336 | a tree's prefix comments are the comment run before it |
| `ParseProperties.TopKeepsComments` | crates/eon_syntax/src/parse.rs:163-224 | with the comma fix, every comment token of a document is in the tree in document order, except the closing comments after a lone top-level value |
| `ParseProperties.TopMapKeeps` | crates/eon_syntax/src/parse.rs:166-180 | a document read as a top-level map keeps every comment |
| `ParseProperties.TopListKeeps` | crates/eon_syntax/src/parse.rs:181-212 | a document read as a list keeps every comment but those after a lone value |
| `ParseProperties.CommaLex` | crates/eon_syntax/src/token_kind.rs:1-69 | the lexer's tokens for `[1 // a` + newline + `, 2]` |
| `ParseProperties.CommaTop` | crates/eon_syntax/src/parse.rs:163-224 | the tree parsed from that document under each comma behaviour |
| `ParseProperties.CommaAfterSuffixComment` | crates/eon_syntax/src/parse.rs:265-272 | that document has one comment; as written the tree has none, corrected it has `// a` |
| `ParseShape.RecursionLimit` | crates/eon_syntax/src/parse.rs:329-334 | from depth 128 on, the parser fails with the recursion error at the last span |
| `ParseShape.TreeDepth` | crates/eon_syntax/src/parse.rs:325-418 | a tree parsed at a given depth nests brackets at most `(129 - depth) / 2` deep |
| `ParseShape.ValueDepth` | crates/eon_syntax/src/parse.rs:349-406 | the same bound for a value |
| `ParseShape.QuotedOrVariantDepth` | crates/eon_syntax/src/parse.rs:362-392 | the same bound for a variant |
| `ParseShape.ListDepth` | crates/eon_syntax/src/parse.rs:236-276 | the same bound, one level in, for list contents |
| `ParseShape.ItemDepth` | crates/eon_syntax/src/parse.rs:243-274 | the same bound for a list item |
| `ParseShape.MapDepth` | crates/eon_syntax/src/parse.rs:279-322 | the same bound, one level in, for map contents |
| `ParseShape.KeyValueDepth` | crates/eon_syntax/src/parse.rs:286-320 | the same bound for a pair |
| `ParseShape.TopDepth` | crates/eon_syntax/src/parse.rs:163-224 | a document nests at most 65 levels, and a lone value at most 64 |
| `Parse.Top` | crates/eon_syntax/src/parse.rs:163-225 | the document reading: map contents first, then list contents, then the error of the attempt that got further; it has no contract of its own, its cases are the `ParseShape.Top…` lemmas below |
| `Parse.ParseStr` | crates/eon_syntax/src/parse.rs:157-159 | `parse_str`: `Parse.Top` over the lexer's tokens with the source's comma policy; `Parse.ParseTopStr` is proved equal to it |
| `ParseShape.TopIsMap` | crates/eon_syntax/src/parse.rs:166-180 | map contents that take the whole input make the document a map spanning the input |
| `ParseShape.TopMapTrailing` | crates/eon_syntax/src/parse.rs:166-169 | map contents that stop at a closing token make that token the end-of-file error; the list is not tried |
| `ParseShape.TopIsList` | crates/eon_syntax/src/parse.rs:183-211 | when the list attempt takes the whole input, a single value is the document and any other number is wrapped in a list |
| `ParseShape.TopListTrailing` | crates/eon_syntax/src/parse.rs:183-187 | a list attempt that stops early fails at the token where it stopped |
| `ParseShape.TopBothFail` | crates/eon_syntax/src/parse.rs:213-220 | when both attempts fail, the error is the one whose last token ends later, and a tie goes to the map |
| `ParseShape.TopSpan` | crates/eon_syntax/src/parse.rs:163-224 | every parsed document has a span |
| `ParseShape.ListSpans` | crates/eon_syntax/src/parse.rs:236-276 | every list item has a span |
| `ParseShape.ItemSpan` | crates/eon_syntax/src/parse.rs:243-274 | a parsed item has a span |
| `ParseShape.VariantOnlyAfterString` | crates/eon_syntax/src/parse.rs:362-392 | a variant comes only from a string token followed by `(`; its name is that token and its values are the list up to `)` |
| `ParseShape.IdentifierIsNeverVariant` | crates/eon_syntax/src/parse.rs:360 | an identifier is a value of its own even when `(` follows it |
| `ParseShape.StringWithoutParen` | crates/eon_syntax/src/parse.rs:388-391 | a string token not followed by `(` is a string |
| `ParseShape.StrayToken` | crates/eon_syntax/src/parse.rs:394-405 | a closing bracket, `(`, `:` or `,` cannot start a value; the error is at that token |
| `ParseShape.TreeNeedsToken` | crates/eon_syntax/src/parse.rs:336-345 | a tree fails at the end of input, or at an invalid token, after its comments |
| `ParseShape.ItemPrefix` | crates/eon_syntax/src/parse.rs:259-263 | a list item's prefix comments begin with the comments taken before it |
| `ParseShape.KeyPrefix` | crates/eon_syntax/src/parse.rs:286-305 | a key's prefix comments begin with the comments taken before the pair |
| `Format.IsSimple` | crates/eon_syntax/src/format.rs:402-438 | a simple value has no comments |
| `Format.Utf8Length` | crates/eon_syntax/src/format.rs:392 | `str::len`: between one and four bytes per character |
| `Format.Utf8LengthOfAscii` | crates/eon_syntax/src/format.rs:392 | the byte length equals the character count exactly when the string is ASCII, both directions |
| `Format.WideLettersBreakTheLine` | crates/eon_syntax/src/format.rs:376-400 | the width counts bytes: a string of thirty `é` is 32 characters but adds 64 to the estimate, so a list holding it is not written on one line |
| `Format.ShouldFormatListOnOneLine` | crates/eon_syntax/src/format.rs:358-364 | a list chosen for one line has no comments, so the one-line layout drops none; the width rule adds each string's length in UTF-8 bytes |
| `Format.ShouldFormatVariantOnOneLine` | crates/eon_syntax/src/format.rs:366-374 | the same rule and guarantee for a variant's values and closing comments |
| `Format.SimpleHaveNoComments` | crates/eon_syntax/src/format.rs:376-400 | a sequence of simple values has no comments |
| `Format.ShouldFormatValuesOnOneLine` | crates/eon_syntax/src/format.rs:376-400 | the loop, summing strings' UTF-8 byte lengths, decides what the width rule on all-simple values specifies |
| `Format.Formatter.constructor` | crates/eon_syntax/src/format.rs:86-92 | a formatter starts with the options, zero indentation and no output |
| `Format.Formatter.Finish` | crates/eon_syntax/src/format.rs:94-101 | returns the text written |
| `Format.Formatter.AddIndent` | crates/eon_syntax/src/format.rs:103-107 | writes the indentation of the current level |
| `Format.Formatter.IndentedComments` | crates/eon_syntax/src/format.rs:109-115 | writes each comment on an indented line of its own |
| `Format.Formatter.IndentedValue` | crates/eon_syntax/src/format.rs:117-129 | writes the prefix comments, the indented value and its suffix comment |
| `Format.Formatter.SuffixComment` | crates/eon_syntax/src/format.rs:131-136 | writes a space and the suffix comment, if there is one |
| `Format.Formatter.Value` | crates/eon_syntax/src/format.rs:138-155 | atoms verbatim, containers by their layout |
| `Format.Formatter.OneLineValues` | crates/eon_syntax/src/format.rs:168-176 | values separated by `, ` on one line |
| `Format.Formatter.List` | crates/eon_syntax/src/format.rs:157-186 | `[]` when empty, one line when chosen, otherwise indented contents between brackets |
| `Format.Formatter.Content` | crates/eon_syntax/src/format.rs:188-207 | each value on lines of its own, blank lines when some value has prefix comments, then the closing comments |
| `Format.Formatter.Line` | crates/eon_syntax/src/format.rs:196-201 | one iteration: a value, its newline and a blank line when asked |
| `Format.Formatter.Closing` | crates/eon_syntax/src/format.rs:203-206 | the closing comments, after a blank line when elements are separated by blank lines |
| `Format.Formatter.ListContent` | crates/eon_syntax/src/format.rs:188-207 | list contents as `Content` |
| `Format.Formatter.Map` | crates/eon_syntax/src/format.rs:209-227 | `{}` when empty, otherwise indented contents between braces |
| `Format.Formatter.MapContent` | crates/eon_syntax/src/format.rs:229-251 | each pair on lines of its own, blank lines when some key has prefix comments, then the closing comments |
| `Format.Formatter.KeyValueLine` | crates/eon_syntax/src/format.rs:239-244 | one iteration: a pair, its newline and a blank line when asked |
| `Format.Formatter.IndentedKeyValue` | crates/eon_syntax/src/format.rs:253-262 | the key's and value's prefix comments, then key, separator, value and the value's suffix comment |
| `Format.Formatter.Variant` | crates/eon_syntax/src/format.rs:264-356 | bare name, one line, fused map, fused list or the general layout, as the source chooses |
| `Format.Formatter.OneLineVariant` | crates/eon_syntax/src/format.rs:277-286 | `name(a, b, …)` |
| `Format.Formatter.Enclosed` | crates/eon_syntax/src/format.rs:333-354 | `name(`, the values on lines of their own, the closing comments, `)` |
| `Format.Formatter.FusedMap` | crates/eon_syntax/src/format.rs:287-309 | `name({ })` for an empty map, otherwise `name({`, the map contents one level in, `})` |
| `Format.Formatter.FusedList` | crates/eon_syntax/src/format.rs:310-332 | the same for a list, with brackets |
| `Format.Format` | crates/eon_syntax/src/format.rs:62-72 | the formatter writes what `FormatText` specifies for the source's behaviour |
| `FormatProperties.EmptyContainers` | crates/eon_syntax/src/format.rs:157-227 | an empty list is `[]` and an empty map is `{}` |
| `FormatProperties.BareVariant` | crates/eon_syntax/src/format.rs:272-275 | a variant with no values and no closing comments is its quoted name |
| `FormatProperties.SingleEmptyMap` | crates/eon_syntax/src/format.rs:277-298 | a variant of one empty map is `name({})` on one line, or `name({ })` when that map has comments |
| `FormatProperties.AtomsVerbatim` | crates/eon_syntax/src/format.rs:138-146 | identifiers, numbers and strings are written as read |
| `FormatProperties.SuffixAfterOneSpace` | crates/eon_syntax/src/format.rs:117-136 | a suffix comment follows its value after exactly one space |
| `Format.FormatText` | crates/eon_syntax/src/format.rs:62-75 | the text `format` writes, in either comment mode; it has no contract of its own, `FormatProperties.TopLevelMap` states it and `Format.Format` is proved equal to it |
| `FormatProperties.TopLevelMap` | crates/eon_syntax/src/format.rs:62-72 | a top-level map is written without braces unless the options ask for them |
| `FormatProperties.CommentLinesHold` | crates/eon_syntax/src/format.rs:109-115 | every comment of the list is in the written lines |
| `FormatProperties.SuffixHolds` | crates/eon_syntax/src/format.rs:131-136 | the suffix comment is in the text |
| `FormatProperties.TreeHolds` | crates/eon_syntax/src/format.rs:117-129 | with the corrections, every comment of a tree is in its text |
| `FormatProperties.ValueHolds` | crates/eon_syntax/src/format.rs:138-155 | the same for a value |
| `FormatProperties.ListHolds` | crates/eon_syntax/src/format.rs:157-186 | the same for a list |
| `FormatProperties.ListContentHolds` | crates/eon_syntax/src/format.rs:188-207 | the same for list contents |
| `FormatProperties.ContentHolds` | crates/eon_syntax/src/format.rs:188-207 | the same for values with closing comments |
| `FormatProperties.ItemsHold` | crates/eon_syntax/src/format.rs:196-201 | the same for the first `n` values |
| `FormatProperties.MapHolds` | crates/eon_syntax/src/format.rs:209-227 | the same for a map |
| `FormatProperties.MapContentHolds` | crates/eon_syntax/src/format.rs:229-251 | the same for map contents |
| `FormatProperties.KeyValuesHold` | crates/eon_syntax/src/format.rs:239-244 | the same for the first `n` pairs |
| `FormatProperties.KeyValueHolds` | crates/eon_syntax/src/format.rs:253-262 | the same for a pair, the key's suffix comment included |
| `FormatProperties.VariantHolds` | crates/eon_syntax/src/format.rs:264-356 | the same for a variant |
| `FormatProperties.FormatKeepsComments` | crates/eon_syntax/src/format.rs:62-72 | with the corrections, every comment of a document is in the formatted text |
| `FormatProperties.KeySuffixDropped` | crates/eon_syntax/src/format.rs:253-262 | as written, `a // c` + newline + `: 1` formats as `a: 1` and the comment is lost |
| `FormatProperties.KeySuffixKept` | crates/eon_syntax/src/format.rs:253-262 | corrected, the comment stays after the key and the separator moves to the next line |
| `FormatProperties.FusedCommentDropped` | crates/eon_syntax/src/format.rs:287-309 | as written, the comment before a variant's single map is lost |
| `FormatProperties.FusedCommentKept` | crates/eon_syntax/src/format.rs:333-354 | corrected, that variant takes the general layout: `"V"(`, the comment and the map one level in, then `)` |
| `FormatProperties.FusedVariantAsWritten` | crates/eon_syntax/src/format.rs:287-309 | as written, the variant is fused with its map and printed `"V"({`, the pair, `})` |
| `FormatProperties.FusedVariantKept` | crates/eon_syntax/src/format.rs:333-354 | corrected, the variant prints `"V"(`, its value on lines of its own one level in, then `)` |
| `FormatProperties.OneCommentTreeText` | crates/eon_syntax/src/format.rs:117-130 | a value with one prefix comment and no suffix comment: the comment on its own indented line, then the value at the same indentation |
| `FormatProperties.FusedValueKept` | crates/eon_syntax/src/format.rs:117-130 | the commented map one level in prints its comment line, then the map with its pair two levels in |
| `FormatProperties.VariantOnLinesOfItsOwn` | crates/eon_syntax/src/format.rs:333-354 | a variant that is not empty, not on one line and not fused prints each value on lines of its own between `name(` and `)` |
| `FormatProperties.OnePairContent` | crates/eon_syntax/src/format.rs:229-251 | the contents of a map of one pair and no closing comments are that pair on one line |
| `FormatProperties.OneValueContent` | crates/eon_syntax/src/format.rs:188-207 | the contents of one value and no closing comments are that value on lines of its own |
| `Reformat.Reformat` | crates/eon_syntax/src/lib.rs:51-53 | fails exactly when parsing fails, with the parse error |
| `Reformat.ReformatKeepingComments` | crates/eon_syntax/src/lib.rs:51-53 | the corrected pipeline fails exactly when parsing fails |
| `Reformat.ReformatKeepsComments` | crates/eon_syntax/src/lib.rs:51-53 | with both corrections, every comment of a document that parses is in the output, except those after a lone top-level value |
| `Numbers.TryNegate` | crates/eon/src/value/number.rs:138-158 | an integer negates exactly when the result fits in `i128`, into an `I128`; a float flips its sign |
| `Numbers.NegateTwice` | crates/eon/src/value/number.rs:138-158 | negating twice succeeds and gives a number equal to the original |
| `Numbers.AsI64` | crates/eon/src/value/number.rs:161-175 | an integer is returned exactly when it fits in `i64`, with its value |
| `Numbers.AsU64` | crates/eon/src/value/number.rs:177-191 | an integer is returned exactly when it fits in `u64` |
| `Numbers.AsI128` | crates/eon/src/value/number.rs:193-207 | an integer is returned exactly when it fits in `i128` |
| `Numbers.AsU128` | crates/eon/src/value/number.rs:209-223 | an integer is returned exactly when it is not negative |
| `Numbers.NarrowingNests` | crates/eon/src/value/number.rs:161-223 | a narrower accessor answers only where the wider one does, with the same value; every integer fits one of `i128` and `u128` |
| `Numbers.NumberEq` | crates/eon/src/value/number.rs:20-32 | every number equals itself; an integer never equals a float (weaker than the source, see below) |
| `Numbers.IntegerEquality` | crates/eon/src/value/number.rs:20-33 | two integers are equal exactly when their values are, whatever their representation |
| `Numbers.HashOf` | crates/eon/src/value/number.rs:36-58 | an integer hashes by its value alone: as an `i128` when it fits, otherwise as a `u128`; a float by itself |
| `Numbers.EqualIntegersHashAlike` | crates/eon/src/value/number.rs:37-58 | equal integers hash alike |
| `Numbers.MinusZeroIsZero` | crates/eon/src/value/number.rs:20-58 | the `i128` zero and the `u128` zero are equal and hash alike |
| `Numbers.ParseRadix` | crates/eon/src/value/number.rs:96-103 | a result exactly when the text after an optional `+` is a non-empty string of digits of the radix whose value fits in `u128`, and then it is that value |
| `Numbers.FromStr` | crates/eon/src/value/number.rs:62-128 | a signed integer result is never positive, since only a `-` literal gives one; an `f32` result is NaN or an infinity, from the three special spellings |
| `Numbers.WithoutUnderscores` | crates/eon/src/value/number.rs:64-67 | no underscore is left, and text without one is unchanged |
| `Numbers.DecimalText` | crates/eon/src/value/number.rs:331-340 | a non-empty string of decimal digits |
| `NumberProperties.DecimalTextValue` | crates/eon/src/value/number.rs:331-340 | the decimal text of `n` reads back as `n` |
| `NumberProperties.IntegerIsU128` | crates/eon/src/value/number.rs:109-121 | unsigned decimal digits that fit are stored as `U128`; larger ones go to the float parser |
| `NumberProperties.NegativeLiteral` | crates/eon/src/value/number.rs:122-128 | a `-` literal is read without its sign and then negated, or fails with "Number too small" |
| `NumberProperties.MinusThenBody` | crates/eon/src/value/number.rs:62-128 | for a body without underscores, `-body` is negative infinity for `inf`, the NaN error for any casing of `nan`, and otherwise the body's error or the body read and negated, failing with "Number too small" when the negation does not fit |
| `NumberProperties.NegateDecimal` | crates/eon/src/value/number.rs:122-128 | negating a literal magnitude gives its negation up to `i128::MAX` as written, up to `2^127` corrected, and nothing beyond |
| `NumberProperties.NegativeInteger` | crates/eon/src/value/number.rs:122-128 | as written, `-` and digits read as the negation down to `-i128::MAX`; corrected, down to `i128::MIN` |
| `NumberProperties.ReadDisplayed` | crates/eon/src/value/number.rs:331-340 | what parsing makes of the displayed form of any integer |
| `NumberProperties.DisplayRoundTripAsWritten` | crates/eon/src/value/number.rs:61-131 | as written, every integer whose displayed form reads back reads back equal |
| `NumberProperties.MinLiteralRejected` | crates/eon/src/value/number.rs:122-128 | as written, `i128::MIN` is displayed as a literal that fails with "Number too small" |
| `NumberProperties.DisplayRoundTrip` | crates/eon/src/value/number.rs:61-131 | corrected, every integer reads back equal from its displayed form |
| `NumberProperties.UnderscoresIgnored` | crates/eon/src/value/number.rs:64-67 | parsing ignores underscores |
| `NumberProperties.WithoutUnderscoresAppend` | crates/eon/src/value/number.rs:64-67 | removing underscores from two joined texts is removing them from each |
| `NumberProperties.SeparatedGroups` | crates/eon/src/value/number.rs:64-67 | three groups joined by underscores lose exactly the underscores |
| `NumberProperties.SpecialLiterals` | crates/eon/src/value/number.rs:69-80 | `+nan`, `+inf` and `-inf` are the special literals, stored as `f32` |
| `NumberProperties.NanNeedsPlus` | crates/eon/src/value/number.rs:92-94 | any other spelling of `nan` fails with the hint to write `+nan` |
| `NumberProperties.GroupedDigits` | crates/eon/src/value/number.rs:64-67 | digit groups joined by underscores read as the digits alone |
| `NumberProperties.ThousandsSeparators` | crates/eon/src/value/number.rs:64-67 | `123_456_789` reads as 123456789 |
| `NumberProperties.NegativeBinary` | crates/eon/src/value/number.rs:96-128 | `-0b101010` reads as `-42` |
| `NumberProperties.Hexadecimal` | crates/eon/src/value/number.rs:100-103 | `0x1f` reads as 31 |
| `NumberProperties.MinusZero` | crates/eon/src/value/number.rs:122-128 | `-0` is the `i128` zero and `0` the `u128` zero |
| `Values.IndexOf` | crates/eon/src/value/mod.rs:40 | the position of the first entry whose key equals the given one; none when no key does |
| `Values.Lookup` | crates/eon/src/value/mod.rs:40 | a value is found exactly when some key equals the given one, and it is that entry's value |
| `Values.Insert` | crates/eon/src/value/mod.rs:40 | an existing key keeps its place and gets the new value, and the old value is returned; a new key is appended |
| `Values.InsertKeepsDistinct` | crates/eon/src/value/mod.rs:40 | insertion keeps the keys distinct |
| `Values.NewVariant` | crates/eon/src/value/mod.rs:50-60 | no values give the name as a string; otherwise a variant with those values |
| `Values.AsBool` | crates/eon/src/value/mod.rs:70-77 | answers exactly for booleans, with the boolean |
| `Values.AsNumber` | crates/eon/src/value/mod.rs:79-86 | answers exactly for numbers |
| `Values.AsString` | crates/eon/src/value/mod.rs:88-95 | answers exactly for strings |
| `Values.AsList` | crates/eon/src/value/mod.rs:97-104 | answers exactly for lists |
| `Values.AsMap` | crates/eon/src/value/mod.rs:106-113 | answers exactly for maps |
| `Values.AsVariant` | crates/eon/src/value/mod.rs:115-122 | answers exactly for variants, with the name and values |
| `Values.OneAccessorAnswers` | crates/eon/src/value/mod.rs:69-122 | exactly one accessor answers for a value other than `null` |
| `Values.FromChar` | crates/eon/src/value/mod.rs:204-209 | a one-character string |
| `Values.FromByte` | crates/eon/src/value/mod.rs:196 | an unsigned number with the byte's value |
| `Values.FromBytes` | crates/eon/src/value/mod.rs:211-216 | a list as long as the bytes, element by element |
| `ValueFromTokenTree.Suggestion` | crates/eon/src/value_from_token_tree.rs:34-41 | a hint exactly for the lower-cased spellings `inf`, `nan`, `false`, `true`, `nil`, `null`, `none` |
| `ValueFromTokenTree.Keyword` | crates/eon/src/value_from_token_tree.rs:29-53 | exactly `null`, `true` and `false` convert; any other identifier fails at its span with the unknown-keyword message |
| `ValueFromTokenTree.FromTree` | crates/eon/src/value_from_token_tree.rs:16-113 | a converted list has one value per element; a map converts to a map, a number to a number, a quoted string to a string |
| `ValueFromTokenTree.FromTrees` | crates/eon/src/value_from_token_tree.rs:72-77 | succeeds exactly when every tree converts, with the values in order; otherwise the first failure |
| `ValueFromTokenTree.KeyFrom` | crates/eon/src/value_from_token_tree.rs:81-84 | an identifier key becomes a string; any other key converts as a value |
| `ValueFromTokenTree.AddKeyValue` | crates/eon/src/value_from_token_tree.rs:80-88 | a success converted the key and the value and appended them under a key not present before; a key already present fails with "Duplicate key in map" at the key's span |
| `ValueFromTokenTree.FromKeyValues` | crates/eon/src/value_from_token_tree.rs:78-90 | a converted map has one entry per pair |
| `ValueFromTokenTree.AddKeyValueSpec` | crates/eon/src/value_from_token_tree.rs:80-88 | one pair: key, then value, then insertion; a key already present fails with "Duplicate key in map" at the key's span |
| `ValueFromTokenTree.MapEntriesInOrder` | crates/eon/src/value_from_token_tree.rs:78-91 | a converted map has one entry per pair, in order, with distinct keys and the converted keys and values |
| `ValueFromTokenTree.ConvertMap` | crates/eon/src/value_from_token_tree.rs:78-91 | the loop over the pairs returns what the recursive conversion specifies |
| `ValueFromTokenTree.ErrorSticks` | crates/eon/src/value_from_token_tree.rs:78-91 | once a prefix of the pairs fails, the whole map fails with that error |
| `ValueFromTokenTree.DuplicateKeyRejected` | crates/eon/src/value_from_token_tree.rs:86-88 | two pairs with equal keys fail with the duplicate-key error at a later pair's key |
| `ValueFromTokenTree.DistinctKeysAccepted` | crates/eon/src/value_from_token_tree.rs:78-91 | pairs that convert, with distinct keys, make a map |
| `ValueFromTokenTree.KeywordExamples` | crates/eon/src/value_from_token_tree.rs:29-53 | the keywords, and the hints for `NULL`, `None`, `Inf`, `NaN`, `True`; none for `yes` |
| `ValueFromTokenTree.KeywordKeyIsString` | crates/eon/src/value_from_token_tree.rs:26-84 | the identifier `null` is the string `"null"` as a map key, and the value `null` elsewhere |
| `ValueFromTokenTree.EmptyVariantIsString` | crates/eon/src/value_from_token_tree.rs:92-110 | a variant with no values converts to its name as a string |
| `ValueFromTokenTree.Strip` | crates/eon_syntax/src/token_tree.rs:22-112 | the tree without its comments has none |
| `ValueFromTokenTree.StripValue` | crates/eon_syntax/src/token_tree.rs:88-112 | the same for a value |
| `ValueFromTokenTree.StripTrees` | crates/eon_syntax/src/token_tree.rs:22-42 | the same for a sequence of trees |
| `ValueFromTokenTree.StripKeyValue` | crates/eon_syntax/src/token_tree.rs:45-51 | the same for a pair |
| `ValueFromTokenTree.StripKeyValues` | crates/eon_syntax/src/token_tree.rs:55-60 | the same for a sequence of pairs |
| `ValueFromTokenTree.CommentsIgnored` | crates/eon/src/value_from_token_tree.rs:23-113 | comments do not change the converted value or error |
| `ValueFromTokenTree.ValueCommentsIgnored` | crates/eon/src/value_from_token_tree.rs:23-113 | the same for a token value |
| `ValueFromTokenTree.TreesCommentsIgnored` | crates/eon/src/value_from_token_tree.rs:72-77 | the same for list elements |
| `ValueFromTokenTree.KeyCommentsIgnored` | crates/eon/src/value_from_token_tree.rs:81-84 | the same for a key |
| `ValueFromTokenTree.KeyValueCommentsIgnored` | crates/eon/src/value_from_token_tree.rs:80-88 | the same for a pair |
| `ValueFromTokenTree.KeyValuesCommentsIgnored` | crates/eon/src/value_from_token_tree.rs:78-91 | the same for the pairs of a map |
| `TokenTreeFromValue.ToTree` | crates/eon/src/token_tree_from_value.rs:12-16 | a tree with no span and no comments |
| `TokenTreeFromValue.ToTokenValue` | crates/eon/src/token_tree_from_value.rs:18-70 | a token value with no comments; strings and variant names quoted by the source's `EscapeAndQuoteAsWritten` |
| `TokenTreeFromValue.ToTrees` | crates/eon/src/token_tree_from_value.rs:26-29 | one tree per value, in order |
| `TokenTreeFromValue.ToKeyValue` | crates/eon/src/token_tree_from_value.rs:42-57 | a bare string key becomes an identifier; otherwise the key converts as a value |
| `TokenTreeFromValue.ToKeyValues` | crates/eon/src/token_tree_from_value.rs:39-60 | one pair per entry, in order |
| `TokenTreeFromValue.Keywords` | crates/eon/src/token_tree_from_value.rs:21-23 | `null`, `true` and `false` become those identifiers |
| `TokenTreeFromValue.KeyRule` | crates/eon/src/token_tree_from_value.rs:30-60 | keys are bare identifiers exactly when every key is a string that needs no quotes; values in order |
| `TokenTreeFromValue.BareKeyReadsBack` | crates/eon/src/token_tree_from_value.rs:43-48 | a bare key lexes back as one identifier token with the key's text |
| `TokenTreeFromValue.OneQuotedKeyQuotesAll` | crates/eon/src/token_tree_from_value.rs:31-37 | when any key of a map needs quotes, every string key, even one that could be bare, is written quoted by the source's `EscapeAndQuoteAsWritten` |
| `TokenTreeFromValue.RoundTrip` | crates/eon/src/token_tree_from_value.rs:18-70 | converting a plain value to a token tree and back gives the value |
| `TokenTreeFromValue.ListRoundTrip` | crates/eon/src/token_tree_from_value.rs:26-29 | a list reads back as itself when each of its elements does |
| `TokenTreeFromValue.BarePairsReadBack` | crates/eon/src/token_tree_from_value.rs:30-61 | pairs with distinct bare keys convert back to exactly the entries they came from, in order |
| `TokenTreeFromValue.MapRoundTrip` | crates/eon/src/token_tree_from_value.rs:30-61 | a map with distinct bare keys reads back as itself, in order, when each of its values does |
| `Serializer.SerializeBool` | crates/eon/src/serde/serializer.rs:53-56 | a boolean reads back as that boolean |
| `Serializer.SerializeSigned` | crates/eon/src/serde/serializer.rs:58-81 | a signed integer is a number that reads back through `as_i128` as that integer |
| `Serializer.SerializeUnsigned` | crates/eon/src/serde/serializer.rs:83-106 | an unsigned integer is a number that reads back through `as_u128` as that integer |
| `Serializer.SerializeChar` | crates/eon/src/serde/serializer.rs:118-122 | a character is the string of that one character |
| `Serializer.SerializeStr` | crates/eon/src/serde/serializer.rs:124-127 | a string reads back as that string |
| `Serializer.SerializeBytes` | crates/eon/src/serde/serializer.rs:129-132 | bytes are a list of as many numbers, each the unsigned value of its byte, in order |
| `Serializer.SerializeSome` | crates/eon/src/serde/serializer.rs:138-147 | a present option succeeds exactly when its content does, with the content's value |
| `Serializer.SerializeNewtypeStruct` | crates/eon/src/serde/serializer.rs:172-179 | a newtype struct succeeds exactly when its content does, with the content's value |
| `Serializer.SerializeUnitVariant` | crates/eon/src/serde/serializer.rs:163-171 | a unit variant is its name as a string |
| `Serializer.SerializeNewtypeVariant` | crates/eon/src/serde/serializer.rs:183-198 | succeeds exactly when the content does, as a variant of the name with one value; otherwise the content's error |
| `Serializer.NothingIsNull` | crates/eon/src/serde/serializer.rs:134-161 | `None`, `()` and unit structs are `null`; `Some` passes its content through |
| `Serializer.UnitVariantKeepsName` | crates/eon/src/serde/serializer.rs:158-198 | a unit variant is not `null`, and a newtype variant of `()` is a variant holding `null` |
| `Serializer.KeyStep` | crates/eon/src/serde/serializer.rs:406-419 | a key is taken exactly when none waits and it serialized; it then waits with the entries unchanged; a failure leaves the state alone, and a second key fails with the source's message |
| `Serializer.ValueStep` | crates/eon/src/serde/serializer.rs:425-437 | a value is stored exactly when a key waits and the value serialized; afterwards no key waits; a new key is appended and a known one keeps the length; a failure leaves the entries alone, and a value without a key fails with the source's message |
| `Serializer.FieldStep` | crates/eon/src/serde/serializer.rs:455-461 | a field is stored exactly when its value serialized, under its name as a string key, appended when new; the waiting key is untouched, and a failure leaves the state alone |
| `Serializer.EndMap` | crates/eon/src/serde/serializer.rs:440-447 | the map of the entries exactly when no key waits; otherwise the source's error |
| `Serializer.StepsKeepKeysDistinct` | crates/eon/src/serde/serializer.rs:401-467 | every map step keeps the keys distinct |
| `Serializer.Pairs` | crates/eon/src/serde/serializer.rs:401-447 | two calls per entry |
| `Serializer.PairedCallsSucceed` | crates/eon/src/serde/serializer.rs:401-447 | key and value calls in pairs succeed and insert the entries in order, and the map ends cleanly |
| `Serializer.InsertAllDistinct` | crates/eon/src/serde/serializer.rs:425-437 | inserting new distinct keys appends them |
| `Serializer.MapSerializedInOrder` | crates/eon/src/serde/serializer.rs:401-447 | a map with distinct keys serializes to itself, in order |
| `Serializer.ProtocolErrors` | crates/eon/src/serde/serializer.rs:406-447 | a key twice, a value without a key and an end after a key fail with the source's messages |
| `Serializer.MapSerializer.constructor` | crates/eon/src/serde/serializer.rs:392-399 | an empty map and no pending key |
| `Serializer.MapSerializer.SerializeKey` | crates/eon/src/serde/serializer.rs:406-419 | the new state and result are `KeyStep` of the old state |
| `Serializer.MapSerializer.SerializeValue` | crates/eon/src/serde/serializer.rs:425-437 | the new state and result are `ValueStep` of the old state |
| `Serializer.MapSerializer.SerializeField` | crates/eon/src/serde/serializer.rs:455-461 | the new state and result are `FieldStep` of the old state |
| `Serializer.MapSerializer.End` | crates/eon/src/serde/serializer.rs:440-447 | the result is `EndMap` of the state |
| `Serializer.MapSerializer.EndStruct` | crates/eon/src/serde/serializer.rs:464-466 | the map built so far |
| `Serializer.ListSerializer.constructor` | crates/eon/src/serde/serializer.rs:275-281 | an empty list |
| `Serializer.ListSerializer.SerializeElement` | crates/eon/src/serde/serializer.rs:289-297 | a value is appended; an error is returned and the list left alone |
| `Serializer.ListSerializer.End` | crates/eon/src/serde/serializer.rs:299-301 | the list built so far |
| `Serializer.TupleVariantSerializer.constructor` | crates/eon/src/serde/serializer.rs:352-359 | the variant name and no values |
| `Serializer.TupleVariantSerializer.SerializeField` | crates/eon/src/serde/serializer.rs:366-373 | a value is appended; an error is returned and the values left alone |
| `Serializer.TupleVariantSerializer.End` | crates/eon/src/serde/serializer.rs:375-381 | `new_variant` of the name and values, so no values give the name as a string |
| `Serializer.StructVariantSerializer.constructor` | crates/eon/src/serde/serializer.rs:477-493 | the variant name and an empty map |
| `Serializer.StructVariantSerializer.SerializeField` | crates/eon/src/serde/serializer.rs:500-506 | a field is inserted into the map as `FieldStep` specifies |
| `Serializer.StructVariantSerializer.End` | crates/eon/src/serde/serializer.rs:509-514 | a variant holding exactly one value, the map |

## Left out

- Spans and offsets count characters of a `seq<char>`. The source counts UTF-8 bytes. The formatter's width estimate does count UTF-8 bytes, as the source does.
- The generated lexer's automaton is modelled by its regular languages and a longest-match scanner.
  - An input the lexer cannot match becomes a one-character invalid token. The length of the generator's error span is not visible in the source.
- Debug-string escaping (`{:?}`) follows the standard escapes and `\u{…}` for control characters.
  - The model does not classify Unicode grapheme extenders or non-printable characters beyond ASCII.
- `unescape_and_unquote` calls an external unquoting library. It is a function parameter of the conversions, so no property relies on its behaviour.
- Floating-point numbers are abstract. A float carries only a sign, and a magnitude that is NaN, infinity or "finite".
  - Float parsing is a parameter (`FloatParser`).
  - The float half of `Display` is a parameter (`FloatText`) of the value-to-tree conversion.
  - `format_f32` and `format_f64` are not modelled.
- Numbers.AsI64: for a float, the source answers when the float is an integer in range. The model answers `None` for every float.
- Numbers.AsU64: answers `None` for every float, as `Numbers.AsI64` does.
- Numbers.AsI128: answers `None` for every float, as `Numbers.AsI64` does.
- Numbers.AsU128: answers `None` for every float, as `Numbers.AsI64` does.
- `as_f32` and `as_f64` are not modelled.
- Numbers.NumberEq: the source compares through `as_i128`, then `as_u128`, then `as_f64`. Its `as_i128` and `as_u128` answer for a float with an integral value, so in the source `1 == 1.0` and `0.0 == -0.0`. Floats are abstract here, so an integer never equals a float, and two floats are equal only when both are NaN or they are identical.
  - One consequence: the map `{1: 0, 1.0: 0}`, which the source rejects with "Duplicate key in map", is accepted by `ValueFromTokenTree.FromKeyValues`. `Values.Insert` and the serializer likewise keep both keys.
- Numbers.IntegerEquality: states equality between two integers only, for the reason given under `Numbers.NumberEq`.
- Numbers.HashOf: a float is hashed as itself. The source hashes an integral float as its integer, and hashes `0.0` and `-0.0` alike.
- `serialize_f32` and `serialize_f64` (`crates/eon/src/serde/serializer.rs:108-116`) are not modelled, because floats are abstract.
- The widening of `f32` to `f64` in comparisons is not modelled.
- `to_lowercase` in the keyword hint is ASCII lower-casing.
- `crates/eon/src/value/map.rs` is not part of this model.
  - The map is an insertion-ordered sequence of entries with the `IndexMap` behaviour the code relies on: `insert` keeps the position and returns the old value.
- The serde `Serialize` dispatch into the serializer is left out. A nested value reaches a serializer method as an `Outcome`: a value or a serialization error. `SerializationError::custom` is the error constructor.
- The deserializer, `crates/eon/src/serde/mod.rs` and `to_string` are not part of this model.
- `Value::from_str` (parse, then convert) and `Value::format` are not modelled as members. They compose `Parse.ParseStr` with `ValueFromTokenTree.FromTree`, and `TokenTreeFromValue.ToTree` with `Format.FormatText`.
- Error rendering with source snippets is not modelled. An error is a span and a message.
- `FormatOptions.newline` is not read by the formatter and is not modelled.
- The `eonfmt` binary, file I/O and the `con` crates are not part of this model. Span union follows `crates/con_syntax/src/span.rs`, the same `Span` and `|` the Eon syntax crate declares.
- TokenTreeFromValue.RoundTrip: the round trip covers these "plain" values:
  - `null` and booleans;
  - integers in their canonical representation, except `i128::MIN`;
  - lists;
  - maps with identifier keys, distinct keys and plain values.

  Strings and variant names are excluded because the unquoting library is a parameter. Floats are excluded because float text is a parameter.
- ParseProperties.TopKeepsComments: comments after a lone top-level value are excluded, because the source drops them (`parse.rs:194-196`). No single evident fix exists, so this is not listed as a finding.

## Findings

| source | as written | input that shows it | evidently intended | confidence | as-written member | corrected member |
|---|---|---|---|---|---|---|
| crates/eon_syntax/src/strings.rs:42-59 | a string with `"` and no `'` is written single-quoted, but its debug escapes are kept; single-quoted strings are literal | the two characters `"` and newline become `'"\n'`, which reads back as three characters | single quotes only when the string needs no escape besides `"`; otherwise double quotes | not executed | `Strings.AsWrittenLosesNewline` | `Strings.EscapeAndQuote` |
| crates/eon_syntax/src/parse.rs:265-272 | after a value, a suffix comment taken before the comma is overwritten by the comment after the comma, or by none (also at lines 311-318 for map values) | `[1 // a` + newline + `, 2]` parses to a tree without `// a` | keep the suffix comment already taken | not executed | `ParseProperties.CommaAfterSuffixComment` | `ParseProperties.TopKeepsComments` |
| crates/eon_syntax/src/format.rs:253-262 | a key's suffix comment is never written | `a // c` + newline + `: 1` formats as `a: 1` | write the comment after the key and move the separator to the next line | not executed | `FormatProperties.KeySuffixDropped` | `FormatProperties.FormatKeepsComments` |
| crates/eon_syntax/src/format.rs:287-332 | a variant whose single value is a map or list is fused, and that value's prefix and suffix comments are not written | `"V"(` + `// c` + newline + `{ a: 1 })` loses `// c` | fuse only when the single value has no comments of its own | not executed | `FormatProperties.FusedCommentDropped` | `FormatProperties.FormatKeepsComments` |
| crates/eon/src/value/number.rs:122-128 | a negative literal is read as an unsigned number and negated with `try_negate`, which fails above `i128::MAX` | `-170141183460469231731687303715884105728`, the displayed form of `i128::MIN`, fails with "Number too small" | accept magnitudes up to `2^127`, so every displayed integer reads back | not executed | `NumberProperties.MinLiteralRejected` | `NumberProperties.DisplayRoundTrip` |
