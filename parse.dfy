/**
 * The recursive-descent parser from tokens to a comment-preserving token tree.
 *
 * The parser is stated twice: as pure functions of a cursor into the token
 * sequence (the specification), and as methods over a peekable token iterator
 * whose fields change as the source's do, each proved to compute what its
 * function says.
 */
module Parse {
  import opened Common
  import opened Span
  import opened TokenKind
  import opened TokenTree

  /** Protects the recursive descent against stack overflow. */
  const MaxRecursionDepth: nat := 128

  /** A token and its place in the source; `kind` is `None` for an invalid token. */
  datatype PlacedToken = PlacedToken(span: Span, slice: string, kind: Option<Kind>)

  datatype Error = Error(span: Span, message: string)

  /** The tokens of `src`, in the order the lexer yields them. */
  function TokensOf(src: string): seq<PlacedToken> {
    Place(src, Lex(src, 0))
  }

  /** Each lexed token with its span and its text. */
  function Place(src: string, raws: seq<RawToken>): seq<PlacedToken>
    requires forall n :: 0 <= n < |raws| ==> raws[n].start <= raws[n].end <= |src|
  {
    seq(|raws|, n requires 0 <= n < |raws| =>
      PlacedToken(Span(raws[n].start, raws[n].end), src[raws[n].start..raws[n].end], raws[n].kind))
  }

  function InvalidToken(t: PlacedToken): Error {
    Error(t.span, "Invalid token: '" + t.slice + "'")
  }

  // ---------------------------------------------------------------------------
  // The token stream seen through a cursor

  /** How many tokens have been taken, and the span of the last one taken. */
  datatype Cursor = Cursor(pos: nat, last: Span)

  const Start := Cursor(0, Span(0, 0))

  /** The outcome of a parsing step and where it left the cursor, on success or failure. */
  datatype Out<T> = Out(result: Result<T, Error>, cur: Cursor)

  function PeekAt(toks: seq<PlacedToken>, c: Cursor): Option<PlacedToken> {
    if c.pos < |toks| then Some(toks[c.pos]) else None
  }

  /** Takes the next token, if any, and remembers its span. */
  function Advance(toks: seq<PlacedToken>, c: Cursor): (r: Cursor)
    ensures c.pos <= |toks| ==> r.pos <= |toks|
    ensures c.pos < |toks| ==> r.pos == c.pos + 1
  {
    if c.pos < |toks| then Cursor(c.pos + 1, toks[c.pos].span) else c
  }

  predicate NextIs(toks: seq<PlacedToken>, c: Cursor, k: Kind) {
    c.pos < |toks| && toks[c.pos].kind == Some(k)
  }

  /** List and map contents end at the end of input or at any closing token. */
  predicate AtContentsEnd(toks: seq<PlacedToken>, c: Cursor) {
    c.pos >= |toks| || toks[c.pos].kind in {Some(CloseBrace), Some(CloseList), Some(CloseParen)}
  }

  /** Depth budget left before the recursion limit. */
  function Budget(depth: nat): nat {
    if depth < MaxRecursionDepth then MaxRecursionDepth - depth else 0
  }

  // ---------------------------------------------------------------------------
  // Comments

  /** `parse_comments`: takes every comment token in a row. */
  function Comments(toks: seq<PlacedToken>, c: Cursor): (r: (seq<Comment>, Cursor))
    requires c.pos <= |toks|
    ensures c.pos <= r.1.pos <= |toks| && !NextIs(toks, r.1, Comment)
    ensures r.1.pos == c.pos ==> r.1 == c
    ensures forall n :: c.pos <= n < r.1.pos ==> toks[n].kind == Some(Comment)
    ensures r.0 == CommentsIn(toks, c.pos, r.1.pos)
    decreases |toks| - c.pos
  {
    if NextIs(toks, c, Comment) then
      var rest := Comments(toks, Advance(toks, c));
      ([toks[c.pos].slice] + rest.0, rest.1)
    else ([], c)
  }

  /** The slices of the comment tokens among `toks[a..b]`, in order. */
  function CommentsIn(toks: seq<PlacedToken>, a: nat, b: nat): seq<Comment>
    requires a <= b <= |toks|
    decreases b - a
  {
    if a == b then []
    else (if toks[a].kind == Some(Comment) then [toks[a].slice] else []) + CommentsIn(toks, a + 1, b)
  }

  /** Some position in `[a, b)` of `src` holds a newline. */
  predicate NewlineBetween(src: string, a: nat, b: nat) {
    exists m :: a <= m < b && m < |src| && src[m] == '\n'
  }

  /** `src[a..b].contains('\n')`, scanned from the left. */
  function ContainsNewline(src: string, a: nat, b: nat): (r: bool)
    ensures r <==> NewlineBetween(src, a, b)
    decreases b - a
  {
    if a >= b || a >= |src| then false
    else if src[a] == '\n' then true
    else ContainsNewline(src, a + 1, b)
  }

  /**
   * `parse_suffix_comment`: the next token is taken as the suffix comment of
   * what precedes it only when it is a comment on the same line as the last
   * token taken. (The source's error branch here cannot be taken: the token
   * taken is the comment just peeked.)
   */
  function SuffixComment(src: string, toks: seq<PlacedToken>, c: Cursor): (r: (Option<Comment>, Cursor))
    requires c.pos <= |toks|
    ensures r.0.Some? <==> NextIs(toks, c, Comment) && !NewlineBetween(src, c.last.end, toks[c.pos].span.start)
    ensures r.0.Some? ==> r.0.value == toks[c.pos].slice && r.1 == Advance(toks, c)
    ensures r.0.None? ==> r.1 == c
  {
    if !NextIs(toks, c, Comment) then (None, c)
    else if ContainsNewline(src, c.last.end, toks[c.pos].span.start) then (None, c)
    else (Some(toks[c.pos].slice), Advance(toks, c))
  }

  // ---------------------------------------------------------------------------
  // Single tokens

  /** `consume_token`: the next token must be of the expected kind. */
  function Consume(toks: seq<PlacedToken>, c: Cursor, expected: Kind): (r: Out<()>)
    requires c.pos <= |toks|
    ensures r.result.Ok? <==> NextIs(toks, c, expected)
    ensures r.cur == Advance(toks, c)
  {
    if c.pos < |toks| then
      var t := toks[c.pos];
      var c2 := Advance(toks, c);
      match t.kind
      case None => Out(Err(InvalidToken(t)), c2)
      case Some(k) =>
        if k == expected then Out(Ok(()), c2)
        else Out(Err(Error(t.span, "Expected " + Name(expected) + " but found " + Name(k))), c2)
    else Out(Err(Error(c.last, "Expected " + Name(expected) + " but reached end of input")), c)
  }

  /** `check_for_trailing_tokens`: nothing may follow the document. */
  function Trailing(toks: seq<PlacedToken>, c: Cursor): (r: Out<()>)
    requires c.pos <= |toks|
    ensures r.result.Ok? <==> c.pos == |toks|
  {
    if c.pos < |toks| then
      var t := toks[c.pos];
      match t.kind
      case None => Out(Err(InvalidToken(t)), Advance(toks, c))
      case Some(_) => Out(Err(Error(t.span, "Expected end of file here")), Advance(toks, c))
    else Out(Ok(()), c)
  }

  // ---------------------------------------------------------------------------
  // Trees

  /**
   * What becomes of an item's suffix comment when a comma follows the item.
   * `Overwrite` is what the source does: the comment after the comma, or none,
   * replaces whatever suffix comment the item already had. `KeepFirst` is the
   * correction: an item that already has a suffix comment keeps it, and a
   * comment after the comma is left for the next item.
   */
  datatype CommaPolicy = Overwrite | KeepFirst

  /** After an item: an optional comma, and the suffix comment that may follow it. */
  function AfterItem(src: string, toks: seq<PlacedToken>, c: Cursor, item: TokenTree, policy: CommaPolicy): (r: (TokenTree, Cursor))
    requires c.pos <= |toks|
    ensures c.pos <= r.1.pos <= |toks|
    ensures r.0.span == item.span && r.0.prefixComments == item.prefixComments && r.0.value == item.value
  {
    if NextIs(toks, c, Comma) then
      var c2 := Advance(toks, c);
      if policy == KeepFirst && item.suffixComment.Some? then (item, c2)
      else
        var s := SuffixComment(src, toks, c2);
        (item.(suffixComment := s.0), s.1)
    else (item, c)
  }

  /** `parse_token_tree`: a value with its prefix and suffix comments. */
  function Tree(src: string, toks: seq<PlacedToken>, c: Cursor, depth: nat, policy: CommaPolicy): (r: Out<TokenTree>)
    requires c.pos <= |toks|
    ensures c.pos <= r.cur.pos <= |toks|
    ensures r.result.Ok? ==> r.cur.pos > c.pos
    decreases Budget(depth), |toks| - c.pos, 0
  {
    if depth >= MaxRecursionDepth then
      Out(Err(Error(c.last, "Maximum recursion depth exceeded while parsing document")), c)
    else
      var (prefix, c1) := Comments(toks, c);
      if c1.pos == |toks| then
        Out(Err(Error(Span(|src|, |src|), "Unexpected end of input: expected a value")), c1)
      else
        var t := toks[c1.pos];
        var c2 := Advance(toks, c1);
        match t.kind
        case None => Out(Err(InvalidToken(t)), c2)
        case Some(k) =>
          var body := Value(src, toks, c2, depth, t, k, policy);
          match body.result
          case Err(e) => Out(Err(e), body.cur)
          case Ok(value) =>
            var span := Union(c2.last, body.cur.last);
            var (suffix, c3) := SuffixComment(src, toks, body.cur);
            Out(Ok(TokenTree(Some(span), prefix, value, suffix)), c3)
  }

  /** The value that begins with token `t`, of kind `k`, already taken. */
  function Value(src: string, toks: seq<PlacedToken>, c: Cursor, depth: nat, t: PlacedToken, k: Kind, policy: CommaPolicy): (r: Out<TokenValue>)
    requires c.pos <= |toks| && depth < MaxRecursionDepth && k != Comment
    ensures c.pos <= r.cur.pos <= |toks|
    decreases Budget(depth), |toks| - c.pos, 1
  {
    match k
    case OpenList =>
      var l := ListContents(src, toks, c, depth + 1, [], policy);
      if l.result.Err? then Out(Err(l.result.error), l.cur)
      else
        var close := Consume(toks, l.cur, CloseList);
        if close.result.Err? then Out(Err(close.result.error), close.cur)
        else Out(Ok(List(l.result.value)), close.cur)
    case OpenBrace =>
      var m := MapContents(src, toks, c, depth + 1, [], policy);
      if m.result.Err? then Out(Err(m.result.error), m.cur)
      else
        var close := Consume(toks, m.cur, CloseBrace);
        if close.result.Err? then Out(Err(close.result.error), close.cur)
        else Out(Ok(Map(m.result.value)), close.cur)
    case Identifier => Out(Ok(TokenValue.Identifier(t.slice)), c)
    case Number => Out(Ok(TokenValue.Number(t.slice)), c)
    case DoubleQuotedString => QuotedOrVariant(src, toks, c, depth, t, policy)
    case SingleQuotedString => QuotedOrVariant(src, toks, c, depth, t, policy)
    case MultilineBasicString => QuotedOrVariant(src, toks, c, depth, t, policy)
    case MultilineLiteralString => QuotedOrVariant(src, toks, c, depth, t, policy)
    case CloseList => Out(Err(Error(t.span, "Unbalanced brackets")), c)
    case CloseBrace => Out(Err(Error(t.span, "Unbalanced braces")), c)
    case CloseParen => Out(Err(Error(t.span, "Unbalanced parentheses")), c)
    case OpenParen => Out(Err(Error(t.span, "Parentheses must be proceeded by a string")), c)
    case Colon => Out(Err(Error(t.span, "Expected a value, like a map, list, number, or string")), c)
    case Comma => Out(Err(Error(t.span, "Expected a value, like a map, list, number, or string")), c)
  }

  /** A string token is a variant name when an open parenthesis follows it, and a string otherwise. */
  function QuotedOrVariant(src: string, toks: seq<PlacedToken>, c: Cursor, depth: nat, t: PlacedToken, policy: CommaPolicy): (r: Out<TokenValue>)
    requires c.pos <= |toks| && depth < MaxRecursionDepth
    ensures c.pos <= r.cur.pos <= |toks|
    decreases Budget(depth), |toks| - c.pos, 0
  {
    if NextIs(toks, c, OpenParen) then
      var l := ListContents(src, toks, Advance(toks, c), depth + 1, [], policy);
      if l.result.Err? then Out(Err(l.result.error), l.cur)
      else
        var close := Consume(toks, l.cur, CloseParen);
        if close.result.Err? then Out(Err(close.result.error), close.cur)
        else Out(Ok(Variant(TokenVariant(Some(t.span), t.slice, l.result.value.values, l.result.value.closingComments))), close.cur)
    else Out(Ok(QuotedString(t.slice)), c)
  }

  /** `parse_list_contents`, from the point where `acc` holds the items parsed so far. */
  function ListContents(src: string, toks: seq<PlacedToken>, c: Cursor, depth: nat, acc: seq<TokenTree>, policy: CommaPolicy): (r: Out<TokenList>)
    requires c.pos <= |toks|
    ensures c.pos <= r.cur.pos <= |toks|
    ensures r.result.Ok? ==> AtContentsEnd(toks, r.cur)
    decreases Budget(depth), |toks| - c.pos, 2
  {
    var (prefix, c1) := Comments(toks, c);
    if AtContentsEnd(toks, c1) then Out(Ok(TokenList(acc, prefix)), c1)
    else
      var v := Item(src, toks, c1, depth, prefix, policy);
      match v.result
      case Err(e) => Out(Err(e), v.cur)
      case Ok(item) => ListContents(src, toks, v.cur, depth, acc + [item], policy)
  }

  /** One item of list contents, preceded by the comments `prefix`, and an optional comma. */
  function Item(src: string, toks: seq<PlacedToken>, c: Cursor, depth: nat, prefix: seq<Comment>, policy: CommaPolicy): (r: Out<TokenTree>)
    requires c.pos <= |toks|
    ensures c.pos <= r.cur.pos <= |toks|
    ensures r.result.Ok? ==> r.cur.pos > c.pos
    decreases Budget(depth), |toks| - c.pos, 1
  {
    var v := Tree(src, toks, c, depth + 1, policy);
    match v.result
    case Err(e) => Out(Err(e), v.cur)
    case Ok(tree) =>
      var (item, c2) := AfterItem(src, toks, v.cur, tree.(prefixComments := prefix + tree.prefixComments), policy);
      Out(Ok(item), c2)
  }

  /** `parse_map_contents`, from the point where `acc` holds the pairs parsed so far. */
  function MapContents(src: string, toks: seq<PlacedToken>, c: Cursor, depth: nat, acc: seq<TokenKeyValue>, policy: CommaPolicy): (r: Out<TokenMap>)
    requires c.pos <= |toks|
    ensures c.pos <= r.cur.pos <= |toks|
    ensures r.result.Ok? ==> AtContentsEnd(toks, r.cur)
    decreases Budget(depth), |toks| - c.pos, 2
  {
    var (prefix, c1) := Comments(toks, c);
    if AtContentsEnd(toks, c1) then Out(Ok(TokenMap(acc, prefix)), c1)
    else
      var kv := KeyValue(src, toks, c1, depth, prefix, policy);
      match kv.result
      case Err(e) => Out(Err(e), kv.cur)
      case Ok(pair) => MapContents(src, toks, kv.cur, depth, acc + [pair], policy)
  }

  /** One `key: value` pair of map contents, whose key the comments `prefix` precede. */
  function KeyValue(src: string, toks: seq<PlacedToken>, c: Cursor, depth: nat, prefix: seq<Comment>, policy: CommaPolicy): (r: Out<TokenKeyValue>)
    requires c.pos <= |toks|
    ensures c.pos <= r.cur.pos <= |toks|
    ensures r.result.Ok? ==> r.cur.pos > c.pos
    decreases Budget(depth), |toks| - c.pos, 1
  {
    var k := Tree(src, toks, c, depth + 1, policy);
    match k.result
    case Err(e) => Out(Err(e), k.cur)
    case Ok(keyTree) =>
      var key := keyTree.(prefixComments := prefix);
      var colon := Consume(toks, k.cur, Colon);
      if colon.result.Err? then Out(Err(colon.result.error), colon.cur)
      else
        var v := Tree(src, toks, colon.cur, depth + 1, policy);
        match v.result
        case Err(e) => Out(Err(e), v.cur)
        case Ok(valueTree) =>
          var (value, c2) := AfterItem(src, toks, v.cur, valueTree, policy);
          Out(Ok(TokenKeyValue(key, value)), c2)
  }

  /**
   * `parse_top_str`: the document as brace-less map contents; failing that,
   * as list contents, a single value standing for itself; failing both, the
   * error of the attempt that got further, ties going to the map.
   */
  function Top(src: string, toks: seq<PlacedToken>, policy: CommaPolicy): Result<TokenTree, Error> {
    var a := MapContents(src, toks, Start, 0, [], policy);
    match a.result
    case Ok(entries) =>
      var trailing := Trailing(toks, a.cur);
      if trailing.result.Err? then Err(trailing.result.error)
      else Ok(TokenTree(Some(Span(0, |src|)), [], Map(entries), None))
    case Err(errA) =>
      var b := ListContents(src, toks, Start, 0, [], policy);
      match b.result
      case Ok(list) =>
        var trailing := Trailing(toks, b.cur);
        if trailing.result.Err? then Err(trailing.result.error)
        else if |list.values| == 1 then Ok(list.values[0])
        else Ok(TokenTree(Some(Span(0, |src|)), [], List(list), None))
      case Err(errB) =>
        if a.cur.last.end < b.cur.last.end then Err(errB) else Err(errA)
  }

  /** `TokenTree::parse_str`: the source's parser. */
  function ParseStr(src: string): Result<TokenTree, Error> {
    Top(src, TokensOf(src), Overwrite)
  }

  // ---------------------------------------------------------------------------
  // The parser over a peekable token iterator

  /**
   * `PeekableIter`: the lexer's tokens with one token of look-ahead, and the
   * span of the last token taken. `pulled` counts the tokens the lexer has
   * handed over, including one held in `peeked`.
   */
  class PeekableIter {
    const source: string
    const tokens: seq<PlacedToken>
    var pulled: nat
    /** A peeked token, or a peeked end of input. */
    var peeked: Option<Option<PlacedToken>>
    var lastSpan: Span

    ghost predicate Valid()
      reads this
    {
      pulled <= |tokens| &&
      match peeked
      case None => true
      case Some(None) => pulled == |tokens|
      case Some(Some(t)) => 0 < pulled && tokens[pulled - 1] == t
    }

    /** Where the parser stands: the tokens taken, not counting one only peeked at. */
    ghost function Cur(): (c: Cursor)
      reads this
      requires Valid()
      ensures c.pos <= |tokens|
    {
      Cursor(if peeked.Some? && peeked.value.Some? then pulled - 1 else pulled, lastSpan)
    }

    constructor (source: string)
      ensures this.source == source && tokens == TokensOf(source)
      ensures Valid() && Cur() == Start
    {
      this.source := source;
      tokens := TokensOf(source);
      pulled := 0;
      peeked := None;
      lastSpan := Span(0, 0);
    }

    /** The lexer behind the iterator: hands over its next token, if any. */
    method Pull() returns (t: Option<PlacedToken>)
      requires pulled <= |tokens|
      modifies `pulled
      ensures old(pulled) < |tokens| ==> t == Some(tokens[old(pulled)]) && pulled == old(pulled) + 1
      ensures old(pulled) == |tokens| ==> t.None? && pulled == old(pulled)
    {
      if pulled < |tokens| {
        t := Some(tokens[pulled]);
        pulled := pulled + 1;
      } else {
        t := None;
      }
    }

    /** `peek`: the next token, which stays next. */
    method Peek() returns (t: Option<PlacedToken>)
      requires Valid()
      modifies `pulled, `peeked
      ensures Valid() && Cur() == old(Cur())
      ensures t == PeekAt(tokens, Cur()) && peeked == Some(t)
    {
      if peeked.None? {
        var n := Pull();
        peeked := Some(n);
      }
      t := peeked.value;
    }

    /** `next`: takes the next token and, when there is one, remembers its span. */
    method Next() returns (t: Option<PlacedToken>)
      requires Valid()
      modifies this
      ensures Valid() && peeked.None?
      ensures t == PeekAt(tokens, old(Cur())) && Cur() == Advance(tokens, old(Cur()))
    {
      if peeked.Some? {
        t := peeked.value;
        peeked := None;
      } else {
        t := Pull();
      }
      if t.Some? {
        lastSpan := t.value.span;
      }
    }

    /** `span_of_next`: the span of a peeked token, and otherwise that of the last token taken. */
    function SpanOfNext(): (s: Span)
      reads this
      requires Valid()
      ensures peeked.Some? ==> s == match PeekAt(tokens, Cur()) case Some(t) => t.span case None => Cur().last
      ensures peeked.None? ==> s == lastSpan
    {
      match peeked
      case Some(Some(t)) => t.span
      case _ => lastSpan
    }

    function SpanOfPrevious(): Span
      reads this
    {
      lastSpan
    }

    function EndSpan(): Span {
      Span(|source|, |source|)
    }
  }

  /** `parse_comments` */
  method ParseComments(tokens: PeekableIter) returns (comments: seq<Comment>)
    requires tokens.Valid()
    modifies tokens
    ensures tokens.Valid()
    ensures comments == Comments(tokens.tokens, old(tokens.Cur())).0
    ensures tokens.Cur() == Comments(tokens.tokens, old(tokens.Cur())).1
  {
    comments := [];
    ghost var c0 := tokens.Cur();
    while true
      invariant tokens.Valid()
      invariant Comments(tokens.tokens, c0).0 == comments + Comments(tokens.tokens, tokens.Cur()).0
      invariant Comments(tokens.tokens, c0).1 == Comments(tokens.tokens, tokens.Cur()).1
      decreases |tokens.tokens| - tokens.Cur().pos
    {
      var t := tokens.Peek();
      if t.Some? && t.value.kind == Some(Comment) {
        comments := comments + [t.value.slice];
        var _ := tokens.Next();
      } else {
        assert Comments(tokens.tokens, tokens.Cur()) == ([], tokens.Cur());
        break;
      }
    }
  }

  /**
   * `parse_suffix_comment`. The source's error and `None` results after taking
   * the comment cannot happen: the token taken is the comment just peeked.
   */
  method ParseSuffixComment(tokens: PeekableIter) returns (comment: Option<Comment>)
    requires tokens.Valid()
    modifies tokens
    ensures tokens.Valid()
    ensures comment == SuffixComment(tokens.source, tokens.tokens, old(tokens.Cur())).0
    ensures tokens.Cur() == SuffixComment(tokens.source, tokens.tokens, old(tokens.Cur())).1
  {
    var previous := tokens.SpanOfPrevious();
    var t := tokens.Peek();
    if t.None? || t.value.kind != Some(Comment) {
      return None;
    }
    var commentSpan := t.value.span;
    if ContainsNewline(tokens.source, previous.end, commentSpan.start) {
      return None;
    }
    var n := tokens.Next();
    comment := Some(n.value.slice);
  }

  /** `consume_token` */
  method ConsumeToken(tokens: PeekableIter, expected: Kind) returns (r: Result<(), Error>)
    requires tokens.Valid()
    modifies tokens
    ensures tokens.Valid()
    ensures Out(r, tokens.Cur()) == Consume(tokens.tokens, old(tokens.Cur()), expected)
  {
    var n := tokens.Next();
    match n
    case Some(token) => {
      match token.kind
      case None => r := Err(InvalidToken(token));
      case Some(k) =>
        if k == expected {
          r := Ok(());
        } else {
          r := Err(Error(token.span, "Expected " + Name(expected) + " but found " + Name(k)));
        }
    }
    case None =>
      r := Err(Error(tokens.SpanOfPrevious(), "Expected " + Name(expected) + " but reached end of input"));
  }

  /** `check_for_trailing_tokens` */
  method CheckForTrailingTokens(tokens: PeekableIter) returns (r: Result<(), Error>)
    requires tokens.Valid()
    modifies tokens
    ensures tokens.Valid()
    ensures Out(r, tokens.Cur()) == Trailing(tokens.tokens, old(tokens.Cur()))
  {
    var n := tokens.Next();
    match n
    case Some(token) => {
      match token.kind
      case None => r := Err(InvalidToken(token));
      case Some(_) => r := Err(Error(token.span, "Expected end of file here"));
    }
    case None => r := Ok(());
  }

  /** `parse_token_tree` */
  method ParseTokenTree(tokens: PeekableIter, depth: nat) returns (r: Result<TokenTree, Error>)
    requires tokens.Valid()
    modifies tokens
    ensures tokens.Valid()
    ensures Out(r, tokens.Cur()) == Tree(tokens.source, tokens.tokens, old(tokens.Cur()), depth, Overwrite)
    decreases Budget(depth), |tokens.tokens| - tokens.Cur().pos, 0
  {
    if depth >= MaxRecursionDepth {
      return Err(Error(tokens.SpanOfPrevious(), "Maximum recursion depth exceeded while parsing document"));
    }
    var prefix := ParseComments(tokens);
    var n := tokens.Next();
    if n.None? {
      return Err(Error(tokens.EndSpan(), "Unexpected end of input: expected a value"));
    }
    var token := n.value;
    if token.kind.None? {
      return Err(InvalidToken(token));
    }
    var startSpan := tokens.SpanOfNext();
    var value := ParseValue(tokens, depth, token, token.kind.value);
    if value.Err? {
      return Err(value.error);
    }
    var span := Union(startSpan, tokens.SpanOfPrevious());
    var suffix := ParseSuffixComment(tokens);
    r := Ok(TokenTree(Some(span), prefix, value.value, suffix));
  }

  /** The `match` of `parse_token_tree` on the kind `k` of the token `token`, just taken. */
  method ParseValue(tokens: PeekableIter, depth: nat, token: PlacedToken, k: Kind) returns (r: Result<TokenValue, Error>)
    requires tokens.Valid() && depth < MaxRecursionDepth && k != Comment
    modifies tokens
    ensures tokens.Valid()
    ensures Out(r, tokens.Cur()) == Value(tokens.source, tokens.tokens, old(tokens.Cur()), depth, token, k, Overwrite)
    decreases Budget(depth), |tokens.tokens| - tokens.Cur().pos, 1
  {
    match k {
      case OpenList =>
        var list := ParseListContents(tokens, depth + 1);
        if list.Err? {
          return Err(list.error);
        }
        var close := ConsumeToken(tokens, CloseList);
        if close.Err? {
          return Err(close.error);
        }
        r := Ok(List(list.value));
      case OpenBrace =>
        var entries := ParseMapContents(tokens, depth + 1);
        if entries.Err? {
          return Err(entries.error);
        }
        var close := ConsumeToken(tokens, CloseBrace);
        if close.Err? {
          return Err(close.error);
        }
        r := Ok(Map(entries.value));
      case Identifier =>
        r := Ok(TokenValue.Identifier(token.slice));
      case Number =>
        r := Ok(TokenValue.Number(token.slice));
      case DoubleQuotedString =>
        r := ParseQuotedOrVariant(tokens, depth, token);
      case SingleQuotedString =>
        r := ParseQuotedOrVariant(tokens, depth, token);
      case MultilineBasicString =>
        r := ParseQuotedOrVariant(tokens, depth, token);
      case MultilineLiteralString =>
        r := ParseQuotedOrVariant(tokens, depth, token);
      case Comment =>
        // The comments before the value have all been taken.
        assert false;
      case CloseList =>
        return Err(Error(token.span, "Unbalanced brackets"));
      case CloseBrace =>
        return Err(Error(token.span, "Unbalanced braces"));
      case CloseParen =>
        return Err(Error(token.span, "Unbalanced parentheses"));
      case OpenParen =>
        return Err(Error(token.span, "Parentheses must be proceeded by a string"));
      case Colon =>
        return Err(Error(token.span, "Expected a value, like a map, list, number, or string"));
      case Comma =>
        return Err(Error(token.span, "Expected a value, like a map, list, number, or string"));
    }
  }

  /** The string-or-variant arm of `parse_token_tree`, once the string token `token` is taken. */
  method ParseQuotedOrVariant(tokens: PeekableIter, depth: nat, token: PlacedToken) returns (r: Result<TokenValue, Error>)
    requires tokens.Valid() && depth < MaxRecursionDepth
    modifies tokens
    ensures tokens.Valid()
    ensures Out(r, tokens.Cur()) == QuotedOrVariant(tokens.source, tokens.tokens, old(tokens.Cur()), depth, token, Overwrite)
    decreases Budget(depth), |tokens.tokens| - tokens.Cur().pos, 0
  {
    var next := tokens.Peek();
    if next.Some? && next.value.kind == Some(OpenParen) {
      var _ := tokens.Next();
      var list := ParseListContents(tokens, depth + 1);
      if list.Err? {
        return Err(list.error);
      }
      var close := ConsumeToken(tokens, CloseParen);
      if close.Err? {
        return Err(close.error);
      }
      r := Ok(Variant(TokenVariant(Some(token.span), token.slice, list.value.values, list.value.closingComments)));
    } else {
      r := Ok(QuotedString(token.slice));
    }
  }

  /** `parse_list_contents` */
  method ParseListContents(tokens: PeekableIter, depth: nat) returns (r: Result<TokenList, Error>)
    requires tokens.Valid()
    modifies tokens
    ensures tokens.Valid()
    ensures Out(r, tokens.Cur()) == ListContents(tokens.source, tokens.tokens, old(tokens.Cur()), depth, [], Overwrite)
    decreases Budget(depth), |tokens.tokens| - tokens.Cur().pos, 2
  {
    var values: seq<TokenTree> := [];
    ghost var c0 := tokens.Cur();
    while true
      invariant tokens.Valid() && c0.pos <= tokens.Cur().pos
      invariant ListContents(tokens.source, tokens.tokens, c0, depth, [], Overwrite)
             == ListContents(tokens.source, tokens.tokens, tokens.Cur(), depth, values, Overwrite)
      decreases |tokens.tokens| - tokens.Cur().pos
    {
      var prefix := ParseComments(tokens);
      var next := tokens.Peek();
      if next.None? || next.value.kind in {Some(CloseBrace), Some(CloseList), Some(CloseParen)} {
        return Ok(TokenList(values, prefix));
      }
      var item := ParseItem(tokens, depth, prefix);
      if item.Err? {
        return Err(item.error);
      }
      values := values + [item.value];
    }
  }

  /** The body of the loop of `parse_list_contents`: a value and an optional comma. */
  method ParseItem(tokens: PeekableIter, depth: nat, prefix: seq<Comment>) returns (r: Result<TokenTree, Error>)
    requires tokens.Valid()
    modifies tokens
    ensures tokens.Valid()
    ensures Out(r, tokens.Cur()) == Item(tokens.source, tokens.tokens, old(tokens.Cur()), depth, prefix, Overwrite)
    decreases Budget(depth), |tokens.tokens| - tokens.Cur().pos, 1
  {
    var tree := ParseTokenTree(tokens, depth + 1);
    if tree.Err? {
      return Err(tree.error);
    }
    var value := tree.value.(prefixComments := prefix + tree.value.prefixComments);
    var next := tokens.Peek();
    if next.Some? && next.value.kind == Some(Comma) {
      var _ := tokens.Next();
      var suffix := ParseSuffixComment(tokens);
      value := value.(suffixComment := suffix);
    }
    r := Ok(value);
  }

  /** `parse_map_contents` */
  method ParseMapContents(tokens: PeekableIter, depth: nat) returns (r: Result<TokenMap, Error>)
    requires tokens.Valid()
    modifies tokens
    ensures tokens.Valid()
    ensures Out(r, tokens.Cur()) == MapContents(tokens.source, tokens.tokens, old(tokens.Cur()), depth, [], Overwrite)
    decreases Budget(depth), |tokens.tokens| - tokens.Cur().pos, 2
  {
    var keyValues: seq<TokenKeyValue> := [];
    ghost var c0 := tokens.Cur();
    while true
      invariant tokens.Valid() && c0.pos <= tokens.Cur().pos
      invariant MapContents(tokens.source, tokens.tokens, c0, depth, [], Overwrite)
             == MapContents(tokens.source, tokens.tokens, tokens.Cur(), depth, keyValues, Overwrite)
      decreases |tokens.tokens| - tokens.Cur().pos
    {
      var prefix := ParseComments(tokens);
      var next := tokens.Peek();
      if next.None? || next.value.kind in {Some(CloseBrace), Some(CloseList), Some(CloseParen)} {
        return Ok(TokenMap(keyValues, prefix));
      }
      var pair := ParseKeyValue(tokens, depth, prefix);
      if pair.Err? {
        return Err(pair.error);
      }
      keyValues := keyValues + [pair.value];
    }
  }

  /** The body of the loop of `parse_map_contents`: a key, a colon, a value and an optional comma. */
  method ParseKeyValue(tokens: PeekableIter, depth: nat, prefix: seq<Comment>) returns (r: Result<TokenKeyValue, Error>)
    requires tokens.Valid()
    modifies tokens
    ensures tokens.Valid()
    ensures Out(r, tokens.Cur()) == KeyValue(tokens.source, tokens.tokens, old(tokens.Cur()), depth, prefix, Overwrite)
    decreases Budget(depth), |tokens.tokens| - tokens.Cur().pos, 1
  {
    var keyTree := ParseTokenTree(tokens, depth + 1);
    if keyTree.Err? {
      return Err(keyTree.error);
    }
    var key := keyTree.value.(prefixComments := prefix);
    var colon := ConsumeToken(tokens, Colon);
    if colon.Err? {
      return Err(colon.error);
    }
    var valueTree := ParseTokenTree(tokens, depth + 1);
    if valueTree.Err? {
      return Err(valueTree.error);
    }
    var value := valueTree.value;
    var next := tokens.Peek();
    if next.Some? && next.value.kind == Some(Comma) {
      var _ := tokens.Next();
      var suffix := ParseSuffixComment(tokens);
      value := value.(suffixComment := suffix);
    }
    r := Ok(TokenKeyValue(key, value));
  }

  /** `parse_top_str`: the document as a map, as a list, or the error of the attempt that got further. */
  method ParseTopStr(src: string) returns (r: Result<TokenTree, Error>)
    ensures r == ParseStr(src)
  {
    var tokensA := new PeekableIter(src);
    var a := ParseMapContents(tokensA, 0);
    match a {
      case Ok(entries) =>
        var trailing := CheckForTrailingTokens(tokensA);
        if trailing.Err? {
          return Err(trailing.error);
        }
        r := Ok(TokenTree(Some(Span(0, |src|)), [], Map(entries), None));
      case Err(errA) =>
        var tokensB := new PeekableIter(src);
        var b := ParseListContents(tokensB, 0);
        match b {
          case Ok(list) =>
            var trailing := CheckForTrailingTokens(tokensB);
            if trailing.Err? {
              return Err(trailing.error);
            }
            if |list.values| == 1 {
              r := Ok(list.values[0]);
            } else {
              r := Ok(TokenTree(Some(Span(0, |src|)), [], List(list), None));
            }
          case Err(errB) =>
            if tokensA.SpanOfPrevious().end < tokensB.SpanOfPrevious().end {
              r := Err(errB);
            } else {
              r := Err(errA);
            }
        }
    }
  }
}
