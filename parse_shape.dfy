/**
 * What the parser guarantees about the shape of what it builds: how deep a
 * document may nest, which tokens may begin a variant or a value, where the
 * comments before a value go, and how the top level chooses between the
 * brace-less map and the list.
 */
module ParseShape {
  import opened Common
  import opened Span
  import opened TokenKind
  import opened TokenTree
  import opened Parse

  // ---------------------------------------------------------------------------
  // The recursion limit

  /** At depth 128 or more, no tree is parsed, whatever the tokens. */
  lemma RecursionLimit(src: string, toks: seq<PlacedToken>, c: Cursor, depth: nat, policy: CommaPolicy)
    requires c.pos <= |toks| && depth >= 128
    ensures Tree(src, toks, c, depth, policy) ==
      Out(Err(Error(c.last, "Maximum recursion depth exceeded while parsing document")), c)
  {
  }

  lemma MaxNestingFirst(ts: seq<TokenTree>)
    requires |ts| > 0
    ensures TreeNesting(ts[0]) <= MaxNesting(ts)
  {
  }

  /**
   * Every bracket level costs two levels of depth (the tree and its
   * contents), so a tree parsed at `depth` nests at most `(129 - depth) / 2`
   * brackets deep.
   */
  lemma {:induction false} TreeDepth(src: string, toks: seq<PlacedToken>, c: Cursor, depth: nat, policy: CommaPolicy)
    requires c.pos <= |toks|
    ensures var r := Tree(src, toks, c, depth, policy);
      r.result.Ok? ==> depth + 2 * TreeNesting(r.result.value) <= 129
    decreases Budget(depth), |toks| - c.pos, 0
  {
    if depth < MaxRecursionDepth {
      var (prefix, c1) := Comments(toks, c);
      if c1.pos < |toks| && toks[c1.pos].kind.Some? {
        var t := toks[c1.pos];
        ValueDepth(src, toks, Advance(toks, c1), depth, t, t.kind.value, policy);
      }
    }
  }

  lemma {:induction false} ValueDepth(src: string, toks: seq<PlacedToken>, c: Cursor, depth: nat, t: PlacedToken, k: Kind, policy: CommaPolicy)
    requires c.pos <= |toks| && depth < MaxRecursionDepth && k != Comment
    ensures var r := Value(src, toks, c, depth, t, k, policy);
      r.result.Ok? ==> depth + 2 * Nesting(r.result.value) <= 129
    decreases Budget(depth), |toks| - c.pos, 1
  {
    match k
    case OpenList => ListDepth(src, toks, c, depth + 1, [], policy);
    case OpenBrace => MapDepth(src, toks, c, depth + 1, [], policy);
    case DoubleQuotedString => QuotedOrVariantDepth(src, toks, c, depth, t, policy);
    case SingleQuotedString => QuotedOrVariantDepth(src, toks, c, depth, t, policy);
    case MultilineBasicString => QuotedOrVariantDepth(src, toks, c, depth, t, policy);
    case MultilineLiteralString => QuotedOrVariantDepth(src, toks, c, depth, t, policy);
    case _ =>
  }

  lemma {:induction false} QuotedOrVariantDepth(src: string, toks: seq<PlacedToken>, c: Cursor, depth: nat, t: PlacedToken, policy: CommaPolicy)
    requires c.pos <= |toks| && depth < MaxRecursionDepth
    ensures var r := QuotedOrVariant(src, toks, c, depth, t, policy);
      r.result.Ok? ==> depth + 2 * Nesting(r.result.value) <= 129
    decreases Budget(depth), |toks| - c.pos, 0
  {
    if NextIs(toks, c, OpenParen) {
      ListDepth(src, toks, Advance(toks, c), depth + 1, [], policy);
    }
  }

  lemma {:induction false} ListDepth(src: string, toks: seq<PlacedToken>, c: Cursor, depth: nat, acc: seq<TokenTree>, policy: CommaPolicy)
    requires c.pos <= |toks| && depth + 1 + 2 * MaxNesting(acc) <= 129
    ensures var r := ListContents(src, toks, c, depth, acc, policy);
      r.result.Ok? ==> depth + 1 + 2 * MaxNesting(r.result.value.values) <= 129
    decreases Budget(depth), |toks| - c.pos, 2
  {
    var (prefix, c1) := Comments(toks, c);
    if !AtContentsEnd(toks, c1) {
      var v := Item(src, toks, c1, depth, prefix, policy);
      ItemDepth(src, toks, c1, depth, prefix, policy);
      if v.result.Ok? {
        MaxNestingAppend(acc, v.result.value);
        ListDepth(src, toks, v.cur, depth, acc + [v.result.value], policy);
      }
    }
  }

  lemma {:induction false} ItemDepth(src: string, toks: seq<PlacedToken>, c: Cursor, depth: nat, prefix: seq<Comment>, policy: CommaPolicy)
    requires c.pos <= |toks|
    ensures var r := Item(src, toks, c, depth, prefix, policy);
      r.result.Ok? ==> depth + 1 + 2 * TreeNesting(r.result.value) <= 129
    decreases Budget(depth), |toks| - c.pos, 1
  {
    TreeDepth(src, toks, c, depth + 1, policy);
  }

  lemma {:induction false} MapDepth(src: string, toks: seq<PlacedToken>, c: Cursor, depth: nat, acc: seq<TokenKeyValue>, policy: CommaPolicy)
    requires c.pos <= |toks| && depth + 1 + 2 * MaxKeyValueNesting(acc) <= 129
    ensures var r := MapContents(src, toks, c, depth, acc, policy);
      r.result.Ok? ==> depth + 1 + 2 * MaxKeyValueNesting(r.result.value.keyValues) <= 129
    decreases Budget(depth), |toks| - c.pos, 2
  {
    var (prefix, c1) := Comments(toks, c);
    if !AtContentsEnd(toks, c1) {
      var kv := KeyValue(src, toks, c1, depth, prefix, policy);
      KeyValueDepth(src, toks, c1, depth, prefix, policy);
      if kv.result.Ok? {
        MaxKeyValueNestingAppend(acc, kv.result.value);
        MapDepth(src, toks, kv.cur, depth, acc + [kv.result.value], policy);
      }
    }
  }

  lemma {:induction false} KeyValueDepth(src: string, toks: seq<PlacedToken>, c: Cursor, depth: nat, prefix: seq<Comment>, policy: CommaPolicy)
    requires c.pos <= |toks|
    ensures var r := KeyValue(src, toks, c, depth, prefix, policy);
      r.result.Ok? ==> depth + 1 + 2 * KeyValueNesting(r.result.value) <= 129
    decreases Budget(depth), |toks| - c.pos, 1
  {
    var k := Tree(src, toks, c, depth + 1, policy);
    TreeDepth(src, toks, c, depth + 1, policy);
    if k.result.Ok? {
      var colon := Consume(toks, k.cur, Colon);
      if colon.result.Ok? {
        TreeDepth(src, toks, colon.cur, depth + 1, policy);
      }
    }
  }

  /**
   * A document nests at most 65 levels: the brace-less top-level map or the
   * wrapping list counts as one, so a lone value nests at most 64.
   */
  lemma TopDepth(src: string, toks: seq<PlacedToken>, policy: CommaPolicy)
    ensures var r := Top(src, toks, policy);
      r.Ok? ==> TreeNesting(r.value) <= 65
    ensures var b := ListContents(src, toks, Start, 0, [], policy);
      b.result.Ok? && |b.result.value.values| == 1 ==> TreeNesting(b.result.value.values[0]) <= 64
  {
    MapDepth(src, toks, Start, 0, [], policy);
    ListDepth(src, toks, Start, 0, [], policy);
    var b := ListContents(src, toks, Start, 0, [], policy);
    if b.result.Ok? && |b.result.value.values| > 0 {
      MaxNestingFirst(b.result.value.values);
    }
  }

  // ---------------------------------------------------------------------------
  // The top level

  /** Map contents that take the whole input make the document a map spanning it, with no comments of its own. */
  lemma TopIsMap(src: string, toks: seq<PlacedToken>, policy: CommaPolicy)
    requires var a := MapContents(src, toks, Start, 0, [], policy); a.result.Ok? && a.cur.pos == |toks|
    ensures Top(src, toks, policy) ==
      Ok(TokenTree(Some(Span(0, |src|)), [], Map(MapContents(src, toks, Start, 0, [], policy).result.value), None))
  {
  }

  /**
   * Map contents that stop early stop at a closing token, and that token is
   * the error: the list is not tried.
   */
  lemma TopMapTrailing(src: string, toks: seq<PlacedToken>, policy: CommaPolicy)
    requires var a := MapContents(src, toks, Start, 0, [], policy); a.result.Ok? && a.cur.pos < |toks|
    ensures var a := MapContents(src, toks, Start, 0, [], policy);
      toks[a.cur.pos].kind in {Some(CloseBrace), Some(CloseList), Some(CloseParen)} &&
      Top(src, toks, policy) == Err(Error(toks[a.cur.pos].span, "Expected end of file here"))
  {
  }

  /**
   * When the map attempt fails and the list attempt takes the whole input, a
   * single value is the document itself; none or several are wrapped in a
   * list spanning the input.
   */
  lemma TopIsList(src: string, toks: seq<PlacedToken>, policy: CommaPolicy)
    requires MapContents(src, toks, Start, 0, [], policy).result.Err?
    requires var b := ListContents(src, toks, Start, 0, [], policy); b.result.Ok? && b.cur.pos == |toks|
    ensures var list := ListContents(src, toks, Start, 0, [], policy).result.value;
      Top(src, toks, policy) ==
        if |list.values| == 1 then Ok(list.values[0])
        else Ok(TokenTree(Some(Span(0, |src|)), [], List(list), None))
  {
  }

  /** When the list attempt too stops early, the token it stopped at is the error. */
  lemma TopListTrailing(src: string, toks: seq<PlacedToken>, policy: CommaPolicy)
    requires MapContents(src, toks, Start, 0, [], policy).result.Err?
    requires var b := ListContents(src, toks, Start, 0, [], policy); b.result.Ok? && b.cur.pos < |toks|
    ensures var b := ListContents(src, toks, Start, 0, [], policy);
      Top(src, toks, policy) == Err(Error(toks[b.cur.pos].span, "Expected end of file here"))
  {
  }

  /**
   * When both attempts fail, the error is the list's only when the list
   * attempt's last token ends strictly later; a tie goes to the map.
   */
  lemma TopBothFail(src: string, toks: seq<PlacedToken>, policy: CommaPolicy)
    requires MapContents(src, toks, Start, 0, [], policy).result.Err?
    requires ListContents(src, toks, Start, 0, [], policy).result.Err?
    ensures var a := MapContents(src, toks, Start, 0, [], policy);
      var b := ListContents(src, toks, Start, 0, [], policy);
      Top(src, toks, policy) ==
        if a.cur.last.end < b.cur.last.end then Err(b.result.error) else Err(a.result.error)
  {
  }

  /** Every document that parses has a span. */
  lemma TopSpan(src: string, toks: seq<PlacedToken>, policy: CommaPolicy)
    ensures var r := Top(src, toks, policy);
      r.Ok? ==> r.value.span.Some?
  {
    var b := ListContents(src, toks, Start, 0, [], policy);
    if b.result.Ok? && |b.result.value.values| == 1 {
      assert b.result.value.values[0] in b.result.value.values;
      ListSpans(src, toks, Start, 0, [], policy);
    }
  }

  // ---------------------------------------------------------------------------
  // Values

  /** Every tree the parser builds has a span. */
  lemma {:induction false} ListSpans(src: string, toks: seq<PlacedToken>, c: Cursor, depth: nat, acc: seq<TokenTree>, policy: CommaPolicy)
    requires c.pos <= |toks| && forall t <- acc :: t.span.Some?
    ensures var r := ListContents(src, toks, c, depth, acc, policy);
      r.result.Ok? ==> forall t <- r.result.value.values :: t.span.Some?
    decreases |toks| - c.pos
  {
    var (prefix, c1) := Comments(toks, c);
    if !AtContentsEnd(toks, c1) {
      var v := Item(src, toks, c1, depth, prefix, policy);
      if v.result.Ok? {
        ItemSpan(src, toks, c1, depth, prefix, policy);
        ListSpans(src, toks, v.cur, depth, acc + [v.result.value], policy);
      }
    }
  }

  lemma ItemSpan(src: string, toks: seq<PlacedToken>, c: Cursor, depth: nat, prefix: seq<Comment>, policy: CommaPolicy)
    requires c.pos <= |toks|
    ensures var r := Item(src, toks, c, depth, prefix, policy);
      r.result.Ok? ==> r.result.value.span.Some?
  {
    var v := Tree(src, toks, c, depth + 1, policy);
    if v.result.Ok? {
      assert v.result.value.span.Some?;
    }
  }

  /**
   * Only a string token followed by `(` begins a variant: its name is that
   * token's text and its values are what follows, up to a `)`.
   */
  lemma VariantOnlyAfterString(src: string, toks: seq<PlacedToken>, c: Cursor, depth: nat, t: PlacedToken, k: Kind, policy: CommaPolicy)
    requires c.pos <= |toks| && depth < MaxRecursionDepth && k != Comment
    ensures var r := Value(src, toks, c, depth, t, k, policy);
      r.result.Ok? && r.result.value.Variant? ==>
        k in {DoubleQuotedString, SingleQuotedString, MultilineBasicString, MultilineLiteralString} &&
        NextIs(toks, c, OpenParen) && r.result.value.variant.quotedName == t.slice &&
        r.result.value.variant.nameSpan == Some(t.span) &&
        var l := ListContents(src, toks, Advance(toks, c), depth + 1, [], policy);
        l.result.Ok? && NextIs(toks, l.cur, CloseParen) &&
        r.result.value.variant.values == l.result.value.values
  {
  }

  /** An identifier is a value of its own, even when `(` follows it. */
  lemma IdentifierIsNeverVariant(src: string, toks: seq<PlacedToken>, c: Cursor, depth: nat, t: PlacedToken, policy: CommaPolicy)
    requires c.pos <= |toks| && depth < MaxRecursionDepth
    ensures Value(src, toks, c, depth, t, Kind.Identifier, policy) == Out(Ok(TokenValue.Identifier(t.slice)), c)
  {
  }

  /** A string token not followed by `(` is a string. */
  lemma StringWithoutParen(src: string, toks: seq<PlacedToken>, c: Cursor, depth: nat, t: PlacedToken, policy: CommaPolicy)
    requires c.pos <= |toks| && depth < MaxRecursionDepth && !NextIs(toks, c, OpenParen)
    ensures QuotedOrVariant(src, toks, c, depth, t, policy) == Out(Ok(QuotedString(t.slice)), c)
  {
  }

  /** A closing bracket, an opening parenthesis, a colon or a comma cannot begin a value. */
  lemma StrayToken(src: string, toks: seq<PlacedToken>, c: Cursor, depth: nat, t: PlacedToken, k: Kind, policy: CommaPolicy)
    requires c.pos <= |toks| && depth < MaxRecursionDepth
    requires k in {CloseList, CloseBrace, CloseParen, OpenParen, Colon, Comma}
    ensures var r := Value(src, toks, c, depth, t, k, policy);
      r.result.Err? && r.result.error.span == t.span && r.cur == c
  {
  }

  /** A tree fails at the end of input, or on an invalid token, after its comments. */
  lemma TreeNeedsToken(src: string, toks: seq<PlacedToken>, c: Cursor, depth: nat, policy: CommaPolicy)
    requires c.pos <= |toks| && depth < MaxRecursionDepth
    ensures var c1 := Comments(toks, c).1;
      c1.pos == |toks| ==>
        Tree(src, toks, c, depth, policy).result == Err(Error(Span(|src|, |src|), "Unexpected end of input: expected a value"))
    ensures var c1 := Comments(toks, c).1;
      c1.pos < |toks| && toks[c1.pos].kind.None? ==>
        Tree(src, toks, c, depth, policy).result == Err(InvalidToken(toks[c1.pos]))
  {
  }

  // ---------------------------------------------------------------------------
  // Where the comments before a value go

  /** A list item's prefix comments are the comments before it, then its own. */
  lemma ItemPrefix(src: string, toks: seq<PlacedToken>, c: Cursor, depth: nat, prefix: seq<Comment>, policy: CommaPolicy)
    requires c.pos <= |toks|
    ensures var r := Item(src, toks, c, depth, prefix, policy);
      r.result.Ok? ==> r.result.value.prefixComments == prefix + Comments(toks, c).0
  {
  }

  /** A map key's prefix comments are the comments before it, and a `:` must follow the key. */
  lemma KeyPrefix(src: string, toks: seq<PlacedToken>, c: Cursor, depth: nat, prefix: seq<Comment>, policy: CommaPolicy)
    requires c.pos <= |toks|
    ensures var r := KeyValue(src, toks, c, depth, prefix, policy);
      r.result.Ok? ==>
        r.result.value.key.prefixComments == prefix &&
        NextIs(toks, Tree(src, toks, c, depth + 1, policy).cur, Colon)
  {
  }
}
