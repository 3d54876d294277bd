/**
 * What the parser guarantees: which comments reach the tree, how deep a
 * document may nest, and how the top level chooses between map and list.
 */
module ParseProperties {
  import opened Common
  import opened Span
  import opened TokenKind
  import opened TokenTree
  import opened Parse

  // ---------------------------------------------------------------------------
  // Comment tokens, counted between two positions

  lemma {:induction false} CommentsInSplit(toks: seq<PlacedToken>, a: nat, m: nat, b: nat)
    requires a <= m <= b <= |toks|
    ensures CommentsIn(toks, a, b) == CommentsIn(toks, a, m) + CommentsIn(toks, m, b)
    decreases m - a
  {
    if a < m {
      CommentsInSplit(toks, a + 1, m, b);
    }
  }

  /** A token that is not a comment contributes no comment. */
  lemma CommentsInOne(toks: seq<PlacedToken>, a: nat)
    requires a < |toks|
    ensures CommentsIn(toks, a, a + 1) == if toks[a].kind == Some(Comment) then [toks[a].slice] else []
  {
    assert CommentsIn(toks, a + 1, a + 1) == [];
  }

  lemma SuffixCommentKeeps(src: string, toks: seq<PlacedToken>, c: Cursor)
    requires c.pos <= |toks|
    ensures var (s, c1) := SuffixComment(src, toks, c);
      c.pos <= c1.pos <= |toks| && SuffixComments(s) == CommentsIn(toks, c.pos, c1.pos)
  {
    if SuffixComment(src, toks, c).0.Some? {
      CommentsInOne(toks, c.pos);
    }
  }

  lemma ConsumeKeeps(toks: seq<PlacedToken>, c: Cursor, expected: Kind)
    requires c.pos <= |toks| && expected != Comment
    ensures var r := Consume(toks, c, expected);
      r.result.Ok? ==> r.cur.pos == c.pos + 1 && CommentsIn(toks, c.pos, r.cur.pos) == []
  {
    if c.pos < |toks| {
      CommentsInOne(toks, c.pos);
    }
  }

  // ---------------------------------------------------------------------------
  // No comment is lost, once a suffix comment before a comma is kept

  /** With `KeepFirst`, what follows an item adds exactly the comments it took. */
  lemma AfterItemKeeps(src: string, toks: seq<PlacedToken>, c: Cursor, item: TokenTree)
    requires c.pos <= |toks|
    ensures var (r, c2) := AfterItem(src, toks, c, item, KeepFirst);
      TreeComments(r) == TreeComments(item) + CommentsIn(toks, c.pos, c2.pos)
  {
    if NextIs(toks, c, Comma) {
      var c1 := Advance(toks, c);
      CommentsInOne(toks, c.pos);
      if item.suffixComment.None? {
        var (s, c2) := SuffixComment(src, toks, c1);
        SuffixCommentKeeps(src, toks, c1);
        CommentsInSplit(toks, c.pos, c1.pos, c2.pos);
      }
    }
  }

  /**
   * As the source has it, a suffix comment that a value took before its comma
   * is replaced by the comment after the comma, or by none.
   */
  lemma OverwriteDropsSuffixComment(src: string, toks: seq<PlacedToken>, c: Cursor, item: TokenTree)
    requires c.pos + 1 < |toks| && toks[c.pos].kind == Some(Comma) && toks[c.pos + 1].kind != Some(Comment)
    requires item.suffixComment.Some?
    ensures var (r, c2) := AfterItem(src, toks, c, item, Overwrite);
      r.suffixComment.None? && c2.pos == c.pos + 1 &&
      TreeComments(r) + [item.suffixComment.value] == TreeComments(item) + CommentsIn(toks, c.pos, c2.pos)
  {
    CommentsInOne(toks, c.pos);
  }

  lemma {:induction false} TreeKeeps(src: string, toks: seq<PlacedToken>, c: Cursor, depth: nat)
    requires c.pos <= |toks|
    ensures var r := Tree(src, toks, c, depth, KeepFirst);
      r.result.Ok? ==> TreeComments(r.result.value) == CommentsIn(toks, c.pos, r.cur.pos)
    decreases Budget(depth), |toks| - c.pos, 0
  {
    if depth < MaxRecursionDepth {
      var (prefix, c1) := Comments(toks, c);
      if c1.pos < |toks| && toks[c1.pos].kind.Some? {
        var t := toks[c1.pos];
        var c2 := Advance(toks, c1);
        var body := Value(src, toks, c2, depth, t, t.kind.value, KeepFirst);
        if body.result.Ok? {
          ValueKeeps(src, toks, c2, depth, t, t.kind.value);
          var (suffix, c3) := SuffixComment(src, toks, body.cur);
          SuffixCommentKeeps(src, toks, body.cur);
          CommentsInOne(toks, c1.pos);
          CommentsInSplit(toks, c.pos, c1.pos, c3.pos);
          CommentsInSplit(toks, c1.pos, c2.pos, c3.pos);
          CommentsInSplit(toks, c2.pos, body.cur.pos, c3.pos);
        }
      }
    }
  }

  lemma {:induction false} ValueKeeps(src: string, toks: seq<PlacedToken>, c: Cursor, depth: nat, t: PlacedToken, k: Kind)
    requires c.pos <= |toks| && depth < MaxRecursionDepth && k != Comment
    ensures var r := Value(src, toks, c, depth, t, k, KeepFirst);
      r.result.Ok? ==> ValueComments(r.result.value) == CommentsIn(toks, c.pos, r.cur.pos)
    decreases Budget(depth), |toks| - c.pos, 1
  {
    match k
    case OpenList => ListValueKeeps(src, toks, c, depth, t);
    case OpenBrace => MapValueKeeps(src, toks, c, depth, t);
    case DoubleQuotedString => QuotedOrVariantKeeps(src, toks, c, depth, t);
    case SingleQuotedString => QuotedOrVariantKeeps(src, toks, c, depth, t);
    case MultilineBasicString => QuotedOrVariantKeeps(src, toks, c, depth, t);
    case MultilineLiteralString => QuotedOrVariantKeeps(src, toks, c, depth, t);
    case _ =>
  }

  /** A bracketed list holds the comments between its brackets. */
  lemma {:induction false} ListValueKeeps(src: string, toks: seq<PlacedToken>, c: Cursor, depth: nat, t: PlacedToken)
    requires c.pos <= |toks| && depth < MaxRecursionDepth
    ensures var r := Value(src, toks, c, depth, t, OpenList, KeepFirst);
      r.result.Ok? ==> ValueComments(r.result.value) == CommentsIn(toks, c.pos, r.cur.pos)
    decreases Budget(depth), |toks| - c.pos, 0
  {
    var l := ListContents(src, toks, c, depth + 1, [], KeepFirst);
    ListKeeps(src, toks, c, depth + 1, []);
    if l.result.Ok? {
      var close := Consume(toks, l.cur, CloseList);
      ConsumeKeeps(toks, l.cur, CloseList);
      if close.result.Ok? {
        assert Value(src, toks, c, depth, t, OpenList, KeepFirst) == Out(Ok(List(l.result.value)), close.cur);
        CommentsInSplit(toks, c.pos, l.cur.pos, close.cur.pos);
        assert TreesComments([]) == [];
        assert CommentsIn(toks, c.pos, close.cur.pos) == CommentsIn(toks, c.pos, l.cur.pos) + [];
      }
    }
  }

  /** A braced map holds the comments between its braces. */
  lemma {:induction false} MapValueKeeps(src: string, toks: seq<PlacedToken>, c: Cursor, depth: nat, t: PlacedToken)
    requires c.pos <= |toks| && depth < MaxRecursionDepth
    ensures var r := Value(src, toks, c, depth, t, OpenBrace, KeepFirst);
      r.result.Ok? ==> ValueComments(r.result.value) == CommentsIn(toks, c.pos, r.cur.pos)
    decreases Budget(depth), |toks| - c.pos, 0
  {
    var m := MapContents(src, toks, c, depth + 1, [], KeepFirst);
    MapKeeps(src, toks, c, depth + 1, []);
    if m.result.Ok? {
      var close := Consume(toks, m.cur, CloseBrace);
      ConsumeKeeps(toks, m.cur, CloseBrace);
      if close.result.Ok? {
        assert Value(src, toks, c, depth, t, OpenBrace, KeepFirst) == Out(Ok(Map(m.result.value)), close.cur);
        CommentsInSplit(toks, c.pos, m.cur.pos, close.cur.pos);
        assert KeyValuesComments([]) == [];
        assert CommentsIn(toks, c.pos, close.cur.pos) == CommentsIn(toks, c.pos, m.cur.pos) + [];
      }
    }
  }

  lemma {:induction false} QuotedOrVariantKeeps(src: string, toks: seq<PlacedToken>, c: Cursor, depth: nat, t: PlacedToken)
    requires c.pos <= |toks| && depth < MaxRecursionDepth
    ensures var r := QuotedOrVariant(src, toks, c, depth, t, KeepFirst);
      r.result.Ok? ==> ValueComments(r.result.value) == CommentsIn(toks, c.pos, r.cur.pos)
    decreases Budget(depth), |toks| - c.pos, 0
  {
    if NextIs(toks, c, OpenParen) {
      var c1 := Advance(toks, c);
      var l := ListContents(src, toks, c1, depth + 1, [], KeepFirst);
      ListKeeps(src, toks, c1, depth + 1, []);
      if l.result.Ok? {
        ConsumeKeeps(toks, l.cur, CloseParen);
        var close := Consume(toks, l.cur, CloseParen);
        if close.result.Ok? {
          CommentsInOne(toks, c.pos);
          CommentsInSplit(toks, c.pos, c1.pos, close.cur.pos);
          CommentsInSplit(toks, c1.pos, l.cur.pos, close.cur.pos);
        }
      }
    }
  }

  lemma {:induction false} ListKeeps(src: string, toks: seq<PlacedToken>, c: Cursor, depth: nat, acc: seq<TokenTree>)
    requires c.pos <= |toks|
    ensures var r := ListContents(src, toks, c, depth, acc, KeepFirst);
      r.result.Ok? ==>
        TreesComments(r.result.value.values) + r.result.value.closingComments
        == TreesComments(acc) + CommentsIn(toks, c.pos, r.cur.pos)
    decreases Budget(depth), |toks| - c.pos, 2
  {
    var (prefix, c1) := Comments(toks, c);
    if !AtContentsEnd(toks, c1) {
      var v := Item(src, toks, c1, depth, prefix, KeepFirst);
      ItemKeeps(src, toks, c1, depth, prefix);
      if v.result.Ok? {
        var r := ListContents(src, toks, v.cur, depth, acc + [v.result.value], KeepFirst);
        assert ListContents(src, toks, c, depth, acc, KeepFirst) == r;
        ListKeeps(src, toks, v.cur, depth, acc + [v.result.value]);
        if r.result.Ok? {
          TreesCommentsAppend(acc, v.result.value);
          CommentsInSplit(toks, c.pos, c1.pos, r.cur.pos);
          CommentsInSplit(toks, c1.pos, v.cur.pos, r.cur.pos);
          Reassociate(TreesComments(acc), TreeComments(v.result.value), prefix, CommentsIn(toks, c1.pos, v.cur.pos),
            CommentsIn(toks, v.cur.pos, r.cur.pos), CommentsIn(toks, c1.pos, r.cur.pos), CommentsIn(toks, c.pos, r.cur.pos));
        }
      }
    }
  }

  lemma {:induction false} ItemKeeps(src: string, toks: seq<PlacedToken>, c: Cursor, depth: nat, prefix: seq<Comment>)
    requires c.pos <= |toks|
    ensures var r := Item(src, toks, c, depth, prefix, KeepFirst);
      r.result.Ok? ==> TreeComments(r.result.value) == prefix + CommentsIn(toks, c.pos, r.cur.pos)
    decreases Budget(depth), |toks| - c.pos, 1
  {
    var v := Tree(src, toks, c, depth + 1, KeepFirst);
    TreeKeeps(src, toks, c, depth + 1);
    if v.result.Ok? {
      var tree := v.result.value;
      var item := tree.(prefixComments := prefix + tree.prefixComments);
      PrefixedComments(tree, prefix);
      AfterItemKeeps(src, toks, v.cur, item);
      var after := AfterItem(src, toks, v.cur, item, KeepFirst);
      assert Item(src, toks, c, depth, prefix, KeepFirst) == Out(Ok(after.0), after.1);
      CommentsInSplit(toks, c.pos, v.cur.pos, after.1.pos);
      calc {
        TreeComments(after.0);
        TreeComments(item) + CommentsIn(toks, v.cur.pos, after.1.pos);
        prefix + TreeComments(tree) + CommentsIn(toks, v.cur.pos, after.1.pos);
        prefix + (CommentsIn(toks, c.pos, v.cur.pos) + CommentsIn(toks, v.cur.pos, after.1.pos));
      }
    }
  }

  lemma {:induction false} MapKeeps(src: string, toks: seq<PlacedToken>, c: Cursor, depth: nat, acc: seq<TokenKeyValue>)
    requires c.pos <= |toks|
    ensures var r := MapContents(src, toks, c, depth, acc, KeepFirst);
      r.result.Ok? ==>
        KeyValuesComments(r.result.value.keyValues) + r.result.value.closingComments
        == KeyValuesComments(acc) + CommentsIn(toks, c.pos, r.cur.pos)
    decreases Budget(depth), |toks| - c.pos, 2
  {
    var (prefix, c1) := Comments(toks, c);
    if !AtContentsEnd(toks, c1) {
      var kv := KeyValue(src, toks, c1, depth, prefix, KeepFirst);
      KeyValueKeeps(src, toks, c1, depth, prefix);
      if kv.result.Ok? {
        var r := MapContents(src, toks, kv.cur, depth, acc + [kv.result.value], KeepFirst);
        assert MapContents(src, toks, c, depth, acc, KeepFirst) == r;
        MapKeeps(src, toks, kv.cur, depth, acc + [kv.result.value]);
        if r.result.Ok? {
          KeyValuesCommentsAppend(acc, kv.result.value);
          CommentsInSplit(toks, c.pos, c1.pos, r.cur.pos);
          CommentsInSplit(toks, c1.pos, kv.cur.pos, r.cur.pos);
          Reassociate(KeyValuesComments(acc), KeyValueComments(kv.result.value), prefix, CommentsIn(toks, c1.pos, kv.cur.pos),
            CommentsIn(toks, kv.cur.pos, r.cur.pos), CommentsIn(toks, c1.pos, r.cur.pos), CommentsIn(toks, c.pos, r.cur.pos));
        }
      }
    }
  }

  lemma {:induction false} KeyValueKeeps(src: string, toks: seq<PlacedToken>, c: Cursor, depth: nat, prefix: seq<Comment>)
    requires c.pos <= |toks| && !NextIs(toks, c, Comment)
    ensures var r := KeyValue(src, toks, c, depth, prefix, KeepFirst);
      r.result.Ok? ==> KeyValueComments(r.result.value) == prefix + CommentsIn(toks, c.pos, r.cur.pos)
    decreases Budget(depth), |toks| - c.pos, 1
  {
    var k := Tree(src, toks, c, depth + 1, KeepFirst);
    KeyTreeKeeps(src, toks, c, depth, prefix);
    if k.result.Ok? {
      var key := k.result.value.(prefixComments := prefix);
      var colon := Consume(toks, k.cur, Colon);
      if colon.result.Ok? {
        ConsumeKeeps(toks, k.cur, Colon);
        ValueAfterColonKeeps(src, toks, colon.cur, depth, key, c.pos, k.cur.pos);
        var v := Tree(src, toks, colon.cur, depth + 1, KeepFirst);
        if v.result.Ok? {
          var after := AfterItem(src, toks, v.cur, v.result.value, KeepFirst);
          assert KeyValue(src, toks, c, depth, prefix, KeepFirst) == Out(Ok(TokenKeyValue(key, after.0)), after.1);
          CommentsInSplit(toks, c.pos, k.cur.pos, after.1.pos);
          Regroup(prefix, CommentsIn(toks, c.pos, k.cur.pos), CommentsIn(toks, k.cur.pos, after.1.pos), CommentsIn(toks, c.pos, after.1.pos));
        }
      }
    }
  }

  /** The key half of `KeyValueKeeps`: the key carries the comments before it and those inside it. */
  lemma KeyTreeKeeps(src: string, toks: seq<PlacedToken>, c: Cursor, depth: nat, prefix: seq<Comment>)
    requires c.pos <= |toks| && !NextIs(toks, c, Comment)
    ensures var k := Tree(src, toks, c, depth + 1, KeepFirst);
      k.result.Ok? ==> TreeComments(k.result.value.(prefixComments := prefix)) == prefix + CommentsIn(toks, c.pos, k.cur.pos)
    decreases Budget(depth), |toks| - c.pos, 0
  {
    var k := Tree(src, toks, c, depth + 1, KeepFirst);
    if k.result.Ok? {
      var t := k.result.value;
      TreeKeeps(src, toks, c, depth + 1);
      assert t.prefixComments == [] by {
        TreePrefix(src, toks, c, depth + 1, KeepFirst);
        assert Comments(toks, c) == ([], c);
      }
      assert prefix + t.prefixComments == prefix;
      PrefixedComments(t, prefix);
    }
  }

  /** The value half of `KeyValueKeeps`, once the key and its colon are taken. */
  lemma ValueAfterColonKeeps(src: string, toks: seq<PlacedToken>, c: Cursor, depth: nat, key: TokenTree, keyStart: nat, keyEnd: nat)
    requires keyStart <= keyEnd && keyEnd + 1 == c.pos <= |toks|
    requires CommentsIn(toks, keyEnd, c.pos) == []
    ensures var v := Tree(src, toks, c, depth + 1, KeepFirst);
      v.result.Ok? ==>
        var after := AfterItem(src, toks, v.cur, v.result.value, KeepFirst);
        TreeComments(key) + TreeComments(after.0)
        == TreeComments(key) + CommentsIn(toks, keyEnd, after.1.pos)
    decreases Budget(depth), |toks| - keyStart, 0
  {
    var v := Tree(src, toks, c, depth + 1, KeepFirst);
    if v.result.Ok? {
      TreeKeeps(src, toks, c, depth + 1);
      AfterItemKeeps(src, toks, v.cur, v.result.value);
      var after := AfterItem(src, toks, v.cur, v.result.value, KeepFirst);
      CommentsInSplit(toks, keyEnd, c.pos, after.1.pos);
      CommentsInSplit(toks, c.pos, v.cur.pos, after.1.pos);
    }
  }

  /** The bookkeeping of one step of list or map contents: `acc`, then the item, then the rest. */
  lemma Reassociate(acc: seq<Comment>, item: seq<Comment>, prefix: seq<Comment>, inItem: seq<Comment>,
                    rest: seq<Comment>, afterPrefix: seq<Comment>, all: seq<Comment>)
    requires item == prefix + inItem && afterPrefix == inItem + rest && all == prefix + afterPrefix
    ensures (acc + item) + rest == acc + all
  {
  }

  lemma Regroup(p: seq<Comment>, a: seq<Comment>, b: seq<Comment>, ab: seq<Comment>)
    requires ab == a + b
    ensures (p + a) + b == p + ab
  {
  }

  lemma PrefixedComments(t: TokenTree, prefix: seq<Comment>)
    ensures TreeComments(t.(prefixComments := prefix + t.prefixComments)) == prefix + TreeComments(t)
  {
  }

  /** A value's prefix comments are the comments right before it. */
  lemma TreePrefix(src: string, toks: seq<PlacedToken>, c: Cursor, depth: nat, policy: CommaPolicy)
    requires c.pos <= |toks|
    ensures var r := Tree(src, toks, c, depth, policy);
      r.result.Ok? ==> r.result.value.prefixComments == Comments(toks, c).0
  {
  }

  // ---------------------------------------------------------------------------
  // The whole document

  /**
   * The comments the top level leaves out of its result: when the document is
   * a lone value, the closing comments of the list it was parsed as.
   */
  function TopDropped(src: string, toks: seq<PlacedToken>, policy: CommaPolicy): seq<Comment> {
    var a := MapContents(src, toks, Start, 0, [], policy);
    var b := ListContents(src, toks, Start, 0, [], policy);
    if a.result.Err? && b.result.Ok? && |b.result.value.values| == 1 then b.result.value.closingComments else []
  }

  /**
   * With suffix comments before a comma kept, every comment token of a
   * document that parses is in the tree, in document order, except those
   * after a lone top-level value.
   */
  lemma TopKeepsComments(src: string, toks: seq<PlacedToken>)
    ensures var r := Top(src, toks, KeepFirst);
      r.Ok? ==> TreeComments(r.value) + TopDropped(src, toks, KeepFirst) == CommentsIn(toks, 0, |toks|)
  {
    if MapContents(src, toks, Start, 0, [], KeepFirst).result.Ok? {
      TopMapKeeps(src, toks);
    } else {
      TopListKeeps(src, toks);
    }
  }

  lemma TopMapKeeps(src: string, toks: seq<PlacedToken>)
    requires MapContents(src, toks, Start, 0, [], KeepFirst).result.Ok?
    ensures var r := Top(src, toks, KeepFirst);
      r.Ok? ==> TreeComments(r.value) == CommentsIn(toks, 0, |toks|) && TopDropped(src, toks, KeepFirst) == []
  {
    var r := Top(src, toks, KeepFirst);
    var a := MapContents(src, toks, Start, 0, [], KeepFirst);
    if r.Ok? {
      MapKeeps(src, toks, Start, 0, []);
      var m := a.result.value;
      assert a.cur.pos == |toks| && r.value == TokenTree(Some(Span(0, |src|)), [], Map(m), None);
      assert TreeComments(r.value) == KeyValuesComments(m.keyValues) + m.closingComments;
    }
  }

  lemma TopListKeeps(src: string, toks: seq<PlacedToken>)
    requires MapContents(src, toks, Start, 0, [], KeepFirst).result.Err?
    ensures var r := Top(src, toks, KeepFirst);
      r.Ok? ==> TreeComments(r.value) + TopDropped(src, toks, KeepFirst) == CommentsIn(toks, 0, |toks|)
  {
    var r := Top(src, toks, KeepFirst);
    if r.Ok? {
      var b := ListContents(src, toks, Start, 0, [], KeepFirst);
      ListKeeps(src, toks, Start, 0, []);
      var l := b.result.value;
      assert b.cur.pos == |toks|;
      if |l.values| == 1 {
        assert l.values == [l.values[0]] && r.value == l.values[0];
        assert TreesComments(l.values) == TreeComments(l.values[0]);
      } else {
        assert r.value == TokenTree(Some(Span(0, |src|)), [], List(l), None);
        assert TreeComments(r.value) == TreesComments(l.values) + l.closingComments;
      }
    }
  }

  /** `[1 // a` + newline + `, 2]`: a comment on the first item, before its comma. */
  const CommaSrc: string := "[1 // a\n, 2]"

  const CommaToks: seq<PlacedToken> := [
    PlacedToken(Span(0, 1), "[", Some(OpenList)),
    PlacedToken(Span(1, 2), "1", Some(Kind.Number)),
    PlacedToken(Span(3, 7), "// a", Some(Comment)),
    PlacedToken(Span(8, 9), ",", Some(Comma)),
    PlacedToken(Span(10, 11), "2", Some(Kind.Number)),
    PlacedToken(Span(11, 12), "]", Some(CloseList))]

  const CommaRaws := [
    RawToken(Some(OpenList), 0, 1), RawToken(Some(Kind.Number), 1, 2), RawToken(Some(Comment), 3, 7),
    RawToken(Some(Comma), 8, 9), RawToken(Some(Kind.Number), 10, 11), RawToken(Some(CloseList), 11, 12)]

  /** The token `t` is what the scanner takes where `t` starts. */
  lemma ScannedByScanner(src: string, t: RawToken)
    requires t.start < |src| && !IsSkip(src[t.start]) && t.kind.Some?
    requires ScanToken(src, t.start) == Some(Scanned(t.kind.value, t.end))
    ensures ScannedAt(src, t)
  {
    ScanTokenIsLongestMatch(src, t.start);
  }

  lemma CommaScansNumbers(src: string)
    requires src == CommaSrc
    ensures ScannedAt(src, CommaRaws[1]) && ScannedAt(src, CommaRaws[4])
  {
    assert RunEnd(src, 2, IsNumberContinue) == 2;
    ScannedByScanner(src, CommaRaws[1]);
    assert RunEnd(src, 11, IsNumberContinue) == 11;
    ScannedByScanner(src, CommaRaws[4]);
  }

  lemma CommaScansComment(src: string)
    requires src == CommaSrc
    ensures ScannedAt(src, CommaRaws[2])
  {
    assert RunEnd(src, 5, NotNewline) == 7;
    ScannedByScanner(src, CommaRaws[2]);
  }

  lemma CommaScansPunctuation(src: string)
    requires src == CommaSrc
    ensures ScannedAt(src, CommaRaws[0]) && ScannedAt(src, CommaRaws[3]) && ScannedAt(src, CommaRaws[5])
  {
    ScannedByScanner(src, CommaRaws[0]);
    ScannedByScanner(src, CommaRaws[3]);
    ScannedByScanner(src, CommaRaws[5]);
  }

  lemma CommaAllScanned(src: string)
    requires src == CommaSrc
    ensures forall n :: 0 <= n < |CommaRaws| ==> ScannedAt(src, CommaRaws[n])
  {
    CommaScansNumbers(src);
    CommaScansComment(src);
    CommaScansPunctuation(src);
    forall n | 0 <= n < |CommaRaws| ensures ScannedAt(src, CommaRaws[n]) {
      if n == 0 {} else if n == 1 {} else if n == 2 {} else if n == 3 {} else if n == 4 {} else {}
    }
  }

  lemma CommaGaps(src: string)
    requires src == CommaSrc
    ensures forall n :: 0 < n < |CommaRaws| ==>
      CommaRaws[n - 1].end <= CommaRaws[n].start && AllSkip(src, CommaRaws[n - 1].end, CommaRaws[n].start)
  {
    assert AllSkip(src, 2, 3) && AllSkip(src, 7, 8) && AllSkip(src, 9, 10);
    forall n | 0 < n < |CommaRaws|
      ensures CommaRaws[n - 1].end <= CommaRaws[n].start && AllSkip(src, CommaRaws[n - 1].end, CommaRaws[n].start)
    {
      if n == 1 {} else if n == 2 {} else if n == 3 {} else if n == 4 {} else {}
    }
  }

  lemma CommaTokenizes(src: string)
    requires src == CommaSrc
    ensures Tokenizes(src, 0, CommaRaws)
  {
    CommaAllScanned(src);
    CommaGaps(src);
  }

  /** `CommaToks` is what the lexer makes of `CommaSrc`. */
  lemma CommaLex()
    ensures TokensOf(CommaSrc) == CommaToks
  {
    CommaTokenizes(CommaSrc);
    LexIsTheTokenization(CommaSrc, 0, CommaRaws);
    CommaPlaced(CommaSrc);
  }

  lemma CommaPlaced(src: string)
    requires src == CommaSrc
    ensures Place(src, CommaRaws) == CommaToks
  {
    var ts := Place(src, CommaRaws);
    assert src[0..1] == "[" && src[1..2] == "1" && src[3..7] == "// a";
    assert src[8..9] == "," && src[10..11] == "2" && src[11..12] == "]";
    forall n | 0 <= n < 6 ensures ts[n] == CommaToks[n] {
      if n == 0 {} else if n == 1 {} else if n == 2 {} else if n == 3 {} else if n == 4 {} else {}
    }
  }

  const One := TokenTree(Some(Span(1, 2)), [], TokenValue.Number("1"), Some("// a"))
  const Two := TokenTree(Some(Span(10, 11)), [], TokenValue.Number("2"), None)

  lemma CommaFirstItem(policy: CommaPolicy)
    ensures Tree(CommaSrc, CommaToks, Cursor(1, Span(0, 1)), 3, policy) == Out(Ok(One), Cursor(3, Span(3, 7)))
  {
    assert !ContainsNewline(CommaSrc, 2, 3);
  }

  lemma CommaSecondItem(policy: CommaPolicy)
    ensures Tree(CommaSrc, CommaToks, Cursor(4, Span(8, 9)), 3, policy) == Out(Ok(Two), Cursor(5, Span(10, 11)))
  {
  }

  /** What the comma after the first item does to its suffix comment, under each policy. */
  function CommaFirst(policy: CommaPolicy): TokenTree {
    if policy == Overwrite then One.(suffixComment := None) else One
  }

  lemma CommaListContents(policy: CommaPolicy)
    ensures ListContents(CommaSrc, CommaToks, Cursor(1, Span(0, 1)), 2, [], policy)
         == Out(Ok(TokenList([CommaFirst(policy), Two], [])), Cursor(5, Span(10, 11)))
  {
    CommaFirstItem(policy);
    CommaSecondItem(policy);
    assert Item(CommaSrc, CommaToks, Cursor(1, Span(0, 1)), 2, [], policy) == Out(Ok(CommaFirst(policy)), Cursor(4, Span(8, 9)));
    assert Item(CommaSrc, CommaToks, Cursor(4, Span(8, 9)), 2, [], policy) == Out(Ok(Two), Cursor(5, Span(10, 11)));
    assert ListContents(CommaSrc, CommaToks, Cursor(5, Span(10, 11)), 2, [CommaFirst(policy), Two], policy)
        == Out(Ok(TokenList([CommaFirst(policy), Two], [])), Cursor(5, Span(10, 11)));
    assert [CommaFirst(policy)] + [Two] == [CommaFirst(policy), Two];
    assert ListContents(CommaSrc, CommaToks, Cursor(4, Span(8, 9)), 2, [CommaFirst(policy)], policy)
        == Out(Ok(TokenList([CommaFirst(policy), Two], [])), Cursor(5, Span(10, 11)));
    assert [] + [CommaFirst(policy)] == [CommaFirst(policy)];
  }

  lemma CommaTree(policy: CommaPolicy)
    ensures Tree(CommaSrc, CommaToks, Start, 1, policy)
         == Out(Ok(TokenTree(Some(Span(0, 12)), [], List(TokenList([CommaFirst(policy), Two], [])), None)), Cursor(6, Span(11, 12)))
  {
    CommaListContents(policy);
    assert Value(CommaSrc, CommaToks, Cursor(1, Span(0, 1)), 1, CommaToks[0], OpenList, policy)
        == Out(Ok(List(TokenList([CommaFirst(policy), Two], []))), Cursor(6, Span(11, 12)));
  }

  lemma CommaTop(policy: CommaPolicy)
    ensures Top(CommaSrc, CommaToks, policy) == Ok(TokenTree(Some(Span(0, 12)), [], List(TokenList([CommaFirst(policy), Two], [])), None))
  {
    CommaTree(policy);
    assert MapContents(CommaSrc, CommaToks, Start, 0, [], policy).result.Err? by {
      assert KeyValue(CommaSrc, CommaToks, Start, 0, [], policy).result.Err?;
    }
    assert Item(CommaSrc, CommaToks, Start, 0, [], policy).cur == Cursor(6, Span(11, 12));
  }

  /**
   * The source drops the comment of `[1 // a` + newline + `, 2]`; the
   * correction keeps it.
   */
  lemma CommaAfterSuffixComment()
    ensures CommentsIn(CommaToks, 0, |CommaToks|) == ["// a"]
    ensures Top(CommaSrc, CommaToks, Overwrite).Ok? && TreeComments(Top(CommaSrc, CommaToks, Overwrite).value) == []
    ensures Top(CommaSrc, CommaToks, KeepFirst).Ok? && TreeComments(Top(CommaSrc, CommaToks, KeepFirst).value) == ["// a"]
  {
    CommaCommentTokens();
    CommaTop(Overwrite);
    CommaTop(KeepFirst);
    CommaTreeComments(Overwrite);
    CommaTreeComments(KeepFirst);
  }

  lemma CommaCommentTokens()
    ensures CommentsIn(CommaToks, 0, |CommaToks|) == ["// a"]
  {
    assert CommentsIn(CommaToks, 3, 6) == [];
    assert CommentsIn(CommaToks, 0, 3) == ["// a"] by {
      assert CommentsIn(CommaToks, 2, 3) == ["// a"];
    }
    CommentsInSplit(CommaToks, 0, 3, 6);
  }

  lemma CommaTreeComments(policy: CommaPolicy)
    ensures TreeComments(TokenTree(Some(Span(0, 12)), [], List(TokenList([CommaFirst(policy), Two], [])), None))
         == if policy == Overwrite then [] else ["// a"]
  {
    var ts := [CommaFirst(policy), Two];
    assert ts[1..] == [Two];
    assert TreesComments([Two]) == [];
    assert TreesComments(ts) == TreeComments(CommaFirst(policy));
  }
}
