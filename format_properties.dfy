/**
 * What the printer guarantees: the fixed renderings of empty containers and
 * suffix comments, that the one-line layout has nothing to drop, and which
 * comments reach the text. As written, a map key's suffix comment and the
 * own comments of a fused variant's single value are lost; with those two
 * places corrected, every comment of the tree is in the text.
 */
module FormatProperties {
  import opened Common
  import opened TokenTree
  import opened Format

  // ---------------------------------------------------------------------------
  // Fixed renderings

  /** A list or map with no elements and no closing comments is exactly `[]` or `{}`. */
  lemma EmptyContainers(o: FormatOptions, indent: nat, mode: Mode)
    ensures ValueText(o, indent, List(TokenList([], [])), mode) == "[]"
    ensures ValueText(o, indent, Map(TokenMap([], [])), mode) == "{}"
  {
  }

  /** A variant with no values and no closing comments is its bare quoted name. */
  lemma BareVariant(o: FormatOptions, indent: nat, x: TokenVariant, mode: Mode)
    requires x.values == [] && x.closingComments == []
    ensures ValueText(o, indent, Variant(x), mode) == x.quotedName
  {
  }

  /**
   * A variant whose single value is an empty map is written `name({})` on one
   * line; when that value carries a comment it is not simple, and the variant
   * is written `name({ })`.
   */
  lemma SingleEmptyMap(o: FormatOptions, indent: nat, name: string, t: TokenTree)
    requires t.value == Map(TokenMap([], []))
    ensures VariantText(o, indent, TokenVariant(None, name, [t], []), AsWritten) ==
      if t.prefixComments == [] && t.suffixComment.None? then name + "({})" else name + "({ })"
  {
    var x := TokenVariant(None, name, [t], []);
    if t.prefixComments == [] && t.suffixComment.None? {
      assert [t][..0] == [];
      assert ShouldFormatVariantOnOneLine(x);
      assert OneLineText(o, indent, [t], 1, AsWritten) == "{}";
    } else {
      assert !IsSimple(t);
    }
  }

  /** Atoms are written as they were read. */
  lemma AtomsVerbatim(o: FormatOptions, indent: nat, s: string, mode: Mode)
    ensures ValueText(o, indent, TokenValue.Identifier(s), mode) == s
    ensures ValueText(o, indent, TokenValue.Number(s), mode) == s
    ensures ValueText(o, indent, QuotedString(s), mode) == s
  {
  }

  /** A suffix comment follows its value after exactly one space. */
  lemma SuffixAfterOneSpace(o: FormatOptions, indent: nat, t: TokenTree, c: Comment, mode: Mode)
    requires t.suffixComment == Some(c)
    ensures TreeText(o, indent, t, mode) ==
      CommentLines(o, indent, t.prefixComments) + Indentation(o, indent) + ValueText(o, indent, t.value, mode) + " " + c
  {
  }

  /** A top-level map is written without braces unless the options ask for them. */
  lemma TopLevelMap(t: TokenTree, o: FormatOptions, mode: Mode)
    requires t.value.Map?
    ensures !o.alwaysIncludeOuterBraces ==> (FormatText(t, o, mode) ==
      CommentLines(o, 0, t.prefixComments) + MapContentText(o, 0, t.value.entries, mode) + SuffixText(t.suffixComment))
    ensures o.alwaysIncludeOuterBraces ==> (FormatText(t, o, mode) ==
      CommentLines(o, 0, t.prefixComments) + MapText(o, 0, t.value.entries, mode) + SuffixText(t.suffixComment))
  {
    assert Indentation(o, 0) == "";
    assert CommentLines(o, 0, t.prefixComments) + Indentation(o, 0) == CommentLines(o, 0, t.prefixComments);
    assert ValueText(o, 0, t.value, mode) == MapText(o, 0, t.value.entries, mode);
  }

  // ---------------------------------------------------------------------------
  // Where the comments go

  /** `c` occurs in `s` at position `i`. */
  predicate OccursAt(c: string, s: string, i: int) {
    0 <= i && i + |c| <= |s| && s[i..i + |c|] == c
  }

  /** `c` occurs in `s`. */
  ghost predicate IsInfix(c: string, s: string) {
    exists i :: OccursAt(c, s, i)
  }

  lemma InfixSelf(c: string)
    ensures IsInfix(c, c)
  {
    assert OccursAt(c, c, 0);
  }

  lemma InfixLeft(c: string, a: string, b: string)
    requires IsInfix(c, a)
    ensures IsInfix(c, a + b)
  {
    var i :| OccursAt(c, a, i);
    assert (a + b)[i..i + |c|] == a[i..i + |c|];
    assert OccursAt(c, a + b, i);
  }

  lemma InfixRight(c: string, a: string, b: string)
    requires IsInfix(c, b)
    ensures IsInfix(c, a + b)
  {
    var i :| OccursAt(c, b, i);
    assert (a + b)[|a| + i..|a| + i + |c|] == b[i..i + |c|];
    assert OccursAt(c, a + b, |a| + i);
  }

  /** `c` occurs in the middle piece of `a + b + d`. */
  lemma InfixMiddle(c: string, a: string, b: string, d: string)
    requires IsInfix(c, b)
    ensures IsInfix(c, a + b + d)
  {
    InfixRight(c, a, b);
    InfixLeft(c, a + b, d);
  }

  lemma {:induction false} CommentLinesHold(o: FormatOptions, indent: nat, comments: seq<Comment>, c: Comment)
    requires c in comments
    ensures IsInfix(c, CommentLines(o, indent, comments))
    decreases |comments|
  {
    var last := comments[|comments| - 1];
    var init := comments[..|comments| - 1];
    assert comments == init + [last];
    if c == last {
      InfixSelf(c);
      InfixMiddle(c, CommentLines(o, indent, init) + Indentation(o, indent), c, "\n");
    } else {
      CommentLinesHold(o, indent, init, c);
      InfixLeft(c, CommentLines(o, indent, init), Indentation(o, indent));
      InfixLeft(c, CommentLines(o, indent, init) + Indentation(o, indent), last);
      InfixLeft(c, CommentLines(o, indent, init) + Indentation(o, indent) + last, "\n");
    }
  }

  lemma SuffixHolds(c: Comment)
    ensures IsInfix(c, SuffixText(Some(c)))
  {
    InfixSelf(c);
    InfixRight(c, " ", c);
  }

  /** With the corrections, every comment of a tree is in the text written for it. */
  lemma {:induction false} TreeHolds(o: FormatOptions, indent: nat, t: TokenTree, c: Comment)
    requires c in TreeComments(t)
    ensures IsInfix(c, TreeText(o, indent, t, KeepComments))
    decreases t, 0
  {
    var pre := CommentLines(o, indent, t.prefixComments);
    var ind := Indentation(o, indent);
    var v := ValueText(o, indent, t.value, KeepComments);
    var suf := SuffixText(t.suffixComment);
    if c in t.prefixComments {
      CommentLinesHold(o, indent, t.prefixComments, c);
      InfixLeft(c, pre, ind);
      InfixLeft(c, pre + ind, v);
      InfixLeft(c, pre + ind + v, suf);
    } else if c in ValueComments(t.value) {
      ValueHolds(o, indent, t.value, c);
      InfixMiddle(c, pre + ind, v, suf);
    } else {
      SuffixHolds(c);
      InfixRight(c, pre + ind + v, suf);
    }
  }

  lemma {:induction false} ValueHolds(o: FormatOptions, indent: nat, v: TokenValue, c: Comment)
    requires c in ValueComments(v)
    ensures IsInfix(c, ValueText(o, indent, v, KeepComments))
    decreases v, 0
  {
    match v
    case List(l) => ListHolds(o, indent, l, c);
    case Map(e) => MapHolds(o, indent, e, c);
    case Variant(x) => VariantHolds(o, indent, x, c);
  }

  lemma {:induction false} ListHolds(o: FormatOptions, indent: nat, l: TokenList, c: Comment)
    requires c in TreesComments(l.values) + l.closingComments
    ensures IsInfix(c, ListText(o, indent, l, KeepComments))
    decreases l, 1
  {
    assert !ShouldFormatListOnOneLine(l);
    assert l.values != [] || l.closingComments != [];
    ListContentHolds(o, indent + 1, l, c);
    InfixMiddle(c, "[" + "\n", ListContentText(o, indent + 1, l, KeepComments), Indentation(o, indent));
    InfixLeft(c, "[" + "\n" + ListContentText(o, indent + 1, l, KeepComments) + Indentation(o, indent), "]");
  }

  lemma {:induction false} ListContentHolds(o: FormatOptions, indent: nat, l: TokenList, c: Comment)
    requires c in TreesComments(l.values) + l.closingComments
    ensures IsInfix(c, ListContentText(o, indent, l, KeepComments))
    decreases l, 0
  {
    ContentHolds(o, indent, l.values, l.closingComments, c);
  }

  lemma {:induction false} ContentHolds(o: FormatOptions, indent: nat, values: seq<TokenTree>, closing: seq<Comment>, c: Comment)
    requires c in TreesComments(values) + closing
    ensures IsInfix(c, ContentText(o, indent, values, closing, KeepComments))
    decreases values, |values| + 1
  {
    var blank := AnyPrefixComments(values);
    var items := ItemsText(o, indent, values, |values|, blank, KeepComments);
    var gap := if blank && closing != [] then "\n" else "";
    if c in TreesComments(values) {
      assert values[..|values|] == values;
      ItemsHold(o, indent, values, |values|, blank, c);
      InfixLeft(c, items, ClosingText(o, indent, closing, blank));
    } else {
      CommentLinesHold(o, indent, closing, c);
      InfixRight(c, gap, CommentLines(o, indent, closing));
      InfixRight(c, items, ClosingText(o, indent, closing, blank));
    }
  }

  lemma {:induction false} ItemsHold(o: FormatOptions, indent: nat, values: seq<TokenTree>, n: nat, blank: bool, c: Comment)
    requires n <= |values| && c in TreesComments(values[..n])
    ensures IsInfix(c, ItemsText(o, indent, values, n, blank, KeepComments))
    decreases values, n
  {
    assert values[..n] == values[..n - 1] + [values[n - 1]];
    TreesCommentsAppend(values[..n - 1], values[n - 1]);
    var before := ItemsText(o, indent, values, n - 1, blank, KeepComments);
    var line := LineText(o, indent, values[n - 1], blank && n < |values|, KeepComments);
    if c in TreesComments(values[..n - 1]) {
      ItemsHold(o, indent, values, n - 1, blank, c);
      InfixLeft(c, before, line);
    } else {
      var tree := TreeText(o, indent, values[n - 1], KeepComments);
      TreeHolds(o, indent, values[n - 1], c);
      InfixLeft(c, tree, "\n");
      InfixLeft(c, tree + "\n", if blank && n < |values| then "\n" else "");
      InfixRight(c, before, line);
    }
  }

  lemma {:induction false} MapHolds(o: FormatOptions, indent: nat, e: TokenMap, c: Comment)
    requires c in KeyValuesComments(e.keyValues) + e.closingComments
    ensures IsInfix(c, MapText(o, indent, e, KeepComments))
    decreases e, 1
  {
    assert e.keyValues != [] || e.closingComments != [];
    MapContentHolds(o, indent + 1, e, c);
    InfixMiddle(c, "{" + "\n", MapContentText(o, indent + 1, e, KeepComments), Indentation(o, indent));
    InfixLeft(c, "{" + "\n" + MapContentText(o, indent + 1, e, KeepComments) + Indentation(o, indent), "}");
  }

  lemma {:induction false} MapContentHolds(o: FormatOptions, indent: nat, e: TokenMap, c: Comment)
    requires c in KeyValuesComments(e.keyValues) + e.closingComments
    ensures IsInfix(c, MapContentText(o, indent, e, KeepComments))
    decreases e, 0
  {
    var kvs := e.keyValues;
    var blank := AnyKeyPrefixComments(kvs);
    var pairs := KeyValuesText(o, indent, kvs, |kvs|, blank, KeepComments);
    var gap := if blank && e.closingComments != [] then "\n" else "";
    if c in KeyValuesComments(kvs) {
      assert kvs[..|kvs|] == kvs;
      KeyValuesHold(o, indent, kvs, |kvs|, blank, c);
      InfixLeft(c, pairs, ClosingText(o, indent, e.closingComments, blank));
    } else {
      CommentLinesHold(o, indent, e.closingComments, c);
      InfixRight(c, gap, CommentLines(o, indent, e.closingComments));
      InfixRight(c, pairs, ClosingText(o, indent, e.closingComments, blank));
    }
  }

  lemma {:induction false} KeyValuesHold(o: FormatOptions, indent: nat, kvs: seq<TokenKeyValue>, n: nat, blank: bool, c: Comment)
    requires n <= |kvs| && c in KeyValuesComments(kvs[..n])
    ensures IsInfix(c, KeyValuesText(o, indent, kvs, n, blank, KeepComments))
    decreases kvs, n
  {
    assert kvs[..n] == kvs[..n - 1] + [kvs[n - 1]];
    KeyValuesCommentsAppend(kvs[..n - 1], kvs[n - 1]);
    var before := KeyValuesText(o, indent, kvs, n - 1, blank, KeepComments);
    var line := KeyValueLineText(o, indent, kvs[n - 1], blank && n < |kvs|, KeepComments);
    if c in KeyValuesComments(kvs[..n - 1]) {
      KeyValuesHold(o, indent, kvs, n - 1, blank, c);
      InfixLeft(c, before, line);
    } else {
      var pair := KeyValueText(o, indent, kvs[n - 1], KeepComments);
      KeyValueHolds(o, indent, kvs[n - 1], c);
      InfixLeft(c, pair, "\n");
      InfixLeft(c, pair + "\n", if blank && n < |kvs| then "\n" else "");
      InfixRight(c, before, line);
    }
  }

  lemma {:induction false} KeyValueHolds(o: FormatOptions, indent: nat, kv: TokenKeyValue, c: Comment)
    requires c in KeyValueComments(kv)
    ensures IsInfix(c, KeyValueText(o, indent, kv, KeepComments))
    decreases kv, 0
  {
    var kp := CommentLines(o, indent, kv.key.prefixComments);
    var vp := CommentLines(o, indent, kv.value.prefixComments);
    var ind := Indentation(o, indent);
    var k := ValueText(o, indent, kv.key.value, KeepComments);
    var ks := KeySuffixText(o, indent, kv.key.suffixComment, KeepComments);
    var sep := o.keyValueSeparator;
    var v := ValueText(o, indent, kv.value.value, KeepComments);
    var vs := SuffixText(kv.value.suffixComment);
    // The text grows piece by piece; `c` lands in one piece and stays in every longer prefix.
    var s1 := kp + vp;
    var s2 := s1 + ind + k;
    var s3 := s2 + ks;
    var s4 := s3 + sep + v;
    var s5 := s4 + vs;
    assert KeyValueText(o, indent, kv, KeepComments) == s5;
    if c in kv.key.prefixComments || c in kv.value.prefixComments {
      if c in kv.key.prefixComments {
        CommentLinesHold(o, indent, kv.key.prefixComments, c);
        InfixLeft(c, kp, vp);
      } else {
        CommentLinesHold(o, indent, kv.value.prefixComments, c);
        InfixRight(c, kp, vp);
      }
      InfixLeft(c, s1, ind);
      InfixLeft(c, s1 + ind, k);
    } else if c in ValueComments(kv.key.value) {
      ValueHolds(o, indent, kv.key.value, c);
      InfixRight(c, s1 + ind, k);
    }
    if c in TreeComments(kv.key) || c in kv.value.prefixComments {
      if c in SuffixComments(kv.key.suffixComment) {
        SuffixHolds(c);
        InfixLeft(c, SuffixText(kv.key.suffixComment), "\n");
        InfixLeft(c, SuffixText(kv.key.suffixComment) + "\n", ind);
        InfixRight(c, s2, ks);
      } else {
        assert IsInfix(c, s2);
        InfixLeft(c, s2, ks);
      }
      InfixLeft(c, s3, sep);
      InfixLeft(c, s3 + sep, v);
    } else if c in ValueComments(kv.value.value) {
      ValueHolds(o, indent, kv.value.value, c);
      InfixRight(c, s3 + sep, v);
    }
    if c in SuffixComments(kv.value.suffixComment) {
      SuffixHolds(c);
      InfixRight(c, s4, vs);
    } else {
      InfixLeft(c, s4, vs);
    }
  }

  lemma {:induction false} VariantHolds(o: FormatOptions, indent: nat, x: TokenVariant, c: Comment)
    requires c in TreesComments(x.values) + x.closingComments
    ensures IsInfix(c, VariantText(o, indent, x, KeepComments))
    decreases x, 1
  {
    assert !ShouldFormatVariantOnOneLine(x);
    assert x.values != [] || x.closingComments != [];
    if Fused(x, KeepComments) && x.values[0].value.Map? {
      var e := x.values[0].value.entries;
      assert TreesComments(x.values) == ValueComments(x.values[0].value) by {
        assert x.values[1..] == [];
      }
      assert e.keyValues != [] || e.closingComments != [];
      assert VariantText(o, indent, x, KeepComments) == FusedMapText(o, indent, x.quotedName, e, KeepComments);
      MapContentHolds(o, indent + 1, e, c);
      InfixMiddle(c, x.quotedName + "({" + "\n", MapContentText(o, indent + 1, e, KeepComments), Indentation(o, indent));
      InfixLeft(c, x.quotedName + "({" + "\n" + MapContentText(o, indent + 1, e, KeepComments) + Indentation(o, indent), "})");
    } else if Fused(x, KeepComments) && x.values[0].value.List? {
      var l := x.values[0].value.list;
      assert TreesComments(x.values) == ValueComments(x.values[0].value) by {
        assert x.values[1..] == [];
      }
      assert l.values != [] || l.closingComments != [];
      assert VariantText(o, indent, x, KeepComments) == FusedListText(o, indent, x.quotedName, l, KeepComments);
      ListContentHolds(o, indent + 1, l, c);
      InfixMiddle(c, x.quotedName + "([" + "\n", ListContentText(o, indent + 1, l, KeepComments), Indentation(o, indent));
      InfixLeft(c, x.quotedName + "([" + "\n" + ListContentText(o, indent + 1, l, KeepComments) + Indentation(o, indent), "])");
    } else {
      var content := ContentText(o, indent + 1, x.values, x.closingComments, KeepComments);
      ContentHolds(o, indent + 1, x.values, x.closingComments, c);
      InfixMiddle(c, x.quotedName + "(" + "\n", content, Indentation(o, indent));
      InfixLeft(c, x.quotedName + "(" + "\n" + content + Indentation(o, indent), ")");
    }
  }

  /** With the corrections, every comment of a document is in the formatted text. */
  lemma FormatKeepsComments(t: TokenTree, o: FormatOptions, c: Comment)
    requires c in TreeComments(t)
    ensures IsInfix(c, FormatText(t, o, KeepComments))
  {
    if !o.alwaysIncludeOuterBraces && t.value.Map? {
      var pre := CommentLines(o, 0, t.prefixComments);
      var body := MapContentText(o, 0, t.value.entries, KeepComments);
      var suf := SuffixText(t.suffixComment);
      if c in t.prefixComments {
        CommentLinesHold(o, 0, t.prefixComments, c);
        InfixLeft(c, pre, body);
        InfixLeft(c, pre + body, suf);
      } else if c in ValueComments(t.value) {
        MapContentHolds(o, 0, t.value.entries, c);
        InfixMiddle(c, pre, body, suf);
      } else {
        SuffixHolds(c);
        InfixRight(c, pre + body, suf);
      }
    } else {
      TreeHolds(o, 0, t, c);
    }
  }

  // ---------------------------------------------------------------------------
  // The two places where the printer as written loses a comment

  const PlainA1 := TokenKeyValue(TokenTree(None, [], Identifier("a"), None), TokenTree(None, [], Number("1"), None))

  /** The document `a // c` + newline + `: 1`: the key `a` has the suffix comment `// c`. */
  const KeyCommentDoc := TokenTree(None, [], Map(TokenMap([
    TokenKeyValue(TokenTree(None, [], Identifier("a"), Some("// c")), TokenTree(None, [], Number("1"), None))], [])), None)

  /** The document `"V"(// c` + newline + `{a: 1})`: the single map of a variant has a prefix comment. */
  const FusedCommentDoc := TokenTree(None, [], Variant(TokenVariant(None, "\"V\"",
    [TokenTree(None, ["// c"], Map(TokenMap([PlainA1], [])), None)], [])), None)

  /** A map of one pair and no closing comments: the pair on a line of its own. */
  lemma OnePairContent(o: FormatOptions, indent: nat, kv: TokenKeyValue, mode: Mode)
    ensures MapContentText(o, indent, TokenMap([kv], []), mode) == KeyValueText(o, indent, kv, mode) + "\n"
  {
    var blank := AnyKeyPrefixComments([kv]);
    var pair := KeyValueText(o, indent, kv, mode);
    var line := KeyValueLineText(o, indent, kv, false, mode);
    assert line == pair + "\n" + "";
    assert KeyValuesText(o, indent, [kv], 1, blank, mode) == KeyValuesText(o, indent, [kv], 0, blank, mode) + line;
    assert ClosingText(o, indent, [], blank) == "" by {
      assert CommentLines(o, indent, []) == "";
    }
    calc {
      MapContentText(o, indent, TokenMap([kv], []), mode);
      KeyValuesText(o, indent, [kv], 1, blank, mode) + ClosingText(o, indent, [], blank);
      "" + line + "";
      pair + "\n";
    }
  }

  /** A content of one value and no closing comments: the value on lines of its own. */
  lemma OneValueContent(o: FormatOptions, indent: nat, t: TokenTree, mode: Mode)
    ensures ContentText(o, indent, [t], [], mode) == TreeText(o, indent, t, mode) + "\n"
  {
    var blank := AnyPrefixComments([t]);
    assert [t][..0] == [];
    assert ItemsText(o, indent, [t], 1, blank, mode) == "" + LineText(o, indent, t, false, mode);
    assert ClosingText(o, indent, [], blank) == "";
  }

  /** `a: 1`, indented. */
  lemma PlainA1Text(o: FormatOptions, indent: nat, mode: Mode)
    ensures KeyValueText(o, indent, PlainA1, mode) == Indentation(o, indent) + "a" + o.keyValueSeparator + "1"
  {
    assert CommentLines(o, indent, []) == "";
    assert KeySuffixText(o, indent, None, mode) == "";
  }

  /** `{a: 1}` at any depth: the pair one level deeper, the closing brace at the map's own depth. */
  lemma PlainA1MapText(o: FormatOptions, indent: nat, mode: Mode)
    ensures ValueText(o, indent, Map(TokenMap([PlainA1], [])), mode) ==
      "{\n" + Indentation(o, indent + 1) + "a" + o.keyValueSeparator + "1\n" + Indentation(o, indent) + "}"
  {
    var m := TokenMap([PlainA1], []);
    var content := MapContentText(o, indent + 1, m, mode);
    assert content == Indentation(o, indent + 1) + "a" + o.keyValueSeparator + "1" + "\n" by {
      PlainA1Text(o, indent + 1, mode);
      OnePairContent(o, indent + 1, PlainA1, mode);
    }
    assert MapText(o, indent, m, mode) == "{" + "\n" + content + Indentation(o, indent) + "}" by {
      assert m.keyValues != [];
    }
    assert ValueText(o, indent, Map(m), mode) == MapText(o, indent, m, mode);
  }

  /** No comment can occur in a text without a slash. */
  lemma NoSlashNoComment(s: string)
    requires forall k :: 0 <= k < |s| ==> s[k] != '/'
    ensures !IsInfix("// c", s)
  {
    forall i ensures !OccursAt("// c", s, i) {
      if 0 <= i && i + 4 <= |s| {
        assert s[i..i + 4][0] == s[i];
      }
    }
  }

  /** As written, a key's suffix comment is dropped: `a: 1`. */
  lemma KeySuffixDropped()
    ensures "// c" in TreeComments(KeyCommentDoc)
    ensures FormatText(KeyCommentDoc, DefaultOptions, AsWritten) == "a: 1\n"
    ensures !IsInfix("// c", FormatText(KeyCommentDoc, DefaultOptions, AsWritten))
  {
    var o := DefaultOptions;
    var kv := KeyCommentDoc.value.entries.keyValues[0];
    assert TreeComments(KeyCommentDoc) == ["// c"] by {
      assert KeyValuesComments([kv]) == KeyValueComments(kv) + KeyValuesComments([]);
    }
    assert CommentLines(o, 0, []) == "" && Indentation(o, 0) == "";
    assert KeyValueText(o, 0, kv, AsWritten) == "a: 1";
    OnePairContent(o, 0, kv, AsWritten);
    assert FormatText(KeyCommentDoc, o, AsWritten) == "" + "a: 1\n" + "";
    NoSlashNoComment("a: 1\n");
  }

  /** Corrected, the comment stays after the key and the separator moves to the next line. */
  lemma KeySuffixKept()
    ensures FormatText(KeyCommentDoc, DefaultOptions, KeepComments) == "a // c\n: 1\n"
  {
    var o := DefaultOptions;
    var kv := KeyCommentDoc.value.entries.keyValues[0];
    assert CommentLines(o, 0, []) == "" && Indentation(o, 0) == "";
    assert KeySuffixText(o, 0, Some("// c"), KeepComments) == " // c\n";
    assert KeyValueText(o, 0, kv, KeepComments) == "a // c\n: 1";
    OnePairContent(o, 0, kv, KeepComments);
    assert FormatText(KeyCommentDoc, o, KeepComments) == "" + "a // c\n: 1\n" + "";
  }

  /** As written, the comment of a variant's single map is dropped: `"V"({ a: 1 })` on three lines. */
  lemma FusedCommentDropped()
    ensures "// c" in TreeComments(FusedCommentDoc)
    ensures FormatText(FusedCommentDoc, DefaultOptions, AsWritten) == "\"V\"({\n\ta: 1\n})"
    ensures !IsInfix("// c", FormatText(FusedCommentDoc, DefaultOptions, AsWritten))
  {
    FusedCommentDocComments();
    FusedVariantAsWritten();
    NoSlashNoComment("\"V\"({\n\ta: 1\n})");
  }

  /** The one comment of `FusedCommentDoc`. */
  lemma FusedCommentDocComments()
    ensures TreeComments(FusedCommentDoc) == ["// c"]
  {
    var x := FusedCommentDoc.value.variant;
    assert TreesComments(x.values) == TreeComments(x.values[0]) + TreesComments([]);
    assert KeyValuesComments([PlainA1]) == KeyValueComments(PlainA1) + KeyValuesComments([]);
  }

  /** The text of `FusedCommentDoc` as written: the variant fused with its map. */
  lemma FusedVariantAsWritten()
    ensures FormatText(FusedCommentDoc, DefaultOptions, AsWritten) == "\"V\"({\n\ta: 1\n})"
  {
    var o := DefaultOptions;
    var x := FusedCommentDoc.value.variant;
    var e := TokenMap([PlainA1], []);
    var text := "\"V\"({\n\ta: 1\n})";
    assert VariantText(o, 0, x, AsWritten) == text by {
      assert !IsSimple(x.values[0]);
      assert x.values[0].value == Map(e);
      assert Indentation(o, 1) == "\t" && Indentation(o, 0) == "";
      assert MapContentText(o, 1, e, AsWritten) == "\ta: 1\n" by {
        PlainA1Text(o, 1, AsWritten);
        OnePairContent(o, 1, PlainA1, AsWritten);
      }
      assert VariantText(o, 0, x, AsWritten) == FusedMapText(o, 0, x.quotedName, e, AsWritten);
    }
    assert ValueText(o, 0, FusedCommentDoc.value, AsWritten) == VariantText(o, 0, x, AsWritten);
    assert CommentLines(o, 0, []) == "" && SuffixText(None) == "" && Indentation(o, 0) == "";
    assert FormatText(FusedCommentDoc, o, AsWritten) == "" + "" + text + "";
  }

  /** A tree with one prefix comment and no suffix: the comment's line, then the value on the next. */
  lemma OneCommentTreeText(o: FormatOptions, indent: nat, c: Comment, v: TokenValue, mode: Mode)
    ensures TreeText(o, indent, TokenTree(None, [c], v, None), mode) ==
      Indentation(o, indent) + c + "\n" + Indentation(o, indent) + ValueText(o, indent, v, mode)
  {
    assert [c][..0] == [];
    var ind := Indentation(o, indent);
    assert CommentLines(o, indent, [c]) == ind + c + "\n" by {
      assert CommentLines(o, indent, [c]) == "" + ind + c + "\n";
    }
    assert SuffixText(None) == "";
  }

  /** The commented map of `FusedCommentDoc`, one level in. */
  lemma FusedValueKept()
    ensures TreeText(DefaultOptions, 1, FusedCommentDoc.value.variant.values[0], KeepComments) ==
      "\t" + "// c" + "\n" + "\t" + ("{\n" + "\t\t" + "a" + ": " + "1\n" + "\t" + "}")
  {
    var o := DefaultOptions;
    var m := Map(TokenMap([PlainA1], []));
    assert FusedCommentDoc.value.variant.values[0] == TokenTree(None, ["// c"], m, None);
    OneCommentTreeText(o, 1, "// c", m, KeepComments);
    PlainA1MapText(o, 1, KeepComments);
    assert Indentation(o, 1) == "\t" && Indentation(o, 2) == "\t\t";
  }

  /**
   * Corrected, the variant is written with its value on lines of its own,
   * comment first: `"V"(`, then the commented map one level in, then `)`.
   */
  lemma FusedCommentKept()
    ensures FormatText(FusedCommentDoc, DefaultOptions, KeepComments) ==
      "\"V\"" + "(\n" + ("\t" + "// c" + "\n" + "\t" + ("{\n" + "\t\t" + "a" + ": " + "1\n" + "\t" + "}")) + "\n)"
  {
    var o := DefaultOptions;
    var x := FusedCommentDoc.value.variant;
    FusedVariantKept();
    FusedValueKept();
    var v := VariantText(o, 0, x, KeepComments);
    assert ValueText(o, 0, FusedCommentDoc.value, KeepComments) == v;
    assert CommentLines(o, 0, []) == "" && SuffixText(None) == "" && Indentation(o, 0) == "";
    assert FormatText(FusedCommentDoc, o, KeepComments) == "" + "" + v + "";
  }

  /** Corrected, the variant of `FusedCommentDoc` is not fused: its value goes on lines of its own. */
  lemma FusedVariantKept()
    ensures var x := FusedCommentDoc.value.variant;
      VariantText(DefaultOptions, 0, x, KeepComments) == x.quotedName + "(\n" + TreeText(DefaultOptions, 1, x.values[0], KeepComments) + "\n)"
  {
    var o := DefaultOptions;
    var x := FusedCommentDoc.value.variant;
    var t := x.values[0];
    assert !ShouldFormatVariantOnOneLine(x) by {
      assert !IsSimple(x.values[0]);
    }
    assert Indentation(o, 0) == "";
    VariantOnLinesOfItsOwn(o, 0, x, KeepComments);
    OneValueContent(o, 1, t, KeepComments);
  }

  /** A variant neither empty, nor on one line, nor fused: its values on lines of their own inside the parentheses. */
  lemma VariantOnLinesOfItsOwn(o: FormatOptions, indent: nat, x: TokenVariant, mode: Mode)
    requires x.values != [] && !ShouldFormatVariantOnOneLine(x) && !Fused(x, mode)
    ensures VariantText(o, indent, x, mode) ==
      x.quotedName + "(" + "\n" + ContentText(o, indent + 1, x.values, x.closingComments, mode) + Indentation(o, indent) + ")"
  {
  }
}
