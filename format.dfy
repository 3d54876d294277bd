/**
 * The pretty-printer from a token tree back to Eon text.
 *
 * What the printer writes is stated as pure functions of the tree and the
 * indentation level; the `Formatter` class appends to its output buffer and
 * moves its indentation counter as the source's does, and each of its
 * methods is proved to append exactly what its function says and to leave
 * the indentation as it found it.
 */
module Format {
  import opened Common
  import opened TokenTree

  /**
   * How to format a document. `newline` and `spaceBeforeSuffixComment` are
   * part of the options but the printer never reads them: it writes `'\n'`
   * and `' '` itself.
   */
  datatype FormatOptions = FormatOptions(
    indentation: string,
    newline: string,
    spaceBeforeSuffixComment: string,
    keyValueSeparator: string,
    alwaysIncludeOuterBraces: bool)

  const DefaultOptions := FormatOptions("\t", "\n", " ", ": ", false)

  /**
   * `AsWritten` is the printer of the source. `KeepComments` is the
   * correction of the two places where it loses a comment: a map key's
   * suffix comment is written after the key, which then ends its line, and
   * a variant whose single value has comments of its own is not fused.
   */
  datatype Mode = AsWritten | KeepComments

  // ---------------------------------------------------------------------------
  // Layout decisions

  /** `is_simple`: an atom or an empty container, with no comment around it. */
  function IsSimple(t: TokenTree): (r: bool)
    ensures r ==> TreeComments(t) == []
  {
    assert TreesComments([]) == [] && KeyValuesComments([]) == [];
    t.prefixComments == [] && t.suffixComment.None? &&
    match t.value
    case Identifier(_) => true
    case Number(_) => true
    case QuotedString(s) => '\n' !in s
    case List(l) => l.values == [] && l.closingComments == []
    case Map(e) => e.keyValues == [] && e.closingComments == []
    case Variant(x) => x.values == [] && x.closingComments == []
  }

  /** The number of bytes UTF-8 uses for `c`. */
  function Utf8Width(c: char): (r: nat)
    ensures 1 <= r <= 4
    ensures r == 1 <==> c < '\U{0080}'
  {
    if c < '\U{0080}' then 1
    else if c < '\U{0800}' then 2
    else if c < '\U{10000}' then 3
    else 4
  }

  /** `str::len`: the length of `s` in UTF-8 bytes. */
  function Utf8Length(s: string): (r: nat)
    ensures |s| <= r <= 4 * |s|
  {
    if s == [] then 0 else Utf8Width(s[0]) + Utf8Length(s[1..])
  }

  /** The byte length is the character count exactly when the string is ASCII. */
  lemma {:induction false} Utf8LengthOfAscii(s: string)
    ensures Utf8Length(s) == |s| <==> forall i :: 0 <= i < |s| ==> s[i] < '\U{0080}'
    decreases |s|
  {
    if s != [] {
      Utf8LengthOfAscii(s[1..]);
      assert forall i :: 1 <= i < |s| ==> s[1..][i - 1] == s[i];
    }
  }

  lemma {:induction false} Utf8LengthAppend(a: string, b: string)
    ensures Utf8Length(a + b) == Utf8Length(a) + Utf8Length(b)
    decreases |a|
  {
    if a == [] {
      assert a + b == b;
    } else {
      assert (a + b)[0] == a[0] && (a + b)[1..] == a[1..] + b;
      Utf8LengthAppend(a[1..], b);
    }
  }

  /** What one element adds to the estimated width: a string's length in bytes or 5, and 2 for the separator. */
  function ElementWidth(t: TokenTree): nat {
    (if t.value.QuotedString? then Utf8Length(t.value.quoted) else 5) + 2
  }

  function EstimatedWidth(values: seq<TokenTree>): nat {
    if values == [] then 0 else EstimatedWidth(values[..|values| - 1]) + ElementWidth(values[|values| - 1])
  }

  /**
   * The values go on one line when all are simple and there are at most four
   * of them, and either all are numbers or their estimated width is under 60.
   */
  predicate ValuesOnOneLine(values: seq<TokenTree>) {
    (forall i :: 0 <= i < |values| ==> IsSimple(values[i])) &&
    |values| <= 4 &&
    ((forall i :: 0 <= i < |values| ==> IsNumber(values[i].value)) || EstimatedWidth(values) < 60)
  }

  /** `should_format_list_on_one_line` */
  function ShouldFormatListOnOneLine(l: TokenList): (r: bool)
    ensures r ==> TreesComments(l.values) + l.closingComments == []
  {
    SimpleHaveNoComments(l.values);
    l.closingComments == [] && ValuesOnOneLine(l.values)
  }

  /** `should_format_variant_on_one_line` */
  function ShouldFormatVariantOnOneLine(x: TokenVariant): (r: bool)
    ensures r ==> TreesComments(x.values) + x.closingComments == []
  {
    ShouldFormatListOnOneLine(TokenList(x.values, x.closingComments))
  }

  /** Simple values have no comments, so the one-line layout drops none. */
  lemma {:induction false} SimpleHaveNoComments(values: seq<TokenTree>)
    ensures (forall i :: 0 <= i < |values| ==> IsSimple(values[i])) ==> TreesComments(values) == []
    decreases |values|
  {
    if values != [] && forall i :: 0 <= i < |values| ==> IsSimple(values[i]) {
      assert IsSimple(values[0]);
      assert forall i :: 0 <= i < |values[1..]| ==> IsSimple(values[1..][i]) by {
        forall i | 0 <= i < |values[1..]| ensures IsSimple(values[1..][i]) {
          assert values[1..][i] == values[i + 1];
        }
      }
      SimpleHaveNoComments(values[1..]);
    }
  }

  /** A run of `n` copies of `c` takes `n` times the bytes of `c`. */
  lemma {:induction false} Utf8LengthOfRun(c: char, n: nat)
    ensures Utf8Length(seq(n, _ => c)) == n * Utf8Width(c)
  {
    if n > 0 {
      var s := seq(n, _ => c);
      assert s[1..] == seq(n - 1, _ => c);
      Utf8LengthOfRun(c, n - 1);
    }
  }

  /**
   * The width is counted in bytes: thirty `é` in quotes are 32 characters but
   * 62 bytes, so a list holding only that string is not written on one line.
   */
  lemma WideLettersBreakTheLine(t: TokenTree)
    requires t.value == QuotedString("\"" + seq(30, _ => '\U{00E9}') + "\"")
    requires t.prefixComments == [] && t.suffixComment.None?
    ensures |t.value.quoted| == 32 && ElementWidth(t) == 64
    ensures !ShouldFormatListOnOneLine(TokenList([t], []))
  {
    var q, e := "\"", seq(30, _ => '\U{00E9}');
    Utf8LengthOfRun('\U{00E9}', 30);
    Utf8LengthAppend(q, e);
    Utf8LengthAppend(q + e, q);
    assert EstimatedWidth([t]) == 64 by {
      assert [t][..0] == [];
    }
  }

  /** Blank lines separate the elements when some element has prefix comments. */
  predicate AnyPrefixComments(values: seq<TokenTree>) {
    exists i :: 0 <= i < |values| && values[i].prefixComments != []
  }

  /** For a map, only the keys' prefix comments count. */
  predicate AnyKeyPrefixComments(kvs: seq<TokenKeyValue>) {
    exists i :: 0 <= i < |kvs| && kvs[i].key.prefixComments != []
  }

  /** A variant whose single value is a map or a list is written fused, as `name({ … })` or `name([ … ])`. */
  predicate Fused(x: TokenVariant, mode: Mode) {
    x.closingComments == [] && |x.values| == 1 &&
    (mode == AsWritten || (x.values[0].prefixComments == [] && x.values[0].suffixComment.None?))
  }

  // ---------------------------------------------------------------------------
  // What the printer writes

  function Repeat(s: string, n: nat): string {
    if n == 0 then "" else Repeat(s, n - 1) + s
  }

  function Indentation(o: FormatOptions, indent: nat): string {
    Repeat(o.indentation, indent)
  }

  /** Each comment on a line of its own, indented. */
  function CommentLines(o: FormatOptions, indent: nat, comments: seq<Comment>): string {
    if comments == [] then ""
    else CommentLines(o, indent, comments[..|comments| - 1]) + Indentation(o, indent) + comments[|comments| - 1] + "\n"
  }

  function SuffixText(c: Option<Comment>): string {
    match c
    case None => ""
    case Some(s) => " " + s
  }

  /** A tree on lines of its own: its prefix comments, then the indented value and its suffix comment. */
  function TreeText(o: FormatOptions, indent: nat, t: TokenTree, mode: Mode): string
    decreases t, 0
  {
    CommentLines(o, indent, t.prefixComments) + Indentation(o, indent) + ValueText(o, indent, t.value, mode) + SuffixText(t.suffixComment)
  }

  function ValueText(o: FormatOptions, indent: nat, v: TokenValue, mode: Mode): string
    decreases v, 0
  {
    match v
    case Identifier(s) => s
    case Number(s) => s
    case QuotedString(s) => s
    case List(l) => ListText(o, indent, l, mode)
    case Map(e) => MapText(o, indent, e, mode)
    case Variant(x) => VariantText(o, indent, x, mode)
  }

  /** The first `n` values, comma-separated on one line. */
  function OneLineText(o: FormatOptions, indent: nat, values: seq<TokenTree>, n: nat, mode: Mode): string
    requires n <= |values|
    decreases values, n
  {
    if n == 0 then ""
    else
      OneLineText(o, indent, values, n - 1, mode) + ValueText(o, indent, values[n - 1].value, mode) +
      (if n < |values| then ", " else "")
  }

  function ListText(o: FormatOptions, indent: nat, l: TokenList, mode: Mode): string
    decreases l, 1
  {
    if l.values == [] && l.closingComments == [] then "[]"
    else if ShouldFormatListOnOneLine(l) then "[" + OneLineText(o, indent, l.values, |l.values|, mode) + "]"
    else "[" + "\n" + ListContentText(o, indent + 1, l, mode) + Indentation(o, indent) + "]"
  }

  function ListContentText(o: FormatOptions, indent: nat, l: TokenList, mode: Mode): string
    decreases l, 0
  {
    ContentText(o, indent, l.values, l.closingComments, mode)
  }

  /** The values of a list or a variant on lines of their own, then the closing comments. */
  function ContentText(o: FormatOptions, indent: nat, values: seq<TokenTree>, closing: seq<Comment>, mode: Mode): string
    decreases values, |values| + 1
  {
    var blank := AnyPrefixComments(values);
    ItemsText(o, indent, values, |values|, blank, mode) + ClosingText(o, indent, closing, blank)
  }

  /** The first `n` values, each on lines of its own, with a blank line between two when `blank`. */
  function ItemsText(o: FormatOptions, indent: nat, values: seq<TokenTree>, n: nat, blank: bool, mode: Mode): string
    requires n <= |values|
    decreases values, n
  {
    if n == 0 then ""
    else ItemsText(o, indent, values, n - 1, blank, mode) + LineText(o, indent, values[n - 1], blank && n < |values|, mode)
  }

  /** A value, its line break, and a blank line after it when `blankAfter`. */
  function LineText(o: FormatOptions, indent: nat, t: TokenTree, blankAfter: bool, mode: Mode): string
    decreases t, 1
  {
    TreeText(o, indent, t, mode) + "\n" + (if blankAfter then "\n" else "")
  }

  /** Closing comments, after a blank line when the elements are separated by blank lines. */
  function ClosingText(o: FormatOptions, indent: nat, closing: seq<Comment>, blank: bool): string {
    (if blank && closing != [] then "\n" else "") + CommentLines(o, indent, closing)
  }

  function MapText(o: FormatOptions, indent: nat, e: TokenMap, mode: Mode): string
    decreases e, 1
  {
    if e.keyValues == [] && e.closingComments == [] then "{}"
    else "{" + "\n" + MapContentText(o, indent + 1, e, mode) + Indentation(o, indent) + "}"
  }

  function MapContentText(o: FormatOptions, indent: nat, e: TokenMap, mode: Mode): string
    decreases e, 0
  {
    var blank := AnyKeyPrefixComments(e.keyValues);
    KeyValuesText(o, indent, e.keyValues, |e.keyValues|, blank, mode) + ClosingText(o, indent, e.closingComments, blank)
  }

  function KeyValuesText(o: FormatOptions, indent: nat, kvs: seq<TokenKeyValue>, n: nat, blank: bool, mode: Mode): string
    requires n <= |kvs|
    decreases kvs, n
  {
    if n == 0 then ""
    else KeyValuesText(o, indent, kvs, n - 1, blank, mode) + KeyValueLineText(o, indent, kvs[n - 1], blank && n < |kvs|, mode)
  }

  /** A pair, its line break, and a blank line after it when `blankAfter`. */
  function KeyValueLineText(o: FormatOptions, indent: nat, kv: TokenKeyValue, blankAfter: bool, mode: Mode): string
    decreases kv, 1
  {
    KeyValueText(o, indent, kv, mode) + "\n" + (if blankAfter then "\n" else "")
  }

  /**
   * The comments before the key, then those before the value, then
   * `key ++ separator ++ value` and the value's suffix comment.
   */
  function KeyValueText(o: FormatOptions, indent: nat, kv: TokenKeyValue, mode: Mode): string
    decreases kv, 0
  {
    CommentLines(o, indent, kv.key.prefixComments) + CommentLines(o, indent, kv.value.prefixComments) +
    Indentation(o, indent) + ValueText(o, indent, kv.key.value, mode) + KeySuffixText(o, indent, kv.key.suffixComment, mode) +
    o.keyValueSeparator + ValueText(o, indent, kv.value.value, mode) + SuffixText(kv.value.suffixComment)
  }

  /** The key's suffix comment: dropped as written; kept, with the separator moved to the next line, when corrected. */
  function KeySuffixText(o: FormatOptions, indent: nat, c: Option<Comment>, mode: Mode): string {
    if mode == KeepComments && c.Some? then SuffixText(c) + "\n" + Indentation(o, indent) else ""
  }

  function VariantText(o: FormatOptions, indent: nat, x: TokenVariant, mode: Mode): string
    decreases x, 1
  {
    if x.values == [] && x.closingComments == [] then x.quotedName
    else if ShouldFormatVariantOnOneLine(x) then x.quotedName + "(" + OneLineText(o, indent, x.values, |x.values|, mode) + ")"
    else if Fused(x, mode) && x.values[0].value.Map? then FusedMapText(o, indent, x.quotedName, x.values[0].value.entries, mode)
    else if Fused(x, mode) && x.values[0].value.List? then FusedListText(o, indent, x.quotedName, x.values[0].value.list, mode)
    else
      x.quotedName + "(" + "\n" + ContentText(o, indent + 1, x.values, x.closingComments, mode) + Indentation(o, indent) + ")"
  }

  /** A variant whose single value is a map: `name({ … })`, the map's contents indented once. */
  function FusedMapText(o: FormatOptions, indent: nat, name: string, e: TokenMap, mode: Mode): string
    decreases e, 2
  {
    if e.keyValues == [] && e.closingComments == [] then name + "({ })"
    else name + "({" + "\n" + MapContentText(o, indent + 1, e, mode) + Indentation(o, indent) + "})"
  }

  /** A variant whose single value is a list: `name([ … ])`, the list's contents indented once. */
  function FusedListText(o: FormatOptions, indent: nat, name: string, l: TokenList, mode: Mode): string
    decreases l, 2
  {
    if l.values == [] && l.closingComments == [] then name + "([ ])"
    else name + "([" + "\n" + ListContentText(o, indent + 1, l, mode) + Indentation(o, indent) + "])"
  }

  /** `TokenTree::format`: a top-level map is written without its braces unless the options ask for them. */
  function FormatText(t: TokenTree, o: FormatOptions, mode: Mode): string {
    if !o.alwaysIncludeOuterBraces && t.value.Map? then
      CommentLines(o, 0, t.prefixComments) + MapContentText(o, 0, t.value.entries, mode) + SuffixText(t.suffixComment)
    else TreeText(o, 0, t, mode)
  }

  // ---------------------------------------------------------------------------
  // `should_format_values_on_one_line`, as the source computes it

  method ShouldFormatValuesOnOneLine(values: seq<TokenTree>) returns (r: bool)
    ensures r == ValuesOnOneLine(values)
  {
    if exists i :: 0 <= i < |values| && !IsSimple(values[i]) {
      return false;
    }
    if |values| <= 4 && forall i :: 0 <= i < |values| ==> IsNumber(values[i].value) {
      return true;
    }
    if |values| > 4 {
      return false;
    }
    var estimatedWidth := 0;
    var i := 0;
    while i < |values|
      invariant 0 <= i <= |values|
      invariant estimatedWidth == EstimatedWidth(values[..i])
    {
      if values[i].value.QuotedString? {
        estimatedWidth := estimatedWidth + Utf8Length(values[i].value.quoted);
      } else {
        estimatedWidth := estimatedWidth + 5;
      }
      estimatedWidth := estimatedWidth + 2;
      assert values[..i + 1][..i] == values[..i];
      i := i + 1;
    }
    assert values[..i] == values;
    r := estimatedWidth < 60;
  }

  // ---------------------------------------------------------------------------
  // The printer

  /** Text appended after `w` was appended to `a`: the joined piece it now holds. */
  ghost function Appended(a: string, w: string, b: string): (r: string)
    ensures a + w + b == a + r && r == w + b
  {
    w + b
  }

  /** `Formatter`: the options, the current indentation level and the text written so far. */
  class Formatter {
    const options: FormatOptions
    var indent: nat
    var out: string

    constructor (options: FormatOptions)
      ensures this.options == options && indent == 0 && out == ""
    {
      this.options := options;
      indent := 0;
      out := "";
    }

    /** `finish`: the text written, once the indentation is back at zero. */
    method Finish() returns (s: string)
      requires indent == 0
      ensures s == out
    {
      s := out;
    }

    method AddIndent()
      modifies `out
      ensures out == old(out) + Indentation(options, indent)
    {
      var k := 0;
      while k < indent
        invariant 0 <= k <= indent
        invariant out == old(out) + Repeat(options.indentation, k)
      {
        out := out + options.indentation;
        k := k + 1;
      }
    }

    method IndentedComments(comments: seq<Comment>)
      modifies `out
      ensures out == old(out) + CommentLines(options, indent, comments)
    {
      var i := 0;
      while i < |comments|
        invariant 0 <= i <= |comments|
        invariant out == old(out) + CommentLines(options, indent, comments[..i])
      {
        AddIndent();
        out := out + comments[i] + "\n";
        assert comments[..i + 1][..i] == comments[..i];
        i := i + 1;
      }
      assert comments[..i] == comments;
    }

    method IndentedValue(t: TokenTree)
      modifies this
      ensures indent == old(indent) && out == old(out) + TreeText(options, indent, t, AsWritten)
      decreases t, 0
    {
      IndentedComments(t.prefixComments);
      AddIndent();
      Value(t.value);
      SuffixComment(t.suffixComment);
    }

    method SuffixComment(c: Option<Comment>)
      modifies `out
      ensures out == old(out) + SuffixText(c)
    {
      if c.Some? {
        out := out + " ";
        out := out + c.value;
      }
    }

    method Value(v: TokenValue)
      modifies this
      ensures indent == old(indent) && out == old(out) + ValueText(options, indent, v, AsWritten)
      decreases v, 0
    {
      match v
      case Identifier(s) => out := out + s;
      case Number(s) => out := out + s;
      case QuotedString(s) => out := out + s;
      case List(l) => List(l);
      case Map(e) => Map(e);
      case Variant(x) => Variant(x);
    }

    /** Writes the first `n` values on one line, separated by commas. */
    method OneLineValues(values: seq<TokenTree>)
      modifies this
      ensures indent == old(indent) && out == old(out) + OneLineText(options, indent, values, |values|, AsWritten)
      decreases values, |values|
    {
      var i := 0;
      while i < |values|
        invariant 0 <= i <= |values| && indent == old(indent)
        invariant out == old(out) + OneLineText(options, indent, values, i, AsWritten)
      {
        Value(values[i].value);
        if i + 1 < |values| {
          out := out + ", ";
        }
        i := i + 1;
      }
    }

    method List(l: TokenList)
      modifies this
      ensures indent == old(indent) && out == old(out) + ListText(options, indent, l, AsWritten)
      decreases l, 1
    {
      if |l.values| == 0 && |l.closingComments| == 0 {
        out := out + "[]";
        return;
      }
      ghost var out0 := out;
      if ShouldFormatListOnOneLine(l) {
        out := out + "[";
        OneLineValues(l.values);
        ghost var w := Appended(out0, "[", OneLineText(options, indent, l.values, |l.values|, AsWritten));
        out := out + "]";
        w := Appended(out0, w, "]");
      } else {
        out := out + "[";
        indent := indent + 1;
        out := out + "\n";
        ghost var w := Appended(out0, "[", "\n");
        ListContent(l);
        w := Appended(out0, w, ListContentText(options, indent, l, AsWritten));
        indent := indent - 1;
        AddIndent();
        w := Appended(out0, w, Indentation(options, indent));
        out := out + "]";
        w := Appended(out0, w, "]");
        assert w == ListText(options, indent, l, AsWritten);
      }
    }

    /** Each value on lines of its own, then the closing comments. */
    method Content(values: seq<TokenTree>, closing: seq<Comment>)
      modifies this
      ensures indent == old(indent) && out == old(out) + ContentText(options, indent, values, closing, AsWritten)
      decreases values, |values| + 1
    {
      ghost var out0 := out;
      var addBlankLines := AnyPrefixComments(values);
      var i := 0;
      while i < |values|
        invariant 0 <= i <= |values| && indent == old(indent)
        invariant out == out0 + ItemsText(options, indent, values, i, addBlankLines, AsWritten)
      {
        ghost var w := ItemsText(options, indent, values, i, addBlankLines, AsWritten);
        Line(values[i], addBlankLines && i + 1 < |values|);
        w := Appended(out0, w, LineText(options, indent, values[i], addBlankLines && i + 1 < |values|, AsWritten));
        i := i + 1;
      }
      Closing(closing, addBlankLines);
      ghost var _ := Appended(out0, ItemsText(options, indent, values, |values|, addBlankLines, AsWritten),
        ClosingText(options, indent, closing, addBlankLines));
    }

    /** One iteration of the loop over the values: a value, its line break, and a blank line when `blankAfter`. */
    method Line(t: TokenTree, blankAfter: bool)
      modifies this
      ensures indent == old(indent) && out == old(out) + LineText(options, indent, t, blankAfter, AsWritten)
      decreases t, 1
    {
      IndentedValue(t);
      out := out + "\n";
      if blankAfter {
        out := out + "\n";
      }
    }

    /** The closing comments, after a blank line when the elements are separated by blank lines. */
    method Closing(closing: seq<Comment>, addBlankLines: bool)
      modifies `out
      ensures out == old(out) + ClosingText(options, indent, closing, addBlankLines)
    {
      ghost var out0 := out;
      ghost var gap := if addBlankLines && |closing| > 0 then "\n" else "";
      if addBlankLines && |closing| > 0 {
        out := out + "\n";
      }
      IndentedComments(closing);
      ghost var _ := Appended(out0, gap, CommentLines(options, indent, closing));
    }

    method ListContent(l: TokenList)
      modifies this
      ensures indent == old(indent) && out == old(out) + ListContentText(options, indent, l, AsWritten)
      decreases l, 0
    {
      Content(l.values, l.closingComments);
    }

    method Map(e: TokenMap)
      modifies this
      ensures indent == old(indent) && out == old(out) + MapText(options, indent, e, AsWritten)
      decreases e, 1
    {
      if |e.keyValues| == 0 && |e.closingComments| == 0 {
        out := out + "{}";
        return;
      }
      ghost var out0 := out;
      out := out + "{";
      indent := indent + 1;
      out := out + "\n";
      ghost var w := Appended(out0, "{", "\n");
      MapContent(e);
      w := Appended(out0, w, MapContentText(options, indent, e, AsWritten));
      indent := indent - 1;
      AddIndent();
      w := Appended(out0, w, Indentation(options, indent));
      out := out + "}";
      w := Appended(out0, w, "}");
      assert w == MapText(options, indent, e, AsWritten);
    }

    method MapContent(e: TokenMap)
      modifies this
      ensures indent == old(indent) && out == old(out) + MapContentText(options, indent, e, AsWritten)
      decreases e, 0
    {
      ghost var out0 := out;
      var keyValues, closing := e.keyValues, e.closingComments;
      var addBlankLines := AnyKeyPrefixComments(keyValues);
      var i := 0;
      while i < |keyValues|
        invariant 0 <= i <= |keyValues| && indent == old(indent)
        invariant out == out0 + KeyValuesText(options, indent, keyValues, i, addBlankLines, AsWritten)
      {
        ghost var w := KeyValuesText(options, indent, keyValues, i, addBlankLines, AsWritten);
        KeyValueLine(keyValues[i], addBlankLines && i + 1 < |keyValues|);
        w := Appended(out0, w, KeyValueLineText(options, indent, keyValues[i], addBlankLines && i + 1 < |keyValues|, AsWritten));
        i := i + 1;
      }
      Closing(closing, addBlankLines);
      ghost var _ := Appended(out0, KeyValuesText(options, indent, keyValues, |keyValues|, addBlankLines, AsWritten),
        ClosingText(options, indent, closing, addBlankLines));
    }

    /** One iteration of the loop of `map_content`: a pair, its line break, and a blank line when `blankAfter`. */
    method KeyValueLine(kv: TokenKeyValue, blankAfter: bool)
      modifies this
      ensures indent == old(indent)
      ensures out == old(out) + KeyValueLineText(options, indent, kv, blankAfter, AsWritten)
      decreases kv, 1
    {
      IndentedKeyValue(kv);
      out := out + "\n";
      if blankAfter {
        out := out + "\n";
      }
    }

    method IndentedKeyValue(kv: TokenKeyValue)
      modifies this
      ensures indent == old(indent) && out == old(out) + KeyValueText(options, indent, kv, AsWritten)
      decreases kv, 0
    {
      ghost var out0 := out;
      IndentedComments(kv.key.prefixComments);
      ghost var w := CommentLines(options, indent, kv.key.prefixComments);
      IndentedComments(kv.value.prefixComments);
      w := Appended(out0, w, CommentLines(options, indent, kv.value.prefixComments));
      AddIndent();
      w := Appended(out0, w, Indentation(options, indent));
      Value(kv.key.value);
      w := Appended(out0, w, ValueText(options, indent, kv.key.value, AsWritten));
      out := out + options.keyValueSeparator;
      w := Appended(out0, w, options.keyValueSeparator);
      Value(kv.value.value);
      w := Appended(out0, w, ValueText(options, indent, kv.value.value, AsWritten));
      SuffixComment(kv.value.suffixComment);
      w := Appended(out0, w, SuffixText(kv.value.suffixComment));
      assert w == KeyValueText(options, indent, kv, AsWritten);
    }

    method Variant(x: TokenVariant)
      modifies this
      ensures indent == old(indent) && out == old(out) + VariantText(options, indent, x, AsWritten)
      decreases x, 1
    {
      if |x.values| == 0 && |x.closingComments| == 0 {
        out := out + x.quotedName;
        return;
      }
      if ShouldFormatVariantOnOneLine(x) {
        OneLineVariant(x);
      } else if |x.closingComments| == 0 && |x.values| == 1 && x.values[0].value.Map? {
        assert Fused(x, AsWritten);
        FusedMap(x.quotedName, x.values[0].value.entries);
      } else if |x.closingComments| == 0 && |x.values| == 1 && x.values[0].value.List? {
        assert Fused(x, AsWritten);
        FusedList(x.quotedName, x.values[0].value.list);
      } else {
        assert !Fused(x, AsWritten) || (!x.values[0].value.Map? && !x.values[0].value.List?);
        Enclosed(x);
      }
    }

    /** A variant on one line: `name(a, b, …)`. */
    method OneLineVariant(x: TokenVariant)
      modifies this
      ensures indent == old(indent)
      ensures out == old(out) + (x.quotedName + "(" + OneLineText(options, indent, x.values, |x.values|, AsWritten) + ")")
      decreases x, 0
    {
      ghost var out0 := out;
      out := out + x.quotedName;
      out := out + "(";
      ghost var w := Appended(out0, x.quotedName, "(");
      OneLineValues(x.values);
      w := Appended(out0, w, OneLineText(options, indent, x.values, |x.values|, AsWritten));
      out := out + ")";
      w := Appended(out0, w, ")");
    }

    /** The general layout of a variant: `name(`, each value on lines of its own, the closing comments, `)`. */
    method Enclosed(x: TokenVariant)
      modifies this
      ensures indent == old(indent)
      ensures out == old(out) + (x.quotedName + "(" + "\n" + ContentText(options, indent + 1, x.values, x.closingComments, AsWritten) +
        Indentation(options, indent) + ")")
      decreases x, 0
    {
      ghost var out0 := out;
      out := out + x.quotedName;
      out := out + "(";
      ghost var w := Appended(out0, x.quotedName, "(");
      indent := indent + 1;
      out := out + "\n";
      w := Appended(out0, w, "\n");
      Content(x.values, x.closingComments);
      w := Appended(out0, w, ContentText(options, indent, x.values, x.closingComments, AsWritten));
      indent := indent - 1;
      AddIndent();
      w := Appended(out0, w, Indentation(options, indent));
      out := out + ")";
      w := Appended(out0, w, ")");
    }

    method FusedMap(name: string, e: TokenMap)
      modifies this
      ensures indent == old(indent) && out == old(out) + FusedMapText(options, indent, name, e, AsWritten)
      decreases e, 2
    {
      if |e.keyValues| == 0 && |e.closingComments| == 0 {
        out := out + name;
        out := out + "({ })";
      } else {
        ghost var out0 := out;
        out := out + name;
        out := out + "({";
        ghost var w := Appended(out0, name, "({");
        indent := indent + 1;
        out := out + "\n";
        w := Appended(out0, w, "\n");
        MapContent(e);
        w := Appended(out0, w, MapContentText(options, indent, e, AsWritten));
        indent := indent - 1;
        AddIndent();
        w := Appended(out0, w, Indentation(options, indent));
        out := out + "})";
        w := Appended(out0, w, "})");
      }
    }

    method FusedList(name: string, l: TokenList)
      modifies this
      ensures indent == old(indent) && out == old(out) + FusedListText(options, indent, name, l, AsWritten)
      decreases l, 2
    {
      if |l.values| == 0 && |l.closingComments| == 0 {
        out := out + name;
        out := out + "([ ])";
      } else {
        ghost var out0 := out;
        out := out + name;
        out := out + "([";
        ghost var w := Appended(out0, name, "([");
        indent := indent + 1;
        out := out + "\n";
        w := Appended(out0, w, "\n");
        ListContent(l);
        w := Appended(out0, w, ListContentText(options, indent, l, AsWritten));
        indent := indent - 1;
        AddIndent();
        w := Appended(out0, w, Indentation(options, indent));
        out := out + "])";
        w := Appended(out0, w, "])");
      }
    }
  }

  /** `TokenTree::format` */
  method Format(t: TokenTree, options: FormatOptions) returns (s: string)
    ensures s == FormatText(t, options, AsWritten)
  {
    var f := new Formatter(options);
    if !f.options.alwaysIncludeOuterBraces && t.value.Map? {
      f.IndentedComments(t.prefixComments);
      f.MapContent(t.value.entries);
      f.SuffixComment(t.suffixComment);
      assert f.out == "" + CommentLines(options, 0, t.prefixComments) + MapContentText(options, 0, t.value.entries, AsWritten) + SuffixText(t.suffixComment);
      s := f.Finish();
      return;
    }
    f.IndentedValue(t);
    assert f.out == "" + TreeText(options, 0, t, AsWritten);
    s := f.Finish();
  }
}
