/**
 * The token tree: the structure of an Eon document with its comments, halfway
 * between a concrete and an abstract syntax tree.
 */
module TokenTree {
  import opened Common
  import opened Span

  /** `// A comment`: the slashes are included, the trailing newline is not. */
  type Comment = string

  datatype TokenTree = TokenTree(
    span: Option<Span>,
    prefixComments: seq<Comment>,
    value: TokenValue,
    suffixComment: Option<Comment>)

  datatype TokenKeyValue = TokenKeyValue(key: TokenTree, value: TokenTree)

  /** A map, like `{ key: value, … }`. */
  datatype TokenMap = TokenMap(keyValues: seq<TokenKeyValue>, closingComments: seq<Comment>)

  /** A list, like `[ a, b, c, … ]`. */
  datatype TokenList = TokenList(values: seq<TokenTree>, closingComments: seq<Comment>)

  /** A sum-type variant, like `"Rgb"(255, 0, 0)`. */
  datatype TokenVariant = TokenVariant(
    nameSpan: Option<Span>,
    quotedName: string,
    values: seq<TokenTree>,
    closingComments: seq<Comment>)

  datatype TokenValue =
    | Identifier(name: string)
    | Number(text: string)
    | QuotedString(quoted: string)
    | List(list: TokenList)
    | Map(entries: TokenMap)
    | Variant(variant: TokenVariant)

  predicate IsNumber(v: TokenValue) {
    match v
    case Number(_) => true
    case _ => false
  }

  lemma IsNumberExactly(v: TokenValue)
    ensures IsNumber(v) <==> exists text :: v == Number(text)
  {
    if IsNumber(v) {
      assert v == Number(v.text);
    }
  }

  // ---------------------------------------------------------------------------
  // All the comments of a tree, in document order

  function SuffixComments(c: Option<Comment>): seq<Comment> {
    match c
    case None => []
    case Some(text) => [text]
  }

  function TreeComments(t: TokenTree): seq<Comment>
    decreases t
  {
    t.prefixComments + ValueComments(t.value) + SuffixComments(t.suffixComment)
  }

  function ValueComments(v: TokenValue): seq<Comment>
    decreases v
  {
    match v
    case Identifier(_) => []
    case Number(_) => []
    case QuotedString(_) => []
    case List(l) => TreesComments(l.values) + l.closingComments
    case Map(m) => KeyValuesComments(m.keyValues) + m.closingComments
    case Variant(x) => TreesComments(x.values) + x.closingComments
  }

  function TreesComments(ts: seq<TokenTree>): seq<Comment>
    decreases ts
  {
    if ts == [] then [] else TreeComments(ts[0]) + TreesComments(ts[1..])
  }

  function KeyValueComments(kv: TokenKeyValue): seq<Comment>
    decreases kv
  {
    TreeComments(kv.key) + TreeComments(kv.value)
  }

  function KeyValuesComments(kvs: seq<TokenKeyValue>): seq<Comment>
    decreases kvs
  {
    if kvs == [] then [] else KeyValueComments(kvs[0]) + KeyValuesComments(kvs[1..])
  }

  /** `TokenTree::from(value)`: a tree with no span and no comments of its own around `v`. */
  function FromValue(v: TokenValue): (t: TokenTree)
    ensures t.value == v && t.span.None?
    ensures TreeComments(t) == ValueComments(v)
  {
    TokenTree(None, [], v, None)
  }

  // ---------------------------------------------------------------------------
  // Bracket nesting

  function Max(a: nat, b: nat): nat {
    if a < b then b else a
  }

  /** How many brackets, braces or variant parentheses enclose the innermost part of `v`, its own included. */
  function Nesting(v: TokenValue): nat
    decreases v
  {
    match v
    case Identifier(_) => 0
    case Number(_) => 0
    case QuotedString(_) => 0
    case List(l) => 1 + MaxNesting(l.values)
    case Map(m) => 1 + MaxKeyValueNesting(m.keyValues)
    case Variant(x) => 1 + MaxNesting(x.values)
  }

  function TreeNesting(t: TokenTree): nat
    decreases t
  {
    Nesting(t.value)
  }

  function MaxNesting(ts: seq<TokenTree>): nat
    decreases ts
  {
    if ts == [] then 0 else Max(TreeNesting(ts[0]), MaxNesting(ts[1..]))
  }

  function KeyValueNesting(kv: TokenKeyValue): nat
    decreases kv
  {
    Max(TreeNesting(kv.key), TreeNesting(kv.value))
  }

  function MaxKeyValueNesting(kvs: seq<TokenKeyValue>): nat
    decreases kvs
  {
    if kvs == [] then 0 else Max(KeyValueNesting(kvs[0]), MaxKeyValueNesting(kvs[1..]))
  }

  lemma {:induction false} MaxNestingAppend(ts: seq<TokenTree>, t: TokenTree)
    ensures MaxNesting(ts + [t]) == Max(MaxNesting(ts), TreeNesting(t))
    decreases ts
  {
    if ts != [] {
      assert (ts + [t])[1..] == ts[1..] + [t];
      MaxNestingAppend(ts[1..], t);
    }
  }

  lemma {:induction false} MaxKeyValueNestingAppend(kvs: seq<TokenKeyValue>, kv: TokenKeyValue)
    ensures MaxKeyValueNesting(kvs + [kv]) == Max(MaxKeyValueNesting(kvs), KeyValueNesting(kv))
    decreases kvs
  {
    if kvs != [] {
      assert (kvs + [kv])[1..] == kvs[1..] + [kv];
      MaxKeyValueNestingAppend(kvs[1..], kv);
    }
  }

  lemma {:induction false} TreesCommentsAppend(ts: seq<TokenTree>, t: TokenTree)
    ensures TreesComments(ts + [t]) == TreesComments(ts) + TreeComments(t)
    decreases ts
  {
    if ts != [] {
      assert (ts + [t])[1..] == ts[1..] + [t];
      TreesCommentsAppend(ts[1..], t);
    }
  }

  lemma {:induction false} KeyValuesCommentsAppend(kvs: seq<TokenKeyValue>, kv: TokenKeyValue)
    ensures KeyValuesComments(kvs + [kv]) == KeyValuesComments(kvs) + KeyValueComments(kv)
    decreases kvs
  {
    if kvs != [] {
      assert (kvs + [kv])[1..] == kvs[1..] + [kv];
      KeyValuesCommentsAppend(kvs[1..], kv);
    }
  }
}
