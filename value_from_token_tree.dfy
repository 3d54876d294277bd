/**
 * Reading a `Value` out of a parsed token tree: keywords, numbers, strings,
 * lists, maps with duplicate-key rejection, and variants. Comments are
 * dropped.
 */
module ValueFromTokenTree {
  import opened Common
  import opened Span
  import T = TokenTree
  import opened Values
  import N = Numbers
  import Strings

  /** An error with the span of the offending tree, when it has one. */
  datatype ConversionError = ConversionError(span: Option<Span>, message: string)

  /**
   * The readers the conversion borrows: the `f32`/`f64` parser behind number
   * literals and the unescaping of quoted strings.
   */
  datatype Env = Env(floats: N.FloatParser, unquote: string -> Result<string, string>)

  const DuplicateKey := "Duplicate key in map"

  // ---------------------------------------------------------------------------
  // Keywords

  /** The hint offered for an unknown keyword, by its lower-cased spelling. */
  function Suggestion(identifier: string): (r: Option<string>)
    ensures r.Some? <==> N.AsciiLower(identifier) in {"inf", "nan", "false", "true", "nil", "null", "none"}
  {
    var lower := N.AsciiLower(identifier);
    if lower == "inf" then Some("+inf or -inf")
    else if lower == "nan" then Some("+nan")
    else if lower == "false" then Some("false")
    else if lower == "true" then Some("true")
    else if lower == "nil" || lower == "null" || lower == "none" then Some("null")
    else None
  }

  function UnknownKeyword(identifier: string): string {
    match Suggestion(identifier)
    case Some(hint) => "Unknown keyword " + Strings.DebugQuoted(identifier) + ". Did you mean: " + hint + "?"
    case None => "Unknown keyword " + Strings.DebugQuoted(identifier) + ". Expected 'null', 'true', or 'false'."
  }

  /** An identifier in value position: one of the three keywords, or an error at `span`. */
  function Keyword(identifier: string, span: Option<Span>): (r: Result<Value, ConversionError>)
    ensures r.Ok? <==> identifier in {"null", "true", "false"}
    ensures r.Ok? ==> r.value == (if identifier == "null" then Null else Bool(identifier == "true"))
    ensures r.Err? ==> r.error == ConversionError(span, UnknownKeyword(identifier))
  {
    if identifier == "null" then Ok(Null)
    else if identifier == "true" then Ok(Bool(true))
    else if identifier == "false" then Ok(Bool(false))
    else Err(ConversionError(span, UnknownKeyword(identifier)))
  }

  // ---------------------------------------------------------------------------
  // The conversion

  function FromTree(env: Env, t: T.TokenTree): (r: Result<Value, ConversionError>)
    ensures r.Ok? && t.value.List? ==> r.value.List? && |r.value.items| == |t.value.list.values|
    ensures r.Ok? && t.value.Map? ==> r.value.Map?
    ensures r.Ok? && t.value.Number? ==> r.value.Number?
    ensures r.Ok? && t.value.QuotedString? ==> r.value.Str?
    decreases t, 0
  {
    FromTreeValue(env, t.span, t.value)
  }

  function FromTreeValue(env: Env, span: Option<Span>, v: T.TokenValue): Result<Value, ConversionError>
    decreases v, 0
  {
    match v
    case Identifier(identifier) => Keyword(identifier, span)
    case Number(text) =>
      (match N.FromStr(text, env.floats, N.RejectMin)
       case Ok(n) => Ok(Number(n))
       case Err(e) => Err(ConversionError(span, "Failed to parse number: " + e + ". The string: " + Strings.DebugQuoted(text))))
    case QuotedString(escaped) =>
      (match env.unquote(escaped)
       case Ok(s) => Ok(Str(s))
       case Err(e) => Err(ConversionError(span, "Failed to unescape string: " + e + ". The string: " + escaped)))
    case List(l) =>
      var items :- FromTrees(env, l.values);
      Ok(List(items))
    case Map(m) =>
      var entries :- FromKeyValues(env, m.keyValues);
      Ok(Map(entries))
    case Variant(x) =>
      (match env.unquote(x.quotedName)
       case Err(e) => Err(ConversionError(x.nameSpan, "Failed to unescape string: " + e + ". The string: " + x.quotedName))
       case Ok(name) =>
         var values :- FromTrees(env, x.values);
         Ok(NewVariant(name, values)))
  }

  /** Element by element, in order; the first element that fails decides the error. */
  function FromTrees(env: Env, ts: seq<T.TokenTree>): (r: Result<seq<Value>, ConversionError>)
    ensures r.Ok? <==> forall i :: 0 <= i < |ts| ==> FromTree(env, ts[i]).Ok?
    ensures r.Ok? ==> |r.value| == |ts| && forall i :: 0 <= i < |ts| ==> FromTree(env, ts[i]) == Ok(r.value[i])
    ensures r.Err? ==> exists i :: (0 <= i < |ts| && FromTree(env, ts[i]) == Err(r.error) &&
                                    forall j :: 0 <= j < i ==> FromTree(env, ts[j]).Ok?)
    decreases ts, 0
  {
    if ts == [] then Ok([])
    else
      match FromTree(env, ts[0])
      case Err(e) => Err(e)
      case Ok(head) =>
        match FromTrees(env, ts[1..])
        case Err(e) => Err(e)
        case Ok(tail) => Ok([head] + tail)
  }

  /** A map key: a bare identifier is a string, never a keyword. */
  function KeyFrom(env: Env, key: T.TokenTree): (r: Result<Value, ConversionError>)
    ensures key.value.Identifier? ==> r == Ok(Str(key.value.name))
    ensures !key.value.Identifier? ==> r == FromTree(env, key)
    decreases key, 1
  {
    if key.value.Identifier? then Ok(Str(key.value.name)) else FromTree(env, key)
  }

  /** One pass of the map loop: convert the key, then the value, then insert unless the key is taken. */
  function AddKeyValue(env: Env, entries: seq<Entry>, kv: T.TokenKeyValue): (r: Result<seq<Entry>, ConversionError>)
    ensures r.Ok? ==> (KeyFrom(env, kv.key).Ok? && FromTree(env, kv.value).Ok? &&
                       Lookup(KeyFrom(env, kv.key).value, entries).None? &&
                       r.value == entries + [Entry(KeyFrom(env, kv.key).value, FromTree(env, kv.value).value)])
    ensures (KeyFrom(env, kv.key).Ok? && FromTree(env, kv.value).Ok? &&
             Lookup(KeyFrom(env, kv.key).value, entries).Some?) ==> r == Err(ConversionError(kv.key.span, DuplicateKey))
    decreases kv, 0
  {
    var key :- KeyFrom(env, kv.key);
    var value :- FromTree(env, kv.value);
    var (inserted, previous) := Insert(entries, key, value);
    if previous.Some? then Err(ConversionError(kv.key.span, DuplicateKey)) else Ok(inserted)
  }

  /** The map loop over all of `kvs`, pair by pair. */
  function FromKeyValues(env: Env, kvs: seq<T.TokenKeyValue>): (r: Result<seq<Entry>, ConversionError>)
    ensures r.Ok? ==> |r.value| == |kvs|
    decreases kvs, 0
  {
    if kvs == [] then Ok([])
    else
      var entries :- FromKeyValues(env, kvs[..|kvs| - 1]);
      AddKeyValue(env, entries, kvs[|kvs| - 1])
  }

  /** One pair either fails, or converts its key and value and appends them under a key not yet present. */
  lemma AddKeyValueSpec(env: Env, entries: seq<Entry>, kv: T.TokenKeyValue)
    requires DistinctKeys(entries)
    ensures var r := AddKeyValue(env, entries, kv);
      r.Ok? ==> (KeyFrom(env, kv.key).Ok? && FromTree(env, kv.value).Ok? &&
                 Lookup(KeyFrom(env, kv.key).value, entries).None? &&
                 r.value == entries + [Entry(KeyFrom(env, kv.key).value, FromTree(env, kv.value).value)] &&
                 DistinctKeys(r.value))
  {
    var r := AddKeyValue(env, entries, kv);
    if r.Ok? {
      InsertKeepsDistinct(entries, KeyFrom(env, kv.key).value, FromTree(env, kv.value).value);
    }
  }

  /**
   * A converted map holds the converted pairs in document order, and no two
   * of its keys are equal.
   */
  lemma {:induction false} MapEntriesInOrder(env: Env, kvs: seq<T.TokenKeyValue>)
    ensures var r := FromKeyValues(env, kvs);
      r.Ok? ==> (|r.value| == |kvs| && DistinctKeys(r.value) &&
                 forall i :: 0 <= i < |kvs| ==>
                   KeyFrom(env, kvs[i].key) == Ok(r.value[i].key) && FromTree(env, kvs[i].value) == Ok(r.value[i].value))
    decreases |kvs|
  {
    if kvs != [] {
      var n := |kvs| - 1;
      MapEntriesInOrder(env, kvs[..n]);
      var prefix := FromKeyValues(env, kvs[..n]);
      if prefix.Ok? {
        AddKeyValueSpec(env, prefix.value, kvs[n]);
      }
    }
  }

  /** The pair at `i` extends the map built from the pairs before it. */
  lemma Step(env: Env, kvs: seq<T.TokenKeyValue>, i: nat, entries: seq<Entry>)
    requires i < |kvs| && FromKeyValues(env, kvs[..i]) == Ok(entries)
    ensures FromKeyValues(env, kvs[..i + 1]) == AddKeyValue(env, entries, kvs[i])
  {
    assert kvs[..i + 1][..i] == kvs[..i];
  }

  /** The imperative map loop of the converter, with its early return on the first error. */
  method ConvertMap(env: Env, m: T.TokenMap) returns (r: Result<Value, ConversionError>)
    ensures r == FromTreeValue(env, None, T.Map(m))
  {
    var kvs := m.keyValues;
    var entries: seq<Entry> := [];
    for i := 0 to |kvs|
      invariant FromKeyValues(env, kvs[..i]) == Ok(entries)
    {
      Step(env, kvs, i, entries);
      var key := KeyFrom(env, kvs[i].key);
      if key.Err? {
        ErrorSticks(env, kvs, i + 1);
        return Err(key.error);
      }
      var value := FromTree(env, kvs[i].value);
      if value.Err? {
        ErrorSticks(env, kvs, i + 1);
        return Err(value.error);
      }
      var (inserted, previous) := Insert(entries, key.value, value.value);
      if previous.Some? {
        ErrorSticks(env, kvs, i + 1);
        return Err(ConversionError(kvs[i].key.span, DuplicateKey));
      }
      entries := inserted;
    }
    assert kvs[..|kvs|] == kvs;
    return Ok(Map(entries));
  }

  /** Once a prefix of the pairs fails, the whole map fails with the same error. */
  lemma {:induction false} ErrorSticks(env: Env, kvs: seq<T.TokenKeyValue>, i: nat)
    requires i <= |kvs|
    requires FromKeyValues(env, kvs[..i]).Err?
    ensures FromKeyValues(env, kvs) == FromKeyValues(env, kvs[..i])
    decreases |kvs| - i
  {
    if i < |kvs| {
      var n := |kvs| - 1;
      assert kvs[..n][..i] == kvs[..i];
      ErrorSticks(env, kvs[..n], i);
    } else {
      assert kvs[..i] == kvs;
    }
  }

  /** The pair that repeats a key already converted is reported, at its key's span. */
  lemma DuplicateKeyRejected(env: Env, kvs: seq<T.TokenKeyValue>, j: nat, entries: seq<Entry>, key: Value)
    requires j < |kvs| && FromKeyValues(env, kvs[..j]) == Ok(entries)
    requires KeyFrom(env, kvs[j].key) == Ok(key) && FromTree(env, kvs[j].value).Ok?
    requires exists i :: 0 <= i < |entries| && ValueEq(key, entries[i].key)
    ensures FromKeyValues(env, kvs) == Err(ConversionError(kvs[j].key.span, DuplicateKey))
  {
    MapEntriesInOrder(env, kvs[..j]);
    Step(env, kvs, j, entries);
    assert Lookup(key, entries).Some?;
    ErrorSticks(env, kvs, j + 1);
  }

  /** A map whose pairs all convert, to pairwise different keys, converts. */
  lemma {:induction false} DistinctKeysAccepted(env: Env, kvs: seq<T.TokenKeyValue>, keys: seq<Value>, values: seq<Value>)
    requires |keys| == |kvs| == |values|
    requires forall i :: 0 <= i < |kvs| ==> KeyFrom(env, kvs[i].key) == Ok(keys[i]) && FromTree(env, kvs[i].value) == Ok(values[i])
    requires forall i, j :: 0 <= i < j < |kvs| ==> !ValueEq(keys[j], keys[i])
    ensures FromKeyValues(env, kvs).Ok?
    decreases |kvs|
  {
    if kvs != [] {
      var n := |kvs| - 1;
      DistinctKeysAccepted(env, kvs[..n], keys[..n], values[..n]);
      MapEntriesInOrder(env, kvs[..n]);
      var entries := FromKeyValues(env, kvs[..n]).value;
      assert forall i :: 0 <= i < n ==> entries[i].key == keys[i];
      assert IndexOf(keys[n], entries).None?;
    }
  }

  // ---------------------------------------------------------------------------
  // Keywords and variants

  /** The three keywords, and a few of the hints for the other identifiers. */
  lemma KeywordExamples(span: Option<Span>)
    ensures Keyword("null", span) == Ok(Null)
    ensures Keyword("true", span) == Ok(Bool(true))
    ensures Keyword("false", span) == Ok(Bool(false))
    ensures Suggestion("NULL") == Some("null") && Suggestion("None") == Some("null")
    ensures Suggestion("Inf") == Some("+inf or -inf") && Suggestion("NaN") == Some("+nan")
    ensures Suggestion("True") == Some("true") && Suggestion("yes") == None
  {
    assert N.AsciiLower("NULL") == "null";
    assert N.AsciiLower("None") == "none";
    assert N.AsciiLower("Inf") == "inf";
    assert N.AsciiLower("NaN") == "nan";
    assert N.AsciiLower("True") == "true";
    assert N.AsciiLower("yes") == "yes";
  }

  /** `null: 1`: an identifier key is the string it spells, even when it spells a keyword. */
  lemma KeywordKeyIsString(env: Env, key: T.TokenTree)
    requires key.value == T.Identifier("null")
    ensures KeyFrom(env, key) == Ok(Str("null"))
    ensures FromTree(env, key) == Ok(Null)
  {
  }

  /** `"x"()`: a variant with no values reads as the string of its name. */
  lemma EmptyVariantIsString(env: Env, span: Option<Span>, x: T.TokenVariant)
    requires x.values == []
    ensures var r := FromTreeValue(env, span, T.Variant(x));
      match env.unquote(x.quotedName)
      case Ok(name) => r == Ok(Str(name))
      case Err(_) => r.Err? && r.error.span == x.nameSpan
  {
  }

  // ---------------------------------------------------------------------------
  // Comments do not matter

  /** The tree without any of its comments; spans and values are kept. */
  function Strip(t: T.TokenTree): (r: T.TokenTree)
    ensures T.TreeComments(r) == []
    decreases t, 0
  {
    T.TokenTree(t.span, [], StripValue(t.value), None)
  }

  function StripValue(v: T.TokenValue): (r: T.TokenValue)
    ensures T.ValueComments(r) == []
    decreases v, 0
  {
    match v
    case List(l) => T.List(T.TokenList(StripTrees(l.values), []))
    case Map(m) => T.Map(T.TokenMap(StripKeyValues(m.keyValues), []))
    case Variant(x) => T.Variant(T.TokenVariant(x.nameSpan, x.quotedName, StripTrees(x.values), []))
    case _ => v
  }

  function StripTrees(ts: seq<T.TokenTree>): (r: seq<T.TokenTree>)
    ensures |r| == |ts| && T.TreesComments(r) == []
    decreases ts, 0
  {
    if ts == [] then [] else [Strip(ts[0])] + StripTrees(ts[1..])
  }

  function StripKeyValue(kv: T.TokenKeyValue): (r: T.TokenKeyValue)
    ensures T.KeyValueComments(r) == []
    decreases kv, 0
  {
    T.TokenKeyValue(Strip(kv.key), Strip(kv.value))
  }

  function StripKeyValues(kvs: seq<T.TokenKeyValue>): (r: seq<T.TokenKeyValue>)
    ensures |r| == |kvs| && T.KeyValuesComments(r) == []
    decreases kvs, 0
  {
    if kvs == [] then [] else [StripKeyValue(kvs[0])] + StripKeyValues(kvs[1..])
  }

  /** The value read from a tree is the one read from the tree stripped of its comments. */
  lemma {:induction false} CommentsIgnored(env: Env, t: T.TokenTree)
    ensures FromTree(env, Strip(t)) == FromTree(env, t)
    decreases t, 0
  {
    ValueCommentsIgnored(env, t.span, t.value);
  }

  lemma {:induction false} ValueCommentsIgnored(env: Env, span: Option<Span>, v: T.TokenValue)
    ensures FromTreeValue(env, span, StripValue(v)) == FromTreeValue(env, span, v)
    decreases v, 0
  {
    match v
    case List(l) => TreesCommentsIgnored(env, l.values);
    case Map(m) => KeyValuesCommentsIgnored(env, m.keyValues);
    case Variant(x) => TreesCommentsIgnored(env, x.values);
    case _ =>
  }

  lemma {:induction false} TreesCommentsIgnored(env: Env, ts: seq<T.TokenTree>)
    ensures FromTrees(env, StripTrees(ts)) == FromTrees(env, ts)
    decreases ts, 0
  {
    if ts != [] {
      var s := StripTrees(ts);
      assert s[0] == Strip(ts[0]) && s[1..] == StripTrees(ts[1..]);
      CommentsIgnored(env, ts[0]);
      TreesCommentsIgnored(env, ts[1..]);
    }
  }

  lemma {:induction false} KeyCommentsIgnored(env: Env, key: T.TokenTree)
    ensures KeyFrom(env, Strip(key)) == KeyFrom(env, key)
    decreases key, 1
  {
    CommentsIgnored(env, key);
  }

  lemma {:induction false} KeyValueCommentsIgnored(env: Env, entries: seq<Entry>, kv: T.TokenKeyValue)
    ensures AddKeyValue(env, entries, StripKeyValue(kv)) == AddKeyValue(env, entries, kv)
    decreases kv, 0
  {
    KeyCommentsIgnored(env, kv.key);
    CommentsIgnored(env, kv.value);
  }

  lemma {:induction false} KeyValuesCommentsIgnored(env: Env, kvs: seq<T.TokenKeyValue>)
    ensures FromKeyValues(env, StripKeyValues(kvs)) == FromKeyValues(env, kvs)
    decreases kvs, 0
  {
    if kvs != [] {
      var n := |kvs| - 1;
      var s := StripKeyValues(kvs);
      StripKeyValuesLast(kvs);
      KeyValuesCommentsIgnored(env, kvs[..n]);
      var prefix := FromKeyValues(env, kvs[..n]);
      if prefix.Ok? {
        KeyValueCommentsIgnored(env, prefix.value, kvs[n]);
      }
    }
  }

  lemma {:induction false} StripKeyValuesLast(kvs: seq<T.TokenKeyValue>)
    requires kvs != []
    ensures var s := StripKeyValues(kvs);
      s[..|s| - 1] == StripKeyValues(kvs[..|kvs| - 1]) && s[|s| - 1] == StripKeyValue(kvs[|kvs| - 1])
    decreases |kvs|
  {
    if |kvs| > 1 {
      StripKeyValuesLast(kvs[1..]);
      assert kvs[1..][..|kvs| - 2] == kvs[..|kvs| - 1][1..];
    }
  }
}
