/**
 * Turning a `Value` back into a token tree, so that the formatter can print
 * it: keywords for `null` and booleans, bare identifier keys when every key
 * allows it, no comments and no spans.
 */
module TokenTreeFromValue {
  import opened Common
  import T = TokenTree
  import opened Values
  import N = Numbers
  import NumberProperties
  import Strings
  import ValueFromTokenTree

  /** How a float is displayed; the shortest-representation printer is not part of this model. */
  type FloatText = N.Float -> string

  /** `Number`'s `Display`: integers in decimal, floats through `floatText`. */
  function NumberText(n: N.Number, floatText: FloatText): string {
    if N.IsInteger(n) then N.IntegerText(n) else floatText(n.f)
  }

  /** Every key is a string that can be written without quotes. */
  predicate AllKeysAreIdentifiers(es: seq<Entry>) {
    forall i :: 0 <= i < |es| ==> es[i].key.Str? && !Strings.KeyNeedsQuotes(es[i].key.s)
  }

  function ToTree(v: Value, floatText: FloatText): (t: T.TokenTree)
    ensures t.span.None? && t.prefixComments == [] && t.suffixComment.None?
    ensures T.TreeComments(t) == []
    decreases v, 1
  {
    T.FromValue(ToTokenValue(v, floatText))
  }

  function ToTokenValue(v: Value, floatText: FloatText): (r: T.TokenValue)
    ensures T.ValueComments(r) == []
    decreases v, 0
  {
    match v
    case Null => T.Identifier("null")
    case Bool(b) => T.Identifier(if b then "true" else "false")
    case Number(n) => T.Number(NumberText(n, floatText))
    case Str(s) => T.QuotedString(Strings.EscapeAndQuoteAsWritten(s))
    case List(xs) => T.List(T.TokenList(ToTrees(xs, floatText), []))
    case Map(es) => T.Map(T.TokenMap(ToKeyValues(es, AllKeysAreIdentifiers(es), floatText), []))
    case Variant(name, xs) => T.Variant(T.TokenVariant(None, Strings.EscapeAndQuoteAsWritten(name), ToTrees(xs, floatText), []))
  }

  /** The values converted one by one, in order. */
  function ToTrees(xs: seq<Value>, floatText: FloatText): (r: seq<T.TokenTree>)
    ensures |r| == |xs| && T.TreesComments(r) == []
    ensures forall i :: 0 <= i < |xs| ==> r[i] == ToTree(xs[i], floatText)
    decreases xs, 0
  {
    if xs == [] then [] else
      var rest := ToTrees(xs[1..], floatText);
      assert ([ToTree(xs[0], floatText)] + rest)[1..] == rest;
      [ToTree(xs[0], floatText)] + rest
  }

  /** A key as a bare identifier when `bare`, otherwise as the tree of the key's value. */
  function ToKeyValue(e: Entry, bare: bool, floatText: FloatText): (r: T.TokenKeyValue)
    requires bare ==> e.key.Str?
    ensures T.KeyValueComments(r) == []
    decreases e, 0
  {
    var key := if bare then T.FromValue(T.Identifier(e.key.s)) else ToTree(e.key, floatText);
    T.TokenKeyValue(key, ToTree(e.value, floatText))
  }

  /** The entries converted one by one, in map order. */
  function ToKeyValues(es: seq<Entry>, bare: bool, floatText: FloatText): (r: seq<T.TokenKeyValue>)
    requires bare ==> forall i :: 0 <= i < |es| ==> es[i].key.Str?
    ensures |r| == |es| && T.KeyValuesComments(r) == []
    ensures forall i :: 0 <= i < |es| ==> r[i] == ToKeyValue(es[i], bare, floatText)
    decreases es, 0
  {
    if es == [] then [] else
      var rest := ToKeyValues(es[1..], bare, floatText);
      assert ([ToKeyValue(es[0], bare, floatText)] + rest)[1..] == rest;
      [ToKeyValue(es[0], bare, floatText)] + rest
  }

  // ---------------------------------------------------------------------------
  // Properties

  /** `null`, `true` and `false` are written as the keywords. */
  lemma Keywords(floatText: FloatText)
    ensures ToTokenValue(Null, floatText) == T.Identifier("null")
    ensures ToTokenValue(Bool(true), floatText) == T.Identifier("true")
    ensures ToTokenValue(Bool(false), floatText) == T.Identifier("false")
  {
  }

  /**
   * Keys are bare identifiers exactly when every key of the map allows it;
   * a single key that needs quotes sends every key through the quoted form.
   */
  lemma KeyRule(es: seq<Entry>, floatText: FloatText)
    ensures var kvs := ToTokenValue(Map(es), floatText).entries.keyValues;
      |kvs| == |es| &&
      (AllKeysAreIdentifiers(es) ==> forall i :: 0 <= i < |es| ==> kvs[i].key.value == T.Identifier(es[i].key.s)) &&
      (!AllKeysAreIdentifiers(es) ==> forall i :: 0 <= i < |es| ==> kvs[i].key == ToTree(es[i].key, floatText))
    ensures forall i :: 0 <= i < |es| ==> ToTokenValue(Map(es), floatText).entries.keyValues[i].value == ToTree(es[i].value, floatText)
  {
  }

  /** A bare key reads back as the very string it came from, and is a single identifier token. */
  lemma BareKeyReadsBack(env: ValueFromTokenTree.Env, es: seq<Entry>, i: nat, floatText: FloatText)
    requires AllKeysAreIdentifiers(es) && i < |es|
    ensures ValueFromTokenTree.KeyFrom(env, ToTokenValue(Map(es), floatText).entries.keyValues[i].key) == Ok(es[i].key)
    ensures es[i].key.s != "true" && es[i].key.s != "false" && es[i].key.s != "null"
  {
    KeyRule(es, floatText);
    Strings.UnquotedKeyIsOneIdentifier(es[i].key.s);
  }

  /**
   * One key that needs quotes makes every key quoted, including a key such as
   * `a` that could have been written bare (`{"a": 1, "1b": 2}`).
   */
  lemma OneQuotedKeyQuotesAll(es: seq<Entry>, i: nat, j: nat, floatText: FloatText)
    requires i < |es| && j < |es| && es[i].key.Str? && es[j].key.Str? && Strings.KeyNeedsQuotes(es[j].key.s)
    ensures ToTokenValue(Map(es), floatText).entries.keyValues[i].key.value == T.QuotedString(Strings.EscapeAndQuoteAsWritten(es[i].key.s))
  {
    assert !AllKeysAreIdentifiers(es) by {
      assert !(es[j].key.Str? && !Strings.KeyNeedsQuotes(es[j].key.s));
    }
    KeyRule(es, floatText);
    assert ToTree(es[i].key, floatText).value == ToTokenValue(es[i].key, floatText);
  }

  /** An integer as the reader produces it: `U128` when not negative, `I128` when negative. */
  predicate CanonicalInteger(n: N.Number) {
    n.U128? || (n.I128? && n.i < 0)
  }

  /**
   * The values that survive the trip through text unchanged: keywords, integers
   * above `i128::MIN` in their canonical form, and lists and maps of them whose
   * keys are distinct strings that need no quotes.
   */
  predicate Plain(v: Value)
    decreases v
  {
    match v
    case Null => true
    case Bool(_) => true
    case Number(n) => CanonicalInteger(n) && N.IntValue(n) != N.MinI128
    case Str(_) => false
    case List(xs) => forall i :: 0 <= i < |xs| ==> Plain(xs[i])
    case Map(es) => AllKeysAreIdentifiers(es) && DistinctKeys(es) && forall i :: 0 <= i < |es| ==> Plain(es[i].value)
    case Variant(_, _) => false
  }

  /** A list reads back when each of its elements does. */
  lemma ListRoundTrip(env: ValueFromTokenTree.Env, xs: seq<Value>, floatText: FloatText)
    requires forall i :: 0 <= i < |xs| ==> ValueFromTokenTree.FromTree(env, ToTree(xs[i], floatText)) == Ok(xs[i])
    ensures ValueFromTokenTree.FromTree(env, ToTree(List(xs), floatText)) == Ok(List(xs))
  {
    var ts := ToTrees(xs, floatText);
    var r := ValueFromTokenTree.FromTrees(env, ts);
    assert r.Ok?;
    assert r.value == xs;
  }

  /** Pairs with distinct bare keys read back as the entries they came from, in order. */
  lemma BarePairsReadBack(env: ValueFromTokenTree.Env, es: seq<Entry>, floatText: FloatText)
    requires AllKeysAreIdentifiers(es) && DistinctKeys(es)
    requires forall i :: 0 <= i < |es| ==> ValueFromTokenTree.FromTree(env, ToTree(es[i].value, floatText)) == Ok(es[i].value)
    ensures ValueFromTokenTree.FromKeyValues(env, ToKeyValues(es, true, floatText)) == Ok(es)
  {
    var kvs := ToKeyValues(es, true, floatText);
    var r := ValueFromTokenTree.FromKeyValues(env, kvs);
    assert r.Ok? && |r.value| == |es| by {
      var keys := seq(|es|, i requires 0 <= i < |es| => es[i].key);
      var values := seq(|es|, i requires 0 <= i < |es| => es[i].value);
      forall i | 0 <= i < |es|
        ensures ValueFromTokenTree.KeyFrom(env, kvs[i].key) == Ok(keys[i])
        ensures ValueFromTokenTree.FromTree(env, kvs[i].value) == Ok(values[i])
      {
        BareKeyReadsBack(env, es, i, floatText);
      }
      ValueFromTokenTree.DistinctKeysAccepted(env, kvs, keys, values);
      ValueFromTokenTree.MapEntriesInOrder(env, kvs);
    }
    forall i | 0 <= i < |es|
      ensures r.value[i] == es[i]
    {
      ValueFromTokenTree.MapEntriesInOrder(env, kvs);
      BareKeyReadsBack(env, es, i, floatText);
    }
    assert r.value == es;
  }

  /** A map with distinct bare keys reads back when each of its values does. */
  lemma MapRoundTrip(env: ValueFromTokenTree.Env, es: seq<Entry>, floatText: FloatText)
    requires AllKeysAreIdentifiers(es) && DistinctKeys(es)
    requires forall i :: 0 <= i < |es| ==> ValueFromTokenTree.FromTree(env, ToTree(es[i].value, floatText)) == Ok(es[i].value)
    ensures ValueFromTokenTree.FromTree(env, ToTree(Map(es), floatText)) == Ok(Map(es))
  {
    var kvs := ToKeyValues(es, true, floatText);
    assert ToTree(Map(es), floatText).value == T.Map(T.TokenMap(kvs, []));
    BarePairsReadBack(env, es, floatText);
  }

  /** Writing a plain value as a tree and reading it back gives the same value. */
  lemma {:induction false} RoundTrip(env: ValueFromTokenTree.Env, v: Value, floatText: FloatText)
    requires Plain(v)
    ensures ValueFromTokenTree.FromTree(env, ToTree(v, floatText)) == Ok(v)
    decreases v
  {
    match v
    case Null =>
    case Bool(_) =>
    case Number(n) =>
      NumberProperties.ReadDisplayed(n, env.floats, N.RejectMin);
    case Str(_) =>
    case List(xs) =>
      forall i | 0 <= i < |xs|
        ensures ValueFromTokenTree.FromTree(env, ToTree(xs[i], floatText)) == Ok(xs[i])
      {
        RoundTrip(env, xs[i], floatText);
      }
      ListRoundTrip(env, xs, floatText);
    case Map(es) =>
      forall i | 0 <= i < |es|
        ensures ValueFromTokenTree.FromTree(env, ToTree(es[i].value, floatText)) == Ok(es[i].value)
      {
        RoundTrip(env, es[i].value, floatText);
      }
      MapRoundTrip(env, es, floatText);
    case Variant(_, _) =>
  }
}
