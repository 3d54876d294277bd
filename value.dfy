/**
 * Eon's dynamic `Value`, its map (an insertion-ordered map from values to
 * values, as `IndexMap` keeps it), the derived equality, and the small
 * constructors and accessors of the value module.
 */
module Values {
  import opened Common
  import opened Numbers

  datatype Value =
    | Null
    | Bool(b: bool)
    | Number(number: Number)
    | Str(s: string)
    | List(items: seq<Value>)
    | Map(entries: seq<Entry>)
    | Variant(name: string, values: seq<Value>)

  datatype Entry = Entry(key: Value, value: Value)

  // ---------------------------------------------------------------------------
  // Equality, as derived: numbers compare by `Number`'s equality, maps by their
  // contents whatever the order

  predicate ValueEq(a: Value, b: Value)
    decreases a, 0
  {
    match a
    case Null => b.Null?
    case Bool(x) => b.Bool? && b.b == x
    case Number(x) => b.Number? && NumberEq(x, b.number)
    case Str(s) => b.Str? && b.s == s
    case List(xs) => b.List? && ListEq(xs, b.items)
    case Map(es) => b.Map? && |es| == |b.entries| && EntriesIn(es, b.entries)
    case Variant(n, xs) => b.Variant? && b.name == n && ListEq(xs, b.values)
  }

  predicate ListEq(xs: seq<Value>, ys: seq<Value>)
    decreases xs, 0
  {
    |xs| == |ys| && (xs == [] || (ValueEq(xs[0], ys[0]) && ListEq(xs[1..], ys[1..])))
  }

  /** Every entry of `es` has its key in `others`, mapped to an equal value. */
  predicate EntriesIn(es: seq<Entry>, others: seq<Entry>)
    decreases es, 0
  {
    es == [] ||
    (EntryIn(es[0], others) && EntriesIn(es[1..], others))
  }

  /** The key of `e` is in `others`, mapped to a value equal to that of `e`. */
  predicate EntryIn(e: Entry, others: seq<Entry>)
    decreases e, 0
  {
    match Lookup(e.key, others)
    case None => false
    case Some(v) => ValueEq(e.value, v)
  }

  /** The position of the first entry whose key equals `k`. */
  function IndexOf(k: Value, es: seq<Entry>): (r: Option<nat>)
    ensures r.Some? ==> r.value < |es| && ValueEq(k, es[r.value].key)
    ensures r.Some? ==> forall i :: 0 <= i < r.value ==> !ValueEq(k, es[i].key)
    ensures r.None? ==> forall i :: 0 <= i < |es| ==> !ValueEq(k, es[i].key)
    decreases k, 1, |es|
  {
    if es == [] then None
    else if ValueEq(k, es[0].key) then Some(0)
    else
      match IndexOf(k, es[1..])
      case None => None
      case Some(i) => Some(i + 1)
  }

  /** The value stored under a key equal to `k`. */
  function Lookup(k: Value, es: seq<Entry>): (r: Option<Value>)
    ensures r.Some? <==> exists i :: 0 <= i < |es| && ValueEq(k, es[i].key)
    decreases k, 2
  {
    match IndexOf(k, es)
    case None => None
    case Some(i) => Some(es[i].value)
  }

  /** No two entries have equal keys. */
  predicate DistinctKeys(es: seq<Entry>) {
    forall i, j :: 0 <= i < j < |es| ==> !ValueEq(es[j].key, es[i].key)
  }

  /**
   * `IndexMap::insert`: a key already present keeps its place and its stored
   * key, its value is replaced and the old one returned; a new key goes last.
   */
  function Insert(es: seq<Entry>, k: Value, v: Value): (r: (seq<Entry>, Option<Value>))
    ensures r.1 == Lookup(k, es)
    ensures r.1.None? ==> r.0 == es + [Entry(k, v)]
    ensures r.1.Some? ==> |r.0| == |es| && exists i :: 0 <= i < |es| && r.0 == es[i := Entry(es[i].key, v)]
  {
    match IndexOf(k, es)
    case None => (es + [Entry(k, v)], None)
    case Some(i) => (es[i := Entry(es[i].key, v)], Some(es[i].value))
  }

  /** Inserting keeps the keys distinct. */
  lemma InsertKeepsDistinct(es: seq<Entry>, k: Value, v: Value)
    requires DistinctKeys(es)
    ensures DistinctKeys(Insert(es, k, v).0)
  {
    var r := Insert(es, k, v).0;
    if IndexOf(k, es).None? {
      forall i, j | 0 <= i < j < |r|
        ensures !ValueEq(r[j].key, r[i].key)
      {
        if j == |es| {
          assert r[j].key == k && r[i] == es[i];
        } else {
          assert r[j] == es[j] && r[i] == es[i];
        }
      }
    } else {
      var n := IndexOf(k, es).value;
      forall i, j | 0 <= i < j < |r|
        ensures !ValueEq(r[j].key, r[i].key)
      {
        assert r[j].key == es[j].key && r[i].key == es[i].key;
      }
    }
  }

  // ---------------------------------------------------------------------------
  // Constructors and accessors

  /** `Value::new_variant`: a variant with no values is just its name, as a string. */
  function NewVariant(name: string, values: seq<Value>): (r: Value)
    ensures values == [] ==> r == Str(name)
    ensures values != [] ==> r.Variant? && r.name == name && r.values == values
    ensures r.Variant? ==> r.values != []
  {
    if values == [] then Str(name) else Variant(name, values)
  }

  function AsBool(v: Value): (r: Option<bool>)
    ensures r.Some? <==> v.Bool?
    ensures r.Some? ==> r.value == v.b
  {
    if v.Bool? then Some(v.b) else None
  }

  function AsNumber(v: Value): (r: Option<Number>)
    ensures r.Some? <==> v.Number?
    ensures r.Some? ==> r.value == v.number
  {
    if v.Number? then Some(v.number) else None
  }

  function AsString(v: Value): (r: Option<string>)
    ensures r.Some? <==> v.Str?
    ensures r.Some? ==> r.value == v.s
  {
    if v.Str? then Some(v.s) else None
  }

  function AsList(v: Value): (r: Option<seq<Value>>)
    ensures r.Some? <==> v.List?
    ensures r.Some? ==> r.value == v.items
  {
    if v.List? then Some(v.items) else None
  }

  function AsMap(v: Value): (r: Option<seq<Entry>>)
    ensures r.Some? <==> v.Map?
    ensures r.Some? ==> r.value == v.entries
  {
    if v.Map? then Some(v.entries) else None
  }

  function AsVariant(v: Value): (r: Option<(string, seq<Value>)>)
    ensures r.Some? <==> v.Variant?
    ensures r.Some? ==> r.value == (v.name, v.values)
  {
    if v.Variant? then Some((v.name, v.values)) else None
  }

  /** At most one accessor answers, and exactly one unless the value is `Null`. */
  lemma OneAccessorAnswers(v: Value)
    ensures v.Null? <==> (AsBool(v).None? && AsNumber(v).None? && AsString(v).None? &&
                          AsList(v).None? && AsMap(v).None? && AsVariant(v).None?)
    ensures AsBool(v).Some? ==> AsNumber(v).None? && AsString(v).None? && AsList(v).None?
    ensures AsString(v).Some? ==> AsList(v).None? && AsMap(v).None? && AsVariant(v).None?
  {
  }

  /** `From<char>`: a one-character string. */
  function FromChar(c: char): (r: Value)
    ensures r.Str? && |r.s| == 1 && r.s[0] == c
  {
    Str([c])
  }

  /** `From<u8>`: an unsigned integer. */
  function FromByte(b: bv8): (r: Value)
    ensures r.Number? && r.number.U128? && r.number.u == b as int
  {
    Number(U128(b as int))
  }

  /** `From<&[u8]>`: a list holding one number per byte, in order. */
  function FromBytes(bytes: seq<bv8>): (r: Value)
    ensures r.List? && |r.items| == |bytes|
    ensures forall i :: 0 <= i < |bytes| ==> r.items[i] == FromByte(bytes[i])
  {
    List(seq(|bytes|, i requires 0 <= i < |bytes| => FromByte(bytes[i])))
  }
}
