/**
 * The serde serializer into `Value`. A nested value that the serializer hands
 * to serde (`to_value(value)`) is modelled by its outcome, an `Outcome`,
 * since the dispatch through the caller's `Serialize` implementation is not
 * part of this model.
 */
module Serializer {
  import opened Common
  import opened Values
  import N = Numbers

  datatype SerializationError = SerializationError(msg: string)

  /** What serializing a nested value gave. */
  type Outcome = Result<Value, SerializationError>

  const KeyTwice := "serialize_key called twice without serialize_value"
  const ValueWithoutKey := "serialize_value called without serialize_key"
  const ValueNotCalled := "serialize_value not called after serialize_key"

  // ---------------------------------------------------------------------------
  // The value-building methods of the serializer

  function SerializeBool(b: bool): (r: Outcome)
    ensures r.Ok? && AsBool(r.value) == Some(b)
  {
    Ok(Bool(b))
  }

  /** `i8` … `i128` are stored as `I128`. */
  function SerializeSigned(i: N.Int128): (r: Outcome)
    ensures r.Ok? && AsNumber(r.value).Some? && N.AsI128(r.value.number) == Some(i)
  {
    Ok(Number(N.I128(i)))
  }

  /** `u8` … `u128` are stored as `U128`. */
  function SerializeUnsigned(u: N.UInt128): (r: Outcome)
    ensures r.Ok? && AsNumber(r.value).Some? && N.AsU128(r.value.number) == Some(u)
  {
    Ok(Number(N.U128(u)))
  }

  /** A `char` is a string of that one character. */
  function SerializeChar(c: char): (r: Outcome)
    ensures r.Ok? && AsString(r.value) == Some([c])
  {
    Ok(FromChar(c))
  }

  function SerializeStr(s: string): (r: Outcome)
    ensures r.Ok? && AsString(r.value) == Some(s)
  {
    Ok(Str(s))
  }

  /** Bytes are a list of unsigned numbers, one per byte, in order. */
  function SerializeBytes(bytes: seq<bv8>): (r: Outcome)
    ensures r.Ok? && AsList(r.value).Some? && |r.value.items| == |bytes|
    ensures r.Ok? ==> forall i :: 0 <= i < |bytes| ==> AsNumber(r.value.items[i]) == Some(N.U128(bytes[i] as int))
  {
    Ok(FromBytes(bytes))
  }

  function SerializeNone(): Outcome { Ok(Null) }

  /** A present option is its content, serialized. */
  function SerializeSome(content: Outcome): (r: Outcome)
    ensures r.Ok? <==> content.Ok?
    ensures r.Ok? ==> r.value == content.value
  {
    content
  }

  function SerializeUnit(): Outcome { Ok(Null) }

  function SerializeUnitStruct(name: string): Outcome { Ok(Null) }

  /** A newtype struct is its content, serialized. */
  function SerializeNewtypeStruct(name: string, content: Outcome): (r: Outcome)
    ensures r.Ok? <==> content.Ok?
    ensures r.Ok? ==> r.value == content.value
  {
    content
  }

  /** A unit variant goes through `new_variant` with no values, and so becomes its name. */
  function SerializeUnitVariant(name: string): (r: Outcome)
    ensures r == Ok(Str(name))
  {
    Ok(NewVariant(name, []))
  }

  /** A newtype variant is built directly: a variant with its one value, never a bare name. */
  function SerializeNewtypeVariant(name: string, content: Outcome): (r: Outcome)
    ensures r.Ok? <==> content.Ok?
    ensures r.Err? ==> r.error == content.error
    ensures r.Ok? ==> AsVariant(r.value) == Some((name, [content.value]))
  {
    var v :- content;
    Ok(Variant(name, [v]))
  }

  /** `None`, `()`, unit structs all become `null`, so `Some(())` and `None` are not told apart. */
  lemma NothingIsNull(name: string)
    ensures SerializeNone() == SerializeUnit() == SerializeUnitStruct(name) == Ok(Null)
    ensures SerializeSome(SerializeUnit()) == SerializeNone()
  {
  }

  /** A unit variant and a unit struct differ: the variant keeps its name. */
  lemma UnitVariantKeepsName(name: string)
    ensures SerializeUnitVariant(name) != SerializeUnitStruct(name)
    ensures SerializeNewtypeVariant(name, SerializeUnit()) == Ok(Variant(name, [Null]))
  {
  }

  // ---------------------------------------------------------------------------
  // The map serializer's protocol, step by step

  /** The fields of a `MapSerializer`: the map so far and the key awaiting its value. */
  datatype MapState = MapState(entries: seq<Entry>, lastKey: Option<Value>)

  /** `serialize_key`: refused while a key waits; otherwise the key waits for its value. */
  function KeyStep(s: MapState, key: Outcome): (r: (Result<(), SerializationError>, MapState))
    ensures r.0.Ok? <==> s.lastKey.None? && key.Ok?
    ensures r.0.Ok? ==> r.1 == MapState(s.entries, Some(key.value))
    ensures r.0.Err? ==> r.1 == s
    ensures s.lastKey.Some? ==> r.0 == Err(SerializationError(KeyTwice))
  {
    if s.lastKey.Some? then (Err(SerializationError(KeyTwice)), s)
    else
      match key
      case Err(e) => (Err(e), s)
      case Ok(k) => (Ok(()), MapState(s.entries, Some(k)))
  }

  /**
   * `serialize_value`: refused with no waiting key; otherwise the key is taken
   * first, so that a failing value leaves no key waiting, and the pair is inserted.
   */
  function ValueStep(s: MapState, value: Outcome): (r: (Result<(), SerializationError>, MapState))
    ensures r.0.Ok? <==> s.lastKey.Some? && value.Ok?
    ensures r.1.lastKey.None?
    ensures r.0.Err? ==> r.1.entries == s.entries
    ensures s.lastKey.None? ==> r.0 == Err(SerializationError(ValueWithoutKey))
    ensures r.0.Ok? && Lookup(s.lastKey.value, s.entries).None? ==>
      r.1.entries == s.entries + [Entry(s.lastKey.value, value.value)]
    ensures r.0.Ok? && Lookup(s.lastKey.value, s.entries).Some? ==> |r.1.entries| == |s.entries|
  {
    match s.lastKey
    case None => (Err(SerializationError(ValueWithoutKey)), s)
    case Some(k) =>
      match value
      case Err(e) => (Err(e), MapState(s.entries, None))
      case Ok(v) => (Ok(()), MapState(Insert(s.entries, k, v).0, None))
  }

  /** `serialize_field` of a struct: the field name as a string key, then the value. */
  function FieldStep(s: MapState, key: string, value: Outcome): (r: (Result<(), SerializationError>, MapState))
    ensures r.0.Ok? <==> value.Ok?
    ensures r.0.Err? ==> r.1 == s
    ensures r.1.lastKey == s.lastKey
    ensures r.0.Ok? && Lookup(Str(key), s.entries).None? ==> r.1.entries == s.entries + [Entry(Str(key), value.value)]
    ensures r.0.Ok? && Lookup(Str(key), s.entries).Some? ==> |r.1.entries| == |s.entries|
  {
    match value
    case Err(e) => (Err(e), s)
    case Ok(v) => (Ok(()), MapState(Insert(s.entries, Str(key), v).0, s.lastKey))
  }

  /** `end` of a map: refused while a key waits for its value. */
  function EndMap(s: MapState): (r: Result<Value, SerializationError>)
    ensures r.Ok? <==> s.lastKey.None?
    ensures r.Ok? ==> AsMap(r.value) == Some(s.entries)
    ensures r.Err? ==> r.error == SerializationError(ValueNotCalled)
  {
    if s.lastKey.Some? then Err(SerializationError(ValueNotCalled)) else Ok(Map(s.entries))
  }

  /** No step ever stores two equal keys. */
  lemma StepsKeepKeysDistinct(s: MapState, key: Outcome, value: Outcome, name: string)
    requires DistinctKeys(s.entries)
    ensures DistinctKeys(KeyStep(s, key).1.entries)
    ensures DistinctKeys(ValueStep(s, value).1.entries)
    ensures DistinctKeys(FieldStep(s, name, value).1.entries)
  {
    if s.lastKey.Some? && value.Ok? {
      InsertKeepsDistinct(s.entries, s.lastKey.value, value.value);
    }
    if value.Ok? {
      InsertKeepsDistinct(s.entries, Str(name), value.value);
    }
  }

  /** A call that serde makes on a map serializer. */
  datatype MapCall = KeyCall(key: Outcome) | ValueCall(value: Outcome)

  /** The calls in order, stopping at the first error, as serde does. */
  function Run(s: MapState, calls: seq<MapCall>): Result<MapState, SerializationError>
    decreases |calls|
  {
    if calls == [] then Ok(s)
    else
      var (r, next) := match calls[0]
        case KeyCall(k) => KeyStep(s, k)
        case ValueCall(v) => ValueStep(s, v);
      if r.Err? then Err(r.error) else Run(next, calls[1..])
  }

  /** Each entry as a key call followed by a value call. */
  function Pairs(es: seq<Entry>): (calls: seq<MapCall>)
    ensures |calls| == 2 * |es|
  {
    if es == [] then [] else [KeyCall(Ok(es[0].key)), ValueCall(Ok(es[0].value))] + Pairs(es[1..])
  }

  /** The entries inserted one after another into `m`. */
  function InsertAll(m: seq<Entry>, es: seq<Entry>): seq<Entry>
    decreases |es|
  {
    if es == [] then m else InsertAll(Insert(m, es[0].key, es[0].value).0, es[1..])
  }

  /** Keys and values offered in pairs succeed at every call, and `end` returns every pair inserted. */
  lemma {:induction false} PairedCallsSucceed(s: MapState, es: seq<Entry>)
    requires s.lastKey.None?
    ensures Run(s, Pairs(es)) == Ok(MapState(InsertAll(s.entries, es), None))
    ensures EndMap(Run(s, Pairs(es)).value) == Ok(Map(InsertAll(s.entries, es)))
    decreases |es|
  {
    if es != [] {
      var calls := Pairs(es);
      var afterKey := MapState(s.entries, Some(es[0].key));
      var afterValue := MapState(Insert(s.entries, es[0].key, es[0].value).0, None);
      assert calls[0] == KeyCall(Ok(es[0].key));
      assert calls[1..][0] == ValueCall(Ok(es[0].value));
      assert calls[1..][1..] == Pairs(es[1..]);
      assert Run(s, calls) == Run(afterKey, calls[1..]);
      assert Run(afterKey, calls[1..]) == Run(afterValue, Pairs(es[1..]));
      PairedCallsSucceed(afterValue, es[1..]);
    }
  }

  /** Inserting pairs whose keys are new and distinct appends them in order. */
  lemma {:induction false} InsertAllDistinct(m: seq<Entry>, es: seq<Entry>)
    requires DistinctKeys(m + es)
    ensures InsertAll(m, es) == m + es
    decreases |es|
  {
    if es != [] {
      var k := es[0].key;
      assert (m + es)[|m|] == es[0];
      forall i | 0 <= i < |m|
        ensures !ValueEq(k, m[i].key)
      {
        assert (m + es)[i] == m[i];
      }
      assert IndexOf(k, m).None?;
      assert m + [es[0]] + es[1..] == m + es;
      InsertAllDistinct(m + [es[0]], es[1..]);
    }
  }

  /** A map whose keys are distinct is serialized into exactly its entries, in order. */
  lemma MapSerializedInOrder(es: seq<Entry>)
    requires DistinctKeys(es)
    ensures Run(MapState([], None), Pairs(es)).Ok?
    ensures EndMap(Run(MapState([], None), Pairs(es)).value) == Ok(Map(es))
  {
    PairedCallsSucceed(MapState([], None), es);
    assert [] + es == es;
    InsertAllDistinct([], es);
  }

  /** The three misuses of the protocol, each reported by its own error. */
  lemma ProtocolErrors(k: Value, k2: Value, v: Value)
    ensures Run(MapState([], None), [KeyCall(Ok(k)), KeyCall(Ok(k2))]) == Err(SerializationError(KeyTwice))
    ensures Run(MapState([], None), [ValueCall(Ok(v))]) == Err(SerializationError(ValueWithoutKey))
    ensures var s := Run(MapState([], None), [KeyCall(Ok(k))]);
      s.Ok? && EndMap(s.value) == Err(SerializationError(ValueNotCalled))
  {
    var two := [KeyCall(Ok(k)), KeyCall(Ok(k2))];
    assert two[1..] == [KeyCall(Ok(k2))];
    assert [KeyCall(Ok(k))][1..] == [];
  }

  // ---------------------------------------------------------------------------
  // The compound serializers, which collect in place

  /** Used for maps and structs. */
  class MapSerializer {
    var entries: seq<Entry>
    var lastKey: Option<Value>

    function State(): MapState
      reads this
    {
      MapState(entries, lastKey)
    }

    constructor ()
      ensures State() == MapState([], None)
    {
      entries := [];
      lastKey := None;
    }

    method SerializeKey(key: Outcome) returns (r: Result<(), SerializationError>)
      modifies this
      ensures (r, State()) == KeyStep(old(State()), key)
    {
      if lastKey.Some? {
        return Err(SerializationError(KeyTwice));
      }
      if key.Err? {
        return Err(key.error);
      }
      lastKey := Some(key.value);
      return Ok(());
    }

    method SerializeValue(value: Outcome) returns (r: Result<(), SerializationError>)
      modifies this
      ensures (r, State()) == ValueStep(old(State()), value)
    {
      var key := lastKey;
      lastKey := None;
      if key.None? {
        return Err(SerializationError(ValueWithoutKey));
      }
      if value.Err? {
        return Err(value.error);
      }
      var (inserted, _) := Insert(entries, key.value, value.value);
      entries := inserted;
      return Ok(());
    }

    /** `serialize_field`, for structs. */
    method SerializeField(key: string, value: Outcome) returns (r: Result<(), SerializationError>)
      modifies this
      ensures (r, State()) == FieldStep(old(State()), key, value)
    {
      if value.Err? {
        return Err(value.error);
      }
      var (inserted, _) := Insert(entries, Str(key), value.value);
      entries := inserted;
      return Ok(());
    }

    method End() returns (r: Result<Value, SerializationError>)
      ensures r == EndMap(State())
    {
      if lastKey.Some? {
        return Err(SerializationError(ValueNotCalled));
      }
      return Ok(Map(entries));
    }

    /** `end` of a struct: no key can be waiting, so it always succeeds. */
    method EndStruct() returns (r: Result<Value, SerializationError>)
      ensures r == Ok(Map(entries))
    {
      return Ok(Map(entries));
    }
  }

  /** Used for sequences, tuples and tuple structs. */
  class ListSerializer {
    var list: seq<Value>

    constructor ()
      ensures list == []
    {
      list := [];
    }

    /** `serialize_element` and `serialize_field`: the value goes last, unless it failed. */
    method SerializeElement(value: Outcome) returns (r: Result<(), SerializationError>)
      modifies this
      ensures value.Err? ==> r == Err(value.error) && list == old(list)
      ensures value.Ok? ==> r == Ok(()) && list == old(list) + [value.value]
    {
      if value.Err? {
        return Err(value.error);
      }
      list := list + [value.value];
      return Ok(());
    }

    method End() returns (r: Result<Value, SerializationError>)
      ensures r == Ok(List(list))
    {
      return Ok(List(list));
    }
  }

  /** Used for tuple variants such as `Rgb(u8, u8, u8)`. */
  class TupleVariantSerializer {
    const name: string
    var values: seq<Value>

    constructor (name: string)
      ensures this.name == name && values == []
    {
      this.name := name;
      values := [];
    }

    method SerializeField(value: Outcome) returns (r: Result<(), SerializationError>)
      modifies this
      ensures value.Err? ==> r == Err(value.error) && values == old(values)
      ensures value.Ok? ==> r == Ok(()) && values == old(values) + [value.value]
    {
      if value.Err? {
        return Err(value.error);
      }
      values := values + [value.value];
      return Ok(());
    }

    /** Through `new_variant`: a tuple variant with no fields becomes its name. */
    method End() returns (r: Result<Value, SerializationError>)
      ensures r == Ok(NewVariant(name, values))
      ensures values == [] ==> r == Ok(Str(name))
    {
      return Ok(NewVariant(name, values));
    }
  }

  /** Used for struct variants such as `Point { x: f32, y: f32 }`. */
  class StructVariantSerializer {
    const name: string
    var entries: seq<Entry>

    constructor (name: string)
      ensures this.name == name && entries == []
    {
      this.name := name;
      entries := [];
    }

    method SerializeField(key: string, value: Outcome) returns (r: Result<(), SerializationError>)
      modifies this
      ensures (r, MapState(entries, None)) == FieldStep(MapState(old(entries), None), key, value)
    {
      if value.Err? {
        return Err(value.error);
      }
      var (inserted, _) := Insert(entries, Str(key), value.value);
      entries := inserted;
      return Ok(());
    }

    /** A variant whose single value is the map of fields, even when it has no fields. */
    method End() returns (r: Result<Value, SerializationError>)
      ensures r == Ok(Variant(name, [Map(entries)]))
      ensures r.value.Variant? && |r.value.values| == 1
    {
      return Ok(Variant(name, [Map(entries)]));
    }
  }
}
