/**
 * The extension methods of `TelefrekExtensions` in Telefrek.Core.Json: text
 * out of an element, elements out of text, the tag casts and value
 * accessors, the `Add` helpers on an object, and the wrappers that go
 * through the serializer registry.
 */
module JsonExtensions {
  import opened Wrappers
  import opened JsonModel
  import opened JsonPrinter
  import opened JsonParser
  import opened JsonRoundTrip
  import opened JsonSerialization

  // ---------------------------------------------------------------------
  // Text
  // ---------------------------------------------------------------------

  /** `ToJson(element, pretty)`: one `StringBuilder`, then `PrettyPrint(sb, 0)` or `Print(sb)`. */
  method ToJson(ops: FloatOps, e: Element, pretty: bool) returns (s: Bytes)
    ensures pretty ==> s == Pretty(ops, e, 0)
    ensures !pretty ==> s == Compact(ops, e)
  {
    var builder := new StringBuilder();
    if pretty {
      PrettyPrint(ops, e, builder, 0);
    } else {
      Print(ops, e, builder);
    }
    s := builder.text;
  }

  /**
   * `AsJson(string)` and `AsJson(byte[])`: a null reference reads as the
   * empty buffer, so it gives the null element.
   */
  function AsJson(ops: FloatOps, s: Option<Bytes>): (r: Result<Option<Element>, Error>)
    ensures s.None? ==> r == Ok(None)
    ensures s.Some? ==> r == Parse(ops, s.value)
  {
    Parse(ops, if s.None? then [] else s.value)
  }

  /** Either text `ToJson` writes for a printable element reads back as that element. */
  lemma AsJsonReadsToJson(ops: FloatOps, e: Element)
    requires Printable(ops, e)
    ensures AsJson(ops, Some(Compact(ops, e))) == Ok(Some(e))
    ensures AsJson(ops, Some(Pretty(ops, e, 0))) == Ok(Some(e))
  {
    Reformat(ops, e);
  }

  // ---------------------------------------------------------------------
  // Casts and accessors
  // ---------------------------------------------------------------------

  /** `AsJsonArray`: the element itself when its tag is `Array`, otherwise `JsonCastException`. */
  function AsJsonArray(e: Element): (r: Result<Element, Error>)
    ensures r.Ok? <==> IsJsonArray(e)
    ensures r.Ok? ==> r.value == e
    ensures r.Err? ==> r.error == JsonCast
  {
    if IsJsonArray(e) then Ok(e) else Err(JsonCast)
  }

  /** `AsJsonObject`: the element itself when its tag is `Object`, otherwise `JsonCastException`. */
  function AsJsonObject(e: Element): (r: Result<Element, Error>)
    ensures r.Ok? <==> IsJsonObject(e)
    ensures r.Ok? ==> r.value == e
    ensures r.Err? ==> r.error == JsonCast
  {
    if IsJsonObject(e) then Ok(e) else Err(JsonCast)
  }

  /** `AsString`: `(element as JsonString).Value`, a null dereference for any other class. */
  function AsString(e: Element): (r: Result<Bytes, Error>)
    ensures r.Ok? <==> e.String?
    ensures r.Ok? ==> String(r.value) == e
    ensures r.Err? ==> r.error == NullReference
  {
    if e.String? then Ok(e.stringValue) else Err(NullReference)
  }

  /** `AsDouble`: `(element as JsonDouble).Value`. */
  function AsDouble(e: Element): (r: Result<Float, Error>)
    ensures r.Ok? <==> e.Double?
    ensures r.Ok? ==> FromDouble(r.value) == e
    ensures r.Err? ==> r.error == NullReference
  {
    if e.Double? then Ok(e.doubleValue) else Err(NullReference)
  }

  /** `AsLong`: `(element as JsonNumber).Value`. */
  function AsLong(e: Element): (r: Result<Int64, Error>)
    ensures r.Ok? <==> e.Number?
    ensures r.Ok? ==> FromInt64(r.value) == e
    ensures r.Err? ==> r.error == NullReference
  {
    if e.Number? then Ok(e.longValue) else Err(NullReference)
  }

  /** `AsInteger`: `(element as JsonNumber).ValueAsInt32`, the low 32 bits. */
  function AsInteger(e: Element): (r: Result<Int32, Error>)
    ensures r.Ok? <==> e.Number?
    ensures r.Ok? ==> (r.value - e.longValue) % 0x1_0000_0000 == 0
    ensures r.Err? ==> r.error == NullReference
  {
    if e.Number? then Ok(ValueAsInt32(e.longValue)) else Err(NullReference)
  }

  /** `AsBool`: `(element as JsonBool).Value`. */
  function AsBool(e: Element): (r: Result<bool, Error>)
    ensures r.Ok? <==> e.Bool?
    ensures r.Ok? ==> FromBool(r.value) == e
    ensures r.Err? ==> r.error == NullReference
  {
    if e.Bool? then Ok(e.boolValue) else Err(NullReference)
  }

  /** The implicit conversions and the accessors undo each other. */
  lemma ConversionsReadBack(b: bool, i: Int32, l: Int64, d: Float, s: Bytes)
    ensures AsBool(FromBool(b)) == Ok(b)
    ensures AsInteger(FromInt32(i)) == Ok(i) && AsLong(FromInt32(i)) == Ok(i)
    ensures AsLong(FromInt64(l)) == Ok(l)
    ensures AsDouble(FromDouble(d)) == Ok(d)
    ensures |s| > 0 ==> AsString(FromString(Some(s))) == Ok(s)
    ensures AsString(FromString(Some([]))) == Err(NullReference)
  {
  }

  // ---------------------------------------------------------------------
  // Object manipulation
  // ---------------------------------------------------------------------

  /** A `JsonObject` reference: its `Properties` list is what the `Add` helpers append to. */
  class JsonObject {
    var properties: seq<Property>

    constructor()
      ensures properties == []
    {
      properties := [];
    }

    /** The element the object currently is. */
    function Value(): (e: Element)
      reads this
      ensures IsJsonObject(e) && e.properties == properties
    {
      Object(properties)
    }

    /** `Add<T>(name, value)`: one property appended, the earlier ones kept. */
    method Add(name: Bytes, value: Element)
      modifies this
      ensures properties == old(properties) + [Property(name, value)]
      ensures Has(properties, name, false) && Has(properties, name, true)
    {
      properties := properties + [Property(name, value)];
      assert NamesEqual(properties[|properties| - 1].name, name, false);
      assert NamesEqual(properties[|properties| - 1].name, name, true);
    }

    /** `Add(name, bool)`. */
    method AddBool(name: Bytes, value: bool)
      modifies this
      ensures properties == old(properties) + [Property(name, FromBool(value))]
    {
      Add(name, FromBool(value));
    }

    /** `Add(name, string)`: a null or empty string is stored as `JsonNull`. */
    method AddString(name: Bytes, value: Option<Bytes>)
      modifies this
      ensures properties == old(properties) + [Property(name, FromString(value))]
      ensures (value.None? || value.value == []) ==> properties[|properties| - 1].value == Null
    {
      Add(name, FromString(value));
    }

    /** `Add(name, int)`: widened to a 64-bit `JsonNumber`. */
    method AddInt(name: Bytes, value: Int32)
      modifies this
      ensures properties == old(properties) + [Property(name, FromInt32(value))]
    {
      Add(name, FromInt32(value));
    }

    /** `Add(name, double)`. */
    method AddDouble(name: Bytes, value: Float)
      modifies this
      ensures properties == old(properties) + [Property(name, FromDouble(value))]
    {
      Add(name, FromDouble(value));
    }
  }

  // ---------------------------------------------------------------------
  // Through the serializer registry
  // ---------------------------------------------------------------------

  /** `AsJson<T>`: the registered serializer's element, or `JsonSerializationException`. */
  function Serialize<K, T>(registry: SerializerRegistry<K, Serializer<T>>, key: K, instance: T): (r: Result<Element, Error>)
    reads registry
    ensures r.Err? <==> registry.GetSerializer(key).None?
    ensures r.Err? ==> r.error == NoSerializer
    ensures r.Ok? ==> r.value == registry.GetSerializer(key).value.serialize(instance)
  {
    match registry.GetSerializer(key)
    case None => Err(NoSerializer)
    case Some(s) => Ok(s.serialize(instance))
  }

  /** `ToJson<T>`: `AsJson()` then `ToJson(pretty)`. */
  method ToJsonOf<K, T>(ops: FloatOps, registry: SerializerRegistry<K, Serializer<T>>, key: K, instance: T, pretty: bool)
    returns (r: Result<Bytes, Error>)
    ensures r.Err? <==> Serialize(registry, key, instance).Err?
    ensures r.Err? ==> r.error == NoSerializer
    ensures r.Ok? && pretty ==> r.value == Pretty(ops, Serialize(registry, key, instance).value, 0)
    ensures r.Ok? && !pretty ==> r.value == Compact(ops, Serialize(registry, key, instance).value)
  {
    var e := Serialize(registry, key, instance);
    if e.Err? {
      return Err(e.error);
    }
    var text := ToJson(ops, e.value, pretty);
    r := Ok(text);
  }

  /**
   * `FromJson<T>(string)` and `FromJson<T>(byte[])`: the missing serializer
   * is reported before the text is looked at; then the parsed element, null
   * for an empty buffer, goes to `Deserialize`.
   */
  function FromJson<K, T>(ops: FloatOps, registry: SerializerRegistry<K, Serializer<T>>, key: K, s: Option<Bytes>): (r: Result<T, Error>)
    reads registry
    ensures registry.GetSerializer(key).None? ==> r == Err(NoSerializer)
    ensures registry.GetSerializer(key).Some? && AsJson(ops, s).Err? ==> r == Err(AsJson(ops, s).error)
    ensures registry.GetSerializer(key).Some? && AsJson(ops, s).Ok? ==>
      r == Ok(registry.GetSerializer(key).value.deserialize(AsJson(ops, s).value))
  {
    match registry.GetSerializer(key)
    case None => Err(NoSerializer)
    case Some(serializer) =>
      match AsJson(ops, s)
      case Err(e) => Err(e)
      case Ok(element) => Ok(serializer.deserialize(element))
  }

  /**
   * An instance whose serializer reads back its own printable element
   * survives `ToJson<T>` followed by `FromJson<T>`, in either layout.
   */
  lemma SerializerRoundTrip<K, T>(ops: FloatOps, registry: SerializerRegistry<K, Serializer<T>>, key: K, instance: T)
    requires registry.GetSerializer(key).Some?
    requires var s := registry.GetSerializer(key).value;
      Printable(ops, s.serialize(instance)) && s.deserialize(Some(s.serialize(instance))) == instance
    ensures var e := Serialize(registry, key, instance).value;
      FromJson(ops, registry, key, Some(Compact(ops, e))) == Ok(instance) &&
      FromJson(ops, registry, key, Some(Pretty(ops, e, 0))) == Ok(instance)
  {
    AsJsonReadsToJson(ops, Serialize(registry, key, instance).value);
  }
}
