/**
 * The JSON document model of Telefrek.Core.Json: the `JsonElement` class
 * hierarchy folded into one datatype, its type tag, the implicit conversions
 * from primitive values, `JsonNumber.ValueAsInt32`, `JsonObject.Has`, the
 * `IsJson*` tag tests and `IsNumeric`, plus the exceptions the library throws
 * as one error datatype.
 */
module JsonModel {
  import opened Wrappers

  /** One byte of UTF-8 text, written as the character with that code. */
  type Byte = c: char | c as int < 256 witness ' '

  /** Byte text: names, string values and printed output are kept as UTF-8 bytes. */
  type Bytes = seq<Byte>

  /** A C# `long`. */
  type Int64 = x: int | -0x8000_0000_0000_0000 <= x < 0x8000_0000_0000_0000

  /** A C# `int`. */
  type Int32 = x: int | -0x8000_0000 <= x < 0x8000_0000

  /** A C# `double`, kept as its IEEE 754 bit pattern; its arithmetic is not modelled. */
  datatype Float = Float(bits: bv64)

  /**
   * The floating-point services the library borrows from .NET, as parameters:
   * `parse` is `Double.Parse` on a numeric token (None: it throws a
   * FormatException), `isIntegral` is the test `Math.Abs(n % 1) <= Double.Epsilon * 100`,
   * `truncate` is the `(long)` cast and `format` is the interpolation `$"{Value}"`.
   */
  datatype FloatOps = FloatOps(
    parse: Bytes -> Option<Float>,
    isIntegral: Float -> bool,
    truncate: Float -> Int64,
    format: Float -> Bytes)

  /** `JsonElementType`. */
  datatype ElementType = UnknownType | NullType | PrimitiveType | ObjectType | ArrayType

  /**
   * A JSON element. `Null` is the `JsonNull.Instance` singleton; `Bool`,
   * `Number` (a 64-bit `JsonNumber`), `Double` and `String` are the primitives;
   * `Array` holds `JsonArray.Items` and `Object` holds `JsonObject.Properties`
   * in list order (duplicate names allowed).
   */
  datatype Element =
    | Null
    | Bool(boolValue: bool)
    | Number(longValue: Int64)
    | Double(doubleValue: Float)
    | String(stringValue: Bytes)
    | Array(items: seq<Element>)
    | Object(properties: seq<Property>)

  /** `JsonProperty`: a name and its value. */
  datatype Property = Property(name: Bytes, value: Element)

  /** The exceptions the modelled code throws. */
  datatype FormatReason =
    | PropertyWithoutObject    // a property name read while `current` is no object
    | PrimitiveIntoNonContainer // a primitive read while `current` is a primitive
    | UnparsableBuffer          // no token recognised at the head of the buffer
    | MalformedStream           // no token recognised and the stream is complete

  datatype Error =
    | InvalidJsonFormat(reason: FormatReason) // InvalidJsonFormatException
    | EmptyStack                // InvalidOperationException from Stack<T>.Pop
    | NoLastProperty            // ArgumentOutOfRangeException from Properties[Count - 1]
    | SliceOutOfRange           // ArgumentOutOfRangeException from ReadOnlySequence.Slice
    | NumberFormat              // FormatException from Double.Parse
    | Cancelled                 // OperationCanceledException
    | JsonCast                  // JsonCastException
    | NullReference             // NullReferenceException after a failed `as` cast
    | NoSerializer              // JsonSerializationException

  /** The `JsonType` property of each element class. */
  function JsonType(e: Element): (t: ElementType)
    ensures t != UnknownType
    ensures t == ObjectType <==> e.Object?
    ensures t == ArrayType <==> e.Array?
    ensures t == NullType <==> e.Null?
  {
    match e
    case Null => NullType
    case Object(_) => ObjectType
    case Array(_) => ArrayType
    case _ => PrimitiveType
  }

  predicate IsJsonObject(e: Element) { JsonType(e) == ObjectType }
  predicate IsJsonArray(e: Element) { JsonType(e) == ArrayType }
  predicate IsJsonPrimitive(e: Element) { JsonType(e) == PrimitiveType }
  predicate IsJsonNull(e: Element) { JsonType(e) == NullType }

  /** Every element passes exactly one of the four tag tests. */
  lemma ExactlyOneTag(e: Element)
    ensures IsJsonObject(e) || IsJsonArray(e) || IsJsonPrimitive(e) || IsJsonNull(e)
    ensures !(IsJsonObject(e) && IsJsonArray(e)) && !(IsJsonObject(e) && IsJsonPrimitive(e))
    ensures !(IsJsonObject(e) && IsJsonNull(e)) && !(IsJsonArray(e) && IsJsonPrimitive(e))
    ensures !(IsJsonArray(e) && IsJsonNull(e)) && !(IsJsonPrimitive(e) && IsJsonNull(e))
    ensures IsJsonPrimitive(e) <==> e.Bool? || e.Number? || e.Double? || e.String?
  {
  }

  /** `IsNumeric`: the bytes a number token is made of. */
  predicate IsNumeric(b: Byte)
  {
    ('0' <= b <= '9') || b == '.' || b == '-'
  }

  /** The three literal tokens. */
  const NullText: Bytes := "null"
  const TrueText: Bytes := "true"
  const FalseText: Bytes := "false"

  // The implicit conversions of JsonElement.

  function FromDouble(d: Float): (e: Element)
    ensures JsonType(e) == PrimitiveType && e.Double? && e.doubleValue == d
  {
    Double(d)
  }

  function FromBool(b: bool): (e: Element)
    ensures JsonType(e) == PrimitiveType && e.Bool? && e.boolValue == b
  {
    Bool(b)
  }

  /** The `int` conversion: the value widened into a `JsonNumber`. */
  function FromInt32(i: Int32): (e: Element)
    ensures JsonType(e) == PrimitiveType && e.Number? && e.longValue == i
  {
    Number(i)
  }

  /** The `long` conversion, a separate overload in the source: the value kept as it is. */
  function FromInt64(l: Int64): (e: Element)
    ensures JsonType(e) == PrimitiveType && e.Number? && e.longValue == l
  {
    Number(l)
  }

  /** A C# string reference: None is null. */
  function FromString(s: Option<Bytes>): (e: Element)
    ensures (s.None? || s.value == []) <==> e == Null
    ensures e != Null ==> e == String(s.value)
  {
    if s.None? || |s.value| == 0 then Null else String(s.value)
  }

  /** `ValueAsInt32`: the unchecked cast keeps the low 32 bits as two's complement. */
  function ValueAsInt32(n: Int64): (r: Int32)
    ensures (r - n) % 0x1_0000_0000 == 0
    ensures -0x8000_0000 <= n < 0x8000_0000 ==> r == n
  {
    var low := n % 0x1_0000_0000;
    if low < 0x8000_0000 then low else low - 0x1_0000_0000
  }

  /** ASCII case folding: the culture-invariant comparison restricted to ASCII letters. */
  function ToLowerAscii(c: Byte): (r: Byte)
    ensures 'A' <= c <= 'Z' ==> r as int == c as int + 32
    ensures !('A' <= c <= 'Z') ==> r == c
  {
    if 'A' <= c <= 'Z' then (c as int + 32) as char else c
  }

  predicate NamesEqual(a: Bytes, b: Bytes, ignoreCase: bool)
  {
    |a| == |b| &&
    forall i :: 0 <= i < |a| ==>
      (if ignoreCase then ToLowerAscii(a[i]) == ToLowerAscii(b[i]) else a[i] == b[i])
  }

  /** `JsonObject.Has`: some property carries the name (a linear scan, like `Any`). */
  function Has(properties: seq<Property>, name: Bytes, ignoreCase: bool): (r: bool)
    ensures r <==> exists i :: 0 <= i < |properties| && NamesEqual(properties[i].name, name, ignoreCase)
  {
    if |properties| == 0 then false
    else if NamesEqual(properties[0].name, name, ignoreCase) then true
    else
      var r := Has(properties[1..], name, ignoreCase);
      assert forall i :: 0 < i < |properties| ==> properties[i] == properties[1..][i - 1];
      r
  }

  /** An exact match is also a case-insensitive one. */
  lemma HasIgnoringCaseWeaker(properties: seq<Property>, name: Bytes)
    ensures Has(properties, name, false) ==> Has(properties, name, true)
  {
    if Has(properties, name, false) {
      var i :| 0 <= i < |properties| && NamesEqual(properties[i].name, name, false);
      assert NamesEqual(properties[i].name, name, true);
    }
  }
}
