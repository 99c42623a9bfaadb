/**
 * Reading printed text back: the parser turns the text either emitter writes
 * for an element into that element again, provided the element is one the
 * text can represent (non-empty containers, strings without unescaped quotes,
 * numbers the floating-point services format and parse faithfully). The
 * proofs follow the parser one token at a time: reading an element from a
 * state that accepts a value leaves the parser in `AfterValue`.
 */
module JsonRoundTrip {
  import opened Wrappers
  import opened JsonModel
  import opened JsonTokenizer
  import opened JsonParser
  import opened JsonPrinter
  import opened JsonParserFacts

  // ---------------------------------------------------------------------
  // Which elements the text represents
  // ---------------------------------------------------------------------

  /** What may follow a token: nothing, or a byte that cannot extend a number. */
  predicate Delimited(rest: Bytes)
  {
    |rest| == 0 || !IsNumeric(rest[0])
  }

  /** `Double.Parse` of the printed `long` is integral and truncates back to it. */
  predicate IntReadsBack(ops: FloatOps, n: Int64)
  {
    var p := ops.parse(Decimal(n));
    p.Some? && ops.isIntegral(p.value) && ops.truncate(p.value) == n
  }

  /** The printed `double` is a numeric token that parses back to the same non-integral value. */
  predicate DoubleReadsBack(ops: FloatOps, d: Float)
  {
    var t := ops.format(d);
    |t| > 0 && (forall i :: 0 <= i < |t| ==> IsNumeric(t[i])) && ops.parse(t) == Some(d) && !ops.isIntegral(d)
  }

  /** A primitive whose text reads back as itself. */
  predicate PrimitiveReadsBack(ops: FloatOps, e: Element)
  {
    match e
    case Number(n) => IntReadsBack(ops, n)
    case Double(d) => DoubleReadsBack(ops, d)
    case String(s) => |s| > 0 && Verbatim(s)
    case _ => true
  }

  /** An element the compact text represents: every container non-empty, every primitive read back. */
  predicate Printable(ops: FloatOps, e: Element)
    decreases e, 1
  {
    match e
    case Array(items) => |items| > 0 && ItemsPrintable(ops, items)
    case Object(props) => |props| > 0 && MembersPrintable(ops, props)
    case _ => PrimitiveReadsBack(ops, e)
  }

  predicate ItemsPrintable(ops: FloatOps, items: seq<Element>)
    decreases Array(items), 0
  {
    forall i :: 0 <= i < |items| ==> Printable(ops, items[i])
  }

  predicate MembersPrintable(ops: FloatOps, props: seq<Property>)
    decreases Object(props), 0
  {
    forall i :: 0 <= i < |props| ==> Verbatim(props[i].name) && Printable(ops, props[i].value)
  }

  // ---------------------------------------------------------------------
  // The parser state around a value
  // ---------------------------------------------------------------------

  /** A state in which a value may be read: nothing yet, an open array, or an object with a pending property. */
  predicate Accepts(st: Builder)
  {
    Valid(st) && !st.isName &&
    (st.current.Some? ==>
      st.current.value.Array? || (st.current.value.Object? && |st.current.value.properties| > 0))
  }

  /** `current` once the value `e` has been read into it. */
  function Attach(current: Option<Element>, e: Element): Element
    requires current.Some? ==> current.value.Array? || (current.value.Object? && |current.value.properties| > 0)
  {
    if current.None? then e
    else if current.value.Array? then Array(current.value.items + [e])
    else Object(SetLastValue(current.value.properties, e))
  }

  /** The state after reading `e`: `isName` is set again only by an object closed inside an object. */
  function AfterValue(st: Builder, e: Element): (r: Builder)
    requires Accepts(st)
    ensures Valid(r)
  {
    Builder(st.stack, Some(Attach(st.current, e)), e.Object? && st.current.Some? && st.current.value.Object?)
  }

  lemma AttachPrimitiveAccepts(st: Builder, e: Element)
    requires Accepts(st) && !e.Array? && !e.Object?
    ensures AttachPrimitive(st, e) == Ok(AfterValue(st, e))
  {
  }

  /** Closing a container opened in an accepting state delivers it to that state. */
  lemma CloseAccepts(st: Builder, c: Element, endsObject: bool)
    requires Accepts(st) && (c.Array? || c.Object?) && (endsObject <==> c.Object?)
    ensures Close(Builder(st.stack + [st.current], Some(c), false), endsObject) == Ok(AfterValue(st, c))
  {
    var stack := st.stack + [st.current];
    assert stack[..|stack| - 1] == st.stack && stack[|stack| - 1] == st.current;
  }

  // ---------------------------------------------------------------------
  // One token at a time
  // ---------------------------------------------------------------------

  lemma RunOpenArray(ops: FloatOps, st: Builder, rest: Bytes)
    requires Valid(st)
    ensures Run(ops, st, ['['] + rest) == Run(ops, Open(st, Array([]), st.isName), rest)
  {
    StepStructural(ops, st, '[', rest);
  }

  lemma RunOpenObject(ops: FloatOps, st: Builder, rest: Bytes)
    requires Valid(st)
    ensures Run(ops, st, ['{'] + rest) == Run(ops, Open(st, Object([]), true), rest)
  {
    StepStructural(ops, st, '{', rest);
  }

  lemma RunClose(ops: FloatOps, st: Builder, endsObject: bool, rest: Bytes)
    requires Valid(st) && Close(st, endsObject).Ok?
    ensures Run(ops, st, [if endsObject then '}' else ']'] + rest) == Run(ops, Close(st, endsObject).value, rest)
  {
    StepStructural(ops, st, if endsObject then '}' else ']', rest);
  }

  lemma RunComma(ops: FloatOps, st: Builder, rest: Bytes)
    requires Valid(st)
    ensures Run(ops, st, [','] + rest) == Run(ops, st.(isName := st.current.Some? && IsJsonObject(st.current.value)), rest)
  {
    StepStructural(ops, st, ',', rest);
  }

  lemma RunColon(ops: FloatOps, st: Builder, rest: Bytes)
    requires Valid(st)
    ensures Run(ops, st, [':'] + rest) == Run(ops, st.(isName := false), rest)
  {
    StepStructural(ops, st, ':', rest);
  }

  /** `}` does not look at `isName`. */
  lemma RunCloseObjectIgnoresName(ops: FloatOps, st: Builder, rest: Bytes)
    requires Valid(st)
    ensures Run(ops, st, ['}'] + rest) == Run(ops, st.(isName := false), ['}'] + rest)
  {
    StepStructural(ops, st, '}', rest);
    StepStructural(ops, st.(isName := false), '}', rest);
    assert Close(st, true) == Close(st.(isName := false), true);
  }

  /** A quoted property name in a name position adds the property. */
  lemma RunName(ops: FloatOps, st: Builder, name: Bytes, rest: Bytes)
    requires Valid(st) && st.isName && Verbatim(name)
    requires st.current.Some? && st.current.value.Object?
    ensures Run(ops, st, Quoted(name) + rest) == Run(ops, AddName(st, name).value, rest)
  {
    var b := ['"'] + name + ['"'] + rest;
    assert Quoted(name) + rest == b;
    ScanQuoted(name, rest);
    StepName(ops, st, b, name, rest);
  }

  /** A token whose bytes are all numeric and which is followed by a delimiter is read whole. */
  lemma ScanNumberToken(ops: FloatOps, tok: Bytes, rest: Bytes)
    requires |tok| > 0 && (forall i :: 0 <= i < |tok| ==> IsNumeric(tok[i])) && Delimited(rest)
    ensures ScanPrimitive(ops, tok + rest) == NumberPrimitive(ops, tok + rest)
    ensures ScanNumber(tok + rest) == Some((tok, rest))
  {
    var b := tok + rest;
    assert b[0] == tok[0];
    TrimmedSkips([], b);
    assert [] + b == b;
    assert forall i :: 0 <= i < |tok| ==> b[i] == tok[i];
    NumericRunAt(b, |tok|);
    assert b[..|tok|] == tok && b[|tok|..] == rest;
  }

  /** The text of a primitive starts a token that is neither whitespace nor punctuation. */
  lemma PrimitiveTextHead(ops: FloatOps, e: Element)
    requires !e.Array? && !e.Object? && PrimitiveReadsBack(ops, e)
    ensures var t := PrimitiveText(ops, e); |t| > 0 && !IsWhitespace(t[0]) && !Structural(t[0])
  {
  }

  lemma ScanStringToken(ops: FloatOps, s: Bytes, rest: Bytes)
    requires |s| > 0 && Verbatim(s)
    ensures ScanPrimitive(ops, Quoted(s) + rest) == Primitive(String(s), rest)
  {
    var b := ['"'] + s + ['"'] + rest;
    assert Quoted(s) + rest == b;
    ScanQuoted(s, rest);
    TrimmedSkips([], b);
    assert [] + b == b;
    assert b[0] == '"' && !IsNumeric(b[0]);
    assert ScanPrimitive(ops, b) == StringPrimitive(b);
    assert FromString(Some(s)) == String(s);
  }

  /** The text of a primitive that reads back scans as that primitive, whatever delimited text follows. */
  lemma PrimitiveScans(ops: FloatOps, e: Element, rest: Bytes)
    requires !e.Array? && !e.Object? && PrimitiveReadsBack(ops, e) && Delimited(rest)
    ensures ScanPrimitive(ops, PrimitiveText(ops, e) + rest) == Primitive(e, rest)
  {
    match e
    case Null =>
      NullIgnoresWhatFollows(ops, rest);
    case Bool(b) =>
      if b { TrueIgnoresWhatFollows(ops, rest); } else { FalseIgnoresWhatFollows(ops, rest); }
    case Number(n) =>
      ScanNumberToken(ops, Decimal(n), rest);
    case Double(d) =>
      ScanNumberToken(ops, ops.format(d), rest);
    case String(s) =>
      ScanStringToken(ops, s, rest);
  }

  lemma PrimitiveRoundTrip(ops: FloatOps, st: Builder, e: Element, rest: Bytes)
    requires Accepts(st) && !e.Array? && !e.Object? && PrimitiveReadsBack(ops, e) && Delimited(rest)
    ensures Run(ops, st, Compact(ops, e) + rest) == Run(ops, AfterValue(st, e), rest)
  {
    PrimitiveScans(ops, e, rest);
    PrimitiveTextHead(ops, e);
    StepPrimitive(ops, st, PrimitiveText(ops, e) + rest, e, rest);
    AttachPrimitiveAccepts(st, e);
  }

  // ---------------------------------------------------------------------
  // The compact text
  // ---------------------------------------------------------------------

  /** The joined parts from the `k`-th on: the `k`-th part, then a separator and the others if any. */
  lemma JoinFrom(sep: Bytes, parts: seq<Bytes>, k: nat, tail: Bytes)
    requires k < |parts|
    ensures k == |parts| - 1 ==> Join(sep, parts[k..]) + tail == parts[k] + tail
    ensures k < |parts| - 1 ==> Join(sep, parts[k..]) + tail == parts[k] + (sep + (Join(sep, parts[k + 1..]) + tail))
  {
    assert parts[k..][0] == parts[k];
    assert parts[k..][1..] == parts[k + 1..];
  }

  /** Reading the compact text of `e` from an accepting state delivers `e` to it. */
  lemma ValueRoundTrip(ops: FloatOps, st: Builder, e: Element, rest: Bytes)
    requires Accepts(st) && Printable(ops, e) && Delimited(rest)
    ensures Run(ops, st, Compact(ops, e) + rest) == Run(ops, AfterValue(st, e), rest)
    decreases e, 1
  {
    match e
    case Array(items) => ArrayRoundTrip(ops, st, items, rest);
    case Object(props) => ObjectRoundTrip(ops, st, props, rest);
    case _ => PrimitiveRoundTrip(ops, st, e, rest);
  }

  lemma CompactArrayText(ops: FloatOps, items: seq<Element>, rest: Bytes)
    requires |items| > 0
    ensures Compact(ops, Array(items)) + rest == ['['] + (Join(",", CompactItems(ops, items)) + ([']'] + rest))
  {
  }

  lemma CompactObjectText(ops: FloatOps, props: seq<Property>, rest: Bytes)
    requires |props| > 0
    ensures Compact(ops, Object(props)) + rest == ['{'] + (Join(",", CompactMembers(ops, props)) + (['}'] + rest))
  {
  }

  lemma ArrayRoundTrip(ops: FloatOps, st: Builder, items: seq<Element>, rest: Bytes)
    requires Accepts(st) && |items| > 0 && ItemsPrintable(ops, items) && Delimited(rest)
    ensures Run(ops, st, Compact(ops, Array(items)) + rest) == Run(ops, AfterValue(st, Array(items)), rest)
    decreases Array(items), 0
  {
    var parts := CompactItems(ops, items);
    var body := Join(",", parts);
    var tail := [']'] + rest;
    CompactArrayText(ops, items, rest);
    var inner := Open(st, Array([]), false);
    RunOpenArray(ops, st, body + tail);
    assert items[..0] == [] && parts[0..] == parts;
    ItemsRoundTrip(ops, inner, items, 0, tail);
    CloseAccepts(st, Array(items), false);
    RunClose(ops, Builder(inner.stack, Some(Array(items)), false), false, rest);
  }

  /** The last item, then whatever closes the array. */
  lemma LastItemRoundTrip(ops: FloatOps, st: Builder, items: seq<Element>, tail: Bytes)
    requires |items| > 0 && ItemsPrintable(ops, items) && Delimited(tail)
    requires Valid(st) && !st.isName && st.current == Some(Array(items[..|items| - 1]))
    ensures Run(ops, st, Join(",", CompactItems(ops, items)[|items| - 1..]) + tail)
         == Run(ops, Builder(st.stack, Some(Array(items)), false), tail)
    decreases Array(items), 0, 1, 1
  {
    var k := |items| - 1;
    JoinFrom(",", CompactItems(ops, items), k, tail);
    assert items[..k] + [items[k]] == items;
    assert AfterValue(st, items[k]) == Builder(st.stack, Some(Array(items)), false);
    ValueRoundTrip(ops, st, items[k], tail);
  }

  /** An item that is not the last, then its comma. */
  lemma ItemThenComma(ops: FloatOps, st: Builder, items: seq<Element>, k: nat, more: Bytes, tail: Bytes)
    requires k < |items| - 1 && ItemsPrintable(ops, items)
    requires more == Join(",", CompactItems(ops, items)[k + 1..])
    requires Valid(st) && !st.isName && st.current == Some(Array(items[..k]))
    ensures Run(ops, st, Join(",", CompactItems(ops, items)[k..]) + tail)
         == Run(ops, Builder(st.stack, Some(Array(items[..k + 1])), false), more + tail)
    decreases Array(items), 0, |items| - k, 1
  {
    var after := Builder(st.stack, Some(Array(items[..k + 1])), false);
    JoinFrom(",", CompactItems(ops, items), k, tail);
    assert items[..k] + [items[k]] == items[..k + 1];
    assert AfterValue(st, items[k]) == after;
    assert [','] == ",";
    ValueRoundTrip(ops, st, items[k], [','] + (more + tail));
    RunComma(ops, after, more + tail);
  }

  /** The items from the `k`-th on, separated by commas. */
  lemma ItemsRoundTrip(ops: FloatOps, st: Builder, items: seq<Element>, k: nat, tail: Bytes)
    requires k < |items| && ItemsPrintable(ops, items) && Delimited(tail)
    requires Valid(st) && !st.isName && st.current == Some(Array(items[..k]))
    ensures Run(ops, st, Join(",", CompactItems(ops, items)[k..]) + tail)
         == Run(ops, Builder(st.stack, Some(Array(items)), false), tail)
    decreases Array(items), 0, |items| - k, 2
  {
    if k == |items| - 1 {
      LastItemRoundTrip(ops, st, items, tail);
    } else {
      var more := Join(",", CompactItems(ops, items)[k + 1..]);
      ItemThenComma(ops, st, items, k, more, tail);
      ItemsRoundTrip(ops, Builder(st.stack, Some(Array(items[..k + 1])), false), items, k + 1, tail);
    }
  }

  lemma ObjectRoundTrip(ops: FloatOps, st: Builder, props: seq<Property>, rest: Bytes)
    requires Accepts(st) && |props| > 0 && MembersPrintable(ops, props) && Delimited(rest)
    ensures Run(ops, st, Compact(ops, Object(props)) + rest) == Run(ops, AfterValue(st, Object(props)), rest)
    decreases Object(props), 0
  {
    var parts := CompactMembers(ops, props);
    var body := Join(",", parts);
    var tail := ['}'] + rest;
    CompactObjectText(ops, props, rest);
    var inner := Open(st, Object([]), true);
    RunOpenObject(ops, st, body + tail);
    assert props[..0] == [] && parts[0..] == parts;
    MembersRoundTrip(ops, inner, props, 0, tail);
    CloseAccepts(st, Object(props), true);
    RunClose(ops, Builder(inner.stack, Some(Object(props)), false), true, rest);
  }

  /** One member: its name, a colon and its value are read into the current object. */
  lemma MemberRoundTrip(ops: FloatOps, st: Builder, props: seq<Property>, k: nat, valueTail: Bytes)
    requires k < |props| && MembersPrintable(ops, props) && Delimited(valueTail)
    requires Valid(st) && st.isName && st.current == Some(Object(props[..k]))
    ensures Run(ops, st, CompactMembers(ops, props)[k] + valueTail)
         == Run(ops, Builder(st.stack, Some(Object(props[..k + 1])), props[k].value.Object?), valueTail)
    decreases Object(props), 0, |props| - k, 0
  {
    var p := props[k];
    var named := Builder(st.stack, Some(Object(props[..k] + [Property(p.name, Null)])), false);
    assert SetLastValue(props[..k] + [Property(p.name, Null)], p.value) == props[..k + 1];
    var value := Compact(ops, p.value);
    CompactMemberText(ops, props, k, valueTail);
    RunName(ops, st, p.name, [':'] + (value + valueTail));
    RunColon(ops, named, value + valueTail);
    ValueRoundTrip(ops, named, p.value, valueTail);
  }

  /** A compact member is its quoted name, a colon and its value's text. */
  lemma CompactMemberText(ops: FloatOps, props: seq<Property>, k: nat, valueTail: Bytes)
    requires k < |props|
    ensures CompactMembers(ops, props)[k] + valueTail
         == Quoted(props[k].name) + ([':'] + (Compact(ops, props[k].value) + valueTail))
  {
    assert ":" == [':'];
  }

  /** The last member, then the `}` that closes the object whatever `isName` the member left. */
  lemma LastMemberRoundTrip(ops: FloatOps, st: Builder, props: seq<Property>, tail: Bytes)
    requires |props| > 0 && MembersPrintable(ops, props) && |tail| > 0 && tail[0] == '}'
    requires Valid(st) && st.isName && st.current == Some(Object(props[..|props| - 1]))
    ensures Run(ops, st, Join(",", CompactMembers(ops, props)[|props| - 1..]) + tail)
         == Run(ops, Builder(st.stack, Some(Object(props)), false), tail)
    decreases Object(props), 0, 1, 1
  {
    var k := |props| - 1;
    JoinFrom(",", CompactMembers(ops, props), k, tail);
    MemberRoundTrip(ops, st, props, k, tail);
    assert props[..k + 1] == props;
    var after := Builder(st.stack, Some(Object(props)), props[k].value.Object?);
    assert tail == ['}'] + tail[1..];
    RunCloseObjectIgnoresName(ops, after, tail[1..]);
  }

  /** A member that is not the last, then its comma: the state is back in a name position. */
  lemma MemberThenComma(ops: FloatOps, st: Builder, props: seq<Property>, k: nat, more: Bytes, tail: Bytes)
    requires k < |props| - 1 && MembersPrintable(ops, props)
    requires more == Join(",", CompactMembers(ops, props)[k + 1..])
    requires Valid(st) && st.isName && st.current == Some(Object(props[..k]))
    ensures Run(ops, st, Join(",", CompactMembers(ops, props)[k..]) + tail)
         == Run(ops, Builder(st.stack, Some(Object(props[..k + 1])), true), more + tail)
    decreases Object(props), 0, |props| - k, 1
  {
    JoinFrom(",", CompactMembers(ops, props), k, tail);
    assert [','] == ",";
    MemberRoundTrip(ops, st, props, k, [','] + (more + tail));
    RunComma(ops, Builder(st.stack, Some(Object(props[..k + 1])), props[k].value.Object?), more + tail);
  }

  /** The members from the `k`-th on, separated by commas. */
  lemma MembersRoundTrip(ops: FloatOps, st: Builder, props: seq<Property>, k: nat, tail: Bytes)
    requires k < |props| && MembersPrintable(ops, props) && |tail| > 0 && tail[0] == '}'
    requires Valid(st) && st.isName && st.current == Some(Object(props[..k]))
    ensures Run(ops, st, Join(",", CompactMembers(ops, props)[k..]) + tail)
         == Run(ops, Builder(st.stack, Some(Object(props)), false), tail)
    decreases Object(props), 0, |props| - k, 2
  {
    if k == |props| - 1 {
      LastMemberRoundTrip(ops, st, props, tail);
    } else {
      var more := Join(",", CompactMembers(ops, props)[k + 1..]);
      MemberThenComma(ops, st, props, k, more, tail);
      MembersRoundTrip(ops, Builder(st.stack, Some(Object(props[..k + 1])), true), props, k + 1, tail);
    }
  }

  /** The compact text of a printable element parses back to the element. */
  lemma CompactRoundTrip(ops: FloatOps, e: Element)
    requires Printable(ops, e)
    ensures Parse(ops, Compact(ops, e)) == Ok(Some(e))
  {
    ValueRoundTrip(ops, Start, e, []);
    assert Compact(ops, e) + [] == Compact(ops, e);
  }

  // ---------------------------------------------------------------------
  // The indented text
  // ---------------------------------------------------------------------

  /** An element the indented text represents: empty arrays are written out, empty objects are not. */
  predicate PrettyPrintable(ops: FloatOps, e: Element)
    decreases e, 1
  {
    match e
    case Array(items) => ItemsPrettyPrintable(ops, items)
    case Object(props) => |props| > 0 && MembersPrettyPrintable(ops, props)
    case _ => PrimitiveReadsBack(ops, e)
  }

  predicate ItemsPrettyPrintable(ops: FloatOps, items: seq<Element>)
    decreases Array(items), 0
  {
    forall i :: 0 <= i < |items| ==> PrettyPrintable(ops, items[i])
  }

  predicate MembersPrettyPrintable(ops: FloatOps, props: seq<Property>)
    decreases Object(props), 0
  {
    forall i :: 0 <= i < |props| ==> Verbatim(props[i].name) && PrettyPrintable(ops, props[i].value)
  }

  /** Whatever the compact text represents, the indented text represents too. */
  lemma {:induction false} PrintableIsPrettyPrintable(ops: FloatOps, e: Element)
    requires Printable(ops, e)
    ensures PrettyPrintable(ops, e)
    decreases e
  {
    match e
    case Array(items) =>
      forall i | 0 <= i < |items|
        ensures PrettyPrintable(ops, items[i])
      {
        PrintableIsPrettyPrintable(ops, items[i]);
      }
    case Object(props) =>
      forall i | 0 <= i < |props|
        ensures PrettyPrintable(ops, props[i].value)
      {
        PrintableIsPrettyPrintable(ops, props[i].value);
      }
    case _ =>
  }

  /** The line break and indentation the pretty emitter puts before a closing bracket. */
  lemma TabsAreWhitespace(depth: nat)
    ensures AllWhitespace(Tabs(depth))
  {
  }

  function Indent(depth: nat): (s: Bytes)
    ensures AllWhitespace(s) && |s| > 0
  {
    "\n" + Tabs(depth)
  }

  /** The indented text of a representable element starts with a token. */
  lemma PrettyHead(ops: FloatOps, e: Element, depth: nat)
    requires PrettyPrintable(ops, e)
    ensures |Pretty(ops, e, depth)| > 0 && !IsWhitespace(Pretty(ops, e, depth)[0])
  {
    if !e.Array? && !e.Object? {
      PrimitiveTextHead(ops, e);
    }
  }

  /** The joined text starts with the first part. */
  lemma JoinHead(sep: Bytes, parts: seq<Bytes>, tail: Bytes)
    requires |parts| > 0 && |parts[0]| > 0
    ensures |Join(sep, parts) + tail| > 0 && (Join(sep, parts) + tail)[0] == parts[0][0]
  {
    JoinFrom(sep, parts, 0, tail);
    assert parts[0..] == parts;
  }

  /** Regrouping a concatenation of five pieces to the right. */
  lemma Regroup<T>(a: seq<T>, b: seq<T>, c: seq<T>, d: seq<T>, e: seq<T>)
    ensures a + b + c + d + e == a + (b + (c + (d + e)))
  {
  }

  lemma PrettyArrayText(ops: FloatOps, items: seq<Element>, depth: nat, rest: Bytes)
    ensures Pretty(ops, Array(items), depth) + rest
         == ['['] + (Indent(depth) + (Join(",\n" + Tabs(depth), PrettyItems(ops, items, depth + 1)) + (Indent(depth) + ([']'] + rest))))
  {
    PrettyArrayFrame(ops, items, depth);
    var j := Join(",\n" + Tabs(depth), PrettyItems(ops, items, depth + 1));
    assert "[\n" + Tabs(depth) == ['['] + Indent(depth);
    assert "\n" + Tabs(depth) + "]" == Indent(depth) + [']'];
    Regroup(['['], Indent(depth), j, Indent(depth) + [']'], rest);
  }

  lemma PrettyObjectText(ops: FloatOps, props: seq<Property>, depth: nat, rest: Bytes)
    requires |props| > 0
    ensures Pretty(ops, Object(props), depth) + rest
         == ['{'] + ("\n" + (Join(",\n", PrettyMembers(ops, props, depth + 1)) + (Indent(depth) + (['}'] + rest))))
  {
    var j := Join(",\n", PrettyMembers(ops, props, depth + 1));
    assert "{\n" == ['{'] + "\n";
    assert "\n" + Tabs(depth) + "}" == Indent(depth) + ['}'];
    assert Pretty(ops, Object(props), depth) == ['{'] + "\n" + j + (Indent(depth) + ['}']);
    Regroup(['{'], "\n", j, Indent(depth) + ['}'], rest);
  }

  /** Reading the indented text of `e` from an accepting state delivers `e` to it. */
  lemma PrettyValueRoundTrip(ops: FloatOps, st: Builder, e: Element, depth: nat, rest: Bytes)
    requires Accepts(st) && PrettyPrintable(ops, e) && Delimited(rest)
    ensures Run(ops, st, Pretty(ops, e, depth) + rest) == Run(ops, AfterValue(st, e), rest)
    decreases e, 1
  {
    match e
    case Array(items) => PrettyArrayRoundTrip(ops, st, items, depth, rest);
    case Object(props) => PrettyObjectRoundTrip(ops, st, props, depth, rest);
    case _ => PrimitiveRoundTrip(ops, st, e, rest);
  }

  /** `[` then whitespace before the first token. */
  lemma OpenArrayLine(ops: FloatOps, st: Builder, w: Bytes, b: Bytes)
    requires Valid(st) && AllWhitespace(w) && |b| > 0 && !IsWhitespace(b[0])
    ensures Run(ops, st, ['['] + (w + b)) == Run(ops, Open(st, Array([]), st.isName), b)
  {
    RunOpenArray(ops, st, w + b);
    RunSkipsWhitespace(ops, Open(st, Array([]), st.isName), w, b);
  }

  /** Whitespace, then the `]` that closes the array in `current`. */
  lemma CloseArrayLine(ops: FloatOps, st: Builder, w: Bytes, rest: Bytes)
    requires Valid(st) && Close(st, false).Ok? && AllWhitespace(w)
    ensures Run(ops, st, w + ([']'] + rest)) == Run(ops, Close(st, false).value, rest)
  {
    RunSkipsWhitespace(ops, st, w, [']'] + rest);
    RunClose(ops, st, false, rest);
  }

  /**
   * The layout of an array: `[`, a line break, the items, a line break, `]`.
   * Reading the items is the hypothesis, so the lemma is about the layout alone.
   */
  lemma ArrayLayout(ops: FloatOps, st: Builder, w: Bytes, body: Bytes, items: seq<Element>, rest: Bytes)
    requires Accepts(st) && AllWhitespace(w) && Delimited(rest)
    requires |body| == 0 <==> |items| == 0
    requires |body| > 0 ==> !IsWhitespace(body[0])
    requires |body| > 0 ==>
      var inner := Open(st, Array([]), false);
      Run(ops, inner, body + (w + ([']'] + rest))) == Run(ops, Builder(inner.stack, Some(Array(items)), false), w + ([']'] + rest))
    ensures Run(ops, st, ['['] + (w + (body + (w + ([']'] + rest))))) == Run(ops, AfterValue(st, Array(items)), rest)
  {
    var inner := Open(st, Array([]), false);
    var full := Builder(inner.stack, Some(Array(items)), false);
    CloseAccepts(st, Array(items), false);
    if |body| == 0 {
      assert ['['] + (w + (body + (w + ([']'] + rest)))) == ['['] + ((w + w) + ([']'] + rest));
      RunOpenArray(ops, st, (w + w) + ([']'] + rest));
      assert inner == full;
      CloseArrayLine(ops, full, w + w, rest);
    } else {
      OpenArrayLine(ops, st, w, body + (w + ([']'] + rest)));
      CloseArrayLine(ops, full, w, rest);
    }
  }

  lemma PrettyArrayRoundTrip(ops: FloatOps, st: Builder, items: seq<Element>, depth: nat, rest: Bytes)
    requires Accepts(st) && ItemsPrettyPrintable(ops, items) && Delimited(rest)
    ensures Run(ops, st, Pretty(ops, Array(items), depth) + rest) == Run(ops, AfterValue(st, Array(items)), rest)
    decreases Array(items), 0
  {
    var parts := PrettyItems(ops, items, depth + 1);
    var body := Join(",\n" + Tabs(depth), parts);
    var w := Indent(depth);
    PrettyArrayText(ops, items, depth, rest);
    if |items| > 0 {
      PrettyHead(ops, items[0], depth + 1);
      JoinHead(",\n" + Tabs(depth), parts, []);
      assert body + [] == body;
      assert items[..0] == [] && parts[0..] == parts;
      PrettyItemsRoundTrip(ops, Open(st, Array([]), false), items, depth, 0, w + ([']'] + rest));
    }
    ArrayLayout(ops, st, w, body, items, rest);
  }

  /** A comma, then whitespace before the next token. */
  lemma NextLine(ops: FloatOps, st: Builder, w: Bytes, b: Bytes)
    requires Valid(st) && AllWhitespace(w) && |b| > 0 && !IsWhitespace(b[0])
    ensures Run(ops, st, [','] + (w + b)) == Run(ops, st.(isName := st.current.Some? && IsJsonObject(st.current.value)), b)
  {
    RunComma(ops, st, w + b);
    RunSkipsWhitespace(ops, st.(isName := st.current.Some? && IsJsonObject(st.current.value)), w, b);
  }

  /** Whitespace, then `}`, whether or not a name is expected. */
  lemma CloseObjectLine(ops: FloatOps, st: Builder, w: Bytes, rest: Bytes)
    requires Valid(st) && AllWhitespace(w)
    ensures Run(ops, st, w + (['}'] + rest)) == Run(ops, st.(isName := false), ['}'] + rest)
  {
    RunSkipsWhitespace(ops, st, w, ['}'] + rest);
    RunCloseObjectIgnoresName(ops, st, rest);
  }

  /** The item separator splits into its comma and the next line's indentation. */
  lemma ItemSeparator(value: Bytes, tabs: Bytes, b: Bytes)
    ensures value + ((",\n" + tabs) + b) == value + ([','] + (("\n" + tabs) + b))
  {
    assert (",\n" + tabs) + b == [','] + (("\n" + tabs) + b);
  }

  /** The member separator splits into its comma and the next line break. */
  lemma CommaFirst(line: Bytes, b: Bytes)
    ensures "\n" + (line + (",\n" + b)) == "\n" + (line + ([','] + ("\n" + b)))
  {
    assert ",\n" + b == [','] + ("\n" + b);
  }

  /** The last item, then whatever closes the array. */
  lemma PrettyLastItem(ops: FloatOps, st: Builder, items: seq<Element>, depth: nat, tail: Bytes)
    requires |items| > 0 && ItemsPrettyPrintable(ops, items) && Delimited(tail)
    requires Valid(st) && !st.isName && st.current == Some(Array(items[..|items| - 1]))
    ensures Run(ops, st, Join(",\n" + Tabs(depth), PrettyItems(ops, items, depth + 1)[|items| - 1..]) + tail)
         == Run(ops, Builder(st.stack, Some(Array(items)), false), tail)
    decreases Array(items), 0, 1, 1
  {
    var k := |items| - 1;
    JoinFrom(",\n" + Tabs(depth), PrettyItems(ops, items, depth + 1), k, tail);
    assert items[..k] + [items[k]] == items;
    PrettyValueRoundTrip(ops, st, items[k], depth + 1, tail);
  }

  /** An item that is not the last, then its comma and the next line's indentation. */
  lemma PrettyItemThenComma(ops: FloatOps, st: Builder, items: seq<Element>, depth: nat, k: nat, more: Bytes, tail: Bytes)
    requires k < |items| - 1 && ItemsPrettyPrintable(ops, items)
    requires more == Join(",\n" + Tabs(depth), PrettyItems(ops, items, depth + 1)[k + 1..])
    requires Valid(st) && !st.isName && st.current == Some(Array(items[..k]))
    ensures Run(ops, st, Join(",\n" + Tabs(depth), PrettyItems(ops, items, depth + 1)[k..]) + tail)
         == Run(ops, Builder(st.stack, Some(Array(items[..k + 1])), false), more + tail)
    decreases Array(items), 0, |items| - k, 1
  {
    var sep := ",\n" + Tabs(depth);
    var parts := PrettyItems(ops, items, depth + 1);
    var after := Builder(st.stack, Some(Array(items[..k + 1])), false);
    var w := Indent(depth);
    assert items[..k] + [items[k]] == items[..k + 1];
    JoinFrom(sep, parts, k, tail);
    PrettyValueRoundTrip(ops, st, items[k], depth + 1, [','] + (w + (more + tail)));
    PrettyHead(ops, items[k + 1], depth + 1);
    JoinHead(sep, parts[k + 1..], tail);
    ItemSeparator(parts[k], Tabs(depth), more + tail);
    NextLine(ops, after, w, more + tail);
  }

  /** The items from the `k`-th on, each after a comma, a line break and the indentation. */
  lemma PrettyItemsRoundTrip(ops: FloatOps, st: Builder, items: seq<Element>, depth: nat, k: nat, tail: Bytes)
    requires k < |items| && ItemsPrettyPrintable(ops, items) && Delimited(tail)
    requires Valid(st) && !st.isName && st.current == Some(Array(items[..k]))
    ensures Run(ops, st, Join(",\n" + Tabs(depth), PrettyItems(ops, items, depth + 1)[k..]) + tail)
         == Run(ops, Builder(st.stack, Some(Array(items)), false), tail)
    decreases Array(items), 0, |items| - k, 2
  {
    if k == |items| - 1 {
      PrettyLastItem(ops, st, items, depth, tail);
    } else {
      var more := Join(",\n" + Tabs(depth), PrettyItems(ops, items, depth + 1)[k + 1..]);
      PrettyItemThenComma(ops, st, items, depth, k, more, tail);
      PrettyItemsRoundTrip(ops, Builder(st.stack, Some(Array(items[..k + 1])), false), items, depth, k + 1, tail);
    }
  }

  lemma PrettyObjectRoundTrip(ops: FloatOps, st: Builder, props: seq<Property>, depth: nat, rest: Bytes)
    requires Accepts(st) && |props| > 0 && MembersPrettyPrintable(ops, props) && Delimited(rest)
    ensures Run(ops, st, Pretty(ops, Object(props), depth) + rest) == Run(ops, AfterValue(st, Object(props)), rest)
    decreases Object(props), 0
  {
    var parts := PrettyMembers(ops, props, depth + 1);
    var body := Join(",\n", parts);
    PrettyObjectText(ops, props, depth, rest);
    var inner := Open(st, Object([]), true);
    RunOpenObject(ops, st, "\n" + (body + (Indent(depth) + (['}'] + rest))));
    assert props[..0] == [] && parts[0..] == parts;
    PrettyMembersRoundTrip(ops, inner, props, depth, 0, rest);
    CloseAccepts(st, Object(props), true);
    RunClose(ops, Builder(inner.stack, Some(Object(props)), false), true, rest);
  }

  /** Whitespace, then a property name. */
  lemma NameLine(ops: FloatOps, st: Builder, w: Bytes, name: Bytes, rest: Bytes)
    requires Valid(st) && st.isName && Verbatim(name) && st.current.Some? && st.current.value.Object?
    requires AllWhitespace(w)
    ensures Run(ops, st, w + (Quoted(name) + rest)) == Run(ops, AddName(st, name).value, rest)
  {
    RunSkipsWhitespace(ops, st, w, Quoted(name) + rest);
    RunName(ops, st, name, rest);
  }

  /** ` : ` between a name and its value. */
  lemma SpacedColon(ops: FloatOps, st: Builder, value: Bytes)
    requires Valid(st) && !st.isName && |value| > 0 && !IsWhitespace(value[0])
    ensures Run(ops, st, [' '] + ([':'] + ([' '] + value))) == Run(ops, st, value)
  {
    RunSkipsWhitespace(ops, st, [' '], [':'] + ([' '] + value));
    RunColon(ops, st, [' '] + value);
    RunSkipsWhitespace(ops, st, [' '], value);
  }

  /** A member line: a line break, indentation, the quoted name, ` : `, then the value's text. */
  lemma MemberLine(ops: FloatOps, st: Builder, tabs: Bytes, name: Bytes, value: Bytes, valueTail: Bytes)
    requires Valid(st) && st.isName && Verbatim(name) && st.current.Some? && st.current.value.Object?
    requires AllWhitespace(tabs) && |value| > 0 && !IsWhitespace(value[0])
    ensures Run(ops, st, "\n" + (tabs + Quoted(name) + " : " + value + valueTail))
         == Run(ops, AddName(st, name).value, value + valueTail)
  {
    var w := "\n" + tabs;
    assert AllWhitespace(w) by {
      assert forall i | 1 <= i < |w| :: w[i] == tabs[i - 1];
    }
    var afterName := [' '] + ([':'] + ([' '] + (value + valueTail)));
    assert "\n" + (tabs + Quoted(name) + " : " + value + valueTail) == w + (Quoted(name) + afterName);
    NameLine(ops, st, w, name, afterName);
    SpacedColon(ops, AddName(st, name).value, value + valueTail);
  }

  /** Reading the `k`-th name into an object holding the first `k` members. */
  lemma NameAccepted(st: Builder, props: seq<Property>, k: nat)
    requires k < |props| && Valid(st) && st.isName && st.current == Some(Object(props[..k]))
    ensures AddName(st, props[k].name).Ok?
    ensures var named := AddName(st, props[k].name).value;
      Accepts(named) && named.current.value.Object? && |named.current.value.properties| > 0 &&
      AfterValue(named, props[k].value) == Builder(st.stack, Some(Object(props[..k + 1])), props[k].value.Object?)
  {
    assert SetLastValue(props[..k] + [Property(props[k].name, Null)], props[k].value) == props[..k + 1];
  }

  /** One member on its own line: indentation, name, ` : ` and value. */
  lemma PrettyMemberRoundTrip(ops: FloatOps, st: Builder, props: seq<Property>, depth: nat, k: nat, valueTail: Bytes)
    requires k < |props| && MembersPrettyPrintable(ops, props) && Delimited(valueTail)
    requires Valid(st) && st.isName && st.current == Some(Object(props[..k]))
    ensures Run(ops, st, "\n" + (PrettyMembers(ops, props, depth + 1)[k] + valueTail))
         == Run(ops, Builder(st.stack, Some(Object(props[..k + 1])), props[k].value.Object?), valueTail)
    decreases Object(props), 0, |props| - k, 0
  {
    var p := props[k];
    NameAccepted(st, props, k);
    var value := Pretty(ops, p.value, depth + 1);
    PrettyHead(ops, p.value, depth + 1);
    TabsAreWhitespace(depth + 1);
    assert PrettyMembers(ops, props, depth + 1)[k] == Tabs(depth + 1) + Quoted(p.name) + " : " + value;
    MemberLine(ops, st, Tabs(depth + 1), p.name, value, valueTail);
    PrettyValueRoundTrip(ops, AddName(st, p.name).value, p.value, depth + 1, valueTail);
  }

  /** The last member, then the closing line. */
  lemma PrettyLastMember(ops: FloatOps, st: Builder, props: seq<Property>, depth: nat, rest: Bytes)
    requires |props| > 0 && MembersPrettyPrintable(ops, props)
    requires Valid(st) && st.isName && st.current == Some(Object(props[..|props| - 1]))
    ensures Run(ops, st, "\n" + (Join(",\n", PrettyMembers(ops, props, depth + 1)[|props| - 1..]) + (Indent(depth) + (['}'] + rest))))
         == Run(ops, Builder(st.stack, Some(Object(props)), false), ['}'] + rest)
    decreases Object(props), 0, 1, 1
  {
    var k := |props| - 1;
    var tail := Indent(depth) + (['}'] + rest);
    JoinFrom(",\n", PrettyMembers(ops, props, depth + 1), k, tail);
    PrettyMemberRoundTrip(ops, st, props, depth, k, tail);
    assert props[..k + 1] == props;
    CloseObjectLine(ops, Builder(st.stack, Some(Object(props)), props[k].value.Object?), Indent(depth), rest);
  }

  /** A member that is not the last, then its comma: the state is back in a name position before the next line. */
  lemma PrettyMemberThenComma(ops: FloatOps, st: Builder, props: seq<Property>, depth: nat, k: nat, more: Bytes, tail: Bytes)
    requires k < |props| - 1 && MembersPrettyPrintable(ops, props)
    requires more == Join(",\n", PrettyMembers(ops, props, depth + 1)[k + 1..])
    requires Valid(st) && st.isName && st.current == Some(Object(props[..k]))
    ensures Run(ops, st, "\n" + (Join(",\n", PrettyMembers(ops, props, depth + 1)[k..]) + tail))
         == Run(ops, Builder(st.stack, Some(Object(props[..k + 1])), true), "\n" + (more + tail))
    decreases Object(props), 0, |props| - k, 1
  {
    var parts := PrettyMembers(ops, props, depth + 1);
    var after := Builder(st.stack, Some(Object(props[..k + 1])), props[k].value.Object?);
    JoinFrom(",\n", parts, k, tail);
    PrettyMemberRoundTrip(ops, st, props, depth, k, [','] + ("\n" + (more + tail)));
    CommaFirst(parts[k], more + tail);
    RunComma(ops, after, "\n" + (more + tail));
  }

  /** The members from the `k`-th on, each after a line break, then the closing line. */
  lemma PrettyMembersRoundTrip(ops: FloatOps, st: Builder, props: seq<Property>, depth: nat, k: nat, rest: Bytes)
    requires k < |props| && MembersPrettyPrintable(ops, props)
    requires Valid(st) && st.isName && st.current == Some(Object(props[..k]))
    ensures Run(ops, st, "\n" + (Join(",\n", PrettyMembers(ops, props, depth + 1)[k..]) + (Indent(depth) + (['}'] + rest))))
         == Run(ops, Builder(st.stack, Some(Object(props)), false), ['}'] + rest)
    decreases Object(props), 0, |props| - k, 2
  {
    if k == |props| - 1 {
      PrettyLastMember(ops, st, props, depth, rest);
    } else {
      var more := Join(",\n", PrettyMembers(ops, props, depth + 1)[k + 1..]);
      PrettyMemberThenComma(ops, st, props, depth, k, more, Indent(depth) + (['}'] + rest));
      PrettyMembersRoundTrip(ops, Builder(st.stack, Some(Object(props[..k + 1])), true), props, depth, k + 1, rest);
    }
  }

  /** The indented text of an element it represents parses back to the element. */
  lemma PrettyRoundTrip(ops: FloatOps, e: Element)
    requires PrettyPrintable(ops, e)
    ensures Parse(ops, Pretty(ops, e, 0)) == Ok(Some(e))
  {
    PrettyValueRoundTrip(ops, Start, e, 0, []);
    assert Pretty(ops, e, 0) + [] == Pretty(ops, e, 0);
  }

  /**
   * Re-formatting: parsing either text of a printable element and printing
   * the result in the other layout gives that layout's text of the element.
   */
  lemma Reformat(ops: FloatOps, e: Element)
    requires Printable(ops, e)
    ensures Parse(ops, Pretty(ops, e, 0)) == Ok(Some(e)) && Parse(ops, Compact(ops, e)) == Ok(Some(e))
    ensures Compact(ops, Parse(ops, Pretty(ops, e, 0)).value.value) == Compact(ops, e)
    ensures Pretty(ops, Parse(ops, Compact(ops, e)).value.value, 0) == Pretty(ops, e, 0)
  {
    PrintableIsPrettyPrintable(ops, e);
    PrettyRoundTrip(ops, e);
    CompactRoundTrip(ops, e);
  }
}
