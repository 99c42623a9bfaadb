/**
 * The two emitters of the element classes: the compact `Print` and the
 * tab-indented `PrettyPrint`, both appending to a `StringBuilder`, and
 * `JsonElement.ToString`. `Compact` and `Pretty` specify the text each
 * emitter appends; the methods are proved to append exactly that text.
 */
module JsonPrinter {
  import opened JsonModel

  // ---------------------------------------------------------------------
  // Text helpers
  // ---------------------------------------------------------------------

  function DigitChar(d: nat): (c: Byte)
    requires d < 10
    ensures '0' <= c <= '9' && c as int - '0' as int == d
  {
    ('0' as int + d) as char
  }

  predicate AllDigits(s: Bytes)
  {
    forall i :: 0 <= i < |s| ==> '0' <= s[i] <= '9'
  }

  /** The decimal digits of a natural number, most significant first. */
  function Digits(n: nat): (s: Bytes)
    ensures |s| > 0 && AllDigits(s)
    ensures n < 10 <==> |s| == 1
    decreases n
  {
    if n < 10 then [DigitChar(n)] else Digits(n / 10) + [DigitChar(n % 10)]
  }

  /** The value a run of decimal digits denotes. */
  function DigitsValue(s: Bytes): nat
    requires AllDigits(s)
  {
    if |s| == 0 then 0 else DigitsValue(s[..|s| - 1]) * 10 + (s[|s| - 1] as int - '0' as int)
  }

  /** `$"{Value}"` of a `long`: an optional minus sign and the decimal digits. */
  function Decimal(n: int): (s: Bytes)
    ensures |s| > 0 && forall i :: 0 <= i < |s| ==> IsNumeric(s[i])
    ensures s[0] == '-' <==> n < 0
  {
    if n < 0 then ['-'] + Digits(-n) else Digits(n)
  }

  /** Reading the decimal text back gives the number again. */
  lemma {:induction false} DigitsRoundTrip(n: nat)
    ensures DigitsValue(Digits(n)) == n
    decreases n
  {
    if n >= 10 {
      DigitsRoundTrip(n / 10);
      var s := Digits(n);
      assert s[..|s| - 1] == Digits(n / 10);
    }
  }

  lemma DecimalRoundTrip(n: int)
    ensures n < 0 ==> Decimal(n)[0] == '-' && AllDigits(Decimal(n)[1..]) && -(DigitsValue(Decimal(n)[1..]) as int) == n
    ensures n >= 0 ==> AllDigits(Decimal(n)) && DigitsValue(Decimal(n)) == n
  {
    if n < 0 {
      DigitsRoundTrip(-n);
      assert Decimal(n)[1..] == Digits(-n);
    } else {
      DigitsRoundTrip(n);
    }
  }

  /** `new string('\t', depth)`. */
  function Tabs(depth: nat): Bytes
  {
    seq(depth, _ => '\t')
  }

  function Quoted(s: Bytes): Bytes
  {
    "\"" + s + "\""
  }

  /** The parts in order with `sep` between neighbours. */
  function Join(sep: Bytes, parts: seq<Bytes>): Bytes
  {
    if |parts| == 0 then []
    else if |parts| == 1 then parts[0]
    else parts[0] + sep + Join(sep, parts[1..])
  }

  /** Every part followed by `sep`: what the printing loops have written so far. */
  function Terminated(sep: Bytes, parts: seq<Bytes>): Bytes
  {
    if |parts| == 0 then [] else Terminated(sep, parts[..|parts| - 1]) + parts[|parts| - 1] + sep
  }

  /** The loops write all parts but the last with a separator, then the last one alone. */
  lemma {:induction false} JoinIsTerminatedThenLast(sep: Bytes, parts: seq<Bytes>)
    requires |parts| > 0
    ensures Join(sep, parts) == Terminated(sep, parts[..|parts| - 1]) + parts[|parts| - 1]
    decreases |parts|
  {
    if |parts| > 1 {
      var tail := parts[1..];
      JoinIsTerminatedThenLast(sep, tail);
      TerminatedCons(sep, parts[0], tail[..|tail| - 1]);
      assert [parts[0]] + tail[..|tail| - 1] == parts[..|parts| - 1];
    }
  }

  lemma {:induction false} TerminatedCons(sep: Bytes, head: Bytes, parts: seq<Bytes>)
    ensures Terminated(sep, [head] + parts) == head + sep + Terminated(sep, parts)
    decreases |parts|
  {
    if |parts| > 0 {
      var init := parts[..|parts| - 1];
      TerminatedCons(sep, head, init);
      assert ([head] + parts)[..|parts|] == [head] + init;
    }
  }

  /** One more loop iteration: the next part, then a separator. */
  lemma AppendPart(sep: Bytes, parts: seq<Bytes>, i: nat, start: Bytes, before: Bytes, mid: Bytes, after: Bytes)
    requires i < |parts|
    requires before == start + Terminated(sep, parts[..i])
    requires mid == before + parts[i] && after == mid + sep
    ensures after == start + Terminated(sep, parts[..i + 1])
  {
    assert parts[..i + 1][..i] == parts[..i];
  }

  /** After the loop: the last part alone completes the join. */
  lemma AppendLast(sep: Bytes, parts: seq<Bytes>, start: Bytes, before: Bytes, after: Bytes)
    requires |parts| > 0
    requires before == start + Terminated(sep, parts[..|parts| - 1])
    requires after == before + parts[|parts| - 1]
    ensures after == start + Join(sep, parts)
  {
    JoinIsTerminatedThenLast(sep, parts);
  }

  /** An opening, a body and a closing appended in turn add the three together. */
  lemma AppendFramed(before: Bytes, open: Bytes, headed: Bytes, inner: Bytes, body: Bytes, close: Bytes, after: Bytes)
    requires headed == before + open && body == headed + inner && after == body + close
    ensures after == before + (open + inner + close)
  {
  }

  /** Two appends in a row add their concatenation. */
  lemma AppendTwice(before: Bytes, head: Bytes, mid: Bytes, body: Bytes, after: Bytes)
    requires mid == before + head && after == mid + body
    ensures after == before + (head + body)
  {
  }

  // ---------------------------------------------------------------------
  // Specifications of the two emitters
  // ---------------------------------------------------------------------

  /** The text a primitive prints as, identical in both emitters and at every depth. */
  function PrimitiveText(ops: FloatOps, e: Element): Bytes
    requires !e.Array? && !e.Object?
  {
    match e
    case Null => NullText
    case Bool(b) => if b then TrueText else FalseText
    case Number(n) => Decimal(n)
    case Double(d) => ops.format(d)
    case String(s) => Quoted(s)
  }

  /** The text `Print` appends for `e`. */
  function Compact(ops: FloatOps, e: Element): Bytes
    decreases e
  {
    match e
    case Array(items) =>
      if |items| == 0 then []
      else "[" + Join(",", CompactItems(ops, items)) + "]"
    case Object(props) =>
      if |props| == 0 then []
      else "{" + Join(",", CompactMembers(ops, props)) + "}"
    case _ => PrimitiveText(ops, e)
  }

  function CompactItems(ops: FloatOps, items: seq<Element>): seq<Bytes>
    decreases Array(items), 0
  {
    seq(|items|, i requires 0 <= i < |items| => Compact(ops, items[i]))
  }

  function CompactMembers(ops: FloatOps, props: seq<Property>): seq<Bytes>
    decreases Object(props), 0
  {
    seq(|props|, i requires 0 <= i < |props| => Quoted(props[i].name) + ":" + Compact(ops, props[i].value))
  }

  /** The text `PrettyPrint(builder, depth)` appends for `e`. */
  function Pretty(ops: FloatOps, e: Element, depth: nat): Bytes
    decreases e
  {
    match e
    case Array(items) =>
      "[\n" + Tabs(depth) + Join(",\n" + Tabs(depth), PrettyItems(ops, items, depth + 1))
      + "\n" + Tabs(depth) + "]"
    case Object(props) =>
      if |props| == 0 then []
      else "{\n" + Join(",\n", PrettyMembers(ops, props, depth + 1)) + "\n" + Tabs(depth) + "}"
    case _ => PrimitiveText(ops, e)
  }

  /** The pretty text of an array: its opening line, the joined items, its closing line. */
  lemma PrettyArrayFrame(ops: FloatOps, items: seq<Element>, depth: nat)
    ensures Pretty(ops, Array(items), depth)
         == ("[\n" + Tabs(depth)) + Join(",\n" + Tabs(depth), PrettyItems(ops, items, depth + 1)) + ("\n" + Tabs(depth) + "]")
  {
  }

  function PrettyItems(ops: FloatOps, items: seq<Element>, depth: nat): seq<Bytes>
    decreases Array(items), 0
  {
    seq(|items|, i requires 0 <= i < |items| => Pretty(ops, items[i], depth))
  }

  /** Each member on its own line: the tabs, the quoted name, ` : ` and the value. */
  function PrettyMembers(ops: FloatOps, props: seq<Property>, depth: nat): seq<Bytes>
    decreases Object(props), 0
  {
    seq(|props|, i requires 0 <= i < |props| =>
      Tabs(depth) + Quoted(props[i].name) + " : " + Pretty(ops, props[i].value, depth))
  }

  // ---------------------------------------------------------------------
  // The emitters
  // ---------------------------------------------------------------------

  /** `System.Text.StringBuilder`, reduced to the appends the emitters use. */
  class StringBuilder {
    var text: Bytes

    constructor()
      ensures text == []
    {
      text := [];
    }

    method Append(s: Bytes)
      modifies this
      ensures text == old(text) + s
    {
      text := text + s;
    }
  }

  /** `Print` of every element class. */
  method Print(ops: FloatOps, e: Element, builder: StringBuilder)
    modifies builder
    ensures builder.text == old(builder.text) + Compact(ops, e)
    decreases e, 2
  {
    match e {
      case Array(items) => PrintArray(ops, items, builder);
      case Object(props) => PrintObject(ops, props, builder);
      case _ => builder.Append(PrimitiveText(ops, e));
    }
  }

  /** `JsonArray.Print`: nothing for an empty array. */
  method PrintArray(ops: FloatOps, items: seq<Element>, builder: StringBuilder)
    modifies builder
    ensures builder.text == old(builder.text) + Compact(ops, Array(items))
    decreases Array(items), 1
  {
    if |items| > 0 {
      builder.Append("[");
      PrintJoined(ops, items, builder);
      builder.Append("]");
    }
  }

  /** The loop of `JsonArray.Print`: every item but the last followed by a comma, then the last. */
  method PrintJoined(ops: FloatOps, items: seq<Element>, builder: StringBuilder)
    requires |items| > 0
    modifies builder
    ensures builder.text == old(builder.text) + Join(",", CompactItems(ops, items))
    decreases Array(items), 0
  {
    ghost var parts := CompactItems(ops, items);
    var l := |items| - 1;
    for i := 0 to l
      invariant builder.text == old(builder.text) + Terminated(",", parts[..i])
    {
      ghost var before := builder.text;
      Print(ops, items[i], builder);
      ghost var mid := builder.text;
      builder.Append(",");
      AppendPart(",", parts, i, old(builder.text), before, mid, builder.text);
    }
    ghost var before := builder.text;
    Print(ops, items[l], builder);
    AppendLast(",", parts, old(builder.text), before, builder.text);
  }

  /** `JsonObject.Print`: nothing for an object without properties. */
  method PrintObject(ops: FloatOps, props: seq<Property>, builder: StringBuilder)
    modifies builder
    ensures builder.text == old(builder.text) + Compact(ops, Object(props))
    decreases Object(props), 1
  {
    if |props| > 0 {
      builder.Append("{");
      PrintMembers(ops, props, builder);
      builder.Append("}");
    }
  }

  /** The loop of `JsonObject.Print`: `"name":value` per property, comma separated. */
  method PrintMembers(ops: FloatOps, props: seq<Property>, builder: StringBuilder)
    requires |props| > 0
    modifies builder
    ensures builder.text == old(builder.text) + Join(",", CompactMembers(ops, props))
    decreases Object(props), 0
  {
    ghost var parts := CompactMembers(ops, props);
    var l := |props| - 1;
    for i := 0 to l
      invariant builder.text == old(builder.text) + Terminated(",", parts[..i])
    {
      ghost var before := builder.text;
      builder.Append(Quoted(props[i].name) + ":");
      ghost var named := builder.text;
      Print(ops, props[i].value, builder);
      ghost var mid := builder.text;
      AppendTwice(before, Quoted(props[i].name) + ":", named, Compact(ops, props[i].value), mid);
      builder.Append(",");
      AppendPart(",", parts, i, old(builder.text), before, mid, builder.text);
    }
    ghost var before := builder.text;
    builder.Append(Quoted(props[l].name) + ":");
    ghost var named := builder.text;
    Print(ops, props[l].value, builder);
    AppendTwice(before, Quoted(props[l].name) + ":", named, Compact(ops, props[l].value), builder.text);
    AppendLast(",", parts, old(builder.text), before, builder.text);
  }

  /** `PrettyPrint` of every element class. */
  method PrettyPrint(ops: FloatOps, e: Element, builder: StringBuilder, depth: nat)
    modifies builder
    ensures builder.text == old(builder.text) + Pretty(ops, e, depth)
    decreases e, 2
  {
    match e {
      case Array(items) => PrettyPrintArray(ops, items, builder, depth);
      case Object(props) => PrettyPrintObject(ops, props, builder, depth);
      case _ => builder.Append(PrimitiveText(ops, e));
    }
  }

  /** `JsonArray.PrettyPrint`: written even when there are no items. */
  method PrettyPrintArray(ops: FloatOps, items: seq<Element>, builder: StringBuilder, depth: nat)
    modifies builder
    ensures builder.text == old(builder.text) + Pretty(ops, Array(items), depth)
    decreases Array(items), 1
  {
    ghost var start := builder.text;
    var open := "[\n" + Tabs(depth);
    var close := "\n" + Tabs(depth) + "]";
    builder.Append(open);
    ghost var headed := builder.text;
    if |items| > 0 {
      PrettyPrintJoined(ops, items, builder, depth);
    }
    ghost var body := builder.text;
    builder.Append(close);
    PrettyArrayFrame(ops, items, depth);
    AppendFramed(start, open, headed, Join(",\n" + Tabs(depth), PrettyItems(ops, items, depth + 1)), body, close, builder.text);
  }

  /** The loop of `JsonArray.PrettyPrint`: items one level deeper, separated by a comma, a newline and the tabs. */
  method PrettyPrintJoined(ops: FloatOps, items: seq<Element>, builder: StringBuilder, depth: nat)
    requires |items| > 0
    modifies builder
    ensures builder.text == old(builder.text) + Join(",\n" + Tabs(depth), PrettyItems(ops, items, depth + 1))
    decreases Array(items), 0
  {
    ghost var parts := PrettyItems(ops, items, depth + 1);
    var sep := ",\n" + Tabs(depth);
    var l := |items| - 1;
    for i := 0 to l
      invariant builder.text == old(builder.text) + Terminated(sep, parts[..i])
    {
      ghost var before := builder.text;
      PrettyPrint(ops, items[i], builder, depth + 1);
      ghost var mid := builder.text;
      builder.Append(sep);
      AppendPart(sep, parts, i, old(builder.text), before, mid, builder.text);
    }
    ghost var before := builder.text;
    PrettyPrint(ops, items[l], builder, depth + 1);
    AppendLast(sep, parts, old(builder.text), before, builder.text);
  }

  /** `JsonObject.PrettyPrint`: one member per line, nothing for an empty object. */
  method PrettyPrintObject(ops: FloatOps, props: seq<Property>, builder: StringBuilder, depth: nat)
    modifies builder
    ensures builder.text == old(builder.text) + Pretty(ops, Object(props), depth)
    decreases Object(props), 1
  {
    if |props| > 0 {
      builder.Append("{\n");
      PrettyPrintMembers(ops, props, builder, depth + 1);
      builder.Append("\n" + Tabs(depth) + "}");
    }
  }

  /** The loop of `JsonObject.PrettyPrint`, at the members' depth. */
  method PrettyPrintMembers(ops: FloatOps, props: seq<Property>, builder: StringBuilder, depth: nat)
    requires |props| > 0
    modifies builder
    ensures builder.text == old(builder.text) + Join(",\n", PrettyMembers(ops, props, depth))
    decreases Object(props), 0
  {
    ghost var parts := PrettyMembers(ops, props, depth);
    var l := |props| - 1;
    for i := 0 to l
      invariant builder.text == old(builder.text) + Terminated(",\n", parts[..i])
    {
      ghost var before := builder.text;
      builder.Append(Tabs(depth) + Quoted(props[i].name) + " : ");
      ghost var named := builder.text;
      PrettyPrint(ops, props[i].value, builder, depth);
      ghost var mid := builder.text;
      AppendTwice(before, Tabs(depth) + Quoted(props[i].name) + " : ", named, Pretty(ops, props[i].value, depth), mid);
      builder.Append(",\n");
      AppendPart(",\n", parts, i, old(builder.text), before, mid, builder.text);
    }
    ghost var before := builder.text;
    builder.Append(Tabs(depth) + Quoted(props[l].name) + " : ");
    ghost var named := builder.text;
    PrettyPrint(ops, props[l].value, builder, depth);
    AppendTwice(before, Tabs(depth) + Quoted(props[l].name) + " : ", named, Pretty(ops, props[l].value, depth), builder.text);
    AppendLast(",\n", parts, old(builder.text), before, builder.text);
  }

  /** `JsonElement.ToString`: the compact text. */
  method ToString(ops: FloatOps, e: Element) returns (s: Bytes)
    ensures s == Compact(ops, e)
  {
    var builder := new StringBuilder();
    Print(ops, e, builder);
    s := builder.text;
  }

  // ---------------------------------------------------------------------
  // Layout facts
  // ---------------------------------------------------------------------

  /** Primitives print the same in both emitters and at every depth. */
  lemma PrimitivesIgnoreDepth(ops: FloatOps, e: Element, d1: nat, d2: nat)
    requires !e.Array? && !e.Object?
    ensures Pretty(ops, e, d1) == Pretty(ops, e, d2) == Compact(ops, e)
  {
  }

  /** Empty containers: the compact emitter writes nothing for both, the pretty one only for objects. */
  lemma EmptyContainers(ops: FloatOps, depth: nat)
    ensures Compact(ops, Array([])) == [] && Compact(ops, Object([])) == []
    ensures Pretty(ops, Object([]), depth) == []
    ensures Pretty(ops, Array([]), depth) == "[\n" + Tabs(depth) + "\n" + Tabs(depth) + "]"
  {
  }

  // ---------------------------------------------------------------------
  // The array of the element tests' fixture
  // ---------------------------------------------------------------------

  lemma JoinFive(sep: Bytes, a: Bytes, b: Bytes, c: Bytes, d: Bytes, e: Bytes)
    ensures Join(sep, [a, b, c, d, e]) == a + (sep + (b + (sep + (c + (sep + (d + (sep + e)))))))
  {
    var p := [a, b, c, d, e];
    assert p[4..] == [e] && p[3..][1..] == p[4..] && p[2..][1..] == p[3..] && p[1..][1..] == p[2..];
    assert Join(sep, p[3..]) == d + sep + e;
    assert Join(sep, p[2..]) == c + sep + Join(sep, p[3..]);
    assert Join(sep, p[1..]) == b + sep + Join(sep, p[2..]);
  }

  lemma SmallDecimals()
    ensures Decimal(-1) == "-1" && Decimal(0) == "0" && Decimal(1) == "1" && Decimal(2) == "2" && Decimal(3) == "3"
  {
  }

  lemma PrettyFixtureText(t: Bytes)
    requires t == "[\n\t" + ("-1" + (",\n\t" + ("0" + (",\n\t" + ("1" + (",\n\t" + ("2" + (",\n\t" + "3")))))))) + "\n\t]"
    ensures t == "[\n\t-1,\n\t0,\n\t1,\n\t2,\n\t3\n\t]"
  {
  }

  lemma CompactFixtureText(t: Bytes)
    requires t == "[" + ("-1" + ("," + ("0" + ("," + ("1" + ("," + ("2" + ("," + "3")))))))) + "]"
    ensures t == "[-1,0,1,2,3]"
  {
  }

  /** `[-1,0,1,2,3]` pretty-printed at depth 1, as in the fixture: one item per line, all at the array's own depth. */
  lemma PrettyArrayFixture(ops: FloatOps)
    ensures Pretty(ops, Array([Number(-1), Number(0), Number(1), Number(2), Number(3)]), 1)
         == "[\n\t-1,\n\t0,\n\t1,\n\t2,\n\t3\n\t]"
  {
    var items := [Number(-1), Number(0), Number(1), Number(2), Number(3)];
    SmallDecimals();
    assert Tabs(1) == "\t";
    assert "[\n" + Tabs(1) == "[\n\t" && "\n" + Tabs(1) + "]" == "\n\t]" && ",\n" + Tabs(1) == ",\n\t";
    assert PrettyItems(ops, items, 2) == ["-1", "0", "1", "2", "3"];
    JoinFive(",\n\t", "-1", "0", "1", "2", "3");
    PrettyArrayFrame(ops, items, 1);
    PrettyFixtureText(Pretty(ops, Array(items), 1));
  }

  /** The same array compact-printed. */
  lemma CompactArrayFixture(ops: FloatOps)
    ensures Compact(ops, Array([Number(-1), Number(0), Number(1), Number(2), Number(3)])) == "[-1,0,1,2,3]"
  {
    var items := [Number(-1), Number(0), Number(1), Number(2), Number(3)];
    SmallDecimals();
    assert CompactItems(ops, items) == ["-1", "0", "1", "2", "3"];
    JoinFive(",", "-1", "0", "1", "2", "3");
    CompactFixtureText(Compact(ops, Array(items)));
  }
}
