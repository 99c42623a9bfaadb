/**
 * The element test of the JSON library: a sample document in its compact
 * form and in its pretty form. Parsing either and printing it in the other
 * layout gives the other text.
 */
module JsonFixture {
  import opened Wrappers
  import opened JsonModel
  import opened JsonTokenizer
  import opened JsonParser
  import opened JsonPrinter
  import opened JsonRoundTrip
  import opened JsonExtensions

  // The two texts of the test, written member by member (and, for the
  // pretty one, line by line); joined they are the test's two literals.

  /** The nested object in compact form. */
  const InnerSample: Bytes := "{" + "\"name\":\"test\"" + "," + "\"int\":2" + "," + "\"float\":1.234" + "}"

  /** The compact sample text of the test. */
  const Sample: Bytes := "{" + ("\"obj1\":" + InnerSample) + "," + ("\"arr\":" + "[-1,0,1,2,3]") + "," + ("\"missing\":" + "null") + "}"

  /** The nested object in pretty form, printed at depth 1. */
  const PrettyInner: Bytes := "{\n" + ("\t\t\"name\" : " + "\"test\"") + ",\n" + ("\t\t\"int\" : " + "2") + ",\n" + ("\t\t\"float\" : " + "1.234") + "\n\t}"

  /** The array in pretty form, printed at depth 1. */
  const PrettyItemsSample: Bytes := "[\n\t-1,\n\t0,\n\t1,\n\t2,\n\t3\n\t]"

  /** The pretty sample text of the test. */
  const PrettySample: Bytes := "{\n" + ("\t\"obj1\" : " + PrettyInner) + ",\n" + ("\t\"arr\" : " + PrettyItemsSample) + ",\n" + ("\t\"missing\" : " + "null") + "\n}"

  /** The nested object of the sample, with `d` the double that prints as `1.234`. */
  function Inner(d: Float): Element
  {
    Object([Property("name", String("test")), Property("int", Number(2)), Property("float", Double(d))])
  }

  function Items(): Element
  {
    Array([Number(-1), Number(0), Number(1), Number(2), Number(3)])
  }

  /** The document both texts describe. */
  function Document(d: Float): Element
  {
    Object([Property("obj1", Inner(d)), Property("arr", Items()), Property("missing", Null)])
  }

  /** `Double.Parse` and the `double` text behave on the sample's numbers as the test relies on. */
  predicate SampleNumbersReadBack(ops: FloatOps, d: Float)
  {
    ops.format(d) == "1.234" && ops.parse("1.234") == Some(d) && !ops.isIntegral(d)
    && IntReadsBack(ops, -1) && IntReadsBack(ops, 0) && IntReadsBack(ops, 1)
    && IntReadsBack(ops, 2) && IntReadsBack(ops, 3)
  }

  lemma JoinThree(sep: Bytes, a: Bytes, b: Bytes, c: Bytes)
    ensures Join(sep, [a, b, c]) == a + (sep + (b + (sep + c)))
  {
    var p := [a, b, c];
    assert p[2..] == [c] && p[1..][1..] == p[2..];
    assert Join(sep, p[1..]) == b + sep + c;
  }

  // ---------------------------------------------------------------------
  // The compact text
  // ---------------------------------------------------------------------

  /** Regrouping a joined text of three parts inside its brackets. */
  lemma Bracketed(open: Bytes, a: Bytes, sep: Bytes, b: Bytes, c: Bytes, close: Bytes)
    ensures open + (a + (sep + (b + (sep + c)))) + close == open + a + sep + b + sep + c + close
  {
  }

  lemma InnerCompactMembers(ops: FloatOps, d: Float)
    requires ops.format(d) == "1.234"
    ensures CompactMembers(ops, Inner(d).properties) == ["\"name\":\"test\"", "\"int\":2", "\"float\":1.234"]
  {
    SmallDecimals();
    var m := CompactMembers(ops, Inner(d).properties);
    assert m[0] == "\"name\":\"test\"";
    assert m[1] == "\"int\":2";
    assert m[2] == "\"float\":1.234";
  }

  lemma InnerCompact(ops: FloatOps, d: Float)
    requires ops.format(d) == "1.234"
    ensures Compact(ops, Inner(d)) == InnerSample
  {
    InnerCompactMembers(ops, d);
    JoinThree(",", "\"name\":\"test\"", "\"int\":2", "\"float\":1.234");
    Bracketed("{", "\"name\":\"test\"", ",", "\"int\":2", "\"float\":1.234", "}");
  }

  /** A member's compact text: its quoted name, a colon, its value's text. */
  lemma CompactMember(name: Bytes, quoted: Bytes, t: Bytes)
    requires Quoted(name) + ":" == quoted
    ensures Quoted(name) + ":" + t == quoted + t
  {
  }

  lemma DocumentCompactMembers(ops: FloatOps, d: Float)
    requires ops.format(d) == "1.234"
    ensures CompactMembers(ops, Document(d).properties)
         == ["\"obj1\":" + InnerSample, "\"arr\":" + "[-1,0,1,2,3]", "\"missing\":" + "null"]
  {
    InnerCompact(ops, d);
    CompactArrayFixture(ops);
    CompactMember("obj1", "\"obj1\":", InnerSample);
    CompactMember("arr", "\"arr\":", "[-1,0,1,2,3]");
    CompactMember("missing", "\"missing\":", "null");
  }

  /** The document prints as the compact sample. */
  lemma CompactSample(ops: FloatOps, d: Float)
    requires ops.format(d) == "1.234"
    ensures Compact(ops, Document(d)) == Sample
  {
    DocumentCompactMembers(ops, d);
    var a, b, c := "\"obj1\":" + InnerSample, "\"arr\":" + "[-1,0,1,2,3]", "\"missing\":" + "null";
    JoinThree(",", a, b, c);
    Bracketed("{", a, ",", b, c, "}");
  }

  // ---------------------------------------------------------------------
  // The pretty text
  // ---------------------------------------------------------------------

  /** The pretty text of a non-empty object: its opening line, the joined members, its closing line. */
  lemma PrettyObjectFrame(ops: FloatOps, props: seq<Property>, depth: nat)
    requires |props| > 0
    ensures Pretty(ops, Object(props), depth)
         == "{\n" + Join(",\n", PrettyMembers(ops, props, depth + 1)) + ("\n" + Tabs(depth) + "}")
  {
  }

  /** A member's pretty line: its tabs, its quoted name, ` : `, its value's text. */
  lemma PrettyMember(depth: nat, name: Bytes, head: Bytes, t: Bytes)
    requires Tabs(depth) + Quoted(name) + " : " == head
    ensures Tabs(depth) + Quoted(name) + " : " + t == head + t
  {
  }

  lemma InnerHeads()
    ensures Tabs(2) + Quoted("name") + " : " == "\t\t\"name\" : "
    ensures Tabs(2) + Quoted("int") + " : " == "\t\t\"int\" : "
    ensures Tabs(2) + Quoted("float") + " : " == "\t\t\"float\" : "
  {
    assert Tabs(2) == "\t\t";
  }

  lemma DocumentHeads()
    ensures Tabs(1) + Quoted("obj1") + " : " == "\t\"obj1\" : "
    ensures Tabs(1) + Quoted("arr") + " : " == "\t\"arr\" : "
    ensures Tabs(1) + Quoted("missing") + " : " == "\t\"missing\" : "
  {
    assert Tabs(1) == "\t";
  }

  lemma InnerPrettyMembers(ops: FloatOps, d: Float)
    requires ops.format(d) == "1.234"
    ensures PrettyMembers(ops, Inner(d).properties, 2)
         == ["\t\t\"name\" : " + "\"test\"", "\t\t\"int\" : " + "2", "\t\t\"float\" : " + "1.234"]
  {
    SmallDecimals();
    InnerHeads();
    assert Quoted("test") == "\"test\"";
    PrettyMember(2, "name", "\t\t\"name\" : ", "\"test\"");
    PrettyMember(2, "int", "\t\t\"int\" : ", "2");
    PrettyMember(2, "float", "\t\t\"float\" : ", "1.234");
  }

  lemma InnerPretty(ops: FloatOps, d: Float)
    requires ops.format(d) == "1.234"
    ensures Pretty(ops, Inner(d), 1) == PrettyInner
  {
    InnerPrettyMembers(ops, d);
    PrettyObjectFrame(ops, Inner(d).properties, 1);
    assert "\n" + Tabs(1) + "}" == "\n\t}";
    var a, b, c := "\t\t\"name\" : " + "\"test\"", "\t\t\"int\" : " + "2", "\t\t\"float\" : " + "1.234";
    JoinThree(",\n", a, b, c);
    Bracketed("{\n", a, ",\n", b, c, "\n\t}");
  }

  lemma DocumentPrettyMembers(ops: FloatOps, d: Float)
    requires ops.format(d) == "1.234"
    ensures PrettyMembers(ops, Document(d).properties, 1)
         == ["\t\"obj1\" : " + PrettyInner, "\t\"arr\" : " + PrettyItemsSample, "\t\"missing\" : " + "null"]
  {
    InnerPretty(ops, d);
    PrettyArrayFixture(ops);
    DocumentHeads();
    PrettyMember(1, "obj1", "\t\"obj1\" : ", PrettyInner);
    PrettyMember(1, "arr", "\t\"arr\" : ", PrettyItemsSample);
    PrettyMember(1, "missing", "\t\"missing\" : ", "null");
  }

  /** The document prints as the pretty sample. */
  lemma PrettySampleText(ops: FloatOps, d: Float)
    requires ops.format(d) == "1.234"
    ensures Pretty(ops, Document(d), 0) == PrettySample
  {
    DocumentPrettyMembers(ops, d);
    PrettyObjectFrame(ops, Document(d).properties, 0);
    assert "\n" + Tabs(0) + "}" == "\n}";
    var a, b, c := "\t\"obj1\" : " + PrettyInner, "\t\"arr\" : " + PrettyItemsSample, "\t\"missing\" : " + "null";
    JoinThree(",\n", a, b, c);
    Bracketed("{\n", a, ",\n", b, c, "\n}");
  }

  // ---------------------------------------------------------------------
  // The test
  // ---------------------------------------------------------------------

  /** Without a backslash no position is escaped. */
  lemma {:induction false} UnescapedWithoutBackslash(s: Bytes, i: nat)
    requires i <= |s| && forall k :: 0 <= k < |s| ==> s[k] != '\\'
    ensures !Escaped(s, i)
    decreases i
  {
    if i > 0 {
      UnescapedWithoutBackslash(s, i - 1);
    }
  }

  /** A name without quotes and backslashes is written as it is. */
  lemma PlainVerbatim(s: Bytes)
    requires forall k :: 0 <= k < |s| ==> s[k] != '\\' && s[k] != '"'
    ensures Verbatim(s)
  {
    forall i | 0 <= i <= |s|
      ensures !Escaped(s, i)
    {
      UnescapedWithoutBackslash(s, i);
    }
  }

  /** The nested object is printable: verbatim names and string, numbers that read back. */
  lemma InnerPrintable(ops: FloatOps, d: Float)
    requires SampleNumbersReadBack(ops, d)
    ensures Printable(ops, Inner(d))
  {
    PlainVerbatim("test");
    PlainVerbatim("name");
    PlainVerbatim("int");
    PlainVerbatim("float");
    assert DoubleReadsBack(ops, d) by {
      assert forall i :: 0 <= i < |ops.format(d)| ==> IsNumeric(ops.format(d)[i]);
    }
    assert MembersPrintable(ops, Inner(d).properties);
  }

  /** Every container of the document is non-empty, every name and string is verbatim and every number reads back. */
  lemma DocumentPrintable(ops: FloatOps, d: Float)
    requires SampleNumbersReadBack(ops, d)
    ensures Printable(ops, Document(d))
  {
    InnerPrintable(ops, d);
    PlainVerbatim("obj1");
    PlainVerbatim("arr");
    PlainVerbatim("missing");
    assert ItemsPrintable(ops, Items().items);
    assert MembersPrintable(ops, Document(d).properties);
  }

  /**
   * The element test: `AsJson` reads both samples as the document, and
   * `ToJson` of each in the other layout (`Pretty` for `ToJson(true)`,
   * `Compact` for `ToJson()`) gives the other sample.
   */
  lemma ElementSerialization(ops: FloatOps, d: Float)
    requires SampleNumbersReadBack(ops, d)
    ensures AsJson(ops, Some(Sample)) == Ok(Some(Document(d)))
    ensures AsJson(ops, Some(PrettySample)) == Ok(Some(Document(d)))
    ensures Pretty(ops, AsJson(ops, Some(Sample)).value.value, 0) == PrettySample
    ensures Compact(ops, AsJson(ops, Some(PrettySample)).value.value) == Sample
  {
    DocumentPrintable(ops, d);
    CompactSample(ops, d);
    PrettySampleText(ops, d);
    Reformat(ops, Document(d));
  }
}
