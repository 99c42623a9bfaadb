/**
 * Properties of the scanners and of the two parser loops: how whitespace,
 * quoted strings and literals are read, what the parser does with inputs at
 * the edges (empty, unbalanced, trailing whitespace), and how the chunked
 * `ParseAsync` loop relates to `ParseBuffer`.
 */
module JsonParserFacts {
  import opened Wrappers
  import opened JsonModel
  import opened JsonTokenizer
  import opened JsonParser

  // ---------------------------------------------------------------------
  // Whitespace
  // ---------------------------------------------------------------------

  lemma {:induction false} LeadingWhitespaceSkips(ws: Bytes, b: Bytes)
    requires AllWhitespace(ws) && |b| > 0 && !IsWhitespace(b[0])
    ensures LeadingWhitespace(ws + b) == |ws|
    decreases |ws|
  {
    if |ws| > 0 {
      assert (ws + b)[1..] == ws[1..] + b;
      LeadingWhitespaceSkips(ws[1..], b);
    } else {
      assert (ws + b)[0] == b[0];
    }
  }

  /** Whitespace in front of a token is dropped. */
  lemma TrimmedSkips(ws: Bytes, b: Bytes)
    requires AllWhitespace(ws) && |b| > 0 && !IsWhitespace(b[0])
    ensures Trimmed(ws + b) == b
  {
    LeadingWhitespaceSkips(ws, b);
    assert (ws + b)[|ws|..] == b;
  }

  /** The parser reads a buffer the same with or without whitespace in front of a token. */
  lemma RunSkipsWhitespace(ops: FloatOps, st: Builder, ws: Bytes, b: Bytes)
    requires Valid(st) && AllWhitespace(ws) && |b| > 0 && !IsWhitespace(b[0])
    ensures Run(ops, st, ws + b) == Run(ops, st, b)
  {
    TrimmedSkips(ws, b);
    TrimmedSkips([], b);
    assert [] + b == b;
  }

  /** No token starts with whitespace. */
  lemma NoTokenInWhitespace(ops: FloatOps, ws: Bytes)
    requires |ws| > 0 && AllWhitespace(ws)
    ensures Trimmed(ws) == ws
    ensures ScanString(ws) == NoString && ScanPrimitive(ops, ws) == NoPrimitive
  {
    assert forall i :: 0 <= i < |ws| ==> !IsQuoteAt(ws, i);
    assert NextQuote(ws, 0) == |ws|;
  }

  /**
   * A buffer left holding only whitespace is an error: `Trim` keeps an
   * all-whitespace buffer and no branch of the `switch` accepts its first byte.
   */
  lemma WhitespaceTailFails(ops: FloatOps, st: Builder, ws: Bytes)
    requires Valid(st) && |ws| > 0 && AllWhitespace(ws)
    ensures Run(ops, st, ws) == Err(InvalidJsonFormat(UnparsableBuffer))
  {
    NoTokenInWhitespace(ops, ws);
    assert Switch(ops, st, ws) == TokenStep(ops, st, ws);
    assert TokenStep(ops, st, ws) == NoToken(ws);
  }

  // ---------------------------------------------------------------------
  // Single steps of the switch
  // ---------------------------------------------------------------------

  /** The bytes the `switch` handles itself. */
  predicate Structural(c: Byte)
  {
    c == '[' || c == ']' || c == '{' || c == '}' || c == ',' || c == ':'
  }

  /** A buffer that starts with a token is not trimmed. */
  lemma StepAtToken(ops: FloatOps, st: Builder, b: Bytes)
    requires Valid(st) && |b| > 0 && !IsWhitespace(b[0])
    ensures StepSpec(ops, st, b) == Switch(ops, st, b)
  {
    TrimmedSkips([], b);
    assert [] + b == b;
  }

  /** Outside a name position, a primitive token goes into `current`. */
  lemma StepPrimitive(ops: FloatOps, st: Builder, b: Bytes, e: Element, rest: Bytes)
    requires Valid(st) && !st.isName && |b| > 0 && !IsWhitespace(b[0]) && !Structural(b[0])
    requires ScanPrimitive(ops, b) == Primitive(e, rest)
    ensures StepSpec(ops, st, b) == Lift(AttachPrimitive(st, e), rest)
  {
    StepAtToken(ops, st, b);
  }

  /** In a name position, a quoted token becomes a new property. */
  lemma StepName(ops: FloatOps, st: Builder, b: Bytes, name: Bytes, rest: Bytes)
    requires Valid(st) && st.isName && |b| > 0 && b[0] == '"' && ScanString(b) == Token(name, rest)
    ensures StepSpec(ops, st, b) == Lift(AddName(st, name), rest)
  {
    StepAtToken(ops, st, b);
  }

  /** A structural byte is dispatched on directly and consumed. */
  lemma StepStructural(ops: FloatOps, st: Builder, c: Byte, rest: Bytes)
    requires Valid(st) && Structural(c)
    ensures StepSpec(ops, st, [c] + rest) == Switch(ops, st, [c] + rest)
    ensures ([c] + rest)[0] == c && ([c] + rest)[1..] == rest
  {
    StepAtToken(ops, st, [c] + rest);
  }

  // ---------------------------------------------------------------------
  // Quoted strings and literals
  // ---------------------------------------------------------------------

  /** After a leading byte that is no backslash, escaping restarts from scratch. */
  lemma {:induction false} EscapedAfterHead(q: Byte, s: Bytes, t: Bytes, j: nat)
    requires q != '\\' && j <= |s|
    ensures Escaped([q] + s + t, j + 1) == Escaped(s, j)
  {
    var b := [q] + s + t;
    if j == 0 {
      assert Escaped(b, 0) == false;
      assert b[0] == q;
    } else {
      EscapedAfterHead(q, s, t, j - 1);
      assert b[j] == s[j - 1];
    }
  }

  /** A quoted token whose content is `Verbatim` scans back to exactly its content. */
  lemma ScanQuoted(s: Bytes, rest: Bytes)
    requires Verbatim(s)
    ensures ScanString(['"'] + s + ['"'] + rest) == Token(s, rest)
  {
    var b := ['"'] + s + ['"'] + rest;
    assert b == ['"'] + s + (['"'] + rest);
    assert NextQuote(b, 0) == 0;
    forall i | 1 <= i <= |s|
      ensures !IsQuoteAt(b, i)
    {
      EscapedAfterHead('"', s, ['"'] + rest, i - 1);
      assert b[i] == s[i - 1] && !IsQuoteAt(s, i - 1);
    }
    EscapedAfterHead('"', s, ['"'] + rest, |s|);
    assert IsQuoteAt(b, |s| + 1);
    assert NextQuote(b, 1) == |s| + 1;
    assert b[1 .. |s| + 1] == s;
    assert b[|s| + 2..] == rest;
  }

  /** A backslash escapes the quote after it, so a quote inside a token can be written as `\"`. */
  lemma BackslashedQuotesVerbatim()
    ensures Verbatim("\\\"test\\\"")
  {
    var s: Bytes := "\\\"test\\\"";
    assert Escaped(s, 1) && !Escaped(s, 2) && !Escaped(s, 3) && !Escaped(s, 4);
    assert !Escaped(s, 5) && !Escaped(s, 6) && Escaped(s, 7) && !Escaped(s, 8);
  }

  /** The primitive scanner reads a whole quoted document as one string token. */
  lemma QuotedStringScans(ops: FloatOps, s: Bytes)
    requires Verbatim(s) && |s| > 0
    ensures ScanPrimitive(ops, ['"'] + s + ['"']) == Primitive(String(s), [])
  {
    var b := ['"'] + s + ['"'];
    assert b == ['"'] + s + ['"'] + [];
    ScanQuoted(s, []);
    TrimmedSkips([], b);
    assert [] + b == b;
  }

  /** A document holding one quoted string parses to that string, byte for byte. */
  lemma QuotedStringParses(ops: FloatOps, s: Bytes)
    requires Verbatim(s) && |s| > 0
    ensures Parse(ops, ['"'] + s + ['"']) == Ok(Some(String(s)))
  {
    var b := ['"'] + s + ['"'];
    QuotedStringScans(ops, s);
    StepPrimitive(ops, Start, b, String(s), []);
    var next := Builder([], Some(String(s)), false);
    assert StepSpec(ops, Start, b) == Advanced(next, []);
    assert Run(ops, next, []) == Ok(Some(String(s)));
  }

  /** The escapes are not decoded: the backslashes stay in the string value. */
  lemma EscapedQuotesKept(ops: FloatOps)
    ensures Parse(ops, "\"\\\"test\\\"\"") == Ok(Some(String("\\\"test\\\"")))
  {
    var s: Bytes := "\\\"test\\\"";
    BackslashedQuotesVerbatim();
    QuotedStringParses(ops, s);
    EscapedQuotesText(s);
  }

  /** The test document is the escaped content between two quotes. */
  lemma EscapedQuotesText(s: Bytes)
    requires s == "\\\"test\\\""
    ensures ['"'] + s + ['"'] == "\"\\\"test\\\"\""
  {
  }

  /**
   * When the first unescaped quote is not at the head of the buffer, the
   * token runs past the closing quote (its end is `open + close`), or the
   * slice is out of range.
   */
  lemma OffsetQuoteOverruns()
    ensures ScanString("a\"b\"") == Token("b\"", [])
    ensures ScanString("ab\"c\"") == TokenOutOfRange
  {
    var b1: Bytes := "a\"b\"";
    assert !IsQuoteAt(b1, 0) && IsQuoteAt(b1, 1) && !IsQuoteAt(b1, 2) && IsQuoteAt(b1, 3);
    assert NextQuote(b1, 0) == 1 && NextQuote(b1, 2) == 3;
    var b2: Bytes := "ab\"c\"";
    assert !IsQuoteAt(b2, 0) && !IsQuoteAt(b2, 1) && IsQuoteAt(b2, 2);
    assert !IsQuoteAt(b2, 3) && IsQuoteAt(b2, 4);
    assert NextQuote(b2, 0) == 2 && NextQuote(b2, 3) == 4;
  }

  /** The literal tests look at the literal's own bytes only: whatever follows is left in the buffer. */
  lemma NullIgnoresWhatFollows(ops: FloatOps, rest: Bytes)
    ensures ScanPrimitive(ops, NullText + rest) == Primitive(Null, rest)
  {
    var t := NullText + rest;
    TrimmedSkips([], t);
    assert [] + t == t && t[1..4] == "ull" && t[4..] == rest;
  }

  lemma TrueIgnoresWhatFollows(ops: FloatOps, rest: Bytes)
    ensures ScanPrimitive(ops, TrueText + rest) == Primitive(Bool(true), rest)
  {
    var t := TrueText + rest;
    TrimmedSkips([], t);
    assert [] + t == t && t[1..4] == "rue" && t[4..] == rest;
  }

  lemma FalseIgnoresWhatFollows(ops: FloatOps, rest: Bytes)
    ensures ScanPrimitive(ops, FalseText + rest) == Primitive(Bool(false), rest)
  {
    var t := FalseText + rest;
    TrimmedSkips([], t);
    assert [] + t == t && t[1..5] == "alse" && t[5..] == rest;
  }

  // ---------------------------------------------------------------------
  // Edge cases of ParseBuffer
  // ---------------------------------------------------------------------

  /** An empty buffer is a null result. */
  lemma ParseEmpty(ops: FloatOps)
    ensures Parse(ops, []) == Ok(None)
  {
  }

  /** Nothing checks that every container was closed: an unfinished object is returned as it is. */
  lemma UnclosedObjectAccepted(ops: FloatOps)
    ensures Parse(ops, "{") == Ok(Some(Object([])))
  {
    var b: Bytes := "{";
    TrimmedSkips([], b);
    assert [] + b == b && b[1..] == [];
  }

  /** A closing bracket with nothing open pops an empty stack. */
  lemma UnopenedCloseFails(ops: FloatOps)
    ensures Parse(ops, "]") == Err(EmptyStack)
    ensures Parse(ops, "}") == Err(EmptyStack)
  {
    var a: Bytes, o: Bytes := "]", "}";
    TrimmedSkips([], a);
    TrimmedSkips([], o);
    assert [] + a == a && [] + o == o && a[1..] == [] && o[1..] == [];
  }

  /** Two top-level primitives: the second finds a primitive in `current`. */
  lemma TwoPrimitivesFail(ops: FloatOps)
    ensures Parse(ops, TrueText + " " + FalseText) == Err(InvalidJsonFormat(PrimitiveIntoNonContainer))
  {
    var tail := [' '] + FalseText;
    var b := TrueText + tail;
    assert TrueText + " " + FalseText == b;
    TrueIgnoresWhatFollows(ops, tail);
    StepPrimitive(ops, Start, b, Bool(true), tail);
    var st := Builder([], Some(Bool(true)), false);
    RunSkipsWhitespace(ops, st, [' '], FalseText);
    FalseIgnoresWhatFollows(ops, []);
    assert FalseText + [] == FalseText;
    StepPrimitive(ops, st, FalseText, Bool(false), []);
  }

  /** A document followed by whitespace is rejected. */
  lemma TrailingWhitespaceFails(ops: FloatOps, ws: Bytes)
    requires |ws| > 0 && AllWhitespace(ws)
    ensures Parse(ops, NullText + ws) == Err(InvalidJsonFormat(UnparsableBuffer))
  {
    NullIgnoresWhatFollows(ops, ws);
    StepPrimitive(ops, Start, NullText + ws, Null, ws);
    WhitespaceTailFails(ops, Builder([], Some(Null), false), ws);
  }

  // ---------------------------------------------------------------------
  // The chunked loop of ParseAsync
  // ---------------------------------------------------------------------

  /** What a pipe delivers once the writer has completed and no bytes are left: empty, completed reads. */
  function CompletedReads(n: nat): (r: seq<Read>)
    ensures |r| == n && forall i :: 0 <= i < n ==> r[i] == Read([], true, false)
  {
    seq(n, _ => Read([], true, false))
  }

  /**
   * The outcome `ParseAsync` reports for a `ParseBuffer` result: an
   * unrecognised token in a completed stream is the stream's malformed-input error.
   */
  function StreamView(r: Result<Option<Element>, Error>): (o: StreamOutcome)
    ensures r.Ok? <==> o.Parsed?
    ensures r.Ok? ==> o.value == r.value
    ensures r.Err? && r.error != InvalidJsonFormat(UnparsableBuffer) ==> o == Faulted(r.error)
    ensures r == Err(InvalidJsonFormat(UnparsableBuffer)) ==> o == Faulted(InvalidJsonFormat(MalformedStream))
  {
    match r
    case Ok(v) => Parsed(v)
    case Err(e) => if e == InvalidJsonFormat(UnparsableBuffer) then Faulted(InvalidJsonFormat(MalformedStream)) else Faulted(e)
  }

  /**
   * One pass over a non-empty buffer in a completed read, given that what the
   * pass leaves behind already behaves like `ParseBuffer`.
   */
  lemma CompletedStreamStep(ops: FloatOps, st: Builder, retained: Bytes, data: Bytes, n: nat)
    requires Valid(st) && 0 < |retained + data| <= n
    requires var s := StepSpec(ops, st, retained + data);
      s.Advanced? && |s.rest| > 0 ==>
        Drive(ops, s.state, s.rest, [Read([], true, false)] + CompletedReads(n - 1)) == StreamView(Run(ops, s.state, s.rest + []))
    ensures Drive(ops, st, retained, [Read(data, true, false)] + CompletedReads(n)) == StreamView(Run(ops, st, retained + data))
  {
    var chunks := [Read(data, true, false)] + CompletedReads(n);
    assert chunks[0].data == data;
    assert chunks[1..] == CompletedReads(n);
    var s := StepSpec(ops, st, retained + data);
    if s.Advanced? && |s.rest| > 0 {
      assert CompletedReads(n) == [Read([], true, false)] + CompletedReads(n - 1);
      assert s.rest + [] == s.rest;
    }
  }

  /** A completed read that leaves nothing to parse reports the current document. */
  lemma NothingLeftCompletes(ops: FloatOps, st: Builder, retained: Bytes, data: Bytes, n: nat)
    requires Valid(st) && |retained + data| == 0
    ensures Drive(ops, st, retained, [Read(data, true, false)] + CompletedReads(n)) == Parsed(st.current)
    ensures Run(ops, st, retained + data) == Ok(st.current)
  {
    var chunks := [Read(data, true, false)] + CompletedReads(n);
    assert retained + chunks[0].data == [];
  }

  /**
   * Once a read reports completion, the loop steps through what is retained
   * and what the read delivered exactly as `ParseBuffer` does, provided the
   * pipe keeps answering with completed empty reads.
   */
  lemma {:induction false} CompletedStream(ops: FloatOps, st: Builder, retained: Bytes, data: Bytes, n: nat)
    requires Valid(st) && |retained + data| <= n
    ensures Drive(ops, st, retained, [Read(data, true, false)] + CompletedReads(n)) == StreamView(Run(ops, st, retained + data))
    decreases |retained + data|
  {
    if |retained + data| == 0 {
      NothingLeftCompletes(ops, st, retained, data, n);
    } else {
      var s := StepSpec(ops, st, retained + data);
      if s.Advanced? && |s.rest| > 0 {
        CompletedStream(ops, s.state, s.rest, [], n - 1);
      }
      CompletedStreamStep(ops, st, retained, data, n);
    }
  }

  /**
   * A document delivered in one completed read, followed by as many completed
   * empty reads as the loop asks for, gives the result `ParseBuffer` gives.
   */
  lemma StreamMatchesBuffer(ops: FloatOps, b: Bytes, n: nat)
    requires n >= |b|
    ensures Drive(ops, Start, [], [Read(b, true, false)] + CompletedReads(n)) == StreamView(Parse(ops, b))
  {
    CompletedStream(ops, Start, [], b, n);
    assert [] + b == b;
  }

  /** Until a read reports completion, the loop never produces a document. */
  lemma {:induction false} NoResultBeforeCompletion(ops: FloatOps, st: Builder, retained: Bytes, chunks: seq<Read>)
    requires Valid(st)
    requires forall i :: 0 <= i < |chunks| ==> !chunks[i].completed
    ensures !Drive(ops, st, retained, chunks).Parsed?
    decreases |chunks|
  {
    if |chunks| > 0 && !chunks[0].cancelled {
      var buffer := retained + chunks[0].data;
      if |buffer| == 0 {
        NoResultBeforeCompletion(ops, st, buffer, chunks[1..]);
      } else {
        match StepSpec(ops, st, buffer)
        case Failed(e) =>
        case NoToken(rest) =>
          NoResultBeforeCompletion(ops, st, rest, chunks[1..]);
        case Advanced(next, rest) =>
          NoResultBeforeCompletion(ops, next, rest, chunks[1..]);
      }
    }
  }

  /** A cancelled read faults the stream whatever it holds. */
  lemma CancelledReadFaults(ops: FloatOps, st: Builder, retained: Bytes, chunks: seq<Read>)
    requires Valid(st) && |chunks| > 0 && chunks[0].cancelled
    ensures Drive(ops, st, retained, chunks) == Faulted(Cancelled)
  {
  }

  /** A literal split across two reads: the first half is retained until the rest arrives. */
  lemma SplitLiteralJoined(ops: FloatOps)
    ensures Drive(ops, Start, [], [Read("tr", false, false), Read("ue", true, false)]) == Parsed(Some(Bool(true)))
  {
    var head: Bytes := "tr";
    var chunks := [Read(head, false, false), Read("ue", true, false)];
    TrimmedSkips([], head);
    assert [] + head == head && [] + chunks[0].data == head;
    assert ScanPrimitive(ops, head) == NoPrimitive;
    assert StepSpec(ops, Start, head) == NoToken(head);
    assert chunks[1..] == [Read("ue", true, false)];
    assert head + chunks[1].data == TrueText + [];
    TrueIgnoresWhatFollows(ops, []);
    TrimmedSkips([], TrueText);
    assert [] + TrueText == TrueText;
  }
}
