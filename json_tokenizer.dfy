/**
 * The byte scanners of `JsonParser`: `Trim`, `TryReadString`, `TryReadNumber`
 * and `TryReadPrimitive`. Each scanner is specified by a function over the
 * buffer (`Trimmed`, `ScanString`, `ScanNumber`, `ScanPrimitive`) and
 * implemented by a method with the source's index loop, proved equal to it.
 * A `ref` buffer that a scanner re-slices is returned as the `rest` of its result.
 */
module JsonTokenizer {
  import opened Wrappers
  import opened JsonModel

  // ---------------------------------------------------------------------
  // Whitespace
  // ---------------------------------------------------------------------

  /** The four bytes `Trim` skips. */
  predicate IsWhitespace(b: Byte)
  {
    b == ' ' || b == '\t' || b == '\r' || b == '\n'
  }

  predicate AllWhitespace(b: Bytes)
  {
    forall i :: 0 <= i < |b| ==> IsWhitespace(b[i])
  }

  /** The length of the whitespace run at the head of the buffer. */
  function LeadingWhitespace(b: Bytes): (k: nat)
    ensures k <= |b|
    ensures k < |b| ==> !IsWhitespace(b[k])
  {
    if |b| == 0 || !IsWhitespace(b[0]) then 0
    else 1 + LeadingWhitespace(b[1..])
  }

  /** Everything before `LeadingWhitespace(b)` is whitespace. */
  lemma {:induction false} LeadingWhitespaceIsWhitespace(b: Bytes)
    ensures AllWhitespace(b[..LeadingWhitespace(b)])
  {
    if |b| > 0 && IsWhitespace(b[0]) {
      var k := LeadingWhitespace(b);
      LeadingWhitespaceIsWhitespace(b[1..]);
      assert b[..k] == [b[0]] + b[1..][..k - 1];
    }
  }

  /**
   * What `Trim` leaves of the buffer: the leading whitespace is dropped only
   * when a non-whitespace byte follows; an all-whitespace buffer stays as it is.
   */
  function Trimmed(b: Bytes): (r: Bytes)
    ensures |r| <= |b| && (|b| > 0 ==> |r| > 0)
  {
    var k := LeadingWhitespace(b);
    if k < |b| then b[k..] else b
  }

  /** `Trimmed` drops exactly the leading whitespace, and only when something else follows it. */
  lemma TrimmedDropsLeadingWhitespace(b: Bytes)
    ensures AllWhitespace(b) ==> Trimmed(b) == b
    ensures !AllWhitespace(b) ==> var r := Trimmed(b);
      0 < |r| && !IsWhitespace(r[0]) && b == b[..|b| - |r|] + r && AllWhitespace(b[..|b| - |r|])
  {
    var k := LeadingWhitespace(b);
    LeadingWhitespaceIsWhitespace(b);
    if k == |b| {
      assert b[..k] == b;
    } else {
      assert b == b[..k] + b[k..];
    }
  }

  /** Trimming twice is trimming once. */
  lemma TrimmedTwice(b: Bytes)
    ensures Trimmed(Trimmed(b)) == Trimmed(b)
  {
    TrimmedDropsLeadingWhitespace(b);
    var r := Trimmed(b);
    if !AllWhitespace(b) {
      assert LeadingWhitespace(r) == 0;
    } else {
      assert r == b;
    }
  }

  /** `Trim`: scans for the first byte that is not whitespace. */
  method Trim(buffer: Bytes) returns (r: Bytes)
    ensures r == Trimmed(buffer)
  {
    var total := 0;
    while total < |buffer|
      invariant 0 <= total <= |buffer|
      invariant AllWhitespace(buffer[..total])
    {
      if !IsWhitespace(buffer[total]) {
        LeadingWhitespaceAt(buffer, total);
        return buffer[total..];
      }
      assert buffer[..total + 1] == buffer[..total] + [buffer[total]];
      total := total + 1;
    }
    assert buffer[..total] == buffer;
    return buffer;
  }

  /** A whitespace run of length `k` that ends the buffer or stops at another byte is the leading run. */
  lemma {:induction false} LeadingWhitespaceAt(b: Bytes, k: nat)
    requires k <= |b| && AllWhitespace(b[..k]) && (k < |b| ==> !IsWhitespace(b[k]))
    ensures LeadingWhitespace(b) == k
    decreases k
  {
    if k > 0 {
      assert b[..k][0] == b[0];
      assert b[1..][..k - 1] == b[..k][1..];
      LeadingWhitespaceAt(b[1..], k - 1);
    }
  }

  // ---------------------------------------------------------------------
  // Strings
  // ---------------------------------------------------------------------

  /**
   * Whether the byte at index `i` is skipped because the byte before it is an
   * escaping backslash: a backslash escapes the next byte unless it is itself escaped.
   */
  function Escaped(b: Bytes, i: nat): bool
    requires i <= |b|
  {
    if i == 0 then false
    else if Escaped(b, i - 1) then false
    else b[i - 1] == '\\'
  }

  /** A quote that opens or closes a string token. */
  predicate IsQuoteAt(b: Bytes, i: nat)
    requires i < |b|
  {
    !Escaped(b, i) && b[i] == '"'
  }

  /** The index of the first unescaped quote at or after `from`, or `|b|` when there is none. */
  function NextQuote(b: Bytes, from: nat): (q: nat)
    requires from <= |b|
    ensures from <= q <= |b|
    ensures q < |b| ==> IsQuoteAt(b, q)
    ensures forall i :: from <= i < q ==> !IsQuoteAt(b, i)
    decreases |b| - from
  {
    if from == |b| then |b|
    else if IsQuoteAt(b, from) then from
    else NextQuote(b, from + 1)
  }

  /** The outcome of `TryReadString`. */
  datatype StringScan =
    | NoString                         // returns false, buffer unchanged
    | Token(token: Bytes, rest: Bytes)  // returns true, buffer after the closing quote
    | TokenOutOfRange                   // `Slice(start + 1, total - 1)` throws

  /**
   * `TryReadString`: the first unescaped quote (at `open`) opens, the next
   * (at `close`) closes. The token is `Slice(open + 1, close - 1)`, whose
   * second argument is a length, so it ends at `open + close`; that is the
   * bytes strictly between the quotes only when `open` is 0.
   */
  function ScanString(b: Bytes): (r: StringScan)
    ensures r.Token? ==> |r.rest| < |b|
  {
    var open := NextQuote(b, 0);
    if open == |b| then NoString
    else
      var close := NextQuote(b, open + 1);
      if close == |b| then NoString
      else if open + close > |b| then TokenOutOfRange
      else Token(b[open + 1 .. open + close], b[close + 1..])
  }

  /** `TryReadString`: one pass tracking the escape flag and the opening quote. */
  method TryReadString(b: Bytes) returns (r: StringScan)
    ensures r == ScanString(b)
  {
    var escaped := false;
    var total := 0;
    var start := -1;
    while total < |b|
      invariant 0 <= total <= |b|
      invariant escaped == Escaped(b, total)
      invariant -1 <= start < total
      invariant start == -1 ==> forall i :: 0 <= i < total ==> !IsQuoteAt(b, i)
      invariant start >= 0 ==> NextQuote(b, 0) == start
      invariant start >= 0 ==> forall i :: start < i < total ==> !IsQuoteAt(b, i)
    {
      if escaped {
        escaped := false;
      } else if b[total] == '\\' {
        escaped := true;
      } else if b[total] == '"' {
        assert IsQuoteAt(b, total);
        if start >= 0 {
          assert NextQuote(b, start + 1) == total;
          if start + total > |b| {
            return TokenOutOfRange;
          }
          return Token(b[start + 1 .. start + total], b[total + 1..]);
        }
        start := total;
      }
      total := total + 1;
    }
    return NoString;
  }

  /**
   * String content that a quoted token gives back unchanged: no unescaped
   * quote inside, and no dangling backslash that would escape the closing quote.
   */
  predicate Verbatim(s: Bytes)
  {
    (forall i :: 0 <= i < |s| ==> !IsQuoteAt(s, i)) && !Escaped(s, |s|)
  }

  // ---------------------------------------------------------------------
  // Numbers
  // ---------------------------------------------------------------------

  /** The length of the run of numeric bytes at the head of the buffer. */
  function NumericRun(b: Bytes): (k: nat)
    ensures k <= |b|
    ensures forall i :: 0 <= i < k ==> IsNumeric(b[i])
    ensures k < |b| ==> !IsNumeric(b[k])
  {
    if |b| == 0 || !IsNumeric(b[0]) then 0
    else
      var k := 1 + NumericRun(b[1..]);
      assert forall i :: 1 <= i < k ==> b[i] == b[1..][i - 1];
      k
  }

  /** The maximal run of numeric bytes at the head of an already trimmed buffer, and what follows it. */
  function SplitNumber(t: Bytes): (r: Option<(Bytes, Bytes)>)
    ensures r.Some? ==> |r.value.0| > 0 && t == r.value.0 + r.value.1
    ensures r.Some? ==> forall i :: 0 <= i < |r.value.0| ==> IsNumeric(r.value.0[i])
    ensures r.Some? && |r.value.1| > 0 ==> !IsNumeric(r.value.1[0])
    ensures r.None? <==> |t| == 0 || !IsNumeric(t[0])
  {
    var k := NumericRun(t);
    if k == 0 then None
    else
      assert t == t[..k] + t[k..];
      Some((t[..k], t[k..]))
  }

  /** A numeric run of length `k` that ends the buffer or stops at another byte is the maximal run. */
  lemma {:induction false} NumericRunAt(b: Bytes, k: nat)
    requires k <= |b| && (forall i :: 0 <= i < k ==> IsNumeric(b[i])) && (k < |b| ==> !IsNumeric(b[k]))
    ensures NumericRun(b) == k
    decreases k
  {
    if k > 0 {
      assert IsNumeric(b[0]);
      assert forall i :: 0 <= i < k - 1 ==> b[1..][i] == b[i + 1];
      NumericRunAt(b[1..], k - 1);
    }
  }

  /**
   * `TryReadNumber`: after trimming, the maximal run of numeric bytes and the
   * rest of the buffer, or None when the buffer does not start with one.
   */
  function ScanNumber(b: Bytes): (r: Option<(Bytes, Bytes)>)
    ensures r.Some? ==> |r.value.0| > 0 && |r.value.1| < |b|
    ensures r.Some? ==> Trimmed(b) == r.value.0 + r.value.1
    ensures r.Some? ==> forall i :: 0 <= i < |r.value.0| ==> IsNumeric(r.value.0[i])
    ensures r.Some? && |r.value.1| > 0 ==> !IsNumeric(r.value.1[0])
    ensures r.None? <==> |Trimmed(b)| == 0 || !IsNumeric(Trimmed(b)[0])
  {
    var t := Trimmed(b);
    assert |t| <= |b|;
    SplitNumber(t)
  }

  /** `TryReadNumber`: the loop looks for the first byte that is not numeric. */
  method TryReadNumber(buffer: Bytes) returns (r: Option<(Bytes, Bytes)>)
    ensures r == ScanNumber(buffer)
  {
    var current := Trim(buffer);
    var offset := -1;
    for i := 0 to |current|
      invariant forall j :: 0 <= j < i ==> IsNumeric(current[j])
      invariant offset == -1
    {
      if !IsNumeric(current[i]) {
        offset := i;
        break;
      }
    }
    NumericRunAt(current, if offset == -1 then |current| else offset);
    if offset > 0 {
      r := Some((current[..offset], current[offset..]));
    } else if |current| > 0 && IsNumeric(current[0]) {
      assert current[..|current|] == current && current[|current|..] == [];
      r := Some((current, []));
    } else {
      r := None;
    }
    assert r == SplitNumber(current);
  }

  // ---------------------------------------------------------------------
  // Primitives
  // ---------------------------------------------------------------------

  /** The outcome of `TryReadPrimitive`. */
  datatype PrimitiveScan =
    | NoPrimitive                           // returns false
    | Primitive(element: Element, rest: Bytes) // returns true, buffer after the token
    | PrimitiveFault(error: Error)          // an exception escapes

  /** The element a number token becomes: `JsonNumber` when integral, otherwise `JsonDouble`. */
  function NumberElement(ops: FloatOps, n: Float): (e: Element)
    ensures ops.isIntegral(n) ==> e == Number(ops.truncate(n))
    ensures !ops.isIntegral(n) ==> e == FromDouble(n)
  {
    if ops.isIntegral(n) then Number(ops.truncate(n)) else FromDouble(n)
  }

  /**
   * `TryReadPrimitive` on a buffer: after trimming, a number, a quoted string
   * (through the implicit string conversion), or one of the literals.
   */
  function ScanPrimitive(ops: FloatOps, b: Bytes): (r: PrimitiveScan)
    ensures r.Primitive? ==> |r.rest| < |b|
  {
    var t := Trimmed(b);
    if |t| == 0 then NoPrimitive
    else if IsNumeric(t[0]) then NumberPrimitive(ops, t)
    else if t[0] == '"' then StringPrimitive(t)
    else LiteralPrimitive(t)
  }

  /** A number token: `Double.Parse`, then `JsonNumber` or `JsonDouble`. */
  function NumberPrimitive(ops: FloatOps, t: Bytes): (r: PrimitiveScan)
    ensures r.Primitive? ==> |r.rest| < |t|
  {
    match ScanNumber(t)
    case None => NoPrimitive
    case Some((token, rest)) =>
      match ops.parse(token)
      case None => PrimitiveFault(NumberFormat)
      case Some(n) => Primitive(NumberElement(ops, n), rest)
  }

  /** A string token, through the implicit string conversion (an empty token becomes `JsonNull`). */
  function StringPrimitive(t: Bytes): (r: PrimitiveScan)
    ensures r.Primitive? ==> |r.rest| < |t|
  {
    match ScanString(t)
    case NoString => NoPrimitive
    case TokenOutOfRange => PrimitiveFault(SliceOutOfRange)
    case Token(s, rest) => Primitive(FromString(Some(s)), rest)
  }

  /**
   * `null`, `true` and `false`: the tests look only at the literal's own
   * bytes, so whatever follows the literal is never checked.
   */
  function LiteralPrimitive(t: Bytes): (r: PrimitiveScan)
    requires |t| > 0
    ensures r.Primitive? ==> |r.rest| < |t|
  {
    if t[0] == 'n' then
      if |t| > 3 && t[1..4] == "ull" then Primitive(Null, t[4..]) else NoPrimitive
    else if t[0] == 't' then
      if |t| > 3 && t[1..4] == "rue" then Primitive(Bool(true), t[4..]) else NoPrimitive
    else if t[0] == 'f' then
      if |t| > 4 && t[1..5] == "alse" then Primitive(Bool(false), t[5..]) else NoPrimitive
    else NoPrimitive
  }

  /** `TryReadPrimitive`: dispatches on the first byte after trimming. */
  method TryReadPrimitive(ops: FloatOps, buffer: Bytes) returns (r: PrimitiveScan)
    ensures r == ScanPrimitive(ops, buffer)
  {
    var current := Trim(buffer);
    if |current| == 0 {
      return NoPrimitive;
    }
    if IsNumeric(current[0]) {
      r := TryReadNumberPrimitive(ops, current);
    } else if current[0] == '"' {
      var s := TryReadString(current);
      match s {
        case Token(token, rest) => r := Primitive(FromString(Some(token)), rest);
        case TokenOutOfRange => r := PrimitiveFault(SliceOutOfRange);
        case NoString => r := NoPrimitive;
      }
    } else {
      r := TryReadLiteral(current);
    }
  }

  /** The number branch of `TryReadPrimitive`. */
  method TryReadNumberPrimitive(ops: FloatOps, current: Bytes) returns (r: PrimitiveScan)
    ensures r == NumberPrimitive(ops, current)
  {
    var number := TryReadNumber(current);
    if number.None? {
      return NoPrimitive;
    }
    var parsed := ops.parse(number.value.0);
    if parsed.None? {
      return PrimitiveFault(NumberFormat);
    }
    var n := parsed.value;
    var element := if ops.isIntegral(n) then Number(ops.truncate(n)) else FromDouble(n);
    return Primitive(element, number.value.1);
  }

  /** The literal branches of `TryReadPrimitive`, byte by byte. */
  method TryReadLiteral(current: Bytes) returns (r: PrimitiveScan)
    requires |current| > 0
    ensures r == LiteralPrimitive(current)
  {
    if current[0] == 'n' {
      if |current| > 3 && current[1] == 'u' && current[2] == 'l' && current[3] == 'l' {
        assert current[1..4] == "ull";
        return Primitive(Null, current[4..]);
      }
    } else if current[0] == 't' {
      if |current| > 3 && current[1] == 'r' && current[2] == 'u' && current[3] == 'e' {
        assert current[1..4] == "rue";
        return Primitive(FromBool(true), current[4..]);
      }
    } else if current[0] == 'f' {
      if |current| > 4 && current[1] == 'a' && current[2] == 'l' && current[3] == 's' && current[4] == 'e' {
        assert current[1..5] == "alse";
        return Primitive(FromBool(false), current[5..]);
      }
    }
    return NoPrimitive;
  }
}
