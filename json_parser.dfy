/**
 * The stack-based tree builder of `JsonParser`. Its state is the `Stack<JsonElement>`
 * of open parents, the element under construction (`current`, null at the
 * start) and the `isName` flag. `StepSpec` is one pass of the `switch` both
 * drivers share; `Run` is the loop of `ParseBuffer` and `Drive` the loop of
 * `ParseAsync` over an abstract sequence of pipe reads. The methods `Step`,
 * `ParseBuffer` and `ParseStream` run the same loops on mutable locals and are
 * proved equal to these functions.
 */
module JsonParser {
  import opened Wrappers
  import opened JsonModel
  import opened JsonTokenizer

  /** The parser's locals: the stack (top last), `current` (None for null) and `isName`. */
  datatype Builder = Builder(stack: seq<Option<Element>>, current: Option<Element>, isName: bool)

  /** The state both drivers start in. */
  const Start := Builder([], None, false)

  /** Whenever a parent is open, something is under construction. */
  predicate Valid(st: Builder)
  {
    |st.stack| > 0 ==> st.current.Some?
  }

  /** The outcome of one pass of the `switch`. */
  datatype StepResult =
    | Advanced(state: Builder, rest: Bytes) // the buffer is re-sliced past the token
    | NoToken(rest: Bytes)                  // the default branch recognised nothing
    | Failed(error: Error)                  // an exception escapes

  /** The last property now holds `v`: `Properties[Count - 1].Value = v`. */
  function SetLastValue(props: seq<Property>, v: Element): (r: seq<Property>)
    requires |props| > 0
    ensures |r| == |props| && r[..|r| - 1] == props[..|props| - 1]
    ensures r[|r| - 1] == Property(props[|props| - 1].name, v)
  {
    props[..|props| - 1] + [Property(props[|props| - 1].name, v)]
  }

  /** A finished child goes into its container: appended to an array, or assigned to an object's last property. */
  function AddChild(parent: Element, child: Element): (r: Result<Element, Error>)
    requires parent.Array? || parent.Object?
    ensures parent.Array? ==> r == Ok(Array(parent.items + [child]))
    ensures parent.Object? && |parent.properties| == 0 ==> r == Err(NoLastProperty)
    ensures parent.Object? && |parent.properties| > 0 ==> r == Ok(Object(SetLastValue(parent.properties, child)))
  {
    if parent.Array? then Ok(Array(parent.items + [child]))
    else if |parent.properties| == 0 then Err(NoLastProperty)
    else Ok(Object(SetLastValue(parent.properties, child)))
  }

  /** `[` and `{`: push `current` and start a fresh container. */
  function Open(st: Builder, container: Element, isName: bool): (r: Builder)
    ensures Valid(r) && r.stack == st.stack + [st.current] && r.current == Some(container)
  {
    Builder(st.stack + [st.current], Some(container), isName)
  }

  /**
   * `]` (`endsObject` false) and `}` (true): pop the parent; a null parent
   * leaves `current` alone, an array or object parent takes `current` as its
   * child and becomes `current`, any other parent simply becomes `current`.
   * `}` clears `isName` and sets it again when the parent is an object.
   */
  function Close(st: Builder, endsObject: bool): (r: Result<Builder, Error>)
    requires Valid(st)
    ensures |st.stack| == 0 ==> r == Err(EmptyStack)
    ensures r.Ok? ==> Valid(r.value) && r.value.stack == st.stack[..|st.stack| - 1]
  {
    if |st.stack| == 0 then Err(EmptyStack)
    else
      var parent := st.stack[|st.stack| - 1];
      var stack := st.stack[..|st.stack| - 1];
      var isName := !endsObject && st.isName;
      match parent
      case None => Ok(Builder(stack, st.current, isName))
      case Some(p) =>
        if p.Array? || p.Object? then
          match AddChild(p, st.current.value)
          case Err(e) => Err(e)
          case Ok(filled) => Ok(Builder(stack, Some(filled), isName || (endsObject && p.Object?)))
        else Ok(Builder(stack, Some(p), isName))
  }

  /** A property name read while `isName` is set: a new property (name, `JsonNull`) on the current object. */
  function AddName(st: Builder, name: Bytes): (r: Result<Builder, Error>)
    ensures st.current.Some? && st.current.value.Object? <==> r.Ok?
    ensures r.Err? ==> r.error == InvalidJsonFormat(PropertyWithoutObject)
    ensures r.Ok? ==> r.value == Builder(st.stack,
      Some(Object(st.current.value.properties + [Property(name, Null)])), false)
  {
    match st.current
    case Some(Object(props)) => Ok(Builder(st.stack, Some(Object(props + [Property(name, Null)])), false))
    case _ => Err(InvalidJsonFormat(PropertyWithoutObject))
  }

  /** A primitive read: it becomes the root, or goes into the current container; any other `current` is an error. */
  function AttachPrimitive(st: Builder, e: Element): (r: Result<Builder, Error>)
    ensures st.current.None? ==> r == Ok(st.(current := Some(e)))
    ensures r.Ok? ==> r.value.stack == st.stack && r.value.isName == st.isName && r.value.current.Some?
    ensures st.current.Some? && !st.current.value.Array? && !st.current.value.Object? ==>
      r == Err(InvalidJsonFormat(PrimitiveIntoNonContainer))
  {
    match st.current
    case None => Ok(st.(current := Some(e)))
    case Some(c) =>
      if c.Array? || c.Object? then
        match AddChild(c, e)
        case Err(x) => Err(x)
        case Ok(filled) => Ok(st.(current := Some(filled)))
      else Err(InvalidJsonFormat(PrimitiveIntoNonContainer))
  }

  /** A transition's outcome as the result of one pass. */
  function Lift(r: Result<Builder, Error>, rest: Bytes): StepResult
  {
    match r
    case Ok(st) => Advanced(st, rest)
    case Err(e) => Failed(e)
  }

  /**
   * One pass of the `switch` on a non-empty buffer: trim, then dispatch on
   * the first byte. Every successful pass consumes at least one byte.
   */
  function StepSpec(ops: FloatOps, st: Builder, buffer: Bytes): (r: StepResult)
    requires |buffer| > 0 && Valid(st)
    ensures r.Advanced? ==> |r.rest| < |buffer| && Valid(r.state)
    ensures r.NoToken? ==> r.rest == Trimmed(buffer)
    ensures r.Failed? ==> r.error != InvalidJsonFormat(UnparsableBuffer) && r.error != InvalidJsonFormat(MalformedStream)
  {
    var b := Trimmed(buffer);
    assert 0 < |b| <= |buffer|;
    Switch(ops, st, b)
  }

  /** The `switch` itself, on the trimmed buffer. */
  function Switch(ops: FloatOps, st: Builder, b: Bytes): (r: StepResult)
    requires |b| > 0 && Valid(st)
    ensures r.Advanced? ==> |r.rest| < |b| && Valid(r.state)
    ensures r.NoToken? ==> r.rest == b
    ensures r.Failed? ==> r.error != InvalidJsonFormat(UnparsableBuffer) && r.error != InvalidJsonFormat(MalformedStream)
  {
    var c := b[0];
    if c == '[' then Advanced(Open(st, Array([]), st.isName), b[1..])
    else if c == ']' then Lift(Close(st, false), b[1..])
    else if c == '{' then Advanced(Open(st, Object([]), true), b[1..])
    else if c == '}' then Lift(Close(st, true), b[1..])
    else if c == ',' then Advanced(st.(isName := st.current.Some? && IsJsonObject(st.current.value)), b[1..])
    else if c == ':' then Advanced(st.(isName := false), b[1..])
    else TokenStep(ops, st, b)
  }

  /** The `default` branch: a property name when `isName` is set, otherwise a primitive. */
  function TokenStep(ops: FloatOps, st: Builder, b: Bytes): (r: StepResult)
    requires Valid(st)
    ensures r.Advanced? ==> |r.rest| < |b| && Valid(r.state)
    ensures r.NoToken? ==> r.rest == b
    ensures r.Failed? ==> r.error != InvalidJsonFormat(UnparsableBuffer) && r.error != InvalidJsonFormat(MalformedStream)
  {
    var name := if st.isName then ScanString(b) else NoString;
    match name
    case Token(n, rest) => Lift(AddName(st, n), rest)
    case TokenOutOfRange => Failed(SliceOutOfRange)
    case NoString =>
      match ScanPrimitive(ops, b)
      case Primitive(e, rest) => Lift(AttachPrimitive(st, e), rest)
      case PrimitiveFault(err) => Failed(err)
      case NoPrimitive => NoToken(b)
  }

  /**
   * The loop of `ParseBuffer` from a given state: step until the buffer is
   * empty, then return `current` whatever is left on the stack.
   */
  function Run(ops: FloatOps, st: Builder, buffer: Bytes): Result<Option<Element>, Error>
    requires Valid(st)
    decreases |buffer|
  {
    if |buffer| == 0 then Ok(st.current)
    else
      match StepSpec(ops, st, buffer)
      case Advanced(next, rest) => Run(ops, next, rest)
      case NoToken(_) => Err(InvalidJsonFormat(UnparsableBuffer))
      case Failed(e) => Err(e)
  }

  /** `ParseBuffer`: None is a null result (the empty buffer). */
  function Parse(ops: FloatOps, buffer: Bytes): Result<Option<Element>, Error>
  {
    Run(ops, Start, buffer)
  }

  /** One pass of the `switch`, with the scanners of the tokenizer. */
  method Step(ops: FloatOps, st: Builder, buffer: Bytes) returns (r: StepResult)
    requires |buffer| > 0 && Valid(st)
    ensures r == StepSpec(ops, st, buffer)
  {
    var b := Trim(buffer);
    var c := b[0];
    if c == '[' {
      r := Advanced(Builder(st.stack + [st.current], Some(Array([])), st.isName), b[1..]);
    } else if c == ']' {
      r := Lift(Close(st, false), b[1..]);
    } else if c == '{' {
      r := Advanced(Builder(st.stack + [st.current], Some(Object([])), true), b[1..]);
    } else if c == '}' {
      r := Lift(Close(st, true), b[1..]);
    } else if c == ',' {
      r := Advanced(st.(isName := st.current.Some? && IsJsonObject(st.current.value)), b[1..]);
    } else if c == ':' {
      r := Advanced(st.(isName := false), b[1..]);
    } else {
      r := ReadToken(ops, st, b);
    }
  }

  /** The `default` branch of the `switch`. */
  method ReadToken(ops: FloatOps, st: Builder, b: Bytes) returns (r: StepResult)
    requires Valid(st)
    ensures r == TokenStep(ops, st, b)
  {
    if st.isName {
      var name := TryReadString(b);
      match name {
        case Token(n, rest) => return Lift(AddName(st, n), rest);
        case TokenOutOfRange => return Failed(SliceOutOfRange);
        case NoString =>
      }
    }
    var primitive := TryReadPrimitive(ops, b);
    match primitive {
      case Primitive(e, rest) => r := Lift(AttachPrimitive(st, e), rest);
      case PrimitiveFault(err) => r := Failed(err);
      case NoPrimitive => r := NoToken(b);
    }
  }

  /** `ParseBuffer`: loops until the buffer is empty; each pass consumes at least one byte. */
  method ParseBuffer(ops: FloatOps, buffer: Bytes) returns (r: Result<Option<Element>, Error>)
    ensures r == Parse(ops, buffer)
  {
    var st := Start;
    var rest := buffer;
    while true
      invariant Valid(st)
      invariant Run(ops, st, rest) == Parse(ops, buffer)
      decreases |rest|
    {
      if |rest| > 0 {
        var s := Step(ops, st, rest);
        match s {
          case Advanced(next, remaining) =>
            st, rest := next, remaining;
          case NoToken(_) =>
            return Err(InvalidJsonFormat(UnparsableBuffer));
          case Failed(e) =>
            return Err(e);
        }
      }
      if |rest| == 0 {
        return Ok(st.current);
      }
    }
  }

  // ---------------------------------------------------------------------
  // The chunk driver of ParseAsync
  // ---------------------------------------------------------------------

  /** One `ReadAsync`: the new bytes, `IsCompleted`, and whether cancellation was requested before it. */
  datatype Read = Read(data: Bytes, completed: bool, cancelled: bool)

  /** Where `ParseAsync` stands after the reads: done, faulted, or waiting for more. */
  datatype StreamOutcome =
    | Parsed(value: Option<Element>)
    | Faulted(error: Error)
    | Waiting(state: Builder, retained: Bytes)

  /**
   * The loop of `ParseAsync`: per read, the buffer is what was retained
   * plus the new bytes, at most one pass of the `switch` runs on it, an
   * unrecognised token is kept for the next read unless the stream is
   * complete, and the loop ends when the read is complete and the buffer empty.
   */
  function Drive(ops: FloatOps, st: Builder, retained: Bytes, chunks: seq<Read>): (r: StreamOutcome)
    requires Valid(st)
    ensures r.Waiting? ==> Valid(r.state)
    decreases |chunks|, 0
  {
    if |chunks| == 0 then Waiting(st, retained)
    else if chunks[0].cancelled then Faulted(Cancelled)
    else
      var buffer := retained + chunks[0].data;
      var completed := chunks[0].completed;
      if |buffer| == 0 then
        if completed then Parsed(st.current) else Drive(ops, st, buffer, chunks[1..])
      else DriveStep(ops, st, StepSpec(ops, st, buffer), completed, chunks[1..])
  }

  /** What the loop of `ParseAsync` does after one pass of the `switch` on a non-empty buffer. */
  function DriveStep(ops: FloatOps, st: Builder, s: StepResult, completed: bool, chunks: seq<Read>): (r: StreamOutcome)
    requires Valid(st) && (s.Advanced? ==> Valid(s.state))
    ensures r.Waiting? ==> Valid(r.state)
    decreases |chunks|, 1
  {
    match s
    case Failed(e) => Faulted(e)
    case NoToken(rest) =>
      if completed then Faulted(InvalidJsonFormat(MalformedStream))
      else Drive(ops, st, rest, chunks)
    case Advanced(next, rest) =>
      if completed && |rest| == 0 then Parsed(next.current)
      else Drive(ops, next, rest, chunks)
  }

  /** `ParseAsync` over a sequence of reads. */
  method ParseStream(ops: FloatOps, chunks: seq<Read>) returns (r: StreamOutcome)
    ensures r == Drive(ops, Start, [], chunks)
  {
    var st := Start;
    var retained: Bytes := [];
    for i := 0 to |chunks|
      invariant Valid(st)
      invariant Drive(ops, st, retained, chunks[i..]) == Drive(ops, Start, [], chunks)
    {
      assert chunks[i..][1..] == chunks[i + 1..];
      var read := chunks[i];
      if read.cancelled {
        return Faulted(Cancelled);
      }
      var buffer := retained + read.data;
      if |buffer| > 0 {
        var s := Step(ops, st, buffer);
        match s {
          case Failed(e) =>
            return Faulted(e);
          case NoToken(rest) =>
            if read.completed {
              return Faulted(InvalidJsonFormat(MalformedStream));
            }
            buffer := rest;
          case Advanced(next, rest) =>
            st, buffer := next, rest;
        }
      }
      if read.completed && |buffer| == 0 {
        return Parsed(st.current);
      }
      retained := buffer;
    }
    assert chunks[|chunks|..] == [];
    return Waiting(st, retained);
  }
}
