# Telefrek.Core: JSON library, GCD and bit utilities, BitMask

A Dafny model of four parts of Telefrek.Core.

- **The JSON library** (`Telefrek.Core.Json`):
  - the byte-level tokenizer and the stack-based tree builder of `JsonParser`, with one driver for a whole buffer (`ParseBuffer`) and one for a sequence of pipe reads (`ParseAsync`);
  - the element classes and their two emitters (`Print` and `PrettyPrint`);
  - the extension methods (`ToJson`, `AsJson`, `FromJson`, the `Is*`/`As*` accessors and the `Add` helpers);
  - the serializer registry (`JsonSerializationFactory`).
- **`MathematicalExtensions`:** the binary (Stein) GCD in four widths, and the De Bruijn `MSB`/`LSB` lookups.
- **`BitMask`:** a bit set kept in an array of 64-bit words, with set, clear and test operations and a search for a free slot.

The files are:

- `wrappers.dfy` (module `Wrappers`): `Option` and `Result`.
- `json_model.dfy` (module `JsonModel`): the element datatype, type tags, implicit conversions, `Has`.
- `json_tokenizer.dfy` (module `JsonTokenizer`): `Trim`, `TryReadString`, `TryReadNumber`, `TryReadPrimitive`.
- `json_parser.dfy` (module `JsonParser`): the builder state, one pass of the `switch`, both drivers.
- `json_parser_facts.dfy` (module `JsonParserFacts`): what the parser accepts and rejects, and the stream driver against the buffer driver.
- `json_printer.dfy` (module `JsonPrinter`): the compact and pretty emitters over a `StringBuilder`.
- `json_round_trip.dfy` (module `JsonRoundTrip`): both emitters' texts read back as the element printed.
- `json_serialization.dfy` (module `JsonSerialization`): the serializer registry.
- `json_extensions.dfy` (module `JsonExtensions`): the extension methods and `JsonObject`'s `Add` helpers.
- `json_fixture.dfy` (module `JsonFixture`): the sample document of the element test, in both layouts.
- `math_extensions.dfy` (module `MathExtensions`): GCD.
- `math_bits.dfy` (module `MathBits`): `MSB` and `LSB`.
- `bit_mask.dfy` (module `BitMasks`): `BitMask`.

The model follows these choices:

- **Elements are values.** Children are attached to a parent only when the child closes, so the builder's `Stack<JsonElement>` becomes a `seq<Option<Element>>`, with `None` for a null reference.
- **Code that works step by step is imperative.** This covers the parse loops, the scanners, the emitters' index loops over a `StringBuilder`, the GCD loops and the `BitMask` word array. Each method is proved equal to a specification function. The properties the source promises are proved about those functions.
- **Text is bytes.** Names and strings are kept as their UTF-8 bytes, and a byte is a `char` below 256.
- **`double` is opaque.** It is a 64-bit payload. `Double.Parse`, the integral test, the `(long)` cast and the text of a `double` are fields of a `FloatOps` parameter.

The model keeps the parser as the code writes it, not as RFC 8259 describes JSON:

- escapes are kept verbatim;
- there are no exponents;
- trailing whitespace after the root is rejected;
- an unclosed container is accepted;
- the bytes after `null`, `true` and `false` are never checked.

`TryReadString` takes the token as `Slice(start + 1, total - 1)`, where the second argument is a length. So the token is the bytes strictly between the quotes only when the opening quote is the first byte. On the value path it always is: the byte after trimming is a quote. On the name path it need not be. The model keeps this arithmetic, and `JsonParserFacts.OffsetQuoteOverruns` shows both outcomes: a token that runs past the closing quote, and an out-of-range slice.

`TryRegister`'s documentation says that `ignoreExists` lets the call override the existing implementation. The code does not do that. Its update function `o ?? serializer` keeps a non-null serializer that is already registered, and replaces only a null one. The model follows the code, and `JsonSerialization.FirstRegistrationWins` states the result.

## Model

| member | source | states |
|---|---|---|
| `JsonModel.JsonType` | src/Telefrek.Core.Json/JsonElement.cs:18 | every element has a known tag; the tag is Object, Array or Null exactly for those variants |
| `JsonModel.ExactlyOneTag` | src/Telefrek.Core.Json/JsonExtensions.cs:127-148 | each element satisfies exactly one of `IsJsonObject`, `IsJsonArray`, `IsJsonPrimitive`, `IsJsonNull`; the primitives are bool, number, double and string |
| `JsonModel.FromDouble` | src/Telefrek.Core.Json/JsonElement.cs:45 | a double converts to a primitive `JsonDouble` holding it |
| `JsonModel.FromBool` | src/Telefrek.Core.Json/JsonElement.cs:51 | a bool converts to a primitive `JsonBool` with the same value |
| `JsonModel.FromInt32` | src/Telefrek.Core.Json/JsonElement.cs:57 | an int converts to a `JsonNumber` holding the same value, widened |
| `JsonModel.FromInt64` | src/Telefrek.Core.Json/JsonElement.cs:63 | a long converts to a `JsonNumber` holding it |
| `JsonModel.FromString` | src/Telefrek.Core.Json/JsonElement.cs:69 | a null or empty string converts to the null element, and any other string to a `JsonString` holding it |
| `JsonModel.ValueAsInt32` | src/Telefrek.Core.Json/JsonNumber.cs:24 | the 32-bit value agrees with the long modulo 2^32, and equals it when it fits |
| `JsonModel.ToLowerAscii` | src/Telefrek.Core.Json/JsonObject.cs:33-34 | upper-case ASCII letters map to lower case and every other byte is kept |
| `JsonModel.Has` | src/Telefrek.Core.Json/JsonObject.cs:33-34 | true iff some property's name equals the given name, exactly or ignoring ASCII case |
| `JsonModel.HasIgnoringCaseWeaker` | src/Telefrek.Core.Json/JsonObject.cs:33-34 | a name found exactly is also found ignoring case |
| `JsonTokenizer.LeadingWhitespace` | src/Telefrek.Core.Json/JsonParser.cs:341-362 | the count of leading whitespace bytes stops at a byte that is not whitespace |
| `JsonTokenizer.LeadingWhitespaceIsWhitespace` | src/Telefrek.Core.Json/JsonParser.cs:341-362 | every byte of the counted prefix is space, tab, CR or LF |
| `JsonTokenizer.Trimmed` | src/Telefrek.Core.Json/JsonParser.cs:341-362 | trimming never lengthens the buffer and never empties a non-empty one |
| `JsonTokenizer.TrimmedDropsLeadingWhitespace` | src/Telefrek.Core.Json/JsonParser.cs:341-362 | an all-whitespace buffer is returned unchanged; otherwise exactly the leading whitespace is dropped, leaving a buffer that starts with a non-whitespace byte |
| `JsonTokenizer.TrimmedTwice` | src/Telefrek.Core.Json/JsonParser.cs:341-362 | trimming is idempotent |
| `JsonTokenizer.Trim` | src/Telefrek.Core.Json/JsonParser.cs:341-362 | the scanning loop returns the trimmed buffer |
| `JsonTokenizer.LeadingWhitespaceAt` | src/Telefrek.Core.Json/JsonParser.cs:341-362 | a whitespace prefix that ends the buffer or stops at another byte is the one counted |
| `JsonTokenizer.NextQuote` | src/Telefrek.Core.Json/JsonParser.cs:370-412 | the first quote not escaped by a backslash at or after a position, or the end when there is none |
| `JsonTokenizer.ScanString` | src/Telefrek.Core.Json/JsonParser.cs:370-412 | a found token leaves a strictly shorter buffer |
| `JsonTokenizer.TryReadString` | src/Telefrek.Core.Json/JsonParser.cs:370-412 | the loop over the escape flag and the opening quote gives the outcome of `ScanString`: no string, a token and the rest, or an out-of-range slice |
| `JsonTokenizer.NumericRun` | src/Telefrek.Core.Json/JsonParser.cs:301-335 | the run of numeric bytes at the head is maximal |
| `JsonTokenizer.SplitNumber` | src/Telefrek.Core.Json/JsonParser.cs:301-335 | a non-empty numeric token and the rest make up the buffer, and the rest does not start with a numeric byte; none exactly when the buffer is empty or starts with another byte |
| `JsonTokenizer.NumericRunAt` | src/Telefrek.Core.Json/JsonParser.cs:301-335 | a numeric run that ends the buffer or stops at another byte is the maximal run |
| `JsonTokenizer.ScanNumber` | src/Telefrek.Core.Json/JsonParser.cs:301-335 | after trimming, the maximal numeric run and the rest; the whole buffer when it is numeric to its end |
| `JsonTokenizer.TryReadNumber` | src/Telefrek.Core.Json/JsonParser.cs:301-335 | the loop looking for the first non-numeric byte gives `ScanNumber` |
| `JsonTokenizer.NumberElement` | src/Telefrek.Core.Json/JsonParser.cs:430-439 | an integral value becomes a `JsonNumber` of its truncation, anything else a `JsonDouble` |
| `JsonTokenizer.ScanPrimitive` | src/Telefrek.Core.Json/JsonParser.cs:420-498 | a recognised primitive leaves a strictly shorter buffer |
| `JsonTokenizer.NumberPrimitive` | src/Telefrek.Core.Json/JsonParser.cs:430-439 | a recognised number leaves a strictly shorter buffer |
| `JsonTokenizer.StringPrimitive` | src/Telefrek.Core.Json/JsonParser.cs:440-448 | a recognised string leaves a strictly shorter buffer |
| `JsonTokenizer.LiteralPrimitive` | src/Telefrek.Core.Json/JsonParser.cs:449-494 | a recognised literal leaves a strictly shorter buffer |
| `JsonTokenizer.TryReadPrimitive` | src/Telefrek.Core.Json/JsonParser.cs:420-498 | the dispatch on the first byte after trimming gives `ScanPrimitive` |
| `JsonTokenizer.TryReadNumberPrimitive` | src/Telefrek.Core.Json/JsonParser.cs:430-439 | the number branch gives `NumberPrimitive` |
| `JsonTokenizer.TryReadLiteral` | src/Telefrek.Core.Json/JsonParser.cs:449-494 | the byte-by-byte literal tests give `LiteralPrimitive` |
| `JsonParser.SetLastValue` | src/Telefrek.Core.Json/JsonParser.cs:83-84 | only the last property's value changes; its name and every earlier property are kept |
| `JsonParser.AddChild` | src/Telefrek.Core.Json/JsonParser.cs:76-88 | a closed child is appended to an array parent, or becomes the last property's value of an object parent; an object with no property faults |
| `JsonParser.Open` | src/Telefrek.Core.Json/JsonParser.cs:71-75 | `[` and `{` push `current` and make a fresh container current |
| `JsonParser.Close` | src/Telefrek.Core.Json/JsonParser.cs:95-111 | `]` and `}` pop one parent; an empty stack faults |
| `JsonParser.AddName` | src/Telefrek.Core.Json/JsonParser.cs:125-136 | a name is accepted iff `current` is an object; it appends the property (name, null) and clears `isName`; otherwise the format fault |
| `JsonParser.AttachPrimitive` | src/Telefrek.Core.Json/JsonParser.cs:137-149 | a primitive becomes `current` at the root; attaching it keeps the stack and the name flag and leaves a `current`; a `current` that is not a container faults |
| `JsonParser.StepSpec` | src/Telefrek.Core.Json/JsonParser.cs:64-155 | each successful pass consumes at least one byte and keeps the state valid; an unrecognised token leaves the trimmed buffer |
| `JsonParser.Switch` | src/Telefrek.Core.Json/JsonParser.cs:69-155 | the same, on the trimmed buffer |
| `JsonParser.TokenStep` | src/Telefrek.Core.Json/JsonParser.cs:121-153 | the same, for the default branch |
| `JsonParser.Step` | src/Telefrek.Core.Json/JsonParser.cs:64-155 | one pass of the `switch` with the scanners gives `StepSpec` |
| `JsonParser.ReadToken` | src/Telefrek.Core.Json/JsonParser.cs:121-153 | the default branch gives `TokenStep` |
| `JsonParser.ParseBuffer` | src/Telefrek.Core.Json/JsonParser.cs:57-162 | the loop returns `Parse` of the buffer |
| `JsonParser.Drive` | src/Telefrek.Core.Json/JsonParser.cs:172-292 | the state left waiting for more reads is valid |
| `JsonParser.DriveStep` | src/Telefrek.Core.Json/JsonParser.cs:245-289 | the same, after one pass |
| `JsonParser.ParseStream` | src/Telefrek.Core.Json/JsonParser.cs:172-292 | the loop over the reads returns `Drive` from the start state |
| `JsonParserFacts.LeadingWhitespaceSkips` | src/Telefrek.Core.Json/JsonParser.cs:341-362 | whitespace followed by another byte is counted exactly |
| `JsonParserFacts.TrimmedSkips` | src/Telefrek.Core.Json/JsonParser.cs:341-362 | trimming drops leading whitespace that some other byte follows |
| `JsonParserFacts.RunSkipsWhitespace` | src/Telefrek.Core.Json/JsonParser.cs:64-68 | whitespace before a token does not change what the buffer parses to |
| `JsonParserFacts.NoTokenInWhitespace` | src/Telefrek.Core.Json/JsonParser.cs:341-362 | an all-whitespace buffer stays as it is and holds no string and no primitive |
| `JsonParserFacts.WhitespaceTailFails` | src/Telefrek.Core.Json/JsonParser.cs:152 | in any state, a buffer of only whitespace fails with "Failed to parse the buffer" |
| `JsonParserFacts.StepAtToken` | src/Telefrek.Core.Json/JsonParser.cs:68-69 | a buffer already at a token goes straight to the `switch` |
| `JsonParserFacts.StepPrimitive` | src/Telefrek.Core.Json/JsonParser.cs:137-149 | outside a name, a recognised primitive is attached |
| `JsonParserFacts.StepName` | src/Telefrek.Core.Json/JsonParser.cs:123-136 | when a name is expected, a quoted token becomes a property name |
| `JsonParserFacts.StepStructural` | src/Telefrek.Core.Json/JsonParser.cs:69-120 | a structural byte is handled by its own case |
| `JsonParserFacts.EscapedAfterHead` | src/Telefrek.Core.Json/JsonParser.cs:380-395 | a byte that is not a backslash does not change whether later bytes are escaped |
| `JsonParserFacts.ScanQuoted` | src/Telefrek.Core.Json/JsonParser.cs:370-412 | quoted content with no unescaped quote and no dangling backslash comes back verbatim, and the buffer moves past the closing quote |
| `JsonParserFacts.BackslashedQuotesVerbatim` | test/Telefrek.Core.Json.Tests/JsonParserTests.cs:186-197 | the test's content with escaped quotes is such content |
| `JsonParserFacts.QuotedStringScans` | src/Telefrek.Core.Json/JsonParser.cs:440-448 | a quoted non-empty string is read as that string |
| `JsonParserFacts.QuotedStringParses` | src/Telefrek.Core.Json/JsonParser.cs:440-448 | a quoted non-empty string parses to that string |
| `JsonParserFacts.EscapedQuotesKept` | test/Telefrek.Core.Json.Tests/JsonParserTests.cs:186-197 | a string with escaped quotes parses with its backslashes kept |
| `JsonParserFacts.OffsetQuoteOverruns` | src/Telefrek.Core.Json/JsonParser.cs:399 | with the opening quote after the head, the token runs past the closing quote, or the slice is out of range |
| `JsonParserFacts.NullIgnoresWhatFollows` | src/Telefrek.Core.Json/JsonParser.cs:449-463 | `null` is read as the null element whatever follows it, consuming four bytes |
| `JsonParserFacts.TrueIgnoresWhatFollows` | src/Telefrek.Core.Json/JsonParser.cs:464-478 | `true` is read as true whatever follows it, consuming four bytes |
| `JsonParserFacts.FalseIgnoresWhatFollows` | src/Telefrek.Core.Json/JsonParser.cs:479-494 | `false` is read as false whatever follows it, consuming five bytes |
| `JsonParserFacts.ParseEmpty` | src/Telefrek.Core.Json/JsonParser.cs:158-161 | the empty buffer parses to null |
| `JsonParserFacts.UnclosedObjectAccepted` | src/Telefrek.Core.Json/JsonParser.cs:158-161 | `{` parses to an empty object; the stack is not checked at the end |
| `JsonParserFacts.UnopenedCloseFails` | src/Telefrek.Core.Json/JsonParser.cs:76-77 | `]` or `}` with nothing open faults on the empty stack |
| `JsonParserFacts.TwoPrimitivesFail` | src/Telefrek.Core.Json/JsonParser.cs:146-148 | two primitives in a row fail with the format fault |
| `JsonParserFacts.TrailingWhitespaceFails` | src/Telefrek.Core.Json/JsonParser.cs:341-362 | whitespace after a complete root makes the parse fail |
| `JsonParserFacts.CompletedReads` | src/Telefrek.Core.Json/JsonParser.cs:186-191 | a run of completed reads with no new bytes |
| `JsonParserFacts.StreamView` | src/Telefrek.Core.Json/JsonParser.cs:276-277 | the stream outcome of a buffer result: the same element, the same fault, or the stream's format fault where the buffer driver reports an unparsable buffer |
| `JsonParserFacts.CompletedStreamStep` | src/Telefrek.Core.Json/JsonParser.cs:245-289 | one pass on a completed read agrees with the buffer driver when the rest does |
| `JsonParserFacts.NothingLeftCompletes` | src/Telefrek.Core.Json/JsonParser.cs:289 | a completed read with an empty buffer ends with `current` |
| `JsonParserFacts.CompletedStream` | src/Telefrek.Core.Json/JsonParser.cs:172-292 | on completed reads the stream driver ends exactly as the buffer driver does from the same state |
| `JsonParserFacts.StreamMatchesBuffer` | src/Telefrek.Core.Json/JsonParser.cs:172-292 | a document delivered in one completed read parses as `ParseBuffer` parses it |
| `JsonParserFacts.NoResultBeforeCompletion` | src/Telefrek.Core.Json/JsonParser.cs:289 | no result is returned before a completed read |
| `JsonParserFacts.CancelledReadFaults` | src/Telefrek.Core.Json/JsonParser.cs:183 | cancellation before a read faults |
| `JsonParserFacts.SplitLiteralJoined` | src/Telefrek.Core.Json/JsonParser.cs:276-277 | a literal split across two reads is retained and then read whole |
| `JsonPrinter.DigitChar` | src/Telefrek.Core.Json/JsonNumber.cs:27 | a digit prints as its ASCII character |
| `JsonPrinter.Digits` | src/Telefrek.Core.Json/JsonNumber.cs:27 | a non-empty run of digits, one digit exactly below ten |
| `JsonPrinter.Decimal` | src/Telefrek.Core.Json/JsonNumber.cs:27 | the text of a long is numeric bytes, with a leading minus exactly for negatives |
| `JsonPrinter.DigitsRoundTrip` | src/Telefrek.Core.Json/JsonNumber.cs:27 | the digits read back as the number |
| `JsonPrinter.DecimalRoundTrip` | src/Telefrek.Core.Json/JsonNumber.cs:27 | the text of a long reads back as the long, sign included |
| `JsonPrinter.JoinIsTerminatedThenLast` | src/Telefrek.Core.Json/JsonArray.cs:31-36 | the loop's text (every part but the last with a separator, then the last) is the parts joined |
| `JsonPrinter.StringBuilder.constructor` | src/Telefrek.Core.Json/JsonExtensions.cs:21 | a new builder is empty |
| `JsonPrinter.StringBuilder.Append` | src/Telefrek.Core.Json/JsonArray.cs:29 | the text grows by exactly the appended bytes |
| `JsonPrinter.Print` | src/Telefrek.Core.Json/JsonElement.cs:24 | `Print` appends the element's compact text and nothing else |
| `JsonPrinter.PrintArray` | src/Telefrek.Core.Json/JsonArray.cs:25-39 | nothing for an empty array; otherwise `[`, the items joined by `,`, then `]` |
| `JsonPrinter.PrintJoined` | src/Telefrek.Core.Json/JsonArray.cs:30-36 | the loop appends the items joined by `,` |
| `JsonPrinter.PrintObject` | src/Telefrek.Core.Json/JsonObject.cs:37-53 | nothing for an empty object; otherwise `{`, the `"name":value` pairs joined by `,`, then `}` |
| `JsonPrinter.PrintMembers` | src/Telefrek.Core.Json/JsonObject.cs:42-50 | the loop appends the pairs joined by `,` |
| `JsonPrinter.PrettyPrint` | src/Telefrek.Core.Json/JsonElement.cs:31 | `PrettyPrint` appends the element's pretty text at the given depth |
| `JsonPrinter.PrettyPrintArray` | src/Telefrek.Core.Json/JsonArray.cs:42-56 | `[`, a newline and the tabs; the items at depth + 1 separated by `,`, a newline and the tabs; then a newline, the tabs and `]`, even when empty |
| `JsonPrinter.PrettyPrintJoined` | src/Telefrek.Core.Json/JsonArray.cs:47-53 | the loop appends the items joined by the separator line |
| `JsonPrinter.PrettyPrintObject` | src/Telefrek.Core.Json/JsonObject.cs:57-74 | nothing for an empty object; otherwise `{` and a newline, the member lines joined by `,` and a newline, then a newline, the tabs and `}` |
| `JsonPrinter.PrettyPrintMembers` | src/Telefrek.Core.Json/JsonObject.cs:62-71 | the loop appends the member lines joined by `,` and a newline |
| `JsonPrinter.ToString` | src/Telefrek.Core.Json/JsonElement.cs:72-77 | `ToString` is the compact text |
| `JsonPrinter.PrimitivesIgnoreDepth` | src/Telefrek.Core.Json/JsonBool.cs:21-24 | a primitive prints the same in both emitters at every depth |
| `JsonPrinter.EmptyContainers` | src/Telefrek.Core.Json/JsonArray.cs:27-55 | empty containers print nothing compactly; pretty-printed, an empty object prints nothing and an empty array prints its two lines |
| `JsonPrinter.PrettyArrayFixture` | test/Telefrek.Core.Json.Tests/JsonElementTests.cs:37 | `[-1,0,1,2,3]` at depth 1 pretty-prints as in the fixture |
| `JsonPrinter.CompactArrayFixture` | test/Telefrek.Core.Json.Tests/JsonElementTests.cs:36 | the same array compact-prints as in the sample |
| `JsonRoundTrip.AfterValue` | src/Telefrek.Core.Json/JsonParser.cs:137-149 | the state after a complete value is valid |
| `JsonRoundTrip.AttachPrimitiveAccepts` | src/Telefrek.Core.Json/JsonParser.cs:137-149 | where a value is expected, a primitive is attached without a fault |
| `JsonRoundTrip.CloseAccepts` | src/Telefrek.Core.Json/JsonParser.cs:76-111 | closing a container opened where a value was expected attaches it there |
| `JsonRoundTrip.RunOpenArray` | src/Telefrek.Core.Json/JsonParser.cs:71-75 | `[` opens an array and parsing continues on the rest |
| `JsonRoundTrip.RunOpenObject` | src/Telefrek.Core.Json/JsonParser.cs:89-94 | `{` opens an object, expecting a name |
| `JsonRoundTrip.RunClose` | src/Telefrek.Core.Json/JsonParser.cs:76-111 | a closing bracket closes the open container |
| `JsonRoundTrip.RunComma` | src/Telefrek.Core.Json/JsonParser.cs:112-116 | `,` expects a name exactly inside an object |
| `JsonRoundTrip.RunColon` | src/Telefrek.Core.Json/JsonParser.cs:117-120 | `:` clears the name flag |
| `JsonRoundTrip.RunCloseObjectIgnoresName` | src/Telefrek.Core.Json/JsonParser.cs:95-99 | `}` resets the name flag before it does anything else |
| `JsonRoundTrip.RunName` | src/Telefrek.Core.Json/JsonParser.cs:123-136 | a quoted name inside an object adds the property |
| `JsonRoundTrip.ScanNumberToken` | src/Telefrek.Core.Json/JsonParser.cs:301-335 | a numeric token followed by a delimiter is read whole |
| `JsonRoundTrip.PrimitiveTextHead` | src/Telefrek.Core.Json/JsonParser.cs:69-121 | a primitive's text starts with a byte that is neither whitespace nor structural |
| `JsonRoundTrip.ScanStringToken` | src/Telefrek.Core.Json/JsonParser.cs:440-448 | a printed string is read back as itself |
| `JsonRoundTrip.PrimitiveScans` | src/Telefrek.Core.Json/JsonParser.cs:420-498 | a primitive's text is read back as the primitive |
| `JsonRoundTrip.PrimitiveRoundTrip` | src/Telefrek.Core.Json/JsonParser.cs:137-149 | parsing a primitive's text attaches the primitive |
| `JsonRoundTrip.JoinFrom` | src/Telefrek.Core.Json/JsonArray.cs:31-36 | joined parts split into the head, the separator and the rest |
| `JsonRoundTrip.ValueRoundTrip` | src/Telefrek.Core.Json/JsonArray.cs:25-39 | parsing a value's compact text ends in the state with that value attached |
| `JsonRoundTrip.ArrayRoundTrip` | src/Telefrek.Core.Json/JsonArray.cs:25-39 | the same for a non-empty array |
| `JsonRoundTrip.LastItemRoundTrip` | src/Telefrek.Core.Json/JsonArray.cs:36 | the last item's text completes the array |
| `JsonRoundTrip.ItemThenComma` | src/Telefrek.Core.Json/JsonArray.cs:33-34 | an item's text and its comma append the item |
| `JsonRoundTrip.ItemsRoundTrip` | src/Telefrek.Core.Json/JsonArray.cs:31-36 | the items' joined text rebuilds every remaining item in order |
| `JsonRoundTrip.ObjectRoundTrip` | src/Telefrek.Core.Json/JsonObject.cs:37-53 | the same for a non-empty object |
| `JsonRoundTrip.MemberRoundTrip` | src/Telefrek.Core.Json/JsonObject.cs:45-46 | a `"name":value` text adds that property with its value |
| `JsonRoundTrip.LastMemberRoundTrip` | src/Telefrek.Core.Json/JsonObject.cs:49-50 | the last pair completes the object |
| `JsonRoundTrip.MemberThenComma` | src/Telefrek.Core.Json/JsonObject.cs:45-47 | a pair and its comma add the property and expect the next name |
| `JsonRoundTrip.MembersRoundTrip` | src/Telefrek.Core.Json/JsonObject.cs:43-50 | the pairs' joined text rebuilds every remaining property in order |
| `JsonRoundTrip.CompactRoundTrip` | src/Telefrek.Core.Json/JsonElement.cs:72-77 | the compact text of a printable element parses back to it |
| `JsonRoundTrip.PrintableIsPrettyPrintable` | src/Telefrek.Core.Json/JsonArray.cs:42-56 | what the compact text represents, the pretty text represents too |
| `JsonRoundTrip.Indent` | src/Telefrek.Core.Json/JsonObject.cs:72 | the closing line's prefix is non-empty whitespace |
| `JsonRoundTrip.PrettyHead` | src/Telefrek.Core.Json/JsonArray.cs:44 | pretty text starts with a byte that is not whitespace |
| `JsonRoundTrip.JoinHead` | src/Telefrek.Core.Json/JsonArray.cs:47-53 | joined text starts with the first part's first byte |
| `JsonRoundTrip.PrettyValueRoundTrip` | src/Telefrek.Core.Json/JsonArray.cs:42-56 | parsing a value's pretty text at any depth ends with that value attached |
| `JsonRoundTrip.OpenArrayLine` | src/Telefrek.Core.Json/JsonArray.cs:44 | the opening line of an array opens it |
| `JsonRoundTrip.CloseArrayLine` | src/Telefrek.Core.Json/JsonArray.cs:55 | the closing line of an array closes it |
| `JsonRoundTrip.ArrayLayout` | src/Telefrek.Core.Json/JsonArray.cs:42-56 | the array frame around a body that rebuilds the items attaches the array |
| `JsonRoundTrip.PrettyArrayRoundTrip` | src/Telefrek.Core.Json/JsonArray.cs:42-56 | parsing an array's pretty text attaches the array, empty or not |
| `JsonRoundTrip.NextLine` | src/Telefrek.Core.Json/JsonArray.cs:51 | a comma followed by a line break behaves as the comma |
| `JsonRoundTrip.CloseObjectLine` | src/Telefrek.Core.Json/JsonObject.cs:72 | the indentation before `}` is skipped |
| `JsonRoundTrip.PrettyLastItem` | src/Telefrek.Core.Json/JsonArray.cs:53 | the last item's pretty text completes the array |
| `JsonRoundTrip.PrettyItemThenComma` | src/Telefrek.Core.Json/JsonArray.cs:50-51 | an item's pretty text and its separator line append the item |
| `JsonRoundTrip.PrettyItemsRoundTrip` | src/Telefrek.Core.Json/JsonArray.cs:47-53 | the items' pretty text rebuilds every remaining item in order |
| `JsonRoundTrip.PrettyObjectRoundTrip` | src/Telefrek.Core.Json/JsonObject.cs:57-74 | parsing a non-empty object's pretty text attaches the object |
| `JsonRoundTrip.NameLine` | src/Telefrek.Core.Json/JsonObject.cs:66 | an indented quoted name adds the property |
| `JsonRoundTrip.SpacedColon` | src/Telefrek.Core.Json/JsonObject.cs:66 | ` : ` before a value is skipped |
| `JsonRoundTrip.MemberLine` | src/Telefrek.Core.Json/JsonObject.cs:66-67 | a member line adds the property and reads its value |
| `JsonRoundTrip.NameAccepted` | src/Telefrek.Core.Json/JsonParser.cs:123-136 | inside an object the next name is accepted and appended |
| `JsonRoundTrip.PrettyMemberRoundTrip` | src/Telefrek.Core.Json/JsonObject.cs:66-67 | a member line rebuilds that property with its value |
| `JsonRoundTrip.PrettyLastMember` | src/Telefrek.Core.Json/JsonObject.cs:70-72 | the last member line and the closing line complete the object |
| `JsonRoundTrip.PrettyMemberThenComma` | src/Telefrek.Core.Json/JsonObject.cs:66-68 | a member line and its `,` line break add the property and expect the next name |
| `JsonRoundTrip.PrettyMembersRoundTrip` | src/Telefrek.Core.Json/JsonObject.cs:64-72 | the member lines rebuild every remaining property in order |
| `JsonRoundTrip.PrettyRoundTrip` | src/Telefrek.Core.Json/JsonObject.cs:57-74 | the pretty text at depth 0 of a pretty-printable element parses back to it |
| `JsonFixture.InnerCompact` | test/Telefrek.Core.Json.Tests/JsonElementTests.cs:36 | the nested object `obj1` compact-prints as in the sample |
| `JsonFixture.CompactSample` | test/Telefrek.Core.Json.Tests/JsonElementTests.cs:36 | the sample document compact-prints as the test's `sample` text |
| `JsonFixture.InnerPretty` | test/Telefrek.Core.Json.Tests/JsonElementTests.cs:37 | the nested object pretty-prints at depth 1 as in the `pretty` text, its members one tab deeper |
| `JsonFixture.PrettySampleText` | test/Telefrek.Core.Json.Tests/JsonElementTests.cs:37 | the sample document pretty-prints as the test's `pretty` text |
| `JsonFixture.InnerPrintable` | test/Telefrek.Core.Json.Tests/JsonElementTests.cs:36 | the nested object's names and string are verbatim and its numbers read back |
| `JsonFixture.DocumentPrintable` | test/Telefrek.Core.Json.Tests/JsonElementTests.cs:36 | the whole sample document is printable, given that `1.234` and the small integers read back |
| `JsonFixture.ElementSerialization` | test/Telefrek.Core.Json.Tests/JsonElementTests.cs:36-46 | `AsJson` reads both texts as the sample document; the pretty text of the one read from `sample` is `pretty`, and the compact text of the one read from `pretty` is `sample` |
| `JsonRoundTrip.Reformat` | test/Telefrek.Core.Json.Tests/JsonElementTests.cs:36-46 | both texts of a printable element parse back to it, so compacting the parsed pretty text and pretty-printing the parsed compact text reproduce the two texts |
| `JsonSerialization.Registered` | src/Telefrek.Core.Json/Serialization/JsonSerializationFactory.cs:28-29 | registering never changes another key; a new key stores the serializer; an existing non-null entry is kept; an existing null entry is replaced only with `ignoreExists`; without `ignoreExists` the result says the key was new; with it, the result says the entry is non-null |
| `JsonSerialization.SerializerRegistry.constructor` | src/Telefrek.Core.Json/Serialization/JsonSerializationFactory.cs:11 | the registry starts empty |
| `JsonSerialization.SerializerRegistry.GetSerializer` | src/Telefrek.Core.Json/Serialization/JsonSerializationFactory.cs:18-19 | the registered serializer, or none for a missing key or a null entry |
| `JsonSerialization.SerializerRegistry.TryRegister` | src/Telefrek.Core.Json/Serialization/JsonSerializationFactory.cs:28-29 | the new entries and the result are those of `Registered`, and no other key's lookup changes |
| `JsonSerialization.FirstRegistrationWins` | src/Telefrek.Core.Json/Serialization/JsonSerializationFactory.cs:29 | after a first registration, a later one, with or without `ignoreExists`, keeps the first serializer |
| `JsonSerialization.RegisterIsolated` | src/Telefrek.Core.Json/Serialization/JsonSerializationFactory.cs:29 | registering one key leaves every other key's lookup unchanged |
| `JsonSerialization.RegisterThenGet` | src/Telefrek.Core.Json/Serialization/JsonSerializationFactory.cs:18-29 | a new key's serializer is stored, reported, and then found |
| `JsonSerialization.RegisterNullFails` | src/Telefrek.Core.Json/Serialization/JsonSerializationFactory.cs:29 | with `ignoreExists`, registering null where nothing usable is stored stores null and reports false |
| `JsonExtensions.ToJson` | src/Telefrek.Core.Json/JsonExtensions.cs:19-25 | `ToJson(e, true)` is the pretty text at depth 0 and `ToJson(e, false)` the compact text |
| `JsonExtensions.AsJson` | src/Telefrek.Core.Json/JsonExtensions.cs:56-64 | a null reference parses as the empty buffer (null); anything else is `ParseBuffer` |
| `JsonExtensions.AsJsonReadsToJson` | src/Telefrek.Core.Json/JsonExtensions.cs:19-64 | either text `ToJson` writes for a printable element reads back as that element |
| `JsonExtensions.AsJsonArray` | src/Telefrek.Core.Json/JsonExtensions.cs:156 | the element itself iff its tag is Array, otherwise a `JsonCastException` |
| `JsonExtensions.AsJsonObject` | src/Telefrek.Core.Json/JsonExtensions.cs:164 | the element itself iff its tag is Object, otherwise a `JsonCastException` |
| `JsonExtensions.AsString` | src/Telefrek.Core.Json/JsonExtensions.cs:172 | the string's value iff the element is a `JsonString`, otherwise a null dereference |
| `JsonExtensions.AsDouble` | src/Telefrek.Core.Json/JsonExtensions.cs:180 | the value iff the element is a `JsonDouble`, otherwise a null dereference |
| `JsonExtensions.AsLong` | src/Telefrek.Core.Json/JsonExtensions.cs:188 | the value iff the element is a `JsonNumber`, otherwise a null dereference |
| `JsonExtensions.AsInteger` | src/Telefrek.Core.Json/JsonExtensions.cs:196 | the low 32 bits iff the element is a `JsonNumber`, otherwise a null dereference |
| `JsonExtensions.AsBool` | src/Telefrek.Core.Json/JsonExtensions.cs:204 | the value iff the element is a `JsonBool`, otherwise a null dereference |
| `JsonExtensions.ConversionsReadBack` | src/Telefrek.Core.Json/JsonElement.cs:45-69 | each implicit conversion is undone by its accessor; the empty string is not, because it became null |
| `JsonExtensions.JsonObject.constructor` | src/Telefrek.Core.Json/JsonObject.cs:26 | a new object has no properties |
| `JsonExtensions.JsonObject.Value` | src/Telefrek.Core.Json/JsonObject.cs:20-26 | the object's element carries the Object tag and its current properties |
| `JsonExtensions.JsonObject.Add` | src/Telefrek.Core.Json/JsonExtensions.cs:215-216 | one property appended at the end, earlier ones kept, and `Has` finds the name |
| `JsonExtensions.JsonObject.AddBool` | src/Telefrek.Core.Json/JsonExtensions.cs:224-225 | appends the name with the converted bool |
| `JsonExtensions.JsonObject.AddString` | src/Telefrek.Core.Json/JsonExtensions.cs:233-234 | appends the name with the converted string; a null or empty string is stored as the null element |
| `JsonExtensions.JsonObject.AddInt` | src/Telefrek.Core.Json/JsonExtensions.cs:242-243 | appends the name with the widened int |
| `JsonExtensions.JsonObject.AddDouble` | src/Telefrek.Core.Json/JsonExtensions.cs:251-252 | appends the name with the converted double |
| `JsonExtensions.Serialize` | src/Telefrek.Core.Json/JsonExtensions.cs:43-48 | the registered serializer's element, or `JsonSerializationException` iff no serializer is registered |
| `JsonExtensions.ToJsonOf` | src/Telefrek.Core.Json/JsonExtensions.cs:34-35 | `Serialize` followed by `ToJson`, failing exactly when `Serialize` fails |
| `JsonExtensions.FromJson` | src/Telefrek.Core.Json/JsonExtensions.cs:84-103 | a missing serializer is reported before the text is parsed; otherwise a parse fault, or the parsed element deserialized |
| `JsonExtensions.SerializerRoundTrip` | test/Telefrek.Core.Json.Tests/JsonSerializationTests.cs:13-31 | an instance whose serializer reads back its own printable element survives `ToJson` then `FromJson`, in either layout |
| `MathExtensions.GcdDivides` | Core/MathematicalExtensions.cs:9-46 | the reference GCD divides both arguments |
| `MathExtensions.GcdGreatest` | Core/MathematicalExtensions.cs:9-46 | every common divisor divides the reference GCD |
| `MathExtensions.GcdIsGcd` | Core/MathematicalExtensions.cs:9-46 | the reference GCD is a greatest common divisor |
| `MathExtensions.GcdUnique` | Core/MathematicalExtensions.cs:9-46 | a greatest common divisor is the reference GCD |
| `MathExtensions.GcdCommutes` | Core/MathematicalExtensions.cs:35-40 | swapping the arguments does not change the GCD |
| `MathExtensions.GcdDouble` | Core/MathematicalExtensions.cs:21-25 | a shared factor of two comes out of the GCD |
| `MathExtensions.GcdHalve` | Core/MathematicalExtensions.cs:27-33 | a factor of two that the other argument lacks is not in the GCD |
| `MathExtensions.GcdSubtract` | Core/MathematicalExtensions.cs:42 | subtracting the smaller from the larger keeps the GCD |
| `MathExtensions.GcdBound` | Core/MathematicalExtensions.cs:45 | the GCD is at most the larger argument, so the result fits the width |
| `MathExtensions.HalveBoth` | Core/MathematicalExtensions.cs:21-25 | halving both and counting the shift keeps the shifted GCD |
| `MathExtensions.HalveLeft` | Core/MathematicalExtensions.cs:27-28 | halving an even `x` against an odd `y` keeps the GCD |
| `MathExtensions.HalveRight` | Core/MathematicalExtensions.cs:32-33 | halving an even `y` against an odd `x` keeps the GCD |
| `MathExtensions.Stein` | Core/MathematicalExtensions.cs:15-46 | the shift, strip, swap and subtract loops on non-negative arguments return the GCD |
| `MathExtensions.SteinAnswerIsGreatest` | Core/MathematicalExtensions.cs:17-19 | that answer is the greatest common divisor; `GCD(x, 0) = x` and `GCD(0, y) = y` |
| `MathExtensions.GcdUInt32` | Core/MathematicalExtensions.cs:54-85 | the `uint` overload returns the GCD |
| `MathExtensions.GcdUInt64` | Core/MathematicalExtensions.cs:133-164 | the `ulong` overload returns the GCD |
| `MathExtensions.GcdInt32` | Core/MathematicalExtensions.cs:15-46 | the `int` overload, corrected: the GCD of the magnitudes, equal to the source's on non-negative arguments |
| `MathExtensions.GcdInt64` | Core/MathematicalExtensions.cs:94-125 | the `long` overload, corrected in the same way |
| `MathExtensions.ZeroShortcut` | Core/MathematicalExtensions.cs:18-19 | the early returns as written: present iff an argument is zero; the magnitude is the GCD of the magnitudes, but the result is negative iff an argument is |
| `MathExtensions.CommonTwos` | Core/MathematicalExtensions.cs:21-25 | the first loop as written, on any signs: afterwards the values are non-zero, not both even, and no larger in magnitude |
| `MathExtensions.OddPart` | Core/MathematicalExtensions.cs:27-28 | the stripping loop as written gives an odd value of the same sign |
| `MathExtensions.SignedPass` | Core/MathematicalExtensions.cs:30-43 | one pass of the last loop as written, on any signs |
| `MathExtensions.NegativeArgumentStart` | Core/MathematicalExtensions.cs:17-28 | `GCD(-4, 6)` reaches the last loop at (-1, 3) |
| `MathExtensions.NegativeArgumentLoops` | Core/MathematicalExtensions.cs:30-43 | from (-1, 3) the last loop reaches (-1, 2) and then stays there |
| `MathExtensions.NegativeResultsTerminate` | Core/MathematicalExtensions.cs:15-46 | as written, `GCD(0, -5)` returns -5, `GCD(-2, -4)` ends at (-1, 0) after one halving, so returns -2, and `GCD(-3, -3)` ends at (-3, 0), so returns -3 |
| `MathBits.SmearIsOnes` | Core/MathematicalExtensions.cs:188-192 | the five or-shifts turn `x` into all ones up to its highest set bit |
| `MathBits.IsolateLowest` | Core/MathematicalExtensions.cs:202 | `x & -x` keeps only the lowest set bit |
| `MathBits.MsbTable` | Core/MathematicalExtensions.cs:169-173 | the De Bruijn index of `2^(k+1) - 1` finds `k` in the MSB table, for every `k` |
| `MathBits.LsbTable` | Core/MathematicalExtensions.cs:175-179 | the De Bruijn index of `2^k` finds `k` in the LSB table, for every `k` |
| `MathBits.MsbIsHighestSetBit` | Core/MathematicalExtensions.cs:186-195 | `MSB(x)` is the index of the highest set bit |
| `MathBits.LsbIsLowestSetBit` | Core/MathematicalExtensions.cs:202 | `LSB(x)` is the index of the lowest set bit |
| `MathBits.ZeroLookups` | Core/MathematicalExtensions.cs:186-202 | `MSB` and `LSB` of 0 and of 1 are 0 |
| `MathBits.LowestSetBit` | Core/MathematicalExtensions.cs:202 | a reference search: the lowest set bit of a non-zero word |
| `MathBits.LsbIsLowestSearch` | Core/MathematicalExtensions.cs:202 | `LSB` agrees with the reference search |
| `MathBits.HighestSetBit` | Core/MathematicalExtensions.cs:186-195 | a reference search: the highest set bit of a non-zero word |
| `MathBits.MsbIsHighestSearch` | Core/MathematicalExtensions.cs:186-195 | `MSB` agrees with the reference search |
| `BitMasks.WordCount` | Core/BitMask.cs:26 | enough 64-bit words for `size` bits, and not one more |
| `BitMasks.SetBit` | Core/BitMask.cs:75-87 | the words keep their count |
| `BitMasks.ClearBit` | Core/BitMask.cs:109-116 | the words keep their count |
| `BitMasks.TestSetBit` | Core/BitMask.cs:75-87 | after `Set(b)`, bit `c` is set iff `c = b` or it was set before |
| `BitMasks.TestClearBit` | Core/BitMask.cs:109-116 | after `Clear(b)`, bit `c` is set iff `c ≠ b` and it was set before |
| `BitMasks.Bits` | Core/BitMask.cs:95-102 | 64 bits per word, bit `b` in word `b >> 6` at position `63 - (b & 63)` |
| `BitMasks.BitsSetBit` | Core/BitMask.cs:75-87 | `Set(b)` sets bit `b` of the bit sequence and nothing else, or changes nothing out of range |
| `BitMasks.BitsClearBit` | Core/BitMask.cs:109-116 | `Clear(b)` clears bit `b` of the bit sequence and nothing else, or changes nothing out of range |
| `BitMasks.HighestClearBelow` | Core/BitMask.cs:143-171 | a reference search: the highest clear bit below a bound, or -1 |
| `BitMasks.HighestClearBelowIsHighest` | Core/BitMask.cs:143-171 | it is -1 only when every bit below the bound is set; otherwise the bit is clear and every bit above it is set |
| `BitMasks.HighestClearBelowFound` | Core/BitMask.cs:143-171 | a clear bit with only set bits above it is the one found |
| `BitMasks.HighestClearOfWords` | Core/BitMask.cs:143-171 | -1 iff every word is all ones; otherwise a clear bit with every higher bit set |
| `BitMasks.HighestClearOfZeros` | Core/BitMask.cs:143-171 | a mask of zero words offers its last bit |
| `BitMasks.FindSlot` | Core/BitMask.cs:143-171 | the loop from the last word down, trying each word's lower half before its upper half, finds the highest clear bit |
| `BitMasks.AsWrittenBits` | Core/BitMask.cs:22-30 | the bits a fresh mask has as the constructor is written, covering every word |
| `BitMasks.PaddedBits` | Core/BitMask.cs:22-30 | the bits a fresh mask has when the positions past its length are marked taken |
| `BitMasks.AsWrittenWords` | Core/BitMask.cs:27-28 | words with the lowest `size % 64` positions of the last word set have the as-written bits |
| `BitMasks.PaddedWords` | Core/BitMask.cs:27-28 | words with the padding positions set have the padded bits |
| `BitMasks.AsWrittenFreshSlot` | Core/BitMask.cs:22-30 | as written, a fresh mask whose length is not a multiple of 64 offers slot `64 * (size / 64) + 63 - size % 64` |
| `BitMasks.AsWrittenSlotPastEnd` | Core/BitMask.cs:22-30 | as written, a fresh one-bit mask offers slot 62 |
| `BitMasks.PaddedFreshSlot` | Core/BitMask.cs:22-30 | a fresh padded mask offers slot `size - 1`, or -1 when empty |
| `BitMasks.UniformWords` | Core/BitMask.cs:195-216 | all-ones words have every bit set, and zero words none |
| `BitMasks.BitMask.constructor` | Core/BitMask.cs:22-30 | as written: `ceil(size / 64)` words, all zero except the lowest `size % 64` positions of the last word |
| `BitMasks.BitMask.Padded` | Core/BitMask.cs:22-30 | corrected: the same words, with the positions past the length set instead |
| `BitMasks.BitMask.Load` | Core/BitMask.cs:36-46 | refused, with nothing changed, iff the lengths differ; otherwise the words are copied |
| `BitMasks.BitMask.IsSet` | Core/BitMask.cs:95-102 | true for a bit whose word does not exist; otherwise the bit |
| `BitMasks.BitMask.Set` | Core/BitMask.cs:75-87 | true iff the word exists and the bit was clear; the words become `SetBit` of the old ones |
| `BitMasks.BitMask.Clear` | Core/BitMask.cs:109-116 | the words become `ClearBit` of the old ones |
| `BitMasks.BitMask.SetItem` | Core/BitMask.cs:122-137 | the setter is inverted: `true` clears and `false` sets, and afterwards `IsSet` is the negation of the value |
| `BitMasks.BitMask.NextAvailableSlot` | Core/BitMask.cs:143-171 | the highest clear bit, or -1 when every word is all ones |
| `BitMasks.BitMask.SetAll` | Core/BitMask.cs:195-203 | every word all ones, so every bit set |
| `BitMasks.BitMask.ClearAll` | Core/BitMask.cs:208-216 | every word zero, so no bit set |

## Left out

- `ParseAsync`'s `PipeReader`, `async`/`await` and `AdvanceTo`. These are I/O. The driver runs on an abstract sequence of reads, each holding new bytes, `IsCompleted`, and whether cancellation was requested before it.
- Multi-segment buffers. `TryGet` and `FirstSpan` look only at the first segment; the model's buffer is one contiguous sequence of bytes.
- UTF-8 decoding and encoding. Names and strings keep their bytes.
- `double`. Parsing, the `n % 1` integral test, the `(long)` cast and the text of a `JsonDouble` are parameters.
- Culture-aware comparison in `Has`. Only ASCII letters are folded.
- `WriteAsync` of every element class. It is stream I/O.
- `JsonSerializationFactory`'s static, concurrent dictionary. It is a registry object with a map, and the model is sequential.
- The locks in `BitMask`. The model is sequential.
- `BitMask.Resize`, `ToString`, `GetHashCode` and `ToBytes`. None of them is one of the operations modelled here. `BitMask.raw` is therefore a constant reference.
- `BitMasks.BitMask.IsSet`, `BitMasks.BitMask.Set`, `BitMasks.BitMask.Clear` and `BitMasks.BitMask.SetItem` require a non-negative bit. The source takes an `int`, and a negative bit gives a negative word index and an `IndexOutOfRangeException`.
- `BitMasks.BitMask.constructor` takes `size: nat`, so it excludes a negative size. The source accepts any `int` and a negative size throws: a multiple of 64 gives a negative array length (`OverflowException`), and any other gives a write at index -1 (`IndexOutOfRangeException`).
- `BitMasks.BitMask.constructor`: the length is unbounded. The source's `(n << 6)` and `int` size can overflow for masks of more than 2^31 bits.
- `JsonExtensions.JsonObject.Add` takes an `Element`, so it cannot store a null reference. The source's `Add<T>(name, null)` stores a property with a null `Value`, and printing the object afterwards throws `NullReferenceException`.
- `BitMasks.BitMask.Load` reports a length mismatch as `false` rather than throwing `ArgumentOutOfRangeException`.
- `BitMasks.FindSlot` omits the source's zero test on the upper half of a word. Once the word's complement is non-zero and its lower half is zero, that test always succeeds.
- `BitMasks.BitMask.NextAvailableSlot` searches a snapshot of the words. Under the lock nothing else changes them.
- `MathExtensions.GcdInt32` and `MathExtensions.GcdInt64` return a `nat`, the divisor of the magnitudes. The source differs on every negative argument:
  - the divisor can be 2^31 or 2^63, which the signed type does not hold;
  - a zero argument returns the other one with its sign, so `GCD(0, -5)` is -5 and `GCD(-5, 0)` is -5;
  - some negative arguments end with a negative result: `GCD(-2, -4)` is -2 and `GCD(-3, -3)` is -3;
  - others never return: `GCD(-4, 6)` loops.
- `MathExtensions.Stein` exchanges the values directly instead of with the source's three `^=`. The two are equal, and the exchange is what the loop relies on.

## Findings

| source | as written | input that shows it | evidently intended | confidence | as-written member | corrected member |
|---|---|---|---|---|---|---|
| Core/MathematicalExtensions.cs:15-46 | the signed overloads run the unsigned loop on negative values; from (-1, 2) a pass returns to (-1, 2) with `y` non-zero | `GCD(-4, 6)` never returns | the GCD of the magnitudes, as for the unsigned overloads | not executed | `MathExtensions.NegativeArgumentLoops` | `MathExtensions.GcdInt32` |
| Core/MathematicalExtensions.cs:15-46 | on negative arguments that do terminate, the signed overloads return a negative value: a zero argument returns the other one with its sign (line 18-19), and the loops end on a negative odd `x` | `GCD(0, -5)` returns -5; `GCD(-2, -4)` returns -2; `GCD(-3, -3)` returns -3 | 5, 2 and 3, the GCD of the magnitudes | not executed | `MathExtensions.NegativeResultsTerminate` | `MathExtensions.GcdInt32` |
| Core/BitMask.cs:22-30 | the constructor sets positions `0 .. size % 64 - 1` of the last word with `1UL << i`, but bit `b` is read at position `63 - (b & 63)`, so it marks slots at the top of the word as taken instead of the slots past the length | `new BitMask(1).NextAvailableSlot()` returns 62, past the mask's length | the positions past the length are marked taken, so the first slot offered is `size - 1` | not executed | `BitMasks.AsWrittenSlotPastEnd` | `BitMasks.PaddedFreshSlot` |
