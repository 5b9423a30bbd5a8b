# JSON-Service core in Dafny

A model of the core of JSON-Service, a small Java JSON-RPC server library, with
proofs about it:

- `registry.dfy`: the `JsonServiceRegistry` class, which maps class names to
  service invokers and holds the handlers. A handler reads a request, hands it
  to the invoker and writes responses or JSON-RPC error objects to an output
  stream. It is imperative, as in the source: the registry, the output stream
  and the shared `JsonServiceError.INVALID_REQUEST` object are classes with
  mutable fields. Each handler method is proved against a function in
  `dispatch.dfy`. The register, unregister and `setRegistry` methods are proved
  against `Registered`, `FromClasses` and map removal in `registry.dfy` itself.
- `dispatch.dfy`: what the handlers write and how the shared error object
  changes, as functions, with lemmas about batches, about failures and about
  the error responses.
- `json.dfy`, `json_util.dfy`: the JSON tree (objects keep their field order),
  the conversion of Java lists and maps to JSON (`toJson`) as loops proved
  against functions, and the JSON-RPC error object, which can be read back.
- `data_uri.dfy`, `base64.dfy`, `java_strings.dfy`: the `DataURI` class (the
  data URI of RFC 2397) with its `parse` and `toString`, and the unpadded
  URL-safe base64 of section 5 of RFC 4648 that it uses. `java_strings.dfy`
  holds the parts of `java.lang.String` it relies on. The proofs cover the
  base64 round trip and the format-then-parse round trip, including where it
  fails.
- `naming.dfy`: the two Jackson property-naming strategies.

The invoker (reflection over the registered class) is not modelled. It is a
parameter: a `ServiceClass` holds the answers of `process(request, node)` and
`process(request, method, args)`, and its service mapping description. The
exceptions raised inside the handlers are also parameters, in `Runtime`:
the JVM's NullPointerException on a null request node and on a null invoker,
and the invalid-request `JsonServiceException` that `handleNode` throws
explicitly (JsonServiceRegistry.java line 623). The exception is a parameter
because its class is not part of this model.

### Where the code and its documentation differ (the model follows the code)

- A batch stops at the first element that throws. The exception propagates out
  of `handleArray`, so one error response is written and the remaining elements
  are not handled. The documented behaviour is that every element is answered
  independently (`Dispatch.BatchFirstFailure`).
- Batch responses are written one after another as bare values, with no
  enclosing array. A nested array, at any position and whether or not it
  fails, is flattened into the batch
  (`Dispatch.BatchAnswersInOrder`, `Dispatch.NestedBatchFlattened`).
- A request that cannot be read gets two error responses, not one. After the
  first catch block the null node is still passed to `handleNode`
  (`Dispatch.UnreadableRequestTwoResponses`).
- The error object is one shared static instance. Its message and data outlive
  the request that set them. Once data is set, later stack traces are never
  reported (`Dispatch.StaleTraceKept`).

## Model

| member | source | states |
|---|---|---|
| Registry.Registered | json-service/src/main/java/org/stefaniuk/json/service/JsonServiceRegistry.java:132-141 | the registry gains the class name; an absent name is mapped to the new invoker, and a name already present keeps its first invoker |
| Registry.RegisterIdempotent | json-service/src/main/java/org/stefaniuk/json/service/JsonServiceRegistry.java:135-138 | registering a second invoker under a name already registered leaves the registry unchanged |
| Registry.FromClassesKeys | json-service/src/main/java/org/stefaniuk/json/service/JsonServiceRegistry.java:168-176 | after setRegistry the registered names are exactly the names of the given classes |
| Registry.FromClassesFirstWins | json-service/src/main/java/org/stefaniuk/json/service/JsonServiceRegistry.java:168-176 | after setRegistry each name maps to an invoker for the first class carrying it |
| Registry.FromClassesMissing | json-service/src/main/java/org/stefaniuk/json/service/JsonServiceRegistry.java:168-176 | a name no given class carries is not registered after setRegistry (the old registry is cleared) |
| Registry.OutputStream.Write | json-service/src/main/java/org/stefaniuk/json/service/JsonServiceRegistry.java:300 | mapper.writeValue appends exactly one value to what the stream holds |
| Registry.JsonServiceError.SetMessage | json-service/src/main/java/org/stefaniuk/json/service/JsonServiceRegistry.java:314 | setMessage changes the message and nothing else |
| Registry.JsonServiceError.SetData | json-service/src/main/java/org/stefaniuk/json/service/JsonServiceRegistry.java:501 | setData changes the data and nothing else |
| Registry.JsonServiceRegistry.constructor | json-service/src/main/java/org/stefaniuk/json/service/JsonServiceRegistry.java:87-94 | a new registry is empty |
| Registry.JsonServiceRegistry.RegisterClass | json-service/src/main/java/org/stefaniuk/json/service/JsonServiceRegistry.java:132-141 | register(clazz) updates the map as Registered says; the class can be looked up afterwards, and a class not registered before is found with an invoker for that class |
| Registry.JsonServiceRegistry.RegisterObject | json-service/src/main/java/org/stefaniuk/json/service/JsonServiceRegistry.java:150-159 | register(obj) registers an invoker bound to the object under its class name, unless the name is taken; lookup then finds that invoker when the name was absent |
| Registry.JsonServiceRegistry.SetRegistry | json-service/src/main/java/org/stefaniuk/json/service/JsonServiceRegistry.java:168-176 | setRegistry clears the map and registers the classes in order (loop invariant: the map after i classes is FromClasses(classes, i)) |
| Registry.JsonServiceRegistry.UnregisterClass | json-service/src/main/java/org/stefaniuk/json/service/JsonServiceRegistry.java:184-193 | unregister(clazz) removes exactly that name; lookup then finds nothing |
| Registry.JsonServiceRegistry.UnregisterObject | json-service/src/main/java/org/stefaniuk/json/service/JsonServiceRegistry.java:201-210 | unregister(obj) removes exactly the object's class name |
| Registry.JsonServiceRegistry.ClearRegistry | json-service/src/main/java/org/stefaniuk/json/service/JsonServiceRegistry.java:217-223 | clearRegistry leaves the map empty |
| Registry.JsonServiceRegistry.Lookup | json-service/src/main/java/org/stefaniuk/json/service/JsonServiceRegistry.java:231-236 | lookup finds an invoker iff the class name is registered, and then the registered one (null otherwise) |
| Registry.JsonServiceRegistry.GetServiceMap | json-service/src/main/java/org/stefaniuk/json/service/JsonServiceRegistry.java:245-255 | writes the service mapping description of a registered class; an unregistered class writes nothing (the null dereference is only logged) |
| Registry.JsonServiceRegistry.HandleObject | json-service/src/main/java/org/stefaniuk/json/service/JsonServiceRegistry.java:687-695 | writes the invoker's response to a request object, or reports what the invoker threw (a null invoker throws) |
| Registry.JsonServiceRegistry.HandleNode | json-service/src/main/java/org/stefaniuk/json/service/JsonServiceRegistry.java:612-625 | writes and throws what DispatchNode says: objects are processed, arrays handled element by element, anything else is an invalid request |
| Registry.JsonServiceRegistry.HandleArray | json-service/src/main/java/org/stefaniuk/json/service/JsonServiceRegistry.java:641-648 | the loop writes what BatchUpTo says and stops at the first element that throws, propagating that failure |
| Registry.JsonServiceRegistry.HandleCall | json-service/src/main/java/org/stefaniuk/json/service/JsonServiceRegistry.java:591-596 | handleNode/handleObject with a method name: writes the invoker's return value or reports its exception |
| Registry.JsonServiceRegistry.Report | json-service/src/main/java/org/stefaniuk/json/service/JsonServiceRegistry.java:484-511 | a catch block: updates the shared error object as Caught says and writes one error response built from it |
| Registry.JsonServiceRegistry.Conclude | json-service/src/main/java/org/stefaniuk/json/service/JsonServiceRegistry.java:306-323 | after handleNode returned, the second catch block writes an error response exactly when it threw |
| Registry.JsonServiceRegistry.HandleUnreadable | json-service/src/main/java/org/stefaniuk/json/service/JsonServiceRegistry.java:289-323 | a request that cannot be read: the error object is written as it stands, then the null node's failure is reported |
| Registry.JsonServiceRegistry.HandleParsed | json-service/src/main/java/org/stefaniuk/json/service/JsonServiceRegistry.java:306-323 | a readable request: what handleNode writes, then one error response if it threw |
| Registry.JsonServiceRegistry.HandleDocument | json-service/src/main/java/org/stefaniuk/json/service/JsonServiceRegistry.java:286-326 | output and error state of the node handlers equal HandleSpec for the read document or the read failure |
| Registry.JsonServiceRegistry.HandleStream | json-service/src/main/java/org/stefaniuk/json/service/JsonServiceRegistry.java:286-326 | handle(InputStream, os, clazz) meets HandleSpec with the stream catch block (message of the exception itself) |
| Registry.JsonServiceRegistry.HandleRequest | json-service/src/main/java/org/stefaniuk/json/service/JsonServiceRegistry.java:460-519 | handle(request, os, clazz) meets HandleSpec with the request catch block (unwrapped message, trace as data only when none is set) |
| Registry.JsonServiceRegistry.HandleMethodCall | json-service/src/main/java/org/stefaniuk/json/service/JsonServiceRegistry.java:338-377 | the method-call handlers write the call's value, or one error response when it threw |
| Registry.JsonServiceRegistry.HandleStreamCall | json-service/src/main/java/org/stefaniuk/json/service/JsonServiceRegistry.java:338-377 | handle(is, os, clazz, method, args) meets HandleCallSpec with the stream catch block |
| Registry.JsonServiceRegistry.HandleRequestCall | json-service/src/main/java/org/stefaniuk/json/service/JsonServiceRegistry.java:531-574 | handle(request, os, clazz, method, args) meets HandleCallSpec with the unwrapping catch block |
| Registry.JsonServiceRegistry.HandleHttp | json-service/src/main/java/org/stefaniuk/json/service/JsonServiceRegistry.java:387-413 | registers the class; a GET writes its service map and leaves the error object alone, any other method is handled as a request with the registered invoker |
| Registry.JsonServiceRegistry.HandleHttpObject | json-service/src/main/java/org/stefaniuk/json/service/JsonServiceRegistry.java:423-450 | as HandleHttp, with the object registered under its class name |
| Dispatch.DispatchNode | json-service/src/main/java/org/stefaniuk/json/service/JsonServiceRegistry.java:612-625 | an object yields at most one written value, exactly one iff nothing was thrown; a value that is neither object nor array yields the invalid-request failure and no output |
| Dispatch.CallTrace | json-service/src/main/java/org/stefaniuk/json/service/JsonServiceRegistry.java:664-672 | a direct call writes at most one value, exactly one iff it did not throw |
| Dispatch.BatchFailureSticky | json-service/src/main/java/org/stefaniuk/json/service/JsonServiceRegistry.java:645-647 | once an element has thrown, the rest of the array is not handled |
| Dispatch.BatchOutputGrows | json-service/src/main/java/org/stefaniuk/json/service/JsonServiceRegistry.java:645-647 | what the loop has written after i elements is a prefix of what it has written after more |
| Dispatch.BatchFirstFailure | json-service/src/main/java/org/stefaniuk/json/service/JsonServiceRegistry.java:641-648 | a failing batch failed at one element k: all before it succeeded, the output is theirs plus element k's, and k's failure is the batch's |
| Dispatch.BatchAnswersInOrder | json-service/src/main/java/org/stefaniuk/json/service/JsonServiceRegistry.java:641-648 | a batch of objects the invoker all answers writes exactly the responses, one per element, in order, as bare values |
| Dispatch.SingletonBatchIsElement | json-service/src/main/java/org/stefaniuk/json/service/JsonServiceRegistry.java:616-621 | a one-element array is handled exactly like its element (no array is written around it) |
| Dispatch.BatchConcat | json-service/src/main/java/org/stefaniuk/json/service/JsonServiceRegistry.java:641-648 | handling xs + ys equals handling xs and then ys, when xs does not fail |
| Dispatch.BatchPrefix | json-service/src/main/java/org/stefaniuk/json/service/JsonServiceRegistry.java:645-647 | the first n elements of xs + ys are handled as the first n elements of xs |
| Dispatch.NestedHeadFlattened | json-service/src/main/java/org/stefaniuk/json/service/JsonServiceRegistry.java:616-621 | an array at the head of a batch is handled as if its elements were spliced into the batch, also when it fails |
| Dispatch.NestedBatchFlattened | json-service/src/main/java/org/stefaniuk/json/service/JsonServiceRegistry.java:616-621 | an array nested at any position of a batch is handled as if its elements were spliced in at that position, also when it or an element before it fails |
| Dispatch.UnregisteredClass | json-service/src/main/java/org/stefaniuk/json/service/JsonServiceRegistry.java:231-236 | with no registered invoker every request object fails with the null-invoker exception and writes nothing; an empty batch writes nothing |
| Dispatch.Caught | json-service/src/main/java/org/stefaniuk/json/service/JsonServiceRegistry.java:484-507 | the request handlers report the target of an InvocationTargetException, the stream handlers the exception itself; the request-node handler sets the trace as data only when data is null |
| Dispatch.FinishAfterTrace | json-service/src/main/java/org/stefaniuk/json/service/JsonServiceRegistry.java:306-323 | the output of the second try block is what handleNode wrote followed by what the catch block writes |
| Dispatch.UnreadableRequestTwoResponses | json-service/src/main/java/org/stefaniuk/json/service/JsonServiceRegistry.java:289-323 | an unreadable request gets exactly two error responses: the first from the error object as it stood, the second with the null dereference's message |
| Dispatch.ReadableRequestReply | json-service/src/main/java/org/stefaniuk/json/service/JsonServiceRegistry.java:306-323 | a readable request: handleNode's output, then one error response iff it threw, reporting the caught message; success leaves the error object unchanged |
| Dispatch.StaleTraceKept | json-service/src/main/java/org/stefaniuk/json/service/JsonServiceRegistry.java:496-507 | once the shared error object has data, every later request-node failure reports that same data |
| Dispatch.InvocationTargetUnwrapped | json-service/src/main/java/org/stefaniuk/json/service/JsonServiceRegistry.java:489-495 | for an InvocationTargetException the request handlers report the target's message, the stream handlers the wrapper's |
| Dispatch.CallReply | json-service/src/main/java/org/stefaniuk/json/service/JsonServiceRegistry.java:551-571 | a call that returns writes only its value and leaves the error object alone |
| Json.Put | json-service/src/main/java/org/stefaniuk/json/service/JsonServiceUtil.java:375-414 | ObjectNode.put: the name maps to the new value, other names keep theirs, a new name is appended to the field order and an existing one keeps its place |
| Json.PutValid | json-service/src/main/java/org/stefaniuk/json/service/JsonServiceUtil.java:375-414 | put keeps an object's names distinct and in step with its fields |
| JsonUtil.ElementNode | json-service/src/main/java/org/stefaniuk/json/service/JsonServiceUtil.java:308-351 | the node for one element is absent exactly for a number of a class toJson does not test for |
| JsonUtil.ElementToJson | json-service/src/main/java/org/stefaniuk/json/service/JsonServiceUtil.java:308-351 | the branch of toJson for one element produces ElementNode |
| JsonUtil.ListToJson | json-service/src/main/java/org/stefaniuk/json/service/JsonServiceUtil.java:303-356 | the loop of toJson(List) produces ListNode (loop invariant: the array after i elements is ListUpTo(list, i)) |
| JsonUtil.MapToJson | json-service/src/main/java/org/stefaniuk/json/service/JsonServiceUtil.java:364-420 | the loop of toJson(Map) produces MapNode |
| JsonUtil.ListFailureSticky | json-service/src/main/java/org/stefaniuk/json/service/JsonServiceUtil.java:307-353 | an exception while converting one element is the exception of the whole list |
| JsonUtil.MapFailureSticky | json-service/src/main/java/org/stefaniuk/json/service/JsonServiceUtil.java:368-417 | an exception while converting one entry is the exception of the whole map |
| JsonUtil.ListUpToShape | json-service/src/main/java/org/stefaniuk/json/service/JsonServiceUtil.java:303-356 | the list converts iff every element does; the array is never longer than the list, and as long as it exactly when no number is skipped, in which case node j is element j's node |
| JsonUtil.ListKeepsOrder | json-service/src/main/java/org/stefaniuk/json/service/JsonServiceUtil.java:303-356 | whatever is skipped, the array holds one node per element that is not skipped, in list order, each that element's node |
| JsonUtil.ListKeepsEverything | json-service/src/main/java/org/stefaniuk/json/service/JsonServiceUtil.java:303-356 | with no skipped number the array has exactly one node per element, the element's own, in order |
| JsonUtil.ListDropsUnknownNumbers | json-service/src/main/java/org/stefaniuk/json/service/JsonServiceUtil.java:308-332 | a number of an unknown class makes the array shorter than the list |
| JsonUtil.ScalarsCopied | json-service/src/main/java/org/stefaniuk/json/service/JsonServiceUtil.java:333-338 | strings and booleans are added as they are |
| JsonUtil.NestedListNested | json-service/src/main/java/org/stefaniuk/json/service/JsonServiceUtil.java:339-341 | a nested list becomes a nested array |
| JsonUtil.KeptNamesFromKeys | json-service/src/main/java/org/stefaniuk/json/service/JsonServiceUtil.java:368-417 | a name that is no entry's key is not a field of the result |
| JsonUtil.MapStep | json-service/src/main/java/org/stefaniuk/json/service/JsonServiceUtil.java:368-370 | a successful step had a String key and a convertible value, and put its node under that key |
| JsonUtil.MapStringKeys | json-service/src/main/java/org/stefaniuk/json/service/JsonServiceUtil.java:369 | a map converts only if every key is a String |
| JsonUtil.NonStringKeyFails | json-service/src/main/java/org/stefaniuk/json/service/JsonServiceUtil.java:369 | a key that is not a String makes toJson(Map) throw ClassCastException |
| JsonUtil.MapKeysInOrder | json-service/src/main/java/org/stefaniuk/json/service/JsonServiceUtil.java:364-420 | the object's field names are the String keys whose values are kept, in key-set order, each once |
| JsonUtil.MapValues | json-service/src/main/java/org/stefaniuk/json/service/JsonServiceUtil.java:372-416 | each key maps to its value's node; a key whose value is skipped is absent |
| JsonUtil.TwoEntries | json-service/src/main/java/org/stefaniuk/json/service/JsonServiceUtil.java:364-420 | two String keys with a String and a Boolean value give those two fields in key order |
| JsonUtil.ErrorFields | json-service/src/main/java/org/stefaniuk/json/service/JsonServiceUtil.java:424-434 | the error member holds "code" and "message", and "data" only when data is not null, in that order |
| JsonUtil.Envelope | json-service/src/main/java/org/stefaniuk/json/service/JsonServiceUtil.java:428-435 | the response has the fields "jsonrpc" = "2.0", "error" and "id", in that order |
| JsonUtil.ErrorNode | json-service/src/main/java/org/stefaniuk/json/service/JsonServiceUtil.java:422-438 | getJsonServiceErrorNode(jse) has a null id |
| JsonUtil.ErrorNodeWithId | json-service/src/main/java/org/stefaniuk/json/service/JsonServiceUtil.java:440-456 | getJsonServiceErrorNode(jse, id) has the numeric id |
| JsonUtil.ErrorFieldsValid | json-service/src/main/java/org/stefaniuk/json/service/JsonServiceUtil.java:424-434 | the error member's names are distinct and are only "code", "message" and "data" |
| JsonUtil.ErrorFieldsRoundTrip | json-service/src/main/java/org/stefaniuk/json/service/JsonServiceUtil.java:424-434 | code, message and data can be read back from the error member |
| JsonUtil.ErrorRoundTrip | json-service/src/main/java/org/stefaniuk/json/service/JsonServiceUtil.java:422-456 | the error object can be read back unchanged from either error response |
| DataUri.AsciiBytes | json-service/src/main/java/org/stefaniuk/json/mappers/types/DataURI.java:35 | getBytes("ASCII") keeps each 7-bit character and turns any other into '?' |
| DataUri.GetBytes | json-service/src/main/java/org/stefaniuk/json/mappers/types/DataURI.java:117 | getBytes(null) throws; "ASCII" gives AsciiBytes; any other charset is the platform's encoder or an UnsupportedEncodingException |
| DataUri.RawData | json-service/src/main/java/org/stefaniuk/json/mappers/types/DataURI.java:33-37 | setting raw data never changes media type or charset |
| DataUri.FormatUri | json-service/src/main/java/org/stefaniuk/json/mappers/types/DataURI.java:58-87 | toString succeeds iff data is not null, and then starts with "data:" |
| DataUri.DataURI.constructor | json-service/src/main/java/org/stefaniuk/json/mappers/types/DataURI.java:23-25 | a new DataURI has every field null |
| DataUri.DataURI.Parse | json-service/src/main/java/org/stefaniuk/json/mappers/types/DataURI.java:31-56 | parse leaves the fields and raises the exception ParseUri gives for the old fields |
| DataUri.DataURI.JoinFrom | json-service/src/main/java/org/stefaniuk/json/mappers/types/DataURI.java:42-44 | the loop joins parts[1], parts[2], ... in order |
| DataUri.DataURI.SetRawData | json-service/src/main/java/org/stefaniuk/json/mappers/types/DataURI.java:34-37 | the data becomes the text's bytes in the current charset, "ASCII" when it is null |
| DataUri.DataURI.ProcessParts | json-service/src/main/java/org/stefaniuk/json/mappers/types/DataURI.java:102-119 | the token loop and the data step match ProcessHeader (loop invariant: the fields after i tokens are ScanTokens of i tokens) |
| DataUri.DataURI.ProcessBase64Data | json-service/src/main/java/org/stefaniuk/json/mappers/types/DataURI.java:121-123 | the data becomes the decoded payload; nothing else changes |
| DataUri.DataURI.ToString | json-service/src/main/java/org/stefaniuk/json/mappers/types/DataURI.java:58-87 | toString returns FormatUri of the fields, and throws exactly when data is null |
| DataUri.ScanAll | json-service/src/main/java/org/stefaniuk/json/mappers/types/DataURI.java:105-113 | after the loop the first token is the media type and the second the charset (unless "base64"), and the flag is set iff some token is "base64" |
| DataUri.FormatBase64Tail | json-service/src/main/java/org/stefaniuk/json/mappers/types/DataURI.java:69-76 | outside the "ASCII" charset the text ends in "base64," and the encoded data, preceded by ';' iff media type or charset is set |
| DataUri.FormatDefaultsTextPlain | json-service/src/main/java/org/stefaniuk/json/mappers/types/DataURI.java:64-68 | a charset without media type is written after "text/plain;" |
| DataUri.FormatAscii | json-service/src/main/java/org/stefaniuk/json/mappers/types/DataURI.java:77-85 | with charset "ASCII" the data follows a bare ',' without the base64 marker |
| DataUri.FormatWithCharset | json-service/src/main/java/org/stefaniuk/json/mappers/types/DataURI.java:58-76 | the full text written for a charset other than "ASCII" |
| DataUri.FormatBare | json-service/src/main/java/org/stefaniuk/json/mappers/types/DataURI.java:58-76 | with neither media type nor charset the text is "data:base64," and the encoded data |
| DataUri.ParseHeaderAndPayload | json-service/src/main/java/org/stefaniuk/json/mappers/types/DataURI.java:32-55 | a header with ';' goes to processParts, one without becomes raw data; the payload loses its commas either way |
| DataUri.PayloadCommasDropped | json-service/src/main/java/org/stefaniuk/json/mappers/types/DataURI.java:38-45 | a base64 payload is decoded from the payload with its commas removed |
| DataUri.HeaderWithoutSemicolonIgnored | json-service/src/main/java/org/stefaniuk/json/mappers/types/DataURI.java:46-55 | a header without ';' (even "base64") is dropped and the payload taken as raw text |
| DataUri.TrailingCommaSinglePart | json-service/src/main/java/org/stefaniuk/json/mappers/types/DataURI.java:32-37 | a trailing comma leaves a single part, which becomes the raw data |
| DataUri.EncodedHasNoSeparator | json-service/src/main/java/org/stefaniuk/json/mappers/types/DataURI.java:93-95 | the encoded data holds neither ',' nor ';' |
| DataUri.ProcessBase64Header | json-service/src/main/java/org/stefaniuk/json/mappers/types/DataURI.java:102-115 | the header "m;c;base64" sets media type m, charset c and the decoded data |
| DataUri.ProcessAsciiHeader | json-service/src/main/java/org/stefaniuk/json/mappers/types/DataURI.java:102-117 | the header "m;ASCII" sets media type m, charset "ASCII" and the payload's ASCII bytes |
| DataUri.RoundTrip | json-service/src/main/java/org/stefaniuk/json/mappers/types/DataURI.java:31-123 | parsing what toString wrote restores the fields, whatever the object held before, when the charset is set and not "ASCII", the data is not empty, and neither media type nor charset contains ';' or ',' or equals "base64" (a missing media type comes back as "text/plain"); the source does not round-trip the excluded inputs |
| DataUri.AsciiDataNotRestored | json-service/src/main/java/org/stefaniuk/json/mappers/types/DataURI.java:77-85 | with charset "ASCII" parsing gives the ASCII bytes of the base64 text, not the data |
| DataUri.AsciiCounterexample | json-service/src/main/java/org/stefaniuk/json/mappers/types/DataURI.java:77-85 | the byte 0 with charset "ASCII" comes back as the two bytes of "AA" |
| DataUri.BareBase64NotDecoded | json-service/src/main/java/org/stefaniuk/json/mappers/types/DataURI.java:46-55 | with neither media type nor charset parsing does not decode: the data becomes the base64 text's bytes |
| Base64.Encode | json-service/src/main/java/org/stefaniuk/json/mappers/types/DataURI.java:93-95 | the encoding has (4n+2)/3 characters, all of the URL-safe alphabet |
| Base64.UrlSafeChar | json-service/src/main/java/org/stefaniuk/json/mappers/types/DataURI.java:93-95 | each emitted character is URL-safe and decodes to its value |
| Base64.SextetOf | json-service/src/main/java/org/stefaniuk/json/mappers/types/DataURI.java:97-99 | every URL-safe character has a value in the decoding table; '=', ',' and ';' have none |
| Base64.DecodeSextets | json-service/src/main/java/org/stefaniuk/json/mappers/types/DataURI.java:97-99 | n values decode to 3n/4 bytes |
| Base64.SextetsOfChars | json-service/src/main/java/org/stefaniuk/json/mappers/types/DataURI.java:93-99 | decoding reads back exactly the values encoding wrote |
| Base64.DecodeEncodeSextets | json-service/src/main/java/org/stefaniuk/json/mappers/types/DataURI.java:93-99 | decoding the values of an encoding gives back the bytes |
| Base64.DecodeEncode | json-service/src/main/java/org/stefaniuk/json/mappers/types/DataURI.java:93-99 | decodeBase64(encodeBase64(d)) == d |
| JavaStrings.IndexOf | json-service/src/main/java/org/stefaniuk/json/mappers/types/DataURI.java:32 | indexOf gives the first occurrence, or -1 when there is none |
| JavaStrings.Split | json-service/src/main/java/org/stefaniuk/json/mappers/types/DataURI.java:32 | split on one character: no piece holds the separator; without a separator the string is the only piece |
| JavaStrings.SplitLosesOnlySeparators | json-service/src/main/java/org/stefaniuk/json/mappers/types/DataURI.java:32 | the pieces of split joined give the string without its separators |
| JavaStrings.SplitHeadAndRest | json-service/src/main/java/org/stefaniuk/json/mappers/types/DataURI.java:32-45 | the first piece is the header, the rest join to the payload without commas |
| JavaStrings.SplitTwo | json-service/src/main/java/org/stefaniuk/json/mappers/types/DataURI.java:103 | split of "a;b" is the two pieces |
| JavaStrings.SplitThree | json-service/src/main/java/org/stefaniuk/json/mappers/types/DataURI.java:103 | split of "a;b;c" is the three pieces |
| JavaStrings.Substring | json-service/src/main/java/org/stefaniuk/json/service/UnmodifiedPropertyNamingStrategy.java:25 | substring(b, e) succeeds iff 0 <= b <= e <= length, and returns those characters |
| Naming.Join | json-service/src/main/java/org/stefaniuk/json/service/UnmodifiedPropertyNamingStrategy.java:36 | the concatenation fails with the first failing substring call |
| Naming.DecapitalizeAt | json-service/src/main/java/org/stefaniuk/json/service/UnmodifiedPropertyNamingStrategy.java:25 | the character at k lower-cased and the rest; fails iff k is past the end |
| Naming.UnmodifiedGetterName | json-service/src/main/java/org/stefaniuk/json/service/UnmodifiedPropertyNamingStrategy.java:23-31 | "get..." is decapitalised at index 3 (fails for bare "get"), else "is..." at index 2, else the default name |
| Naming.UnmodifiedSetterName | json-service/src/main/java/org/stefaniuk/json/service/UnmodifiedPropertyNamingStrategy.java:34-39 | as written: every name starting with "set" throws StringIndexOutOfBoundsException, any other gets the default name |
| Naming.CorrectedSetterName | json-service/src/main/java/org/stefaniuk/json/service/UnmodifiedPropertyNamingStrategy.java:34-39 | corrected: "set..." is decapitalised at index 3 (fails for bare "set"), any other gets the default name |
| Naming.EqualName3 | json-service/src/main/java/org/stefaniuk/json/service/EqualPropertyNameStrategy.java:9-15 | succeeds iff the name has at least four characters; the fourth is lower-cased and the first three dropped |
| Naming.NameFor | json-service/src/main/java/org/stefaniuk/json/service/UnmodifiedPropertyNamingStrategy.java:12-20 | fields and constructor parameters get the default name; the Equal strategy names getters and setters alike by EqualName3 |
| Naming.GetPrecedesIs | json-service/src/main/java/org/stefaniuk/json/service/UnmodifiedPropertyNamingStrategy.java:24-25 | a "get..." name is decapitalised at index 3 |
| Naming.IsAndGetAgree | json-service/src/main/java/org/stefaniuk/json/service/UnmodifiedPropertyNamingStrategy.java:24-27 | "isX..." and "getX..." name the same property |
| Naming.BarePrefixFails | json-service/src/main/java/org/stefaniuk/json/service/UnmodifiedPropertyNamingStrategy.java:24-27 | the bare names "get" and "is" make the getter throw |
| Naming.SetterAsWrittenFails | json-service/src/main/java/org/stefaniuk/json/service/UnmodifiedPropertyNamingStrategy.java:36 | "setName" makes the setter as written throw |
| Naming.CorrectedSetterMatchesGetter | json-service/src/main/java/org/stefaniuk/json/service/UnmodifiedPropertyNamingStrategy.java:23-39 | with the corrected setter, "setX..." and "getX..." name the same property |
| Naming.UnmodifiedAccessorsPair | json-service/src/main/java/org/stefaniuk/json/service/UnmodifiedPropertyNamingStrategy.java:23-39 | with the corrected setter, the Unmodified strategy maps a setter "setX..." and its getter "getX..." to one property (as written, every setter throws) |
| Naming.EqualStrategyDropsFourthOfIs | json-service/src/main/java/org/stefaniuk/json/service/EqualPropertyNameStrategy.java:9-11 | the Equal strategy names "isActive" as "ctive" |
| Naming.EqualGetterSetterAgree | json-service/src/main/java/org/stefaniuk/json/service/EqualPropertyNameStrategy.java:9-15 | under the Equal strategy getter and setter names coincide and ignore the default |
| Naming.StrategiesAgreeOnGet | json-service/src/main/java/org/stefaniuk/json/service/UnmodifiedPropertyNamingStrategy.java:24-25 | on names starting with "get" the two strategies agree |

## Left out

- Jackson parsing and writing are not modelled. A request arrives as a parsed `Json` tree, or `None` when reading threw. Writing appends the tree to `OutputStream.written`. Closing the stream after each write is not modelled.
- Floating-point numbers are not modelled. Every boxed number is an unbounded integer tagged with its class.
- The JsonServiceInvoker (reflection, lazy instance creation, argument decoding) is not part of this model. Its answers are the arrow-typed fields of `ServiceClass`, and the request object is not passed to them. These are pure functions, so a service whose answers depend on earlier calls cannot be expressed: identical requests in one batch always get identical answers.
- JsonServiceError.java and JsonServiceException.java are not part of this model. The error code is a constructor argument. The NullPointerExceptions the JVM raises and the JsonServiceException thrown at line 623 of JsonServiceRegistry.java are the `Runtime` parameters.
- Stack-trace printing and URLEncoder are not modelled. The encoded trace is an opaque string carried by each `Failure`.
- The singleton `getInstance`, the synchronized map and concurrent access are left out. The model is sequential.
- Logging is left out. It has no effect on the output.
- `getServiceMap(clazz, response)` and the acquisition of servlet streams are left out. A servlet stream failing to open is not modelled. `HandleHttp` takes the HTTP method as a flag.
- The first catch blocks of the method-call handlers (lines 343-355 and 537-549 of JsonServiceRegistry.java) are left out. There `clazz.getName()` throws a NullPointerException for a null class (line 235), but the model has no null class, so those catch blocks are never reached.
- JsonUtil.ElementNode: the `catch` fallback of `addPOJO`/`putPOJO` (`toString()` of the object) is not modelled. Other objects always become POJO nodes, and a null element becomes a JSON null.
- JsonUtil.AddField: a null map key is treated like a key that is not a String (a cast failure). In Java `(String) null` succeeds.
- JavaStrings.Substring: indices count Unicode code points (`char` in Dafny), while Java's `substring` counts UTF-16 code units. Outside the Basic Multilingual Plane the model's positions differ from Java's, and a split surrogate pair (as `substring(3,4)` can produce) cannot be expressed.
- JavaStrings.Lower: only the ASCII letters are lower-cased. Java's `toLowerCase` also maps other letters.
- DataUri.GetBytes: charsets other than "ASCII" are an abstract encoder parameter.
- The `DataURI(String uri)` constructor is only `new DataURI()` followed by `Parse`, and is not modelled separately. The Jackson `DataUriMapper` is left out.
- Naming.NameFor: the Unmodified strategy's setter is the corrected one (see Findings). `Naming.UnmodifiedSetterName` models the code as written.

## Findings

| source | as written | input that shows it | evidently intended | confidence | as-written member | corrected member |
|---|---|---|---|---|---|---|
| json-service/src/main/java/org/stefaniuk/json/service/UnmodifiedPropertyNamingStrategy.java:36 | `substring(3,1)`: its begin index exceeds its end index, so it throws for every name starting with "set" | `setName` throws StringIndexOutOfBoundsException | `substring(3,4)`, as in the getter at line 25, so that `setName` names the property `name` | high (not executed) | Naming.UnmodifiedSetterName, Naming.SetterAsWrittenFails | Naming.CorrectedSetterName, Naming.CorrectedSetterMatchesGetter, Naming.UnmodifiedAccessorsPair |
