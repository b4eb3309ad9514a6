# roal: a verified model of the RPC runtime core

This project models the core of `roal`, a small transport-agnostic RPC
runtime written in TypeScript, in Dafny, and proves properties of the model.
The core has four parts.

- **The Provider** (`src/provider.ts`, with argument normalisation in
  `src/method.ts`). It is the transaction and dispatch engine. `request`
  takes the next id, records a pending transaction, arms its timeout and
  dispatches an `rpc` message. `handle` routes inbound messages:
  - `signal` messages go to the signal listeners;
  - `rpc` messages run the registered method and are answered with exactly
    one `resolve` or `reject`;
  - `internal` messages settle and delete the pending transaction they
    name.

  Promises, timers and the event emitters become explicit state:
  - a settlement `Status` per issued id;
  - a set of armed timers;
  - listener lists per signal name;
  - an outbox of every dispatched message with its context;
  - logs of emitted `'error'` events and of listener calls;
  - a table of invoked handlers still awaited.

  A timer firing and a handler completing are steps the environment takes.
  The module `Providers` holds this state machine on values (`State`, one
  `…Step` function per operation, `Apply`/`Run` over event sequences). It
  also holds the class `Provider`, whose fields are that state and whose
  methods are proved to take exactly those steps.
- **The length-prefixed stream parser** (`LengthPrefixParser` and the
  framing of `StreamTransport.send` in `src/transports/stream.ts`). It
  keeps bytes in an `array<byte>` with a cursor. It grows the buffer, copies
  chunks in, and cuts frames in a loop that stands for the recursion of
  `check`. Its invariant: the emitted frames, re-framed, followed by the
  buffered bytes, are everything fed since the last reset. The 4-byte length
  header is read little-endian.
- **The JSON framer** (`src/framers/json.ts`): the codec registry and the
  tagging replacer and reviver. JavaScript values are the datatype
  `JsValues.Value`. JSON text is represented by its syntax tree `Json`.
- **The message and error vocabulary** (`src/request.ts`,
  `src/response.ts`, `src/utils.ts`):
  - the JSON-RPC 2.0 Request and Notification objects (sections 4 and 4.1
    of the JSON-RPC 2.0 Specification);
  - the Response object (section 5);
  - the Error object and its reserved codes (section 5.1);
  - the internal `{type, id, name, payload}` messages and their id counter.

Where the code and the behaviour its tests expect disagree, the model
follows the code:
- A handler's rejection is forwarded to the caller as the raw reason, not
  normalised into an error object (src/provider.ts:224-229, against
  test/provider.test.ts:52-56).
- A timeout rejects with the string `'transaction timed out'`, not a
  `TimeoutError` (src/provider.ts:272, against test/provider.test.ts:78).
- Listeners under the name `'signal'` only keep an unheard signal from
  raising an error. They are not themselves called for other names
  (src/provider.ts:199-204).

Files:
- `wrappers.dfy`: `Option` and `Result`.
- `values.dfy`: JavaScript values; truthiness, `typeof`, property reads and
  `String(v)`; canonical decimal numerals.
- `defines.dfy`: the message record.
- `method.dfy`, `provider.dfy`, `stream.dfy`, `json.dfy`, `request.dfy`,
  `response.dfy`, `utils.dfy`: one per source file.

## Model

| member | source | states |
|---|---|---|
| Methods.Arguments | src/method.ts:13-18 | `null`/`undefined` params give no arguments, an array is spread unchanged, any other value is the single argument |
| Methods.ArgumentsOfArray | src/method.ts:15-18 | an argument list wrapped in an array normalises back to itself |
| Methods.SingleArgumentEither | src/method.ts:15-18 | a bare non-array value and the one-element array holding it reach the handler the same way |
| Methods.Execute | src/method.ts:12-19 | the handler is invoked once, with `rpc` as receiver and the normalised arguments |
| Providers.CreateError | src/provider.ts:190 | the error `_raiseError` builds is a FailureError with the given code and message |
| Providers.Initial | src/provider.ts:34-46 | a new provider has timeout `timeout \|\| 0`, empty tables, and satisfies the bookkeeping invariant |
| Providers.CallResult | src/provider.ts:116-122 | `call` succeeds exactly for a registered name, invoking its handler on the provider with the normalised params; otherwise it rejects with `invalid method <name>` |
| Providers.RunKeepsInv | src/provider.ts:140-283 | every sequence of calls, inbound messages, timer firings and handler completions keeps the invariant: issued ids are those below `nextId`, pending entries are exactly the unsettled ids, timers are armed exactly for pending transactions that asked for one, no reserved method name is registered |
| Providers.ApplyKeepsInv | src/provider.ts:59-283 | each single event keeps the invariant |
| Providers.HandleKeepsInv | src/provider.ts:124-138 | `handle` keeps the invariant for every inbound message |
| Providers.TimeoutKeepsInv | src/provider.ts:271-275 | a timeout keeps the invariant |
| Providers.SettleKeepsInv | src/provider.ts:243-244 | settling a pending transaction and clearing it keeps the invariant |
| Providers.DefineEachKeepsInv | src/provider.ts:81-89 | `methods(table)` never registers a reserved name |
| Providers.RunKeepsSettlements | src/provider.ts:140-283 | along any run, issued ids stay issued and a settled transaction never changes its outcome, so each transaction settles at most once |
| Providers.ApplyKeepsSettlements | src/provider.ts:233-275 | no single event changes a settled outcome or forgets an id |
| Providers.SettlementsKeptTransitive | src/provider.ts:233-275 | settlement finality composes across runs |
| Providers.RequestIssuesFreshId | src/provider.ts:140-167 | `request` takes an id no earlier request used, adds exactly one Pending entry under it, arms its timer iff the effective timeout is positive, dispatches one `rpc` message carrying id, name and params, and leaves every other entry and table unchanged |
| Providers.NumericOptionsMeanTimeout | src/provider.ts:142-146 | a numeric `options` is `{timeout: n}`; a missing timeout falls back to the provider's default |
| Providers.NextIdIsFresh | src/provider.ts:148 | after any run the next id is fresh and above every id issued before |
| Providers.SuccessiveRequestsIncrease | src/provider.ts:148 | two requests in a row dispatch increasing ids, the first being the old `nextId` |
| Providers.DefineOutcomes | src/provider.ts:59-79 | a definition that is neither a `Method` nor a function is ignored, even under an `rpc.` name; otherwise a reserved name throws and changes nothing; otherwise the entry is stored, a bare function wrapped, replacing an earlier one and touching no other name |
| Providers.ReservedNames | src/provider.ts:69 | pins the edges of the `rpc.` prefix test: `rpc.on` and `rpc.` are reserved; `rpc`, `rpcx` and `xrpc.on` are not |
| Providers.DefineEachOutcome | src/provider.ts:81-89 | `methods(table)` changes only the method table and only under its entries' names; it throws iff some entry throws, and then with that entry's reserved-name error |
| Providers.DefineEachFrame | src/provider.ts:81-89 | `methods(table)` changes only the method table, and only under its entries' names |
| Providers.DefineEachThrows | src/provider.ts:81-89 | `methods(table)` throws iff some entry throws, and then with a reserved-name error of an entry |
| Providers.RemoveMethodRemoves | src/provider.ts:95-99 | after `removeMethod(n)` the name is gone, every other entry is unchanged, and removing again is a no-op |
| Providers.HasMethodAsWrittenOnFreshProvider | src/provider.ts:91-93 | as written, `hasMethod('toString')` is true on a fresh provider, which has no such method |
| Providers.HasMethodMeansCallable | src/provider.ts:91-93 | the corrected `hasMethod` holds exactly when `call` finds the method; a fresh provider has none and a removed name is gone |
| Providers.RemoveLastSplits | src/provider.ts:108-110 | `removeListener` takes out exactly the last registration of that listener and keeps the others in order |
| Providers.OnSignalThenDispose | src/provider.ts:101-106 | disposing what `onSignal` returned restores the registry exactly |
| Providers.OffSignalRemovesOne | src/provider.ts:108-110 | `offSignal` removes one registration of that listener under that name and changes nothing else |
| Providers.OffAllSignalsAsWrittenKeepsListeners | src/provider.ts:112-114 | as written, `offAllSignals()` removes only the listeners under the key `"undefined"`: after `onSignal("a", l)` on a fresh provider, `"a"` still has `l` |
| Providers.OffAllSignalsClears | src/provider.ts:112-114 | the intended `offAllSignals()` leaves no listener under any name; with a name it empties exactly that name, keeps every other name's listeners, changes nothing else, and agrees with the code as written |
| Providers.OffAllSignalsKeepsInv | src/provider.ts:112-114 | both the intended and the as-written `offAllSignals` keep the bookkeeping invariant |
| Providers.UnheardSignalRaises | src/provider.ts:199-202 | an inbound signal with no listener under its name and none under `'signal'` raises an error |
| Providers.HeardSignalDelivers | src/provider.ts:203 | otherwise each listener under the name is called with the payload and context, in order, and nothing is dispatched |
| Providers.UnknownMethodRejected | src/provider.ts:207-215 | a request for an unregistered name is answered at once by one `reject` with its id and a METHOD_NOT_FOUND error |
| Providers.KnownMethodInvoked | src/provider.ts:217 | a request for a registered name invokes its handler once, on the provider, with the normalised params, and dispatches nothing yet |
| Providers.CompletionRepliesOnce | src/provider.ts:217-230 | a completed handler is answered by exactly one `resolve` with its result or `reject` with its raw reason, carrying the inbound id and context; a second completion sends nothing |
| Providers.IdMissingIffNullish | src/provider.ts:236 | the `!id && id != 0` test rejects exactly `null` and `undefined` |
| Providers.TxKeyOfId | src/provider.ts:239 | a number id and its decimal string name the same transaction; a negative number names none |
| Providers.ResponseSettles | src/provider.ts:235-259 | a response naming a pending transaction settles exactly it with the payload, clears its timer, deletes it and dispatches nothing; its timer can no longer fire |
| Providers.ResponseWithoutIdRaises | src/provider.ts:236-238 | a response without an id raises an error and changes no transaction |
| Providers.LateResponseRaises | src/provider.ts:239-241 | a response for an already settled transaction raises an error and changes no transaction |
| Providers.InboundErrorOnlyEmits | src/provider.ts:261-263 | an inbound `error` is emitted locally and nothing else changes |
| Providers.UnknownInternalRaises | src/provider.ts:265-267 | any other internal name raises an error |
| Providers.TimeoutRejects | src/provider.ts:271-275 | a timeout rejects with `'transaction timed out'`, deletes the entry, raises an error without context and keeps the invariant; a later response for it raises an error |
| Providers.Provider.constructor | src/provider.ts:42-46 | the new object's state is `Initial(timeout)` |
| Providers.Provider.Define | src/provider.ts:59-79 | `method` takes the step `DefineStep` and keeps the invariant |
| Providers.Provider.DefineAll | src/provider.ts:81-89 | the loop of `methods` takes the step `DefineAllStep`, stopping at the first throw |
| Providers.Provider.RemoveMethod | src/provider.ts:95-99 | takes `RemoveMethodStep` |
| Providers.Provider.OnSignal | src/provider.ts:101-106 | takes `OnSignalStep` and returns the disposable for that registration |
| Providers.Provider.OffSignal | src/provider.ts:108-110 | takes `OffSignalStep` |
| Providers.Provider.Dispose | src/provider.ts:104 | `dispose()` is `offSignal` of that registration |
| Providers.Provider.OffAllSignals | src/provider.ts:112-114 | takes the intended `OffAllSignalsStep`: drops every listener of the given name, or of every name when none is given (see Findings for the code as written) |
| Providers.Provider.Request | src/provider.ts:140-167 | returns the old `nextId`, now Pending, and takes `RequestStep` |
| Providers.Provider.Issue | src/provider.ts:142-166 | the bookkeeping of `request`: returns the old `nextId`, now Pending, and takes `RequestStep` |
| Providers.Provider.Signal | src/provider.ts:169-175 | dispatches one id-less signal message |
| Providers.Provider.RaiseError | src/provider.ts:177-197 | emits an INTERNAL_ERROR error locally and dispatches it as an `internal` `error` with the context |
| Providers.Provider.Handle | src/provider.ts:124-138 | takes `HandleStep` with the provider itself as the receiver of invoked handlers |
| Providers.Provider.HandleSignal | src/provider.ts:199-204 | takes `HandleSignalStep` |
| Providers.Provider.HandleRequest | src/provider.ts:206-231 | takes `HandleRequestStep` |
| Providers.Provider.HandleInternal | src/provider.ts:233-269 | takes `HandleInternalStep` |
| Providers.Provider.HandleSettlement | src/provider.ts:235-259 | a `resolve` or `reject` raises an error for a missing id or an unknown transaction, and otherwise settles and clears that transaction; takes `HandleInternalStep` |
| Providers.Provider.ClearTransaction | src/provider.ts:277-283 | cancels an armed timer and deletes the entry, changing nothing else |
| Providers.Provider.HandleTimeout | src/provider.ts:271-275 | takes `TimeoutStep` |
| Providers.Provider.HandlerCompletes | src/provider.ts:217-230 | dispatches the reply of the awaited handler and forgets it |
| Stream.U32LE | src/transports/stream.ts:51 | the header is four bytes |
| Stream.ReadU32LE | src/transports/stream.ts:81 | the header value is below 2^32 |
| Stream.ReadU32LEOfU32LE | src/transports/stream.ts:51 | reading back a written header gives the length |
| Stream.U32LEOfReadU32LE | src/transports/stream.ts:81 | writing the header read gives back the four bytes |
| Stream.SendFraming | src/transports/stream.ts:49-54 | `send` writes a header holding the length mod 2^32, then the payload unchanged |
| Stream.SplitJoinedFrames | src/transports/stream.ts:79-97 | non-empty frames written by `send` one after another are cut back into exactly those frames, in order, with nothing left buffered |
| Stream.Split | src/transports/stream.ts:79-97 | `check` never leaves more bytes buffered than it was given |
| Stream.SplitRemainder | src/transports/stream.ts:84-97 | what `check` leaves buffered is a suffix of its input that holds no whole frame |
| Stream.SplitJoin | src/transports/stream.ts:79-97 | the frames `check` cuts, re-framed, followed by what it leaves buffered, are its input |
| Stream.SplitStep | src/transports/stream.ts:84-93 | when more than a header is buffered and the whole body has arrived, the frame cut is exactly bytes `[4, 4+L)` and the rest is split on its own |
| Stream.SplitStop | src/transports/stream.ts:84 | otherwise `check` emits nothing and leaves the buffer as it is |
| Stream.SplitFramedThen | src/transports/stream.ts:84-95 | a framed non-empty payload at the front is cut out whole and the rest is split on its own |
| Stream.SendThenSplit | src/transports/stream.ts:49-54 | what `send` writes for a non-empty payload yields that payload alone and leaves nothing buffered |
| Stream.TwoFramesInOneChunk | src/transports/stream.ts:84-95 | two frames in one chunk come out as two frames, in order |
| Stream.PartialFrameWaits | src/transports/stream.ts:84 | a frame is not emitted before its last byte |
| Stream.FrameAcrossTwoChunks | src/transports/stream.ts:99-110 | a frame split across two chunks is emitted once, after the second |
| Stream.EmptyFrameWaitsForNextByte | src/transports/stream.ts:84-93 | an empty payload is not emitted while only its header is buffered, and comes out when another byte arrives |
| Stream.EmitAll | src/transports/stream.ts:90-95 | emitting the cut frames keeps the accounting of what was fed |
| Stream.GrowAsWrittenStalls | src/transports/stream.ts:102-106 | as written, a capacity of 0 or 1 never grows, however many times the loop runs |
| Stream.Grow | src/transports/stream.ts:102-106 | the corrected growth step always grows, and agrees with the 1.5 ratio from 2 on |
| Stream.CopyInto | src/transports/stream.ts:104-108 | `copy` writes the source at the offset and leaves the other bytes alone |
| Stream.ShiftLeft | src/transports/stream.ts:90 | `copy` within the buffer moves `[from, to)` to the front and leaves the bytes after it alone |
| Stream.LengthPrefixParser.constructor | src/transports/stream.ts:62-68 | a new parser has a zeroed buffer of `initialSize` bytes, 1 MiB unless given, and nothing buffered |
| Stream.LengthPrefixParser.Reset | src/transports/stream.ts:70-77 | a fresh buffer of `size`, or `initialSize` when absent, with `pos` 0 |
| Stream.LengthPrefixParser.Check | src/transports/stream.ts:79-97 | emits exactly the frames `Split` cuts from the buffered bytes and keeps the rest at the front; with a buffer under 4 bytes the header read throws and nothing changes |
| Stream.LengthPrefixParser.CutFrame | src/transports/stream.ts:84-93 | one turn of `check`: the front frame is emitted, the rest moved to the front, and together they account for the same `Split` of the buffered bytes |
| Stream.LengthPrefixParser.Reserve | src/transports/stream.ts:102-106 | uses the corrected `Grow` (see Findings): after growth the capacity fits the chunk, never shrank, and bytes `[0, pos)` are kept |
| Stream.LengthPrefixParser.Append | src/transports/stream.ts:108 | the chunk is written at `pos` and `pos` advances by its length |
| Stream.LengthPrefixParser.Parse | src/transports/stream.ts:99-110 | uses the corrected `Grow` (see Findings); emits the frames of the old buffered bytes plus the chunk, and keeps the invariant that emitted frames plus buffered bytes are everything fed |
| Stream.SendToFreshParser | src/transports/stream.ts:99-110 | with the corrected `Grow` (see Findings), a non-empty payload written by `send` and fed to a fresh parser is received alone and unaltered |
| JsonFramer.Enumerable | src/framers/json.ts:11-19 | the own enumerable properties: an object's own properties less the non-enumerable ones (an Error's `message` and `stack`); an array's items under their decimal indexes |
| JsonFramer.DefaultEncode | src/framers/json.ts:10-12 | a plain copy of exactly the own enumerable fields |
| JsonFramer.DefaultDecoded | src/framers/json.ts:14-21 | throws iff the input or its `$props` is falsy; otherwise a new instance of the class with the constructor's fields overwritten by every `$props` field |
| JsonFramer.DefaultDecode | src/framers/json.ts:18-20 | the assignment loop builds exactly `DefaultDecoded` |
| JsonFramer.RegisterClass | src/framers/json.ts:35-36 | registering a class files a `DefaultCodec` under its name and touches no other name |
| JsonFramer.RegisterOneFiles | src/framers/json.ts:33-36 | a codec object is filed as it is under its class name, a bare class under its `DefaultCodec`, and no other name changes |
| JsonFramer.LastRegistrationWins | src/framers/json.ts:33-36 | of two registrations under the same name, each a class or a codec object, the later one is kept |
| JsonFramer.NullishStopsRegistration | src/framers/json.ts:32-33 | a `null` or `undefined` argument throws on the `clazz` read and ends the loop |
| JsonFramer.RegisterKeepsOtherNames | src/framers/json.ts:31-39 | names no argument registers keep their codec |
| JsonFramer.Framer.constructor | src/framers/json.ts:26-29 | a new framer has no codecs |
| JsonFramer.Framer.Register | src/framers/json.ts:31-39 | the loop takes exactly the steps of `RegisterAll` |
| JsonFramer.Stringify | src/framers/json.ts:42-47 | a failing encode reports at least one exception |
| JsonFramer.Reviver | src/framers/json.ts:51-56 | a value that is not tagged with a registered class passes the reviver unchanged |
| JsonFramer.PlainRoundTrip | src/framers/json.ts:41-57 | data without registered constructors encodes to its own JSON and decodes back to itself |
| JsonFramer.EncodeTagged | src/framers/json.ts:42-45 | an instance of a class with any registered codec is written as `{$class: name, $props}` with `$props` what that codec's `encode` returns, and a throwing `encode` makes encoding throw it |
| JsonFramer.EncodeCustomInstance | src/framers/json.ts:43-44 | with a user-supplied codec, `$props` is exactly its `encode` result |
| JsonFramer.StringifyUnregistered | src/framers/json.ts:43-46 | an instance of a class with no codec passes the replacer untouched and is written as the plain object of its own enumerable properties |
| JsonFramer.ErrorWrittenEmpty | src/framers/json.ts:41-47 | an Error of a class with no codec, such as a rejection reason forwarded as a payload (src/provider.ts:224-229), is written as `{}`, and `Object.assign` copies nothing from it |
| JsonFramer.EncodeUnregisteredInArray | src/framers/json.ts:41-47 | such an instance, held in an array among other data, is written in place as plain data |
| JsonFramer.EncodeUnregisteredInObject | src/framers/json.ts:41-47 | such an instance, held under a key of a plain object, is written in place as plain data |
| JsonFramer.EncodeInstance | src/framers/json.ts:43-44 | an instance of a registered class is written as `{$class: name, $props: copy of its fields}` |
| JsonFramer.DecodeInstance | src/framers/json.ts:52-53 | `{$class, $props}` naming a registered class is read back through its codec as a new instance |
| JsonFramer.UnregisteredClassStaysPlain | src/framers/json.ts:52-55 | a tagged object whose class has no codec stays a plain object |
| JsonFramer.InstanceRoundTrip | src/framers/json.ts:41-57 | an instance holding every field its constructor sets decodes to an equal instance |
| JsonFramer.PlainIsFramable | src/framers/json.ts:41-57 | data is a framable message, written as its own JSON |
| JsonFramer.StringifyInstance | src/framers/json.ts:43-44 | the replacer writes an instance of a class with its default codec as `{$class: name, $props: its own fields}` |
| JsonFramer.StringifyFramed | src/framers/json.ts:41-47 | in a message of data and default-codec instances, each instance is replaced in place by its `{$class, $props}`, at any depth |
| JsonFramer.ReviveFramed | src/framers/json.ts:50-57 | the JSON so written revives every instance in place, at any depth, giving the message back |
| JsonFramer.FramedRoundTrip | src/framers/json.ts:41-57 | a message with registered instances anywhere inside it encodes to its tagged JSON and decodes back to itself |
| JsonFramer.InstanceInArrayRoundTrip | src/framers/json.ts:41-57 | params `[instance, ...data]`, as `request('incrementCounterBy', [counter, 2])` sends, are written with the instance tagged in place and read back unchanged |
| Request.IsId | src/request.ts:14-16 | a request id is what `typeof` calls a number or a string, or `undefined` |
| Request.IsRequest | src/request.ts:18-24 | `isRequest` holds exactly on an object tagged `'2.0'` whose method is a string and whose id is a request id |
| Request.IsSignal | src/request.ts:26-28 | a signal is a request whose id reads as `undefined` |
| Request.RequestRejects | src/request.ts:14-24 | `isRequest` rejects falsy input, a tag other than `'2.0'`, a non-string method, and a `null` id, and holds only on objects |
| Request.MakeRequest | src/request.ts:30-41 | the result satisfies `isRequest`, is a signal iff the id is undefined, and omits `params` and `id` when undefined |
| Response.IsId | src/response.ts:21-23 | a response id is a number, a string or `null`, never `undefined` |
| Response.IsFailureError | src/response.ts:37-39 | a truthy value whose `code` is a number and whose `message` is a string |
| Response.IsSuccess | src/response.ts:29-31 | only an object tagged `'2.0'` holding `result`, own or inherited, with a response id |
| Response.IsFailure | src/response.ts:33-35 | only an object tagged `'2.0'` whose `error` is a FailureError |
| Response.IsResponse | src/response.ts:25-27 | only an object tagged `'2.0'` |
| Response.FailureErrorIsObject | src/response.ts:37-39 | `isFailureError` holds exactly on an object with a numeric code and a string message |
| Response.ResponseIsTaggedObject | src/response.ts:25-31 | a response is an object tagged `'2.0'`, and a success has a number, string or null id |
| Response.ResponseId | src/response.ts:43-50 | an omitted id defaults to `null` |
| Response.MakeSuccess | src/response.ts:41-46 | satisfies `isSuccess` and `isResponse`, not `isFailure`, and carries the result and id |
| Response.MakeFailure | src/response.ts:48-53 | satisfies `isFailure` exactly when the error is a FailureError, never `isSuccess`, and carries the error and id |
| Response.MakeFailureError | src/response.ts:55-61 | satisfies `isFailureError` with the given code, message and data, and has no `data` key when data is undefined |
| Response.BuildFailureErrorFactory | src/response.ts:63-68 | every error the factory makes is a FailureError with its code |
| Response.BuildFailureErrorValidatorWithCode | src/response.ts:70-72 | a validator accepts only FailureErrors |
| Response.FactoryYields | src/response.ts:85-107 | each reserved factory yields its code, its default message unless one is given, and the data, and passes exactly its own validator |
| Response.ValidatorsExclusive | src/response.ts:103-107 | a validator holds iff the value is a FailureError with its code, so no value passes two |
| Response.ExceptionData | src/response.ts:115-117 | the data of an exception is its `name` and every own property except `stack` |
| Response.MakeFailureErrorFromAsWritten | src/response.ts:109-123 | as written, normalising throws exactly for `null`, and otherwise yields a FailureError |
| Response.MakeFailureErrorFromNullThrows | src/response.ts:114 | as written, normalising a thrown `null` throws instead of wrapping it |
| Response.MakeFailureErrorFrom | src/response.ts:109-123 | the corrected normalisation always yields a FailureError and agrees with the code on every input but `null` |
| Response.FromFailureErrorPreserves | src/response.ts:110-112 | a FailureError keeps its code, message and data |
| Response.FromExceptionWraps | src/response.ts:114-120 | an exception-like object becomes an internal error whose data holds its name and properties, but no stack |
| Response.FromOtherWraps | src/response.ts:122 | with the corrected `makeFailureErrorFrom` (see Findings), any other value is the data of an internal error; as written, `null` throws at line 114 instead |
| Response.MakeFailureErrorFromIdempotent | src/response.ts:109-123 | normalising twice is normalising once |
| Utils.MakeMessage | src/utils.ts:9-11 | type, id, name and payload are exactly the arguments |
| Utils.MakeInternalMessage | src/utils.ts:13-15 | an `internal` message with the given fields |
| Utils.MakeSignalMessage | src/utils.ts:24-26 | a `signal` message with no id |
| Utils.IdSource.constructor | src/utils.ts:3 | the module counter starts at 0 |
| Utils.IdSource.NextId | src/utils.ts:5-7 | returns the counter and advances it by one |
| Utils.IdSource.MakeRequestMessage | src/utils.ts:17-22 | an explicit id, 0 included, is kept and the counter left alone; a missing id is drawn from the counter |
| Utils.TwoRequestsGetDistinctIds | src/utils.ts:17-22 | two id-less request messages get distinct, increasing ids |

## Left out

- Promises, `setTimeout`/`clearTimeout` and the event emitters are replaced by explicit state, as described above. The interleaving of concurrent handlers is concurrency and is not modelled. Reentrant dispatch, a listener or dispatcher that calls back into the provider, is also not modelled.
- The dispatcher is the outbox. `dispatch` without a dispatcher throws `Not implemented` (src/provider.ts:48-53), and that path is not modelled. `error(...)` (src/provider.ts:55-57) is `makeFailureError` under another name.
- An event emitter throws when it emits `'error'` with no listener. This applies to the provider's own `'error'` and to a signal named `error`. Emitted errors are logged instead: the model assumes an `'error'` listener is attached to the provider, as its tests attach one (test/provider.test.ts:20-21). Without one, `_raiseError` throws before it dispatches (src/provider.ts:191), and three things differ. In `_handleTimeout` the throw skips `delete this._txs[id]` (src/provider.ts:271-275), so the rejected transaction stays in the table. Every other caller of `_raiseError` throws out of `handle`. An inbound signal named `error`, with a `'signal'` listener but none of its own, makes the signal emitter throw out of `_handleSignal` (src/provider.ts:199-203). The emitters' `newListener`/`removeListener` events are not modelled.
- `handle`'s default branch (src/provider.ts:135-136) cannot be reached: the message type is the closed datatype `Signal | Rpc | Internal`.
- Lookups in `_methods` and `_txs` also see the members every object inherits from `Object.prototype`; only `hasMethod` is modelled with them (see Findings). In the model, `_handelRequest` and `call` see own entries only. So do `this._txs[message.id]` and the codec tables. With the inherited members, a request for `toString` would reject with a TypeError rather than METHOD_NOT_FOUND.
- Providers.TxKey: the key `_txs[id]` reads is the id's `String` form. Numbers are integers, so fractions, `NaN`, infinities and `-0` are not modelled. `String` of objects and functions is approximated (`[object Object]`, the function's name).
- The error objects' stack traces and messages are approximated by `ErrorObject(kind, message)`. Their own `message` and `stack` are marked not enumerable (`hidden`). Enumerability of other properties is modelled only for objects the core builds: plain objects, parsed objects and constructed instances have none hidden.
- Providers.Provider.OffAllSignals: takes the intended `OffAllSignalsStep`, and so does the `DoOffAllSignals` event of `Apply`, so `RunKeepsInv` and `RunKeepsSettlements` describe runs of the corrected provider. As written, `offAllSignals()` with no name deletes only the listeners under the key `"undefined"` (src/provider.ts:112-114; see Findings), and every other name keeps its listeners. The as-written step also keeps `Inv` (`Providers.OffAllSignalsKeepsInv`), but the run lemmas are not stated for it.
- `src/errors.ts` does not define `createError` and `ErrorCodes`. `CreateError` is modelled as `makeFailureError` with the JSON-RPC codes.
- JSON text: `JSON.stringify`/`JSON.parse`, `toJSON`, and `Buffer` conversions of text are not modelled. `Encode` yields a `Json` tree and `Decode` reads one.
- JsonFramer.Stringify: when several properties throw, the model reports the set of possible exceptions. Which one JavaScript's property order makes propagate first is not modelled.
- JsonFramer.Stringify: `fuel` bounds how deeply tagging nests and stands for the call stack. Running out is a `RangeError`. For example, a codec registered under `Object` makes every object's `$props` tagged again without end.
- JsonFramer.RegisterOne: a plain object passed to `register` that has a non-null `clazz` is a codec to the source. The model requires such arguments to be passed as `AsCodec` (`NotCodecShaped`).
- `for...in` in `DefaultCodec.decode` also visits inherited enumerable properties of `$props`. A parsed object has none, so only own properties are modelled.
- Stream.Grow: the growth ratio is the constructor parameter `ratio`, a float. The model fixes it at 1.5 and computes in integers, truncating as `Buffer.alloc` does.
- `Buffer.slice` makes emitted frames views that share memory with the buffer. The model emits copies, so later overwrites of the buffer are not seen through earlier frames.
- `StreamTransport.createParser`/`read`, the decoding of emitted frames, and `write` are transport plumbing and are not modelled. The same goes for `src/rpc.ts`, `src/transport.ts` and `src/index.ts`.
- The byte order of the length header is the host's; it is modelled as little-endian.
- Stream.LengthPrefixParser.Reserve: grows with the corrected `Grow`. As written, a capacity of 0 or 1 never grows and the loop at src/transports/stream.ts:102-106 never ends. `new LengthPrefixParser(0)`, `new LengthPrefixParser(1)` or `reset(0)` reach that state (see Findings). The model does not show that hang here.
- Stream.LengthPrefixParser.Parse: inherits the corrected growth from `Reserve`. As written, a capacity of 0 or 1 with a chunk that does not fit never returns.
- Stream.SendToFreshParser: holds for every initial size because it uses the corrected growth. As written, an initial size of 0 or 1 hangs in the growth loop.
- Response.FromOtherWraps: covers `null` through the corrected `makeFailureErrorFrom`. As written, src/response.ts:114 throws a TypeError on `null` (see Findings).

## Findings

| source | as written | input that shows it | evidently intended | confidence | as-written member | corrected member |
|---|---|---|---|---|---|---|
| src/transports/stream.ts:102-106 | the growth loop multiplies the capacity by 1.5 and truncates | `reset(0)`, or an initial size of 1, then `parse` of a 2-byte chunk: the capacity stays 0 (or 1) and the loop never ends | growth until the chunk fits, for every capacity | high, not executed | Stream.GrowAsWrittenStalls | Stream.Grow |
| src/response.ts:114 | `typeof error === 'object' && error.stack` | a thrown `null`: `typeof null` is `'object'`, so `null.stack` throws a TypeError | `null` becomes the data of an internal error, like any other non-object value | high, not executed | Response.MakeFailureErrorFromNullThrows | Response.MakeFailureErrorFrom |
| src/provider.ts:112-114 | `this._signals.removeAllListeners(signal)` | `offAllSignals()` after `onSignal('a', l)`: the emitter is passed one argument, `undefined`, so it deletes only the key `"undefined"` and `l` is still called for `'a'` | with no name, every listener of every name is removed | high, not executed | Providers.OffAllSignalsAsWrittenKeepsListeners | Providers.OffAllSignalsClears |
| src/provider.ts:91-93 | `name in this._methods` | `hasMethod('toString')` on a fresh provider is true | true only for registered methods | high, not executed | Providers.HasMethodAsWrittenOnFreshProvider | Providers.HasMethodMeansCallable |
