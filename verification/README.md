# A model of envoy-mcp-openapi-processor

The processor sits behind Envoy's ext_proc filter and turns MCP tool calls into REST
calls described by OpenAPI documents, and the REST answers back into MCP results. This
project models it in Dafny 4.11 and proves what its stream protocol, its translation, its
registry and its protocol eras keep. `dafny verify dfyconfig.toml` checks everything.

## How it is laid out

| file | what it models |
|---|---|
| `Common.dfy`, `Text.dfy`, `Wire.dfy`, `Rpc.dfy` | bytes, Go's string functions, ext_proc messages, JSON-RPC values |
| `StreamState.dfy` | the five stream states, the reused body buffer as a class over an array, and the `Process` loop |
| `History.dfy`, `AnswerOrder.dfy`, `Framing.dfy` | the stateless cycle-by-cycle account of a stream, which the stream refines; the order of answers; body framing |
| `Placeholders.dfy`, `EndpointRequests.dfy`, `Reroute.dfy` | path templates, building the REST request, the header mutation and its effect |
| `Registry.dfy`, `Generation.dfy`, `SchemaProjection.dfy`, `ResponseChoice.dfy` | the tool registry, its generation from OpenAPI documents, schema projection, choice of the response schema |
| `Era.dfy`, `HeaderValidation.dfy`, `Base64.dfy`, `Handler.dfy`, `Replies.dfy` | protocol versions, mirrored headers, the request and response handlers, and what their messages say |
| `Verdicts.dfy`, `Exchanges.dfy` | what every request and response is answered with, in the protocol's own names and numbers alone; handlers and stream give exactly that |
| `Gate.dfy`, `UpstreamRequest.dfy`, `StructuredOutput.dfy` | what holds when these are put together: what reaches the upstream, what the upstream sees, what comes back |

## How to read it

- Go strings and byte slices are sequences of characters, one character a byte.
- Go visits the keys of a map in an unspecified order. `Common.Order` is one such order
  for every key set; wherever the program ranges over a map the model takes an `Order`,
  and the theorems hold for all of them. The orders used while a request is served travel
  with the message that opens its cycle (`Wire.Walk`). They are not on the wire.
- Decoding and encoding JSON and JSON-RPC, number formatting, query encoding, status texts
  and the host check are function-valued fields of `Handler.Library` and `Handler.Server`;
  every theorem holds for all of them. Where a theorem needs a fact about one, it says so
  (`Replies.CanEncode`: encoding does not fail; `Replies.ReadsJson`: section 2 of RFC 8259).
  Decoding gives fresh values, so nothing that outlives a phase shares the body buffer.
- One `Rpc.Params` value is the single reading of a request's params from which the version,
  the tool name and the arguments are taken.
- `StreamState.Service` is what the stream asks of its server, as functions. The theorems
  about the stream hold for any service; `StreamState.ServiceOf` is the real one.

Three things hold in the code that its comments do not lead one to expect, and the model
follows the code: after an answer of its own from the body phase a stream takes no further
message (`History.NothingAfterOwnAnswer`); a `tools/call` without a valid id is sent upstream
but the upstream's answer is then refused (the same lemma); and a request that is not a POST
is answered without draining its body, so a body that follows is a violation
(`History.RefusedIsNotDrained`).

Some properties hold only under a condition. For each a lemma gives the exact condition, and
another an input outside it:

| property | exact condition | input outside it |
|---|---|---|
| the path is the same for every order | `Placeholders.OrderIndependentExactlyIfIndependent`, `EndpointRequests.PathIsFixedExactlyIfIndependent` | `Placeholders.BracesInAValueMakeOrderMatter` |
| the upstream sees the same request for every order | `UpstreamRequest.UpstreamIsFixedExactlyIf` | `UpstreamRequest.AcceptParameterIsNotFixed` |
| path and query can be read back from the target | `EndpointRequests.FullPathReadsBack`, `EndpointRequests.TargetReadsBack` | `EndpointRequests.QuestionMarkArgumentBecomesQuery` |
| the generated registry is the same for every order | `Generation.GenerationIsFixedExactlyIf` | `Generation.SpellingsOfAStatusMakeOrderMatter` |
| the chosen response schema is the same for every order | `ResponseChoice.ChoiceIsFixedExactlyIf` | `ResponseChoice.SpellingsOfOneCodeClash` |
| the projected schema accepts what the schema accepts | `SchemaProjection.LostExactlyAtGaps`, `SchemaProjection.SoundExactlyIfNoLeak`, `SchemaProjection.SoundExactlyWithoutNullGap` | `SchemaProjection.NullableStringIsUnsound` |

## Model

| member | source | states |
|---|---|---|
| `StreamState.Process` | server.go:34-76 | what is sent, and whether the stream ends in a violation, is the run of the machine on what is received |
| `StreamState.Stream.Append` | stream_state.go:158 | appends in place while the chunk fits the backing array and otherwise moves to a larger one; either way the contents grow by the chunk |
| `StreamState.Stream.BeginBuffering` | stream_state.go:47-50 | truncates to nothing and keeps the backing array |
| `StreamState.Stream.HandleRequestHeaders` | stream_state.go:80-122 | each way a cycle opens, with the buffer untouched or truncated |
| `StreamState.Stream.HandleDraining` | stream_state.go:134-146 | a blocked request's body is discarded and the rejection sent at its end |
| `StreamState.Stream.HandleBufferingRequest` | stream_state.go:155-171 | chunks accumulate until a final chunk or trailers finalize the request |
| `StreamState.Stream.FinalizeRequest` | stream_state.go:173-196 | the handler sees exactly the buffered bytes; a reroute is framed, anything else sent as is |
| `StreamState.Stream.HandleResponseHeaders` | stream_state.go:204-230 | refuses all but the response of a tool call; records its status; answers a bodyless one at once |
| `StreamState.Stream.HandleBufferingResponse` | stream_state.go:237-253 | as for requests, in the response direction |
| `StreamState.Stream.FinalizeResponse` | stream_state.go:255-265 | the buffered response is translated in the cycle's own context and framed |
| `History.RunRefinesHistory` | stream_state.go:155-265 | for every message sequence, what is sent is a stateless function of each cycle's headers, whole bodies, status and trailer flags, and the run stops exactly at the first message that does not fit |
| `History.ChunkingIsInvisible` | stream_state.go:29-50 | two runs through the same cycles, cut into chunks differently, send the same and are in the same state, with the same bytes buffered |
| `History.AcceptedExactlyIfLegal` | stream_state.go:80-253 | a message sequence is free of violations if and only if it is complete legal cycles followed by a legal cycle under way |
| `History.AcceptedExactlyIfPrefix` | stream_state.go:18-27 | equivalently, if and only if it is a prefix of a finished conversation |
| `History.HistoryIsUnique` | stream_state.go:18-27 | the grammar of cycles is unambiguous |
| `History.FinalExactlyIfRefusesAll` | stream_state.go:204-212 | the positions that refuse every message are exactly those where a body phase has left no response to await |
| `History.AwaitsResponseExactlyIf` | stream_state.go:70-75 | a response is awaited if and only if the request was rerouted and has a valid id |
| `History.NothingAfterOwnAnswer` | stream_state.go:195-212 | nothing is accepted after an immediate answer from the body phase, nor after rerouting a call without a valid id |
| `History.RefusedIsNotDrained` | stream_state.go:86-94 | after the answer to a request that is not a POST only a new cycle may follow |
| `Exchanges.OpeningIsAnswered` | stream_state.go:80-122 | after request headers, whatever came before: 405 with allow: POST exactly if the first :method is not POST; else 403 at once or after draining for a refused host; else -32600 without a body; else buffering, with the three first mcp- headers kept and nothing sent |
| `Exchanges.BlockedBodyIsAnswered` | stream_state.go:134-146 | a refused host's body is taken in silence and then answered with 403 |
| `Exchanges.RequestGetsItsVerdict` | stream_state.go:173-196 | a whole request that calls no known tool is answered with its verdict, byte for byte |
| `Exchanges.NoRequestGetsItsError` | mcp_handler.go:176-187 | a body that is no request gets -32700 or -32600 in a 200 |
| `Exchanges.ToolCallIsTranslated` | stream_state.go:204-265 | a tool call from end to end: the request sent upstream by endpoint and arguments, then the result by the first :status and the whole upstream body |
| `Exchanges.EmptyUpstreamIsReplaced` | stream_state.go:228-229 | the same for an upstream answer without a body, which is replaced by its description |
| `AnswerOrder.AnswersInOrder` | stream_state.go:173-265 | on every run: the answers of the ended cycles in order, each well ordered, then those of an ended request phase; as many request-headers answers as ended request phases |
| `AnswerOrder.CycleShape` | extproc_response.go:31-40 | a cycle is answered by an acknowledgement and an immediate answer, or by a streamed request followed by a streamed or replaced response |
| `AnswerOrder.ServerIsProper` | extproc_response.go:75-93 | the server's handlers satisfy what the order of answers rests on |
| `AnswerOrder.RelayedRequestFinalizesOnce` | stream_state.go:155-171 | a framed body fed to a buffering request finalizes exactly once, at its last message, with the original body and trailer flag |
| `AnswerOrder.RelayedResponseFinalizesOnce` | stream_state.go:237-253 | the same in the response direction |
| `Framing.Frame` | extproc_response.go:229-246 | the emitted sequence is the headers, the i-th chunk cut at multiples of 61440, and trailers if the source had them |
| `Framing.FramedWhole` | extproc_response.go:229-246 | for every length the chunks are the body, max(1, ceil(n/61440)) of them, all but the last full, and the end is signalled once, by the last message |
| `Replies.DeclaredLength` | mcp_handler.go:334-335 | the declared content-length is the length of the chunks together |
| `Gate.EveryReroutePassedGate` | mcp_handler.go:195-223 | on every run, every request sent upstream answers a received POST (or method-less) request from an allowed host whose body is a tools/call of a registered tool; in the modern era all three versions are 2026-07-28 and the decoded name header is the tool's name |
| `UpstreamRequest.UpstreamIsFixedExactlyIf` | endpoint_request.go:24-61 | a request sent on under one map iteration order is sent on under all; the upstream then sees the same request under all of them if and only if no path argument that is used names another one and no two extra headers (accept, content-type, header parameters) have one name in two spellings and different values |
| `UpstreamRequest.BraceFreeIsFixedExactlyIfUnambiguous` | extproc_response.go:75-93 | for brace-free templates and arguments only the spellings of header names decide |
| `UpstreamRequest.AcceptParameterIsNotFixed` | endpoint_request.go:25-28 | a header parameter spelled "Accept" makes what the upstream sees depend on the order, unless the argument is the default |
| `Handler.ReroutedExactlyIf` | mcp_handler.go:281-321 | a request is rerouted if and only if it is an admitted tools/call whose tool exists and whose arguments fit it |
| `Handler.GateOnReroute` | header_validation.go:94-131 | what a rerouted request has passed, combining version, method, mirrored headers and registry |
| `Handler.ExactlyOneOutcome` | mcp_handler.go:60-73 | every request gets exactly one of an immediate answer and a reroute; config and era go with a reroute only |
| `Handler.StatusClassification` | mcp.go:180-189 | 404 exactly for a supported modern version with an unserved method, 400 exactly for the other modern protocol errors, 202 exactly for the handshake's notification, else 200; legacy is always 200 or 202 |
| `Verdicts.VerdictIsGiven` | mcp_handler.go:171-226 | a reference decision table on the body and the raw headers, by method names, versions, codes and statuses; the handler gives exactly its answer |
| `Verdicts.CallIsGiven` | mcp_handler.go:281-321 | a call of a known tool: a tool error for the first faulty argument or an unwritable body, else the upstream request with its method, target, host, body and headers |
| `Verdicts.ResponseIsGiven` | mcp_handler.go:323-430 | the response to the client by the upstream's status and body: result, envelope, headers, and the text for a missing body |
| `Replies.RepliesProperly` | mcp_handler.go:171-226 | the error code of every refused request and the stamped result of every served one; no internal error, so no result reaches an era that cannot encode it and the switch never falls through |
| `Replies.UpstreamAnswer` | mcp_handler.go:383-430 | error flag, structured content and envelope of a translated response |
| `Replies.EmptyUpstreamAnswer` | mcp_handler.go:341-346 | a bodyless upstream answer gives a replaced response without structured content |
| `Era.ByteOrderIsCalendarOrder` | mcp.go:32-36 | byte order is calendar order on all YYYY-MM-DD strings |
| `Era.ModernFromCutover` | mcp.go:34-36 | a dated version is modern exactly from 2026-07-28 on |
| `Era.EraOfRequest` | mcp.go:199-211 | modern exactly if not part of the handshake and body or header has a version from 2026-07-28 on; only that one is served |
| `Era.ServedMethods` | mcp.go:72-123 | the methods each era serves, by name |
| `Era.Versions` | mcp.go:24-51 | the supported versions, newest first, and what the handshake answers every client version with |
| `HeaderValidation.CaptureMCPRequestHeaders` | header_validation.go:44-65 | the loop over the headers captures the first values and the parameter header names |
| `HeaderValidation.CapturedFrom` | header_validation.go:48-63 | which header goes into which field: the first mcp-protocol-version, mcp-method and mcp-name, trimmed, and all mcp-param- names |
| `HeaderValidation.AcceptedExactlyIfMirrored` | header_validation.go:94-131 | the headers are accepted exactly if those three say what the body says, the name unwrapped |
| `HeaderValidation.MirroredToolCallIsAccepted` | header_validation.go:94-131 | a mirrored tools/call of a valid tool name, bare or wrapped, is accepted |
| `HeaderValidation.Unwrapping` | header_validation.go:137-148 | exactly what is between =?base64? and ?= is decoded |
| `HeaderValidation.FirstValueIsFirst` | header_validation.go:67-79 | a captured value is that of the first header of that name in any case, trimmed, empty ones included |
| `HeaderValidation.ParamHeadersListed` | header_validation.go:55-58 | exactly the mcp-param- headers are listed |
| `HeaderValidation.EitherSpelling` | header_validation.go:137-148 | a valid tool name gets the same verdict bare and Base64-wrapped |
| `HeaderValidation.WrappedRoundTrip` | header_validation.go:137-148 | decoding the sentinel around the Base64 form of any byte string gives it back |
| `HeaderValidation.ToolNamePassesThrough` | registry.go:93-110 | a valid tool name is never taken for a wrapped value |
| `Base64.RoundTrip` | header_validation.go:140 | decoding undoes encoding for every byte string |
| `Base64.RefusedExactlyIfMalformed` | header_validation.go:140 | a payload is refused exactly if it is not groups of four alphabet characters with at most two padding signs at the end, line breaks apart |
| `Base64.GroupIsBigEndian` | header_validation.go:140 | three bytes are four digits, most significant bits first; shorter groups are padded |
| `Wire.FindHeaderIsFirst` | mcp_handler.go:79-86 | the header found is the first with the key |
| `Placeholders.AnyOrderIsAtOnce` | endpoint_request.go:107-115 | sequential ReplaceAll in any order is the simultaneous substitution when no value that reaches the path names another parameter |
| `Placeholders.OrderIndependentExactlyIfIndependent` | endpoint_request.go:39-60 | for well-braced values that do not name themselves, any two orders give the same path if and only if that holds; and if and only if every order gives the simultaneous substitution |
| `Placeholders.OnePass` | endpoint_request.go:114-115 | one ReplaceAll fills exactly the holes of its own name |
| `Placeholders.BracesInAValueMakeOrderMatter` | endpoint_request.go:114-115 | template /{a}/{b} with the value {b} for a: the two paths that the two orders give, which differ |
| `EndpointRequests.NewEndpointRequest` | endpoint_request.go:24-61 | the loop builds the request, or fails, as the fold over the parameters in the order visited |
| `EndpointRequests.EndpointRequest.ApplyEndpointArgument` | endpoint_request.go:107-132 | one argument changes path, query or headers, and a failing one changes nothing |
| `EndpointRequests.FailsExactlyOnFault` | endpoint_request.go:45-57 | a request fails if and only if a visited parameter is faulty, with the first such fault |
| `EndpointRequests.FaultyParameters` | endpoint_request.go:45-57 | which parameters are faulty, with which reason |
| `EndpointRequests.BuiltSaysArguments` | endpoint_request.go:70-132 | every argument is sent as it is written: strings as they are, numbers formatted, true and false as words, arrays in a query element by element; and nothing else is sent but accept and content-type |
| `EndpointRequests.PlaceholderIsFilled` | endpoint_request.go:109-115 | in a path with one placeholder exactly the argument's text stands for it |
| `EndpointRequests.BodyArgument` | endpoint_request.go:134-143 | for POST, PUT and PATCH the argument called body is the body |
| `EndpointRequests.OrderOnlyMattersForPath` | endpoint_request.go:39-60 | failure, query and headers do not depend on the order, and query and headers are what each parameter asks for |
| `EndpointRequests.PathIsSimultaneousSubstitution` | endpoint_request.go:39-60 | for brace-free names, values and template text the path is the simultaneous substitution for every order, with no placeholder left if all are required path parameters |
| `EndpointRequests.PathIsFixedExactlyIfIndependent` | endpoint_request.go:39-60 | the path of a request that can be built is the same for every iteration order if and only if no path argument that is used names another one |
| `EndpointRequests.FullPathReadsBack` | endpoint_request.go:63-68 | path and query encoding can be read back from the request target if and only if the path has no question mark |
| `EndpointRequests.TargetReadsBack` | endpoint_request.go:109-115 | for brace-free calls: if and only if neither what the template keeps nor an argument it takes has a question mark |
| `EndpointRequests.QuestionMarkArgumentBecomesQuery` | endpoint_request.go:109-115 | arguments go into the path unescaped, so one with a question mark adds a query that no parameter asked for |
| `Reroute.RerouteWithBodyMutation` | extproc_response.go:75-93 | the header list built in the order visited, routing headers last; the removal list is the shared one itself or, with more to remove, in a new array; nothing that existed is modified |
| `Reroute.RerouteAll` | extproc_response.go:87-90 | over any number of reroutes the shared array, spare capacity included, never changes, and every list handed out stays its own mutation's, whatever capacities the runtime picks |
| `Reroute.RerouteEffect` | extproc_response.go:75-93 | applied as removals then sets, names compared in lower case, the mutation has a closed form header by header |
| `Reroute.SeenIsFixedExactlyIfUnambiguous` | extproc_response.go:79-81 | what the upstream sees is the same for every order of the extra headers if and only if no two of them have one name in two spellings, routing names apart, and different values |
| `Reroute.WhatTheUpstreamSees` | extproc_response.go:16-18 | :method, :path and :authority are always the endpoint's; any other name declared in any spelling has a declared value; no client mcp- header survives unless it is declared; other client headers pass except content headers |
| `Registry.ToolRegistry.Register` | registry.go:72-91 | refuses exactly nil, invalid and known names, changing nothing; otherwise inserts at the sorted place; list and map keep agreeing |
| `Registry.BinarySearch` | registry.go:82-84 | the insertion position, and found if and only if the name is listed |
| `Registry.AlwaysAgrees` | registry.go:51-54 | after any registrations the list is strictly sorted and the map has exactly its names |
| `Registry.FirstRegistrationWins` | registry.go:72-91 | each name keeps what it had, else its first valid registration |
| `Registry.ValidNames` | registry.go:93-110 | 1 to 128 letters, digits, underscores, dashes and dots |
| `Registry.RegistrationOrderIsIrrelevant` | registry.go:72-91 | any permutation of distinctly named tools gives the same list and map |
| `Registry.RegisterLoadedTools` | openapi.go:86-97 | registers the loaded entries in list order |
| `Registry.MergeIsLeftBiasedUnion` | openapi.go:86-97 | merging is a left-biased union |
| `Registry.ToolRegistry.FilterByAllowlist` | registry.go:137-169 | fails if and only if the list is empty or names an unknown tool; otherwise the order-preserving restriction, and never the warning branch |
| `Registry.ToolRegistry.GetConfig` | registry.go:112-116 | finds the configuration of exactly the listed names |
| `Generation.GenerateMCPToolFromApiOperation` | openapi.go:294-389 | the tool and endpoint of one operation, or a panic exactly for a JSON request body without a schema entry |
| `Generation.EntryOfOperation` | openapi.go:364-388 | tool and endpoint field by field; each parameter, the last of its name, with its location and required flag |
| `Generation.AdvertisedInput` | openapi.go:297-353 | a property for each parameter, described by itself or its schema, and one for the body; the required ones in order |
| `Generation.AdvertisedOutput` | openapi.go:355-367 | the output schema is that of an object response, described |
| `Generation.DocumentedArgumentsAreSent` | openapi.go:299-310 | an argument of a generated tool is sent where the document says: path, query or header |
| `Generation.SkippedOperations` | openapi.go:129-164 | exactly the operations without operationId or without a JSON media type in their body |
| `Generation.GenerateMCPToolsFromSpec` | openapi.go:99-127 | the nested loops register the attempts in the order visited, or panic, whatever the order, exactly if some operation that is not skipped does |
| `Generation.LoadTools` | openapi.go:53-83 | each document is generated on its own and merged; no tools is an error; a panic exactly if some document's generation panics |
| `Generation.GenerationIsFixedExactlyIf` | openapi.go:99-127 | the generated registry is the same for all orders of paths, methods, statuses and media types if and only if no two offered operations share a name and, with structured output on, every response schema that some order chooses for an offered operation makes the tool advertise the same |
| `Generation.OrderIrrelevantExactlyWithoutClash` | openapi.go:104-105 | for fixed orders of statuses and media types, it is independent of the order of paths and methods if and only if no two offered operations share a name |
| `Generation.SpellingsOfAStatusMakeOrderMatter` | openapi.go:221-238 | a single operation with two spellings of status 200 and different object schemas generates different registries |
| `Generation.LoadedIsCoherent` | openapi.go:113-120 | through generation, merging and filtering, structured output is on exactly for tools that advertise an output schema |
| `Generation.AdvertisedRequiredSuffices` | openapi.go:300-310 | arguments with everything the advertised schema requires lack no required parameter |
| `StructuredOutput.TranslatedAnswer` | mcp_handler.go:396-417 | on every run a translated answer carries structured content if and only if the called tool advertises an output schema, the number in the first :status is neither missing, 0 nor at least 400, and the body is JSON |
| `StructuredOutput.EmptyUpstreamCarriesNone` | stream_state.go:228-229 | and never for a bodyless upstream answer |
| `StructuredOutput.ServedFromDocuments` | openapi.go:113-120 | a server whose tools were loaded from documents, filtered or not, ends every cycle that reached the upstream with a result for a tool it lists, structured only if structured output is on, the tool advertises an output schema and there was a body |
| `SchemaProjection.OpenApiSchemaToMap` | openapi.go:180-209 | the recursive loop computes the projection |
| `SchemaProjection.ProjectedKeywords` | openapi.go:180-209 | which keywords are kept, and which are absent when empty |
| `SchemaProjection.ProjectionIsSound` | openapi.go:180-209 | a value valid for a schema without null gap is valid for its projection |
| `SchemaProjection.ProjectionIsExact` | openapi.go:180-209 | and conversely, when only kept keywords are used |
| `SchemaProjection.SoundExactlyWithoutNullGap` | openapi.go:180-209 | the projection is sound throughout a schema if and only if no schema in it accepts null merely by being nullable |
| `SchemaProjection.LostExactlyAtGaps` | openapi.go:180-209 | whatever keywords a schema uses, the accepted values that its projection rejects are exactly those with a null that only nullable allows |
| `SchemaProjection.SoundExactlyIfNoLeak` | openapi.go:180-209 | for a schema of kept keywords only, its projection is sound if and only if no accepted value reaches such a null, judged keyword by keyword |
| `ResponseChoice.FindJSONSchemaFromResponses` | openapi.go:211-255 | the loop chooses as the fold over the statuses in the order visited |
| `ResponseChoice.AWinnerIsChosen` | openapi.go:246-254 | the choice is the schema of a smallest 2xx, else the default, else another response, and none only if there is none |
| `ResponseChoice.IndependentExactlyIfWinnersAgree` | openapi.go:221-254 | the choice is independent of the order if and only if all winners have the same schema |
| `ResponseChoice.CanonicalKeysFixTheChoice` | openapi.go:221-254 | canonical keys and some 2xx or default schema fix it |
| `ResponseChoice.CandidatesAreFixed` | openapi.go:257-273 | one JSON media type per response makes the candidates independent of the order |
| `ResponseChoice.ChoicesAreThePossible` | openapi.go:211-273 | over all orders of statuses and of each response's media types, the schemas chosen are exactly those of the responses that may win |
| `ResponseChoice.ChoiceIsFixedExactlyIf` | openapi.go:211-273 | so the choice is the same for all these orders if and only if only one is possible |
| `ResponseChoice.PreferredIsChosen` | openapi.go:245-254 | with canonical keys and one JSON media type per response, every order chooses the smallest 2xx, or else the default, when one of these has a schema |
| `ResponseChoice.PreferredExists` | openapi.go:245-254 | and there is such a choice whenever some 2xx or the default has a schema |
| `ResponseChoice.SmallestSuccessIsChosen` | openapi.go:226-249 | by number: of the statuses 200 to 299 the smallest with a JSON schema is chosen in every order |
| `ResponseChoice.DefaultIsChosen` | openapi.go:228-252 | without one, the default's |
| `ResponseChoice.OtherIsChosen` | openapi.go:236-254 | without either, some response's, if any has one |
| `Text.AtoiReadsDecimal` | mcp_handler.go:88-98 | decimal numbers read back as themselves |
| `Text.AtoiReads` | mcp_handler.go:93 | digits after at most one sign are read by their value, if it fits 64 bits |
| `Text.ReplaceLeftmost` | endpoint_request.go:115 | the leftmost occurrence is replaced and the search goes on behind it |
| `Text.LessAtFirstDifference` | mcp.go:34-36 | byte order is decided at the first difference |
| `Text.Trimmed` | header_validation.go:77-79 | white space is taken off both ends and nothing else |

## Left out

- gRPC transport, sockets, signals, configuration loading, globbing and reading files: input and output. Receiving is the next element of a sequence; failing sends are not modelled.
- Spans, logs and the buffering start time: they do not affect answers.
- The host allowlist: one arbitrary predicate on the headers.
- JSON, JSON-RPC, query and number encoding: arbitrary functions, so the encoded texts themselves are not modelled, nor are error message texts.
- Loading OpenAPI documents and resolving references: the model starts from a resolved, acyclic document. A schema that does not resolve is one without a value; a parameter or a request body that does not resolve is not modelled.
- Text.ToLower: folds ASCII letters only, since header names, HTTP methods and tool names are ASCII.
- Text.TrimSpace: trims ASCII white space only.
- ResponseChoice.Least: stands for sorting the codes and taking the first.
- Handler.EncodeResult: works on values, where the source writes the fields of a result it has just made; that nothing else shares that result is not captured.
- StreamState.Stream.HandleResponseHeaders: the status is set on a copy of the context, where the source writes it into the state that it then leaves.
- Reroute.RerouteWithBodyMutation: the removal list is a slice over an array; the list of headers to set, which nothing else shares, is a value.
- Placeholders.OrderIndependentExactlyIfIndependent: the exact condition is for values whose braces, if any, are well formed and which do not name their own placeholder.
- SchemaProjection.SoundExactlyWithoutNullGap: states when the projections of a schema and of all schemas inside it are sound; a gap in an inner schema that no valid value reaches is counted.
- SchemaProjection.SoundExactlyIfNoLeak: only for schemas of kept keywords; what the other keywords demand is an arbitrary predicate here, so whether a value reaches a gap through them cannot be judged keyword by keyword.
- The `Len`, `Tools` and `String` accessors, tool titles and server capabilities: they would only add easy members.
