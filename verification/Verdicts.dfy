/** What a request and an upstream response are answered with, told in the names
    and numbers of the protocol alone and case by case. The handlers give exactly
    these answers. */
module Verdicts {
  import opened Common
  import opened Text
  import opened Wire
  import opened Rpc
  import opened Era
  import opened HeaderValidation
  import opened Handler
  import Registry
  import E = EndpointRequests
  import P = Placeholders
  import R = Reroute

  // ------------------------------------------------------- what is decided

  /** `Calls` is a call of a known tool. */
  datatype Verdict =
    | Fails(status: int, code: int, requested: Option<string>)
    | Accepted
    | Answers(result: Result)
    | Calls(era: ProtocolEra, name: string, arguments: E.Arguments)

  /** The version in _meta, "" without one. */
  function DeclaredVersion(params: Params): string {
    match params.metaVersion
    case Given(v) => if params.decodable then v else ""
    case _ => ""
  }

  /** The first header of each mirrored name agrees with the body. */
  ghost predicate Mirrors(call: Call, headers: HeaderMap) {
    && ValueOf(headers, "mcp-protocol-version") == DeclaredVersion(call.params) != ""
    && ValueOf(headers, "mcp-method") == call.methodName != ""
    && (call.methodName == "tools/call" ==>
          && ValueOf(headers, "mcp-name") != ""
          && exists name :: Names(call, name) && DecodeHeaderValue(ValueOf(headers, "mcp-name")) == Some(name))
  }

  function EnvelopeIn(s: Server, era: ProtocolEra): Envelope {
    match era
    case Legacy => Envelope(None, None)
    case Modern => Envelope(Some(Implementation(s.info.name, s.info.version)), Some("complete"))
  }

  function CacheIn(era: ProtocolEra): Option<CacheHints> {
    match era
    case Legacy => None
    case Modern => Some(CacheHints(300000, "private"))
  }

  /** A tools/call needs a readable name of a known tool and readable arguments. */
  ghost function ToolVerdict(s: Server, era: ProtocolEra, params: Params): Verdict {
    var name := if params.name.Given? then params.name.value else "";
    var arguments := if params.arguments.Given? then params.arguments.value else map[];
    if params.decodable && !params.name.Malformed? && !params.arguments.Malformed? && name in s.catalog.configs then
      Calls(era, name, arguments)
    else Fails(if era == Modern then 400 else 200, -32602, None)
  }

  ghost function HandshakeVerdict(s: Server, params: Params): Verdict {
    if !params.decodable || params.handshakeVersion.Malformed? then Fails(200, -32602, None)
    else
      var version := if params.handshakeVersion in [Given("2025-06-18"), Given("2025-11-25")]
        then params.handshakeVersion.value else "2025-11-25";
      Answers(InitializeResult(version, Implementation(s.info.name, s.info.version), s.info.instructions))
  }

  ghost function LegacyVerdict(s: Server, call: Call): Verdict {
    if call.methodName == "tools/list" then Answers(ListToolsResult(Envelope(None, None), None, s.catalog.tools))
    else if call.methodName == "tools/call" then ToolVerdict(s, Legacy, call.params)
    else Fails(200, -32601, None)
  }

  ghost function ModernVerdict(s: Server, call: Call, version: string, headers: HeaderMap): Verdict {
    if version != "2026-07-28" then Fails(400, -32022, Some(version))
    else if call.methodName !in ["server/discover", "tools/list", "tools/call"] then Fails(404, -32601, None)
    else if !Mirrors(call, headers) then Fails(400, -32020, None)
    else if call.methodName == "server/discover" then
      Answers(DiscoverResult(EnvelopeIn(s, Modern), CacheIn(Modern), ["2026-07-28", "2025-11-25", "2025-06-18"], s.info.instructions))
    else if call.methodName == "tools/list" then
      Answers(ListToolsResult(EnvelopeIn(s, Modern), CacheIn(Modern), s.catalog.tools))
    else ToolVerdict(s, Modern, call.params)
  }

  ghost function VerdictOn(s: Server, call: Call, headers: HeaderMap): Verdict {
    var declared, mirrored := DeclaredVersion(call.params), ValueOf(headers, "mcp-protocol-version");
    if call.methodName == "initialize" then HandshakeVerdict(s, call.params)
    else if call.methodName == "notifications/initialized" then Accepted
    else if Less(declared, "2026-07-28") && Less(mirrored, "2026-07-28") then LegacyVerdict(s, call)
    else ModernVerdict(s, call, if Less(declared, "2026-07-28") then mirrored else declared, headers)
  }

  // --------------------------------------------------------- how it is sent

  const ACKNOWLEDGED := HeadersAnswer(Request, CommonResponse(false, [], [], None))

  function JsonAnswer(status: int, body: Bytes): seq<Answer> {
    [ACKNOWLEDGED, ImmediateAnswer(Immediate(status, [HeaderSet("content-type", "application/json")], body))]
  }

  const INTERNAL_ERROR_HEAD: Bytes := "{\"jsonrpc\":\"2.0\",\"id\":null,"
  const INTERNAL_ERROR_REST: Bytes := "\"error\":{\"code\":-32603,"
  const INTERNAL_ERROR_TAIL: Bytes := "\"message\":\"Internal error\"}}"

  /** The encoded error, or a fixed text if it cannot be encoded. */
  function ErrorText(s: Server, id: Id, code: int, requested: Option<string>): Bytes {
    var encoded := s.lib.encodeReply(ErrorReply(id, code, requested));
    if encoded.Some? then encoded.value else INTERNAL_ERROR_HEAD + INTERNAL_ERROR_REST + INTERNAL_ERROR_TAIL
  }

  /** The encoded result, or an internal error if it cannot be encoded. */
  function ResultText(s: Server, id: Id, result: Result): Bytes {
    var encoded := s.lib.encodeReply(ResultReply(id, result));
    if encoded.Some? then encoded.value else ErrorText(s, id, -32603, None)
  }

  function Immediately(id: Id, answers: seq<Answer>): ProcResponse {
    ProcResponse(id, answers, None, None, None)
  }

  lemma ErrorIsSent(s: Server, era: ProtocolEra, id: Id, code: int, requested: Option<string>)
    ensures ErrorResponse(s, era, id, code, requested) ==
      Immediately(id, JsonAnswer(
        if era == Modern && code in {-32022, -32020, -32602} then 400 else if era == Modern && code == -32601 then 404 else 200,
        ErrorText(s, id, code, requested)))
  {
  }

  /** A result and what each era makes of it. */
  ghost predicate EncodedIn(s: Server, era: ProtocolEra, plain: Result, result: Result) {
    match plain
    case CallToolResult(_, content, structured, isError) => result == CallToolResult(EnvelopeIn(s, era), content, structured, isError)
    case ListToolsResult(_, _, tools) => result == ListToolsResult(EnvelopeIn(s, era), CacheIn(era), tools)
    case DiscoverResult(_, _, versions, instructions) => result == DiscoverResult(EnvelopeIn(s, era), CacheIn(era), versions, instructions)
    case InitializeResult(_, _, _) => era == Legacy && result == plain
  }

  ghost predicate IsPlain(result: Result) {
    && (result.InitializeResult? || result.envelope == Envelope(None, None))
    && (result.ListToolsResult? || result.DiscoverResult? ==> result.cache == None)
  }

  lemma ResultIsSent(s: Server, era: ProtocolEra, id: Id, plain: Result, result: Result)
    requires IsPlain(plain) && EncodedIn(s, era, plain, result)
    ensures EncodeResult(s.info, era, plain) == Some(result)
    ensures ResultResponse(s, era, id, plain) == Immediately(id, JsonAnswer(200, ResultText(s, id, result)))
  {
    ErrorIsSent(s, era, id, -32603, None);
  }

  // ------------------------------------------------- the handler follows it

  ghost predicate Gives(s: Server, id: Id, r: ProcResponse, verdict: Verdict) {
    match verdict
    case Fails(status, code, requested) => r == Immediately(id, JsonAnswer(status, ErrorText(s, id, code, requested)))
    case Accepted => r == Immediately(id, [ACKNOWLEDGED, ImmediateAnswer(Immediate(202, [], []))])
    case Answers(result) => r == Immediately(id, JsonAnswer(200, ResultText(s, id, result)))
    case Calls(_, _, _) => true
  }

  /** What is not a request is refused before any era is known. */
  lemma NoRequestIsRefused(s: Server, body: Bytes, hdrs: McpRequestHeaders, walk: Walk)
    ensures s.lib.decodeMessage(body).Undecodable? ==>
      McpRequestHandler(s, body, hdrs, walk) == Immediately(NoId, JsonAnswer(200, ErrorText(s, NoId, -32700, None)))
    ensures s.lib.decodeMessage(body).NotARequest? ==>
      McpRequestHandler(s, body, hdrs, walk) == Immediately(NoId, JsonAnswer(200, ErrorText(s, NoId, -32600, None)))
  {
    ErrorIsSent(s, Legacy, NoId, -32700, None);
    ErrorIsSent(s, Legacy, NoId, -32600, None);
  }

  lemma DeclaredIsRead(params: Params)
    ensures MetaProtocolVersion(params) == DeclaredVersion(params)
  {
  }

  lemma MirroredIsAccepted(call: Call, headers: HeaderMap)
    ensures ValidateModernHeaders(call, MetaProtocolVersion(call.params), Captured(headers)).None? <==> Mirrors(call, headers)
  {
    DeclaredIsRead(call.params);
    AcceptedExactlyIfMirrored(call, MetaProtocolVersion(call.params), headers);
  }

  /** Which request is refused before it is dispatched, and with what. */
  lemma RefusalFollows(s: Server, body: Bytes, call: Call, headers: HeaderMap, walk: Walk)
    requires s.lib.decodeMessage(body) == RequestMessage(call) && !Admitted(call, Captured(headers))
    ensures VerdictOn(s, call, headers).Fails?
    ensures Gives(s, call.id, McpRequestHandler(s, body, Captured(headers), walk), VerdictOn(s, call, headers))
  {
    var hdrs := Captured(headers);
    CapturedFrom(headers);
    DeclaredIsRead(call.params);
    EraOfRequest(call.methodName, DeclaredVersion(call.params), hdrs.protocolVersion);
    ServedMethods(call.methodName);
    MirroredIsAccepted(call, headers);
    var r := Selected(call, hdrs);
    ErrorIsSent(s, r.era, call.id, -32022, Some(r.version));
    ErrorIsSent(s, r.era, call.id, -32601, None);
    ErrorIsSent(s, r.era, call.id, -32020, None);
  }

  /** What an admitted request of this era is answered with. */
  ghost function AdmittedVerdict(s: Server, era: ProtocolEra, call: Call): Verdict {
    if call.methodName == "initialize" then HandshakeVerdict(s, call.params)
    else if call.methodName == "notifications/initialized" then Accepted
    else if call.methodName == "server/discover" then
      Answers(DiscoverResult(EnvelopeIn(s, era), CacheIn(era), ["2026-07-28", "2025-11-25", "2025-06-18"], s.info.instructions))
    else if call.methodName == "tools/list" then Answers(ListToolsResult(EnvelopeIn(s, era), CacheIn(era), s.catalog.tools))
    else ToolVerdict(s, era, call.params)
  }

  lemma AdmittedVerdictIsThat(s: Server, call: Call, headers: HeaderMap)
    requires Admitted(call, Captured(headers))
    ensures VerdictOn(s, call, headers) == AdmittedVerdict(s, Selected(call, Captured(headers)).era, call)
    ensures call.methodName == "initialize" ==> Selected(call, Captured(headers)).era == Legacy
    ensures call.methodName in ["initialize", "notifications/initialized", "server/discover", "tools/list", "tools/call"]
  {
    CapturedFrom(headers);
    DeclaredIsRead(call.params);
    EraOfRequest(call.methodName, DeclaredVersion(call.params), Captured(headers).protocolVersion);
    ServedMethods(call.methodName);
    MirroredIsAccepted(call, headers);
  }

  lemma HandshakeFollows(s: Server, call: Call)
    ensures Gives(s, call.id, HandleInitialize(s, Legacy, call), HandshakeVerdict(s, call.params))
  {
    var clientVersion := if call.params.handshakeVersion.Given? then call.params.handshakeVersion.value else "";
    Versions(clientVersion);
    ErrorIsSent(s, Legacy, call.id, -32602, None);
    var result := InitializeResult(
      NegotiateLegacyVersion(clientVersion), Implementation(s.info.name, s.info.version), s.info.instructions);
    ResultIsSent(s, Legacy, call.id, result, result);
  }

  lemma DispatchFollows(s: Server, era: ProtocolEra, call: Call, hdrs: McpRequestHeaders, walk: Walk)
    requires call.methodName in ["initialize", "notifications/initialized", "server/discover", "tools/list", "tools/call"]
    requires call.methodName == "initialize" ==> era == Legacy
    ensures Gives(s, call.id, Dispatched(s, era, call, hdrs, walk), AdmittedVerdict(s, era, call))
  {
    MethodsDiffer(call.methodName);
    Versions("");
    match call.Method() {
      case Initialize => HandshakeFollows(s, call);
      case Initialized =>
      case Discover =>
        var plain := DiscoverResult(Envelope(None, None), None, ["2026-07-28", "2025-11-25", "2025-06-18"], s.info.instructions);
        ResultIsSent(s, era, call.id, plain, DiscoverResult(EnvelopeIn(s, era), CacheIn(era), plain.versions, plain.instructions));
      case ToolsList =>
        var plain := ListToolsResult(Envelope(None, None), None, s.catalog.tools);
        ResultIsSent(s, era, call.id, plain, ListToolsResult(EnvelopeIn(s, era), CacheIn(era), s.catalog.tools));
      case ToolsCall =>
        ToolCallRead(call.params);
        ErrorIsSent(s, era, call.id, -32602, None);
      case Other =>
    }
  }

  /** Every request is answered with its verdict. */
  lemma VerdictIsGiven(s: Server, body: Bytes, call: Call, headers: HeaderMap, walk: Walk)
    requires s.lib.decodeMessage(body) == RequestMessage(call)
    ensures Gives(s, call.id, McpRequestHandler(s, body, Captured(headers), walk), VerdictOn(s, call, headers))
  {
    var hdrs := Captured(headers);
    if Admitted(call, hdrs) {
      AdmittedVerdictIsThat(s, call, headers);
      DispatchFollows(s, Selected(call, hdrs).era, call, hdrs, walk);
      assert McpRequestHandler(s, body, hdrs, walk) == Dispatched(s, Selected(call, hdrs).era, call, hdrs, walk);
    } else {
      RefusalFollows(s, body, call, headers, walk);
    }
  }

  // --------------------------------------------------------------- the call

  /** What is sent upstream for a call: host, method, path and query, body and
      headers as the endpoint and the arguments say, under any iteration order. */
  ghost predicate CallsUpstream(s: Server, endpoint: Registry.Endpoint, arguments: E.Arguments, headers: HeaderMap, walk: Walk,
                                m: StreamedMutation)
  {
    exists d: E.Draft, values: map<string, string> ::
      && E.SaysHeaders(s.lib.format, endpoint, arguments, d.headers)
      && E.SaysQuery(s.lib.format, endpoint, arguments, d.query)
      && E.SaysPath(s.lib.format, endpoint, arguments, values)
      && d.path == P.ReplacedInOrder(endpoint.pathTemplate, walk.parameters(endpoint.parameters.Keys), values)
      && m.headers.HeadersAnswer? && m.headers.direction == Request
      && !m.headers.common.replace && m.headers.common.body == None
      && Some(m.body) == (if ToLower(endpoint.httpMethod) in ["post", "put", "patch"] && "body" in arguments
                          then s.lib.marshal(arguments["body"]) else Some([]))
      && forall client, name ::
           SeesHeader(client, Captured(headers).paramHeaderNames, d.headers, walk.extraHeaders, name,
                      ToUpper(endpoint.httpMethod),
                      if d.query == map[] then d.path else d.path + "?" + s.lib.encodeQuery(d.query),
                      endpoint.host, R.Lookup(R.Effect(client, m.headers.common), name))
  }

  /** What the upstream sees of one header. */
  ghost predicate SeesHeader(client: map<string, string>, strip: seq<string>, extra: map<string, string>, order: Order,
                             name: string, verb: string, target: string, host: string, seen: Option<string>)
  {
    seen ==
      if name == ":method" then Some(verb)
      else if name == ":path" then Some(target)
      else if name == ":authority" then Some(host)
      else
        var declared := R.LastSet(R.HeaderSets(extra, order(extra.Keys)), name);
        if declared.Some? then declared
        else if name in ["content-length", "content-type", "mcp-protocol-version", "mcp-method", "mcp-name"]
             || exists r :: r in strip && ToLower(r) == name then None
        else R.Lookup(client, name)
  }

  lemma HeadersSeen(client: map<string, string>, host: string, verb: string, target: string, body: Bytes,
                    extra: map<string, string>, strip: seq<string>, order: Order, name: string)
    requires forall r :: r in strip ==> ToLower(r) == r
    ensures var m := R.Rerouted(host, verb, target, body, extra, strip, order);
      SeesHeader(client, strip, extra, order, name, verb, target, host, R.Lookup(R.Effect(client, m.headers.common), name))
  {
    R.RerouteEffect(client, host, verb, target, extra, strip, order, name);
    forall r | r in R.REMOVE_ON_ROUTING ensures ToLower(r) == r {
      R.RemovalsAreLower([], r);
    }
    assert R.Removed(strip, name) <==>
      name in ["content-length", "content-type", "mcp-protocol-version", "mcp-method", "mcp-name"]
      || exists r :: r in strip && ToLower(r) == name;
  }

  lemma RerouteCallsUpstream(s: Server, endpoint: Registry.Endpoint, arguments: E.Arguments, headers: HeaderMap, walk: Walk)
    requires E.Built(s.lib.format, endpoint, arguments, walk.parameters(endpoint.parameters.Keys)).Done?
    requires E.MarshalRequestBody(s.lib.marshal, endpoint, arguments).Some?
    ensures var d := E.Built(s.lib.format, endpoint, arguments, walk.parameters(endpoint.parameters.Keys)).value;
      CallsUpstream(s, endpoint, arguments, headers, walk,
        R.Rerouted(endpoint.host, ToUpper(endpoint.httpMethod), E.FullPath(s.lib.encodeQuery, d),
                   E.MarshalRequestBody(s.lib.marshal, endpoint, arguments).value, d.headers,
                   Captured(headers).paramHeaderNames, walk.extraHeaders))
  {
    var d := E.Built(s.lib.format, endpoint, arguments, walk.parameters(endpoint.parameters.Keys)).value;
    var values := E.BuiltSaysArguments(s.lib.format, endpoint, arguments, walk.parameters);
    E.BodyArgument(s.lib.marshal, endpoint, arguments);
    var strip := Captured(headers).paramHeaderNames;
    forall r | r in strip ensures ToLower(r) == r {
      R.RemovalsAreLower(headers, r);
    }
    forall client, name {
      HeadersSeen(client, endpoint.host, ToUpper(endpoint.httpMethod), E.FullPath(s.lib.encodeQuery, d),
                  E.MarshalRequestBody(s.lib.marshal, endpoint, arguments).value, d.headers, strip, walk.extraHeaders, name);
    }
  }

  /** What a call of a known tool is answered with: a tool error if an argument does
      not fit or the body cannot be written, else the request to the upstream. */
  ghost predicate GivesCall(s: Server, call: Call, era: ProtocolEra, name: string, arguments: E.Arguments, headers: HeaderMap,
                            walk: Walk, r: ProcResponse)
    requires name in s.catalog.configs
  {
    var config := s.catalog.configs[name];
    var visited := walk.parameters(config.endpoint.parameters.Keys);
    if exists n :: n in config.endpoint.parameters && E.Fault(s.lib.format, config.endpoint, arguments, n).Some? then
      exists i, e ::
        && 0 <= i < |visited| && visited[i] in config.endpoint.parameters
        && E.Fault(s.lib.format, config.endpoint, arguments, visited[i]) == Some(e)
        && (forall j :: 0 <= j < i ==> visited[j] in config.endpoint.parameters && E.Fault(s.lib.format, config.endpoint, arguments, visited[j]).None?)
        && GivesToolError(s, call.id, era, InvalidArgument(e), r)
    else if E.MarshalRequestBody(s.lib.marshal, config.endpoint, arguments).None? then
      GivesToolError(s, call.id, era, UnserializableBody, r)
    else
      && r.id == call.id && r.immediate == [] && r.config == Some(config.response) && r.era == Some(era)
      && r.reroute.Some? && CallsUpstream(s, config.endpoint, arguments, headers, walk, r.reroute.value)
  }

  ghost predicate GivesToolError(s: Server, id: Id, era: ProtocolEra, content: Content, r: ProcResponse) {
    r == Immediately(id, JsonAnswer(200, ResultText(s, id, CallToolResult(EnvelopeIn(s, era), content, None, true))))
  }

  lemma ToolErrorIsSent(s: Server, id: Id, era: ProtocolEra, content: Content)
    ensures GivesToolError(s, id, era, content, ToolExecutionErrorResponse(s, era, id, content))
  {
    ResultIsSent(s, era, id, CallToolResult(Envelope(None, None), content, None, true),
                 CallToolResult(EnvelopeIn(s, era), content, None, true));
  }

  lemma ToolCallFollows(s: Server, call: Call, era: ProtocolEra, name: string, arguments: E.Arguments, headers: HeaderMap, walk: Walk)
    requires name in s.catalog.configs && DecodeToolCall(call.params) == Some((name, arguments))
    ensures GivesCall(s, call, era, name, arguments, headers, walk,
                      HandleToolCall(s, era, call, Captured(headers).paramHeaderNames, walk))
  {
    var config := s.catalog.configs[name];
    var keys := config.endpoint.parameters.Keys;
    var visited := walk.parameters(keys);
    E.FailsExactlyOnFault(s.lib.format, config.endpoint, arguments, visited);
    E.FailsOrNot(s.lib.format, config.endpoint, arguments, visited);
    match E.Built(s.lib.format, config.endpoint, arguments, visited) {
      case Failed(e) =>
        ToolErrorIsSent(s, call.id, era, InvalidArgument(e));
        assert forall j :: 0 <= j < |visited| ==> visited[j] in visited && visited[j] in keys;
      case Done(d) =>
        ToolErrorIsSent(s, call.id, era, UnserializableBody);
        if E.MarshalRequestBody(s.lib.marshal, config.endpoint, arguments).Some? {
          RerouteCallsUpstream(s, config.endpoint, arguments, headers, walk);
        }
    }
  }

  /** Every call of a known tool is answered like that. */
  lemma CallIsGiven(s: Server, body: Bytes, call: Call, headers: HeaderMap, walk: Walk)
    requires s.lib.decodeMessage(body) == RequestMessage(call) && VerdictOn(s, call, headers).Calls?
    ensures var v := VerdictOn(s, call, headers);
      && v.name in s.catalog.configs
      && GivesCall(s, call, v.era, v.name, v.arguments, headers, walk, McpRequestHandler(s, body, Captured(headers), walk))
  {
    var hdrs, v := Captured(headers), VerdictOn(s, call, headers);
    if !Admitted(call, hdrs) {
      RefusalFollows(s, body, call, headers, walk);
      assert false;
    } else {
      AdmittedVerdictIsThat(s, call, headers);
      MethodsDiffer(call.methodName);
      ToolCallRead(call.params);
      ToolCallFollows(s, call, v.era, v.name, v.arguments, headers, walk);
      assert McpRequestHandler(s, body, hdrs, walk) == HandleToolCall(s, v.era, call, hdrs.paramHeaderNames, walk);
    }
  }

  // ------------------------------------------------------------ the response

  const UNKNOWN_STATUS_HEAD: Bytes := "API returned an unknown status"
  const NO_BODY: Bytes := " with no response body."
  const RETURNED: Bytes := "API returned HTTP "
  const NO_TEXT: Bytes := "Unknown Status"

  /** What stands for the body of an upstream answer without one. */
  ghost predicate Describes(s: Server, status: int, text: Bytes) {
    if status == 0 then text == UNKNOWN_STATUS_HEAD + NO_BODY
    else
      text == RETURNED + (if status < 0 then "-" + Decimal(-status) else Decimal(status))
              + " (" + (if s.lib.statusText(status) == [] then NO_TEXT else s.lib.statusText(status)) + ")" + NO_BODY
  }

  /** The result of a tool call by the upstream's status and body. */
  ghost predicate ResultFor(s: Server, era: ProtocolEra, structured: bool, status: int, body: Bytes, result: Result) {
    var isError := status == 0 || status >= 400;
    result == CallToolResult(EnvelopeIn(s, era), Verbatim(body),
                             if structured && !isError && s.lib.validJson(body) then Some(body) else None, isError)
  }

  function JsonHeaders(buf: Bytes): seq<HeaderSet> {
    [HeaderSet("content-type", "application/json"), HeaderSet("content-length", Decimal(|buf|))]
  }

  lemma ResultIsGiven(s: Server, id: Id, era: ProtocolEra, config: Registry.ToolResponseConfig, status: int, body: Bytes, result: Result)
    requires !id.NoId? && ResultFor(s, era, config.useStructuredOutput, status, body, result)
    ensures ResponseBytes(s, RequestContext(id, Some(config), status, Some(era)), body) == ResultText(s, id, result)
  {
    var plain := UpstreamResult(s.lib, config.useStructuredOutput, status, body);
    ResultIsSent(s, era, id, plain, result);
  }

  /** A translated response is the encoded result, streamed as JSON of its length;
      an upstream answer without a body is replaced as a whole by the result that
      describes it. */
  lemma ResponseIsGiven(s: Server, id: Id, era: ProtocolEra, config: Registry.ToolResponseConfig, status: int, body: Bytes)
    requires !id.NoId?
    ensures var context := RequestContext(id, Some(config), status, Some(era));
      exists result ::
        && ResultFor(s, era, config.useStructuredOutput, status, body, result)
        && var buf := ResultText(s, id, result);
           McpResponseHandler(s, context, body) == StreamedMutation(
             HeadersAnswer(Response, CommonResponse(false, JsonHeaders(buf), ["content-length", "content-type"], None)), buf)
    ensures var context := RequestContext(id, Some(config), status, Some(era));
      exists text, result ::
        && Describes(s, status, text)
        && ResultFor(s, era, config.useStructuredOutput, status, text, result)
        && var buf := ResultText(s, id, result);
           BuildEndOfStreamResponse(s, context) ==
             [HeadersAnswer(Response, CommonResponse(true, JsonHeaders(buf) + [HeaderSet(":status", "200")],
                                                     ["content-length", "content-type"], Some(buf)))]
  {
    var text := DescribeEmptyUpstreamResponse(s.lib, status);
    Described(s, status);
    var isError := status == 0 || status >= 400;
    var result := CallToolResult(EnvelopeIn(s, era), Verbatim(body),
      if config.useStructuredOutput && !isError && s.lib.validJson(body) then Some(body) else None, isError);
    var result' := CallToolResult(EnvelopeIn(s, era), Verbatim(text),
      if config.useStructuredOutput && !isError && s.lib.validJson(text) then Some(text) else None, isError);
    ResultIsGiven(s, id, era, config, status, body, result);
    ResultIsGiven(s, id, era, config, status, text, result');
    assert ResultFor(s, era, config.useStructuredOutput, status, body, result);
    assert Describes(s, status, text) && ResultFor(s, era, config.useStructuredOutput, status, text, result');
  }

  lemma Described(s: Server, status: int)
    ensures Describes(s, status, DescribeEmptyUpstreamResponse(s.lib, status))
  {
    var text := if s.lib.statusText(status) == [] then NO_TEXT else s.lib.statusText(status);
    assert EMPTY_SUFFIX == ")" + NO_BODY && [' ', '('] == " (";
    var number := if status < 0 then "-" + Decimal(-status) else Decimal(status);
    assert EMPTY_PREFIX + number + " (" + text + (")" + NO_BODY) == EMPTY_PREFIX + number + " (" + text + ")" + NO_BODY;
  }

  /** A response without a valid id or without a tool has no result; it would be an
      internal error. */
  lemma NoContextNoResult(s: Server, context: RequestContext, body: Bytes)
    requires context.id == NoId || context.config == None
    ensures ResponseBytes(s, context, body) == ErrorText(s, context.id, -32603, None)
  {
  }
}
