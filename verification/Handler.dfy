/** The MCP request and response handlers: mcp_handler.go, and the result
    envelopes of mcp.go. */
module Handler {
  import opened Common
  import opened Text
  import opened Wire
  import opened Rpc
  import opened Era
  import opened Registry
  import opened HeaderValidation
  import E = EndpointRequests
  import R = Reroute

  datatype ServerInfo = ServerInfo(name: string, version: string, instructions: string)

  datatype Implementation = Implementation(name: string, version: string)

  /** The envelope fields of the 2026-07-28 revision; both absent in legacy results. */
  datatype Envelope = Envelope(serverInfo: Option<Implementation>, resultType: Option<string>)

  const PLAIN := Envelope(None, None)

  datatype CacheHints = CacheHints(ttlMillis: int, scope: string)

  const CACHE_HINTS := CacheHints(300000, "private")
  const RESULT_TYPE_COMPLETE := "complete"

  /** The text of a tool result: an upstream body verbatim, or a report. */
  datatype Content = Verbatim(body: Bytes) | InvalidArgument(error: E.ParamError) | UnserializableBody

  datatype Result =
    | CallToolResult(envelope: Envelope, content: Content, structured: Option<Bytes>, isError: bool)
    | ListToolsResult(envelope: Envelope, cache: Option<CacheHints>, tools: seq<Tool>)
    | DiscoverResult(envelope: Envelope, cache: Option<CacheHints>, versions: seq<string>, instructions: string)
    | InitializeResult(version: string, implementation: Implementation, instructions: string)

  /** A JSON-RPC response. `requested` is the data of an unsupported-version
      error, which also lists the supported versions. */
  datatype Reply =
    | ErrorReply(id: Id, code: int, requested: Option<string>)
    | ResultReply(id: Id, result: Result)

  /** The library functions: decoding, encoding and formatting. An encoder may
      fail; `encodeReply` covers marshalling a result and encoding the message. */
  datatype Library = Library(
    decodeMessage: Bytes -> Message,
    encodeReply: Reply -> Option<Bytes>,
    marshal: Json -> Option<Bytes>,
    validJson: Bytes -> bool,
    encodeQuery: map<string, seq<string>> -> string,
    format: E.Format,
    statusText: int -> Bytes)

  datatype Server = Server(catalog: Catalog, info: ServerInfo, hostAllowed: HeaderMap -> bool, lib: Library)

  /** At most one of `immediate` and `reroute` is set. */
  datatype ProcResponse = ProcResponse(
    id: Id,
    immediate: seq<Answer>,
    reroute: Option<StreamedMutation>,
    config: Option<ToolResponseConfig>,
    era: Option<ProtocolEra>)

  // ------------------------------------------------------------- envelopes

  function Stamped(info: ServerInfo): Envelope {
    Envelope(Some(Implementation(info.name, info.version)), Some(RESULT_TYPE_COMPLETE))
  }

  /** None is a result the modern era cannot encode. */
  function EncodeResult(info: ServerInfo, era: ProtocolEra, result: Result): Option<Result> {
    match era
    case Legacy => Some(result)
    case Modern =>
      match result
      case CallToolResult(_, content, structured, isError) =>
        Some(CallToolResult(Stamped(info), content, structured, isError))
      case ListToolsResult(_, _, tools) => Some(ListToolsResult(Stamped(info), Some(CACHE_HINTS), tools))
      case DiscoverResult(_, _, versions, instructions) =>
        Some(DiscoverResult(Stamped(info), Some(CACHE_HINTS), versions, instructions))
      case InitializeResult(_, _, _) => None
  }

  // ------------------------------------------------------ request handling

  const FALLBACK_HEAD: Bytes := "{\"jsonrpc\":\"2.0\",\"id\":null,"
  const FALLBACK_CODE: Bytes := "\"error\":{\"code\":-32603,"
  const FALLBACK_TAIL: Bytes := "\"message\":\"Internal error\"}}"
  const FALLBACK_ERROR: Bytes := FALLBACK_HEAD + FALLBACK_CODE + FALLBACK_TAIL

  function EncodeError(lib: Library, id: Id, code: int, requested: Option<string>): Bytes {
    match lib.encodeReply(ErrorReply(id, code, requested))
    case Some(bytes) => bytes
    case None => FALLBACK_ERROR
  }

  function Answered(id: Id, answers: seq<Answer>): ProcResponse {
    ProcResponse(id, answers, None, None, None)
  }

  function ErrorResponse(s: Server, era: ProtocolEra, id: Id, code: int, requested: Option<string>): ProcResponse {
    Answered(id, ImmediateBodyResponse(EncodeError(s.lib, id, code, requested), ErrorStatus(era, code)))
  }

  function ResultResponse(s: Server, era: ProtocolEra, id: Id, result: Result): ProcResponse {
    match EncodeResult(s.info, era, result)
    case None => ErrorResponse(s, era, id, INTERNAL_ERROR, None)
    case Some(encodable) =>
      match s.lib.encodeReply(ResultReply(id, encodable))
      case None => ErrorResponse(s, era, id, INTERNAL_ERROR, None)
      case Some(message) => Answered(id, ImmediateBodyResponse(message, 200))
  }

  function ToolExecutionErrorResponse(s: Server, era: ProtocolEra, id: Id, content: Content): ProcResponse {
    ResultResponse(s, era, id, CallToolResult(PLAIN, content, None, true))
  }

  function McpRequestHandler(s: Server, body: Bytes, hdrs: McpRequestHeaders, walk: Walk): ProcResponse {
    match s.lib.decodeMessage(body)
    case Undecodable => ErrorResponse(s, Legacy, NoId, PARSE_ERROR, None)
    case NotARequest => ErrorResponse(s, Legacy, NoId, INVALID_REQUEST, None)
    case RequestMessage(call) =>
      var declared := MetaProtocolVersion(call.params);
      var resolution := ResolveEra(call.Method(), declared, hdrs.protocolVersion);
      var era := resolution.era;
      if !resolution.served then
        ErrorResponse(s, era, call.id, UNSUPPORTED_PROTOCOL_VERSION, Some(resolution.version))
      else if !Serves(era, call.Method()) then
        ErrorResponse(s, era, call.id, METHOD_NOT_FOUND, None)
      else if era == Modern && ValidateModernHeaders(call, declared, hdrs).Some? then
        ErrorResponse(s, era, call.id, HEADER_MISMATCH, None)
      else Dispatched(s, era, call, hdrs, walk)
  }

  function Dispatched(s: Server, era: ProtocolEra, call: Call, hdrs: McpRequestHeaders, walk: Walk): ProcResponse {
    match call.Method()
    case Initialize => HandleInitialize(s, era, call)
    case Initialized => Answered(call.id, HttpStatusResponse(202))
    case Discover =>
      ResultResponse(s, era, call.id, DiscoverResult(PLAIN, None, SUPPORTED_PROTOCOL_VERSIONS, s.info.instructions))
    case ToolsList => ResultResponse(s, era, call.id, ListToolsResult(PLAIN, None, s.catalog.tools))
    case ToolsCall => HandleToolCall(s, era, call, hdrs.paramHeaderNames, walk)
    case Other => ErrorResponse(s, era, call.id, METHOD_NOT_FOUND, None)
  }

  function HandleInitialize(s: Server, era: ProtocolEra, call: Call): ProcResponse {
    if !call.params.decodable || call.params.handshakeVersion.Malformed? then
      ErrorResponse(s, era, call.id, INVALID_PARAMS, None)
    else
      var clientVersion := if call.params.handshakeVersion.Given? then call.params.handshakeVersion.value else "";
      ResultResponse(s, era, call.id, InitializeResult(
        NegotiateLegacyVersion(clientVersion), Implementation(s.info.name, s.info.version), s.info.instructions))
  }

  function HandleToolCall(s: Server, era: ProtocolEra, call: Call, strip: seq<string>, walk: Walk): ProcResponse {
    match DecodeToolCall(call.params)
    case None => ErrorResponse(s, era, call.id, INVALID_PARAMS, None)
    case Some((name, arguments)) =>
      if name !in s.catalog.configs then ErrorResponse(s, era, call.id, INVALID_PARAMS, None)
      else
        var config := s.catalog.configs[name];
        match E.Built(s.lib.format, config.endpoint, arguments, walk.parameters(config.endpoint.parameters.Keys))
        case Failed(e) => ToolExecutionErrorResponse(s, era, call.id, InvalidArgument(e))
        case Done(draft) =>
          match E.MarshalRequestBody(s.lib.marshal, config.endpoint, arguments)
          case None => ToolExecutionErrorResponse(s, era, call.id, UnserializableBody)
          case Some(requestBody) =>
            var mutation := R.Rerouted(config.endpoint.host, ToUpper(config.endpoint.httpMethod),
              E.FullPath(s.lib.encodeQuery, draft), requestBody, draft.headers, strip, walk.extraHeaders);
            ProcResponse(call.id, [], Some(mutation), Some(config.response), Some(era))
  }

  // ----------------------------------------------------- response handling

  /** What the request phase leaves for the response phase. */
  datatype RequestContext = RequestContext(
    id: Id,
    config: Option<ToolResponseConfig>,
    status: int,
    era: Option<ProtocolEra>)
  {
    function ProtocolEra(): ProtocolEra {
      match era
      case None => Legacy
      case Some(e) => e
    }

    predicate IsToolCall() {
      id.IsValid() && config.Some?
    }
  }

  function ParseUpstreamStatusCode(headers: HeaderMap): Option<int> {
    match FindHeader(headers, ":status")
    case None => None
    case Some(value) => Atoi(value)
  }

  predicate IsHTTPErrorStatus(status: int) {
    status == 0 || status >= 400
  }

  /** The tool result made of an upstream response. */
  function UpstreamResult(lib: Library, useStructuredOutput: bool, status: int, body: Bytes): Result {
    var isError := IsHTTPErrorStatus(status);
    var structured := if useStructuredOutput && lib.validJson(body) && !isError then Some(body) else None;
    CallToolResult(PLAIN, Verbatim(body), structured, isError)
  }

  function BuildMCPResponse(s: Server, context: RequestContext, body: Bytes): Option<Bytes> {
    if !context.id.IsValid() then None
    else if context.config.None? then None
    else
      match EncodeResult(s.info, context.ProtocolEra(),
                         UpstreamResult(s.lib, context.config.value.useStructuredOutput, context.status, body))
      case None => None
      case Some(result) => s.lib.encodeReply(ResultReply(context.id, result))
  }

  function ResponseBytes(s: Server, context: RequestContext, body: Bytes): Bytes {
    match BuildMCPResponse(s, context, body)
    case Some(bytes) => bytes
    case None => EncodeError(s.lib, context.id, INTERNAL_ERROR, None)
  }

  function ResponseHeaderSets(buf: Bytes): seq<HeaderSet> {
    [HeaderSet("content-type", "application/json"), HeaderSet("content-length", Decimal(|buf|))]
  }

  function McpResponseHandler(s: Server, context: RequestContext, body: Bytes): StreamedMutation {
    var buf := ResponseBytes(s, context, body);
    StreamedMutation(HeaderMutation(Response, ResponseHeaderSets(buf), CONTENT_HEADERS), buf)
  }

  const UNKNOWN_HEAD: Bytes := "API returned an unknown status"
  const UNKNOWN_TAIL: Bytes := " with no response body."
  const UNKNOWN_STATUS_TEXT: Bytes := UNKNOWN_HEAD + UNKNOWN_TAIL
  const EMPTY_PREFIX: Bytes := "API returned HTTP "
  const EMPTY_SUFFIX: Bytes := ") with no response body."

  function DescribeEmptyUpstreamResponse(lib: Library, status: int): Bytes {
    if status == 0 then UNKNOWN_STATUS_TEXT
    else
      var text := lib.statusText(status);
      EMPTY_PREFIX + Itoa(status) + [' ', '('] + (if text == [] then UNKNOWN_STATUS else text) + EMPTY_SUFFIX
  }

  const UNKNOWN_STATUS: Bytes := "Unknown Status"

  function BuildEndOfStreamResponse(s: Server, context: RequestContext): seq<Answer> {
    var buf := ResponseBytes(s, context, DescribeEmptyUpstreamResponse(s.lib, context.status));
    ReplacedResponse(ResponseHeaderSets(buf), buf)
  }

  // --------------------------------------------- classifying every request

  /** The call this body is, if it is one. */
  function CallOf(s: Server, body: Bytes): Option<Call> {
    match s.lib.decodeMessage(body)
    case RequestMessage(call) => Some(call)
    case _ => None
  }

  function Selected(call: Call, hdrs: McpRequestHeaders): Resolution {
    ResolveEra(call.Method(), MetaProtocolVersion(call.params), hdrs.protocolVersion)
  }

  /** The request names a version and method its era serves, and, in the modern
      era, mirrors them correctly in its headers. */
  predicate Admitted(call: Call, hdrs: McpRequestHeaders) {
    var r := Selected(call, hdrs);
    && r.served && Serves(r.era, call.Method())
    && (r.era == Modern ==> ValidateModernHeaders(call, MetaProtocolVersion(call.params), hdrs).None?)
  }

  /** The call's arguments fit the named tool. */
  ghost predicate Translatable(s: Server, name: string, arguments: map<string, Json>) {
    && name in s.catalog.configs
    && var endpoint := s.catalog.configs[name].endpoint;
       && (forall p :: p in endpoint.parameters ==> E.Fault(s.lib.format, endpoint, arguments, p).None?)
       && E.MarshalRequestBody(s.lib.marshal, endpoint, arguments).Some?
  }

  /** An immediate answer with this status, and nothing else. */
  predicate AnswersWith(r: ProcResponse, id: Id, status: int) {
    && r.id == id && r.reroute.None? && r.config.None? && r.era.None?
    && |r.immediate| == 2
    && r.immediate[0] == HeadersAnswer(Request, NO_MUTATION)
    && r.immediate[1].ImmediateAnswer? && r.immediate[1].immediate.status == status
  }

  lemma ErrorAnswers(s: Server, era: ProtocolEra, id: Id, code: int, requested: Option<string>)
    ensures AnswersWith(ErrorResponse(s, era, id, code, requested), id, ErrorStatus(era, code))
  {
  }

  lemma ResultAnswers(s: Server, era: ProtocolEra, id: Id, result: Result)
    ensures AnswersWith(ResultResponse(s, era, id, result), id, 200)
  {
    ErrorAnswers(s, era, id, INTERNAL_ERROR, None);
  }

  /** A tool call is rerouted exactly if its arguments fit a known tool. Otherwise
      it is a protocol error if no known tool is named, and a tool result if the
      tool's request could not be built. */
  lemma ToolCallOutcome(s: Server, era: ProtocolEra, call: Call, strip: seq<string>, walk: Walk)
    ensures var r := HandleToolCall(s, era, call, strip, walk);
      if DecodeToolCall(call.params).Some?
         && Translatable(s, DecodeToolCall(call.params).value.0, DecodeToolCall(call.params).value.1) then
        && r.id == call.id && r.immediate == []
        && r.reroute.Some? && r.reroute.value.headers.HeadersAnswer? && r.reroute.value.headers.direction == Request
        && r.config == Some(s.catalog.configs[DecodeToolCall(call.params).value.0].response)
        && r.era == Some(era)
      else AnswersWith(r, call.id, if CallsKnownTool(s, call) then 200 else ErrorStatus(era, INVALID_PARAMS))
  {
    match DecodeToolCall(call.params) {
      case None => ErrorAnswers(s, era, call.id, INVALID_PARAMS, None);
      case Some((name, arguments)) =>
        if name !in s.catalog.configs {
          ErrorAnswers(s, era, call.id, INVALID_PARAMS, None);
        } else {
          var endpoint := s.catalog.configs[name].endpoint;
          var visited := walk.parameters(endpoint.parameters.Keys);
          E.FailsOrNot(s.lib.format, endpoint, arguments, visited);
          match E.Built(s.lib.format, endpoint, arguments, visited) {
            case Failed(e) => ResultAnswers(s, era, call.id, CallToolResult(PLAIN, InvalidArgument(e), None, true));
            case Done(_) => ResultAnswers(s, era, call.id, CallToolResult(PLAIN, UnserializableBody, None, true));
          }
        }
    }
  }

  /** Every request gets exactly one of an immediate answer and a reroute. The
      tool config and the era go with a reroute and only with it. */
  lemma ExactlyOneOutcome(s: Server, body: Bytes, hdrs: McpRequestHeaders, walk: Walk)
    ensures var r := McpRequestHandler(s, body, hdrs, walk);
            var id := match CallOf(s, body) case Some(call) => call.id case None => NoId;
      if r.reroute.Some? then
        && r.id == id && r.immediate == [] && r.config.Some? && r.era.Some?
        && r.reroute.value.headers.HeadersAnswer? && r.reroute.value.headers.direction == Request
      else AnswersWith(r, id, StatusOf(r))
  {
    match CallOf(s, body) {
      case None =>
        ErrorAnswers(s, Legacy, NoId, PARSE_ERROR, None);
        ErrorAnswers(s, Legacy, NoId, INVALID_REQUEST, None);
      case Some(call) =>
        if Admitted(call, hdrs) {
          DispatchOutcome(s, Selected(call, hdrs).era, call, hdrs, walk);
        }
    }
  }

  lemma DispatchOutcome(s: Server, era: ProtocolEra, call: Call, hdrs: McpRequestHeaders, walk: Walk)
    requires Serves(era, call.Method())
    ensures var r := Dispatched(s, era, call, hdrs, walk);
      if r.reroute.Some? then
        && call.Method().ToolsCall?
        && DecodeToolCall(call.params).Some?
        && Translatable(s, DecodeToolCall(call.params).value.0, DecodeToolCall(call.params).value.1)
        && r.id == call.id && r.immediate == [] && r.era == Some(era)
        && r.reroute.value.headers.HeadersAnswer? && r.reroute.value.headers.direction == Request
        && r.config == Some(s.catalog.configs[DecodeToolCall(call.params).value.0].response)
      else
        && !(call.Method().ToolsCall? && DecodeToolCall(call.params).Some?
             && Translatable(s, DecodeToolCall(call.params).value.0, DecodeToolCall(call.params).value.1))
        && AnswersWith(r, call.id,
             if call.Method().Initialized? then 202
             else if era == Modern && call.Method().ToolsCall? && !CallsKnownTool(s, call) then 400
             else 200)
  {
    match call.Method() {
      case Initialize =>
        ErrorAnswers(s, era, call.id, INVALID_PARAMS, None);
        var clientVersion := if call.params.handshakeVersion.Given? then call.params.handshakeVersion.value else "";
        ResultAnswers(s, era, call.id, InitializeResult(
          NegotiateLegacyVersion(clientVersion), Implementation(s.info.name, s.info.version), s.info.instructions));
      case Initialized =>
      case Discover =>
        ResultAnswers(s, era, call.id, DiscoverResult(PLAIN, None, SUPPORTED_PROTOCOL_VERSIONS, s.info.instructions));
      case ToolsList => ResultAnswers(s, era, call.id, ListToolsResult(PLAIN, None, s.catalog.tools));
      case ToolsCall => ToolCallOutcome(s, era, call, hdrs.paramHeaderNames, walk);
      case Other =>
    }
  }

  /** A request is rerouted exactly if it is an admitted tools/call whose tool
      exists and whose arguments fit it. */
  lemma ReroutedExactlyIf(s: Server, body: Bytes, hdrs: McpRequestHeaders, walk: Walk)
    ensures McpRequestHandler(s, body, hdrs, walk).reroute.Some? <==>
      match CallOf(s, body)
      case None => false
      case Some(call) =>
        && call.Method().ToolsCall?
        && Admitted(call, hdrs)
        && DecodeToolCall(call.params).Some?
        && Translatable(s, DecodeToolCall(call.params).value.0, DecodeToolCall(call.params).value.1)
  {
    match CallOf(s, body) {
      case None =>
      case Some(call) =>
        if Admitted(call, hdrs) {
          DispatchOutcome(s, Selected(call, hdrs).era, call, hdrs, walk);
        }
    }
  }

  /** What a reroute must have passed. In the modern era the version in _meta, the
      mirrored header and the resolved version are all 2026-07-28, and the name
      in the header, decoded, is that of the tool called. */
  lemma GateOnReroute(s: Server, body: Bytes, hdrs: McpRequestHeaders, walk: Walk)
    requires McpRequestHandler(s, body, hdrs, walk).reroute.Some?
    ensures CallOf(s, body).Some?
    ensures var call := CallOf(s, body).value;
            var r := McpRequestHandler(s, body, hdrs, walk);
      && call.Method().ToolsCall?
      && DecodeToolCall(call.params).Some?
      && DecodeToolCall(call.params).value.0 in s.catalog.configs
      && r.config == Some(s.catalog.configs[DecodeToolCall(call.params).value.0].response)
      && r.era == Some(Selected(call, hdrs).era)
      && (r.era == Some(Modern) ==>
            && MetaProtocolVersion(call.params) == hdrs.protocolVersion == Selected(call, hdrs).version == V20260728
            && hdrs.methodName == METHOD_TOOLS_CALL
            && DecodeHeaderValue(hdrs.name) == Some(DecodeToolCall(call.params).value.0))
      && (r.era == Some(Legacy) ==>
            !IsModernVersion(MetaProtocolVersion(call.params)) && !IsModernVersion(hdrs.protocolVersion))
  {
    RerouteCarries(s, body, hdrs, walk);
    AdmittedGate(CallOf(s, body).value, hdrs);
  }

  /** What a reroute carries to the response phase. */
  lemma RerouteCarries(s: Server, body: Bytes, hdrs: McpRequestHeaders, walk: Walk)
    requires McpRequestHandler(s, body, hdrs, walk).reroute.Some?
    ensures CallOf(s, body).Some?
    ensures var call, r := CallOf(s, body).value, McpRequestHandler(s, body, hdrs, walk);
      && call.Method().ToolsCall? && Admitted(call, hdrs)
      && DecodeToolCall(call.params).Some?
      && DecodeToolCall(call.params).value.0 in s.catalog.configs
      && r.config == Some(s.catalog.configs[DecodeToolCall(call.params).value.0].response)
      && r.era == Some(Selected(call, hdrs).era)
  {
    ReroutedExactlyIf(s, body, hdrs, walk);
    var call := CallOf(s, body).value;
    DispatchOutcome(s, Selected(call, hdrs).era, call, hdrs, walk);
  }

  /** What admission means for a tool call, in either era. */
  lemma AdmittedGate(call: Call, hdrs: McpRequestHeaders)
    requires Admitted(call, hdrs) && call.Method().ToolsCall? && DecodeToolCall(call.params).Some?
    ensures Selected(call, hdrs).era == Modern ==>
            && MetaProtocolVersion(call.params) == hdrs.protocolVersion == Selected(call, hdrs).version == V20260728
            && hdrs.methodName == METHOD_TOOLS_CALL
            && DecodeHeaderValue(hdrs.name) == Some(DecodeToolCall(call.params).value.0)
    ensures Selected(call, hdrs).era == Legacy ==>
            !IsModernVersion(MetaProtocolVersion(call.params)) && !IsModernVersion(hdrs.protocolVersion)
  {
    EraSelection(call.Method(), MetaProtocolVersion(call.params), hdrs.protocolVersion);
    MethodsDiffer(call.methodName);
    ModernHeadersAccepted(call, MetaProtocolVersion(call.params), hdrs);
  }

  /** The upstream request a reroute asks for: the tool's own host, method, path
      and body. */
  lemma RerouteTarget(s: Server, body: Bytes, hdrs: McpRequestHeaders, walk: Walk)
    requires McpRequestHandler(s, body, hdrs, walk).reroute.Some?
    ensures CallOf(s, body).Some? && DecodeToolCall(CallOf(s, body).value.params).Some?
    ensures var (name, arguments) := DecodeToolCall(CallOf(s, body).value.params).value;
      && name in s.catalog.configs
      && var endpoint := s.catalog.configs[name].endpoint;
         var keys := endpoint.parameters.Keys;
         var built := E.Built(s.lib.format, endpoint, arguments, walk.parameters(keys));
         && built.Done?
         && E.MarshalRequestBody(s.lib.marshal, endpoint, arguments).Some?
         && McpRequestHandler(s, body, hdrs, walk).reroute.value ==
              R.Rerouted(endpoint.host, ToUpper(endpoint.httpMethod), E.FullPath(s.lib.encodeQuery, built.value),
                         E.MarshalRequestBody(s.lib.marshal, endpoint, arguments).value, built.value.headers,
                         hdrs.paramHeaderNames, walk.extraHeaders)
  {
    ReroutedExactlyIf(s, body, hdrs, walk);
  }

  /** The status of an immediate answer, for every request: 404 exactly for a
      supported modern version with a method it does not serve, 400 for the other
      protocol errors of the modern era, 202 for the handshake's notification,
      and 200 for everything else. A legacy request is answered 200 or 202. */
  lemma StatusClassification(s: Server, body: Bytes, hdrs: McpRequestHeaders, walk: Walk)
    requires McpRequestHandler(s, body, hdrs, walk).reroute.None?
    ensures var status := StatusOf(McpRequestHandler(s, body, hdrs, walk));
      match CallOf(s, body)
      case None => status == 200
      case Some(call) =>
        var r := Selected(call, hdrs);
        && (status == 404 <==> r.era == Modern && r.version == V20260728 && !Serves(Modern, call.Method()))
        && (status == 400 <==> r.era == Modern && RefusedAsMalformed(s, call, hdrs))
        && (status == 202 <==> call.Method().Initialized?)
        && (r.era == Legacy ==> status == 200 || status == 202)
        && status in {200, 202, 400, 404}
  {
    match CallOf(s, body) {
      case None =>
        ErrorAnswers(s, Legacy, NoId, PARSE_ERROR, None);
        ErrorAnswers(s, Legacy, NoId, INVALID_REQUEST, None);
      case Some(call) =>
        EraSelection(call.Method(), MetaProtocolVersion(call.params), hdrs.protocolVersion);
        if Admitted(call, hdrs) {
          DispatchOutcome(s, Selected(call, hdrs).era, call, hdrs, walk);
        } else {
          RefusalOutcome(s, body, call, hdrs, walk);
        }
    }
  }

  lemma RefusalOutcome(s: Server, body: Bytes, call: Call, hdrs: McpRequestHeaders, walk: Walk)
    requires CallOf(s, body) == Some(call) && !Admitted(call, hdrs)
    ensures var r := Selected(call, hdrs);
      AnswersWith(McpRequestHandler(s, body, hdrs, walk), call.id,
        if r.era == Legacy then 200
        else if r.served && !Serves(Modern, call.Method()) then 404
        else 400)
  {
    var r := Selected(call, hdrs);
    EraSelection(call.Method(), MetaProtocolVersion(call.params), hdrs.protocolVersion);
    ErrorAnswers(s, r.era, call.id, UNSUPPORTED_PROTOCOL_VERSION, Some(r.version));
    ErrorAnswers(s, r.era, call.id, METHOD_NOT_FOUND, None);
    ErrorAnswers(s, r.era, call.id, HEADER_MISMATCH, None);
  }

  /** An unsupported version, mirrored headers that do not match, or a tool call
      that names no known tool. */
  predicate RefusedAsMalformed(s: Server, call: Call, hdrs: McpRequestHeaders) {
    var r := Selected(call, hdrs);
    || r.version != V20260728
    || (Serves(r.era, call.Method()) && ValidateModernHeaders(call, MetaProtocolVersion(call.params), hdrs).Some?)
    || (Admitted(call, hdrs) && call.Method().ToolsCall? && !CallsKnownTool(s, call))
  }

  function StatusOf(r: ProcResponse): int {
    if |r.immediate| == 2 && r.immediate[1].ImmediateAnswer? then r.immediate[1].immediate.status else 0
  }

  predicate CallsKnownTool(s: Server, call: Call) {
    DecodeToolCall(call.params).Some? && DecodeToolCall(call.params).value.0 in s.catalog.configs
  }
}
