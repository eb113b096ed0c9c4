/** What the JSON-RPC messages the handlers send say: error codes, envelopes and
    structured content. */
module Replies {
  import opened Common
  import opened Text
  import opened Wire
  import opened Rpc
  import opened Era
  import opened Registry
  import opened HeaderValidation
  import opened Handler
  import Framing

  /** Encoding a reply never fails. */
  ghost predicate CanEncode(lib: Library) {
    forall reply :: lib.encodeReply(reply).Some?
  }

  /** An immediate answer whose body is the encoding of `reply`. */
  ghost predicate Sends(s: Server, r: ProcResponse, reply: Reply) {
    && |r.immediate| == 2 && r.immediate[1].ImmediateAnswer?
    && s.lib.encodeReply(reply) == Some(r.immediate[1].immediate.body)
  }

  function EnvelopeOf(result: Result): Envelope {
    match result
    case CallToolResult(envelope, _, _, _) => envelope
    case ListToolsResult(envelope, _, _) => envelope
    case DiscoverResult(envelope, _, _, _) => envelope
    case InitializeResult(_, _, _) => PLAIN
  }

  /** Modern results carry the server's name and version and are complete, and
      the cacheable ones carry the cache hints; legacy results carry none of it. */
  predicate StampedFor(info: ServerInfo, era: ProtocolEra, result: Result) {
    && EnvelopeOf(result) == (if era == Modern then Stamped(info) else PLAIN)
    && (result.ListToolsResult? || result.DiscoverResult? ==>
          result.cache == if era == Modern then Some(CACHE_HINTS) else None)
    && (result.InitializeResult? ==> era == Legacy)
  }

  /** The result each method answers with when it is not rerouted. */
  ghost predicate ResultOf(s: Server, call: Call, result: Result) {
    match call.Method()
    case Initialize =>
      && result.InitializeResult? && result.implementation == Implementation(s.info.name, s.info.version)
      && result.instructions == s.info.instructions
      && result.version in [V20250618, V20251125]
      && (forall v :: call.params.handshakeVersion == Given(v) && v in [V20250618, V20251125] ==> result.version == v)
    case Discover =>
      result.DiscoverResult? && result.versions == SUPPORTED_PROTOCOL_VERSIONS && result.instructions == s.info.instructions
    case ToolsList => result.ListToolsResult? && result.tools == s.catalog.tools
    case ToolsCall => result.CallToolResult? && result.isError && result.structured == None && !result.content.Verbatim?
    case _ => false
  }

  lemma SendsError(s: Server, era: ProtocolEra, id: Id, code: int, requested: Option<string>)
    requires CanEncode(s.lib)
    ensures Sends(s, ErrorResponse(s, era, id, code, requested), ErrorReply(id, code, requested))
  {
  }

  lemma SendsResult(s: Server, era: ProtocolEra, id: Id, result: Result)
    requires CanEncode(s.lib) && EncodeResult(s.info, era, result).Some?
    ensures Sends(s, ResultResponse(s, era, id, result), ResultReply(id, EncodeResult(s.info, era, result).value))
  {
    assert s.lib.encodeReply(ResultReply(id, EncodeResult(s.info, era, result).value)).Some?;
  }

  /** The error code of every request that is answered with an error: -32700 and
      -32600 for what is not a request, then, in this order, an unsupported
      version, an unserved method, mismatched headers and bad params. */
  ghost predicate ErrorFor(s: Server, body: Bytes, hdrs: McpRequestHeaders, code: int, requested: Option<string>) {
    match s.lib.decodeMessage(body)
    case Undecodable => code == -32700 && requested == None
    case NotARequest => code == -32600 && requested == None
    case RequestMessage(call) =>
      var r := Selected(call, hdrs);
      && (requested == if r.served then None else Some(r.version))
      && (!r.served ==> code == -32022)
      && (r.served && !Serves(r.era, call.Method()) ==> code == -32601)
      && (r.served && Serves(r.era, call.Method()) && !Admitted(call, hdrs) ==> code == -32020)
      && (Admitted(call, hdrs) ==> code == -32602 && HasBadParams(s, call))
  }

  predicate HasBadParams(s: Server, call: Call) {
    || (call.Method().ToolsCall? && !CallsKnownTool(s, call))
    || (call.Method().Initialize? && (!call.params.decodable || call.params.handshakeVersion.Malformed?))
  }

  /** The reply to a request that is answered immediately with a body. No reply
      is an internal error: no result reaches an era that cannot encode it, and
      the dispatch never falls through. */
  ghost predicate ReplyFor(s: Server, body: Bytes, hdrs: McpRequestHeaders, reply: Reply) {
    match reply
    case ErrorReply(id, code, requested) =>
      && ErrorFor(s, body, hdrs, code, requested)
      && id == (match CallOf(s, body) case Some(call) => call.id case None => NoId)
    case ResultReply(id, result) =>
      CallOf(s, body).Some? &&
        var call := CallOf(s, body).value;
        && id == call.id
        && Admitted(call, hdrs)
        && ResultOf(s, call, result)
        && StampedFor(s.info, Selected(call, hdrs).era, result)
  }

  lemma RepliesProperly(s: Server, body: Bytes, hdrs: McpRequestHeaders, walk: Walk)
    requires CanEncode(s.lib)
    requires var r := McpRequestHandler(s, body, hdrs, walk); r.reroute.None? && StatusOf(r) != 202
    ensures exists reply :: Sends(s, McpRequestHandler(s, body, hdrs, walk), reply) && ReplyFor(s, body, hdrs, reply)
  {
    match s.lib.decodeMessage(body) {
      case Undecodable =>
        SendsError(s, Legacy, NoId, PARSE_ERROR, None);
        assert ReplyFor(s, body, hdrs, ErrorReply(NoId, PARSE_ERROR, None));
      case NotARequest =>
        SendsError(s, Legacy, NoId, INVALID_REQUEST, None);
        assert ReplyFor(s, body, hdrs, ErrorReply(NoId, INVALID_REQUEST, None));
      case RequestMessage(call) =>
        if Admitted(call, hdrs) {
          DispatchReplies(s, body, call, hdrs, walk);
        } else {
          RefusalReplies(s, body, call, hdrs, walk);
        }
    }
  }

  lemma RefusalReplies(s: Server, body: Bytes, call: Call, hdrs: McpRequestHeaders, walk: Walk)
    requires CanEncode(s.lib) && CallOf(s, body) == Some(call) && !Admitted(call, hdrs)
    ensures exists reply :: Sends(s, McpRequestHandler(s, body, hdrs, walk), reply) && ReplyFor(s, body, hdrs, reply)
  {
    var r := Selected(call, hdrs);
    var code := if !r.served then UNSUPPORTED_PROTOCOL_VERSION
      else if !Serves(r.era, call.Method()) then METHOD_NOT_FOUND else HEADER_MISMATCH;
    var requested := if !r.served then Some(r.version) else None;
    SendsError(s, r.era, call.id, code, requested);
    assert McpRequestHandler(s, body, hdrs, walk) == ErrorResponse(s, r.era, call.id, code, requested);
    assert ReplyFor(s, body, hdrs, ErrorReply(call.id, code, requested));
  }

  lemma DispatchReplies(s: Server, body: Bytes, call: Call, hdrs: McpRequestHeaders, walk: Walk)
    requires CanEncode(s.lib) && CallOf(s, body) == Some(call) && Admitted(call, hdrs)
    requires var r := Dispatched(s, Selected(call, hdrs).era, call, hdrs, walk); r.reroute.None? && StatusOf(r) != 202
    ensures exists reply :: Sends(s, Dispatched(s, Selected(call, hdrs).era, call, hdrs, walk), reply) && ReplyFor(s, body, hdrs, reply)
  {
    var era := Selected(call, hdrs).era;
    match call.Method() {
      case Initialize => InitializeReplies(s, body, call, hdrs, walk);
      case Initialized =>
      case Discover =>
        ListingReplies(s, body, call, hdrs, DiscoverResult(PLAIN, None, SUPPORTED_PROTOCOL_VERSIONS, s.info.instructions));
      case ToolsList =>
        ListingReplies(s, body, call, hdrs, ListToolsResult(PLAIN, None, s.catalog.tools));
      case ToolsCall => ToolCallReplies(s, body, call, hdrs, walk);
      case Other =>
    }
  }

  lemma ListingReplies(s: Server, body: Bytes, call: Call, hdrs: McpRequestHeaders, result: Result)
    requires CanEncode(s.lib) && CallOf(s, body) == Some(call) && Admitted(call, hdrs)
    requires (call.Method().Discover? && result == DiscoverResult(PLAIN, None, SUPPORTED_PROTOCOL_VERSIONS, s.info.instructions))
      || (call.Method().ToolsList? && result == ListToolsResult(PLAIN, None, s.catalog.tools))
    ensures exists reply :: Sends(s, ResultResponse(s, Selected(call, hdrs).era, call.id, result), reply) && ReplyFor(s, body, hdrs, reply)
  {
    var era := Selected(call, hdrs).era;
    SendsResult(s, era, call.id, result);
    assert ReplyFor(s, body, hdrs, ResultReply(call.id, EncodeResult(s.info, era, result).value));
  }

  lemma InitializeReplies(s: Server, body: Bytes, call: Call, hdrs: McpRequestHeaders, walk: Walk)
    requires CanEncode(s.lib) && CallOf(s, body) == Some(call) && Admitted(call, hdrs) && call.Method().Initialize?
    ensures exists reply :: Sends(s, HandleInitialize(s, Selected(call, hdrs).era, call), reply) && ReplyFor(s, body, hdrs, reply)
  {
    var era := Selected(call, hdrs).era;
    SendsError(s, era, call.id, INVALID_PARAMS, None);
    var clientVersion := if call.params.handshakeVersion.Given? then call.params.handshakeVersion.value else "";
    HandshakeStaysLegacy(clientVersion);
    var result := InitializeResult(
      NegotiateLegacyVersion(clientVersion), Implementation(s.info.name, s.info.version), s.info.instructions);
    SendsResult(s, era, call.id, result);
    if !call.params.decodable || call.params.handshakeVersion.Malformed? {
      assert ReplyFor(s, body, hdrs, ErrorReply(call.id, INVALID_PARAMS, None));
    } else {
      assert ReplyFor(s, body, hdrs, ResultReply(call.id, result));
    }
  }

  lemma ToolCallReplies(s: Server, body: Bytes, call: Call, hdrs: McpRequestHeaders, walk: Walk)
    requires CanEncode(s.lib) && CallOf(s, body) == Some(call) && Admitted(call, hdrs) && call.Method().ToolsCall?
    requires HandleToolCall(s, Selected(call, hdrs).era, call, hdrs.paramHeaderNames, walk).reroute.None?
    ensures exists reply :: Sends(s, HandleToolCall(s, Selected(call, hdrs).era, call, hdrs.paramHeaderNames, walk), reply)
              && ReplyFor(s, body, hdrs, reply)
  {
    var era := Selected(call, hdrs).era;
    var r := HandleToolCall(s, era, call, hdrs.paramHeaderNames, walk);
    if !CallsKnownTool(s, call) {
      SendsError(s, era, call.id, INVALID_PARAMS, None);
      assert ReplyFor(s, body, hdrs, ErrorReply(call.id, INVALID_PARAMS, None));
    } else {
      var (name, arguments) := DecodeToolCall(call.params).value;
      var endpoint := s.catalog.configs[name].endpoint;
      var built := E.Built(s.lib.format, endpoint, arguments, walk.parameters(endpoint.parameters.Keys));
      var content := if built.Failed? then InvalidArgument(built.error) else UnserializableBody;
      var result := CallToolResult(PLAIN, content, None, true);
      assert r == ResultResponse(s, era, call.id, result);
      SendsResult(s, era, call.id, result);
      assert ReplyFor(s, body, hdrs, ResultReply(call.id, EncodeResult(s.info, era, result).value));
    }
  }

  // ------------------------------------------------------- response phase

  /** A JSON text starts with white space, a bracket, a quote, a sign, a digit or
      the first letter of a literal (section 2 of RFC 8259). */
  ghost predicate ReadsJson(lib: Library) {
    forall body :: lib.validJson(body) ==> body != [] && body[0] in " \t\n\r{[\"-0123456789tfn"
  }

  /** The tool result sent for an upstream response: an error exactly if the
      status is missing or at least 400, with structured content exactly if the
      tool declares it, the call succeeded and the body is JSON, in the envelope
      of the era the request selected. */
  lemma UpstreamAnswer(s: Server, context: RequestContext, body: Bytes)
    requires CanEncode(s.lib) && context.IsToolCall()
    ensures exists result: Result ::
      && s.lib.encodeReply(ResultReply(context.id, result)) == Some(ResponseBytes(s, context, body))
      && result.CallToolResult? && result.content == Verbatim(body)
      && (result.isError <==> context.status == 0 || context.status >= 400)
      && (result.structured.Some? <==> context.config.value.useStructuredOutput && !result.isError && s.lib.validJson(body))
      && (result.structured.Some? ==> result.structured.value == body)
      && StampedFor(s.info, context.ProtocolEra(), result)
  {
    var plain := UpstreamResult(s.lib, context.config.value.useStructuredOutput, context.status, body);
    var result := EncodeResult(s.info, context.ProtocolEra(), plain).value;
    assert s.lib.encodeReply(ResultReply(context.id, result)).Some?;
    assert s.lib.encodeReply(ResultReply(context.id, result)) == Some(ResponseBytes(s, context, body));
  }

  lemma EmptyResponseIsNotJson(s: Server, status: int)
    requires ReadsJson(s.lib)
    ensures !s.lib.validJson(DescribeEmptyUpstreamResponse(s.lib, status))
  {
    assert DescribeEmptyUpstreamResponse(s.lib, status)[0] == 'A' by {
      assert UNKNOWN_HEAD[0] == 'A' && EMPTY_PREFIX[0] == 'A';
    }
  }

  /** A bodyless upstream answer never yields structured content. */
  lemma EmptyUpstreamAnswer(s: Server, context: RequestContext)
    requires CanEncode(s.lib) && ReadsJson(s.lib) && context.IsToolCall()
    ensures exists result: Result, buf: Bytes ::
      && s.lib.encodeReply(ResultReply(context.id, result)) == Some(buf)
      && result.CallToolResult? && result.structured == None
      && (result.isError <==> context.status == 0 || context.status >= 400)
      && BuildEndOfStreamResponse(s, context) == ReplacedResponse(ResponseHeaderSets(buf), buf)
  {
    var body := DescribeEmptyUpstreamResponse(s.lib, context.status);
    EmptyResponseIsNotJson(s, context.status);
    UpstreamAnswer(s, context, body);
    var result: Result :| s.lib.encodeReply(ResultReply(context.id, result)) == Some(ResponseBytes(s, context, body))
      && result.CallToolResult? && (result.isError <==> context.status == 0 || context.status >= 400)
      && (result.structured.Some? <==> context.config.value.useStructuredOutput && !result.isError && s.lib.validJson(body));
  }

  /** The declared content length is the length of the body that is streamed, that
      is, of its chunks together. */
  lemma DeclaredLength(s: Server, context: RequestContext, body: Bytes)
    requires |ResponseBytes(s, context, body)| <= MAX_INT
    ensures var m := McpResponseHandler(s, context, body);
      exists h :: h in m.headers.common.setHeaders && h.key == "content-length"
        && Atoi(h.value) == Some(|m.body|) && |m.body| == |Concat(Framing.Chunks(m.body))|
  {
    var buf := ResponseBytes(s, context, body);
    AtoiReadsDecimal(|buf|);
    Framing.ChunksConcat(buf);
    assert ResponseHeaderSets(buf)[1] in ResponseHeaderSets(buf);
  }
}
