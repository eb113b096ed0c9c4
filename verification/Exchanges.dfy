/** Whole exchanges on a stream, from the messages Envoy sends to the messages it
    gets back, told in the protocol's own names and numbers. */
module Exchanges {
  import opened Common
  import opened Text
  import opened Wire
  import opened Rpc
  import opened Era
  import opened Framing
  import opened HeaderValidation
  import opened Handler
  import opened StreamState
  import opened History
  import opened Verdicts
  import E = EndpointRequests

  /** The first :method header is POST, or there is none. */
  predicate IsPost(headers: HeaderMap) {
    var i := FirstIndex(headers, ":method");
    i == |headers| || headers[i].raw == "POST"
  }

  /** The number in the first :status header; 0 if there is none or it is no
      number. */
  function UpstreamStatus(headers: HeaderMap): int {
    var i := FirstIndex(headers, ":status");
    if i < |headers| && Atoi(headers[i].raw).Some? then Atoi(headers[i].raw).value else 0
  }

  lemma PostIsRead(headers: HeaderMap)
    ensures NotPost(headers) <==> !IsPost(headers)
  {
    FindHeaderIsFirst(headers, ":method", FirstIndex(headers, ":method"));
  }

  /** The status a response is translated with is that of its first :status. */
  lemma StatusIsRead(request: RequestContext, headers: HeaderMap)
    requires request.status == 0
    ensures WithStatus(request, headers) == request.(status := UpstreamStatus(headers))
  {
    FindHeaderIsFirst(headers, ":status", FirstIndex(headers, ":status"));
  }

  lemma StatusIsDecimal(headers: HeaderMap, n: nat)
    requires n <= MAX_INT
    requires var i := FirstIndex(headers, ":status"); i < |headers| && headers[i].raw == Decimal(n)
    ensures UpstreamStatus(headers) == n
  {
    AtoiReadsDecimal(n);
  }

  // --------------------------------------------------------------- openings

  /** Where a stream is after the headers of a request, with what has been sent. */
  ghost predicate Opens(s: Server, o: Opening, p: Progress, sent: seq<Answer>) {
    p.Running? &&
      if !IsPost(o.headers) then
        && p.state == AwaitingRequestHeaders
        && p.sent == sent + [ACKNOWLEDGED, ImmediateAnswer(Immediate(405, [HeaderSet("allow", "POST")], []))]
      else if !s.hostAllowed(o.headers) then
        if o.endOfStream then
          && p.state == AwaitingRequestHeaders
          && p.sent == sent + [ACKNOWLEDGED, ImmediateAnswer(Immediate(403, [], []))]
        else p.state.DrainingRequest? && p.sent == sent
      else if o.endOfStream then
        && p.state == AwaitingRequestHeaders
        && p.sent == sent + JsonAnswer(200, ErrorText(s, NoId, -32600, None))
      else
        && p.state.BufferingRequest? && p.state.walk == o.walk && p.buf == [] && p.sent == sent
        && p.state.mcpHeaders.protocolVersion == ValueOf(o.headers, "mcp-protocol-version")
        && p.state.mcpHeaders.methodName == ValueOf(o.headers, "mcp-method")
        && p.state.mcpHeaders.name == ValueOf(o.headers, "mcp-name")
  }

  /** How a request opens, whatever was received and buffered before. */
  lemma OpeningIsAnswered(s: Server, o: Opening, buf: Bytes, sent: seq<Answer>)
    ensures Opens(s, o, After(ServiceOf(s), Running(AwaitingRequestHeaders, buf, sent), OpeningMessage(o)), sent)
  {
    PostIsRead(o.headers);
    CapturedFrom(o.headers);
  }

  /** The first message of a stream is not special. */
  lemma FirstOpeningIsAnswered(s: Server, o: Opening)
    ensures Opens(s, o, Run(ServiceOf(s), [OpeningMessage(o)]), [])
  {
    assert [OpeningMessage(o)][..0] == [];
    assert RunFrom(ServiceOf(s), START, []) == START;
    OpeningIsAnswered(s, o, [], []);
  }

  // ------------------------------------------------------ requests with a body

  /** A request that is let in: a POST from an allowed host, with a body. */
  ghost predicate LetIn(s: Server, o: Opening) {
    IsPost(o.headers) && s.hostAllowed(o.headers) && !o.endOfStream
  }

  lemma LetInIsAdmitted(s: Server, o: Opening)
    ensures LetIn(s, o) <==> IsAdmitted(ServiceOf(s), o) && !o.endOfStream
  {
    PostIsRead(o.headers);
  }

  /** A refused host's body is taken in silence and then answered with 403. */
  lemma BlockedBodyIsAnswered(s: Server, o: Opening, chunks: seq<Bytes>, ending: Ending)
    requires IsPost(o.headers) && !s.hostAllowed(o.headers) && !o.endOfStream
    ensures var p := Run(ServiceOf(s), OpenedMessages(o, chunks)); p.Running? && p.sent == []
    ensures var p := Run(ServiceOf(s), OpenedMessages(o, chunks) + [EndingMessage(Request, ending)]);
      && p.Running? && p.state == AwaitingRequestHeaders
      && p.sent == [ACKNOWLEDGED, ImmediateAnswer(Immediate(403, [], []))]
  {
    PostIsRead(o.headers);
    var h := History([], Draining(o, chunks));
    assert Messages(h) == OpenedMessages(o, chunks);
    RunOfMessages(ServiceOf(s), h);
    OneCycle(ServiceOf(s), BlockedAfterBody(o, Upload(chunks, ending)));
  }

  /** The run on the messages of one legal cycle. */
  lemma OneCycle(s: Service, c: Cycle)
    requires LegalCycle(s, c)
    ensures var p := Run(s, CycleMessages(c));
      p.Running? && p.state == AwaitingRequestHeaders && p.sent == CycleAnswers(s, c)
  {
    OneCycleTold(s, c);
    RunOfMessages(s, History([c], Idle));
  }

  lemma OneCycleTold(s: Service, c: Cycle)
    ensures Messages(History([c], Idle)) == CycleMessages(c)
    ensures Sent(s, History([c], Idle)) == CycleAnswers(s, c)
  {
    CompletedParts(s, NOTHING, c);
    assert [] + [c] == [c];
    assert DoneAnswers(s, []) == [] && DoneMessages([]) == [];
  }

  /** Nothing is sent before a request's body has ended. Then its handler's answer
      is sent: the reroute in frames, or the immediate answer as it is. */
  lemma RequestIsAnswered(s: Server, o: Opening, u: Upload)
    requires LetIn(s, o)
    ensures var p := Run(ServiceOf(s), OpenedMessages(o, u.chunks)); p.Running? && p.sent == []
    ensures var p, r := Run(ServiceOf(s), UploadedMessages(o, u)), McpRequestHandler(s, u.Whole(), Captured(o.headers), o.walk);
      && p.Running? && p.state == AwaitingResponseHeaders(RequestContext(r.id, r.config, 0, r.era))
      && p.sent == if r.reroute.Some? then Framed(r.reroute.value, Request, u.ending.WithTrailers?) else r.immediate
  {
    LetInIsAdmitted(s, o);
    var before, after := History([], Uploading(o, u.chunks)), History([], Forwarded(o, u));
    assert Messages(before) == OpenedMessages(o, u.chunks);
    assert Messages(after) == UploadedMessages(o, u);
    RunOfMessages(ServiceOf(s), before);
    RunOfMessages(ServiceOf(s), after);
  }

  /** The body of a request with the given chunks and ending. */
  function BodyOf(u: Upload): Bytes {
    match u.ending
    case WithChunk(last) => Concat(u.chunks) + last
    case WithTrailers => Concat(u.chunks)
  }

  /** So a request that is no call of a known tool is answered with its verdict. */
  lemma RequestGetsItsVerdict(s: Server, o: Opening, u: Upload, call: Call)
    requires LetIn(s, o) && s.lib.decodeMessage(BodyOf(u)) == RequestMessage(call)
    ensures match VerdictOn(s, call, o.headers)
      case Fails(status, code, requested) =>
        var p := Run(ServiceOf(s), UploadedMessages(o, u));
        p.Running? && p.sent == JsonAnswer(status, ErrorText(s, call.id, code, requested))
      case Accepted =>
        var p := Run(ServiceOf(s), UploadedMessages(o, u));
        p.Running? && p.sent == [ACKNOWLEDGED, ImmediateAnswer(Immediate(202, [], []))]
      case Answers(result) =>
        var p := Run(ServiceOf(s), UploadedMessages(o, u));
        p.Running? && p.sent == JsonAnswer(200, ResultText(s, call.id, result))
      case Calls(_, _, _) => true
  {
    assert u.Whole() == BodyOf(u);
    RequestIsAnswered(s, o, u);
    VerdictIsGiven(s, BodyOf(u), call, o.headers, o.walk);
  }

  /** A body that is no request is answered with a parse error or as an invalid
      request. */
  lemma NoRequestGetsItsError(s: Server, o: Opening, u: Upload)
    requires LetIn(s, o)
    ensures var p := Run(ServiceOf(s), UploadedMessages(o, u));
      && p.Running?
      && (s.lib.decodeMessage(BodyOf(u)).Undecodable? ==> p.sent == JsonAnswer(200, ErrorText(s, NoId, -32700, None)))
      && (s.lib.decodeMessage(BodyOf(u)).NotARequest? ==> p.sent == JsonAnswer(200, ErrorText(s, NoId, -32600, None)))
  {
    assert u.Whole() == BodyOf(u);
    RequestIsAnswered(s, o, u);
    NoRequestIsRefused(s, BodyOf(u), Captured(o.headers), o.walk);
  }

  // ---------------------------------------------------- the whole tool call

  /** The call goes upstream: all its arguments fit and its body can be written. */
  ghost predicate Fits(s: Server, v: Verdict) {
    && v.Calls? && v.name in s.catalog.configs
    && var endpoint := s.catalog.configs[v.name].endpoint;
       && (forall n :: n in endpoint.parameters ==> E.Fault(s.lib.format, endpoint, v.arguments, n).None?)
       && E.MarshalRequestBody(s.lib.marshal, endpoint, v.arguments).Some?
  }

  /** What is sent for a call and the upstream's answer to it: the request as the
      endpoint and the arguments say, in frames, then the result by the upstream's
      status and whole body, in frames. */
  ghost predicate Translates(s: Server, call: Call, v: Verdict, o: Opening, u: Upload, upstream: HeaderMap, reply: Upload, sent: seq<Answer>)
    requires v.Calls? && v.name in s.catalog.configs
  {
    var config := s.catalog.configs[v.name];
    exists m, result ::
      && CallsUpstream(s, config.endpoint, v.arguments, o.headers, o.walk, m)
      && ResultFor(s, v.era, config.response.useStructuredOutput, UpstreamStatus(upstream), BodyOf(reply), result)
      && var buf := ResultText(s, call.id, result);
         sent == Framed(m, Request, u.ending.WithTrailers?)
           + Framed(StreamedMutation(
               HeadersAnswer(Response, CommonResponse(false, JsonHeaders(buf), ["content-length", "content-type"], None)), buf),
               Response, reply.ending.WithTrailers?)
  }

  lemma CallContext(s: Server, o: Opening, u: Upload, call: Call, upstream: HeaderMap)
    requires s.lib.decodeMessage(BodyOf(u)) == RequestMessage(call) && !call.id.NoId?
    requires Fits(s, VerdictOn(s, call, o.headers))
    ensures var v, r := VerdictOn(s, call, o.headers), McpRequestHandler(s, BodyOf(u), Captured(o.headers), o.walk);
            var config := s.catalog.configs[v.name];
      && r.reroute.Some? && CallsUpstream(s, config.endpoint, v.arguments, o.headers, o.walk, r.reroute.value)
      && AwaitsResponse(ServiceOf(s), o, BodyOf(u))
      && ContextOf(ServiceOf(s), o, BodyOf(u), upstream) == RequestContext(call.id, Some(config.response), UpstreamStatus(upstream), Some(v.era))
  {
    CallIsGiven(s, BodyOf(u), call, o.headers, o.walk);
    var r := McpRequestHandler(s, BodyOf(u), Captured(o.headers), o.walk);
    StatusIsRead(RequestContext(r.id, r.config, 0, r.era), upstream);
  }

  /** A tool call from end to end. */
  lemma ToolCallIsTranslated(s: Server, o: Opening, u: Upload, call: Call, upstream: HeaderMap, reply: Upload)
    requires LetIn(s, o) && s.lib.decodeMessage(BodyOf(u)) == RequestMessage(call) && !call.id.NoId?
    requires Fits(s, VerdictOn(s, call, o.headers))
    ensures var p := Run(ServiceOf(s), AnsweredMessages(o, u, upstream, reply.chunks) + [EndingMessage(Response, reply.ending)]);
      && p.Running? && p.state == AwaitingRequestHeaders
      && Translates(s, call, VerdictOn(s, call, o.headers), o, u, upstream, reply, p.sent)
  {
    assert u.Whole() == BodyOf(u) && reply.Whole() == BodyOf(reply);
    LetInIsAdmitted(s, o);
    CallContext(s, o, u, call, upstream);
    OneCycle(ServiceOf(s), Translated(o, u, upstream, reply));
    var v := VerdictOn(s, call, o.headers);
    ResponseIsGiven(s, call.id, v.era, s.catalog.configs[v.name].response, UpstreamStatus(upstream), BodyOf(reply));
  }

  /** And when the upstream answers without a body. */
  ghost predicate Replaces(s: Server, call: Call, v: Verdict, o: Opening, u: Upload, upstream: HeaderMap, sent: seq<Answer>)
    requires v.Calls? && v.name in s.catalog.configs
  {
    var config := s.catalog.configs[v.name];
    exists m, text, result ::
      && CallsUpstream(s, config.endpoint, v.arguments, o.headers, o.walk, m)
      && Describes(s, UpstreamStatus(upstream), text)
      && ResultFor(s, v.era, config.response.useStructuredOutput, UpstreamStatus(upstream), text, result)
      && var buf := ResultText(s, call.id, result);
         sent == Framed(m, Request, u.ending.WithTrailers?)
           + [HeadersAnswer(Response, CommonResponse(true, JsonHeaders(buf) + [HeaderSet(":status", "200")],
                                                     ["content-length", "content-type"], Some(buf)))]
  }

  lemma EmptyUpstreamIsReplaced(s: Server, o: Opening, u: Upload, call: Call, upstream: HeaderMap)
    requires LetIn(s, o) && s.lib.decodeMessage(BodyOf(u)) == RequestMessage(call) && !call.id.NoId?
    requires Fits(s, VerdictOn(s, call, o.headers))
    ensures var p := Run(ServiceOf(s), UploadedMessages(o, u) + [ResponseHeaders(upstream, true)]);
      && p.Running? && p.state == AwaitingRequestHeaders
      && Replaces(s, call, VerdictOn(s, call, o.headers), o, u, upstream, p.sent)
  {
    assert u.Whole() == BodyOf(u);
    LetInIsAdmitted(s, o);
    CallContext(s, o, u, call, upstream);
    OneCycle(ServiceOf(s), EmptyUpstream(o, u, upstream));
    var v := VerdictOn(s, call, o.headers);
    ResponseIsGiven(s, call.id, v.era, s.catalog.configs[v.name].response, UpstreamStatus(upstream), []);
  }
}
