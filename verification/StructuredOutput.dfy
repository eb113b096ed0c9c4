/** Structured output from the OpenAPI document to the client: which answers on a
    stream carry structured content. */
module StructuredOutput {
  import opened Common
  import opened Text
  import opened Wire
  import opened Rpc
  import opened Era
  import opened Registry
  import opened Framing
  import opened HeaderValidation
  import opened Handler
  import opened Replies
  import opened StreamState
  import opened History
  import opened Generation
  import opened Exchanges

  /** The answer is a tool result for the call in `body`, for the listed tool it
      names, with structured content exactly if that tool advertises an output
      schema, the upstream succeeded and what it sent is JSON. */
  ghost predicate AnswersCall(s: Server, o: Opening, body: Bytes, status: int, content: Bytes, bytes: Bytes, tool: Tool, result: Result) {
    && CallOf(s, body).Some? && DecodeToolCall(CallOf(s, body).value.params).Some?
    && tool in s.catalog.tools && tool.name == DecodeToolCall(CallOf(s, body).value.params).value.0
    && s.lib.encodeReply(ResultReply(CallOf(s, body).value.id, result)) == Some(bytes)
    && result.CallToolResult? && result.content == Verbatim(content)
    && (result.isError <==> status == 0 || status >= 400)
    && (result.structured.Some? <==> tool.output.Some? && !result.isError && s.lib.validJson(content))
    && (result.structured.Some? ==> result.structured.value == content)
    && StampedFor(s.info, Selected(CallOf(s, body).value, Captured(o.headers)).era, result)
  }

  lemma CallContext(s: Server, o: Opening, body: Bytes, upstream: HeaderMap) returns (tool: Tool)
    requires Agrees(s.catalog) && Coherent(s.catalog) && AwaitsResponse(ServiceOf(s), o, body)
    ensures CallOf(s, body).Some? && DecodeToolCall(CallOf(s, body).value.params).Some?
    ensures tool in s.catalog.tools && tool.name == DecodeToolCall(CallOf(s, body).value.params).value.0
    ensures var context := ContextOf(ServiceOf(s), o, body, upstream);
      && context.IsToolCall() && context.id == CallOf(s, body).value.id
      && context.status == UpstreamStatus(upstream)
      && (context.config.value.useStructuredOutput <==> tool.output.Some?)
      && context.ProtocolEra() == Selected(CallOf(s, body).value, Captured(o.headers)).era
  {
    AwaitsResponseExactlyIf(s, o, body);
    ContextIsOfTheCall(s, o, body, upstream);
    var name := DecodeToolCall(CallOf(s, body).value.params).value.0;
    tool :| tool in s.catalog.tools && tool.name == name;
  }

  lemma ContextIsOfTheCall(s: Server, o: Opening, body: Bytes, upstream: HeaderMap)
    requires McpRequestHandler(s, body, Captured(o.headers), o.walk).reroute.Some?
    ensures CallOf(s, body).Some? && DecodeToolCall(CallOf(s, body).value.params).Some?
    ensures var name := DecodeToolCall(CallOf(s, body).value.params).value.0;
            var context := ContextOf(ServiceOf(s), o, body, upstream);
      && name in s.catalog.configs && context.config == Some(s.catalog.configs[name].response)
      && context.id == CallOf(s, body).value.id
      && context.status == UpstreamStatus(upstream)
      && context.ProtocolEra() == Selected(CallOf(s, body).value, Captured(o.headers)).era
  {
    ExactlyOneOutcome(s, body, Captured(o.headers), o.walk);
    GateOnReroute(s, body, Captured(o.headers), o.walk);
    StatusIsRead(ContextAfter(Handled(ServiceOf(s), o, body)), upstream);
  }

  lemma AnswerForCall(s: Server, o: Opening, body: Bytes, upstream: HeaderMap, content: Bytes)
    requires Agrees(s.catalog) && Coherent(s.catalog) && CanEncode(s.lib) && AwaitsResponse(ServiceOf(s), o, body)
    ensures exists tool, result ::
      AnswersCall(s, o, body, UpstreamStatus(upstream), content, ResponseBytes(s, ContextOf(ServiceOf(s), o, body, upstream), content), tool, result)
  {
    var tool := CallContext(s, o, body, upstream);
    var context := ContextOf(ServiceOf(s), o, body, upstream);
    UpstreamAnswer(s, context, content);
    var result: Result :|
      && s.lib.encodeReply(ResultReply(context.id, result)) == Some(ResponseBytes(s, context, content))
      && result.CallToolResult? && result.content == Verbatim(content)
      && (result.isError <==> context.status == 0 || context.status >= 400)
      && (result.structured.Some? <==> context.config.value.useStructuredOutput && !result.isError && s.lib.validJson(content))
      && (result.structured.Some? ==> result.structured.value == content)
      && StampedFor(s.info, context.ProtocolEra(), result);
    assert AnswersCall(s, o, body, UpstreamStatus(upstream), content, ResponseBytes(s, context, content), tool, result);
  }

  /** On every run, a translated cycle ends with the framed encoding of such a
      result, whose content is the whole upstream body. */
  lemma TranslatedAnswer(s: Server, ms: seq<Inbound>, c: Cycle)
    requires Agrees(s.catalog) && Coherent(s.catalog) && CanEncode(s.lib)
    requires c in Read(ServiceOf(s), ms).history.done && c.Translated?
    ensures exists m: StreamedMutation, tool, result ::
      && CycleAnswers(ServiceOf(s), c) == Forwarding(ServiceOf(s), c.open, c.body.Whole(), c.body.HasTrailers()) + Framed(m, Response, c.reply.HasTrailers())
      && AnswersCall(s, c.open, c.body.Whole(), UpstreamStatus(c.upstream), c.reply.Whole(), m.body, tool, result)
  {
    RunRefinesHistory(ServiceOf(s), ms);
    assert LegalCycle(ServiceOf(s), c);
    var m := McpResponseHandler(s, ContextOf(ServiceOf(s), c.open, c.body.Whole(), c.upstream), c.reply.Whole());
    AnswerForCall(s, c.open, c.body.Whole(), c.upstream, c.reply.Whole());
    var tool, result :| AnswersCall(s, c.open, c.body.Whole(), UpstreamStatus(c.upstream), c.reply.Whole(), m.body, tool, result);
  }

  /** On every run, a cycle whose upstream answered without a body ends with a
      replaced response that carries no structured content. */
  lemma EmptyUpstreamCarriesNone(s: Server, ms: seq<Inbound>, c: Cycle)
    requires Agrees(s.catalog) && Coherent(s.catalog) && CanEncode(s.lib) && ReadsJson(s.lib)
    requires c in Read(ServiceOf(s), ms).history.done && c.EmptyUpstream?
    ensures exists bytes, tool, result ::
      && CycleAnswers(ServiceOf(s), c) == Forwarding(ServiceOf(s), c.open, c.body.Whole(), c.body.HasTrailers())
                               + ReplacedResponse(ResponseHeaderSets(bytes), bytes)
      && AnswersCall(s, c.open, c.body.Whole(), UpstreamStatus(c.upstream),
                     DescribeEmptyUpstreamResponse(s.lib, UpstreamStatus(c.upstream)), bytes, tool, result)
      && result.structured == None
  {
    RunRefinesHistory(ServiceOf(s), ms);
    assert LegalCycle(ServiceOf(s), c);
    var body, status := c.body.Whole(), UpstreamStatus(c.upstream);
    var content := DescribeEmptyUpstreamResponse(s.lib, status);
    EmptyResponseIsNotJson(s, status);
    var tool' := CallContext(s, c.open, body, c.upstream);
    var bytes := ResponseBytes(s, ContextOf(ServiceOf(s), c.open, body, c.upstream), content);
    AnswerForCall(s, c.open, body, c.upstream, content);
    var tool, result :| AnswersCall(s, c.open, body, status, content, bytes, tool, result);
    assert CycleAnswers(ServiceOf(s), c) == Forwarding(ServiceOf(s), c.open, body, c.body.HasTrailers()) + ReplacedResponse(ResponseHeaderSets(bytes), bytes);
  }

  /** The answer a finished cycle with an upstream response ends in. */
  ghost predicate EndsInResult(s: Server, c: Cycle, tool: Tool, result: Result) {
    match c
    case Translated(o, u, upstream, reply) =>
      exists m: StreamedMutation ::
        && CycleAnswers(ServiceOf(s), c) == Forwarding(ServiceOf(s), o, u.Whole(), u.HasTrailers()) + Framed(m, Response, reply.HasTrailers())
        && AnswersCall(s, o, u.Whole(), UpstreamStatus(upstream), reply.Whole(), m.body, tool, result)
    case EmptyUpstream(o, u, upstream) =>
      exists bytes ::
        && CycleAnswers(ServiceOf(s), c) == Forwarding(ServiceOf(s), o, u.Whole(), u.HasTrailers()) + ReplacedResponse(ResponseHeaderSets(bytes), bytes)
        && AnswersCall(s, o, u.Whole(), UpstreamStatus(upstream), DescribeEmptyUpstreamResponse(s.lib, UpstreamStatus(upstream)), bytes, tool, result)
    case _ => false
  }

  /** From the documents to the client: a server that offers what was loaded from
      its documents, filtered or not, ends every cycle that reached the upstream
      with a result for a tool it lists. The result has structured content only if
      structured output is turned on, the tool advertises an output schema and the
      upstream answered with a body. */
  lemma ServedFromDocuments(s: Server, sources: seq<Source>, structured: bool, allowed: Option<set<string>>, ms: seq<Inbound>, c: Cycle)
    requires s.catalog == Offers(sources, structured, allowed)
    requires CanEncode(s.lib) && ReadsJson(s.lib)
    requires c in Read(ServiceOf(s), ms).history.done && (c.Translated? || c.EmptyUpstream?)
    ensures exists tool, result ::
      && EndsInResult(s, c, tool, result)
      && (result.structured.Some? ==> structured && tool.output.Some? && c.Translated?)
  {
    OffersAreSound(sources, structured, allowed);
    if c.Translated? {
      TranslatedAnswer(s, ms, c);
      var m: StreamedMutation, tool, result :|
        && CycleAnswers(ServiceOf(s), c) == Forwarding(ServiceOf(s), c.open, c.body.Whole(), c.body.HasTrailers()) + Framed(m, Response, c.reply.HasTrailers())
        && AnswersCall(s, c.open, c.body.Whole(), UpstreamStatus(c.upstream), c.reply.Whole(), m.body, tool, result);
      assert EndsInResult(s, c, tool, result);
    } else {
      EmptyUpstreamCarriesNone(s, ms, c);
      var bytes, tool, result :|
        && CycleAnswers(ServiceOf(s), c) == Forwarding(ServiceOf(s), c.open, c.body.Whole(), c.body.HasTrailers()) + ReplacedResponse(ResponseHeaderSets(bytes), bytes)
        && AnswersCall(s, c.open, c.body.Whole(), UpstreamStatus(c.upstream), DescribeEmptyUpstreamResponse(s.lib, UpstreamStatus(c.upstream)), bytes, tool, result)
        && result.structured == None;
      assert EndsInResult(s, c, tool, result);
    }
  }
}
