/** What any request that reaches the upstream has passed, on every run. */
module Gate {
  import opened Common
  import opened Text
  import opened Wire
  import opened Rpc
  import opened Era
  import opened Framing
  import opened HeaderValidation
  import opened Handler
  import opened StreamState
  import opened History

  /** An answer that sends a request on: request headers with a mutation. */
  predicate IsReroute(a: Answer) {
    a.HeadersAnswer? && a.direction == Request && a.common != NO_MUTATION
  }

  /** The checks on the headers alone. */
  ghost predicate PassedHeaderGate(s: Server, o: Opening) {
    && !o.endOfStream
    && s.hostAllowed(o.headers)
    && (forall v :: FindHeader(o.headers, ":method") == Some(v) ==> v == "POST")
  }

  /** The checks on the body and the headers that mirror it. */
  ghost predicate PassedBodyGate(s: Server, hdrs: McpRequestHeaders, body: Bytes) {
    && CallOf(s, body).Some?
    && var call := CallOf(s, body).value;
       && call.methodName == METHOD_TOOLS_CALL
       && DecodeToolCall(call.params).Some?
       && (exists t :: t in s.catalog.tools && t.name == DecodeToolCall(call.params).value.0)
       && (Selected(call, hdrs).era == Modern ==>
             && MetaProtocolVersion(call.params) == hdrs.protocolVersion == Selected(call, hdrs).version == V20260728
             && hdrs.methodName == METHOD_TOOLS_CALL
             && DecodeHeaderValue(hdrs.name) == Some(DecodeToolCall(call.params).value.0))
       && (Selected(call, hdrs).era == Legacy ==>
             !IsModernVersion(MetaProtocolVersion(call.params)) && !IsModernVersion(hdrs.protocolVersion))
  }

  /** Both, and the answer is the reroute that the request calls for. */
  ghost predicate PassedGate(s: Server, o: Opening, body: Bytes, a: Answer) {
    && PassedHeaderGate(s, o)
    && PassedBodyGate(s, Captured(o.headers), body)
    && Handled(ServiceOf(s), o, body).reroute.Some? && Handled(ServiceOf(s), o, body).reroute.value.headers == a
  }

  ghost predicate WellRegistered(s: Server) {
    Registry.Agrees(s.catalog)
  }

  lemma ReroutedPassedBodyGate(s: Server, hdrs: McpRequestHeaders, body: Bytes, walk: Walk)
    requires WellRegistered(s) && McpRequestHandler(s, body, hdrs, walk).reroute.Some?
    ensures PassedBodyGate(s, hdrs, body)
  {
    GateOnReroute(s, body, hdrs, walk);
    MethodsDiffer(CallOf(s, body).value.methodName);
  }

  lemma ReroutePassedGate(s: Server, o: Opening, u: Upload, a: Answer)
    requires WellRegistered(s) && IsAdmitted(ServiceOf(s), o) && !o.endOfStream
    requires a in Forwarding(ServiceOf(s), o, u.Whole(), u.HasTrailers()) && IsReroute(a)
    ensures PassedGate(s, o, u.Whole(), a)
  {
    var body, hdrs := u.Whole(), Captured(o.headers);
    ExactlyOneOutcome(s, body, hdrs, o.walk);
    ForwardedIsReroute(ServiceOf(s), o, body, u.HasTrailers(), a);
    ReroutedPassedBodyGate(s, hdrs, body, o.walk);
  }

  lemma ForwardedIsReroute(s: Service, o: Opening, body: Bytes, hasTrailers: bool, a: Answer)
    requires a in Forwarding(s, o, body, hasTrailers) && IsReroute(a)
    requires var r := Handled(s, o, body);
      if r.reroute.Some? then r.reroute.value.headers.HeadersAnswer?
      else |r.immediate| == 2 && r.immediate[0] == HeadersAnswer(Request, NO_MUTATION) && r.immediate[1].ImmediateAnswer?
    ensures Handled(s, o, body).reroute.Some? && Handled(s, o, body).reroute.value.headers == a
  {
    if Handled(s, o, body).reroute.Some? {
      OnlyHeadersReroute(Handled(s, o, body).reroute.value, hasTrailers, a);
    }
  }

  lemma OnlyHeadersReroute(m: StreamedMutation, hasTrailers: bool, a: Answer)
    requires m.headers.HeadersAnswer? && a in Framed(m, Request, hasTrailers) && IsReroute(a)
    ensures a == m.headers
  {
    FramedWhole(m, Request, hasTrailers);
    var i :| 0 <= i < |Framed(m, Request, hasTrailers)| && Framed(m, Request, hasTrailers)[i] == a;
  }

  lemma ResponseIsNoReroute(m: StreamedMutation, hasTrailers: bool, a: Answer)
    requires m.headers.HeadersAnswer? && m.headers.direction == Response && a in Framed(m, Response, hasTrailers)
    ensures !IsReroute(a)
  {
    FramedWhole(m, Response, hasTrailers);
    var i :| 0 <= i < |Framed(m, Response, hasTrailers)| && Framed(m, Response, hasTrailers)[i] == a;
  }

  /** The body messages `ms` begin, after `before`, with an opening and the upload
      that follows it. */
  ghost predicate Received(ms: seq<Inbound>, before: nat, o: Opening, u: Upload) {
    before <= |ms| && [OpeningMessage(o)] + UploadMessages(Request, u) <= ms[before..]
  }

  /** What follows a forwarded request in a cycle reroutes nothing. */
  lemma ForwardedGate(s: Server, o: Opening, u: Upload, response: seq<Answer>, a: Answer)
    requires WellRegistered(s) && IsAdmitted(ServiceOf(s), o) && !o.endOfStream
    requires a in Forwarding(ServiceOf(s), o, u.Whole(), u.HasTrailers()) + response && IsReroute(a)
    requires forall b :: b in response ==> !IsReroute(b)
    ensures PassedGate(s, o, u.Whole(), a)
  {
    assert a in Forwarding(ServiceOf(s), o, u.Whole(), u.HasTrailers());
    ReroutePassedGate(s, o, u, a);
  }

  lemma CycleGate(s: Server, c: Cycle, a: Answer)
    requires WellRegistered(s) && LegalCycle(ServiceOf(s), c) && a in CycleAnswers(ServiceOf(s), c) && IsReroute(a)
    ensures (c.EmptyUpstream? || c.Translated?) && PassedGate(s, c.open, c.body.Whole(), a)
  {
    match c {
      case EmptyUpstream(o, u, h) =>
        var response := BuildEndOfStreamResponse(s, ContextOf(ServiceOf(s), o, u.Whole(), h));
        assert forall b :: b in response ==> !IsReroute(b);
        ForwardedGate(s, o, u, response, a);
      case Translated(o, u, h, v) =>
        var m := McpResponseHandler(s, ContextOf(ServiceOf(s), o, u.Whole(), h), v.Whole());
        forall b | b in Framed(m, Response, v.HasTrailers()) ensures !IsReroute(b) {
          ResponseIsNoReroute(m, v.HasTrailers(), b);
        }
        ForwardedGate(s, o, u, Framed(m, Response, v.HasTrailers()), a);
      case _ =>
    }
  }

  lemma CycleReceived(c: Cycle)
    requires c.EmptyUpstream? || c.Translated?
    ensures Received(CycleMessages(c), 0, c.open, c.body)
  {
    UploadedIsUpload(c.open, c.body);
    assert CycleMessages(c)[0..] == CycleMessages(c);
  }

  lemma UploadedIsUpload(o: Opening, u: Upload)
    ensures UploadedMessages(o, u) == [OpeningMessage(o)] + UploadMessages(Request, u)
  {
  }

  lemma {:induction false} DoneGate(s: Server, done: seq<Cycle>, a: Answer) returns (before: nat, o: Opening, u: Upload)
    requires WellRegistered(s) && (forall c :: c in done ==> LegalCycle(ServiceOf(s), c))
    requires a in DoneAnswers(ServiceOf(s), done) && IsReroute(a)
    ensures Received(DoneMessages(done), before, o, u) && PassedGate(s, o, u.Whole(), a)
  {
    var k := |done| - 1;
    assert done[k] in done;
    if a in DoneAnswers(ServiceOf(s), done[..k]) {
      before, o, u := DoneGate(s, done[..k], a);
      StillReceived(DoneMessages(done[..k]), CycleMessages(done[k]), before, o, u);
    } else {
      CycleGate(s, done[k], a);
      CycleReceived(done[k]);
      before, o, u := |DoneMessages(done[..k])|, done[k].open, done[k].body;
      assert DoneMessages(done)[before..] == CycleMessages(done[k]);
      assert CycleMessages(done[k])[0..] == CycleMessages(done[k]);
    }
  }

  lemma StillReceived(a: seq<Inbound>, b: seq<Inbound>, before: nat, o: Opening, u: Upload)
    requires Received(a, before, o, u)
    ensures Received(a + b, before, o, u)
  {
    assert (a + b)[before..] == a[before..] + b;
  }

  /** On every run, every request sent on to the upstream answers an opening and a
      whole body that were received and that passed the gate. */
  lemma EveryReroutePassedGate(s: Server, ms: seq<Inbound>, a: Answer)
    requires WellRegistered(s) && a in Run(ServiceOf(s), ms).sent && IsReroute(a)
    ensures exists before, o, u :: Received(ms, before, o, u) && PassedGate(s, o, u.Whole(), a)
  {
    RunRefinesHistory(ServiceOf(s), ms);
    var h, rest := Read(ServiceOf(s), ms).history, Read(ServiceOf(s), ms).rest;
    var before, o, u := HistoryGate(s, h, a);
    StillReceived(Messages(h), rest, before, o, u);
  }

  lemma HistoryGate(s: Server, h: History, a: Answer) returns (before: nat, o: Opening, u: Upload)
    requires WellRegistered(s) && Legal(ServiceOf(s), h) && a in Sent(ServiceOf(s), h) && IsReroute(a)
    ensures Received(Messages(h), before, o, u) && PassedGate(s, o, u.Whole(), a)
  {
    if a in DoneAnswers(ServiceOf(s), h.done) {
      before, o, u := DoneGate(s, h.done, a);
      StillReceived(DoneMessages(h.done), PartialMessages(h.now), before, o, u);
    } else {
      PartialGate(s, h.now, a);
      before, o, u := |DoneMessages(h.done)|, h.now.open, h.now.body;
      assert Messages(h)[before..] == PartialMessages(h.now);
    }
  }

  lemma PartialGate(s: Server, p: Partial, a: Answer)
    requires WellRegistered(s) && LegalPartial(ServiceOf(s), p) && a in PartialAnswers(ServiceOf(s), p) && IsReroute(a)
    ensures (p.Forwarded? || p.Downloading?) && PassedGate(s, p.open, p.body.Whole(), a)
    ensures [OpeningMessage(p.open)] + UploadMessages(Request, p.body) <= PartialMessages(p)
  {
    UploadedIsUpload(p.open, p.body);
    ReroutePassedGate(s, p.open, p.body, a);
  }
}
