/** The order of the answers on a stream, and the two ends of the framing: what
    one side frames, the other side buffers back together. */
module AnswerOrder {
  import opened Common
  import opened Wire
  import opened Framing
  import opened HeaderValidation
  import opened Handler
  import opened StreamState
  import opened History

  /** Headers, at least one body chunk, and possibly trailers. */
  ghost predicate Streamed(answers: seq<Answer>, direction: Direction) {
    exists n :: StreamedWith(answers, direction, n)
  }

  ghost predicate StreamedWith(answers: seq<Answer>, direction: Direction, n: int) {
    && 1 <= n < |answers|
    && answers[0].HeadersAnswer? && answers[0].direction == direction && !answers[0].common.replace
    && (forall i :: 1 <= i <= n ==> answers[i].BodyAnswer? && answers[i].direction == direction)
    && (|answers| == n + 1 || (|answers| == n + 2 && answers[n + 1] == TrailersAnswer(direction)))
  }

  /** The acknowledgement of the request headers and an immediate answer. */
  predicate Immediately(answers: seq<Answer>) {
    |answers| == 2 && answers[0] == HeadersAnswer(Request, NO_MUTATION) && answers[1].ImmediateAnswer?
  }

  /** Response headers that replace the whole upstream response. */
  predicate Replacing(answers: seq<Answer>) {
    |answers| == 1 && answers[0].HeadersAnswer? && answers[0].direction == Response && answers[0].common.replace
  }

  ghost predicate RequestPhase(answers: seq<Answer>) {
    Immediately(answers) || Streamed(answers, Request)
  }

  ghost predicate ResponsePhase(answers: seq<Answer>) {
    Replacing(answers) || Streamed(answers, Response)
  }

  /** An immediate answer alone, or a streamed request and then a response. */
  ghost predicate WellOrdered(answers: seq<Answer>) {
    || Immediately(answers)
    || exists request, response :: answers == request + response && Streamed(request, Request) && ResponsePhase(response)
  }

  lemma FramedIsStreamed(m: StreamedMutation, direction: Direction, hasTrailers: bool)
    requires MutatesIn(m, direction)
    ensures Streamed(Framed(m, direction, hasTrailers), direction)
  {
    FramedWhole(m, direction, hasTrailers);
    assert StreamedWith(Framed(m, direction, hasTrailers), direction, |Chunks(m.body)|);
  }

  /** Handlers that answer or reroute, never both, and whose messages go in the
      right direction. */
  ghost predicate Proper(s: Service) {
    && Immediately(s.bodyless)
    && (forall body, hdrs, walk :: ProperRequest(s.onRequest(body, hdrs, walk)))
    && (forall context, body :: MutatesIn(s.onResponse(context, body), Response))
    && (forall context :: Replacing(s.onEmptyResponse(context)))
  }

  ghost predicate ProperRequest(r: ProcResponse) {
    if r.reroute.Some? then MutatesIn(r.reroute.value, Request) else r.config.None? && Immediately(r.immediate)
  }

  predicate MutatesIn(m: StreamedMutation, direction: Direction) {
    m.headers.HeadersAnswer? && m.headers.direction == direction && !m.headers.common.replace
  }

  lemma ServerIsProper(server: Server)
    ensures Proper(ServiceOf(server))
  {
    forall body, hdrs, walk ensures ProperRequest(McpRequestHandler(server, body, hdrs, walk)) {
      ExactlyOneOutcome(server, body, hdrs, walk);
      if McpRequestHandler(server, body, hdrs, walk).reroute.Some? {
        RerouteTarget(server, body, hdrs, walk);
      }
    }
  }

  lemma ForwardingShape(s: Service, o: Opening, body: Bytes, hasTrailers: bool)
    requires Proper(s)
    ensures RequestPhase(Forwarding(s, o, body, hasTrailers))
    ensures Handled(s, o, body).reroute.Some? ==> Streamed(Forwarding(s, o, body, hasTrailers), Request)
  {
    var r := Handled(s, o, body);
    assert ProperRequest(r);
    if r.reroute.Some? {
      FramedIsStreamed(r.reroute.value, Request, hasTrailers);
    }
  }

  /** The answers to a complete cycle: an immediate answer alone, or the streamed
      request followed by the streamed or replaced response. */
  lemma CycleShape(s: Service, c: Cycle)
    requires Proper(s) && LegalCycle(s, c)
    ensures WellOrdered(CycleAnswers(s, c))
  {
    match c {
      case EmptyUpstream(o, u, h) =>
        ForwardingShape(s, o, u.Whole(), u.HasTrailers());
        assert ProperRequest(Handled(s, o, u.Whole()));
        assert Replacing(s.onEmptyResponse(ContextOf(s, o, u.Whole(), h)));
      case Translated(o, u, h, v) =>
        ForwardingShape(s, o, u.Whole(), u.HasTrailers());
        assert ProperRequest(Handled(s, o, u.Whole()));
        FramedIsStreamed(s.onResponse(ContextOf(s, o, u.Whole(), h), v.Whole()), Response, v.HasTrailers());
      case _ =>
    }
  }

  // ------------------------------------------------- one answer per phase

  predicate IsAck(a: Answer) {
    a.HeadersAnswer? && a.direction == Request
  }

  /** How many request-headers answers there are. */
  function Acks(answers: seq<Answer>): nat {
    if answers == [] then 0 else (if IsAck(answers[0]) then 1 else 0) + Acks(answers[1..])
  }

  lemma {:induction false} AcksSplit(a: seq<Answer>, b: seq<Answer>)
    ensures Acks(a + b) == Acks(a) + Acks(b)
  {
    if a == [] {
      assert a + b == b;
    } else {
      assert (a + b)[1..] == a[1..] + b;
      AcksSplit(a[1..], b);
    }
  }

  lemma {:induction false} NoAcks(answers: seq<Answer>)
    requires forall a :: a in answers ==> !IsAck(a)
    ensures Acks(answers) == 0
  {
    if answers != [] {
      assert answers[0] in answers;
      NoAcks(answers[1..]);
    }
  }

  lemma OneAck(answers: seq<Answer>)
    requires RequestPhase(answers)
    ensures Acks(answers) == 1
  {
    forall a | a in answers[1..] ensures !IsAck(a) {
      var i :| 0 <= i < |answers[1..]| && answers[1..][i] == a;
      assert answers[i + 1] == a;
    }
    NoAcks(answers[1..]);
  }

  lemma ResponseHasNoAck(answers: seq<Answer>)
    requires ResponsePhase(answers)
    ensures Acks(answers) == 0
  {
    forall a | a in answers ensures !IsAck(a) {
      var i :| 0 <= i < |answers| && answers[i] == a;
    }
    NoAcks(answers);
  }

  lemma CycleHasOneAck(s: Service, c: Cycle)
    requires Proper(s) && LegalCycle(s, c)
    ensures Acks(CycleAnswers(s, c)) == 1
  {
    CycleShape(s, c);
    if Immediately(CycleAnswers(s, c)) {
      OneAck(CycleAnswers(s, c));
    } else {
      var request, response :| CycleAnswers(s, c) == request + response && Streamed(request, Request) && ResponsePhase(response);
      AcksSplit(request, response);
      OneAck(request);
      ResponseHasNoAck(response);
    }
  }

  lemma {:induction false} DoneHasOneAckEach(s: Service, done: seq<Cycle>)
    requires Proper(s) && forall c :: c in done ==> LegalCycle(s, c)
    ensures Acks(DoneAnswers(s, done)) == |done|
  {
    if done != [] {
      var k := |done| - 1;
      assert done[k] in done;
      DoneHasOneAckEach(s, done[..k]);
      CycleHasOneAck(s, done[k]);
      AcksSplit(DoneAnswers(s, done[..k]), CycleAnswers(s, done[k]));
    }
  }

  /** The request phase of the cycle under way has ended. */
  predicate RequestPhaseEnded(p: Partial) {
    p.Forwarded? || p.Downloading?
  }

  /** On every run: the answers of the finished cycles in order, then those of the
      request phase under way, if it has ended, and nothing else. So nothing is
      sent for a phase before the message that ends it, and there are as many
      request-headers answers as ended request phases. */
  lemma AnswersInOrder(s: Service, ms: seq<Inbound>)
    requires Proper(s)
    ensures var h := Read(s, ms).history;
      && Run(s, ms).sent == DoneAnswers(s, h.done) + PartialAnswers(s, h.now)
      && (forall c :: c in h.done ==> WellOrdered(CycleAnswers(s, c)))
      && (if RequestPhaseEnded(h.now) then RequestPhase(PartialAnswers(s, h.now)) else PartialAnswers(s, h.now) == [])
      && Acks(Run(s, ms).sent) == |h.done| + (if RequestPhaseEnded(h.now) then 1 else 0)
  {
    RunRefinesHistory(s, ms);
    var h := Read(s, ms).history;
    forall c | c in h.done {
      CycleShape(s, c);
    }
    DoneHasOneAckEach(s, h.done);
    AcksSplit(DoneAnswers(s, h.done), PartialAnswers(s, h.now));
    if RequestPhaseEnded(h.now) {
      ForwardingShape(s, h.now.open, h.now.body.Whole(), h.now.body.HasTrailers());
      OneAck(PartialAnswers(s, h.now));
    }
  }

  // ------------------------------------------------- frame, then buffer

  /** A framed body as the peer receives it. */
  function Relayed(a: Answer): Inbound {
    match a
    case BodyAnswer(direction, chunk, endOfStream) => Body(direction, chunk, endOfStream)
    case TrailersAnswer(direction) => Trailers(direction)
    case _ => Unset
  }

  function RelayedAll(answers: seq<Answer>): seq<Inbound> {
    seq(|answers|, i requires 0 <= i < |answers| => Relayed(answers[i]))
  }

  /** The body messages of a framed mutation, relayed. */
  function BodyRelay(m: StreamedMutation, direction: Direction, hasTrailers: bool): seq<Inbound> {
    RelayedAll(Framed(m, direction, hasTrailers)[1..])
  }

  function FramedUpload(body: Bytes, hasTrailers: bool): Upload {
    var chunks := Chunks(body);
    if hasTrailers then Upload(chunks, WithTrailers)
    else Upload(chunks[..|chunks| - 1], WithChunk(chunks[|chunks| - 1]))
  }

  /** What is framed arrives as an upload of the same body with the same end. */
  lemma FramedArrivesWhole(m: StreamedMutation, direction: Direction, hasTrailers: bool)
    requires m.headers.HeadersAnswer?
    ensures BodyRelay(m, direction, hasTrailers) == UploadMessages(direction, FramedUpload(m.body, hasTrailers))
    ensures FramedUpload(m.body, hasTrailers).Whole() == m.body
    ensures FramedUpload(m.body, hasTrailers).HasTrailers() == hasTrailers
  {
    FramedMessages(m, direction, hasTrailers);
    ChunksConcat(m.body);
    var chunks := Chunks(m.body);
    if !hasTrailers {
      assert chunks == chunks[..|chunks| - 1] + [chunks[|chunks| - 1]];
      ConcatSnoc(chunks[..|chunks| - 1], chunks[|chunks| - 1]);
    }
  }

  lemma FramedMessages(m: StreamedMutation, direction: Direction, hasTrailers: bool)
    ensures BodyRelay(m, direction, hasTrailers) == UploadMessages(direction, FramedUpload(m.body, hasTrailers))
  {
    var relay, upload := BodyRelay(m, direction, hasTrailers), UploadMessages(direction, FramedUpload(m.body, hasTrailers));
    assert |relay| == |upload|;
    forall i | 0 <= i < |relay| ensures relay[i] == upload[i] {
      assert relay[i] == Relayed(Framed(m, direction, hasTrailers)[i + 1]);
    }
  }

  lemma FirstChunks(direction: Direction, u: Upload, k: nat)
    requires k <= |u.chunks|
    ensures UploadMessages(direction, u)[..k] == ChunkMessages(direction, u.chunks[..k])
  {
  }

  lemma RequestUploadUnfinished(s: Service, h: History, u: Upload, k: nat)
    requires Legal(s, h) && h.now.Uploading? && h.now.chunks == [] && k <= |u.chunks|
    ensures var run := Run(s, Messages(h) + ChunkMessages(Request, u.chunks[..k]));
      run.Running? && run.sent == Sent(s, h) && run.state.BufferingRequest?
  {
    var after := h.(now := Uploading(h.now.open, u.chunks[..k]));
    assert ChunkMessages(Request, []) == [];
    Associates(DoneMessages(h.done), [OpeningMessage(h.now.open)], ChunkMessages(Request, u.chunks[..k]));
    assert Messages(after) == Messages(h) + ChunkMessages(Request, u.chunks[..k]);
    RunOfMessages(s, after);
  }

  lemma RequestUploadFinalizesOnce(s: Service, h: History, u: Upload, k: nat)
    requires Legal(s, h) && h.now.Uploading? && h.now.chunks == [] && k <= |u.chunks| + 1
    ensures var run := Run(s, Messages(h) + UploadMessages(Request, u)[..k]);
      && run.Running?
      && run.sent == Sent(s, h) + (if k == |u.chunks| + 1 then Forwarding(s, h.now.open, u.Whole(), u.HasTrailers()) else [])
      && (run.state.BufferingRequest? <==> k <= |u.chunks|)
  {
    if k <= |u.chunks| {
      FirstChunks(Request, u, k);
      RequestUploadUnfinished(s, h, u, k);
    } else {
      assert UploadMessages(Request, u)[..k] == UploadMessages(Request, u);
      RequestUploadCompletes(s, h, u);
    }
  }

  lemma RequestUploadCompletes(s: Service, h: History, u: Upload)
    requires Legal(s, h) && h.now.Uploading? && h.now.chunks == []
    ensures var run := Run(s, Messages(h) + UploadMessages(Request, u));
      && run.Running? && run.state == AwaitingResponseHeaders(ContextAfter(Handled(s, h.now.open, u.Whole())))
      && run.sent == Sent(s, h) + Forwarding(s, h.now.open, u.Whole(), u.HasTrailers())
  {
    ForwardedMessages(h, u);
    ForwardedSent(s, h, u);
    RunOfMessages(s, h.(now := Forwarded(h.now.open, u)));
  }

  lemma ForwardedSent(s: Service, h: History, u: Upload)
    requires Legal(s, h) && h.now.Uploading?
    ensures Legal(s, h.(now := Forwarded(h.now.open, u)))
    ensures Sent(s, h.(now := Forwarded(h.now.open, u))) == Sent(s, h) + Forwarding(s, h.now.open, u.Whole(), u.HasTrailers())
  {
    assert PartialAnswers(s, h.now) == [];
  }

  lemma ForwardedMessages(h: History, u: Upload)
    requires h.now.Uploading? && h.now.chunks == []
    ensures Messages(h.(now := Forwarded(h.now.open, u))) == Messages(h) + UploadMessages(Request, u)
  {
    var head := [OpeningMessage(h.now.open)];
    assert ChunkMessages(Request, []) == [];
    assert PartialMessages(h.now) == head;
    Associates(head, ChunkMessages(Request, u.chunks), [EndingMessage(Request, u.ending)]);
    Associates(DoneMessages(h.done), head, UploadMessages(Request, u));
  }

  lemma ResponseUploadUnfinished(s: Service, h: History, u: Upload, k: nat)
    requires Legal(s, h) && h.now.Downloading? && h.now.chunks == [] && k <= |u.chunks|
    ensures var run := Run(s, Messages(h) + ChunkMessages(Response, u.chunks[..k]));
      run.Running? && run.sent == Sent(s, h) && run.state.BufferingResponse?
  {
    var o, v, upstream := h.now.open, h.now.body, h.now.upstream;
    var after := h.(now := Downloading(o, v, upstream, u.chunks[..k]));
    var head := UploadedMessages(o, v) + [ResponseHeaders(upstream, false)];
    assert ChunkMessages(Response, []) == [];
    assert PartialMessages(h.now) == head;
    Associates(DoneMessages(h.done), head, ChunkMessages(Response, u.chunks[..k]));
    assert Messages(after) == Messages(h) + ChunkMessages(Response, u.chunks[..k]);
    RunOfMessages(s, after);
  }

  lemma ResponseUploadFinalizesOnce(s: Service, h: History, u: Upload, k: nat)
    requires Legal(s, h) && h.now.Downloading? && h.now.chunks == [] && k <= |u.chunks| + 1
    ensures var run := Run(s, Messages(h) + UploadMessages(Response, u)[..k]);
            var context := ContextOf(s, h.now.open, h.now.body.Whole(), h.now.upstream);
      && run.Running?
      && run.sent == Sent(s, h) +
           (if k == |u.chunks| + 1 then Framed(s.onResponse(context, u.Whole()), Response, u.HasTrailers()) else [])
      && (run.state.BufferingResponse? <==> k <= |u.chunks|)
  {
    if k <= |u.chunks| {
      FirstChunks(Response, u, k);
      ResponseUploadUnfinished(s, h, u, k);
    } else {
      assert UploadMessages(Response, u)[..k] == UploadMessages(Response, u);
      ResponseUploadCompletes(s, h, u);
    }
  }

  lemma ResponseUploadCompletes(s: Service, h: History, u: Upload)
    requires Legal(s, h) && h.now.Downloading? && h.now.chunks == []
    ensures var run := Run(s, Messages(h) + UploadMessages(Response, u));
            var context := ContextOf(s, h.now.open, h.now.body.Whole(), h.now.upstream);
      && run.Running? && run.state == AwaitingRequestHeaders
      && run.sent == Sent(s, h) + Framed(s.onResponse(context, u.Whole()), Response, u.HasTrailers())
  {
    var after := Completed(h, Translated(h.now.open, h.now.body, h.now.upstream, u));
    ResponseUploadTold(s, h, u);
    CompletedIsLegal(s, h, Translated(h.now.open, h.now.body, h.now.upstream, u));
    RunOfMessages(s, after);
  }

  lemma CompletedIsLegal(s: Service, h: History, c: Cycle)
    requires Legal(s, h) && LegalCycle(s, c)
    ensures Legal(s, Completed(h, c))
  {
    forall d | d in h.done + [c] ensures LegalCycle(s, d) {
      assert d in h.done || d == c;
    }
  }

  lemma TranslatedMessages(o: Opening, u: Upload, upstream: HeaderMap, v: Upload)
    ensures CycleMessages(Translated(o, u, upstream, v))
         == PartialMessages(Downloading(o, u, upstream, [])) + UploadMessages(Response, v)
  {
    var head := UploadedMessages(o, u) + [ResponseHeaders(upstream, false)];
    assert ChunkMessages(Response, []) == [];
    assert AnsweredMessages(o, u, upstream, []) == head;
    Associates(head, ChunkMessages(Response, v.chunks), [EndingMessage(Response, v.ending)]);
  }

  lemma ResponseUploadTold(s: Service, h: History, u: Upload)
    requires h.now.Downloading? && h.now.chunks == []
    ensures var c := Translated(h.now.open, h.now.body, h.now.upstream, u);
            var context := ContextOf(s, h.now.open, h.now.body.Whole(), h.now.upstream);
      && Messages(Completed(h, c)) == Messages(h) + UploadMessages(Response, u)
      && Sent(s, Completed(h, c)) == Sent(s, h) + Framed(s.onResponse(context, u.Whole()), Response, u.HasTrailers())
  {
    var o, v, upstream := h.now.open, h.now.body, h.now.upstream;
    var c := Translated(o, v, upstream, u);
    SentOfCompleted(s, h, c, Framed(s.onResponse(ContextOf(s, o, v.Whole(), upstream), u.Whole()), Response, u.HasTrailers()));
    CompletedParts(s, h, c);
    TranslatedMessages(o, v, upstream, u);
    assert h.now == Downloading(o, v, upstream, []);
    Associates(DoneMessages(h.done), PartialMessages(h.now), UploadMessages(Response, u));
  }

  /** Received in the request direction, a framed body finalizes the buffering
      phase exactly once, at its last message, with the original body and the
      same trailer flag. */
  lemma RelayedRequestFinalizesOnce(s: Service, h: History, m: StreamedMutation, hasTrailers: bool, k: nat)
    requires Legal(s, h) && h.now.Uploading? && h.now.chunks == [] && m.headers.HeadersAnswer?
    requires k <= |BodyRelay(m, Request, hasTrailers)|
    ensures var relay := BodyRelay(m, Request, hasTrailers);
            var run := Run(s, Messages(h) + relay[..k]);
      && run.Running?
      && run.sent == Sent(s, h) + (if k == |relay| then Forwarding(s, h.now.open, m.body, hasTrailers) else [])
      && (run.state.BufferingRequest? <==> k < |relay|)
  {
    FramedArrivesWhole(m, Request, hasTrailers);
    RequestUploadFinalizesOnce(s, h, FramedUpload(m.body, hasTrailers), k);
  }

  /** The same in the response direction. */
  lemma RelayedResponseFinalizesOnce(s: Service, h: History, m: StreamedMutation, hasTrailers: bool, k: nat)
    requires Legal(s, h) && h.now.Downloading? && h.now.chunks == [] && m.headers.HeadersAnswer?
    requires k <= |BodyRelay(m, Response, hasTrailers)|
    ensures var relay := BodyRelay(m, Response, hasTrailers);
            var run := Run(s, Messages(h) + relay[..k]);
            var context := ContextOf(s, h.now.open, h.now.body.Whole(), h.now.upstream);
      && run.Running?
      && run.sent == Sent(s, h) +
           (if k == |relay| then Framed(s.onResponse(context, m.body), Response, hasTrailers) else [])
      && (run.state.BufferingResponse? <==> k < |relay|)
  {
    FramedArrivesWhole(m, Response, hasTrailers);
    ResponseUploadFinalizesOnce(s, h, FramedUpload(m.body, hasTrailers), k);
  }
}
