/** What a stream does, told cycle by cycle. A history records the raw headers and
    chunks of each cycle and nothing the stream keeps; what is sent is a
    stateless function of each cycle. The stream with its reused buffer refines
    this, for every sequence of messages. */
module History {
  import opened Common
  import opened Wire
  import opened Rpc
  import opened Framing
  import opened HeaderValidation
  import opened Handler
  import opened StreamState

  /** The message that opens a cycle. */
  datatype Opening = Opening(headers: HeaderMap, endOfStream: bool, walk: Walk)

  /** How a body ends: with a final chunk, or with trailers. */
  datatype Ending = WithChunk(last: Bytes) | WithTrailers

  datatype Upload = Upload(chunks: seq<Bytes>, ending: Ending) {
    function Whole(): Bytes {
      Concat(chunks) + (if ending.WithChunk? then ending.last else [])
    }

    predicate HasTrailers() { ending.WithTrailers? }
  }

  /** The complete cycles. */
  datatype Cycle =
    | Refused(open: Opening)                       // not a POST
    | Blocked(open: Opening)                       // host refused, no body
    | BlockedAfterBody(open: Opening, body: Upload)
    | Bodyless(open: Opening)
    | EmptyUpstream(open: Opening, body: Upload, upstream: HeaderMap)
    | Translated(open: Opening, body: Upload, upstream: HeaderMap, reply: Upload)

  /** A cycle under way. */
  datatype Partial =
    | Idle
    | Draining(open: Opening, chunks: seq<Bytes>)
    | Uploading(open: Opening, chunks: seq<Bytes>)
    | Forwarded(open: Opening, body: Upload)
    | Downloading(open: Opening, body: Upload, upstream: HeaderMap, chunks: seq<Bytes>)

  datatype History = History(done: seq<Cycle>, now: Partial)

  const NOTHING := History([], Idle)

  // ------------------------------------------------------------ the messages

  function OpeningMessage(o: Opening): Inbound {
    RequestHeaders(o.headers, o.endOfStream, o.walk)
  }

  function ChunkMessages(direction: Direction, chunks: seq<Bytes>): seq<Inbound> {
    seq(|chunks|, i requires 0 <= i < |chunks| => Body(direction, chunks[i], false))
  }

  function EndingMessage(direction: Direction, ending: Ending): Inbound {
    match ending
    case WithChunk(last) => Body(direction, last, true)
    case WithTrailers => Trailers(direction)
  }

  function UploadMessages(direction: Direction, u: Upload): seq<Inbound> {
    ChunkMessages(direction, u.chunks) + [EndingMessage(direction, u.ending)]
  }

  /** An opening and the chunks received after it. */
  function OpenedMessages(o: Opening, chunks: seq<Bytes>): seq<Inbound> {
    [OpeningMessage(o)] + ChunkMessages(Request, chunks)
  }

  /** An opening and the whole request body. */
  function UploadedMessages(o: Opening, u: Upload): seq<Inbound> {
    OpenedMessages(o, u.chunks) + [EndingMessage(Request, u.ending)]
  }

  /** A whole request, response headers and the chunks received after them. */
  function AnsweredMessages(o: Opening, u: Upload, upstream: HeaderMap, chunks: seq<Bytes>): seq<Inbound> {
    UploadedMessages(o, u) + [ResponseHeaders(upstream, false)] + ChunkMessages(Response, chunks)
  }

  function PartialMessages(p: Partial): seq<Inbound> {
    match p
    case Idle => []
    case Draining(o, chunks) => OpenedMessages(o, chunks)
    case Uploading(o, chunks) => OpenedMessages(o, chunks)
    case Forwarded(o, u) => UploadedMessages(o, u)
    case Downloading(o, u, h, chunks) => AnsweredMessages(o, u, h, chunks)
  }

  function CycleMessages(c: Cycle): seq<Inbound> {
    match c
    case Refused(o) => [OpeningMessage(o)]
    case Blocked(o) => [OpeningMessage(o)]
    case BlockedAfterBody(o, u) => UploadedMessages(o, u)
    case Bodyless(o) => [OpeningMessage(o)]
    case EmptyUpstream(o, u, h) => UploadedMessages(o, u) + [ResponseHeaders(h, true)]
    case Translated(o, u, h, v) => AnsweredMessages(o, u, h, v.chunks) + [EndingMessage(Response, v.ending)]
  }

  function DoneMessages(done: seq<Cycle>): seq<Inbound> {
    if done == [] then [] else DoneMessages(done[..|done| - 1]) + CycleMessages(done[|done| - 1])
  }

  function Messages(h: History): seq<Inbound> {
    DoneMessages(h.done) + PartialMessages(h.now)
  }

  // ------------------------------------------------------- the legal cycles

  predicate IsBlocked(s: Service, o: Opening) {
    !NotPost(o.headers) && !s.hostAllowed(o.headers)
  }

  predicate IsAdmitted(s: Service, o: Opening) {
    !NotPost(o.headers) && s.hostAllowed(o.headers)
  }

  /** The handler's verdict on a whole request body. */
  function Handled(s: Service, o: Opening, body: Bytes): ProcResponse {
    s.onRequest(body, Captured(o.headers), o.walk)
  }

  /** The request was rerouted and has a valid id, so its response is awaited. */
  predicate AwaitsResponse(s: Service, o: Opening, body: Bytes) {
    ContextAfter(Handled(s, o, body)).IsToolCall()
  }

  predicate LegalCycle(s: Service, c: Cycle) {
    match c
    case Refused(o) => NotPost(o.headers)
    case Blocked(o) => IsBlocked(s, o) && o.endOfStream
    case BlockedAfterBody(o, u) => IsBlocked(s, o) && !o.endOfStream
    case Bodyless(o) => IsAdmitted(s, o) && o.endOfStream
    case EmptyUpstream(o, u, _) => IsAdmitted(s, o) && !o.endOfStream && AwaitsResponse(s, o, u.Whole())
    case Translated(o, u, _, _) => IsAdmitted(s, o) && !o.endOfStream && AwaitsResponse(s, o, u.Whole())
  }

  predicate LegalPartial(s: Service, p: Partial) {
    match p
    case Idle => true
    case Draining(o, _) => IsBlocked(s, o) && !o.endOfStream
    case Uploading(o, _) => IsAdmitted(s, o) && !o.endOfStream
    case Forwarded(o, _) => IsAdmitted(s, o) && !o.endOfStream
    case Downloading(o, u, _, _) => IsAdmitted(s, o) && !o.endOfStream && AwaitsResponse(s, o, u.Whole())
  }

  ghost predicate Legal(s: Service, h: History) {
    (forall c :: c in h.done ==> LegalCycle(s, c)) && LegalPartial(s, h.now)
  }

  /** The end of a stream that can take no further message. */
  predicate IsFinal(s: Service, p: Partial) {
    p.Forwarded? && !AwaitsResponse(s, p.open, p.body.Whole())
  }

  // --------------------------------------------------- what a cycle sends

  /** Sent when the request body `body` has ended. */
  function Forwarding(s: Service, o: Opening, body: Bytes, hasTrailers: bool): seq<Answer> {
    RequestAnswers(Handled(s, o, body), hasTrailers)
  }

  /** The context the response is translated in. */
  function ContextOf(s: Service, o: Opening, body: Bytes, upstream: HeaderMap): RequestContext {
    WithStatus(ContextAfter(Handled(s, o, body)), upstream)
  }

  /** A stateless function of the cycle's headers, whole bodies and trailer
      flags. */
  function CycleAnswers(s: Service, c: Cycle): seq<Answer> {
    match c
    case Refused(_) => MethodNotAllowedResponse()
    case Blocked(_) => ForbiddenResponse()
    case BlockedAfterBody(_, _) => ForbiddenResponse()
    case Bodyless(_) => s.bodyless
    case EmptyUpstream(o, u, h) =>
      Forwarding(s, o, u.Whole(), u.HasTrailers()) + s.onEmptyResponse(ContextOf(s, o, u.Whole(), h))
    case Translated(o, u, h, v) =>
      Forwarding(s, o, u.Whole(), u.HasTrailers())
      + Framed(s.onResponse(ContextOf(s, o, u.Whole(), h), v.Whole()), Response, v.HasTrailers())
  }

  function PartialAnswers(s: Service, p: Partial): seq<Answer> {
    match p
    case Forwarded(o, u) => Forwarding(s, o, u.Whole(), u.HasTrailers())
    case Downloading(o, u, _, _) => Forwarding(s, o, u.Whole(), u.HasTrailers())
    case _ => []
  }

  function DoneAnswers(s: Service, done: seq<Cycle>): seq<Answer> {
    if done == [] then [] else DoneAnswers(s, done[..|done| - 1]) + CycleAnswers(s, done[|done| - 1])
  }

  function Sent(s: Service, h: History): seq<Answer> {
    DoneAnswers(s, h.done) + PartialAnswers(s, h.now)
  }

  // ----------------------------------------------- one message at a time

  /** What a message does to a cycle under way. */
  datatype Advance = Refuse | Finish(cycle: Cycle) | GoOn(partial: Partial)

  function Advanced(s: Service, p: Partial, m: Inbound): Advance {
    match p
    case Idle =>
      if !m.RequestHeaders? then Refuse
      else
        var o := Opening(m.headers, m.endOfStream, m.walk);
        if NotPost(o.headers) then Finish(Refused(o))
        else if !s.hostAllowed(o.headers) then
          if o.endOfStream then Finish(Blocked(o)) else GoOn(Draining(o, []))
        else if o.endOfStream then Finish(Bodyless(o))
        else GoOn(Uploading(o, []))
    case Draining(o, chunks) =>
      if EndsBody(m, Request) then Finish(BlockedAfterBody(o, Upload(chunks, EndOf(m))))
      else if IsChunk(m, Request) then GoOn(Draining(o, chunks + [m.chunk]))
      else Refuse
    case Uploading(o, chunks) =>
      if EndsBody(m, Request) then GoOn(Forwarded(o, Upload(chunks, EndOf(m))))
      else if IsChunk(m, Request) then GoOn(Uploading(o, chunks + [m.chunk]))
      else Refuse
    case Forwarded(o, u) =>
      if !m.ResponseHeaders? || !AwaitsResponse(s, o, u.Whole()) then Refuse
      else if m.endOfStream then Finish(EmptyUpstream(o, u, m.headers))
      else GoOn(Downloading(o, u, m.headers, []))
    case Downloading(o, u, headers, chunks) =>
      if EndsBody(m, Response) then Finish(Translated(o, u, headers, Upload(chunks, EndOf(m))))
      else if IsChunk(m, Response) then GoOn(Downloading(o, u, headers, chunks + [m.chunk]))
      else Refuse
  }

  predicate IsChunk(m: Inbound, direction: Direction) {
    m.Body? && m.direction == direction && !m.endOfStream
  }

  predicate EndsBody(m: Inbound, direction: Direction) {
    (m.Body? && m.direction == direction && m.endOfStream) || (m.Trailers? && m.direction == direction)
  }

  /** How `m` ends a body. */
  function EndOf(m: Inbound): Ending {
    if m.Body? then WithChunk(m.chunk) else WithTrailers
  }

  lemma AdvancedMessages(s: Service, p: Partial, m: Inbound)
    ensures match Advanced(s, p, m)
      case Refuse => true
      case Finish(c) => CycleMessages(c) == PartialMessages(p) + [m]
      case GoOn(p') => PartialMessages(p') == PartialMessages(p) + [m]
  {
    match p {
      case Idle =>
        assert ChunkMessages(Request, []) == [];
      case Draining(o, chunks) =>
        if IsChunk(m, Request) { OpenedOneMore(o, chunks, m.chunk); }
      case Uploading(o, chunks) =>
        if IsChunk(m, Request) { OpenedOneMore(o, chunks, m.chunk); }
      case Forwarded(o, u) =>
        assert ChunkMessages(Response, []) == [];
      case Downloading(o, u, headers, chunks) =>
        if IsChunk(m, Response) { AnsweredOneMore(o, u, headers, chunks, m.chunk); }
    }
  }

  lemma OpenedOneMore(o: Opening, chunks: seq<Bytes>, chunk: Bytes)
    ensures OpenedMessages(o, chunks + [chunk]) == OpenedMessages(o, chunks) + [Body(Request, chunk, false)]
  {
    assert ChunkMessages(Request, chunks + [chunk]) == ChunkMessages(Request, chunks) + [Body(Request, chunk, false)];
  }

  lemma AnsweredOneMore(o: Opening, u: Upload, upstream: HeaderMap, chunks: seq<Bytes>, chunk: Bytes)
    ensures AnsweredMessages(o, u, upstream, chunks + [chunk])
         == AnsweredMessages(o, u, upstream, chunks) + [Body(Response, chunk, false)]
  {
    assert ChunkMessages(Response, chunks + [chunk]) == ChunkMessages(Response, chunks) + [Body(Response, chunk, false)];
  }

  lemma AdvancedIsLegal(s: Service, p: Partial, m: Inbound)
    requires LegalPartial(s, p)
    ensures match Advanced(s, p, m)
      case Refuse => true
      case Finish(c) => LegalCycle(s, c)
      case GoOn(p') => LegalPartial(s, p') && !p'.Idle?
  {
  }

  /** The history with one more message, or None if the grammar refuses it. */
  function Extended(s: Service, h: History, m: Inbound): Option<History> {
    match Advanced(s, h.now, m)
    case Refuse => None
    case Finish(c) => Some(Completed(h, c))
    case GoOn(p) => Some(h.(now := p))
  }

  function Completed(h: History, c: Cycle): History {
    History(h.done + [c], Idle)
  }

  lemma CompletedParts(s: Service, h: History, c: Cycle)
    ensures DoneMessages(Completed(h, c).done) == DoneMessages(h.done) + CycleMessages(c)
    ensures DoneAnswers(s, Completed(h, c).done) == DoneAnswers(s, h.done) + CycleAnswers(s, c)
    ensures Messages(Completed(h, c)) == DoneMessages(h.done) + CycleMessages(c)
    ensures Sent(s, Completed(h, c)) == DoneAnswers(s, h.done) + CycleAnswers(s, c)
  {
    assert (h.done + [c])[..|h.done|] == h.done;
  }

  /** Extending a legal history by a message gives a legal history of one more
      message. */
  lemma ExtendedIsLegal(s: Service, h: History, m: Inbound)
    requires Legal(s, h) && Extended(s, h, m).Some?
    ensures Legal(s, Extended(s, h, m).value)
    ensures Messages(Extended(s, h, m).value) == Messages(h) + [m]
  {
    AdvancedIsLegal(s, h.now, m);
    AdvancedMessages(s, h.now, m);
    Associates(DoneMessages(h.done), PartialMessages(h.now), [m]);
    match Advanced(s, h.now, m) {
      case Finish(c) => CompletedParts(s, h, c);
      case GoOn(p) =>
    }
  }

  // ---------------------------------------------------------- refinement

  /** The stream's state and buffer for a cycle under way. Outside a buffering
      phase the buffer may hold anything. */
  ghost predicate Represents(s: Service, p: Partial, state: State, buf: Bytes) {
    match p
    case Idle => state == AwaitingRequestHeaders
    case Draining(_, _) => state == DrainingRequest(ForbiddenResponse())
    case Uploading(o, chunks) => state == BufferingRequest(Captured(o.headers), o.walk) && buf == Concat(chunks)
    case Forwarded(o, u) => state == AwaitingResponseHeaders(ContextAfter(Handled(s, o, u.Whole())))
    case Downloading(o, u, h, chunks) => state == BufferingResponse(ContextOf(s, o, u.Whole(), h)) && buf == Concat(chunks)
  }

  /** What one message does to the stream is what it does to the cycle: it is
      refused alike, and what is sent is what the cycle's answers gain. */
  ghost predicate Matches(s: Service, p: Partial, m: Inbound, move: Move) {
    match Advanced(s, p, m)
    case Refuse => move == Violation
    case Finish(c) =>
      move.Move? && move.next == AwaitingRequestHeaders && CycleAnswers(s, c) == PartialAnswers(s, p) + move.answers
    case GoOn(p') =>
      move.Move? && Represents(s, p', move.next, move.buf) && PartialAnswers(s, p') == PartialAnswers(s, p) + move.answers
  }

  lemma StepMatches(s: Service, p: Partial, state: State, buf: Bytes, m: Inbound)
    requires Represents(s, p, state, buf)
    ensures Matches(s, p, m, Transition(s, state, buf, m))
  {
    match p {
      case Idle =>
      case Draining(_, _) =>
      case Uploading(o, chunks) => UploadingStep(s, o, chunks, buf, m);
      case Forwarded(o, u) =>
      case Downloading(o, u, h, chunks) => DownloadingStep(s, o, u, h, chunks, buf, m);
    }
  }

  lemma WholeUpload(chunks: seq<Bytes>, m: Inbound)
    ensures Upload(chunks, EndOf(m)).Whole() == if m.Body? then Concat(chunks) + m.chunk else Concat(chunks)
    ensures m.Body? ==> Concat(chunks + [m.chunk]) == Concat(chunks) + m.chunk
  {
    if m.Body? {
      ConcatSnoc(chunks, m.chunk);
    }
  }

  lemma UploadingStep(s: Service, o: Opening, chunks: seq<Bytes>, buf: Bytes, m: Inbound)
    requires buf == Concat(chunks)
    ensures Matches(s, Uploading(o, chunks), m, WhileBufferingRequest(s, Captured(o.headers), o.walk, buf, m))
  {
    WholeUpload(chunks, m);
  }

  lemma DownloadingStep(s: Service, o: Opening, u: Upload, upstream: HeaderMap, chunks: seq<Bytes>, buf: Bytes, m: Inbound)
    requires buf == Concat(chunks)
    ensures Matches(s, Downloading(o, u, upstream, chunks), m,
                    WhileBufferingResponse(s, ContextOf(s, o, u.Whole(), upstream), buf, m))
  {
    WholeUpload(chunks, m);
    if EndsBody(m, Response) {
      DownloadEnds(s, o, u, upstream, Upload(chunks, EndOf(m)), m);
    }
  }

  lemma DownloadEnds(s: Service, o: Opening, u: Upload, upstream: HeaderMap, v: Upload, m: Inbound)
    requires EndsBody(m, Response) && v.ending == EndOf(m)
    ensures Matches(s, Downloading(o, u, upstream, v.chunks), m,
                    FinalizedResponse(s, ContextOf(s, o, u.Whole(), upstream), v.Whole(), v.HasTrailers()))
  {
    assert v == Upload(v.chunks, EndOf(m));
  }

  lemma SentOfCompleted(s: Service, h: History, c: Cycle, answers: seq<Answer>)
    requires CycleAnswers(s, c) == PartialAnswers(s, h.now) + answers
    ensures Sent(s, Completed(h, c)) == Sent(s, h) + answers
  {
    CompletedParts(s, h, c);
    Associates(DoneAnswers(s, h.done), PartialAnswers(s, h.now), answers);
  }

  lemma SentOfContinued(s: Service, h: History, p: Partial, answers: seq<Answer>)
    requires PartialAnswers(s, p) == PartialAnswers(s, h.now) + answers
    ensures Sent(s, h.(now := p)) == Sent(s, h) + answers
  {
    Associates(DoneAnswers(s, h.done), PartialAnswers(s, h.now), answers);
  }

  lemma SentOfExtended(s: Service, h: History, m: Inbound, move: Move)
    requires Matches(s, h.now, m, move) && move.Move?
    ensures Extended(s, h, m).Some? && Sent(s, Extended(s, h, m).value) == Sent(s, h) + move.answers
  {
    match Advanced(s, h.now, m) {
      case Finish(c) => SentOfCompleted(s, h, c, move.answers);
      case GoOn(p) => SentOfContinued(s, h, p, move.answers);
    }
  }

  /** The history of the longest prefix the grammar accepts, and what follows. */
  datatype Reading = Reading(history: History, rest: seq<Inbound>)

  function Read(s: Service, ms: seq<Inbound>): Reading {
    if ms == [] then Reading(NOTHING, [])
    else
      var before, m := Read(s, ms[..|ms| - 1]), ms[|ms| - 1];
      if before.rest != [] then before.(rest := before.rest + [m])
      else
        match Extended(s, before.history, m)
        case None => before.(rest := [m])
        case Some(h) => Reading(h, [])
  }

  lemma ReadOneMore(s: Service, before: Reading, ms: seq<Inbound>, m: Inbound)
    requires Legal(s, before.history) && ms == Messages(before.history) + before.rest
    ensures before.rest != [] ==> ms + [m] == Messages(before.history) + (before.rest + [m])
    ensures before.rest == [] && Extended(s, before.history, m).Some? ==>
      && Legal(s, Extended(s, before.history, m).value)
      && ms + [m] == Messages(Extended(s, before.history, m).value)
    ensures before.rest == [] ==> ms + [m] == Messages(before.history) + [m]
  {
    Associates(Messages(before.history), before.rest, [m]);
    if before.rest == [] {
      assert ms == Messages(before.history);
      if Extended(s, before.history, m).Some? {
        ExtendedIsLegal(s, before.history, m);
      }
    }
  }

  /** The longest accepted prefix is told by a legal history. */
  lemma {:induction false} ReadIsLegal(s: Service, ms: seq<Inbound>)
    ensures Legal(s, Read(s, ms).history)
    ensures ms == Messages(Read(s, ms).history) + Read(s, ms).rest
  {
    if ms != [] {
      var init, m := ms[..|ms| - 1], ms[|ms| - 1];
      ReadIsLegal(s, init);
      assert ms == init + [m];
      ReadOneMore(s, Read(s, init), init, m);
    }
  }

  lemma {:induction false} RestIsRefused(s: Service, ms: seq<Inbound>)
    ensures Read(s, ms).rest != [] ==> Extended(s, Read(s, ms).history, Read(s, ms).rest[0]).None?
  {
    if ms != [] {
      RestIsRefused(s, ms[..|ms| - 1]);
    }
  }

  /** The stream stops exactly when the grammar refuses, and until then is in the
      state of the history read. */
  lemma {:induction false} RunFollowsReading(s: Service, ms: seq<Inbound>)
    ensures var r, run := Read(s, ms), Run(s, ms);
      && (run.Stopped? <==> r.rest != [])
      && (run.Running? ==> Represents(s, r.history.now, run.state, run.buf))
  {
    if ms != [] {
      var init, m := ms[..|ms| - 1], ms[|ms| - 1];
      RunFollowsReading(s, init);
      if Run(s, init).Running? {
        StepMatches(s, Read(s, init).history.now, Run(s, init).state, Run(s, init).buf, m);
      }
    }
  }

  lemma {:induction false} RunSendsReading(s: Service, ms: seq<Inbound>)
    ensures Run(s, ms).sent == Sent(s, Read(s, ms).history)
  {
    if ms != [] {
      var init, m := ms[..|ms| - 1], ms[|ms| - 1];
      RunSendsReading(s, init);
      RunFollowsReading(s, init);
      var run, h := Run(s, init), Read(s, init).history;
      if run.Running? {
        var move := Transition(s, run.state, run.buf, m);
        StepMatches(s, h.now, run.state, run.buf, m);
        if move.Move? {
          SentOfExtended(s, h, m, move);
        }
      }
    }
  }

  /** For every sequence of messages the stream sends exactly what the cycles it
      read call for, and stops exactly at the first message that does not fit. */
  lemma RunRefinesHistory(s: Service, ms: seq<Inbound>)
    ensures var r := Read(s, ms);
      && Legal(s, r.history)
      && ms == Messages(r.history) + r.rest
      && Run(s, ms).sent == Sent(s, r.history)
      && (Run(s, ms).Stopped? <==> r.rest != [])
      && (r.rest != [] ==> Extended(s, r.history, r.rest[0]).None?)
      && (Run(s, ms).Running? ==> Represents(s, r.history.now, Run(s, ms).state, Run(s, ms).buf))
  {
    ReadIsLegal(s, ms);
    RestIsRefused(s, ms);
    RunFollowsReading(s, ms);
    RunSendsReading(s, ms);
  }

  // ----------------------------------------------------- accepted language

  /** The cycle before its last message, and that message. */
  function LastOfCycle(c: Cycle): (Partial, Inbound) {
    match c
    case BlockedAfterBody(o, u) => (Draining(o, u.chunks), EndingMessage(Request, u.ending))
    case EmptyUpstream(o, u, headers) => (Forwarded(o, u), ResponseHeaders(headers, true))
    case Translated(o, u, headers, v) => (Downloading(o, u, headers, v.chunks), EndingMessage(Response, v.ending))
    case _ => (Idle, OpeningMessage(c.open))
  }

  lemma CycleRetracts(s: Service, c: Cycle)
    requires LegalCycle(s, c)
    ensures var (p, m) := LastOfCycle(c); LegalPartial(s, p) && Advanced(s, p, m) == Finish(c)
  {
  }

  function LastOfPartial(p: Partial): (Partial, Inbound)
    requires !p.Idle?
  {
    match p
    case Draining(o, chunks) =>
      if chunks == [] then (Idle, OpeningMessage(o))
      else (Draining(o, chunks[..|chunks| - 1]), Body(Request, chunks[|chunks| - 1], false))
    case Uploading(o, chunks) =>
      if chunks == [] then (Idle, OpeningMessage(o))
      else (Uploading(o, chunks[..|chunks| - 1]), Body(Request, chunks[|chunks| - 1], false))
    case Forwarded(o, u) => (Uploading(o, u.chunks), EndingMessage(Request, u.ending))
    case Downloading(o, u, headers, chunks) =>
      if chunks == [] then (Forwarded(o, u), ResponseHeaders(headers, false))
      else (Downloading(o, u, headers, chunks[..|chunks| - 1]), Body(Response, chunks[|chunks| - 1], false))
  }

  lemma PartialRetracts(s: Service, p: Partial)
    requires LegalPartial(s, p) && !p.Idle?
    ensures var (p', m) := LastOfPartial(p); LegalPartial(s, p') && Advanced(s, p', m) == GoOn(p)
  {
    if !p.Forwarded? {
      assert p.chunks != [] ==> p.chunks == p.chunks[..|p.chunks| - 1] + [p.chunks[|p.chunks| - 1]];
    }
  }

  /** Every legal history but the empty one extends another by one message. */
  lemma Retracts(s: Service, h: History) returns (before: History, m: Inbound)
    requires Legal(s, h) && h != NOTHING
    ensures Legal(s, before) && Extended(s, before, m) == Some(h)
  {
    if h.now.Idle? {
      var last := |h.done| - 1;
      assert h.done[last] in h.done;
      CycleRetracts(s, h.done[last]);
      var (p, message) := LastOfCycle(h.done[last]);
      before, m := History(h.done[..last], p), message;
      assert h.done == h.done[..last] + [h.done[last]];
    } else {
      PartialRetracts(s, h.now);
      var (p, message) := LastOfPartial(h.now);
      before, m := h.(now := p), message;
    }
  }

  /** Reading the messages of a legal history gives back that history. */
  lemma {:induction false} ReadOfMessages(s: Service, h: History)
    requires Legal(s, h)
    ensures Read(s, Messages(h)) == Reading(h, [])
    decreases |Messages(h)|
  {
    if h != NOTHING {
      var before, m := Retracts(s, h);
      ExtendedIsLegal(s, before, m);
      ReadOfMessages(s, before);
      assert Messages(h)[..|Messages(h)| - 1] == Messages(before);
    }
  }

  /** The run on the messages of a legal history. */
  lemma RunOfMessages(s: Service, h: History)
    requires Legal(s, h)
    ensures var run := Run(s, Messages(h));
      run.Running? && run.sent == Sent(s, h) && Represents(s, h.now, run.state, run.buf)
  {
    ReadOfMessages(s, h);
    RunRefinesHistory(s, Messages(h));
  }

  /** The accepted language: a stream runs without a violation exactly if its
      messages are those of complete legal cycles followed by one legal cycle
      under way. */
  lemma AcceptedExactlyIfLegal(s: Service, ms: seq<Inbound>)
    ensures Run(s, ms).Running? <==> exists h :: Legal(s, h) && Messages(h) == ms
  {
    RunRefinesHistory(s, ms);
    if Run(s, ms).Running? {
      assert Messages(Read(s, ms).history) == ms;
    }
    if h :| Legal(s, h) && Messages(h) == ms {
      ReadOfMessages(s, h);
    }
  }

  /** The same messages cannot be told as two different histories. */
  lemma HistoryIsUnique(s: Service, h: History, h': History)
    requires Legal(s, h) && Legal(s, h') && Messages(h) == Messages(h')
    ensures h == h'
  {
    ReadOfMessages(s, h);
    ReadOfMessages(s, h');
  }

  /** A cycle that has ended for good or can be brought to its end. */
  lemma CanBeFinished(s: Service, h: History) returns (suffix: seq<Inbound>, end: History)
    requires Legal(s, h)
    ensures Legal(s, end) && Messages(end) == Messages(h) + suffix
    ensures end.now.Idle? || IsFinal(s, end.now)
  {
    suffix, end := [], h;
    if end.now.Draining? || end.now.Uploading? {
      ExtendedIsLegal(s, end, Trailers(Request));
      suffix, end := suffix + [Trailers(Request)], Extended(s, end, Trailers(Request)).value;
    }
    if end.now.Forwarded? && !IsFinal(s, end.now) {
      ExtendedIsLegal(s, end, ResponseHeaders([], true));
      suffix, end := suffix + [ResponseHeaders([], true)], Extended(s, end, ResponseHeaders([], true)).value;
    }
    if end.now.Downloading? {
      ExtendedIsLegal(s, end, Trailers(Response));
      suffix, end := suffix + [Trailers(Response)], Extended(s, end, Trailers(Response)).value;
    }
  }

  /** In other words: exactly the prefixes of a complete conversation, that is, of
      legal cycles that all have ended, or of which the last has reached the end
      of the stream. */
  lemma AcceptedExactlyIfPrefix(s: Service, ms: seq<Inbound>)
    ensures Run(s, ms).Running? <==>
      exists end, suffix :: Legal(s, end) && (end.now.Idle? || IsFinal(s, end.now)) && Messages(end) == ms + suffix
  {
    AcceptedExactlyIfLegal(s, ms);
    if Run(s, ms).Running? {
      var h :| Legal(s, h) && Messages(h) == ms;
      var suffix, end := CanBeFinished(s, h);
      assert Messages(end) == ms + suffix;
    }
    if end, suffix :| Legal(s, end) && (end.now.Idle? || IsFinal(s, end.now)) && Messages(end) == ms + suffix {
      RunOfMessages(s, end);
      assert (ms + suffix)[..|ms|] == ms;
      if Run(s, ms).Stopped? {
        StaysStopped(s, ms + suffix, |ms|);
      }
    }
  }

  // ----------------------------------------------------- three special ends

  /** Once the body phase has left no response to await, every later message is a
      violation. These are the only final positions of a stream. */
  lemma FinalExactlyIfRefusesAll(s: Service, h: History)
    requires Legal(s, h)
    ensures IsFinal(s, h.now) <==> forall m :: Run(s, Messages(h) + [m]).Stopped?
  {
    forall m ensures Run(s, Messages(h) + [m]).Stopped? <==> Extended(s, h, m).None? {
      RunOfOneMore(s, h, m);
    }
    if !IsFinal(s, h.now) {
      var m := match h.now
        case Idle => RequestHeaders([], true, SomeWalk())
        case Draining(_, _) => Trailers(Request)
        case Uploading(_, _) => Trailers(Request)
        case Forwarded(_, _) => ResponseHeaders([], true)
        case Downloading(_, _, _, _) => Trailers(Response);
      assert Extended(s, h, m).Some?;
    }
  }

  /** The run on one message more than a legal history's. */
  lemma RunOfOneMore(s: Service, h: History, m: Inbound)
    requires Legal(s, h)
    ensures Run(s, Messages(h) + [m]).Stopped? <==> Extended(s, h, m).None?
  {
    RunOfMessages(s, h);
    var run := Run(s, Messages(h));
    StepMatches(s, h.now, run.state, run.buf, m);
    assert (Messages(h) + [m])[..|Messages(h)|] == Messages(h);
  }

  /** The server's body phase leaves no response to await exactly if it answered
      itself or rerouted a call without a valid id. */
  lemma AwaitsResponseExactlyIf(server: Server, o: Opening, body: Bytes)
    ensures var r := McpRequestHandler(server, body, Captured(o.headers), o.walk);
      AwaitsResponse(ServiceOf(server), o, body) <==> r.reroute.Some? && r.id.IsValid()
  {
    ExactlyOneOutcome(server, body, Captured(o.headers), o.walk);
  }

  /** So after an immediate answer from the body phase, and after a tool call
      without a valid id has been sent on, every later message is refused, even
      the upstream's answer to that call. */
  lemma NothingAfterOwnAnswer(server: Server, h: History, m: Inbound)
    requires Legal(ServiceOf(server), h) && h.now.Forwarded?
    requires var r := McpRequestHandler(server, h.now.body.Whole(), Captured(h.now.open.headers), h.now.open.walk);
      r.reroute.None? || !r.id.IsValid()
    ensures Run(ServiceOf(server), Messages(h)).Running?
    ensures Run(ServiceOf(server), Messages(h) + [m]).Stopped?
  {
    AwaitsResponseExactlyIf(server, h.now.open, h.now.body.Whole());
    RunOfMessages(ServiceOf(server), h);
    FinalExactlyIfRefusesAll(ServiceOf(server), h);
  }

  ghost function SomeWalk(): Walk {
    Walk(keys => SomeListing(keys), keys => SomeListing(keys))
  }

  /** A request that is not a POST is answered without draining: whatever the
      headers said about a body, only a new cycle may follow. */
  lemma RefusedIsNotDrained(s: Service, h: History, o: Opening, m: Inbound)
    requires Legal(s, h) && h.now.Idle? && NotPost(o.headers)
    ensures var after := Completed(h, Refused(o));
      && Messages(after) == Messages(h) + [OpeningMessage(o)]
      && Run(s, Messages(after)).Running?
      && Run(s, Messages(after)).sent == Sent(s, h) + MethodNotAllowedResponse()
      && (Run(s, Messages(after) + [m]).Stopped? <==> !m.RequestHeaders?)
  {
    var after := Completed(h, Refused(o));
    assert Extended(s, h, OpeningMessage(o)) == Some(after);
    ExtendedIsLegal(s, h, OpeningMessage(o));
    RunOfMessages(s, after);
    RunOfOneMore(s, after, m);
    RefusedSent(s, h, o);
  }

  lemma RefusedSent(s: Service, h: History, o: Opening)
    requires h.now.Idle?
    ensures Sent(s, Completed(h, Refused(o))) == Sent(s, h) + MethodNotAllowedResponse()
  {
    CompletedParts(s, h, Refused(o));
  }

  // ------------------------------------------------- chunks do not matter

  predicate SameBody(u: Upload, v: Upload) {
    u.Whole() == v.Whole() && u.HasTrailers() == v.HasTrailers()
  }

  /** The same cycle, its bodies cut into chunks differently. */
  ghost predicate Rechunked(c: Cycle, d: Cycle) {
    match (c, d)
    case (Refused(o), Refused(o')) => o == o'
    case (Blocked(o), Blocked(o')) => o == o'
    case (Bodyless(o), Bodyless(o')) => o == o'
    case (BlockedAfterBody(o, u), BlockedAfterBody(o', u')) => o == o' && SameBody(u, u')
    case (EmptyUpstream(o, u, h), EmptyUpstream(o', u', h')) => o == o' && SameBody(u, u') && h == h'
    case (Translated(o, u, h, v), Translated(o', u', h', v')) => o == o' && SameBody(u, u') && h == h' && SameBody(v, v')
    case _ => false
  }

  lemma RechunkedCycle(s: Service, c: Cycle, d: Cycle)
    requires Rechunked(c, d)
    ensures CycleAnswers(s, c) == CycleAnswers(s, d)
  {
  }

  lemma {:induction false} RechunkedAnswers(s: Service, a: seq<Cycle>, b: seq<Cycle>)
    requires |a| == |b| && forall i :: 0 <= i < |a| ==> Rechunked(a[i], b[i])
    ensures DoneAnswers(s, a) == DoneAnswers(s, b)
  {
    if a != [] {
      var k := |a| - 1;
      RechunkedAnswers(s, a[..k], b[..k]);
      RechunkedCycle(s, a[k], b[k]);
    }
  }

  /** The same cycle under way, cut into chunks differently. */
  ghost predicate RechunkedPartial(p: Partial, q: Partial) {
    match (p, q)
    case (Idle, Idle) => true
    case (Draining(o, _), Draining(o', _)) => o == o'
    case (Uploading(o, cs), Uploading(o', cs')) => o == o' && Concat(cs) == Concat(cs')
    case (Forwarded(o, u), Forwarded(o', u')) => o == o' && SameBody(u, u')
    case (Downloading(o, u, h, cs), Downloading(o', u', h', cs')) =>
      o == o' && SameBody(u, u') && h == h' && Concat(cs) == Concat(cs')
    case _ => false
  }

  /** Two runs through the same cycles have sent the same and are in the same
      state, however the bodies were cut into chunks. */
  lemma ChunkingIsInvisible(s: Service, a: History, b: History)
    requires Legal(s, a) && Legal(s, b)
    requires |a.done| == |b.done| && forall i :: 0 <= i < |a.done| ==> Rechunked(a.done[i], b.done[i])
    requires RechunkedPartial(a.now, b.now)
    ensures var run, run' := Run(s, Messages(a)), Run(s, Messages(b));
      && run.sent == run'.sent
      && run.Running? && run'.Running? && run.state == run'.state
      && (a.now.Uploading? || a.now.Downloading? ==> run.buf == run'.buf)
  {
    RechunkedAnswers(s, a.done, b.done);
    RunOfMessages(s, a);
    RunOfMessages(s, b);
    assert PartialAnswers(s, a.now) == PartialAnswers(s, b.now);
  }
}
