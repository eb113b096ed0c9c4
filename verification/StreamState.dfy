/** The ext_proc stream: five states, one reused body buffer, and the loop that
    drives them. stream_state.go and the Process loop of server.go. */
module StreamState {
  import opened Common
  import opened Wire
  import opened Rpc
  import opened Framing
  import opened HeaderValidation
  import opened Handler

  datatype State =
    | AwaitingRequestHeaders
    | DrainingRequest(reject: seq<Answer>)
    | BufferingRequest(mcpHeaders: McpRequestHeaders, walk: Walk)
    | AwaitingResponseHeaders(request: RequestContext)
    | BufferingResponse(request: RequestContext)

  /** What a message does to a state and the bytes buffered so far. */
  datatype Move = Violation | Move(next: State, buf: Bytes, answers: seq<Answer>)

  predicate NotPost(headers: HeaderMap) {
    FindHeader(headers, ":method").Some? && FindHeader(headers, ":method").value != "POST"
  }

  function BodylessResponse(s: Server): seq<Answer> {
    ImmediateBodyResponse(EncodeError(s.lib, NoId, INVALID_REQUEST, None), 200)
  }

  /** What the stream asks of its server. The theorems about the stream hold for
      whatever the handlers do. */
  datatype Service = Service(
    hostAllowed: HeaderMap -> bool,
    bodyless: seq<Answer>,
    onRequest: (Bytes, McpRequestHeaders, Walk) -> ProcResponse,
    onResponse: (RequestContext, Bytes) -> StreamedMutation,
    onEmptyResponse: RequestContext -> seq<Answer>)

  function ServiceOf(s: Server): Service {
    Service(
      s.hostAllowed,
      BodylessResponse(s),
      (body: Bytes, hdrs: McpRequestHeaders, walk: Walk) => McpRequestHandler(s, body, hdrs, walk),
      (context: RequestContext, body: Bytes) => McpResponseHandler(s, context, body),
      (context: RequestContext) => BuildEndOfStreamResponse(s, context))
  }

  function OnRequestHeaders(s: Service, buf: Bytes, m: Inbound): Move {
    if !m.RequestHeaders? then Violation
    else if NotPost(m.headers) then Move(AwaitingRequestHeaders, buf, MethodNotAllowedResponse())
    else if !s.hostAllowed(m.headers) then
      if m.endOfStream then Move(AwaitingRequestHeaders, buf, ForbiddenResponse())
      else Move(DrainingRequest(ForbiddenResponse()), buf, [])
    else if m.endOfStream then Move(AwaitingRequestHeaders, buf, s.bodyless)
    else Move(BufferingRequest(Captured(m.headers), m.walk), [], [])
  }

  function WhileDraining(reject: seq<Answer>, buf: Bytes, m: Inbound): Move {
    if m.Body? && m.direction == Request then
      if m.endOfStream then Move(AwaitingRequestHeaders, buf, reject) else Move(DrainingRequest(reject), buf, [])
    else if m.Trailers? && m.direction == Request then Move(AwaitingRequestHeaders, buf, reject)
    else Violation
  }

  function ContextAfter(r: ProcResponse): RequestContext {
    RequestContext(r.id, r.config, 0, r.era)
  }

  function RequestAnswers(r: ProcResponse, hasTrailers: bool): seq<Answer> {
    if r.reroute.Some? then Framed(r.reroute.value, Request, hasTrailers) else r.immediate
  }

  function FinalizedRequest(s: Service, hdrs: McpRequestHeaders, walk: Walk, body: Bytes, hasTrailers: bool): Move {
    var r := s.onRequest(body, hdrs, walk);
    Move(AwaitingResponseHeaders(ContextAfter(r)), body, RequestAnswers(r, hasTrailers))
  }

  function WhileBufferingRequest(s: Service, hdrs: McpRequestHeaders, walk: Walk, buf: Bytes, m: Inbound): Move {
    if m.Body? && m.direction == Request then
      if m.endOfStream then FinalizedRequest(s, hdrs, walk, buf + m.chunk, false)
      else Move(BufferingRequest(hdrs, walk), buf + m.chunk, [])
    else if m.Trailers? && m.direction == Request then FinalizedRequest(s, hdrs, walk, buf, true)
    else Violation
  }

  function WithStatus(request: RequestContext, headers: HeaderMap): RequestContext {
    match ParseUpstreamStatusCode(headers)
    case None => request
    case Some(status) => request.(status := status)
  }

  function OnResponseHeaders(s: Service, request: RequestContext, buf: Bytes, m: Inbound): Move {
    if !m.ResponseHeaders? || !request.IsToolCall() then Violation
    else
      var context := WithStatus(request, m.headers);
      if m.endOfStream then Move(AwaitingRequestHeaders, buf, s.onEmptyResponse(context))
      else Move(BufferingResponse(context), [], [])
  }

  function FinalizedResponse(s: Service, request: RequestContext, body: Bytes, hasTrailers: bool): Move {
    Move(AwaitingRequestHeaders, body, Framed(s.onResponse(request, body), Response, hasTrailers))
  }

  function WhileBufferingResponse(s: Service, request: RequestContext, buf: Bytes, m: Inbound): Move {
    if m.Body? && m.direction == Response then
      if m.endOfStream then FinalizedResponse(s, request, buf + m.chunk, false)
      else Move(BufferingResponse(request), buf + m.chunk, [])
    else if m.Trailers? && m.direction == Response then FinalizedResponse(s, request, buf, true)
    else Violation
  }

  function Transition(s: Service, state: State, buf: Bytes, m: Inbound): Move {
    match state
    case AwaitingRequestHeaders => OnRequestHeaders(s, buf, m)
    case DrainingRequest(reject) => WhileDraining(reject, buf, m)
    case BufferingRequest(hdrs, walk) => WhileBufferingRequest(s, hdrs, walk, buf, m)
    case AwaitingResponseHeaders(request) => OnResponseHeaders(s, request, buf, m)
    case BufferingResponse(request) => WhileBufferingResponse(s, request, buf, m)
  }

  /** Where a stream is after some messages: still running, or stopped by a
      protocol violation. */
  datatype Progress = Running(state: State, buf: Bytes, sent: seq<Answer>) | Stopped(sent: seq<Answer>)

  function After(s: Service, p: Progress, m: Inbound): Progress {
    match p
    case Stopped(_) => p
    case Running(state, buf, sent) =>
      match Transition(s, state, buf, m)
      case Violation => Stopped(sent)
      case Move(next, buf', answers) => Running(next, buf', sent + answers)
  }

  const START := Running(AwaitingRequestHeaders, [], [])

  function RunFrom(s: Service, p: Progress, ms: seq<Inbound>): Progress {
    if ms == [] then p else After(s, RunFrom(s, p, ms[..|ms| - 1]), ms[|ms| - 1])
  }

  /** The whole run of a stream on the messages it receives. */
  function Run(s: Service, ms: seq<Inbound>): Progress {
    RunFrom(s, START, ms)
  }

  // ----------------------------------------------------- with a real buffer

  /** One turn's result; `None` is the protocol-violation error. */
  datatype Turn = Turn(next: State, reps: seq<Answer>)

  const INITIAL_BODY_BUF_CAP := 6144

  /** The stream object. Its buffer is a slice: the first `len` bytes of a backing
      array that is kept when the buffer is reset, so it holds stale bytes. */
  class Stream {
    const server: Server
    var backing: array<Byte>
    var len: nat

    ghost predicate Valid()
      reads this
    {
      len <= backing.Length
    }

    ghost function Contents(): Bytes
      reads this, backing
      requires Valid()
    {
      backing[..len]
    }

    constructor (server: Server)
      ensures Valid() && Contents() == [] && this.server == server && fresh(backing)
    {
      this.server := server;
      backing := new Byte[INITIAL_BODY_BUF_CAP];
      len := 0;
    }

    method BeginBuffering()
      requires Valid()
      modifies this
      ensures Valid() && Contents() == [] && backing == old(backing)
    {
      len := 0;
    }

    /** Go's append: in place while the chunk fits, otherwise into a larger array
        of whatever capacity the runtime chooses. */
    method Append(chunk: Bytes)
      requires Valid()
      modifies this, backing
      ensures Valid() && Contents() == old(Contents()) + chunk
      ensures backing == old(backing) || fresh(backing)
      ensures len <= old(backing.Length) ==> backing == old(backing)
    {
      if backing.Length < len + |chunk| {
        var capacity: nat :| len + |chunk| <= capacity;
        var larger := new Byte[capacity];
        forall i | 0 <= i < len {
          larger[i] := backing[i];
        }
        backing := larger;
      }
      ghost var contents := old(Contents());
      assert backing[..len] == contents;
      assert forall i :: 0 <= i < len ==> backing[i] == contents[i];
      forall i | len <= i < len + |chunk| {
        backing[i] := chunk[i - len];
      }
      assert forall i :: 0 <= i < len ==> backing[i] == contents[i];
      assert forall i :: len <= i < len + |chunk| ==> backing[i] == chunk[i - len];
      assert backing[..len + |chunk|] == contents + chunk;
      len := len + |chunk|;
    }

    method HandleRequestHeaders(m: Inbound) returns (turn: Option<Turn>)
      requires Valid()
      modifies this
      ensures Valid() && backing == old(backing)
      ensures Reports(turn, OnRequestHeaders(ServiceOf(server), old(Contents()), m))
    {
      if !m.RequestHeaders? {
        return None;
      }
      var httpMethod := FindHeader(m.headers, ":method");
      if httpMethod.Some? && httpMethod.value != "POST" {
        return Some(Turn(AwaitingRequestHeaders, MethodNotAllowedResponse()));
      }
      if !server.hostAllowed(m.headers) {
        if m.endOfStream {
          return Some(Turn(AwaitingRequestHeaders, ForbiddenResponse()));
        }
        return Some(Turn(DrainingRequest(ForbiddenResponse()), []));
      }
      if m.endOfStream {
        return Some(Turn(AwaitingRequestHeaders, BodylessResponse(server)));
      }
      BeginBuffering();
      var mcpHeaders := CaptureMCPRequestHeaders(m.headers);
      return Some(Turn(BufferingRequest(mcpHeaders, m.walk), []));
    }

    /** What a handler returned is what the move says, and so is the buffer. */
    ghost predicate Reports(turn: Option<Turn>, move: Move)
      reads this, backing
      requires Valid()
    {
      match move
      case Violation => turn.None?
      case Move(next, buf, answers) => turn == Some(Turn(next, answers)) && Contents() == buf
    }

    method HandleDraining(reject: seq<Answer>, m: Inbound) returns (turn: Option<Turn>)
      requires Valid()
      ensures Reports(turn, WhileDraining(reject, Contents(), m))
    {
      if m.Body? && m.direction == Request {
        if !m.endOfStream {
          return Some(Turn(DrainingRequest(reject), []));
        }
        return Some(Turn(AwaitingRequestHeaders, reject));
      } else if m.Trailers? && m.direction == Request {
        return Some(Turn(AwaitingRequestHeaders, reject));
      }
      return None;
    }

    method HandleBufferingRequest(hdrs: McpRequestHeaders, walk: Walk, m: Inbound) returns (turn: Option<Turn>)
      requires Valid()
      modifies this, backing
      ensures Valid() && (backing == old(backing) || fresh(backing))
      ensures Reports(turn, WhileBufferingRequest(ServiceOf(server), hdrs, walk, old(Contents()), m))
    {
      if m.Body? && m.direction == Request {
        Append(m.chunk);
        if !m.endOfStream {
          return Some(Turn(BufferingRequest(hdrs, walk), []));
        }
        turn := FinalizeRequest(hdrs, walk, false);
      } else if m.Trailers? && m.direction == Request {
        turn := FinalizeRequest(hdrs, walk, true);
      } else {
        turn := None;
      }
    }

    method FinalizeRequest(hdrs: McpRequestHeaders, walk: Walk, hasTrailers: bool) returns (turn: Option<Turn>)
      requires Valid()
      ensures Reports(turn, FinalizedRequest(ServiceOf(server), hdrs, walk, Contents(), hasTrailers))
    {
      var result := McpRequestHandler(server, backing[..len], hdrs, walk);
      var reps := result.immediate;
      if result.reroute.Some? {
        reps := Frame(result.reroute.value, Request, hasTrailers);
      }
      return Some(Turn(AwaitingResponseHeaders(RequestContext(result.id, result.config, 0, result.era)), reps));
    }

    method HandleResponseHeaders(request: RequestContext, m: Inbound) returns (turn: Option<Turn>)
      requires Valid()
      modifies this
      ensures Valid() && backing == old(backing)
      ensures Reports(turn, OnResponseHeaders(ServiceOf(server), request, old(Contents()), m))
    {
      if !m.ResponseHeaders? {
        return None;
      }
      if !request.IsToolCall() {
        return None;
      }
      var context := request;
      var status := ParseUpstreamStatusCode(m.headers);
      if status.Some? {
        context := context.(status := status.value);
      }
      if !m.endOfStream {
        BeginBuffering();
        return Some(Turn(BufferingResponse(context), []));
      }
      return Some(Turn(AwaitingRequestHeaders, BuildEndOfStreamResponse(server, context)));
    }

    method HandleBufferingResponse(request: RequestContext, m: Inbound) returns (turn: Option<Turn>)
      requires Valid()
      modifies this, backing
      ensures Valid() && (backing == old(backing) || fresh(backing))
      ensures Reports(turn, WhileBufferingResponse(ServiceOf(server), request, old(Contents()), m))
    {
      if m.Body? && m.direction == Response {
        Append(m.chunk);
        if !m.endOfStream {
          return Some(Turn(BufferingResponse(request), []));
        }
        turn := FinalizeResponse(request, false);
      } else if m.Trailers? && m.direction == Response {
        turn := FinalizeResponse(request, true);
      } else {
        turn := None;
      }
    }

    method FinalizeResponse(request: RequestContext, hasTrailers: bool) returns (turn: Option<Turn>)
      requires Valid()
      ensures Reports(turn, FinalizedResponse(ServiceOf(server), request, Contents(), hasTrailers))
    {
      var mutation := McpResponseHandler(server, request, backing[..len]);
      var reps := Frame(mutation, Response, hasTrailers);
      return Some(Turn(AwaitingRequestHeaders, reps));
    }

    method Handle(state: State, m: Inbound) returns (turn: Option<Turn>)
      requires Valid()
      modifies this, backing
      ensures Valid() && (backing == old(backing) || fresh(backing))
      ensures Reports(turn, Transition(ServiceOf(server), state, old(Contents()), m))
    {
      match state {
        case AwaitingRequestHeaders => turn := HandleRequestHeaders(m);
        case DrainingRequest(reject) => turn := HandleDraining(reject, m);
        case BufferingRequest(hdrs, walk) => turn := HandleBufferingRequest(hdrs, walk, m);
        case AwaitingResponseHeaders(request) => turn := HandleResponseHeaders(request, m);
        case BufferingResponse(request) => turn := HandleBufferingResponse(request, m);
      }
    }
  }

  /** The inner loop: one Send per answer. */
  method SendAll(sent: seq<Answer>, reps: seq<Answer>) returns (after: seq<Answer>)
    ensures after == sent + reps
  {
    after := sent;
    for j := 0 to |reps|
      invariant after == sent + reps[..j]
    {
      after := after + [reps[j]];
    }
    assert reps[..|reps|] == reps;
  }

  /** The receive, step, send loop: `received` is what Recv yields before the end
      of the stream, `sent` what is passed to Send. */
  method Process(server: Server, received: seq<Inbound>) returns (sent: seq<Answer>, violated: bool)
    ensures sent == Run(ServiceOf(server), received).sent
    ensures violated <==> Run(ServiceOf(server), received).Stopped?
  {
    var strm := new Stream(server);
    var state := AwaitingRequestHeaders;
    sent := [];
    for i := 0 to |received|
      invariant fresh(strm) && fresh(strm.backing) && strm.Valid() && strm.server == server
      invariant Run(ServiceOf(server), received[..i]) == Running(state, strm.Contents(), sent)
    {
      RunOneMore(ServiceOf(server), received, i);
      var turn := strm.Handle(state, received[i]);
      if turn.None? {
        StaysStopped(ServiceOf(server), received, i + 1);
        return sent, true;
      }
      state := turn.value.next;
      sent := SendAll(sent, turn.value.reps);
    }
    assert received[..|received|] == received;
    violated := false;
  }

  lemma RunOneMore(s: Service, ms: seq<Inbound>, i: nat)
    requires i < |ms|
    ensures Run(s, ms[..i + 1]) == After(s, Run(s, ms[..i]), ms[i])
  {
    assert ms[..i + 1][..i] == ms[..i];
  }

  lemma {:induction false} StaysStopped(s: Service, ms: seq<Inbound>, k: nat)
    requires k <= |ms| && Run(s, ms[..k]).Stopped?
    ensures Run(s, ms) == Run(s, ms[..k])
  {
    if k == |ms| {
      assert ms[..k] == ms;
    } else {
      assert ms[..|ms| - 1][..k] == ms[..k];
      StaysStopped(s, ms[..|ms| - 1], k);
    }
  }
}
